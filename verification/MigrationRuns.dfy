/** What MigrateUp and MigrateDown keep over whole histories of runs, failed runs included. */
module MigrationRuns {
  import opened Text
  import opened Sorting
  import opened MigrationFiles
  import opened MigrationEngine

  /** The effect of committing these migrations one after the other, in list order. */
  function Commits<D>(exec: Exec<D>, s: Db<D>, ms: seq<Migration>): Option<Db<D>>
    decreases |ms|
  {
    if ms == [] then Some(s)
    else
      var m := ms[|ms| - 1];
      match Commits(exec, s, ms[..|ms| - 1])
      case None => None
      case Some(t) =>
        if m.id in Ids(t.history) || exec(m.sql, t.data).None? then None
        else Some(t.(data := exec(m.sql, t.data).value, history := t.history + [RecordOf(m)]))
  }

  function IdSet(ms: seq<Migration>): set<string> { set m <- ms :: m.id }

  /** The effect of the scripts alone. */
  function Replay<D>(exec: Exec<D>, d: D, ms: seq<Migration>): Option<D>
    decreases |ms|
  {
    if ms == [] then Some(d)
    else
      match Replay(exec, d, ms[..|ms| - 1])
      case None => None
      case Some(d') => exec(ms[|ms| - 1].sql, d')
  }

  lemma {:induction false} ReplayAppend<D>(exec: Exec<D>, d: D, a: seq<Migration>, b: seq<Migration>)
    requires Replay(exec, d, a).Some?
    ensures Replay(exec, d, a + b) == Replay(exec, Replay(exec, d, a).value, b)
    decreases |b|
  {
    if b == [] {
      assert a + b == a;
    } else {
      ReplayAppend(exec, d, a, b[..|b| - 1]);
      assert (a + b)[..|a + b| - 1] == a + b[..|b| - 1];
    }
  }

  predicate DistinctIds(ms: seq<Migration>) {
    forall i, j :: 0 <= i < j < |ms| ==> ms[i].id != ms[j].id
  }

  lemma DistinctById(ms: seq<Migration>)
    requires DistinctIds(ms)
    ensures StrictWeak(ById) && Distinct(ById, multiset(ms))
  {
    ByIdStrictWeak();
    forall i, j | 0 <= i < j < |ms| ensures ById(ms[i], ms[j]) || ById(ms[j], ms[i]) {
      LessTotal(ms[i].id, ms[j].id);
    }
    DistinctPositions(ById, ms);
  }

  /** The up files by ascending id. */
  function SortedUp(dir: seq<File>): seq<Migration> {
    Sort(ById, Available(dir, Up))
  }

  /** With distinct ids the sort has no choice. */
  lemma OrderIsSortedUp(dir: seq<File>, order: seq<Migration>)
    requires DistinctIds(Available(dir, Up))
    requires multiset(order) == multiset(Available(dir, Up)) && Ordered(ById, order)
    ensures order == SortedUp(dir) && Ascending(ById, order) && DistinctIds(order)
  {
    var ups := Available(dir, Up);
    DistinctById(ups);
    SortPermutes(ById, ups);
    SortOrders(ById, ups);
    OrderedUnique(ById, order, Sort(ById, ups));
    OrderedDistinctAscends(ById, order);
    forall i, j | 0 <= i < j < |order| ensures order[i].id != order[j].id {
      assert ById(order[i], order[j]);
      LessIrreflexive(order[i].id);
    }
  }

  /** A run commits a prefix of its pending list, and all of it when it reports no error. */
  lemma {:induction false} UpAllPrefix<D>(exec: Exec<D>, s0: Db<D>, s: Db<D>, todo: seq<Migration>,
      tx: nat -> TxFault, from: nat)
    returns (k: nat)
    requires from <= |todo| && Commits(exec, s0, todo[..from]) == Some(s)
    ensures k <= |todo| && Commits(exec, s0, todo[..k]) == Some(UpAll(exec, s, todo, tx, from).0)
    ensures UpAll(exec, s, todo, tx, from).1.None? ==> k == |todo|
    decreases |todo| - from
  {
    if from == |todo| {
      return from;
    }
    var (s', err) := UpTx(exec, s, todo[from], tx(from));
    assert todo[..from + 1][..from] == todo[..from];
    if err.None? {
      k := UpAllPrefix(exec, s0, s', todo, tx, from + 1);
    } else {
      k := if s' == s then from else from + 1;
    }
  }

  /** With a healthy server the whole pending list is committed as soon as its scripts run. */
  lemma {:induction false} UpAllHealthy<D>(exec: Exec<D>, s0: Db<D>, s: Db<D>, todo: seq<Migration>,
      tx: nat -> TxFault, from: nat)
    requires from <= |todo| && Commits(exec, s0, todo[..from]) == Some(s)
    requires Commits(exec, s0, todo).Some?
    requires forall i: nat :: tx(i).NoFault?
    ensures UpAll(exec, s, todo, tx, from) == (Commits(exec, s0, todo).value, None)
    decreases |todo| - from
  {
    if from == |todo| {
      assert todo[..from] == todo;
    } else {
      CommitsPrefix(exec, s0, todo, from + 1);
      assert todo[..from + 1][..from] == todo[..from];
      UpAllHealthy(exec, s0, UpTx(exec, s, todo[from], tx(from)).0, todo, tx, from + 1);
    }
  }

  lemma {:induction false} CommitsPrefix<D>(exec: Exec<D>, s: Db<D>, ms: seq<Migration>, k: nat)
    requires k <= |ms| && Commits(exec, s, ms).Some?
    ensures Commits(exec, s, ms[..k]).Some?
    decreases |ms|
  {
    if k == |ms| {
      assert ms[..k] == ms;
    } else {
      CommitsPrefix(exec, s, ms[..|ms| - 1], k);
      assert ms[..|ms| - 1][..k] == ms[..k];
    }
  }

  /** Committing in two instalments is committing once. */
  lemma {:induction false} CommitsAppend<D>(exec: Exec<D>, s: Db<D>, a: seq<Migration>, b: seq<Migration>)
    requires Commits(exec, s, a).Some?
    ensures Commits(exec, s, a + b) == Commits(exec, Commits(exec, s, a).value, b)
    decreases |b|
  {
    if b == [] {
      assert a + b == a;
    } else {
      var front := b[..|b| - 1];
      CommitsAppend(exec, s, a, front);
      assert (a + b)[..|a + b| - 1] == a + front;
    }
  }

  lemma {:induction false} CommitsHistory<D>(exec: Exec<D>, s: Db<D>, ms: seq<Migration>)
    requires Commits(exec, s, ms).Some?
    ensures Commits(exec, s, ms).value.history == s.history + Records(ms)
    ensures Commits(exec, s, ms).value.table == s.table
    ensures Replay(exec, s.data, ms) == Some(Commits(exec, s, ms).value.data)
    decreases |ms|
  {
    if ms != [] {
      var front := ms[..|ms| - 1];
      CommitsHistory(exec, s, front);
      assert Records(ms) == Records(front) + [RecordOf(ms[|ms| - 1])];
    }
  }

  lemma {:induction false} UnappliedMember(ms: seq<Migration>, applied: set<string>)
    ensures forall m :: m in Unapplied(ms, applied) <==> m in ms && m.id !in applied
    decreases |ms|
  {
    if ms != [] {
      UnappliedMember(ms[..|ms| - 1], applied);
      assert ms == ms[..|ms| - 1] + [ms[|ms| - 1]];
    }
  }

  lemma {:induction false} NothingUnapplied(ms: seq<Migration>, applied: set<string>)
    requires forall m <- ms :: m.id in applied
    ensures Unapplied(ms, applied) == []
    decreases |ms|
  {
    if ms != [] {
      NothingUnapplied(ms[..|ms| - 1], applied);
    }
  }

  lemma {:induction false} UnappliedAscends(ms: seq<Migration>, applied: set<string>)
    requires Ascending(ById, ms)
    ensures Ascending(ById, Unapplied(ms, applied))
    decreases |ms|
  {
    if ms != [] {
      var front := ms[..|ms| - 1];
      UnappliedAscends(front, applied);
      UnappliedMember(front, applied);
      forall m <- Unapplied(front, applied) ensures ById(m, ms[|ms| - 1]) {
        assert m in front;
      }
    }
  }

  /** Once the first k pending migrations are in, the others are what remains pending. */
  lemma {:induction false} UnappliedAfter(ms: seq<Migration>, applied: set<string>, more: set<string>, k: nat)
    requires DistinctIds(ms)
    requires k <= |Unapplied(ms, applied)|
    requires more == applied + IdSet(Unapplied(ms, applied)[..k])
    ensures Unapplied(ms, more) == Unapplied(ms, applied)[k..]
    decreases |ms|
  {
    var all := Unapplied(ms, applied);
    if ms != [] {
      var front, m := ms[..|ms| - 1], ms[|ms| - 1];
      var rest := Unapplied(front, applied);
      UnappliedMember(front, applied);
      if m.id in applied {
        UnappliedAfter(front, applied, more, k);
      } else if k <= |rest| {
        assert all[..k] == rest[..k];
        UnappliedAfter(front, applied, more, k);
        assert m.id !in more by {
          forall x <- rest[..k] ensures x.id != m.id {
            assert x in rest;
          }
        }
      } else {
        assert all[..k] == all && all[k..] == [];
        UnappliedMember(ms, applied);
        assert forall x <- ms :: x.id in more;
        NothingUnapplied(ms, more);
      }
    }
  }

  /** From s to t the first k pending migrations were committed, and the others are still pending. */
  ghost predicate PrefixDone<D>(exec: Exec<D>, s: Db<D>, t: Db<D>, order: seq<Migration>, k: nat) {
    var todo := Unapplied(order, Ids(s.history));
    && k <= |todo|
    && Commits(exec, s.(table := true), todo[..k]) == Some(t.(table := true))
    && Unapplied(order, Ids(t.history)) == todo[k..]
  }

  /** One MigrateUp: whatever fails, it commits a prefix of the sorted pending list, the whole list
      if it reports no error, and what is pending afterwards is the rest. */
  lemma {:induction false} UpCommitsPrefix<D>(exec: Exec<D>, s: Db<D>, dir: seq<File>, f: UpFaults,
      order: seq<Migration>) returns (k: nat)
    requires DistinctIds(Available(dir, Up))
    requires multiset(order) == multiset(Available(dir, Up)) && Ordered(ById, order)
    ensures PrefixDone(exec, s, UpRun(exec, s, dir, f, order).0, order, k)
    ensures UpRun(exec, s, dir, f, order).1.None? ==>
      k == |Unapplied(order, Ids(s.history))| && UpRun(exec, s, dir, f, order).0.table
  {
    OrderIsSortedUp(dir, order);
    var start, todo := s.(table := true), Unapplied(order, Ids(s.history));
    var s1 := UpRun(exec, s, dir, f, order).0;
    assert todo[..0] == [];
    if f.table || f.find || LoadFails(dir, f.unreadable, Up) {
      k := 0;
    } else {
      k := UpAllPrefix(exec, start, start, todo, f.tx, 0);
    }
    CommitsHistory(exec, start, todo[..k]);
    IdsOfRecords(s.history, todo[..k]);
    UnappliedAfter(order, Ids(s.history), Ids(s1.history), k);
  }

  /** One MigrateUp after the other, whatever fails. */
  ghost function UpRuns<D>(exec: Exec<D>, s: Db<D>, dir: seq<File>, fs: seq<UpFaults>, order: seq<Migration>): Db<D>
    decreases |fs|
  {
    if fs == [] then s else UpRuns(exec, UpRun(exec, s, dir, fs[0], order).0, dir, fs[1..], order)
  }

  /** Some prefix of what was pending at s has been committed at t, and the rest is pending. */
  ghost predicate Progress<D>(exec: Exec<D>, s: Db<D>, t: Db<D>, order: seq<Migration>) {
    exists k: nat :: PrefixDone(exec, s, t, order, k)
  }

  lemma NoProgress<D>(exec: Exec<D>, s: Db<D>, order: seq<Migration>)
    ensures Progress(exec, s, s, order)
  {
    var todo := Unapplied(order, Ids(s.history));
    assert todo[..0] == [] && todo[0..] == todo;
    assert PrefixDone(exec, s, s, order, 0);
  }

  lemma ProgressOn<D>(exec: Exec<D>, s: Db<D>, s1: Db<D>, t: Db<D>, order: seq<Migration>)
    requires Progress(exec, s, s1, order) && Progress(exec, s1, t, order)
    ensures Progress(exec, s, t, order)
  {
    var i: nat :| PrefixDone(exec, s, s1, order, i);
    var j: nat :| PrefixDone(exec, s1, t, order, j);
    PrefixesJoin(exec, s, s1, t, order, i, j);
  }

  lemma PrefixesJoin<D>(exec: Exec<D>, s: Db<D>, s1: Db<D>, t: Db<D>, order: seq<Migration>, i: nat, j: nat)
    requires PrefixDone(exec, s, s1, order, i) && PrefixDone(exec, s1, t, order, j)
    ensures PrefixDone(exec, s, t, order, i + j)
  {
    var todo := Unapplied(order, Ids(s.history));
    SplitTwice(todo, i, j);
    CommitsAppend(exec, s.(table := true), todo[..i], todo[i..][..j]);
  }

  lemma OneRun<D>(exec: Exec<D>, s: Db<D>, dir: seq<File>, f: UpFaults, order: seq<Migration>)
    requires DistinctIds(Available(dir, Up))
    requires multiset(order) == multiset(Available(dir, Up)) && Ordered(ById, order)
    ensures Progress(exec, s, UpRun(exec, s, dir, f, order).0, order)
  {
    var k := UpCommitsPrefix(exec, s, dir, f, order);
  }

  /** Together they, too, commit a prefix of what was pending and leave the rest pending. */
  lemma {:induction false} UpRunsPrefix<D>(exec: Exec<D>, s: Db<D>, dir: seq<File>, fs: seq<UpFaults>,
      order: seq<Migration>)
    requires DistinctIds(Available(dir, Up))
    requires multiset(order) == multiset(Available(dir, Up)) && Ordered(ById, order)
    ensures Progress(exec, s, UpRuns(exec, s, dir, fs, order), order)
    decreases |fs|
  {
    if fs == [] {
      NoProgress(exec, s, order);
    } else {
      var s1 := UpRun(exec, s, dir, fs[0], order).0;
      OneRun(exec, s, dir, fs[0], order);
      UpRunsPrefix(exec, s1, dir, fs[1..], order);
      ProgressOn(exec, s, s1, UpRuns(exec, s1, dir, fs[1..], order), order);
    }
  }

  lemma SplitTwice<T>(s: seq<T>, i: nat, j: nat)
    requires i + j <= |s|
    ensures s[..i] + s[i..][..j] == s[..i + j] && s[i..][j..] == s[i + j..]
  {
  }

  /** MigrateUp resumes: after any number of runs that stopped on errors, a run that succeeds leaves the state
      one uninterrupted run would have left. */
  lemma {:induction false} UpResumes<D>(exec: Exec<D>, s: Db<D>, dir: seq<File>, fs: seq<UpFaults>, f: UpFaults,
      order: seq<Migration>)
    requires DistinctIds(Available(dir, Up))
    requires multiset(order) == multiset(Available(dir, Up)) && Ordered(ById, order)
    ensures
      var s1 := UpRuns(exec, s, dir, fs, order);
      var (s2, err) := UpRun(exec, s1, dir, f, order);
      err.None? ==> Commits(exec, s.(table := true), Unapplied(order, Ids(s.history))) == Some(s2)
  {
    var s1 := UpRuns(exec, s, dir, fs, order);
    UpRunsPrefix(exec, s, dir, fs, order);
    var j := UpCommitsPrefix(exec, s1, dir, f, order);
    if UpRun(exec, s1, dir, f, order).1.None? {
      Resumed(exec, s, s1, UpRun(exec, s1, dir, f, order).0, order);
    }
  }

  /** After any progress, committing all that is left is committing all that was pending. */
  lemma Resumed<D>(exec: Exec<D>, s: Db<D>, s1: Db<D>, t: Db<D>, order: seq<Migration>)
    requires Progress(exec, s, s1, order) && t.table
    requires PrefixDone(exec, s1, t, order, |Unapplied(order, Ids(s1.history))|)
    ensures Commits(exec, s.(table := true), Unapplied(order, Ids(s.history))) == Some(t)
  {
    var k: nat :| PrefixDone(exec, s, s1, order, k);
    var rest := |Unapplied(order, Ids(s1.history))|;
    PrefixesJoin(exec, s, s1, t, order, k, rest);
    NothingLeft(exec, s, s1, order, k);
    AllDone(exec, s, t, order);
  }

  lemma NothingLeft<D>(exec: Exec<D>, s: Db<D>, s1: Db<D>, order: seq<Migration>, k: nat)
    requires PrefixDone(exec, s, s1, order, k)
    ensures k + |Unapplied(order, Ids(s1.history))| == |Unapplied(order, Ids(s.history))|
  {
  }

  lemma AllDone<D>(exec: Exec<D>, s: Db<D>, t: Db<D>, order: seq<Migration>)
    requires PrefixDone(exec, s, t, order, |Unapplied(order, Ids(s.history))|) && t.table
    ensures Commits(exec, s.(table := true), Unapplied(order, Ids(s.history))) == Some(t)
  {
    var todo := Unapplied(order, Ids(s.history));
    assert todo[..|todo|] == todo;
  }

  lemma IdsOfRecords(history: seq<Record>, ms: seq<Migration>)
    ensures Ids(history + Records(ms)) == Ids(history) + IdSet(ms)
  {
    forall id | id in Ids(history + Records(ms)) ensures id in Ids(history) + IdSet(ms) {
      var r :| r in history + Records(ms) && r.id == id;
      if r !in history {
        var i :| 0 <= i < |ms| && Records(ms)[i] == r;
        assert ms[i] in ms;
      }
    }
    forall m <- ms ensures m.id in Ids(history + Records(ms)) {
      var i :| 0 <= i < |ms| && ms[i] == m;
      assert Records(ms)[i] in Records(ms);
      assert Records(ms)[i] in history + Records(ms);
    }
  }

  /** A run after a successful one finds nothing to do. */
  lemma UpIdempotent<D>(exec: Exec<D>, s: Db<D>, dir: seq<File>, f1: UpFaults, f2: UpFaults, order: seq<Migration>)
    requires DistinctIds(Available(dir, Up))
    requires multiset(order) == multiset(Available(dir, Up)) && Ordered(ById, order)
    requires UpRun(exec, s, dir, f1, order).1.None?
    ensures
      var s1 := UpRun(exec, s, dir, f1, order).0;
      && UpRun(exec, s1, dir, f2, order).0 == s1
      && (!f2.table && !f2.find && !LoadFails(dir, f2.unreadable, Up) ==> UpRun(exec, s1, dir, f2, order).1.None?)
  {
    var s1 := UpRun(exec, s, dir, f1, order).0;
    var k := UpCommitsPrefix(exec, s, dir, f1, order);
    assert Unapplied(order, Ids(s1.history)) == [];
  }

  /** A healthy run over scripts that run commits everything pending. */
  lemma UpHealthy<D>(exec: Exec<D>, s: Db<D>, dir: seq<File>, f: UpFaults, order: seq<Migration>)
    requires !f.table && !f.find && !LoadFails(dir, f.unreadable, Up) && forall i: nat :: f.tx(i).NoFault?
    requires Commits(exec, s.(table := true), Unapplied(order, Ids(s.history))).Some?
    ensures UpRun(exec, s, dir, f, order)
         == (Commits(exec, s.(table := true), Unapplied(order, Ids(s.history))).value, None)
  {
    var todo := Unapplied(order, Ids(s.history));
    assert todo[..0] == [];
    UpAllHealthy(exec, s.(table := true), s.(table := true), todo, f.tx, 0);
  }

  /** Transaction k neither meets a fault nor a script the server rejects. */
  predicate Goes<D>(exec: Exec<D>, s: Db<D>, m: Migration, fault: TxFault) {
    fault.NoFault? && exec(m.sql, s.data).Some?
  }

  /** Why it fails otherwise: the first call that does. */
  function Stopping<D>(exec: Exec<D>, s: Db<D>, m: Migration, fault: TxFault): Error
    requires !Goes(exec, s, m, fault)
  {
    if fault == BeginFails then BeginFailed
    else if fault == ExecFails || exec(m.sql, s.data) == None then MigrationFailed(m.id)
    else if fault == RecordFails then RecordFailed
    else CommitFailed
  }

  /** The pending list after its first k migrations went through. */
  ghost predicate Through<D>(exec: Exec<D>, s0: Db<D>, s: Db<D>, todo: seq<Migration>, tx: nat -> TxFault, k: nat)
    requires k <= |todo|
  {
    Commits(exec, s0, todo[..k]) == Some(s) && forall i :: 0 <= i < k ==> tx(i).NoFault?
  }

  /** How a run ends: with everything committed, or at the first transaction that does not go. */
  ghost predicate EndsAt<D>(exec: Exec<D>, s0: Db<D>, todo: seq<Migration>, tx: nat -> TxFault, k: nat, t: Db<D>,
      r: (Db<D>, Option<Error>))
    requires k <= |todo|
  {
    && Through(exec, s0, t, todo, tx, k)
    && if k == |todo| then r == (t, None)
       else !Goes(exec, t, todo[k], tx(k)) && r.1 == Some(Stopping(exec, t, todo[k], tx(k)))
  }

  lemma {:induction false} UpAllEnds<D>(exec: Exec<D>, s0: Db<D>, s: Db<D>, todo: seq<Migration>, tx: nat -> TxFault,
      from: nat) returns (k: nat, t: Db<D>)
    requires from <= |todo| && Through(exec, s0, s, todo, tx, from)
    requires DistinctIds(todo) && forall m <- todo :: m.id !in Ids(s0.history)
    ensures k <= |todo| && EndsAt(exec, s0, todo, tx, k, t, UpAll(exec, s, todo, tx, from))
    decreases |todo| - from
  {
    if from == |todo| {
      return from, s;
    }
    NotRecorded(exec, s0, todo, from);
    if Goes(exec, s, todo[from], tx(from)) {
      assert todo[..from + 1][..from] == todo[..from];
      k, t := UpAllEnds(exec, s0, UpTx(exec, s, todo[from], tx(from)).0, todo, tx, from + 1);
    } else {
      k, t := from, s;
    }
  }

  /** The next migration is not in the history yet. */
  lemma NotRecorded<D>(exec: Exec<D>, s0: Db<D>, todo: seq<Migration>, k: nat)
    requires k < |todo| && Commits(exec, s0, todo[..k]).Some?
    requires DistinctIds(todo) && forall m <- todo :: m.id !in Ids(s0.history)
    ensures todo[k].id !in Ids(Commits(exec, s0, todo[..k]).value.history)
  {
    CommitsHistory(exec, s0, todo[..k]);
    IdsOfRecords(s0.history, todo[..k]);
  }

  /** Every MigrateUp that gets to its loop commits the pending migrations up to the first whose transaction
      meets a fault or whose script the server rejects, reports the first call of it that failed, and reports
      nothing when there is none. */
  lemma UpStopsAtFirst<D>(exec: Exec<D>, s: Db<D>, dir: seq<File>, f: UpFaults, order: seq<Migration>)
    returns (k: nat, t: Db<D>)
    requires DistinctIds(Available(dir, Up))
    requires multiset(order) == multiset(Available(dir, Up)) && Ordered(ById, order)
    requires !f.table && !f.find && !LoadFails(dir, f.unreadable, Up)
    ensures k <= |Unapplied(order, Ids(s.history))|
    ensures EndsAt(exec, s.(table := true), Unapplied(order, Ids(s.history)), f.tx, k, t,
                   UpRun(exec, s, dir, f, order))
  {
    var todo, start := Unapplied(order, Ids(s.history)), s.(table := true);
    OrderIsSortedUp(dir, order);
    UnappliedMember(order, Ids(s.history));
    UnappliedAscends(order, Ids(s.history));
    forall i, j | 0 <= i < j < |todo| ensures todo[i].id != todo[j].id {
      assert ById(todo[i], todo[j]);
      LessIrreflexive(todo[i].id);
    }
    assert todo[..0] == [];
    k, t := UpAllEnds(exec, start, start, todo, f.tx, 0);
  }

  predicate LoopError(e: Error) { e.BeginFailed? || e.MigrationFailed? || e.RecordFailed? || e.CommitFailed? }

  lemma {:induction false} LoopErrors<D>(exec: Exec<D>, s: Db<D>, todo: seq<Migration>, tx: nat -> TxFault, from: nat)
    requires from <= |todo|
    ensures var err := UpAll(exec, s, todo, tx, from).1; err.Some? ==> LoopError(err.value)
    decreases |todo| - from
  {
    if from < |todo| && UpTx(exec, s, todo[from], tx(from)).1.None? {
      LoopErrors(exec, UpTx(exec, s, todo[from], tx(from)).0, todo, tx, from + 1);
    }
  }

  /** Before the loop a run fails in three ways, each exactly in its case, and then nothing is committed. */
  lemma UpErrors<D>(exec: Exec<D>, s: Db<D>, dir: seq<File>, f: UpFaults, order: seq<Migration>)
    ensures
      var r := UpRun(exec, s, dir, f, order);
      && (r.1 == Some(TableFailed) <==> f.table)
      && (r.1 == Some(HistoryFailed) <==> !f.table && f.find)
      && (r.1 == Some(LoadFailed) <==> !f.table && !f.find && LoadFails(dir, f.unreadable, Up))
      && (r.1.Some? && !LoopError(r.1.value) ==> r.0 == s.(table := s.table || !f.table))
  {
    LoopErrors(exec, s.(table := true), Unapplied(order, Ids(s.history)), f.tx, 0);
  }

  function Pending(st: seq<Status>): seq<string> {
    if st == [] then []
    else Pending(st[..|st| - 1]) + if st[|st| - 1].applied then [] else [st[|st| - 1].id]
  }

  function MigrationIds(ms: seq<Migration>): (r: seq<string>)
    ensures |r| == |ms| && forall i :: 0 <= i < |ms| ==> r[i] == ms[i].id
  {
    seq(|ms|, i requires 0 <= i < |ms| => ms[i].id)
  }

  /** GetMigrationStatus predicts MigrateUp: its unapplied entries are, in order, what the next
      run would execute. */
  lemma {:induction false} StatusPredicts(dir: seq<File>, history: seq<Record>, st: seq<Status>, order: seq<Migration>)
    requires DistinctIds(Available(dir, Up))
    requires multiset(order) == multiset(Available(dir, Up)) && Ordered(ById, order)
    requires multiset(st) == multiset(Statuses(Available(dir, Up), Ids(history))) && Ordered(StatusById, st)
    ensures st == Statuses(order, Ids(history))
    ensures Pending(st) == MigrationIds(Unapplied(order, Ids(history)))
    ensures |st| == |order| && forall i :: 0 <= i < |st| ==>
      st[i].id == order[i].id && st[i].name == order[i].name && st[i].kind == order[i].kind
  {
    var applied, ups := Ids(history), Available(dir, Up);
    OrderIsSortedUp(dir, order);
    StatusByIdStrictWeak();
    var want := Statuses(order, applied);
    SortMaps(ups, applied);
    SortPermutes(StatusById, Statuses(ups, applied));
    forall i, j | 0 <= i < j < |want| ensures StatusById(want[i], want[j]) {
      assert ById(order[i], order[j]);
    }
    AscendingDistinct(StatusById, want);
    OrderedUnique(StatusById, want, st);
    PendingIds(order, applied);
  }

  /** Sorting the entries is listing the sorted files. */
  lemma {:induction false} InsertMaps(m: Migration, ms: seq<Migration>, applied: set<string>)
    ensures Insert(StatusById, StatusOf(m, applied), Statuses(ms, applied)) == Statuses(Insert(ById, m, ms), applied)
  {
    if ms != [] && ById(ms[0], m) {
      InsertMaps(m, ms[1..], applied);
      assert Statuses(ms, applied)[1..] == Statuses(ms[1..], applied);
    }
  }

  lemma {:induction false} SortMaps(ms: seq<Migration>, applied: set<string>)
    ensures Sort(StatusById, Statuses(ms, applied)) == Statuses(Sort(ById, ms), applied)
  {
    if ms != [] {
      SortMaps(ms[1..], applied);
      InsertMaps(ms[0], Sort(ById, ms[1..]), applied);
      assert Statuses(ms, applied)[1..] == Statuses(ms[1..], applied);
    }
  }

  lemma {:induction false} PendingIds(ms: seq<Migration>, applied: set<string>)
    ensures Pending(Statuses(ms, applied)) == MigrationIds(Unapplied(ms, applied))
    decreases |ms|
  {
    if ms != [] {
      var front := ms[..|ms| - 1];
      PendingIds(front, applied);
      assert Statuses(ms, applied)[..|ms| - 1] == Statuses(front, applied);
    }
  }

  // ----- The stack: any sequence of runs over a growing directory

  /** What happens to a deployment: a new migration is written, or the migrator is run. */
  datatype Event =
    | Add(meta: Meta, upSql: string, downSql: Option<string>)
    | RunUp(up: UpFaults)
    | RunDown(down: DownFaults)

  datatype World<+D> = World(db: Db<D>, dir: seq<File>)

  ghost predicate Undoes<D(!new)>(exec: Exec<D>, down: string, up: string) {
    forall d, d' :: exec(up, d) == Some(d') ==> exec(down, d') == Some(d)
  }

  /** New files have larger ids than all files on disk, and a down script undoes its up script. */
  ghost predicate Allowed<D(!new)>(exec: Exec<D>, w: World<D>, e: Event) {
    e.Add? ==>
      && Printable(e.meta)
      && (forall m <- Available(w.dir, Up) + Available(w.dir, Down) :: Less(m.id, e.meta.id))
      && (e.downSql.Some? ==> Undoes(exec, e.downSql.value, e.upSql))
  }

  function NewFiles(e: Event): seq<File>
    requires e.Add?
  {
    [File(FileName(e.meta, Up), e.upSql)]
    + if e.downSql.Some? then [File(FileName(e.meta, Down), e.downSql.value)] else []
  }

  ghost function Step<D(!new)>(exec: Exec<D>, w: World<D>, e: Event): World<D> {
    match e
    case Add(_, _, _) => w.(dir := w.dir + NewFiles(e))
    case RunUp(f) => w.(db := UpRun(exec, w.db, w.dir, f, SortedUp(w.dir)).0)
    case RunDown(f) => w.(db := DownRun(exec, w.db, w.dir, f).0)
  }

  ghost predicate AllowedRun<D(!new)>(exec: Exec<D>, w: World<D>, es: seq<Event>)
    decreases |es|
  {
    es == [] || (Allowed(exec, w, es[0]) && AllowedRun(exec, Step(exec, w, es[0]), es[1..]))
  }

  ghost function Run<D(!new)>(exec: Exec<D>, w: World<D>, es: seq<Event>): World<D>
    decreases |es|
  {
    if es == [] then w else Run(exec, Step(exec, w, es[0]), es[1..])
  }

  ghost predicate PairsUndo<D(!new)>(exec: Exec<D>, ups: seq<Migration>, downs: seq<Migration>) {
    forall u <- ups, v <- downs :: u.id == v.id ==> Undoes(exec, v.sql, u.sql)
  }

  /** Every down file undoes the up file of its id, and ids are distinct. */
  ghost predicate GoodFiles<D(!new)>(exec: Exec<D>, dir: seq<File>) {
    DistinctIds(Available(dir, Up)) && PairsUndo(exec, Available(dir, Up), Available(dir, Down))
  }

  /** The database is the initial one with the first k up scripts applied in ascending id order,
      and the history names exactly those, in that order. */
  ghost predicate StackAt<D(!new)>(exec: Exec<D>, d0: D, w: World<D>, k: nat) {
    && k <= |SortedUp(w.dir)|
    && w.db.history == Records(SortedUp(w.dir)[..k])
    && Replay(exec, d0, SortedUp(w.dir)[..k]) == Some(w.db.data)
  }

  ghost predicate Stacked<D(!new)>(exec: Exec<D>, d0: D, w: World<D>) {
    GoodFiles(exec, w.dir) && exists k: nat :: StackAt(exec, d0, w, k)
  }

  lemma SortedUpFacts(dir: seq<File>)
    requires DistinctIds(Available(dir, Up))
    ensures multiset(SortedUp(dir)) == multiset(Available(dir, Up)) && Ordered(ById, SortedUp(dir))
    ensures Ascending(ById, SortedUp(dir)) && DistinctIds(SortedUp(dir))
  {
    ByIdStrictWeak();
    SortPermutes(ById, Available(dir, Up));
    SortOrders(ById, Available(dir, Up));
    OrderIsSortedUp(dir, SortedUp(dir));
  }

  lemma AddPair<D(!new)>(exec: Exec<D>, ups: seq<Migration>, downs: seq<Migration>, u: Migration, vs: seq<Migration>)
    requires DistinctIds(ups) && PairsUndo(exec, ups, downs)
    requires forall x <- ups :: x.id != u.id
    requires forall x <- downs :: x.id != u.id
    requires forall v <- vs :: v.id == u.id && Undoes(exec, v.sql, u.sql)
    ensures DistinctIds(ups + [u]) && PairsUndo(exec, ups + [u], downs + vs)
  {
    forall x <- ups + [u], y <- downs + vs | x.id == y.id ensures Undoes(exec, y.sql, x.sql) {
      if x in ups {
        assert y in downs;
      } else {
        assert x == u && y in vs;
      }
    }
  }

  lemma AddKeepsFiles<D(!new)>(exec: Exec<D>, w: World<D>, e: Event)
    requires e.Add? && Allowed(exec, w, e) && GoodFiles(exec, w.dir)
    ensures GoodFiles(exec, Step(exec, w, e).dir)
  {
    var ups, downs := Available(w.dir, Up), Available(w.dir, Down);
    var m := e.meta;
    var u := Migration(m.id, m.kind, m.name, Up, e.upSql);
    var vs := if e.downSql.Some? then [Migration(m.id, m.kind, m.name, Down, e.downSql.value)] else [];
    AddedFiles(w.dir, e);
    LessIrreflexive(m.id);
    forall x: Migration | x in ups || x in downs ensures x.id != m.id {
      assert x in ups + downs;
    }
    AddPair(exec, ups, downs, u, vs);
    assert Available(Step(exec, w, e).dir, Down) == downs + vs;
  }

  lemma AddedIsGreatest<D(!new)>(exec: Exec<D>, w: World<D>, e: Event, sorted: seq<Migration>)
    requires e.Add? && Allowed(exec, w, e) && multiset(sorted) == multiset(Available(w.dir, Up))
    ensures forall x <- sorted :: Less(x.id, e.meta.id) && !Less(e.meta.id, x.id)
  {
    forall x <- sorted ensures Less(x.id, e.meta.id) && !Less(e.meta.id, x.id) {
      assert x in multiset(Available(w.dir, Up));
      assert x in Available(w.dir, Up) + Available(w.dir, Down);
      LessTotal(x.id, e.meta.id);
    }
  }

  lemma AddGoesLast<D(!new)>(exec: Exec<D>, w: World<D>, e: Event)
    requires e.Add? && Allowed(exec, w, e) && GoodFiles(exec, w.dir)
    ensures SortedUp(Step(exec, w, e).dir)
         == SortedUp(w.dir) + [Migration(e.meta.id, e.meta.kind, e.meta.name, Up, e.upSql)]
  {
    var m := Migration(e.meta.id, e.meta.kind, e.meta.name, Up, e.upSql);
    AddedFiles(w.dir, e);
    AddKeepsFiles(exec, w, e);
    SortedUpFacts(w.dir);
    AddedIsGreatest(exec, w, e, SortedUp(w.dir));
    GreatestLast(Available(w.dir, Up), SortedUp(w.dir), m);
    OrderIsSortedUp(Step(exec, w, e).dir, SortedUp(w.dir) + [m]);
  }

  lemma GreatestLast(ups: seq<Migration>, sorted: seq<Migration>, m: Migration)
    requires multiset(sorted) == multiset(ups) && Ordered(ById, sorted)
    requires forall x <- sorted :: Less(x.id, m.id) && !Less(m.id, x.id)
    ensures multiset(sorted + [m]) == multiset(ups + [m]) && Ordered(ById, sorted + [m])
  {
    forall i, j | 0 <= i < j < |sorted + [m]| ensures !ById((sorted + [m])[j], (sorted + [m])[i]) {
      if j == |sorted| {
        assert sorted[i] in sorted;
      }
    }
  }

  lemma AddedFiles(dir: seq<File>, e: Event)
    requires e.Add? && Printable(e.meta)
    ensures
      var m := e.meta;
      var dir' := dir + NewFiles(e);
      && Available(dir', Up) == Available(dir, Up) + [Migration(m.id, m.kind, m.name, Up, e.upSql)]
      && Available(dir', Down) == Available(dir, Down)
          + if e.downSql.Some? then [Migration(m.id, m.kind, m.name, Down, e.downSql.value)] else []
  {
    var up := File(FileName(e.meta, Up), e.upSql);
    PrintThenParse(e.meta, Up);
    ParseOtherDirection(e.meta, Up);
    if e.downSql.Some? {
      CreatedPairLoads(dir, e.meta, e.upSql, e.downSql.value);
      assert dir + NewFiles(e) == dir + [up] + [File(FileName(e.meta, Down), e.downSql.value)];
    } else {
      assert dir + NewFiles(e) == dir + [up];
      AvailableAppend(dir, up, Up);
      AvailableAppend(dir, up, Down);
    }
  }

  lemma StackPending<D(!new)>(exec: Exec<D>, d0: D, w: World<D>, k: nat)
    requires GoodFiles(exec, w.dir) && StackAt(exec, d0, w, k)
    ensures Unapplied(SortedUp(w.dir), Ids(w.db.history)) == SortedUp(w.dir)[k..]
  {
    SortedUpFacts(w.dir);
    RecordIds(SortedUp(w.dir)[..k]);
    UnappliedSuffix(SortedUp(w.dir), k);
  }

  lemma RecordIds(ms: seq<Migration>)
    ensures Ids(Records(ms)) == IdSet(ms)
  {
    IdsOfRecords([], ms);
    assert [] + Records(ms) == Records(ms);
    assert Ids([]) == {};
  }

  lemma PrefixGrows(ms: seq<Migration>, k: nat, j: nat)
    requires k + j <= |ms|
    ensures ms[..k] + ms[k..][..j] == ms[..k + j]
    ensures Records(ms[..k]) + Records(ms[k..][..j]) == Records(ms[..k + j])
  {
  }

  lemma UpKeepsStack<D(!new)>(exec: Exec<D>, d0: D, w: World<D>, f: UpFaults, k: nat) returns (j: nat)
    requires GoodFiles(exec, w.dir) && StackAt(exec, d0, w, k)
    ensures StackAt(exec, d0, Step(exec, w, RunUp(f)), k + j)
  {
    var sorted := SortedUp(w.dir);
    StackPending(exec, d0, w, k);
    SortedUpFacts(w.dir);
    j := UpCommitsPrefix(exec, w.db, w.dir, f, sorted);
    var done := sorted[k..][..j];
    PrefixGrows(sorted, k, j);
    CommitsHistory(exec, w.db.(table := true), done);
    ReplayAppend(exec, d0, sorted[..k], done);
    var s1 := UpRun(exec, w.db, w.dir, f, sorted).0;
    assert s1.history == Records(sorted[..k + j]) && Replay(exec, d0, sorted[..k + j]) == Some(s1.data);
  }

  lemma {:induction false} UnappliedSuffix(ms: seq<Migration>, k: nat)
    requires DistinctIds(ms) && k <= |ms|
    ensures Unapplied(ms, IdSet(ms[..k])) == ms[k..]
    decreases |ms|
  {
    var applied := IdSet(ms[..k]);
    if ms != [] {
      var front := ms[..|ms| - 1];
      if k == |ms| {
        assert ms[..k] == ms;
        NothingUnapplied(ms, applied);
      } else {
        assert front[..k] == ms[..k];
        UnappliedSuffix(front, k);
        assert ms[|ms| - 1].id !in applied;
        assert ms[k..] == front[k..] + [ms[|ms| - 1]];
      }
    }
  }

  lemma {:induction false} RemoveAbsent(history: seq<Record>, id: string)
    requires forall r <- history :: r.id != id
    ensures Remove(history, id) == history
    decreases |history|
  {
    if history != [] {
      RemoveAbsent(history[..|history| - 1], id);
    }
  }

  lemma {:induction false} FindIdFinds(ms: seq<Migration>, id: string)
    ensures FindId(ms, id).Some? ==> FindId(ms, id).value in ms && FindId(ms, id).value.id == id
  {
    if ms != [] && ms[0].id != id {
      FindIdFinds(ms[1..], id);
    }
  }

  /** On a stack the greatest id is the last one committed. */
  lemma StackTop<D(!new)>(exec: Exec<D>, d0: D, w: World<D>, k: nat)
    requires GoodFiles(exec, w.dir) && StackAt(exec, d0, w, k) && k > 0
    ensures
      var top := SortedUp(w.dir)[k - 1];
      && LastRecord(w.db.history) == RecordOf(top)
      && Remove(w.db.history, top.id) == Records(SortedUp(w.dir)[..k - 1])
  {
    var sorted := SortedUp(w.dir);
    SortedUpFacts(w.dir);
    RecordsAscend(sorted, k);
    AscendingTop(Records(sorted[..k]));
    assert Records(sorted[..k])[..k - 1] == Records(sorted[..k - 1]);
  }

  lemma RecordsAscend(ms: seq<Migration>, k: nat)
    requires Ascending(ById, ms) && k <= |ms|
    ensures HistoryAscends(Records(ms[..k]))
  {
    forall i, j | 0 <= i < j < k ensures Less(Records(ms[..k])[i].id, Records(ms[..k])[j].id) {
      assert ById(ms[i], ms[j]);
    }
  }

  /** In a history in id order the last row is the greatest. */
  lemma AscendingTop(h: seq<Record>)
    requires h != [] && HistoryAscends(h)
    ensures LastRecord(h) == h[|h| - 1] && Remove(h, h[|h| - 1].id) == h[..|h| - 1]
  {
    var last := LastRecord(h);
    var i :| 0 <= i < |h| && h[i] == last;
    assert h[|h| - 1] in h && !Less(h[i].id, h[|h| - 1].id);
    forall k | 0 <= k < |h| - 1 ensures h[k].id != h[|h| - 1].id {
      LessIrreflexive(h[k].id);
    }
    RemoveAbsent(h[..|h| - 1], h[|h| - 1].id);
  }

  lemma TopUndone<D(!new)>(exec: Exec<D>, w: World<D>, k: nat, v: Migration)
    requires GoodFiles(exec, w.dir) && 0 < k <= |SortedUp(w.dir)|
    requires FindId(Available(w.dir, Down), SortedUp(w.dir)[k - 1].id) == Some(v)
    ensures v.id == SortedUp(w.dir)[k - 1].id && Undoes(exec, v.sql, SortedUp(w.dir)[k - 1].sql)
  {
    var top := SortedUp(w.dir)[k - 1];
    SortedUpFacts(w.dir);
    assert top in multiset(Available(w.dir, Up));
    FindIdFinds(Available(w.dir, Down), top.id);
  }

  /** On a stack, running the down file of the greatest id takes the last script back. */
  lemma DownUndoesTop<D(!new)>(exec: Exec<D>, d0: D, w: World<D>, k: nat, v: Migration)
    requires GoodFiles(exec, w.dir) && StackAt(exec, d0, w, k) && k > 0
    requires FindId(Available(w.dir, Down), SortedUp(w.dir)[k - 1].id) == Some(v)
    ensures v.id == SortedUp(w.dir)[k - 1].id
    ensures exec(v.sql, w.db.data).Some? && exec(v.sql, w.db.data) == Replay(exec, d0, SortedUp(w.dir)[..k - 1])
  {
    var sorted, top := SortedUp(w.dir), SortedUp(w.dir)[k - 1];
    TopUndone(exec, w, k, v);
    assert sorted[..k][..k - 1] == sorted[..k - 1];
    var below := Replay(exec, d0, sorted[..k - 1]).value;
    assert exec(top.sql, below) == Some(w.db.data);
  }

  /** A MigrateDown either changes nothing and fails, or is the transaction that runs the down script of
      the greatest id. */
  lemma DownCases<D>(exec: Exec<D>, s: Db<D>, dir: seq<File>, f: DownFaults)
    ensures
      var r, found := DownRun(exec, s, dir, f), FindId(Available(dir, Down), LastId(s.history));
      || (r.0 == s && r.1.Some?)
      || (s.history != [] && found.Some? && r == DownTx(exec, s, found.value, f.tx))
  {
  }

  function LastId(history: seq<Record>): string { if history == [] then "" else LastRecord(history).id }

  /** That transaction runs the script and removes its rows, or changes nothing and fails. */
  lemma DownTxCases<D>(exec: Exec<D>, s: Db<D>, m: Migration, fault: TxFault)
    ensures
      var r := DownTx(exec, s, m, fault);
      || (r.0 == s && r.1.Some?)
      || (exec(m.sql, s.data).Some? && r.0 == s.(data := exec(m.sql, s.data).value, history := Remove(s.history, m.id)))
  {
  }

  /** The migration a MigrateDown takes back, if it gets as far as its transaction. */
  ghost function Target<D>(s: Db<D>, dir: seq<File>, f: DownFaults): Option<Migration> {
    if !s.table || f.first || s.history == [] || LoadFails(dir, f.unreadable, Down) then None
    else FindId(Available(dir, Down), LastRecord(s.history).id)
  }

  /** A MigrateDown succeeds exactly when nothing fails, the row of the greatest id has a loadable down file, and
      its script runs. It then runs that script and drops that row. The same happens when only the commit
      reports an error although it took effect; in every other case nothing changes. */
  lemma DownOutcome<D>(exec: Exec<D>, s: Db<D>, dir: seq<File>, f: DownFaults)
    ensures
      var r, m := DownRun(exec, s, dir, f), Target(s, dir, f);
      var runs := m.Some? && exec(m.value.sql, s.data).Some?;
      && (r.1.None? <==> runs && f.tx == TxFault.NoFault)
      && (r.1 == Some(CommitFailed) <==> runs && f.tx.CommitFails?)
      && r.0 == (if runs && (f.tx == TxFault.NoFault || f.tx == CommitFails(true))
                 then Db(exec(m.value.sql, s.data).value, s.table, Remove(s.history, LastRecord(s.history).id)) else s)
  {
    if s.history != [] {
      FindIdFinds(Available(dir, Down), LastRecord(s.history).id);
    }
  }

  /** And each error has its case. */
  lemma DownErrors<D>(exec: Exec<D>, s: Db<D>, dir: seq<File>, f: DownFaults)
    ensures
      var err, m := DownRun(exec, s, dir, f).1, Target(s, dir, f);
      var listed := s.table && !f.first && s.history != [];
      && (err == Some(NoLastMigration) <==> !listed)
      && (err == Some(LoadFailed) <==> listed && LoadFails(dir, f.unreadable, Down))
      && (listed && !LoadFails(dir, f.unreadable, Down) && m.None? ==>
            err == Some(NoDownMigration(LastRecord(s.history).id)))
      && (err.Some? && err.value.NoDownMigration? ==> listed && !LoadFails(dir, f.unreadable, Down) && m.None?)
      && (err == Some(BeginFailed) <==> m.Some? && f.tx == BeginFails)
      && (err == Some(DownFailed) <==>
            m.Some? && f.tx != BeginFails && (f.tx == ExecFails || exec(m.value.sql, s.data).None?))
      && (err == Some(DeleteFailed) <==> m.Some? && f.tx == RecordFails && exec(m.value.sql, s.data).Some?)
  {
  }

  lemma DownTakesTop<D(!new)>(exec: Exec<D>, d0: D, w: World<D>, v: Migration, fault: TxFault, k: nat)
    requires GoodFiles(exec, w.dir) && StackAt(exec, d0, w, k) && k > 0
    requires FindId(Available(w.dir, Down), SortedUp(w.dir)[k - 1].id) == Some(v)
    ensures
      var r := DownTx(exec, w.db, v, fault);
      || (r.0 == w.db && r.1.Some?)
      || StackAt(exec, d0, World(r.0, w.dir), k - 1)
  {
    StackTop(exec, d0, w, k);
    DownTxCases(exec, w.db, v, fault);
    DownUndoesTop(exec, d0, w, k, v);
  }

  lemma {:induction false} DownKeepsStack<D(!new)>(exec: Exec<D>, d0: D, w: World<D>, f: DownFaults, k: nat)
      returns (k': nat)
    requires GoodFiles(exec, w.dir) && StackAt(exec, d0, w, k)
    ensures k' == k || k' + 1 == k
    ensures StackAt(exec, d0, Step(exec, w, RunDown(f)), k')
    ensures DownRun(exec, w.db, w.dir, f).1.None? ==> k' + 1 == k
  {
    DownCases(exec, w.db, w.dir, f);
    k' := StackAfter(exec, d0, w, DownRun(exec, w.db, w.dir, f), f.tx, k);
  }

  lemma StackAfter<D(!new)>(exec: Exec<D>, d0: D, w: World<D>, r: (Db<D>, Option<Error>), fault: TxFault, k: nat)
    returns (k': nat)
    requires GoodFiles(exec, w.dir) && StackAt(exec, d0, w, k)
    requires
      var found := FindId(Available(w.dir, Down), LastId(w.db.history));
      || (r.0 == w.db && r.1.Some?)
      || (w.db.history != [] && found.Some? && r == DownTx(exec, w.db, found.value, fault))
    ensures k' == k || k' + 1 == k
    ensures StackAt(exec, d0, World(r.0, w.dir), k')
    ensures r.1.None? ==> k' + 1 == k
  {
    if r.0 == w.db && r.1.Some? {
      return k;
    }
    StackTop(exec, d0, w, k);
    DownTakesTop(exec, d0, w, FindId(Available(w.dir, Down), LastId(w.db.history)).value, fault, k);
    k' := k - 1;
  }

  ghost predicate HealthyDown(f: DownFaults) { !f.first && f.unreadable == {} && f.tx == TxFault.NoFault }

  /** With nothing failing, MigrateDown does take the top off a stack whose top has a down file. */
  lemma HealthyDownPops<D(!new)>(exec: Exec<D>, d0: D, w: World<D>, f: DownFaults, k: nat)
    requires GoodFiles(exec, w.dir) && StackAt(exec, d0, w, k) && k > 0 && w.db.table && HealthyDown(f)
    requires FindId(Available(w.dir, Down), SortedUp(w.dir)[k - 1].id).Some?
    ensures DownRun(exec, w.db, w.dir, f).1 == None
    ensures StackAt(exec, d0, Step(exec, w, RunDown(f)), k - 1) && Step(exec, w, RunDown(f)).db.table
  {
    var v := FindId(Available(w.dir, Down), SortedUp(w.dir)[k - 1].id).value;
    StackTop(exec, d0, w, k);
    DownUndoesTop(exec, d0, w, k, v);
    DownOutcome(exec, w.db, w.dir, f);
    assert !LoadFails(w.dir, f.unreadable, Down);
  }

  /** So as many MigrateDowns as there are rows, none of them failing, lead back to the initial database when
      every applied migration has a down file. */
  lemma {:induction false} CompleteRollback<D(!new)>(exec: Exec<D>, d0: D, w: World<D>, fs: seq<DownFaults>)
    requires GoodFiles(exec, w.dir) && StackAt(exec, d0, w, |fs|) && w.db.table
    requires forall f <- fs :: HealthyDown(f)
    requires forall i :: 0 <= i < |fs| ==> FindId(Available(w.dir, Down), SortedUp(w.dir)[i].id).Some?
    ensures AllSucceed(exec, w.db, w.dir, fs)
    ensures Downs(exec, w.db, w.dir, fs) == Db(d0, true, [])
    decreases |fs|
  {
    if fs == [] {
      assert SortedUp(w.dir)[..0] == [];
    } else {
      HealthyDownPops(exec, d0, w, fs[0], |fs|);
      CompleteRollback(exec, d0, Step(exec, w, RunDown(fs[0])), fs[1..]);
    }
  }

  /** One MigrateDown after the other. */
  ghost function Downs<D(!new)>(exec: Exec<D>, s: Db<D>, dir: seq<File>, fs: seq<DownFaults>): Db<D>
    decreases |fs|
  {
    if fs == [] then s else Downs(exec, DownRun(exec, s, dir, fs[0]).0, dir, fs[1..])
  }

  /** Scripts that run one after the other can be committed one after the other, their ids being new. */
  lemma {:induction false} ReplayCommits<D>(exec: Exec<D>, s: Db<D>, ms: seq<Migration>)
    requires Replay(exec, s.data, ms).Some?
    requires DistinctIds(ms) && forall m <- ms :: m.id !in Ids(s.history)
    ensures Commits(exec, s, ms).Some?
    decreases |ms|
  {
    if ms != [] {
      var front := ms[..|ms| - 1];
      ReplayCommits(exec, s, front);
      CommitsHistory(exec, s, front);
      IdsOfRecords(s.history, front);
    }
  }

  /** The part of the files above a stack, committed. */
  lemma RestCommits<D(!new)>(exec: Exec<D>, d0: D, w: World<D>, k: nat, rest: seq<Migration>)
    requires GoodFiles(exec, w.dir) && StackAt(exec, d0, w, k) && rest == SortedUp(w.dir)[k..]
    requires Replay(exec, d0, SortedUp(w.dir)).Some?
    ensures Unapplied(SortedUp(w.dir), Ids(w.db.history)) == rest
    ensures
      var t := Commits(exec, w.db.(table := true), rest);
      && t.Some? && t.value.history == w.db.history + Records(rest)
      && Replay(exec, d0, SortedUp(w.dir)) == Some(t.value.data)
  {
    StackPending(exec, d0, w, k);
    SortedUpFacts(w.dir);
    UnappliedMember(SortedUp(w.dir), Ids(w.db.history));
    ReplayRest(exec, d0, SortedUp(w.dir), k);
    RestDistinct(SortedUp(w.dir), k);
    ReplayCommits(exec, w.db.(table := true), rest);
    CommitsHistory(exec, w.db.(table := true), rest);
  }

  lemma ReplayRest<D>(exec: Exec<D>, d: D, ms: seq<Migration>, k: nat)
    requires k <= |ms| && Replay(exec, d, ms[..k]).Some?
    ensures Replay(exec, d, ms) == Replay(exec, Replay(exec, d, ms[..k]).value, ms[k..])
  {
    ReplayAppend(exec, d, ms[..k], ms[k..]);
    assert ms[..k] + ms[k..] == ms;
  }

  lemma RestDistinct(ms: seq<Migration>, k: nat)
    requires DistinctIds(ms) && k <= |ms|
    ensures DistinctIds(ms[k..])
  {
  }

  /** With nothing failing, MigrateUp raises a stack to the full height of the files when their scripts run. */
  lemma HealthyUpFills<D(!new)>(exec: Exec<D>, d0: D, w: World<D>, f: UpFaults, k: nat)
    requires GoodFiles(exec, w.dir) && StackAt(exec, d0, w, k) && Healthy(f)
    requires Replay(exec, d0, SortedUp(w.dir)).Some?
    ensures UpRun(exec, w.db, w.dir, f, SortedUp(w.dir)).1 == None
    ensures StackAt(exec, d0, Step(exec, w, RunUp(f)), |SortedUp(w.dir)|)
  {
    var sorted := SortedUp(w.dir);
    RestCommits(exec, d0, w, k, sorted[k..]);
    UpHealthy(exec, w.db, w.dir, f, sorted);
    PrefixGrows(sorted, k, |sorted| - k);
    FullPrefix(sorted, k);
  }

  lemma FullPrefix<T>(s: seq<T>, k: nat)
    requires k <= |s|
    ensures s[..|s|] == s && s[k..][..|s| - k] == s[k..]
  {
  }

  /** The stack theorem. Starting from any stack, such as an empty deployment (EmptyIsStacked), after any run of
      additions, MigrateUp and MigrateDown, whatever failed on the way, the history is a prefix of the files
      by ascending id and the database is the initial one with exactly those up scripts applied. */
  lemma {:induction false} StackTheorem<D(!new)>(exec: Exec<D>, d0: D, w: World<D>, es: seq<Event>)
    requires Stacked(exec, d0, w) && AllowedRun(exec, w, es)
    ensures Stacked(exec, d0, Run(exec, w, es))
    decreases |es|
  {
    if es != [] {
      var e, w' := es[0], Step(exec, w, es[0]);
      var k: nat :| StackAt(exec, d0, w, k);
      match e {
        case Add(_, _, _) =>
          AddKeepsFiles(exec, w, e);
          AddGoesLast(exec, w, e);
          assert SortedUp(w'.dir)[..k] == SortedUp(w.dir)[..k];
          assert StackAt(exec, d0, w', k);
        case RunUp(f) =>
          var j := UpKeepsStack(exec, d0, w, f, k);
        case RunDown(f) =>
          var k' := DownKeepsStack(exec, d0, w, f, k);
      }
      StackTheorem(exec, d0, w', es[1..]);
    }
  }

  lemma EmptyIsStacked<D(!new)>(exec: Exec<D>, d0: D, table: bool)
    ensures Stacked(exec, d0, World(Db(d0, table, []), []))
  {
    assert StackAt(exec, d0, World(Db(d0, table, []), []), 0);
  }

  /** Rolling everything back gives the initial database. */
  lemma RolledBack<D(!new)>(exec: Exec<D>, d0: D, table: bool, es: seq<Event>)
    requires AllowedRun(exec, World(Db(d0, table, []), []), es)
    ensures
      var w := Run(exec, World(Db(d0, table, []), []), es);
      w.db.history == [] ==> w.db.data == d0
  {
    EmptyIsStacked(exec, d0, table);
    StackTheorem(exec, d0, World(Db(d0, table, []), []), es);
    var w := Run(exec, World(Db(d0, table, []), []), es);
    var k: nat :| StackAt(exec, d0, w, k);
    if w.db.history == [] {
      assert |Records(SortedUp(w.dir)[..k])| == k;
    }
  }

  // ----- What the id condition is for

  predicate HistoryAscends(h: seq<Record>) {
    forall i, j :: 0 <= i < j < |h| ==> Less(h[i].id, h[j].id)
  }

  /** A successful MigrateUp leaves the rows in commit order and id order at once exactly when every
      pending id exceeds every applied id; MigrateDown takes the rows back by id, so this is when it
      takes them back in the order they went in. */
  lemma {:induction false} CommitOrderIsIdOrder<D>(exec: Exec<D>, s: Db<D>, dir: seq<File>, f: UpFaults,
      order: seq<Migration>)
    requires DistinctIds(Available(dir, Up))
    requires multiset(order) == multiset(Available(dir, Up)) && Ordered(ById, order)
    requires HistoryAscends(s.history) && UpRun(exec, s, dir, f, order).1.None?
    ensures HistoryAscends(UpRun(exec, s, dir, f, order).0.history)
       <==> forall r <- s.history, m <- Unapplied(order, Ids(s.history)) :: Less(r.id, m.id)
  {
    var h, todo := s.history, Unapplied(order, Ids(s.history));
    var k := UpCommitsPrefix(exec, s, dir, f, order);
    assert todo[..k] == todo;
    CommitsHistory(exec, s.(table := true), todo);
    OrderIsSortedUp(dir, order);
    UnappliedAscends(order, Ids(s.history));
    var h' := h + Records(todo);
    assert UpRun(exec, s, dir, f, order).0.history == h';
    JoinedAscends(h, todo);
  }

  lemma JoinedAscends(h: seq<Record>, todo: seq<Migration>)
    requires HistoryAscends(h) && Ascending(ById, todo)
    ensures HistoryAscends(h + Records(todo)) <==> forall r <- h, m <- todo :: Less(r.id, m.id)
  {
    var h' := h + Records(todo);
    if HistoryAscends(h') {
      forall r <- h, m <- todo ensures Less(r.id, m.id) {
        var i :| 0 <= i < |h| && h[i] == r;
        var j :| 0 <= j < |todo| && todo[j] == m;
        assert h'[i] == r && h'[|h| + j] == RecordOf(m);
      }
    }
    if forall r <- h, m <- todo :: Less(r.id, m.id) {
      forall i, j | 0 <= i < j < |h'| ensures Less(h'[i].id, h'[j].id) {
        if i < |h| <= j {
          assert h[i] in h && todo[j - |h|] in todo;
        } else if |h| <= i {
          assert ById(todo[i - |h|], todo[j - |h|]);
        }
      }
    }
  }

  // ----- Rolling back in reverse

  /** Repeated MigrateDowns. */
  ghost predicate AllSucceed<D(!new)>(exec: Exec<D>, s: Db<D>, dir: seq<File>, fs: seq<DownFaults>)
    decreases |fs|
  {
    fs == [] || (DownRun(exec, s, dir, fs[0]).1.None? && AllSucceed(exec, DownRun(exec, s, dir, fs[0]).0, dir, fs[1..]))
  }

  /** Each of them takes back the migration committed last. */
  ghost predicate ReversesCommits<D(!new)>(exec: Exec<D>, s: Db<D>, dir: seq<File>, fs: seq<DownFaults>)
    decreases |fs|
  {
    fs == [] ||
    var t := DownRun(exec, s, dir, fs[0]).0;
    && s.history != [] && t.history == s.history[..|s.history| - 1]
    && ReversesCommits(exec, t, dir, fs[1..])
  }

  /** The history's primary key. */
  predicate DistinctRows(h: seq<Record>) { forall i, j :: 0 <= i < j < |h| ==> h[i].id != h[j].id }

  predicate LastIsGreatest(h: seq<Record>)
    requires h != []
  {
    forall i :: 0 <= i < |h| - 1 ==> Less(h[i].id, h[|h| - 1].id)
  }

  lemma RemoveGreatest(h: seq<Record>)
    requires h != [] && DistinctRows(h)
    ensures Remove(h, LastRecord(h).id) == h[..|h| - 1] <==> LastIsGreatest(h)
  {
    var front, last, top := h[..|h| - 1], h[|h| - 1], LastRecord(h);
    var k :| 0 <= k < |h| && h[k] == top;
    if top.id == last.id {
      RemoveAbsent(front, top.id);
      forall i | 0 <= i < |h| - 1 ensures Less(h[i].id, last.id) {
        LessTotal(h[i].id, last.id);
        assert h[i] in h;
      }
    } else {
      assert last in h && !Less(top.id, last.id);
      assert !LastIsGreatest(h);
      assert last in Remove(h, top.id);
      assert last !in front;
    }
  }

  lemma SuccessRemoves<D(!new)>(exec: Exec<D>, s: Db<D>, dir: seq<File>, f: DownFaults)
    requires DownRun(exec, s, dir, f).1.None?
    ensures s.history != [] && DownRun(exec, s, dir, f).0.history == Remove(s.history, LastRecord(s.history).id)
  {
    DownCases(exec, s, dir, f);
    var m := FindId(Available(dir, Down), LastId(s.history)).value;
    FindIdFinds(Available(dir, Down), LastId(s.history));
    DownTxCases(exec, s, m, f.tx);
  }

  lemma AscendsByLast(h: seq<Record>)
    requires h != []
    ensures HistoryAscends(h) <==> HistoryAscends(h[..|h| - 1]) && LastIsGreatest(h)
  {
  }

  /** A successful MigrateDown rolls back the most recent migration exactly when that one has the greatest
      id of the history. */
  lemma DownTakesLatest<D(!new)>(exec: Exec<D>, s: Db<D>, dir: seq<File>, f: DownFaults)
    requires DistinctRows(s.history) && DownRun(exec, s, dir, f).1.None?
    ensures s.history != []
    ensures DownRun(exec, s, dir, f).0.history == s.history[..|s.history| - 1] <==> LastIsGreatest(s.history)
  {
    SuccessRemoves(exec, s, dir, f);
    RemoveGreatest(s.history);
  }

  /** Rolling everything back, one successful MigrateDown after the other, reverses the order of the commits
      exactly when the rows were committed in id order. */
  lemma {:induction false} RollbackOrder<D(!new)>(exec: Exec<D>, s: Db<D>, dir: seq<File>, fs: seq<DownFaults>)
    requires DistinctRows(s.history) && |fs| == |s.history| && AllSucceed(exec, s, dir, fs)
    ensures ReversesCommits(exec, s, dir, fs) <==> HistoryAscends(s.history)
    decreases |fs|
  {
    if fs != [] {
      var t := DownRun(exec, s, dir, fs[0]).0;
      DownTakesLatest(exec, s, dir, fs[0]);
      AscendsByLast(s.history);
      if t.history == s.history[..|s.history| - 1] {
        RollbackOrder(exec, t, dir, fs[1..]);
      }
    }
  }

  /** After a successful MigrateUp on a history in id order, complete rollback reverses the commits exactly
      when every pending id exceeded every applied one. */
  lemma {:induction false} RollbackAfterUp<D(!new)>(exec: Exec<D>, s: Db<D>, dir: seq<File>, f: UpFaults,
      order: seq<Migration>, fs: seq<DownFaults>)
    requires DistinctIds(Available(dir, Up))
    requires multiset(order) == multiset(Available(dir, Up)) && Ordered(ById, order)
    requires HistoryAscends(s.history) && UpRun(exec, s, dir, f, order).1.None?
    requires |fs| == |UpRun(exec, s, dir, f, order).0.history|
    requires AllSucceed(exec, UpRun(exec, s, dir, f, order).0, dir, fs)
    ensures ReversesCommits(exec, UpRun(exec, s, dir, f, order).0, dir, fs)
       <==> forall r <- s.history, m <- Unapplied(order, Ids(s.history)) :: Less(r.id, m.id)
  {
    CommitOrderIsIdOrder(exec, s, dir, f, order);
    RowsStayDistinct(exec, s, dir, f, order);
    RollbackOrder(exec, UpRun(exec, s, dir, f, order).0, dir, fs);
  }

  lemma RowsStayDistinct<D(!new)>(exec: Exec<D>, s: Db<D>, dir: seq<File>, f: UpFaults, order: seq<Migration>)
    requires DistinctIds(Available(dir, Up))
    requires multiset(order) == multiset(Available(dir, Up)) && Ordered(ById, order)
    requires HistoryAscends(s.history) && UpRun(exec, s, dir, f, order).1.None?
    ensures DistinctRows(UpRun(exec, s, dir, f, order).0.history)
  {
    var h, todo := s.history, Unapplied(order, Ids(s.history));
    var k := UpCommitsPrefix(exec, s, dir, f, order);
    assert todo[..k] == todo;
    CommitsHistory(exec, s.(table := true), todo);
    OrderIsSortedUp(dir, order);
    UnappliedAscends(order, Ids(h));
    UnappliedMember(order, Ids(h));
    JoinedDistinct(h, todo);
  }

  lemma JoinedDistinct(h: seq<Record>, todo: seq<Migration>)
    requires HistoryAscends(h) && Ascending(ById, todo) && forall m <- todo :: m.id !in Ids(h)
    ensures DistinctRows(h + Records(todo))
  {
    var all := h + Records(todo);
    forall i, j | 0 <= i < j < |all| ensures all[i].id != all[j].id {
      LessIrreflexive(all[i].id);
      if j < |h| {
        assert Less(h[i].id, h[j].id);
      } else if i < |h| {
        assert h[i] in h && h[i].id in Ids(h) && todo[j - |h|] in todo;
      } else {
        assert ById(todo[i - |h|], todo[j - |h|]);
      }
    }
  }

  ghost predicate Healthy(f: UpFaults) {
    !f.table && !f.find && f.unreadable == {} && forall i: nat :: f.tx(i).NoFault?
  }

  /** A server whose state is a stack of names: "+x" pushes x, "-x" pops x and is rejected otherwise. */
  function PushPop(sql: string, d: seq<string>): Option<seq<string>> {
    if sql == "" then None
    else if sql[0] == '+' then Some(d + [sql[1..]])
    else if sql[0] == '-' && d != [] && d[|d| - 1] == sql[1..] then Some(d[..|d| - 1])
    else None
  }

  lemma PushPopUndoes(x: string)
    ensures Undoes(PushPop, "-" + x, "+" + x)
  {
    assert ("+" + x)[1..] == x && ("-" + x)[1..] == x;
    forall d, d' | PushPop("+" + x, d) == Some(d') ensures PushPop("-" + x, d') == Some(d) {
      assert d' == d + [x];
    }
  }

  /** The id condition is needed. `b` has run and `a`, with the smaller id, is written afterwards. The
      down scripts undo the up scripts (PushPopUndoes) and MigrateUp succeeds, yet MigrateDown picks
      the script of `b` for a database where `a` came last, and is rejected. */
  lemma LateFileBlocksRollback(dir: seq<File>, a: Migration, b: Migration, x: string, y: string, f: UpFaults,
      g: DownFaults)
    requires multiset([a, b]) == multiset(Available(dir, Up))
    requires Less(a.id, b.id) && x != y && a.sql == "+" + x && b.sql == "+" + y
    requires FindId(Available(dir, Down), b.id).Some? && FindId(Available(dir, Down), b.id).value.sql == "-" + y
    requires Healthy(f) && g == DownFaults(false, {}, TxFault.NoFault)
    ensures
      var s := Db([y, x], true, [RecordOf(b), RecordOf(a)]);
      && UpRun(PushPop, Db([y], true, [RecordOf(b)]), dir, f, SortedUp(dir)) == (s, None)
      && DownRun(PushPop, s, dir, g) == (s, Some(DownFailed))
  {
    LateOrder(dir, a, b);
    LateUp(dir, a, b, x, y, f);
    LateDown(dir, a, b, x, y, g);
  }

  lemma LateOrder(dir: seq<File>, a: Migration, b: Migration)
    requires multiset([a, b]) == multiset(Available(dir, Up)) && Less(a.id, b.id)
    ensures SortedUp(dir) == [a, b]
  {
    PairFacts(a, b);
    TwoOf(Available(dir, Up), a, b);
    OrderIsSortedUp(dir, [a, b]);
  }

  lemma PairFacts(a: Migration, b: Migration)
    requires Less(a.id, b.id)
    ensures a != b && Ordered(ById, [a, b]) && DistinctIds([a, b]) && DistinctIds([b, a])
  {
    LessIrreflexive(a.id);
    LessTotal(a.id, b.id);
  }

  lemma TwoOf<T>(s: seq<T>, a: T, b: T)
    requires multiset(s) == multiset([a, b]) && a != b
    ensures s == [a, b] || s == [b, a]
  {
    assert |multiset(s)| == |s| && |multiset([a, b])| == 2;
    assert s[0] in multiset([a, b]) && s[1] in multiset([a, b]);
    assert multiset([a, b])[s[0]] == 1;
  }

  lemma LateDown(dir: seq<File>, a: Migration, b: Migration, x: string, y: string, g: DownFaults)
    requires Less(a.id, b.id) && x != y
    requires FindId(Available(dir, Down), b.id).Some? && FindId(Available(dir, Down), b.id).value.sql == "-" + y
    requires g == DownFaults(false, {}, TxFault.NoFault)
    ensures
      var s := Db([y, x], true, [RecordOf(b), RecordOf(a)]);
      DownRun(PushPop, s, dir, g) == (s, Some(DownFailed))
  {
    var s := Db([y, x], true, [RecordOf(b), RecordOf(a)]);
    GreatestFirst(RecordOf(a), RecordOf(b));
    assert ("-" + y)[1..] == y;
    assert PushPop("-" + y, [y, x]) == None;
    assert !LoadFails(dir, {}, Down);
  }

  /** The same from an empty database, for any two pairs of files: `late` has the smaller id but is written
      after `first` was applied. */
  lemma LateFileHappens(first: Meta, late: Meta, x: string, y: string, f: UpFaults, g: DownFaults)
    requires Printable(first) && Printable(late) && Less(late.id, first.id) && x != y
    requires Healthy(f) && g == DownFaults(false, {}, TxFault.NoFault)
    ensures
      var dir1 := NewFiles(Add(first, "+" + y, Some("-" + y)));
      var dir2 := dir1 + NewFiles(Add(late, "+" + x, Some("-" + x)));
      var row1, row2 := Record(first.id, first.name, first.kind), Record(late.id, late.name, late.kind);
      var s1, s2 := Db([y], true, [row1]), Db([y, x], true, [row1, row2]);
      && UpRun(PushPop, Db([], false, []), dir1, f, SortedUp(dir1)) == (s1, None)
      && UpRun(PushPop, s1, dir2, f, SortedUp(dir2)) == (s2, None)
      && DownRun(PushPop, s2, dir2, g) == (s2, Some(DownFailed))
  {
    var dir1 := NewFiles(Add(first, "+" + y, Some("-" + y)));
    var dir2 := dir1 + NewFiles(Add(late, "+" + x, Some("-" + x)));
    var b := Migration(first.id, first.kind, first.name, Up, "+" + y);
    var a := Migration(late.id, late.kind, late.name, Up, "+" + x);
    FirstFiles(first, "+" + y, "-" + y);
    LateFiles(dir1, late, "+" + x, "-" + x, b, Migration(first.id, first.kind, first.name, Down, "-" + y));
    FirstUp(dir1, b, y, f);
    LateFileBlocksRollback(dir2, a, b, x, y, f, g);
  }

  lemma FirstFiles(m: Meta, up: string, down: string)
    requires Printable(m)
    ensures
      var dir := NewFiles(Add(m, up, Some(down)));
      && Available(dir, Up) == [Migration(m.id, m.kind, m.name, Up, up)]
      && Available(dir, Down) == [Migration(m.id, m.kind, m.name, Down, down)]
  {
    var dir := NewFiles(Add(m, up, Some(down)));
    AddedFiles([], Add(m, up, Some(down)));
    assert [] + dir == dir;
  }

  lemma LateFiles(dir: seq<File>, m: Meta, up: string, down: string, b: Migration, v: Migration)
    requires Printable(m) && Available(dir, Up) == [b] && Available(dir, Down) == [v]
    ensures
      var later := dir + NewFiles(Add(m, up, Some(down)));
      && multiset([Migration(m.id, m.kind, m.name, Up, up), b]) == multiset(Available(later, Up))
      && FindId(Available(later, Down), v.id) == Some(v)
  {
    var later := dir + NewFiles(Add(m, up, Some(down)));
    AddedFiles(dir, Add(m, up, Some(down)));
    assert Available(later, Up) == [b, Migration(m.id, m.kind, m.name, Up, up)];
    assert Available(later, Down)[0] == v;
  }

  lemma FirstUp(dir: seq<File>, b: Migration, y: string, f: UpFaults)
    requires Available(dir, Up) == [b] && b.sql == "+" + y && Healthy(f)
    ensures UpRun(PushPop, Db([], false, []), dir, f, SortedUp(dir)) == (Db([y], true, [RecordOf(b)]), None)
  {
    var s0: Db<seq<string>> := Db([], false, []);
    OrderIsSortedUp(dir, [b]);
    assert [b][..0] == [] && Unapplied([b], Ids([])) == [b];
    FirstCommit(s0.(table := true), b, y);
    UpHealthy(PushPop, s0, dir, f, [b]);
  }

  lemma FirstCommit(s: Db<seq<string>>, b: Migration, y: string)
    requires b.sql == "+" + y && s.data == [] && s.history == []
    ensures Commits(PushPop, s, [b]) == Some(s.(data := [y], history := [RecordOf(b)]))
  {
    assert ("+" + y)[1..] == y && [] + [y] == [y] && [b][..0] == [];
    assert PushPop(b.sql, []) == Some([y]);
    assert [] + [RecordOf(b)] == [RecordOf(b)];
  }

  lemma LateUp(dir: seq<File>, a: Migration, b: Migration, x: string, y: string, f: UpFaults)
    requires Less(a.id, b.id) && a.sql == "+" + x && Healthy(f)
    ensures UpRun(PushPop, Db([y], true, [RecordOf(b)]), dir, f, [a, b])
         == (Db([y, x], true, [RecordOf(b), RecordOf(a)]), None)
  {
    var s0, todo := Db([y], true, [RecordOf(b)]), [a];
    LessIrreflexive(a.id);
    LatePending(a, b);
    assert ("+" + x)[1..] == x && [y] + [x] == [y, x];
    var s := Db([y, x], true, [RecordOf(b), RecordOf(a)]);
    assert [RecordOf(b)] + [RecordOf(a)] == s.history;
    assert f.tx(0).NoFault? && PushPop(a.sql, [y]) == Some([y, x]);
    assert UpTx(PushPop, s0, a, f.tx(0)) == (s, None);
    assert UpAll(PushPop, s, todo, f.tx, 1) == (s, None);
  }

  lemma LatePending(a: Migration, b: Migration)
    requires a.id != b.id
    ensures Unapplied([a, b], Ids([RecordOf(b)])) == [a]
  {
    var ids := Ids([RecordOf(b)]);
    assert [a, b][..1] == [a] && [a][..0] == [];
    assert RecordOf(b) in [RecordOf(b)] && Unapplied([], ids) == [];
  }

  lemma GreatestFirst(a: Record, b: Record)
    requires Less(a.id, b.id)
    ensures LastRecord([b, a]) == b
  {
    LessIrreflexive(b.id);
    assert b in [b, a];
  }
}
