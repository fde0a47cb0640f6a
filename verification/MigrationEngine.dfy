/** MigrateUp, MigrateDown and GetMigrationStatus against a database whose statements and
    transactions may fail at any point. Which call fails is an input (`...Faults`). */
module MigrationEngine {
  import opened Text
  import opened Sorting
  import opened MigrationFiles

  /** A row of the migration history table; the times and the executor are not kept. */
  datatype Record = Record(id: string, name: string, kind: string)

  /** `data` is everything outside the history table, `table` whether that table exists. */
  datatype Db<+D> = Db(data: D, table: bool, history: seq<Record>)

  datatype Error =
    | TableFailed | HistoryFailed | LoadFailed | BeginFailed | MigrationFailed(id: string)
    | RecordFailed | CommitFailed | NoLastMigration | NoDownMigration(id: string) | DownFailed | DeleteFailed

  /** What the server does to one transaction. A failed commit may still have taken effect. */
  datatype TxFault = NoFault | BeginFails | ExecFails | RecordFails | CommitFails(applied: bool)

  /** `tx(i)` is the fate of the i-th transaction of a run. */
  datatype UpFaults = UpFaults(table: bool, find: bool, unreadable: set<string>, tx: nat -> TxFault)

  datatype DownFaults = DownFaults(first: bool, unreadable: set<string>, tx: TxFault)

  /** The server running an SQL text: None when it rejects it. */
  type Exec<!D> = (string, D) -> Option<D>

  function RecordOf(m: Migration): Record { Record(m.id, m.name, m.kind) }

  function Records(ms: seq<Migration>): (r: seq<Record>)
    ensures |r| == |ms| && forall i :: 0 <= i < |ms| ==> r[i] == RecordOf(ms[i])
  {
    seq(|ms|, i requires 0 <= i < |ms| => RecordOf(ms[i]))
  }

  function Ids(history: seq<Record>): set<string> { set r <- history :: r.id }

  predicate ById(a: Migration, b: Migration) { Less(a.id, b.id) }

  lemma ByIdStrictWeak()
    ensures StrictWeak(ById)
  {
    forall a, b | ById(a, b) ensures !ById(b, a) {
      LessTotal(a.id, b.id);
    }
    forall a, b, c | ById(a, c) ensures ById(a, b) || ById(b, c) {
      LessTotal(a.id, b.id);
      LessTotal(b.id, c.id);
      if Less(b.id, a.id) {
        LessTransitive(b.id, a.id, c.id);
      }
    }
  }

  /** The migrations of a sorted list that the history does not name. */
  function Unapplied(ms: seq<Migration>, applied: set<string>): seq<Migration> {
    if ms == [] then []
    else
      var front := Unapplied(ms[..|ms| - 1], applied);
      if ms[|ms| - 1].id in applied then front else front + [ms[|ms| - 1]]
  }

  /** One transaction of MigrateUp. */
  function UpTx<D>(exec: Exec<D>, s: Db<D>, m: Migration, fault: TxFault): (Db<D>, Option<Error>) {
    if fault.BeginFails? then (s, Some(BeginFailed))
    else if fault.ExecFails? || exec(m.sql, s.data).None? then (s, Some(MigrationFailed(m.id)))
    else if fault.RecordFails? || m.id in Ids(s.history) then (s, Some(RecordFailed))
    else
      var next := s.(data := exec(m.sql, s.data).value, history := s.history + [RecordOf(m)]);
      match fault
      case CommitFails(applied) => (if applied then next else s, Some(CommitFailed))
      case _ => (next, None)
  }

  /** Transactions `from`, `from + 1`, ... in list order, up to the first failure. */
  function UpAll<D>(exec: Exec<D>, s: Db<D>, todo: seq<Migration>, tx: nat -> TxFault, from: nat): (Db<D>,
      Option<Error>)
    requires from <= |todo|
    decreases |todo| - from
  {
    if from == |todo| then (s, None)
    else
      var (s', err) := UpTx(exec, s, todo[from], tx(from));
      if err.Some? then (s', err) else UpAll(exec, s', todo, tx, from + 1)
  }

  ghost predicate LoadFails(dir: seq<File>, unreadable: set<string>, wanted: Direction) {
    exists f <- dir :: f.name in unreadable && ParseFileName(f.name, wanted).Some?
  }

  /** A whole MigrateUp, given the order the sort chose. */
  ghost function UpRun<D>(exec: Exec<D>, s: Db<D>, dir: seq<File>, faults: UpFaults, order: seq<Migration>)
    : (Db<D>, Option<Error>)
  {
    if faults.table then (s, Some(TableFailed))
    else
      var s1 := s.(table := true);
      if faults.find then (s1, Some(HistoryFailed))
      else if LoadFails(dir, faults.unreadable, Up) then (s1, Some(LoadFailed))
      else UpAll(exec, s1, Unapplied(order, Ids(s.history)), faults.tx, 0)
  }

  /** `db.Order("id DESC").First`: the row with the greatest id. */
  function LastRecord(history: seq<Record>): (r: Record)
    requires history != []
    ensures r in history && forall q <- history :: !Less(r.id, q.id)
    decreases |history|
  {
    if |history| == 1 then LessIrreflexive(history[0].id); history[0]
    else
      var front, last := LastRecord(history[..|history| - 1]), history[|history| - 1];
      GreatestOf(history, front, last);
      if Less(front.id, last.id) then last else front
  }

  lemma GreatestOf(history: seq<Record>, front: Record, last: Record)
    requires history != [] && last == history[|history| - 1]
    requires forall q <- history[..|history| - 1] :: !Less(front.id, q.id)
    ensures forall q <- history :: !Less((if Less(front.id, last.id) then last else front).id, q.id)
  {
    LessTotal(last.id, last.id);
    forall q <- history ensures !Less((if Less(front.id, last.id) then last else front).id, q.id) {
      assert q in history[..|history| - 1] || q == last;
      if Less(front.id, last.id) && Less(last.id, q.id) {
        LessTransitive(front.id, last.id, q.id);
      }
    }
  }

  /** The first loaded migration with this id. */
  function FindId(ms: seq<Migration>, id: string): Option<Migration> {
    if ms == [] then None else if ms[0].id == id then Some(ms[0]) else FindId(ms[1..], id)
  }

  /** `DELETE ... WHERE id = ?` */
  function Remove(history: seq<Record>, id: string): seq<Record> {
    if history == [] then []
    else
      var front := Remove(history[..|history| - 1], id);
      if history[|history| - 1].id == id then front else front + [history[|history| - 1]]
  }

  lemma {:induction false} RemoveExact(history: seq<Record>, id: string)
    ensures forall r :: r in Remove(history, id) <==> r in history && r.id != id
  {
    if history != [] {
      RemoveExact(history[..|history| - 1], id);
      assert history == history[..|history| - 1] + [history[|history| - 1]];
    }
  }

  function DownTx<D>(exec: Exec<D>, s: Db<D>, m: Migration, fault: TxFault): (Db<D>, Option<Error>) {
    if fault.BeginFails? then (s, Some(BeginFailed))
    else if fault.ExecFails? || exec(m.sql, s.data).None? then (s, Some(DownFailed))
    else if fault.RecordFails? then (s, Some(DeleteFailed))
    else
      var next := s.(data := exec(m.sql, s.data).value, history := Remove(s.history, m.id));
      match fault
      case CommitFails(applied) => (if applied then next else s, Some(CommitFailed))
      case _ => (next, None)
  }

  /** A whole MigrateDown. */
  ghost function DownRun<D>(exec: Exec<D>, s: Db<D>, dir: seq<File>, faults: DownFaults): (Db<D>, Option<Error>) {
    if faults.first || !s.table || s.history == [] then (s, Some(NoLastMigration))
    else if LoadFails(dir, faults.unreadable, Down) then (s, Some(LoadFailed))
    else
      var id := LastRecord(s.history).id;
      match FindId(Available(dir, Down), id)
      case None => (s, Some(NoDownMigration(id)))
      case Some(m) => DownTx(exec, s, m, faults.tx)
  }

  datatype Status = Status(id: string, name: string, kind: string, applied: bool)

  predicate StatusById(a: Status, b: Status) { Less(a.id, b.id) }

  lemma StatusByIdStrictWeak()
    ensures StrictWeak(StatusById)
  {
    ByIdStrictWeak();
    var as_ := (s: Status) => Migration(s.id, s.kind, s.name, Up, "");
    forall a, b | StatusById(a, b) ensures !StatusById(b, a) {
      assert ById(as_(a), as_(b));
    }
    forall a, b, c | StatusById(a, c) ensures StatusById(a, b) || StatusById(b, c) {
      assert ById(as_(a), as_(c));
      assert ById(as_(a), as_(b)) || ById(as_(b), as_(c));
    }
  }

  function StatusOf(m: Migration, applied: set<string>): Status {
    Status(m.id, m.name, m.kind, m.id in applied)
  }

  function Statuses(ms: seq<Migration>, applied: set<string>): (r: seq<Status>)
    ensures |r| == |ms| && forall i :: 0 <= i < |ms| ==> r[i] == StatusOf(ms[i], applied)
  {
    seq(|ms|, i requires 0 <= i < |ms| => StatusOf(ms[i], applied))
  }

  /** Each entry carries the name and type of a file of its id, and says whether the history has the id; and
      each file has its entry. */
  ghost predicate NamesFiles(st: seq<Status>, ups: seq<Migration>, applied: set<string>) {
    && |st| == |ups|
    && (forall e <- st :: exists m <- ups ::
          e.id == m.id && e.name == m.name && e.kind == m.kind && (e.applied <==> m.id in applied))
    && (forall m <- ups :: exists e <- st ::
          e.id == m.id && e.name == m.name && e.kind == m.kind && (e.applied <==> m.id in applied))
  }

  lemma EntriesNameFiles(st: seq<Status>, ups: seq<Migration>, applied: set<string>)
    requires multiset(st) == multiset(Statuses(ups, applied))
    ensures NamesFiles(st, ups, applied)
  {
    var all := Statuses(ups, applied);
    assert |multiset(st)| == |st| && |multiset(all)| == |all|;
    forall e <- st ensures exists m <- ups :: e == StatusOf(m, applied) {
      assert e in multiset(all);
      var i :| 0 <= i < |all| && all[i] == e;
      assert ups[i] in ups;
    }
    forall m <- ups ensures exists e <- st :: e == StatusOf(m, applied) {
      var i :| 0 <= i < |ups| && ups[i] == m;
      assert all[i] in multiset(all);
      assert all[i] in st;
    }
  }

  /** The migrator: one database, one caller at a time. */
  class Postgres<D(!new)> {
    const exec: Exec<D>
    var data: D
    var table: bool
    var history: seq<Record>

    constructor (exec: Exec<D>, data: D)
      ensures this.exec == exec && State() == Db(data, false, [])
    {
      this.exec, this.data, this.table, this.history := exec, data, false, [];
    }

    function State(): Db<D>
      reads this
    {
      Db(data, table, history)
    }

    /** `order` is the arrangement the sort produced: the loaded files by ascending id. */
    method MigrateUp(dir: seq<File>, faults: UpFaults) returns (err: Option<Error>, ghost order: seq<Migration>)
      modifies this
      ensures multiset(order) == multiset(Available(dir, Up)) && Ordered(ById, order)
      ensures (State(), err) == UpRun(exec, old(State()), dir, faults, order)
    {
      ByIdStrictWeak();
      order := SortSlice(ById, Available(dir, Up));
      if faults.table {
        return Some(TableFailed), order;
      }
      table := true;
      if faults.find {
        return Some(HistoryFailed), order;
      }
      var applied := AppliedIds();
      var loaded := LoadMigrations(dir, faults.unreadable, Up);
      if loaded.None? {
        return Some(LoadFailed), order;
      }
      var migrations := SortSlice(ById, loaded.value);
      order := migrations;
      err := RunPending(migrations, applied, faults.tx);
    }

    /** The lookup map both readers of the history build. */
    method AppliedIds() returns (applied: map<string, Record>)
      ensures applied.Keys == Ids(history)
    {
      applied := map[];
      for i := 0 to |history|
        invariant applied.Keys == Ids(history[..i])
      {
        assert history[..i + 1] == history[..i] + [history[i]];
        applied := applied[history[i].id := history[i]];
      }
      assert history[..|history|] == history;
    }

    /** MigrateUp's loop over the sorted files, skipping those applied before the run. */
    method RunPending(migrations: seq<Migration>, applied: map<string, Record>, tx: nat -> TxFault)
      returns (err: Option<Error>)
      modifies this
      ensures (State(), err) == UpAll(exec, old(State()), Unapplied(migrations, applied.Keys), tx, 0)
    {
      ghost var todo := Unapplied(migrations, applied.Keys);
      var runs: nat := 0;
      for i := 0 to |migrations|
        invariant runs == |Unapplied(migrations[..i], applied.Keys)| <= |todo|
        invariant UpAll(exec, old(State()), todo, tx, 0) == UpAll(exec, State(), todo, tx, runs)
      {
        NextPending(migrations, i, applied.Keys);
        if migrations[i].id !in applied {
          err := ApplyOne(migrations[i], tx(runs));
          if err.Some? {
            return err;
          }
          runs := runs + 1;
        }
      }
      assert migrations[..|migrations|] == migrations;
      return None;
    }

    /** The body of MigrateUp's loop: begin, execute, record, commit. */
    method ApplyOne(m: Migration, fault: TxFault) returns (err: Option<Error>)
      modifies this
      ensures (State(), err) == UpTx(exec, old(State()), m, fault)
    {
      if fault.BeginFails? {
        return Some(BeginFailed);
      }
      var txData := exec(m.sql, data);
      if fault.ExecFails? || txData.None? {
        return Some(MigrationFailed(m.id));
      }
      if fault.RecordFails? || exists r <- history :: r.id == m.id {
        return Some(RecordFailed);
      }
      var txHistory := history + [Record(m.id, m.name, m.kind)];
      if fault.CommitFails? {
        if fault.applied {
          data, history := txData.value, txHistory;
        }
        return Some(CommitFailed);
      }
      data, history := txData.value, txHistory;
      return None;
    }

    method MigrateDown(dir: seq<File>, faults: DownFaults) returns (err: Option<Error>)
      modifies this
      ensures (State(), err) == DownRun(exec, old(State()), dir, faults)
    {
      if faults.first || !table || history == [] {
        return Some(NoLastMigration);
      }
      var last := LastRecord(history);
      var loaded := LoadMigrations(dir, faults.unreadable, Down);
      if loaded.None? {
        return Some(LoadFailed);
      }
      var downs := loaded.value;
      var i := 0;
      while i < |downs| && downs[i].id != last.id
        invariant 0 <= i <= |downs|
        invariant FindId(downs, last.id) == FindId(downs[i..], last.id)
      {
        i := i + 1;
      }
      if i == |downs| {
        return Some(NoDownMigration(last.id));
      }
      var m := downs[i];
      assert FindId(downs, last.id) == Some(m);
      if faults.tx.BeginFails? {
        return Some(BeginFailed);
      }
      var txData := exec(m.sql, data);
      if faults.tx.ExecFails? || txData.None? {
        return Some(DownFailed);
      }
      if faults.tx.RecordFails? {
        return Some(DeleteFailed);
      }
      var txHistory := Remove(history, last.id);
      if faults.tx.CommitFails? {
        if faults.tx.applied {
          data, history := txData.value, txHistory;
        }
        return Some(CommitFailed);
      }
      data, history := txData.value, txHistory;
      return None;
    }

    /** GetMigrationStatus: one entry per up file, by ascending id. */
    method GetMigrationStatus(dir: seq<File>, find: bool, unreadable: set<string>)
      returns (r: Option<seq<Status>>)
      ensures r.None? <==> find || !table || LoadFails(dir, unreadable, Up)
      ensures r.Some? ==> multiset(r.value) == multiset(Statuses(Available(dir, Up), Ids(history)))
      ensures r.Some? ==> Ordered(StatusById, r.value)
      ensures r.Some? ==> NamesFiles(r.value, Available(dir, Up), Ids(history))
    {
      if find || !table {
        return None;
      }
      var applied := AppliedIds();
      var loaded := LoadMigrations(dir, unreadable, Up);
      if loaded.None? {
        return None;
      }
      var ups := loaded.value;
      var status := [];
      for i := 0 to |ups|
        invariant status == Statuses(ups, Ids(history))[..i]
      {
        status := status + [Status(ups[i].id, ups[i].name, ups[i].kind, ups[i].id in applied)];
      }
      assert status == Statuses(ups, Ids(history));
      StatusByIdStrictWeak();
      var sorted := SortSlice(StatusById, status);
      EntriesNameFiles(sorted, ups, Ids(history));
      return Some(sorted);
    }
  }

  /** The next file is skipped, or is the next of the pending list. */
  lemma NextPending(ms: seq<Migration>, i: nat, applied: set<string>)
    requires i < |ms|
    ensures
      var done, todo := Unapplied(ms[..i], applied), Unapplied(ms, applied);
      if ms[i].id in applied then Unapplied(ms[..i + 1], applied) == done
      else |Unapplied(ms[..i + 1], applied)| == |done| + 1 <= |todo| && todo[|done|] == ms[i]
  {
    assert ms[..i + 1][..i] == ms[..i];
    UnappliedSplit(ms, i + 1, applied);
  }

  lemma {:induction false} UnappliedSplit(ms: seq<Migration>, i: nat, applied: set<string>)
    requires i <= |ms|
    ensures Unapplied(ms[..i], applied) <= Unapplied(ms, applied)
    decreases |ms| - i
  {
    if i == |ms| {
      assert ms[..i] == ms;
    } else {
      UnappliedSplit(ms, i + 1, applied);
      assert ms[..i + 1][..i] == ms[..i];
    }
  }
}
