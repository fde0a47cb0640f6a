/** The buffer pool under N concurrent callers: Put checks the counter, inserts and counts in separate
    steps; Cleanup replaces the pool and clears the counter in separate steps under the write lock. */
module PoolProtocol {
  /** A buffer by its content length and capacity. */
  datatype Buf = Buf(len: nat, cap: nat)

  datatype Config = Config(maxBufferSize: int, maxPoolSize: int, initialBufferSize: nat)

  /** Where a caller is. Sized: in Put, buffer not too large. Passed: the counter was below the limit.
      Inserted: the buffer is in the pool, not counted yet. Rejecting: about to count a discard.
      Got: in Get, the reuse not counted yet. Cleaning: holds the write lock, the pool is replaced. */
  datatype Caller = Idle | Sized(b: Buf) | Passed(b: Buf) | Inserted | Rejecting | Got(b: Buf) | Cleaning

  /** `puts`, `accepted` and `sinceCleanup` are history: non-nil Puts begun, Puts counted, and Puts
      counted since the last Cleanup cleared the counter. */
  datatype State = State(
    config: Config, callers: seq<Caller>, pool: seq<Buf>, poolSize: int,
    created: nat, reused: nat, discarded: nat, puts: nat, accepted: nat, sinceCleanup: nat)

  datatype Action =
    | PutCall(c: nat, b: Buf) | Load(c: nat) | Insert(c: nat) | Count(c: nat) | Reject(c: nat)
    | GetPooled(c: nat, k: nat) | GetNew(c: nat) | CountReuse(c: nat)
    | CleanBegin(c: nat) | CleanStore(c: nat)
    | Collect(k: nat)

  function Init(config: Config, n: nat): State {
    State(config, seq(n, _ => Idle), [], 0, 0, 0, 0, 0, 0, 0)
  }

  predicate Locked(s: State) { exists c :: 0 <= c < |s.callers| && s.callers[c].Cleaning? }

  predicate Enabled(s: State, a: Action) {
    match a
    case PutCall(c, _) => c < |s.callers| && s.callers[c].Idle?
    case Load(c) => c < |s.callers| && s.callers[c].Sized? && !Locked(s)
    case Insert(c) => c < |s.callers| && s.callers[c].Passed?
    case Count(c) => c < |s.callers| && s.callers[c].Inserted?
    case Reject(c) => c < |s.callers| && s.callers[c].Rejecting?
    case GetPooled(c, k) => c < |s.callers| && s.callers[c].Idle? && k < |s.pool|
    case GetNew(c) => c < |s.callers| && s.callers[c].Idle?
    case CountReuse(c) => c < |s.callers| && s.callers[c].Got?
    case CleanBegin(c) => c < |s.callers| && s.callers[c].Idle? && !Locked(s)
    case CleanStore(c) => c < |s.callers| && s.callers[c].Cleaning?
    case Collect(k) => k < |s.pool|
  }

  function Without<T>(s: seq<T>, k: nat): seq<T>
    requires k < |s|
  {
    s[..k] + s[k + 1..]
  }

  function Move(s: State, c: nat, to: Caller): State
    requires c < |s.callers|
  {
    s.(callers := s.callers[c := to])
  }

  function Next(s: State, a: Action): State
    requires Enabled(s, a)
  {
    match a
    case PutCall(c, b) =>
      Move(s, c, if b.cap > s.config.maxBufferSize then Rejecting else Sized(b)).(puts := s.puts + 1)
    case Load(c) =>
      Move(s, c, if s.poolSize >= s.config.maxPoolSize then Rejecting else Passed(s.callers[c].b))
    case Insert(c) => Move(s, c, Inserted).(pool := s.pool + [Buf(0, s.callers[c].b.cap)])
    case Count(c) =>
      Move(s, c, Idle).(poolSize := s.poolSize + 1, accepted := s.accepted + 1, sinceCleanup := s.sinceCleanup + 1)
    case Reject(c) => Move(s, c, Idle).(discarded := s.discarded + 1)
    case GetPooled(c, k) => Move(s, c, Got(Buf(0, s.pool[k].cap))).(pool := Without(s.pool, k))
    case GetNew(c) => Move(s, c, Got(Buf(0, s.config.initialBufferSize))).(created := s.created + 1)
    case CountReuse(c) => Move(s, c, Idle).(reused := s.reused + 1)
    case CleanBegin(c) => Move(s, c, Cleaning).(pool := [])
    case CleanStore(c) => Move(s, c, Idle).(poolSize := 0, sinceCleanup := 0)
    case Collect(k) => s.(pool := Without(s.pool, k))
  }

  predicate CanRun(s: State, acts: seq<Action>)
    decreases |acts|
  {
    acts == [] || (Enabled(s, acts[0]) && CanRun(Next(s, acts[0]), acts[1..]))
  }

  function After(s: State, acts: seq<Action>): State
    requires CanRun(s, acts)
    decreases |acts|
  {
    if acts == [] then s else After(Next(s, acts[0]), acts[1..])
  }

  // ----- Counting callers

  function CountOf(p: Caller -> bool, cs: seq<Caller>): (n: nat)
    ensures n <= |cs|
  {
    if cs == [] then 0 else CountOf(p, cs[..|cs| - 1]) + if p(cs[|cs| - 1]) then 1 else 0
  }

  lemma {:induction false} CountUpdate(p: Caller -> bool, cs: seq<Caller>, c: nat, x: Caller)
    requires c < |cs|
    ensures CountOf(p, cs[c := x]) + (if p(cs[c]) then 1 else 0) == CountOf(p, cs) + (if p(x) then 1 else 0)
  {
    var k := |cs| - 1;
    if c == k {
      assert cs[c := x][..k] == cs[..k];
    } else {
      CountUpdate(p, cs[..k], c, x);
      assert cs[c := x][..k] == cs[..k][c := x] && cs[c := x][k] == cs[k];
    }
  }

  lemma {:induction false} CountZero(p: Caller -> bool, cs: seq<Caller>)
    ensures CountOf(p, cs) == 0 <==> forall c :: 0 <= c < |cs| ==> !p(cs[c])
  {
    if cs != [] {
      CountZero(p, cs[..|cs| - 1]);
    }
  }

  predicate IsAdmitted(x: Caller) { x.Passed? || x.Inserted? }
  predicate IsInserted(x: Caller) { x.Inserted? }
  predicate InPut(x: Caller) { x.Sized? || x.Passed? || x.Inserted? || x.Rejecting? }
  predicate InGet(x: Caller) { x.Got? }
  predicate IsCleaning(x: Caller) { x.Cleaning? }

  function Admitted(s: State): nat { CountOf(IsAdmitted, s.callers) }
  function InsertedCount(s: State): nat { CountOf(IsInserted, s.callers) }
  function PutsInFlight(s: State): nat { CountOf(InPut, s.callers) }
  function GetsInFlight(s: State): nat { CountOf(InGet, s.callers) }
  function Cleaners(s: State): nat { CountOf(IsCleaning, s.callers) }

  // ----- The invariant

  ghost predicate Counters(s: State) {
    && 0 <= s.poolSize == s.sinceCleanup
    && (Admitted(s) + s.poolSize > 0 ==>
        s.config.maxPoolSize >= 1 && s.poolSize + Admitted(s) <= s.config.maxPoolSize - 1 + |s.callers|)
    && s.puts == s.accepted + s.discarded + PutsInFlight(s)
    && s.created <= s.reused + GetsInFlight(s)
    && Cleaners(s) <= 1
  }

  ghost predicate Clean(s: State, b: Buf) { b.len == 0 && b.cap <= s.config.maxBufferSize }

  ghost predicate Contents(s: State) {
    && (forall k :: 0 <= k < |s.pool| ==> Clean(s, s.pool[k]))
    && (forall c :: 0 <= c < |s.callers| ==>
          (s.callers[c].Sized? || s.callers[c].Passed? ==> s.callers[c].b.cap <= s.config.maxBufferSize))
  }

  ghost predicate Inv(s: State) { Counters(s) && Contents(s) }

  /** The caller an action moves; Collect moves none. */
  function Mover(s: State, a: Action): (c: nat)
    requires Enabled(s, a) && !a.Collect?
    ensures c < |s.callers| && |Next(s, a).callers| == |s.callers|
    ensures Next(s, a).callers == s.callers[c := Next(s, a).callers[c]]
  {
    a.c
  }

  lemma {:induction false} AllIdle(p: Caller -> bool, n: nat)
    requires !p(Idle)
    ensures CountOf(p, seq(n, _ => Idle)) == 0
  {
    CountZero(p, seq(n, _ => Idle));
  }

  lemma InitInv(config: Config, n: nat)
    ensures Inv(Init(config, n)) && Tight(Init(config, n))
  {
    AllIdle(IsAdmitted, n);
    AllIdle(IsInserted, n);
    AllIdle(InPut, n);
    AllIdle(InGet, n);
    AllIdle(IsCleaning, n);
  }

  lemma CapStep(s: State, a: Action)
    requires Counters(s) && Enabled(s, a) && !a.Collect?
    ensures
      var t := Next(s, a);
      && 0 <= t.poolSize == t.sinceCleanup
      && (Admitted(t) + t.poolSize > 0 ==>
            t.config.maxPoolSize >= 1 && t.poolSize + Admitted(t) <= t.config.maxPoolSize - 1 + |t.callers|)
  {
    var c := Mover(s, a);
    CountUpdate(IsAdmitted, s.callers, c, Next(s, a).callers[c]);
  }

  lemma BalanceStep(s: State, a: Action)
    requires Counters(s) && Enabled(s, a) && !a.Collect?
    ensures
      var t := Next(s, a);
      t.puts == t.accepted + t.discarded + PutsInFlight(t) && t.created <= t.reused + GetsInFlight(t)
  {
    var c := Mover(s, a);
    CountUpdate(InPut, s.callers, c, Next(s, a).callers[c]);
    CountUpdate(InGet, s.callers, c, Next(s, a).callers[c]);
  }

  lemma CleanersStep(s: State, a: Action)
    requires Counters(s) && Enabled(s, a) && !a.Collect?
    ensures Cleaners(Next(s, a)) <= 1
  {
    var c := Mover(s, a);
    CountUpdate(IsCleaning, s.callers, c, Next(s, a).callers[c]);
    CountZero(IsCleaning, s.callers);
  }

  lemma CountersStep(s: State, a: Action)
    requires Counters(s) && Enabled(s, a)
    ensures Counters(Next(s, a))
  {
    if !a.Collect? {
      CapStep(s, a);
      BalanceStep(s, a);
      CleanersStep(s, a);
    }
  }

  lemma ContentsStep(s: State, a: Action)
    requires Contents(s) && Enabled(s, a)
    ensures Contents(Next(s, a))
  {
  }

  lemma InvStep(s: State, a: Action)
    requires Inv(s) && Enabled(s, a)
    ensures Inv(Next(s, a)) && Next(s, a).config == s.config && |Next(s, a).callers| == |s.callers|
  {
    CountersStep(s, a);
    ContentsStep(s, a);
  }

  lemma {:induction false} InvRun(s: State, acts: seq<Action>)
    requires Inv(s) && CanRun(s, acts)
    ensures Inv(After(s, acts)) && After(s, acts).config == s.config && |After(s, acts).callers| == |s.callers|
    decreases |acts|
  {
    if acts != [] {
      InvStep(s, acts[0]);
      InvRun(Next(s, acts[0]), acts[1..]);
    }
  }

  /** Every run of N callers: the counter never exceeds the limit by more than N - 1 and is the number
      of Puts counted since the last Cleanup; every pooled buffer is empty and not too large; and when
      no call is in progress each non-nil Put was accepted or counted as discarded, and there were at
      least as many Gets as buffers created. */
  lemma PoolRuns(config: Config, n: nat, acts: seq<Action>)
    requires n >= 1 && config.maxPoolSize >= 0 && CanRun(Init(config, n), acts)
    ensures
      var s := After(Init(config, n), acts);
      && |s.callers| == n
      && 0 <= s.poolSize <= config.maxPoolSize + n - 1 && s.poolSize == s.sinceCleanup
      && (forall k :: 0 <= k < |s.pool| ==> s.pool[k].len == 0 && s.pool[k].cap <= config.maxBufferSize)
      && ((forall c :: 0 <= c < n ==> s.callers[c].Idle?) ==>
          s.puts == s.accepted + s.discarded && s.created <= s.reused)
  {
    InitInv(config, n);
    InvRun(Init(config, n), acts);
    var s := After(Init(config, n), acts);
    CountZero(InPut, s.callers);
    CountZero(InGet, s.callers);
    assert forall k :: 0 <= k < |s.pool| ==> Clean(s, s.pool[k]);
  }

  // ----- What the figures count

  function CountOfSteps(p: Action -> bool, acts: seq<Action>): nat {
    if acts == [] then 0 else (if p(acts[0]) then 1 else 0) + CountOfSteps(p, acts[1..])
  }

  /** Each figure is the number of its events: buffers made, Gets, non-nil Puts, discards, insertions counted. */
  lemma {:induction false} FiguresCount(s: State, acts: seq<Action>)
    requires CanRun(s, acts)
    ensures
      var t := After(s, acts);
      && t.created == s.created + CountOfSteps((a: Action) => a.GetNew?, acts)
      && t.reused == s.reused + CountOfSteps((a: Action) => a.CountReuse?, acts)
      && t.puts == s.puts + CountOfSteps((a: Action) => a.PutCall?, acts)
      && t.discarded == s.discarded + CountOfSteps((a: Action) => a.Reject?, acts)
      && t.accepted == s.accepted + CountOfSteps((a: Action) => a.Count?, acts)
    decreases |acts|
  {
    if acts != [] {
      FiguresCount(Next(s, acts[0]), acts[1..]);
    }
  }

  // ----- Is the counter an upper bound of the pool?

  /** The pool holds no more than the counter says, up to Puts that have inserted and not counted. */
  predicate Bounded(s: State) { |s.pool| <= s.poolSize + InsertedCount(s) }

  predicate AnyPassed(s: State) { exists c :: 0 <= c < |s.callers| && s.callers[c].Passed? }

  /** Bounded, in a form Cleanup keeps when no Put is past its check as it begins. */
  predicate Tight(s: State) {
    Bounded(s) && (Locked(s) ==> s.pool == [] && !AnyPassed(s))
  }

  /** A run in which no Cleanup begins while a Put is between its check and its insertion. */
  predicate Careful(s: State, acts: seq<Action>)
    requires CanRun(s, acts)
    decreases |acts|
  {
    acts == [] || ((acts[0].CleanBegin? ==> !AnyPassed(s)) && Careful(Next(s, acts[0]), acts[1..]))
  }

  lemma TightStep(s: State, a: Action)
    requires Inv(s) && Tight(s) && Enabled(s, a) && (a.CleanBegin? ==> !AnyPassed(s))
    ensures Tight(Next(s, a))
  {
    if !a.Collect? {
      var c := Mover(s, a);
      CountUpdate(IsInserted, s.callers, c, Next(s, a).callers[c]);
      LockAfter(s, a);
    }
  }

  /** The lock is held after a step exactly when Cleanup took it or had it and did not release it. */
  lemma LockAfter(s: State, a: Action)
    requires Inv(s) && Enabled(s, a) && !a.Collect?
    ensures Locked(Next(s, a)) ==> a.CleanBegin? || (Locked(s) && !a.CleanStore?)
  {
    var c := Mover(s, a);
    CountUpdate(IsCleaning, s.callers, c, Next(s, a).callers[c]);
    CountZero(IsCleaning, s.callers);
    CountZero(IsCleaning, Next(s, a).callers);
  }

  /** The pool never holds more than the counter plus the Puts in flight, provided no Cleanup begins
      while a Put is between its check and its insertion. */
  lemma {:induction false} CarefulRuns(s: State, acts: seq<Action>)
    requires Inv(s) && Tight(s) && CanRun(s, acts) && Careful(s, acts)
    ensures Tight(After(s, acts)) && Bounded(After(s, acts))
    decreases |acts|
  {
    if acts != [] {
      TightStep(s, acts[0]);
      InvStep(s, acts[0]);
      CarefulRuns(Next(s, acts[0]), acts[1..]);
    }
  }

  lemma Chain(s: State, a: Action, acts: seq<Action>)
    requires Enabled(s, a) && CanRun(Next(s, a), acts)
    ensures CanRun(s, [a] + acts) && After(s, [a] + acts) == After(Next(s, a), acts)
  {
    assert ([a] + acts)[1..] == acts;
  }

  lemma {:induction false} Append(s: State, a: seq<Action>, b: seq<Action>)
    requires CanRun(s, a) && CanRun(After(s, a), b)
    ensures CanRun(s, a + b) && After(s, a + b) == After(After(s, a), b)
    decreases |a|
  {
    if a == [] {
      assert a + b == b;
    } else {
      Append(Next(s, a[0]), a[1..], b);
      assert (a + b)[1..] == a[1..] + b;
    }
  }

  predicate NoCleanup(acts: seq<Action>) { forall k :: 0 <= k < |acts| ==> !acts[k].CleanBegin? }

  /** Let every Put that has inserted count. */
  lemma {:induction false} Flush(s: State) returns (acts: seq<Action>)
    ensures CanRun(s, acts) && NoCleanup(acts)
    ensures
      var t := After(s, acts);
      && InsertedCount(t) == 0 && t.pool == s.pool && |t.callers| == |s.callers|
      && forall c :: 0 <= c < |s.callers| && !s.callers[c].Inserted? ==> t.callers[c] == s.callers[c]
    decreases InsertedCount(s)
  {
    CountZero(IsInserted, s.callers);
    if InsertedCount(s) == 0 {
      return [];
    }
    var c: nat :| c < |s.callers| && s.callers[c].Inserted?;
    CountUpdate(IsInserted, s.callers, c, Idle);
    var rest := Flush(Next(s, Count(c)));
    Chain(s, Count(c), rest);
    acts := [Count(c)] + rest;
  }

  /** A Put past its check inserts into the new pool and is counted before Cleanup clears the counter. */
  lemma RaceBreaksBound(s: State, j: nat, i: nat) returns (rest: seq<Action>)
    requires j < |s.callers| && s.callers[j].Idle? && !Locked(s)
    requires i < |s.callers| && s.callers[i].Passed?
    ensures NoCleanup(rest) && CanRun(s, [CleanBegin(j)] + rest)
    ensures !Bounded(After(s, [CleanBegin(j)] + rest))
  {
    var s1 := Next(s, CleanBegin(j));
    var flush := Flush(s1);
    var s2 := After(s1, flush);
    assert s2.callers[i].Passed? && s2.callers[j].Cleaning?;
    var last := InsertWhileCleaning(s2, j, i);
    Append(s1, flush, last);
    rest := flush + last;
    Chain(s, CleanBegin(j), rest);
  }

  lemma InsertWhileCleaning(s: State, j: nat, i: nat) returns (acts: seq<Action>)
    requires i < |s.callers| && s.callers[i].Passed? && j < |s.callers| && s.callers[j].Cleaning?
    requires InsertedCount(s) == 0
    ensures NoCleanup(acts) && CanRun(s, acts) && !Bounded(After(s, acts))
  {
    var t := Next(s, Insert(i));
    var u := Next(t, Count(i));
    NoneInserted(s, i, j);
    Chain(u, CleanStore(j), []);
    Chain(t, Count(i), [CleanStore(j)]);
    Chain(s, Insert(i), [Count(i)] + [CleanStore(j)]);
    acts := [Insert(i)] + ([Count(i)] + [CleanStore(j)]);
  }

  lemma NoneInserted(s: State, i: nat, j: nat)
    requires i < |s.callers| && s.callers[i].Passed? && j < |s.callers| && s.callers[j].Cleaning?
    requires InsertedCount(s) == 0
    ensures InsertedCount(Next(Next(Next(s, Insert(i)), Count(i)), CleanStore(j))) == 0
  {
    var t := Next(s, Insert(i));
    var u := Next(t, Count(i));
    CountUpdate(IsInserted, s.callers, i, Inserted);
    CountUpdate(IsInserted, t.callers, i, Idle);
    CountUpdate(IsInserted, u.callers, j, Idle);
  }

  ghost predicate BreaksBound(s: State, j: nat, rest: seq<Action>) {
    NoCleanup(rest) && CanRun(s, [CleanBegin(j)] + rest) && !Bounded(After(s, [CleanBegin(j)] + rest))
  }

  lemma {:induction false} NoCleanupIsCareful(s: State, acts: seq<Action>)
    requires CanRun(s, acts) && NoCleanup(acts)
    ensures Careful(s, acts)
    decreases |acts|
  {
    if acts != [] {
      NoCleanupIsCareful(Next(s, acts[0]), acts[1..]);
    }
  }

  /** The counter can end up below what the pool holds exactly when, as Cleanup begins, some Put is
      between its check and its insertion. */
  lemma CleanupRaces(s: State, j: nat)
    requires Inv(s) && Tight(s) && !Locked(s) && j < |s.callers| && s.callers[j].Idle?
    ensures (exists rest :: BreaksBound(s, j, rest)) <==> AnyPassed(s)
  {
    if AnyPassed(s) {
      var i: nat :| i < |s.callers| && s.callers[i].Passed?;
      var rest := RaceBreaksBound(s, j, i);
      assert BreaksBound(s, j, rest);
    } else {
      forall rest | NoCleanup(rest)
          && CanRun(s, [CleanBegin(j)] + rest) ensures Bounded(After(s, [CleanBegin(j)] + rest)) {
        var acts := [CleanBegin(j)] + rest;
        assert acts[0] == CleanBegin(j) && acts[1..] == rest;
        NoCleanupIsCareful(Next(s, CleanBegin(j)), rest);
        CarefulRuns(s, acts);
      }
    }
  }

  // ----- The counter never goes down

  /** The counter is at its limit, and nobody is between the check and the count, or cleaning. */
  predicate Full(s: State) {
    && s.poolSize >= s.config.maxPoolSize && !Locked(s)
    && forall c :: 0 <= c < |s.callers| ==> !IsAdmitted(s.callers[c])
  }

  lemma FullStep(s: State, a: Action)
    requires Full(s) && Enabled(s, a) && !a.CleanBegin?
    ensures Full(Next(s, a)) && Next(s, a).accepted == s.accepted && Next(s, a).poolSize == s.poolSize
    ensures |Next(s, a).pool| <= |s.pool| && (a.GetPooled? ==> |Next(s, a).pool| < |s.pool|)
  {
  }

  /** Once the counter is at its limit no Put is accepted any more and the pool can only shrink, whatever the
      callers do, until a Cleanup: Get takes buffers out without lowering the counter. */
  lemma {:induction false} FullStays(s: State, acts: seq<Action>)
    requires Full(s) && CanRun(s, acts) && NoCleanup(acts)
    ensures Full(After(s, acts)) && After(s, acts).accepted == s.accepted && After(s, acts).poolSize == s.poolSize
    ensures |After(s, acts).pool| <= |s.pool|
    decreases |acts|
  {
    if acts != [] {
      FullStep(s, acts[0]);
      FullStays(Next(s, acts[0]), acts[1..]);
    }
  }

  /** One caller that puts a buffer back and takes it out again. */
  function PutTurn(b: Buf): seq<Action> { [PutCall(0, b), Load(0)] + [Insert(0), Count(0)] }

  function GetTurn(): seq<Action> { [GetPooled(0, 0), CountReuse(0)] }

  predicate Resting(s: State) {
    s.callers != [] && s.pool == [] && (forall c :: 0 <= c < |s.callers| ==> s.callers[c].Idle?)
  }

  /** Past the check. */
  lemma TurnPasses(s: State, b: Buf)
    requires Resting(s) && b.cap <= s.config.maxBufferSize && s.poolSize < s.config.maxPoolSize
    ensures Enabled(s, PutCall(0, b)) && Enabled(Next(s, PutCall(0, b)), Load(0))
    ensures Next(Next(s, PutCall(0, b)), Load(0)) == PassedState(s, b)
  {
    assert Next(s, PutCall(0, b)).callers == s.callers[0 := Sized(b)];
  }

  /** And counted. */
  lemma TurnCounts(s: State, b: Buf)
    requires s.callers != [] && s.callers[0].Idle?
    ensures Enabled(PassedState(s, b), Insert(0)) && Enabled(Next(PassedState(s, b), Insert(0)), Count(0))
    ensures Next(Next(PassedState(s, b), Insert(0)), Count(0)) == PutTurnState(s, b)
  {
    assert Next(Next(PassedState(s, b), Insert(0)), Count(0)).callers == s.callers;
  }

  lemma TwoSteps(s: State, a: Action, b: Action)
    requires Enabled(s, a) && Enabled(Next(s, a), b)
    ensures CanRun(s, [a, b]) && After(s, [a, b]) == Next(Next(s, a), b)
  {
    Chain(Next(s, a), b, []);
    Chain(s, a, [b] + []);
    assert [a, b] == [a] + ([b] + []);
  }

  lemma PutTurnSteps(s: State, b: Buf)
    requires Resting(s) && b.cap <= s.config.maxBufferSize && s.poolSize < s.config.maxPoolSize
    ensures CanRun(s, PutTurn(b)) && After(s, PutTurn(b)) == PutTurnState(s, b)
  {
    TurnPasses(s, b);
    TwoSteps(s, PutCall(0, b), Load(0));
    var t := PassedState(s, b);
    TurnCounts(s, b);
    TwoSteps(t, Insert(0), Count(0));
    Append(s, [PutCall(0, b), Load(0)], [Insert(0), Count(0)]);
  }

  function PassedState(s: State, b: Buf): State
    requires s.callers != []
  {
    Move(s, 0, Passed(b)).(puts := s.puts + 1)
  }

  function PutTurnState(s: State, b: Buf): State {
    s.(puts := s.puts + 1, pool := s.pool + [Buf(0, b.cap)], poolSize := s.poolSize + 1, accepted := s.accepted + 1,
       sinceCleanup := s.sinceCleanup + 1)
  }

  lemma GetTurnSteps(s: State)
    requires s.callers != [] && s.callers[0].Idle? && |s.pool| == 1
    ensures CanRun(s, GetTurn()) && After(s, GetTurn()) == s.(pool := [], reused := s.reused + 1)
  {
    var t := Next(Next(s, GetPooled(0, 0)), CountReuse(0));
    assert t.callers == s.callers && t.pool == [];
    TwoSteps(s, GetPooled(0, 0), CountReuse(0));
  }

  lemma TurnRuns(s: State, b: Buf)
    requires Resting(s) && b.cap <= s.config.maxBufferSize && s.poolSize < s.config.maxPoolSize
    ensures CanRun(s, PutTurn(b) + GetTurn()) && NoCleanup(PutTurn(b) + GetTurn())
    ensures
      var t := After(s, PutTurn(b) + GetTurn());
      Resting(t) && t.config == s.config && t.poolSize == s.poolSize + 1
  {
    PutTurnSteps(s, b);
    GetTurnSteps(PutTurnState(s, b));
    Append(s, PutTurn(b), GetTurn());
  }

  /** So one caller using one buffer at a time, of any size that is not too large, fills the counter with the
      pool empty: from then on every Put is discarded and every Get allocates. */
  lemma {:induction false} FullButEmpty(s: State, b: Buf) returns (acts: seq<Action>)
    requires Resting(s) && b.cap <= s.config.maxBufferSize && s.poolSize <= s.config.maxPoolSize
    ensures CanRun(s, acts) && NoCleanup(acts)
    ensures Full(After(s, acts)) && After(s, acts).pool == []
    decreases s.config.maxPoolSize - s.poolSize
  {
    if s.poolSize == s.config.maxPoolSize {
      return [];
    }
    TurnRuns(s, b);
    var turn := PutTurn(b) + GetTurn();
    var rest := FullButEmpty(After(s, turn), b);
    Append(s, turn, rest);
    acts := turn + rest;
  }
}
