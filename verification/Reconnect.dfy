/** The health monitor, the reconnector and the shutdown path of the postgres and minio clients, as
    interleaved steps over a capacity-1 signal channel and an atomically swapped connection. */
module Reconnect {
  /** The two variants of the protocol. */
  datatype Kind = Postgres | Minio

  /** Absent: never started. Failed: the check failed, the signal is about to be sent.
      Closing: past the loop, before the deferred close of the signal channel. */
  datatype Monitor = MAbsent | MIdle | MChecking | MFailed | MClosing | MDone

  /** Idle: at the outer select. Select: at the inner select. Trying: in the given stage of an attempt.
      Storing: swapping the given pointer. */
  datatype Retrier = RAbsent | RIdle | RSelect | RTrying(stage: nat) | RSleeping | RStoring(pointer: nat) | RDone

  /** The stop hook: close the shutdown channel, wait, close the signal channel, close the connection. */
  datatype Stopper = SRunning | SSignalled | SWaited | SRetryClosed | SDone

  /** The two signal channels with their Once guards, the context, and Go's channel panics. */
  datatype Channels = Channels(
    shutdown: bool, shutdownOnce: bool, cancelled: bool,
    pending: bool, retryClosed: bool, retryOnce: bool, panicked: bool)

  /** Connections are numbered by the attempt that made them; `installs` lists them in the order they
      became current, `closed` those closed. `begun` and `finished` count attempts. */
  datatype Connections = Connections(
    client: nat, core: nat, installs: seq<nat>, closed: seq<nat>, begun: nat, finished: nat)

  /** `now` counts steps; the others are steps that happened (0: none): the latest failure signal, the latest
      installation, the begin of the latest attempt, and of the attempt that made the connection in use. */
  datatype Clock = Clock(now: nat, lastFail: nat, lastInstall: nat, begunAt: nat, fromAt: nat)

  /** What happened, read off the actions alone: ticks taken, checks passed and failed, the step of the latest
      failed one, failures signalled; and of the latest attempt the stages passed and whether one failed. */
  datatype Log = Log(ticks: nat, passed: nat, failed: nat, lastBad: nat, signals: nat, stages: nat, broke: bool)

  /** `waits` tells the fx stop hook from GracefulShutdown. */
  datatype State = State(
    kind: Kind, waits: bool, tick: bool, monitor: Monitor, retrier: Retrier, stopper: Stopper,
    ch: Channels, conn: Connections, clock: Clock, log: Log)

  datatype MonitorStep = MonTick | MonStop | CheckOk | CheckFail | Signal | MonClose

  datatype RetrierStep = RetStop | RetReceive | InnerStop | Try | TryFail | TryOk | Wake | Store

  datatype StopperStep = StopSignal | StopWait | StopCloseRetry | StopCloseConn

  datatype Action = Tick | Cancel | Mon(m: MonitorStep) | Ret(r: RetrierStep) | Stop(p: StopperStep)

  function Init(kind: Kind, waits: bool, started: bool): State {
    State(kind, waits, false, if started then MIdle else MAbsent, if started then RIdle else RAbsent, SRunning,
          Channels(false, false, false, false, false, false, false), Connections(0, 0, [0], [], 0, 0),
          Clock(1, 0, 0, 0, 0), Log(0, 0, 0, 0, 0, 0, false))
  }

  predicate Stopped(s: State) { s.ch.shutdown || s.ch.cancelled }

  /** connectToPostgres; or connectToMinio, connectToMinioCore, ListBuckets. */
  function Stages(k: Kind): nat { if k.Postgres? then 1 else 3 }

  /** The client pointer; or the client and the core client pointer. */
  function Pointers(k: Kind): nat { if k.Postgres? then 1 else 2 }

  predicate MonitorRunning(s: State) { s.monitor.MIdle? || s.monitor.MChecking? || s.monitor.MFailed? }

  predicate MonitorGone(s: State) { s.monitor.MDone? || s.monitor.MAbsent? }

  predicate RetrierGone(s: State) { s.retrier.RDone? || s.retrier.RAbsent? }

  predicate MonitorEnabled(s: State, m: MonitorStep) {
    match m
    case MonTick => s.monitor.MIdle? && s.tick
    case MonStop => s.monitor.MIdle? && Stopped(s)
    case CheckOk => s.monitor.MChecking?
    case CheckFail => s.monitor.MChecking?
    case Signal => s.monitor.MFailed?
    case MonClose => s.monitor.MClosing?
  }

  predicate RetrierEnabled(s: State, r: RetrierStep) {
    match r
    case RetStop => s.retrier.RIdle? && Stopped(s)
    case RetReceive => s.retrier.RIdle? && (s.ch.pending || s.ch.retryClosed)
    case InnerStop => s.retrier.RSelect? && Stopped(s)
    case Try => s.retrier.RSelect? && !Stopped(s)
    case TryFail => s.retrier.RTrying?
    case TryOk => s.retrier.RTrying?
    case Wake => s.retrier.RSleeping?
    case Store => s.retrier.RStoring?
  }

  predicate StopperEnabled(s: State, p: StopperStep) {
    match p
    case StopSignal => s.stopper.SRunning?
    case StopWait => s.stopper.SSignalled? && (s.waits ==> MonitorGone(s) && RetrierGone(s))
    case StopCloseRetry => s.stopper.SWaited?
    case StopCloseConn => s.stopper.SRetryClosed?
  }

  predicate Enabled(s: State, a: Action) {
    match a
    case Tick => true
    case Cancel => true
    case Mon(m) => MonitorEnabled(s, m)
    case Ret(r) => RetrierEnabled(s, r)
    case Stop(p) => StopperEnabled(s, p)
  }

  /** close(retryChanSignal) under closeRetryChanOnce. */
  function CloseRetry(c: Channels): Channels {
    if c.retryOnce then c else c.(retryOnce := true, retryClosed := true, panicked := c.panicked || c.retryClosed)
  }

  /** close(shutdownSignal) under closeShutdownOnce. */
  function CloseShutdown(c: Channels): Channels {
    if c.shutdownOnce then c else c.(shutdownOnce := true, shutdown := true, panicked := c.panicked || c.shutdown)
  }

  function MonitorMove(s: State, m: MonitorStep): State
    requires MonitorEnabled(s, m)
  {
    match m
    case MonTick => s.(monitor := MChecking, tick := false)
    case MonStop => s.(monitor := if s.kind.Postgres? then MClosing else MDone)
    case CheckOk => s.(monitor := MIdle)
    case CheckFail => s.(monitor := MFailed)
    case Signal =>
      if s.ch.retryClosed then s.(ch := s.ch.(panicked := true))
      else s.(monitor := MIdle, ch := s.ch.(pending := true), clock := s.clock.(lastFail := s.clock.now))
    case MonClose => s.(monitor := MDone, ch := CloseRetry(s.ch))
  }

  /** Swapping one pointer to the connection of the current attempt. */
  function Install(c: Connections, pointer: nat): Connections {
    if pointer == 0 then c.(client := c.begun, installs := c.installs + [c.begun]) else c.(core := c.begun)
  }

  function RetrierMove(s: State, r: RetrierStep): State
    requires RetrierEnabled(s, r)
  {
    match r
    case RetStop => s.(retrier := RDone)
    case RetReceive =>
      if s.ch.pending then s.(retrier := RSelect, ch := s.ch.(pending := false))
      else s.(retrier := if s.kind.Postgres? then RSelect else RDone)
    case InnerStop => s.(retrier := RDone)
    case Try =>
      s.(retrier := RTrying(0), conn := s.conn.(begun := s.conn.begun + 1), clock := s.clock.(begunAt := s.clock.now))
    case TryFail => s.(retrier := RSleeping, conn := s.conn.(finished := s.conn.finished + 1))
    case TryOk =>
      s.(retrier := if s.retrier.stage + 1 < Stages(s.kind) then RTrying(s.retrier.stage + 1) else RStoring(0))
    case Wake => s.(retrier := RSelect)
    case Store =>
      var c := Install(s.conn, s.retrier.pointer);
      if s.retrier.pointer + 1 < Pointers(s.kind) then s.(retrier := RStoring(s.retrier.pointer + 1), conn := c)
      else s.(retrier := RIdle, conn := c.(finished := c.finished + 1), 
             clock := s.clock.(lastInstall := s.clock.now, fromAt := s.clock.begunAt))
  }

  function StopperMove(s: State, p: StopperStep): State
    requires StopperEnabled(s, p)
  {
    match p
    case StopSignal => s.(stopper := SSignalled, ch := CloseShutdown(s.ch))
    case StopWait => s.(stopper := if s.kind.Postgres? then SWaited else SDone)
    case StopCloseRetry => s.(stopper := SRetryClosed, ch := CloseRetry(s.ch))
    case StopCloseConn => s.(stopper := SDone, conn := s.conn.(closed := s.conn.closed + [s.conn.client]))
  }

  /** The log after an action at step `now`. On a closed signal channel a signal is a panic, not a signal. */
  function Noted(l: Log, now: nat, closed: bool, a: Action): Log {
    match a
    case Mon(MonTick) => l.(ticks := l.ticks + 1)
    case Mon(CheckOk) => l.(passed := l.passed + 1)
    case Mon(CheckFail) => l.(failed := l.failed + 1, lastBad := now)
    case Mon(Signal) => if closed then l else l.(signals := l.signals + 1)
    case Ret(Try) => l.(stages := 0, broke := false)
    case Ret(TryOk) => l.(stages := l.stages + 1)
    case Ret(TryFail) => l.(broke := true)
    case _ => l
  }

  function Next(s: State, a: Action): State
    requires Enabled(s, a)
  {
    var t := match a
      case Tick => s.(tick := true)
      case Cancel => s.(ch := s.ch.(cancelled := true))
      case Mon(m) => MonitorMove(s, m)
      case Ret(r) => RetrierMove(s, r)
      case Stop(p) => StopperMove(s, p);
    t.(clock := t.clock.(now := t.clock.now + 1), log := Noted(s.log, s.clock.now, s.ch.retryClosed, a))
  }

  predicate CanRun(s: State, acts: seq<Action>)
    decreases |acts|
  {
    acts == [] || (Enabled(s, acts[0]) && CanRun(Next(s, acts[0]), acts[1..]))
  }

  function After(s: State, acts: seq<Action>): State
    requires CanRun(s, acts)
    decreases |acts|
  {
    if acts == [] then s else After(Next(s, acts[0]), acts[1..])
  }

  // ----- Invariants

  /** An attempt has begun and not ended. */
  predicate Attempting(s: State) { s.retrier.RTrying? || s.retrier.RStoring? }

  /** Channels: what is closed, by whom it can be, and where that leaves the others. */
  predicate Signals(s: State) {
    && s.ch.shutdown == s.ch.shutdownOnce && s.ch.retryClosed == s.ch.retryOnce
    && (s.ch.shutdown <==> !s.stopper.SRunning?)
    && (s.monitor.MClosing? ==> Stopped(s)) && (s.monitor.MDone? ==> Stopped(s)) && (s.retrier.RDone? ==> Stopped(s))
    && (s.ch.retryClosed ==> s.kind.Postgres? && Stopped(s))
    && (s.monitor.MClosing? || s.stopper.SWaited? || s.stopper.SRetryClosed? ==> s.kind.Postgres?)
    && (s.waits && s.ch.retryClosed ==> MonitorGone(s))
    && (s.waits && (s.stopper.SWaited? || s.stopper.SRetryClosed? || s.stopper.SDone?) ==>
        MonitorGone(s) && RetrierGone(s))
    && (s.ch.retryClosed && !s.stopper.SRetryClosed? && !s.stopper.SDone? ==> MonitorGone(s))
    && (s.waits || s.kind.Minio? ==> !s.ch.panicked)
    && (s.ch.panicked ==> s.stopper.SRetryClosed? || s.stopper.SDone?)
  }

  /** Pointers: what is current. */
  predicate Current(s: State) {
    && s.conn.installs != [] && s.conn.client == s.conn.installs[|s.conn.installs| - 1]
    && (s.retrier.RTrying? ==> s.retrier.stage < Stages(s.kind))
    && (s.retrier.RStoring? ==> s.retrier.pointer < Pointers(s.kind))
    && (s.kind.Minio? && !(s.retrier.RStoring? && s.retrier.pointer == 1) ==> s.conn.client == s.conn.core)
    && (s.retrier.RStoring? && s.retrier.pointer == 1 ==> s.conn.client == s.conn.begun)
    && s.conn.begun == s.conn.finished + (if Attempting(s) then 1 else 0)
    && (s.conn.closed != [] ==> s.stopper.SDone?) && |s.conn.closed| <= 1
    && (s.waits && s.conn.closed != [] ==> s.conn.closed == [s.conn.client])
    && (s.stopper.SDone? && s.kind.Postgres? ==> |s.conn.closed| == 1)
  }

  /** Every failure signal is waiting, being served by an attempt that began or will begin after it, or
      answered by a connection from such an attempt. */
  predicate Noticed(s: State) {
    && s.clock.lastFail < s.clock.now && s.clock.lastInstall < s.clock.now
    && s.clock.fromAt <= s.clock.begunAt < s.clock.now && s.clock.fromAt <= s.clock.lastInstall
    && (!Stopped(s) && !s.retrier.RAbsent? ==>
          || s.clock.lastFail == 0 || s.clock.lastFail < s.clock.fromAt || s.ch.pending
          || s.retrier.RSelect? || s.retrier.RSleeping? || (Attempting(s) && s.clock.lastFail < s.clock.begunAt))
  }

  predicate Inv(s: State) { Signals(s) && Current(s) && Noticed(s) }

  lemma InitInv(kind: Kind, waits: bool, started: bool)
    ensures Inv(Init(kind, waits, started)) && Numbered(Init(kind, waits, started))
  {
  }

  lemma InitLog(kind: Kind, waits: bool, started: bool)
    ensures Checked(Init(kind, waits, started)) && Tried(Init(kind, waits, started))
  {
  }

  /** The parameters of the client never change. */
  predicate SameClient(s: State, t: State) { t.kind == s.kind && t.waits == s.waits }

  lemma EnvironmentStepInv(s: State, a: Action)
    requires Inv(s) && (a.Tick? || a.Cancel?)
    ensures Inv(Next(s, a)) && SameClient(s, Next(s, a))
  {
  }

  lemma MonitorChannels(s: State, m: MonitorStep)
    requires Signals(s) && MonitorEnabled(s, m)
    ensures Signals(Next(s, Mon(m))) && SameClient(s, Next(s, Mon(m)))
  {
  }

  lemma MonitorConnections(s: State, m: MonitorStep)
    requires Current(s) && MonitorEnabled(s, m)
    ensures Current(Next(s, Mon(m)))
  {
    var t := Next(s, Mon(m));
    assert t.conn == s.conn && t.retrier == s.retrier && t.stopper == s.stopper;
  }

  lemma MonitorNoticed(s: State, m: MonitorStep)
    requires Noticed(s) && MonitorEnabled(s, m)
    ensures Noticed(Next(s, Mon(m)))
  {
  }

  lemma MonitorStepInv(s: State, m: MonitorStep)
    requires Inv(s) && MonitorEnabled(s, m)
    ensures Inv(Next(s, Mon(m))) && SameClient(s, Next(s, Mon(m)))
  {
    MonitorChannels(s, m);
    MonitorConnections(s, m);
    MonitorNoticed(s, m);
  }

  lemma RetrierChannels(s: State, r: RetrierStep)
    requires Signals(s) && RetrierEnabled(s, r)
    ensures Signals(Next(s, Ret(r))) && SameClient(s, Next(s, Ret(r)))
  {
  }

  lemma RetrierConnections(s: State, r: RetrierStep)
    requires Signals(s) && Current(s) && RetrierEnabled(s, r)
    ensures Current(Next(s, Ret(r)))
  {
    if r.Store? {
      var t := Next(s, Ret(r));
      assert s.retrier.pointer == 0 ==> t.conn.installs[|t.conn.installs| - 1] == s.conn.begun;
    }
  }

  lemma RetrierNoticed(s: State, r: RetrierStep)
    requires Signals(s) && Noticed(s) && RetrierEnabled(s, r)
    ensures Noticed(Next(s, Ret(r)))
  {
  }

  lemma StopperStepInv(s: State, p: StopperStep)
    requires Inv(s) && StopperEnabled(s, p)
    ensures Inv(Next(s, Stop(p))) && SameClient(s, Next(s, Stop(p)))
  {
  }

  lemma InvStep(s: State, a: Action)
    requires Inv(s) && Enabled(s, a)
    ensures Inv(Next(s, a)) && SameClient(s, Next(s, a))
  {
    match a {
      case Mon(m) => MonitorStepInv(s, m);
      case Ret(r) =>
        RetrierChannels(s, r);
        RetrierConnections(s, r);
        RetrierNoticed(s, r);
      case Stop(p) => StopperStepInv(s, p);
      case _ => EnvironmentStepInv(s, a);
    }
  }

  lemma {:induction false} InvRun(s: State, acts: seq<Action>)
    requires Inv(s) && CanRun(s, acts)
    ensures Inv(After(s, acts)) && SameClient(s, After(s, acts))
    decreases |acts|
  {
    if acts != [] {
      InvStep(s, acts[0]);
      InvRun(Next(s, acts[0]), acts[1..]);
    }
  }

  // ----- What holds in every run

  /** No health failure is lost. Sends are non-blocking and coalesce, yet before shutdown or
      cancellation, whenever the reconnector is back at its outer select and no signal is waiting,
      the connection in use comes from an attempt that began after the latest failure signal. */
  lemma NoFailureLost(kind: Kind, waits: bool, acts: seq<Action>)
    requires CanRun(Init(kind, waits, true), acts)
    ensures
      var s := After(Init(kind, waits, true), acts);
      !Stopped(s) && s.retrier.RIdle? && !s.ch.pending ==>
          s.clock.lastFail == 0 || s.clock.lastFail < s.clock.fromAt <= s.clock.lastInstall
  {
    InitInv(kind, waits, true);
    InvRun(Init(kind, waits, true), acts);
  }

  /** Every tick taken is a check, every failed check and no other is signalled once, and the signal comes
      after the check. */
  predicate Checked(s: State) {
    && s.log.ticks == s.log.passed + s.log.failed + (if s.monitor.MChecking? then 1 else 0)
    && s.log.failed == s.log.signals + (if s.monitor.MFailed? then 1 else 0)
    && s.log.lastBad < s.clock.now
    && (s.log.lastBad == 0 || s.monitor.MFailed? || s.log.lastBad < s.clock.lastFail)
  }

  lemma CheckedStep(s: State, a: Action)
    requires Checked(s) && Enabled(s, a)
    ensures Checked(Next(s, a))
  {
    match a {
      case Mon(m) => CheckedMonitor(s, m);
      case Ret(r) => CheckedRetrier(s, r);
      case _ =>
    }
  }

  lemma CheckedMonitor(s: State, m: MonitorStep)
    requires Checked(s) && MonitorEnabled(s, m)
    ensures Checked(Next(s, Mon(m)))
  {
  }

  lemma CheckedRetrier(s: State, r: RetrierStep)
    requires Checked(s) && RetrierEnabled(s, r)
    ensures Checked(Next(s, Ret(r)))
  {
    var t := Next(s, Ret(r));
    assert t.monitor == s.monitor && t.clock.lastFail == s.clock.lastFail;
  }

  lemma {:induction false} CheckedRun(s: State, acts: seq<Action>)
    requires Checked(s) && CanRun(s, acts)
    ensures Checked(After(s, acts))
    decreases |acts|
  {
    if acts != [] {
      CheckedStep(s, acts[0]);
      CheckedRun(Next(s, acts[0]), acts[1..]);
    }
  }

  predicate Signalled(s: State) {
    && s.log.ticks == s.log.passed + s.log.failed + (if s.monitor.MChecking? then 1 else 0)
    && s.log.failed == s.log.signals + (if s.monitor.MFailed? then 1 else 0)
  }

  /** The monitor does its work: each tick it takes is one health check, and it signals once for each failed
      check and never for a passed one. */
  lemma ChecksAreSignalled(kind: Kind, waits: bool, started: bool, acts: seq<Action>)
    requires CanRun(Init(kind, waits, started), acts)
    ensures Signalled(After(Init(kind, waits, started), acts))
  {
    InitLog(kind, waits, started);
    CheckedRun(Init(kind, waits, started), acts);
  }

  /** So no failed check is lost either: before shutdown or cancellation, unless the monitor is about to signal,
      a signal waits or the reconnector is at work, the connection in use comes from an attempt that began
      after the latest failed check. */
  lemma NoFailedCheckLost(kind: Kind, waits: bool, acts: seq<Action>)
    requires CanRun(Init(kind, waits, true), acts)
    ensures
      var s := After(Init(kind, waits, true), acts);
      !Stopped(s) && !s.monitor.MFailed? && s.retrier.RIdle? && !s.ch.pending ==>
          s.log.lastBad == 0 || s.log.lastBad < s.clock.fromAt <= s.clock.lastInstall
  {
    NoFailureLost(kind, waits, acts);
    CheckedRun(Init(kind, waits, true), acts);
  }

  /** The attempt under way has passed its stages one by one, and all of them before it is installed. */
  predicate Tried(s: State) {
    && (s.retrier.RTrying? ==> s.retrier.stage < Stages(s.kind) && s.log.stages == s.retrier.stage && !s.log.broke)
    && (s.retrier.RStoring? ==> s.log.stages == Stages(s.kind) && !s.log.broke)
  }

  lemma TriedRetrier(s: State, r: RetrierStep)
    requires Tried(s) && RetrierEnabled(s, r)
    ensures Tried(Next(s, Ret(r))) && Next(s, Ret(r)).kind == s.kind
  {
  }

  lemma TriedMonitor(s: State, m: MonitorStep)
    requires Tried(s) && MonitorEnabled(s, m)
    ensures Tried(Next(s, Mon(m))) && Next(s, Mon(m)).kind == s.kind
  {
    var t := Next(s, Mon(m));
    assert t.retrier == s.retrier && t.log.stages == s.log.stages && t.log.broke == s.log.broke;
  }

  lemma {:induction false} TriedRun(s: State, acts: seq<Action>)
    requires Tried(s) && CanRun(s, acts)
    ensures Tried(After(s, acts)) && After(s, acts).kind == s.kind
    decreases |acts|
  {
    if acts != [] {
      match acts[0] {
        case Mon(m) => TriedMonitor(s, m);
        case Ret(r) => TriedRetrier(s, r);
        case _ =>
      }
      TriedRun(Next(s, acts[0]), acts[1..]);
    }
  }

  /** What changes a client pointer is a store of the latest attempt, and only once every call of that attempt
      succeeded: the connect of postgres; the two connects and the trial listing of minio. */
  lemma InstallsAreTried(kind: Kind, waits: bool, started: bool, acts: seq<Action>, a: Action)
    requires CanRun(Init(kind, waits, started), acts) && Enabled(After(Init(kind, waits, started), acts), a)
    ensures
      var s := After(Init(kind, waits, started), acts);
      var t := Next(s, a);
      t.conn.client != s.conn.client || t.conn.core != s.conn.core ==>
        && a == Ret(Store) && s.log.stages == (if kind == Postgres then 1 else 3) && !s.log.broke
        && (t.conn.client == s.conn.begun || t.conn.core == s.conn.begun)
  {
    InitLog(kind, waits, started);
    TriedRun(Init(kind, waits, started), acts);
    PointerMoves(After(Init(kind, waits, started), acts), a);
  }

  lemma PointerMoves(s: State, a: Action)
    requires Enabled(s, a)
    ensures
      var t := Next(s, a);
      t.conn.client != s.conn.client || t.conn.core != s.conn.core ==>
        a == Ret(Store) && s.retrier.RStoring? && (t.conn.client == s.conn.begun || t.conn.core == s.conn.begun)
  {
  }

  // ----- The reconnector gets there

  /** A failed attempt is followed by another one. */
  lemma FailureRetries(s: State)
    requires s.retrier.RTrying? && !Stopped(s)
    ensures
      var acts := [Ret(TryFail), Ret(Wake), Ret(Try)];
      && CanRun(s, acts) && After(s, acts).retrier == RTrying(0) && After(s, acts).conn.begun == s.conn.begun + 1
      && After(s, acts).conn.installs == s.conn.installs
  {
    var t := Next(s, Ret(TryFail));
    var u := Next(t, Ret(Wake));
    Chain(u, Ret(Try), []);
    Chain(t, Ret(Wake), [Ret(Try)] + []);
    Chain(s, Ret(TryFail), [Ret(Wake)] + ([Ret(Try)] + []));
    assert [Ret(TryFail), Ret(Wake), Ret(Try)] == [Ret(TryFail)] + ([Ret(Wake)] + ([Ret(Try)] + []));
  }

  /** The reconnector's next step when attempts succeed. */
  function Onward(s: State): Action {
    match s.retrier
    case RSelect => Ret(Try)
    case RTrying(_) => Ret(TryOk)
    case RSleeping => Ret(Wake)
    case RStoring(_) => Ret(Store)
    case _ => Ret(RetReceive)
  }

  function StepsToIdle(s: State): nat {
    (if s.ch.pending then 20 else 0)
    + match s.retrier
      case RSleeping => 10
      case RSelect => 9
      case RTrying(i) => if i < 4 then 8 - i else 4
      case RStoring(p) => if p == 0 then 2 else 1
      case _ => 0
  }

  predicate OnlyReconnects(acts: seq<Action>) { forall i :: 0 <= i < |acts| ==> acts[i].Ret? }

  predicate AtWork(s: State) { !Stopped(s) && !s.retrier.RAbsent? && Signals(s) && Current(s) }

  lemma OnwardMoves(s: State)
    requires AtWork(s) && !(s.retrier.RIdle? && !s.ch.pending)
    ensures Enabled(s, Onward(s)) && AtWork(Next(s, Onward(s)))
    ensures StepsToIdle(Next(s, Onward(s))) < StepsToIdle(s)
  {
    OnwardEnabled(s);
    OnwardNears(s);
    RetrierChannels(s, Onward(s).r);
    RetrierConnections(s, Onward(s).r);
  }

  lemma OnwardEnabled(s: State)
    requires !Stopped(s) && !s.retrier.RAbsent? && Signals(s) && !(s.retrier.RIdle? && !s.ch.pending)
    ensures Onward(s).Ret? && Enabled(s, Onward(s))
  {
  }

  lemma OnwardNears(s: State)
    requires Enabled(s, Onward(s)) && !Stopped(s) && !s.retrier.RDone? && !(s.retrier.RIdle? && !s.ch.pending)
    requires (s.retrier.RTrying? ==> s.retrier.stage < Stages(s.kind))
    requires s.retrier.RStoring? ==> s.retrier.pointer < Pointers(s.kind)
    ensures StepsToIdle(Next(s, Onward(s))) < StepsToIdle(s)
    ensures !Next(s, Onward(s)).retrier.RAbsent? && !Stopped(Next(s, Onward(s)))
  {
  }

  /** Whatever it is doing, a reconnector that is not stopped can go on alone until it is idle and no signal
      waits. */
  lemma {:induction false} Reconnects(s: State) returns (acts: seq<Action>)
    requires AtWork(s)
    ensures CanRun(s, acts) && OnlyReconnects(acts)
    ensures After(s, acts).retrier.RIdle? && !After(s, acts).ch.pending && !Stopped(After(s, acts))
    decreases StepsToIdle(s)
  {
    if s.retrier.RIdle? && !s.ch.pending {
      return [];
    }
    OnwardMoves(s);
    var rest := Reconnects(Next(s, Onward(s)));
    Chain(s, Onward(s), rest);
    acts := [Onward(s)] + rest;
  }

  function FailingCheck(): seq<Action> { [Tick, Mon(MonTick)] + [Mon(CheckFail), Mon(Signal)] }

  /** A failing check reaches the reconnector: from any state with the monitor between two checks, the check and
      then reconnector steps alone lead to a connection whose attempt began after the check. */
  lemma FailingCheckReconnects(s: State) returns (acts: seq<Action>)
    requires Inv(s) && AtWork(s) && s.monitor.MIdle?
    ensures OnlyReconnects(acts) && CanRun(s, FailingCheck() + acts)
    ensures
      var t := After(s, FailingCheck() + acts);
      t.retrier.RIdle? && !t.ch.pending && t.clock.fromAt > s.clock.now + 2 == t.log.lastBad
  {
    FailingCheckRuns(s);
    var u := After(s, FailingCheck());
    InvRun(s, FailingCheck());
    acts := Reconnects(u);
    InvRun(u, acts);
    ReconnectsQuietly(u, acts);
    Appended(s, FailingCheck(), acts);
  }

  lemma FailingCheckRuns(s: State)
    requires Inv(s) && AtWork(s) && s.monitor.MIdle?
    ensures CanRun(s, FailingCheck())
    ensures
      var u := After(s, FailingCheck());
      AtWork(u) && u.clock.lastFail == s.clock.now + 3 && u.log.lastBad == s.clock.now + 2
  {
    var s1 := Next(s, Tick);
    var s2 := Next(s1, Mon(MonTick));
    var s3 := Next(s2, Mon(CheckFail));
    Chain(s3, Mon(Signal), []);
    Chain(s2, Mon(CheckFail), [Mon(Signal)] + []);
    Chain(s1, Mon(MonTick), [Mon(CheckFail)] + ([Mon(Signal)] + []));
    Chain(s, Tick, [Mon(MonTick)] + ([Mon(CheckFail)] + ([Mon(Signal)] + [])));
    assert FailingCheck() == [Tick] + ([Mon(MonTick)] + ([Mon(CheckFail)] + ([Mon(Signal)] + [])));
    InvRun(s, FailingCheck());
  }

  /** Reconnector steps leave the monitor's marks. */
  lemma {:induction false} ReconnectsQuietly(s: State, acts: seq<Action>)
    requires CanRun(s, acts) && OnlyReconnects(acts)
    ensures After(s, acts).clock.lastFail == s.clock.lastFail && After(s, acts).log.lastBad == s.log.lastBad
    ensures After(s, acts).retrier.RAbsent? ==> s.retrier.RAbsent?
    decreases |acts|
  {
    if acts != [] {
      assert acts[0].Ret?;
      ReconnectsQuietly(Next(s, acts[0]), acts[1..]);
    }
  }

  lemma {:induction false} Appended(s: State, a: seq<Action>, b: seq<Action>)
    requires CanRun(s, a) && CanRun(After(s, a), b)
    ensures CanRun(s, a + b) && After(s, a + b) == After(After(s, a), b)
    decreases |a|
  {
    if a == [] {
      assert a + b == b;
    } else {
      Appended(Next(s, a[0]), a[1..], b);
      assert (a + b)[1..] == a[1..] + b;
    }
  }

  /** Between attempts the two minio pointers come from one attempt; the signal channel is never closed,
      so no stop path can make a send fail. */
  lemma ClientsPaired(waits: bool, started: bool, acts: seq<Action>)
    requires CanRun(Init(Minio, waits, started), acts)
    ensures
      var s := After(Init(Minio, waits, started), acts);
      && (!s.retrier.RStoring? ==> s.conn.client == s.conn.core)
      && !s.ch.panicked
  {
    InitInv(Minio, waits, started);
    InvRun(Init(Minio, waits, started), acts);
  }

  /** The fx stop path: nothing is sent on a closed channel, no channel is closed twice (either would
      set `panicked`), and the one connection closed is the last one installed. */
  lemma StopIsSafe(kind: Kind, started: bool, acts: seq<Action>)
    requires CanRun(Init(kind, true, started), acts)
    ensures
      var s := After(Init(kind, true, started), acts);
      && !s.ch.panicked
      && s.conn.installs != []
      && (s.conn.closed != [] ==>
          s.conn.closed == [s.conn.installs[|s.conn.installs| - 1]] && MonitorGone(s) && RetrierGone(s))
      && (s.stopper.SDone? && kind.Postgres? ==> s.conn.closed != [])
  {
    InitInv(kind, true, started);
    InvRun(Init(kind, true, started), acts);
  }

  /** The attempt under way has not swapped the client pointer yet. */
  predicate MayInstall(s: State) { s.retrier.RTrying? || (s.retrier.RStoring? && s.retrier.pointer == 0) }

  function One(b: bool): nat { if b then 1 else 0 }

  /** The attempts a stopped client still owes. */
  predicate Winding(s: State, t: State) {
    && Stopped(t) && t.conn.begun == s.conn.begun
    && t.conn.finished + One(Attempting(t)) == s.conn.finished + One(Attempting(s))
    && |t.conn.installs| + One(MayInstall(t)) <= |s.conn.installs| + One(MayInstall(s))
  }

  lemma StoppedRetrier(s: State, r: RetrierStep)
    requires Stopped(s) && RetrierEnabled(s, r)
    ensures Winding(s, Next(s, Ret(r)))
  {
  }

  lemma StoppedMonitor(s: State, m: MonitorStep)
    requires Stopped(s) && MonitorEnabled(s, m)
    ensures Winding(s, Next(s, Mon(m)))
  {
  }

  lemma StoppedStopper(s: State, p: StopperStep)
    requires Stopped(s) && StopperEnabled(s, p)
    ensures Winding(s, Next(s, Stop(p)))
  {
    var t := Next(s, Stop(p));
    assert t.retrier == s.retrier && t.conn.installs == s.conn.installs;
  }

  lemma StoppedStep(s: State, a: Action)
    requires Stopped(s) && Enabled(s, a)
    ensures Winding(s, Next(s, a))
  {
    match a {
      case Ret(r) => StoppedRetrier(s, r);
      case Mon(m) => StoppedMonitor(s, m);
      case Stop(p) => StoppedStopper(s, p);
      case _ =>
    }
  }

  /** Once stopped, no reconnect attempt begins, at most one, already begun, ends, and at most that
      one is still installed. */
  lemma {:induction false} StopEndsAttempts(s: State, acts: seq<Action>)
    requires Stopped(s) && CanRun(s, acts)
    ensures After(s, acts).conn.begun == s.conn.begun
    ensures After(s, acts).conn.finished <= s.conn.finished + One(Attempting(s))
    ensures |After(s, acts).conn.installs| <= |s.conn.installs| + One(MayInstall(s))
    decreases |acts|
  {
    if acts != [] {
      StoppedStep(s, acts[0]);
      StopEndsAttempts(Next(s, acts[0]), acts[1..]);
    }
  }

  // ----- Ending

  function MonitorRank(m: Monitor): nat {
    match m
    case MChecking => 4
    case MFailed => 3
    case MIdle => 2
    case MClosing => 1
    case _ => 0
  }

  function RetrierRank(r: Retrier): nat {
    match r
    case RTrying(i) => if i < 3 then 7 - i else 5
    case RStoring(p) => if p == 0 then 4 else 3
    case RIdle => 2
    case RSleeping => 2
    case RSelect => 1
    case _ => 0
  }

  function StopperRank(p: Stopper): nat {
    match p
    case SRunning => 4
    case SSignalled => 3
    case SWaited => 2
    case SRetryClosed => 1
    case SDone => 0
  }

  /** Steps the three goroutines have left once stopped; a tick waiting in the ticker may cost a
      whole further health check, because a select with several ready cases picks any of them. */
  function Rank(s: State): nat {
    MonitorRank(s.monitor) + RetrierRank(s.retrier) + StopperRank(s.stopper) + if s.tick then 3 else 0
  }

  function GoroutineSteps(acts: seq<Action>): nat {
    if acts == [] then 0
    else (if acts[0].Tick? || acts[0].Cancel? then 0 else 1) + GoroutineSteps(acts[1..])
  }

  function Ticks(acts: seq<Action>): nat {
    if acts == [] then 0 else (if acts[0].Tick? then 1 else 0) + Ticks(acts[1..])
  }

  lemma RankStep(s: State, a: Action)
    requires Inv(s) && Stopped(s) && s.waits && Enabled(s, a)
    ensures Stopped(Next(s, a))
    ensures a.Tick? ==> Rank(Next(s, a)) <= Rank(s) + 3
    ensures a.Cancel? ==> Rank(Next(s, a)) == Rank(s)
    ensures !a.Tick? && !a.Cancel? ==> Rank(Next(s, a)) < Rank(s)
  {
    match a {
      case Mon(m) => MonitorRankStep(s, m);
      case Ret(r) => RetrierRankStep(s, r);
      case _ =>
    }
  }

  lemma MonitorRankStep(s: State, m: MonitorStep)
    requires Signals(s) && Stopped(s) && s.waits && MonitorEnabled(s, m)
    ensures Stopped(Next(s, Mon(m))) && Rank(Next(s, Mon(m))) < Rank(s)
  {
    assert s.ch.retryClosed ==> MonitorGone(s);
  }

  lemma RetrierRankStep(s: State, r: RetrierStep)
    requires Current(s) && Stopped(s) && RetrierEnabled(s, r)
    ensures Stopped(Next(s, Ret(r))) && Rank(Next(s, Ret(r))) < Rank(s)
  {
  }

  /** After the stop signal the goroutines take a bounded number of steps: at most 18, and three more
      for every tick that still fires. */
  lemma {:induction false} StopBounded(s: State, acts: seq<Action>)
    requires Inv(s) && Stopped(s) && s.waits && CanRun(s, acts)
    ensures GoroutineSteps(acts) + Rank(After(s, acts)) <= Rank(s) + 3 * Ticks(acts)
    ensures GoroutineSteps(acts) <= 18 + 3 * Ticks(acts)
    decreases |acts|
  {
    if acts != [] {
      RankStep(s, acts[0]);
      InvStep(s, acts[0]);
      StopBounded(Next(s, acts[0]), acts[1..]);
    }
  }

  /** Cancelling the context, possible at any time, stops both loops as the stop hook's signal does: from then
      on the bound holds and no attempt begins. */
  lemma EitherStops(s: State, signal: Action, acts: seq<Action>)
    requires Inv(s) && s.waits && signal in [Cancel, Stop(StopSignal)]
    ensures Enabled(s, signal) <==> signal == Cancel || s.stopper.SRunning?
    ensures Enabled(s, signal) ==> Stopped(Next(s, signal))
    ensures Enabled(s, signal) && CanRun(Next(s, signal), acts) ==>
      && GoroutineSteps(acts) <= 18 + 3 * Ticks(acts)
      && After(Next(s, signal), acts).conn.begun == s.conn.begun
  {
    if Enabled(s, signal) && CanRun(Next(s, signal), acts) {
      InvStep(s, signal);
      StopBounded(Next(s, signal), acts);
      StopEndsAttempts(Next(s, signal), acts);
    }
  }

  lemma Chain(s: State, a: Action, acts: seq<Action>)
    requires Enabled(s, a) && CanRun(Next(s, a), acts)
    ensures CanRun(s, [a] + acts) && After(s, [a] + acts) == After(Next(s, a), acts)
  {
    assert ([a] + acts)[1..] == acts;
  }

  // ----- No constant bounds an ending while the monitor loop runs

  /** The monitor may keep choosing its ticker over the stop signal: a run with any number of steps. */
  lemma {:induction false} TicksProlong(s: State, n: nat) returns (acts: seq<Action>)
    requires s.monitor.MIdle?
    ensures CanRun(s, acts) && GoroutineSteps(acts) >= n
    decreases n
  {
    if n == 0 {
      return [];
    }
    var s1 := Next(s, Tick);
    var s2 := Next(s1, Mon(MonTick));
    var rest := TicksProlong(Next(s2, Mon(CheckOk)), n - 1);
    Chain(s2, Mon(CheckOk), rest);
    Chain(s1, Mon(MonTick), [Mon(CheckOk)] + rest);
    Chain(s, Tick, [Mon(MonTick)] + ([Mon(CheckOk)] + rest));
    StepsOf(Mon(CheckOk), rest);
    StepsOf(Mon(MonTick), [Mon(CheckOk)] + rest);
    StepsOf(Tick, [Mon(MonTick)] + ([Mon(CheckOk)] + rest));
    acts := [Tick] + ([Mon(MonTick)] + ([Mon(CheckOk)] + rest));
  }

  lemma StepsOf(a: Action, rest: seq<Action>)
    ensures GoroutineSteps([a] + rest) == GoroutineSteps(rest) + if a.Tick? || a.Cancel? then 0 else 1
  {
    assert ([a] + rest)[1..] == rest;
  }

  /** From any point of its loop the monitor comes back to the top. */
  lemma LoopProlongs(s: State, n: nat) returns (acts: seq<Action>)
    requires MonitorRunning(s) && !s.ch.retryClosed
    ensures CanRun(s, acts) && GoroutineSteps(acts) >= n
  {
    if s.monitor.MIdle? {
      acts := TicksProlong(s, n);
    } else {
      var a := Mon(if s.monitor.MChecking? then CheckOk else Signal);
      var rest := TicksProlong(Next(s, a), n);
      Chain(s, a, rest);
      StepsOf(a, rest);
      acts := [a] + rest;
    }
  }

  /** The steps left when ticks cost nothing. */
  function EndedRank(s: State): nat { MonitorRank(s.monitor) + RetrierRank(s.retrier) + StopperRank(s.stopper) }

  lemma EndedStep(s: State, a: Action)
    requires Inv(s) && Stopped(s) && s.waits && !MonitorRunning(s) && Enabled(s, a)
    ensures Stopped(Next(s, a)) && !MonitorRunning(Next(s, a))
    ensures EndedRank(Next(s, a)) + (if a.Tick? || a.Cancel? then 0 else 1) <= EndedRank(s)
  {
    RankStep(s, a);
  }

  /** Once the monitor loop has ended, ticks cost nothing. */
  lemma {:induction false} EndedBounded(s: State, acts: seq<Action>)
    requires Inv(s) && Stopped(s) && s.waits && !MonitorRunning(s) && CanRun(s, acts)
    ensures GoroutineSteps(acts) <= EndedRank(s) <= 12
    decreases |acts|
  {
    if acts != [] {
      EndedStep(s, acts[0]);
      InvStep(s, acts[0]);
      EndedBounded(Next(s, acts[0]), acts[1..]);
    }
  }

  ghost predicate BoundedBy(s: State, n: nat) { forall acts | CanRun(s, acts) :: GoroutineSteps(acts) <= n }

  /** A constant bounds the steps of a stopped client exactly when its monitor loop has ended. */
  lemma ConstantBound(s: State)
    requires Inv(s) && Stopped(s) && s.waits
    ensures (exists n: nat :: BoundedBy(s, n)) <==> !MonitorRunning(s)
  {
    if MonitorRunning(s) {
      forall n: nat ensures !BoundedBy(s, n) {
        var acts := LoopProlongs(s, n + 1);
      }
    } else {
      forall acts | CanRun(s, acts) ensures GoroutineSteps(acts) <= 12 {
        EndedBounded(s, acts);
      }
      assert BoundedBy(s, 12);
    }
  }

  /** Nobody waits for ever: once shut down, some goroutine can move until the stop hook has returned
      and both loops have ended. */
  lemma StopProgress(s: State) returns (a: Action)
    requires Inv(s) && s.ch.shutdown && s.waits
    requires !(s.stopper.SDone? && MonitorGone(s) && RetrierGone(s))
    ensures !a.Tick? && !a.Cancel? && Enabled(s, a)
  {
    if !MonitorGone(s) {
      return Mon(match s.monitor
        case MIdle => MonStop
        case MChecking => CheckOk
        case MFailed => Signal
        case _ => MonClose);
    }
    if !RetrierGone(s) {
      return Ret(match s.retrier
        case RIdle => RetStop
        case RSelect => InnerStop
        case RTrying(_) => TryFail
        case RSleeping => Wake
        case _ => Store);
    }
    a := Stop(match s.stopper
      case SSignalled => StopWait
      case SWaited => StopCloseRetry
      case _ => StopCloseConn);
  }

  // ----- GracefulShutdown, which does not wait

  predicate Quiet(s: State) { Signals(s) && !s.ch.panicked && !MonitorRunning(s) }

  lemma {:induction false} QuietRun(s: State, acts: seq<Action>)
    requires Quiet(s) && CanRun(s, acts)
    ensures Quiet(After(s, acts))
    decreases |acts|
  {
    if acts != [] {
      QuietStep(s, acts[0]);
      QuietRun(Next(s, acts[0]), acts[1..]);
    }
  }

  lemma QuietRetrier(s: State, r: RetrierStep)
    requires Quiet(s) && RetrierEnabled(s, r)
    ensures Quiet(Next(s, Ret(r)))
  {
    RetrierChannels(s, r);
  }

  lemma QuietMonitor(s: State, m: MonitorStep)
    requires Quiet(s) && MonitorEnabled(s, m)
    ensures Quiet(Next(s, Mon(m)))
  {
  }

  lemma QuietStep(s: State, a: Action)
    requires Quiet(s) && Enabled(s, a)
    ensures Quiet(Next(s, a))
  {
    match a {
      case Mon(m) => QuietMonitor(s, m);
      case Ret(r) => QuietRetrier(s, r);
      case _ =>
    }
  }

  /** GracefulShutdown closes the signal channel without waiting for the monitor. Called in any
      reachable state, it can never lead to a send on a closed channel exactly when no monitor loop
      is running. */
  lemma GracefulIsSafe(s: State)
    requires Inv(s) && s.kind.Postgres? && !s.waits && s.stopper.SRunning?
    ensures (forall acts | CanRun(s, acts) :: !After(s, acts).ch.panicked) <==> !MonitorRunning(s)
  {
    if MonitorRunning(s) {
      var acts := SendOnClosed(s);
      assert CanRun(s, acts) && After(s, acts).ch.panicked;
    } else {
      forall acts | CanRun(s, acts) ensures !After(s, acts).ch.panicked {
        QuietRun(s, acts);
      }
    }
  }

  /** The next step towards a send on the closed channel. */
  function TowardsSend(s: State): Action {
    match s.stopper
    case SRunning => Stop(StopSignal)
    case SSignalled => Stop(StopWait)
    case SWaited => Stop(StopCloseRetry)
    case _ =>
      match s.monitor
      case MIdle => if s.tick then Mon(MonTick) else Tick
      case MChecking => Mon(CheckFail)
      case _ => Mon(Signal)
  }

  function MonitorAway(m: Monitor): nat { if m.MIdle? then 2 else if m.MChecking? then 1 else 0 }

  predicate SendComes(s: State) {
    && s.kind.Postgres? && !s.waits && MonitorRunning(s) && s.ch.retryOnce == s.ch.retryClosed
    && (s.stopper.SRetryClosed? || s.stopper.SDone? ==> s.ch.retryClosed)
  }

  lemma StopperCloses(s: State)
    requires SendComes(s) && !s.stopper.SRetryClosed? && !s.stopper.SDone?
    ensures TowardsSend(s).Stop? && Enabled(s, TowardsSend(s)) && SendComes(Next(s, TowardsSend(s)))
    ensures StopperRank(Next(s, TowardsSend(s)).stopper) < StopperRank(s.stopper)
  {
  }

  lemma MonitorFails(s: State)
    requires SendComes(s) && (s.stopper.SRetryClosed? || s.stopper.SDone?)
    ensures Enabled(s, TowardsSend(s))
    ensures
      var t := Next(s, TowardsSend(s));
      if TowardsSend(s) == Mon(Signal) then t.ch.panicked
      else SendComes(t) && t.stopper == s.stopper &&
           (MonitorAway(t.monitor) < MonitorAway(s.monitor) || (t.monitor == s.monitor && t.tick && !s.tick))
  {
  }

  /** The run that shows it: the monitor is at or reaches its send after the channel was closed. */
  lemma SendOnClosed(s: State) returns (acts: seq<Action>)
    requires SendComes(s)
    ensures CanRun(s, acts) && After(s, acts).ch.panicked
    decreases StopperRank(s.stopper), MonitorAway(s.monitor), !s.tick
  {
    var a := TowardsSend(s);
    if s.stopper.SRetryClosed? || s.stopper.SDone? {
      MonitorFails(s);
    } else {
      StopperCloses(s);
    }
    if a == Mon(Signal) {
      acts := [];
    } else {
      acts := SendOnClosed(Next(s, a));
    }
    Chain(s, a, acts);
    acts := [a] + acts;
  }

  // ----- Which connection GracefulShutdown closes

  /** Attempts are numbered upwards, so the one under way has a new number. */
  predicate Numbered(s: State) { s.conn.client <= s.conn.begun && (MayInstall(s) ==> s.conn.client < s.conn.begun) }

  lemma NumberedStep(s: State, a: Action)
    requires Numbered(s) && Enabled(s, a)
    ensures Numbered(Next(s, a))
  {
  }

  lemma {:induction false} NumberedRun(s: State, acts: seq<Action>)
    requires Numbered(s) && CanRun(s, acts)
    ensures Numbered(After(s, acts))
    decreases |acts|
  {
    if acts != [] {
      NumberedStep(s, acts[0]);
      NumberedRun(Next(s, acts[0]), acts[1..]);
    }
  }

  /** Nothing is closed yet, or what was closed is the connection in use. */
  predicate ClosesLast(s: State) { s.conn.closed == [] || s.conn.closed == [s.conn.client] }

  predicate Settled(s: State) {
    && Stopped(s) && !Attempting(s) && ClosesLast(s)
    && (s.conn.closed != [] ==> s.stopper.SDone?)
  }

  lemma SettledRetrier(s: State, r: RetrierStep)
    requires Settled(s) && RetrierEnabled(s, r)
    ensures Settled(Next(s, Ret(r)))
  {
  }

  lemma SettledMonitor(s: State, m: MonitorStep)
    requires Settled(s) && MonitorEnabled(s, m)
    ensures Settled(Next(s, Mon(m)))
  {
    var t := Next(s, Mon(m));
    assert t.conn == s.conn && t.retrier == s.retrier && t.stopper == s.stopper;
  }

  lemma SettledStep(s: State, a: Action)
    requires Settled(s) && Enabled(s, a)
    ensures Settled(Next(s, a))
  {
    match a {
      case Mon(m) => SettledMonitor(s, m);
      case Ret(r) => SettledRetrier(s, r);
      case _ =>
    }
  }

  lemma {:induction false} SettledRun(s: State, acts: seq<Action>)
    requires Settled(s) && CanRun(s, acts)
    ensures Settled(After(s, acts))
    decreases |acts|
  {
    if acts != [] {
      SettledStep(s, acts[0]);
      SettledRun(Next(s, acts[0]), acts[1..]);
    }
  }

  /** From the moment GracefulShutdown signals, whatever it closes is and stays the connection in use, in
      every continuation, exactly when no reconnect attempt is under way at that moment. Otherwise the
      attempt may still install a connection that nobody closes. */
  lemma GracefulClosesLast(s: State)
    requires Inv(s) && Numbered(s) && s.kind.Postgres? && !s.waits && s.stopper.SRunning?
    ensures
      var t := Next(s, Stop(StopSignal));
      (forall acts | CanRun(t, acts) :: ClosesLast(After(t, acts))) <==> !Attempting(s)
  {
    var t := Next(s, Stop(StopSignal));
    if Attempting(s) {
      var acts := LateInstall(t);
      assert CanRun(t, acts) && !ClosesLast(After(t, acts));
    } else {
      forall acts | CanRun(t, acts) ensures ClosesLast(After(t, acts)) {
        SettledRun(t, acts);
      }
    }
  }

  /** Close first, then let the attempt succeed. */
  lemma LateInstall(s: State) returns (acts: seq<Action>)
    requires s.kind.Postgres? && !s.waits && s.stopper.SSignalled? && s.conn.closed == []
    requires Numbered(s) && (s.retrier.RTrying? || (s.retrier.RStoring? && s.retrier.pointer == 0))
    ensures CanRun(s, acts) && !ClosesLast(After(s, acts))
  {
    var s1 := Next(s, Stop(StopWait));
    var s2 := Next(s1, Stop(StopCloseRetry));
    var s3 := Next(s2, Stop(StopCloseConn));
    assert s3.conn.closed == [s.conn.client] && s3.conn.begun == s.conn.begun > s.conn.client;
    assert s3.retrier == s.retrier && s3.kind == s.kind;
    var install := InstallNow(s3);
    Chain(s2, Stop(StopCloseConn), install);
    Chain(s1, Stop(StopCloseRetry), [Stop(StopCloseConn)] + install);
    Chain(s, Stop(StopWait), [Stop(StopCloseRetry)] + ([Stop(StopCloseConn)] + install));
    acts := [Stop(StopWait)] + ([Stop(StopCloseRetry)] + ([Stop(StopCloseConn)] + install));
  }

  lemma InstallNow(s: State) returns (acts: seq<Action>)
    requires s.kind.Postgres? && (s.retrier.RTrying? || (s.retrier.RStoring? && s.retrier.pointer == 0))
    ensures CanRun(s, acts)
    ensures After(s, acts).conn.client == s.conn.begun && After(s, acts).conn.closed == s.conn.closed
  {
    if s.retrier.RStoring? {
      Chain(s, Ret(Store), []);
      return [Ret(Store)] + [];
    }
    var t := Next(s, Ret(TryOk));
    Chain(t, Ret(Store), []);
    Chain(s, Ret(TryOk), [Ret(Store)] + []);
    acts := [Ret(TryOk)] + ([Ret(Store)] + []);
  }
}
