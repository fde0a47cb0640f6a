/** Several shutdown paths at once: the fx stop hook and any number of calls of GracefulShutdown, sharing the
    Once guards of the two channels. */
module StopPaths {
  import opened Reconnect

  /** The client with its stop hook, and the calls of GracefulShutdown beside it. */
  datatype World = World(s: State, calls: seq<Stopper>)

  datatype Move = Base(a: Action) | Call(i: nat, p: StopperStep)

  function InitWorld(kind: Kind, started: bool, n: nat): World {
    World(Init(kind, true, started), seq(n, _ => SRunning))
  }

  /** The client as call i sees it. GracefulShutdown does not wait. */
  function Seen(w: World, i: nat): State
    requires i < |w.calls|
  {
    w.s.(stopper := w.calls[i], waits := false)
  }

  predicate CanMove(w: World, m: Move) {
    match m
    case Base(a) => Enabled(w.s, a)
    case Call(i, p) => i < |w.calls| && StopperEnabled(Seen(w, i), p)
  }

  function Moved(w: World, m: Move): World
    requires CanMove(w, m)
  {
    match m
    case Base(a) => w.(s := Next(w.s, a))
    case Call(i, p) =>
      var t := Next(Seen(w, i), Stop(p));
      World(t.(stopper := w.s.stopper, waits := w.s.waits), w.calls[i := t.stopper])
  }

  predicate CanMoveOn(w: World, ms: seq<Move>)
    decreases |ms|
  {
    ms == [] || (CanMove(w, ms[0]) && CanMoveOn(Moved(w, ms[0]), ms[1..]))
  }

  function MovedOn(w: World, ms: seq<Move>): World
    requires CanMoveOn(w, ms)
    decreases |ms|
  {
    if ms == [] then w else MovedOn(Moved(w, ms[0]), ms[1..])
  }

  // ----- What every interleaving keeps

  /** A path has signalled, and closes the signal channel only in the postgres variant. */
  predicate PathKept(s: State, p: Stopper) {
    && (!p.SRunning? ==> s.ch.shutdown)
    && (p.SWaited? || p.SRetryClosed? ==> s.kind.Postgres?)
    && (s.kind.Postgres? && (p.SRetryClosed? || p.SDone?) ==> s.ch.retryClosed)
  }

  predicate Guarded(s: State) {
    && s.ch.shutdown == s.ch.shutdownOnce && s.ch.retryClosed == s.ch.retryOnce
    && (s.ch.retryClosed ==> s.kind.Postgres? && Stopped(s))
    && (s.monitor.MClosing? ==> s.kind.Postgres? && Stopped(s))
  }

  /** The hook goes on only after both loops have ended, and closes the connection in use. */
  predicate HookKept(s: State) {
    s.waits
    && (s.stopper.SWaited? || s.stopper.SRetryClosed? || s.stopper.SDone? ==> MonitorGone(s) && RetrierGone(s))
    && (s.kind.Postgres? && s.stopper.SDone? ==> s.conn.client in s.conn.closed)
  }

  predicate Kept(w: World) {
    && Guarded(w.s) && HookKept(w.s) && PathKept(w.s, w.s.stopper)
    && (forall i :: 0 <= i < |w.calls| ==> PathKept(w.s, w.calls[i]))
    && (w.calls == [] && w.s.ch.retryClosed ==> MonitorGone(w.s))
  }

  /** The channels only close. */
  predicate Later(s: State, t: State) {
    t.kind == s.kind && (s.ch.shutdown ==> t.ch.shutdown) && (s.ch.retryClosed ==> t.ch.retryClosed)
  }

  lemma MonitorGuarded(s: State, m: MonitorStep)
    requires Guarded(s) && PathKept(s, s.stopper) && MonitorEnabled(s, m)
    ensures Guarded(MonitorMove(s, m)) && PathKept(MonitorMove(s, m), s.stopper) && Later(s, MonitorMove(s, m))
    ensures MonitorMove(s, m).stopper == s.stopper
  {
  }

  lemma RetrierGuarded(s: State, r: RetrierStep)
    requires Guarded(s) && PathKept(s, s.stopper) && RetrierEnabled(s, r)
    ensures Guarded(RetrierMove(s, r)) && PathKept(RetrierMove(s, r), s.stopper) && Later(s, RetrierMove(s, r))
    ensures RetrierMove(s, r).stopper == s.stopper
  {
    var t := RetrierMove(s, r);
    assert t.kind == s.kind && t.monitor == s.monitor && t.stopper == s.stopper;
    assert t.ch == s.ch.(pending := t.ch.pending);
  }

  lemma StopperGuarded(s: State, p: StopperStep)
    requires Guarded(s) && PathKept(s, s.stopper) && StopperEnabled(s, p)
    ensures Guarded(StopperMove(s, p)) && PathKept(StopperMove(s, p), StopperMove(s, p).stopper)
    ensures Later(s, StopperMove(s, p))
  {
  }

  lemma BaseGuarded(s: State, a: Action)
    requires Guarded(s) && PathKept(s, s.stopper) && Enabled(s, a)
    ensures Guarded(Next(s, a)) && PathKept(Next(s, a), Next(s, a).stopper) && Later(s, Next(s, a))
  {
    match a {
      case Mon(m) => MonitorGuarded(s, m);
      case Ret(r) => RetrierGuarded(s, r);
      case Stop(p) => StopperGuarded(s, p);
      case _ =>
    }
  }

  lemma BaseHook(s: State, a: Action)
    requires HookKept(s) && Enabled(s, a)
    ensures HookKept(Next(s, a))
  {
  }

  lemma BaseKeeps(w: World, a: Action)
    requires Kept(w) && Enabled(w.s, a)
    ensures Kept(Moved(w, Base(a)))
  {
    BaseGuarded(w.s, a);
    BaseHook(w.s, a);
  }

  lemma CallKeeps(w: World, i: nat, p: StopperStep)
    requires Kept(w) && CanMove(w, Call(i, p))
    ensures Kept(Moved(w, Call(i, p)))
  {
    BaseGuarded(Seen(w, i), Stop(p));
  }

  lemma {:induction false} KeptRun(w: World, ms: seq<Move>)
    requires Kept(w) && CanMoveOn(w, ms)
    ensures Kept(MovedOn(w, ms)) && MovedOn(w, ms).s.kind == w.s.kind && |MovedOn(w, ms).calls| == |w.calls|
    decreases |ms|
  {
    if ms != [] {
      match ms[0] {
        case Base(a) => BaseKeeps(w, a);
        case Call(i, p) => CallKeeps(w, i, p);
      }
      KeptRun(Moved(w, ms[0]), ms[1..]);
    }
  }

  lemma InitKept(kind: Kind, started: bool, n: nat)
    ensures Kept(InitWorld(kind, started, n))
  {
  }

  // ----- What stays safe

  /** Whatever the paths do, no channel is closed twice: the only step that can panic is the monitor sending on
      a signal channel that some path has closed. */
  lemma OnlySendsPanic(w: World, m: Move)
    requires Kept(w) && CanMove(w, m) && !w.s.ch.panicked && Moved(w, m).s.ch.panicked
    ensures m == Base(Mon(Signal)) && w.s.ch.retryClosed
  {
    match m {
      case Base(a) => BasePanics(w.s, a);
      case Call(i, p) => BasePanics(Seen(w, i), Stop(p));
    }
  }

  lemma BasePanics(s: State, a: Action)
    requires Guarded(s) && Enabled(s, a) && !s.ch.panicked && Next(s, a).ch.panicked
    ensures a == Mon(Signal) && s.ch.retryClosed
  {
    match a {
      case Mon(m) => MonitorPanics(s, m);
      case _ =>
    }
  }

  lemma MonitorPanics(s: State, m: MonitorStep)
    requires Guarded(s) && MonitorEnabled(s, m) && !s.ch.panicked && MonitorMove(s, m).ch.panicked
    ensures m.Signal? && s.ch.retryClosed
  {
  }

  /** And once the hook has finished, both loops have ended and the connection in use has been closed, even if
      calls of GracefulShutdown closed others before. */
  lemma HookCovers(kind: Kind, started: bool, n: nat, ms: seq<Move>)
    requires CanMoveOn(InitWorld(kind, started, n), ms)
    ensures
      var s := MovedOn(InitWorld(kind, started, n), ms).s;
      s.stopper.SDone? ==> MonitorGone(s) && RetrierGone(s) && (kind.Postgres? ==> s.conn.client in s.conn.closed)
  {
    InitKept(kind, started, n);
    KeptRun(InitWorld(kind, started, n), ms);
  }

  /** Nothing can close the channel under a running monitor. */
  predicate Harmless(w: World) {
    Kept(w) && !w.s.ch.panicked && (w.s.kind.Postgres? && MonitorRunning(w.s) ==> w.calls == [])
  }

  lemma {:induction false} HarmlessRun(w: World, ms: seq<Move>)
    requires Harmless(w) && CanMoveOn(w, ms)
    ensures !MovedOn(w, ms).s.ch.panicked
    decreases |ms|
  {
    if ms != [] {
      HarmlessStep(w, ms[0]);
      HarmlessRun(Moved(w, ms[0]), ms[1..]);
    }
  }

  lemma HarmlessStep(w: World, m: Move)
    requires Harmless(w) && CanMove(w, m)
    ensures Harmless(Moved(w, m))
  {
    match m {
      case Base(a) => BaseKeeps(w, a);
      case Call(i, p) => CallKeeps(w, i, p);
    }
    if Moved(w, m).s.ch.panicked {
      OnlySendsPanic(w, m);
    }
  }

  /** A step of the client and call 0 alone, as a step among all paths. */
  function Lifted(a: Action): Move { match a case Stop(p) => Call(0, p) case _ => Base(a) }

  lemma LiftMonitor(w: World, m: MonitorStep)
    requires w.calls != [] && Enabled(Seen(w, 0), Mon(m))
    ensures Enabled(w.s, Mon(m))
    ensures Seen(Moved(w, Base(Mon(m))), 0) == Next(Seen(w, 0), Mon(m))
  {
  }

  lemma LiftRetrier(w: World, r: RetrierStep)
    requires w.calls != [] && Enabled(Seen(w, 0), Ret(r))
    ensures Enabled(w.s, Ret(r))
    ensures Seen(Moved(w, Base(Ret(r))), 0) == Next(Seen(w, 0), Ret(r))
  {
  }

  lemma LiftCall(w: World, p: StopperStep)
    requires w.calls != [] && Enabled(Seen(w, 0), Stop(p))
    ensures Seen(Moved(w, Call(0, p)), 0) == Next(Seen(w, 0), Stop(p))
  {
    assert Next(Seen(w, 0), Stop(p)).waits == false;
  }

  lemma LiftStep(w: World, a: Action)
    requires w.calls != [] && Enabled(Seen(w, 0), a)
    ensures CanMove(w, Lifted(a)) && |Moved(w, Lifted(a)).calls| == |w.calls|
    ensures Seen(Moved(w, Lifted(a)), 0) == Next(Seen(w, 0), a)
  {
    match a {
      case Mon(m) => LiftMonitor(w, m);
      case Ret(r) => LiftRetrier(w, r);
      case Stop(p) => LiftCall(w, p);
      case _ =>
    }
  }

  lemma {:induction false} Lift(w: World, acts: seq<Action>) returns (ms: seq<Move>)
    requires w.calls != [] && CanRun(Seen(w, 0), acts)
    ensures CanMoveOn(w, ms) && MovedOn(w, ms).s.ch == After(Seen(w, 0), acts).ch
    decreases |acts|
  {
    if acts == [] {
      return [];
    }
    LiftStep(w, acts[0]);
    var rest := Lift(Moved(w, Lifted(acts[0])), acts[1..]);
    ms := [Lifted(acts[0])] + rest;
    assert ms[1..] == rest;
  }

  /** With a waiting hook and any calls of GracefulShutdown, no interleaving panics exactly when there is no
      such call, or the monitor loop has ended, or the client is the minio one. */
  lemma PathsAreSafe(w: World)
    requires Kept(w) && !w.s.ch.panicked
    ensures (forall ms | CanMoveOn(w, ms) :: !MovedOn(w, ms).s.ch.panicked)
       <==> w.calls == [] || !MonitorRunning(w.s) || w.s.kind.Minio?
  {
    if w.calls == [] || !MonitorRunning(w.s) || w.s.kind.Minio? {
      forall ms | CanMoveOn(w, ms) ensures !MovedOn(w, ms).s.ch.panicked {
        HarmlessRun(w, ms);
      }
    } else {
      var acts := SendOnClosed(Seen(w, 0));
      var ms := Lift(w, acts);
      assert CanMoveOn(w, ms) && MovedOn(w, ms).s.ch.panicked;
    }
  }
}
