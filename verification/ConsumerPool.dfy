/** ConsumeParallel: N workers fetching into one bounded channel, two stop signals, two WaitGroups.
    Each action is one step of one goroutine (or of its environment) that no other goroutine can
    interrupt; a run is any list of enabled actions. `fetched`, `received` and `dropped` are history. */
module ConsumerPool {
  /** A fetched message and the worker that fetched it. */
  datatype Item<+M> = Item(worker: nat, msg: M)

  /** Where a worker is: at its first select, inside FetchMessage, at its second select, past its
      return, past its deferred Done. */
  datatype Worker<+M> = NotStarted | Top | Fetching | Holding(msg: M) | Returning | Done

  /** Where the goroutine that owns the output channel is: starting workers and waiting for them,
      about to close the channel, about to release the caller, gone. */
  datatype Owner = Spawning | Closing | Releasing | Finished

  datatype State<+M> = State(
    workers: seq<Worker<M>>, owner: Owner, spawned: nat,
    workerWg: int, callerWg: int,
    buffer: seq<Item<M>>, capacity: nat, closed: bool, closes: nat, panicked: bool,
    shutdown: bool, cancelled: bool, reader: bool,
    fetched: seq<Item<M>>, received: seq<Item<M>>, dropped: seq<Item<M>>)

  datatype Action<+M> =
    | Spawn | WaitReturns | CloseOutput | ReleaseCaller
    | Check(w: nat) | FetchOk(w: nat, msg: M) | FetchError(w: nat, context: bool)
    | Send(w: nat) | Drop(w: nat) | WorkerDone(w: nat)
    | Receive | Shutdown | Cancel

  /** The state right after ConsumeParallel returns. */
  function Init<M>(numWorkers: int, reader: bool, shutdown: bool, cancelled: bool): State<M> {
    var n := if numWorkers < 1 then 1 else numWorkers;
    State(seq(n, _ => NotStarted), Spawning, 0, 0, 1, [], 100 * n, false, 0, false,
          shutdown, cancelled, reader, [], [], [])
  }

  predicate Stopped<M>(s: State<M>) { s.shutdown || s.cancelled }

  predicate Enabled<M>(s: State<M>, a: Action<M>) {
    match a
    case Spawn => s.owner.Spawning? && s.spawned < |s.workers| && s.workers[s.spawned].NotStarted?
    case WaitReturns => s.owner.Spawning? && s.spawned == |s.workers| && s.workerWg == 0
    case CloseOutput => s.owner.Closing?
    case ReleaseCaller => s.owner.Releasing?
    case Check(w) => w < |s.workers| && s.workers[w].Top?
    case FetchOk(w, _) => w < |s.workers| && s.workers[w].Fetching?
    case FetchError(w, _) => w < |s.workers| && s.workers[w].Fetching?
    case Send(w) => w < |s.workers| && s.workers[w].Holding? && (s.closed || |s.buffer| < s.capacity)
    case Drop(w) => w < |s.workers| && s.workers[w].Holding? && Stopped(s)
    case WorkerDone(w) => w < |s.workers| && s.workers[w].Returning?
    case Receive => s.buffer != []
    case Shutdown => true
    case Cancel => true
  }

  function Next<M>(s: State<M>, a: Action<M>): State<M>
    requires Enabled(s, a)
  {
    match a
    case Spawn =>
      s.(workers := s.workers[s.spawned := Top], spawned := s.spawned + 1, workerWg := s.workerWg + 1)
    case WaitReturns => s.(owner := Closing)
    case CloseOutput =>
      s.(owner := Releasing, closed := true, closes := s.closes + 1, panicked := s.panicked || s.closed)
    case ReleaseCaller => s.(owner := Finished, callerWg := s.callerWg - 1)
    case Check(w) =>
      s.(workers := s.workers[w := if Stopped(s) || !s.reader then Returning else Fetching])
    case FetchOk(w, m) =>
      s.(workers := s.workers[w := Holding(m)], fetched := s.fetched + [Item(w, m)])
    case FetchError(w, context) => s.(workers := s.workers[w := if context then Returning else Top])
    case Send(w) =>
      if s.closed then s.(panicked := true)
      else s.(workers := s.workers[w := Top], buffer := s.buffer + [Item(w, s.workers[w].msg)])
    case Drop(w) =>
      s.(workers := s.workers[w := Returning], dropped := s.dropped + [Item(w, s.workers[w].msg)])
    case WorkerDone(w) => s.(workers := s.workers[w := Done], workerWg := s.workerWg - 1)
    case Receive => s.(buffer := s.buffer[1..], received := s.received + [s.buffer[0]])
    case Shutdown => s.(shutdown := true)
    case Cancel => s.(cancelled := true)
  }

  predicate CanRun<M>(s: State<M>, acts: seq<Action<M>>)
    decreases |acts|
  {
    acts == [] || (Enabled(s, acts[0]) && CanRun(Next(s, acts[0]), acts[1..]))
  }

  function After<M>(s: State<M>, acts: seq<Action<M>>): State<M>
    requires CanRun(s, acts)
    decreases |acts|
  {
    if acts == [] then s else After(Next(s, acts[0]), acts[1..])
  }

  // ----- Bookkeeping

  /** What worker w contributed to a log, in log order. */
  function Of<M>(log: seq<Item<M>>, w: nat): seq<M> {
    if log == [] then []
    else Of(log[..|log| - 1], w) + if log[|log| - 1].worker == w then [log[|log| - 1].msg] else []
  }

  function HeldBy<M>(x: Worker<M>): seq<M> {
    if x.Holding? then [x.msg] else []
  }

  ghost function HeldItem<M>(w: nat, x: Worker<M>): multiset<Item<M>> {
    if x.Holding? then multiset{Item(w, x.msg)} else multiset{}
  }

  /** The messages workers hold between a fetch and a send. */
  ghost function Held<M>(ws: seq<Worker<M>>): multiset<Item<M>> {
    if ws == [] then multiset{} else Held(ws[..|ws| - 1]) + HeldItem(|ws| - 1, ws[|ws| - 1])
  }

  predicate Alive<M>(x: Worker<M>) { !x.NotStarted? && !x.Done? }

  function AliveCount<M>(ws: seq<Worker<M>>): nat {
    if ws == [] then 0
    else AliveCount(ws[..|ws| - 1]) + if Alive(ws[|ws| - 1]) then 1 else 0
  }

  lemma {:induction false} HeldUpdate<M>(ws: seq<Worker<M>>, w: nat, x: Worker<M>, it: Item<M>)
    requires w < |ws|
    ensures Held(ws[w := x])[it] + HeldItem(w, ws[w])[it] == Held(ws)[it] + HeldItem(w, x)[it]
  {
    var k := |ws| - 1;
    var ws' := ws[w := x];
    if w == k {
      assert ws'[..k] == ws[..k];
    } else {
      HeldUpdate(ws[..k], w, x, it);
      assert ws'[..k] == ws[..k][w := x] && ws'[k] == ws[k];
      assert Held(ws')[it] == Held(ws'[..k])[it] + HeldItem(k, ws[k])[it];
    }
  }

  lemma {:induction false} AliveUpdate<M>(ws: seq<Worker<M>>, w: nat, x: Worker<M>)
    requires w < |ws|
    ensures AliveCount(ws[w := x]) + (if Alive(ws[w]) then 1 else 0)
         == AliveCount(ws) + (if Alive(x) then 1 else 0)
  {
    var k := |ws| - 1;
    if w == k {
      assert ws[w := x][..k] == ws[..k];
    } else {
      AliveUpdate(ws[..k], w, x);
      assert ws[w := x][..k] == ws[..k][w := x];
    }
  }

  lemma {:induction false} NoneAlive<M>(ws: seq<Worker<M>>)
    ensures AliveCount(ws) == 0 <==> forall w :: 0 <= w < |ws| ==> !Alive(ws[w])
  {
    if ws != [] {
      NoneAlive(ws[..|ws| - 1]);
    }
  }

  lemma OfAppend<M>(log: seq<Item<M>>, it: Item<M>, w: nat)
    ensures Of(log + [it], w) == Of(log, w) + if it.worker == w then [it.msg] else []
  {
    assert (log + [it])[..|log|] == log;
  }

  lemma {:induction false} OfTail<M>(log: seq<Item<M>>, w: nat)
    requires log != []
    ensures Of(log, w) == (if log[0].worker == w then [log[0].msg] else []) + Of(log[1..], w)
  {
    if |log| == 1 {
      assert log[..0] == [] && log[1..] == [];
    } else {
      var front := log[..|log| - 1];
      OfTail(front, w);
      assert log[1..][..|log| - 2] == front[1..];
    }
  }

  // ----- The invariant

  ghost predicate AllDone<M>(ws: seq<Worker<M>>) {
    forall w :: 0 <= w < |ws| ==> ws[w].Done?
  }

  /** Channels and WaitGroups. */
  ghost predicate Lifecycle<M>(s: State<M>) {
    && |s.workers| >= 1 && s.capacity == 100 * |s.workers| && |s.buffer| <= s.capacity
    && s.spawned <= |s.workers|
    && (forall w :: 0 <= w < |s.workers| ==> (s.workers[w].NotStarted? <==> s.spawned <= w))
    && s.workerWg == AliveCount(s.workers)
    && (!s.owner.Spawning? ==> s.spawned == |s.workers| && AllDone(s.workers))
    && (s.closed <==> s.owner.Releasing? || s.owner.Finished?)
    && s.closes == (if s.closed then 1 else 0)
    && s.callerWg == (if s.owner.Finished? then 0 else 1)
    && !s.panicked
  }

  /** One worker's messages: fetched, and where they are now. */
  ghost predicate Lined<M>(f: seq<M>, r: seq<M>, b: seq<M>, h: seq<M>, d: seq<M>) {
    f == r + b + h + d
  }

  /** Each worker's fetches are, in order, what was received from it, what is buffered, and at most
      one more message: the one it holds, or the one it dropped on its way out. */
  ghost predicate InOrder<M>(s: State<M>, w: nat)
    requires w < |s.workers|
  {
    && Lined(Of(s.fetched, w), Of(s.received, w), Of(s.buffer, w), HeldBy(s.workers[w]), Of(s.dropped, w))
    && |Of(s.dropped, w)| <= 1
    && (Of(s.dropped, w) != [] ==> s.workers[w].Returning? || s.workers[w].Done?)
  }

  /** Every copy of a fetched message is in exactly one place. */
  ghost predicate Balanced<M>(s: State<M>, it: Item<M>) {
    multiset(s.fetched)[it]
    == multiset(s.received)[it] + multiset(s.buffer)[it] + Held(s.workers)[it] + multiset(s.dropped)[it]
  }

  ghost predicate Inv<M(!new)>(s: State<M>) {
    && Lifecycle(s)
    && (forall it: Item<M> :: Balanced(s, it))
    && (s.dropped != [] ==> Stopped(s))
    && (forall w :: 0 <= w < |s.workers| ==> InOrder(s, w))
    && (forall it <- s.fetched :: it.worker < |s.workers|)
  }

  lemma {:induction false} NothingHeld<M>(ws: seq<Worker<M>>)
    requires forall w :: 0 <= w < |ws| ==> ws[w].NotStarted?
    ensures Held(ws) == multiset{} && AliveCount(ws) == 0
  {
    if ws != [] {
      NothingHeld(ws[..|ws| - 1]);
    }
  }

  lemma InitInv<M(!new)>(numWorkers: int, reader: bool, shutdown: bool, cancelled: bool)
    ensures Inv(Init<M>(numWorkers, reader, shutdown, cancelled))
  {
    NothingHeld(Init<M>(numWorkers, reader, shutdown, cancelled).workers);
  }

  /** The worker an action moves. */
  function Mover<M>(s: State<M>, a: Action<M>): nat {
    match a
    case Spawn => s.spawned
    case Check(w) => w
    case FetchOk(w, _) => w
    case FetchError(w, _) => w
    case Send(w) => w
    case Drop(w) => w
    case WorkerDone(w) => w
    case _ => 0
  }

  lemma MoverOnly<M>(s: State<M>, a: Action<M>)
    requires Lifecycle(s) && Enabled(s, a)
    ensures Mover(s, a) < |s.workers| == |Next(s, a).workers|
    ensures Next(s, a).workers == s.workers[Mover(s, a) := Next(s, a).workers[Mover(s, a)]]
  {
  }

  /** How a step changes the number of live workers and the WaitGroup that counts them. */
  lemma AliveStep<M>(s: State<M>, a: Action<M>)
    requires Lifecycle(s) && Enabled(s, a)
    ensures Next(s, a).workerWg == AliveCount(Next(s, a).workers)
  {
    var t, w := Next(s, a), Mover(s, a);
    AliveUpdate(s.workers, w, t.workers[w]);
    assert t.workers == s.workers[w := t.workers[w]];
  }

  lemma LifecycleStep<M>(s: State<M>, a: Action<M>)
    requires Lifecycle(s) && Enabled(s, a)
    ensures Lifecycle(Next(s, a))
  {
    AliveStep(s, a);
    NoneAlive(s.workers);
  }

  lemma AppendCount<M>(log: seq<Item<M>>, x: Item<M>, it: Item<M>)
    ensures multiset(log + [x])[it] == multiset(log)[it] + if x == it then 1 else 0
  {
  }

  lemma TailCount<M>(log: seq<Item<M>>, it: Item<M>)
    requires log != []
    ensures multiset(log)[it] == multiset(log[1..])[it] + if log[0] == it then 1 else 0
  {
    assert log == [log[0]] + log[1..];
  }

  lemma HeldStep<M>(s: State<M>, a: Action<M>, it: Item<M>)
    requires Lifecycle(s) && Enabled(s, a)
    ensures Mover(s, a) < |s.workers| == |Next(s, a).workers|
    ensures
      var t, w := Next(s, a), Mover(s, a);
      Held(t.workers)[it] + HeldItem(w, s.workers[w])[it] == Held(s.workers)[it] + HeldItem(w, t.workers[w])[it]
  {
    var t, w := Next(s, a), Mover(s, a);
    assert t.workers == s.workers[w := t.workers[w]];
    HeldUpdate(s.workers, w, t.workers[w], it);
  }

  /** What the logs gain and lose between two states, the worker of the step loses and gains. */
  ghost predicate LogsBalance<M>(s: State<M>, t: State<M>, w: nat, it: Item<M>)
    requires w < |s.workers| == |t.workers|
  {
    multiset(t.fetched)[it] + multiset(s.received)[it] + multiset(s.buffer)[it] + multiset(s.dropped)[it]
        + HeldItem(w, s.workers[w])[it]
    == multiset(s.fetched)[it] + multiset(t.received)[it] + multiset(t.buffer)[it] + multiset(t.dropped)[it]
        + HeldItem(w, t.workers[w])[it]
  }

  lemma SendLog<M>(s: State<M>, a: Action<M>, it: Item<M>)
    requires Lifecycle(s) && Enabled(s, a) && a.Send?
    ensures |Next(s, a).workers| == |s.workers| && LogsBalance(s, Next(s, a), a.w, it)
  {
    AppendCount(s.buffer, Item(a.w, s.workers[a.w].msg), it);
  }

  lemma DropLog<M>(s: State<M>, a: Action<M>, it: Item<M>)
    requires Lifecycle(s) && Enabled(s, a) && a.Drop?
    ensures |Next(s, a).workers| == |s.workers| && LogsBalance(s, Next(s, a), a.w, it)
  {
    AppendCount(s.dropped, Item(a.w, s.workers[a.w].msg), it);
  }

  lemma FetchLog<M>(s: State<M>, a: Action<M>, it: Item<M>)
    requires Lifecycle(s) && Enabled(s, a) && a.FetchOk?
    ensures |Next(s, a).workers| == |s.workers| && LogsBalance(s, Next(s, a), a.w, it)
  {
    AppendCount(s.fetched, Item(a.w, a.msg), it);
  }

  lemma ReceiveLog<M>(s: State<M>, it: Item<M>)
    requires Lifecycle(s) && Enabled(s, Receive)
    ensures LogsBalance(s, Next(s, Receive), 0, it)
  {
    TailCount(s.buffer, it);
    AppendCount(s.received, s.buffer[0], it);
  }

  lemma OtherLog<M>(s: State<M>, a: Action<M>, it: Item<M>)
    requires Lifecycle(s) && Enabled(s, a) && !a.FetchOk? && !a.Send? && !a.Drop? && !a.Receive?
    ensures Mover(s, a) < |s.workers| == |Next(s, a).workers|
    ensures LogsBalance(s, Next(s, a), Mover(s, a), it)
  {
    var t, w := Next(s, a), Mover(s, a);
    assert t.fetched == s.fetched && t.received == s.received && t.buffer == s.buffer && t.dropped == s.dropped;
    assert HeldItem(w, t.workers[w]) == multiset{} == HeldItem(w, s.workers[w]) || t.workers[w] == s.workers[w];
  }

  lemma LogStep<M>(s: State<M>, a: Action<M>, it: Item<M>)
    requires Lifecycle(s) && Enabled(s, a)
    ensures Mover(s, a) < |s.workers| == |Next(s, a).workers|
    ensures LogsBalance(s, Next(s, a), Mover(s, a), it)
  {
    match a {
      case FetchOk(_, _) => FetchLog(s, a, it);
      case Send(_) => SendLog(s, a, it);
      case Drop(_) => DropLog(s, a, it);
      case Receive => ReceiveLog(s, it);
      case _ => OtherLog(s, a, it);
    }
  }

  lemma BalancedStep<M>(s: State<M>, a: Action<M>, it: Item<M>)
    requires Lifecycle(s) && Balanced(s, it) && Enabled(s, a)
    ensures Balanced(Next(s, a), it)
  {
    HeldStep(s, a, it);
    LogStep(s, a, it);
  }

  /** A step moves one message along. */
  lemma LinedMoves<M>(f: seq<M>, r: seq<M>, b: seq<M>, h: seq<M>, d: seq<M>, m: M)
    requires Lined(f, r, b, h, d)
    ensures h == d == [] ==> Lined(f + [m], r, b, [m], [])
    ensures h == [m] && d == [] ==> Lined(f, r, b + [m], [], []) && Lined(f, r, b, [], [m])
    ensures b != [] && b[0] == m ==> Lined(f, r + [m], b[1..], h, d)
  {
  }

  lemma FetchInOrder<M>(s: State<M>, a: Action<M>, w: nat)
    requires a.FetchOk? && Enabled(s, a) && w < |s.workers| && InOrder(s, w)
    ensures InOrder(Next(s, a), w)
  {
    OfAppend(s.fetched, Item(a.w, a.msg), w);
    LinedMoves(Of(s.fetched, w), Of(s.received, w), Of(s.buffer, w), HeldBy(s.workers[w]), Of(s.dropped, w), a.msg);
  }

  lemma SendInOrder<M>(s: State<M>, a: Action<M>, w: nat)
    requires a.Send? && Enabled(s, a) && w < |s.workers| && InOrder(s, w)
    ensures InOrder(Next(s, a), w)
  {
    var m, t := s.workers[a.w].msg, Next(s, a);
    if s.closed || a.w != w {
      assert t.fetched == s.fetched && t.received == s.received && t.dropped == s.dropped;
      assert t.workers[w] == s.workers[w];
      OfAppend(s.buffer, Item(a.w, m), w);
      assert Of(t.buffer, w) == Of(s.buffer, w);
      return;
    }
    OfAppend(s.buffer, Item(a.w, m), w);
    assert Of(s.dropped, w) == [] && HeldBy(s.workers[w]) == [m] && HeldBy(t.workers[w]) == [];
    assert t.fetched == s.fetched && t.received == s.received && t.dropped == s.dropped;
    LinedMoves(Of(s.fetched, w), Of(s.received, w), Of(s.buffer, w), HeldBy(s.workers[w]), Of(s.dropped, w), m);
  }

  lemma DropInOrder<M>(s: State<M>, a: Action<M>, w: nat)
    requires a.Drop? && Enabled(s, a) && w < |s.workers| && InOrder(s, w)
    ensures InOrder(Next(s, a), w)
  {
    var m, t := s.workers[a.w].msg, Next(s, a);
    OfAppend(s.dropped, Item(a.w, m), w);
    assert t.fetched == s.fetched && t.received == s.received && t.buffer == s.buffer;
    if a.w != w {
      assert t.workers[w] == s.workers[w] && Of(t.dropped, w) == Of(s.dropped, w);
      return;
    }
    assert Of(s.dropped, w) == [] && Of(t.dropped, w) == [m] && HeldBy(t.workers[w]) == [];
    LinedMoves(Of(s.fetched, w), Of(s.received, w), Of(s.buffer, w), HeldBy(s.workers[w]), Of(s.dropped, w), m);
  }

  lemma ReceiveInOrder<M>(s: State<M>, a: Action<M>, w: nat)
    requires a.Receive? && Enabled(s, a) && w < |s.workers| && InOrder(s, w)
    ensures InOrder(Next(s, a), w)
  {
    var it, t := s.buffer[0], Next(s, a);
    OfTail(s.buffer, w);
    if it.worker != w {
      OfAppend(s.received, it, w);
      assert Of(t.buffer, w) == Of(s.buffer, w) && Of(t.received, w) == Of(s.received, w);
      return;
    }
    OfAppend(s.received, it, w);
    assert Of(s.buffer, w) == [it.msg] + Of(t.buffer, w) && Of(s.buffer, w)[1..] == Of(t.buffer, w);
    assert Of(t.received, w) == Of(s.received, w) + [it.msg];
    assert t.fetched == s.fetched && t.dropped == s.dropped && t.workers == s.workers;
    LinedMoves(Of(s.fetched, w), Of(s.received, w), Of(s.buffer, w), HeldBy(s.workers[w]), Of(s.dropped, w), it.msg);
  }

  /** The other steps move no message. */
  lemma OtherInOrder<M>(s: State<M>, a: Action<M>, w: nat)
    requires !a.FetchOk? && !a.Send? && !a.Drop? && !a.Receive?
    requires Enabled(s, a) && w < |s.workers| && s.spawned <= |s.workers| && InOrder(s, w)
    ensures |Next(s, a).workers| == |s.workers| && InOrder(Next(s, a), w)
  {
    var t := Next(s, a);
    assert t.fetched == s.fetched && t.received == s.received && t.buffer == s.buffer && t.dropped == s.dropped;
    assert HeldBy(t.workers[w]) == HeldBy(s.workers[w]);
  }

  lemma InOrderStep<M>(s: State<M>, a: Action<M>, w: nat)
    requires Enabled(s, a) && w < |s.workers| && s.spawned <= |s.workers| && InOrder(s, w)
    ensures |Next(s, a).workers| == |s.workers| && InOrder(Next(s, a), w)
  {
    match a {
      case FetchOk(_, _) => FetchInOrder(s, a, w);
      case Send(_) => SendInOrder(s, a, w);
      case Drop(_) => DropInOrder(s, a, w);
      case Receive => ReceiveInOrder(s, a, w);
      case _ => OtherInOrder(s, a, w);
    }
  }

  lemma InvStep<M(!new)>(s: State<M>, a: Action<M>)
    requires Inv(s) && Enabled(s, a)
    ensures Inv(Next(s, a)) && |Next(s, a).workers| == |s.workers|
  {
    MoverOnly(s, a);
    LifecycleStep(s, a);
    forall it: Item<M> ensures Balanced(Next(s, a), it) {
      BalancedStep(s, a, it);
    }
    forall w | 0 <= w < |s.workers| ensures InOrder(Next(s, a), w) {
      InOrderStep(s, a, w);
    }
  }

  lemma {:induction false} InvRun<M(!new)>(s: State<M>, acts: seq<Action<M>>)
    requires Inv(s) && CanRun(s, acts)
    ensures Inv(After(s, acts))
    ensures |After(s, acts).workers| == |s.workers|
    decreases |acts|
  {
    if acts != [] {
      InvStep(s, acts[0]);
      InvRun(Next(s, acts[0]), acts[1..]);
    }
  }

  // ----- What holds in every run

  /** Conservation. In every reachable state the fetched messages are the disjoint union of those
      received, buffered, held and dropped; nothing is dropped before a stop signal and at most one
      message per worker ever is; per worker, what was received, then what is buffered, continue the
      order of its fetches. */
  lemma Conservation<M(!new)>(numWorkers: int, reader: bool, acts: seq<Action<M>>, w: nat)
    requires CanRun(Init(numWorkers, reader, false, false), acts)
    requires w < |After(Init(numWorkers, reader, false, false), acts).workers|
    ensures
      var s := After(Init(numWorkers, reader, false, false), acts);
      && multiset(s.fetched) == multiset(s.received) + multiset(s.buffer) + Held(s.workers) + multiset(s.dropped)
      && (s.dropped != [] ==> Stopped(s))
      && |Of(s.dropped, w)| <= 1
      && Of(s.received, w) + Of(s.buffer, w) <= Of(s.fetched, w)
      && |Of(s.fetched, w)| <= |Of(s.received, w)| + |Of(s.buffer, w)| + 1
  {
    var s0: State<M> := Init(numWorkers, reader, false, false);
    InitInv<M>(numWorkers, reader, false, false);
    InvRun(s0, acts);
    var s := After(s0, acts);
    InPlaces(s);
    assert InOrder(s, w);
    LinedPrefix(Of(s.fetched, w), Of(s.received, w), Of(s.buffer, w), HeldBy(s.workers[w]), Of(s.dropped, w));
  }

  lemma InPlaces<M(!new)>(s: State<M>)
    requires forall it: Item<M> :: Balanced(s, it)
    ensures multiset(s.fetched) == multiset(s.received) + multiset(s.buffer) + Held(s.workers) + multiset(s.dropped)
  {
    var f, r, b, h, d := multiset(s.fetched), multiset(s.received), multiset(s.buffer), Held(s.workers),
        multiset(s.dropped);
    forall it: Item<M> ensures f[it] == r[it] + b[it] + h[it] + d[it] {
      assert Balanced(s, it);
    }
    FourPlaces(f, r, b, h, d);
  }

  lemma FourPlaces<T(!new)>(f: multiset<T>, r: multiset<T>, b: multiset<T>, h: multiset<T>, d: multiset<T>)
    requires forall x: T :: f[x] == r[x] + b[x] + h[x] + d[x]
    ensures f == r + b + h + d
  {
  }

  /** The output channel is closed at most once and only after every worker has returned; no worker
      sends on it afterwards (a send or a second close would set `panicked`); and the caller's
      WaitGroup is released only after the close. */
  lemma ClosedOnce<M(!new)>(numWorkers: int, reader: bool, shutdown: bool, cancelled: bool, acts: seq<Action<M>>)
    requires CanRun(Init(numWorkers, reader, shutdown, cancelled), acts)
    ensures
      var s := After(Init(numWorkers, reader, shutdown, cancelled), acts);
      && !s.panicked
      && s.closes == (if s.closed then 1 else 0)
      && (s.closed ==> AllDone(s.workers))
      && (s.callerWg == 0 <==> s.owner.Finished?) && (s.callerWg == 0 ==> s.closed)
  {
    InitInv<M>(numWorkers, reader, shutdown, cancelled);
    InvRun(Init(numWorkers, reader, shutdown, cancelled), acts);
  }

  lemma {:induction false} AllOfOne<M>(log: seq<Item<M>>)
    requires forall i :: 0 <= i < |log| ==> log[i].worker == 0
    ensures |Of(log, 0)| == |log| && forall i :: 0 <= i < |log| ==> Of(log, 0)[i] == log[i].msg
  {
    if log != [] {
      AllOfOne(log[..|log| - 1]);
    }
  }

  /** Every logged message was fetched, by a worker of the pool. */
  lemma LogsAreFetched<M(!new)>(s: State<M>)
    requires Inv(s)
    ensures forall it :: it in s.received || it in s.buffer ==> it in s.fetched
  {
    forall it | it in s.received || it in s.buffer ensures it in s.fetched {
      assert Balanced(s, it);
      assert it in multiset(s.received) || it in multiset(s.buffer);
      assert it in multiset(s.fetched);
    }
  }

  /** Consume is ConsumeParallel with one worker, and then the caller receives a prefix of what was
      fetched, in fetch order. */
  lemma SingleWorkerPrefix<M(!new)>(reader: bool, shutdown: bool, cancelled: bool, acts: seq<Action<M>>)
    requires CanRun(Init(1, reader, shutdown, cancelled), acts)
    ensures After(Init(1, reader, shutdown, cancelled), acts).received
         <= After(Init(1, reader, shutdown, cancelled), acts).fetched
  {
    InitInv<M>(1, reader, shutdown, cancelled);
    InvRun(Init(1, reader, shutdown, cancelled), acts);
    var s := After(Init(1, reader, shutdown, cancelled), acts);
    LogsAreFetched(s);
    assert InOrder(s, 0);
    LinedPrefix(Of(s.fetched, 0), Of(s.received, 0), Of(s.buffer, 0), HeldBy(s.workers[0]), Of(s.dropped, 0));
    forall i | 0 <= i < |s.received| ensures s.received[i].worker == 0 {
      assert s.received[i] in s.received;
    }
    ItemsPrefix(s.fetched, s.received);
  }

  lemma LinedPrefix<M>(f: seq<M>, r: seq<M>, b: seq<M>, h: seq<M>, d: seq<M>)
    requires Lined(f, r, b, h, d)
    ensures r <= f && r + b <= f && |f| == |r| + |b| + |h| + |d|
  {
    assert f == r + b + (h + d);
    assert f == r + (b + h + d);
  }

  lemma ItemsPrefix<M>(f: seq<Item<M>>, r: seq<Item<M>>)
    requires forall i :: 0 <= i < |f| ==> f[i].worker == 0
    requires forall i :: 0 <= i < |r| ==> r[i].worker == 0
    requires Of(r, 0) <= Of(f, 0)
    ensures r <= f
  {
    AllOfOne(f);
    AllOfOne(r);
    forall i | 0 <= i < |r| ensures i < |f| && r[i] == f[i] {
      assert Of(r, 0)[i] == Of(f, 0)[i];
    }
  }

  // ----- Shutting down

  /** Steps a worker has left once a stop signal is set. */
  function WorkerRank<M>(x: Worker<M>): nat {
    match x
    case NotStarted => 4
    case Fetching => 4
    case Holding(_) => 3
    case Top => 2
    case Returning => 1
    case Done => 0
  }

  function TotalRank<M>(ws: seq<Worker<M>>): nat {
    if ws == [] then 0 else TotalRank(ws[..|ws| - 1]) + WorkerRank(ws[|ws| - 1])
  }

  function Rank<M>(s: State<M>): nat {
    TotalRank(s.workers)
    + match s.owner case Spawning => 3 case Closing => 2 case Releasing => 1 case Finished => 0
  }

  /** A step of one of the pool's own goroutines, as opposed to its environment. */
  predicate Ours<M>(a: Action<M>) { !a.Receive? && !a.Shutdown? && !a.Cancel? }

  function Steps<M>(acts: seq<Action<M>>): nat {
    if acts == [] then 0 else (if Ours(acts[0]) then 1 else 0) + Steps(acts[1..])
  }

  lemma {:induction false} RankUpdate<M>(ws: seq<Worker<M>>, w: nat, x: Worker<M>)
    requires w < |ws|
    ensures TotalRank(ws[w := x]) + WorkerRank(ws[w]) == TotalRank(ws) + WorkerRank(x)
  {
    var k := |ws| - 1;
    if w == k {
      assert ws[w := x][..k] == ws[..k];
    } else {
      RankUpdate(ws[..k], w, x);
      assert ws[w := x][..k] == ws[..k][w := x];
    }
  }

  lemma RankStep<M>(s: State<M>, a: Action<M>)
    requires Lifecycle(s) && Stopped(s) && Enabled(s, a)
    ensures Stopped(Next(s, a))
    ensures Ours(a) ==> Rank(Next(s, a)) < Rank(s)
    ensures !Ours(a) ==> Rank(Next(s, a)) == Rank(s)
  {
    var t, w := Next(s, a), Mover(s, a);
    MoverOnly(s, a);
    RankUpdate(s.workers, w, t.workers[w]);
  }

  /** After a stop signal the pool's goroutines take at most Rank(s) more steps, whatever the order. */
  lemma {:induction false} StopBounded<M(!new)>(s: State<M>, acts: seq<Action<M>>)
    requires Inv(s) && Stopped(s) && CanRun(s, acts)
    ensures Steps(acts) + Rank(After(s, acts)) <= Rank(s)
    ensures Steps(acts) <= 4 * |s.workers| + 3
    decreases |acts|
  {
    RankBound(s.workers);
    if acts != [] {
      RankStep(s, acts[0]);
      InvStep(s, acts[0]);
      StopBounded(Next(s, acts[0]), acts[1..]);
    }
  }

  /** Either signal stops the pool: it can always be given, and at most that many steps follow it. */
  lemma SignalsStop<M(!new)>(s: State<M>, signal: Action<M>, acts: seq<Action<M>>)
    requires Inv(s) && signal in [Shutdown, Cancel]
    ensures Enabled(s, signal) && Stopped(Next(s, signal))
    ensures CanRun(Next(s, signal), acts) ==> Steps(acts) <= 4 * |s.workers| + 3
  {
    InvStep(s, signal);
    if CanRun(Next(s, signal), acts) {
      StopBounded(Next(s, signal), acts);
    }
  }

  lemma {:induction false} RankBound<M>(ws: seq<Worker<M>>)
    ensures TotalRank(ws) <= 4 * |ws|
  {
    if ws != [] {
      RankBound(ws[..|ws| - 1]);
    }
  }

  predicate Fetches<M>(a: Action<M>) { a.FetchOk? || a.FetchError? }

  /** All that is left is inside FetchMessage. */
  ghost predicate OnlyFetching<M>(s: State<M>) {
    && s.owner.Spawning? && s.spawned == |s.workers|
    && (forall w :: 0 <= w < |s.workers| ==> s.workers[w].Fetching? || s.workers[w].Done?)
    && exists w :: 0 <= w < |s.workers| && s.workers[w].Fetching?
  }

  /** And they are never stuck: until the caller has been released some step of theirs is enabled, and it
      is a return of FetchMessage only when every worker left is in FetchMessage. That call returns once
      the context has ended or the reader has been closed. */
  lemma StopProgress<M(!new)>(s: State<M>) returns (a: Action<M>)
    requires Inv(s) && Stopped(s) && !s.owner.Finished?
    ensures Ours(a) && Enabled(s, a) && (Fetches(a) ==> OnlyFetching(s))
  {
    if s.owner.Closing? {
      return CloseOutput;
    }
    if s.owner.Releasing? {
      return ReleaseCaller;
    }
    if s.spawned < |s.workers| {
      return Spawn;
    }
    if s.workerWg == 0 {
      return WaitReturns;
    }
    NoneAlive(s.workers);
    if w: nat :| w < |s.workers| && Alive(s.workers[w]) && !s.workers[w].Fetching? {
      return match s.workers[w]
        case Top => Check(w)
        case Holding(_) => Drop(w)
        case _ => WorkerDone(w);
    }
    var w: nat :| w < |s.workers| && Alive(s.workers[w]);
    a := FetchError(w, false);
  }

  /** In that case nothing else of theirs can move. */
  lemma FetchingBlocks<M(!new)>(s: State<M>, a: Action<M>)
    requires Inv(s) && OnlyFetching(s) && Ours(a) && Enabled(s, a)
    ensures Fetches(a)
  {
    NoneAlive(s.workers);
  }

  /** After a stop signal a worker completes at most the one fetch it is in. */
  lemma {:induction false} StopEndsFetching<M(!new)>(s: State<M>, acts: seq<Action<M>>, w: nat)
    requires Inv(s) && Stopped(s) && CanRun(s, acts) && w < |s.workers|
    ensures |Of(After(s, acts).fetched, w)| <= |Of(s.fetched, w)| + if s.workers[w].Fetching? then 1 else 0
    decreases |acts|
  {
    if acts != [] {
      InvStep(s, acts[0]);
      FetchesLeft(s, acts[0], w);
      StopEndsFetching(Next(s, acts[0]), acts[1..], w);
    }
  }

  /** A stopped pool's step uses up the fetch it completes and starts none. */
  lemma FetchesLeft<M>(s: State<M>, a: Action<M>, w: nat)
    requires Stopped(s) && Enabled(s, a) && w < |s.workers|
    ensures Stopped(Next(s, a)) && |Next(s, a).workers| == |s.workers|
    ensures |Of(Next(s, a).fetched, w)| + (if Next(s, a).workers[w].Fetching? then 1 else 0)
         <= |Of(s.fetched, w)| + if s.workers[w].Fetching? then 1 else 0
  {
    if a.FetchOk? {
      OfAppend(s.fetched, Item(a.w, a.msg), w);
    }
  }

  // ----- Consuming

  /** Nothing stops the pool: no signal, and no error of FetchMessage that is the context's. */
  predicate Undisturbed<M>(acts: seq<Action<M>>) {
    forall i :: 0 <= i < |acts| ==> Harmless(acts[i])
  }

  predicate Harmless<M>(a: Action<M>) { !a.Shutdown? && !a.Cancel? && !(a.FetchError? && a.context) }

  /** Every worker started is in its loop. */
  ghost predicate Consuming<M>(s: State<M>) {
    && s.reader && !Stopped(s) && s.owner.Spawning? && !s.closed
    && forall w :: 0 <= w < s.spawned <= |s.workers| ==>
         s.workers[w].Top? || s.workers[w].Fetching? || s.workers[w].Holding?
  }

  lemma ConsumingStep<M>(s: State<M>, a: Action<M>)
    requires Lifecycle(s) && Consuming(s) && Enabled(s, a) && Harmless(a)
    ensures Consuming(Next(s, a))
  {
    NoneAlive(s.workers);
  }

  lemma {:induction false} ConsumingRun<M(!new)>(s: State<M>, acts: seq<Action<M>>)
    requires Inv(s) && Consuming(s) && CanRun(s, acts) && Undisturbed(acts)
    ensures Inv(After(s, acts)) && Consuming(After(s, acts)) && |After(s, acts).workers| == |s.workers|
    decreases |acts|
  {
    if acts != [] {
      assert Harmless(acts[0]);
      ConsumingStep(s, acts[0]);
      InvStep(s, acts[0]);
      ConsumingRun(Next(s, acts[0]), acts[1..]);
    }
  }

  /** With a reader and nothing to stop it the pool keeps consuming: it has the workers asked for, at least one,
      none of those started ever leaves its loop, and the channel stays open. */
  lemma KeepsConsuming<M(!new)>(numWorkers: int, acts: seq<Action<M>>)
    requires CanRun(Init(numWorkers, true, false, false), acts) && Undisturbed(acts)
    ensures
      var s := After(Init(numWorkers, true, false, false), acts);
      && |s.workers| == (if numWorkers > 1 then numWorkers else 1) && s.capacity == 100 * |s.workers|
      && s.spawned <= |s.workers| && !s.closed
      && forall w :: 0 <= w < s.spawned ==> s.workers[w].Top? || s.workers[w].Fetching? || s.workers[w].Holding?
  {
    InitInv<M>(numWorkers, true, false, false);
    ConsumingRun(Init(numWorkers, true, false, false), acts);
  }

  lemma Chain<M>(s: State<M>, a: Action<M>, acts: seq<Action<M>>)
    requires Enabled(s, a) && CanRun(Next(s, a), acts)
    ensures CanRun(s, [a] + acts) && After(s, [a] + acts) == After(Next(s, a), acts)
  {
    assert ([a] + acts)[1..] == acts;
  }

  lemma OneMore<M>(a: Action<M>, acts: seq<Action<M>>)
    requires Harmless(a) && Undisturbed(acts)
    ensures Undisturbed([a] + acts)
  {
  }

  /** An error of FetchMessage that is not the context's leads the worker back into FetchMessage, and changes
      nothing else. */
  lemma ErrorRetries<M>(s: State<M>, w: nat)
    requires Consuming(s) && w < |s.workers| && s.workers[w].Fetching?
    ensures CanRun(s, [FetchError(w, false), Check(w)]) && After(s, [FetchError(w, false), Check(w)]) == s
  {
    var t := Next(s, FetchError(w, false));
    assert Next(t, Check(w)).workers == s.workers;
    Chain(t, Check(w), []);
    Chain(s, FetchError(w, false), [Check(w)] + []);
    var steps: seq<Action<M>> := [FetchError(w, false), Check(w)];
    assert steps == [FetchError(w, false)] + ([Check(w)] + []);
  }

  predicate Left<M>(x: Worker<M>) { x.Returning? || x.Done? }

  lemma LeftStep<M>(s: State<M>, a: Action<M>, w: nat)
    requires Enabled(s, a) && w < |s.workers| && Left(s.workers[w])
    ensures |Next(s, a).workers| == |s.workers| && Left(Next(s, a).workers[w])
    ensures Of(Next(s, a).fetched, w) == Of(s.fetched, w)
  {
    if a.FetchOk? {
      OfAppend(s.fetched, Item(a.w, a.msg), w);
    }
  }

  /** A worker that left its loop never fetches again. */
  lemma {:induction false} LeftStays<M>(s: State<M>, acts: seq<Action<M>>, w: nat)
    requires CanRun(s, acts) && w < |s.workers| && Left(s.workers[w])
    ensures |After(s, acts).workers| == |s.workers| && Left(After(s, acts).workers[w])
    ensures Of(After(s, acts).fetched, w) == Of(s.fetched, w)
    decreases |acts|
  {
    if acts != [] {
      LeftStep(s, acts[0], w);
      LeftStays(Next(s, acts[0]), acts[1..], w);
    }
  }

  /** One that is the context's ends the worker: it fetches nothing more. */
  lemma ContextErrorEnds<M>(s: State<M>, w: nat, acts: seq<Action<M>>)
    requires w < |s.workers| && s.workers[w].Fetching? && CanRun(s, [FetchError(w, true)] + acts)
    ensures Of(After(s, [FetchError(w, true)] + acts).fetched, w) == Of(s.fetched, w)
  {
    var all: seq<Action<M>> := [FetchError(w, true)] + acts;
    assert all[0] == FetchError(w, true) && all[1..] == acts;
    LeftStays(Next(s, FetchError(w, true)), acts, w);
  }

  /** Without a reader nobody gets into FetchMessage. */
  ghost predicate Idling<M>(s: State<M>) {
    && !s.reader && s.fetched == []
    && forall w :: 0 <= w < |s.workers| ==> !s.workers[w].Fetching?
  }

  lemma IdlingStep<M>(s: State<M>, a: Action<M>)
    requires Idling(s) && Enabled(s, a)
    ensures Idling(Next(s, a))
  {
  }

  lemma {:induction false} IdlingRun<M>(s: State<M>, acts: seq<Action<M>>)
    requires Idling(s) && CanRun(s, acts)
    ensures Idling(After(s, acts))
    decreases |acts|
  {
    if acts != [] {
      IdlingStep(s, acts[0]);
      IdlingRun(Next(s, acts[0]), acts[1..]);
    }
  }

  lemma NoReaderNoFetch<M>(numWorkers: int, shutdown: bool, cancelled: bool, acts: seq<Action<M>>)
    requires CanRun(Init(numWorkers, false, shutdown, cancelled), acts)
    ensures After(Init(numWorkers, false, shutdown, cancelled), acts).fetched == []
  {
    IdlingRun(Init(numWorkers, false, shutdown, cancelled), acts);
  }

  // ----- Every worker can deliver every message

  /** The pool goes on from s to t undisturbed. */
  ghost predicate Leads<M>(s: State<M>, acts: seq<Action<M>>, t: State<M>) {
    CanRun(s, acts) && Undisturbed(acts) && After(s, acts) == t
  }

  lemma LeadsOn<M>(s: State<M>, a: Action<M>, acts: seq<Action<M>>, t: State<M>)
    requires Enabled(s, a) && Harmless(a) && Leads(Next(s, a), acts, t)
    ensures Leads(s, [a] + acts, t)
  {
    Chain(s, a, acts);
    OneMore(a, acts);
  }

  ghost predicate Ready<M(!new)>(s: State<M>, w: nat) { Inv(s) && Consuming(s) && w < |s.workers| }

  /** The next step on the way of a message from worker w to the caller: start it, empty the channel, send what
      it holds, fetch. */
  function Forward<M>(s: State<M>, w: nat, m: M): Action<M>
    requires w < |s.workers|
  {
    if s.workers[w].NotStarted? then Spawn
    else if s.buffer != [] then Receive
    else if s.workers[w].Top? then Check(w)
    else if s.workers[w].Fetching? then FetchOk(w, m)
    else Send(w)
  }

  /** How far worker w is from having fetched. */
  function Distance<M>(s: State<M>, w: nat): nat
    requires w < |s.workers|
  {
    if s.workers[w].NotStarted? then 5
    else match s.workers[w] case Holding(_) => 4 case Top => 2 case _ => 1
  }

  /** From any state of an undisturbed pool, whatever worker w is doing, the pool can go on, undisturbed, to
      deliver any message m that FetchMessage returns to w. */
  lemma {:induction false} Delivers<M(!new)>(s: State<M>, w: nat, m: M) returns (acts: seq<Action<M>>, t: State<M>)
    requires Ready(s, w)
    ensures Leads(s, acts, t) && t.received != [] && t.received[|t.received| - 1] == Item(w, m)
    decreases Distance(s, w), |s.workers| - s.spawned, |s.buffer|
  {
    var a := Forward(s, w, m);
    ForwardMoves(s, w, m);
    var u := Next(s, a);
    if a.FetchOk? {
      acts, t := HandsOver(u, w, m);
    } else {
      acts, t := Delivers(u, w, m);
    }
    LeadsOn(s, a, acts, t);
    acts := [a] + acts;
  }

  lemma ForwardMoves<M(!new)>(s: State<M>, w: nat, m: M)
    requires Ready(s, w)
    ensures
      var a := Forward(s, w, m);
      && Enabled(s, a) && Harmless(a) && Ready(Next(s, a), w)
      && (a.FetchOk? ==> Next(s, a).buffer == [] && Next(s, a).workers[w] == Holding(m))
      && (!a.FetchOk? ==>
            || Distance(Next(s, a), w) < Distance(s, w)
            || (Distance(Next(s, a), w) == Distance(s, w) &&
                (|Next(s, a).workers| - Next(s, a).spawned < |s.workers| - s.spawned ||
                 (Next(s, a).spawned == s.spawned && |Next(s, a).workers| == |s.workers|
                  && |Next(s, a).buffer| < |s.buffer|))))
  {
    var a := Forward(s, w, m);
    InvStep(s, a);
    ConsumingStep(s, a);
  }

  /** Sent into the empty channel and received. */
  lemma HandsOver<M(!new)>(s: State<M>, w: nat, m: M) returns (acts: seq<Action<M>>, t: State<M>)
    requires Ready(s, w) && s.buffer == [] && s.workers[w] == Holding(m)
    ensures Leads(s, acts, t) && t.received != [] && t.received[|t.received| - 1] == Item(w, m)
  {
    var u := Next(s, Send(w));
    t := Next(u, Receive);
    assert Leads(t, [], t);
    LeadsOn(u, Receive, [], t);
    LeadsOn(s, Send(w), [Receive] + [], t);
    acts := [Send(w)] + ([Receive] + []);
  }

  // ----- After the close

  lemma {:induction false} DoneHoldNothing<M>(ws: seq<Worker<M>>)
    requires AllDone(ws)
    ensures Held(ws) == multiset{}
  {
    if ws != [] {
      DoneHoldNothing(ws[..|ws| - 1]);
    }
  }

  /** Receiving as often as there are messages in the channel. */
  function Receives<M>(n: nat): seq<Action<M>> { seq(n, _ => Receive) }

  /** The caller can always take out everything buffered, in order, closed channel or not. */
  lemma {:induction false} Drains<M>(s: State<M>)
    ensures CanRun(s, Receives(|s.buffer|))
    ensures After(s, Receives(|s.buffer|)) == s.(buffer := [], received := s.received + s.buffer)
    decreases |s.buffer|
  {
    if s.buffer != [] {
      Drains(Next(s, Receive));
      assert Receives<M>(|s.buffer|)[1..] == Receives(|s.buffer| - 1);
      assert s.received + [s.buffer[0]] + s.buffer[1..] == s.received + s.buffer;
    } else {
      assert s.received + [] == s.received;
    }
  }

  /** Once the channel is closed, a caller who takes out the rest has received every message ever fetched but
      the dropped ones. */
  lemma AllReceived<M(!new)>(numWorkers: int, reader: bool, acts: seq<Action<M>>)
    requires CanRun(Init(numWorkers, reader, false, false), acts)
    requires After(Init(numWorkers, reader, false, false), acts).closed
    ensures
      var s := After(Init(numWorkers, reader, false, false), acts);
      && CanRun(s, Receives(|s.buffer|))
      && multiset(s.fetched) == multiset(After(s, Receives(|s.buffer|)).received) + multiset(s.dropped)
  {
    var s0: State<M> := Init(numWorkers, reader, false, false);
    InitInv<M>(numWorkers, reader, false, false);
    InvRun(s0, acts);
    var s := After(s0, acts);
    InPlaces(s);
    DoneHoldNothing(s.workers);
    Drains(s);
  }
}
