/** What every interleaving of the worker with API threads keeps, and what the user sees. */
module ReceiverThreadInvariant {
  import opened Common
  import opened EventHubAuth
  import opened ReceiverSpec
  import opened ReceiverInvariant
  import opened ReceiverThreadSpec

  /** How the wrapper's state and callbacks relate to the lower receiver's. */
  ghost predicate CallbacksInv(w: Wrapper) {
    && (w.active ==>
          && w.receiveCb == Some(ForEvents(w.ll.session)) && w.errorCb == Some(ForErrors(w.ll.session))
          && w.ll.state != InactivePending && w.worker != NotCreated)
    && (!w.active ==> w.ll.state != Active || w.worker == NotCreated)
    && (w.ll.state == InactivePending ==> w.endCb == if w.ll.endCb then Some(ForEnd(w.ll.session)) else None)
  }

  /** The callback that an event is for: the one of its kind that was registered for its own session. */
  function OwnCallback(e: Event): Callback {
    if e.Received? || e.TimeoutReported? then ForEvents(e.session)
    else if e.Errored? then ForErrors(e.session)
    else ForEnd(e.session)
  }

  /** A queued dispatch finds the callback of its own session in the copy that the worker drains with. */
  ghost predicate QueueInv(w: Wrapper) {
    && (w.worker.Draining? && w.worker.callbacks.Copied? ==>
          forall i :: 0 <= i < |w.queue| ==>
            CallbackFor(w.worker.callbacks, w.queue[i].event) == Some(OwnCallback(w.queue[i].event)))
    && (!(w.worker.Draining? && w.worker.callbacks.Copied?) ==> w.queue == [])
  }

  /** What was emitted is in session order, an end last. */
  ghost predicate EmittedInv(emitted: seq<Event>, ll: Receiver) {
    && SessionOrder(emitted)
    && (forall i :: 0 <= i < |emitted| ==> emitted[i].session <= ll.session && IsCallback(emitted[i]))
    && (forall i :: 0 <= i < |emitted| && emitted[i].Ended? && emitted[i].session == ll.session ==>
          ll.state == Inactive)
  }

  /** What was emitted has been delivered to its session's callbacks or is queued, in that order. */
  ghost predicate DeliveredInv(w: Wrapper) {
    && |w.emitted| == |w.delivered| + |w.queue|
    && (forall i :: 0 <= i < |w.delivered| ==> w.delivered[i] == Delivery(w.emitted[i], OwnCallback(w.emitted[i])))
    && (forall i :: 0 <= i < |w.queue| ==> w.queue[i] == Dispatch(w.emitted[|w.delivered| + i], |w.delivered| + i))
  }

  /** How often clone `n` is to be destroyed once the first `done` dispatches have been: never, or once. */
  function Owed(emitted: seq<Event>, done: nat, n: nat): nat {
    if n < done && n < |emitted| && emitted[n].Received? then 1 else 0
  }

  /** The clones of delivered events have each been destroyed once, those of queued events not yet. */
  ghost predicate ClonesInv(w: Wrapper) {
    forall n: nat :: multiset(w.destroyed)[n] == Owed(w.emitted, |w.delivered|, n)
  }

  ghost predicate UpperInv(w: Wrapper) {
    CallbacksInv(w) && QueueInv(w) && EmittedInv(w.emitted, w.ll) && DeliveredInv(w) && ClonesInv(w)
  }

  ghost predicate WrapperInv(w: Wrapper) {
    Inv(w.ll) && AuthSettled(w.ll) && UpperInv(w)
  }

  // ---------------------------------------------------------------- a pass of the lower receiver

  lemma {:induction false} SilentDeliveries(r: Receiver, items: seq<IoItem>)
    requires r.state == Active && forall i :: 0 <= i < |items| && !items[i].PutAnswer? ==> items[i].react == []
    ensures DeliverAll(r, items).state == Active
    decreases |items|
  {
    if items != [] {
      SilentDeliveries(Deliver(r, items[0]), items[1..]);
    }
  }

  lemma SilentWork(u: Receiver, env: DoWorkEnv)
    requires u.state == Active && Silent(env)
    ensures AuthorizedWork(u, env).state in {Active, Inactive}
  {
    var a := AuthorizeReceiver(u, env.auth).0;
    SilentDeliveries(a.(stack := a.stack.(lib := a.stack.lib.Call(a.stack.h.connection))), env.items);
  }

  /** Without calls from user callbacks an active receiver stays active or loses its session. */
  lemma SilentPass(r: Receiver, env: DoWorkEnv)
    requires Silent(env)
    ensures r.state == Active ==> DoWork(r, env).state in {Active, Inactive}
    ensures r.state != Active ==> DoWork(r, env).state == Inactive
    ensures DoWork(r, env).session == r.session
  {
    DoWorkLogs(r, env);
    if r.state == Active {
      UpLogs(r, env);
      SilentWork(Up(r, env).0, env);
    } else if r.state == InactivePending {
      FinishedLogs(r, env.onEnd);
    }
  }

  lemma {:induction false} DispatchedFrom(events: seq<Event>, alloc: nat -> bool)
    ensures forall e :: e in Dispatched(events, alloc) ==> e in events && IsCallback(e)
    ensures |Dispatched(events, alloc)| <= |events|
  {
    if events != [] {
      DispatchedFrom(events[..|events| - 1], alloc);
    }
  }

  // ---------------------------------------------------------------- the worker's steps

  /** Events of a session that has not ended keep the order; its end does, if it comes alone. */
  lemma AppendOrder(a: seq<Event>, news: seq<Event>, session: nat)
    requires SessionOrder(a)
    requires forall i :: 0 <= i < |a| ==> a[i].session <= session && (a[i].Ended? ==> a[i].session < session)
    requires forall i :: 0 <= i < |news| ==> news[i].session == session && (news[i].Ended? ==> |news| == 1)
    ensures SessionOrder(a + news)
    ensures forall i :: 0 <= i < |a + news| ==> (a + news)[i].session <= session
    ensures (forall i :: 0 <= i < |news| ==> !news[i].Ended?) ==>
      forall i :: 0 <= i < |a + news| && (a + news)[i].Ended? ==> (a + news)[i].session < session
  {
  }

  lemma EmittedKeeps(emitted: seq<Event>, r: Receiver, ll: Receiver, news: seq<Event>)
    requires EmittedInv(emitted, r) && ll.session == r.session
    requires forall i :: 0 <= i < |news| ==>
      news[i].session == r.session && (news[i].Ended? ==> |news| == 1 && ll.state == Inactive)
    requires forall i :: 0 <= i < |news| ==> IsCallback(news[i])
    requires r.state == Inactive ==> news == [] && ll.state == Inactive
    ensures EmittedInv(emitted + news, ll)
  {
    if news == [] {
      assert emitted + news == emitted;
    } else {
      AppendOrder(emitted, news, r.session);
    }
  }

  lemma PassEmits(emitted: seq<Event>, r: Receiver, ll: Receiver, news: seq<Event>)
    requires EmittedInv(emitted, r) && PassOf(r, ll, news)
    ensures EmittedInv(emitted + news, ll)
  {
    assert forall i :: 0 <= i < |news| ==> news[i] in news;
    EmittedKeeps(emitted, r, ll, news);
  }

  lemma QueuedKeeps(w: Wrapper, news: seq<Event>)
    requires DeliveredInv(w) && w.queue == []
    ensures DeliveredInv(Enqueued(w, news)) && (ClonesInv(w) ==> ClonesInv(Enqueued(w, news)))
  {
    assert w.queue + Numbered(news, |w.emitted|) == Numbered(news, |w.emitted|);
  }

  /** What a pass may do to the lower receiver `r`, calling back with `news`. */
  ghost predicate PassOf(r: Receiver, ll: Receiver, news: seq<Event>) {
    && ll.session == r.session
    && (if r.state == Active then ll.state in {Active, Inactive} else ll.state == Inactive)
    && (forall e :: e in news ==> IsCallback(e) && e.session == r.session)
    && (r.state == Active ==> forall e :: e in news ==> !e.Ended?)
    && (r.state == InactivePending ==> news == [] || (r.endCb && news == [Ended(r.session)]))
    && (r.state == Inactive ==> news == [])
  }

  /** The dispatches of one pass: all of the running session, an end only alone. */
  lemma PassDispatches(w: Wrapper, env: DoWorkEnv, alloc: nat -> bool)
    requires Silent(env) && SessionInv(w.ll)
    ensures var v := Worked(w, env, alloc);
      var news := v.emitted[|w.emitted|..];
      v == Enqueued(w.(ll := v.ll), news) && v.ll == DoWork(w.ll, env) && PassOf(w.ll, v.ll, news)
  {
    DoWorkLogs(w.ll, env);
    SilentPass(w.ll, env);
    var ll := DoWork(w.ll, env);
    var logged := ll.log[|w.ll.log|..];
    var news := Dispatched(logged, alloc);
    DispatchedFrom(logged, alloc);
    assert (w.emitted + news)[|w.emitted|..] == news;
    if w.ll.state == InactivePending {
      FinishedLogs(w.ll, env.onEnd);
      assert logged == if w.ll.endCb then [Ended(w.ll.session)] else [];
    }
  }

  /** A pass leaves the callbacks in step, and they are the ones its dispatches are for. */
  lemma PassCallbacks(w: Wrapper, ll: Receiver, news: seq<Event>)
    requires CallbacksInv(w) && w.worker == AtLoopTop && PassOf(w.ll, ll, news)
    ensures CallbacksInv(w.(ll := ll))
    ensures forall i :: 0 <= i < |news| ==>
      CallbackFor(Copied(w.receiveCb, w.errorCb, w.endCb), news[i]) == Some(OwnCallback(news[i]))
  {
    assert forall i :: 0 <= i < |news| ==> news[i] in news;
  }

  lemma PassQueue(w: Wrapper, news: seq<Event>, c: Snapshot)
    requires w.queue == [] && c.Copied?
    requires forall i :: 0 <= i < |news| ==> CallbackFor(c, news[i]) == Some(OwnCallback(news[i]))
    ensures QueueInv(Enqueued(w, news).(worker := Draining(c)))
  {
    assert w.queue + Numbered(news, |w.emitted|) == Numbered(news, |w.emitted|);
  }

  lemma PassKeeps(w: Wrapper, ll: Receiver, news: seq<Event>)
    requires UpperInv(w) && w.worker == AtLoopTop && PassOf(w.ll, ll, news)
    ensures UpperInv(Enqueued(w.(ll := ll), news).(worker := Draining(Copied(w.receiveCb, w.errorCb, w.endCb))))
  {
    PassCallbacks(w, ll, news);
    PassEmits(w.emitted, w.ll, ll, news);
    PassQueue(w.(ll := ll), news, Copied(w.receiveCb, w.errorCb, w.endCb));
    QueuedKeeps(w.(ll := ll), news);
  }

  lemma TickKeeps(w: Wrapper, lockOk: bool, env: DoWorkEnv, alloc: nat -> bool)
    requires WrapperInv(w) && w.worker == AtLoopTop && Silent(env)
    ensures WrapperInv(Tick(w, lockOk, env, alloc))
  {
    if w.run && lockOk {
      DoWorkKeeps(w.ll, env);
      PassDispatches(w, env, alloc);
      var v := Worked(w, env, alloc);
      PassKeeps(w, v.ll, v.emitted[|w.emitted|..]);
    }
  }

  /** A turn of the drain delivers the head to its own session's callback and destroys its clone, if it has one. */
  lemma DrainOneKeeps(w: Wrapper)
    requires UpperInv(w) && w.worker.Draining? && w.queue != []
    ensures UpperInv(DrainOne(w, w.worker.callbacks))
    ensures var v, d := DrainOne(w, w.worker.callbacks), w.queue[0];
      && v.delivered == w.delivered + [Delivery(d.event, OwnCallback(d.event))]
      && v.destroyed == w.destroyed + CloneOf(d)
  {
    var v := DrainOne(w, w.worker.callbacks);
    assert w.queue[0] == Dispatch(w.emitted[|w.delivered|], |w.delivered|);
    assert forall i :: 0 <= i < |v.queue| ==> v.queue[i] == w.queue[i + 1];
    ClonesStep(w, v);
  }

  lemma ClonesStep(w: Wrapper, v: Wrapper)
    requires ClonesInv(w) && |w.delivered| < |w.emitted| && v.emitted == w.emitted
    requires |v.delivered| == |w.delivered| + 1
    requires v.destroyed == w.destroyed + CloneOf(Dispatch(w.emitted[|w.delivered|], |w.delivered|))
    ensures ClonesInv(v)
  {
  }

  lemma {:induction false} DrainAllKeeps(w: Wrapper)
    requires UpperInv(w) && w.worker.Draining?
    ensures var v := DrainAll(w, w.worker.callbacks);
      && UpperInv(v) && v.queue == []
      && v == w.(queue := [], delivered := v.delivered, destroyed := v.destroyed)
    decreases |w.queue|
  {
    if w.queue != [] {
      DrainOneKeeps(w);
      DrainAllKeeps(DrainOne(w, w.worker.callbacks));
    }
  }

  // ---------------------------------------------------------------- the API steps

  /** An API call does not touch what was emitted; the lower receiver begins a session or goes on with its own. */
  lemma LowerKeeps(w: Wrapper, v: Wrapper)
    requires UpperInv(w) && CallbacksInv(v)
    requires
      || v.ll.session > w.ll.session
      || (v.ll.session == w.ll.session && (w.ll.state == Inactive ==> v.ll.state == Inactive))
    requires v.queue == w.queue && v.emitted == w.emitted && v.delivered == w.delivered && v.destroyed == w.destroyed
    requires v.worker == w.worker || (w.worker == NotCreated && v.worker == AtLoopTop)
    ensures UpperInv(v)
  {
  }

  lemma ReceiveCallbacks(w: Wrapper, c: ApiCall, lockOk: bool, threadOk: bool)
    requires CallbacksInv(w) && c.Receive?
    ensures CallbacksInv(ReceiveAsync(w, c, lockOk, threadOk).0)
  {
  }

  /** A Receive leaves the queue alone, and the lower receiver as it is or with a session begun. */
  lemma ReceiveFrame(w: Wrapper, c: ApiCall, lockOk: bool, threadOk: bool)
    requires c.Receive?
    ensures var v := ReceiveAsync(w, c, lockOk, threadOk).0;
      && v.queue == w.queue && v.emitted == w.emitted && v.delivered == w.delivered && v.destroyed == w.destroyed
      && (v.worker == w.worker || (w.worker == NotCreated && v.worker == AtLoopTop))
      && v.ll in {w.ll, Receiving(w.ll, c).0}
  {
  }

  lemma ReceivingSession(r: Receiver, c: ApiCall)
    requires c.Receive?
    ensures var s := Receiving(r, c).0;
      s.session > r.session || (s.session == r.session && (r.state == Inactive ==> s.state == Inactive))
  {
  }

  lemma ReceiveKeeps(w: Wrapper, c: ApiCall, lockOk: bool, threadOk: bool)
    requires WrapperInv(w) && c.Receive?
    ensures WrapperInv(ReceiveAsync(w, c, lockOk, threadOk).0)
  {
    var v := ReceiveAsync(w, c, lockOk, threadOk).0;
    ReceiveCallbacks(w, c, lockOk, threadOk);
    ReceiveFrame(w, c, lockOk, threadOk);
    ApiKeeps(w.ll, c);
    ApiFrame(w.ll, c);
    ReceivingSession(w.ll, c);
    LowerKeeps(w, v);
  }

  lemma ReceiveEndCallbacks(w: Wrapper, endCb: bool, lockOk: bool)
    requires CallbacksInv(w)
    ensures CallbacksInv(ReceiveEndAsync(w, endCb, lockOk).0)
  {
  }

  lemma ReceiveEndKeeps(w: Wrapper, endCb: bool, lockOk: bool)
    requires WrapperInv(w)
    ensures WrapperInv(ReceiveEndAsync(w, endCb, lockOk).0)
  {
    ReceiveEndCallbacks(w, endCb, lockOk);
    ApiKeeps(w.ll, ReceiveEnd(endCb));
    ApiFrame(w.ll, ReceiveEnd(endCb));
    LowerKeeps(w, ReceiveEndAsync(w, endCb, lockOk).0);
  }

  lemma RefreshKeeps(w: Wrapper, token: Option<string>, lockOk: bool)
    requires WrapperInv(w)
    ensures WrapperInv(RefreshAsync(w, token, lockOk).0)
  {
    ApiKeeps(w.ll, Refresh(token));
    ApiFrame(w.ll, Refresh(token));
    LowerKeeps(w, RefreshAsync(w, token, lockOk).0);
  }

  // ---------------------------------------------------------------- runs

  datatype ThreadOp =
    | OpTick(lockOk: bool, env: DoWorkEnv, alloc: nat -> bool)
    | OpDrain
    | OpReceive(call: ApiCall, apiLockOk: bool, threadOk: bool)
    | OpReceiveEnd(endCb: bool, endLockOk: bool)
    | OpRefresh(token: Option<string>, refreshLockOk: bool)

  /** The worker can only take the step it is at; user callbacks of the lower receiver make no calls. */
  predicate Enabled(w: Wrapper, op: ThreadOp) {
    match op
    case OpTick(_, env, _) => w.worker == AtLoopTop && Silent(env)
    case OpDrain => w.worker.Draining?
    case OpReceive(call, _, _) => call.Receive?
    case _ => true
  }

  function ThreadStep(w: Wrapper, op: ThreadOp): Wrapper
    requires Enabled(w, op)
  {
    match op
    case OpTick(lockOk, env, alloc) => Tick(w, lockOk, env, alloc)
    case OpDrain => Drain(w)
    case OpReceive(call, lockOk, threadOk) => ReceiveAsync(w, call, lockOk, threadOk).0
    case OpReceiveEnd(endCb, lockOk) => ReceiveEndAsync(w, endCb, lockOk).0
    case OpRefresh(token, lockOk) => RefreshAsync(w, token, lockOk).0
  }

  /** The runs: any interleaving of enabled steps, from creation; `None` when some step was not enabled. */
  function Interleaved(ext: Option<ExtConfig>, ops: seq<ThreadOp>): Option<Wrapper> {
    if ops == [] then Some(NewWrapper(NewReceiver(ext)))
    else
      var w := Interleaved(ext, ops[..|ops| - 1]);
      if w.Some? && Enabled(w.value, ops[|ops| - 1]) then Some(ThreadStep(w.value, ops[|ops| - 1])) else None
  }

  lemma ThreadStepKeeps(w: Wrapper, op: ThreadOp)
    requires WrapperInv(w) && Enabled(w, op)
    ensures WrapperInv(ThreadStep(w, op))
  {
    match op
    case OpTick(lockOk, env, alloc) => TickKeeps(w, lockOk, env, alloc);
    case OpDrain =>
      if w.queue != [] {
        DrainOneKeeps(w);
      }
    case OpReceive(call, lockOk, threadOk) => ReceiveKeeps(w, call, lockOk, threadOk);
    case OpReceiveEnd(endCb, lockOk) => ReceiveEndKeeps(w, endCb, lockOk);
    case OpRefresh(token, lockOk) => RefreshKeeps(w, token, lockOk);
  }

  lemma {:induction false} InterleavedKeeps(ext: Option<ExtConfig>, ops: seq<ThreadOp>)
    requires Interleaved(ext, ops).Some?
    ensures WrapperInv(Interleaved(ext, ops).value)
  {
    if ops == [] {
      RunKeeps(ext, []);
    } else {
      InterleavedKeeps(ext, ops[..|ops| - 1]);
      ThreadStepKeeps(Interleaved(ext, ops[..|ops| - 1]).value, ops[|ops| - 1]);
    }
  }
}
