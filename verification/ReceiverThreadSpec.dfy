/**
 The threaded receiver of eventhubreceiver.c as a state machine. What one thread does while it holds the lock is
 one step; the worker drains its callback queue between two such steps, one callback a step, while other threads
 may take theirs.

 The callbacks that the wrapper hands to the lower receiver only append to the queue, so they make no API calls.
 */
module ReceiverThreadSpec {
  import opened Common
  import opened ReceiverSpec
  import opened ReceiverInvariant

  /** A user callback, by what it is for and the session that it was registered for. */
  datatype Callback = ForEvents(session: nat) | ForErrors(session: nat) | ForEnd(session: nat)

  /** The worker's copy of the callbacks. The source leaves it uninitialized when the lock cannot be taken. */
  datatype Snapshot = Garbage | Copied(receive: Option<Callback>, error: Option<Callback>, end: Option<Callback>)

  /** Where the worker thread is. */
  datatype Worker = NotCreated | AtLoopTop | Draining(callbacks: Snapshot) | Exited

  /** EVENTHUBRECEIVER_ASYNC_CALLBACK: a queued callback. The clone made for a received event has its number. */
  datatype Dispatch = Dispatch(event: Event, number: nat)

  /** A call of a user callback, or a read of an uninitialized copy. */
  datatype Delivery = Delivery(event: Event, to: Callback) | ReadGarbage(event: Event)

  /**
   EVENTHUBRECEIVER_STRUCT. `emitted` holds the events of all dispatches ever queued, each numbered by its place,
   `delivered` the calls of user callbacks, `destroyed` the clones destroyed so far, once for each time.
   */
  datatype Wrapper = Wrapper(
    ll: Receiver, active: bool, run: bool, worker: Worker,
    receiveCb: Option<Callback>, errorCb: Option<Callback>, endCb: Option<Callback>,
    queue: seq<Dispatch>, emitted: seq<Event>, delivered: seq<Delivery>, destroyed: seq<nat>)

  function NewWrapper(ll: Receiver): Wrapper {
    Wrapper(ll, false, false, NotCreated, None, None, None, [], [], [], [])
  }

  /** No user callback calls back into the lower receiver. */
  predicate Silent(env: DoWorkEnv) {
    && env.onError == env.onTimeout == env.onEnd == []
    && forall i :: 0 <= i < |env.items| && !env.items[i].PutAnswer? ==> env.items[i].react == []
  }

  predicate IsCallback(e: Event) {
    e.Received? || e.TimeoutReported? || e.Errored? || e.Ended?
  }

  /** The dispatches queued for `events`; `alloc` says which of them could be allocated and cloned. */
  function Dispatched(events: seq<Event>, alloc: nat -> bool): seq<Event> {
    if events == [] then []
    else
      var n := |events| - 1;
      Dispatched(events[..n], alloc) + if IsCallback(events[n]) && alloc(n) then [events[n]] else []
  }

  function Numbered(events: seq<Event>, start: nat): seq<Dispatch> {
    seq(|events|, i requires 0 <= i < |events| => Dispatch(events[i], start + i))
  }

  /** The clones that the dispatches of `queue` hold. */
  function Clones(queue: seq<Dispatch>): seq<nat> {
    if queue == [] then [] else CloneOf(queue[0]) + Clones(queue[1..])
  }

  function CloneOf(d: Dispatch): seq<nat> {
    if d.event.Received? then [d.number] else []
  }

  // ---------------------------------------------------------------- the worker

  /** EHR_OnAsyncReceiveCB, EHR_OnAsyncReceiveErrorCB and EHR_OnAsyncEndCB for the events of a pass. */
  function Enqueued(w: Wrapper, events: seq<Event>): Wrapper {
    w.(queue := w.queue + Numbered(events, |w.emitted|), emitted := w.emitted + events)
  }

  /** The worker at the top of its loop: it ends, or takes the lock, works, copies the callbacks and unlocks. */
  function Tick(w: Wrapper, lockOk: bool, env: DoWorkEnv, alloc: nat -> bool): Wrapper
    requires w.worker == AtLoopTop
  {
    if !w.run then w.(worker := Exited)
    else if !lockOk then w.(worker := Draining(Garbage))
    else Worked(w, env, alloc).(worker := Draining(Copied(w.receiveCb, w.errorCb, w.endCb)))
  }

  /** The lower receiver's pass; what it calls back with is queued. */
  function Worked(w: Wrapper, env: DoWorkEnv, alloc: nat -> bool): Wrapper {
    var ll := DoWork(w.ll, env);
    DoWorkLogs(w.ll, env);
    Enqueued(w.(ll := ll), Dispatched(ll.log[|w.ll.log|..], alloc))
  }

  function CallbackFor(c: Snapshot, e: Event): Option<Callback>
    requires c.Copied?
  {
    if e.Received? || e.TimeoutReported? then c.receive else if e.Errored? then c.error else c.end
  }

  /** The user callback that AsyncDispatchCallbackListProcess calls for a dispatch, if there is one. */
  function Calls(c: Snapshot, e: Event): seq<Delivery> {
    if c == Garbage then [ReadGarbage(e)]
    else if CallbackFor(c, e) == None then []
    else [Delivery(e, CallbackFor(c, e).value)]
  }

  /** The clone it destroys: that of an event nobody is called for stays. */
  function Releases(c: Snapshot, d: Dispatch): seq<nat> {
    if c.Copied? && c.receive.Some? then CloneOf(d) else []
  }

  function DrainOne(w: Wrapper, c: Snapshot): Wrapper
    requires w.queue != []
  {
    var d := w.queue[0];
    w.(queue := w.queue[1..], delivered := w.delivered + Calls(c, d.event), destroyed := w.destroyed + Releases(c, d))
  }

  function DrainAll(w: Wrapper, c: Snapshot): Wrapper
    decreases |w.queue|
  {
    if w.queue == [] then w else DrainAll(DrainOne(w, c), c)
  }

  /** A step of the draining worker: a callback, or back to the top of the loop. */
  function Drain(w: Wrapper): Wrapper
    requires w.worker.Draining?
  {
    if w.queue == [] then w.(worker := AtLoopTop) else DrainOne(w, w.worker.callbacks)
  }

  // ---------------------------------------------------------------- the API

  /** ExecuteCommonReceiveFromStartTimestampAsync */
  function ReceiveAsync(w: Wrapper, c: ApiCall, lockOk: bool, threadOk: bool): (Wrapper, Result)
    requires c.Receive?
  {
    if !c.receiveCb || !c.errorCb then (w, ReceiverInvalidArg)
    else if !lockOk then (w, ReceiverError)
    else if w.active then (w, NotAllowed)
    else
      var (ll, result) := Receiving(w.ll, c);
      var v := w.(ll := ll);
      if result != ReceiverOk then (v, result)
      else if w.worker != NotCreated then (Activated(v), ReceiverOk)
      else if !threadOk then (v.(run := false), ReceiverError)
      else (Activated(v.(run := true, worker := AtLoopTop)), ReceiverOk)
  }

  /** The user's callbacks are recorded, for the session that the lower receiver has just begun. */
  function Activated(w: Wrapper): Wrapper {
    w.(active := true, endCb := None,
       receiveCb := Some(ForEvents(w.ll.session)), errorCb := Some(ForErrors(w.ll.session)))
  }

  /** EventHubReceiver_ReceiveEndAsync */
  function ReceiveEndAsync(w: Wrapper, endCb: bool, lockOk: bool): (Wrapper, Result) {
    if !lockOk then (w, ReceiverError)
    else if !w.active then (w, NotAllowed)
    else
      var (ll, result) := Ending(w.ll, endCb);
      if result != ReceiverOk then (w.(ll := ll), result)
      else (w.(ll := ll, active := false, receiveCb := None, errorCb := None,
               endCb := if endCb then Some(ForEnd(ll.session)) else None), ReceiverOk)
  }

  /** EventHubReceiver_RefreshSASTokenAsync */
  function RefreshAsync(w: Wrapper, token: Option<string>, lockOk: bool): (Wrapper, Result) {
    if token == None then (w, ReceiverInvalidArg)
    else if !lockOk then (w, ReceiverError)
    else var (ll, result) := Refreshing(w.ll, token); (w.(ll := ll), result)
  }

  /** The worker, told to stop, finishes the queue it is draining. */
  function Joined(w: Wrapper): Wrapper {
    var v := if w.worker.Draining? then DrainAll(w, w.worker.callbacks) else w;
    v.(run := false, worker := if w.worker == NotCreated then NotCreated else Exited)
  }

  /** EventHubReceiver_Destroy after the join: what is left in the queue is freed with its data. */
  function Released(w: Wrapper): Wrapper {
    w.(ll := Destroyed(w.ll), queue := [], destroyed := w.destroyed + Clones(w.queue))
  }

  function DestroyedWrapper(w: Wrapper): Wrapper {
    Released(Joined(w))
  }
}
