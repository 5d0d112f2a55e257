/** What the user of the threaded receiver sees, over every interleaving of the worker with API threads. */
module ReceiverThreadGuarantees {
  import opened Common
  import opened EventHubAuth
  import opened TokenLifecycle
  import opened AmqpStack
  import opened ReceiverSpec
  import opened ReceiverInvariant
  import opened ReceiverThreadSpec
  import opened ReceiverThreadInvariant

  /** Messages and timeouts go to the receive callback, errors to the error callback, ends to the end callback. */
  predicate ToOwnCallback(d: Delivery) {
    && d.Delivery? && d.to.session == d.event.session
    && (d.to.ForEvents? <==> d.event.Received? || d.event.TimeoutReported?)
    && (d.to.ForErrors? <==> d.event.Errored?)
    && (d.to.ForEnd? <==> d.event.Ended?)
  }

  /**
   The callback trace: every dispatch goes to the callback of the session it arose in - also when a new Receive comes
   between the worker's unlock and its drain - sessions follow one another, and a session's end comes once and last.
   */
  lemma RunCallbackTrace(ext: Option<ExtConfig>, ops: seq<ThreadOp>, i: nat, j: nat)
    requires Interleaved(ext, ops).Some? && i < j < |Interleaved(ext, ops).value.delivered|
    ensures var w := Interleaved(ext, ops).value;
      && w.delivered[i].Delivery? && w.delivered[j].Delivery?
      && ToOwnCallback(w.delivered[i]) && ToOwnCallback(w.delivered[j])
      && w.delivered[i].to.session <= w.delivered[j].to.session
      && (w.delivered[i].event.Ended? ==> w.delivered[i].to.session < w.delivered[j].to.session)
  {
    InterleavedKeeps(ext, ops);
  }

  /** Dispatches are delivered in the order in which they were queued, none twice, none skipped. */
  lemma RunDeliversInOrder(ext: Option<ExtConfig>, ops: seq<ThreadOp>, i: nat)
    requires Interleaved(ext, ops).Some?
    requires i < |Interleaved(ext, ops).value.emitted|
    ensures var w := Interleaved(ext, ops).value;
      var n := |w.delivered|;
      if i < n then w.delivered[i] == Delivery(w.emitted[i], OwnCallback(w.emitted[i]))
      else i - n < |w.queue| && w.queue[i - n] == Dispatch(w.emitted[i], i)
  {
    InterleavedKeeps(ext, ops);
    InOrder(Interleaved(ext, ops).value, i);
  }

  lemma InOrder(w: Wrapper, i: nat)
    requires DeliveredInv(w) && i < |w.emitted|
    ensures var n := |w.delivered|;
      if i < n then w.delivered[i] == Delivery(w.emitted[i], OwnCallback(w.emitted[i]))
      else i - n < |w.queue| && w.queue[i - n] == Dispatch(w.emitted[i], i)
  {
    var n := |w.delivered|;
    if n <= i {
      assert w.queue[i - n] == Dispatch(w.emitted[n + (i - n)], n + (i - n));
    }
  }

  /**
   The queue is empty whenever the worker is not draining with a good copy of the callbacks - so also after a
   failed Lock, when the copy is uninitialized - and holds exactly the clones not yet destroyed.
   */
  lemma RunConfinesQueue(ext: Option<ExtConfig>, ops: seq<ThreadOp>)
    requires Interleaved(ext, ops).Some?
    ensures var w := Interleaved(ext, ops).value;
      && (w.queue != [] ==> w.worker.Draining? && w.worker.callbacks.Copied?)
      && (forall e :: ReadGarbage(e) !in w.delivered)
      && (forall n: nat :: n < |w.emitted| && w.emitted[n].Received? ==>
            (n in w.destroyed <==> Dispatch(w.emitted[n], n) !in w.queue))
  {
    InterleavedKeeps(ext, ops);
    ClonesAreQueued(Interleaved(ext, ops).value);
  }

  lemma ClonesAreQueued(w: Wrapper)
    requires DeliveredInv(w) && ClonesInv(w)
    ensures forall n: nat :: n < |w.emitted| && w.emitted[n].Received? ==>
      (n in w.destroyed <==> Dispatch(w.emitted[n], n) !in w.queue)
  {
    forall n: nat | n < |w.emitted| && w.emitted[n].Received?
      ensures n in w.destroyed <==> Dispatch(w.emitted[n], n) !in w.queue
    {
      assert n in w.destroyed <==> multiset(w.destroyed)[n] > 0;
      if |w.delivered| <= n {
        assert w.queue[n - |w.delivered|] == Dispatch(w.emitted[n], n);
      }
    }
  }

  /** All that was queued in `w` has been delivered in `d`, to its own session, and each clone destroyed once. */
  ghost predicate AllDelivered(w: Wrapper, d: Wrapper) {
    && d.queue == [] && d.emitted == w.emitted && |d.delivered| == |w.emitted|
    && d.ll.stack.h == NO_HANDLES && !d.run && d.worker in {NotCreated, Exited}
    && (forall i :: 0 <= i < |w.emitted| ==> d.delivered[i] == Delivery(w.emitted[i], OwnCallback(w.emitted[i])))
    && (forall n: nat :: multiset(d.destroyed)[n] == if n < |w.emitted| && w.emitted[n].Received? then 1 else 0)
  }

  lemma DestroyDeliversAll(w: Wrapper)
    requires WrapperInv(w)
    ensures AllDelivered(w, DestroyedWrapper(w))
  {
    if w.worker.Draining? {
      DrainAllKeeps(w);
    }
    assert ClonesInv(Joined(w)) && DestroyedWrapper(w).destroyed == Joined(w).destroyed + [];
  }

  /** Destroy: the joined worker has delivered everything, and each clone has been destroyed, exactly once. */
  lemma RunThenDestroy(ext: Option<ExtConfig>, ops: seq<ThreadOp>)
    requires Interleaved(ext, ops).Some?
    ensures var w := Interleaved(ext, ops).value; AllDelivered(w, DestroyedWrapper(w))
  {
    InterleavedKeeps(ext, ops);
    DestroyDeliversAll(Interleaved(ext, ops).value);
  }

  // ---------------------------------------------------------------- nothing is lost when allocation succeeds

  /** The user-visible part of the lower receiver's log. */
  function Callbacks(log: seq<Event>): seq<Event> {
    if log == [] then []
    else Callbacks(log[..|log| - 1]) + if IsCallback(log[|log| - 1]) then [log[|log| - 1]] else []
  }

  lemma {:induction false} CallbacksAppend(a: seq<Event>, b: seq<Event>)
    ensures Callbacks(a + b) == Callbacks(a) + Callbacks(b)
  {
    if b == [] {
      assert a + b == a;
    } else {
      var n := |b| - 1;
      assert (a + b)[..|a + b| - 1] == a + b[..n];
      CallbacksAppend(a, b[..n]);
    }
  }

  lemma {:induction false} AllDispatched(events: seq<Event>, alloc: nat -> bool)
    requires forall n: nat :: alloc(n)
    ensures Dispatched(events, alloc) == Callbacks(events)
  {
    if events != [] {
      AllDispatched(events[..|events| - 1], alloc);
    }
  }

  ghost predicate AllocationSucceeds(op: ThreadOp) {
    op.OpTick? ==> forall n: nat :: op.alloc(n)
  }

  /** While allocation succeeds, what is queued for the user is what the lower receiver called back, in its order. */
  lemma {:induction false} RunEmitsEveryCallback(ext: Option<ExtConfig>, ops: seq<ThreadOp>)
    requires Interleaved(ext, ops).Some? && forall i :: 0 <= i < |ops| ==> AllocationSucceeds(ops[i])
    ensures var w := Interleaved(ext, ops).value; w.emitted == Callbacks(w.ll.log)
  {
    if ops != [] {
      var n := |ops| - 1;
      RunEmitsEveryCallback(ext, ops[..n]);
      StepEmits(Interleaved(ext, ops[..n]).value, ops[n]);
    }
  }

  lemma StepEmits(w: Wrapper, op: ThreadOp)
    requires Enabled(w, op) && AllocationSucceeds(op) && w.emitted == Callbacks(w.ll.log)
    ensures var v := ThreadStep(w, op); v.emitted == Callbacks(v.ll.log)
  {
    match op
    case OpTick(_, env, alloc) =>
      DoWorkLogs(w.ll, env);
      var ll := DoWork(w.ll, env);
      var logged := ll.log[|w.ll.log|..];
      assert ll.log == w.ll.log + logged;
      CallbacksAppend(w.ll.log, logged);
      AllDispatched(logged, alloc);
    case OpReceive(call, _, _) => ApiEmitsNothing(w.ll, call);
    case OpReceiveEnd(endCb, _) => ApiEmitsNothing(w.ll, ReceiveEnd(endCb));
    case OpRefresh(token, _) => ApiEmitsNothing(w.ll, Refresh(token));
    case OpDrain =>
  }

  lemma ApiEmitsNothing(r: Receiver, c: ApiCall)
    ensures Callbacks(Api(r, c).0.log) == Callbacks(r.log)
  {
    var s := Api(r, c).0;
    if s.log != r.log {
      assert s.log[..|s.log| - 1] == r.log;
    }
  }

  // ---------------------------------------------------------------- where the two state machines part

  /** The user's view and the lower receiver's: a session is on above exactly if it is below. */
  predicate StatesAgree(w: Wrapper) {
    w.active <==> w.ll.state == Active
  }

  /** Active above, nothing below. */
  predicate Parted(w: Wrapper) {
    w.active && w.ll.state == Inactive
  }

  /** A session below that no worker serves. */
  predicate Threadless(w: Wrapper) {
    !w.active && w.worker == NotCreated && w.ll.state == Active
  }

  /** The worker's pass authorizes the session, and that fails or times out. */
  predicate AuthorizationFails(w: Wrapper, op: ThreadOp) {
    && op.OpTick? && w.run && op.lockOk && w.ll.state == Active && Up(w.ll, op.env).1
    && AuthorizeReceiver(Up(w.ll, op.env).0, op.env.auth).1 in {AuthFailed, AuthTimedOut}
  }

  /** The lower receiver begins the first session, and the worker for it cannot be created. */
  predicate ThreadFails(w: Wrapper, op: ThreadOp) {
    && op.OpReceive? && op.call.Receive? && op.apiLockOk && op.call.receiveCb && op.call.errorCb && !w.active
    && w.worker == NotCreated && !op.threadOk && Receiving(w.ll, op.call).1 == ReceiverOk
  }

  lemma WorkEndsExactly(u: Receiver, env: DoWorkEnv)
    requires u.state == Active && Silent(env)
    ensures AuthorizedWork(u, env).state == Active <==> AuthorizeReceiver(u, env.auth).1 !in {AuthFailed, AuthTimedOut}
  {
    var a := AuthorizeReceiver(u, env.auth).0;
    SilentDeliveries(a.(stack := a.stack.(lib := a.stack.lib.Call(a.stack.h.connection))), env.items);
  }

  /** The worker's pass keeps a running session on if and only if its authorization does not fail. */
  lemma TickAgreesExactly(w: Wrapper, op: ThreadOp)
    requires op.OpTick? && Enabled(w, op) && StatesAgree(w)
    ensures StatesAgree(ThreadStep(w, op)) <==> !AuthorizationFails(w, op)
  {
    SilentPass(w.ll, op.env);
    if w.ll.state == Active {
      UpLogs(w.ll, op.env);
      WorkEndsExactly(Up(w.ll, op.env).0, op.env);
    }
  }

  lemma ReceiveAgreesExactly(w: Wrapper, op: ThreadOp)
    requires op.OpReceive? && Enabled(w, op) && StatesAgree(w)
    ensures StatesAgree(ThreadStep(w, op)) <==> !ThreadFails(w, op)
  {
  }

  /** A step keeps the two in agreement if and only if it is neither of these failures. */
  lemma StepAgreesExactly(w: Wrapper, op: ThreadOp)
    requires WrapperInv(w) && Enabled(w, op) && StatesAgree(w)
    ensures StatesAgree(ThreadStep(w, op)) <==> !AuthorizationFails(w, op) && !ThreadFails(w, op)
  {
    if op.OpTick? {
      TickAgreesExactly(w, op);
    } else if op.OpReceive? {
      ReceiveAgreesExactly(w, op);
    }
  }

  /** Once parted, every Receive, ReceiveEnd and refresh is refused, and no step changes that. */
  lemma PartedIsStuck(w: Wrapper, op: ThreadOp)
    requires WrapperInv(w) && Enabled(w, op) && Parted(w)
    ensures Parted(ThreadStep(w, op))
    ensures op.OpReceive? ==> ReceiveAsync(w, op.call, op.apiLockOk, op.threadOk).1 != ReceiverOk
    ensures op.OpReceiveEnd? ==> ReceiveEndAsync(w, op.endCb, op.endLockOk).1 != ReceiverOk
    ensures op.OpRefresh? ==> RefreshAsync(w, op.token, op.refreshLockOk).1 != ReceiverOk
  {
  }

  /**
   Without a worker every Receive and ReceiveEnd is refused, and no step changes that. A refresh alone may succeed:
   it does so exactly when the lock is taken and the token is fit for an EXT receiver without one.
   */
  lemma FailedThreadIsStuck(w: Wrapper, op: ThreadOp)
    requires WrapperInv(w) && Enabled(w, op) && Threadless(w)
    ensures Threadless(ThreadStep(w, op))
    ensures op.OpReceive? ==> ReceiveAsync(w, op.call, op.apiLockOk, op.threadOk).1 != ReceiverOk
    ensures op.OpReceiveEnd? ==> ReceiveEndAsync(w, op.endCb, op.endLockOk).1 != ReceiverOk
    ensures op.OpRefresh? ==>
      (RefreshAsync(w, op.token, op.refreshLockOk).1 == ReceiverOk <==>
        && op.token.Some? && op.refreshLockOk && w.ll.ext.Some? && w.ll.refreshToken == None
        && SasToken.Parse(op.token.value).Some? && SasToken.Parse(op.token.value).value.uri == w.ll.ext.value.uri)
  {
  }

  lemma DisagreeIsStuck(w: Wrapper)
    requires WrapperInv(w) && !StatesAgree(w)
    ensures Parted(w) || Threadless(w)
  {
  }

  /** The two states part for good: whatever is done afterwards, the handle stays active above and inactive below. */
  lemma {:induction false} RunPartedStaysParted(ext: Option<ExtConfig>, ops: seq<ThreadOp>, n: nat)
    requires n <= |ops| && Interleaved(ext, ops).Some? && Interleaved(ext, ops[..n]).Some?
    requires Parted(Interleaved(ext, ops[..n]).value)
    ensures Parted(Interleaved(ext, ops).value)
    decreases |ops|
  {
    if n == |ops| {
      assert ops[..n] == ops;
    } else {
      var front := ops[..|ops| - 1];
      assert front[..n] == ops[..n];
      RunPartedStaysParted(ext, front, n);
      InterleavedKeeps(ext, front);
      PartedIsStuck(Interleaved(ext, front).value, ops[|ops| - 1]);
    }
  }

  /** So does a session without a worker: nothing that is done afterwards ends it or gives it one. */
  lemma {:induction false} RunThreadlessStaysThreadless(ext: Option<ExtConfig>, ops: seq<ThreadOp>, n: nat)
    requires n <= |ops| && Interleaved(ext, ops).Some? && Interleaved(ext, ops[..n]).Some?
    requires Threadless(Interleaved(ext, ops[..n]).value)
    ensures Threadless(Interleaved(ext, ops).value)
    decreases |ops|
  {
    if n == |ops| {
      assert ops[..n] == ops;
    } else {
      var front := ops[..|ops| - 1];
      assert front[..n] == ops[..n];
      RunThreadlessStaysThreadless(ext, front, n);
      InterleavedKeeps(ext, front);
      FailedThreadIsStuck(Interleaved(ext, front).value, ops[|ops| - 1]);
    }
  }

  /** Some step of the run is one of the two failures. */
  predicate SomeFailure(ext: Option<ExtConfig>, ops: seq<ThreadOp>)
    requires Interleaved(ext, ops).Some?
  {
    ops != [] &&
    var front, last := ops[..|ops| - 1], ops[|ops| - 1];
    var w := Interleaved(ext, front).value;
    SomeFailure(ext, front) || AuthorizationFails(w, last) || ThreadFails(w, last)
  }

  /**
   Over every interleaving: at its end the two states agree if and only if no step of it was an authorization
   failure or timeout, or a failed thread creation.
   */
  lemma {:induction false} RunAgreesExactly(ext: Option<ExtConfig>, ops: seq<ThreadOp>)
    requires Interleaved(ext, ops).Some?
    ensures StatesAgree(Interleaved(ext, ops).value) <==> !SomeFailure(ext, ops)
  {
    if ops != [] {
      var front, last := ops[..|ops| - 1], ops[|ops| - 1];
      var w := Interleaved(ext, front).value;
      RunAgreesExactly(ext, front);
      InterleavedKeeps(ext, front);
      if StatesAgree(w) {
        StepAgreesExactly(w, last);
      } else {
        DisagreeIsStuck(w);
        if Parted(w) {
          PartedIsStuck(w, last);
        } else {
          FailedThreadIsStuck(w, last);
        }
      }
    }
  }

  // ---------------------------------------------------------------- both happen

  const FIRST_RECEIVE := ApiCall.Receive(true, true, 0, 0, None, true)

  lemma TwoSteps(ext: Option<ExtConfig>, a: ThreadOp, b: ThreadOp)
    requires Enabled(NewWrapper(NewReceiver(ext)), a) && Enabled(ThreadStep(NewWrapper(NewReceiver(ext)), a), b)
    ensures Interleaved(ext, [a, b]) == Some(ThreadStep(ThreadStep(NewWrapper(NewReceiver(ext)), a), b))
  {
    assert [a, b][..1] == [a] && [a][..0] == [];
    assert Interleaved(ext, [a]) == Some(ThreadStep(NewWrapper(NewReceiver(ext)), a));
  }

  /** A pass whose bring-up succeeds, and in which the clock cannot be read for the first put. */
  lemma NoClockPass(r: Receiver, env: DoWorkEnv)
    requires r.state == Active && r.amqp == Uninitialized && r.ext == None
    requires env.common == ALL_BUILT
    requires env.auth.put.clock == None
    ensures Up(r, env).1 && AuthorizeReceiver(Up(r, env).0, env.auth).1 == AuthFailed
  {
  }

  /** A complete run from creation to the first state: a Receive, then a pass that cannot read the clock. */
  lemma AuthFailureParts(env: DoWorkEnv, alloc: nat -> bool) returns (ops: seq<ThreadOp>)
    requires Silent(env) && env.auth.put.clock == None
    requires env.common == ALL_BUILT
    ensures Interleaved(None, ops).Some? && Parted(Interleaved(None, ops).value)
  {
    var receive, tick := OpReceive(FIRST_RECEIVE, true, true), OpTick(true, env, alloc);
    ops := [receive, tick];
    var w := ThreadStep(NewWrapper(NewReceiver(None)), receive);
    NoClockPass(w.ll, env);
    RunKeeps(None, []);
    ThreadStepKeeps(NewWrapper(NewReceiver(None)), receive);
    StepAgreesExactly(w, tick);
    TwoSteps(None, receive, tick);
    InterleavedKeeps(None, ops);
  }

  /** And one to the second: a first Receive whose thread cannot be created. */
  lemma FailedThreadParts(ext: Option<ExtConfig>) returns (ops: seq<ThreadOp>)
    ensures Interleaved(ext, ops).Some? && Threadless(Interleaved(ext, ops).value)
  {
    var receive := OpReceive(FIRST_RECEIVE, true, false);
    ops := [receive];
    assert ops[..0] == [];
  }
}
