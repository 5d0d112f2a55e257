/** What the threaded receiver's calls answer, and what a turn of its worker delivers to the user. */
module ReceiverThreadOutcomes {
  import opened Common
  import opened EventHubAuth
  import opened ReceiverSpec
  import opened ReceiverInvariant
  import opened ReceiverOutcomes
  import opened ReceiverThreadSpec
  import opened ReceiverThreadInvariant
  import opened ReceiverThreadGuarantees

  // ---------------------------------------------------------------- the API

  /** A Receive is accepted exactly if the handle is free, the lower receiver begins a session and a worker is there. */
  lemma ReceiveAcceptsExactly(w: Wrapper, c: ApiCall, lockOk: bool, threadOk: bool)
    requires c.Receive?
    ensures var (v, result) := ReceiveAsync(w, c, lockOk, threadOk);
      && (result == ReceiverOk <==>
            && c.receiveCb && c.errorCb && lockOk && !w.active && (w.worker != NotCreated || threadOk)
            && w.ll.state == Inactive && (c.waitMs == 0 || c.tick.Some?) && c.filterOk)
      && (result == ReceiverOk ==>
            && v.active && Started(w.ll, c, v.ll) && v.endCb == None
            && v.receiveCb == Some(ForEvents(v.ll.session)) && v.errorCb == Some(ForErrors(v.ll.session))
            && v.worker == (if w.worker == NotCreated then AtLoopTop else w.worker)
            && v.run == (if w.worker == NotCreated then true else w.run))
      && (result != ReceiverOk ==> v.active == w.active && v.worker == w.worker)
  {
    ReceivesExactly(w.ll, c);
  }

  /** A ReceiveEnd is accepted exactly when a session is on, above and below; its callback is kept for the end. */
  lemma ReceiveEndAcceptsExactly(w: Wrapper, endCb: bool, lockOk: bool)
    ensures var (v, result) := ReceiveEndAsync(w, endCb, lockOk);
      && (result == ReceiverOk <==> lockOk && w.active && w.ll.state == Active)
      && (result == ReceiverOk ==>
            && !v.active && v.ll.state == InactivePending && v.ll.endCb == endCb
            && v.receiveCb == v.errorCb == None && v.endCb == if endCb then Some(ForEnd(w.ll.session)) else None)
      && (result != ReceiverOk ==> v == w)
  {
    EndsExactly(w.ll, endCb);
  }

  lemma RefreshAcceptsExactly(w: Wrapper, token: Option<string>, lockOk: bool)
    ensures var (v, result) := RefreshAsync(w, token, lockOk);
      && (result == ReceiverOk <==>
            && lockOk && token.Some? && w.ll.ext.Some? && w.ll.state == Active && w.ll.refreshToken == None
            && SasToken.Parse(token.value).Some? && SasToken.Parse(token.value).value.uri == w.ll.ext.value.uri)
      && v == w.(ll := if result == ReceiverOk then w.ll.(refreshToken := token) else w.ll)
  {
    RefreshIsKeptExactly(w.ll, token);
  }

  // ---------------------------------------------------------------- the worker

  /** The worker runs, until Destroy, from the first Receive that is accepted. */
  ghost predicate WorkerInv(w: Wrapper) {
    w.worker != Exited && (w.worker != NotCreated ==> w.run)
  }

  lemma StepKeepsWorker(w: Wrapper, op: ThreadOp)
    requires WorkerInv(w) && Enabled(w, op)
    ensures WorkerInv(ThreadStep(w, op))
  {
  }

  lemma StepKeepsEndpoint(w: Wrapper, op: ThreadOp)
    requires WrapperInv(w) && Enabled(w, op) && EndpointInv(w.ll)
    ensures EndpointInv(ThreadStep(w, op).ll)
  {
    match op
    case OpTick(lockOk, env, alloc) =>
      DoWorkKeepsEndpoint(w.ll, env);
    case OpDrain =>
    case OpReceive(call, _, _) => ApiFrame(w.ll, call);
    case OpReceiveEnd(endCb, _) => ApiFrame(w.ll, ReceiveEnd(endCb));
    case OpRefresh(token, _) => ApiFrame(w.ll, Refresh(token));
  }

  /** In every reachable state an active receiver has a worker that runs, and what the results below ask for holds. */
  lemma {:induction false} RunHasWorker(ext: Option<ExtConfig>, ops: seq<ThreadOp>)
    requires Interleaved(ext, ops).Some?
    ensures var w := Interleaved(ext, ops).value;
      && WrapperInv(w) && EndpointInv(w.ll) && WorkerInv(w)
      && (w.active ==> w.run && (w.worker == AtLoopTop || w.worker.Draining?))
  {
    InterleavedKeeps(ext, ops);
    if ops != [] {
      var front := ops[..|ops| - 1];
      RunHasWorker(ext, front);
      StepKeepsWorker(Interleaved(ext, front).value, ops[|ops| - 1]);
      StepKeepsEndpoint(Interleaved(ext, front).value, ops[|ops| - 1]);
    }
  }

  /** The worker drains its queue in as many steps, and one step later is back at the top of its loop. */
  lemma DrainsToLoopTop(w: Wrapper)
    requires w.worker.Draining?
    ensures var v := DrainAll(w, w.worker.callbacks); v.worker == w.worker && Drain(v).worker == AtLoopTop
    ensures w.queue != [] ==> Drain(w) == DrainOne(w, w.worker.callbacks) && |Drain(w).queue| == |w.queue| - 1
  {
    DrainedWorker(w, w.worker.callbacks);
  }

  lemma {:induction false} DrainedWorker(w: Wrapper, c: Snapshot)
    ensures DrainAll(w, c).worker == w.worker && DrainAll(w, c).queue == []
    decreases |w.queue|
  {
    if w.queue != [] {
      DrainedWorker(DrainOne(w, c), c);
    }
  }

  // ---------------------------------------------------------------- a turn

  /** The part of a pass that the user is told. */
  function UserNews(r: Receiver, env: DoWorkEnv): seq<Event> {
    FailureNews(r, env) + WorkNews(r, env)
    + if TimesOut(r, env) then [TimeoutReported(r.session, env.now.value, r.waitMs)] else []
  }

  lemma CallbacksOfOne(log: seq<Event>)
    requires |log| <= 1
    ensures Callbacks(log) == if log != [] && IsCallback(log[0]) then log else []
  {
    if log != [] {
      assert log[..0] == [] && log == [log[0]];
    }
  }

  lemma {:induction false} CallbacksOfAll(log: seq<Event>)
    requires forall e :: e in log ==> IsCallback(e)
    ensures Callbacks(log) == log
  {
    if log != [] {
      CallbacksOfAll(log[..|log| - 1]);
    }
  }

  lemma CallbacksAmongFour(a: seq<Event>, b: seq<Event>, c: seq<Event>, d: seq<Event>)
    requires |a| <= 1 && |b| <= 1 && |d| <= 1 && forall e :: e in c ==> IsCallback(e)
    ensures Callbacks(a + b + c + d) == Callbacks(a) + Callbacks(b) + c + Callbacks(d)
  {
    CallbacksAppend(a, b);
    CallbacksAppend(a + b, c);
    CallbacksAppend(a + b + c, d);
    CallbacksOfAll(c);
  }

  lemma CallbacksOfPass(r: Receiver, env: DoWorkEnv)
    ensures Callbacks(PassNews(r, env)) == UserNews(r, env)
  {
    var a, b, c, d := UpNews(r, env), FailureNews(r, env), WorkNews(r, env), CheckNews(r, env);
    DeliveriesChars(r.session, env.items);
    CallbacksAmongFour(a, b, c, d);
    CallbacksOfOne(a);
    CallbacksOfOne(b);
    CheckCallbacks(r, env);
  }

  lemma CheckCallbacks(r: Receiver, env: DoWorkEnv)
    ensures Callbacks(CheckNews(r, env)) ==
      if TimesOut(r, env) then [TimeoutReported(r.session, env.now.value, r.waitMs)] else []
  {
    CallbacksOfOne(CheckNews(r, env));
  }

  /** Each event, delivered to the callback of its own session. */
  function ToUser(events: seq<Event>): seq<Delivery> {
    seq(|events|, i requires 0 <= i < |events| => Delivery(events[i], OwnCallback(events[i])))
  }

  /**
   A turn of the worker of an active receiver, with its drain, delivers exactly the failure of the authorization, every
   readable message and link error of the pass, in order, and an inactivity timeout if it is due, to the callbacks of
   the running session.
   */
  lemma TurnDeliversExactly(w: Wrapper, env: DoWorkEnv, alloc: nat -> bool)
    requires WrapperInv(w) && EndpointInv(w.ll) && WorkerInv(w) && w.worker == AtLoopTop && w.ll.state == Active
    requires Silent(env) && forall n: nat :: alloc(n)
    ensures var v := Tick(w, true, env, alloc);
      && v.worker.Draining?
      && DrainAll(v, v.worker.callbacks).delivered == w.delivered + ToUser(UserNews(w.ll, env))
  {
    var v := Tick(w, true, env, alloc);
    TickKeeps(w, true, env, alloc);
    DoWorkAdds(w.ll, env);
    CallbacksOfPass(w.ll, env);
    AllDispatched(PassNews(w.ll, env), alloc);
    assert v.emitted == w.emitted + UserNews(w.ll, env);
    DrainAllKeeps(v);
    AllDeliveredSince(w, DrainAll(v, v.worker.callbacks), UserNews(w.ll, env));
  }

  lemma AllDeliveredSince(w: Wrapper, d: Wrapper, news: seq<Event>)
    requires DeliveredInv(w) && DeliveredInv(d) && w.queue == d.queue == [] && d.emitted == w.emitted + news
    ensures d.delivered == w.delivered + ToUser(news)
  {
  }

  /** A turn after a ReceiveEnd delivers the end of the session, to the end callback if there is one. */
  lemma TurnEndsExactly(w: Wrapper, env: DoWorkEnv, alloc: nat -> bool)
    requires WrapperInv(w) && WorkerInv(w) && w.worker == AtLoopTop && w.ll.state == InactivePending
    requires Silent(env) && forall n: nat :: alloc(n)
    ensures var v := Tick(w, true, env, alloc);
      && v.ll.state == Inactive && v.worker.Draining?
      && DrainAll(v, v.worker.callbacks).delivered ==
         w.delivered + ToUser(if w.ll.endCb then [Ended(w.ll.session)] else [])
  {
    var v := Tick(w, true, env, alloc);
    var news := if w.ll.endCb then [Ended(w.ll.session)] else [];
    TickKeeps(w, true, env, alloc);
    FinishesExactly(w.ll, env);
    assert DoWork(w.ll, env).log[|w.ll.log|..] == news;
    CallbacksOfOne(news);
    AllDispatched(news, alloc);
    assert v.emitted == w.emitted + news;
    DrainAllKeeps(v);
    AllDeliveredSince(w, DrainAll(v, v.worker.callbacks), news);
  }
}
