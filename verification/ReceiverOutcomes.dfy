/**
 What a DoWork of the receiver calls back with, in terms of the state before it and of what it meets: every message
 delivered, every error, and an inactivity timeout exactly when it is due.
 */
module ReceiverOutcomes {
  import opened Common
  import opened EventHubAuth
  import opened TokenLifecycle
  import opened TokenOutcomes
  import opened AmqpStack
  import opened ReceiverSpec
  import opened ReceiverInvariant

  // ---------------------------------------------------------------- the course of a pass

  /** Bring-up succeeds, as far as this pass has to go. */
  predicate UpWhen(r: Receiver, env: DoWorkEnv) {
    match r.amqp
    case Uninitialized => env.common.(hostName := true) == ALL_BUILT && (r.ext.Some? ==> r.ext.value.expiry != 0)
    case PendingEndpointCreate => EndpointOk(env.endpoint) && (r.waitMs == 0 || env.endpointTick.Some?)
    case _ => true
  }

  /** The handle that the pass works with; a new one waits as long as a message may, in seconds. */
  function Handle(r: Receiver): Option<Auth> {
    if r.amqp != Uninitialized then r.stack.auth
    else
      var timeout := r.waitMs / 1000;
      Some(Created(if r.ext.Some?
                   then AuthConfig(SasTokenExt, 0, 0, timeout, r.ext.value.token, r.ext.value.uri, r.ext.value.expiry)
                   else AuthConfig(SasTokenAuto, 3600, 2880, timeout, "", "", 0)))
  }

  datatype Course = NoStack | NotAuthorized(timedOut: bool) | Waits | GoesOn

  /** How the pass of an active receiver goes: bring-up fails, or as authorization decides. */
  function CourseOf(r: Receiver, env: DoWorkEnv): Course {
    if !UpWhen(r, env) then NoStack
    else if Handle(r) == None then NotAuthorized(false)
    else if ReadyWhen(Handle(r).value, r.refreshToken, env.auth) then GoesOn
    else if WaitsWhen(Handle(r).value, env.auth) then Waits
    else NotAuthorized(TimesOutWhen(Handle(r).value, env.auth))
  }

  /** The pass delivers what connection_dowork brings. */
  predicate Delivers(r: Receiver, env: DoWorkEnv) {
    CourseOf(r, env) in {Waits, GoesOn} && UpState(r.amqp) == Initialized
  }

  /** It also gets to the inactivity check. */
  predicate Checks(r: Receiver, env: DoWorkEnv) {
    CourseOf(r, env) == GoesOn && UpState(r.amqp) == Initialized
  }

  // ---------------------------------------------------------------- what it logs

  /** The activity clock is set when the link has been created. */
  function UpNews(r: Receiver, env: DoWorkEnv): seq<Event> {
    if r.amqp == PendingEndpointCreate && UpWhen(r, env) && r.waitMs > 0
    then [Marked(r.session, env.endpointTick.value)]
    else []
  }

  function FailureNews(r: Receiver, env: DoWorkEnv): seq<Event> {
    match CourseOf(r, env)
    case NotAuthorized(timedOut) => [Errored(r.session, if timedOut then AuthTimeout else AuthFailure)]
    case _ => []
  }

  /** Every message that can be read, and every link error, in the order in which they come. */
  function Deliveries(session: nat, items: seq<IoItem>): seq<Event> {
    if items == [] then []
    else DeliveryOf(session, items[0]) + Deliveries(session, items[1..])
  }

  function DeliveryOf(session: nat, item: IoItem): seq<Event> {
    match item
    case MessageIn(parsed, event, _) => if parsed then [Received(session, event)] else []
    case LinkError(_) => [Errored(session, ConnectionRuntimeError)]
    case PutAnswer(_) => []
  }

  predicate SomeMessage(items: seq<IoItem>) {
    exists i :: 0 <= i < |items| && items[i].MessageIn? && items[i].parsed
  }

  /** When activity was last noted, as the inactivity check of this pass finds it. */
  function Since(r: Receiver, env: DoWorkEnv): uint64 {
    if r.amqp == PendingEndpointCreate && r.waitMs > 0 && env.endpointTick.Some? then env.endpointTick.value
    else r.lastActivity
  }

  /** A message has come in since the last check. */
  predicate MessageCame(r: Receiver, env: DoWorkEnv) {
    r.wasMessageReceived || SomeMessage(env.items)
  }

  /** The wait time has passed without a message. */
  predicate TimesOut(r: Receiver, env: DoWorkEnv) {
    && Checks(r, env) && r.waitMs > 0 && env.now.Some? && !MessageCame(r, env)
    && r.waitMs <= Sub64(env.now.value, Since(r, env))
  }

  function CheckNews(r: Receiver, env: DoWorkEnv): seq<Event> {
    if !Checks(r, env) || r.waitMs == 0 then []
    else if env.now == None then [TickFailed(r.session)]
    else if MessageCame(r, env) then [Accounted(r.session, env.now.value)]
    else if TimesOut(r, env) then [TimeoutReported(r.session, env.now.value, r.waitMs)]
    else []
  }

  function WorkNews(r: Receiver, env: DoWorkEnv): seq<Event> {
    if Delivers(r, env) then Deliveries(r.session, env.items) else []
  }

  function PassNews(r: Receiver, env: DoWorkEnv): seq<Event> {
    UpNews(r, env) + FailureNews(r, env) + WorkNews(r, env) + CheckNews(r, env)
  }

  /** The activity clock after the pass: the last reading that noted activity or a timeout; none after a tear-down. */
  function ClockAfter(r: Receiver, env: DoWorkEnv): uint64 {
    if CourseOf(r, env).NotAuthorized? then 0
    else if CourseOf(r, env) == NoStack then r.lastActivity
    else if Checks(r, env) && r.waitMs > 0 && env.now.Some? && (MessageCame(r, env) || TimesOut(r, env))
    then env.now.value
    else Since(r, env)
  }

  /** Whether a message waits to be accounted for after the pass. */
  predicate MessageAfter(r: Receiver, env: DoWorkEnv) {
    match CourseOf(r, env)
    case NoStack => r.wasMessageReceived
    case NotAuthorized(_) => false
    case Waits => r.wasMessageReceived || (Delivers(r, env) && SomeMessage(env.items))
    case GoesOn => !Checks(r, env) && r.wasMessageReceived
  }

  // ---------------------------------------------------------------- the pieces of DoWork

  /** The message receiver is there exactly as the AMQP state says, unless a link creation has failed. */
  predicate EndpointInv(r: Receiver) {
    && (r.amqp == Initialized ==> r.stack.h.endpoint.Some?)
    && (r.amqp in {Uninitialized, PendingAuthorization} ==> r.stack.h.endpoint == None)
  }

  /** What stays of a running session during deliveries. */
  predicate Goes(r: Receiver, s: Receiver) {
    && s.state != Inactive && s.receiveCb == r.receiveCb && s.errorCb == r.errorCb && s.session == r.session
    && s.waitMs == r.waitMs && s.lastActivity == r.lastActivity && s.stack.h == r.stack.h && s.amqp == r.amqp
  }

  lemma DeliverExactly(r: Receiver, item: IoItem)
    requires r.state != Inactive && r.receiveCb && r.errorCb
    ensures var s := Deliver(r, item);
      && Goes(r, s) && s.log == r.log + (if r.stack.h.endpoint.Some? then DeliveryOf(r.session, item) else [])
      && s.wasMessageReceived ==
         (r.wasMessageReceived || (r.stack.h.endpoint.Some? && item.MessageIn? && item.parsed))
  {
    match item
    case MessageIn(_, event, react) =>
      ReactFrame(r.(wasMessageReceived := true, log := r.log + [Received(r.session, event)]), react);
    case LinkError(react) => ReactFrame(r.(log := r.log + [Errored(r.session, ConnectionRuntimeError)]), react);
    case PutAnswer(_) =>
  }

  /** The receiver `m` after the first delivery. */
  lemma DeliverStep(r: Receiver, items: seq<IoItem>) returns (m: Receiver)
    requires r.state != Inactive && r.receiveCb && r.errorCb && items != []
    ensures DeliverAll(r, items) == DeliverAll(m, items[1..]) && Goes(r, m)
    ensures m.log == r.log + if r.stack.h.endpoint.Some? then DeliveryOf(r.session, items[0]) else []
    ensures m.wasMessageReceived ==
      (r.wasMessageReceived || (r.stack.h.endpoint.Some? && items[0].MessageIn? && items[0].parsed))
  {
    m := Deliver(r, items[0]);
    DeliverExactly(r, items[0]);
  }

  lemma {:induction false} DeliverAllLogs(r: Receiver, items: seq<IoItem>)
    requires r.state != Inactive && r.receiveCb && r.errorCb
    ensures var s := DeliverAll(r, items);
      Goes(r, s) && s.log == r.log + if r.stack.h.endpoint.Some? then Deliveries(r.session, items) else []
    decreases |items|
  {
    if items != [] {
      var m := DeliverStep(r, items);
      DeliverAllLogs(m, items[1..]);
      DeliveriesCons(r.log, r.session, items);
    }
  }

  lemma DeliveriesCons(log: seq<Event>, session: nat, items: seq<IoItem>)
    requires items != []
    ensures log + DeliveryOf(session, items[0]) + Deliveries(session, items[1..]) == log + Deliveries(session, items)
  {
  }

  lemma {:induction false} DeliverAllNotes(r: Receiver, items: seq<IoItem>)
    requires r.state != Inactive && r.receiveCb && r.errorCb
    ensures DeliverAll(r, items).wasMessageReceived ==
      (r.wasMessageReceived || (r.stack.h.endpoint.Some? && SomeMessage(items)))
    decreases |items|
  {
    if items != [] {
      var m := DeliverStep(r, items);
      DeliverAllNotes(m, items[1..]);
      SomeMessageCons(items);
    }
  }

  lemma SomeMessageCons(items: seq<IoItem>)
    requires items != []
    ensures SomeMessage(items) <==> (items[0].MessageIn? && items[0].parsed) || SomeMessage(items[1..])
  {
    assert forall i :: 0 <= i < |items[1..]| ==> items[1..][i] == items[i + 1];
    assert forall i :: 1 <= i < |items| ==> items[i] == items[1..][i - 1];
  }

  lemma ConnectionWorkExactly(r: Receiver, items: seq<IoItem>)
    requires r.state != Inactive && r.receiveCb && r.errorCb && (r.amqp == Uninitialized ==> r.stack.h.endpoint == None)
    ensures var s, live := ConnectionWork(r, items), r.stack.h.endpoint.Some?;
      && Goes(r, s) && s.log == r.log + (if live then Deliveries(r.session, items) else [])
      && s.wasMessageReceived == (r.wasMessageReceived || (live && SomeMessage(items)))
  {
    var m := r.(stack := r.stack.(lib := r.stack.lib.Call(r.stack.h.connection)));
    DeliverAllLogs(m, items);
    DeliverAllNotes(m, items);
  }

  /** The inactivity check, on the state that connection work leaves. */
  lemma CheckExactly(c: Receiver, now: Option<uint64>, onTimeout: seq<ApiCall>)
    requires c.state != Inactive && c.receiveCb && c.errorCb
    ensures var s := CheckActivity(c, now, onTimeout);
      var timedOut :=
        c.waitMs > 0 && now.Some? && !c.wasMessageReceived && c.waitMs <= Sub64(now.value, c.lastActivity);
      && s.state != Inactive && s.stack == c.stack && s.amqp == c.amqp && s.session == c.session
      && s.lastActivity ==
         (if c.waitMs > 0 && now.Some? && (c.wasMessageReceived || timedOut) then now.value else c.lastActivity)
      && s.log == c.log +
         if c.waitMs == 0 then [] else if now == None then [TickFailed(c.session)]
         else if c.wasMessageReceived then [Accounted(c.session, now.value)]
         else if timedOut then [TimeoutReported(c.session, now.value, c.waitMs)] else []
  {
    if now.Some? {
      ReactFrame(c.(log := c.log + [TimeoutReported(c.session, now.value, c.waitMs)]), onTimeout);
    }
  }

  lemma UpExactly(r: Receiver, env: DoWorkEnv)
    requires r.state == Active && EndpointInv(r)
    ensures var (u, ok) := Up(r, env);
      && (ok <==> UpWhen(r, env))
      && u == r.(stack := u.stack, amqp := u.amqp, log := u.log, lastActivity := u.lastActivity)
      && u.log == r.log + UpNews(r, env) && EndpointInv(u)
      && (ok ==> u.amqp == UpState(r.amqp) && u.stack.auth == Handle(r) && u.lastActivity == Since(r, env))
      && (!ok ==> u.lastActivity == r.lastActivity)
  {
    if r.amqp == Uninitialized {
      CommonUpExactly(r, env.common);
    } else if r.amqp == PendingEndpointCreate {
      EndpointUpExactly(r, env.endpoint, env.endpointTick);
    }
  }

  lemma CommonUpExactly(r: Receiver, env: CommonEnv)
    requires r.state == Active && r.amqp == Uninitialized
    ensures var (u, ok) := CommonUp(r, env);
      && (ok <==> env.(hostName := true) == ALL_BUILT && (r.ext.Some? ==> r.ext.value.expiry != 0))
      && u == r.(stack := u.stack, amqp := if ok then PendingAuthorization else r.amqp) && u.stack.h.endpoint == None
      && (ok ==> u.stack.auth == Handle(r))
  {
    var cfg, common := ClientConfig(r.ext, r.waitMs / 1000), env.(hostName := true);
    var s := Stack(NO_HANDLES, None, r.stack.lib);
    CommonBuiltExactly(s, cfg, common);
    CommonBuiltLeaves(s, cfg, common);
  }

  lemma CommonBuiltLeaves(s: Stack, cfg: AuthConfig, env: CommonEnv)
    ensures var (t, ok) := CommonBuilt(s, cfg, env);
      t.h.endpoint == s.h.endpoint && (ok ==> t.auth == Some(Created(cfg)))
  {
  }

  lemma EndpointUpExactly(r: Receiver, env: EndpointEnv, tick: Option<uint64>)
    requires r.state == Active && r.amqp == PendingEndpointCreate
    ensures var (u, ok) := EndpointUp(r, env, tick);
      var marked := ok && r.waitMs > 0;
      && (ok <==> EndpointOk(env) && (r.waitMs == 0 || tick.Some?))
      && u == r.(stack := u.stack, amqp := if ok then Initialized else r.amqp,
                 lastActivity := if marked then tick.value else r.lastActivity,
                 log := if marked then r.log + [Marked(r.session, tick.value)] else r.log)
      && (ok ==> u.stack.auth == r.stack.auth && u.stack.h.endpoint.Some?)
  {
    EndpointBuiltExactly(r.stack, env);
    EndpointBuiltLeaves(r.stack, env);
  }

  lemma EndpointBuiltLeaves(s: Stack, env: EndpointEnv)
    ensures var (t, ok) := EndpointBuilt(s, env); t.auth == s.auth && (ok ==> t.h.endpoint.Some?)
  {
  }

  /** The receiver once bring-up and authorization are over. */
  function Begun(r: Receiver, env: DoWorkEnv): Receiver {
    AuthorizeReceiver(Up(r, env).0, env.auth).0
  }

  lemma VerdictExactly(r: Receiver, env: DoWorkEnv)
    requires r.state == Active && EndpointInv(r) && AuthSettled(r) && UpWhen(r, env)
    ensures var verdict := AuthorizeReceiver(Up(r, env).0, env.auth).1;
      match CourseOf(r, env)
      case NotAuthorized(timedOut) => verdict == if timedOut then AuthTimedOut else AuthFailed
      case Waits => verdict == AuthWaiting
      case _ => verdict == AuthReady
  {
    UpExactly(r, env);
    var u := Up(r, env).0;
    AuthorizesExactly(u.stack, u.amqp, u.refreshToken, env.auth);
  }

  lemma BegunFrame(r: Receiver, env: DoWorkEnv)
    requires r.state == Active && EndpointInv(r) && AuthSettled(r) && UpWhen(r, env)
    ensures var a := Begun(r, env);
      && a == r.(stack := a.stack, amqp := a.amqp, refreshToken := a.refreshToken,
                 log := r.log + UpNews(r, env), lastActivity := Since(r, env))
      && (a.stack.h.endpoint.Some? <==> UpState(r.amqp) == Initialized)
      && (a.amqp == Initialized <==> UpState(r.amqp) == Initialized) && a.amqp != Uninitialized
  {
    UpExactly(r, env);
    var u := Up(r, env).0;
    var a := Begun(r, env);
    assert a == u.(stack := a.stack, amqp := a.amqp, refreshToken := a.refreshToken) && a.stack.h == u.stack.h;
  }

  // ---------------------------------------------------------------- DoWork

  /** What a pass leaves and logs. */
  predicate LeftBy(r: Receiver, env: DoWorkEnv, t: Receiver) {
    && t.log == r.log + PassNews(r, env)
    && t.lastActivity == ClockAfter(r, env) && t.wasMessageReceived == MessageAfter(r, env)
    && (t.state == Inactive <==> CourseOf(r, env).NotAuthorized?)
  }

  lemma NoStackExactly(r: Receiver, env: DoWorkEnv)
    requires Inv(r) && AuthSettled(r) && r.state == Active && EndpointInv(r) && CourseOf(r, env) == NoStack
    ensures LeftBy(r, env, DoWork(r, env))
  {
    UpExactly(r, env);
    assert DoWork(r, env) == Up(r, env).0;
  }

  lemma NotAuthorizedExactly(r: Receiver, env: DoWorkEnv)
    requires Inv(r) && AuthSettled(r) && r.state == Active && EndpointInv(r) && CourseOf(r, env).NotAuthorized?
    ensures LeftBy(r, env, DoWork(r, env))
  {
    UpExactly(r, env);
    VerdictExactly(r, env);
    BegunFrame(r, env);
    var a, code := Begun(r, env), if CourseOf(r, env).timedOut then AuthTimeout else AuthFailure;
    assert DoWork(r, env) == TornDownReceiver(OnError(a, code, false, env.onError));
    FailureExactly(a, code, env.onError);
    assert WorkNews(r, env) == [] && CheckNews(r, env) == [];
    LogOfPass(r, env);
  }

  lemma FailureExactly(a: Receiver, code: ErrorCode, react: seq<ApiCall>)
    requires a.state == Active && a.errorCb
    ensures var t := TornDownReceiver(OnError(a, code, false, react));
      && t.log == a.log + [Errored(a.session, code)] && t.state == Inactive
      && t.lastActivity == 0 && !t.wasMessageReceived
  {
    ReactFrame(a.(log := a.log + [Errored(a.session, code)]), react);
  }

  lemma LogOfFour(log: seq<Event>, a: seq<Event>, b: seq<Event>, c: seq<Event>, d: seq<Event>)
    ensures log + (a + b + c + d) == log + a + b + c + d
  {
  }

  lemma WaitsExactly(r: Receiver, env: DoWorkEnv)
    requires Inv(r) && AuthSettled(r) && r.state == Active && EndpointInv(r) && CourseOf(r, env) == Waits
    ensures LeftBy(r, env, DoWork(r, env))
  {
    UpExactly(r, env);
    VerdictExactly(r, env);
    BegunFrame(r, env);
    var a := Begun(r, env);
    assert DoWork(r, env) == ConnectionWork(a, env.items);
    ConnectionWorkLeaves(r, a, ConnectionWork(a, env.items), env);
  }

  lemma ConnectionWorkLeaves(r: Receiver, a: Receiver, t: Receiver, env: DoWorkEnv)
    requires CourseOf(r, env) == Waits && t == ConnectionWork(a, env.items)
    requires a.state == Active && a.receiveCb && a.errorCb && a.amqp != Uninitialized
    requires (a.stack.h.endpoint.Some? <==> UpState(r.amqp) == Initialized) && a.session == r.session
    requires a.log == r.log + UpNews(r, env) && a.lastActivity == Since(r, env)
    requires a.wasMessageReceived == r.wasMessageReceived
    ensures LeftBy(r, env, t)
  {
    ConnectionWorkExactly(a, env.items);
    WaitsNews(r, env);
  }

  lemma WaitsNews(r: Receiver, env: DoWorkEnv)
    requires CourseOf(r, env) == Waits
    ensures r.log + PassNews(r, env) == r.log + UpNews(r, env) + WorkNews(r, env)
    ensures ClockAfter(r, env) == Since(r, env)
  {
    assert FailureNews(r, env) == [] && CheckNews(r, env) == [];
    LogOfPass(r, env);
  }

  lemma LogOfPass(r: Receiver, env: DoWorkEnv)
    ensures r.log + PassNews(r, env) ==
      r.log + UpNews(r, env) + FailureNews(r, env) + WorkNews(r, env) + CheckNews(r, env)
  {
    LogOfFour(r.log, UpNews(r, env), FailureNews(r, env), WorkNews(r, env), CheckNews(r, env));
  }

  lemma GoesOnExactly(r: Receiver, env: DoWorkEnv)
    requires Inv(r) && AuthSettled(r) && r.state == Active && EndpointInv(r) && CourseOf(r, env) == GoesOn
    ensures LeftBy(r, env, DoWork(r, env))
  {
    UpExactly(r, env);
    VerdictExactly(r, env);
    BegunFrame(r, env);
    var a := Begun(r, env);
    if Checks(r, env) {
      assert DoWork(r, env) == ReceivePass(a, env);
      ReceivePassExactly(r, a, env);
    } else {
      assert DoWork(r, env) == a;
    }
  }

  lemma ReceivePassExactly(r: Receiver, a: Receiver, env: DoWorkEnv)
    requires Checks(r, env) && a.state == Active && a.receiveCb && a.errorCb
    requires a.stack.h.endpoint.Some? && a.amqp == Initialized
    requires a.log == r.log + UpNews(r, env) && a.lastActivity == Since(r, env)
    requires a.session == r.session && a.waitMs == r.waitMs && a.wasMessageReceived == r.wasMessageReceived
    ensures LeftBy(r, env, ReceivePass(a, env))
  {
    var c := WorkThenCheck(a, env);
    CheckExactly(c, env.now, env.onTimeout);
    CheckFinds(r, c, env);
    CheckedLeaves(r, ReceivePass(a, env), env);
  }

  lemma CheckedLeaves(r: Receiver, t: Receiver, env: DoWorkEnv)
    requires Checks(r, env) && t.state != Inactive && !t.wasMessageReceived
    requires t.log == r.log + UpNews(r, env) + Deliveries(r.session, env.items) + CheckNews(r, env)
    requires t.lastActivity == ClockAfter(r, env)
    ensures LeftBy(r, env, t)
  {
    CheckedNews(r, env);
  }

  lemma CheckedNews(r: Receiver, env: DoWorkEnv)
    requires Checks(r, env)
    ensures !MessageAfter(r, env)
    ensures r.log + PassNews(r, env) == r.log + UpNews(r, env) + Deliveries(r.session, env.items) + CheckNews(r, env)
  {
    assert FailureNews(r, env) == [] && WorkNews(r, env) == Deliveries(r.session, env.items);
    LogOfPass(r, env);
  }

  lemma WorkThenCheck(a: Receiver, env: DoWorkEnv) returns (c: Receiver)
    requires a.state == Active && a.receiveCb && a.errorCb && a.stack.h.endpoint.Some? && a.amqp == Initialized
    ensures ReceivePass(a, env) == CheckActivity(c, env.now, env.onTimeout).(wasMessageReceived := false)
    ensures Goes(a, c) && c.log == a.log + Deliveries(a.session, env.items)
    ensures c.wasMessageReceived == (a.wasMessageReceived || SomeMessage(env.items))
  {
    c := ConnectionWork(a, env.items);
    ConnectionWorkExactly(a, env.items);
  }

  /** The state that connection work leaves, as the check finds it. */
  lemma CheckFinds(r: Receiver, c: Receiver, env: DoWorkEnv)
    requires Checks(r, env) && c.session == r.session && c.waitMs == r.waitMs
    requires c.lastActivity == Since(r, env) && c.wasMessageReceived == MessageCame(r, env)
    ensures CheckNews(r, env) ==
      if c.waitMs == 0 then [] else if env.now == None then [TickFailed(c.session)]
      else if c.wasMessageReceived then [Accounted(c.session, env.now.value)]
      else if c.waitMs <= Sub64(env.now.value, c.lastActivity)
      then [TimeoutReported(c.session, env.now.value, c.waitMs)]
      else []
  {
  }

  /**
   The pass of an active receiver adds exactly this to the log: the activity clock's mark, the failure of the
   authorization, every delivery in order, and the finding of the inactivity check; and leaves the activity clock as
   these say.
   */
  lemma DoWorkExactly(r: Receiver, env: DoWorkEnv)
    requires Inv(r) && AuthSettled(r) && r.state == Active && EndpointInv(r)
    ensures LeftBy(r, env, DoWork(r, env))
  {
    match CourseOf(r, env)
    case NoStack => NoStackExactly(r, env);
    case NotAuthorized(_) => NotAuthorizedExactly(r, env);
    case Waits => WaitsExactly(r, env);
    case GoesOn => GoesOnExactly(r, env);
  }

  // ---------------------------------------------------------------- the AMQP state and the token that are left

  /** The library's answer to the outstanding put, among what connection_dowork brings. */
  function PutAnswerIn(items: seq<IoItem>): Option<bool> {
    if items == [] then None else if items[0].PutAnswer? then Some(items[0].ok) else PutAnswerIn(items[1..])
  }

  /** The message callbacks leave the stack alone. */
  lemma DeliverToken(r: Receiver, item: IoItem)
    ensures Deliver(r, item).stack == if item.PutAnswer? then PutAnswered(r.stack, item.ok) else r.stack
    ensures Deliver(r, item).amqp == r.amqp
  {
    match item
    case MessageIn(_, event, react) =>
      ReactFrame(r.(wasMessageReceived := true, log := r.log + [Received(r.session, event)]), react);
    case LinkError(react) => ReactFrame(r.(log := r.log + [Errored(r.session, ConnectionRuntimeError)]), react);
    case PutAnswer(_) =>
  }

  lemma {:induction false} DeliverAllToken(r: Receiver, items: seq<IoItem>)
    requires r.stack.auth.Some? && |r.stack.auth.value.puts| <= 1
    ensures var s, a := DeliverAll(r, items), r.stack.auth.value;
      && s.amqp == r.amqp && s.stack.auth.Some?
      && TokenLeft(s.stack.auth.value, a.puts, a.installed, PutAnswerIn(items))
      && (a.puts == [] ==> s.stack.auth == r.stack.auth)
    decreases |items|
  {
    if items != [] {
      DeliverToken(r, items[0]);
      if items[0].PutAnswer? {
        AnswerInstalls(r.stack, items[0].ok);
      }
      DeliverAllToken(Deliver(r, items[0]), items[1..]);
    }
  }

  /** Connection work is done in this pass. */
  predicate Works(r: Receiver, env: DoWorkEnv) {
    CourseOf(r, env) == Waits || Checks(r, env)
  }

  lemma BegunToken(r: Receiver, env: DoWorkEnv)
    requires r.state == Active && EndpointInv(r) && AuthSettled(r) && CourseOf(r, env) in {Waits, GoesOn}
    ensures var a, h := Begun(r, env), Handle(r).value;
      && a.amqp == (if CourseOf(r, env) == GoesOn && UpState(r.amqp) == PendingAuthorization
                       && NewPuts(h, r.refreshToken, env.auth) == []
                    then PendingEndpointCreate else UpState(r.amqp))
      && a.stack.auth.Some? && a.stack.auth.value.installed == h.installed
      && a.stack.auth.value.puts == h.puts + NewPuts(h, r.refreshToken, env.auth)
      && |a.stack.auth.value.puts| <= 1
  {
    UpExactly(r, env);
    VerdictExactly(r, env);
    var u := Up(r, env).0;
    AuthorizesExactly(u.stack, u.amqp, u.refreshToken, env.auth);
  }

  lemma CheckToken(c: Receiver, env: DoWorkEnv)
    ensures var t := CheckActivity(c, env.now, env.onTimeout); t.stack == c.stack && t.amqp == c.amqp
  {
    if env.now.Some? {
      ReactFrame(c.(log := c.log + [TimeoutReported(c.session, env.now.value, c.waitMs)]), env.onTimeout);
    }
  }

  /**
   The AMQP state and the token after a pass that gets through authorization: what was put is outstanding until
   connection work brings an answer, which installs it or fails the handle.
   */
  lemma DoWorkTokenExactly(r: Receiver, env: DoWorkEnv)
    requires Inv(r) && AuthSettled(r) && EndpointInv(r) && r.state == Active && CourseOf(r, env) in {Waits, GoesOn}
    ensures var t, h := DoWork(r, env), Handle(r).value;
      && t.amqp == (if CourseOf(r, env) == GoesOn && UpState(r.amqp) == PendingAuthorization
                       && NewPuts(h, r.refreshToken, env.auth) == []
                    then PendingEndpointCreate else UpState(r.amqp))
      && t.stack.auth.Some?
      && TokenLeft(t.stack.auth.value, h.puts + NewPuts(h, r.refreshToken, env.auth), h.installed,
                   if Works(r, env) then PutAnswerIn(env.items) else None)
  {
    UpExactly(r, env);
    VerdictExactly(r, env);
    BegunFrame(r, env);
    BegunToken(r, env);
    var a := Begun(r, env);
    DeliverAllToken(a.(stack := a.stack.(lib := a.stack.lib.Call(a.stack.h.connection))), env.items);
    CheckToken(ConnectionWork(a, env.items), env);
  }

  // ---------------------------------------------------------------- what the user sees of it

  predicate NoTimeout(log: seq<Event>) {
    forall i :: 0 <= i < |log| ==> !log[i].TimeoutReported?
  }

  lemma {:induction false} DeliveriesChars(session: nat, items: seq<IoItem>)
    ensures forall e :: e in Deliveries(session, items) ==> e.session == session && (e.Received? || e.Errored?)
  {
    if items != [] {
      DeliveriesChars(session, items[1..]);
    }
  }

  /**
   An inactivity timeout is reported, once and as the last event of the pass, if and only if the pass gets to the check,
   there is a wait time, the counter can be read, no message has come in since the last check, and the wait time has
   passed since activity was last noted.
   */
  lemma TimeoutReportedExactly(r: Receiver, env: DoWorkEnv)
    requires Inv(r) && AuthSettled(r) && r.state == Active && EndpointInv(r)
    ensures r.log <= DoWork(r, env).log
    ensures var news := DoWork(r, env).log[|r.log|..];
      if TimesOut(r, env) then
        && news != [] && news[|news| - 1] == TimeoutReported(r.session, env.now.value, r.waitMs)
        && NoTimeout(news[..|news| - 1])
      else NoTimeout(news)
  {
    DoWorkAdds(r, env);
    PassTimesOut(r, env);
  }

  lemma DoWorkAdds(r: Receiver, env: DoWorkEnv)
    requires Inv(r) && AuthSettled(r) && r.state == Active && EndpointInv(r)
    ensures r.log <= DoWork(r, env).log && DoWork(r, env).log[|r.log|..] == PassNews(r, env)
  {
    DoWorkExactly(r, env);
  }

  lemma PassTimesOut(r: Receiver, env: DoWorkEnv)
    ensures var news := PassNews(r, env);
      if TimesOut(r, env) then
        && news != [] && news[|news| - 1] == TimeoutReported(r.session, env.now.value, r.waitMs)
        && NoTimeout(news[..|news| - 1])
      else NoTimeout(news)
  {
    DeliveriesChars(r.session, env.items);
    var front := UpNews(r, env) + FailureNews(r, env) + WorkNews(r, env);
    if TimesOut(r, env) {
      assert CheckNews(r, env) == [TimeoutReported(r.session, env.now.value, r.waitMs)];
      assert PassNews(r, env)[..|front|] == front;
    }
  }

  function ReceivedOnly(log: seq<Event>): seq<Event> {
    if log == [] then [] else (if log[0].Received? then [log[0]] else []) + ReceivedOnly(log[1..])
  }

  /** The messages among the deliveries that can be read. */
  function Messages(session: nat, items: seq<IoItem>): seq<Event> {
    if items == [] then []
    else (if items[0].MessageIn? && items[0].parsed then [Received(session, items[0].event)] else [])
         + Messages(session, items[1..])
  }

  lemma {:induction false} ReceivedAppend(a: seq<Event>, b: seq<Event>)
    ensures ReceivedOnly(a + b) == ReceivedOnly(a) + ReceivedOnly(b)
  {
    if a == [] {
      assert a + b == b;
    } else {
      assert (a + b)[1..] == a[1..] + b && (a + b)[0] == a[0];
      ReceivedAppend(a[1..], b);
      LogOfFour(if a[0].Received? then [a[0]] else [], ReceivedOnly(a[1..]), ReceivedOnly(b), [], []);
    }
  }

  lemma {:induction false} DeliveriesReceive(session: nat, items: seq<IoItem>)
    ensures ReceivedOnly(Deliveries(session, items)) == Messages(session, items)
  {
    if items != [] {
      DeliveriesReceive(session, items[1..]);
      ReceivedAppend(DeliveryOf(session, items[0]), Deliveries(session, items[1..]));
      assert forall e: Event :: [e][1..] == [];
    }
  }

  lemma ReceivedOfOne(log: seq<Event>)
    requires NoneReceived(log)
    ensures ReceivedOnly(log) == []
  {
    if log != [] {
      assert log[1..] == [];
    }
  }

  /**
   Every message that can be read is delivered, in order, with its own event, in a pass that gets to connection work
   with a message receiver; no other pass delivers one.
   */
  lemma MessagesDeliveredExactly(r: Receiver, env: DoWorkEnv)
    requires Inv(r) && AuthSettled(r) && EndpointInv(r) && r.state == Active
    ensures r.log <= DoWork(r, env).log
    ensures ReceivedOnly(DoWork(r, env).log[|r.log|..]) ==
      if Delivers(r, env) then Messages(r.session, env.items) else []
  {
    DoWorkAdds(r, env);
    PassReceives(r, env);
  }

  lemma PassReceives(r: Receiver, env: DoWorkEnv)
    ensures ReceivedOnly(PassNews(r, env)) == if Delivers(r, env) then Messages(r.session, env.items) else []
  {
    DeliveriesReceive(r.session, env.items);
    ReceivedAmongFour(UpNews(r, env), FailureNews(r, env), WorkNews(r, env), CheckNews(r, env));
  }

  predicate NoneReceived(log: seq<Event>) {
    |log| <= 1 && forall i :: 0 <= i < |log| ==> !log[i].Received?
  }

  lemma ReceivedAmongFour(a: seq<Event>, b: seq<Event>, c: seq<Event>, d: seq<Event>)
    requires NoneReceived(a) && NoneReceived(b) && NoneReceived(d)
    ensures ReceivedOnly(a + b + c + d) == ReceivedOnly(c)
  {
    ReceivedAppend(a, b);
    ReceivedAppend(a + b, c);
    ReceivedAppend(a + b + c, d);
    ReceivedOfOne(a);
    ReceivedOfOne(b);
    ReceivedOfOne(d);
  }

  // ---------------------------------------------------------------- the calls that user callbacks make

  /** The calls of a callback take effect, one after the other. */
  lemma {:induction false} ReactsInOrder(r: Receiver, a: seq<ApiCall>, b: seq<ApiCall>)
    ensures React(r, []) == r && React(r, a + b) == React(React(r, a), b)
    ensures forall c: ApiCall :: React(r, [c]) == Api(r, c).0
    decreases |a|
  {
    forall c: ApiCall
      ensures React(r, [c]) == Api(r, c).0
    {
      assert [c][1..] == [];
      assert React(Api(r, c).0, []) == Api(r, c).0;
    }
    if a == [] {
      assert a + b == b;
    } else {
      assert (a + b)[1..] == a[1..] + b;
      ReactsInOrder(Api(r, a[0]).0, a[1..], b);
    }
  }

  /** What the API calls of a running session can change is the same. */
  predicate SameApi(s: Receiver, t: Receiver) {
    s.state == t.state != Inactive && s.endCb == t.endCb && s.refreshToken == t.refreshToken && s.ext == t.ext
  }

  lemma ApiAlike(s: Receiver, t: Receiver, c: ApiCall)
    requires SameApi(s, t)
    ensures SameApi(Api(s, c).0, Api(t, c).0)
  {
    if c.Receive? {
      RefusedReceive(s, c);
      RefusedReceive(t, c);
    }
  }

  lemma RefusedReceive(r: Receiver, c: ApiCall)
    requires c.Receive? && r.state != Inactive
    ensures Api(r, c).0 == r
  {
  }

  lemma {:induction false} ReactsAlike(s: Receiver, t: Receiver, calls: seq<ApiCall>)
    requires SameApi(s, t)
    ensures SameApi(React(s, calls), React(t, calls))
    decreases |calls|
  {
    if calls != [] {
      ApiAlike(s, t, calls[0]);
      ReactsAlike(Api(s, calls[0]).0, Api(t, calls[0]).0, calls[1..]);
    }
  }

  /** The calls made by the callbacks of what is delivered, in order. */
  function CallsIn(items: seq<IoItem>): seq<ApiCall> {
    if items == [] then []
    else (if items[0].PutAnswer? || (items[0].MessageIn? && !items[0].parsed) then [] else items[0].react)
         + CallsIn(items[1..])
  }

  lemma DeliverReacts(r: Receiver, item: IoItem)
    requires r.state != Inactive && r.receiveCb && r.errorCb && r.stack.h.endpoint.Some?
    ensures SameApi(Deliver(r, item), React(r, CallsIn([item])))
  {
    ReactsInOrder(r, [], []);
    ReactFrame(r, CallsIn([item]));
    match item
    case MessageIn(parsed, event, react) =>
      if parsed {
        assert CallsIn([item]) == react + [] == react by { assert [item][1..] == []; }
        ReactsAlike(r.(wasMessageReceived := true, log := r.log + [Received(r.session, event)]), r, react);
      }
    case LinkError(react) =>
      assert CallsIn([item]) == react + [] == react by { assert [item][1..] == []; }
      ReactsAlike(r.(log := r.log + [Errored(r.session, ConnectionRuntimeError)]), r, react);
    case PutAnswer(_) =>
  }

  lemma {:induction false} DeliverAllReacts(r: Receiver, items: seq<IoItem>)
    requires r.state != Inactive && r.receiveCb && r.errorCb && r.stack.h.endpoint.Some?
    ensures SameApi(DeliverAll(r, items), React(r, CallsIn(items)))
    decreases |items|
  {
    ReactsInOrder(r, [], []);
    if items != [] {
      var m := Deliver(r, items[0]);
      DeliverExactly(r, items[0]);
      DeliverReacts(r, items[0]);
      DeliverAllReacts(m, items[1..]);
      ReactsAlike(m, React(r, CallsIn([items[0]])), CallsIn(items[1..]));
      ReactsInOrder(r, CallsIn([items[0]]), CallsIn(items[1..]));
      assert [items[0]][1..] == [];
      assert CallsIn(items) == CallsIn([items[0]]) + CallsIn(items[1..]);
    }
  }

  /** The calls made by the callbacks of the whole pass, of one that goes on. */
  function CallsMade(r: Receiver, env: DoWorkEnv): seq<ApiCall> {
    (if Delivers(r, env) then CallsIn(env.items) else []) + if TimesOut(r, env) then env.onTimeout else []
  }

  /** The refresh token after authorization. */
  function TokenAfter(r: Receiver): Option<string>
    requires Handle(r).Some?
  {
    var h := Handle(r).value;
    if h.status == Ok && h.cfg.credential == SasTokenExt then None else r.refreshToken
  }

  lemma CheckReacts(c: Receiver, env: DoWorkEnv)
    requires c.state != Inactive && c.receiveCb
    ensures var timedOut :=
        c.waitMs > 0 && env.now.Some? && !c.wasMessageReceived && c.waitMs <= Sub64(env.now.value, c.lastActivity);
      SameApi(CheckActivity(c, env.now, env.onTimeout), React(c, if timedOut then env.onTimeout else []))
  {
    ReactsInOrder(c, [], []);
    if env.now.Some? {
      var l := c.(log := c.log + [TimeoutReported(c.session, env.now.value, c.waitMs)]);
      ReactsAlike(l, c, env.onTimeout);
    }
  }

  lemma ReceivePassReacts(r: Receiver, a: Receiver, env: DoWorkEnv)
    requires Checks(r, env) && a.state == Active && a.receiveCb && a.errorCb
    requires a.stack.h.endpoint.Some? && a.amqp == Initialized
    requires a.waitMs == r.waitMs && a.lastActivity == Since(r, env) && a.wasMessageReceived == r.wasMessageReceived
    ensures SameApi(ReceivePass(a, env), React(a, CallsMade(r, env)))
  {
    var c := ConnectionWork(a, env.items);
    var m := a.(stack := a.stack.(lib := a.stack.lib.Call(a.stack.h.connection)));
    ConnectionWorkExactly(a, env.items);
    DeliverAllReacts(m, env.items);
    ReactsAlike(m, a, CallsIn(env.items));
    CheckReacts(c, env);
    var last := if TimesOut(r, env) then env.onTimeout else [];
    ReactsAlike(c, React(a, CallsIn(env.items)), last);
    ReactsInOrder(a, CallsIn(env.items), last);
  }

  lemma WaitsReacts(r: Receiver, a: Receiver, env: DoWorkEnv)
    requires CourseOf(r, env) == Waits && a.state == Active && a.receiveCb && a.errorCb && a.amqp != Uninitialized
    requires a.stack.h.endpoint.Some? <==> UpState(r.amqp) == Initialized
    ensures SameApi(ConnectionWork(a, env.items), React(a, CallsMade(r, env)))
  {
    var m := a.(stack := a.stack.(lib := a.stack.lib.Call(a.stack.h.connection)));
    ReactsInOrder(a, [], []);
    if a.stack.h.endpoint.Some? {
      DeliverAllReacts(m, env.items);
      ReactsAlike(m, a, CallsIn(env.items));
      assert CallsMade(r, env) == CallsIn(env.items);
    } else {
      NothingReacts(m, env.items);
      assert CallsMade(r, env) == [];
    }
  }

  lemma {:induction false} NothingReacts(r: Receiver, items: seq<IoItem>)
    requires r.state != Inactive && r.stack.h.endpoint == None
    ensures SameApi(DeliverAll(r, items), r)
    decreases |items|
  {
    if items != [] {
      NothingReacts(Deliver(r, items[0]), items[1..]);
    }
  }

  /**
   The calls that the user's callbacks make during a pass that goes on take effect as if they were made after it, one
   after the other; the refresh token is used up before, if it was put.
   */
  lemma DoWorkReactsExactly(r: Receiver, env: DoWorkEnv)
    requires Inv(r) && AuthSettled(r) && EndpointInv(r) && r.state == Active && CourseOf(r, env) in {Waits, GoesOn}
    ensures SameApi(DoWork(r, env), React(r.(refreshToken := TokenAfter(r)), CallsMade(r, env)))
  {
    BegunFrame(r, env);
    BegunRefresh(r, env);
    var a, b := Begun(r, env), r.(refreshToken := TokenAfter(r));
    ReactsAlike(a, b, CallsMade(r, env));
    if CourseOf(r, env) == Waits {
      DoWorkWaits(r, env);
      WaitsReacts(r, a, env);
    } else {
      DoWorkGoesOn(r, env);
      if Checks(r, env) {
        ReceivePassReacts(r, a, env);
      } else {
        ReactsInOrder(a, [], []);
        assert CallsMade(r, env) == [];
      }
    }
  }

  lemma DoWorkWaits(r: Receiver, env: DoWorkEnv)
    requires AuthSettled(r) && EndpointInv(r) && r.state == Active && CourseOf(r, env) == Waits
    ensures DoWork(r, env) == ConnectionWork(Begun(r, env), env.items)
  {
    UpExactly(r, env);
    VerdictExactly(r, env);
  }

  lemma DoWorkGoesOn(r: Receiver, env: DoWorkEnv)
    requires AuthSettled(r) && EndpointInv(r) && r.state == Active && CourseOf(r, env) == GoesOn
    ensures DoWork(r, env) == if Checks(r, env) then ReceivePass(Begun(r, env), env) else Begun(r, env)
  {
    UpExactly(r, env);
    VerdictExactly(r, env);
    BegunFrame(r, env);
  }

  lemma BegunRefresh(r: Receiver, env: DoWorkEnv)
    requires r.state == Active && EndpointInv(r) && AuthSettled(r) && CourseOf(r, env) in {Waits, GoesOn}
    ensures Begun(r, env).refreshToken == TokenAfter(r)
  {
    UpExactly(r, env);
    var u := Up(r, env).0;
    AuthorizesExactly(u.stack, u.amqp, u.refreshToken, env.auth);
  }

  // ---------------------------------------------------------------- sessions begin and end

  /** A session begins exactly when both callbacks are there, none is running and nothing fails. */
  lemma ReceivesExactly(r: Receiver, c: ApiCall)
    requires c.Receive?
    ensures var (s, result) := Receiving(r, c);
      && (result == ReceiverOk <==>
            c.receiveCb && c.errorCb && r.state == Inactive && (c.waitMs == 0 || c.tick.Some?) && c.filterOk)
      && (result == ReceiverInvalidArg <==> !c.receiveCb || !c.errorCb)
      && (result == NotAllowed <==> c.receiveCb && c.errorCb && r.state != Inactive)
      && (result != ReceiverOk ==>
            && s.state == r.state && s.log == r.log && s.session == r.session
            && s.stack == r.stack && s.waitMs == r.waitMs)
      && (result == ReceiverOk ==> Started(r, c, s))
  {
  }

  /** The session's number, its start time in milliseconds as the filter has it, its wait time and activity clock. */
  predicate Started(r: Receiver, c: ApiCall, s: Receiver)
    requires c.Receive?
  {
    var start := c.startSec * 1000 % 0x1_0000_0000_0000_0000;
    && s.state == Active && s.session == r.session + 1 && s.receiveCb && s.errorCb && !s.endCb && !s.wasMessageReceived
    && s.filter == Some(start) && s.startTimestamp == start && s.waitMs == c.waitMs
    && s.stack == r.stack && s.amqp == r.amqp && s.ext == r.ext && s.refreshToken == r.refreshToken
    && (c.waitMs != 0 ==> c.tick.Some? && s.lastActivity == c.tick.value)
    && s.log == r.log + if c.waitMs != 0 && c.tick.Some? then [Marked(r.session + 1, c.tick.value)] else []
  }

  /** An active session is marked for its end, and the end callback noted; otherwise the call is refused. */
  lemma EndsExactly(r: Receiver, endCb: bool)
    ensures var (s, result) := Ending(r, endCb);
      && result == (if r.state == Active then ReceiverOk else NotAllowed)
      && (result == ReceiverOk ==>
            s.state == InactivePending && s.endCb == endCb && s.log == r.log && s.stack == r.stack)
      && (result != ReceiverOk ==> s == r)
  {
  }

  /** The next pass tears down, and tells the user if there is an end callback; what that calls comes after. */
  lemma FinishesExactly(r: Receiver, env: DoWorkEnv)
    requires Inv(r) && r.state == InactivePending
    ensures var t := DoWork(r, env);
      && t.stack == TornDown(r.stack) && t.amqp == Uninitialized && !t.endCb
      && (r.endCb ==> r.log + [Ended(r.session)] <= t.log)
      && (!r.endCb ==> t.log == r.log && t.state == Inactive)
      && (r.endCb ==>
            var d := TornDownReceiver(r);
            t == React(d.(log := d.log + [Ended(r.session)]), env.onEnd).(endCb := false))
      && (env.onEnd == [] ==>
            && t.log == (if r.endCb then r.log + [Ended(r.session)] else r.log) && t.state == Inactive
            && t.startTimestamp == t.lastActivity == t.waitMs == 0)
  {
    var d := TornDownReceiver(r);
    var e := d.(log := d.log + [Ended(d.session)]);
    ReactFrame(e, env.onEnd);
    ReactContinues(e, env.onEnd);
  }

  /** A refresh token is kept exactly for an active EXT receiver without one, if it parses and is for its URI. */
  lemma RefreshIsKeptExactly(r: Receiver, token: Option<string>)
    ensures var (s, result) := Refreshing(r, token);
      && (result == ReceiverOk <==>
            && token.Some? && r.ext.Some? && r.state == Active && r.refreshToken == None
            && SasToken.Parse(token.value).Some? && SasToken.Parse(token.value).value.uri == r.ext.value.uri)
      && (result == ReceiverInvalidArg <==> token == None)
      && s == (if result == ReceiverOk then r.(refreshToken := token) else r)
  {
  }

  // ---------------------------------------------------------------- the message receiver over every run

  lemma DoWorkKeepsEndpoint(r: Receiver, env: DoWorkEnv)
    requires Inv(r) && AuthSettled(r) && EndpointInv(r)
    ensures EndpointInv(DoWork(r, env))
  {
    if r.state == InactivePending {
      FinishesExactly(r, env);
    } else if r.state == Active {
      match CourseOf(r, env)
      case NoStack =>
        UpExactly(r, env);
      case NotAuthorized(_) =>
        NotAuthorizedExactly(r, env);
        DoWorkKeeps(r, env);
      case Waits => WorkKeepsEndpoint(r, env);
      case GoesOn => WorkKeepsEndpoint(r, env);
    }
  }

  lemma WorkKeepsEndpoint(r: Receiver, env: DoWorkEnv)
    requires Inv(r) && AuthSettled(r) && EndpointInv(r) && r.state == Active && CourseOf(r, env) in {Waits, GoesOn}
    ensures EndpointInv(DoWork(r, env))
  {
    UpExactly(r, env);
    VerdictExactly(r, env);
    BegunFrame(r, env);
    var a := Begun(r, env);
    ConnectionWorkExactly(a, env.items);
    CheckExactly(ConnectionWork(a, env.items), env.now, env.onTimeout);
  }

  /** Every reachable receiver satisfies what the results above ask of one. */
  lemma {:induction false} RunKeepsEndpoint(ext: Option<ExtConfig>, ops: seq<Op>)
    ensures var r := Run(NewReceiver(ext), ops); Inv(r) && AuthSettled(r) && EndpointInv(r)
  {
    RunKeeps(ext, ops);
    if ops != [] {
      var front := ops[..|ops| - 1];
      RunKeepsEndpoint(ext, front);
      var r := Run(NewReceiver(ext), front);
      match ops[|ops| - 1]
      case OpDoWork(env) => DoWorkKeepsEndpoint(r, env);
      case OpApi(call) => ApiFrame(r, call);
    }
  }
}
