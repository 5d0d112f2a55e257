/**
 The receiver engine of eventhubreceiver_ll.c on values: the session machine, the AMQP machine below it, the
 token lifecycle, and the inactivity timeout.

 The user's callbacks may call back into the receiver: each callback comes with the API calls it makes. They do
 not call DoWork or Destroy.
 */
module ReceiverSpec {
  import opened Common
  import opened Events
  import opened EventHubAuth
  import opened TokenLifecycle
  import opened AmqpStack

  datatype SessionState = Inactive | InactivePending | Active

  datatype ErrorCode = AuthFailure | AuthTimeout | ConnectionRuntimeError

  datatype Result = ReceiverOk | ReceiverInvalidArg | NotAllowed | ReceiverError

  /**
   What happened, by session. The first four are calls of the user's callbacks; `NullCalled` is a call of a NULL
   one. The others record tick-counter readings: when the session's activity clock was set, when a pass accounted
   for received messages, and that a pass failed to read the counter.
   */
  datatype Event =
    | Received(session: nat, event: EventData)
    | TimeoutReported(session: nat, now: uint64, wait: uint32)
    | Errored(session: nat, code: ErrorCode)
    | Ended(session: nat)
    | NullCalled(session: nat)
    | Marked(session: nat, now: uint64)
    | Accounted(session: nat, now: uint64)
    | TickFailed(session: nat)

  /**
   EVENTHUBRECEIVER_LL_STRUCT. The callback fields say whether the callback is non-NULL; `filter` is the start
   time in the query filter. `session` counts the sessions begun so far.
   */
  datatype Receiver = Receiver(
    state: SessionState, amqp: AmqpState, stack: Stack,
    receiveCb: bool, errorCb: bool, endCb: bool, wasMessageReceived: bool,
    filter: Option<uint64>, startTimestamp: uint64, lastActivity: uint64, waitMs: uint32,
    ext: Option<ExtConfig>, refreshToken: Option<string>,
    session: nat, log: seq<Event>)

  function NewReceiver(ext: Option<ExtConfig>): Receiver {
    Receiver(Inactive, Uninitialized, Stack(NO_HANDLES, None, Library(true, [], 0)),
             false, false, false, false, None, 0, 0, 0, ext, None, 0, [])
  }

  /** An API call, with what it meets: the tick counter, and whether the filter string can be built. */
  datatype ApiCall =
    | Receive(receiveCb: bool, errorCb: bool, startSec: uint64, waitMs: uint32, tick: Option<uint64>, filterOk: bool)
    | ReceiveEnd(endCb: bool)
    | Refresh(token: Option<string>)

  /** What connection_dowork delivers. `react` holds the calls the user's callback makes. */
  datatype IoItem =
    | MessageIn(parsed: bool, event: EventData, react: seq<ApiCall>)
    | LinkError(react: seq<ApiCall>)
    | PutAnswer(ok: bool)

  datatype DoWorkEnv = DoWorkEnv(
    common: CommonEnv, endpoint: EndpointEnv, endpointTick: Option<uint64>, auth: AuthEnv,
    items: seq<IoItem>, now: Option<uint64>,
    onError: seq<ApiCall>, onTimeout: seq<ApiCall>, onEnd: seq<ApiCall>)

  // ---------------------------------------------------------------- the API

  /** EHR_LL_ReceiveAsyncCommon. The start time is scaled in 64-bit arithmetic. */
  function Receiving(r: Receiver, c: ApiCall): (Receiver, Result)
    requires c.Receive?
  {
    if !c.receiveCb || !c.errorCb then (r, ReceiverInvalidArg)
    else if r.state != Inactive then (r, NotAllowed)
    else if c.waitMs != 0 && c.tick == None then (r, ReceiverError)
    else
      var start := c.startSec * 1000 % 0x1_0000_0000_0000_0000;
      var ticked := if c.waitMs != 0 then r.(lastActivity := c.tick.value) else r;
      if !c.filterOk then (ticked.(filter := None), ReceiverError) else (Begun(ticked, start, c.waitMs), ReceiverOk)
  }

  /** A session begins with both callbacks; its activity clock has been set when it has a wait time. */
  function Begun(r: Receiver, start: uint64, waitMs: uint32): Receiver {
    WithCallbacks(r, true, true, false).(
      state := Active, filter := Some(start), startTimestamp := start, waitMs := waitMs, session := r.session + 1,
      log := if waitMs != 0 then r.log + [Marked(r.session + 1, r.lastActivity)] else r.log)
  }

  function WithCallbacks(r: Receiver, receiveCb: bool, errorCb: bool, endCb: bool): Receiver {
    r.(receiveCb := receiveCb, errorCb := errorCb, endCb := endCb, wasMessageReceived := false)
  }

  /** EventHubReceiver_LL_ReceiveEndAsync */
  function Ending(r: Receiver, endCb: bool): (Receiver, Result) {
    if r.state != Active then (r, NotAllowed) else (r.(state := InactivePending, endCb := endCb), ReceiverOk)
  }

  /** EventHubReceiver_LL_RefreshSASTokenAsync */
  function Refreshing(r: Receiver, token: Option<string>): (Receiver, Result) {
    if token == None then (r, ReceiverInvalidArg)
    else if r.ext == None || r.state != Active || r.refreshToken.Some? then (r, NotAllowed)
    else
      var p := SasToken.Parse(token.value);
      if p == None || p.value.uri != r.ext.value.uri then (r, ReceiverError)
      else (r.(refreshToken := token), ReceiverOk)
  }

  function Api(r: Receiver, c: ApiCall): (Receiver, Result) {
    match c
    case Receive(_, _, _, _, _, _) => Receiving(r, c)
    case ReceiveEnd(endCb) => Ending(r, endCb)
    case Refresh(token) => Refreshing(r, token)
  }

  /** The calls a user callback makes. */
  function React(r: Receiver, calls: seq<ApiCall>): Receiver
    decreases |calls|
  {
    if calls == [] then r else React(Api(r, calls[0]).0, calls[1..])
  }

  // ---------------------------------------------------------------- callbacks

  /** The receive callback is called without a test for NULL. */
  function OnMessage(r: Receiver, event: EventData, react: seq<ApiCall>): Receiver {
    var s := r.(wasMessageReceived := true);
    if !s.receiveCb then s.(log := s.log + [NullCalled(s.session)])
    else React(s.(log := s.log + [Received(s.session, event)]), react)
  }

  /** The error callback; `guarded`: the code tests it for NULL. */
  function OnError(r: Receiver, code: ErrorCode, guarded: bool, react: seq<ApiCall>): Receiver {
    if r.errorCb then React(r.(log := r.log + [Errored(r.session, code)]), react)
    else if guarded then r
    else r.(log := r.log + [NullCalled(r.session)])
  }

  // ---------------------------------------------------------------- the AMQP stack

  /** TeardownReceiverStack. The end callback stays. */
  function TornDownReceiver(r: Receiver): Receiver {
    r.(stack := TornDown(r.stack), amqp := Uninitialized, filter := None, receiveCb := false,
       wasMessageReceived := false, errorCb := false, startTimestamp := 0, waitMs := 0, lastActivity := 0,
       refreshToken := None, state := Inactive)
  }

  /** EventHubConnectionAMQP_ReceiverInitialize in the first state; the host name is always there. */
  function CommonUp(r: Receiver, env: CommonEnv): (Receiver, bool) {
    var cfg := ClientConfig(r.ext, r.waitMs / 1000);
    var (t, ok) := CommonBuilt(Stack(NO_HANDLES, None, r.stack.lib), cfg, env.(hostName := true));
    if ok then (r.(stack := t, amqp := PendingAuthorization), true) else (r.(stack := TornDown(t)), false)
  }

  /** The same once authorized. A failure leaves the AMQP state as it is. */
  function EndpointUp(r: Receiver, env: EndpointEnv, tick: Option<uint64>): (Receiver, bool) {
    var (t, ok) := EndpointBuilt(r.stack, env);
    if !ok then (r.(stack := TornDown(t)), false)
    else if r.waitMs == 0 then (r.(stack := t, amqp := Initialized), true)
    else if tick == None then (r.(stack := t), false)
    else
      var log := r.log + [Marked(r.session, tick.value)];
      (r.(stack := t, amqp := Initialized, lastActivity := tick.value, log := log), true)
  }

  function Up(r: Receiver, env: DoWorkEnv): (Receiver, bool) {
    if r.amqp == Uninitialized then CommonUp(r, env.common)
    else if r.amqp == PendingEndpointCreate then EndpointUp(r, env.endpoint, env.endpointTick)
    else (r, true)
  }

  /** One delivery of connection_dowork. Only a live message receiver delivers messages and link errors. */
  function Deliver(r: Receiver, item: IoItem): Receiver {
    match item
    case MessageIn(parsed, event, react) => if parsed && r.stack.h.endpoint.Some? then OnMessage(r, event, react) else r
    case LinkError(react) => if r.stack.h.endpoint.Some? then OnError(r, ConnectionRuntimeError, true, react) else r
    case PutAnswer(ok) => r.(stack := PutAnswered(r.stack, ok))
  }

  function DeliverAll(r: Receiver, items: seq<IoItem>): Receiver
    decreases |items|
  {
    if items == [] then r else DeliverAll(Deliver(r, items[0]), items[1..])
  }

  /** EventHubConnectionAMQP_ConnectionDoWork */
  function ConnectionWork(r: Receiver, items: seq<IoItem>): Receiver {
    if r.amqp == Uninitialized then r
    else DeliverAll(r.(stack := r.stack.(lib := r.stack.lib.Call(r.stack.h.connection))), items)
  }

  // ---------------------------------------------------------------- DoWork

  /** The inactivity check after connection_dowork, with the tick counter's reading. */
  function CheckActivity(r: Receiver, now: Option<uint64>, onTimeout: seq<ApiCall>): Receiver {
    if r.waitMs == 0 then r
    else if now == None then r.(log := r.log + [TickFailed(r.session)])
    else if r.wasMessageReceived then r.(lastActivity := now.value, log := r.log + [Accounted(r.session, now.value)])
    else if Sub64(now.value, r.lastActivity) < r.waitMs then r
    else
      var l := r.(log := r.log + [TimeoutReported(r.session, now.value, r.waitMs)]);
      var s := if r.receiveCb then React(l, onTimeout) else r;
      s.(lastActivity := now.value)
  }

  function ReceivePass(r: Receiver, env: DoWorkEnv): Receiver {
    CheckActivity(ConnectionWork(r, env.items), env.now, env.onTimeout).(wasMessageReceived := false)
  }

  /** The branch of DoWork that finishes a session. */
  function Finished(r: Receiver, onEnd: seq<ApiCall>): Receiver {
    var t := TornDownReceiver(r);
    if t.endCb then React(t.(log := t.log + [Ended(t.session)]), onEnd).(endCb := false) else t
  }

  function AuthorizeReceiver(r: Receiver, env: AuthEnv): (Receiver, Verdict) {
    var a := Authorize(r.stack, r.amqp, r.refreshToken, env);
    (r.(stack := a.stack, amqp := a.amqp, refreshToken := a.refreshToken), a.verdict)
  }

  function AuthorizedWork(u: Receiver, env: DoWorkEnv): Receiver {
    var (a, verdict) := AuthorizeReceiver(u, env.auth);
    match verdict
    case AuthFailed => TornDownReceiver(OnError(a, AuthFailure, false, env.onError))
    case AuthTimedOut => TornDownReceiver(OnError(a, AuthTimeout, false, env.onError))
    case AuthWaiting => ConnectionWork(a, env.items)
    case AuthReady => if a.amqp == Initialized then ReceivePass(a, env) else a
  }

  /** EventHubReceiver_LL_DoWork */
  function DoWork(r: Receiver, env: DoWorkEnv): Receiver {
    match r.state
    case Inactive => r
    case InactivePending => Finished(r, env.onEnd)
    case Active => var (u, ok) := Up(r, env); if ok then AuthorizedWork(u, env) else u
  }

  /** EventHubReceiver_LL_Destroy, as far as the state it releases. */
  function Destroyed(r: Receiver): Receiver {
    TornDownReceiver(r)
  }
}
