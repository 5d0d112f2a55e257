/**
 The sender engine of eventhubclient_ll.c on values: the outgoing queue, the AMQP bring-up and tear-down
 machine, and the token lifecycle, composed by DoWork.
 */
module SenderSpec {
  import opened Common
  import opened Events
  import opened EventHubAuth
  import opened TokenLifecycle
  import opened AmqpStack
  import opened SendQueue

  const INT_MAX: uint64 := 0x7FFF_FFFF

  datatype SenderState = SenderIdle | SenderOpening | SenderOpen | SenderClosing | SenderError

  datatype FailureCode = SasTokenAuthFailure | SasTokenAuthTimeout | SocketSendFailure | AmqpInitFailure

  datatype Result = Done | InvalidArgument | Failed

  /**
   EVENTHUBCLIENT_LL. `ext` is `None` for the AUTO credential. `reported` holds the codes passed to the
   error callback, `errorCb` says whether one is registered.
   */
  datatype Sender = Sender(
    queue: Queue, amqp: AmqpState, stack: Stack, senderState: SenderState, msgTimeout: uint64,
    ext: Option<ExtConfig>, refreshToken: Option<string>, errorCb: bool, reported: seq<FailureCode>)

  function NewSender(ext: Option<ExtConfig>): Sender {
    var stack := Stack(NO_HANDLES, None, Library(true, [], 0));
    Sender(EMPTY_QUEUE, Uninitialized, stack, SenderIdle, 0, ext, None, false, [])
  }

  /** A state change the message sender reports: new state, previous state. */
  type StateChange = (SenderState, SenderState)

  /** What connection_dowork delivers: answers to sends, the answer to the put, state changes. */
  datatype IoEnv = IoEnv(answers: seq<(nat, bool)>, put: Option<bool>, changes: seq<StateChange>)

  datatype DoWorkEnv = DoWorkEnv(
    common: CommonEnv, endpoint: EndpointEnv, auth: AuthEnv,
    openOk: bool, openChanges: seq<StateChange>, entry: nat -> EntryEnv, io: IoEnv,
    teardown: seq<(nat, bool)>)

  // ---------------------------------------------------------------- the pieces of DoWork

  /** The configuration create_sas_token passes to EventHubAuthCBS_Create. */
  function AuthConfigOf(s: Sender): AuthConfig {
    ClientConfig(s.ext, if s.msgTimeout < INT_MAX then s.msgTimeout else INT_MAX)
  }

  function Report(s: Sender, code: FailureCode): Sender {
    if s.errorCb then s.(reported := s.reported + [code]) else s
  }

  /** destroy_uamqp_stack. Destroying a live message sender may answer sends; afterwards none is answered. */
  function Down(s: Sender, answers: seq<(nat, bool)>): Sender {
    s.(queue := if s.stack.h.endpoint.Some? then Abandon(s.queue, answers) else s.queue,
       stack := TornDown(s.stack), refreshToken := None, senderState := SenderIdle, amqp := Uninitialized)
  }

  /** initialize_uamqp_stack, up to its tear-down after a failure */
  function Raised(s: Sender, common: CommonEnv, endpoint: EndpointEnv): (Sender, bool) {
    if s.amqp == Uninitialized then RaisedCommon(s, common)
    else if s.amqp == PendingEndpointCreate then RaisedEndpoint(s, endpoint)
    else (s, true)
  }

  function RaisedCommon(s: Sender, env: CommonEnv): (Sender, bool) {
    var (t, ok) := CommonBuilt(s.stack, AuthConfigOf(s), env);
    (s.(stack := t, senderState := SenderIdle, amqp := if ok then PendingAuthorization else s.amqp), ok)
  }

  /** messagesender_open is not part of the construction: DoWork calls it. */
  function RaisedEndpoint(s: Sender, env: EndpointEnv): (Sender, bool) {
    var (t, ok) := EndpointBuilt(s.stack, env.(open := true));
    (s.(stack := t, amqp := if ok then Initialized else s.amqp), ok)
  }

  function Up(s: Sender, env: DoWorkEnv): (Sender, bool) {
    var (r, ok) := Raised(s, env.common, env.endpoint);
    if ok then (r, true) else (Down(r, env.teardown), false)
  }

  /** on_message_sender_state_changed */
  function StateChanged(s: Sender, c: StateChange): Sender {
    var r := s.(senderState := c.0);
    if c.0 != c.1 && c.0 == SenderError then Report(r, SocketSendFailure) else r
  }

  function StatesChanged(s: Sender, cs: seq<StateChange>): Sender {
    if cs == [] then s else StateChanged(StatesChanged(s, cs[..|cs| - 1]), cs[|cs| - 1])
  }

  /** connection_dowork */
  function ConnectionWork(s: Sender, io: IoEnv): Sender {
    StatesChanged(Answered(s, io), io.changes)
  }

  function Answered(s: Sender, io: IoEnv): Sender {
    var stack := s.stack.(lib := s.stack.lib.Call(s.stack.h.connection));
    s.(stack := if io.put.Some? then PutAnswered(stack, io.put.value) else stack,
       queue := CompleteAll(s.queue, io.answers))
  }

  /** handle_sas_token_auth: the state, how the pass ends, and the reading the token was checked at. */
  function AuthorizeSender(s: Sender, env: AuthEnv): (Sender, Verdict, uint64) {
    var r := Authorize(s.stack, s.amqp, s.refreshToken, env);
    (s.(stack := r.stack, amqp := r.amqp, refreshToken := r.refreshToken), r.verdict, r.checkedAt)
  }

  /** The sending branch of DoWork. */
  function SendPass(s: Sender, checkedAt: uint64, env: DoWorkEnv): Sender {
    if s.senderState != SenderIdle then ConnectionWork(Passed(s, checkedAt, env.entry), env.io)
    else
      var r := StatesChanged(OpenCalled(s), env.openChanges);
      if env.openOk then ConnectionWork(Passed(r, checkedAt, env.entry), env.io) else r
  }

  /** messagesender_open */
  function OpenCalled(s: Sender): Sender {
    s.(stack := s.stack.(lib := s.stack.lib.Call(s.stack.h.endpoint)))
  }

  /** What a hand-over relies on in state `s`. */
  function StampOf(s: Sender, checkedAt: uint64): Stamp {
    Stamp(s.stack.h.endpoint, if s.stack.auth.Some? then s.stack.auth.value.installed else None, checkedAt)
  }

  /** The loop over the outgoing queue. */
  function Passed(s: Sender, checkedAt: uint64, entry: nat -> EntryEnv): Sender {
    s.(queue := Walk(s.queue, 0, s.msgTimeout, StampOf(s, checkedAt), entry))
  }

  /** EventHubClient_LL_DoWork */
  function DoWork(s: Sender, env: DoWorkEnv): Sender {
    var (u, ok) := Up(s, env);
    if !ok then Report(u, AmqpInitFailure)
    else if u.senderState == SenderError then Down(u, env.teardown)
    else AuthorizedWork(u, env)
  }

  /** The rest of DoWork, once the stack is up. */
  function AuthorizedWork(u: Sender, env: DoWorkEnv): Sender {
    var (a, verdict, checkedAt) := AuthorizeSender(u, env.auth);
    match verdict
    case AuthFailed => Down(Report(a, SasTokenAuthFailure), env.teardown)
    case AuthTimedOut => Down(Report(a, SasTokenAuthTimeout), env.teardown)
    case AuthWaiting => ConnectionWork(a, env.io)
    case AuthReady => if a.amqp == Initialized then SendPass(a, checkedAt, env) else a
  }

  // ---------------------------------------------------------------- the other operations

  /** EventHubClient_LL_RefreshSASTokenAsync */
  function RefreshAsync(s: Sender, token: Option<string>): (Sender, Result) {
    if token == None then (s, InvalidArgument)
    else if s.ext == None || s.amqp != Initialized || s.refreshToken.Some? then (s, Failed)
    else
      var p := SasToken.Parse(token.value);
      if p == None || p.value.uri != s.ext.value.uri then (s, Failed)
      else (s.(refreshToken := token), Done)
  }

  /** Whether the two allocations of SendAsync succeed, the clone, and the tick counter's reading. */
  datatype SendEnv = SendEnv(allocOk: bool, cloneOk: bool, now: uint64)

  /** EventHubClient_LL_SendAsync */
  function SendAsync(s: Sender, event: Option<EventData>, callback: bool, context: bool, env: SendEnv)
    : (Sender, Result)
  {
    if event == None || (!callback && context) then (s, InvalidArgument)
    else if !env.allocOk || !env.cloneOk then (s, Failed)
    else (s.(queue := Accept(s.queue, [event.value], callback, env.now)), Done)
  }

  /** All events are there and their partition keys are equal, or all absent. */
  predicate OneKey(events: seq<Option<EventData>>) {
    && (forall i :: 0 <= i < |events| ==> events[i].Some?)
    && (forall i :: 0 <= i < |events| ==> events[i].value.partitionKey == events[0].value.partitionKey)
  }

  function Values(events: seq<Option<EventData>>): seq<EventData>
    requires forall i :: 0 <= i < |events| ==> events[i].Some?
  {
    seq(|events|, i requires 0 <= i < |events| => events[i].value)
  }

  /** Allocation, the clone of each event, and the tick counter. */
  datatype BatchEnv = BatchEnv(allocOk: bool, cloneOk: nat -> bool, now: uint64)

  /** EventHubClient_LL_SendBatchAsync; `events` is `None` for a NULL list. */
  ghost function SendBatchAsync(
      s: Sender, events: Option<seq<Option<EventData>>>, callback: bool, context: bool, env: BatchEnv)
    : (Sender, Result)
  {
    if events == None || events.value == [] || (!callback && context) then (s, InvalidArgument)
    else if !OneKey(events.value) || !env.allocOk then (s, Failed)
    else if exists i :: 0 <= i < |events.value| && !env.cloneOk(i) then (s, Failed)
    else (s.(queue := Accept(s.queue, Values(events.value), callback, env.now)), Done)
  }

  /** EventHubClient_LL_Destroy */
  function Destroyed(s: Sender, answers: seq<(nat, bool)>): Sender {
    var d := Down(s, answers);
    d.(queue := DestroyAll(d.queue))
  }
}
