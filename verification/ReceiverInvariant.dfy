/** What every run of the receiver keeps: the session invariant, callback order, inactivity timeouts, the token. */
module ReceiverInvariant {
  import opened Common
  import opened Events
  import opened EventHubAuth
  import opened TokenLifecycle
  import opened AmqpStack
  import opened ReceiverSpec

  /**
   INACTIVE means nothing is left of a session: no handles, no callbacks, no filter, no refresh token. The other
   states mean both callbacks are there. No NULL callback has been called.
   */
  ghost predicate SessionInv(r: Receiver) {
    && (r.state == Inactive ==>
          && r.amqp == Uninitialized && r.stack.h == NO_HANDLES && r.stack.auth == None
          && !r.receiveCb && !r.errorCb && r.filter == None && r.refreshToken == None
          && !r.wasMessageReceived && r.waitMs == 0)
    && (r.state != Inactive ==> r.receiveCb && r.errorCb && r.filter.Some?)
    && (forall i :: 0 <= i < |r.log| ==> !r.log[i].NullCalled?)
  }

  /** Sessions follow one another, and nothing of a session comes after its end. */
  ghost predicate SessionOrder(log: seq<Event>) {
    && (forall i, j :: 0 <= i < j < |log| ==> log[i].session <= log[j].session)
    && (forall i, j :: 0 <= i < j < |log| && log[i].Ended? ==> log[i].session < log[j].session)
  }

  ghost predicate OrderInv(r: Receiver) {
    && SessionOrder(r.log)
    && (forall i :: 0 <= i < |r.log| ==> r.log[i].session <= r.session)
    && (forall i :: 0 <= i < |r.log| && r.log[i].Ended? && r.log[i].session == r.session ==> r.state == Inactive)
  }

  // ---------------------------------------------------------------- inactivity

  /** The tick-counter reading an event stands for. */
  function Mark(e: Event): Option<uint64> {
    match e
    case Marked(_, now) => Some(now)
    case Accounted(_, now) => Some(now)
    case TimeoutReported(_, now, _) => Some(now)
    case _ => None
  }

  function LastMark(log: seq<Event>, session: nat): Option<uint64> {
    if log == [] then None
    else
      var e := log[|log| - 1];
      if e.session == session && Mark(e).Some? then Mark(e) else LastMark(log[..|log| - 1], session)
  }

  /** A message of the session came in and no later pass accounted for it or failed to. */
  predicate Unattended(log: seq<Event>, session: nat) {
    log != [] &&
    var e := log[|log| - 1];
    if e.session == session && e.Received? then true
    else if e.session == session && (e.Accounted? || e.TickFailed?) then false
    else Unattended(log[..|log| - 1], session)
  }

  /** Each timeout came at least the wait time after the session's last reading, with no message unattended. */
  predicate TimeoutsSpaced(log: seq<Event>) {
    forall j :: 0 <= j < |log| && log[j].TimeoutReported? ==>
      && log[j].wait > 0 && !Unattended(log[..j], log[j].session)
      && var last := LastMark(log[..j], log[j].session); last.Some? && Sub64(log[j].now, last.value) >= log[j].wait
  }

  ghost predicate ActivityInv(r: Receiver) {
    && TimeoutsSpaced(r.log)
    && (r.state != Inactive && r.waitMs > 0 ==>
          LastMark(r.log, r.session) == Some(r.lastActivity) && (Unattended(r.log, r.session) ==> r.wasMessageReceived))
  }

  ghost predicate Inv(r: Receiver) {
    SessionInv(r) && OrderInv(r) && ActivityInv(r)
  }

  // ---------------------------------------------------------------- the log grows by one

  lemma LogOne(log: seq<Event>, e: Event, session: nat)
    ensures LastMark(log + [e], session) ==
      if e.session == session && Mark(e).Some? then Mark(e) else LastMark(log, session)
    ensures Unattended(log + [e], session) ==
      if e.session == session && e.Received? then true
      else if e.session == session && (e.Accounted? || e.TickFailed?) then false
      else Unattended(log, session)
  {
    assert (log + [e])[..|log|] == log;
  }

  lemma SpacedOne(log: seq<Event>, e: Event)
    requires TimeoutsSpaced(log)
    requires e.TimeoutReported? ==>
      && e.wait > 0 && !Unattended(log, e.session)
      && LastMark(log, e.session).Some? && Sub64(e.now, LastMark(log, e.session).value) >= e.wait
    ensures TimeoutsSpaced(log + [e])
  {
    var l := log + [e];
    forall j | 0 <= j < |l| && l[j].TimeoutReported?
      ensures && l[j].wait > 0 && !Unattended(l[..j], l[j].session)
              && var last := LastMark(l[..j], l[j].session); last.Some? && Sub64(l[j].now, last.value) >= l[j].wait
    {
      assert l[..j] == log[..j];
      assert log[..|log|] == log;
    }
  }

  /** An event of the running session is logged. */
  lemma LogKeeps(r: Receiver, e: Event, s: Receiver)
    requires Inv(r) && r.state != Inactive && e.session == r.session && !e.Ended? && !e.NullCalled?
    requires s == r.(log := r.log + [e], wasMessageReceived := s.wasMessageReceived, lastActivity := s.lastActivity)
    requires e.TimeoutReported? ==>
      r.waitMs > 0 && e.wait == r.waitMs && Sub64(e.now, r.lastActivity) >= e.wait && !r.wasMessageReceived
    requires s.lastActivity == if Mark(e).Some? then Mark(e).value else r.lastActivity
    requires s.wasMessageReceived || e.Accounted? || e.TickFailed? || (!r.wasMessageReceived && !e.Received?)
    ensures Inv(s)
  {
    LogOne(r.log, e, r.session);
    SpacedOne(r.log, e);
  }

  // ---------------------------------------------------------------- API calls and reactions

  /** A session begins: its number is new, and its activity clock, if it has one, is set. */
  lemma BeginKeeps(r: Receiver, s: Receiver, now: uint64)
    requires Inv(r) && r.state == Inactive
    requires s.state == Active && s.receiveCb && s.errorCb && s.filter.Some? && s.session == r.session + 1
    requires if s.waitMs > 0 then s.lastActivity == now && s.log == r.log + [Marked(s.session, now)] else s.log == r.log
    ensures Inv(s)
  {
    var e := Marked(s.session, now);
    LogOne(r.log, e, s.session);
    SpacedOne(r.log, e);
    NothingYet(r.log, s.session);
  }

  lemma ReceivingKeeps(r: Receiver, c: ApiCall)
    requires Inv(r) && c.Receive?
    ensures Inv(Receiving(r, c).0)
  {
    var (s, result) := Receiving(r, c);
    if result == ReceiverOk {
      BeginKeeps(r, s, if c.tick.Some? then c.tick.value else 0);
    }
  }

  lemma {:induction false} NothingYet(log: seq<Event>, session: nat)
    requires forall i :: 0 <= i < |log| ==> log[i].session < session
    ensures !Unattended(log, session) && LastMark(log, session) == None
  {
    if log != [] {
      NothingYet(log[..|log| - 1], session);
    }
  }

  /** Of a running session the API only changes the state, the end callback and the refresh token. */
  predicate Framed(r: Receiver, s: Receiver) {
    s.state != Inactive && s == r.(state := s.state, endCb := s.endCb, refreshToken := s.refreshToken)
  }

  lemma ApiFrame(r: Receiver, c: ApiCall)
    ensures var s := Api(r, c).0;
      s.stack == r.stack && s.amqp == r.amqp && s.ext == r.ext && (r.state != Inactive ==> Framed(r, s))
  {
    if c.Receive? {
      ReceivingFrame(r, c);
    }
  }

  lemma ReceivingFrame(r: Receiver, c: ApiCall)
    requires c.Receive?
    ensures var s := Receiving(r, c).0;
      s.stack == r.stack && s.amqp == r.amqp && s.ext == r.ext && (r.state != Inactive ==> s == r)
  {
  }

  lemma FramedKeeps(r: Receiver, s: Receiver)
    requires Inv(r) && r.state != Inactive && Framed(r, s)
    ensures Inv(s)
  {
  }

  lemma ApiKeeps(r: Receiver, c: ApiCall)
    requires Inv(r)
    ensures Inv(Api(r, c).0)
  {
    ApiFrame(r, c);
    if r.state != Inactive {
      FramedKeeps(r, Api(r, c).0);
    } else if c.Receive? {
      ReceivingKeeps(r, c);
    }
  }

  lemma {:induction false} ReactFrame(r: Receiver, calls: seq<ApiCall>)
    ensures var s := React(r, calls);
      s.stack == r.stack && s.amqp == r.amqp && s.ext == r.ext && (r.state != Inactive ==> Framed(r, s))
    decreases |calls|
  {
    if calls != [] {
      ApiFrame(r, calls[0]);
      ReactFrame(Api(r, calls[0]).0, calls[1..]);
    }
  }

  lemma {:induction false} ReactKeeps(r: Receiver, calls: seq<ApiCall>)
    requires Inv(r)
    ensures var s := React(r, calls);
      Inv(s) && s.stack == r.stack && s.amqp == r.amqp && s.ext == r.ext && (r.state != Inactive ==> Framed(r, s))
    decreases |calls|
  {
    ReactFrame(r, calls);
    if calls != [] {
      ApiKeeps(r, calls[0]);
      ReactKeeps(Api(r, calls[0]).0, calls[1..]);
    }
  }

  // ---------------------------------------------------------------- the pieces of DoWork

  /** What every step inside a session keeps besides the invariant. */
  ghost predicate SameSession(r: Receiver, s: Receiver) {
    s.state != Inactive && s.session == r.session && s.waitMs == r.waitMs && s.ext == r.ext
  }

  lemma OnErrorKeeps(r: Receiver, code: ErrorCode, guarded: bool, react: seq<ApiCall>)
    requires Inv(r) && r.state != Inactive
    ensures var s := OnError(r, code, guarded, react);
      Inv(s) && SameSession(r, s) && s.stack == r.stack && s.amqp == r.amqp
  {
    var l := r.(log := r.log + [Errored(r.session, code)]);
    LogKeeps(r, Errored(r.session, code), l);
    ReactKeeps(l, react);
  }

  lemma OnMessageKeeps(r: Receiver, event: EventData, react: seq<ApiCall>)
    requires Inv(r) && r.state != Inactive
    ensures var s := OnMessage(r, event, react); Inv(s) && SameSession(r, s) && s.stack == r.stack && s.amqp == r.amqp
  {
    var l := r.(log := r.log + [Received(r.session, event)], wasMessageReceived := true);
    LogKeeps(r, Received(r.session, event), l);
    ReactKeeps(l, react);
  }

  ghost predicate AuthSettled(r: Receiver) {
    r.stack.auth.Some? ==> Settled(r.stack.auth.value)
  }

  lemma DeliverKeeps(r: Receiver, item: IoItem)
    requires Inv(r) && r.state != Inactive && AuthSettled(r)
    ensures var s := Deliver(r, item);
      Inv(s) && SameSession(r, s) && AuthSettled(s) && s.amqp == r.amqp && s.stack == r.stack.(auth := s.stack.auth)
      && (s.stack.auth.Some? <==> r.stack.auth.Some?)
  {
    match item
    case MessageIn(_, event, react) => OnMessageKeeps(r, event, react);
    case LinkError(react) => OnErrorKeeps(r, ConnectionRuntimeError, true, react);
    case PutAnswer(ok) =>
      if r.stack.auth.Some? && r.stack.auth.value.puts != [] {
        AnswerSettles(r.stack.auth.value, ok);
      }
  }

  lemma {:induction false} DeliverAllKeeps(r: Receiver, items: seq<IoItem>)
    requires Inv(r) && r.state != Inactive && AuthSettled(r)
    ensures var s := DeliverAll(r, items);
      Inv(s) && SameSession(r, s) && AuthSettled(s) && s.amqp == r.amqp && s.stack == r.stack.(auth := s.stack.auth)
      && (s.stack.auth.Some? <==> r.stack.auth.Some?)
    decreases |items|
  {
    if items != [] {
      DeliverKeeps(r, items[0]);
      DeliverAllKeeps(Deliver(r, items[0]), items[1..]);
    }
  }

  lemma ConnectionWorkKeeps(r: Receiver, items: seq<IoItem>)
    requires Inv(r) && r.state != Inactive && AuthSettled(r)
    ensures var s := ConnectionWork(r, items);
      Inv(s) && SameSession(r, s) && AuthSettled(s) && s.amqp == r.amqp && s.stack.h == r.stack.h
      && (s.stack.auth.Some? <==> r.stack.auth.Some?)
      && s.stack.lib == if r.amqp == Uninitialized then r.stack.lib else r.stack.lib.Call(r.stack.h.connection)
  {
    DeliverAllKeeps(r.(stack := r.stack.(lib := r.stack.lib.Call(r.stack.h.connection))), items);
  }

  lemma CheckActivityKeeps(r: Receiver, now: Option<uint64>, onTimeout: seq<ApiCall>)
    requires Inv(r) && r.state != Inactive
    ensures var s := CheckActivity(r, now, onTimeout).(wasMessageReceived := false);
      Inv(s) && SameSession(r, s) && s.stack == r.stack && s.amqp == r.amqp
  {
    if r.waitMs > 0 {
      if now == None {
        LogKeeps(r, TickFailed(r.session), r.(log := r.log + [TickFailed(r.session)], wasMessageReceived := false));
      } else if r.wasMessageReceived {
        var e := Accounted(r.session, now.value);
        LogKeeps(r, e, r.(log := r.log + [e], wasMessageReceived := false, lastActivity := now.value));
      } else if Sub64(now.value, r.lastActivity) >= r.waitMs {
        var e := TimeoutReported(r.session, now.value, r.waitMs);
        var l := r.(log := r.log + [e], lastActivity := now.value);
        LogKeeps(r, e, l);
        ReactFrame(r.(log := r.log + [e]), onTimeout);
        var s := React(r.(log := r.log + [e]), onTimeout);
        FramedKeeps(l, s.(lastActivity := now.value, wasMessageReceived := false));
      }
    }
  }

  lemma TornDownKeeps(r: Receiver)
    requires Inv(r)
    ensures Inv(TornDownReceiver(r)) && AuthSettled(TornDownReceiver(r))
  {
  }

  lemma FinishedKeeps(r: Receiver, onEnd: seq<ApiCall>)
    requires Inv(r) && r.state != Inactive
    ensures var s := Finished(r, onEnd); Inv(s) && AuthSettled(s) && s.ext == r.ext
  {
    TornDownKeeps(r);
    var t := TornDownReceiver(r);
    if t.endCb {
      var l := t.(log := t.log + [Ended(t.session)]);
      SpacedOne(t.log, Ended(t.session));
      ReactKeeps(l, onEnd);
    }
  }

  /** Bring-up: the session goes on, and the CBS handle is settled or new. */
  lemma UpKeeps(r: Receiver, env: DoWorkEnv)
    requires Inv(r) && r.state == Active && AuthSettled(r)
    ensures var (u, ok) := Up(r, env);
      && Inv(u) && SameSession(r, u) && u.state == Active
      && (u.stack.auth.Some? ==> Settled(u.stack.auth.value) || (ok && JustCreated(u.stack.auth.value)))
  {
    if r.amqp == Uninitialized {
      var cfg := ClientConfig(r.ext, r.waitMs / 1000);
      CommonAuth(Stack(NO_HANDLES, None, r.stack.lib), cfg, env.common.(hostName := true));
    } else if r.amqp == PendingEndpointCreate {
      EndpointUpKeeps(r, env.endpoint, env.endpointTick);
    }
  }

  /** The activity clock of the running session is set. */
  lemma MarkKeeps(r: Receiver, now: uint64)
    requires Inv(r) && r.state != Inactive
    ensures Inv(r.(log := r.log + [Marked(r.session, now)], lastActivity := now))
  {
    LogKeeps(r, Marked(r.session, now), r.(log := r.log + [Marked(r.session, now)], lastActivity := now));
  }

  /** A running session goes on whatever becomes of its stack. */
  lemma StackKeeps(r: Receiver, t: Stack, amqp: AmqpState)
    requires Inv(r) && r.state != Inactive
    ensures Inv(r.(stack := t, amqp := amqp))
  {
  }

  lemma EndpointUpKeeps(r: Receiver, env: EndpointEnv, tick: Option<uint64>)
    requires Inv(r) && r.state == Active && AuthSettled(r)
    ensures var (u, ok) := EndpointUp(r, env, tick); Inv(u) && SameSession(r, u) && u.state == Active && AuthSettled(u)
  {
    var (t, ok) := EndpointBuilt(r.stack, env);
    EndpointAuth(r.stack, env);
    if !ok {
      StackKeeps(r, TornDown(t), r.amqp);
    } else if r.waitMs > 0 && tick == None {
      StackKeeps(r, t, r.amqp);
    } else if r.waitMs > 0 {
      MarkKeeps(r, tick.value);
      StackKeeps(r.(log := r.log + [Marked(r.session, tick.value)], lastActivity := tick.value), t, Initialized);
    } else {
      StackKeeps(r, t, Initialized);
    }
  }

  lemma EndpointAuth(s: Stack, env: EndpointEnv)
    ensures EndpointBuilt(s, env).0.auth == s.auth
  {
  }

  lemma CommonAuth(s: Stack, cfg: AuthConfig, env: CommonEnv)
    requires s.auth == None
    ensures var (t, ok) := CommonBuilt(s, cfg, env); t.auth == if ok then Some(Created(cfg)) else None
  {
  }

  lemma AuthorizedWorkKeeps(u: Receiver, env: DoWorkEnv)
    requires Inv(u) && u.state == Active
    requires u.stack.auth.Some? ==> Settled(u.stack.auth.value) || JustCreated(u.stack.auth.value)
    ensures var s := AuthorizedWork(u, env); Inv(s) && AuthSettled(s) && s.ext == u.ext
  {
    var (a, verdict) := AuthorizeReceiver(u, env.auth);
    if u.stack.auth.Some? {
      PassSettles(u.stack.auth.value, u.refreshToken, env.auth);
    }
    match verdict
    case AuthFailed => OnErrorKeeps(a, AuthFailure, false, env.onError);
    case AuthTimedOut => OnErrorKeeps(a, AuthTimeout, false, env.onError);
    case AuthWaiting => ConnectionWorkKeeps(a, env.items);
    case AuthReady =>
      if a.amqp == Initialized {
        ReceivePassKeeps(a, env);
      }
  }

  lemma ReceivePassKeeps(a: Receiver, env: DoWorkEnv)
    requires Inv(a) && a.state != Inactive && AuthSettled(a)
    ensures var s := ReceivePass(a, env); Inv(s) && AuthSettled(s) && s.ext == a.ext
  {
    ConnectionWorkKeeps(a, env.items);
    CheckActivityKeeps(ConnectionWork(a, env.items), env.now, env.onTimeout);
  }

  lemma DoWorkKeeps(r: Receiver, env: DoWorkEnv)
    requires Inv(r) && AuthSettled(r)
    ensures var s := DoWork(r, env); Inv(s) && AuthSettled(s) && s.ext == r.ext
  {
    if r.state == InactivePending {
      FinishedKeeps(r, env.onEnd);
    } else if r.state == Active {
      UpKeeps(r, env);
      var (u, ok) := Up(r, env);
      if ok {
        AuthorizedWorkKeeps(u, env);
      }
    }
  }

  // ---------------------------------------------------------------- what a pass logs

  /** `s` goes on with the session of `r`, and what it logged meanwhile belongs to that session and does not end it. */
  predicate Continues(r: Receiver, s: Receiver) {
    && r.log <= s.log && s.session == r.session && s.state != Inactive
    && forall i :: |r.log| <= i < |s.log| ==> s.log[i].session == r.session && !s.log[i].Ended?
  }

  lemma ApiGrows(r: Receiver, c: ApiCall)
    ensures r.log <= Api(r, c).0.log
  {
  }

  lemma {:induction false} ReactContinues(r: Receiver, calls: seq<ApiCall>)
    ensures r.log <= React(r, calls).log
    ensures r.state != Inactive ==> React(r, calls).log == r.log && Continues(r, React(r, calls))
    decreases |calls|
  {
    ReactFrame(r, calls);
    if calls != [] {
      ApiGrows(r, calls[0]);
      ReactContinues(Api(r, calls[0]).0, calls[1..]);
    }
  }

  lemma DeliverContinues(r: Receiver, item: IoItem)
    requires r.state != Inactive
    ensures Continues(r, Deliver(r, item))
  {
    match item
    case MessageIn(_, event, react) =>
      ReactContinues(r.(wasMessageReceived := true, log := r.log + [Received(r.session, event)]), react);
    case LinkError(react) => ReactContinues(r.(log := r.log + [Errored(r.session, ConnectionRuntimeError)]), react);
    case PutAnswer(_) =>
  }

  lemma {:induction false} DeliverAllContinues(r: Receiver, items: seq<IoItem>)
    requires r.state != Inactive
    ensures Continues(r, DeliverAll(r, items))
    decreases |items|
  {
    if items != [] {
      DeliverContinues(r, items[0]);
      DeliverAllContinues(Deliver(r, items[0]), items[1..]);
    }
  }

  lemma OnErrorContinues(r: Receiver, code: ErrorCode, react: seq<ApiCall>)
    requires r.state != Inactive
    ensures Continues(r, OnError(r, code, false, react))
  {
    ReactContinues(r.(log := r.log + [Errored(r.session, code)]), react);
  }

  lemma ReceivePassContinues(a: Receiver, env: DoWorkEnv)
    requires a.state != Inactive
    ensures Continues(a, ConnectionWork(a, env.items)) && Continues(a, ReceivePass(a, env))
  {
    DeliverAllContinues(a.(stack := a.stack.(lib := a.stack.lib.Call(a.stack.h.connection))), env.items);
    CheckActivityContinues(ConnectionWork(a, env.items), env.now, env.onTimeout);
  }

  lemma CheckActivityContinues(r: Receiver, now: Option<uint64>, onTimeout: seq<ApiCall>)
    requires r.state != Inactive
    ensures Continues(r, CheckActivity(r, now, onTimeout))
  {
    ReactContinues(r.(log := r.log + [TimeoutReported(r.session, Reading(now), r.waitMs)]), onTimeout);
  }

  lemma AuthorizedWorkLogs(u: Receiver, env: DoWorkEnv)
    requires u.state != Inactive
    ensures Continues(u, AuthorizedWork(u, env).(state := u.state))
  {
    var (a, verdict) := AuthorizeReceiver(u, env.auth);
    match verdict
    case AuthFailed => OnErrorContinues(a, AuthFailure, env.onError);
    case AuthTimedOut => OnErrorContinues(a, AuthTimeout, env.onError);
    case AuthWaiting => ReceivePassContinues(a, env);
    case AuthReady => ReceivePassContinues(a, env);
  }

  lemma UpLogs(r: Receiver, env: DoWorkEnv)
    requires r.state != Inactive
    ensures Continues(r, Up(r, env).0) && Up(r, env).0.state == r.state
  {
    CommonUpLogs(r, env.common);
    EndpointUpLogs(r, env.endpoint, env.endpointTick);
  }

  lemma CommonUpLogs(r: Receiver, env: CommonEnv)
    ensures var u := CommonUp(r, env).0; u.log == r.log && u.state == r.state && u.session == r.session
  {
  }

  lemma EndpointUpLogs(r: Receiver, env: EndpointEnv, tick: Option<uint64>)
    requires r.state != Inactive
    ensures var u := EndpointUp(r, env, tick).0; Continues(r, u) && u.state == r.state
  {
  }

  lemma FinishedLogs(r: Receiver, onEnd: seq<ApiCall>)
    ensures r.log <= Finished(r, onEnd).log
    ensures onEnd == [] ==>
      Finished(r, onEnd) ==
        TornDownReceiver(r).(endCb := false, log := if r.endCb then r.log + [Ended(r.session)] else r.log)
  {
    var t := TornDownReceiver(r);
    ReactContinues(t.(log := t.log + [Ended(t.session)]), onEnd);
  }

  /** A pass of an active receiver logs events of its session; one that finishes a session logs its end. */
  lemma DoWorkLogs(r: Receiver, env: DoWorkEnv)
    ensures r.log <= DoWork(r, env).log
    ensures r.state == Active ==> Continues(r, DoWork(r, env).(state := Active))
  {
    if r.state == Active {
      UpLogs(r, env);
      AuthorizedWorkLogs(Up(r, env).0, env);
    } else if r.state == InactivePending {
      FinishedLogs(r, env.onEnd);
    }
  }

  // ---------------------------------------------------------------- runs

  datatype Op = OpDoWork(env: DoWorkEnv) | OpApi(call: ApiCall)

  function Step(r: Receiver, op: Op): Receiver {
    match op
    case OpDoWork(env) => DoWork(r, env)
    case OpApi(call) => Api(r, call).0
  }

  function Run(r: Receiver, ops: seq<Op>): Receiver {
    if ops == [] then r else Step(Run(r, ops[..|ops| - 1]), ops[|ops| - 1])
  }

  lemma {:induction false} RunKeeps(ext: Option<ExtConfig>, ops: seq<Op>)
    ensures var r := Run(NewReceiver(ext), ops); Inv(r) && AuthSettled(r) && r.ext == ext
  {
    if ops != [] {
      RunKeeps(ext, ops[..|ops| - 1]);
      var r := Run(NewReceiver(ext), ops[..|ops| - 1]);
      match ops[|ops| - 1]
      case OpDoWork(env) => DoWorkKeeps(r, env);
      case OpApi(call) => ApiKeeps(r, call);
    }
  }
}
