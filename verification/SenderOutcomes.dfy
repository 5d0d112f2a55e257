/**
 What a DoWork of the sender comes to, in terms of the state before it and of what it meets: the AMQP state it leaves,
 what it reports, and the fate of each queued entry.
 */
module SenderOutcomes {
  import opened Common
  import opened EventHubAuth
  import opened TokenLifecycle
  import opened TokenOutcomes
  import opened AmqpStack
  import opened SenderSpec
  import opened SenderInvariant
  import opened SenderLogs

  // ---------------------------------------------------------------- bring-up and authorization

  /** Bring-up succeeds, as far as this pass has to go. */
  predicate UpWhen(s: Sender, env: DoWorkEnv) {
    match s.amqp
    case Uninitialized => env.common == ALL_BUILT && (s.ext.Some? ==> s.ext.value.expiry != 0)
    case PendingEndpointCreate => EndpointOk(env.endpoint.(open := true))
    case _ => true
  }

  /** The handle that the pass works with; a new one waits as long as the message timeout, or INT_MAX. */
  function Handle(s: Sender): Option<Auth> {
    if s.amqp != Uninitialized then s.stack.auth
    else
      var timeout := if s.msgTimeout < 0x7FFF_FFFF then s.msgTimeout else 0x7FFF_FFFF;
      Some(Created(if s.ext.Some?
                   then AuthConfig(SasTokenExt, 0, 0, timeout, s.ext.value.token, s.ext.value.uri, s.ext.value.expiry)
                   else AuthConfig(SasTokenAuto, 3600, 2880, timeout, "", "", 0)))
  }

  lemma UpExactly(s: Sender, env: DoWorkEnv)
    requires SenderInv(s)
    ensures var (u, ok) := Up(s, env);
      && (ok <==> UpWhen(s, env))
      && (ok ==> u.amqp == UpState(s.amqp) && u.stack.auth == Handle(s)
                 && u == s.(amqp := u.amqp, stack := u.stack, senderState := u.senderState)
                 && u.senderState == if s.amqp == Uninitialized then SenderIdle else s.senderState)
  {
    if s.amqp == Uninitialized {
      RaisedCommonExactly(s, env.common);
    } else if s.amqp == PendingEndpointCreate {
      RaisedEndpointExactly(s, env.endpoint);
    }
  }

  lemma RaisedCommonExactly(s: Sender, env: CommonEnv)
    requires SenderInv(s) && s.amqp == Uninitialized
    ensures var (u, ok) := RaisedCommon(s, env);
      && (ok <==> env == ALL_BUILT && (s.ext.Some? ==> s.ext.value.expiry != 0))
      && (ok ==> u.stack.auth == Handle(s) && u.amqp == PendingAuthorization)
      && u == s.(amqp := u.amqp, stack := u.stack, senderState := SenderIdle)
  {
    CommonBuiltExactly(s.stack, AuthConfigOf(s), env);
    CommonBuiltAgrees(s.stack, AuthConfigOf(s), env);
  }

  lemma RaisedEndpointExactly(s: Sender, env: EndpointEnv)
    requires SenderInv(s) && s.amqp == PendingEndpointCreate
    ensures var (u, ok) := RaisedEndpoint(s, env);
      && (ok <==> EndpointOk(env.(open := true))) && u.stack.auth == s.stack.auth
      && u == s.(amqp := if ok then Initialized else s.amqp, stack := u.stack)
  {
    EndpointBuiltExactly(s.stack, env.(open := true));
    EndpointBuiltAgrees(s.stack, env.(open := true));
  }

  /** How a pass of DoWork goes: bring-up fails, the message sender has failed, or as authorization decides. */
  datatype Course = NoStack | SenderFailed | NotAuthorized(timedOut: bool) | Waits | GoesOn

  function CourseOf(s: Sender, env: DoWorkEnv): Course {
    if !UpWhen(s, env) then NoStack
    else if s.amqp != Uninitialized && s.senderState == SenderError then SenderFailed
    else if Handle(s) == None then NotAuthorized(false)
    else if ReadyWhen(Handle(s).value, s.refreshToken, env.auth) then GoesOn
    else if WaitsWhen(Handle(s).value, env.auth) then Waits
    else NotAuthorized(TimesOutWhen(Handle(s).value, env.auth))
  }

  /** The rest of the pass sends: the stack is complete, and the message sender open or opened. */
  predicate PassSends(s: Sender, env: DoWorkEnv) {
    && CourseOf(s, env) == GoesOn && UpState(s.amqp) == Initialized
    && (s.senderState != SenderIdle || env.openOk)
  }

  /** The pass ends in bring-up, or with the message sender found failed, exactly if its course says so. */
  lemma CourseExactly(s: Sender, env: DoWorkEnv)
    requires SenderInv(s)
    ensures var (u, ok) := Up(s, env);
      && (CourseOf(s, env) == NoStack <==> !ok)
      && (CourseOf(s, env) == SenderFailed <==> ok && u.senderState == SenderError)
  {
    UpExactly(s, env);
  }

  /** Otherwise it is authorization that decides. */
  lemma VerdictExactly(s: Sender, env: DoWorkEnv)
    requires SenderInv(s) && CourseOf(s, env) !in {NoStack, SenderFailed}
    ensures var verdict := AuthorizeSender(Up(s, env).0, env.auth).1;
      match CourseOf(s, env)
      case NotAuthorized(timedOut) => verdict == if timedOut then AuthTimedOut else AuthFailed
      case Waits => verdict == AuthWaiting
      case _ => verdict == AuthReady
  {
    UpExactly(s, env);
    UpKeeps(s, env);
    var u := Up(s, env).0;
    AuthorizesExactly(u.stack, u.amqp, u.refreshToken, env.auth);
  }

  lemma SendsExactly(s: Sender, env: DoWorkEnv)
    requires SenderInv(s)
    ensures PassRuns(s, env) <==> PassSends(s, env)
  {
    CourseExactly(s, env);
    if CourseOf(s, env) !in {NoStack, SenderFailed} {
      VerdictExactly(s, env);
      BegunFrame(s, env);
    }
  }

  /** The state once bring-up and authorization are over. */
  function Begun(s: Sender, env: DoWorkEnv): Sender {
    AuthorizeSender(Up(s, env).0, env.auth).0
  }

  /** Up to there only the stack, the states and the refresh token have changed. */
  lemma BegunFrame(s: Sender, env: DoWorkEnv)
    requires SenderInv(s) && UpWhen(s, env)
    ensures var a := Begun(s, env);
      && a == s.(amqp := a.amqp, stack := a.stack, senderState := a.senderState, refreshToken := a.refreshToken)
      && a.senderState == (if s.amqp == Uninitialized then SenderIdle else s.senderState)
      && (a.amqp == Initialized <==> UpState(s.amqp) == Initialized)
      && (CourseOf(s, env) in {Waits, GoesOn} ==> SenderInv(a))
  {
    UpExactly(s, env);
    UpKeeps(s, env);
    AuthorizeKeeps(Up(s, env).0, env.auth);
    if CourseOf(s, env) in {Waits, GoesOn} {
      VerdictExactly(s, env);
    }
  }

  /** What follows when the pass does not get through: the stack is torn down. */
  lemma DoWorkGivesUp(s: Sender, env: DoWorkEnv)
    requires SenderInv(s) && CourseOf(s, env) !in {Waits, GoesOn}
    ensures var course, t := CourseOf(s, env), DoWork(s, env);
      && (course == NoStack ==> t == Report(Up(s, env).0, AmqpInitFailure))
      && (course == SenderFailed ==> t == Down(Up(s, env).0, env.teardown))
      && (course.NotAuthorized? ==>
            var code := if course.timedOut then SasTokenAuthTimeout else SasTokenAuthFailure;
            t == Down(Report(Begun(s, env), code), env.teardown))
  {
    CourseExactly(s, env);
    if CourseOf(s, env).NotAuthorized? {
      VerdictExactly(s, env);
    }
  }

  /** What follows when it does: nothing yet, connection work, or the pass over the queue before it. */
  ghost predicate GoesOnFrom(s: Sender, a: Sender, t: Sender, env: DoWorkEnv) {
    if CourseOf(s, env) == Waits then t == ConnectionWork(a, env.io)
    else if UpState(s.amqp) != Initialized then t == a
    else exists checkedAt :: t == SendPass(a, checkedAt, env)
  }

  lemma DoWorkWaits(s: Sender, env: DoWorkEnv)
    requires SenderInv(s) && CourseOf(s, env) == Waits
    ensures DoWork(s, env) == ConnectionWork(Begun(s, env), env.io)
  {
    CourseExactly(s, env);
    VerdictExactly(s, env);
  }

  lemma DoWorkGoesOn(s: Sender, env: DoWorkEnv)
    requires SenderInv(s) && CourseOf(s, env) in {Waits, GoesOn}
    ensures GoesOnFrom(s, Begun(s, env), DoWork(s, env), env)
  {
    if CourseOf(s, env) == Waits {
      DoWorkWaits(s, env);
    } else {
      CourseExactly(s, env);
      VerdictExactly(s, env);
      BegunFrame(s, env);
      var (a, verdict, checkedAt) := AuthorizeSender(Up(s, env).0, env.auth);
      if UpState(s.amqp) == Initialized {
        assert DoWork(s, env) == SendPass(a, checkedAt, env);
      }
    }
  }

  // ---------------------------------------------------------------- what is reported to the error callback

  /** The failures among the state changes that the message sender reports. */
  function SendFailures(cs: seq<StateChange>): seq<FailureCode> {
    if cs == [] then []
    else
      var c := cs[|cs| - 1];
      SendFailures(cs[..|cs| - 1]) + if c.0 == SenderError && c.1 != SenderError then [SocketSendFailure] else []
  }

  /** What DoWork has to report. */
  function Failures(s: Sender, env: DoWorkEnv): seq<FailureCode> {
    match CourseOf(s, env)
    case NoStack => [AmqpInitFailure]
    case SenderFailed => []
    case NotAuthorized(timedOut) => [if timedOut then SasTokenAuthTimeout else SasTokenAuthFailure]
    case Waits => SendFailures(env.io.changes)
    case GoesOn =>
      (if UpState(s.amqp) == Initialized && s.senderState == SenderIdle then SendFailures(env.openChanges) else [])
      + (if PassSends(s, env) then SendFailures(env.io.changes) else [])
  }

  lemma {:induction false} StatesChangedReports(s: Sender, cs: seq<StateChange>)
    ensures var t := StatesChanged(s, cs);
      && t.reported == s.reported + (if s.errorCb then SendFailures(cs) else []) && t.errorCb == s.errorCb
      && t.senderState == if cs == [] then s.senderState else cs[|cs| - 1].0
  {
    if cs != [] {
      StatesChangedReports(s, cs[..|cs| - 1]);
      StatesChangedOnly(s, cs[..|cs| - 1]);
    }
  }

  lemma SendPassReports(a: Sender, checkedAt: uint64, env: DoWorkEnv)
    ensures var t := SendPass(a, checkedAt, env);
      var onOpen := if a.senderState == SenderIdle then SendFailures(env.openChanges) else [];
      var after := if a.senderState != SenderIdle || env.openOk then SendFailures(env.io.changes) else [];
      t.reported == a.reported + if a.errorCb then onOpen + after else []
  {
    StatesChangedReports(OpenCalled(a), env.openChanges);
    var r := if a.senderState == SenderIdle then StatesChanged(OpenCalled(a), env.openChanges) else a;
    StatesChangedReports(Answered(Passed(r, checkedAt, env.entry), env.io), env.io.changes);
  }

  /** The error callback, if there is one, is told exactly this. */
  lemma DoWorkReportsExactly(s: Sender, env: DoWorkEnv)
    requires SenderInv(s)
    ensures DoWork(s, env).reported == s.reported + if s.errorCb then Failures(s, env) else []
  {
    match CourseOf(s, env)
    case Waits => WaitsReports(s, env);
    case GoesOn => GoesOnReports(s, env);
    case _ => GivesUpReports(s, env);
  }

  lemma ConnectionReports(a: Sender, io: IoEnv)
    ensures ConnectionWork(a, io).reported == a.reported + if a.errorCb then SendFailures(io.changes) else []
  {
    StatesChangedReports(Answered(a, io), io.changes);
  }

  lemma WaitsReports(s: Sender, env: DoWorkEnv)
    requires SenderInv(s) && CourseOf(s, env) == Waits
    ensures DoWork(s, env).reported == s.reported + if s.errorCb then Failures(s, env) else []
  {
    DoWorkGoesOn(s, env);
    BegunFrame(s, env);
    ConnectionReports(Begun(s, env), env.io);
  }

  lemma GoesOnReports(s: Sender, env: DoWorkEnv)
    requires SenderInv(s) && CourseOf(s, env) == GoesOn
    ensures DoWork(s, env).reported == s.reported + if s.errorCb then Failures(s, env) else []
  {
    DoWorkGoesOn(s, env);
    BegunFrame(s, env);
    if UpState(s.amqp) == Initialized {
      var checkedAt :| DoWork(s, env) == SendPass(Begun(s, env), checkedAt, env);
      SendPassReports(Begun(s, env), checkedAt, env);
    }
  }

  lemma GivesUpReports(s: Sender, env: DoWorkEnv)
    requires SenderInv(s) && CourseOf(s, env) !in {Waits, GoesOn}
    ensures DoWork(s, env).reported == s.reported + if s.errorCb then Failures(s, env) else []
  {
    DoWorkGivesUp(s, env);
    if UpWhen(s, env) {
      BegunFrame(s, env);
      UpExactly(s, env);
    } else {
      FailedUpReports(s, env);
    }
  }

  lemma FailedUpReports(s: Sender, env: DoWorkEnv)
    requires SenderInv(s) && !UpWhen(s, env)
    ensures var u := Up(s, env).0; u.reported == s.reported && u.errorCb == s.errorCb
  {
    UpExactly(s, env);
    if s.amqp == Uninitialized {
      RaisedCommonExactly(s, env.common);
    } else {
      RaisedEndpointExactly(s, env.endpoint);
    }
  }

  // ---------------------------------------------------------------- the state and the token that are left

  function LastState(state: SenderState, cs: seq<StateChange>): SenderState {
    if cs == [] then state else cs[|cs| - 1].0
  }

  /** The AMQP state and the message sender's state after a DoWork. */
  function NextStates(s: Sender, env: DoWorkEnv): (AmqpState, SenderState) {
    var amqp := UpState(s.amqp);
    var state := if s.amqp == Uninitialized then SenderIdle else s.senderState;
    match CourseOf(s, env)
    case Waits => (amqp, LastState(state, env.io.changes))
    case GoesOn =>
      if amqp == PendingAuthorization then
        (if NewPuts(Handle(s).value, s.refreshToken, env.auth) == [] then PendingEndpointCreate else amqp, state)
      else if amqp != Initialized then (amqp, state)
      else
        var afterOpen := if state == SenderIdle then LastState(state, env.openChanges) else state;
        (amqp, if PassSends(s, env) then LastState(afterOpen, env.io.changes) else afterOpen)
    case _ => (Uninitialized, SenderIdle)
  }

  lemma ConnectionStates(a: Sender, io: IoEnv)
    ensures var t := ConnectionWork(a, io);
      && t.amqp == a.amqp && t.senderState == LastState(a.senderState, io.changes) && t.refreshToken == a.refreshToken
      && t.stack.auth == (if io.put.Some? then PutAnswered(a.stack, io.put.value).auth else a.stack.auth)
  {
    StatesChangedReports(Answered(a, io), io.changes);
    StatesChangedOnly(Answered(a, io), io.changes);
  }

  lemma SendPassStates(a: Sender, checkedAt: uint64, env: DoWorkEnv)
    ensures var t := SendPass(a, checkedAt, env);
      var afterOpen := if a.senderState == SenderIdle then LastState(a.senderState, env.openChanges) else a.senderState;
      var sends := a.senderState != SenderIdle || env.openOk;
      && t.amqp == a.amqp && t.refreshToken == a.refreshToken
      && t.senderState == (if sends then LastState(afterOpen, env.io.changes) else afterOpen)
      && t.stack.auth ==
         (if sends && env.io.put.Some? then PutAnswered(a.stack, env.io.put.value).auth else a.stack.auth)
  {
    StatesChangedReports(OpenCalled(a), env.openChanges);
    StatesChangedOnly(OpenCalled(a), env.openChanges);
    var r := if a.senderState == SenderIdle then StatesChanged(OpenCalled(a), env.openChanges) else a;
    ConnectionStates(Passed(r, checkedAt, env.entry), env.io);
  }

  /** After a pass that was given up nothing is left of the connection. */
  lemma GivesUpStates(s: Sender, env: DoWorkEnv)
    requires SenderInv(s) && CourseOf(s, env) !in {Waits, GoesOn}
    ensures var t := DoWork(s, env);
      t.amqp == Uninitialized && t.senderState == SenderIdle && t.stack.h == NO_HANDLES && t.refreshToken == None
  {
    DoWorkGivesUp(s, env);
    CourseExactly(s, env);
  }

  lemma BegunStates(s: Sender, env: DoWorkEnv)
    requires SenderInv(s) && CourseOf(s, env) in {Waits, GoesOn}
    ensures var a, h := Begun(s, env), Handle(s).value;
      && a.amqp == (if CourseOf(s, env) == GoesOn && UpState(s.amqp) == PendingAuthorization
                       && NewPuts(h, s.refreshToken, env.auth) == []
                    then PendingEndpointCreate else UpState(s.amqp))
      && a.refreshToken == (if h.status == Ok && h.cfg.credential == SasTokenExt then None else s.refreshToken)
      && a.stack.auth.Some? && a.stack.auth.value.installed == h.installed
      && a.stack.auth.value.puts == h.puts + NewPuts(h, s.refreshToken, env.auth)
  {
    UpExactly(s, env);
    UpKeeps(s, env);
    VerdictExactly(s, env);
    var u := Up(s, env).0;
    AuthorizesExactly(u.stack, u.amqp, u.refreshToken, env.auth);
  }

  /** The states that a DoWork leaves. */
  lemma DoWorkStatesExactly(s: Sender, env: DoWorkEnv)
    requires SenderInv(s)
    ensures (DoWork(s, env).amqp, DoWork(s, env).senderState) == NextStates(s, env)
  {
    if CourseOf(s, env) in {Waits, GoesOn} {
      DoWorkGoesOn(s, env);
      BegunFrame(s, env);
      BegunStates(s, env);
      GoesOnStates(s, Begun(s, env), DoWork(s, env), env);
    } else {
      GivesUpStates(s, env);
    }
  }

  lemma GoesOnStates(s: Sender, a: Sender, t: Sender, env: DoWorkEnv)
    requires CourseOf(s, env) in {Waits, GoesOn}
    requires GoesOnFrom(s, a, t, env)
    requires a.senderState == (if s.amqp == Uninitialized then SenderIdle else s.senderState)
    requires a.amqp == (if CourseOf(s, env) == GoesOn && UpState(s.amqp) == PendingAuthorization
                           && NewPuts(Handle(s).value, s.refreshToken, env.auth) == []
                        then PendingEndpointCreate else UpState(s.amqp))
    ensures (t.amqp, t.senderState) == NextStates(s, env) && t.refreshToken == a.refreshToken
    ensures var worked := CourseOf(s, env) == Waits || PassSends(s, env);
      t.stack.auth == if worked && env.io.put.Some? then PutAnswered(a.stack, env.io.put.value).auth else a.stack.auth
  {
    ConnectionStates(a, env.io);
    if CourseOf(s, env) == GoesOn && UpState(s.amqp) == Initialized {
      var checkedAt :| t == SendPass(a, checkedAt, env);
      SendPassStates(a, checkedAt, env);
    }
  }

  /** Connection work brings the answer to a put, in this pass. */
  predicate AnswersPut(s: Sender, env: DoWorkEnv) {
    (CourseOf(s, env) == Waits || PassSends(s, env)) && env.io.put.Some?
  }

  /**
   The token: what authorization puts is outstanding until connection work brings an answer, which installs it or fails
   the handle; a refresh token is used up when it is put.
   */
  lemma DoWorkTokenExactly(s: Sender, env: DoWorkEnv)
    requires SenderInv(s) && CourseOf(s, env) in {Waits, GoesOn}
    ensures var t, h := DoWork(s, env), Handle(s).value;
      && t.stack.auth.Some?
      && TokenLeft(t.stack.auth.value, h.puts + NewPuts(h, s.refreshToken, env.auth), h.installed,
                   if AnswersPut(s, env) then env.io.put else None)
      && t.refreshToken == (if h.status == Ok && h.cfg.credential == SasTokenExt then None else s.refreshToken)
  {
    DoWorkGoesOn(s, env);
    BegunFrame(s, env);
    BegunStates(s, env);
    TokenAfter(s, Begun(s, env), DoWork(s, env), env);
  }

  lemma TokenAfter(s: Sender, a: Sender, t: Sender, env: DoWorkEnv)
    requires CourseOf(s, env) in {Waits, GoesOn} && a.stack.auth.Some?
    requires GoesOnFrom(s, a, t, env)
    requires a.senderState == (if s.amqp == Uninitialized then SenderIdle else s.senderState)
    requires a.amqp == (if CourseOf(s, env) == GoesOn && UpState(s.amqp) == PendingAuthorization
                           && NewPuts(Handle(s).value, s.refreshToken, env.auth) == []
                        then PendingEndpointCreate else UpState(s.amqp))
    ensures t.stack.auth.Some? && t.refreshToken == a.refreshToken
    ensures TokenLeft(t.stack.auth.value, a.stack.auth.value.puts, a.stack.auth.value.installed,
                      if AnswersPut(s, env) then env.io.put else None)
  {
    GoesOnStates(s, a, t, env);
    LeftByAnswer(a.stack, t.stack.auth, if AnswersPut(s, env) then env.io.put else None);
  }
}
