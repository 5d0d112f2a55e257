/** What the receiver promises over every run, and exactly when it keeps its handles and its state in step. */
module ReceiverGuarantees {
  import opened Common
  import opened EventHubAuth
  import opened TokenLifecycle
  import opened AmqpStack
  import opened ReceiverSpec
  import opened ReceiverInvariant

  // ---------------------------------------------------------------- sessions

  /**
   Whatever fails and whatever the user's callbacks call: an inactive receiver holds nothing of a session, an
   active or ending one has both callbacks, and the unguarded calls never met a NULL one.
   */
  lemma RunKeepsSessions(ext: Option<ExtConfig>, ops: seq<Op>)
    ensures var r := Run(NewReceiver(ext), ops);
      && (r.state == Inactive ==>
            && r.amqp == Uninitialized && r.stack.h == NO_HANDLES && r.filter == None && r.refreshToken == None
            && !r.receiveCb && !r.errorCb)
      && (r.state != Inactive ==> r.receiveCb && r.errorCb && r.filter.Some?)
      && (forall s: nat :: NullCalled(s) !in r.log)
  {
    RunKeeps(ext, ops);
  }

  /** Callbacks come session by session; a session's end callback is its last, and comes at most once. */
  lemma RunOrdersCallbacks(ext: Option<ExtConfig>, ops: seq<Op>, i: nat, j: nat)
    requires i < j < |Run(NewReceiver(ext), ops).log|
    ensures var log := Run(NewReceiver(ext), ops).log;
      log[i].session <= log[j].session && (log[i].Ended? ==> log[i].session < log[j].session)
  {
    RunKeeps(ext, ops);
  }

  /** The receiver's CBS handle, too, has at most one put outstanding, exactly while its status is IN_PROGRESS. */
  lemma RunOnePutOutstanding(ext: Option<ExtConfig>, ops: seq<Op>)
    ensures var r := Run(NewReceiver(ext), ops);
      r.stack.auth.Some? ==>
        && r.stack.auth.value.status in {InProgress, Ok, Failure}
        && |r.stack.auth.value.puts| == if r.stack.auth.value.status == InProgress then 1 else 0
  {
    RunKeeps(ext, ops);
  }

  // ---------------------------------------------------------------- inactivity timeouts

  /** The tick counter did not run backwards between the readings of one session. */
  predicate TicksForward(log: seq<Event>) {
    forall i, j ::
      0 <= i < j < |log| && log[i].session == log[j].session && Mark(log[i]).Some? && Mark(log[j]).Some? ==>
        Mark(log[i]).value <= Mark(log[j]).value
  }

  lemma {:induction false} LastMarkIsLatest(log: seq<Event>, session: nat, i: nat)
    requires TicksForward(log) && i < |log| && log[i].session == session && Mark(log[i]).Some?
    ensures var last := LastMark(log, session); last.Some? && Mark(log[i]).value <= last.value
    ensures exists k :: 0 <= k < |log| && log[k].session == session && Mark(log[k]) == LastMark(log, session)
  {
    var n := |log| - 1;
    if log[n].session == session && Mark(log[n]).Some? {
      assert Mark(log[n]) == LastMark(log, session);
    } else {
      LastMarkIsLatest(log[..n], session, i);
      var k :|
        0 <= k < |log[..n]| && log[..n][k].session == session && Mark(log[..n][k]) == LastMark(log[..n], session);
      assert log[k] == log[..n][k];
    }
  }

  /**
   Spacing: a timeout callback comes at least the wait time after every earlier reading of its session - the start,
   an earlier timeout, or a pass that accounted for received messages.
   */
  lemma TimeoutsAreSpaced(ext: Option<ExtConfig>, ops: seq<Op>, i: nat, j: nat)
    requires var log := Run(NewReceiver(ext), ops).log;
      && TicksForward(log) && i < j < |log| && log[i].session == log[j].session
      && Mark(log[i]).Some? && log[j].TimeoutReported?
    ensures var log := Run(NewReceiver(ext), ops).log;
      log[j].wait > 0 && log[j].now >= Mark(log[i]).value + log[j].wait
  {
    RunKeeps(ext, ops);
    var log := Run(NewReceiver(ext), ops).log;
    var before, session := log[..j], log[j].session;
    assert before[i] == log[i];
    LastMarkIsLatest(before, session, i);
    var k :| 0 <= k < |before| && before[k].session == session && Mark(before[k]) == LastMark(before, session);
    assert before[k] == log[k];
  }

  lemma {:induction false} AttendedBy(log: seq<Event>, session: nat, i: nat) returns (k: nat)
    requires !Unattended(log, session) && i < |log| && log[i].session == session && log[i].Received?
    ensures i < k < |log| && log[k].session == session && (log[k].Accounted? || log[k].TickFailed?)
  {
    var n := |log| - 1;
    if log[n].session == session && (log[n].Accounted? || log[n].TickFailed?) {
      k := n;
    } else {
      k := AttendedBy(log[..n], session, i);
    }
  }

  /**
   Between a message and a later timeout of its session a full pass accounted for the message, or failed to read
   the tick counter - also when the message came in while a token refresh was in progress.
   */
  lemma MessagesAreAttended(ext: Option<ExtConfig>, ops: seq<Op>, i: nat, j: nat) returns (k: nat)
    requires var log := Run(NewReceiver(ext), ops).log;
      i < j < |log| && log[i].session == log[j].session && log[i].Received? && log[j].TimeoutReported?
    ensures var log := Run(NewReceiver(ext), ops).log;
      i < k < j && log[k].session == log[j].session && (log[k].Accounted? || log[k].TickFailed?)
  {
    RunKeeps(ext, ops);
    var log := Run(NewReceiver(ext), ops).log;
    assert log[..j][i] == log[i];
    k := AttendedBy(log[..j], log[j].session, i);
    assert log[..j][k] == log[k];
  }

  // ---------------------------------------------------------------- handles and state

  /** The fields that are non-NULL are those the AMQP state calls for, and the library agrees. */
  ghost predicate HandlesAgree(r: Receiver) {
    Agrees(r.stack, Stage(r.amqp))
  }

  /** The pass creates the link, and that fails, or the tick counter cannot be read right after it. */
  predicate LinkFails(r: Receiver, env: DoWorkEnv) {
    && r.state == Active && r.amqp == PendingEndpointCreate
    && (!EndpointOk(env.endpoint) || (r.waitMs > 0 && env.endpointTick == None))
  }

  lemma CommonUpAgrees(r: Receiver, env: CommonEnv)
    requires HandlesAgree(r) && r.amqp == Uninitialized
    ensures HandlesAgree(CommonUp(r, env).0)
  {
    var cfg, common := ClientConfig(r.ext, r.waitMs / 1000), env.(hostName := true);
    var s := Stack(NO_HANDLES, None, r.stack.lib);
    CommonBuiltAgrees(s, cfg, common);
    var (t, ok) := CommonBuilt(s, cfg, common);
    RaisedAgrees(r, t, ok, 6, CommonUp(r, env).0);
  }

  /** A stack built as far as it got either has all its `k` handles or is torn down again. */
  lemma RaisedAgrees(r: Receiver, t: Stack, ok: bool, k: nat, u: Receiver)
    requires Agrees(t, |t.lib.live|) && (ok ==> |t.lib.live| == k)
    requires if ok then u.stack == t && Stage(u.amqp) == k else u.stack == TornDown(t) && u.amqp == r.amqp
    ensures if ok || r.amqp == Uninitialized then HandlesAgree(u) else Agrees(u.stack, 0)
  {
    TearDownAgrees(t, |t.lib.live|);
  }

  lemma EndpointUpAgreesExactly(r: Receiver, env: EndpointEnv, tick: Option<uint64>)
    requires HandlesAgree(r) && r.amqp == PendingEndpointCreate
    ensures var (u, ok) := EndpointUp(r, env, tick);
      && (ok <==> EndpointOk(env) && (r.waitMs == 0 || tick.Some?))
      && (HandlesAgree(u) <==> ok)
  {
    EndpointBuiltAgrees(r.stack, env);
    EndpointBuiltExactly(r.stack, env);
    var t := EndpointBuilt(r.stack, env).0;
    if !EndpointOk(env) {
      TearDownAgrees(t, |t.lib.live|);
    }
  }

  lemma UpAgreesExactly(r: Receiver, env: DoWorkEnv)
    requires Inv(r) && r.state == Active && HandlesAgree(r)
    ensures HandlesAgree(Up(r, env).0) <==> !LinkFails(r, env)
    ensures LinkFails(r, env) ==> !Up(r, env).1
    ensures Up(r, env).1 ==> Up(r, env).0.amqp != Uninitialized
  {
    if r.amqp == Uninitialized {
      CommonUpAgrees(r, env.common);
    } else if r.amqp == PendingEndpointCreate {
      EndpointUpAgreesExactly(r, env.endpoint, env.endpointTick);
    }
  }

  lemma TornDownAgrees(r: Receiver, k: nat)
    requires Agrees(r.stack, k)
    ensures HandlesAgree(TornDownReceiver(r))
  {
    TearDownAgrees(r.stack, k);
  }

  lemma AuthorizeAgrees(u: Receiver, env: AuthEnv)
    requires HandlesAgree(u) && u.amqp != Uninitialized
    ensures var a := AuthorizeReceiver(u, env).0;
      && HandlesAgree(a) && a.amqp != Uninitialized
      && a == u.(stack := a.stack, amqp := a.amqp, refreshToken := a.refreshToken)
  {
    CallAgrees(u.stack, Stage(u.amqp), 5);
    assert u.stack.h.Order()[5] == u.stack.h.cbs;
  }

  lemma ConnectionWorkAgrees(a: Receiver, items: seq<IoItem>)
    requires Inv(a) && a.state == Active && AuthSettled(a) && HandlesAgree(a) && a.amqp != Uninitialized
    ensures HandlesAgree(ConnectionWork(a, items))
  {
    CallAgrees(a.stack, Stage(a.amqp), 3);
    ConnectionWorkKeeps(a, items);
  }

  lemma AuthorizedWorkAgrees(u: Receiver, env: DoWorkEnv)
    requires Inv(u) && u.state == Active && HandlesAgree(u) && u.amqp != Uninitialized
    requires Settled(u.stack.auth.value) || JustCreated(u.stack.auth.value)
    ensures HandlesAgree(AuthorizedWork(u, env))
  {
    AuthorizeAgrees(u, env.auth);
    PassSettles(u.stack.auth.value, u.refreshToken, env.auth);
    var (a, verdict) := AuthorizeReceiver(u, env.auth);
    match verdict
    case AuthFailed =>
      OnErrorKeeps(a, AuthFailure, false, env.onError);
      TornDownAgrees(OnError(a, AuthFailure, false, env.onError), Stage(a.amqp));
    case AuthTimedOut =>
      OnErrorKeeps(a, AuthTimeout, false, env.onError);
      TornDownAgrees(OnError(a, AuthTimeout, false, env.onError), Stage(a.amqp));
    case AuthWaiting => ConnectionWorkAgrees(a, env.items);
    case AuthReady =>
      if a.amqp == Initialized {
        ConnectionWorkAgrees(a, env.items);
        ConnectionWorkKeeps(a, env.items);
        CheckActivityKeeps(ConnectionWork(a, env.items), env.now, env.onTimeout);
      }
  }

  /** A pass keeps handles and state in step if and only if it is not one whose link creation fails. */
  lemma DoWorkAgreesExactly(r: Receiver, env: DoWorkEnv)
    requires Inv(r) && AuthSettled(r) && HandlesAgree(r)
    ensures HandlesAgree(DoWork(r, env)) <==> !LinkFails(r, env)
  {
    if r.state == InactivePending {
      TornDownAgrees(r, Stage(r.amqp));
      var t := TornDownReceiver(r);
      TornDownKeeps(r);
      if t.endCb {
        FinishedKeepsStack(r, env.onEnd);
      }
    } else if r.state == Active {
      UpKeeps(r, env);
      UpAgreesExactly(r, env);
      if Up(r, env).1 {
        AuthorizedWorkAgrees(Up(r, env).0, env);
      }
    }
  }

  lemma FinishedKeepsStack(r: Receiver, onEnd: seq<ApiCall>)
    requires Inv(r) && r.state != Inactive
    ensures Finished(r, onEnd).stack == TornDown(r.stack) && Finished(r, onEnd).amqp == Uninitialized
  {
    var t := TornDownReceiver(r);
    TornDownKeeps(r);
    SpacedOne(t.log, Ended(t.session));
    ReactKeeps(t.(log := t.log + [Ended(t.session)]), onEnd);
  }

  /** No pass of the run is one whose link creation fails. */
  predicate NoLinkFails(r: Receiver, ops: seq<Op>) {
    ops == [] ||
    var front, last := ops[..|ops| - 1], ops[|ops| - 1];
    NoLinkFails(r, front) && (last.OpDoWork? ==> !LinkFails(Run(r, front), last.env))
  }

  /** Over a run without such passes handles and state agree throughout, and Destroy releases every handle in order. */
  lemma {:induction false} RunAgrees(ext: Option<ExtConfig>, ops: seq<Op>)
    requires NoLinkFails(NewReceiver(ext), ops)
    ensures var r := Run(NewReceiver(ext), ops);
      && HandlesAgree(r)
      && Destroyed(r).stack.h == NO_HANDLES && Destroyed(r).stack.lib.sound && Destroyed(r).stack.lib.live == []
  {
    if ops != [] {
      var front := ops[..|ops| - 1];
      RunAgrees(ext, front);
      RunKeeps(ext, front);
      StepAgreesExactly(Run(NewReceiver(ext), front), ops[|ops| - 1]);
    }
    var r := Run(NewReceiver(ext), ops);
    TornDownAgrees(r, Stage(r.amqp));
  }

  ghost predicate AgreesThroughout(r: Receiver, ops: seq<Op>) {
    forall n: nat :: n <= |ops| ==> HandlesAgree(Run(r, ops[..n]))
  }

  /** Handles and state agree after every prefix of a run if and only if the link creation fails in no pass of it. */
  lemma {:induction false} RunAgreesThroughoutExactly(ext: Option<ExtConfig>, ops: seq<Op>)
    ensures AgreesThroughout(NewReceiver(ext), ops) <==> NoLinkFails(NewReceiver(ext), ops)
  {
    var r := NewReceiver(ext);
    if ops == [] {
      RunAgrees(ext, []);
      assert forall n: nat :: n <= 0 ==> ops[..n] == [];
    } else {
      var front, last := ops[..|ops| - 1], ops[|ops| - 1];
      RunAgreesThroughoutExactly(ext, front);
      RunKeeps(ext, front);
      if AgreesThroughout(r, ops) {
        ThroughoutFront(r, ops);
        StepAgreesExactly(Run(r, front), last);
      } else if NoLinkFails(r, ops) {
        assert front[..|front|] == front;
        StepAgreesExactly(Run(r, front), last);
        ThroughoutExtends(r, ops);
      }
    }
  }

  lemma ThroughoutFront(r: Receiver, ops: seq<Op>)
    requires ops != [] && AgreesThroughout(r, ops)
    ensures var front := ops[..|ops| - 1];
      AgreesThroughout(r, front) && HandlesAgree(Run(r, front)) && HandlesAgree(Run(r, ops))
  {
    var front := ops[..|ops| - 1];
    forall n: nat | n <= |front|
      ensures HandlesAgree(Run(r, front[..n]))
    {
      assert front[..n] == ops[..n];
    }
    assert ops[..|ops|] == ops && front[..|front|] == front;
  }

  lemma ThroughoutExtends(r: Receiver, ops: seq<Op>)
    requires ops != [] && AgreesThroughout(r, ops[..|ops| - 1]) && HandlesAgree(Run(r, ops))
    ensures AgreesThroughout(r, ops)
  {
    var front := ops[..|ops| - 1];
    forall n: nat | n <= |ops|
      ensures HandlesAgree(Run(r, ops[..n]))
    {
      if n <= |front| {
        assert front[..n] == ops[..n];
      } else {
        assert ops[..n] == ops;
      }
    }
  }

  lemma StepAgreesExactly(r: Receiver, op: Op)
    requires Inv(r) && AuthSettled(r) && HandlesAgree(r)
    ensures HandlesAgree(Step(r, op)) <==> !(op.OpDoWork? && LinkFails(r, op.env))
  {
    match op
    case OpDoWork(env) => DoWorkAgreesExactly(r, env);
    case OpApi(call) => ApiFrame(r, call);
  }

  // ---------------------------------------------------------------- after a failed link creation

  lemma {:induction false} UnsoundStays(lib: Library, o: seq<Option<nat>>, n: nat)
    requires !lib.sound && n <= |o|
    ensures !ClosedDown(lib, o, n).sound
    decreases n
  {
    if n > 0 {
      UnsoundStays(Closed(lib, o[n - 1]), o, n - 1);
    }
  }

  /**
   After a pass whose link creation failed all handles are gone but the AMQP state is not: the next pass passes a
   NULL session to the library as soon as it gets to creating the link.
   */
  lemma FailedLinkThenNullSession(r: Receiver, env: DoWorkEnv, again: DoWorkEnv)
    requires Inv(r) && HandlesAgree(r) && r.state == Active && r.amqp == PendingEndpointCreate
    requires !EndpointOk(env.endpoint) && again.endpoint.terminus
    ensures DoWork(r, env).amqp == PendingEndpointCreate && DoWork(r, env).stack.h == NO_HANDLES
    ensures !Up(DoWork(r, env), again).0.stack.lib.sound
  {
    EndpointBuiltExactly(r.stack, env.endpoint);
    NextCreationIsUnsound(DoWork(r, env), again);
  }

  lemma NextCreationIsUnsound(u: Receiver, again: DoWorkEnv)
    requires u.amqp == PendingEndpointCreate && u.stack.h == NO_HANDLES && again.endpoint.terminus
    ensures !Up(u, again).0.stack.lib.sound
  {
    NullSessionIsUnsound(u.stack, again.endpoint);
    var t := EndpointBuilt(u.stack, again.endpoint).0;
    UnsoundStays(t.lib, t.h.Order(), 8);
  }

  lemma NullSessionIsUnsound(s: Stack, env: EndpointEnv)
    requires s.h.session == None && env.terminus
    ensures !EndpointBuilt(s, env).0.lib.sound
  {
  }

  /** The handle `x` is alive in the library, and no field holds it. */
  predicate Lost(s: Stack, x: nat) {
    x in s.lib.live && x < s.lib.next && forall i :: 0 <= i < 8 ==> s.h.Order()[i] != Some(x)
  }

  lemma {:induction false} ClosedDownSpares(lib: Library, o: seq<Option<nat>>, n: nat, x: nat)
    requires n <= |o| && x in lib.live && forall i :: 0 <= i < n ==> o[i] != Some(x)
    ensures x in ClosedDown(lib, o, n).live && ClosedDown(lib, o, n).next == lib.next
    decreases n
  {
    if n > 0 {
      ClosedDownSpares(Closed(lib, o[n - 1]), o, n - 1, x);
    }
  }

  lemma TornDownLoses(s: Stack, x: nat)
    requires Lost(s, x)
    ensures Lost(TornDown(s), x)
  {
    ClosedDownSpares(s.lib, s.h.Order(), 8, x);
  }

  /** Stack `t` is `s` with new handles in some fields and NULL in others. */
  predicate Refilled(s: Stack, t: Stack) {
    && s.lib.live <= t.lib.live && s.lib.next <= t.lib.next
    && forall i :: 0 <= i < 8 ==>
      var f := t.h.Order()[i]; f == None || f == s.h.Order()[i] || s.lib.next <= f.value
  }

  lemma ConnectionRefills(s: Stack, cfg: AuthConfig, env: CommonEnv)
    ensures Refilled(s, ConnectionBuilt(s, cfg, env).0)
  {
  }

  lemma SaslRefills(s: Stack, cfg: AuthConfig, env: CommonEnv)
    ensures Refilled(s, SaslBuilt(s, cfg, env).0)
  {
    var lib := s.lib.Call(s.h.tlsIo).Call(s.h.mechanism);
    ConnectionRefills(s.(h := s.h.(saslIo := Some(lib.Create().1)), lib := lib.Create().0), cfg, env);
  }

  lemma CommonRefills(s: Stack, cfg: AuthConfig, env: CommonEnv)
    ensures Refilled(s, CommonBuilt(s, cfg, env).0)
  {
    var (lib1, h1) := s.lib.Create();
    var (lib2, h2) := lib1.Create();
    SaslRefills(s.(h := s.h.(mechanism := Some(h1), tlsIo := Some(h2)), lib := lib2), cfg, env);
  }

  lemma EndpointRefills(s: Stack, env: EndpointEnv)
    ensures Refilled(s, EndpointBuilt(s, env).0)
  {
  }

  lemma RefilledLoses(s: Stack, t: Stack, x: nat)
    requires Lost(s, x) && Refilled(s, t)
    ensures Lost(t, x) && Lost(TornDown(t), x)
  {
    TornDownLoses(t, x);
  }

  lemma CommonUpLoses(r: Receiver, env: CommonEnv, x: nat)
    requires Lost(r.stack, x)
    ensures Lost(CommonUp(r, env).0.stack, x)
  {
    var cfg, common := ClientConfig(r.ext, r.waitMs / 1000), env.(hostName := true);
    var s := Stack(NO_HANDLES, None, r.stack.lib);
    assert Lost(s, x);
    CommonRefills(s, cfg, common);
    RefilledLoses(s, CommonBuilt(s, cfg, common).0, x);
  }

  lemma EndpointUpLoses(r: Receiver, env: EndpointEnv, tick: Option<uint64>, x: nat)
    requires Lost(r.stack, x)
    ensures Lost(EndpointUp(r, env, tick).0.stack, x)
  {
    EndpointRefills(r.stack, env);
    RefilledLoses(r.stack, EndpointBuilt(r.stack, env).0, x);
  }

  lemma UpLoses(r: Receiver, env: DoWorkEnv, x: nat)
    requires Lost(r.stack, x)
    ensures Lost(Up(r, env).0.stack, x)
  {
    CommonUpLoses(r, env.common, x);
    EndpointUpLoses(r, env.endpoint, env.endpointTick, x);
  }

  lemma AuthorizedWorkLoses(u: Receiver, env: DoWorkEnv, x: nat)
    requires Inv(u) && u.state == Active && Lost(u.stack, x)
    requires u.stack.auth.Some? ==> Settled(u.stack.auth.value) || JustCreated(u.stack.auth.value)
    ensures Lost(AuthorizedWork(u, env).stack, x)
  {
    var (a, verdict) := AuthorizeReceiver(u, env.auth);
    if u.stack.auth.Some? {
      PassSettles(u.stack.auth.value, u.refreshToken, env.auth);
    }
    match verdict
    case AuthFailed =>
      OnErrorKeeps(a, AuthFailure, false, env.onError);
      TornDownLoses(a.stack, x);
    case AuthTimedOut =>
      OnErrorKeeps(a, AuthTimeout, false, env.onError);
      TornDownLoses(a.stack, x);
    case AuthWaiting => ConnectionWorkKeeps(a, env.items);
    case AuthReady =>
      if a.amqp == Initialized {
        ConnectionWorkKeeps(a, env.items);
        CheckActivityKeeps(ConnectionWork(a, env.items), env.now, env.onTimeout);
      }
  }

  lemma StepLoses(r: Receiver, op: Op, x: nat)
    requires Inv(r) && AuthSettled(r) && Lost(r.stack, x)
    ensures Lost(Step(r, op).stack, x)
  {
    match op
    case OpDoWork(env) =>
      if r.state == InactivePending {
        TornDownLoses(r.stack, x);
        FinishedKeepsStack(r, env.onEnd);
      } else if r.state == Active {
        UpLoses(r, env, x);
        UpKeeps(r, env);
        if Up(r, env).1 {
          AuthorizedWorkLoses(Up(r, env).0, env, x);
        }
      }
    case OpApi(call) => ApiFrame(r, call);
  }

  lemma {:induction false} RunLoses(r: Receiver, ops: seq<Op>, x: nat)
    requires Inv(r) && AuthSettled(r) && Lost(r.stack, x)
    ensures var s := Run(r, ops); Inv(s) && AuthSettled(s) && Lost(s.stack, x)
  {
    if ops != [] {
      var front := ops[..|ops| - 1];
      RunLoses(r, front, x);
      StepLoses(Run(r, front), ops[|ops| - 1], x);
      match ops[|ops| - 1]
      case OpDoWork(env) => DoWorkKeeps(Run(r, front), env);
      case OpApi(call) => ApiKeeps(Run(r, front), call);
    }
  }

  /** A second link created over the first: the new one is in its field, the old one nowhere. */
  lemma SecondLinkLosesFirst(s: Stack, env: EndpointEnv)
    requires Agrees(s, 8) && env.terminus && env.link
    ensures Lost(EndpointBuilt(s, env).0, s.lib.live[6]) && s.h.link == Some(s.lib.live[6])
  {
    assert s.h.Order()[6] == s.h.link;
    var t := EndpointBuilt(s, env).0;
    assert s.lib.live <= t.lib.live && s.lib.live[6] == t.lib.live[6];
    assert forall i :: 0 <= i < 6 ==> t.h.Order()[i] == s.h.Order()[i];
    assert s.h.Order()[7] == s.h.endpoint;
  }

  /**
   After a pass in which only the tick counter failed, the next pass that creates a link creates it over the live one.
   That link is lost: whatever is done afterwards, Destroy included, it is not destroyed and no field holds it.
   */
  lemma FailedTickThenLostLink(r: Receiver, env: DoWorkEnv, again: DoWorkEnv, ops: seq<Op>)
    requires Inv(r) && AuthSettled(r) && HandlesAgree(r) && r.state == Active && r.amqp == PendingEndpointCreate
    requires EndpointOk(env.endpoint) && r.waitMs > 0 && env.endpointTick == None
    requires again.endpoint.terminus && again.endpoint.link
    ensures var u := DoWork(r, env);
      && u.amqp == PendingEndpointCreate && u.stack.h.link.Some?
      && var v := Run(DoWork(u, again), ops);
         Lost(v.stack, u.stack.h.link.value) && Lost(Destroyed(v).stack, u.stack.h.link.value)
  {
    EndpointBuiltAgrees(r.stack, env.endpoint);
    EndpointBuiltExactly(r.stack, env.endpoint);
    DoWorkKeeps(r, env);
    var u := DoWork(r, env);
    assert u == r.(stack := EndpointBuilt(r.stack, env.endpoint).0);
    var x := u.stack.lib.live[6];
    PassOverLiveLink(u, again);
    DoWorkKeeps(u, again);
    RunLoses(DoWork(u, again), ops, x);
    TornDownLoses(Run(DoWork(u, again), ops).stack, x);
  }

  lemma PassOverLiveLink(u: Receiver, again: DoWorkEnv)
    requires Inv(u) && AuthSettled(u) && u.state == Active && u.amqp == PendingEndpointCreate && Agrees(u.stack, 8)
    requires again.endpoint.terminus && again.endpoint.link
    ensures u.stack.h.link == Some(u.stack.lib.live[6]) && Lost(DoWork(u, again).stack, u.stack.lib.live[6])
  {
    var x := u.stack.lib.live[6];
    SecondLinkLosesFirst(u.stack, again.endpoint);
    TornDownLoses(EndpointBuilt(u.stack, again.endpoint).0, x);
    UpKeeps(u, again);
    var (v, ok) := Up(u, again);
    assert Lost(v.stack, x);
    if ok {
      AuthorizedWorkLoses(v, again, x);
    }
  }

  // ---------------------------------------------------------------- both happen

  const FIRST_CALL := ApiCall.Receive(true, true, 0, 1000, Some(0), true)

  /** A pass at time 0 in which all succeeds and the put is answered, but for what `endpoint` and `tick` say. */
  function PassAt0(endpoint: EndpointEnv, tick: Option<uint64>): DoWorkEnv {
    DoWorkEnv(ALL_BUILT, endpoint, tick,
              AuthEnv(Some(0), RefreshEnv(None, PutEnv(None, false, false)), PutEnv(Some(0), true, true)),
              [PutAnswer(true)], Some(0), [], [], [])
  }

  lemma FirstPass(r: Receiver, env: DoWorkEnv)
    requires Inv(r) && AuthSettled(r) && r.state == Active && r.amqp == Uninitialized && r.ext == None
    requires env == PassAt0(ENDPOINT_BUILT, None)
    ensures var u := DoWork(r, env);
      && u.state == Active && u.amqp == PendingAuthorization && u.waitMs == r.waitMs && u.ext == None
      && u.stack.auth.Some? && AuthPass(u.stack.auth.value, u.refreshToken, env.auth).advance
  {
    var u := Up(r, env).0;
    assert Up(r, env).1 && u.amqp == PendingAuthorization
           && u.stack.auth == Some(Created(ClientConfig(None, r.waitMs / 1000)));
    var (a, verdict) := AuthorizeReceiver(u, env.auth);
    assert verdict == AuthWaiting && a.stack.auth.value.puts != [];
    var m := a.(stack := a.stack.(lib := a.stack.lib.Call(a.stack.h.connection)));
    assert DeliverAll(m, env.items) == DeliverAll(Deliver(m, PutAnswer(true)), []);
  }

  lemma SecondPass(r: Receiver, env: DoWorkEnv)
    requires Inv(r) && r.state == Active && r.amqp == PendingAuthorization
    requires r.stack.auth.Some? && AuthPass(r.stack.auth.value, r.refreshToken, env.auth).advance
    ensures var u := DoWork(r, env); u.state == Active && u.amqp == PendingEndpointCreate && u.waitMs == r.waitMs
  {
  }

  ghost predicate AllWell(r: Receiver) {
    Inv(r) && AuthSettled(r) && HandlesAgree(r) && r.state == Active && r.waitMs == 1000 && r.ext == None
  }

  lemma ReceiveBegins() returns (r: Receiver)
    ensures r == Step(NewReceiver(None), OpApi(FIRST_CALL)) && AllWell(r) && r.amqp == Uninitialized
  {
    r := Step(NewReceiver(None), OpApi(FIRST_CALL));
    FirstReceive();
    RunOneMore(NewReceiver(None), [], OpApi(FIRST_CALL));
    RunKeeps(None, [] + [OpApi(FIRST_CALL)]);
    RunAgrees(None, []);
  }

  lemma FirstReceive()
    ensures var r := Step(NewReceiver(None), OpApi(FIRST_CALL));
      && r.state == Active && r.waitMs == 1000 && r.ext == None
      && r.amqp == Uninitialized && r.stack == NewReceiver(None).stack
  {
  }

  lemma PassGoesWell(r: Receiver, env: DoWorkEnv)
    requires AllWell(r) && r.amqp != PendingEndpointCreate
    requires DoWork(r, env).state == Active && DoWork(r, env).waitMs == r.waitMs
    ensures AllWell(DoWork(r, env))
  {
    DoWorkKeeps(r, env);
    DoWorkAgreesExactly(r, env);
  }

  /** A run from creation to the state in which the link is to be created. */
  lemma ReachesLinkCreation() returns (ops: seq<Op>, r: Receiver)
    ensures r == Run(NewReceiver(None), ops) && AllWell(r) && r.amqp == PendingEndpointCreate
  {
    var env := PassAt0(ENDPOINT_BUILT, None);
    var r1 := ReceiveBegins();
    FirstPass(r1, env);
    PassGoesWell(r1, env);
    var r2 := DoWork(r1, env);
    SecondPass(r2, env);
    PassGoesWell(r2, env);
    r := DoWork(r2, env);
    ops := [OpApi(FIRST_CALL), OpDoWork(env), OpDoWork(env)];
    RunOfThree(NewReceiver(None), ops[0], ops[1], ops[2]);
  }

  lemma RunOfThree(r: Receiver, a: Op, b: Op, c: Op)
    ensures Run(r, [a, b, c]) == Step(Step(Step(r, a), b), c)
  {
    assert [a, b, c][..2] == [a, b] && [a, b][..1] == [a] && [a][..0] == [];
    assert Run(r, [a]) == Step(r, a) && Run(r, [a, b]) == Step(Step(r, a), b);
  }

  lemma RunOneMore(r: Receiver, ops: seq<Op>, op: Op)
    ensures Run(r, ops + [op]) == Step(Run(r, ops), op)
  {
    assert (ops + [op])[..|ops + [op]| - 1] == ops;
  }

  /** A complete run after which the library has been passed a NULL session. */
  lemma NullSessionHappens() returns (ops: seq<Op>)
    ensures !Run(NewReceiver(None), ops).stack.lib.sound
  {
    var r;
    var env := PassAt0(ENDPOINT_BUILT.(link := false), None);
    ops, r := ReachesLinkCreation();
    FailedLinkThenNullSession(r, env, env);
    RunOneMore(NewReceiver(None), ops, OpDoWork(env));
    RunOneMore(NewReceiver(None), ops + [OpDoWork(env)], OpDoWork(env));
    ops := ops + [OpDoWork(env)] + [OpDoWork(env)];
    assert !Up(DoWork(r, env), env).1;
  }

  /** And one after which a link is lost for good. */
  lemma LostLinkHappens() returns (ops: seq<Op>, x: nat)
    ensures Lost(Run(NewReceiver(None), ops).stack, x)
    ensures forall more :: Lost(Destroyed(Run(Run(NewReceiver(None), ops), more)).stack, x)
  {
    var r;
    var env := PassAt0(ENDPOINT_BUILT, None);
    ops, r := ReachesLinkCreation();
    RunOneMore(NewReceiver(None), ops, OpDoWork(env));
    RunOneMore(NewReceiver(None), ops + [OpDoWork(env)], OpDoWork(env));
    ops := ops + [OpDoWork(env)] + [OpDoWork(env)];
    FailedTickThenLostLink(r, env, env, []);
    x := DoWork(r, env).stack.h.link.value;
    forall more
      ensures Lost(Destroyed(Run(Run(NewReceiver(None), ops), more)).stack, x)
    {
      FailedTickThenLostLink(r, env, env, more);
    }
  }
}
