/**
 The receiver of eventhubreceiver_ll.c in place. Every method acts on the receiver's state as the function of
 ReceiverSpec that its contract names. Between calls a receiver is valid, which is the invariant of ReceiverInvariant;
 the methods of the API are also called by user callbacks from within a pass, and keep it when it holds.
 */
module EventHubReceiverLL {
  import opened Common
  import opened Events
  import opened EventHubAuth
  import opened TokenLifecycle
  import opened AmqpStack
  import Spec = ReceiverSpec
  import opened ReceiverInvariant
  import opened ReceiverGuarantees

  class ReceiverLL {
    const receiverAmqpConnection: HandleStack
    const ext: Option<ExtConfig>
    var state: Spec.SessionState
    var amqpState: AmqpState
    var onEventReceiveCallback: bool
    var onEventReceiveErrorCallback: bool
    var onEventReceiveEndCallback: bool
    var wasMessageReceived: bool
    var receiverQueryFilter: Option<uint64>
    var startTimestamp: uint64
    var lastActivityTimestamp: uint64
    var waitTimeoutInMs: uint32
    var extRefreshSasToken: Option<string>
    var session: nat           // sessions begun so far
    var log: seq<Spec.Event>   // what happened so far

    ghost function Abs(): Spec.Receiver
      reads this, receiverAmqpConnection, receiverAmqpConnection.cbs
    {
      Spec.Receiver(state, amqpState, receiverAmqpConnection.Abs(),
                    onEventReceiveCallback, onEventReceiveErrorCallback, onEventReceiveEndCallback, wasMessageReceived,
                    receiverQueryFilter, startTimestamp, lastActivityTimestamp, waitTimeoutInMs,
                    ext, extRefreshSasToken, session, log)
    }

    ghost predicate Valid()
      reads this, receiverAmqpConnection, receiverAmqpConnection.cbs
    {
      Inv(Abs()) && AuthSettled(Abs())
    }

    constructor (ext: Option<ExtConfig>)
      ensures Valid() && fresh(receiverAmqpConnection) && Abs() == Spec.NewReceiver(ext)
    {
      receiverAmqpConnection := new HandleStack();
      this.ext := ext;
      state, amqpState := Spec.Inactive, Uninitialized;
      onEventReceiveCallback, onEventReceiveErrorCallback, onEventReceiveEndCallback := false, false, false;
      wasMessageReceived, receiverQueryFilter, extRefreshSasToken := false, None, None;
      startTimestamp, lastActivityTimestamp, waitTimeoutInMs := 0, 0, 0;
      session, log := 0, [];
      new;
      RunKeeps(ext, []);
    }

    // -------------------------------------------------------------- the API

    /** EHR_LL_ReceiveAsyncCommon */
    method ReceiveAsync(receiveCb: bool, errorCb: bool, startSec: uint64, waitMs: uint32,
                        tick: Option<uint64>, filterOk: bool)
      returns (result: Spec.Result)
      modifies this
      ensures (Abs(), result) ==
        Spec.Receiving(old(Abs()), Spec.Receive(receiveCb, errorCb, startSec, waitMs, tick, filterOk))
      ensures old(Valid()) ==> Valid()
    {
      KeepsValid(Abs(), Spec.Receive(receiveCb, errorCb, startSec, waitMs, tick, filterOk));
      if !receiveCb || !errorCb {
        return Spec.ReceiverInvalidArg;
      }
      if state != Spec.Inactive {
        return Spec.NotAllowed;
      }
      var start := startSec * 1000 % 0x1_0000_0000_0000_0000;
      if waitMs != 0 {
        if tick == None {
          return Spec.ReceiverError;
        }
        lastActivityTimestamp := tick.value;
      }
      if !filterOk {
        receiverQueryFilter := None;
        return Spec.ReceiverError;
      }
      BeginSession(start, waitMs);
      return Spec.ReceiverOk;
    }

    method BeginSession(start: uint64, waitMs: uint32)
      modifies this
      ensures Abs() == Spec.Begun(old(Abs()), start, waitMs)
    {
      SetCallbacks(true, true, false);
      receiverQueryFilter, state := Some(start), Spec.Active;
      startTimestamp, waitTimeoutInMs := start, waitMs;
      session := session + 1;
      if waitMs != 0 {
        log := log + [Spec.Marked(session, lastActivityTimestamp)];
      }
    }

    method SetCallbacks(receiveCb: bool, errorCb: bool, endCb: bool)
      modifies this`onEventReceiveCallback, this`onEventReceiveErrorCallback,
        this`onEventReceiveEndCallback, this`wasMessageReceived
      ensures Abs() == Spec.WithCallbacks(old(Abs()), receiveCb, errorCb, endCb)
    {
      onEventReceiveCallback, onEventReceiveErrorCallback, onEventReceiveEndCallback := receiveCb, errorCb, endCb;
      wasMessageReceived := false;
    }

    /** EventHubReceiver_LL_ReceiveEndAsync: the tear-down is left to DoWork. */
    method ReceiveEndAsync(endCb: bool) returns (result: Spec.Result)
      modifies this`state, this`onEventReceiveEndCallback
      ensures (Abs(), result) == Spec.Ending(old(Abs()), endCb)
      ensures old(Valid()) ==> Valid()
    {
      KeepsValid(Abs(), Spec.ReceiveEnd(endCb));
      if state != Spec.Active {
        return Spec.NotAllowed;
      }
      state := Spec.InactivePending;
      onEventReceiveEndCallback := endCb;
      return Spec.ReceiverOk;
    }

    /** EventHubReceiver_LL_RefreshSASTokenAsync */
    method RefreshSasTokenAsync(token: Option<string>) returns (result: Spec.Result)
      modifies this`extRefreshSasToken
      ensures (Abs(), result) == Spec.Refreshing(old(Abs()), token)
      ensures old(Valid()) ==> Valid()
    {
      KeepsValid(Abs(), Spec.Refresh(token));
      if token == None {
        return Spec.ReceiverInvalidArg;
      }
      if ext == None || state != Spec.Active || extRefreshSasToken.Some? {
        return Spec.NotAllowed;
      }
      var parsed := SasToken.SasTokenParse(token.value);
      if parsed == None || parsed.value.uri != ext.value.uri {
        return Spec.ReceiverError;
      }
      extRefreshSasToken := token;
      return Spec.ReceiverOk;
    }

    /** The calls a user callback makes before it returns. */
    method React(calls: seq<Spec.ApiCall>)
      modifies this
      ensures Abs() == Spec.React(old(Abs()), calls)
    {
      for k := 0 to |calls|
        invariant Spec.React(Abs(), calls[k..]) == Spec.React(old(Abs()), calls)
      {
        assert calls[k..][1..] == calls[k + 1..];
        var result;
        match calls[k] {
          case Receive(receiveCb, errorCb, startSec, waitMs, tick, filterOk) =>
            result := ReceiveAsync(receiveCb, errorCb, startSec, waitMs, tick, filterOk);
          case ReceiveEnd(endCb) =>
            result := ReceiveEndAsync(endCb);
          case Refresh(token) =>
            result := RefreshSasTokenAsync(token);
        }
      }
    }

    // -------------------------------------------------------------- callbacks

    /** EHR_LL_OnMessageReceived, once the message has been read. */
    method OnMessageReceived(event: EventData, react: seq<Spec.ApiCall>)
      modifies this
      ensures Abs() == Spec.OnMessage(old(Abs()), event, react)
    {
      wasMessageReceived := true;
      if !onEventReceiveCallback {
        log := log + [Spec.NullCalled(session)];
        return;
      }
      log := log + [Spec.Received(session, event)];
      React(react);
    }

    method CallErrorCallback(code: Spec.ErrorCode, guarded: bool, react: seq<Spec.ApiCall>)
      modifies this
      ensures Abs() == Spec.OnError(old(Abs()), code, guarded, react)
    {
      if onEventReceiveErrorCallback {
        log := log + [Spec.Errored(session, code)];
        React(react);
      } else if !guarded {
        log := log + [Spec.NullCalled(session)];
      }
    }

    // -------------------------------------------------------------- the AMQP stack

    method TeardownReceiverStack()
      modifies this, receiverAmqpConnection
      ensures Abs() == Spec.TornDownReceiver(old(Abs())) && receiverAmqpConnection.cbs == null
    {
      receiverAmqpConnection.TearDown();
      amqpState := Uninitialized;
      receiverQueryFilter := None;
      SetCallbacks(false, false, onEventReceiveEndCallback);
      startTimestamp, waitTimeoutInMs, lastActivityTimestamp := 0, 0, 0;
      extRefreshSasToken := None;
      state := Spec.Inactive;
    }

    /** EventHubAMQP_InitializeStackCommon, with the state change after it. */
    method InitializeStackCommon(env: CommonEnv) returns (ok: bool)
      modifies this, receiverAmqpConnection
      ensures (Abs(), ok) == Spec.CommonUp(old(Abs()), env)
      ensures receiverAmqpConnection.cbs == null || fresh(receiverAmqpConnection.cbs)
    {
      ok := receiverAmqpConnection.Rebuild(ClientConfig(ext, waitTimeoutInMs / 1000), env.(hostName := true));
      if ok {
        amqpState := PendingAuthorization;
      } else {
        receiverAmqpConnection.TearDown();
      }
    }

    /** EventHubAMQP_InitializeStackReceiver, with the state change after it. */
    method InitializeStackReceiver(env: EndpointEnv, tick: Option<uint64>) returns (ok: bool)
      modifies this, receiverAmqpConnection
      ensures (Abs(), ok) == Spec.EndpointUp(old(Abs()), env, tick)
      ensures receiverAmqpConnection.cbs == null || receiverAmqpConnection.cbs == old(receiverAmqpConnection.cbs)
    {
      ok := receiverAmqpConnection.BuildEndpoint(env);
      if !ok {
        receiverAmqpConnection.TearDown();
        return;
      }
      if waitTimeoutInMs > 0 {
        if tick == None {
          return false;
        }
        lastActivityTimestamp := tick.value;
        log := log + [Spec.Marked(session, tick.value)];
      }
      amqpState := Initialized;
    }

    /** EventHubConnectionAMQP_ReceiverInitialize, when DoWork calls it. */
    method ReceiverInitialize(env: Spec.DoWorkEnv) returns (ok: bool)
      modifies this, receiverAmqpConnection
      ensures (Abs(), ok) == Spec.Up(old(Abs()), env)
      ensures
        var cbs := receiverAmqpConnection.cbs; cbs == null || cbs == old(receiverAmqpConnection.cbs) || fresh(cbs)
    {
      ok := true;
      if amqpState == Uninitialized {
        ok := InitializeStackCommon(env.common);
      } else if amqpState == PendingEndpointCreate {
        ok := InitializeStackReceiver(env.endpoint, env.endpointTick);
      }
    }

    method Deliver(item: Spec.IoItem)
      modifies this, receiverAmqpConnection.cbs
      ensures Abs() == Spec.Deliver(old(Abs()), item)
    {
      match item {
        case MessageIn(parsed, event, react) =>
          if parsed && receiverAmqpConnection.endpoint.Some? {
            OnMessageReceived(event, react);
          }
        case LinkError(react) =>
          if receiverAmqpConnection.endpoint.Some? {
            CallErrorCallback(Spec.ConnectionRuntimeError, true, react);
          }
        case PutAnswer(ok) =>
          receiverAmqpConnection.AnswerPut(ok);
      }
    }

    /** EventHubConnectionAMQP_ConnectionDoWork */
    method ConnectionDoWork(items: seq<Spec.IoItem>)
      modifies this, receiverAmqpConnection`lib, receiverAmqpConnection.cbs
      ensures Abs() == Spec.ConnectionWork(old(Abs()), items)
    {
      if amqpState == Uninitialized {
        return;
      }
      receiverAmqpConnection.Call(receiverAmqpConnection.connection);
      ghost var r := Abs();
      for k := 0 to |items|
        invariant Spec.DeliverAll(Abs(), items[k..]) == Spec.DeliverAll(r, items)
      {
        assert items[k..][1..] == items[k + 1..];
        Deliver(items[k]);
      }
    }

    // -------------------------------------------------------------- DoWork

    method HandleSasTokenAuth(env: AuthEnv) returns (verdict: Verdict)
      modifies this`amqpState, this`extRefreshSasToken, receiverAmqpConnection`lib, receiverAmqpConnection.cbs
      ensures (Abs(), verdict) == Spec.AuthorizeReceiver(old(Abs()), env)
    {
      var checkedAt;
      amqpState, extRefreshSasToken, verdict, checkedAt :=
        receiverAmqpConnection.HandleSasTokenAuth(amqpState, extRefreshSasToken, env);
    }

    method CheckActivity(now: Option<uint64>, onTimeout: seq<Spec.ApiCall>)
      modifies this
      ensures Abs() == Spec.CheckActivity(old(Abs()), now, onTimeout)
    {
      if waitTimeoutInMs == 0 {
        return;
      }
      if now == None {
        log := log + [Spec.TickFailed(session)];
      } else if !wasMessageReceived {
        var timespan := Sub64(now.value, lastActivityTimestamp);
        if timespan >= waitTimeoutInMs {
          if onEventReceiveCallback {
            log := log + [Spec.TimeoutReported(session, now.value, waitTimeoutInMs)];
            React(onTimeout);
          }
          lastActivityTimestamp := now.value;
        }
      } else {
        lastActivityTimestamp := now.value;
        log := log + [Spec.Accounted(session, now.value)];
      }
    }

    method FinishSession(onEnd: seq<Spec.ApiCall>)
      modifies this, receiverAmqpConnection
      ensures Abs() == Spec.Finished(old(Abs()), onEnd) && receiverAmqpConnection.cbs == null
    {
      TeardownReceiverStack();
      if onEventReceiveEndCallback {
        log := log + [Spec.Ended(session)];
        React(onEnd);
        onEventReceiveEndCallback := false;
      }
    }

    method AuthorizeAndReceive(env: Spec.DoWorkEnv)
      modifies this, receiverAmqpConnection, receiverAmqpConnection.cbs
      ensures Abs() == Spec.AuthorizedWork(old(Abs()), env)
      ensures receiverAmqpConnection.cbs == null || receiverAmqpConnection.cbs == old(receiverAmqpConnection.cbs)
    {
      var verdict := HandleSasTokenAuth(env.auth);
      match verdict {
        case AuthFailed =>
          CallErrorCallback(Spec.AuthFailure, false, env.onError);
          TeardownReceiverStack();
        case AuthTimedOut =>
          CallErrorCallback(Spec.AuthTimeout, false, env.onError);
          TeardownReceiverStack();
        case AuthWaiting =>
          ConnectionDoWork(env.items);
        case AuthReady =>
          if amqpState == Initialized {
            ConnectionDoWork(env.items);
            CheckActivity(env.now, env.onTimeout);
            wasMessageReceived := false;
          }
      }
    }

    /** EventHubReceiver_LL_DoWork */
    method DoWork(env: Spec.DoWorkEnv)
      requires Valid()
      modifies this, receiverAmqpConnection, receiverAmqpConnection.cbs
      ensures Valid() && Abs() == Spec.DoWork(old(Abs()), env)
      ensures old(HandlesAgree(Abs())) ==> (HandlesAgree(Abs()) <==> !old(LinkFails(Abs(), env)))
      ensures
        var cbs := receiverAmqpConnection.cbs; cbs == null || cbs == old(receiverAmqpConnection.cbs) || fresh(cbs)
    {
      WorkKeepsValid(Abs(), env);
      Work(env);
    }

    method Work(env: Spec.DoWorkEnv)
      modifies this, receiverAmqpConnection, receiverAmqpConnection.cbs
      ensures Abs() == Spec.DoWork(old(Abs()), env)
      ensures
        var cbs := receiverAmqpConnection.cbs; cbs == null || cbs == old(receiverAmqpConnection.cbs) || fresh(cbs)
    {
      if state == Spec.InactivePending {
        FinishSession(env.onEnd);
      } else if state == Spec.Active {
        var ok := ReceiverInitialize(env);
        if ok {
          AuthorizeAndReceive(env);
        }
      }
    }

    /** EventHubReceiver_LL_Destroy */
    method Destroy()
      modifies this, receiverAmqpConnection
      ensures Abs() == Spec.Destroyed(old(Abs()))
      ensures old(HandlesAgree(Abs())) ==> receiverAmqpConnection.lib.sound && receiverAmqpConnection.lib.live == []
    {
      DestroyAgrees(Abs());
      TeardownReceiverStack();
    }
  }

  lemma KeepsValid(r: Spec.Receiver, call: Spec.ApiCall)
    ensures Inv(r) && AuthSettled(r) ==> Inv(Spec.Api(r, call).0) && AuthSettled(Spec.Api(r, call).0)
  {
    ApiFrame(r, call);
    if Inv(r) {
      ApiKeeps(r, call);
    }
  }

  lemma WorkKeepsValid(r: Spec.Receiver, env: Spec.DoWorkEnv)
    requires Inv(r) && AuthSettled(r)
    ensures Inv(Spec.DoWork(r, env)) && AuthSettled(Spec.DoWork(r, env))
    ensures HandlesAgree(r) ==> (HandlesAgree(Spec.DoWork(r, env)) <==> !LinkFails(r, env))
  {
    DoWorkKeeps(r, env);
    if HandlesAgree(r) {
      DoWorkAgreesExactly(r, env);
    }
  }

  lemma DestroyAgrees(r: Spec.Receiver)
    ensures HandlesAgree(r) ==> HandlesAgree(Spec.Destroyed(r))
  {
    if HandlesAgree(r) {
      TornDownAgrees(r, Stage(r.amqp));
    }
  }
}
