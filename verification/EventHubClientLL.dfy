/**
 The sender client of eventhubclient_ll.c in place. Every method acts on the client's state as the function of
 SenderSpec that its contract names; the methods of the API keep the client valid, which is the invariant of
 SenderInvariant.
 */
module EventHubClientLL {
  import opened Common
  import opened Events
  import opened EventHubAuth
  import opened TokenLifecycle
  import opened AmqpStack
  import opened SendQueue
  import opened OutgoingEvents
  import Spec = SenderSpec
  import SenderInvariant
  import SenderGuarantees

  class Client {
    const outgoing: OutgoingQueue
    const stack: HandleStack
    const ext: Option<ExtConfig>
    var amqpState: AmqpState
    var senderState: Spec.SenderState
    var msgTimeout: uint64
    var refreshToken: Option<string>
    var errorCb: bool
    var reported: seq<Spec.FailureCode>  // what the error callback was told

    ghost predicate Valid()
      reads this, outgoing, outgoing.Repr, stack, stack.cbs
    {
      Framed() && SenderInvariant.SenderInv(Abs())
    }

    ghost predicate Framed()
      reads this, outgoing, outgoing.Repr, stack
    {
      outgoing.Valid() && this !in outgoing.Repr && stack !in outgoing.Repr && stack.cbs !in outgoing.Repr
    }

    ghost function Abs(): Spec.Sender
      reads this, outgoing, outgoing.list, stack, stack.cbs
    {
      Spec.Sender(outgoing.Abs(), amqpState, stack.Abs(), senderState, msgTimeout, ext, refreshToken, errorCb, reported)
    }

    constructor (ext: Option<ExtConfig>)
      ensures Valid() && fresh(outgoing.Repr) && fresh(stack) && Abs() == Spec.NewSender(ext)
    {
      outgoing := new OutgoingQueue();
      stack := new HandleStack();
      amqpState, senderState, msgTimeout := Uninitialized, Spec.SenderIdle, 0;
      this.ext := ext;
      refreshToken, errorCb, reported := None, false, [];
      new;
      SenderInvariant.RunKeeps(ext, []);
    }

    // -------------------------------------------------------------- the AMQP stack

    method DestroyUamqpStack(answers: seq<(nat, bool)>)
      requires Framed()
      modifies this, stack, outgoing.Repr
      ensures Framed() && outgoing.Repr == old(outgoing.Repr) && stack.cbs == null
      ensures Abs() == Spec.Down(old(Abs()), answers)
    {
      if stack.endpoint.Some? {
        outgoing.AbandonSends(answers);
      }
      stack.TearDown();
      refreshToken := None;
      senderState := Spec.SenderIdle;
      amqpState := Uninitialized;
    }

    method InitializeUamqpStack(env: Spec.DoWorkEnv) returns (ok: bool)
      requires Framed()
      modifies this, stack, outgoing.Repr
      ensures Framed() && outgoing.Repr == old(outgoing.Repr)
      ensures (Abs(), ok) == Spec.Up(old(Abs()), env)
      ensures stack.cbs == null || stack.cbs == old(stack.cbs) || fresh(stack.cbs)
    {
      ok := RaiseStack(env.common, env.endpoint);
      if !ok {
        DestroyUamqpStack(env.teardown);
      }
    }

    method RaiseStack(common: CommonEnv, endpoint: EndpointEnv) returns (ok: bool)
      modifies this, stack
      ensures (Abs(), ok) == Spec.Raised(old(Abs()), common, endpoint)
      ensures stack.cbs == null || stack.cbs == old(stack.cbs) || fresh(stack.cbs)
    {
      if amqpState == Uninitialized {
        ok := RaiseCommon(common);
      } else if amqpState == PendingEndpointCreate {
        ok := RaiseEndpoint(endpoint);
      } else {
        ok := true;
      }
    }

    /** initialize_uamqp_stack_common */
    method RaiseCommon(env: CommonEnv) returns (ok: bool)
      modifies this, stack
      ensures (Abs(), ok) == Spec.RaisedCommon(old(Abs()), env)
      ensures stack.cbs == null || stack.cbs == old(stack.cbs) || fresh(stack.cbs)
    {
      senderState := Spec.SenderIdle;
      ok := stack.BuildCommon(CbsConfig(), env);
      if ok {
        amqpState := PendingAuthorization;
      }
    }

    /** initialize_uamqp_sender_stack */
    method RaiseEndpoint(env: EndpointEnv) returns (ok: bool)
      modifies this, stack
      ensures (Abs(), ok) == Spec.RaisedEndpoint(old(Abs()), env) && stack.cbs == old(stack.cbs)
    {
      ok := stack.BuildEndpoint(env.(open := true));
      if ok {
        amqpState := Initialized;
      }
    }

    /** create_sas_token */
    function CbsConfig(): AuthConfig
      reads this
    {
      var timeout := if msgTimeout < Spec.INT_MAX then msgTimeout else Spec.INT_MAX;
      ClientConfig(ext, timeout)
    }

    method ReportError(code: Spec.FailureCode)
      modifies this`reported
      ensures reported == if errorCb then old(reported) + [code] else old(reported)
    {
      if errorCb {
        reported := reported + [code];
      }
    }

    /** on_message_sender_state_changed, for each change the message sender reports. */
    method ChangeStates(cs: seq<Spec.StateChange>)
      modifies this`senderState, this`reported
      ensures Abs() == Spec.StatesChanged(old(Abs()), cs)
    {
      for k := 0 to |cs|
        invariant Abs() == Spec.StatesChanged(old(Abs()), cs[..k])
      {
        assert cs[..k + 1][..k] == cs[..k];
        senderState := cs[k].0;
        if cs[k].0 != cs[k].1 && cs[k].0 == Spec.SenderError {
          ReportError(Spec.SocketSendFailure);
        }
      }
      assert cs[..|cs|] == cs;
    }

    /** connection_dowork, with the callbacks it makes. */
    method ConnectionDoWork(io: Spec.IoEnv)
      requires Framed()
      modifies this, stack`lib, stack.cbs, outgoing.Repr
      ensures Framed() && outgoing.Repr == old(outgoing.Repr)
      ensures Abs() == Spec.ConnectionWork(old(Abs()), io)
    {
      ReceiveAnswers(io);
      ChangeStates(io.changes);
    }

    method ReceiveAnswers(io: Spec.IoEnv)
      requires Framed()
      modifies stack`lib, stack.cbs, outgoing.Repr
      ensures Framed() && outgoing.Repr == old(outgoing.Repr)
      ensures Abs() == Spec.Answered(old(Abs()), io)
    {
      stack.Call(stack.connection);
      outgoing.AnswerSends(io.answers);
      if io.put.Some? {
        stack.AnswerPut(io.put.value);
      }
    }

    // -------------------------------------------------------------- sending

    method SendMessages(checkedAt: uint64, env: Spec.DoWorkEnv)
      requires Framed()
      modifies this, stack`lib, stack.cbs, outgoing.Repr
      ensures Framed() && outgoing.Repr == old(outgoing.Repr)
      ensures Abs() == Spec.SendPass(old(Abs()), checkedAt, env)
    {
      if senderState == Spec.SenderIdle {
        stack.Call(stack.endpoint);
        ChangeStates(env.openChanges);
        if !env.openOk {
          return;
        }
      }
      SendPending(checkedAt, env.entry);
      ConnectionDoWork(env.io);
    }

    method SendPending(checkedAt: uint64, entry: nat -> EntryEnv)
      requires Framed()
      modifies outgoing.Repr
      ensures Framed() && outgoing.Repr == old(outgoing.Repr)
      ensures Abs() == Spec.Passed(old(Abs()), checkedAt, entry)
    {
      var installed := if stack.cbs == null then None else stack.cbs.installed;
      outgoing.SendAll(msgTimeout, Stamp(stack.endpoint, installed, checkedAt), entry);
    }

    /** EventHubClient_LL_DoWork */
    method DoWork(env: Spec.DoWorkEnv)
      requires Valid()
      modifies this, stack, stack.cbs, outgoing.Repr
      ensures Valid() && outgoing.Repr == old(outgoing.Repr)
      ensures Abs() == Spec.DoWork(old(Abs()), env)
    {
      SenderInvariant.DoWorkKeeps(Abs(), env);
      Work(env);
    }

    method Work(env: Spec.DoWorkEnv)
      requires Framed()
      modifies this, stack, stack.cbs, outgoing.Repr
      ensures Framed() && outgoing.Repr == old(outgoing.Repr)
      ensures Abs() == Spec.DoWork(old(Abs()), env)
    {
      var ok := InitializeUamqpStack(env);
      if !ok {
        ReportError(Spec.AmqpInitFailure);
      } else if senderState == Spec.SenderError {
        DestroyUamqpStack(env.teardown);
      } else {
        AuthorizeAndSend(env);
      }
    }

    method HandleSasTokenAuth(env: AuthEnv) returns (verdict: Verdict, checkedAt: uint64)
      modifies this`refreshToken, this`amqpState, stack`lib, stack.cbs
      ensures (Abs(), verdict, checkedAt) == Spec.AuthorizeSender(old(Abs()), env)
    {
      amqpState, refreshToken, verdict, checkedAt := stack.HandleSasTokenAuth(amqpState, refreshToken, env);
    }

    /** The rest of DoWork, once the stack is up. */
    method AuthorizeAndSend(env: Spec.DoWorkEnv)
      requires Framed()
      modifies this, stack, stack.cbs, outgoing.Repr
      ensures Framed() && outgoing.Repr == old(outgoing.Repr)
      ensures Abs() == Spec.AuthorizedWork(old(Abs()), env)
    {
      var verdict, checkedAt := HandleSasTokenAuth(env.auth);
      match verdict {
        case AuthFailed =>
          ReportError(Spec.SasTokenAuthFailure);
          DestroyUamqpStack(env.teardown);
        case AuthTimedOut =>
          ReportError(Spec.SasTokenAuthTimeout);
          DestroyUamqpStack(env.teardown);
        case AuthWaiting =>
          ConnectionDoWork(env.io);
        case AuthReady =>
          if amqpState == Initialized {
            SendMessages(checkedAt, env);
          }
      }
    }

    // -------------------------------------------------------------- the API

    /** EventHubClient_LL_RefreshSASTokenAsync */
    method RefreshSasTokenAsync(token: Option<string>) returns (result: Spec.Result)
      requires Valid()
      modifies this`refreshToken
      ensures Valid() && (Abs(), result) == Spec.RefreshAsync(old(Abs()), token)
    {
      SenderInvariant.StepKeeps(Abs(), SenderInvariant.OpRefresh(token));
      result := KeepToken(token);
    }

    method KeepToken(token: Option<string>) returns (result: Spec.Result)
      modifies this`refreshToken
      ensures (Abs(), result) == Spec.RefreshAsync(old(Abs()), token)
    {
      if token == None {
        return Spec.InvalidArgument;
      }
      if ext == None || amqpState != Initialized || refreshToken.Some? {
        return Spec.Failed;
      }
      var parsed := SasToken.SasTokenParse(token.value);
      if parsed == None || parsed.value.uri != ext.value.uri {
        return Spec.Failed;
      }
      refreshToken := token;
      return Spec.Done;
    }

    /** EventHubClient_LL_SendAsync */
    method SendAsync(event: Option<EventData>, callback: bool, context: bool, env: Spec.SendEnv)
      returns (result: Spec.Result)
      requires Valid()
      modifies outgoing.Repr
      ensures Valid() && fresh(outgoing.Repr - old(outgoing.Repr))
      ensures (Abs(), result) == Spec.SendAsync(old(Abs()), event, callback, context, env)
    {
      SenderInvariant.StepKeeps(Abs(), SenderInvariant.OpSend(event, callback, context, env));
      result := Send(event, callback, context, env);
    }

    method Send(event: Option<EventData>, callback: bool, context: bool, env: Spec.SendEnv)
      returns (result: Spec.Result)
      requires Framed()
      modifies outgoing.Repr
      ensures Framed() && fresh(outgoing.Repr - old(outgoing.Repr))
      ensures (Abs(), result) == Spec.SendAsync(old(Abs()), event, callback, context, env)
    {
      if event == None || (!callback && context) {
        return Spec.InvalidArgument;
      }
      if !env.allocOk || !env.cloneOk {
        return Spec.Failed;
      }
      outgoing.clones := outgoing.clones + 1;
      outgoing.Enqueue([event.value], callback, env.now);
      return Spec.Done;
    }

    /** ValidateEventDataList */
    static method ValidateEventDataList(events: seq<Option<EventData>>) returns (ok: bool)
      ensures ok <==> Spec.OneKey(events)
    {
      var partitionKey: Option<string> := None;
      for index := 0 to |events|
        invariant forall i :: 0 <= i < index ==> events[i].Some? && events[i].value.partitionKey == partitionKey
      {
        if events[index] == None {
          return false;
        }
        var currPartKey := events[index].value.partitionKey;
        if index == 0 {
          partitionKey := currPartKey;
        } else if currPartKey.Some? != partitionKey.Some? {
          return false;
        } else if currPartKey.Some? && currPartKey.value != partitionKey.value {
          return false;
        }
      }
      return true;
    }

    /** EventHubClient_LL_SendBatchAsync */
    method SendBatchAsync(events: Option<seq<Option<EventData>>>, callback: bool, context: bool, env: Spec.BatchEnv)
      returns (result: Spec.Result)
      requires Valid()
      modifies outgoing.Repr
      ensures Valid() && fresh(outgoing.Repr - old(outgoing.Repr))
      ensures (Abs(), result) == Spec.SendBatchAsync(old(Abs()), events, callback, context, env)
    {
      SenderInvariant.StepKeeps(Abs(), SenderInvariant.OpSendBatch(events, callback, context, env));
      result := SendBatch(events, callback, context, env);
    }

    method SendBatch(events: Option<seq<Option<EventData>>>, callback: bool, context: bool, env: Spec.BatchEnv)
      returns (result: Spec.Result)
      requires Framed()
      modifies outgoing.Repr
      ensures Framed() && fresh(outgoing.Repr - old(outgoing.Repr))
      ensures (Abs(), result) == Spec.SendBatchAsync(old(Abs()), events, callback, context, env)
    {
      if events == None || events.value == [] || (!callback && context) {
        return Spec.InvalidArgument;
      }
      var ok := ValidateEventDataList(events.value);
      if !ok || !env.allocOk {
        return Spec.Failed;
      }
      ok := CloneAndEnqueue(Spec.Values(events.value), callback, env);
      result := if ok then Spec.Done else Spec.Failed;
    }

    method CloneAndEnqueue(list: seq<EventData>, callback: bool, env: Spec.BatchEnv) returns (ok: bool)
      requires Framed()
      modifies outgoing.Repr
      ensures Framed() && fresh(outgoing.Repr - old(outgoing.Repr))
      ensures ok <==> forall i :: 0 <= i < |list| ==> env.cloneOk(i)
      ensures var s := old(Abs()); Abs() == if ok then s.(queue := Accept(s.queue, list, callback, env.now)) else s
    {
      ok := outgoing.CloneAll(list, env.cloneOk);
      if ok {
        outgoing.Enqueue(list, callback, env.now);
      }
    }

    method SetMessageTimeout(timeout: uint64)
      requires Valid()
      modifies this`msgTimeout
      ensures Valid() && Abs() == old(Abs()).(msgTimeout := timeout)
    {
      msgTimeout := timeout;
    }

    method SetErrorCallback(on: bool)
      requires Valid()
      modifies this`errorCb
      ensures Valid() && Abs() == old(Abs()).(errorCb := on)
    {
      errorCb := on;
    }

    /** EventHubClient_LL_Destroy; the client is not used afterwards. */
    method Destroy(answers: seq<(nat, bool)>)
      requires Valid()
      modifies this, stack, outgoing.Repr
      ensures Abs() == Spec.Destroyed(old(Abs()), answers) && SenderGuarantees.Finished(Abs())
      ensures |outgoing.freed| == outgoing.next == old(outgoing.next)
    {
      SenderGuarantees.DestroyConfirmsAll(Abs(), answers);
      DestroyUamqpStack(answers);
      outgoing.DestroyEntries();
    }
  }
}
