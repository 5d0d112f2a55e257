/** What the sender promises over every run, from creation to Destroy. */
module SenderGuarantees {
  import opened Common
  import opened Events
  import opened EventHubAuth
  import opened TokenLifecycle
  import opened AmqpStack
  import opened SendQueue
  import opened SendQueueInvariant
  import opened SenderSpec
  import opened SenderInvariant
  import opened SenderLogs

  /** Confirmation: in every reachable state accepted entries are queued or confirmed, never both, never twice. */
  lemma RunConfirmsAtMostOnce(ext: Option<ExtConfig>, ops: seq<Op>, id: nat)
    ensures var q := Run(NewSender(ext), ops).queue;
      && Confirmations(q.log, id) <= 1
      && (id < q.next <==> InQueue(q.entries, id) || Confirmations(q.log, id) == 1)
      && !(InQueue(q.entries, id) && Confirmations(q.log, id) == 1)
  {
    RunKeeps(ext, ops);
  }

  /** All accepted entries confirmed once, no clone left, all handles destroyed in order. */
  ghost predicate Finished(d: Sender) {
    && d.queue.entries == [] && d.queue.clones == 0
    && (forall id: nat :: Confirmations(d.queue.log, id) == if id < d.queue.next then 1 else 0)
    && d.stack.h == NO_HANDLES && d.stack.lib.sound && d.stack.lib.live == []
  }

  /** After Destroy: every accepted entry confirmed exactly once, all clones and all handles gone, these in order. */
  lemma RunThenDestroy(ext: Option<ExtConfig>, ops: seq<Op>, answers: seq<(nat, bool)>)
    ensures var s := Run(NewSender(ext), ops);
      var d := Destroyed(s, answers);
      Finished(d) && d.queue.next == s.queue.next
  {
    RunKeeps(ext, ops);
    DestroyConfirmsAll(Run(NewSender(ext), ops), answers);
  }

  lemma DestroyConfirmsAll(s: Sender, answers: seq<(nat, bool)>)
    requires SenderInv(s)
    ensures Finished(Destroyed(s, answers)) && Destroyed(s, answers).queue.next == s.queue.next
  {
    DownKeeps(s, answers, Stage(s.amqp));
    DestroyAllConfirmsAll(Down(s, answers).queue);
    AnswersKeepNext(s.queue, answers);
  }

  /** FIFO and send-once: the calls to messagesender_send_async follow acceptance order, none is repeated. */
  lemma RunSendsInOrder(ext: Option<ExtConfig>, ops: seq<Op>, i: nat, j: nat)
    requires var s := Sends(Run(NewSender(ext), ops).queue.log); i < j < |s|
    ensures var q := Run(NewSender(ext), ops).queue;
      Sends(q.log)[i] < Sends(q.log)[j] < q.next
  {
    RunKeeps(ext, ops);
  }

  /** A confirmation OK is preceded by AMQP's report that this entry was sent. */
  lemma RunConfirmsOkOnlyWhenSent(ext: Option<ExtConfig>, ops: seq<Op>, i: nat)
    requires var log := Run(NewSender(ext), ops).queue.log; i < |log| && log[i].Confirmed? && log[i].result == ConfirmOk
    ensures var log := Run(NewSender(ext), ops).queue.log; AmqpDone(log[i].id, true) in log[..i]
  {
    RunKeeps(ext, ops);
  }

  /**
   Handle and state agreement: the AMQP state says how many handles exist; exactly those fields are non-NULL and
   they are the library's live handles in creation order; no call so far got a NULL or dead handle.
   */
  lemma RunHandlesAgree(ext: Option<ExtConfig>, ops: seq<Op>, k: nat)
    requires k < 8
    ensures var s := Run(NewSender(ext), ops);
      && s.stack.lib.sound && |s.stack.lib.live| == Stage(s.amqp)
      && s.stack.h.Order()[k] == if k < Stage(s.amqp) then Some(s.stack.lib.live[k]) else None
  {
    RunKeeps(ext, ops);
  }

  /** Between two calls a live CBS handle has at most one put outstanding, exactly while its status is IN_PROGRESS. */
  lemma RunOnePutOutstanding(ext: Option<ExtConfig>, ops: seq<Op>)
    ensures var s := Run(NewSender(ext), ops);
      s.stack.auth.Some? ==>
        && s.stack.auth.value.status in {InProgress, Ok, Failure}
        && |s.stack.auth.value.puts| == if s.stack.auth.value.status == InProgress then 1 else 0
  {
    RunKeeps(ext, ops);
  }

  // ---------------------------------------------------------------- the token in force at a hand-over

  /** `b` continues `a`, and hands nothing over meanwhile. */
  predicate Quiet(a: seq<SendEvent>, b: seq<SendEvent>) {
    a <= b && forall i :: |a| <= i < |b| ==> !b[i].HandedOver?
  }

  lemma {:induction false} AnswersAreQuiet(q: Queue, answers: seq<(nat, bool)>)
    ensures Quiet(q.log, CompleteAll(q, answers).log)
    decreases |answers|
  {
    if answers != [] {
      AnswersAreQuiet(Complete(q, answers[0].0, answers[0].1), answers[1..]);
    }
  }

  /** `b` continues `a`, and what it hands over meanwhile carries `stamp`. */
  predicate Under(a: seq<SendEvent>, b: seq<SendEvent>, stamp: Stamp) {
    a <= b && forall i :: |a| <= i < |b| && b[i].HandedOver? ==> b[i].stamp == stamp
  }

  lemma ConnectionWorkIsQuiet(s: Sender, io: IoEnv)
    ensures Quiet(s.queue.log, ConnectionWork(s, io).queue.log)
  {
    AnswersAreQuiet(s.queue, io.answers);
    StatesChangedOnly(Answered(s, io), io.changes);
  }

  lemma SendPassLogs(a: Sender, checkedAt: uint64, env: DoWorkEnv)
    ensures Under(a.queue.log, SendPass(a, checkedAt, env).queue.log, StampOf(a, checkedAt))
  {
    StatesChangedOnly(OpenCalled(a), env.openChanges);
    var r := if a.senderState == SenderIdle then StatesChanged(OpenCalled(a), env.openChanges) else a;
    WalkIsAFilter(r.queue, 0, r.msgTimeout, StampOf(r, checkedAt), env.entry);
    PassHandsOverUnderStamp(r.queue.entries[0..], r.msgTimeout, StampOf(r, checkedAt), env.entry);
    ConnectionWorkIsQuiet(Passed(r, checkedAt, env.entry), env.io);
  }

  /** A pass only hands over once it is authorized and the stack is up, under the stamp of that state. */
  lemma AuthorizedWorkLogs(u: Sender, env: DoWorkEnv)
    ensures var (a, verdict, checkedAt) := AuthorizeSender(u, env.auth);
      var before, after := u.queue.log, AuthorizedWork(u, env).queue.log;
      if verdict == AuthReady && a.amqp == Initialized then Under(before, after, StampOf(a, checkedAt))
      else Quiet(before, after)
  {
    var (a, verdict, checkedAt) := AuthorizeSender(u, env.auth);
    AnswersAreQuiet(u.queue, env.teardown);
    ConnectionWorkIsQuiet(a, env.io);
    SendPassLogs(a, checkedAt, env);
  }

  lemma DoWorkLogs(s: Sender, env: DoWorkEnv)
    ensures var (u, ok) := Up(s, env);
      if ok && u.senderState != SenderError then DoWork(s, env) == AuthorizedWork(u, env) && u.queue == s.queue
      else Quiet(s.queue.log, DoWork(s, env).queue.log)
  {
    AnswersAreQuiet(s.queue, env.teardown);
  }

  /**
   Token in force at send, for the AUTO credential: when a DoWork after any run hands an entry over, the last put that
   completed with success was for a token minted at `created`, and every clock reading of this pass that looked at the
   token found it younger than 3600 seconds - also when the pass itself started a refresh.
   */
  lemma HandOverUnderLiveToken(ops: seq<Op>, env: DoWorkEnv, i: nat)
    ensures var s := Run(NewSender(None), ops);
      var log := DoWork(s, env).queue.log;
      |s.queue.log| <= i < |log| && log[i].HandedOver? ==>
        && s.stack.auth.Some? && s.stack.auth.value.status == Ok && env.auth.poll.Some?
        && var created, stamp := s.stack.auth.value.created, log[i].stamp;
        && s.stack.auth.value.installed == stamp.token == Some(Minted(created))
        && stamp.sender.Some?
        && Sub64(env.auth.poll.value, created) < AUTH_EXPIRATION_SECS
        && Sub64(stamp.checkedAt, created) < AUTH_EXPIRATION_SECS
        && Some(stamp.checkedAt) in {env.auth.poll, env.auth.refresh.poll}
  {
    RunKeeps(None, ops);
    var s := Run(NewSender(None), ops);
    if |s.queue.log| <= i < |DoWork(s, env).queue.log| && DoWork(s, env).queue.log[i].HandedOver? {
      DoWorkUnderLiveToken(s, env, i);
    }
  }

  lemma DoWorkUnderLiveToken(s: Sender, env: DoWorkEnv, i: nat)
    requires SenderInv(s) && s.ext == None
    requires |s.queue.log| <= i < |DoWork(s, env).queue.log| && DoWork(s, env).queue.log[i].HandedOver?
    ensures s.stack.auth.Some? && s.stack.auth.value.status == Ok && env.auth.poll.Some?
    ensures var created := s.stack.auth.value.created;
      var stamp := DoWork(s, env).queue.log[i].stamp;
      && s.stack.auth.value.installed == stamp.token == Some(Minted(created))
      && stamp.sender.Some?
      && Sub64(env.auth.poll.value, created) < AUTH_EXPIRATION_SECS
      && Sub64(stamp.checkedAt, created) < AUTH_EXPIRATION_SECS
      && Some(stamp.checkedAt) in {env.auth.poll, env.auth.refresh.poll}
  {
    DoWorkLogs(s, env);
    UpKeeps(s, env);
    var u := Up(s, env).0;
    AuthorizedWorkLogs(u, env);
    AuthorizeKeeps(u, env.auth);
    HandOverNeedsLiveToken(u, env.auth);
    UpKeepsAuth(s, env);
  }

  /** Bring-up makes a new CBS handle or leaves the one there is. */
  lemma UpKeepsAuth(s: Sender, env: DoWorkEnv)
    requires SenderInv(s) && Up(s, env).1
    ensures var u := Up(s, env).0;
      u.stack.auth == s.stack.auth || (u.stack.auth.Some? && JustCreated(u.stack.auth.value))
  {
    if s.amqp == Uninitialized {
      CommonBuiltAgrees(s.stack, AuthConfigOf(s), env.common);
    } else if s.amqp == PendingEndpointCreate {
      EndpointBuiltAgrees(s.stack, env.endpoint.(open := true));
    }
  }

  lemma HandOverNeedsLiveToken(u: Sender, env: AuthEnv)
    requires MidPass(u) && u.ext == None && u.amqp != Uninitialized
    requires AuthorizeSender(u, env).1 == AuthReady && AuthorizeSender(u, env).0.amqp == Initialized
    ensures u.stack.auth.Some? && u.stack.auth.value.status == Ok && env.poll.Some?
    ensures var created := u.stack.auth.value.created;
      var stamp := StampOf(AuthorizeSender(u, env).0, AuthorizeSender(u, env).2);
      && u.stack.auth.value.installed == stamp.token == Some(Minted(created))
      && stamp.sender.Some?
      && Sub64(env.poll.value, created) < AUTH_EXPIRATION_SECS
      && Sub64(stamp.checkedAt, created) < AUTH_EXPIRATION_SECS
      && Some(stamp.checkedAt) in {env.poll, env.refresh.poll}
  {
    ReadyMeansTokenInForce(u.stack.auth.value, u.refreshToken, env);
    assert u.stack.h.Order()[7] == u.stack.h.endpoint;
  }

  // ---------------------------------------------------------------- NULL confirmation callbacks

  /** Every queued entry has a callback, and no NULL callback was called. */
  ghost predicate NullSafe(q: Queue) {
    && (forall i :: 0 <= i < |q.entries| ==> q.entries[i].callback)
    && (forall id: nat :: NullCalled(id) !in q.log)
  }

  lemma {:induction false} AnswersNullSafe(q: Queue, answers: seq<(nat, bool)>)
    requires NullSafe(q)
    ensures NullSafe(CompleteAll(q, answers))
    decreases |answers|
  {
    if answers != [] {
      AnswersNullSafe(Complete(q, answers[0].0, answers[0].1), answers[1..]);
    }
  }

  lemma {:induction false} SurvivorsHaveCallbacks(es: seq<EventEntry>, timeout: uint64, env: nat -> EntryEnv)
    requires forall i :: 0 <= i < |es| ==> es[i].callback
    ensures forall e :: e in Survivors(es, timeout, env) ==> e.callback
  {
    if es != [] {
      SurvivorsHaveCallbacks(es[1..], timeout, env);
    }
  }

  lemma PassNullSafe(s: Sender, checkedAt: uint64, entry: nat -> EntryEnv)
    requires NullSafe(s.queue)
    ensures NullSafe(Passed(s, checkedAt, entry).queue)
  {
    var q, stamp := s.queue, StampOf(s, checkedAt);
    WalkIsAFilter(q, 0, s.msgTimeout, stamp, entry);
    assert q.entries[0..] == q.entries;
    SurvivorsHaveCallbacks(q.entries, s.msgTimeout, entry);
    var r := Walk(q, 0, s.msgTimeout, stamp, entry);
    assert forall i :: 0 <= i < |r.entries| ==> r.entries[i] in Survivors(q.entries, s.msgTimeout, entry);
    forall id: nat
      ensures NullCalled(id) !in r.log
    {
      NullCallsExactly(q.entries, s.msgTimeout, stamp, entry, id);
    }
  }

  lemma SendPassNullSafe(a: Sender, checkedAt: uint64, env: DoWorkEnv)
    requires NullSafe(a.queue)
    ensures NullSafe(SendPass(a, checkedAt, env).queue)
  {
    StatesChangedOnly(OpenCalled(a), env.openChanges);
    var r := if a.senderState == SenderIdle then StatesChanged(OpenCalled(a), env.openChanges) else a;
    PassNullSafe(r, checkedAt, env.entry);
    ConnectionWorkNullSafe(Passed(r, checkedAt, env.entry), env.io);
  }

  lemma AuthorizedWorkNullSafe(u: Sender, env: DoWorkEnv)
    requires NullSafe(u.queue)
    ensures NullSafe(AuthorizedWork(u, env).queue)
  {
    var (a, verdict, checkedAt) := AuthorizeSender(u, env.auth);
    match verdict
    case AuthFailed => AnswersNullSafe(u.queue, env.teardown);
    case AuthTimedOut => AnswersNullSafe(u.queue, env.teardown);
    case AuthWaiting => ConnectionWorkNullSafe(a, env.io);
    case AuthReady => SendPassNullSafe(a, checkedAt, env);
  }

  lemma DoWorkNullSafe(s: Sender, env: DoWorkEnv)
    requires NullSafe(s.queue)
    ensures NullSafe(DoWork(s, env).queue)
  {
    var (u, ok) := Up(s, env);
    if ok && u.senderState != SenderError {
      AuthorizedWorkNullSafe(u, env);
    } else {
      AnswersNullSafe(s.queue, env.teardown);
    }
  }

  lemma ConnectionWorkNullSafe(s: Sender, io: IoEnv)
    requires NullSafe(s.queue)
    ensures NullSafe(ConnectionWork(s, io).queue)
  {
    AnswersNullSafe(s.queue, io.answers);
    StatesChangedOnly(Answered(s, io), io.changes);
  }

  predicate GivesCallback(op: Op) {
    op.OpSend? || op.OpSendBatch? ==> op.callback
  }

  /** A user who always passes a confirmation callback never sees a NULL one called. */
  lemma {:induction false} RunWithCallbacksCallsNoNull(ext: Option<ExtConfig>, ops: seq<Op>)
    requires forall i :: 0 <= i < |ops| ==> GivesCallback(ops[i])
    ensures NullSafe(Run(NewSender(ext), ops).queue)
  {
    if ops != [] {
      var n := |ops| - 1;
      RunWithCallbacksCallsNoNull(ext, ops[..n]);
      var s := Run(NewSender(ext), ops[..n]);
      assert GivesCallback(ops[n]);
      if ops[n].OpDoWork? {
        DoWorkNullSafe(s, ops[n].env);
      }
    }
  }

  /** Every hand-over of every run passed a message sender, under an installed token not known to have expired. */
  lemma RunHandsOverInForce(ext: Option<ExtConfig>, ops: seq<Op>, i: nat)
    requires var log := Run(NewSender(ext), ops).queue.log; i < |log| && log[i].HandedOver?
    ensures InForce(Run(NewSender(ext), ops).queue.log[i].stamp, ext == None)
  {
    RunKeeps(ext, ops);
  }

  // ---------------------------------------------------------------- what is accepted

  /** Exactly one entry was queued, last, unsent, with these events, and each of them was cloned. */
  predicate OneQueued(s: Sender, t: Sender, events: seq<EventData>, callback: bool, now: uint64) {
    && |t.queue.entries| == |s.queue.entries| + 1 && t.queue.entries[..|s.queue.entries|] == s.queue.entries
    && var e := t.queue.entries[|s.queue.entries|];
       && e.id == s.queue.next && t.queue.next == s.queue.next + 1
       && e.events == events && e.callback == callback && e.idleTimer == now && e.status == WaitingToBeSent
       && t.queue.clones == s.queue.clones + |events|
       && t == s.(queue := s.queue.(entries := t.queue.entries, next := t.queue.next, clones := t.queue.clones))
  }

  /**
   SendAsync queues one entry with this event exactly when there is one, a context comes with a callback, and nothing
   fails; otherwise the client is as before.
   */
  lemma SendAcceptsExactly(s: Sender, event: Option<EventData>, callback: bool, context: bool, env: SendEnv)
    ensures var (t, result) := SendAsync(s, event, callback, context, env);
      && (result == Done <==> event.Some? && (callback || !context) && env.allocOk && env.cloneOk)
      && (result == InvalidArgument <==> event == None || (context && !callback))
      && (result == Done ==> OneQueued(s, t, [event.value], callback, env.now))
      && (result != Done ==> t == s)
  {
  }

  /**
   All or nothing: SendBatchAsync queues one entry with all the events, in order, exactly when the arguments are
   there, the partition keys agree and nothing fails; otherwise the client is as before, all clones released.
   */
  lemma SendBatchIsAtomic(
      s: Sender, events: Option<seq<Option<EventData>>>, callback: bool, context: bool, env: BatchEnv)
    ensures var (t, result) := SendBatchAsync(s, events, callback, context, env);
      && (result == Done <==>
            && events.Some? && events.value != [] && (callback || !context) && env.allocOk
            && (forall i :: 0 <= i < |events.value| ==> events.value[i].Some? && env.cloneOk(i))
            && (forall i, j :: 0 <= i < j < |events.value| ==>
                  events.value[i].value.partitionKey == events.value[j].value.partitionKey))
      && (result == InvalidArgument <==> events == None || events.value == [] || (context && !callback))
      && (result != Done ==> t == s)
      && (result == Done ==>
            && var n := |s.queue.entries|;
            && |t.queue.entries| == n + 1
            && var list := t.queue.entries[n].events;
            && OneQueued(s, t, list, callback, env.now) && |list| == |events.value|
            && (forall i :: 0 <= i < |list| ==> events.value[i] == Some(list[i])))
  {
    if events.Some? && forall i :: 0 <= i < |events.value| ==> events.value[i].Some? {
      var es := events.value;
      if forall i, j :: 0 <= i < j < |es| ==> es[i].value.partitionKey == es[j].value.partitionKey {
        assert OneKey(es);
      }
    }
  }

  /** A refresh token is kept exactly for an initialized EXT client without one, if it parses and is for its URI. */
  lemma RefreshIsKeptExactly(s: Sender, token: Option<string>)
    ensures var (t, result) := RefreshAsync(s, token);
      && (result == Done <==>
            && token.Some? && s.ext.Some? && s.amqp == Initialized && s.refreshToken == None
            && SasToken.Parse(token.value).Some? && SasToken.Parse(token.value).value.uri == s.ext.value.uri)
      && (result == InvalidArgument <==> token == None)
      && t == (if result == Done then s.(refreshToken := token) else s)
  {
  }
}
