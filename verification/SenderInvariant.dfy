/** What every run of the sender keeps, and what holds once it is destroyed. */
module SenderInvariant {
  import opened Common
  import opened Events
  import opened EventHubAuth
  import opened TokenLifecycle
  import opened AmqpStack
  import opened SendQueue
  import opened SendQueueInvariant
  import opened SenderSpec

  /** The hand-over passed a message sender, under an installed token that had not expired when last checked. */
  predicate InForce(stamp: Stamp, auto: bool) {
    && stamp.sender.Some? && stamp.token.Some?
    && (if !auto then stamp.token.value.External?
        else stamp.token.value.Minted? && Sub64(stamp.checkedAt, stamp.token.value.created) < AUTH_EXPIRATION_SECS)
  }

  predicate HandOversInForce(log: seq<SendEvent>, auto: bool) {
    forall i :: 0 <= i < |log| && log[i].HandedOver? ==> InForce(log[i].stamp, auto)
  }

  /** The configuration a handle of this client was created with. */
  predicate OwnConfig(cfg: AuthConfig, ext: Option<ExtConfig>) {
    && ConfigOk(cfg)
    && cfg == ClientConfig(ext, cfg.authTimeout)
  }

  ghost predicate SenderInv(s: Sender) {
    && QueueInv(s.queue)
    && Agrees(s.stack, Stage(s.amqp))
    && (s.stack.auth.Some? ==> Settled(s.stack.auth.value) && OwnConfig(s.stack.auth.value.cfg, s.ext))
    && (s.amqp != Initialized ==> s.queue.outstanding == {} && s.refreshToken == None)
    && HandOversInForce(s.queue.log, s.ext == None)
  }

  // ---------------------------------------------------------------- hand-overs

  lemma {:induction false} AnswersHandNothingOver(q: Queue, answers: seq<(nat, bool)>, auto: bool)
    requires HandOversInForce(q.log, auto)
    ensures HandOversInForce(CompleteAll(q, answers).log, auto)
    ensures q.outstanding == {} ==> CompleteAll(q, answers) == q
    decreases |answers|
  {
    if answers != [] {
      AnswersHandNothingOver(Complete(q, answers[0].0, answers[0].1), answers[1..], auto);
    }
  }

  lemma {:induction false} PassHandsOverUnderStamp(
      es: seq<EventEntry>, timeout: uint64, stamp: Stamp, env: nat -> EntryEnv)
    ensures forall e :: e in PassLog(es, timeout, stamp, env) && e.HandedOver? ==> e.stamp == stamp
  {
    if es != [] {
      PassHandsOverUnderStamp(es[1..], timeout, stamp, env);
    }
  }

  lemma WalkInForce(q: Queue, timeout: uint64, stamp: Stamp, env: nat -> EntryEnv, auto: bool)
    requires HandOversInForce(q.log, auto) && InForce(stamp, auto)
    ensures HandOversInForce(Walk(q, 0, timeout, stamp, env).log, auto)
  {
    WalkIsAFilter(q, 0, timeout, stamp, env);
    PassHandsOverUnderStamp(q.entries[0..], timeout, stamp, env);
  }

  // ---------------------------------------------------------------- the pieces of DoWork

  lemma AbandonKeeps(q: Queue, answers: seq<(nat, bool)>, auto: bool)
    requires QueueInv(q) && HandOversInForce(q.log, auto)
    ensures QueueInv(Abandon(q, answers)) && HandOversInForce(Abandon(q, answers).log, auto)
  {
    CompleteAllKeeps(q, answers);
    AnswersHandNothingOver(q, answers, auto);
  }

  lemma DownKeeps(s: Sender, answers: seq<(nat, bool)>, k: nat)
    requires QueueInv(s.queue) && Agrees(s.stack, k) && HandOversInForce(s.queue.log, s.ext == None)
    requires k == 8 || s.queue.outstanding == {}
    ensures SenderInv(Down(s, answers)) && Down(s, answers).queue.outstanding == {}
  {
    AbandonKeeps(s.queue, answers, s.ext == None);
    TearDownAgrees(s.stack, k);
    assert s.stack.h.Order()[7] == s.stack.h.endpoint;
  }

  /** During a pass the handle may be new. */
  ghost predicate MidPass(s: Sender) {
    && QueueInv(s.queue)
    && Agrees(s.stack, Stage(s.amqp))
    && (s.stack.auth.Some? ==>
          (Settled(s.stack.auth.value) || JustCreated(s.stack.auth.value)) && OwnConfig(s.stack.auth.value.cfg, s.ext))
    && (s.amqp != Initialized ==> s.queue.outstanding == {} && s.refreshToken == None)
    && HandOversInForce(s.queue.log, s.ext == None)
  }

  lemma UpKeeps(s: Sender, env: DoWorkEnv)
    requires SenderInv(s)
    ensures var (u, ok) := Up(s, env);
      && (ok ==> MidPass(u) && u.amqp != Uninitialized) && (!ok ==> SenderInv(u)) && u.ext == s.ext
  {
    var (r, ok) := Raised(s, env.common, env.endpoint);
    if s.amqp == Uninitialized {
      CommonBuiltAgrees(s.stack, AuthConfigOf(s), env.common);
    } else if s.amqp == PendingEndpointCreate {
      EndpointBuiltAgrees(s.stack, env.endpoint.(open := true));
    }
    if !ok {
      DownKeeps(r, env.teardown, |r.stack.lib.live|);
    }
  }

  lemma AuthorizeKeeps(u: Sender, env: AuthEnv)
    requires MidPass(u) && u.amqp != Uninitialized
    ensures var (a, verdict, checkedAt) := AuthorizeSender(u, env);
      && QueueInv(a.queue) && Agrees(a.stack, Stage(a.amqp)) && a.ext == u.ext && a.queue == u.queue
      && (a.amqp == Initialized <==> u.amqp == Initialized)
      && (verdict in {AuthWaiting, AuthReady} ==> SenderInv(a))
      && (verdict == AuthReady && a.amqp == Initialized ==>
            InForce(StampOf(a, checkedAt), a.ext == None))
  {
    PassSettles(u.stack.auth.value, u.refreshToken, env);
    CallAgrees(u.stack, Stage(u.amqp), 5);
    if AuthPass(u.stack.auth.value, u.refreshToken, env).verdict == AuthReady {
      ReadyMeansTokenInForce(u.stack.auth.value, u.refreshToken, env);
    }
    if u.amqp == Initialized {
      assert u.stack.h.Order()[7] == u.stack.h.endpoint;
    }
  }

  lemma {:induction false} StatesChangedOnly(s: Sender, cs: seq<StateChange>)
    ensures var r := StatesChanged(s, cs); r == s.(senderState := r.senderState, reported := r.reported)
  {
    if cs != [] {
      StatesChangedOnly(s, cs[..|cs| - 1]);
    }
  }

  lemma AnswersKeep(s: Sender, io: IoEnv)
    requires SenderInv(s) && s.amqp != Uninitialized
    ensures SenderInv(Answered(s, io))
  {
    StackAnswersKeep(s, io);
    QueueAnswersKeep(s.(stack := Answered(s, io).stack), io.answers);
  }

  lemma QueueAnswersKeep(s: Sender, answers: seq<(nat, bool)>)
    requires SenderInv(s)
    ensures SenderInv(s.(queue := CompleteAll(s.queue, answers)))
  {
    CompleteAllKeeps(s.queue, answers);
    AnswersHandNothingOver(s.queue, answers, s.ext == None);
  }

  lemma StackAnswersKeep(s: Sender, io: IoEnv)
    requires SenderInv(s) && s.amqp != Uninitialized
    ensures SenderInv(s.(stack := Answered(s, io).stack))
  {
    CallAgrees(s.stack, Stage(s.amqp), 3);
    assert s.stack.h.Order()[3] == s.stack.h.connection;
    if io.put.Some? {
      PutAnsweredAgrees(s.stack, Stage(s.amqp), io.put.value);
    }
  }

  lemma ConnectionWorkKeeps(s: Sender, io: IoEnv)
    requires SenderInv(s) && s.amqp != Uninitialized
    ensures SenderInv(ConnectionWork(s, io)) && ConnectionWork(s, io).ext == s.ext
  {
    AnswersKeep(s, io);
    StatesChangedOnly(Answered(s, io), io.changes);
  }

  lemma PassedKeeps(s: Sender, checkedAt: uint64, entry: nat -> EntryEnv)
    requires SenderInv(s) && s.amqp == Initialized && InForce(StampOf(s, checkedAt), s.ext == None)
    ensures SenderInv(Passed(s, checkedAt, entry))
  {
    WalkKeeps(s.queue, 0, s.msgTimeout, StampOf(s, checkedAt), entry);
    WalkInForce(s.queue, s.msgTimeout, StampOf(s, checkedAt), entry, s.ext == None);
  }

  lemma SendPassKeeps(s: Sender, checkedAt: uint64, env: DoWorkEnv)
    requires SenderInv(s) && s.amqp == Initialized && InForce(StampOf(s, checkedAt), s.ext == None)
    ensures SenderInv(SendPass(s, checkedAt, env)) && SendPass(s, checkedAt, env).ext == s.ext
  {
    CallAgrees(s.stack, 8, 7);
    assert OpenCalled(s) == s;
    StatesChangedOnly(s, env.openChanges);
    var r := if s.senderState == SenderIdle then StatesChanged(s, env.openChanges) else s;
    PassedKeeps(r, checkedAt, env.entry);
    ConnectionWorkKeeps(Passed(r, checkedAt, env.entry), env.io);
  }

  lemma AuthorizedWorkKeeps(u: Sender, env: DoWorkEnv)
    requires MidPass(u) && u.amqp != Uninitialized
    ensures SenderInv(AuthorizedWork(u, env)) && AuthorizedWork(u, env).ext == u.ext
  {
    AuthorizeKeeps(u, env.auth);
    var (a, verdict, checkedAt) := AuthorizeSender(u, env.auth);
    match verdict
    case AuthFailed => DownKeeps(Report(a, SasTokenAuthFailure), env.teardown, Stage(a.amqp));
    case AuthTimedOut => DownKeeps(Report(a, SasTokenAuthTimeout), env.teardown, Stage(a.amqp));
    case AuthWaiting => ConnectionWorkKeeps(a, env.io);
    case AuthReady =>
      if a.amqp == Initialized {
        SendPassKeeps(a, checkedAt, env);
      }
  }

  /** Every DoWork keeps the invariant, whatever fails and whatever the library answers. */
  lemma DoWorkKeeps(s: Sender, env: DoWorkEnv)
    requires SenderInv(s)
    ensures SenderInv(DoWork(s, env)) && DoWork(s, env).ext == s.ext
  {
    UpKeeps(s, env);
    var (u, ok) := Up(s, env);
    if ok {
      if u.senderState == SenderError {
        DownKeeps(u, env.teardown, Stage(u.amqp));
      } else {
        AuthorizedWorkKeeps(u, env);
      }
    }
  }

  // ---------------------------------------------------------------- runs

  datatype Op =
    | OpDoWork(env: DoWorkEnv)
    | OpSend(event: Option<EventData>, callback: bool, context: bool, sendEnv: SendEnv)
    | OpSendBatch(events: Option<seq<Option<EventData>>>, callback: bool, context: bool, batchEnv: BatchEnv)
    | OpRefresh(token: Option<string>)
    | OpSetTimeout(timeout: uint64)
    | OpSetErrorCallback(on: bool)

  ghost function Step(s: Sender, op: Op): Sender {
    match op
    case OpDoWork(env) => DoWork(s, env)
    case OpSend(event, callback, context, env) => SendAsync(s, event, callback, context, env).0
    case OpSendBatch(events, callback, context, env) => SendBatchAsync(s, events, callback, context, env).0
    case OpRefresh(token) => RefreshAsync(s, token).0
    case OpSetTimeout(timeout) => s.(msgTimeout := timeout)
    case OpSetErrorCallback(on) => s.(errorCb := on)
  }

  ghost function Run(s: Sender, ops: seq<Op>): Sender {
    if ops == [] then s else Step(Run(s, ops[..|ops| - 1]), ops[|ops| - 1])
  }

  lemma AcceptanceKeeps(s: Sender, events: seq<EventData>, callback: bool, now: uint64)
    requires SenderInv(s)
    ensures SenderInv(s.(queue := Accept(s.queue, events, callback, now)))
  {
    AcceptKeeps(s.queue, events, callback, now);
  }

  lemma StepKeeps(s: Sender, op: Op)
    requires SenderInv(s)
    ensures SenderInv(Step(s, op)) && Step(s, op).ext == s.ext
  {
    match op
    case OpDoWork(env) => DoWorkKeeps(s, env);
    case OpSend(event, callback, context, env) =>
      if event.Some? {
        AcceptanceKeeps(s, [event.value], callback, env.now);
      }
    case OpSendBatch(events, callback, context, env) =>
      if events.Some? && OneKey(events.value) {
        AcceptanceKeeps(s, Values(events.value), callback, env.now);
      }
    case _ =>
  }

  /** Every reachable sender state satisfies the invariant. */
  lemma {:induction false} RunKeeps(ext: Option<ExtConfig>, ops: seq<Op>)
    ensures SenderInv(Run(NewSender(ext), ops)) && Run(NewSender(ext), ops).ext == ext
  {
    if ops == [] {
      assert Confirmations([], 0) == 0;
    } else {
      RunKeeps(ext, ops[..|ops| - 1]);
      StepKeeps(Run(NewSender(ext), ops[..|ops| - 1]), ops[|ops| - 1]);
    }
  }
}
