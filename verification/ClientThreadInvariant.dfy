/** What keeps a synchronous Send honest: which context an entry's confirmation reaches. */
module ClientThreadInvariant {
  import opened Common
  import opened Events
  import opened EventHubAuth
  import opened AmqpStack
  import opened SendQueue
  import opened SendQueueInvariant
  import opened SenderSpec
  import opened SenderInvariant
  import opened SenderLogs
  import opened ClientThreadSpec

  // ---------------------------------------------------------------- the lower sender between two states

  /** Whether the client's credential can bring a stack up at all. */
  predicate Usable(ext: Option<ExtConfig>) {
    ConfigOk(ClientConfig(ext, 0))
  }

  /** The lower sender may still confirm entry `id` with OK: it is unanswered, or unsent and can be sent. */
  ghost predicate Answerable(s: Sender, id: nat) {
    id in s.queue.outstanding || (WaitsToBeSent(s.queue.entries, id) && Usable(s.ext))
  }

  /** A move of the lower sender that accepts nothing. */
  ghost predicate Moves(s: Sender, t: Sender) {
    && QueueInv(s.queue) && QueueInv(t.queue) && s.queue.log <= t.queue.log && s.queue.next == t.queue.next
    && forall id: nat :: Answerable(t, id) || Confirmed(id, ConfirmOk) in News(s.queue.log, t.queue.log) ==>
         Answerable(s, id)
  }

  /** A client whose credential is refused by EventHubAuthCBS_Create never gets beyond bring-up. */
  lemma UnusableStays(s: Sender, env: DoWorkEnv)
    requires SenderInv(s) && !Usable(s.ext)
    ensures s.amqp == Uninitialized && DoWork(s, env).queue == s.queue && s.queue.outstanding == {}
  {
    CommonBuiltAgrees(s.stack, AuthConfigOf(s), env.common);
    AnswersHandNothingOver(s.queue, env.teardown, s.ext == None);
    AnswersNews(s.queue, env.teardown);
  }

  lemma DoWorkMoves(s: Sender, env: DoWorkEnv)
    requires SenderInv(s)
    ensures Moves(s, DoWork(s, env))
  {
    DoWorkKeeps(s, env);
    DoWorkKeepsNext(s, env);
    DoWorkLogsFor(s, env);
    if !Usable(s.ext) {
      UnusableStays(s, env);
    }
  }

  lemma DestroyKeepsQueue(s: Sender, answers: seq<(nat, bool)>)
    requires SenderInv(s)
    ensures QueueInv(Destroyed(s, answers).queue) && Destroyed(s, answers).queue.next == s.queue.next
  {
    DownKeeps(s, answers, Stage(s.amqp));
    DestroyAllConfirmsAll(Down(s, answers).queue);
    AnswersKeepNext(s.queue, answers);
  }

  lemma DestroyMoves(s: Sender, answers: seq<(nat, bool)>)
    requires SenderInv(s)
    ensures Moves(s, Destroyed(s, answers))
  {
    DestroyKeepsQueue(s, answers);
    assert s.stack.h.Order()[7] == s.stack.h.endpoint;
    DestroyedNews(s, answers);
  }

  // ---------------------------------------------------------------- contexts

  /** The call that entry `e` was queued by still waits on the context that the entry refers to. */
  ghost predicate Owned(c: Client, e: nat) {
    e in c.contexts && exists k :: k in c.calls && c.calls[k] == Waiting(c.contexts[e], e)
  }

  predicate Holds(call: Call, addr: nat) {
    (call.Prepared? || call.Waiting?) && call.addr == addr
  }

  ghost predicate CallsInv(c: Client) {
    && (forall k :: k in c.calls && c.calls[k].Prepared? ==>
          c.calls[k].addr in c.memory && c.memory[c.calls[k].addr] != ConfirmOk)
    && (forall k :: k in c.calls && c.calls[k].Waiting? ==>
          && c.calls[k].addr in c.memory
          && c.calls[k].entry in c.contexts && c.contexts[c.calls[k].entry] == c.calls[k].addr)
    && (forall k, l, a :: k in c.calls && l in c.calls && Holds(c.calls[k], a) && Holds(c.calls[l], a) ==> k == l)
    && (forall e :: e in c.contexts ==> e < c.ll.queue.next)
  }

  /** A result OK may still be written for entry `e`: by the running pass, or by a later one. */
  ghost predicate MayTellOk(c: Client, e: nat) {
    Answerable(c.ll, e) || Confirmed(e, ConfirmOk) in ToCome(c)
  }

  /** The context of an entry for which OK may still be written is either out of use or still its own call's. */
  ghost predicate ReferencesInv(c: Client) {
    forall e :: e in c.contexts && MayTellOk(c, e) && c.contexts[e] in c.memory ==> Owned(c, e)
  }

  predicate ReadsOk(c: Client, addr: nat) {
    addr in c.memory && c.memory[addr] == ConfirmOk
  }

  /** AMQP's report that entry `e` was sent has come in by now. */
  predicate IsReported(c: Client, e: nat) {
    AmqpDone(e, true) in Reported(c)
  }

  /** A result OK, read or still to be read, is AMQP's report for the call's own entry. */
  ghost predicate ResultsInv(c: Client) {
    && (forall k :: k in c.calls && c.calls[k].Waiting? && ReadsOk(c, c.calls[k].addr) ==>
          IsReported(c, c.calls[k].entry))
    && (forall k :: k in c.calls && c.calls[k].ReturnedOk? ==> IsReported(c, c.calls[k].entry))
  }

  ghost predicate LowerInv(c: Client) {
    QueueInv(c.ll.queue) && (!c.destroyed ==> SenderInv(c.ll)) && c.told <= |c.ll.queue.log|
  }

  ghost predicate ContextsInv(c: Client) {
    CallsInv(c) && ReferencesInv(c) && ResultsInv(c)
  }

  ghost predicate ClientInv(c: Client) {
    LowerInv(c) && ContextsInv(c)
  }

  // ---------------------------------------------------------------- the steps of a pass

  /** What is come to next, is pending before and reported afterwards. */
  lemma TellFrame(c: Client)
    requires c.told < |c.ll.queue.log|
    ensures var d, e := Tell(c), c.ll.queue.log[c.told];
      && Reported(d) == Reported(c) + [e] && ToCome(c) == [e] + ToCome(d)
      && d == c.(told := c.told + 1, memory := d.memory, posting := d.posting, dangling := d.dangling)
      && d.memory.Keys == c.memory.Keys
  {
    var log, n := c.ll.queue.log, c.told;
    assert log[..n + 1] == log[..n] + [log[n]];
    assert log[n..] == [log[n]] + log[n + 1..];
  }

  /** A step that leaves calls and contexts alone and makes no result OK possible that was not. */
  lemma ReferencesKeep(c: Client, d: Client)
    requires ReferencesInv(c) && d.calls == c.calls && d.contexts == c.contexts && d.memory.Keys == c.memory.Keys
    requires forall e :: MayTellOk(d, e) && e in c.contexts ==> MayTellOk(c, e)
    ensures ReferencesInv(d)
  {
    forall e | e in d.contexts && MayTellOk(d, e) && d.contexts[e] in d.memory
      ensures Owned(d, e)
    {
      assert Owned(c, e);
    }
  }

  /** Who else holds the context of an owned entry? Nobody. */
  lemma OwnerAlone(c: Client, e: nat, l: nat)
    requires CallsInv(c) && Owned(c, e) && l in c.calls && Holds(c.calls[l], c.contexts[e])
    ensures c.calls[l] == Waiting(c.contexts[e], e)
  {
    var k :| k in c.calls && c.calls[k] == Waiting(c.contexts[e], e);
    assert Holds(c.calls[k], c.contexts[e]);
  }

  /** Results OK are written for entries that have been reported, and reach the calls that wait for them. */
  lemma TellKeeps(c: Client)
    requires LowerInv(c) && ContextsInv(c) && c.told < |c.ll.queue.log|
    ensures ContextsInv(Tell(c))
  {
    var e := c.ll.queue.log[c.told];
    TellFrame(c);
    if e.Confirmed? && e.result == ConfirmOk && e.id in c.contexts && c.contexts[e.id] in c.memory {
      assert Owned(c, e.id) && IsReported(c, e.id);
      ToldOk(c, e.id);
    } else {
      ToldNoOk(c);
    }
    ReferencesKeep(c, Tell(c));
  }

  lemma ToldOk(c: Client, e: nat)
    requires CallsInv(c) && ResultsInv(c)
    requires c.told < |c.ll.queue.log| && c.ll.queue.log[c.told] == Confirmed(e, ConfirmOk)
    requires Owned(c, e) && IsReported(c, e) && c.contexts[e] in c.memory
    ensures CallsInv(Tell(c)) && ResultsInv(Tell(c))
  {
    TellFrame(c);
    forall l | l in c.calls && Holds(c.calls[l], c.contexts[e])
      ensures c.calls[l] == Waiting(c.contexts[e], e)
    {
      OwnerAlone(c, e, l);
    }
  }

  lemma ToldNoOk(c: Client)
    requires CallsInv(c) && ResultsInv(c) && c.told < |c.ll.queue.log|
    requires var e := c.ll.queue.log[c.told];
      !(e.Confirmed? && e.result == ConfirmOk && e.id in c.contexts && c.contexts[e.id] in c.memory)
    ensures CallsInv(Tell(c)) && ResultsInv(Tell(c))
  {
    TellFrame(c);
  }

  lemma PostKeeps(c: Client)
    requires ContextsInv(c) && c.posting.Some?
    ensures ContextsInv(Post(c))
  {
    PostReferences(c);
    PostCalls(c);
    PostResults(c);
  }

  lemma PostStepKeeps(c: Client)
    requires ClientInv(c) && c.posting.Some?
    ensures ClientInv(Post(c))
  {
    PostKeeps(c);
  }

  lemma TellStepKeeps(c: Client)
    requires ClientInv(c) && c.told < |c.ll.queue.log|
    ensures ClientInv(Tell(c))
  {
    TellKeeps(c);
    TellFrame(c);
  }

  lemma PostCalls(c: Client)
    requires CallsInv(c) && c.posting.Some?
    ensures CallsInv(Post(c))
  {
    var d := Post(c);
    assert d.calls == c.calls && d.memory == c.memory && d.contexts == c.contexts && d.ll == c.ll;
  }

  lemma PostResults(c: Client)
    requires ResultsInv(c) && c.posting.Some?
    ensures ResultsInv(Post(c))
  {
    var d := Post(c);
    assert d.calls == c.calls && d.memory == c.memory && Reported(d) == Reported(c);
  }

  lemma PostReferences(c: Client)
    requires ReferencesInv(c) && c.posting.Some?
    ensures ReferencesInv(Post(c))
  {
    ReferencesKeep(c, Post(c));
  }

  /** A pass begins, or Destroy does: what it has done to the lower sender is still to be come to. */
  lemma MovedKeeps(c: Client, ll: Sender, destroyed: bool)
    requires ContextsInv(c) && LockFree(c) && Moves(c.ll, ll)
    ensures ContextsInv(c.(ll := ll, destroyed := destroyed))
  {
    var d := c.(ll := ll, destroyed := destroyed);
    assert Reported(d) == Reported(c) && ToCome(d) == News(c.ll.queue.log, ll.queue.log);
    ReferencesKeep(c, d);
  }

  lemma WorkKeeps(c: Client, env: DoWorkEnv)
    requires ClientInv(c) && !c.destroyed && LockFree(c)
    ensures ClientInv(c.(ll := DoWork(c.ll, env)))
  {
    DoWorkKeeps(c.ll, env);
    DoWorkMoves(c.ll, env);
    MovedKeeps(c, DoWork(c.ll, env), c.destroyed);
  }

  lemma DestroyKeeps(c: Client, answers: seq<(nat, bool)>)
    requires ClientInv(c) && !c.destroyed && LockFree(c)
    ensures ClientInv(c.(ll := Destroyed(c.ll, answers), destroyed := true))
  {
    DestroyMoves(c.ll, answers);
    MovedKeeps(c, Destroyed(c.ll, answers), true);
  }

  // ---------------------------------------------------------------- the other steps

  /** No entry for which OK may still be written refers to the address that is allocated. */
  ghost predicate FreshAddress(c: Client, addr: nat) {
    forall e :: e in c.contexts && MayTellOk(c, e) ==> c.contexts[e] != addr
  }

  lemma PrepareKeeps(c: Client, call: nat, addr: nat)
    requires ContextsInv(c) && Enabled(c, OpPrepare(call, addr)) && FreshAddress(c, addr)
    ensures ContextsInv(Prepare(c, call, addr))
  {
    var d := Prepare(c, call, addr);
    forall e | e in d.contexts && MayTellOk(d, e) && d.contexts[e] in d.memory
      ensures Owned(d, e)
    {
      assert Owned(c, e);
      var k :| k in c.calls && c.calls[k] == Waiting(c.contexts[e], e);
      assert d.calls[k] == c.calls[k];
    }
  }

  lemma ReturnKeeps(c: Client, call: nat, addr: nat, result: Call)
    requires ContextsInv(c) && call in c.calls && Holds(c.calls[call], addr)
    requires result == ReturnedError || (result.ReturnedOk? && IsReported(c, result.entry))
    ensures ContextsInv(Return(c, call, addr, result))
  {
    var d := Return(c, call, addr, result);
    forall k, a | k in d.calls && Holds(d.calls[k], a)
      ensures a != addr && k != call && d.calls[k] == c.calls[k]
    {
    }
    forall e | e in d.contexts && MayTellOk(d, e) && d.contexts[e] in d.memory
      ensures Owned(d, e)
    {
      assert Owned(c, e);
      var k :| k in c.calls && c.calls[k] == Waiting(c.contexts[e], e);
      assert Holds(c.calls[k], c.contexts[e]);
      assert d.calls[k] == c.calls[k];
    }
  }

  /** What the lower sender does when a send is accepted, or refused. */
  lemma LowerSendKeeps(s: Sender, p: Payload, callback: bool, context: bool)
    requires SenderInv(s)
    ensures var (t, result) := LowerSend(s, p, callback, context);
      && SenderInv(t) && t.ext == s.ext && t.queue.log == s.queue.log
      && (if result == Done then OneMore(s.queue, t.queue) else t == s)
  {
    match p
    case One(event, env) => SendKeeps(s, event, callback, context, env);
    case Batch(events, env) => SendBatchKeeps(s, events, callback, context, env);
  }

  lemma SendKeeps(s: Sender, event: Option<EventData>, callback: bool, context: bool, env: SendEnv)
    requires SenderInv(s)
    ensures var (t, result) := SendAsync(s, event, callback, context, env);
      && SenderInv(t) && t.ext == s.ext && t.queue.log == s.queue.log
      && (if result == Done then OneMore(s.queue, t.queue) else t == s)
  {
    if event.Some? {
      AcceptedKeeps(s, [event.value], callback, env.now);
    }
  }

  lemma SendBatchKeeps(
      s: Sender, events: Option<seq<Option<EventData>>>, callback: bool, context: bool, env: BatchEnv)
    requires SenderInv(s)
    ensures var (t, result) := SendBatchAsync(s, events, callback, context, env);
      && SenderInv(t) && t.ext == s.ext && t.queue.log == s.queue.log
      && (if result == Done then OneMore(s.queue, t.queue) else t == s)
  {
    if events.Some? && OneKey(events.value) {
      AcceptedKeeps(s, Values(events.value), callback, env.now);
    }
  }

  /** One entry more is queued, unsent. */
  ghost predicate OneMore(q: Queue, r: Queue) {
    && r.next == q.next + 1 && r.outstanding == q.outstanding
    && (forall id: nat :: InQueue(r.entries, id) <==> InQueue(q.entries, id) || id == q.next)
    && (forall id: nat :: WaitsToBeSent(r.entries, id) <==> WaitsToBeSent(q.entries, id) || id == q.next)
  }

  lemma AcceptedKeeps(s: Sender, events: seq<EventData>, callback: bool, now: uint64)
    requires SenderInv(s)
    ensures var q := Accept(s.queue, events, callback, now);
      SenderInv(s.(queue := q)) && q.log == s.queue.log && OneMore(s.queue, q)
  {
    AcceptanceKeeps(s, events, callback, now);
    AcceptedInQueue(s.queue, events, callback, now);
  }

  lemma AcceptedInQueue(q: Queue, events: seq<EventData>, callback: bool, now: uint64)
    ensures OneMore(q, Accept(q, events, callback, now))
  {
    var r := Accept(q, events, callback, now);
    assert r.entries[|q.entries|].id == q.next && r.entries[|q.entries|].status == WaitingToBeSent;
    assert forall i :: 0 <= i < |q.entries| ==> r.entries[i] == q.entries[i];
    forall id: nat | InQueue(q.entries, id)
      ensures InQueue(r.entries, id)
    {
      var i :| 0 <= i < |q.entries| && q.entries[i].id == id;
      assert r.entries[i].id == id;
    }
    forall id: nat | WaitsToBeSent(q.entries, id)
      ensures WaitsToBeSent(r.entries, id)
    {
      var i :| 0 <= i < |q.entries| && q.entries[i].id == id && q.entries[i].status == WaitingToBeSent;
      assert r.entries[i] == q.entries[i];
    }
  }

  /** A lower send that does not belong to a waiting call. */
  lemma LowerSentKeeps(c: Client, p: Payload, callback: bool, context: bool)
    requires ClientInv(c) && !c.destroyed && LockFree(c)
    ensures ClientInv(c.(ll := LowerSend(c.ll, p, callback, context).0, thread := true))
  {
    var ll := LowerSend(c.ll, p, callback, context).0;
    LowerSendKeeps(c.ll, p, callback, context);
    LowerSentContexts(c, ll);
  }

  lemma LowerSentContexts(c: Client, ll: Sender)
    requires ContextsInv(c) && ll.ext == c.ll.ext && ll.queue.log == c.ll.queue.log
    requires ll == c.ll || OneMore(c.ll.queue, ll.queue)
    ensures ContextsInv(c.(ll := ll, thread := true))
  {
    LowerSentReferences(c, ll);
  }

  lemma LowerSentReferences(c: Client, ll: Sender)
    requires CallsInv(c) && ReferencesInv(c) && ll.ext == c.ll.ext && ll.queue.log == c.ll.queue.log
    requires ll == c.ll || OneMore(c.ll.queue, ll.queue)
    ensures ReferencesInv(c.(ll := ll, thread := true))
  {
    ReferencesKeep(c, c.(ll := ll, thread := true));
  }

  lemma UserSendKeeps(c: Client, p: Payload, callback: bool, context: bool, lockOk: bool, threadOk: bool)
    requires ClientInv(c) && !c.destroyed && (lockOk ==> LockFree(c))
    ensures ClientInv(UserSend(c, p, callback, context, lockOk, threadOk))
  {
    if lockOk {
      LowerSentKeeps(c, p, callback, context);
    }
  }

  lemma WakeKeeps(c: Client, call: nat)
    requires ContextsInv(c) && call in c.calls && c.calls[call].Waiting? && c.calls[call].addr in c.memory
    ensures ContextsInv(Wake(c, call))
  {
    var w := c.calls[call];
    ReturnKeeps(c, call, w.addr, if c.memory[w.addr] == ConfirmOk then ReturnedOk(w.entry) else ReturnedError);
  }

  lemma EnqueueKeeps(c: Client, call: nat, p: Payload, lockOk: bool, threadOk: bool)
    requires ClientInv(c) && Enabled(c, OpEnqueue(call, p, lockOk, threadOk))
    ensures ClientInv(Enqueue(c, call, p, lockOk, threadOk))
  {
    var addr := c.calls[call].addr;
    assert Holds(c.calls[call], addr);
    if !lockOk || (!c.thread && !threadOk) {
      ReturnKeeps(c, call, addr, ReturnedError);
    } else {
      LowerSentKeeps(c, p, true, true);
      var (ll, result) := LowerSend(c.ll, p, true, true);
      if result != Done {
        ReturnKeeps(c.(ll := ll, thread := true), call, addr, ReturnedError);
      } else {
        LowerSendKeeps(c.ll, p, true, true);
        WaitingKeeps(c.(ll := ll, thread := true), call, c.ll.queue.next);
      }
    }
  }

  /** A prepared call waits for its new entry. */
  lemma WaitingKeeps(c: Client, call: nat, entry: nat)
    requires ContextsInv(c) && call in c.calls && c.calls[call].Prepared?
    requires entry !in c.contexts && entry < c.ll.queue.next
    ensures ContextsInv(AwaitEntry(c, call, c.calls[call].addr, entry))
  {
    var addr := c.calls[call].addr;
    var d := AwaitEntry(c, call, addr, entry);
    assert Holds(c.calls[call], addr);
    forall k, a | k in d.calls && Holds(d.calls[k], a)
      ensures Holds(c.calls[k], a)
    {
    }
    forall e | e in d.contexts && MayTellOk(d, e) && d.contexts[e] in d.memory
      ensures Owned(d, e)
    {
      if e == entry {
        assert d.calls[call] == Waiting(d.contexts[e], e);
      } else {
        assert Owned(c, e);
        var k :| k in c.calls && c.calls[k] == Waiting(c.contexts[e], e);
        assert d.calls[k] == c.calls[k];
      }
    }
  }

  lemma SameQueueKeeps(c: Client, ll: Sender)
    requires ContextsInv(c) && ll.queue == c.ll.queue && ll.ext == c.ll.ext
    ensures ContextsInv(c.(ll := ll))
  {
    var d := c.(ll := ll);
    forall e | e in d.contexts && MayTellOk(d, e) && d.contexts[e] in d.memory
      ensures Owned(d, e)
    {
      assert Owned(c, e);
    }
  }

  /** The settings and the refresh token do not touch the queue. */
  lemma LowerCallFrame(s: Sender, op: Op)
    requires op.OpSetTimeout? || op.OpRefresh? || op.OpSetErrorCallback?
    ensures Step(s, op).queue == s.queue && Step(s, op).ext == s.ext
  {
  }

  lemma LowerCallKeeps(c: Client, op: Op, lockOk: bool)
    requires ClientInv(c) && !c.destroyed && (op.OpSetTimeout? || op.OpRefresh? || op.OpSetErrorCallback?)
    ensures ClientInv(LowerCall(c, op, lockOk))
  {
    StepKeeps(c.ll, op);
    LowerCallFrame(c.ll, op);
    SameQueueKeeps(c, Step(c.ll, op));
  }

  /**
   Every step keeps the invariant, spurious wake-ups and steps in the middle of a pass included, unless it allocates an
   address that an entry refers to for which OK may still be written.
   */
  lemma ClientStepKeeps(c: Client, op: ClientOp)
    requires ClientInv(c) && Enabled(c, op) && (op.OpPrepare? ==> FreshAddress(c, op.addr))
    ensures ClientInv(ClientStep(c, op))
  {
    if op.OpWork? || op.OpTell? || op.OpPost? || op.OpDestroy? {
      PassStepKeeps(c, op);
    } else if op.OpPrepare? {
      PrepareKeeps(c, op.call, op.addr);
    } else if op.OpWake? {
      WakeKeeps(c, op.call);
    } else {
      ApiStepKeeps(c, op);
    }
  }

  lemma PassStepKeeps(c: Client, op: ClientOp)
    requires ClientInv(c) && Enabled(c, op) && (op.OpWork? || op.OpTell? || op.OpPost? || op.OpDestroy?)
    ensures ClientInv(ClientStep(c, op))
  {
    match op
    case OpWork(env) => WorkKeeps(c, env);
    case OpTell => TellStepKeeps(c);
    case OpPost => PostStepKeeps(c);
    case OpDestroy(answers) => DestroyKeeps(c, answers);
  }

  lemma ApiStepKeeps(c: Client, op: ClientOp)
    requires ClientInv(c) && Enabled(c, op) && TakesLock(op)
    ensures ClientInv(ClientStep(c, op))
  {
    match op
    case OpEnqueue(call, p, lockOk, threadOk) => EnqueueKeeps(c, call, p, lockOk, threadOk);
    case OpUserSend(p, callback, context, lockOk, threadOk) => UserSendKeeps(c, p, callback, context, lockOk, threadOk);
    case OpSetMessageTimeout(timeout, lockOk) => LowerCallKeeps(c, OpSetTimeout(timeout), lockOk);
    case OpRefreshSasToken(token, lockOk) => LowerCallKeeps(c, OpRefresh(token), lockOk);
    case OpSetErrorHandler(on, lockOk) => LowerCallKeeps(c, OpSetErrorCallback(on), lockOk);
  }
}
