/** When a synchronous Send that returns OK may be believed, and a run in which it may not. */
module ClientThreadGuarantees {
  import opened Common
  import opened EventHubAuth
  import opened SendQueue
  import opened SendQueueInvariant
  import opened SenderSpec
  import opened SenderInvariant
  import opened SenderLogs
  import opened ClientThreadSpec
  import opened ClientThreadInvariant

  /** In no step of the run was an address allocated that an entry referred to for which OK could still be written. */
  ghost predicate FreshRun(ext: Option<ExtConfig>, ops: seq<ClientOp>) {
    ops == [] ||
    var front, last := ops[..|ops| - 1], ops[|ops| - 1];
    && FreshRun(ext, front)
    && (last.OpPrepare? && ClientRun(ext, front).Some? ==> FreshAddress(ClientRun(ext, front).value, last.addr))
  }

  lemma NewClientInv(ext: Option<ExtConfig>)
    ensures ClientInv(NewClient(ext))
  {
    RunKeeps(ext, []);
  }

  lemma {:induction false} FreshRunKeeps(ext: Option<ExtConfig>, ops: seq<ClientOp>)
    requires ClientRun(ext, ops).Some? && FreshRun(ext, ops)
    ensures ClientInv(ClientRun(ext, ops).value)
  {
    if ops == [] {
      NewClientInv(ext);
    } else {
      FreshRunKeeps(ext, ops[..|ops| - 1]);
      ClientStepKeeps(ClientRun(ext, ops[..|ops| - 1]).value, ops[|ops| - 1]);
    }
  }

  /**
   Under any interleaving, spurious wake-ups and steps in the middle of a pass included, Send or SendBatch returning OK
   means that AMQP had by then reported its own entry sent - provided no context was allocated at an address that an
   entry referred to for which OK could still be written.
   */
  lemma SendOkMeansSent(ext: Option<ExtConfig>, ops: seq<ClientOp>, call: nat)
    requires ClientRun(ext, ops).Some? && FreshRun(ext, ops)
    requires var c := ClientRun(ext, ops).value; call in c.calls && c.calls[call].ReturnedOk?
    ensures var c := ClientRun(ext, ops).value; AmqpDone(c.calls[call].entry, true) in Reported(c)
  {
    FreshRunKeeps(ext, ops);
  }

  // ---------------------------------------------------------------- without spurious wake-ups

  predicate ConfirmedIn(log: seq<SendEvent>, e: nat) {
    exists result :: Confirmed(e, result) in log
  }

  /** Entry `e` has not been confirmed so far. */
  ghost predicate Unsettled(c: Client, e: nat) {
    InQueue(c.ll.queue.entries, e) || ConfirmedIn(ToCome(c), e)
  }

  predicate WaitsAt(c: Client, addr: nat) {
    exists k :: k in c.calls && c.calls[k].Waiting? && c.calls[k].addr == addr
  }

  /** The context `addr` is untouched since its call prepared it. */
  predicate Untouched(c: Client, addr: nat) {
    addr !in c.posted && c.posting != Some(addr)
  }

  /**
   An entry of a synchronous call that has not been confirmed is still its call's, and nothing was written to its
   context; a context that is about to be posted has its call waiting; no write or post went astray.
   */
  ghost predicate WaitInv(c: Client) {
    && (forall e :: e in c.contexts && Unsettled(c, e) ==> Owned(c, e) && Untouched(c, c.contexts[e]))
    && (forall k :: k in c.calls && c.calls[k].Prepared? ==> Untouched(c, c.calls[k].addr))
    && (c.posting.Some? ==> c.posting.value !in c.posted && WaitsAt(c, c.posting.value))
    && !c.dangling
  }

  lemma WaitMeansFresh(c: Client, addr: nat)
    requires ClientInv(c) && WaitInv(c) && addr !in c.memory
    ensures FreshAddress(c, addr)
  {
    forall e | e in c.contexts && MayTellOk(c, e)
      ensures c.contexts[e] != addr
    {
      MayTellIsUnsettled(c, e);
      assert Owned(c, e);
    }
  }

  lemma MayTellIsUnsettled(c: Client, e: nat)
    requires QueueInv(c.ll.queue) && MayTellOk(c, e)
    ensures Unsettled(c, e)
  {
  }

  /** What holds of the entries of `c` holds in `d`, where no call that waits for an unsettled entry has changed. */
  lemma OwnersKeep(c: Client, d: Client)
    requires WaitInv(c) && d.contexts == c.contexts
    requires forall e :: e in c.contexts && Unsettled(d, e) ==> Unsettled(c, e)
    requires forall k :: k in c.calls && c.calls[k].Waiting? && Unsettled(c, c.calls[k].entry) ==>
      k in d.calls && d.calls[k] == c.calls[k]
    ensures forall e :: e in d.contexts && Unsettled(d, e) ==> Owned(d, e)
  {
    forall e | e in d.contexts && Unsettled(d, e)
      ensures Owned(d, e)
    {
      assert Owned(c, e);
      var k :| k in c.calls && c.calls[k] == Waiting(c.contexts[e], e);
      assert d.calls[k] == c.calls[k];
    }
  }

  lemma ReturnWaits(c: Client, call: nat, addr: nat, result: Call)
    requires CallsInv(c) && WaitInv(c) && call in c.calls && Holds(c.calls[call], addr) && c.posting != Some(addr)
    requires c.calls[call].Waiting? ==> !Unsettled(c, c.calls[call].entry)
    requires result.ReturnedOk? || result.ReturnedError?
    ensures WaitInv(Return(c, call, addr, result))
  {
    var d := Return(c, call, addr, result);
    OwnersKeep(c, d);
    if c.posting.Some? {
      var k :| k in c.calls && c.calls[k].Waiting? && c.calls[k].addr == c.posting.value;
      assert d.calls[k] == c.calls[k];
    }
  }

  /** A wake-up that was posted comes after the call's own entry was confirmed. */
  lemma WakeWaits(c: Client, call: nat)
    requires CallsInv(c) && WaitInv(c) && Enabled(c, OpWake(call, false))
    ensures WaitInv(Wake(c, call))
  {
    var w := c.calls[call];
    ReturnWaits(c, call, w.addr, if c.memory[w.addr] == ConfirmOk then ReturnedOk(w.entry) else ReturnedError);
  }

  lemma LowerSentWaits(c: Client, ll: Sender)
    requires CallsInv(c) && WaitInv(c) && LockFree(c) && ll.queue.log == c.ll.queue.log
    requires ll == c.ll || OneMore(c.ll.queue, ll.queue)
    ensures WaitInv(c.(ll := ll, thread := true))
  {
    OwnersKeep(c, c.(ll := ll, thread := true));
  }

  lemma WaitingWaits(c: Client, call: nat, entry: nat)
    requires CallsInv(c) && WaitInv(c) && LockFree(c)
    requires call in c.calls && c.calls[call].Prepared? && entry !in c.contexts
    ensures WaitInv(AwaitEntry(c, call, c.calls[call].addr, entry))
  {
    var d := AwaitEntry(c, call, c.calls[call].addr, entry);
    forall e | e in d.contexts && Unsettled(d, e)
      ensures Owned(d, e) && Untouched(d, d.contexts[e])
    {
      if e == entry {
        assert d.calls[call] == Waiting(d.contexts[e], e);
      } else {
        assert Unsettled(c, e) && Owned(c, e);
        var k :| k in c.calls && c.calls[k] == Waiting(c.contexts[e], e);
        assert d.calls[k] == c.calls[k];
      }
    }
  }

  lemma EnqueueWaits(c: Client, call: nat, p: Payload, lockOk: bool, threadOk: bool)
    requires ClientInv(c) && WaitInv(c) && Enabled(c, OpEnqueue(call, p, lockOk, threadOk))
    ensures WaitInv(Enqueue(c, call, p, lockOk, threadOk))
  {
    var addr := c.calls[call].addr;
    assert Holds(c.calls[call], addr);
    if !lockOk || (!c.thread && !threadOk) {
      ReturnWaits(c, call, addr, ReturnedError);
    } else {
      var (ll, result) := LowerSend(c.ll, p, true, true);
      LowerSendKeeps(c.ll, p, true, true);
      LowerSentKeeps(c, p, true, true);
      LowerSentWaits(c, ll);
      if result != Done {
        ReturnWaits(c.(ll := ll, thread := true), call, addr, ReturnedError);
      } else {
        WaitingWaits(c.(ll := ll, thread := true), call, c.ll.queue.next);
      }
    }
  }

  /** An entry that was confirmed is neither queued nor confirmed again. */
  lemma ConfirmedOnce(q: Queue, i: nat)
    requires QueueInv(q) && i < |q.log| && q.log[i].Confirmed?
    ensures !InQueue(q.entries, q.log[i].id) && !ConfirmedIn(q.log[i + 1..], q.log[i].id)
  {
    var id := q.log[i].id;
    CountGrows(q.log[..i], q.log[..i + 1], id);
    CountGrows(q.log[..i + 1], q.log, id);
  }

  lemma LaterOnce(q: Queue, i: nat, j: nat, e: nat)
    requires QueueInv(q) && i < |q.log| && j < |q.log| && q.log[i].Confirmed? && q.log[i].id == e
    requires q.log[j].Confirmed? && q.log[j].id == e
    ensures j <= i
  {
    ConfirmedOnce(q, i);
  }

  lemma ConfirmedAtOnePlace(q: Queue, i: nat, j: nat, e: nat)
    requires QueueInv(q) && i < |q.log| && j < |q.log| && q.log[i].Confirmed? && q.log[i].id == e
    requires q.log[j].Confirmed? && q.log[j].id == e
    ensures i == j
  {
    LaterOnce(q, i, j, e);
    LaterOnce(q, j, i, e);
  }

  /** A result is written to the context of a call that waits for it, and nothing else is still to be. */
  lemma TellWaits(c: Client)
    requires ClientInv(c) && WaitInv(c) && Enabled(c, OpTell)
    ensures WaitInv(Tell(c))
  {
    var e := c.ll.queue.log[c.told];
    TellFrame(c);
    if e.Confirmed? && e.id in c.contexts {
      assert Confirmed(e.id, e.result) in ToCome(c);
      WrittenAlone(c, e.id);
      ConfirmedOnce(c.ll.queue, c.told);
      assert !Unsettled(Tell(c), e.id);
      WrittenWaits(c, e.id);
    } else {
      OwnersKeep(c, Tell(c));
    }
  }

  lemma WrittenWaits(c: Client, e: nat)
    requires WaitInv(c) && Enabled(c, OpTell) && e in c.contexts && Unsettled(c, e) && !Unsettled(Tell(c), e)
    requires c.ll.queue.log[c.told].Confirmed? && c.ll.queue.log[c.told].id == e
    requires forall f :: f in c.contexts && Unsettled(c, f) && f != e ==> c.contexts[f] != c.contexts[e]
    requires forall k :: k in c.calls && c.calls[k].Prepared? ==> c.calls[k].addr != c.contexts[e]
    requires WaitsAt(c, c.contexts[e]) && c.contexts[e] in c.memory
    ensures WaitInv(Tell(c))
  {
    TellFrame(c);
    OwnersKeep(c, Tell(c));
  }

  /** No other unsettled entry, and no prepared call, shares the context of an owned entry. */
  lemma WrittenAlone(c: Client, e: nat)
    requires CallsInv(c) && WaitInv(c) && e in c.contexts && Unsettled(c, e)
    ensures forall f :: f in c.contexts && Unsettled(c, f) && f != e ==> c.contexts[f] != c.contexts[e]
    ensures forall k :: k in c.calls && c.calls[k].Prepared? ==> c.calls[k].addr != c.contexts[e]
    ensures WaitsAt(c, c.contexts[e]) && c.contexts[e] in c.memory
  {
    assert Owned(c, e);
    forall f | f in c.contexts && Unsettled(c, f) && c.contexts[f] == c.contexts[e]
      ensures f == e
    {
      assert Owned(c, f);
      var k :| k in c.calls && c.calls[k] == Waiting(c.contexts[f], f);
      OwnerAlone(c, e, k);
    }
    forall k | k in c.calls && c.calls[k].Prepared?
      ensures c.calls[k].addr != c.contexts[e]
    {
      if c.calls[k].addr == c.contexts[e] {
        OwnerAlone(c, e, k);
      }
    }
  }

  lemma PostWaits(c: Client)
    requires CallsInv(c) && WaitInv(c) && c.posting.Some?
    ensures WaitInv(Post(c))
  {
    OwnersKeep(c, Post(c));
  }

  lemma MovedWaits(c: Client, ll: Sender, destroyed: bool)
    requires WaitInv(c) && LockFree(c) && Moves(c.ll, ll)
    ensures WaitInv(c.(ll := ll, destroyed := destroyed))
  {
    var d, log := c.(ll := ll, destroyed := destroyed), News(c.ll.queue.log, ll.queue.log);
    forall e | Unsettled(d, e)
      ensures Unsettled(c, e)
    {
      ConfirmedWasQueued(c.ll.queue, ll.queue, e);
      if ConfirmedIn(ToCome(d), e) {
        var result :| Confirmed(e, result) in log;
        var i :| 0 <= i < |log| && log[i] == Confirmed(e, result);
        assert ll.queue.log[|c.ll.queue.log| + i] == log[i];
      }
    }
    OwnersKeep(c, d);
  }

  lemma LowerCallWaits(c: Client, op: Op, lockOk: bool)
    requires WaitInv(c) && (op.OpSetTimeout? || op.OpRefresh? || op.OpSetErrorCallback?)
    ensures WaitInv(LowerCall(c, op, lockOk))
  {
    LowerCallFrame(c.ll, op);
    OwnersKeep(c, LowerCall(c, op, lockOk));
  }

  lemma PrepareWaits(c: Client, call: nat, addr: nat)
    requires CallsInv(c) && WaitInv(c) && call !in c.calls && addr !in c.memory
    ensures WaitInv(Prepare(c, call, addr))
  {
    var d := Prepare(c, call, addr);
    OwnersKeep(c, d);
    if c.posting.Some? {
      var k :| k in c.calls && c.calls[k].Waiting? && c.calls[k].addr == c.posting.value;
      assert d.calls[k] == c.calls[k];
    }
  }

  lemma StepWaits(c: Client, op: ClientOp)
    requires ClientInv(c) && WaitInv(c) && Enabled(c, op) && !(op.OpWake? && op.spurious)
    ensures WaitInv(ClientStep(c, op))
  {
    if op.OpWork? || op.OpTell? || op.OpPost? || op.OpDestroy? {
      PassStepWaits(c, op);
    } else if op.OpPrepare? {
      PrepareWaits(c, op.call, op.addr);
    } else if op.OpWake? {
      WakeWaits(c, op.call);
    } else {
      ApiStepWaits(c, op);
    }
  }

  lemma PassStepWaits(c: Client, op: ClientOp)
    requires ClientInv(c) && WaitInv(c) && Enabled(c, op) && (op.OpWork? || op.OpTell? || op.OpPost? || op.OpDestroy?)
    ensures WaitInv(ClientStep(c, op))
  {
    match op
    case OpWork(env) =>
      DoWorkMoves(c.ll, env);
      MovedWaits(c, DoWork(c.ll, env), c.destroyed);
    case OpTell => TellWaits(c);
    case OpPost => PostWaits(c);
    case OpDestroy(answers) =>
      DestroyMoves(c.ll, answers);
      MovedWaits(c, Destroyed(c.ll, answers), true);
  }

  lemma ApiStepWaits(c: Client, op: ClientOp)
    requires ClientInv(c) && WaitInv(c) && Enabled(c, op) && TakesLock(op)
    ensures WaitInv(ClientStep(c, op))
  {
    match op
    case OpEnqueue(call, p, lockOk, threadOk) => EnqueueWaits(c, call, p, lockOk, threadOk);
    case OpUserSend(p, callback, context, lockOk, _) =>
      if lockOk {
        LowerSendKeeps(c.ll, p, callback, context);
        LowerSentWaits(c, LowerSend(c.ll, p, callback, context).0);
      }
    case OpSetMessageTimeout(timeout, lockOk) => LowerCallWaits(c, OpSetTimeout(timeout), lockOk);
    case OpRefreshSasToken(token, lockOk) => LowerCallWaits(c, OpRefresh(token), lockOk);
    case OpSetErrorHandler(on, lockOk) => LowerCallWaits(c, OpSetErrorCallback(on), lockOk);
  }

  predicate NoSpurious(ops: seq<ClientOp>) {
    forall i :: 0 <= i < |ops| && ops[i].OpWake? ==> !ops[i].spurious
  }

  /**
   If the condition never wakes a call without having been posted, the allocator is free to reuse any address:
   every run is a fresh run, and no context that has been freed is written to or posted.
   */
  lemma {:induction false} NoSpuriousMeansFresh(ext: Option<ExtConfig>, ops: seq<ClientOp>)
    requires ClientRun(ext, ops).Some? && NoSpurious(ops)
    ensures FreshRun(ext, ops) && ClientInv(ClientRun(ext, ops).value) && WaitInv(ClientRun(ext, ops).value)
  {
    if ops == [] {
      NewClientInv(ext);
    } else {
      var front, last := ops[..|ops| - 1], ops[|ops| - 1];
      NoSpuriousMeansFresh(ext, front);
      var c := ClientRun(ext, front).value;
      if last.OpPrepare? {
        WaitMeansFresh(c, last.addr);
      }
      StepWaits(c, last);
      ClientStepKeeps(c, last);
    }
  }

  /** Without spurious wake-ups Send and SendBatch may be believed without further condition. */
  lemma SendOkMeansSentWithoutSpuriousWakes(ext: Option<ExtConfig>, ops: seq<ClientOp>, call: nat)
    requires ClientRun(ext, ops).Some? && NoSpurious(ops)
    requires var c := ClientRun(ext, ops).value; call in c.calls && c.calls[call].ReturnedOk?
    ensures var c := ClientRun(ext, ops).value;
      AmqpDone(c.calls[call].entry, true) in Reported(c) && !c.dangling
  {
    NoSpuriousMeansFresh(ext, ops);
    SendOkMeansSent(ext, ops, call);
  }
}
