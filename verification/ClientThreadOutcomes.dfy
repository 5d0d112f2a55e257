/** What the threaded sender's calls answer: what they queue, and what a synchronous call returns. */
module ClientThreadOutcomes {
  import opened Common
  import opened Events
  import opened EventHubAuth
  import opened AmqpStack
  import opened SendQueue
  import opened SendQueueInvariant
  import opened SenderSpec
  import opened SenderInvariant
  import opened SenderGuarantees
  import opened ClientThreadSpec
  import opened ClientThreadInvariant
  import opened ClientThreadGuarantees

  // ---------------------------------------------------------------- what is queued

  /** The lower sender takes what the call passes: one event, or a batch. */
  ghost predicate Accepts(p: Payload, callback: bool, context: bool) {
    match p
    case One(event, env) => event.Some? && (callback || !context) && env.allocOk && env.cloneOk
    case Batch(events, env) =>
      && events.Some? && events.value != [] && (callback || !context) && env.allocOk
      && (forall i :: 0 <= i < |events.value| ==> events.value[i].Some? && env.cloneOk(i))
      && (forall i, j :: 0 <= i < j < |events.value| ==>
            events.value[i].value.partitionKey == events.value[j].value.partitionKey)
  }

  /** The events of a payload that is accepted are these, in order. */
  predicate EventsOf(p: Payload, events: seq<EventData>) {
    match p
    case One(event, _) => event.Some? && events == [event.value]
    case Batch(list, _) =>
      list.Some? && |list.value| == |events| && forall i :: 0 <= i < |events| ==> list.value[i] == Some(events[i])
  }

  function Now(p: Payload): uint64 {
    match p
    case One(_, env) => env.now
    case Batch(_, env) => env.now
  }

  lemma LowerSendsExactly(s: Sender, p: Payload, callback: bool, context: bool)
    ensures var (t, result) := LowerSend(s, p, callback, context);
      && (result == Done <==> Accepts(p, callback, context))
      && (result == Done ==> exists events :: EventsOf(p, events) && OneQueued(s, t, events, callback, Now(p)))
      && (result != Done ==> t == s)
  {
    match p
    case One(event, env) =>
      SendAcceptsExactly(s, event, callback, context, env);
      if event.Some? {
        assert EventsOf(p, [event.value]);
      }
    case Batch(events, env) =>
      SendBatchIsAtomic(s, events, callback, context, env);
      var (t, result) := SendBatchAsync(s, events, callback, context, env);
      if result == Done {
        assert EventsOf(p, t.queue.entries[|s.queue.entries|].events);
      }
  }

  /**
   A synchronous call queues its events with a confirmation callback exactly when it gets the lock and a worker, and the
   lower sender accepts; then it waits for that entry on its context. Otherwise it returns an error, its context freed.
   */
  lemma EnqueuesExactly(c: Client, call: nat, p: Payload, lockOk: bool, threadOk: bool)
    requires call in c.calls && c.calls[call].Prepared?
    ensures var d, addr := Enqueue(c, call, p, lockOk, threadOk), c.calls[call].addr;
      if lockOk && (c.thread || threadOk) && Accepts(p, true, true) then
        && d.calls == c.calls[call := Waiting(addr, c.ll.queue.next)]
        && d.contexts == c.contexts[c.ll.queue.next := addr] && d.thread
        && (exists events :: EventsOf(p, events) && OneQueued(c.ll, d.ll, events, true, Now(p)))
      else
        d.calls == c.calls[call := ReturnedError] && d.ll == c.ll && addr !in d.memory && d.contexts == c.contexts
  {
    LowerSendsExactly(c.ll, p, true, true);
  }

  /** A send with the user's own callback queues its events under the same conditions; the calls are left alone. */
  lemma UserSendsExactly(c: Client, p: Payload, callback: bool, context: bool, lockOk: bool, threadOk: bool)
    ensures var d := UserSend(c, p, callback, context, lockOk, threadOk);
      && d.calls == c.calls && d.contexts == c.contexts && d.memory == c.memory
      && if lockOk && (c.thread || threadOk) && Accepts(p, callback, context) then
           d.thread && exists events :: EventsOf(p, events) && OneQueued(c.ll, d.ll, events, callback, Now(p))
         else d.ll == c.ll
  {
    LowerSendsExactly(c.ll, p, callback, context);
  }

  /** The settings reach the lower sender exactly if the lock is taken. */
  lemma SettingsExactly(c: Client, timeout: uint64, on: bool, token: Option<string>, lockOk: bool)
    requires Enabled(c, OpSetMessageTimeout(timeout, lockOk))
    ensures ClientStep(c, OpSetMessageTimeout(timeout, lockOk)) ==
      c.(ll := if lockOk then c.ll.(msgTimeout := timeout) else c.ll)
    ensures ClientStep(c, OpSetErrorHandler(on, lockOk)) == c.(ll := if lockOk then c.ll.(errorCb := on) else c.ll)
    ensures var d := ClientStep(c, OpRefreshSasToken(token, lockOk));
      var kept := && lockOk && token.Some? && c.ll.ext.Some? && c.ll.amqp == Initialized && c.ll.refreshToken == None
                  && SasToken.Parse(token.value).Some? && SasToken.Parse(token.value).value.uri == c.ll.ext.value.uri;
      d == c.(ll := if kept then c.ll.(refreshToken := token) else c.ll)
  {
    RefreshIsKeptExactly(c.ll, token);
  }

  // ---------------------------------------------------------------- what a synchronous call returns

  /** What a context holds, once a result has been written to it, is how the entry of its call was confirmed. */
  ghost predicate ToldInv(c: Client) {
    forall k :: k in c.calls && c.calls[k].Waiting? && !Untouched(c, c.calls[k].addr) ==>
      c.calls[k].addr in c.memory && Confirmed(c.calls[k].entry, c.memory[c.calls[k].addr]) in Reported(c)
  }

  lemma TellTold(c: Client)
    requires ClientInv(c) && WaitInv(c) && ToldInv(c) && Enabled(c, OpTell)
    ensures ToldInv(Tell(c))
  {
    var e := c.ll.queue.log[c.told];
    TellFrame(c);
    if e.Confirmed? && e.id in c.contexts {
      assert Confirmed(e.id, e.result) in ToCome(c);
      WrittenAlone(c, e.id);
      assert Unsettled(c, e.id) && Owned(c, e.id);
      ToldToOwner(c, e.id);
    } else {
      ToldNobody(c);
    }
  }

  lemma ToldNobody(c: Client)
    requires ToldInv(c) && Enabled(c, OpTell)
    requires var e := c.ll.queue.log[c.told]; !(e.Confirmed? && e.id in c.contexts)
    ensures ToldInv(Tell(c))
  {
    TellFrame(c);
  }

  lemma ToldToOwner(c: Client, e: nat)
    requires CallsInv(c) && ToldInv(c) && Enabled(c, OpTell) && Owned(c, e) && c.contexts[e] in c.memory
    requires c.ll.queue.log[c.told].Confirmed? && c.ll.queue.log[c.told].id == e
    ensures ToldInv(Tell(c))
  {
    TellFrame(c);
    var d := Tell(c);
    assert c.ll.queue.log[c.told] in Reported(d);
    forall k | k in c.calls && Holds(c.calls[k], c.contexts[e])
      ensures c.calls[k] == Waiting(c.contexts[e], e)
    {
      OwnerAlone(c, e, k);
    }
  }

  lemma ReturnTold(c: Client, call: nat, addr: nat, result: Call)
    requires CallsInv(c) && ToldInv(c) && call in c.calls && Holds(c.calls[call], addr) && !result.Waiting?
    ensures ToldInv(Return(c, call, addr, result))
  {
    var d := Return(c, call, addr, result);
    forall k | k in d.calls && d.calls[k].Waiting?
      ensures k != call && d.calls[k] == c.calls[k] && d.calls[k].addr != addr
    {
    }
  }

  lemma PrepareTold(c: Client, call: nat, addr: nat)
    requires CallsInv(c) && ToldInv(c) && call !in c.calls && addr !in c.memory
    ensures ToldInv(Prepare(c, call, addr))
  {
  }

  lemma AwaitTold(c: Client, call: nat, entry: nat)
    requires CallsInv(c) && ToldInv(c) && LockFree(c) && call in c.calls && c.calls[call].Prepared?
    ensures ToldInv(AwaitEntry(c, call, c.calls[call].addr, entry))
  {
  }

  lemma SameTold(c: Client, d: Client)
    requires ToldInv(c) && d.calls == c.calls && d.memory == c.memory && d.posted == c.posted && d.posting == c.posting
    requires Reported(d) == Reported(c)
    ensures ToldInv(d)
  {
  }

  lemma EnqueueTold(c: Client, call: nat, p: Payload, lockOk: bool, threadOk: bool)
    requires ClientInv(c) && ToldInv(c) && Enabled(c, OpEnqueue(call, p, lockOk, threadOk))
    ensures ToldInv(Enqueue(c, call, p, lockOk, threadOk))
  {
    var addr := c.calls[call].addr;
    assert Holds(c.calls[call], addr);
    if !lockOk || (!c.thread && !threadOk) {
      ReturnTold(c, call, addr, ReturnedError);
    } else {
      var (ll, result) := LowerSend(c.ll, p, true, true);
      LowerSendKeeps(c.ll, p, true, true);
      var m := c.(ll := ll, thread := true);
      SameTold(c, m);
      if result != Done {
        ReturnTold(m, call, addr, ReturnedError);
      } else {
        AwaitTold(m, call, c.ll.queue.next);
      }
    }
  }

  lemma LowerTold(c: Client, op: ClientOp)
    requires ClientInv(c) && ToldInv(c) && Enabled(c, op) && TakesLock(op) && !op.OpEnqueue?
    ensures ToldInv(ClientStep(c, op))
  {
    match op
    case OpUserSend(p, callback, context, lockOk, threadOk) => UserSendTold(c, p, callback, context, lockOk, threadOk);
    case OpSetMessageTimeout(timeout, lockOk) => LowerCallTold(c, OpSetTimeout(timeout), lockOk);
    case OpRefreshSasToken(token, lockOk) => LowerCallTold(c, OpRefresh(token), lockOk);
    case OpSetErrorHandler(on, lockOk) => LowerCallTold(c, OpSetErrorCallback(on), lockOk);
  }

  lemma UserSendTold(c: Client, p: Payload, callback: bool, context: bool, lockOk: bool, threadOk: bool)
    requires LowerInv(c) && ToldInv(c) && !c.destroyed
    ensures ToldInv(UserSend(c, p, callback, context, lockOk, threadOk))
  {
    LowerSendKeeps(c.ll, p, callback, context);
    SameTold(c, UserSend(c, p, callback, context, lockOk, threadOk));
  }

  lemma LowerCallTold(c: Client, op: Op, lockOk: bool)
    requires ToldInv(c) && (op.OpSetTimeout? || op.OpRefresh? || op.OpSetErrorCallback?)
    ensures ToldInv(LowerCall(c, op, lockOk))
  {
    LowerCallFrame(c.ll, op);
    SameTold(c, LowerCall(c, op, lockOk));
  }

  lemma PostTold(c: Client)
    requires ToldInv(c) && Enabled(c, OpPost)
    ensures ToldInv(Post(c))
  {
    var d := Post(c);
    assert Reported(d) == Reported(c);
    assert forall addr :: addr in c.memory && !Untouched(d, addr) ==> !Untouched(c, addr);
  }

  lemma MovedTold(c: Client, ll: Sender, destroyed: bool)
    requires ToldInv(c) && LockFree(c) && c.ll.queue.log <= ll.queue.log
    ensures ToldInv(c.(ll := ll, destroyed := destroyed))
  {
    var d := c.(ll := ll, destroyed := destroyed);
    assert Reported(d) == Reported(c);
    SameTold(c, d);
  }

  lemma StepTold(c: Client, op: ClientOp)
    requires ClientInv(c) && WaitInv(c) && ToldInv(c) && Enabled(c, op)
    ensures ToldInv(ClientStep(c, op))
  {
    if op.OpEnqueue? {
      EnqueueTold(c, op.call, op.payload, op.lockOk, op.threadOk);
    } else if TakesLock(op) {
      LowerTold(c, op);
    } else {
      OtherTold(c, op);
    }
  }

  lemma OtherTold(c: Client, op: ClientOp)
    requires ClientInv(c) && WaitInv(c) && ToldInv(c) && Enabled(c, op) && !TakesLock(op)
    ensures ToldInv(ClientStep(c, op))
  {
    match op
    case OpPrepare(call, addr) => PrepareTold(c, call, addr);
    case OpWake(call, _) =>
      var w := c.calls[call];
      ReturnTold(c, call, w.addr, if c.memory[w.addr] == ConfirmOk then ReturnedOk(w.entry) else ReturnedError);
    case OpWork(env) =>
      DoWorkMoves(c.ll, env);
      MovedTold(c, DoWork(c.ll, env), c.destroyed);
    case OpTell => TellTold(c);
    case OpPost => PostTold(c);
    case OpDestroy(answers) =>
      DestroyMoves(c.ll, answers);
      MovedTold(c, Destroyed(c.ll, answers), true);
  }

  lemma {:induction false} RunTold(ext: Option<ExtConfig>, ops: seq<ClientOp>)
    requires ClientRun(ext, ops).Some? && NoSpurious(ops)
    ensures ToldInv(ClientRun(ext, ops).value)
  {
    if ops != [] {
      var front := ops[..|ops| - 1];
      RunTold(ext, front);
      NoSpuriousMeansFresh(ext, front);
      StepTold(ClientRun(ext, front).value, ops[|ops| - 1]);
    }
  }

  /**
   Without spurious wake-ups a synchronous call that wakes returns OK if and only if its own entry was confirmed OK: no
   success is taken for a failure either.
   */
  lemma SendReturnsExactly(ext: Option<ExtConfig>, ops: seq<ClientOp>, call: nat)
    requires ClientRun(ext, ops).Some? && NoSpurious(ops) && Enabled(ClientRun(ext, ops).value, OpWake(call, false))
    ensures var c := ClientRun(ext, ops).value;
      var entry := c.calls[call].entry;
      ClientStep(c, OpWake(call, false)).calls[call] ==
        if Confirmed(entry, ConfirmOk) in Reported(c) then ReturnedOk(entry) else ReturnedError
  {
    var c := ClientRun(ext, ops).value;
    var w := c.calls[call];
    RunTold(ext, ops);
    NoSpuriousMeansFresh(ext, ops);
    assert Confirmed(w.entry, c.memory[w.addr]) in Reported(c);
    if Confirmed(w.entry, ConfirmOk) in Reported(c) {
      ReportedOnce(c, w.entry, c.memory[w.addr]);
    }
    assert ClientStep(c, OpWake(call, false)) == Wake(c, call);
  }

  lemma ReportedOnce(c: Client, e: nat, result: Confirmation)
    requires QueueInv(c.ll.queue) && Confirmed(e, ConfirmOk) in Reported(c) && Confirmed(e, result) in Reported(c)
    ensures result == ConfirmOk
  {
    var log, all := Reported(c), c.ll.queue.log;
    var i :| 0 <= i < |log| && log[i] == Confirmed(e, ConfirmOk);
    var j :| 0 <= j < |log| && log[j] == Confirmed(e, result);
    assert all[i] == log[i] && all[j] == log[j];
    ConfirmedAtOnePlace(c.ll.queue, i, j, e);
  }
}
