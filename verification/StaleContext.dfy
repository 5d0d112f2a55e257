/**
 The address condition on synchronous sends is exact: a context allocated at an address that breaks it can make a Send
 return OK for an entry that was not reported. Such runs exist from creation, between passes and in the middle of one.
 */
module StaleContext {
  import opened Common
  import opened Events
  import opened EventHubAuth
  import opened SendQueue
  import opened SendQueueInvariant
  import opened SenderSpec
  import opened SenderInvariant
  import opened SenderLogs
  import opened SenderPaths
  import opened ClientThreadSpec
  import opened ClientThreadInvariant
  import opened ClientThreadGuarantees

  // ---------------------------------------------------------------- what every run keeps, fresh or not

  /** Only accepted entries have been answered. */
  predicate AnsweredBelow(log: seq<SendEvent>, next: nat) {
    forall i :: 0 <= i < |log| && log[i].AmqpDone? ==> log[i].id < next
  }

  ghost predicate BaseInv(c: Client) {
    LowerInv(c) && AnsweredBelow(c.ll.queue.log, c.ll.queue.next) && forall e :: e in c.contexts ==> e < c.ll.queue.next
  }

  lemma QueuedBelowNext(q: Queue, id: nat)
    requires QueueInv(q) && (id in q.outstanding || WaitsToBeSent(q.entries, id))
    ensures id < q.next
  {
  }

  lemma AnsweredGrows(a: seq<SendEvent>, b: seq<SendEvent>, next: nat)
    requires AnsweredBelow(a, next) && a <= b && forall e :: e in News(a, b) && e.AmqpDone? ==> e.id < next
    ensures AnsweredBelow(b, next)
  {
    forall i | 0 <= i < |b| && b[i].AmqpDone?
      ensures b[i].id < next
    {
      if i >= |a| {
        assert b[i] == News(a, b)[i - |a|];
      } else {
        assert b[i] == a[i];
      }
    }
  }

  lemma DoWorkAnswersBelow(s: Sender, env: DoWorkEnv)
    requires QueueInv(s.queue) && AnsweredBelow(s.queue.log, s.queue.next)
    ensures AnsweredBelow(DoWork(s, env).queue.log, s.queue.next)
  {
    DoWorkLogsFor(s, env);
    var a, b := s.queue.log, DoWork(s, env).queue.log;
    forall e | e in News(a, b) && e.AmqpDone?
      ensures e.id < s.queue.next
    {
      QueuedBelowNext(s.queue, e.id);
    }
    AnsweredGrows(a, b, s.queue.next);
  }

  lemma DestroyAnswersBelow(s: Sender, answers: seq<(nat, bool)>)
    requires QueueInv(s.queue) && AnsweredBelow(s.queue.log, s.queue.next)
    ensures s.queue.log <= Destroyed(s, answers).queue.log
    ensures AnsweredBelow(Destroyed(s, answers).queue.log, s.queue.next)
  {
    var q, d := s.queue, Down(s, answers).queue;
    AnswersNews(q, answers);
    forall e | e in News(q.log, d.log) && e.AmqpDone?
      ensures e.id < q.next
    {
      QueuedBelowNext(q, e.id);
    }
    AnsweredGrows(q.log, d.log, q.next);
    DestroyAllNews(d);
    AnsweredGrows(d.log, DestroyAll(d).log, q.next);
  }

  lemma BaseKeeps(c: Client, op: ClientOp)
    requires BaseInv(c) && Enabled(c, op)
    ensures BaseInv(ClientStep(c, op))
  {
    match op
    case OpPrepare(call, addr) => PrepareBase(c, call, addr);
    case OpEnqueue(call, p, lockOk, threadOk) => EnqueueBase(c, call, p, lockOk, threadOk);
    case OpWake(call, spurious) => WakeBase(c, call, spurious);
    case OpUserSend(p, callback, context, lockOk, threadOk) => UserSendBase(c, p, callback, context, lockOk, threadOk);
    case OpSetMessageTimeout(timeout, lockOk) => LowerCallBase(c, OpSetTimeout(timeout), lockOk);
    case OpRefreshSasToken(token, lockOk) => LowerCallBase(c, OpRefresh(token), lockOk);
    case OpSetErrorHandler(on, lockOk) => LowerCallBase(c, OpSetErrorCallback(on), lockOk);
    case OpWork(env) => WorkBase(c, env);
    case OpTell => TellBase(c);
    case OpPost => PostBase(c);
    case OpDestroy(answers) => DestroyBase(c, answers);
  }

  lemma PrepareBase(c: Client, call: nat, addr: nat)
    requires BaseInv(c) && Enabled(c, OpPrepare(call, addr))
    ensures BaseInv(ClientStep(c, OpPrepare(call, addr)))
  {
  }

  lemma WakeBase(c: Client, call: nat, spurious: bool)
    requires BaseInv(c) && Enabled(c, OpWake(call, spurious))
    ensures BaseInv(ClientStep(c, OpWake(call, spurious)))
  {
  }

  lemma TellBase(c: Client)
    requires BaseInv(c) && Enabled(c, OpTell)
    ensures BaseInv(ClientStep(c, OpTell))
  {
    PassFrame(c);
    SameBase(c, ClientStep(c, OpTell));
  }

  /** The steps in the course of a pass leave the lower sender alone. */
  lemma PassFrame(c: Client)
    ensures Enabled(c, OpTell) ==>
      var d := ClientStep(c, OpTell);
      d.ll == c.ll && d.contexts == c.contexts && d.destroyed == c.destroyed && d.told == c.told + 1
    ensures Enabled(c, OpPost) ==>
      var d := ClientStep(c, OpPost);
      d.ll == c.ll && d.contexts == c.contexts && d.destroyed == c.destroyed && d.told == c.told
  {
  }

  lemma SameBase(c: Client, d: Client)
    requires BaseInv(c) && d.ll == c.ll && d.contexts == c.contexts && d.destroyed == c.destroyed
    requires d.told <= |d.ll.queue.log|
    ensures BaseInv(d)
  {
  }

  lemma PostBase(c: Client)
    requires BaseInv(c) && Enabled(c, OpPost)
    ensures BaseInv(ClientStep(c, OpPost))
  {
    PassFrame(c);
    SameBase(c, ClientStep(c, OpPost));
  }

  lemma WorkBase(c: Client, env: DoWorkEnv)
    requires BaseInv(c) && Enabled(c, OpWork(env))
    ensures BaseInv(ClientStep(c, OpWork(env)))
  {
    DoWorkKeeps(c.ll, env);
    DoWorkMoves(c.ll, env);
    DoWorkAnswersBelow(c.ll, env);
  }

  lemma DestroyBase(c: Client, answers: seq<(nat, bool)>)
    requires BaseInv(c) && Enabled(c, OpDestroy(answers))
    ensures BaseInv(ClientStep(c, OpDestroy(answers)))
  {
    DestroyMoves(c.ll, answers);
    DestroyAnswersBelow(c.ll, answers);
  }

  lemma LowerSendBase(c: Client, p: Payload, callback: bool, context: bool)
    requires BaseInv(c) && !c.destroyed
    ensures BaseInv(c.(ll := LowerSend(c.ll, p, callback, context).0))
  {
    LowerSendKeeps(c.ll, p, callback, context);
  }

  lemma UserSendBase(c: Client, p: Payload, callback: bool, context: bool, lockOk: bool, threadOk: bool)
    requires BaseInv(c) && Enabled(c, OpUserSend(p, callback, context, lockOk, threadOk))
    ensures BaseInv(ClientStep(c, OpUserSend(p, callback, context, lockOk, threadOk)))
  {
    LowerSendBase(c, p, callback, context);
  }

  lemma EnqueueBase(c: Client, call: nat, p: Payload, lockOk: bool, threadOk: bool)
    requires BaseInv(c) && Enabled(c, OpEnqueue(call, p, lockOk, threadOk))
    ensures BaseInv(ClientStep(c, OpEnqueue(call, p, lockOk, threadOk)))
  {
    LowerSendBase(c, p, true, true);
    LowerSendKeeps(c.ll, p, true, true);
  }

  lemma LowerCallBase(c: Client, op: Op, lockOk: bool)
    requires BaseInv(c) && !c.destroyed && (op.OpSetTimeout? || op.OpRefresh? || op.OpSetErrorCallback?)
    ensures BaseInv(LowerCall(c, op, lockOk))
  {
    StepKeeps(c.ll, op);
    LowerCallFrame(c.ll, op);
  }

  lemma {:induction false} RunBase(ext: Option<ExtConfig>, ops: seq<ClientOp>)
    requires ClientRun(ext, ops).Some?
    ensures BaseInv(ClientRun(ext, ops).value)
  {
    if ops == [] {
      NewClientInv(ext);
    } else {
      RunBase(ext, ops[..|ops| - 1]);
      BaseKeeps(ClientRun(ext, ops[..|ops| - 1]).value, ops[|ops| - 1]);
    }
  }

  // ---------------------------------------------------------------- a lie

  /** A synchronous call returned OK for an entry that AMQP has not reported so far. */
  ghost predicate Lies(ext: Option<ExtConfig>, ops: seq<ClientOp>) {
    ClientRun(ext, ops).Some? && var c := ClientRun(ext, ops).value;
    exists k :: k in c.calls && c.calls[k].ReturnedOk? && !IsReported(c, c.calls[k].entry)
  }

  predicate NoPrepare(ops: seq<ClientOp>) {
    forall i :: 0 <= i < |ops| ==> !ops[i].OpPrepare?
  }

  lemma RunExtends(ext: Option<ExtConfig>, ops: seq<ClientOp>, c: Client, op: ClientOp)
    requires ClientRun(ext, ops) == Some(c) && Enabled(c, op)
    ensures ClientRun(ext, ops + [op]) == Some(ClientStep(c, op))
  {
    assert (ops + [op])[..|ops + [op]| - 1] == ops;
  }

  // ---------------------------------------------------------------- a pass to its end

  /** The client once the running pass has come to its end, and no other thread's step in between. */
  function Drained(c: Client): Client
    decreases |c.ll.queue.log| - c.told, c.posting.Some?
  {
    if c.posting.Some? then Drained(Post(c)) else if c.told < |c.ll.queue.log| then Drained(Tell(c)) else c
  }

  function DrainOps(c: Client): seq<ClientOp>
    decreases |c.ll.queue.log| - c.told, c.posting.Some?
  {
    if c.posting.Some? then [OpPost] + DrainOps(Post(c))
    else if c.told < |c.ll.queue.log| then [OpTell] + DrainOps(Tell(c))
    else []
  }

  lemma TellRuns(ext: Option<ExtConfig>, ops: seq<ClientOp>, c: Client)
    requires ClientRun(ext, ops) == Some(c) && Enabled(c, OpTell)
    ensures ClientRun(ext, ops + [OpTell]) == Some(Tell(c))
  {
    RunExtends(ext, ops, c, OpTell);
  }

  lemma PostRuns(ext: Option<ExtConfig>, ops: seq<ClientOp>, c: Client)
    requires ClientRun(ext, ops) == Some(c) && Enabled(c, OpPost)
    ensures ClientRun(ext, ops + [OpPost]) == Some(Post(c))
  {
    RunExtends(ext, ops, c, OpPost);
  }

  lemma {:induction false} DrainRuns(ext: Option<ExtConfig>, ops: seq<ClientOp>, c: Client)
    requires ClientRun(ext, ops) == Some(c)
    ensures ClientRun(ext, ops + DrainOps(c)) == Some(Drained(c)) && NoPrepare(DrainOps(c))
    decreases |c.ll.queue.log| - c.told, c.posting.Some?
  {
    if c.posting.Some? {
      PostRuns(ext, ops, c);
      DrainRuns(ext, ops + [OpPost], Post(c));
      Assoc(ops, [OpPost], DrainOps(Post(c)));
    } else if c.told < |c.ll.queue.log| {
      TellRuns(ext, ops, c);
      DrainRuns(ext, ops + [OpTell], Tell(c));
      Assoc(ops, [OpTell], DrainOps(Tell(c)));
    } else {
      assert ops + DrainOps(c) == ops;
    }
  }

  lemma {:induction false} DrainFrame(c: Client)
    requires c.told <= |c.ll.queue.log|
    ensures var d := Drained(c);
      && d == c.(told := |c.ll.queue.log|, posting := None,
                 memory := d.memory, posted := d.posted, dangling := d.dangling)
      && d.memory.Keys == c.memory.Keys
    decreases |c.ll.queue.log| - c.told, c.posting.Some?
  {
    if c.posting.Some? {
      DrainFrame(Post(c));
    } else if c.told < |c.ll.queue.log| {
      TellFrame(c);
      DrainFrame(Tell(c));
    }
  }

  /** The last result that `log` has for the context `addr`. */
  function LastTold(contexts: map<nat, nat>, log: seq<SendEvent>, addr: nat): Option<Confirmation> {
    if log == [] then None
    else
      var later := LastTold(contexts, log[1..], addr);
      if later.Some? then later
      else if log[0].Confirmed? && log[0].id in contexts && contexts[log[0].id] == addr then Some(log[0].result)
      else None
  }

  lemma TellReads(c: Client, addr: nat)
    requires c.told < |c.ll.queue.log| && addr in c.memory && c.posting == None
    ensures var d, e := Tell(c), c.ll.queue.log[c.told];
      var told := e.Confirmed? && e.id in c.contexts && c.contexts[e.id] == addr;
      && d.memory[addr] == (if told then e.result else c.memory[addr]) && (told ==> d.posting == Some(addr))
      && d.contexts == c.contexts && d.posted == c.posted && addr in d.memory
      && var later := LastTold(c.contexts, ToCome(d), addr);
         LastTold(c.contexts, ToCome(c), addr) == if later.Some? then later else if told then Some(e.result) else None
  {
    TellFrame(c);
    assert ToCome(c)[1..] == ToCome(Tell(c));
  }

  /** What a pass leaves in a context is the last result it has for it, posted; without one nothing changes. */
  lemma {:induction false} DrainReads(c: Client, addr: nat)
    requires c.told <= |c.ll.queue.log| && addr in c.memory
    ensures var d, last := Drained(c), LastTold(c.contexts, ToCome(c), addr);
      && addr in d.memory && d.memory[addr] == (if last.Some? then last.value else c.memory[addr])
      && (last.Some? || addr in c.posted || c.posting == Some(addr) ==> addr in d.posted)
    decreases |c.ll.queue.log| - c.told, c.posting.Some?
  {
    if c.posting.Some? {
      DrainReads(Post(c), addr);
    } else if c.told < |c.ll.queue.log| {
      TellReads(c, addr);
      DrainReads(Tell(c), addr);
    }
  }

  /** When all results are OK the last one is; some result for `addr` makes a last one. */
  lemma {:induction false} LastToldOk(contexts: map<nat, nat>, log: seq<SendEvent>, addr: nat, id: nat)
    requires forall e :: e in log && e.Confirmed? && e.id in contexts && contexts[e.id] == addr ==>
      e.result == ConfirmOk
    ensures LastTold(contexts, log, addr) in {None, Some(ConfirmOk)}
    ensures Confirmed(id, ConfirmOk) in log && id in contexts && contexts[id] == addr ==>
      LastTold(contexts, log, addr) == Some(ConfirmOk)
  {
    if log != [] {
      LastToldOk(contexts, log[1..], addr, id);
    }
  }

  /** The context at `addr` reads OK, and its call can wake. */
  predicate TellsOk(c: Client, addr: nat) {
    addr in c.memory && c.memory[addr] == ConfirmOk && addr in c.posted
  }

  lemma DoWorkContinues(s: Sender, env: DoWorkEnv)
    ensures s.queue.log <= DoWork(s, env).queue.log
  {
    DoWorkLogsFor(s, env);
  }

  lemma {:induction false} WorksContinues(s: Sender, envs: seq<DoWorkEnv>)
    ensures s.queue.log <= Works(s, envs).queue.log
    decreases |envs|
  {
    if envs != [] {
      DoWorkContinues(s, envs[0]);
      WorksContinues(DoWork(s, envs[0]), envs[1..]);
    }
  }

  /** A whole pass as steps of the client. */
  lemma PassRuns(ext: Option<ExtConfig>, ops: seq<ClientOp>, c: Client, env: DoWorkEnv)
    returns (d: Client, more: seq<ClientOp>)
    requires ClientRun(ext, ops) == Some(c) && c.thread && !c.destroyed && LockFree(c)
    ensures d == Drained(c.(ll := DoWork(c.ll, env)))
    ensures NoPrepare(more) && ClientRun(ext, ops + more) == Some(d)
  {
    var m := c.(ll := DoWork(c.ll, env));
    RunExtends(ext, ops, c, OpWork(env));
    DrainRuns(ext, ops + [OpWork(env)], m);
    d, more := Drained(m), [OpWork(env)] + DrainOps(m);
    Assoc(ops, [OpWork(env)], DrainOps(m));
  }

  /** A pass that confirms nothing but entry `id`, with OK. */
  lemma PassTells(c: Client, env: DoWorkEnv, id: nat, addr: nat)
    requires LockFree(c) && addr in c.memory && id in c.contexts && c.contexts[id] == addr
    requires OnlyOk(c.ll.queue.log, DoWork(c.ll, env).queue.log, id)
    ensures var d := Drained(c.(ll := DoWork(c.ll, env)));
      && LockFree(d) && d.ll == DoWork(c.ll, env) && d.thread == c.thread && d.destroyed == c.destroyed
      && d.calls == c.calls && d.contexts == c.contexts && addr in d.memory
      && (Confirmed(id, ConfirmOk) in News(c.ll.queue.log, d.ll.queue.log) || TellsOk(c, addr) ==> TellsOk(d, addr))
  {
    var m, log := c.(ll := DoWork(c.ll, env)), News(c.ll.queue.log, DoWork(c.ll, env).queue.log);
    assert ToCome(m) == log;
    assert forall i :: 0 <= i < |log| ==> log[i] == m.ll.queue.log[|c.ll.queue.log| + i];
    DrainFrame(m);
    LastToldOk(c.contexts, log, addr, id);
    DrainReads(m, addr);
  }

  lemma OnlyOkSplits(a: seq<SendEvent>, b: seq<SendEvent>, c: seq<SendEvent>, id: nat)
    requires OnlyOk(a, c, id) && a <= b <= c
    ensures OnlyOk(a, b, id) && OnlyOk(b, c, id)
    ensures forall e :: e in News(a, c) ==> e in News(a, b) || e in News(b, c)
  {
    NewsAppend(a, b, c);
  }

  lemma {:induction false} WorksTell(
      ext: Option<ExtConfig>, ops: seq<ClientOp>, c: Client, envs: seq<DoWorkEnv>, id: nat, addr: nat)
    returns (d: Client, more: seq<ClientOp>)
    requires ClientRun(ext, ops) == Some(c) && c.thread && !c.destroyed && LockFree(c)
    requires addr in c.memory && id in c.contexts && c.contexts[id] == addr
    requires OnlyOk(c.ll.queue.log, Works(c.ll, envs).queue.log, id)
    requires Confirmed(id, ConfirmOk) in News(c.ll.queue.log, Works(c.ll, envs).queue.log) || TellsOk(c, addr)
    ensures NoPrepare(more) && ClientRun(ext, ops + more) == Some(d)
    ensures TellsOk(d, addr) && d.calls == c.calls && d.ll == Works(c.ll, envs)
    decreases |envs|
  {
    if envs == [] {
      d, more := c, [];
      assert ops + more == ops;
    } else {
      DoWorkContinues(c.ll, envs[0]);
      WorksContinues(DoWork(c.ll, envs[0]), envs[1..]);
      OnlyOkSplits(c.ll.queue.log, DoWork(c.ll, envs[0]).queue.log, Works(c.ll, envs).queue.log, id);
      PassTells(c, envs[0], id, addr);
      var m, first := PassRuns(ext, ops, c, envs[0]);
      var rest;
      d, rest := WorksTell(ext, ops + first, m, envs[1..], id, addr);
      more := first + rest;
      Assoc(ops, first, rest);
    }
  }

  const EVENT := EventData([1], None, [])
  const SEND := One(Some(EVENT), SendEnv(true, true, 0))

  /** The new call's context is at `addr`, the pass that was running is over, and nothing else has changed. */
  ghost predicate Ready(c: Client, d: Client, call: nat, addr: nat) {
    && BaseInv(d) && LockFree(d) && !d.destroyed && d.ll == c.ll && d.contexts == c.contexts
    && call in d.calls && d.calls[call] == Prepared(addr) && addr in d.memory
  }

  lemma PreparedAndDrained(ext: Option<ExtConfig>, ops: seq<ClientOp>, c: Client, call: nat, addr: nat)
    returns (d: Client, more: seq<ClientOp>)
    requires ClientRun(ext, ops) == Some(c) && BaseInv(c) && Enabled(c, OpPrepare(call, addr))
    ensures Ready(c, d, call, addr) && d == Drained(Prepare(c, call, addr))
    ensures NoPrepare(more) && ClientRun(ext, ops + [OpPrepare(call, addr)] + more) == Some(d)
  {
    var p := Prepare(c, call, addr);
    RunExtends(ext, ops, c, OpPrepare(call, addr));
    DrainRuns(ext, ops + [OpPrepare(call, addr)], p);
    DrainFrame(p);
    d, more := Drained(p), DrainOps(p);
  }

  /** The new call at `addr` has queued its entry, which nobody has answered. */
  ghost predicate Beside(c: Client, d: Client, call: nat, addr: nat) {
    && BaseInv(d) && LockFree(d) && d.thread && !d.destroyed && addr in d.memory
    && call in d.calls && d.calls[call] == Waiting(addr, c.ll.queue.next)
    && AnsweredBelow(d.ll.queue.log, c.ll.queue.next) && d.memory == c.memory
    && forall id :: id in c.contexts && id < c.ll.queue.next ==>
         id in d.contexts && d.contexts[id] == c.contexts[id] && (Answerable(c.ll, id) ==> Answerable(d.ll, id))
  }

  lemma EnqueuedBeside(ext: Option<ExtConfig>, ops: seq<ClientOp>, c: Client, call: nat, addr: nat) returns (d: Client)
    requires ClientRun(ext, ops) == Some(c) && Ready(c, c, call, addr)
    ensures ClientRun(ext, ops + [OpEnqueue(call, SEND, true, true)]) == Some(d) && Beside(c, d, call, addr)
  {
    d := Enqueue(c, call, SEND, true, true);
    RunExtends(ext, ops, c, OpEnqueue(call, SEND, true, true));
    QueuedBeside(c, call, addr);
  }

  lemma QueuedBeside(c: Client, call: nat, addr: nat)
    requires Ready(c, c, call, addr)
    ensures Beside(c, Enqueue(c, call, SEND, true, true), call, addr)
  {
    EnqueueBase(c, call, SEND, true, true);
    QueuedAnswerable(c, call);
  }

  lemma QueuedAnswerable(c: Client, call: nat)
    requires SenderInv(c.ll) && call in c.calls && c.calls[call].Prepared?
    ensures var (ll, result) := LowerSend(c.ll, SEND, true, true);
      && result == Done && ll.queue.log == c.ll.queue.log
      && forall id: nat :: Answerable(c.ll, id) ==> Answerable(ll, id)
  {
    LowerSendKeeps(c.ll, SEND, true, true);
  }

  /** The old entry is confirmed, and the new call wakes. */
  lemma ConfirmedLies(ext: Option<ExtConfig>, ops: seq<ClientOp>, d: Client, call: nat, addr: nat, id: nat, entry: nat)
    returns (more: seq<ClientOp>)
    requires ClientRun(ext, ops) == Some(d) && d.thread && !d.destroyed && LockFree(d) && BaseInv(d)
    requires addr in d.memory && call in d.calls && d.calls[call] == Waiting(addr, entry) && id != entry
    requires id in d.contexts && d.contexts[id] == addr && AnsweredBelow(d.ll.queue.log, entry) && Answerable(d.ll, id)
    ensures NoPrepare(more) && Lies(ext, ops + more)
  {
    var envs := CanConfirm(d.ll, id);
    var e, passes := WorksTell(ext, ops, d, envs, id, addr);
    assert AmqpDone(entry, true) !in e.ll.queue.log;
    WakesToLie(ext, ops + passes, e, call, addr, entry, false);
    more := passes + [OpWake(call, false)];
    Assoc(ops, passes, [OpWake(call, false)]);
  }

  lemma WakesToLie(
      ext: Option<ExtConfig>, ops: seq<ClientOp>, e: Client, call: nat, addr: nat, entry: nat, spurious: bool)
    requires ClientRun(ext, ops) == Some(e) && addr in e.memory && e.memory[addr] == ConfirmOk
    requires call in e.calls && e.calls[call] == Waiting(addr, entry) && (spurious || addr in e.posted)
    requires AmqpDone(entry, true) !in e.ll.queue.log
    ensures Lies(ext, ops + [OpWake(call, spurious)])
  {
    RunExtends(ext, ops, e, OpWake(call, spurious));
    var d := Wake(e, call);
    assert d.calls[call] == ReturnedOk(entry);
    assert !IsReported(d, entry);
  }

  /** An unsent or unanswered entry refers to the address: it is confirmed once the new call waits. */
  lemma AnswerableLies(ext: Option<ExtConfig>, ops: seq<ClientOp>, c: Client, call: nat, addr: nat, id: nat)
    returns (more: seq<ClientOp>)
    requires ClientRun(ext, ops) == Some(c) && Ready(c, c, call, addr)
    requires id in c.contexts && c.contexts[id] == addr && Answerable(c.ll, id)
    ensures NoPrepare(more) && Lies(ext, ops + more)
  {
    var enqueue := OpEnqueue(call, SEND, true, true);
    var d := EnqueuedBeside(ext, ops, c, call, addr);
    var rest := ConfirmedLies(ext, ops + [enqueue], d, call, addr, id, c.ll.queue.next);
    more := [enqueue] + rest;
    Assoc(ops, [enqueue], rest);
  }

  /** The running pass has left OK in the new context: its call waits, and is woken spuriously. */
  lemma ToldLies(ext: Option<ExtConfig>, ops: seq<ClientOp>, c: Client, call: nat, addr: nat)
    returns (more: seq<ClientOp>)
    requires ClientRun(ext, ops) == Some(c) && Ready(c, c, call, addr) && c.memory[addr] == ConfirmOk
    ensures NoPrepare(more) && Lies(ext, ops + more)
  {
    var enqueue, wake := OpEnqueue(call, SEND, true, true), OpWake(call, true);
    var d := EnqueuedBeside(ext, ops, c, call, addr);
    WakesToLie(ext, ops + [enqueue], d, call, addr, c.ll.queue.next, true);
    more := [enqueue] + [wake];
    Assoc(ops, [enqueue], [wake]);
  }

  /** An unsent or unanswered entry refers to `addr`, or the running pass will leave OK there. */
  ghost predicate Stale(c: Client, addr: nat) {
    || (exists id :: id in c.contexts && c.contexts[id] == addr && Answerable(c.ll, id))
    || LastTold(c.contexts, ToCome(c), addr) == Some(ConfirmOk)
  }

  /**
   From every reachable state in which `addr` is stale, allocating a context there is followed by steps of the client,
   none of them an allocation, that end in a lie.
   */
  lemma StaleAddressLies(ext: Option<ExtConfig>, ops: seq<ClientOp>, call: nat, addr: nat) returns (more: seq<ClientOp>)
    requires ClientRun(ext, ops).Some? && Enabled(ClientRun(ext, ops).value, OpPrepare(call, addr))
    requires Stale(ClientRun(ext, ops).value, addr)
    ensures NoPrepare(more) && Lies(ext, ops + [OpPrepare(call, addr)] + more)
  {
    var c, ops1 := ClientRun(ext, ops).value, ops + [OpPrepare(call, addr)];
    RunBase(ext, ops);
    DrainReads(Prepare(c, call, addr), addr);
    var d, first := PreparedAndDrained(ext, ops, c, call, addr);
    var rest;
    if id :| id in c.contexts && c.contexts[id] == addr && Answerable(c.ll, id) {
      rest := AnswerableLies(ext, ops1 + first, d, call, addr, id);
    } else {
      rest := ToldLies(ext, ops1 + first, d, call, addr);
    }
    more := first + rest;
    Assoc(ops1, first, rest);
  }

  // ---------------------------------------------------------------- the exact condition

  lemma {:induction false} FreshAfter(ext: Option<ExtConfig>, ops: seq<ClientOp>, more: seq<ClientOp>)
    requires FreshRun(ext, ops) && NoPrepare(more)
    ensures FreshRun(ext, ops + more)
    decreases |more|
  {
    if more == [] {
      assert ops + more == ops;
    } else {
      var n := |more| - 1;
      FreshAfter(ext, ops, more[..n]);
      assert (ops + more)[..|ops + more| - 1] == ops + more[..n];
    }
  }

  /** Entry `e` may still be confirmed while the client lives. */
  ghost predicate Open(c: Client, e: nat) {
    Answerable(c.ll, e) || ConfirmedIn(ToCome(c), e)
  }

  /** No two open entries share a context. */
  ghost predicate UniqueInv(c: Client) {
    !c.destroyed ==>
      forall e, f ::
        e in c.contexts && f in c.contexts && Open(c, e) && Open(c, f) && c.contexts[e] == c.contexts[f] ==> e == f
  }

  lemma UniqueKept(c: Client, d: Client)
    requires UniqueInv(c) && d.contexts == c.contexts && (c.destroyed ==> d.destroyed)
    requires !d.destroyed ==> forall e :: e in c.contexts && Open(d, e) ==> Open(c, e)
    ensures UniqueInv(d)
  {
  }

  /** What a pass confirms was unsent or unanswered before. */
  lemma WorkOpens(c: Client, env: DoWorkEnv, e: nat)
    requires LowerInv(c) && !c.destroyed && LockFree(c) && Open(c.(ll := DoWork(c.ll, env)), e)
    ensures Open(c, e)
  {
    DoWorkMoves(c.ll, env);
    DoWorkLogsFor(c.ll, env);
    var m := c.(ll := DoWork(c.ll, env));
    if ConfirmedIn(ToCome(m), e) {
      var result :| Confirmed(e, result) in ToCome(m);
      assert Confirmed(e, result) in News(c.ll.queue.log, m.ll.queue.log);
      if !Usable(c.ll.ext) {
        UnusableStays(c.ll, env);
      }
    }
  }

  lemma SentUnique(c: Client, ll: Sender)
    requires CallsInv(c) && UniqueInv(c) && ll.queue.log == c.ll.queue.log && ll.ext == c.ll.ext
    requires ll == c.ll || OneMore(c.ll.queue, ll.queue)
    ensures UniqueInv(c.(ll := ll, thread := true))
    ensures forall e :: e in c.contexts && Open(c.(ll := ll, thread := true), e) ==> Open(c, e)
  {
    UniqueKept(c, c.(ll := ll, thread := true));
  }

  lemma AwaitUnique(c: Client, call: nat, addr: nat, entry: nat)
    requires UniqueInv(c) && forall e :: e in c.contexts && Open(c, e) ==> c.contexts[e] != addr
    requires entry !in c.contexts
    ensures UniqueInv(AwaitEntry(c, call, addr, entry))
  {
    var d := AwaitEntry(c, call, addr, entry);
    assert forall e :: Open(d, e) ==> Open(c, e);
  }

  /** A call that has allocated shares its context with no entry that is open when it queues its own. */
  lemma EnqueueUnique(c: Client, call: nat, p: Payload, lockOk: bool, threadOk: bool)
    requires ClientInv(c) && UniqueInv(c) && Enabled(c, OpEnqueue(call, p, lockOk, threadOk))
    ensures UniqueInv(ClientStep(c, OpEnqueue(call, p, lockOk, threadOk)))
  {
    var addr := c.calls[call].addr;
    if !lockOk || (!c.thread && !threadOk) {
      UniqueKept(c, Return(c, call, addr, ReturnedError));
    } else {
      var (ll, result) := LowerSend(c.ll, p, true, true);
      LowerSendKeeps(c.ll, p, true, true);
      SentUnique(c, ll);
      var m := c.(ll := ll, thread := true);
      if result != Done {
        UniqueKept(m, Return(m, call, addr, ReturnedError));
      } else {
        NotPreparedFor(c, call);
        AwaitUnique(m, call, addr, c.ll.queue.next);
      }
    }
  }

  lemma NotPreparedFor(c: Client, call: nat)
    requires CallsInv(c) && ReferencesInv(c) && LockFree(c) && call in c.calls && c.calls[call].Prepared?
    ensures forall e :: e in c.contexts && Open(c, e) ==> c.contexts[e] != c.calls[call].addr
  {
    forall e | e in c.contexts && Open(c, e)
      ensures c.contexts[e] != c.calls[call].addr
    {
      if c.contexts[e] == c.calls[call].addr {
        OwnerAlone(c, e, call);
      }
    }
  }

  lemma StepUnique(c: Client, op: ClientOp)
    requires ClientInv(c) && UniqueInv(c) && Enabled(c, op)
    ensures UniqueInv(ClientStep(c, op))
  {
    match op
    case OpPrepare(call, addr) => PrepareUnique(c, call, addr);
    case OpEnqueue(call, p, lockOk, threadOk) => EnqueueUnique(c, call, p, lockOk, threadOk);
    case OpWake(call, spurious) => WakeUnique(c, call, spurious);
    case OpUserSend(p, callback, context, lockOk, threadOk) =>
      UserSendUnique(c, p, callback, context, lockOk, threadOk);
    case OpSetMessageTimeout(timeout, lockOk) => LowerCallUnique(c, OpSetTimeout(timeout), lockOk);
    case OpRefreshSasToken(token, lockOk) => LowerCallUnique(c, OpRefresh(token), lockOk);
    case OpSetErrorHandler(on, lockOk) => LowerCallUnique(c, OpSetErrorCallback(on), lockOk);
    case OpWork(env) => WorkUnique(c, env);
    case OpTell => TellUnique(c);
    case OpPost => PostUnique(c);
    case OpDestroy(answers) => assert ClientStep(c, OpDestroy(answers)).destroyed;
  }

  lemma PrepareUnique(c: Client, call: nat, addr: nat)
    requires UniqueInv(c) && Enabled(c, OpPrepare(call, addr))
    ensures UniqueInv(ClientStep(c, OpPrepare(call, addr)))
  {
    UniqueKept(c, Prepare(c, call, addr));
  }

  lemma WakeUnique(c: Client, call: nat, spurious: bool)
    requires UniqueInv(c) && Enabled(c, OpWake(call, spurious))
    ensures UniqueInv(ClientStep(c, OpWake(call, spurious)))
  {
    UniqueKept(c, Wake(c, call));
  }

  lemma TellUnique(c: Client)
    requires UniqueInv(c) && Enabled(c, OpTell)
    ensures UniqueInv(ClientStep(c, OpTell))
  {
    TellFrame(c);
    UniqueKept(c, Tell(c));
  }

  lemma PostUnique(c: Client)
    requires UniqueInv(c) && Enabled(c, OpPost)
    ensures UniqueInv(ClientStep(c, OpPost))
  {
    UniqueKept(c, Post(c));
  }

  lemma UserSendUnique(c: Client, p: Payload, callback: bool, context: bool, lockOk: bool, threadOk: bool)
    requires LowerInv(c) && CallsInv(c) && UniqueInv(c)
    requires Enabled(c, OpUserSend(p, callback, context, lockOk, threadOk))
    ensures UniqueInv(ClientStep(c, OpUserSend(p, callback, context, lockOk, threadOk)))
  {
    LowerSendKeeps(c.ll, p, callback, context);
    SentUnique(c, LowerSend(c.ll, p, callback, context).0);
  }

  lemma WorkUnique(c: Client, env: DoWorkEnv)
    requires LowerInv(c) && UniqueInv(c) && Enabled(c, OpWork(env))
    ensures UniqueInv(ClientStep(c, OpWork(env)))
  {
    var d := c.(ll := DoWork(c.ll, env));
    forall e | Open(d, e)
      ensures Open(c, e)
    {
      WorkOpens(c, env, e);
    }
    UniqueKept(c, d);
  }

  lemma LowerCallUnique(c: Client, op: Op, lockOk: bool)
    requires UniqueInv(c) && (op.OpSetTimeout? || op.OpRefresh? || op.OpSetErrorCallback?)
    ensures UniqueInv(LowerCall(c, op, lockOk))
  {
    LowerCallFrame(c.ll, op);
    UniqueKept(c, LowerCall(c, op, lockOk));
  }

  lemma {:induction false} FreshRunUnique(ext: Option<ExtConfig>, ops: seq<ClientOp>)
    requires ClientRun(ext, ops).Some? && FreshRun(ext, ops)
    ensures UniqueInv(ClientRun(ext, ops).value)
  {
    if ops != [] {
      var front := ops[..|ops| - 1];
      FreshRunUnique(ext, front);
      FreshRunKeeps(ext, front);
      StepUnique(ClientRun(ext, front).value, ops[|ops| - 1]);
    }
  }

  /** An entry for which the running pass has OK to write gets no other result after it, and no entry beside it does. */
  lemma NotFreshIsStale(c: Client, addr: nat)
    requires LowerInv(c) && UniqueInv(c) && !c.destroyed && !FreshAddress(c, addr)
    ensures Stale(c, addr)
  {
    var e :| e in c.contexts && MayTellOk(c, e) && c.contexts[e] == addr;
    if !Answerable(c.ll, e) {
      forall f | f in ToCome(c) && f.Confirmed? && f.id in c.contexts && c.contexts[f.id] == addr
        ensures f.result == ConfirmOk
      {
        assert Confirmed(f.id, f.result) in ToCome(c) && Open(c, f.id) && Open(c, e);
        OneResult(c, e, f.result);
      }
      LastToldOk(c.contexts, ToCome(c), addr, e);
    }
  }

  lemma PlaceToCome(c: Client, e: SendEvent) returns (i: nat)
    requires e in ToCome(c)
    ensures c.told <= i < |c.ll.queue.log| && c.ll.queue.log[i] == e
  {
    var k :| 0 <= k < |ToCome(c)| && ToCome(c)[k] == e;
    i := c.told + k;
  }

  lemma OneResult(c: Client, e: nat, result: Confirmation)
    requires QueueInv(c.ll.queue) && Confirmed(e, ConfirmOk) in ToCome(c) && Confirmed(e, result) in ToCome(c)
    ensures result == ConfirmOk
  {
    var i := PlaceToCome(c, Confirmed(e, ConfirmOk));
    var j := PlaceToCome(c, Confirmed(e, result));
    ConfirmedAtOnePlace(c.ll.queue, i, j, e);
  }

  /**
   After any run that allocated fresh addresses only: a further context at `addr` can make no call lie, in any
   continuation without another allocation, if and only if no entry refers to `addr` for which OK may still be written,
   by the running pass or by a later one.
   */
  lemma AddressConditionExact(ext: Option<ExtConfig>, ops: seq<ClientOp>, call: nat, addr: nat)
    requires ClientRun(ext, ops).Some? && FreshRun(ext, ops)
    requires Enabled(ClientRun(ext, ops).value, OpPrepare(call, addr))
    ensures FreshAddress(ClientRun(ext, ops).value, addr) <==>
      forall more :: NoPrepare(more) ==> !Lies(ext, ops + [OpPrepare(call, addr)] + more)
  {
    var c, ops1 := ClientRun(ext, ops).value, ops + [OpPrepare(call, addr)];
    if FreshAddress(c, addr) {
      assert ops1[..|ops1| - 1] == ops;
      forall more | NoPrepare(more)
        ensures !Lies(ext, ops1 + more)
      {
        FreshAfter(ext, ops1, more);
        FreshRunTellsTruth(ext, ops1 + more);
      }
    } else {
      FreshRunKeeps(ext, ops);
      FreshRunUnique(ext, ops);
      NotFreshIsStale(c, addr);
      var more := StaleAddressLies(ext, ops, call, addr);
      assert NoPrepare(more) && Lies(ext, ops1 + more);
    }
  }

  lemma FreshRunTellsTruth(ext: Option<ExtConfig>, ops: seq<ClientOp>)
    requires FreshRun(ext, ops)
    ensures !Lies(ext, ops)
  {
    if ClientRun(ext, ops).Some? {
      FreshRunKeeps(ext, ops);
    }
  }

  // ---------------------------------------------------------------- such a run

  /** The first call waits for entry 0, with its context at 7. */
  lemma FirstWaits() returns (ops: seq<ClientOp>, c: Client)
    ensures ClientRun(None, ops) == Some(c) && LockFree(c) && c.thread && !c.destroyed && c.ll.ext == None
    ensures c.calls == map[1 := Waiting(7, 0)] && c.contexts == map[0 := 7] && c.memory.Keys == {7}
    ensures WaitsToBeSent(c.ll.queue.entries, 0) && c.ll.queue.next == 1
  {
    var c0 := NewClient(None);
    RunExtends(None, [], c0, OpPrepare(1, 7));
    var c1 := Prepare(c0, 1, 7);
    ops := [] + [OpPrepare(1, 7)];
    RunExtends(None, ops, c1, OpEnqueue(1, SEND, true, true));
    c := Enqueue(c1, 1, SEND, true, true);
    assert c.ll.queue.entries[0].id == 0 && c.ll.queue.entries[0].status == WaitingToBeSent;
    ops := ops + [OpEnqueue(1, SEND, true, true)];
  }

  /**
   Call 1 is woken spuriously and frees its context; call 2 gets the same address; the completion of call 1's entry
   makes call 2 return OK before its own entry has been reported.
   */
  lemma SpuriousWakeLies() returns (ops: seq<ClientOp>)
    ensures Lies(None, ops)
  {
    var first, c := FirstWaits();
    RunExtends(None, first, c, OpWake(1, true));
    assert Answerable(Wake(c, 1).ll, 0);
    var more := StaleAddressLies(None, first + [OpWake(1, true)], 2, 7);
    ops := first + [OpWake(1, true)] + [OpPrepare(2, 7)] + more;
  }

  /** A run that stops in the middle of a pass, before OK is written for entry `id`. */
  lemma {:induction false} RunToTell(
      ext: Option<ExtConfig>, ops: seq<ClientOp>, c: Client, envs: seq<DoWorkEnv>, id: nat)
    returns (d: Client, more: seq<ClientOp>)
    requires ClientRun(ext, ops) == Some(c) && c.thread && !c.destroyed && LockFree(c)
    requires OnlyOk(c.ll.queue.log, Works(c.ll, envs).queue.log, id)
    requires Confirmed(id, ConfirmOk) in News(c.ll.queue.log, Works(c.ll, envs).queue.log)
    ensures ClientRun(ext, ops + more) == Some(d) && !d.destroyed
    ensures d.calls == c.calls && d.contexts == c.contexts && d.memory.Keys == c.memory.Keys
    ensures d.ll.queue.next == c.ll.queue.next
    ensures Confirmed(id, ConfirmOk) in ToCome(d) && forall e :: e in ToCome(d) ==> OkOf(e, id)
    decreases |envs|
  {
    var m := c.(ll := DoWork(c.ll, envs[0]));
    DoWorkContinues(c.ll, envs[0]);
    DoWorkKeepsNext(c.ll, envs[0]);
    WorksContinues(m.ll, envs[1..]);
    OnlyOkSplits(c.ll.queue.log, m.ll.queue.log, Works(c.ll, envs).queue.log, id);
    if Confirmed(id, ConfirmOk) in News(c.ll.queue.log, m.ll.queue.log) {
      RunExtends(ext, ops, c, OpWork(envs[0]));
      d, more := m, [OpWork(envs[0])];
      ToComeOnlyOk(c, m, id);
    } else {
      var n, first := PassRuns(ext, ops, c, envs[0]);
      DrainFrame(m);
      var rest;
      d, rest := RunToTell(ext, ops + first, n, envs[1..], id);
      more := first + rest;
      Assoc(ops, first, rest);
    }
  }

  lemma ToComeOnlyOk(c: Client, d: Client, id: nat)
    requires LockFree(c) && d.told == c.told && OnlyOk(c.ll.queue.log, d.ll.queue.log, id)
    ensures ToCome(d) == News(c.ll.queue.log, d.ll.queue.log) && forall e :: e in ToCome(d) ==> OkOf(e, id)
  {
    var log := ToCome(d);
    assert forall i :: 0 <= i < |log| ==> log[i] == d.ll.queue.log[c.told + i];
  }

  /** The only entry has been confirmed. */
  lemma NothingLeft(c: Client)
    requires QueueInv(c.ll.queue) && c.ll.queue.next == 1 && Confirmed(0, ConfirmOk) in ToCome(c)
    ensures forall id: nat :: !Answerable(c.ll, id)
  {
    var i :| 0 <= i < |ToCome(c)| && ToCome(c)[i] == Confirmed(0, ConfirmOk);
    ConfirmedOnce(c.ll.queue, c.told + i);
    forall id: nat
      ensures !Answerable(c.ll, id)
    {
      if Answerable(c.ll, id) {
        QueuedBelowNext(c.ll.queue, id);
      }
    }
  }

  /**
   It happens in the middle of a pass, too: entry 0 is neither unsent nor unanswered any more when call 1 wakes
   spuriously and call 2 gets its address, but OK is still to be written for it.
   */
  lemma MidPassLies() returns (ops: seq<ClientOp>, more: seq<ClientOp>)
    ensures ClientRun(None, ops).Some? && Enabled(ClientRun(None, ops).value, OpPrepare(2, 7))
    ensures forall id: nat :: !Answerable(ClientRun(None, ops).value.ll, id)
    ensures NoPrepare(more) && Lies(None, ops + [OpPrepare(2, 7)] + more)
  {
    var first, c := FirstWaits();
    RunBase(None, first);
    var envs := CanConfirm(c.ll, 0);
    var d, passes := RunToTell(None, first, c, envs, 0);
    RunExtends(None, first + passes, d, OpWake(1, true));
    ops := first + passes + [OpWake(1, true)];
    var e := Wake(d, 1);
    LastToldOk(e.contexts, ToCome(e), 7, 0);
    RunBase(None, ops);
    NothingLeft(e);
    more := StaleAddressLies(None, ops, 2, 7);
  }
}
