/**
 The threaded sender of eventhubclient.c as a state machine.

 A synchronous Send allocates a context, hands it to the lower sender as the context of its entry, waits on the
 context's condition, reads the result and frees the context. The condition may wake it without having been posted.
 Contexts are named by address; an allocation may return any address that is not in use.

 The client's lock protects the lower sender, not the contexts. What a thread does to the lower sender under the lock
 is one step; a pass of the worker, and Destroy, then go through what they logged, and each write of a result and each
 post of a condition is a step of its own. Between them no other thread gets the lock, but contexts may be allocated,
 and calls may wake and free theirs.
 */
module ClientThreadSpec {
  import opened Common
  import opened Events
  import opened EventHubAuth
  import opened SendQueue
  import opened SenderSpec
  import opened SenderInvariant

  /** A call of Send or SendBatch. `entry` is its entry in the lower sender's queue. */
  datatype Call = Prepared(addr: nat) | Waiting(addr: nat, entry: nat) | ReturnedOk(entry: nat) | ReturnedError

  /**
   EVENTHUBCLIENT_STRUCT and the contexts. `contexts` gives the context address of each entry that a synchronous
   send queued; `memory` holds confirmationResult of the contexts in use, `posted` those whose condition was posted.
   `told`: how much of the lower sender's log the running pass has come to so far; `posting`: the context it has written
   a result to and not posted yet. `dangling`: an address not in use was written to or posted.
   */
  datatype Client = Client(
    ll: Sender, thread: bool, destroyed: bool, calls: map<nat, Call>,
    contexts: map<nat, nat>, memory: map<nat, Confirmation>, posted: set<nat>, dangling: bool,
    told: nat, posting: Option<nat>)

  function NewClient(ext: Option<ExtConfig>): Client {
    Client(NewSender(ext), false, false, map[], map[], map[], {}, false, 0, None)
  }

  /** What has happened so far. */
  function Reported(c: Client): seq<SendEvent> {
    if c.told <= |c.ll.queue.log| then c.ll.queue.log[..c.told] else c.ll.queue.log
  }

  /** What the running pass still comes to. */
  function ToCome(c: Client): seq<SendEvent> {
    if c.told <= |c.ll.queue.log| then c.ll.queue.log[c.told..] else []
  }

  /** No pass is running, nor Destroy. */
  predicate LockFree(c: Client) {
    c.told == |c.ll.queue.log| && c.posting == None
  }

  /** What a call sends: one event, or a batch. */
  datatype Payload =
    | One(event: Option<EventData>, sendEnv: SendEnv)
    | Batch(events: Option<seq<Option<EventData>>>, batchEnv: BatchEnv)

  datatype ClientOp =
    | OpPrepare(call: nat, addr: nat)
    | OpEnqueue(call: nat, payload: Payload, lockOk: bool, threadOk: bool)
    | OpWake(call: nat, spurious: bool)
    | OpUserSend(userPayload: Payload, callback: bool, context: bool, lockOk: bool, threadOk: bool)
    | OpSetMessageTimeout(timeout: uint64, lockOk: bool)
    | OpRefreshSasToken(token: Option<string>, lockOk: bool)
    | OpSetErrorHandler(on: bool, lockOk: bool)
    | OpWork(env: DoWorkEnv)
    | OpTell
    | OpPost
    | OpDestroy(answers: seq<(nat, bool)>)

  /** The running pass comes to the next thing it does; EventhubClientLLCallback writes what it is called with. */
  function Tell(c: Client): Client
    requires c.told < |c.ll.queue.log|
  {
    var e := c.ll.queue.log[c.told];
    if e.Confirmed? && e.id in c.contexts then Written(c, c.contexts[e.id], e.result) else c.(told := c.told + 1)
  }

  function Written(c: Client, addr: nat, result: Confirmation): Client {
    c.(told := c.told + 1, posting := Some(addr),
       memory := if addr in c.memory then c.memory[addr := result] else c.memory,
       dangling := c.dangling || addr !in c.memory)
  }

  /** EventhubClientLLCallback posts the condition; what the context holds by now makes no difference. */
  function Post(c: Client): Client
    requires c.posting.Some?
  {
    var addr := c.posting.value;
    c.(posting := None, posted := if addr in c.memory then c.posted + {addr} else c.posted,
       dangling := c.dangling || addr !in c.memory)
  }

  /** EventHubClient_InitUserContext */
  function Prepare(c: Client, call: nat, addr: nat): Client {
    c.(calls := c.calls[call := Prepared(addr)], memory := c.memory[addr := ConfirmError], posted := c.posted - {addr})
  }

  ghost function LowerSend(s: Sender, p: Payload, callback: bool, context: bool): (Sender, Result) {
    match p
    case One(event, env) => SendAsync(s, event, callback, context, env)
    case Batch(events, env) => SendBatchAsync(s, events, callback, context, env)
  }

  /** EventHub_DestroyUserContext, and the call's result. */
  function Return(c: Client, call: nat, addr: nat, result: Call): Client {
    c.(calls := c.calls[call := result],
       memory := map a | a in c.memory && a != addr :: c.memory[a], posted := c.posted - {addr})
  }

  /** Condition_Wait begins; what was posted before is lost. */
  function AwaitEntry(c: Client, call: nat, addr: nat, entry: nat): Client {
    c.(calls := c.calls[call := Waiting(addr, entry)], contexts := c.contexts[entry := addr],
       posted := c.posted - {addr})
  }

  /** Execute_LowerLayerSendAsync, Execute_LowerLayerSendBatchAsync of a synchronous call. */
  ghost function Enqueue(c: Client, call: nat, p: Payload, lockOk: bool, threadOk: bool): Client
    requires call in c.calls && c.calls[call].Prepared?
  {
    var addr := c.calls[call].addr;
    if !lockOk || (!c.thread && !threadOk) then Return(c, call, addr, ReturnedError)
    else
      var (ll, result) := LowerSend(c.ll, p, true, true);
      if result != Done then Return(c.(ll := ll, thread := true), call, addr, ReturnedError)
      else AwaitEntry(c.(ll := ll, thread := true), call, addr, c.ll.queue.next)
  }

  /** SendAsync and SendBatchAsync of a user with a callback of its own. */
  ghost function UserSend(c: Client, p: Payload, callback: bool, context: bool, lockOk: bool, threadOk: bool): Client {
    if !lockOk || (!c.thread && !threadOk) then c
    else c.(ll := LowerSend(c.ll, p, callback, context).0, thread := true)
  }

  /** The API calls that only pass on to the lower sender, under the lock. */
  ghost function LowerCall(c: Client, op: Op, lockOk: bool): Client {
    if lockOk then c.(ll := Step(c.ll, op)) else c
  }

  /**
   Condition_Wait returns; the result is read and the context freed. A write between these two would change a result
   that nobody reads any more.
   */
  function Wake(c: Client, call: nat): Client
    requires call in c.calls && c.calls[call].Waiting? && c.calls[call].addr in c.memory
  {
    var w := c.calls[call];
    Return(c, call, w.addr, if c.memory[w.addr] == ConfirmOk then ReturnedOk(w.entry) else ReturnedError)
  }

  /** When a step can be taken. Taking the lock waits for the running pass; a Lock that fails does not. */
  predicate Enabled(c: Client, op: ClientOp) {
    match op
    case OpPrepare(call, addr) => !c.destroyed && call !in c.calls && addr !in c.memory
    case OpEnqueue(call, _, lockOk, _) =>
      !c.destroyed && (lockOk ==> LockFree(c)) && call in c.calls && c.calls[call].Prepared?
    case OpWake(call, spurious) =>
      call in c.calls && c.calls[call].Waiting? && c.calls[call].addr in c.memory
      && (spurious || c.calls[call].addr in c.posted)
    case OpUserSend(_, _, _, lockOk, _) => !c.destroyed && (lockOk ==> LockFree(c))
    case OpSetMessageTimeout(_, lockOk) => !c.destroyed && (lockOk ==> LockFree(c))
    case OpRefreshSasToken(_, lockOk) => !c.destroyed && (lockOk ==> LockFree(c))
    case OpSetErrorHandler(_, lockOk) => !c.destroyed && (lockOk ==> LockFree(c))
    case OpWork(_) => c.thread && !c.destroyed && LockFree(c)
    case OpTell => c.posting == None && c.told < |c.ll.queue.log|
    case OpPost => c.posting.Some?
    case OpDestroy(_) => !c.destroyed && LockFree(c)
  }

  /** The API calls that take the lock, or fail to. */
  predicate TakesLock(op: ClientOp) {
    op.OpEnqueue? || op.OpUserSend? || op.OpSetMessageTimeout? || op.OpRefreshSasToken? || op.OpSetErrorHandler?
  }

  ghost function ClientStep(c: Client, op: ClientOp): Client
    requires Enabled(c, op)
  {
    match op
    case OpPrepare(call, addr) => Prepare(c, call, addr)
    case OpEnqueue(call, p, lockOk, threadOk) => Enqueue(c, call, p, lockOk, threadOk)
    case OpWake(call, _) => Wake(c, call)
    case OpUserSend(p, callback, context, lockOk, threadOk) => UserSend(c, p, callback, context, lockOk, threadOk)
    case OpSetMessageTimeout(timeout, lockOk) => LowerCall(c, OpSetTimeout(timeout), lockOk)
    case OpRefreshSasToken(token, lockOk) => LowerCall(c, OpRefresh(token), lockOk)
    case OpSetErrorHandler(on, lockOk) => LowerCall(c, OpSetErrorCallback(on), lockOk)
    case OpWork(env) => c.(ll := DoWork(c.ll, env))
    case OpTell => Tell(c)
    case OpPost => Post(c)
    case OpDestroy(answers) => c.(ll := Destroyed(c.ll, answers), destroyed := true)
  }

  /** A run: any interleaving of enabled steps; `None` when some step was not enabled. */
  ghost function ClientRun(ext: Option<ExtConfig>, ops: seq<ClientOp>): Option<Client> {
    if ops == [] then Some(NewClient(ext))
    else
      var c := ClientRun(ext, ops[..|ops| - 1]);
      if c.Some? && Enabled(c.value, ops[|ops| - 1]) then Some(ClientStep(c.value, ops[|ops| - 1])) else None
  }
}
