/**
 The sender's outgoing queue as a value, with a log of what happened to its entries: handed over to AMQP,
 answered by AMQP, confirmed to the user.

 Entries are numbered in the order in which SendAsync and SendBatchAsync accept them. The AMQP library's
 side is `outstanding`: the sends it has accepted and not answered. It answers only those, each at most once.
 */
module SendQueue {
  import opened Common
  import opened Events
  import opened EventHubAuth

  datatype EventStatus = WaitingToBeSent | WaitingForAck

  datatype Confirmation = ConfirmOk | ConfirmDestroy | ConfirmError | ConfirmTimeout

  /** EVENTHUB_EVENT_LIST. `callback` says whether the confirmation callback is non-NULL. */
  datatype EventEntry = EventEntry(
    id: nat, events: seq<EventData>, callback: bool, idleTimer: uint64, status: EventStatus)

  /** What a hand-over relied on: the message sender passed, the token installed, the clock it was checked at. */
  datatype Stamp = Stamp(sender: Option<nat>, token: Option<Token>, checkedAt: uint64)

  /**
   `Confirmed`: the entry left the queue, its callback - when there is one - called with this result.
   `NullCalled`: the code called a NULL callback.
   */
  datatype SendEvent =
    | HandedOver(id: nat, stamp: Stamp)
    | AmqpDone(id: nat, ok: bool)
    | Confirmed(id: nat, result: Confirmation)
    | NullCalled(id: nat)

  /** `clones`: event data cloned for the queue and not yet destroyed. */
  datatype Queue = Queue(entries: seq<EventEntry>, next: nat, outstanding: set<nat>, clones: int, log: seq<SendEvent>)

  const EMPTY_QUEUE := Queue([], 0, {}, 0, [])

  /** How messagesender_send_async answers: NULL, a pending send, or completion before it returns. */
  datatype SendOutcome = Refused | Pending | CompletedInside(ok: bool)

  /** What one waiting entry meets in a pass: message construction, the tick counter, the send. */
  datatype EntryEnv = EntryEnv(built: bool, now: uint64, send: SendOutcome)

  // ---------------------------------------------------------------- operations

  function Accept(q: Queue, events: seq<EventData>, callback: bool, now: uint64): Queue {
    q.(entries := q.entries + [EventEntry(q.next, events, callback, now, WaitingToBeSent)],
       next := q.next + 1, clones := q.clones + |events|)
  }

  /** The entry at `i` is confirmed, its events destroyed, it is unlinked. `guarded`: a NULL callback is not called. */
  function Finish(q: Queue, i: nat, result: Confirmation, guarded: bool): Queue
    requires i < |q.entries|
  {
    var e := q.entries[i];
    q.(entries := q.entries[..i] + q.entries[i + 1..],
       clones := q.clones - |e.events|,
       log := q.log + (if e.callback || guarded then [] else [NullCalled(e.id)]) + [Confirmed(e.id, result)])
  }

  /** The position of entry `id`, or the length of the queue. */
  function Find(es: seq<EventEntry>, id: nat): (i: nat)
    ensures i <= |es| && (i < |es| ==> es[i].id == id)
    ensures i == |es| ==> forall j :: 0 <= j < |es| ==> es[j].id != id
  {
    if es == [] then 0 else if es[0].id == id then 0 else 1 + Find(es[1..], id)
  }

  /** The library answers send `id` and calls on_message_send_complete. */
  function Complete(q: Queue, id: nat, ok: bool): Queue {
    var i := Find(q.entries, id);
    if id !in q.outstanding || i == |q.entries| then q
    else Finish(q.(outstanding := q.outstanding - {id}, log := q.log + [AmqpDone(id, ok)]), i,
                if ok then ConfirmOk else ConfirmError, true)
  }

  function CompleteAll(q: Queue, answers: seq<(nat, bool)>): Queue
    decreases |answers|
  {
    if answers == [] then q else CompleteAll(Complete(q, answers[0].0, answers[0].1), answers[1..])
  }

  /** messagesender_destroy: the library may answer sends while it runs, and none afterwards. */
  function Abandon(q: Queue, answers: seq<(nat, bool)>): Queue {
    CompleteAll(q, answers).(outstanding := {})
  }

  /** The loop of EventHubClient_LL_Destroy. */
  function DestroyAll(q: Queue): Queue
    decreases |q.entries|
  {
    if q.entries == [] then q else DestroyAll(Finish(q, 0, ConfirmDestroy, true))
  }

  predicate HasTimedOut(e: EventEntry, timeout: uint64, now: uint64) {
    timeout > 0 && Sub64(now, e.idleTimer) / 1000 > timeout
  }

  /** The entry at `p` is given to messagesender_send_async. */
  function HandOver(q: Queue, p: nat, stamp: Stamp): Queue
    requires p < |q.entries|
  {
    q.(entries := q.entries[p := q.entries[p].(status := WaitingForAck)],
       log := q.log + [HandedOver(q.entries[p].id, stamp)])
  }

  /** The send of the entry at `p`, and how AMQP answers it: the queue, and the next position. */
  function Sent(q: Queue, p: nat, stamp: Stamp, send: SendOutcome): (Queue, nat)
    requires p < |q.entries|
  {
    var e, h := q.entries[p], HandOver(q, p, stamp);
    match send
    case Refused => (Finish(h, p, ConfirmError, false), p)
    case Pending => (h.(outstanding := h.outstanding + {e.id}), p + 1)
    case CompletedInside(ok) =>
      (Finish(h.(log := h.log + [AmqpDone(e.id, ok)]), p, if ok then ConfirmOk else ConfirmError, true), p)
  }

  /** One turn of the loop in EventHubClient_LL_DoWork, at position `p`: the queue, and the next position. */
  function WalkStep(q: Queue, p: nat, timeout: uint64, stamp: Stamp, env: EntryEnv): (Queue, nat)
    requires p < |q.entries|
  {
    var e := q.entries[p];
    if e.status == WaitingForAck then (q, p + 1)
    else if !env.built then (Finish(q, p, ConfirmError, false), p)
    else if HasTimedOut(e, timeout, env.now) then (Finish(q, p, ConfirmTimeout, false), p)
    else Sent(q, p, stamp, env.send)
  }

  /** The rest of the pass from position `p`. */
  function Walk(q: Queue, p: nat, timeout: uint64, stamp: Stamp, env: nat -> EntryEnv): Queue
    decreases |q.entries| - p
  {
    if p >= |q.entries| then q
    else var (r, n) := WalkStep(q, p, timeout, stamp, env(q.entries[p].id)); Walk(r, n, timeout, stamp, env)
  }

  // ---------------------------------------------------------------- the pass, entry by entry

  /** Whether an entry is still queued after a pass. */
  predicate Survives(e: EventEntry, timeout: uint64, env: EntryEnv) {
    e.status == WaitingForAck || (env.built && !HasTimedOut(e, timeout, env.now) && env.send == Pending)
  }

  /** The entries that survive a pass, all of them waiting for AMQP's answer. */
  function Survivors(es: seq<EventEntry>, timeout: uint64, env: nat -> EntryEnv): seq<EventEntry> {
    if es == [] then [] else Remains(es[0], timeout, env(es[0].id)) + Survivors(es[1..], timeout, env)
  }

  function Remains(e: EventEntry, timeout: uint64, env: EntryEnv): seq<EventEntry> {
    if Survives(e, timeout, env) then [e.(status := WaitingForAck)] else []
  }

  /** What a pass logs for one entry. */
  function EntryLog(e: EventEntry, timeout: uint64, stamp: Stamp, env: EntryEnv): seq<SendEvent> {
    var nullCall := if e.callback then [] else [NullCalled(e.id)];
    if e.status == WaitingForAck then []
    else if !env.built then nullCall + [Confirmed(e.id, ConfirmError)]
    else if HasTimedOut(e, timeout, env.now) then nullCall + [Confirmed(e.id, ConfirmTimeout)]
    else
      match env.send
      case Refused => [HandedOver(e.id, stamp)] + nullCall + [Confirmed(e.id, ConfirmError)]
      case Pending => [HandedOver(e.id, stamp)]
      case CompletedInside(ok) =>
        [HandedOver(e.id, stamp), AmqpDone(e.id, ok), Confirmed(e.id, if ok then ConfirmOk else ConfirmError)]
  }

  function PassLog(es: seq<EventEntry>, timeout: uint64, stamp: Stamp, env: nat -> EntryEnv): seq<SendEvent> {
    if es == [] then [] else EntryLog(es[0], timeout, stamp, env(es[0].id)) + PassLog(es[1..], timeout, stamp, env)
  }

  lemma Assoc<T>(a: seq<T>, b: seq<T>, c: seq<T>)
    ensures a + b + c == a + (b + c)
  {
  }

  lemma WalkStepTreatsOne(q: Queue, p: nat, timeout: uint64, stamp: Stamp, env: EntryEnv)
    requires p < |q.entries|
    ensures var (r, n) := WalkStep(q, p, timeout, stamp, env);
      var left := Remains(q.entries[p], timeout, env);
      && r.entries == q.entries[..p] + left + q.entries[p + 1..] && n == p + |left|
      && r.log == q.log + EntryLog(q.entries[p], timeout, stamp, env) && r.next == q.next
  {
    var e := q.entries[p];
    assert q.entries == q.entries[..p] + [e] + q.entries[p + 1..];
    assert e.status == WaitingForAck ==> e.(status := WaitingForAck) == e;
  }

  /**
   The pass, although it unlinks entries while it advances, treats every entry of the old queue exactly once
   and in order: what is left is the filter of the old queue, what is logged is the concatenation.
   */
  lemma {:induction false} WalkIsAFilter(q: Queue, p: nat, timeout: uint64, stamp: Stamp, env: nat -> EntryEnv)
    requires p <= |q.entries|
    ensures var r := Walk(q, p, timeout, stamp, env);
      && r.entries == q.entries[..p] + Survivors(q.entries[p..], timeout, env)
      && r.log == q.log + PassLog(q.entries[p..], timeout, stamp, env)
      && r.next == q.next
    decreases |q.entries| - p
  {
    if p < |q.entries| {
      var e, rest := q.entries[p], q.entries[p + 1..];
      WalkStepTreatsOne(q, p, timeout, stamp, env(e.id));
      var (r, n) := WalkStep(q, p, timeout, stamp, env(e.id));
      var left := Remains(e, timeout, env(e.id));
      WalkIsAFilter(r, n, timeout, stamp, env);
      assert r.entries[n..] == rest && r.entries[..n] == q.entries[..p] + left;
      var es := q.entries[p..];
      assert es[0] == e && es[1..] == rest;
      Assoc(q.entries[..p], left, Survivors(rest, timeout, env));
      Assoc(q.log, EntryLog(e, timeout, stamp, env(e.id)), PassLog(rest, timeout, stamp, env));
    } else {
      assert q.entries[p..] == [];
    }
  }

  /** No entry is left waiting to be sent after a pass. */
  lemma {:induction false} SurvivorsWaitForAck(es: seq<EventEntry>, timeout: uint64, env: nat -> EntryEnv)
    ensures forall i :: 0 <= i < |Survivors(es, timeout, env)| ==>
      Survivors(es, timeout, env)[i].status == WaitingForAck
  {
    if es != [] {
      SurvivorsWaitForAck(es[1..], timeout, env);
    }
  }
}
