/** What every operation on the sender's queue keeps. */
module SendQueueInvariant {
  import opened Common
  import opened Events
  import opened SendQueue

  ghost predicate InQueue(es: seq<EventEntry>, id: nat) {
    exists i :: 0 <= i < |es| && es[i].id == id
  }

  /** How often entry `id` was confirmed. */
  function Confirmations(log: seq<SendEvent>, id: nat): nat {
    if log == [] then 0
    else Confirmations(log[..|log| - 1], id) + if log[|log| - 1].Confirmed? && log[|log| - 1].id == id then 1 else 0
  }

  /** The entries given to messagesender_send_async, in call order. */
  function Sends(log: seq<SendEvent>): seq<nat> {
    if log == [] then []
    else Sends(log[..|log| - 1]) + if log[|log| - 1].HandedOver? then [log[|log| - 1].id] else []
  }

  function TotalEvents(es: seq<EventEntry>): nat {
    if es == [] then 0 else |es[0].events| + TotalEvents(es[1..])
  }

  /** The queue is in acceptance order: a block of sent entries, then a block of entries still to be sent. */
  ghost predicate Ordered(q: Queue) {
    && (forall i, j :: 0 <= i < j < |q.entries| ==> q.entries[i].id < q.entries[j].id)
    && (forall i :: 0 <= i < |q.entries| ==> q.entries[i].id < q.next)
    && (forall i, j :: 0 <= i < j < |q.entries| && q.entries[j].status == WaitingForAck ==>
          q.entries[i].status == WaitingForAck)
  }

  /** Every accepted entry is either queued and not confirmed, or confirmed once and gone. */
  ghost predicate ExactlyOnce(q: Queue) {
    forall id: nat :: Confirmations(q.log, id) == if id < q.next && !InQueue(q.entries, id) then 1 else 0
  }

  /** Hand-overs follow acceptance order without repetition, and entries still to be sent come after all of them. */
  ghost predicate Fifo(q: Queue) {
    var s := Sends(q.log);
    && (forall i, j :: 0 <= i < j < |s| ==> s[i] < s[j])
    && (forall i :: 0 <= i < |s| ==> s[i] < q.next)
    && (forall i, j :: 0 <= i < |s| && 0 <= j < |q.entries| && q.entries[j].status == WaitingToBeSent ==>
          s[i] < q.entries[j].id)
  }

  /** A confirmation OK follows AMQP's report that this very entry was sent. */
  predicate OkMeansSent(log: seq<SendEvent>) {
    forall i :: 0 <= i < |log| && log[i].Confirmed? && log[i].result == ConfirmOk ==>
      AmqpDone(log[i].id, true) in log[..i]
  }

  /** The library's unanswered sends are queued entries that wait for its answer. */
  ghost predicate OutstandingQueued(q: Queue) {
    forall id :: id in q.outstanding ==>
      exists i :: 0 <= i < |q.entries| && q.entries[i].id == id && q.entries[i].status == WaitingForAck
  }

  ghost predicate QueueInv(q: Queue) {
    && Ordered(q) && ExactlyOnce(q) && Fifo(q) && OkMeansSent(q.log) && OutstandingQueued(q)
    && q.clones == TotalEvents(q.entries)
  }

  // ---------------------------------------------------------------- the log grows by one

  lemma LogOne(log: seq<SendEvent>, e: SendEvent)
    requires OkMeansSent(log)
    ensures forall id: nat ::
      Confirmations(log + [e], id) == Confirmations(log, id) + if e.Confirmed? && e.id == id then 1 else 0
    ensures Sends(log + [e]) == Sends(log) + if e.HandedOver? then [e.id] else []
    ensures (e.Confirmed? && e.result == ConfirmOk ==> AmqpDone(e.id, true) in log) ==> OkMeansSent(log + [e])
  {
    assert (log + [e])[..|log|] == log;
    forall i | 0 <= i < |log + [e]|
      ensures (log + [e])[..i] == log[..i]
    {
    }
  }

  lemma {:induction false} TotalEventsSplit(a: seq<EventEntry>, b: seq<EventEntry>)
    ensures TotalEvents(a + b) == TotalEvents(a) + TotalEvents(b)
  {
    if a == [] {
      assert a + b == b;
    } else {
      assert (a + b)[1..] == a[1..] + b;
      TotalEventsSplit(a[1..], b);
    }
  }

  // ---------------------------------------------------------------- the operations

  lemma AcceptKeeps(q: Queue, events: seq<EventData>, callback: bool, now: uint64)
    requires QueueInv(q)
    ensures QueueInv(Accept(q, events, callback, now))
  {
    var r := Accept(q, events, callback, now);
    TotalEventsSplit(q.entries, [r.entries[|q.entries|]]);
    assert r.entries[|q.entries|].id == q.next;
    forall id: nat
      ensures InQueue(r.entries, id) <==> InQueue(q.entries, id) || id == q.next
    {
      if InQueue(q.entries, id) {
        var i :| 0 <= i < |q.entries| && q.entries[i].id == id;
        assert r.entries[i].id == id;
      }
    }
    forall id | id in r.outstanding
      ensures exists i :: 0 <= i < |r.entries| && r.entries[i].id == id && r.entries[i].status == WaitingForAck
    {
      var i :| 0 <= i < |q.entries| && q.entries[i].id == id && q.entries[i].status == WaitingForAck;
      assert r.entries[i] == q.entries[i];
    }
  }

  lemma AnswerKeeps(q: Queue, id: nat, ok: bool, outstanding: set<nat>)
    requires QueueInv(q) && outstanding <= q.outstanding
    ensures var d := q.(outstanding := outstanding, log := q.log + [AmqpDone(id, ok)]);
      QueueInv(d) && AmqpDone(id, ok) in d.log
  {
    var d := q.(outstanding := outstanding, log := q.log + [AmqpDone(id, ok)]);
    LogOne(q.log, AmqpDone(id, ok));
    assert d.log[|q.log|] == AmqpDone(id, ok);
  }

  /** Unlinking the entry at `i`. */
  lemma UnlinkOrdered(q: Queue, i: nat, r: Queue)
    requires Ordered(q) && i < |q.entries|
    requires r.entries == q.entries[..i] + q.entries[i + 1..] && r.next == q.next
    ensures Ordered(r)
  {
    assert forall k :: 0 <= k < |r.entries| ==> r.entries[k] == q.entries[if k < i then k else k + 1];
  }

  lemma UnlinkOutstanding(q: Queue, i: nat, r: Queue)
    requires OutstandingQueued(q) && i < |q.entries| && q.entries[i].id !in q.outstanding
    requires r.entries == q.entries[..i] + q.entries[i + 1..] && r.outstanding == q.outstanding
    ensures OutstandingQueued(r)
  {
    forall id | id in r.outstanding
      ensures exists k :: 0 <= k < |r.entries| && r.entries[k].id == id && r.entries[k].status == WaitingForAck
    {
      var k :| 0 <= k < |q.entries| && q.entries[k].id == id && q.entries[k].status == WaitingForAck;
      assert r.entries[if k < i then k else k - 1] == q.entries[k];
    }
  }

  lemma UnlinkFifo(q: Queue, i: nat, r: Queue)
    requires Fifo(q) && i < |q.entries|
    requires r.entries == q.entries[..i] + q.entries[i + 1..] && r.next == q.next && Sends(r.log) == Sends(q.log)
    ensures Fifo(r)
  {
    assert forall k :: 0 <= k < |r.entries| ==> r.entries[k] == q.entries[if k < i then k else k + 1];
  }

  lemma ConfirmOnce(q: Queue, i: nat, r: Queue)
    requires Ordered(q) && ExactlyOnce(q) && i < |q.entries|
    requires r.entries == q.entries[..i] + q.entries[i + 1..] && r.next == q.next
    requires forall id: nat ::
      Confirmations(r.log, id) == Confirmations(q.log, id) + if id == q.entries[i].id then 1 else 0
    ensures ExactlyOnce(r)
  {
    forall id: nat
      ensures Confirmations(r.log, id) == if id < r.next && !InQueue(r.entries, id) then 1 else 0
    {
      StillQueued(q, i, id);
      assert InQueue(q.entries, q.entries[i].id);
    }
  }

  lemma FinishKeeps(q: Queue, i: nat, result: Confirmation, guarded: bool)
    requires QueueInv(q) && i < |q.entries| && q.entries[i].id !in q.outstanding
    requires result == ConfirmOk ==> AmqpDone(q.entries[i].id, true) in q.log
    ensures QueueInv(Finish(q, i, result, guarded))
  {
    var e, r := q.entries[i], Finish(q, i, result, guarded);
    UnlinkOrdered(q, i, r);
    UnlinkOutstanding(q, i, r);
    FinishTotal(q, i);
    var log := if e.callback || guarded then q.log else q.log + [NullCalled(e.id)];
    LogOne(q.log, NullCalled(e.id));
    LogOne(log, Confirmed(e.id, result));
    assert r.log == log + [Confirmed(e.id, result)];
    ConfirmOnce(q, i, r);
    UnlinkFifo(q, i, r);
  }

  lemma StillQueued(q: Queue, i: nat, id: nat)
    requires Ordered(q) && i < |q.entries|
    ensures var es := q.entries[..i] + q.entries[i + 1..];
      InQueue(es, id) <==> InQueue(q.entries, id) && id != q.entries[i].id
  {
    var es := q.entries[..i] + q.entries[i + 1..];
    if InQueue(q.entries, id) && id != q.entries[i].id {
      var k :| 0 <= k < |q.entries| && q.entries[k].id == id;
      assert es[if k < i then k else k - 1] == q.entries[k];
    }
    if InQueue(es, id) {
      var k :| 0 <= k < |es| && es[k].id == id;
      assert q.entries[if k < i then k else k + 1] == es[k];
    }
  }

  lemma FinishTotal(q: Queue, i: nat)
    requires i < |q.entries|
    ensures TotalEvents(q.entries[..i] + q.entries[i + 1..]) == TotalEvents(q.entries) - |q.entries[i].events|
  {
    var e := q.entries[i];
    assert q.entries == q.entries[..i] + ([e] + q.entries[i + 1..]);
    TotalEventsSplit(q.entries[..i], [e] + q.entries[i + 1..]);
    TotalEventsSplit([e], q.entries[i + 1..]);
    TotalEventsSplit(q.entries[..i], q.entries[i + 1..]);
  }

  /** The entries before `p` have been sent. */
  ghost predicate SentBefore(q: Queue, p: nat) {
    p <= |q.entries| && forall i :: 0 <= i < p ==> q.entries[i].status == WaitingForAck
  }

  /** The entry at `p` is marked as sent. */
  function Marked(es: seq<EventEntry>, p: nat): seq<EventEntry>
    requires p < |es|
  {
    es[p := es[p].(status := WaitingForAck)]
  }

  lemma MarkedInQueue(es: seq<EventEntry>, p: nat, id: nat)
    requires p < |es|
    ensures InQueue(Marked(es, p), id) <==> InQueue(es, id)
  {
    assert forall k :: 0 <= k < |es| ==> Marked(es, p)[k].id == es[k].id;
  }

  lemma MarkedFifo(q: Queue, p: nat, r: Queue)
    requires Ordered(q) && Fifo(q) && p < |q.entries| && SentBefore(q, p) && q.entries[p].status == WaitingToBeSent
    requires r.entries == Marked(q.entries, p) && r.next == q.next && Sends(r.log) == Sends(q.log) + [q.entries[p].id]
    ensures Fifo(r)
  {
    var s, t := Sends(q.log), Sends(r.log);
    forall i, j | 0 <= i < |t| && 0 <= j < |r.entries| && r.entries[j].status == WaitingToBeSent
      ensures t[i] < r.entries[j].id
    {
      assert r.entries[j] == q.entries[j] && p < j;
    }
  }

  lemma MarkedOutstanding(q: Queue, p: nat, r: Queue)
    requires Ordered(q) && OutstandingQueued(q) && p < |q.entries| && q.entries[p].status == WaitingToBeSent
    requires r.entries == Marked(q.entries, p) && r.outstanding == q.outstanding
    ensures OutstandingQueued(r) && q.entries[p].id !in q.outstanding
  {
    forall id | id in q.outstanding
      ensures id != q.entries[p].id
      ensures exists k :: 0 <= k < |r.entries| && r.entries[k].id == id && r.entries[k].status == WaitingForAck
    {
      var k :| 0 <= k < |q.entries| && q.entries[k].id == id && q.entries[k].status == WaitingForAck;
      assert k != p && r.entries[k] == q.entries[k];
    }
  }

  lemma HandOverKeeps(q: Queue, p: nat, stamp: Stamp)
    requires QueueInv(q) && p < |q.entries| && SentBefore(q, p) && q.entries[p].status == WaitingToBeSent
    ensures QueueInv(HandOver(q, p, stamp)) && q.entries[p].id !in q.outstanding
  {
    var r := HandOver(q, p, stamp);
    LogOne(q.log, HandedOver(q.entries[p].id, stamp));
    MarkedFifo(q, p, r);
    MarkedOutstanding(q, p, r);
    SameTotal(q.entries, r.entries);
    forall id: nat
      ensures InQueue(r.entries, id) <==> InQueue(q.entries, id)
    {
      MarkedInQueue(q.entries, p, id);
    }
  }

  lemma {:induction false} SameTotal(a: seq<EventEntry>, b: seq<EventEntry>)
    requires |a| == |b| && forall i :: 0 <= i < |a| ==> a[i].events == b[i].events
    ensures TotalEvents(a) == TotalEvents(b)
  {
    if a != [] {
      SameTotal(a[1..], b[1..]);
    }
  }

  lemma CompleteKeeps(q: Queue, id: nat, ok: bool)
    requires QueueInv(q)
    ensures QueueInv(Complete(q, id, ok))
  {
    var i := Find(q.entries, id);
    if id in q.outstanding && i < |q.entries| {
      var d := q.(outstanding := q.outstanding - {id}, log := q.log + [AmqpDone(id, ok)]);
      AnswerKeeps(q, id, ok, d.outstanding);
      FinishKeeps(d, i, if ok then ConfirmOk else ConfirmError, true);
    }
  }

  lemma {:induction false} CompleteAllKeeps(q: Queue, answers: seq<(nat, bool)>)
    requires QueueInv(q)
    ensures QueueInv(CompleteAll(q, answers))
    decreases |answers|
  {
    if answers != [] {
      CompleteKeeps(q, answers[0].0, answers[0].1);
      CompleteAllKeeps(Complete(q, answers[0].0, answers[0].1), answers[1..]);
    }
  }

  /** The entry at `p` stays queued, waiting for the library's answer. */
  lemma PendingKeeps(q: Queue, p: nat)
    requires QueueInv(q) && p < |q.entries| && q.entries[p].status == WaitingForAck
    ensures QueueInv(q.(outstanding := q.outstanding + {q.entries[p].id}))
  {
  }

  lemma SendKeeps(q: Queue, p: nat, stamp: Stamp, send: SendOutcome)
    requires QueueInv(q) && p < |q.entries| && SentBefore(q, p) && q.entries[p].status == WaitingToBeSent
    ensures QueueInv(Sent(q, p, stamp, send).0)
  {
    HandOverKeeps(q, p, stamp);
    var h := HandOver(q, p, stamp);
    match send
    case Refused => FinishKeeps(h, p, ConfirmError, false);
    case Pending => PendingKeeps(h, p);
    case CompletedInside(ok) =>
      AnswerKeeps(h, q.entries[p].id, ok, h.outstanding);
      FinishKeeps(h.(log := h.log + [AmqpDone(q.entries[p].id, ok)]), p, if ok then ConfirmOk else ConfirmError, true);
  }

  lemma WalkStepKeeps(q: Queue, p: nat, timeout: uint64, stamp: Stamp, env: EntryEnv)
    requires QueueInv(q) && p < |q.entries| && SentBefore(q, p)
    ensures QueueInv(WalkStep(q, p, timeout, stamp, env).0)
    ensures var (r, n) := WalkStep(q, p, timeout, stamp, env); SentBefore(r, n)
  {
    if q.entries[p].status == WaitingToBeSent {
      HandOverKeeps(q, p, stamp);
      if !env.built {
        FinishKeeps(q, p, ConfirmError, false);
      } else if HasTimedOut(q.entries[p], timeout, env.now) {
        FinishKeeps(q, p, ConfirmTimeout, false);
      } else {
        SendKeeps(q, p, stamp, env.send);
      }
    }
  }

  /** The pass keeps the invariant, completions inside the loop included, and leaves nothing to be sent. */
  lemma {:induction false} WalkKeeps(q: Queue, p: nat, timeout: uint64, stamp: Stamp, env: nat -> EntryEnv)
    requires QueueInv(q) && SentBefore(q, p)
    ensures var r := Walk(q, p, timeout, stamp, env); QueueInv(r) && SentBefore(r, |r.entries|)
    decreases |q.entries| - p
  {
    if p < |q.entries| {
      WalkStepKeeps(q, p, timeout, stamp, env(q.entries[p].id));
      var (r, n) := WalkStep(q, p, timeout, stamp, env(q.entries[p].id));
      WalkKeeps(r, n, timeout, stamp, env);
    }
  }

  /** After Destroy every accepted entry has been confirmed, exactly once, and every cloned event destroyed. */
  lemma {:induction false} DestroyAllConfirmsAll(q: Queue)
    requires QueueInv(q) && q.outstanding == {}
    ensures var r := DestroyAll(q);
      && QueueInv(r) && r.entries == [] && r.clones == 0 && r.next == q.next
      && (forall id: nat :: Confirmations(r.log, id) == if id < q.next then 1 else 0)
    decreases |q.entries|
  {
    if q.entries != [] {
      FinishKeeps(q, 0, ConfirmDestroy, true);
      DestroyAllConfirmsAll(Finish(q, 0, ConfirmDestroy, true));
    }
  }
}
