/**
 The sender's outgoing queue in place: the intrusive list of eventhubclient_ll.c, edited while it is walked.
 Every method acts on the queue as the function of module SendQueue that its contract names.
 */
module OutgoingEvents {
  import opened Common
  import opened DLists
  import opened Events
  import opened SendQueue

  class OutgoingQueue {
    const list: DList<EventEntry>
    // entries accepted so far, the library's unanswered sends, event data clones alive, what happened so far
    var next: nat
    var outstanding: set<nat>
    var clones: int
    var log: seq<SendEvent>
    ghost var freed: set<DListEntry<EventEntry>>
    ghost var Repr: set<object>

    /** No linked entry has been freed, and all of the `next` entries ever allocated are linked or have been freed. */
    ghost predicate Valid()
      reads this, Repr
    {
      && this in Repr && list in Repr && list.head in Repr
      && (forall n :: n in list.nodes ==> n in Repr && n !in freed)
      && list.head !in freed && |freed| + |list.nodes| == next
      && list.Valid()
    }

    ghost function Abs(): Queue
      reads this, list
    {
      Queue(list.Contents, next, outstanding, clones, log)
    }

    constructor ()
      ensures Valid() && fresh(Repr) && Abs() == EMPTY_QUEUE
    {
      list := new DList(EventEntry(0, [], false, 0, WaitingToBeSent));
      next, outstanding, clones, log := 0, {}, 0, [];
      freed := {};
      new;
      Repr := {this, list, list.head};
    }

    /** EventData_Destroy for each of `count` events. */
    method DestroyEvents(count: nat)
      modifies this`clones
      ensures clones == old(clones) - count
    {
      for i := 0 to count
        invariant clones == old(clones) - i
      {
        clones := clones - 1;
      }
    }

    /** The confirmation callback is called and the events are destroyed. */
    method Confirm(e: EventEntry, result: Confirmation, guarded: bool)
      modifies this`clones, this`log
      ensures clones == old(clones) - |e.events|
      ensures log == old(log) + (if e.callback || guarded then [] else [NullCalled(e.id)]) + [Confirmed(e.id, result)]
    {
      if !e.callback && !guarded {
        log := log + [NullCalled(e.id)];
      }
      log := log + [Confirmed(e.id, result)];
      DestroyEvents(|e.events|);
    }

    /** An entry is confirmed, unlinked and freed. */
    method FinishEntry(entry: DListEntry<EventEntry>, result: Confirmation, guarded: bool, ghost i: nat)
      requires Valid() && i < |list.nodes| && list.nodes[i] == entry
      modifies Repr
      ensures Valid() && Repr == old(Repr) && Abs() == Finish(old(Abs()), i, result, guarded)
      ensures list.nodes == old(list.nodes)[..i] + old(list.nodes)[i + 1..]
    {
      Confirm(entry.value, result, guarded);
      list.RemoveEntry(entry, i);
      Free(entry);
    }

    /** free: of an entry that is not linked any more and has not been freed before. */
    ghost method Free(entry: DListEntry<EventEntry>)
      requires entry != list.head && entry !in list.nodes && entry !in freed
      modifies this`freed
      ensures freed == old(freed) + {entry}
    {
      freed := freed + {entry};
    }

    /** The entry the library was given as the context of send `id`. */
    method FindEntry(id: nat) returns (entry: DListEntry<EventEntry>, ghost i: nat)
      requires Valid()
      ensures i == Find(list.Contents, id)
      ensures entry == if i < |list.nodes| then list.nodes[i] else list.head
    {
      entry, i := list.head.flink, 0;
      while entry != list.head && entry.value.id != id
        invariant i <= |list.nodes|
        invariant entry == if i < |list.nodes| then list.nodes[i] else list.head
        invariant Find(list.Contents, id) == i + Find(list.Contents[i..], id)
        decreases |list.nodes| - i
      {
        entry, i := entry.flink, i + 1;
      }
    }

    /** on_message_send_complete, for each send the library answers. */
    method AnswerSends(answers: seq<(nat, bool)>)
      requires Valid()
      modifies Repr
      ensures Valid() && Repr == old(Repr) && Abs() == CompleteAll(old(Abs()), answers)
    {
      var k := 0;
      while k < |answers|
        invariant 0 <= k <= |answers| && Valid() && Repr == old(Repr)
        invariant CompleteAll(Abs(), answers[k..]) == CompleteAll(old(Abs()), answers)
      {
        AnswerSend(answers[k].0, answers[k].1);
        assert answers[k..][1..] == answers[k + 1..];
        k := k + 1;
      }
    }

    method AnswerSend(id: nat, ok: bool)
      requires Valid()
      modifies Repr
      ensures Valid() && Repr == old(Repr) && Abs() == Complete(old(Abs()), id, ok)
    {
      var entry, i := FindEntry(id);
      if id in outstanding && entry != list.head {
        outstanding, log := outstanding - {id}, log + [AmqpDone(id, ok)];
        FinishEntry(entry, if ok then ConfirmOk else ConfirmError, true, i);
      }
    }

    /** messagesender_destroy: the sends it does not answer while it runs are never answered. */
    method AbandonSends(answers: seq<(nat, bool)>)
      requires Valid()
      modifies Repr
      ensures Valid() && Repr == old(Repr) && Abs() == Abandon(old(Abs()), answers)
    {
      AnswerSends(answers);
      outstanding := {};
    }

    /** The loop of DoWork: `nextEntry` is saved before the current entry may be unlinked and freed. */
    method SendAll(timeout: uint64, stamp: Stamp, env: nat -> EntryEnv)
      requires Valid()
      modifies Repr
      ensures Valid() && Repr == old(Repr) && Abs() == Walk(old(Abs()), 0, timeout, stamp, env)
    {
      var current := list.head.flink;
      ghost var p: nat := 0;
      while current != list.head
        invariant Valid() && Repr == old(Repr) && p <= |list.nodes|
        invariant current == EntryAt(p)
        invariant Walk(Abs(), p, timeout, stamp, env) == Walk(old(Abs()), 0, timeout, stamp, env)
        decreases |list.nodes| - p
      {
        current, p := SendCurrent(current, timeout, stamp, env, p);
      }
    }

    ghost function EntryAt(p: nat): DListEntry<EventEntry>
      reads this, list
    {
      if p < |list.nodes| then list.nodes[p] else list.head
    }

    /** The body of that loop: the next entry is saved, and is the next one still when the current one is gone. */
    method SendCurrent(current: DListEntry<EventEntry>, timeout: uint64, stamp: Stamp, env: nat -> EntryEnv,
                       ghost p: nat)
      returns (nextEntry: DListEntry<EventEntry>, ghost n: nat)
      requires Valid() && p < |list.nodes| && list.nodes[p] == current
      modifies Repr
      ensures Valid() && Repr == old(Repr) && n <= |list.nodes| && nextEntry == EntryAt(n)
      ensures (Abs(), n) == WalkStep(old(Abs()), p, timeout, stamp, env(old(list.Contents)[p].id))
      ensures Walk(Abs(), n, timeout, stamp, env) == Walk(old(Abs()), p, timeout, stamp, env)
      ensures |list.nodes| - n < old(|list.nodes|) - p
    {
      nextEntry := current.flink;
      n := SendEntry(current, timeout, stamp, env(current.value.id), p);
    }

    /** What becomes of the current entry. */
    method SendEntry(entry: DListEntry<EventEntry>, timeout: uint64, stamp: Stamp, env: EntryEnv, ghost p: nat)
      returns (ghost n: nat)
      requires Valid() && p < |list.nodes| && list.nodes[p] == entry
      modifies Repr
      ensures Valid() && Repr == old(Repr) && (Abs(), n) == WalkStep(old(Abs()), p, timeout, stamp, env)
      ensures list.nodes == if n == p then old(list.nodes)[..p] + old(list.nodes)[p + 1..] else old(list.nodes)
    {
      var e := entry.value;
      n := p;
      if e.status == WaitingForAck {
        n := p + 1;
      } else if !env.built {
        FinishEntry(entry, ConfirmError, false, p);
      } else if timeout > 0 && Sub64(env.now, e.idleTimer) / 1000 > timeout {
        FinishEntry(entry, ConfirmTimeout, false, p);
      } else {
        n := GiveToAmqp(entry, stamp, env.send, p);
      }
    }

    /** messagesender_send_async, and on_message_send_complete when the send completes inside it. */
    method GiveToAmqp(entry: DListEntry<EventEntry>, stamp: Stamp, send: SendOutcome, ghost p: nat)
      returns (ghost n: nat)
      requires Valid() && p < |list.nodes| && list.nodes[p] == entry
      modifies Repr
      ensures Valid() && Repr == old(Repr) && (Abs(), n) == Sent(old(Abs()), p, stamp, send)
      ensures list.nodes == if n == p then old(list.nodes)[..p] + old(list.nodes)[p + 1..] else old(list.nodes)
    {
      var e := entry.value;
      n := p;
      list.SetValue(entry, e.(status := WaitingForAck), p);
      log := log + [HandedOver(e.id, stamp)];
      match send {
        case Refused =>
          FinishEntry(entry, ConfirmError, false, p);
        case Pending =>
          outstanding := outstanding + {e.id};
          n := p + 1;
        case CompletedInside(ok) =>
          log := log + [AmqpDone(e.id, ok)];
          FinishEntry(entry, if ok then ConfirmOk else ConfirmError, true, p);
      }
    }

    /** The new entry is linked at the tail; its events have been cloned. */
    method Enqueue(events: seq<EventData>, callback: bool, now: uint64)
      requires Valid()
      modifies Repr
      ensures Valid() && fresh(Repr - old(Repr))
      ensures Abs() == Accept(old(Abs()), events, callback, now).(clones := old(clones))
    {
      var entry := new DListEntry(EventEntry(next, events, callback, now, WaitingToBeSent));
      next := next + 1;
      list.InsertTail(entry);
      Repr := Repr + {entry};
    }

    /** Clones the events until one fails; then the clones already made are destroyed. */
    method CloneAll(events: seq<EventData>, cloneOk: nat -> bool) returns (ok: bool)
      modifies this`clones
      ensures ok <==> forall i :: 0 <= i < |events| ==> cloneOk(i)
      ensures clones == if ok then old(clones) + |events| else old(clones)
    {
      var index := 0;
      while index < |events| && cloneOk(index)
        invariant 0 <= index <= |events| && clones == old(clones) + index
        invariant forall i :: 0 <= i < index ==> cloneOk(i)
      {
        clones := clones + 1;
        index := index + 1;
      }
      ok := index == |events|;
      if !ok {
        DestroyEvents(index);
      }
    }

    /** The loop of EventHubClient_LL_Destroy. */
    method DestroyEntries()
      requires Valid()
      modifies Repr
      ensures Valid() && Repr == old(Repr) && Abs() == DestroyAll(old(Abs())) && |freed| == next
    {
      var more := DestroyHead();
      while more
        invariant Valid() && Repr == old(Repr) && DestroyAll(Abs()) == DestroyAll(old(Abs()))
        invariant !more ==> Abs().entries == []
        decreases more, |Abs().entries|
      {
        more := DestroyHead();
      }
    }

    /** The loop's test and body: the head is unlinked, confirmed and freed, unless the list is empty. */
    method DestroyHead() returns (more: bool)
      requires Valid()
      modifies Repr
      ensures Valid() && Repr == old(Repr) && more == (old(Abs()).entries != [])
      ensures Abs() == if more then Finish(old(Abs()), 0, ConfirmDestroy, true) else old(Abs())
    {
      var unsent := TakeHead();
      more := unsent != list.head;
      if more {
        Discard(unsent);
        assert old(list.Contents)[..0] + old(list.Contents)[1..] == list.Contents;
      }
    }

    /** The head is unlinked; the list's own head stands for none. */
    method TakeHead() returns (unsent: DListEntry<EventEntry>)
      requires Valid()
      modifies Repr
      ensures Repr == old(Repr) && (unsent == list.head <==> old(list.Contents) == [])
      ensures if unsent == list.head then Valid() && Abs() == old(Abs()) else Detached(unsent)
      ensures unsent != list.head ==>
        && unsent.value == old(list.Contents)[0]
        && Abs() == old(Abs()).(entries := old(list.Contents)[1..])
    {
      unsent := list.RemoveHead();
    }

    /** All is well except that `entry` has been unlinked and not freed yet. */
    ghost predicate Detached(entry: DListEntry<EventEntry>)
      reads this, Repr
    {
      && this in Repr && list in Repr && list.head in Repr && entry in Repr
      && (forall n :: n in list.nodes ==> n in Repr && n !in freed)
      && list.head !in freed && |freed| + |list.nodes| + 1 == next
      && entry != list.head && entry !in list.nodes && entry !in freed
      && list.Valid()
    }

    /** The unlinked entry is confirmed and freed. */
    method Discard(unsent: DListEntry<EventEntry>)
      requires Detached(unsent)
      modifies this`clones, this`log, this`freed
      ensures Valid() && Repr == old(Repr)
      ensures clones == old(clones) - |unsent.value.events|
      ensures log == old(log) + [] + [Confirmed(unsent.value.id, ConfirmDestroy)]
    {
      Confirm(unsent.value, ConfirmDestroy, true);
      Free(unsent);
    }
  }
}
