/**
 The threaded receiver of eventhubreceiver.c in place, with its intrusive list of pending callbacks. Every method is
 what one thread does in one step, and acts on the state as the function of ReceiverThreadSpec its contract names;
 those that are a whole step keep the receiver valid, which is the invariant of ReceiverThreadInvariant.
 */
module EventHubReceiver {
  import opened Common
  import opened DLists
  import opened ReceiverSpec
  import opened ReceiverInvariant
  import opened ReceiverThreadSpec
  import opened ReceiverThreadInvariant
  import opened ReceiverThreadGuarantees
  import opened EventHubReceiverLL

  /** The list of pending callbacks, and what has become of them. */
  class DispatchList {
    const list: DList<Dispatch>
    var emitted: seq<Event>        // the events of all dispatches so far; a dispatch's number is its place here
    var delivered: seq<Delivery>
    var destroyed: seq<nat>        // the clones destroyed so far
    ghost var Repr: set<object>

    ghost predicate Valid()
      reads this, Repr
    {
      && this in Repr && list in Repr && list.head in Repr
      && (forall n :: n in list.nodes ==> n in Repr)
      && list.Valid()
    }

    /** AsyncDispatchCallbackListInit */
    constructor ()
      ensures Valid() && fresh(Repr) && list.Contents == [] && emitted == [] && delivered == [] && destroyed == []
    {
      list := new DList(Dispatch(Event.NullCalled(0), 0));
      emitted, delivered, destroyed := [], [], [];
      new;
      Repr := {this, list, list.head};
    }

    /** EHR_OnAsyncReceiveCB, EHR_OnAsyncReceiveErrorCB, EHR_OnAsyncEndCB, once the dispatch is allocated. */
    method Add(e: Event)
      requires Valid()
      modifies Repr
      ensures Valid() && fresh(Repr - old(Repr)) && delivered == old(delivered) && destroyed == old(destroyed)
      ensures list.Contents == old(list.Contents) + [Dispatch(e, |old(emitted)|)] && emitted == old(emitted) + [e]
    {
      var dispatch := new DListEntry(Dispatch(e, |emitted|));
      list.InsertTail(dispatch);
      Repr := Repr + {dispatch};
      emitted := emitted + [e];
    }

    /** A turn of the loop of AsyncDispatchCallbackListProcess; it ends when the list is empty. */
    method DispatchHead(callbacks: Snapshot) returns (more: bool)
      requires Valid()
      modifies Repr
      ensures Valid() && Repr == old(Repr) && emitted == old(emitted) && more == (old(list.Contents) != [])
      ensures more ==>
        && list.Contents == old(list.Contents)[1..]
        && delivered == old(delivered) + Calls(callbacks, old(list.Contents)[0].event)
        && destroyed == old(destroyed) + Releases(callbacks, old(list.Contents)[0])
      ensures !more ==> list.Contents == [] && delivered == old(delivered) && destroyed == old(destroyed)
    {
      var entry := list.RemoveHead();
      more := entry != list.head;
      if more {
        DispatchEntry(entry.value, callbacks);
      }
    }

    /** The body of that loop. */
    method DispatchEntry(d: Dispatch, callbacks: Snapshot)
      modifies this`delivered, this`destroyed
      ensures delivered == old(delivered) + Calls(callbacks, d.event)
      ensures destroyed == old(destroyed) + Releases(callbacks, d)
    {
      var e := d.event;
      if callbacks == Garbage {
        delivered := delivered + [ReadGarbage(e)];
      } else if (e.Received? || e.TimeoutReported?) && callbacks.receive.Some? {
        delivered := delivered + [Delivery(e, callbacks.receive.value)];
        if e.Received? {
          destroyed := destroyed + [d.number];
        }
      } else if e.Errored? && callbacks.error.Some? {
        delivered := delivered + [Delivery(e, callbacks.error.value)];
      } else if !e.Received? && !e.TimeoutReported? && !e.Errored? && callbacks.end.Some? {
        delivered := delivered + [Delivery(e, callbacks.end.value)];
      }
    }

    /** AsyncDispatchCallbackListDeInit */
    method DeInit()
      requires Valid()
      modifies Repr
      ensures Valid() && Repr == old(Repr) && list.Contents == []
      ensures destroyed == old(destroyed) + Clones(old(list.Contents))
      ensures emitted == old(emitted) && delivered == old(delivered)
    {
      var more := FreeHead();
      while more
        invariant Valid() && Repr == old(Repr) && emitted == old(emitted) && delivered == old(delivered)
        invariant destroyed + Clones(list.Contents) == old(destroyed) + Clones(old(list.Contents))
        invariant !more ==> list.Contents == []
        decreases more, |list.Contents|
      {
        more := FreeHead();
      }
    }

    /** The test and the body of that loop. */
    method FreeHead() returns (more: bool)
      requires Valid()
      modifies Repr
      ensures Valid() && Repr == old(Repr) && emitted == old(emitted) && delivered == old(delivered)
      ensures more == (old(list.Contents) != []) && list.Contents == if more then old(list.Contents)[1..] else []
      ensures destroyed + Clones(list.Contents) == old(destroyed) + Clones(old(list.Contents))
    {
      var entry := list.RemoveHead();
      more := entry != list.head;
      if more && entry.value.event.Received? {
        destroyed := destroyed + [entry.value.number];
      }
    }
  }

  class ThreadedReceiver {
    const ll: ReceiverLL
    const callbackList: DispatchList
    var active: bool
    var run: bool
    var worker: Worker             // where the worker thread is, and its local copy of the callbacks
    var onEventReceiveCallback: Option<Callback>
    var onEventReceiveErrorCallback: Option<Callback>
    var onEventReceiveEndCallback: Option<Callback>

    ghost predicate Valid()
      reads this, callbackList, callbackList.Repr, ll, ll.receiverAmqpConnection, ll.receiverAmqpConnection.cbs
    {
      Framed() && WrapperInv(Abs())
    }

    ghost predicate Framed()
      reads this, callbackList, callbackList.Repr, ll, ll.receiverAmqpConnection
    {
      && callbackList.Valid()
      && this !in callbackList.Repr && ll !in callbackList.Repr
      && ll.receiverAmqpConnection !in callbackList.Repr && ll.receiverAmqpConnection.cbs !in callbackList.Repr
    }

    ghost function Abs(): Wrapper
      reads this, callbackList, callbackList.list, ll, ll.receiverAmqpConnection, ll.receiverAmqpConnection.cbs
    {
      Wrapper(ll.Abs(), active, run, worker,
              onEventReceiveCallback, onEventReceiveErrorCallback, onEventReceiveEndCallback,
              callbackList.list.Contents, callbackList.emitted, callbackList.delivered, callbackList.destroyed)
    }

    /** CreateEventHubReceiver */
    constructor (ll: ReceiverLL)
      requires ll.Abs() == NewReceiver(ll.ext)
      ensures Valid() && fresh(callbackList.Repr) && this.ll == ll && Abs() == NewWrapper(ll.Abs())
    {
      this.ll := ll;
      callbackList := new DispatchList();
      active, run, worker := false, false, NotCreated;
      onEventReceiveCallback, onEventReceiveErrorCallback, onEventReceiveEndCallback := None, None, None;
      new;
      InterleavedKeeps(ll.ext, []);
    }

    // -------------------------------------------------------------- the worker

    method AddIfAllocated(e: Event, made: bool)
      requires Framed()
      modifies callbackList.Repr
      ensures Framed() && fresh(callbackList.Repr - old(callbackList.Repr))
      ensures Abs() == Enqueued(old(Abs()), if made then [e] else [])
    {
      if made {
        callbackList.Add(e);
      }
      EnqueuedNothing(old(Abs()));
      assert Numbered([e], |old(callbackList.emitted)|) == [Dispatch(e, |old(callbackList.emitted)|)];
    }

    /** The dispatches for the callbacks that the lower receiver made since its log had `from` entries. */
    method AddDispatches(from: nat, alloc: nat -> bool)
      requires Framed() && from <= |ll.log|
      modifies callbackList.Repr
      ensures Framed() && fresh(callbackList.Repr - old(callbackList.Repr))
      ensures Abs() == Enqueued(old(Abs()), Dispatched(ll.log[from..], alloc))
    {
      var news := ll.log[from..];
      ghost var w := Abs();
      EnqueuedNothing(w);
      for k := 0 to |news|
        invariant Framed() && fresh(callbackList.Repr - old(callbackList.Repr))
        invariant Abs() == Enqueued(w, Dispatched(news[..k], alloc))
      {
        assert news[..k + 1][..k] == news[..k];
        AddIfAllocated(news[k], IsCallback(news[k]) && alloc(k));
        EnqueuedTwice(w, Dispatched(news[..k], alloc), if IsCallback(news[k]) && alloc(k) then [news[k]] else []);
      }
      assert news[..|news|] == news;
    }

    /** A turn of the loop of EHR_AsyncWorkLoopThreadEntry up to Unlock. */
    method Tick(lockOk: bool, env: DoWorkEnv, alloc: nat -> bool)
      requires Valid() && worker == AtLoopTop && Silent(env)
      modifies this, callbackList.Repr, ll, ll.receiverAmqpConnection, ll.receiverAmqpConnection.cbs
      ensures Valid() && fresh(callbackList.Repr - old(callbackList.Repr))
      ensures Abs() == ReceiverThreadSpec.Tick(old(Abs()), lockOk, env, alloc)
    {
      TickKeeps(Abs(), lockOk, env, alloc);
      Turn(lockOk, env, alloc);
    }

    method Turn(lockOk: bool, env: DoWorkEnv, alloc: nat -> bool)
      requires Framed() && ll.Valid() && worker == AtLoopTop
      modifies this, callbackList.Repr, ll, ll.receiverAmqpConnection, ll.receiverAmqpConnection.cbs
      ensures Framed() && fresh(callbackList.Repr - old(callbackList.Repr))
      ensures Abs() == ReceiverThreadSpec.Tick(old(Abs()), lockOk, env, alloc)
    {
      if !run {
        worker := Exited;
      } else if !lockOk {
        worker := Draining(Garbage);
      } else {
        Work(env, alloc);
        worker := Draining(Copied(onEventReceiveCallback, onEventReceiveErrorCallback, onEventReceiveEndCallback));
      }
    }

    method Work(env: DoWorkEnv, alloc: nat -> bool)
      requires Framed() && ll.Valid()
      modifies callbackList.Repr, ll, ll.receiverAmqpConnection, ll.receiverAmqpConnection.cbs
      ensures Framed() && fresh(callbackList.Repr - old(callbackList.Repr))
      ensures Abs() == Worked(old(Abs()), env, alloc)
    {
      var from := |ll.log|;
      DoWorkLogs(ll.Abs(), env);
      WorkLower(env);
      AddDispatches(from, alloc);
    }

    method WorkLower(env: DoWorkEnv)
      requires Framed() && ll.Valid()
      modifies ll, ll.receiverAmqpConnection, ll.receiverAmqpConnection.cbs
      ensures Framed() && Abs() == old(Abs()).(ll := DoWork(old(ll.Abs()), env))
    {
      ll.DoWork(env);
    }

    /** One turn of AsyncDispatchCallbackListProcess. */
    method DrainHead(callbacks: Snapshot) returns (more: bool)
      requires Framed()
      modifies callbackList.Repr
      ensures Framed() && callbackList.Repr == old(callbackList.Repr) && more == (old(Abs()).queue != [])
      ensures Abs() == if more then DrainOne(old(Abs()), callbacks) else old(Abs())
    {
      more := callbackList.DispatchHead(callbacks);
    }

    /** AsyncDispatchCallbackListProcess, when no other thread's step comes between. */
    method AsyncDispatchCallbackListProcess(callbacks: Snapshot)
      requires Valid() && worker == Draining(callbacks)
      modifies callbackList.Repr
      ensures Valid() && callbackList.Repr == old(callbackList.Repr) && Abs() == DrainAll(old(Abs()), callbacks)
      ensures callbackList.list.Contents == []
    {
      DrainAllKeeps(Abs());
      DrainList(callbacks);
    }

    method DrainList(callbacks: Snapshot)
      requires Framed()
      modifies callbackList.Repr
      ensures Framed() && callbackList.Repr == old(callbackList.Repr) && Abs() == DrainAll(old(Abs()), callbacks)
    {
      var more := DrainHead(callbacks);
      while more
        invariant Framed() && callbackList.Repr == old(callbackList.Repr)
        invariant DrainAll(Abs(), callbacks) == DrainAll(old(Abs()), callbacks)
        invariant !more ==> Abs().queue == []
        decreases more, |Abs().queue|
      {
        more := DrainHead(callbacks);
      }
    }

    // -------------------------------------------------------------- the API

    /** ExecuteCommonReceiveFromStartTimestampAsync */
    method ReceiveFromStartTimestampAsync(receiveCb: bool, errorCb: bool, startSec: uint64, waitMs: uint32,
                                          tick: Option<uint64>, filterOk: bool, lockOk: bool, threadOk: bool)
      returns (result: Result)
      requires Valid()
      modifies this, ll
      ensures Valid() && callbackList.Repr == old(callbackList.Repr)
      ensures (Abs(), result) ==
        ReceiveAsync(
          old(Abs()), ApiCall.Receive(receiveCb, errorCb, startSec, waitMs, tick, filterOk), lockOk, threadOk)
    {
      ReceiveKeeps(Abs(), ApiCall.Receive(receiveCb, errorCb, startSec, waitMs, tick, filterOk), lockOk, threadOk);
      result := BeginReceive(receiveCb, errorCb, startSec, waitMs, tick, filterOk, lockOk, threadOk);
    }

    method BeginReceive(receiveCb: bool, errorCb: bool, startSec: uint64, waitMs: uint32,
                        tick: Option<uint64>, filterOk: bool, lockOk: bool, threadOk: bool) returns (result: Result)
      requires Framed()
      modifies this, ll
      ensures Framed() && callbackList.Repr == old(callbackList.Repr)
      ensures (Abs(), result) ==
        ReceiveAsync(
          old(Abs()), ApiCall.Receive(receiveCb, errorCb, startSec, waitMs, tick, filterOk), lockOk, threadOk)
    {
      if !receiveCb || !errorCb {
        return ReceiverInvalidArg;
      }
      if !lockOk {
        return ReceiverError;
      }
      if active {
        return NotAllowed;
      }
      result := ll.ReceiveAsync(true, true, startSec, waitMs, tick, filterOk);
      if result != ReceiverOk {
        return;
      }
      var ok := StartWorker(threadOk);
      if !ok {
        return ReceiverError;
      }
      Activate();
    }

    /** ThreadAPI_Create, unless there is a worker already. */
    method StartWorker(threadOk: bool) returns (ok: bool)
      modifies this`run, this`worker
      ensures ok == (old(worker) != NotCreated || threadOk)
      ensures var w := old(Abs());
        Abs() ==
          if w.worker != NotCreated then w
          else w.(run := threadOk, worker := if threadOk then AtLoopTop else NotCreated)
    {
      ok := true;
      if worker == NotCreated {
        run, ok := threadOk, threadOk;
        if threadOk {
          worker := AtLoopTop;
        }
      }
    }

    method Activate()
      modifies this
      ensures Abs() == Activated(old(Abs()))
    {
      active := true;
      onEventReceiveCallback, onEventReceiveErrorCallback := Some(ForEvents(ll.session)), Some(ForErrors(ll.session));
      onEventReceiveEndCallback := None;
    }

    /** EventHubReceiver_ReceiveEndAsync */
    method ReceiveEnd(endCb: bool, lockOk: bool) returns (result: Result)
      requires Valid()
      modifies this, ll
      ensures Valid() && callbackList.Repr == old(callbackList.Repr)
      ensures (Abs(), result) == ReceiveEndAsync(old(Abs()), endCb, lockOk)
    {
      ReceiveEndKeeps(Abs(), endCb, lockOk);
      result := EndReceive(endCb, lockOk);
    }

    method EndReceive(endCb: bool, lockOk: bool) returns (result: Result)
      requires Framed()
      modifies this, ll
      ensures Framed() && callbackList.Repr == old(callbackList.Repr)
      ensures (Abs(), result) == ReceiveEndAsync(old(Abs()), endCb, lockOk)
    {
      if !lockOk {
        return ReceiverError;
      }
      if !active {
        return NotAllowed;
      }
      result := ll.ReceiveEndAsync(endCb);
      if result == ReceiverOk {
        onEventReceiveCallback, onEventReceiveErrorCallback := None, None;
        onEventReceiveEndCallback := if endCb then Some(ForEnd(ll.session)) else None;
        active := false;
      }
    }

    /** EventHubReceiver_RefreshSASTokenAsync */
    method RefreshSasToken(token: Option<string>, lockOk: bool) returns (result: Result)
      requires Valid()
      modifies ll
      ensures Valid() && (Abs(), result) == RefreshAsync(old(Abs()), token, lockOk)
    {
      RefreshKeeps(Abs(), token, lockOk);
      if token == None {
        return ReceiverInvalidArg;
      }
      if !lockOk {
        return ReceiverError;
      }
      result := ll.RefreshSasTokenAsync(token);
    }

    /** EventHubReceiver_Destroy, once the worker has been joined. */
    method DestroyAfterJoin()
      requires Valid() && !worker.Draining?
      modifies this, callbackList.Repr, ll, ll.receiverAmqpConnection
      ensures Abs() == DestroyedWrapper(old(Abs())) && AllDelivered(old(Abs()), Abs())
    {
      DestroyDeliversAll(Abs());
      run, worker := false, if worker == NotCreated then NotCreated else Exited;
      Release();
    }

    method Release()
      requires Framed()
      modifies callbackList.Repr, ll, ll.receiverAmqpConnection
      ensures Abs() == Released(old(Abs()))
    {
      ll.Destroy();
      callbackList.DeInit();
    }
  }

  lemma EnqueuedNothing(w: Wrapper)
    ensures Enqueued(w, []) == w
  {
    assert w.queue + Numbered([], |w.emitted|) == w.queue && w.emitted + [] == w.emitted;
  }

  lemma EnqueuedTwice(w: Wrapper, a: seq<Event>, b: seq<Event>)
    ensures Enqueued(Enqueued(w, a), b) == Enqueued(w, a + b)
  {
    var n := |w.emitted|;
    assert w.queue + Numbered(a, n) + Numbered(b, n + |a|) == w.queue + Numbered(a + b, n);
    assert w.emitted + a + b == w.emitted + (a + b);
  }
}
