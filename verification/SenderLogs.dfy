/** What one DoWork, or Destroy, adds to the log of the sender, and for which entries. */
module SenderLogs {
  import opened Common
  import opened TokenLifecycle
  import opened AmqpStack
  import opened SendQueue
  import opened SendQueueInvariant
  import opened SenderSpec
  import opened SenderInvariant

  /** What log `b`, which continues `a`, adds to it. */
  function News(a: seq<SendEvent>, b: seq<SendEvent>): seq<SendEvent>
    requires a <= b
  {
    b[|a|..]
  }

  lemma NewsAppend(a: seq<SendEvent>, b: seq<SendEvent>, c: seq<SendEvent>)
    requires a <= b <= c
    ensures News(a, c) == News(a, b) + News(b, c)
  {
  }

  ghost predicate WaitsToBeSent(es: seq<EventEntry>, id: nat) {
    exists i :: 0 <= i < |es| && es[i].id == id && es[i].status == WaitingToBeSent
  }

  /** An answer of the library to one of the sends in `outstanding`, or the confirmation that it causes. */
  predicate AnswerOf(outstanding: set<nat>, e: SendEvent) {
    (e.AmqpDone? || (e.Confirmed? && e.result in {ConfirmOk, ConfirmError})) && e.id in outstanding
  }

  lemma AnswerNews(q: Queue, id: nat, ok: bool)
    ensures var r := Complete(q, id, ok);
      && q.log <= r.log && r.outstanding <= q.outstanding
      && (forall e :: e in News(q.log, r.log) ==> AnswerOf(q.outstanding, e))
      && (forall e :: e in r.entries ==> e in q.entries)
  {
  }

  lemma {:induction false} AnswersNews(q: Queue, answers: seq<(nat, bool)>)
    ensures var r := CompleteAll(q, answers);
      && q.log <= r.log && r.outstanding <= q.outstanding
      && (forall e :: e in News(q.log, r.log) ==> AnswerOf(q.outstanding, e))
      && (forall e :: e in r.entries ==> e in q.entries)
    decreases |answers|
  {
    if answers != [] {
      var m := Complete(q, answers[0].0, answers[0].1);
      AnswerNews(q, answers[0].0, answers[0].1);
      AnswersNews(m, answers[1..]);
      NewsAppend(q.log, m.log, CompleteAll(q, answers).log);
    }
  }

  lemma {:induction false} PassNews(es: seq<EventEntry>, timeout: uint64, stamp: Stamp, env: nat -> EntryEnv)
    ensures forall e :: e in PassLog(es, timeout, stamp, env) ==> WaitsToBeSent(es, e.id)
  {
    if es != [] {
      PassNews(es[1..], timeout, stamp, env);
      forall e | e in PassLog(es, timeout, stamp, env)
        ensures WaitsToBeSent(es, e.id)
      {
        if e in EntryLog(es[0], timeout, stamp, env(es[0].id)) {
          assert es[0].id == e.id && es[0].status == WaitingToBeSent;
        } else {
          LaterWaits(es, e.id);
        }
      }
    }
  }

  lemma LaterWaits(es: seq<EventEntry>, id: nat)
    requires es != [] && WaitsToBeSent(es[1..], id)
    ensures WaitsToBeSent(es, id)
  {
    var i :| 0 <= i < |es[1..]| && es[1..][i].id == id && es[1..][i].status == WaitingToBeSent;
    assert es[i + 1] == es[1..][i];
  }

  lemma {:induction false} WalkOutstanding(q: Queue, p: nat, timeout: uint64, stamp: Stamp, env: nat -> EntryEnv)
    requires p <= |q.entries|
    ensures forall id :: id in Walk(q, p, timeout, stamp, env).outstanding ==>
      id in q.outstanding || WaitsToBeSent(q.entries[p..], id)
    decreases |q.entries| - p
  {
    if p < |q.entries| {
      var e, es := q.entries[p], q.entries[p..];
      var (r, n) := WalkStep(q, p, timeout, stamp, env(e.id));
      WalkStepTreatsOne(q, p, timeout, stamp, env(e.id));
      WalkOutstanding(r, n, timeout, stamp, env);
      assert r.entries[n..] == q.entries[p + 1..] == es[1..];
      assert es[0] == e;
      forall id | id in Walk(q, p, timeout, stamp, env).outstanding && id !in q.outstanding
        ensures WaitsToBeSent(es, id)
      {
        if WaitsToBeSent(es[1..], id) {
          LaterWaits(es, id);
        }
      }
    }
  }

  // ---------------------------------------------------------------- DoWork

  /** The pass over the outgoing queue is reached. */
  predicate PassRuns(s: Sender, env: DoWorkEnv) {
    var (u, ok) := Up(s, env);
    ok && u.senderState != SenderError && PassRunsIn(u, env)
  }

  predicate PassRunsIn(u: Sender, env: DoWorkEnv) {
    var (a, verdict, _) := AuthorizeSender(u, env.auth);
    verdict == AuthReady && a.amqp == Initialized && (a.senderState != SenderIdle || env.openOk)
  }

  /**
   Timed-out confirmations and calls of a NULL callback come from the pass alone. All confirmations are of entries
   unsent or unanswered before, and what is unsent or unanswered afterwards was so before.
   */
  ghost predicate LogsFor(s: Sender, t: Sender, runs: bool, env: DoWorkEnv) {
    var q := s.queue;
    && q.log <= t.queue.log
    && (forall id :: id in t.queue.outstanding ==> id in q.outstanding || WaitsToBeSent(q.entries, id))
    && (forall id: nat :: WaitsToBeSent(t.queue.entries, id) ==> WaitsToBeSent(q.entries, id))
    && (forall e :: e in News(q.log, t.queue.log) && !e.HandedOver? ==>
          e.id in q.outstanding || WaitsToBeSent(q.entries, e.id))
    && (forall id: nat :: Confirmed(id, ConfirmTimeout) in News(q.log, t.queue.log) <==>
          runs && TimesOutInPass(q.entries, s.msgTimeout, env.entry, id))
    && (forall id: nat :: NullCalled(id) in News(q.log, t.queue.log) <==>
          runs && CallsNullInPass(q.entries, s.msgTimeout, env.entry, id))
  }

  /** Entry `id` has waited a full second more than the timeout when the pass reaches it, and can be built. */
  ghost predicate TimesOutInPass(es: seq<EventEntry>, timeout: uint64, env: nat -> EntryEnv, id: nat) {
    exists i :: 0 <= i < |es| && es[i].id == id && TimesOut(es[i], timeout, env(id))
  }

  predicate TimesOut(e: EventEntry, timeout: uint64, env: EntryEnv) {
    e.status == WaitingToBeSent && env.built && timeout > 0 && Sub64(env.now, e.idleTimer) >= 1000 * (timeout + 1)
  }

  /** Over the whole queue: which entries a pass confirms as timed out. */
  lemma {:induction false} PassTimesOutExactly(
      es: seq<EventEntry>, timeout: uint64, stamp: Stamp, env: nat -> EntryEnv, id: nat)
    ensures Confirmed(id, ConfirmTimeout) in PassLog(es, timeout, stamp, env) <==> TimesOutInPass(es, timeout, env, id)
  {
    if es != [] {
      PassTimesOutExactly(es[1..], timeout, stamp, env, id);
      EntryTimesOutExactly(es[0], timeout, stamp, env(es[0].id), id);
      if TimesOutInPass(es[1..], timeout, env, id) {
        var i :| 0 <= i < |es[1..]| && es[1..][i].id == id && TimesOut(es[1..][i], timeout, env(id));
        assert es[i + 1] == es[1..][i];
      }
    }
  }

  lemma EntryTimesOutExactly(e: EventEntry, timeout: uint64, stamp: Stamp, env: EntryEnv, id: nat)
    ensures Confirmed(id, ConfirmTimeout) in EntryLog(e, timeout, stamp, env) <==>
      e.id == id && TimesOut(e, timeout, env)
  {
    var nullCall := if e.callback then [] else [NullCalled(e.id)];
    assert (nullCall + [Confirmed(e.id, ConfirmTimeout)])[|nullCall|] == Confirmed(e.id, ConfirmTimeout);
  }

  // ---------------------------------------------------------------- NULL confirmation callbacks

  /** The ways in which a pass calls an entry's callback without testing it for NULL. */
  predicate CallsNull(e: EventEntry, timeout: uint64, env: EntryEnv) {
    && e.status == WaitingToBeSent && !e.callback
    && (!env.built || HasTimedOut(e, timeout, env.now) || env.send == Refused)
  }

  /** Entry `id`, queued without a callback, is such a one when the pass reaches it. */
  ghost predicate CallsNullInPass(es: seq<EventEntry>, timeout: uint64, env: nat -> EntryEnv, id: nat) {
    exists i :: 0 <= i < |es| && es[i].id == id && CallsNull(es[i], timeout, env(id))
  }

  /** A pass calls a NULL callback exactly if an entry queued without one cannot be built, expires, or is refused. */
  lemma {:induction false} NullCallsExactly(
      es: seq<EventEntry>, timeout: uint64, stamp: Stamp, env: nat -> EntryEnv, id: nat)
    ensures NullCalled(id) in PassLog(es, timeout, stamp, env) <==> CallsNullInPass(es, timeout, env, id)
  {
    if es != [] {
      NullCallsExactly(es[1..], timeout, stamp, env, id);
      assert NullCalled(id) in EntryLog(es[0], timeout, stamp, env(es[0].id)) <==>
        es[0].id == id && CallsNull(es[0], timeout, env(id));
      if CallsNullInPass(es[1..], timeout, env, id) {
        var i :| 0 <= i < |es[1..]| && es[1..][i].id == id && CallsNull(es[1..][i], timeout, env(id));
        assert es[i + 1] == es[1..][i];
      }
    }
  }

  // ---------------------------------------------------------------- the pieces of DoWork

  lemma AnswersLogFor(s: Sender, t: Sender, answers: seq<(nat, bool)>, env: DoWorkEnv)
    requires t.queue in {CompleteAll(s.queue, answers), CompleteAll(s.queue, answers).(outstanding := {})}
    ensures LogsFor(s, t, false, env)
  {
    AnswersNews(s.queue, answers);
    WaitedBefore(s.queue.entries, t.queue.entries);
  }

  lemma WaitedBefore(es: seq<EventEntry>, fs: seq<EventEntry>)
    requires forall f :: f in fs ==> f in es
    ensures forall id: nat :: WaitsToBeSent(fs, id) ==> WaitsToBeSent(es, id)
  {
    forall id: nat | WaitsToBeSent(fs, id)
      ensures WaitsToBeSent(es, id)
    {
      var i :| 0 <= i < |fs| && fs[i].id == id && fs[i].status == WaitingToBeSent;
      assert fs[i] in es;
    }
  }

  lemma ConnectionWorkQueue(s: Sender, io: IoEnv)
    ensures ConnectionWork(s, io).queue == CompleteAll(s.queue, io.answers)
  {
    StatesChangedOnly(Answered(s, io), io.changes);
  }

  lemma PassedLogsFor(s: Sender, checkedAt: uint64, t: Sender, env: DoWorkEnv)
    requires t.queue == CompleteAll(Passed(s, checkedAt, env.entry).queue, env.io.answers)
    ensures LogsFor(s, t, true, env)
  {
    var q, stamp := s.queue, StampOf(s, checkedAt);
    var w := Passed(s, checkedAt, env.entry).queue;
    assert q.entries[0..] == q.entries;
    WalkIsAFilter(q, 0, s.msgTimeout, stamp, env.entry);
    WalkOutstanding(q, 0, s.msgTimeout, stamp, env.entry);
    PassNews(q.entries, s.msgTimeout, stamp, env.entry);
    SurvivorsWaitForAck(q.entries, s.msgTimeout, env.entry);
    AnswersNews(w, env.io.answers);
    WaitedBefore(w.entries, t.queue.entries);
    assert News(q.log, w.log) == PassLog(q.entries, s.msgTimeout, stamp, env.entry);
    NewsAppend(q.log, w.log, t.queue.log);
    forall id: nat
      ensures Confirmed(id, ConfirmTimeout) in News(q.log, w.log) <==>
        TimesOutInPass(q.entries, s.msgTimeout, env.entry, id)
    {
      PassTimesOutExactly(q.entries, s.msgTimeout, stamp, env.entry, id);
    }
    forall id: nat
      ensures NullCalled(id) in News(q.log, w.log) <==> CallsNullInPass(q.entries, s.msgTimeout, env.entry, id)
    {
      NullCallsExactly(q.entries, s.msgTimeout, stamp, env.entry, id);
    }
  }

  lemma SendPassLogsFor(a: Sender, checkedAt: uint64, env: DoWorkEnv)
    ensures LogsFor(a, SendPass(a, checkedAt, env), a.senderState != SenderIdle || env.openOk, env)
  {
    StatesChangedOnly(OpenCalled(a), env.openChanges);
    var r := if a.senderState == SenderIdle then StatesChanged(OpenCalled(a), env.openChanges) else a;
    if a.senderState == SenderIdle && !env.openOk {
      AnswersLogFor(a, r, [], env);
    } else {
      ConnectionWorkQueue(Passed(r, checkedAt, env.entry), env.io);
      PassedLogsFor(r, checkedAt, SendPass(a, checkedAt, env), env);
    }
  }

  lemma AuthorizedWorkLogsFor(u: Sender, env: DoWorkEnv)
    ensures LogsFor(u, AuthorizedWork(u, env), PassRunsIn(u, env), env)
  {
    var (a, verdict, checkedAt) := AuthorizeSender(u, env.auth);
    var t := AuthorizedWork(u, env);
    match verdict
    case AuthFailed => DownLogsFor(u, Report(a, SasTokenAuthFailure), env);
    case AuthTimedOut => DownLogsFor(u, Report(a, SasTokenAuthTimeout), env);
    case AuthWaiting =>
      ConnectionWorkQueue(a, env.io);
      AnswersLogFor(u, t, env.io.answers, env);
    case AuthReady =>
      if a.amqp == Initialized {
        SendPassLogsFor(a, checkedAt, env);
      } else {
        AnswersLogFor(u, t, [], env);
      }
  }

  lemma DownLogsFor(s: Sender, r: Sender, env: DoWorkEnv)
    requires r.queue == s.queue
    ensures LogsFor(s, Down(r, env.teardown), false, env)
  {
    AnswersLogFor(s, Down(r, env.teardown), if r.stack.h.endpoint.Some? then env.teardown else [], env);
  }

  /** What a DoWork logs, for which entries; exactly which of them it confirms as timed out. */
  lemma DoWorkLogsFor(s: Sender, env: DoWorkEnv)
    ensures LogsFor(s, DoWork(s, env), PassRuns(s, env), env)
  {
    var (r, up) := Raised(s, env.common, env.endpoint);
    var (u, ok) := Up(s, env);
    if !ok {
      DownLogsFor(s, r, env);
    } else if u.senderState == SenderError {
      DownLogsFor(s, u, env);
    } else {
      AuthorizedWorkLogsFor(u, env);
    }
  }

  /**
   A DoWork confirms an entry as timed out if and only if it reaches the pass, the entry is unsent when it does, can
   be built, and has then waited at least 1000(t+1) ms for a timeout of t > 0 seconds.
   */
  lemma DoWorkTimesOutExactly(s: Sender, env: DoWorkEnv, id: nat)
    ensures s.queue.log <= DoWork(s, env).queue.log
    ensures Confirmed(id, ConfirmTimeout) in News(s.queue.log, DoWork(s, env).queue.log) <==>
      PassRuns(s, env) && TimesOutInPass(s.queue.entries, s.msgTimeout, env.entry, id)
  {
    DoWorkLogsFor(s, env);
  }

  /**
   A DoWork calls a NULL callback if and only if it reaches the pass, and an entry queued without one is unsent then and
   cannot be built, has expired, or is refused.
   */
  lemma DoWorkCallsNullExactly(s: Sender, env: DoWorkEnv, id: nat)
    ensures s.queue.log <= DoWork(s, env).queue.log
    ensures NullCalled(id) in News(s.queue.log, DoWork(s, env).queue.log) <==>
      PassRuns(s, env) && CallsNullInPass(s.queue.entries, s.msgTimeout, env.entry, id)
  {
    DoWorkLogsFor(s, env);
  }

  // ---------------------------------------------------------------- Destroy

  lemma {:induction false} DestroyAllNews(q: Queue)
    ensures q.log <= DestroyAll(q).log && DestroyAll(q).next == q.next
    ensures DestroyAll(q).entries == [] && DestroyAll(q).outstanding == q.outstanding
    ensures forall e :: e in News(q.log, DestroyAll(q).log) ==> e.Confirmed? && e.result == ConfirmDestroy
    decreases |q.entries|
  {
    if q.entries != [] {
      var m := Finish(q, 0, ConfirmDestroy, true);
      DestroyAllNews(m);
      NewsAppend(q.log, m.log, DestroyAll(q).log);
    }
  }

  /** Destroy confirms OK only what the library still answers. */
  lemma DestroyedNews(s: Sender, answers: seq<(nat, bool)>)
    requires s.stack.h.endpoint == None ==> s.queue.outstanding == {}
    ensures var t := Destroyed(s, answers);
      && s.queue.log <= t.queue.log && t.queue.entries == [] && t.queue.outstanding == {}
      && forall id: nat :: Confirmed(id, ConfirmOk) in News(s.queue.log, t.queue.log) ==> id in s.queue.outstanding
  {
    var d := Down(s, answers);
    AnswersNews(s.queue, answers);
    DestroyAllNews(d.queue);
    NewsAppend(s.queue.log, d.queue.log, Destroyed(s, answers).queue.log);
  }

  // ---------------------------------------------------------------- between two states, nothing accepted

  lemma {:induction false} CountGrows(a: seq<SendEvent>, b: seq<SendEvent>, id: nat)
    requires a <= b
    ensures Confirmations(a, id) <= Confirmations(b, id)
    ensures (exists i :: |a| <= i < |b| && b[i].Confirmed? && b[i].id == id) ==>
      Confirmations(a, id) < Confirmations(b, id)
    decreases |b|
  {
    if |a| == |b| {
      assert a == b;
    } else {
      CountGrows(a, b[..|b| - 1], id);
    }
  }

  /** Between two states of the queue that accept nothing: what is confirmed was queued before and is not afterwards. */
  lemma ConfirmedWasQueued(q: Queue, r: Queue, id: nat)
    requires QueueInv(q) && QueueInv(r) && q.log <= r.log && q.next == r.next
    ensures InQueue(r.entries, id) ==> InQueue(q.entries, id)
    ensures (exists i :: |q.log| <= i < |r.log| && r.log[i].Confirmed? && r.log[i].id == id) ==>
      InQueue(q.entries, id) && !InQueue(r.entries, id)
  {
    CountGrows(q.log, r.log, id);
    InQueueBelowNext(r, id);
  }

  lemma InQueueBelowNext(q: Queue, id: nat)
    requires Ordered(q)
    ensures InQueue(q.entries, id) ==> id < q.next
  {
  }

  lemma {:induction false} AnswersKeepNext(q: Queue, answers: seq<(nat, bool)>)
    ensures CompleteAll(q, answers).next == q.next
    decreases |answers|
  {
    if answers != [] {
      AnswersKeepNext(Complete(q, answers[0].0, answers[0].1), answers[1..]);
    }
  }

  lemma SendPassKeepsNext(a: Sender, checkedAt: uint64, env: DoWorkEnv)
    ensures SendPass(a, checkedAt, env).queue.next == a.queue.next
  {
    StatesChangedOnly(OpenCalled(a), env.openChanges);
    var r := if a.senderState == SenderIdle then StatesChanged(OpenCalled(a), env.openChanges) else a;
    WalkIsAFilter(r.queue, 0, r.msgTimeout, StampOf(r, checkedAt), env.entry);
    ConnectionWorkKeepsNext(Passed(r, checkedAt, env.entry), env.io);
  }

  lemma ConnectionWorkKeepsNext(s: Sender, io: IoEnv)
    ensures ConnectionWork(s, io).queue.next == s.queue.next
  {
    AnswersKeepNext(s.queue, io.answers);
    StatesChangedOnly(Answered(s, io), io.changes);
  }

  lemma AuthorizedWorkKeepsNext(u: Sender, env: DoWorkEnv)
    ensures AuthorizedWork(u, env).queue.next == u.queue.next
  {
    var (a, verdict, checkedAt) := AuthorizeSender(u, env.auth);
    match verdict
    case AuthFailed => AnswersKeepNext(u.queue, env.teardown);
    case AuthTimedOut => AnswersKeepNext(u.queue, env.teardown);
    case AuthWaiting => ConnectionWorkKeepsNext(a, env.io);
    case AuthReady => SendPassKeepsNext(a, checkedAt, env);
  }

  lemma DoWorkKeepsNext(s: Sender, env: DoWorkEnv)
    ensures DoWork(s, env).queue.next == s.queue.next
  {
    AnswersKeepNext(s.queue, env.teardown);
    AuthorizedWorkKeepsNext(Up(s, env).0, env);
  }
}
