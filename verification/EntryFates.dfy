/** The fate of each queued entry in a DoWork, and in Destroy: handed over or not, confirmed and how, or kept. */
module EntryFates {
  import opened Common
  import opened TokenOutcomes
  import opened AmqpStack
  import opened SendQueue
  import opened SendQueueInvariant
  import opened SenderSpec
  import opened SenderInvariant
  import opened SenderLogs
  import opened SenderOutcomes

  // ---------------------------------------------------------------- answers

  /** The library's answer to send `id`: the first one, if there are several. */
  function FirstAnswer(answers: seq<(nat, bool)>, id: nat): Option<bool> {
    if answers == [] then None else if answers[0].0 == id then Some(answers[0].1) else FirstAnswer(answers[1..], id)
  }

  function AnswerFate(answers: seq<(nat, bool)>, id: nat): Option<Confirmation> {
    var answer := FirstAnswer(answers, id);
    if answer == None then None else Some(if answer.value then ConfirmOk else ConfirmError)
  }

  /** Every send that is waited for is of a queued entry. */
  ghost predicate AllQueued(q: Queue) {
    forall id :: id in q.outstanding ==> InQueue(q.entries, id)
  }

  lemma CompleteNews(q: Queue, a: nat, ok: bool)
    requires AllQueued(q)
    ensures var r := Complete(q, a, ok);
      if a in q.outstanding then
        && q.log <= r.log
        && News(q.log, r.log) == [AmqpDone(a, ok), Confirmed(a, if ok then ConfirmOk else ConfirmError)]
        && r.outstanding == q.outstanding - {a}
      else r == q
    ensures AllQueued(Complete(q, a, ok))
  {
    var i := Find(q.entries, a);
    if a in q.outstanding {
      assert InQueue(q.entries, a);
      forall id | id in q.outstanding && id != a
        ensures InQueue(q.entries[..i] + q.entries[i + 1..], id)
      {
        OthersStay(q.entries, i, id);
      }
    }
  }

  lemma OthersStay(es: seq<EventEntry>, i: nat, id: nat)
    requires i < |es| && InQueue(es, id) && es[i].id != id
    ensures InQueue(es[..i] + es[i + 1..], id)
  {
    var k :| 0 <= k < |es| && es[k].id == id;
    assert (es[..i] + es[i + 1..])[if k < i then k else k - 1] == es[k];
  }

  /** The queue `m` after the first of the answers. */
  lemma AnswerStep(q: Queue, answers: seq<(nat, bool)>, id: nat, result: Confirmation) returns (m: Queue)
    requires AllQueued(q) && answers != []
    ensures CompleteAll(q, answers) == CompleteAll(m, answers[1..]) && AllQueued(m) && q.log <= m.log
    ensures id in m.outstanding <==> id in q.outstanding && answers[0].0 != id
    ensures Confirmed(id, result) in News(q.log, m.log) <==>
      id in q.outstanding && answers[0].0 == id && result == if answers[0].1 then ConfirmOk else ConfirmError
  {
    m := Complete(q, answers[0].0, answers[0].1);
    CompleteNews(q, answers[0].0, answers[0].1);
  }

  lemma InNews(a: seq<SendEvent>, b: seq<SendEvent>, c: seq<SendEvent>, e: SendEvent)
    requires a <= b <= c
    ensures e in News(a, c) <==> e in News(a, b) || e in News(b, c)
  {
    NewsAppend(a, b, c);
  }

  /** A send that is waited for is confirmed as its first answer says; no other answer confirms anything. */
  lemma {:induction false} AnswersConfirmExactly(q: Queue, answers: seq<(nat, bool)>, id: nat, result: Confirmation)
    requires AllQueued(q)
    ensures var r := CompleteAll(q, answers);
      && q.log <= r.log
      && (Confirmed(id, result) in News(q.log, r.log) <==>
          id in q.outstanding && AnswerFate(answers, id) == Some(result))
    decreases |answers|
  {
    if answers != [] {
      var m := AnswerStep(q, answers, id, result);
      AnswersConfirmExactly(m, answers[1..], id, result);
      InNews(q.log, m.log, CompleteAll(m, answers[1..]).log, Confirmed(id, result));
    }
  }

  // ---------------------------------------------------------------- the pass over the queue

  /** The entry is given to AMQP: it is unsent, can be built and has not timed out. */
  predicate Given(e: EventEntry, timeout: uint64, env: EntryEnv) {
    && e.status == WaitingToBeSent && env.built
    && !(timeout > 0 && Sub64(env.now, e.idleTimer) >= 1000 * (timeout + 1))
  }

  /** How the pass itself confirms it, if it does. */
  function PassFate(e: EventEntry, timeout: uint64, env: EntryEnv): Option<Confirmation> {
    if e.status != WaitingToBeSent then None
    else if !env.built then Some(ConfirmError)
    else if !Given(e, timeout, env) then Some(ConfirmTimeout)
    else
      match env.send
      case Refused => Some(ConfirmError)
      case Pending => None
      case CompletedInside(ok) => Some(if ok then ConfirmOk else ConfirmError)
  }

  lemma EntryConfirmsExactly(e: EventEntry, timeout: uint64, stamp: Stamp, env: EntryEnv, event: SendEvent)
    ensures event.Confirmed? ==>
      (event in EntryLog(e, timeout, stamp, env) <==>
       event.id == e.id && PassFate(e, timeout, env) == Some(event.result))
    ensures event.HandedOver? ==>
      (event in EntryLog(e, timeout, stamp, env) <==>
       event.id == e.id && event.stamp == stamp && Given(e, timeout, env))
  {
    var nullCall := if e.callback then [] else [NullCalled(e.id)];
    var refused := [HandedOver(e.id, stamp)] + nullCall + [Confirmed(e.id, ConfirmError)];
    assert refused[0] == HandedOver(e.id, stamp) && refused[|refused| - 1] == Confirmed(e.id, ConfirmError);
    assert forall r :: (nullCall + [Confirmed(e.id, r)])[|nullCall|] == Confirmed(e.id, r);
  }

  /** Over the whole queue: what a pass confirms, and what it hands over. */
  lemma {:induction false} PassConfirmsExactly(
      es: seq<EventEntry>, timeout: uint64, stamp: Stamp, env: nat -> EntryEnv, event: SendEvent)
    ensures event.Confirmed? ==>
      (event in PassLog(es, timeout, stamp, env) <==>
       exists i ::
         0 <= i < |es| && es[i].id == event.id && PassFate(es[i], timeout, env(event.id)) == Some(event.result))
    ensures event.HandedOver? ==>
      (event in PassLog(es, timeout, stamp, env) <==>
       event.stamp == stamp && exists i ::
         0 <= i < |es| && es[i].id == event.id && Given(es[i], timeout, env(event.id)))
  {
    if es != [] {
      PassConfirmsExactly(es[1..], timeout, stamp, env, event);
      EntryConfirmsExactly(es[0], timeout, stamp, env(es[0].id), event);
      assert forall i :: 0 <= i < |es[1..]| ==> es[1..][i] == es[i + 1];
      assert forall i :: 1 <= i < |es| ==> es[i] == es[1..][i - 1];
    }
  }

  predicate LeftPending(e: EventEntry, timeout: uint64, env: EntryEnv) {
    Given(e, timeout, env) && env.send == Pending
  }

  ghost predicate PendingIn(es: seq<EventEntry>, timeout: uint64, env: nat -> EntryEnv, id: nat) {
    exists i :: 0 <= i < |es| && es[i].id == id && LeftPending(es[i], timeout, env(id))
  }

  lemma PendingCons(es: seq<EventEntry>, timeout: uint64, env: nat -> EntryEnv, id: nat)
    requires es != []
    ensures PendingIn(es, timeout, env, id) <==>
      (es[0].id == id && LeftPending(es[0], timeout, env(id))) || PendingIn(es[1..], timeout, env, id)
  {
    assert forall i :: 0 <= i < |es[1..]| ==> es[1..][i] == es[i + 1];
    assert forall i :: 1 <= i < |es| ==> es[i] == es[1..][i - 1];
  }

  /** The sends waited for after the pass: those before, and the pending ones. */
  lemma {:induction false} WalkWaitsExactly(
      q: Queue, p: nat, timeout: uint64, stamp: Stamp, env: nat -> EntryEnv, id: nat)
    requires p <= |q.entries|
    ensures id in Walk(q, p, timeout, stamp, env).outstanding <==>
      id in q.outstanding || PendingIn(q.entries[p..], timeout, env, id)
    decreases |q.entries| - p
  {
    if p < |q.entries| {
      var e := q.entries[p];
      var (r, n) := WalkStep(q, p, timeout, stamp, env(e.id));
      WalkStepShifts(q, p, timeout, stamp, env(e.id));
      WalkStepSends(q, p, timeout, stamp, env(e.id), id);
      PendingCons(q.entries[p..], timeout, env, id);
      assert q.entries[p..][1..] == q.entries[p + 1..];
      WalkWaitsExactly(r, n, timeout, stamp, env, id);
    }
  }

  lemma WalkStepShifts(q: Queue, p: nat, timeout: uint64, stamp: Stamp, env: EntryEnv)
    requires p < |q.entries|
    ensures var (r, n) := WalkStep(q, p, timeout, stamp, env);
      n <= |r.entries| && |r.entries| - n < |q.entries| - p && r.entries[n..] == q.entries[p + 1..]
  {
    WalkStepTreatsOne(q, p, timeout, stamp, env);
  }

  lemma WalkStepSends(q: Queue, p: nat, timeout: uint64, stamp: Stamp, env: EntryEnv, id: nat)
    requires p < |q.entries|
    ensures var e := q.entries[p];
      id in WalkStep(q, p, timeout, stamp, env).0.outstanding <==>
        id in q.outstanding || (e.id == id && LeftPending(e, timeout, env))
  {
  }

  // ---------------------------------------------------------------- DoWork

  /** The library's answers in this DoWork: by connection work, or while the message sender is destroyed. */
  function AnswersOf(s: Sender, env: DoWorkEnv): seq<(nat, bool)> {
    match CourseOf(s, env)
    case NoStack => []
    case SenderFailed => env.teardown
    case NotAuthorized(_) => env.teardown
    case Waits => env.io.answers
    case GoesOn => if PassSends(s, env) then env.io.answers else []
  }

  /** The fate of a queued entry: how DoWork confirms it, or `None` if it stays queued. */
  function Fate(s: Sender, e: EventEntry, env: DoWorkEnv): Option<Confirmation> {
    if e.status == WaitingForAck then
      if e.id in s.queue.outstanding then AnswerFate(AnswersOf(s, env), e.id) else None
    else if !PassSends(s, env) then None
    else if LeftPending(e, s.msgTimeout, env.entry(e.id)) then AnswerFate(AnswersOf(s, env), e.id)
    else PassFate(e, s.msgTimeout, env.entry(e.id))
  }

  /** What DoWork makes of the queue. */
  ghost predicate QueueLeft(s: Sender, env: DoWorkEnv, q: Queue) {
    if PassSends(s, env) then
      exists stamp :: q == CompleteAll(Walk(s.queue, 0, s.msgTimeout, stamp, env.entry), AnswersOf(s, env))
    else Alike(q, CompleteAll(s.queue, AnswersOf(s, env)))
  }

  /** The same queue, but for the sends that are waited for. */
  predicate Alike(q: Queue, r: Queue) {
    q.(outstanding := {}) == r.(outstanding := {})
  }

  lemma ConnectionQueue(a: Sender, io: IoEnv)
    ensures ConnectionWork(a, io).queue == CompleteAll(a.queue, io.answers)
  {
    ConnectionWorkQueue(a, io);
  }

  lemma SendPassQueue(a: Sender, checkedAt: uint64, env: DoWorkEnv)
    ensures var t := SendPass(a, checkedAt, env);
      if a.senderState == SenderIdle && !env.openOk then t.queue == a.queue
      else exists stamp :: t.queue == CompleteAll(Walk(a.queue, 0, a.msgTimeout, stamp, env.entry), env.io.answers)
  {
    StatesChangedOnly(OpenCalled(a), env.openChanges);
    var r := if a.senderState == SenderIdle then StatesChanged(OpenCalled(a), env.openChanges) else a;
    ConnectionQueue(Passed(r, checkedAt, env.entry), env.io);
    assert Passed(r, checkedAt, env.entry).queue == Walk(a.queue, 0, a.msgTimeout, StampOf(r, checkedAt), env.entry);
  }

  lemma DownQueue(u: Sender, answers: seq<(nat, bool)>)
    requires u.stack.h.endpoint == None ==> u.queue.outstanding == {}
    ensures Alike(Down(u, answers).queue, CompleteAll(u.queue, answers))
  {
    if u.stack.h.endpoint == None {
      NothingAnswered(u.queue, answers);
    }
  }

  lemma {:induction false} NothingAnswered(q: Queue, answers: seq<(nat, bool)>)
    requires q.outstanding == {}
    ensures CompleteAll(q, answers) == q
    decreases |answers|
  {
    if answers != [] {
      NothingAnswered(q, answers[1..]);
    }
  }

  lemma GivesUpQueue(s: Sender, env: DoWorkEnv)
    requires SenderInv(s) && CourseOf(s, env) !in {Waits, GoesOn}
    ensures QueueLeft(s, env, DoWork(s, env).queue)
  {
    DoWorkGivesUp(s, env);
    if UpWhen(s, env) {
      BegunFrame(s, env);
      UpExactly(s, env);
      UpEndpoint(s, env);
      DownQueue(Up(s, env).0, env.teardown);
      DownQueue(Begun(s, env), env.teardown);
    } else {
      NoStackQueue(s, env);
    }
  }

  /** A message sender is there whenever sends may be waited for. */
  lemma UpEndpoint(s: Sender, env: DoWorkEnv)
    requires SenderInv(s) && UpWhen(s, env)
    ensures Up(s, env).0.stack.h.endpoint == None ==> s.queue.outstanding == {}
    ensures Begun(s, env).stack.h == Up(s, env).0.stack.h
  {
    UpExactly(s, env);
    if s.amqp == Initialized {
      assert s.stack.h.Order()[7] == s.stack.h.endpoint;
    }
  }

  lemma NoStackQueue(s: Sender, env: DoWorkEnv)
    requires SenderInv(s) && !UpWhen(s, env)
    ensures Alike(DoWork(s, env).queue, s.queue)
  {
    DoWorkGivesUp(s, env);
    NothingAnswered(s.queue, env.teardown);
    UpExactly(s, env);
    if s.amqp == Uninitialized {
      RaisedCommonExactly(s, env.common);
    } else {
      RaisedEndpointExactly(s, env.endpoint);
    }
  }

  lemma GoesOnQueue(s: Sender, env: DoWorkEnv)
    requires SenderInv(s) && CourseOf(s, env) in {Waits, GoesOn}
    ensures QueueLeft(s, env, DoWork(s, env).queue)
  {
    DoWorkGoesOn(s, env);
    BegunFrame(s, env);
    QueueFrom(s, Begun(s, env), DoWork(s, env), env);
  }

  lemma QueueFrom(s: Sender, a: Sender, t: Sender, env: DoWorkEnv)
    requires CourseOf(s, env) in {Waits, GoesOn} && GoesOnFrom(s, a, t, env)
    requires a.queue == s.queue && a.msgTimeout == s.msgTimeout
    requires a.senderState == (if s.amqp == Uninitialized then SenderIdle else s.senderState)
    ensures QueueLeft(s, env, t.queue)
  {
    ConnectionQueue(a, env.io);
    if CourseOf(s, env) == GoesOn && UpState(s.amqp) == Initialized {
      var checkedAt :| t == SendPass(a, checkedAt, env);
      SendPassQueue(a, checkedAt, env);
    }
  }

  /** After the pass over the queue. */
  lemma WalkFates(s: Sender, stamp: Stamp, env: DoWorkEnv, i: nat, result: Confirmation)
    requires QueueInv(s.queue) && PassSends(s, env) && i < |s.queue.entries|
    ensures var e, q := s.queue.entries[i], Walk(s.queue, 0, s.msgTimeout, stamp, env.entry);
      && s.queue.log <= q.log && AllQueued(q)
      && (Confirmed(e.id, result) in News(s.queue.log, q.log) <==>
          PassFate(e, s.msgTimeout, env.entry(e.id)) == Some(result))
      && (e.id in q.outstanding <==> e.id in s.queue.outstanding || LeftPending(e, s.msgTimeout, env.entry(e.id)))
  {
    var e, es := s.queue.entries[i], s.queue.entries;
    var q := Walk(s.queue, 0, s.msgTimeout, stamp, env.entry);
    assert es[0..] == es;
    WalkKeeps(s.queue, 0, s.msgTimeout, stamp, env.entry);
    WalkIsAFilter(s.queue, 0, s.msgTimeout, stamp, env.entry);
    WalkWaitsExactly(s.queue, 0, s.msgTimeout, stamp, env.entry, e.id);
    assert News(s.queue.log, q.log) == PassLog(es, s.msgTimeout, stamp, env.entry);
    PassConfirmsExactly(es, s.msgTimeout, stamp, env.entry, Confirmed(e.id, result));
    OnlyEntry(s.queue, i);
    OutstandingAllQueued(q);
  }

  lemma OnlyEntry(q: Queue, i: nat)
    requires Ordered(q) && i < |q.entries|
    ensures forall j :: 0 <= j < |q.entries| && q.entries[j].id == q.entries[i].id ==> j == i
  {
  }

  lemma OutstandingAllQueued(q: Queue)
    requires OutstandingQueued(q)
    ensures AllQueued(q)
  {
  }

  lemma OutstandingWaits(q: Queue, i: nat)
    requires Ordered(q) && OutstandingQueued(q) && i < |q.entries| && q.entries[i].id in q.outstanding
    ensures q.entries[i].status == WaitingForAck
  {
    OnlyEntry(q, i);
  }

  /** Every queued entry meets exactly its fate. */
  lemma DoWorkConfirmsExactly(s: Sender, env: DoWorkEnv, i: nat, result: Confirmation)
    requires SenderInv(s) && i < |s.queue.entries|
    ensures s.queue.log <= DoWork(s, env).queue.log
    ensures var e := s.queue.entries[i];
      Confirmed(e.id, result) in News(s.queue.log, DoWork(s, env).queue.log) <==> Fate(s, e, env) == Some(result)
  {
    if CourseOf(s, env) in {Waits, GoesOn} {
      GoesOnQueue(s, env);
    } else {
      GivesUpQueue(s, env);
    }
    LeftMeetsFate(s, env, DoWork(s, env).queue, i, result);
  }

  lemma LeftMeetsFate(s: Sender, env: DoWorkEnv, q: Queue, i: nat, result: Confirmation)
    requires QueueInv(s.queue) && QueueLeft(s, env, q) && i < |s.queue.entries|
    ensures s.queue.log <= q.log
    ensures var e := s.queue.entries[i];
      Confirmed(e.id, result) in News(s.queue.log, q.log) <==> Fate(s, e, env) == Some(result)
  {
    var id := s.queue.entries[i].id;
    if id in s.queue.outstanding {
      OutstandingWaits(s.queue, i);
    }
    if PassSends(s, env) {
      var stamp :| q == CompleteAll(Walk(s.queue, 0, s.msgTimeout, stamp, env.entry), AnswersOf(s, env));
      var m := Walk(s.queue, 0, s.msgTimeout, stamp, env.entry);
      WalkFates(s, stamp, env, i, result);
      AnswersConfirmExactly(m, AnswersOf(s, env), id, result);
      InNews(s.queue.log, m.log, q.log, Confirmed(id, result));
    } else {
      OutstandingAllQueued(s.queue);
      AnswersConfirmExactly(s.queue, AnswersOf(s, env), id, result);
    }
  }

  /** It stays queued exactly if it is not to be confirmed. */
  lemma DoWorkKeepsQueuedExactly(s: Sender, env: DoWorkEnv, i: nat)
    requires SenderInv(s) && i < |s.queue.entries|
    ensures var e := s.queue.entries[i]; InQueue(DoWork(s, env).queue.entries, e.id) <==> Fate(s, e, env) == None
  {
    var e, t := s.queue.entries[i], DoWork(s, env);
    DoWorkKeeps(s, env);
    DoWorkKeepsNext(s, env);
    DoWorkLogsFor(s, env);
    forall result
      ensures Confirmed(e.id, result) in News(s.queue.log, t.queue.log) <==> Fate(s, e, env) == Some(result)
    {
      DoWorkConfirmsExactly(s, env, i, result);
    }
    QueuedUnlessConfirmed(s.queue, t.queue, e.id);
  }

  lemma QueuedUnlessConfirmed(q: Queue, r: Queue, id: nat)
    requires QueueInv(q) && QueueInv(r) && q.log <= r.log && q.next == r.next && InQueue(q.entries, id)
    ensures InQueue(r.entries, id) <==> forall result :: Confirmed(id, result) !in News(q.log, r.log)
  {
    InQueueBelowNext(q, id);
    if result :| Confirmed(id, result) in News(q.log, r.log) {
      CountedIfConfirmed(q.log, r.log, id, result);
    } else {
      NotCountedUnlessConfirmed(q.log, r.log, id);
    }
  }

  lemma {:induction false} CountedIfConfirmed(a: seq<SendEvent>, b: seq<SendEvent>, id: nat, result: Confirmation)
    requires a <= b && Confirmed(id, result) in News(a, b)
    ensures Confirmations(b, id) > 0
    decreases |b|
  {
    var n := |b| - 1;
    if b[n] != Confirmed(id, result) {
      assert b[..n][|a|..] == News(a, b)[..n - |a|];
      CountedIfConfirmed(a, b[..n], id, result);
    }
  }

  lemma {:induction false} NotCountedUnlessConfirmed(a: seq<SendEvent>, b: seq<SendEvent>, id: nat)
    requires a <= b && forall result :: Confirmed(id, result) !in News(a, b)
    ensures Confirmations(b, id) == Confirmations(a, id)
    decreases |b|
  {
    if |a| == |b| {
      assert a == b;
    } else {
      var n := |b| - 1;
      assert News(a, b)[n - |a|] == b[n];
      assert b[..n][|a|..] == News(a, b)[..n - |a|];
      NotCountedUnlessConfirmed(a, b[..n], id);
    }
  }

  /** It is handed over exactly if the pass over the queue is reached, and it is unsent, can be built and in time. */
  lemma DoWorkHandsOverExactly(s: Sender, env: DoWorkEnv, i: nat)
    requires SenderInv(s) && i < |s.queue.entries|
    ensures s.queue.log <= DoWork(s, env).queue.log
    ensures var e := s.queue.entries[i];
      (exists stamp :: HandedOver(e.id, stamp) in News(s.queue.log, DoWork(s, env).queue.log)) <==>
        PassSends(s, env) && Given(e, s.msgTimeout, env.entry(e.id))
  {
    if CourseOf(s, env) in {Waits, GoesOn} {
      GoesOnQueue(s, env);
    } else {
      GivesUpQueue(s, env);
    }
    LeftHandedOver(s, env, DoWork(s, env).queue, i);
  }

  lemma LeftHandedOver(s: Sender, env: DoWorkEnv, q: Queue, i: nat)
    requires QueueInv(s.queue) && QueueLeft(s, env, q) && i < |s.queue.entries|
    ensures s.queue.log <= q.log
    ensures var e := s.queue.entries[i];
      (exists stamp :: HandedOver(e.id, stamp) in News(s.queue.log, q.log)) <==>
        PassSends(s, env) && Given(e, s.msgTimeout, env.entry(e.id))
  {
    var e, log := s.queue.entries[i], s.queue.log;
    if PassSends(s, env) {
      var stamp :| q == CompleteAll(Walk(s.queue, 0, s.msgTimeout, stamp, env.entry), AnswersOf(s, env));
      var m := Walk(s.queue, 0, s.msgTimeout, stamp, env.entry);
      WalkFates(s, stamp, env, i, ConfirmOk);
      AnswersNews(m, AnswersOf(s, env));
      forall other
        ensures HandedOver(e.id, other) in News(log, q.log) <==> HandedOver(e.id, other) in News(log, m.log)
      {
        InNews(log, m.log, q.log, HandedOver(e.id, other));
      }
      WalkHandsOver(s, stamp, env, i);
    } else {
      AnswersNews(s.queue, AnswersOf(s, env));
    }
  }

  lemma WalkHandsOver(s: Sender, stamp: Stamp, env: DoWorkEnv, i: nat)
    requires QueueInv(s.queue) && i < |s.queue.entries|
    ensures var e, q := s.queue.entries[i], Walk(s.queue, 0, s.msgTimeout, stamp, env.entry);
      && s.queue.log <= q.log
      && (forall other :: HandedOver(e.id, other) in News(s.queue.log, q.log) ==>
            Given(e, s.msgTimeout, env.entry(e.id)))
      && (Given(e, s.msgTimeout, env.entry(e.id)) ==> HandedOver(e.id, stamp) in News(s.queue.log, q.log))
  {
    var e, es := s.queue.entries[i], s.queue.entries;
    var q := Walk(s.queue, 0, s.msgTimeout, stamp, env.entry);
    assert es[0..] == es;
    WalkIsAFilter(s.queue, 0, s.msgTimeout, stamp, env.entry);
    assert News(s.queue.log, q.log) == PassLog(es, s.msgTimeout, stamp, env.entry);
    OnlyEntry(s.queue, i);
    forall other
      ensures HandedOver(e.id, other) in News(s.queue.log, q.log) <==>
        other == stamp && Given(e, s.msgTimeout, env.entry(e.id))
    {
      PassConfirmsExactly(es, s.msgTimeout, stamp, env.entry, HandedOver(e.id, other));
    }
  }

  /** What stays queued is as it was, but for being marked as sent. */
  lemma DoWorkKeepsEntries(s: Sender, env: DoWorkEnv, e: EventEntry)
    requires SenderInv(s) && e in DoWork(s, env).queue.entries
    ensures exists i :: 0 <= i < |s.queue.entries| && e == s.queue.entries[i].(status := e.status)
  {
    if CourseOf(s, env) in {Waits, GoesOn} {
      GoesOnQueue(s, env);
    } else {
      GivesUpQueue(s, env);
    }
    LeftKeepsEntries(s, env, DoWork(s, env).queue, e);
  }

  lemma LeftKeepsEntries(s: Sender, env: DoWorkEnv, q: Queue, e: EventEntry)
    requires QueueLeft(s, env, q) && e in q.entries
    ensures exists i :: 0 <= i < |s.queue.entries| && e == s.queue.entries[i].(status := e.status)
  {
    var es := s.queue.entries;
    if PassSends(s, env) {
      var stamp :| q == CompleteAll(Walk(s.queue, 0, s.msgTimeout, stamp, env.entry), AnswersOf(s, env));
      AnswersNews(Walk(s.queue, 0, s.msgTimeout, stamp, env.entry), AnswersOf(s, env));
      WalkIsAFilter(s.queue, 0, s.msgTimeout, stamp, env.entry);
      assert es[0..] == es;
      SurvivorsAreEntries(es, s.msgTimeout, env.entry, e);
    } else {
      AnswersNews(s.queue, AnswersOf(s, env));
      var i :| 0 <= i < |es| && es[i] == e;
      assert e == es[i].(status := e.status);
    }
  }

  lemma {:induction false} SurvivorsAreEntries(
      es: seq<EventEntry>, timeout: uint64, env: nat -> EntryEnv, e: EventEntry)
    requires e in Survivors(es, timeout, env)
    ensures exists i :: 0 <= i < |es| && e == es[i].(status := e.status)
  {
    if e in Remains(es[0], timeout, env(es[0].id)) {
      assert e == es[0].(status := e.status);
    } else {
      SurvivorsAreEntries(es[1..], timeout, env, e);
      var i :| 0 <= i < |es[1..]| && e == es[1..][i].(status := e.status);
      assert es[i + 1] == es[1..][i];
    }
  }

  // ---------------------------------------------------------------- Destroy

  /** Destroy confirms what the library still answers as it says, and all else DESTROY. */
  function DestroyFate(s: Sender, e: EventEntry, answers: seq<(nat, bool)>): Confirmation {
    if e.id in s.queue.outstanding && FirstAnswer(answers, e.id).Some? then
      if FirstAnswer(answers, e.id).value then ConfirmOk else ConfirmError
    else ConfirmDestroy
  }

  lemma {:induction false} DestroyAllExactly(q: Queue, id: nat, result: Confirmation)
    ensures q.log <= DestroyAll(q).log
    ensures Confirmed(id, result) in News(q.log, DestroyAll(q).log) <==>
      InQueue(q.entries, id) && result == ConfirmDestroy
    decreases |q.entries|
  {
    if q.entries != [] {
      var m := Finish(q, 0, ConfirmDestroy, true);
      assert m.entries == q.entries[1..];
      assert m.log == q.log + [Confirmed(q.entries[0].id, ConfirmDestroy)];
      assert forall i :: 0 <= i < |m.entries| ==> m.entries[i] == q.entries[i + 1];
      assert forall i :: 1 <= i < |q.entries| ==> q.entries[i] == m.entries[i - 1];
      DestroyAllExactly(m, id, result);
      InNews(q.log, m.log, DestroyAll(q).log, Confirmed(id, result));
    }
  }

  lemma DestroyConfirmsExactly(s: Sender, answers: seq<(nat, bool)>, i: nat, result: Confirmation)
    requires SenderInv(s) && i < |s.queue.entries|
    ensures var e, t := s.queue.entries[i], Destroyed(s, answers);
      && s.queue.log <= t.queue.log
      && (Confirmed(e.id, result) in News(s.queue.log, t.queue.log) <==> result == DestroyFate(s, e, answers))
  {
    var e, d := s.queue.entries[i], Down(s, answers);
    DownLeaves(s, answers);
    assert InQueue(s.queue.entries, e.id);
    forall r
      ensures Confirmed(e.id, r) in News(s.queue.log, d.queue.log) <==>
        e.id in s.queue.outstanding && AnswerFate(answers, e.id) == Some(r)
    {
      AnswersConfirmExactly(s.queue, answers, e.id, r);
    }
    QueuedUnlessConfirmed(s.queue, d.queue, e.id);
    DestroyAllExactly(d.queue, e.id, result);
    InNews(s.queue.log, d.queue.log, DestroyAll(d.queue).log, Confirmed(e.id, result));
  }

  lemma DownLeaves(s: Sender, answers: seq<(nat, bool)>)
    requires SenderInv(s)
    ensures var q := Down(s, answers).queue;
      && QueueInv(q) && q.next == s.queue.next && q.log == CompleteAll(s.queue, answers).log
      && s.queue.log <= q.log && AllQueued(s.queue)
  {
    DownKeeps(s, answers, Stage(s.amqp));
    AnswersKeepNext(s.queue, answers);
    AnswersNews(s.queue, answers);
    OutstandingAllQueued(s.queue);
    if s.amqp == Initialized {
      assert s.stack.h.Order()[7] == s.stack.h.endpoint;
    }
    DownQueue(s, answers);
  }
}
