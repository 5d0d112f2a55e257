/** From every reachable state each entry that may still be confirmed OK can be, before anything else is confirmed. */
module SenderPaths {
  import opened Common
  import opened EventHubAuth
  import opened TokenLifecycle
  import opened AmqpStack
  import opened SendQueue
  import opened SendQueueInvariant
  import opened SenderSpec
  import opened SenderInvariant
  import opened SenderLogs
  import opened ClientThreadInvariant

  // ---------------------------------------------------------------- a pass that confirms one entry

  const ENDPOINT_FAILS := EndpointEnv(false, false, false, false, false, false)
  const NO_CLOCK := PutEnv(None, false, false)

  function IdleOf(es: seq<EventEntry>, id: nat): uint64 {
    var i := Find(es, id);
    if i < |es| then es[i].idleTimer else 0
  }

  /** No entry of `es` times out; `id` completes while it is being sent, every other entry stays pending. */
  function Choice(es: seq<EventEntry>, id: nat): nat -> EntryEnv {
    (k: nat) => EntryEnv(true, IdleOf(es, k), if k == id then CompletedInside(true) else Pending)
  }

  /** `b` continues `a`, and confirms and answers nothing but entry `id`, with OK. */
  predicate OnlyOk(a: seq<SendEvent>, b: seq<SendEvent>, id: nat) {
    a <= b && forall i :: |a| <= i < |b| ==> OkOf(b[i], id)
  }

  predicate OkOf(e: SendEvent, id: nat) {
    (e.Confirmed? ==> e == Confirmed(id, ConfirmOk)) && (e.AmqpDone? ==> e == AmqpDone(id, true))
  }

  lemma FindDistinct(es: seq<EventEntry>, i: nat)
    requires i < |es| && forall j :: 0 <= j < |es| && j != i ==> es[j].id != es[i].id
    ensures Find(es, es[i].id) == i
  {
  }

  lemma IdleOfQueued(q: Queue, i: nat)
    requires Ordered(q) && i < |q.entries|
    ensures IdleOf(q.entries, q.entries[i].id) == q.entries[i].idleTimer
  {
    FindDistinct(q.entries, i);
  }

  lemma {:induction false} PassOnlyOk(es: seq<EventEntry>, timeout: uint64, stamp: Stamp, all: seq<EventEntry>, id: nat)
    requires forall i :: 0 <= i < |es| ==> IdleOf(all, es[i].id) == es[i].idleTimer
    ensures forall e :: e in PassLog(es, timeout, stamp, Choice(all, id)) ==> OkOf(e, id)
    ensures WaitsToBeSent(es, id) ==> Confirmed(id, ConfirmOk) in PassLog(es, timeout, stamp, Choice(all, id))
  {
    if es != [] {
      PassOnlyOk(es[1..], timeout, stamp, all, id);
      var log := EntryLog(es[0], timeout, stamp, Choice(all, id)(es[0].id));
      assert forall e :: e in log ==> OkOf(e, id);
      if es[0].id == id && es[0].status == WaitingToBeSent {
        assert log[2] == Confirmed(id, ConfirmOk);
      } else if WaitsToBeSent(es, id) {
        var i :| 0 <= i < |es| && es[i].id == id && es[i].status == WaitingToBeSent;
        assert es[1..][i - 1] == es[i];
      }
    }
  }

  lemma WalkOnlyOk(q: Queue, timeout: uint64, stamp: Stamp, id: nat)
    requires QueueInv(q)
    ensures var r := Walk(q, 0, timeout, stamp, Choice(q.entries, id));
      && QueueInv(r) && OnlyOk(q.log, r.log, id) && q.outstanding <= r.outstanding
      && (WaitsToBeSent(q.entries, id) ==> Confirmed(id, ConfirmOk) in News(q.log, r.log))
  {
    var env := Choice(q.entries, id);
    assert q.entries[0..] == q.entries;
    WalkKeeps(q, 0, timeout, stamp, env);
    WalkIsAFilter(q, 0, timeout, stamp, env);
    WalkKeepsOutstanding(q, 0, timeout, stamp, env);
    forall i | 0 <= i < |q.entries|
      ensures IdleOf(q.entries, q.entries[i].id) == q.entries[i].idleTimer
    {
      IdleOfQueued(q, i);
    }
    PassOnlyOk(q.entries, timeout, stamp, q.entries, id);
  }

  lemma {:induction false} WalkKeepsOutstanding(q: Queue, p: nat, timeout: uint64, stamp: Stamp, env: nat -> EntryEnv)
    ensures q.outstanding <= Walk(q, p, timeout, stamp, env).outstanding
    decreases |q.entries| - p
  {
    if p < |q.entries| {
      var (r, n) := WalkStep(q, p, timeout, stamp, env(q.entries[p].id));
      WalkStepTreatsOne(q, p, timeout, stamp, env(q.entries[p].id));
      WalkKeepsOutstanding(r, n, timeout, stamp, env);
    }
  }

  /** The library answers nothing, or entry `id`. */
  predicate AnswersAtMost(q: Queue, answers: seq<(nat, bool)>, id: nat) {
    answers == [] || (answers == [(id, true)] && id in q.outstanding)
  }

  lemma AnswersOnlyOk(q: Queue, answers: seq<(nat, bool)>, id: nat)
    requires QueueInv(q) && AnswersAtMost(q, answers, id)
    ensures var r := CompleteAll(q, answers);
      && OnlyOk(q.log, r.log, id)
      && (answers != [] ==> Confirmed(id, ConfirmOk) in News(q.log, r.log))
      && (answers == [] ==> r == q)
  {
    if answers != [] {
      var i :| 0 <= i < |q.entries| && q.entries[i].id == id && q.entries[i].status == WaitingForAck;
      FindDistinct(q.entries, i);
      var r := Complete(q, id, true);
      assert CompleteAll(q, answers) == CompleteAll(r, answers[1..]) == r;
      assert r.log == q.log + [AmqpDone(id, true)] + [Confirmed(id, ConfirmOk)];
      assert r.log[|q.log| + 1] == Confirmed(id, ConfirmOk);
    }
  }

  // ---------------------------------------------------------------- passes that tear down, or send

  /** The clock cannot be read, the endpoint not be made; what is answered or sent meanwhile is entry `id`. */
  function ResetEnv(s: Sender, id: nat, answers: seq<(nat, bool)>): DoWorkEnv {
    DoWorkEnv(ALL_BUILT, ENDPOINT_FAILS, AuthEnv(None, RefreshEnv(None, NO_CLOCK), NO_CLOCK), true, [],
              Choice(s.queue.entries, id), IoEnv(answers, None, []), answers)
  }

  /** Without a clock the authorization pass fails, unless a user's own token is in force and none is to replace it. */
  lemma PassWithoutClock(a: Auth, pending: Option<string>)
    requires Settled(a)
    ensures var p := AuthPass(a, pending, AuthEnv(None, RefreshEnv(None, NO_CLOCK), NO_CLOCK));
      && p.verdict in {AuthFailed, AuthReady}
      && (p.verdict == AuthReady ==> p == Pass(a, AuthReady, true, false, 0))
  {
  }

  /** How such a pass ends: torn down; one state further; or with the queue sent and answered. */
  ghost predicate ResetTo(s: Sender, t: Sender, id: nat, answers: seq<(nat, bool)>) {
    if t.amqp == Uninitialized then
      t.queue == if s.amqp == Initialized then Abandon(s.queue, answers) else s.queue
    else if s.amqp == Initialized then
      && t.amqp == Initialized
      && exists stamp ::
        t.queue == CompleteAll(Walk(s.queue, 0, s.msgTimeout, stamp, Choice(s.queue.entries, id)), answers)
    else s.amqp == PendingAuthorization && t.amqp == PendingEndpointCreate && t.queue == s.queue
  }

  lemma ResetPass(s: Sender, id: nat, answers: seq<(nat, bool)>)
    requires SenderInv(s) && s.amqp != Uninitialized
    ensures ResetTo(s, DoWork(s, ResetEnv(s, id, answers)), id, answers)
  {
    var env := ResetEnv(s, id, answers);
    assert s.stack.h.Order()[7] == s.stack.h.endpoint;
    if s.amqp == PendingEndpointCreate {
      assert EndpointBuilt(s.stack, ENDPOINT_FAILS.(open := true)) == (s.stack, false);
    } else if s.senderState != SenderError {
      ResetWork(s, id, answers);
    }
  }

  lemma ResetWork(s: Sender, id: nat, answers: seq<(nat, bool)>)
    requires SenderInv(s) && s.amqp in {PendingAuthorization, Initialized}
    ensures ResetTo(s, AuthorizedWork(s, ResetEnv(s, id, answers)), id, answers)
  {
    var env := ResetEnv(s, id, answers);
    assert s.stack.h.Order()[7] == s.stack.h.endpoint;
    PassWithoutClock(s.stack.auth.value, s.refreshToken);
    var (a, verdict, checkedAt) := AuthorizeSender(s, env.auth);
    if verdict == AuthReady && a.amqp == Initialized {
      StatesChangedOnly(OpenCalled(a), env.openChanges);
      var r := if a.senderState == SenderIdle then OpenCalled(a) else a;
      ConnectionWorkQueue(Passed(r, checkedAt, env.entry), env.io);
      assert SendPass(a, checkedAt, env) == ConnectionWork(Passed(r, checkedAt, env.entry), env.io);
      var t := AuthorizedWork(s, env);
      assert t.queue ==
        CompleteAll(Walk(s.queue, 0, s.msgTimeout, StampOf(r, checkedAt), Choice(s.queue.entries, id)), answers);
      StatesChangedOnly(Answered(Passed(r, checkedAt, env.entry), env.io), env.io.changes);
    }
  }

  // ---------------------------------------------------------------- bring-up

  /** A reading at which the client's token, minted or its own, is accepted and in force. */
  function GoodClock(ext: Option<ExtConfig>): uint64 {
    if ext == None then 0 else ext.value.expiry
  }

  function WorkEnv(s: Sender, id: nat): DoWorkEnv {
    var now := Some(GoodClock(s.ext));
    DoWorkEnv(ALL_BUILT, ENDPOINT_BUILT, AuthEnv(now, RefreshEnv(None, NO_CLOCK), PutEnv(now, true, true)), true, [],
              Choice(s.queue.entries, id), IoEnv([], Some(true), []), [])
  }

  /** The token has been put, and is in force at the good reading. */
  predicate TokenPut(a: Auth, clock: uint64) {
    && a.status == Ok && a.puts == [] && ConfigOk(a.cfg)
    && (a.cfg.credential == SasTokenAuto ==> a.created == clock)
  }

  lemma AuthenticatedIsPut(cfg: AuthConfig, clock: uint64)
    requires ConfigOk(cfg) && (cfg.credential == SasTokenExt ==> clock == cfg.extExpiry)
    ensures var (a, result) := Authenticated(Created(cfg), PutEnv(Some(clock), true, true));
      result == ResultOk && a.puts != [] && TokenPut(PutCompleted(a, true), clock)
  {
  }

  lemma FirstUp(s: Sender, id: nat)
    requires SenderInv(s) && s.amqp == Uninitialized && Usable(s.ext)
    ensures var (u, ok) := Up(s, WorkEnv(s, id));
      && ok && u == s.(stack := u.stack, senderState := SenderIdle, amqp := PendingAuthorization)
      && u.stack.auth == Some(Created(AuthConfigOf(s)))
  {
  }

  lemma FirstPass(s: Sender, id: nat)
    requires SenderInv(s) && s.amqp == Uninitialized && Usable(s.ext)
    ensures var t := DoWork(s, WorkEnv(s, id));
      && t.amqp == PendingAuthorization && t.senderState == SenderIdle && t.queue == s.queue && t.ext == s.ext
      && t.msgTimeout == s.msgTimeout && t.stack.auth.Some? && TokenPut(t.stack.auth.value, GoodClock(s.ext))
  {
    FirstUp(s, id);
    FirstPut(Up(s, WorkEnv(s, id)).0, s, id);
  }

  lemma FirstPut(u: Sender, s: Sender, id: nat)
    requires u == s.(stack := u.stack, senderState := SenderIdle, amqp := PendingAuthorization) && Usable(s.ext)
    requires u.stack.auth == Some(Created(AuthConfigOf(s)))
    ensures var t := AuthorizedWork(u, WorkEnv(s, id));
      && t == u.(stack := t.stack)
      && t.stack.auth.Some? && TokenPut(t.stack.auth.value, GoodClock(s.ext))
  {
    var env := WorkEnv(s, id);
    AuthenticatedIsPut(AuthConfigOf(s), GoodClock(s.ext));
    var (a, verdict, _) := AuthorizeSender(u, env.auth);
    assert verdict == AuthWaiting;
    assert AuthorizedWork(u, env) == ConnectionWork(a, env.io) == Answered(a, env.io);
  }

  lemma PassWithToken(a: Auth, clock: uint64, put: PutEnv)
    requires TokenPut(a, clock)
    ensures AuthPass(a, None, AuthEnv(Some(clock), RefreshEnv(None, NO_CLOCK), put)) ==
      Pass(a, AuthReady, true, false, clock)
  {
  }

  lemma SecondPass(s: Sender, id: nat)
    requires SenderInv(s) && s.amqp == PendingAuthorization && s.senderState == SenderIdle
    requires TokenPut(s.stack.auth.value, GoodClock(s.ext))
    ensures var t := DoWork(s, WorkEnv(s, id));
      && t == s.(amqp := PendingEndpointCreate, stack := t.stack) && t.stack.auth == s.stack.auth
  {
    var env := WorkEnv(s, id);
    PassWithToken(s.stack.auth.value, GoodClock(s.ext), env.auth.put);
    assert Up(s, env) == (s, true);
    assert AuthorizedWork(s, env) == AuthorizeSender(s, env.auth).0;
  }

  lemma ThirdPass(s: Sender, id: nat) returns (stamp: Stamp)
    requires SenderInv(s) && s.amqp == PendingEndpointCreate && s.senderState == SenderIdle
    requires TokenPut(s.stack.auth.value, GoodClock(s.ext))
    ensures DoWork(s, WorkEnv(s, id)).queue == Walk(s.queue, 0, s.msgTimeout, stamp, Choice(s.queue.entries, id))
  {
    var env := WorkEnv(s, id);
    var u := Up(s, env).0;
    assert Up(s, env).1 && u == s.(stack := u.stack, amqp := Initialized) && u.stack.auth == s.stack.auth;
    PassWithToken(s.stack.auth.value, GoodClock(s.ext), env.auth.put);
    var (a, verdict, checkedAt) := AuthorizeSender(u, env.auth);
    assert verdict == AuthReady && a == u.(stack := a.stack);
    stamp := StampOf(OpenCalled(a), checkedAt);
    assert AuthorizedWork(u, env) == ConnectionWork(Passed(OpenCalled(a), checkedAt, env.entry), env.io);
    ConnectionWorkQueue(Passed(OpenCalled(a), checkedAt, env.entry), env.io);
  }

  // ---------------------------------------------------------------- the sequence of passes

  function Works(s: Sender, envs: seq<DoWorkEnv>): Sender
    decreases |envs|
  {
    if envs == [] then s else Works(DoWork(s, envs[0]), envs[1..])
  }

  ghost predicate Confirms(s: Sender, envs: seq<DoWorkEnv>, id: nat) {
    var a, b := s.queue.log, Works(s, envs).queue.log;
    OnlyOk(a, b, id) && Confirmed(id, ConfirmOk) in News(a, b)
  }

  /** A quiet pass before a sequence that confirms. */
  lemma ConfirmsLater(s: Sender, env: DoWorkEnv, envs: seq<DoWorkEnv>, id: nat)
    requires DoWork(s, env).queue.log == s.queue.log && Confirms(DoWork(s, env), envs, id)
    ensures Confirms(s, [env] + envs, id)
  {
    assert ([env] + envs)[1..] == envs;
  }

  lemma ConfirmsNow(s: Sender, env: DoWorkEnv, id: nat)
    requires OnlyOk(s.queue.log, DoWork(s, env).queue.log, id)
    requires Confirmed(id, ConfirmOk) in News(s.queue.log, DoWork(s, env).queue.log)
    ensures Confirms(s, [env], id)
  {
    assert Works(s, [env]) == Works(DoWork(s, env), []);
  }

  lemma BringUpConfirms(s: Sender, id: nat) returns (envs: seq<DoWorkEnv>)
    requires SenderInv(s) && s.amqp == Uninitialized && Usable(s.ext) && WaitsToBeSent(s.queue.entries, id)
    ensures Confirms(s, envs, id)
  {
    FirstPass(s, id);
    DoWorkKeeps(s, WorkEnv(s, id));
    var s1 := DoWork(s, WorkEnv(s, id));
    SecondPass(s1, id);
    DoWorkKeeps(s1, WorkEnv(s1, id));
    var s2 := DoWork(s1, WorkEnv(s1, id));
    var stamp := ThirdPass(s2, id);
    WalkOnlyOk(s2.queue, s2.msgTimeout, stamp, id);
    ConfirmsNow(s2, WorkEnv(s2, id), id);
    ConfirmsLater(s1, WorkEnv(s1, id), [WorkEnv(s2, id)], id);
    envs := [WorkEnv(s, id)] + ([WorkEnv(s1, id)] + [WorkEnv(s2, id)]);
    ConfirmsLater(s, WorkEnv(s, id), [WorkEnv(s1, id)] + [WorkEnv(s2, id)], id);
  }

  lemma OnlyOkTrans(a: seq<SendEvent>, b: seq<SendEvent>, c: seq<SendEvent>, id: nat)
    requires OnlyOk(a, b, id) && OnlyOk(b, c, id)
    ensures OnlyOk(a, c, id) && News(a, c) == News(a, b) + News(b, c)
  {
  }

  /** The pass that sends the queue, and then answers. */
  lemma SentConfirms(s: Sender, stamp: Stamp, id: nat, answers: seq<(nat, bool)>)
    requires QueueInv(s.queue) && AnswersAtMost(s.queue, answers, id)
    requires answers != [] || WaitsToBeSent(s.queue.entries, id)
    ensures var r := CompleteAll(Walk(s.queue, 0, s.msgTimeout, stamp, Choice(s.queue.entries, id)), answers);
      OnlyOk(s.queue.log, r.log, id) && Confirmed(id, ConfirmOk) in News(s.queue.log, r.log)
  {
    WalkOnlyOk(s.queue, s.msgTimeout, stamp, id);
    var w := Walk(s.queue, 0, s.msgTimeout, stamp, Choice(s.queue.entries, id));
    AnswersOnlyOk(w, answers, id);
    OnlyOkTrans(s.queue.log, w.log, CompleteAll(w, answers).log, id);
  }

  /** An unanswered send is answered, by the library's own doing or while the stack is torn down. */
  lemma AnswerConfirms(s: Sender, id: nat) returns (envs: seq<DoWorkEnv>)
    requires SenderInv(s) && id in s.queue.outstanding
    ensures Confirms(s, envs, id)
  {
    var answers := [(id, true)];
    var env := ResetEnv(s, id, answers);
    envs := [env];
    ResetPass(s, id, answers);
    AnswersOnlyOk(s.queue, answers, id);
    var t := DoWork(s, env);
    if t.amqp != Uninitialized {
      var stamp :| t.queue == CompleteAll(Walk(s.queue, 0, s.msgTimeout, stamp, Choice(s.queue.entries, id)), answers);
      SentConfirms(s, stamp, id, answers);
    }
    ConfirmsNow(s, env, id);
  }

  function Rank(a: AmqpState): nat {
    match a
    case Uninitialized => 0
    case PendingEndpointCreate => 1
    case PendingAuthorization => 2
    case Initialized => 3
  }

  /** From every state that satisfies the invariant an answerable entry can be confirmed OK before any other entry. */
  lemma {:induction false} CanConfirm(s: Sender, id: nat) returns (envs: seq<DoWorkEnv>)
    requires SenderInv(s) && Answerable(s, id)
    ensures Confirms(s, envs, id)
    decreases Rank(s.amqp)
  {
    if id in s.queue.outstanding {
      envs := AnswerConfirms(s, id);
    } else if s.amqp == Uninitialized {
      envs := BringUpConfirms(s, id);
    } else {
      var env := ResetEnv(s, id, []);
      ResetPass(s, id, []);
      DoWorkKeeps(s, env);
      var t := DoWork(s, env);
      if s.amqp == Initialized == t.amqp {
        var stamp :| t.queue == CompleteAll(Walk(s.queue, 0, s.msgTimeout, stamp, Choice(s.queue.entries, id)), []);
        SentConfirms(s, stamp, id, []);
        ConfirmsNow(s, env, id);
        envs := [env];
      } else {
        assert t.queue.log == s.queue.log && t.queue.entries == s.queue.entries;
        var rest := CanConfirm(t, id);
        ConfirmsLater(s, env, rest, id);
        envs := [env] + rest;
      }
    }
  }
}
