/**
 What the token lifecycle keeps: alone, against the clock, and inside the authorization pass that the
 sender and the receiver both run before any other work.
 */
module TokenLifecycle {
  import opened Common
  import opened EventHubAuth

  // ---------------------------------------------------------------- status against elapsed time

  /** The handle after polling it at each of `clocks` in turn. */
  function Polls(a: Auth, clocks: seq<Option<uint64>>): Auth {
    if clocks == [] then a
    else Polled(Polls(a, clocks[..|clocks| - 1]), clocks[|clocks| - 1]).0
  }

  predicate NonDecreasingFrom(start: uint64, clocks: seq<Option<uint64>>) {
    && (forall i :: 0 <= i < |clocks| && clocks[i].Some? ==> start <= clocks[i].value)
    && (forall i, j :: 0 <= i < j < |clocks| && clocks[i].Some? && clocks[j].Some? ==>
          clocks[i].value <= clocks[j].value)
  }

  /** The latest reading that succeeded, or `start`. */
  function LastReading(start: uint64, clocks: seq<Option<uint64>>): uint64 {
    if clocks == [] then start
    else if clocks[|clocks| - 1].Some? then clocks[|clocks| - 1].value
    else LastReading(start, clocks[..|clocks| - 1])
  }

  lemma {:induction false} LastReadingBound(start: uint64, clocks: seq<Option<uint64>>, c: uint64)
    requires NonDecreasingFrom(start, clocks) && start <= c
    requires forall i :: 0 <= i < |clocks| && clocks[i].Some? ==> clocks[i].value <= c
    ensures start <= LastReading(start, clocks) <= c
  {
    if clocks != [] && clocks[|clocks| - 1] == None {
      LastReadingBound(start, clocks[..|clocks| - 1], c);
    }
  }

  /** The status of a minted token as a function of its age alone. */
  function StatusOfAge(cfg: AuthConfig, age: uint64): AuthStatus {
    if age < cfg.refreshPeriod then Ok else if age < cfg.expirationTime then RefreshRequired else Expired
  }

  /**
   With a clock that does not run backwards, the polled status of an installed AUTO token is the function of
   its age above, whatever polls came before, readings that failed included. The refresh window is not empty.
   */
  lemma {:induction false} StatusTracksAge(a: Auth, clocks: seq<Option<uint64>>)
    requires a.cfg.credential == SasTokenAuto && ConfigOk(a.cfg) && a.status == Ok
    requires NonDecreasingFrom(a.created, clocks)
    ensures Polls(a, clocks) == a.(status := StatusOfAge(a.cfg, Sub64(LastReading(a.created, clocks), a.created)))
    ensures StatusOfAge(a.cfg, a.cfg.refreshPeriod) == RefreshRequired
  {
    if clocks != [] {
      var front := clocks[..|clocks| - 1];
      StatusTracksAge(a, front);
      var last := clocks[|clocks| - 1];
      if last.Some? {
        LastReadingBound(a.created, front, last.value);
      }
    }
  }

  /**
   An unanswered put times out, for good, as soon as some reading is the timeout or more after it was made, and not
   before; with a timeout of 0 it never does.
   */
  lemma {:induction false} PutTimeoutTracksAge(a: Auth, clocks: seq<Option<uint64>>)
    requires a.status == InProgress && a.op == OpPut && NonDecreasingFrom(a.putTime, clocks)
    ensures var age := Sub64(LastReading(a.putTime, clocks), a.putTime);
      var timedOut := a.cfg.authTimeout > 0 && age >= a.cfg.authTimeout;
      Polls(a, clocks) == a.(status := if timedOut then TimedOut else InProgress)
  {
    if clocks != [] {
      var front := clocks[..|clocks| - 1];
      PutTimeoutTracksAge(a, front);
      var last := clocks[|clocks| - 1];
      if last.Some? {
        LastReadingBound(a.putTime, front, last.value);
      }
    }
  }

  /** An expired token stays expired: no poll and no AUTO refresh changes the handle. */
  lemma {:induction false} ExpiredAbsorbs(a: Auth, clocks: seq<Option<uint64>>, ext: Option<string>, env: RefreshEnv)
    requires a.cfg.credential == SasTokenAuto && a.status == Expired
    ensures Polls(a, clocks) == a && Refreshed(a, ext, env) == (a, NotPermitted)
  {
    if clocks != [] {
      ExpiredAbsorbs(a, clocks[..|clocks| - 1], ext, env);
    }
  }

  // ---------------------------------------------------------------- the authorization pass

  datatype AuthEnv = AuthEnv(poll: Option<uint64>, refresh: RefreshEnv, put: PutEnv)

  /** How a pass ends: tear down and report a failure or a timeout, wait for the put, or go on. */
  datatype Verdict = AuthFailed | AuthTimedOut | AuthWaiting | AuthReady

  /**
   `advance`: the AMQP state may leave PENDING_AUTHORIZATION. `refreshTaken`: the user's refresh token was
   used up. `checkedAt`: the last reading the installed token was checked against.
   */
  datatype Pass = Pass(auth: Auth, verdict: Verdict, advance: bool, refreshTaken: bool, checkedAt: uint64)

  function Reading(clock: Option<uint64>): uint64 {
    if clock.Some? then clock.value else 0
  }

  /** handle_sas_token_auth of the sender and HandleSASTokenAuth of the receiver. */
  function AuthPass(a: Auth, pending: Option<string>, env: AuthEnv): Pass {
    var (b, ok) := Polled(a, env.poll);
    var checkedAt := Reading(env.poll);
    if !ok then Pass(b, AuthFailed, false, false, checkedAt) else
    match b.status
    case Failure => Pass(b, AuthFailed, false, false, checkedAt)
    case Expired => Pass(b, AuthFailed, false, false, checkedAt)
    case TimedOut => Pass(b, AuthTimedOut, false, false, checkedAt)
    case InProgress => Pass(b, AuthWaiting, false, false, checkedAt)
    case RefreshRequired =>
      var (c, r) := Refreshed(b, None, env.refresh);
      Pass(c, if r == ResultOk then AuthReady else AuthFailed, false, false, Reading(env.refresh.poll))
    case Idle =>
      var (c, r) := Authenticated(b, env.put);
      Pass(c, if r == ResultOk then AuthWaiting else AuthFailed, false, false, checkedAt)
    case Ok =>
      if b.cfg.credential == SasTokenExt && pending.Some? then
        var (c, r) := Refreshed(b, pending, env.refresh);
        Pass(c, if r == ResultOk then AuthReady else AuthFailed, false, true, checkedAt)
      else Pass(b, AuthReady, true, false, checkedAt)
  }

  function CurrentToken(a: Auth): Token {
    if a.cfg.credential == SasTokenAuto then Minted(a.created) else External(a.extToken)
  }

  /**
   What holds of a live handle between two DoWork calls: a put is outstanding exactly while the status is
   IN_PROGRESS, never more than one, it is for the current token, and status OK means that token is installed.
   */
  predicate Settled(a: Auth) {
    && a.status in {InProgress, Ok, Failure}
    && (a.op == OpPut <==> a.status == InProgress)
    && a.puts == (if a.status == InProgress then [CurrentToken(a)] else [])
    && (a.status == Ok ==> a.installed == Some(CurrentToken(a)))
  }

  predicate JustCreated(a: Auth) {
    a == Created(a.cfg)
  }

  /** One lemma for both callers: a pass from a settled or new handle keeps at most one put outstanding. */
  lemma PassSettles(a: Auth, pending: Option<string>, env: AuthEnv)
    requires Settled(a) || JustCreated(a)
    ensures var p := AuthPass(a, pending, env);
      && p.auth.cfg == a.cfg
      && |p.auth.puts| <= 1
      && (p.verdict in {AuthWaiting, AuthReady} ==> Settled(p.auth) && p.auth.status != Failure)
      && (p.verdict == AuthWaiting ==> p.auth.status == InProgress)
      && (p.advance ==> p.verdict == AuthReady && p.auth.status == Ok)
  {
  }

  /** A pass that lets work go on found the last installed token valid at the reading it checked. */
  lemma ReadyMeansTokenInForce(a: Auth, pending: Option<string>, env: AuthEnv)
    requires Settled(a) || JustCreated(a)
    requires AuthPass(a, pending, env).verdict == AuthReady
    ensures var p := AuthPass(a, pending, env);
      && a.status == Ok && p.auth.installed == Some(CurrentToken(a))
      && (a.cfg.credential == SasTokenAuto ==>
            && env.poll.Some? && Sub64(env.poll.value, a.created) < a.cfg.expirationTime
            && Sub64(p.checkedAt, a.created) < a.cfg.expirationTime
            && (p.auth.status == InProgress ==> env.refresh.poll == Some(p.checkedAt))
            && (p.auth.status == Ok ==> p.checkedAt == env.poll.value))
  {
  }

  /** The answer to the outstanding put settles the handle again. */
  lemma AnswerSettles(a: Auth, success: bool)
    requires Settled(a) && a.puts != []
    ensures Settled(PutCompleted(a, success)) && PutCompleted(a, success).status == (if success then Ok else Failure)
  {
  }

  // ---------------------------------------------------------------- what the module alone keeps, exactly

  /** Polls change nothing but the status, and leave a failed handle and one that waits or has timed out as such. */
  lemma {:induction false} PollsFrame(a: Auth, clocks: seq<Option<uint64>>)
    ensures var p := Polls(a, clocks);
      && p == a.(status := p.status)
      && (a.status == Ok ==> p.status in {Ok, RefreshRequired, Expired})
      && (a.status == Ok && a.cfg.credential == SasTokenExt ==> p.status == Ok)
      && (a.status == InProgress ==> p.status in {InProgress, TimedOut})
      && (a.status == Failure ==> p.status == Failure)
  {
    if clocks != [] {
      PollsFrame(a, clocks[..|clocks| - 1]);
    }
  }

  /** Once past the status test, a put goes out: the clock is read, the token is fit for it, the library accepts. */
  predicate PutGoesOut(a: Auth, env: PutEnv) {
    && env.clock.Some? && env.accepted
    && if a.cfg.credential == SasTokenExt then a.extExpiry <= env.clock.value else env.minted
  }

  /** The tests that a token passed to the refresh of an EXT handle has to pass before it replaces the handle's own. */
  predicate TakesToken(a: Auth, ext: Option<string>) {
    && a.cfg.credential == SasTokenExt && ext.Some? && SasToken.UriAndExpiration(ext.value).Some?
    && SasToken.UriAndExpiration(ext.value).value.0 == a.cfg.extUri
  }

  /** The handle for which a refresh of `a` with `ext` makes its put: dated by the user's new token, if it takes one. */
  function WithToken(a: Auth, ext: Option<string>): Auth {
    if !TakesToken(a, ext) then a
    else a.(extToken := ext.value, extExpiry := SasToken.UriAndExpiration(ext.value).value.1)
  }

  /**
   Alone, the module keeps puts to one at a time unless a handle whose put has timed out, but is still unanswered,
   is authenticated again and that put goes out.
   */
  lemma AloneOnePutExactly(a: Auth, clocks: seq<Option<uint64>>, env: PutEnv)
    requires Settled(a)
    ensures var p := Polls(a, clocks);
      |Authenticated(p, env).0.puts| <= 1 <==> !(p.status == TimedOut && PutGoesOut(p, env))
  {
    PollsFrame(a, clocks);
  }

  /** The same for a refresh: only a user's own token can be put in that state. */
  lemma AloneOnePutRefreshedExactly(a: Auth, clocks: seq<Option<uint64>>, ext: Option<string>, env: RefreshEnv)
    requires Settled(a)
    ensures var p := Polls(a, clocks);
      |Refreshed(p, ext, env).0.puts| <= 1 <==>
        !(p.status == TimedOut && TakesToken(p, ext) && PutGoesOut(WithToken(p, ext), env.put))
  {
    PollsFrame(a, clocks);
  }

  /** The refresh of `p` gets as far as writing down another token than the handle had. */
  predicate TokenReplaced(p: Auth, ext: Option<string>, env: RefreshEnv) {
    if p.cfg.credential == SasTokenExt then TakesToken(p, ext) && ext.value != p.extToken
    else
      && Polled(p, env.poll).1 && Polled(p, env.poll).0.status == RefreshRequired
      && env.put.clock.Some? && env.put.clock.value != p.created
  }

  /** The handle after the answer to its put, if it has one outstanding. */
  function AfterAnswer(b: Auth, success: bool): Auth {
    if b.puts != [] then PutCompleted(b, success) else b
  }

  /**
   Alone, a refreshed and answered handle is dated by the token that is installed, if and only if the refresh wrote
   no other token down, or its put went out and was answered with success.
   */
  lemma AloneDateExactly(a: Auth, clocks: seq<Option<uint64>>, ext: Option<string>, env: RefreshEnv, success: bool)
    requires Settled(a) && a.status == Ok
    ensures var p := Polls(a, clocks);
      var c := AfterAnswer(Refreshed(p, ext, env).0, success);
      c.installed == Some(CurrentToken(c)) <==>
        !TokenReplaced(p, ext, env) || (PutGoesOut(WithToken(p, ext), env.put) && success)
  {
    PollsFrame(a, clocks);
    var p := Polls(a, clocks);
    if p.cfg.credential == SasTokenAuto {
      AutoDateExactly(p, ext, env, success);
    } else {
      ExtDateExactly(p, ext, env, success);
    }
  }

  lemma AutoDateExactly(p: Auth, ext: Option<string>, env: RefreshEnv, success: bool)
    requires p.cfg.credential == SasTokenAuto && p.puts == [] && p.installed == Some(CurrentToken(p))
    ensures var c := AfterAnswer(Refreshed(p, ext, env).0, success);
      c.installed == Some(CurrentToken(c)) <==>
        !TokenReplaced(p, ext, env) || (PutGoesOut(WithToken(p, ext), env.put) && success)
  {
  }

  lemma ExtDateExactly(p: Auth, ext: Option<string>, env: RefreshEnv, success: bool)
    requires p.cfg.credential == SasTokenExt && p.puts == [] && p.installed == Some(CurrentToken(p))
    requires p.status == Ok
    ensures var c := AfterAnswer(Refreshed(p, ext, env).0, success);
      c.installed == Some(CurrentToken(c)) <==>
        !TokenReplaced(p, ext, env) || (PutGoesOut(WithToken(p, ext), env.put) && success)
  {
  }

  /** The first can happen: a timed-out handle is authenticated again with its first put still outstanding. */
  lemma AloneTwoPutsOutstanding() returns (a: Auth, now: uint64, env: PutEnv)
    ensures Settled(a) && |Authenticated(Polls(a, [Some(now)]), env).0.puts| == 2
  {
    var cfg := AuthConfig(SasTokenAuto, 3600, 2880, 30, "", "", 0);
    a := Authenticated(Created(cfg), PutEnv(Some(100), true, true)).0;
    now, env := 130, PutEnv(Some(130), true, true);
    assert [Some(now)][..0] == [];
    assert Polls(a, [Some(now)]) == Polled(a, Some(now)).0;
  }

  /** So can the second: the old token is installed, the handle dated by the new one, and Authenticate permitted. */
  lemma AloneFailedRefreshLosesTheDate() returns (a: Auth, env: RefreshEnv, again: PutEnv)
    ensures Settled(a) && a.status == Ok && a.cfg.credential == SasTokenAuto
    ensures var b := Refreshed(a, None, env).0;
      && b.puts != []
      && var c := PutCompleted(b, false);
         c.installed.Some? && c.installed != Some(CurrentToken(c)) && Authenticated(c, again).1 == ResultOk
  {
    var cfg := AuthConfig(SasTokenAuto, 3600, 2880, 30, "", "", 0);
    a := PutCompleted(Authenticated(Created(cfg), PutEnv(Some(100), true, true)).0, true);
    env := RefreshEnv(Some(3000), PutEnv(Some(3000), true, true));
    again := PutEnv(Some(3001), true, true);
    var c := PutCompleted(Refreshed(a, None, env).0, false);
    assert c.installed == Some(Minted(100)) && CurrentToken(c) == Minted(3000);
  }

  /** The code's expiry test for a user's own token is the wrong way round: it is put exactly when it has expired. */
  lemma ExternalTokenIsPutOnceExpired(a: Auth, env: PutEnv)
    requires a.cfg.credential == SasTokenExt && a.status != InProgress
    ensures Authenticated(a, env).1 == ResultOk <==> env.clock.Some? && a.extExpiry <= env.clock.value && env.accepted
  {
  }
}
