/**
 What the token operations answer, in terms of what they meet: the readings, the signer, the CBS library. Puts and
 tokens are dated by the readings at which they were made, and the verdict of a pass is decided by ages and guards.
 */
module TokenOutcomes {
  import opened Common
  import opened EventHubAuth
  import opened TokenLifecycle
  import opened AmqpStack

  // ---------------------------------------------------------------- Authenticate and Refresh

  /** The token that a put at `now` is for. */
  function TokenAt(a: Auth, now: uint64): Token {
    if a.cfg.credential == SasTokenAuto then Minted(now) else External(a.extToken)
  }

  /** Authenticate succeeds exactly if no put is waited for and one goes out, then for a token dated by this reading. */
  lemma AuthenticatesExactly(a: Auth, env: PutEnv)
    ensures var (b, result) := Authenticated(a, env);
      && (result == NotPermitted <==> a.status == InProgress)
      && (result == ResultOk <==> a.status != InProgress && PutGoesOut(a, env))
      && (result == ResultOk ==>
            && b.status == InProgress && b.puts == a.puts + [TokenAt(a, env.clock.value)]
            && CurrentToken(b) == TokenAt(a, env.clock.value))
      && (result != ResultOk ==> b.status == a.status && b.puts == a.puts && result in {NotPermitted, Error})
      && b.installed == a.installed && b.cfg == a.cfg
  {
  }

  /** A new handle waits for nothing, and its first put is for the token of its own configuration. */
  lemma FirstPutExactly(cfg: AuthConfig, env: PutEnv)
    ensures var a := Created(cfg);
      var (b, result) := Authenticated(a, env);
      var auto := cfg.credential == SasTokenAuto;
      && a.cfg == cfg && a.status == Idle && a.puts == [] && a.installed == None
      && (result == ResultOk <==>
            env.clock.Some? && env.accepted && if auto then env.minted else cfg.extExpiry <= env.clock.value)
      && (result == ResultOk ==> b.puts == [if auto then Minted(env.clock.value) else External(cfg.extToken)])
  {
  }

  /** A refresh is due at `now`: the token has not expired, and is in the window or was found there before. */
  predicate DueAt(a: Auth, now: uint64) {
    && a.status in {Ok, RefreshRequired} && Sub64(now, a.created) < a.cfg.expirationTime
    && (a.status == RefreshRequired || a.cfg.refreshPeriod <= Sub64(now, a.created))
  }

  lemma AutoRefreshesExactly(a: Auth, ext: Option<string>, env: RefreshEnv)
    requires a.cfg.credential == SasTokenAuto
    ensures var (b, result) := Refreshed(a, ext, env);
      && (result == ResultOk <==> env.poll.Some? && DueAt(a, env.poll.value) && PutGoesOut(a, env.put))
      && (result == NotPermitted <==>
            !ReadsClock(a) || (env.poll.Some? && !DueAt(a, env.poll.value)))
      && b.puts == a.puts + (if result == ResultOk then [Minted(env.put.clock.value)] else [])
      && (result == ResultOk ==> b.status == InProgress && CurrentToken(b) == Minted(env.put.clock.value))
      && result in {ResultOk, NotPermitted, Error} && b.installed == a.installed
  {
  }

  lemma ExtRefreshesExactly(a: Auth, ext: Option<string>, env: RefreshEnv)
    requires a.cfg.credential == SasTokenExt
    ensures var (b, result) := Refreshed(a, ext, env);
      && (result == InvalidArg <==> ext == None)
      && (result == NotPermitted <==> TakesToken(a, ext) && a.status == InProgress)
      && (result == ResultOk <==>
            TakesToken(a, ext) && a.status != InProgress && PutGoesOut(WithToken(a, ext), env.put))
      && b.puts == a.puts + (if result == ResultOk then [External(ext.value)] else [])
      && (result == ResultOk ==> b.status == InProgress && CurrentToken(b) == External(ext.value))
      && b.installed == a.installed
  {
  }

  // ---------------------------------------------------------------- puts and tokens are dated by their readings

  lemma LastReadingAfter(now: uint64, clocks: seq<Option<uint64>>)
    requires NonDecreasingFrom(now, clocks)
    ensures now <= LastReading(now, clocks)
  {
    LastReadingBound(now, clocks, 0xFFFF_FFFF_FFFF_FFFF);
  }

  /** What polls find of a put made at `now`. */
  function PutStatus(timeout: uint64, now: uint64, last: uint64): AuthStatus {
    if timeout > 0 && last - now >= timeout then TimedOut else InProgress
  }

  /**
   A put times out by the readings since it was made: it is found TIMEOUT if and only if there is a timeout, and the
   last reading is that much or more after the one that Authenticate made.
   */
  lemma PutIsTimedFromItsReading(a: Auth, env: PutEnv, clocks: seq<Option<uint64>>)
    requires Authenticated(a, env).1 == ResultOk && NonDecreasingFrom(env.clock.value, clocks)
    ensures var now := env.clock.value;
      Polls(Authenticated(a, env).0, clocks).status == PutStatus(a.cfg.authTimeout, now, LastReading(now, clocks))
  {
    LastReadingAfter(env.clock.value, clocks);
    PutTimeoutTracksAge(Authenticated(a, env).0, clocks);
  }

  /** So does a put made by Refresh. */
  lemma RefreshPutIsTimedFromItsReading(a: Auth, ext: Option<string>, env: RefreshEnv, clocks: seq<Option<uint64>>)
    requires Refreshed(a, ext, env).1 == ResultOk && NonDecreasingFrom(env.put.clock.value, clocks)
    ensures var now := env.put.clock.value;
      Polls(Refreshed(a, ext, env).0, clocks).status == PutStatus(a.cfg.authTimeout, now, LastReading(now, clocks))
  {
    LastReadingAfter(env.put.clock.value, clocks);
    PutTimeoutTracksAge(Refreshed(a, ext, env).0, clocks);
  }

  /**
   The life of a minted token: from the answer on its status is a function of the time since the reading at which it
   was minted.
   */
  lemma TokenLivesFromItsReading(a: Auth, env: PutEnv, clocks: seq<Option<uint64>>)
    requires a.cfg.credential == SasTokenAuto && ConfigOk(a.cfg) && a.puts == []
    requires Authenticated(a, env).1 == ResultOk && NonDecreasingFrom(env.clock.value, clocks)
    ensures var now, b := env.clock.value, Authenticated(a, env).0;
      var c := PutCompleted(b, true);
      && b.puts == [Minted(now)] && c.installed == Some(Minted(now)) && c.puts == []
      && Polls(c, clocks).status == StatusOfAge(a.cfg, Sub64(LastReading(now, clocks), now))
  {
    LastReadingAfter(env.clock.value, clocks);
    StatusTracksAge(PutCompleted(Authenticated(a, env).0, true), clocks);
  }

  /** So is that of one minted by a refresh; until it is answered the old one stays installed. */
  lemma RefreshedTokenLivesFromItsReading(a: Auth, env: RefreshEnv, clocks: seq<Option<uint64>>)
    requires a.cfg.credential == SasTokenAuto && ConfigOk(a.cfg) && a.puts == []
    requires Refreshed(a, None, env).1 == ResultOk && NonDecreasingFrom(env.put.clock.value, clocks)
    ensures var now, b := env.put.clock.value, Refreshed(a, None, env).0;
      var c := PutCompleted(b, true);
      && b.puts == [Minted(now)] && b.installed == a.installed && c.installed == Some(Minted(now))
      && Polls(c, clocks).status == StatusOfAge(a.cfg, Sub64(LastReading(now, clocks), now))
  {
    LastReadingAfter(env.put.clock.value, clocks);
    StatusTracksAge(PutCompleted(Refreshed(a, None, env).0, true), clocks);
  }

  // ---------------------------------------------------------------- the verdict of a pass

  /** A refresh in the course of a pass: its own reading finds the token unexpired, and its put goes out. */
  predicate RefreshGoesOut(a: Auth, env: RefreshEnv) {
    env.poll.Some? && Sub64(env.poll.value, a.created) < a.cfg.expirationTime && PutGoesOut(a, env.put)
  }

  /** The token is in force, and if it is due for a refresh, or replaced by the user, that put goes out. */
  predicate ReadyWhen(a: Auth, pending: Option<string>, env: AuthEnv) {
    && a.status == Ok
    && if a.cfg.credential == SasTokenAuto then
         && env.poll.Some? && Sub64(env.poll.value, a.created) < a.cfg.expirationTime
         && (Sub64(env.poll.value, a.created) < a.cfg.refreshPeriod || RefreshGoesOut(a, env.refresh))
       else pending == None || (TakesToken(a, pending) && PutGoesOut(WithToken(a, pending), env.refresh.put))
  }

  predicate TimesOutWhen(a: Auth, env: AuthEnv) {
    && a.status == InProgress && env.poll.Some?
    && a.cfg.authTimeout > 0 && a.cfg.authTimeout <= Sub64(env.poll.value, a.putTime)
  }

  /** The first put goes out, or one that has not timed out is unanswered. */
  predicate WaitsWhen(a: Auth, env: AuthEnv) {
    || (a.status == Idle && PutGoesOut(a, env.put))
    || (a.status == InProgress && env.poll.Some? && !TimesOutWhen(a, env))
  }

  /** The puts that a pass makes. */
  function NewPuts(a: Auth, pending: Option<string>, env: AuthEnv): seq<Token> {
    if a.status == Idle && PutGoesOut(a, env.put) then [TokenAt(a, env.put.clock.value)]
    else if a.status != Ok || !ReadyWhen(a, pending, env) then []
    else if a.cfg.credential == SasTokenExt then (if pending.Some? then [External(pending.value)] else [])
    else if a.cfg.refreshPeriod <= Sub64(env.poll.value, a.created) then [Minted(env.refresh.put.clock.value)]
    else []
  }

  /** The verdict of a pass, for every settled or new handle: ready, waiting, timed out, or failed in all others. */
  lemma PassVerdictExactly(a: Auth, pending: Option<string>, env: AuthEnv)
    requires Settled(a) || JustCreated(a)
    ensures var verdict := AuthPass(a, pending, env).verdict;
      && (verdict == AuthReady <==> ReadyWhen(a, pending, env))
      && (verdict == AuthWaiting <==> WaitsWhen(a, env))
      && (verdict == AuthTimedOut <==> TimesOutWhen(a, env))
  {
  }

  /** A token due for refresh is refreshed, a user's new token put and used up, and nothing else is put. */
  lemma PassPutsExactly(a: Auth, pending: Option<string>, env: AuthEnv)
    requires Settled(a) || JustCreated(a)
    ensures var p := AuthPass(a, pending, env);
      && p.auth.puts == a.puts + NewPuts(a, pending, env) && p.auth.installed == a.installed
      && (p.refreshTaken <==> a.status == Ok && a.cfg.credential == SasTokenExt && pending.Some?)
      && (p.advance <==> ReadyWhen(a, pending, env) && NewPuts(a, pending, env) == [])
      && (NewPuts(a, pending, env) != [] ==> p.auth.status == InProgress)
  {
  }

  /** What the engines make of it: the step out of PENDING_AUTHORIZATION, and the refresh token, if it was used up. */
  lemma AuthorizesExactly(s: Stack, amqp: AmqpState, pending: Option<string>, env: AuthEnv)
    requires s.auth.Some? ==> Settled(s.auth.value) || JustCreated(s.auth.value)
    ensures var r := Authorize(s, amqp, pending, env);
      && (r.verdict == AuthReady <==> s.auth.Some? && ReadyWhen(s.auth.value, pending, env))
      && (r.verdict == AuthWaiting <==> s.auth.Some? && WaitsWhen(s.auth.value, env))
      && (r.verdict == AuthTimedOut <==> s.auth.Some? && TimesOutWhen(s.auth.value, env))
      && r.stack.h == s.h && r.stack.lib == s.lib.Call(s.h.cbs) && (r.stack.auth.Some? <==> s.auth.Some?)
      && (s.auth.Some? ==>
            && r.stack.auth.value.puts == s.auth.value.puts + NewPuts(s.auth.value, pending, env)
            && r.stack.auth.value.installed == s.auth.value.installed)
      && r.amqp == (if amqp == PendingAuthorization && r.verdict == AuthReady
                       && NewPuts(s.auth.value, pending, env) == []
                    then PendingEndpointCreate else amqp)
      && r.refreshToken == (if s.auth.Some? && s.auth.value.status == Ok && s.auth.value.cfg.credential == SasTokenExt
                            then None else pending)
  {
    if s.auth.Some? {
      PassVerdictExactly(s.auth.value, pending, env);
      PassPutsExactly(s.auth.value, pending, env);
    }
  }

  /** The AMQP state after a bring-up that succeeded. */
  function UpState(amqp: AmqpState): AmqpState {
    if amqp == Uninitialized then PendingAuthorization else if amqp == PendingEndpointCreate then Initialized else amqp
  }

  lemma AnswerInstalls(s: Stack, ok: bool)
    requires s.auth.Some?
    ensures var a, b := s.auth.value, PutAnswered(s, ok).auth;
      && b.Some? && b.value.puts == (if a.puts != [] then a.puts[1..] else [])
      && (a.puts != [] ==> b.value.status == if ok then Ok else Failure)
      && b.value.installed == (if a.puts != [] && ok then Some(a.puts[0]) else a.installed)
  {
  }

  /** `t` is the token's state after a pass with puts outstanding, an answer to the first of them included. */
  predicate TokenLeft(t: Auth, puts: seq<Token>, installed: Option<Token>, answer: Option<bool>) {
    var answered := answer.Some? && puts != [];
    && t.puts == (if answered then puts[1..] else puts)
    && (answered ==> t.status == if answer.value then Ok else Failure)
    && t.installed == (if answered && answer.value then Some(puts[0]) else installed)
  }

  lemma LeftByAnswer(s: Stack, t: Option<Auth>, answer: Option<bool>)
    requires s.auth.Some? && t == if answer.Some? then PutAnswered(s, answer.value).auth else s.auth
    ensures t.Some? && TokenLeft(t.value, s.auth.value.puts, s.auth.value.installed, answer)
  {
    if answer.Some? {
      AnswerInstalls(s, answer.value);
    }
  }
}
