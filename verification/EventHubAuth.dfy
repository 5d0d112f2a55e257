/**
 The token lifecycle of eventhubauth.c: a status machine polled against a clock, and the put-token
 operations it hands to the CBS library.

 Each operation is a method of `EventHubAuthCBS`, proved to act on the object's state as a function on the
 value `Auth`. The clock, the token signer and the CBS library are parameters: a reading is `None` when
 get_time fails, and a flag says whether a library call succeeded. A put completes in OnPutComplete, never
 inside PutToken.
 */
module EventHubAuth {
  import opened Common
  import SasToken

  datatype Credential = SasTokenAuto | SasTokenExt

  datatype AuthStatus = Ok | Idle | InProgress | TimedOut | RefreshRequired | Expired | Failure

  datatype AuthOp = OpNone | OpPut

  datatype AuthResult = ResultOk | InvalidArg | NotPermitted | Error

  /** A token given to the CBS library: minted here at a time, or supplied by the user. */
  datatype Token = Minted(created: uint64) | External(text: string)

  datatype AuthConfig = AuthConfig(
    credential: Credential, expirationTime: uint64, refreshPeriod: uint64, authTimeout: uint64,
    extToken: string, extUri: string, extExpiry: uint64)

  /**
   EVENTHUBAUTH_CBS_STRUCT. The last two fields are the CBS library's side: the puts it has not answered
   yet, and the token of the last put it answered with success.
   */
  datatype Auth = Auth(
    cfg: AuthConfig, status: AuthStatus, op: AuthOp, created: uint64, putTime: uint64,
    extToken: string, extExpiry: uint64,
    puts: seq<Token>, installed: Option<Token>)

  /** What Authenticate meets: the clock, SASToken_Create, cbs_put_token_async. */
  datatype PutEnv = PutEnv(clock: Option<uint64>, minted: bool, accepted: bool)

  /** What Refresh meets: the clock read by its own status check, then Authenticate's surroundings. */
  datatype RefreshEnv = RefreshEnv(poll: Option<uint64>, put: PutEnv)

  /** The token a client made from a SAS token keeps, and what its parsing yielded. */
  datatype ExtConfig = ExtConfig(token: string, uri: string, expiry: uint64)

  const AUTH_EXPIRATION_SECS: uint64 := 3600
  const AUTH_REFRESH_SECS: uint64 := 2880

  /** The configuration with which the sender and the receiver create their handles; `ext` is `None` for AUTO. */
  function ClientConfig(ext: Option<ExtConfig>, timeout: uint64): AuthConfig {
    if ext == None then AuthConfig(SasTokenAuto, AUTH_EXPIRATION_SECS, AUTH_REFRESH_SECS, timeout, "", "", 0)
    else AuthConfig(SasTokenExt, 0, 0, timeout, ext.value.token, ext.value.uri, ext.value.expiry)
  }

  // ---------------------------------------------------------------- operations on the value

  /** The argument checks of EventHubAuthCBS_Create; handles are non-NULL. */
  predicate ConfigOk(cfg: AuthConfig) {
    if cfg.credential == SasTokenAuto
    then cfg.expirationTime != 0 && cfg.refreshPeriod != 0 && cfg.refreshPeriod < cfg.expirationTime
    else cfg.extExpiry != 0
  }

  function Created(cfg: AuthConfig): Auth {
    Auth(cfg, Idle, OpNone, 0, 0, cfg.extToken, cfg.extExpiry, [], None)
  }

  /** The status a successful poll at `now` leaves. */
  function StatusAt(a: Auth, now: uint64): AuthStatus {
    if a.cfg.credential == SasTokenAuto && (a.status == Ok || a.status == RefreshRequired) then
      if Sub64(now, a.created) >= a.cfg.expirationTime then Expired
      else if Sub64(now, a.created) >= a.cfg.refreshPeriod then RefreshRequired
      else a.status
    else if a.status == InProgress && a.op == OpPut && a.cfg.authTimeout > 0
            && Sub64(now, a.putTime) >= a.cfg.authTimeout
    then TimedOut
    else a.status
  }

  predicate ReadsClock(a: Auth) {
    || (a.cfg.credential == SasTokenAuto && (a.status == Ok || a.status == RefreshRequired))
    || (a.status == InProgress && a.op == OpPut)
  }

  /** UpdateEventHubAuthACBSStatus: the polled state, and whether the poll succeeded. */
  function Polled(a: Auth, clock: Option<uint64>): (Auth, bool) {
    if !ReadsClock(a) then (a, true)
    else if clock == None then (a, false)
    else (a.(status := StatusAt(a, clock.value)), true)
  }

  /** The put that ends EventHubAuthCBS_Authenticate. */
  function PutToken(a: Auth, token: Token, now: uint64, accepted: bool): (Auth, AuthResult) {
    var b := a.(putTime := now, op := OpPut);
    if accepted then (b.(status := InProgress, puts := a.puts + [token]), ResultOk) else (b, Error)
  }

  /** EventHubAuthCBS_Authenticate. The external token's expiry test is the code's: it refuses live tokens. */
  function Authenticated(a: Auth, env: PutEnv): (Auth, AuthResult) {
    if a.status == InProgress then (a, NotPermitted)
    else if env.clock == None then (a, Error)
    else if a.cfg.credential == SasTokenExt then
      if env.clock.value < a.extExpiry then (a, Error)
      else PutToken(a, External(a.extToken), env.clock.value, env.accepted)
    else
      var b := a.(created := env.clock.value);
      if !env.minted then (b, Error) else PutToken(b, Minted(env.clock.value), env.clock.value, env.accepted)
  }

  /** EventHubAuthCBS_Refresh */
  function Refreshed(a: Auth, ext: Option<string>, env: RefreshEnv): (Auth, AuthResult) {
    if a.cfg.credential == SasTokenExt then
      if ext == None then (a, InvalidArg) else
      var u := SasToken.UriAndExpiration(ext.value);
      if u == None || u.value.0 != a.cfg.extUri then (a, Error)
      else Authenticated(a.(extToken := ext.value, extExpiry := u.value.1), env.put)
    else
      var (b, ok) := Polled(a, env.poll);
      if !ok then (b, Error)
      else if b.status != RefreshRequired then (b, NotPermitted)
      else Authenticated(b, env.put)
  }

  /** OnCBSPutTokenOperationComplete, for the oldest unanswered put. */
  function PutCompleted(a: Auth, success: bool): Auth
    requires a.puts != []
  {
    if success then a.(status := Ok, op := OpNone, puts := a.puts[1..], installed := Some(a.puts[0]))
    else a.(status := Failure, op := OpNone, puts := a.puts[1..])
  }

  // ---------------------------------------------------------------- the object

  class EventHubAuthCBS {
    const cfg: AuthConfig
    const handle: nat  // identity of the handle, for the callers' bookkeeping
    var status: AuthStatus
    var op: AuthOp
    var created: uint64
    var putTime: uint64
    var extToken: string
    var extExpiry: uint64
    var puts: seq<Token>            // the CBS library's side
    var installed: Option<Token>

    ghost function Abs(): Auth
      reads this
    {
      Auth(cfg, status, op, created, putTime, extToken, extExpiry, puts, installed)
    }

    /** EventHubAuthCBS_Create, once its checks have passed and cbs_create and cbs_open_async succeeded. */
    constructor (cfg: AuthConfig, handle: nat)
      ensures Abs() == Created(cfg) && this.handle == handle
    {
      this.cfg, this.handle := cfg, handle;
      status, op, created, putTime := Idle, OpNone, 0, 0;
      extToken, extExpiry := cfg.extToken, cfg.extExpiry;
      puts, installed := [], None;
    }

    /** CheckExpirationAndRefreshStatus and CheckPutTimeoutStatus inside UpdateEventHubAuthACBSStatus */
    method Update(clock: Option<uint64>) returns (ok: bool)
      modifies this
      ensures (Abs(), ok) == Polled(old(Abs()), clock)
    {
      if cfg.credential == SasTokenAuto && (status == Ok || status == RefreshRequired) {
        if clock == None {
          return false;
        }
        var isExpired := Sub64(clock.value, created) >= cfg.expirationTime;
        var isRefreshRequired := Sub64(clock.value, created) >= cfg.refreshPeriod;
        if isExpired {
          status := Expired;
        } else if isRefreshRequired {
          status := RefreshRequired;
        }
      } else if status == InProgress && op == OpPut {
        if clock == None {
          return false;
        }
        if cfg.authTimeout > 0 && Sub64(clock.value, putTime) >= cfg.authTimeout {
          status := TimedOut;
        }
      }
      return true;
    }

    method GetStatus(clock: Option<uint64>) returns (result: AuthResult, current: AuthStatus)
      modifies this
      ensures Abs() == Polled(old(Abs()), clock).0 && current == status
      ensures result == if Polled(old(Abs()), clock).1 then ResultOk else Error
    {
      var ok := Update(clock);
      result := if ok then ResultOk else Error;
      current := status;
    }

    method Authenticate(env: PutEnv) returns (result: AuthResult)
      modifies this
      ensures (Abs(), result) == Authenticated(old(Abs()), env)
    {
      if status == InProgress {
        return NotPermitted;
      }
      if env.clock == None {
        return Error;
      }
      var now := env.clock.value;
      var token := External(extToken);
      if cfg.credential == SasTokenExt {
        if now < extExpiry {
          return Error;
        }
      } else {
        created := now;
        if !env.minted {
          return Error;
        }
        token := Minted(now);
      }
      putTime, op := now, OpPut;
      if !env.accepted {
        return Error;
      }
      puts := puts + [token];
      status := InProgress;
      return ResultOk;
    }

    method Refresh(ext: Option<string>, env: RefreshEnv) returns (result: AuthResult)
      modifies this
      ensures (Abs(), result) == Refreshed(old(Abs()), ext, env)
    {
      if cfg.credential == SasTokenExt {
        if ext == None {
          return InvalidArg;
        }
        var u := SasToken.UriAndExpiration(ext.value);
        if u == None || u.value.0 != cfg.extUri {
          return Error;
        }
        extToken, extExpiry := ext.value, u.value.1;
      } else {
        var ok := Update(env.poll);
        if !ok {
          return Error;
        }
        if status != RefreshRequired {
          return NotPermitted;
        }
      }
      result := Authenticate(env.put);
    }

    method OnPutComplete(success: bool)
      requires puts != []
      modifies this
      ensures Abs() == PutCompleted(old(Abs()), success)
    {
      if success {
        status := Ok;
        installed := Some(puts[0]);
      } else {
        status := Failure;
      }
      puts := puts[1..];
      op := OpNone;
    }
  }
}
