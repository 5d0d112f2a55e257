/**
 The eight AMQP handles that the sender and the receiver create, use and destroy, and their order.

 The AMQP library itself is not part of this model. `Library` watches the calls made to it: which handles it
 has given out and not yet destroyed, in creation order, and whether every call so far was sound - no NULL or
 dead handle was passed, and each destroyed handle was the youngest live one, so that a child always goes
 before its parent and nothing is destroyed twice.

 The sender's client structure holds these fields directly, the receiver's in EVENTHUBAMQPSTACK_STRUCT; both
 bring the stack up and down in the same order, with a message sender or a message receiver on top.
 */
module AmqpStack {
  import opened Common
  import opened EventHubAuth
  import opened TokenLifecycle

  datatype AmqpState = Uninitialized | PendingAuthorization | PendingEndpointCreate | Initialized

  datatype Library = Library(sound: bool, live: seq<nat>, next: nat) {
    /** A handle is created on top of the live ones. */
    function Create(): (Library, nat) {
      (Library(sound, live + [next], next + 1), next)
    }

    /** A call that is passed `h`. */
    function Call(h: Option<nat>): Library {
      this.(sound := sound && h.Some? && h.value in live)
    }

    function Destroy(h: nat): Library {
      if live != [] && live[|live| - 1] == h then this.(live := live[..|live| - 1]) else this.(sound := false)
    }
  }

  datatype Handles = Handles(
    mechanism: Option<nat>, tlsIo: Option<nat>, saslIo: Option<nat>, connection: Option<nat>,
    session: Option<nat>, cbs: Option<nat>, link: Option<nat>, endpoint: Option<nat>)
  {
    /** The handle fields in the order in which they are created. */
    function Order(): (o: seq<Option<nat>>)
      ensures |o| == 8
    {
      [mechanism, tlsIo, saslIo, connection, session, cbs, link, endpoint]
    }
  }

  const NO_HANDLES := Handles(None, None, None, None, None, None, None, None)

  /** The handles, the CBS authorization object behind `cbs`, and the library's view of them. */
  datatype Stack = Stack(h: Handles, auth: Option<Auth>, lib: Library)

  /** No handle is given out twice. */
  predicate Issued(lib: Library) {
    && (forall i, j :: 0 <= i < j < |lib.live| ==> lib.live[i] < lib.live[j])
    && (forall i :: 0 <= i < |lib.live| ==> lib.live[i] < lib.next)
  }

  /** Exactly the first `k` fields are non-NULL, and they are exactly the library's live handles, in order. */
  predicate Agrees(s: Stack, k: nat) {
    && k <= 8
    && s.lib.sound && |s.lib.live| == k && Issued(s.lib)
    && (forall i :: 0 <= i < k ==> s.h.Order()[i] == Some(s.lib.live[i]))
    && (forall i :: k <= i < 8 ==> s.h.Order()[i] == None)
    && (s.auth.Some? <==> 6 <= k)
  }

  /** How many handles each AMQP state has created. */
  function Stage(a: AmqpState): nat {
    match a
    case Uninitialized => 0
    case PendingAuthorization => 6
    case PendingEndpointCreate => 6
    case Initialized => 8
  }

  /** Which library calls succeed while the common part is built, in call order. */
  datatype CommonEnv = CommonEnv(
    hostName: bool, saslInterface: bool, mechanism: bool, tlsInterface: bool, tlsIo: bool, saslIoInterface: bool,
    saslIo: bool, connection: bool, session: bool, window: bool, cbs: bool)

  /** The same for the link and the message sender or receiver on it. */
  datatype EndpointEnv = EndpointEnv(
    terminus: bool, link: bool, settleMode: bool, maxSize: bool, endpoint: bool, open: bool)

  const ALL_BUILT := CommonEnv(true, true, true, true, true, true, true, true, true, true, true)
  const ENDPOINT_BUILT := EndpointEnv(true, true, true, true, true, true)

  // ---------------------------------------------------------------- tear-down

  function Closed(lib: Library, h: Option<nat>): Library {
    if h == None then lib else lib.Destroy(h.value)
  }

  /** Destroys the non-NULL fields among the first `n`, last one first. */
  function ClosedDown(lib: Library, o: seq<Option<nat>>, n: nat): Library
    requires n <= |o|
    decreases n
  {
    if n == 0 then lib else ClosedDown(Closed(lib, o[n - 1]), o, n - 1)
  }

  /** destroy_uamqp_stack, EventHubAMQP_DeInitializeStack */
  function TornDown(s: Stack): Stack {
    Stack(NO_HANDLES, None, ClosedDown(s.lib, s.h.Order(), 8))
  }

  lemma {:induction false} ClosedDownPops(lib: Library, o: seq<Option<nat>>, n: nat, k: nat)
    requires k <= n <= |o| && lib.sound && |lib.live| == k
    requires (forall i :: 0 <= i < k ==> o[i] == Some(lib.live[i])) && forall i :: k <= i < n ==> o[i] == None
    ensures ClosedDown(lib, o, n) == lib.(live := [])
    decreases n
  {
    if n > 0 {
      ClosedDownPops(Closed(lib, o[n - 1]), o, n - 1, if n == k then k - 1 else k);
    }
  }

  /** From any stage of construction, tear-down destroys each live handle once, children first. */
  lemma TearDownAgrees(s: Stack, k: nat)
    requires Agrees(s, k)
    ensures Agrees(TornDown(s), 0)
  {
    ClosedDownPops(s.lib, s.h.Order(), 8, k);
  }

  // ---------------------------------------------------------------- bring-up

  /**
   initialize_uamqp_stack_common, EventHubAMQP_InitializeStackCommon: how far construction got, and whether it
   succeeded. Their callers' tear-down after a failure is added by the users of this function.
   */
  function CommonBuilt(s: Stack, cfg: AuthConfig, env: CommonEnv): (Stack, bool) {
    if !env.hostName || !env.saslInterface then (s, false) else
    if !env.mechanism then (s.(h := s.h.(mechanism := None)), false) else
    var (lib, h) := s.lib.Create();
    var s := s.(h := s.h.(mechanism := Some(h)), lib := lib);
    if !env.tlsInterface then (s, false) else
    if !env.tlsIo then (s.(h := s.h.(tlsIo := None)), false) else
    var (lib, h) := s.lib.Create();
    var s := s.(h := s.h.(tlsIo := Some(h)), lib := lib);
    SaslBuilt(s, cfg, env)
  }

  /** The same, from the SASL client IO on. */
  function SaslBuilt(s: Stack, cfg: AuthConfig, env: CommonEnv): (Stack, bool) {
    if !env.saslIoInterface then (s, false) else
    var s := s.(lib := s.lib.Call(s.h.tlsIo).Call(s.h.mechanism));
    if !env.saslIo then (s.(h := s.h.(saslIo := None)), false) else
    var (lib, h) := s.lib.Create();
    ConnectionBuilt(s.(h := s.h.(saslIo := Some(h)), lib := lib), cfg, env)
  }

  /** The same, from the connection on: tracing is set, a session opened, its window set, the CBS object made. */
  function ConnectionBuilt(s: Stack, cfg: AuthConfig, env: CommonEnv): (Stack, bool) {
    var s := s.(lib := s.lib.Call(s.h.saslIo));
    if !env.connection then (s.(h := s.h.(connection := None)), false) else
    var (lib, h) := s.lib.Create();
    var s := s.(h := s.h.(connection := Some(h)), lib := lib.Call(Some(h)));
    if !env.session then (s.(h := s.h.(session := None)), false) else
    var (lib, h) := s.lib.Create();
    var s := s.(h := s.h.(session := Some(h)), lib := lib.Call(Some(h)));
    if !env.window then (s, false) else
    if !env.cbs || !ConfigOk(cfg) then (s.(h := s.h.(cbs := None), auth := None), false) else
    var (lib, h) := s.lib.Create();
    (s.(h := s.h.(cbs := Some(h)), auth := Some(Created(cfg)), lib := lib), true)
  }

  /** initialize_uamqp_sender_stack, EventHubAMQP_InitializeStackReceiver, up to their tear-down after a failure. */
  function EndpointBuilt(s: Stack, env: EndpointEnv): (Stack, bool) {
    if !env.terminus then (s, false) else
    var s := s.(lib := s.lib.Call(s.h.session));
    if !env.link then (s.(h := s.h.(link := None)), false) else
    var (lib, h) := s.lib.Create();
    var s := s.(h := s.h.(link := Some(h)), lib := lib.Call(Some(h)));
    if !env.settleMode || !env.maxSize then (s, false) else
    if !env.endpoint then (s.(h := s.h.(endpoint := None)), false) else
    var (lib, h) := s.lib.Create();
    (s.(h := s.h.(endpoint := Some(h)), lib := lib), env.open)
  }

  // ---------------------------------------------------------------- work on a stack that is up

  /** What a pass of handle_sas_token_auth, HandleSASTokenAuth leaves. */
  datatype Authorized = Authorized(
    stack: Stack, amqp: AmqpState, refreshToken: Option<string>, verdict: Verdict, checkedAt: uint64)

  /** handle_sas_token_auth, HandleSASTokenAuth. A NULL handle is refused by EventHubAuthCBS_GetStatus. */
  function Authorize(s: Stack, amqp: AmqpState, refreshToken: Option<string>, env: AuthEnv): Authorized {
    var lib := s.lib.Call(s.h.cbs);
    if s.auth == None then Authorized(s.(lib := lib), amqp, refreshToken, AuthFailed, 0) else
    var p := AuthPass(s.auth.value, refreshToken, env);
    Authorized(
      s.(lib := lib, auth := Some(p.auth)),
      if p.advance && amqp == PendingAuthorization then PendingEndpointCreate else amqp,
      if p.refreshTaken then None else refreshToken, p.verdict, p.checkedAt)
  }

  function PutAnswered(s: Stack, ok: bool): Stack {
    if s.auth.Some? && s.auth.value.puts != [] then s.(auth := Some(PutCompleted(s.auth.value, ok))) else s
  }

  // ---------------------------------------------------------------- when bring-up succeeds

  predicate EndpointOk(env: EndpointEnv) {
    env.terminus && env.link && env.settleMode && env.maxSize && env.endpoint && env.open
  }

  /** The common part is built exactly if every library call succeeds and the configuration is accepted. */
  lemma CommonBuiltExactly(s: Stack, cfg: AuthConfig, env: CommonEnv)
    ensures CommonBuilt(s, cfg, env).1 <==> env == ALL_BUILT && ConfigOk(cfg)
  {
  }

  /** So are the link and the endpoint. */
  lemma EndpointBuiltExactly(s: Stack, env: EndpointEnv)
    ensures EndpointBuilt(s, env).1 <==> EndpointOk(env)
  {
  }

  // ---------------------------------------------------------------- bring-up keeps fields and library in step

  /** A creation step from stage `k`: the field that is filled was NULL, so no live handle is overwritten. */
  lemma CreateAgrees(s: Stack, k: nat, t: Stack)
    requires Agrees(s, k) && k < 8
    requires t.lib == s.lib.Create().0 && (if k == 5 then t.auth.Some? else t.auth == s.auth)
    requires t.h.Order() == s.h.Order()[k := Some(s.lib.Create().1)]
    ensures Agrees(t, k + 1)
  {
  }

  /** A call on a handle that has been created is sound. */
  lemma CallAgrees(s: Stack, k: nat, i: nat)
    requires Agrees(s, k) && i < k
    ensures s.lib.Call(s.h.Order()[i]) == s.lib
  {
  }

  /** The answer to a put leaves the handles alone and a settled CBS handle settled. */
  lemma PutAnsweredAgrees(s: Stack, k: nat, ok: bool)
    requires Agrees(s, k) && (s.auth.Some? ==> Settled(s.auth.value))
    ensures var t := PutAnswered(s, ok);
      Agrees(t, k) && t.h == s.h && (t.auth.Some? ==> Settled(t.auth.value) && t.auth.value.cfg == s.auth.value.cfg)
  {
    if s.auth.Some? && s.auth.value.puts != [] {
      AnswerSettles(s.auth.value, ok);
    }
  }

  lemma ConnectionBuiltAgrees(s: Stack, cfg: AuthConfig, env: CommonEnv)
    requires Agrees(s, 3)
    ensures var (t, ok) := ConnectionBuilt(s, cfg, env);
      Agrees(t, |t.lib.live|) && (ok ==> |t.lib.live| == 6 && t.auth == Some(Created(cfg)) && ConfigOk(cfg))
  {
    CallAgrees(s, 3, 2);
    assert s.h.Order()[3] == s.h.connection;
    if env.connection {
      var (lib, h) := s.lib.Create();
      var s4 := s.(h := s.h.(connection := Some(h)), lib := lib);
      CreateAgrees(s, 3, s4);
      CallAgrees(s4, 4, 3);
      assert s4.h.Order()[4] == s4.h.session;
      if env.session {
        var (lib, h) := s4.lib.Create();
        var s5 := s4.(h := s4.h.(session := Some(h)), lib := lib);
        CreateAgrees(s4, 4, s5);
        CallAgrees(s5, 5, 4);
        assert s5.h.Order()[5] == s5.h.cbs;
        if env.window && env.cbs && ConfigOk(cfg) {
          var (lib, h) := s5.lib.Create();
          CreateAgrees(s5, 5, s5.(h := s5.h.(cbs := Some(h)), auth := Some(Created(cfg)), lib := lib));
        }
      }
    }
  }

  lemma SaslBuiltAgrees(s: Stack, cfg: AuthConfig, env: CommonEnv)
    requires Agrees(s, 2)
    ensures var (t, ok) := SaslBuilt(s, cfg, env);
      Agrees(t, |t.lib.live|) && (ok ==> |t.lib.live| == 6 && t.auth == Some(Created(cfg)) && ConfigOk(cfg))
  {
    CallAgrees(s, 2, 1);
    CallAgrees(s, 2, 0);
    assert s.h.Order()[2] == s.h.saslIo;
    if env.saslIoInterface && env.saslIo {
      var (lib, h) := s.lib.Create();
      var s3 := s.(h := s.h.(saslIo := Some(h)), lib := lib);
      CreateAgrees(s, 2, s3);
      ConnectionBuiltAgrees(s3, cfg, env);
    }
  }

  /** Bring-up from nothing: wherever it stops, fields and live handles agree; success means all six. */
  lemma CommonBuiltAgrees(s: Stack, cfg: AuthConfig, env: CommonEnv)
    requires Agrees(s, 0)
    ensures var (t, ok) := CommonBuilt(s, cfg, env);
      Agrees(t, |t.lib.live|) && (ok ==> |t.lib.live| == 6 && t.auth == Some(Created(cfg)) && ConfigOk(cfg))
  {
    assert s.h.Order()[0] == s.h.mechanism;
    if env.hostName && env.saslInterface && env.mechanism {
      var (lib, h) := s.lib.Create();
      var s1 := s.(h := s.h.(mechanism := Some(h)), lib := lib);
      CreateAgrees(s, 0, s1);
      assert s1.h.Order()[1] == s1.h.tlsIo;
      if env.tlsInterface && env.tlsIo {
        var (lib, h) := s1.lib.Create();
        var s2 := s1.(h := s1.h.(tlsIo := Some(h)), lib := lib);
        CreateAgrees(s1, 1, s2);
        SaslBuiltAgrees(s2, cfg, env);
      }
    }
  }

  /** The link and the endpoint are added to the six; wherever that stops, fields and live handles agree. */
  lemma EndpointBuiltAgrees(s: Stack, env: EndpointEnv)
    requires Agrees(s, 6)
    ensures var (t, ok) := EndpointBuilt(s, env);
      Agrees(t, |t.lib.live|) && (ok ==> |t.lib.live| == 8) && t.auth == s.auth
  {
    CallAgrees(s, 6, 4);
    assert s.h.Order()[6] == s.h.link;
    if env.terminus && env.link {
      var (lib, h) := s.lib.Create();
      var s7 := s.(h := s.h.(link := Some(h)), lib := lib);
      CreateAgrees(s, 6, s7);
      CallAgrees(s7, 7, 6);
      assert s7.h.Order()[7] == s7.h.endpoint;
      if env.settleMode && env.maxSize && env.endpoint {
        var (lib, h) := s7.lib.Create();
        CreateAgrees(s7, 7, s7.(h := s7.h.(endpoint := Some(h)), lib := lib));
      }
    }
  }

  lemma ClosedDownEight(lib: Library, o: seq<Option<nat>>)
    requires |o| == 8
    ensures ClosedDown(lib, o, 8) ==
      Closed(Closed(Closed(Closed(
        Closed(Closed(Closed(Closed(lib, o[7]), o[6]), o[5]), o[4]), o[3]), o[2]), o[1]), o[0])
  {
    var l7 := Closed(lib, o[7]);
    var l6 := Closed(l7, o[6]);
    var l5 := Closed(l6, o[5]);
    var l4 := Closed(l5, o[4]);
    var l3 := Closed(l4, o[3]);
    assert ClosedDown(lib, o, 8) == ClosedDown(l7, o, 7) == ClosedDown(l6, o, 6) == ClosedDown(l5, o, 5);
    assert ClosedDown(l5, o, 5) == ClosedDown(l4, o, 4) == ClosedDown(l3, o, 3);
  }

  // ---------------------------------------------------------------- the object

  /** The handle fields of a client. */
  class HandleStack {
    var mechanism: Option<nat>
    var tlsIo: Option<nat>
    var saslIo: Option<nat>
    var connection: Option<nat>
    var session: Option<nat>
    var cbs: EventHubAuthCBS?
    var link: Option<nat>
    var endpoint: Option<nat>
    var lib: Library

    ghost function CbsHandle(): Option<nat>
      reads this
    {
      if cbs == null then None else Some(cbs.handle)
    }

    ghost function Abs(): Stack
      reads this, cbs
    {
      Stack(Handles(mechanism, tlsIo, saslIo, connection, session, CbsHandle(), link, endpoint),
            if cbs == null then None else Some(cbs.Abs()), lib)
    }

    /** The first `k` fields, and no others, hold live handles, and those are all there are. */
    ghost predicate InStep(k: nat)
      reads this, cbs
    {
      Agrees(Abs(), k)
    }

    constructor ()
      ensures InStep(0) && Abs() == Stack(NO_HANDLES, None, Library(true, [], 0))
    {
      mechanism, tlsIo, saslIo, connection, session := None, None, None, None, None;
      cbs, link, endpoint := null, None, None;
      lib := Library(true, [], 0);
    }

    /** EventHubConnectionAMQP_Reset */
    method Reset()
      modifies this
      ensures Abs() == Stack(NO_HANDLES, None, old(lib))
    {
      mechanism, tlsIo, saslIo, connection, session := None, None, None, None, None;
      cbs, link, endpoint := null, None, None;
    }

    method Call(h: Option<nat>)
      modifies this`lib
      ensures lib == old(lib).Call(h)
    {
      lib := lib.Call(h);
    }

    method Create() returns (h: Option<nat>)
      modifies this`lib
      ensures (lib, h) == (old(lib).Create().0, Some(old(lib).Create().1))
    {
      h, lib := Some(lib.next), lib.Create().0;
    }

    /** initialize_uamqp_stack_common, EventHubAMQP_InitializeStackCommon */
    method BuildCommon(cfg: AuthConfig, env: CommonEnv) returns (ok: bool)
      modifies this
      ensures (Abs(), ok) == CommonBuilt(old(Abs()), cfg, env)
      ensures old(InStep(0)) ==> InStep(|lib.live|) && (ok ==> |lib.live| == 6)
      ensures cbs == null || cbs == old(cbs) || fresh(cbs)
    {
      if InStep(0) {
        CommonBuiltAgrees(Abs(), cfg, env);
      }
      ok := BuildIo(cfg, env);
    }

    /** The same from nothing, as the receiver does it. */
    method Rebuild(cfg: AuthConfig, env: CommonEnv) returns (ok: bool)
      modifies this
      ensures (Abs(), ok) == CommonBuilt(Stack(NO_HANDLES, None, old(lib)), cfg, env)
      ensures cbs == null || fresh(cbs)
    {
      Reset();
      ok := BuildCommon(cfg, env);
    }

    method BuildIo(cfg: AuthConfig, env: CommonEnv) returns (ok: bool)
      modifies this
      ensures (Abs(), ok) == CommonBuilt(old(Abs()), cfg, env)
      ensures cbs == null || cbs == old(cbs) || fresh(cbs)
    {
      if !env.hostName || !env.saslInterface {
        return false;
      }
      mechanism := None;
      if !env.mechanism {
        return false;
      }
      mechanism := Create();
      if !env.tlsInterface {
        return false;
      }
      tlsIo := None;
      if !env.tlsIo {
        return false;
      }
      tlsIo := Create();
      ok := BuildSasl(cfg, env);
    }

    method BuildSasl(cfg: AuthConfig, env: CommonEnv) returns (ok: bool)
      modifies this
      ensures (Abs(), ok) == SaslBuilt(old(Abs()), cfg, env)
      ensures cbs == null || cbs == old(cbs) || fresh(cbs)
    {
      if !env.saslIoInterface {
        return false;
      }
      Call(tlsIo);
      Call(mechanism);
      saslIo := None;
      if !env.saslIo {
        return false;
      }
      saslIo := Create();
      ok := BuildConnection(cfg, env);
    }

    method BuildConnection(cfg: AuthConfig, env: CommonEnv) returns (ok: bool)
      modifies this
      ensures (Abs(), ok) == ConnectionBuilt(old(Abs()), cfg, env)
      ensures cbs == null || cbs == old(cbs) || fresh(cbs)
    {
      Call(saslIo);
      connection := None;
      if !env.connection {
        return false;
      }
      connection := Create();
      Call(connection);
      session := None;
      if !env.session {
        return false;
      }
      session := Create();
      Call(session);
      if !env.window {
        return false;
      }
      cbs := null;
      if !env.cbs || !ConfigOk(cfg) {
        return false;
      }
      var h := Create();
      cbs := new EventHubAuthCBS(cfg, h.value);
      return true;
    }

    /** initialize_uamqp_sender_stack, EventHubAMQP_InitializeStackReceiver */
    method BuildEndpoint(env: EndpointEnv) returns (ok: bool)
      modifies this
      ensures (Abs(), ok) == EndpointBuilt(old(Abs()), env) && cbs == old(cbs)
      ensures old(InStep(6)) ==> InStep(|lib.live|) && (ok ==> |lib.live| == 8)
    {
      if InStep(6) {
        EndpointBuiltAgrees(Abs(), env);
      }
      ok := BuildLink(env);
    }

    method BuildLink(env: EndpointEnv) returns (ok: bool)
      modifies this
      ensures (Abs(), ok) == EndpointBuilt(old(Abs()), env) && cbs == old(cbs)
    {
      if !env.terminus {
        return false;
      }
      Call(session);
      link := None;
      if !env.link {
        return false;
      }
      link := Create();
      Call(link);
      if !env.settleMode || !env.maxSize {
        return false;
      }
      endpoint := None;
      if !env.endpoint {
        return false;
      }
      endpoint := Create();
      return env.open;
    }

    /** handle_sas_token_auth, HandleSASTokenAuth; `amqp` and `refreshToken` are the caller's fields. */
    method HandleSasTokenAuth(amqp: AmqpState, refreshToken: Option<string>, env: AuthEnv)
      returns (newAmqp: AmqpState, newToken: Option<string>, verdict: Verdict, checkedAt: uint64)
      modifies this`lib, cbs
      ensures Authorized(Abs(), newAmqp, newToken, verdict, checkedAt) == Authorize(old(Abs()), amqp, refreshToken, env)
    {
      newAmqp, newToken, checkedAt := amqp, refreshToken, 0;
      if cbs == null {
        Call(None);
        verdict := AuthFailed;
        return;
      }
      var cbs := this.cbs;
      Call(Some(cbs.handle));
      checkedAt := Reading(env.poll);
      var result, status := cbs.GetStatus(env.poll);
      if result != ResultOk || status == Failure || status == Expired {
        verdict := AuthFailed;
        return;
      } else if status == TimedOut {
        verdict := AuthTimedOut;
        return;
      } else if status == InProgress {
        verdict := AuthWaiting;
        return;
      } else if status == RefreshRequired {
        checkedAt := Reading(env.refresh.poll);
        result := cbs.Refresh(None, env.refresh);
        verdict := if result == ResultOk then AuthReady else AuthFailed;
        return;
      } else if status == Idle {
        result := cbs.Authenticate(env.put);
        verdict := if result == ResultOk then AuthWaiting else AuthFailed;
        return;
      }
      if cbs.cfg.credential == SasTokenExt && refreshToken.Some? {
        result := cbs.Refresh(refreshToken, env.refresh);
        newToken := None;
        verdict := if result == ResultOk then AuthReady else AuthFailed;
        return;
      }
      if amqp == PendingAuthorization {
        newAmqp := PendingEndpointCreate;
      }
      verdict := AuthReady;
    }

    /** The library answers the outstanding put, if there is one. */
    method AnswerPut(ok: bool)
      modifies cbs
      ensures Abs() == PutAnswered(old(Abs()), ok)
    {
      if cbs != null && cbs.puts != [] {
        cbs.OnPutComplete(ok);
      }
    }

    method Destroy(h: Option<nat>)
      modifies this`lib
      ensures lib == Closed(old(lib), h)
    {
      if h.Some? {
        lib := lib.Destroy(h.value);
      }
    }

    /** The tail of destroy_uamqp_stack, EventHubAMQP_DeInitializeStack: each non-NULL handle, then NULL. */
    method TearDown()
      modifies this
      ensures Abs() == TornDown(old(Abs()))
      ensures old(InStep(|lib.live|)) ==> InStep(0)
    {
      if InStep(|lib.live|) {
        TearDownAgrees(Abs(), |lib.live|);
      }
      ClosedDownEight(lib, Abs().h.Order());
      Destroy(endpoint);
      endpoint := None;
      Destroy(link);
      link := None;
      Destroy(if cbs == null then None else Some(cbs.handle));
      cbs := null;
      Destroy(session);
      session := None;
      Destroy(connection);
      connection := None;
      Destroy(saslIo);
      saslIo := None;
      Destroy(tlsIo);
      tlsIo := None;
      Destroy(mechanism);
      mechanism := None;
    }
  }
}
