/** TokenAuthenticator.kt: a synchronized method that compares the token of the failed
    request with the stored one before it refreshes. A step is one call of the method;
    requests are sent, and the server serves others, in between. */
module AndroidRefresh {
  import opened Wrappers
  import opened Identity
  import opened AccountLifecycle

  datatype Fate = Delivered | RequestLost | ResponseLost

  /** `requests` maps a pending request to the access token it carries; `refreshedFor` logs,
      for each refresh call, the token of the request that caused it. */
  datatype Device = Device(server: Store, access: Option<string>, refresh: Option<string>,
                           requests: map<nat, Option<string>>, refreshedFor: seq<Option<string>>,
                           jti: nat, token: string)

  function Clear(d: Device): Device {
    d.(access := None, refresh := None)
  }

  /** `authenticate`: the new state, and the access token to retry with (None gives up). */
  function AuthenticateStep(cfg: Config, d: Device, requestToken: Option<string>, fate: Fate, salt: nat)
    : (Device, Option<string>)
  {
    if requestToken.Some? && requestToken != d.access && d.access.Some? then (d, d.access)
    else if d.refresh.None? then (Clear(d), None)
    else
      var d1 := d.(refreshedFor := d.refreshedFor + [requestToken]);
      if fate == RequestLost then (Clear(d1), None)
      else
        var (s', reply) := RefreshStep(cfg, d.server, d.refresh.value, salt);
        var d2 := d1.(server := s');
        if !reply.Refreshed? then (Clear(d2), None)
        else
          var d3 := d2.(jti := reply.jti, token := reply.refresh);
          if fate == ResponseLost then (Clear(d3), None)
          else (d3.(access := Some(reply.access), refresh := Some(reply.refresh)), Some(reply.access))
  }

  datatype Action = Send(request: nat) | Unauthorized(request: nat, fate: Fate, salt: nat) | Elsewhere(op: Op)

  function Next(cfg: Config, d: Device, a: Action): Device {
    match a
    case Send(k) => if k in d.requests then d else d.(requests := d.requests[k := d.access])
    case Unauthorized(k, fate, salt) =>
      if k !in d.requests then d
      else
        var (d', retry) := AuthenticateStep(cfg, d, d.requests[k], fate, salt);
        if retry.Some? then d'.(requests := d'.requests[k := retry]) else d'.(requests := d'.requests - {k})
    case Elsewhere(op) =>
      var s' := Step(cfg, d.server, op).0;
      if StillLive(s', d.jti) then d.(server := s') else d
  }

  function Execute(cfg: Config, d: Device, actions: seq<Action>): Device
    decreases actions
  {
    if actions == [] then d else Execute(cfg, Next(cfg, d, actions[0]), actions[1..])
  }

  // -------------------------------------------------------------------- invariant

  /** The token was signed for a session that already exists. */
  ghost predicate Issued(cfg: Config, s: Store, t: string) {
    exists jti: nat, at :: jti < |s.sessions| && t == cfg.signAccess(jti, at)
  }

  ghost predicate Inv(cfg: Config, d: Device) {
    && Consistent(d.server)
    && HoldsLiveSession(cfg, d.server, d.jti, d.token)
    && (d.refresh.Some? ==> d.refresh == Some(d.token))
    && (d.access.None? ==> d.refresh.None?)
    && (d.access.Some? ==> Issued(cfg, d.server, d.access.value))
    && (forall k :: k in d.requests && d.requests[k].Some? ==> Issued(cfg, d.server, d.requests[k].value))
    && (forall i :: 0 <= i < |d.refreshedFor| && d.refreshedFor[i].Some? ==>
          Issued(cfg, d.server, d.refreshedFor[i].value) && d.refreshedFor[i] != d.access)
    && OncePerToken(d.refreshedFor)
  }

  predicate OncePerToken(log: seq<Option<string>>) {
    forall i, j :: 0 <= i < j < |log| && log[i].Some? ==> log[i] != log[j]
  }

  lemma IssuedStays(cfg: Config, s: Store, s': Store)
    requires |s.sessions| <= |s'.sessions|
    ensures forall t :: Issued(cfg, s, t) ==> Issued(cfg, s', t)
  {
    forall t | Issued(cfg, s, t) ensures Issued(cfg, s', t) {
      var jti: nat, at :| jti < |s.sessions| && t == cfg.signAccess(jti, at);
      assert jti < |s'.sessions|;
    }
  }

  lemma NewTokenIsFresh(cfg: Config, s: Store, token: string, salt: nat)
    requires ValidConfig(cfg)
    ensures var (s', r) := RefreshStep(cfg, s, token, salt);
      r.Refreshed? ==> Issued(cfg, s', r.access) && !Issued(cfg, s, r.access)
  {
    var (s', r) := RefreshStep(cfg, s, token, salt);
    if r.Refreshed? {
      assert r.jti < |s'.sessions| && r.access == cfg.signAccess(r.jti, s.now);
    }
  }

  lemma AuthenticateKeepsInv(cfg: Config, d: Device, requestToken: Option<string>, fate: Fate, salt: nat)
    requires ValidConfig(cfg) && Inv(cfg, d)
    requires requestToken.Some? ==> Issued(cfg, d.server, requestToken.value)
    ensures var (d', retry) := AuthenticateStep(cfg, d, requestToken, fate, salt);
      Inv(cfg, d') && (retry.Some? ==> retry == d'.access)
  {
    if d.refresh.Some? {
      ServeLiveToken(cfg, d.server, d.jti, d.token, salt);
      NewTokenIsFresh(cfg, d.server, d.token, salt);
      StepKeepsConsistent(cfg, d.server, Op.Refresh(d.token, salt));
    }
    IssuedStays(cfg, d.server, AuthenticateStep(cfg, d, requestToken, fate, salt).0.server);
  }

  lemma NextKeepsInv(cfg: Config, d: Device, a: Action)
    requires ValidConfig(cfg) && Inv(cfg, d)
    ensures Inv(cfg, Next(cfg, d, a))
  {
    match a
    case Send(k) =>
    case Unauthorized(k, fate, salt) =>
      if k in d.requests {
        AuthenticateKeepsInv(cfg, d, d.requests[k], fate, salt);
      }
    case Elsewhere(op) =>
      var s' := Step(cfg, d.server, op).0;
      if StillLive(s', d.jti) {
        StepKeepsConsistent(cfg, d.server, op);
        StepKeepsHeldSession(cfg, d.server, op, d.jti, d.token);
        SessionTableGrows(cfg, d.server, op);
        IssuedStays(cfg, d.server, s');
      }
  }

  lemma SessionTableGrows(cfg: Config, s: Store, op: Op)
    ensures |s.sessions| <= |Step(cfg, s, op).0.sessions|
  {
  }

  lemma {:induction false} ExecuteKeepsInv(cfg: Config, d: Device, actions: seq<Action>)
    requires ValidConfig(cfg) && Inv(cfg, d)
    ensures Inv(cfg, Execute(cfg, d, actions))
    decreases actions
  {
    if actions == [] {
    } else {
      NextKeepsInv(cfg, d, actions[0]);
      ExecuteKeepsInv(cfg, Next(cfg, d, actions[0]), actions[1..]);
    }
  }

  // ------------------------------------------------------------------ main results

  /** In every run, requests that failed with one and the same access token cause at most
      one refresh, however many they are; the others retry with the stored token. */
  lemma OneRefreshPerAccessToken(cfg: Config, d: Device, actions: seq<Action>, i: nat, j: nat)
    requires ValidConfig(cfg) && Inv(cfg, d)
    ensures var log := Execute(cfg, d, actions).refreshedFor;
      i < |log| && j < |log| && log[i].Some? && log[i] == log[j] ==> i == j
  {
    ExecuteKeepsInv(cfg, d, actions);
  }

  /** In every run, the refresh token an authenticator call would present belongs to the
      live session: it is accepted unless its time has run out, whatever was lost before. */
  lemma {:induction false} RefreshesPresentTheLiveSession(cfg: Config, d: Device, actions: seq<Action>, salt: nat)
    requires ValidConfig(cfg) && Inv(cfg, d)
    ensures var d' := Execute(cfg, d, actions);
      StillLive(d'.server, d'.jti) &&
      (d'.refresh.Some? ==>
         (RefreshStep(cfg, d'.server, d'.refresh.value, salt).1.Refreshed? <==>
          cfg.verifyRefresh(d'.refresh.value, d'.server.now).Some?
          && d'.server.sessions[d'.jti].expiresAt >= d'.server.now))
  {
    ExecuteKeepsInv(cfg, d, actions);
    var d' := Execute(cfg, d, actions);
    ServeLiveToken(cfg, d'.server, d'.jti, d'.token, salt);
  }

  /** A login puts the device into the invariant. */
  lemma LoginEstablishesInv(cfg: Config, s: Store, raw: string, code: string, salt: nat)
    requires ValidConfig(cfg) && Consistent(s) && VerifyCodeStep(cfg, s, raw, code, salt).1.LoggedIn?
    ensures var (s', r) := VerifyCodeStep(cfg, s, raw, code, salt);
      Inv(cfg, Device(s', Some(r.access), Some(r.refresh), map[], [], r.jti, r.refresh))
  {
    StepKeepsConsistent(cfg, s, Op.VerifyCode(raw, code, salt));
    var (s', r) := VerifyCodeStep(cfg, s, raw, code, salt);
    assert r.jti < |s'.sessions| && r.access == cfg.signAccess(r.jti, s.now);
  }

  // ------------------------------------------------------------- who stays signed in

  /** Another request has refreshed since this one was sent. */
  predicate Outdated(d: Device, request: nat) {
    request in d.requests && d.requests[request].Some? && d.access.Some? && d.requests[request] != d.access
  }

  predicate SignedIn(d: Device) {
    d.access.Some? && d.refresh.Some?
  }

  /** A refresh that is made is answered, before token and session run out. */
  predicate CalmAction(cfg: Config, d: Device, a: Action) {
    a.Unauthorized? && a.request in d.requests && !Outdated(d, a.request) ==>
      && a.fate == Delivered
      && cfg.verifyRefresh(d.token, d.server.now).Some?
      && (d.jti < |d.server.sessions| ==> d.server.sessions[d.jti].expiresAt >= d.server.now)
  }

  predicate Calm(cfg: Config, d: Device, actions: seq<Action>)
    decreases actions
  {
    actions == [] || (CalmAction(cfg, d, actions[0]) && Calm(cfg, Next(cfg, d, actions[0]), actions[1..]))
  }

  /** A request that failed with an outdated token is sent again with the stored one, and
      nothing else happens: no refresh, no token forgotten. */
  lemma OutdatedRequestRetries(cfg: Config, d: Device, request: nat, fate: Fate, salt: nat)
    requires Outdated(d, request)
    ensures var d' := Next(cfg, d, Unauthorized(request, fate, salt));
      && request in d'.requests && d'.requests[request] == d.access
      && d' == d.(requests := d'.requests) && d'.requests.Keys == d.requests.Keys
      && forall k :: k in d.requests && k != request ==> d'.requests[k] == d.requests[k]
  {
  }

  /** Any other failed request makes one refresh. If it goes well the request is sent again
      with the new access token, the device holds the pair, and both belong to the session
      that has replaced the old one; otherwise the request is given up and the device is
      signed out. */
  lemma OtherRequestsRefresh(cfg: Config, d: Device, request: nat, fate: Fate, salt: nat)
    requires ValidConfig(cfg) && Inv(cfg, d) && SignedIn(d) && request in d.requests && !Outdated(d, request)
    ensures var a := Unauthorized(request, fate, salt);
      var d' := Next(cfg, d, a);
      && d'.refreshedFor == d.refreshedFor + [d.requests[request]]
      && (CalmAction(cfg, d, a) ==>
            && SignedIn(d') && d'.jti != d.jti && d'.refresh == Some(d'.token) && StillLive(d'.server, d'.jti)
            && (exists at :: d'.access == Some(cfg.signAccess(d'.jti, at)))
            && request in d'.requests && d'.requests[request] == d'.access)
      && (!CalmAction(cfg, d, a) ==> request !in d'.requests && d'.access.None? && d'.refresh.None?)
  {
    ServeLiveToken(cfg, d.server, d.jti, d.token, salt);
    var d' := Next(cfg, d, Unauthorized(request, fate, salt));
    assert CalmAction(cfg, d, Unauthorized(request, fate, salt)) ==> d'.access == Some(cfg.signAccess(d'.jti, d.server.now));
  }

  lemma StepSignedInIff(cfg: Config, d: Device, a: Action)
    requires ValidConfig(cfg) && Inv(cfg, d)
    ensures SignedIn(Next(cfg, d, a)) <==> SignedIn(d) && CalmAction(cfg, d, a)
  {
    if a.Unauthorized? && a.request in d.requests && SignedIn(d) {
      if Outdated(d, a.request) {
        OutdatedRequestRetries(cfg, d, a.request, a.fate, a.salt);
      } else {
        OtherRequestsRefresh(cfg, d, a.request, a.fate, a.salt);
      }
    }
  }

  /** In every run the device stays signed in exactly when each refresh that it makes is
      answered before token and session run out. */
  lemma {:induction false} SignedInIffCalm(cfg: Config, d: Device, actions: seq<Action>)
    requires ValidConfig(cfg) && Inv(cfg, d)
    ensures SignedIn(Execute(cfg, d, actions)) <==> SignedIn(d) && Calm(cfg, d, actions)
    decreases actions
  {
    if actions == [] {
    } else {
      StepSignedInIff(cfg, d, actions[0]);
      NextKeepsInv(cfg, d, actions[0]);
      SignedInIffCalm(cfg, Next(cfg, d, actions[0]), actions[1..]);
    }
  }

  /** The token store and the synchronized method. The refresh call is answered by `server`. */
  class TokenAuthenticator {
    const cfg: Config
    var access: Option<string>
    var refresh: Option<string>

    constructor (cfg: Config, access: Option<string>, refresh: Option<string>)
      ensures this.cfg == cfg && this.access == access && this.refresh == refresh
    {
      this.cfg, this.access, this.refresh := cfg, access, refresh;
    }

    method ClearTokens()
      modifies this
      ensures access.None? && refresh.None?
    {
      access, refresh := None, None;
    }

    /** What the method depends on of a device. */
    ghost function AsDevice(server: Store): Device
      reads this
    {
      Device(server, access, refresh, map[], [], 0, "")
    }

    method Authenticate(server: Store, requestToken: Option<string>, fate: Fate, salt: nat)
      returns (retry: Option<string>, server': Store)
      modifies this
      ensures var (d', r) := AuthenticateStep(cfg, old(AsDevice(server)), requestToken, fate, salt);
        retry == r && server' == d'.server && access == d'.access && refresh == d'.refresh
    {
      server' := server;
      var current := access;
      if requestToken.Some? && requestToken != current && current.Some? {
        return current, server;
      }
      if refresh.None? {
        ClearTokens();
        return None, server;
      }
      if fate == RequestLost {
        ClearTokens();
        return None, server;
      }
      var answer := RefreshStep(cfg, server, refresh.value, salt);
      server' := answer.0;
      if answer.1.Refreshed? && fate == Delivered {
        access := Some(answer.1.access);
        refresh := Some(answer.1.refresh);
        retry := access;
      } else {
        ClearTokens();
        retry := None;
      }
    }
  }
}
