/** What whole runs of the identity steps keep: a login never creates a user, a refresh
    token works once, an anonymised account is terminal, and what the server makes of the
    token of a live session. */
module AccountLifecycle {
  import opened Wrappers
  import opened Phone
  import opened Identity

  /** verifyCode's upsert never takes its create branch: a stored code's phone belongs to
      a stored user, and that user is the one who is logged in. */
  lemma LoginFindsRegisteredUser(cfg: Config, s: Store, raw: string, code: string, salt: nat)
    requires Consistent(s)
    ensures |VerifyCodeStep(cfg, s, raw, code, salt).0.users| == |s.users|
    ensures var r := VerifyCodeStep(cfg, s, raw, code, salt).1;
      r.LoggedIn? ==> r.userId < |s.users| && NormalizePhone(raw).Some? && s.users[r.userId].phone == NormalizePhone(raw)
  {
    if NormalizePhone(raw).Some? {
      var found := NewestLive(s.codes, NormalizePhone(raw).value, s.now);
      if found.Some? {
        assert Registered(s.users, s.codes[found.value].phone);
      }
    }
  }

  /** Sessions are never deleted, never change owner or secret, and revocation is for ever. */
  ghost predicate SessionsOnlyAge(s: Store, s': Store) {
    && |s.sessions| <= |s'.sessions|
    && forall i :: 0 <= i < |s.sessions| ==>
         && s'.sessions[i].userId == s.sessions[i].userId
         && s'.sessions[i].refreshHash == s.sessions[i].refreshHash
         && s'.sessions[i].expiresAt == s.sessions[i].expiresAt
         && (s.sessions[i].revokedAt.Some? ==> s'.sessions[i].revokedAt.Some?)
  }

  lemma StepAges(cfg: Config, s: Store, op: Op)
    ensures SessionsOnlyAge(s, Step(cfg, s, op).0)
  {
  }

  lemma {:induction false} RevokedSessionsStayRevoked(cfg: Config, s: Store, ops: seq<Op>)
    ensures SessionsOnlyAge(s, Run(cfg, s, ops))
    decreases ops
  {
    if ops == [] {
    } else {
      StepAges(cfg, s, ops[0]);
      RevokedSessionsStayRevoked(cfg, Step(cfg, s, ops[0]).0, ops[1..]);
    }
  }

  /** A refresh token is accepted at most once: whatever happens afterwards, presenting it
      again is refused. This is why a client must not let two refreshes share a token. */
  lemma RefreshTokenWorksOnce(cfg: Config, s: Store, token: string, salt: nat, ops: seq<Op>, salt': nat)
    requires ValidConfig(cfg)
    requires RefreshStep(cfg, s, token, salt).1.Refreshed?
    ensures RefreshStep(cfg, Run(cfg, RefreshStep(cfg, s, token, salt).0, ops), token, salt').1
            in {Failed(RefreshInvalid), Failed(RefreshRevoked)}
  {
    var (s1, reply) := RefreshStep(cfg, s, token, salt);
    assert s1.sessions[reply.oldJti].revokedAt.Some?;
    RevokedSessionsStayRevoked(cfg, s1, ops);
    var s2 := Run(cfg, s1, ops);
    assert cfg.verifyRefresh(token, s.now) == Some(reply.oldJti);
    assert cfg.verifyRefresh(token, s2.now).Some? ==> cfg.verifyRefresh(token, s2.now) == cfg.verifyRefresh(token, s.now);
  }

  /** No presentation of the token can be accepted any more. */
  ghost predicate Dead(cfg: Config, s: Store, token: string) {
    forall at :: cfg.verifyRefresh(token, at).Some? ==>
      var jti := cfg.verifyRefresh(token, at).value; jti < |s.sessions| && s.sessions[jti].revokedAt.Some?
  }

  lemma AcceptedTokenDies(cfg: Config, s: Store, token: string, salt: nat)
    requires ValidConfig(cfg) && RefreshStep(cfg, s, token, salt).1.Refreshed?
    ensures Dead(cfg, RefreshStep(cfg, s, token, salt).0, token)
  {
    var jti := RefreshStep(cfg, s, token, salt).1.oldJti;
    assert forall at :: cfg.verifyRefresh(token, at).Some? ==> cfg.verifyRefresh(token, at) == Some(jti);
  }

  lemma StepKeepsDead(cfg: Config, s: Store, op: Op, token: string)
    requires Dead(cfg, s, token)
    ensures Dead(cfg, Step(cfg, s, op).0, token)
  {
    StepAges(cfg, s, op);
  }

  /** A logout revokes the session it names and touches nothing else; it fails exactly when
      there is no such session, and then changes nothing. */
  lemma LogoutRevokesOnly(cfg: Config, s: Store, jti: nat)
    ensures var (s', reply) := Step(cfg, s, Logout(jti));
      && (reply == Done <==> jti < |s.sessions|) && (reply != Done ==> reply == Failed(NotFound) && s' == s)
      && (reply == Done ==>
            && s'.users == s.users && s'.codes == s.codes && s'.now == s.now
            && |s'.sessions| == |s.sessions| && s'.sessions[jti].revokedAt == Some(s.now)
            && forall i :: 0 <= i < |s.sessions| && i != jti ==> s'.sessions[i] == s.sessions[i])
  {
  }

  /** After a logout no token of that session is ever accepted again. */
  lemma LoggedOutTokenIsRefused(cfg: Config, s: Store, jti: nat, ops: seq<Op>, token: string, at: int, salt: nat)
    requires ValidConfig(cfg) && cfg.verifyRefresh(token, at) == Some(jti)
    requires Step(cfg, s, Logout(jti)).1 == Done
    ensures RefreshStep(cfg, Run(cfg, Step(cfg, s, Logout(jti)).0, ops), token, salt).1
            in {Failed(RefreshInvalid), Failed(RefreshRevoked)}
  {
    var s1 := Step(cfg, s, Logout(jti)).0;
    LogoutRevokesOnly(cfg, s, jti);
    RevokedSessionsStayRevoked(cfg, s1, ops);
    var s2 := Run(cfg, s1, ops);
    assert cfg.verifyRefresh(token, s2.now).Some? ==> cfg.verifyRefresh(token, s2.now) == Some(jti);
  }

  // ---------------------------------------------------------- anonymised accounts

  /** The account has no phone, and every session it ever had is revoked. */
  ghost predicate Erased(s: Store, u: nat) {
    && u < |s.users|
    && s.users[u].phone.None?
    && forall i :: 0 <= i < |s.sessions| && s.sessions[i].userId == u ==> s.sessions[i].revokedAt.Some?
  }

  /** The reply hands out tokens for account u. */
  predicate GrantsAccess(s': Store, reply: Reply, u: nat) {
    || (reply.LoggedIn? && reply.userId == u)
    || ((reply.LoggedIn? || reply.Refreshed?) && reply.jti < |s'.sessions| && s'.sessions[reply.jti].userId == u)
  }

  lemma AnonymizeErases(s: Store, u: nat)
    requires u < |s.users|
    ensures Erased(AnonymizeStep(s, u).0, u)
    ensures forall c :: c in AnonymizeStep(s, u).0.codes ==> c in s.codes && Some(c.phone) != s.users[u].phone
  {
    if s.users[u].phone.Some? {
      DropPhoneKeepsOthers(s.codes, s.users[u].phone.value);
    }
  }

  lemma LoginKeepsErased(cfg: Config, s: Store, phone: string, code: string, salt: nat, u: nat)
    requires Consistent(s) && Erased(s, u)
    ensures var (s', reply) := VerifyPhoneStep(cfg, s, phone, code, salt); Erased(s', u) && !GrantsAccess(s', reply, u)
  {
    var found := NewestLive(s.codes, phone, s.now);
    if found.Some? {
      assert Registered(s.users, s.codes[found.value].phone);
      assert FindUser(s.users, phone) != Some(u);
    }
  }

  lemma StepKeepsErased(cfg: Config, s: Store, op: Op, u: nat)
    requires Consistent(s) && Erased(s, u)
    ensures var (s', reply) := Step(cfg, s, op); Erased(s', u) && !GrantsAccess(s', reply, u)
  {
    if op.VerifyCode? && NormalizePhone(op.rawPhone).Some? {
      LoginKeepsErased(cfg, s, NormalizePhone(op.rawPhone).value, op.code, op.salt, u);
    }
  }

  /** An anonymised account is terminal: in every continuation it stays erased, and no
      login and no refresh grants access to it, even when its phone is registered again. */
  lemma {:induction false} ErasedIsTerminal(cfg: Config, s: Store, u: nat, ops: seq<Op>, last: Op)
    requires Consistent(s) && Erased(s, u)
    ensures Erased(Run(cfg, s, ops), u)
    ensures var (s', reply) := Step(cfg, Run(cfg, s, ops), last); Erased(s', u) && !GrantsAccess(s', reply, u)
    decreases ops
  {
    if ops == [] {
      StepKeepsErased(cfg, s, last, u);
    } else {
      StepKeepsErased(cfg, s, ops[0], u);
      StepKeepsConsistent(cfg, s, ops[0]);
      ErasedIsTerminal(cfg, Step(cfg, s, ops[0]).0, u, ops[1..], last);
    }
  }

  /** An erased account that holds a CRM contact id blocks it: in every continuation the
      unique index refuses to attach that contact to any account. */
  lemma {:induction false} ErasedContactStaysBlocked(cfg: Config, s: Store, u: nat, contact: int, ops: seq<Op>,
                                                      raw: string, name: Option<string>)
    requires Consistent(s) && Erased(s, u) && s.users[u].contactId == Some(contact)
    ensures CrmUpsertStep(Run(cfg, s, ops), raw, contact, name).1 == Failed(ContactTaken)
    decreases ops
  {
    if ops == [] {
      assert FindUser(s.users, StoredPhone(raw)) != Some(u);
      assert s.users[u].contactId == Some(contact);
    } else {
      StepKeepsErased(cfg, s, ops[0], u);
      StepKeepsConsistent(cfg, s, ops[0]);
      ErasedContactStaysBlocked(cfg, Step(cfg, s, ops[0]).0, u, contact, ops[1..], raw, name);
    }
  }

  // ------------------------------------------------- a client with a live session

  predicate StillLive(s: Store, jti: nat) {
    jti < |s.sessions| && s.sessions[jti].revokedAt.None?
  }

  /** The token is the one that session jti was created for, and the session is live. */
  ghost predicate HoldsLiveSession(cfg: Config, s: Store, jti: nat, token: string) {
    && StillLive(s, jti)
    && s.sessions[jti].userId < |s.users|
    && cfg.compare(token, s.sessions[jti].refreshHash)
    && forall at :: cfg.verifyRefresh(token, at).Some? ==> cfg.verifyRefresh(token, at) == Some(jti)
  }

  lemma StepKeepsHeldSession(cfg: Config, s: Store, op: Op, jti: nat, token: string)
    requires HoldsLiveSession(cfg, s, jti, token)
    requires StillLive(Step(cfg, s, op).0, jti)
    ensures HoldsLiveSession(cfg, Step(cfg, s, op).0, jti, token)
  {
    StepAges(cfg, s, op);
  }

  /** Serving the live token either rotates it or, after its time, refuses it. */
  lemma ServeLiveToken(cfg: Config, s: Store, jti: nat, token: string, salt: nat)
    requires ValidConfig(cfg) && HoldsLiveSession(cfg, s, jti, token)
    ensures var (s', r) := RefreshStep(cfg, s, token, salt);
      var expired := cfg.verifyRefresh(token, s.now).None? || s.sessions[jti].expiresAt < s.now;
      && (r.Refreshed? <==> !expired)
      && (!expired ==> r.oldJti == jti && HoldsLiveSession(cfg, s', r.jti, r.refresh))
      && (expired ==> s' == s)
  {
  }
}
