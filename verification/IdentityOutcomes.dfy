/** What each identity operation answers and writes, told by the tables before it
    (auth.service.ts, users.service.ts, admin-users.service.ts), and what a client may make
    of the answers: when to ask for a code again, and that the code sent logs in. */
module IdentityOutcomes {
  import opened Wrappers
  import opened Phone
  import opened Identity
  import opened AccountLifecycle

  // ------------------------------------------------------------------ asking for a code

  /** Milliseconds in which a phone gets one code: the least number that holds a minute. */
  lemma CeilDivIs(a: nat, b: Positive)
    ensures b * CeilDiv(a, b) >= a
    ensures a > 0 ==> CeilDiv(a, b) > 0 && b * (CeilDiv(a, b) - 1) < a
  {
    var q, r := (a + b - 1) / b, (a + b - 1) % b;
    assert a + b - 1 == b * q + r;
    assert b * (q - 1) == b * q - b;
  }

  predicate Young(cfg: Config, s: Store, c: AuthCode, phone: string) {
    c.phone == phone && s.now - c.createdAt <= CeilDiv(60_000, cfg.ratePerMin)
  }

  /** A request is refused for its phone, for its pace, or for want of a user, in this order,
      and then changes nothing; otherwise it stores one code that answers to what was sent. */
  lemma RequestOutcome(cfg: Config, s: Store, raw: string, code: string, salt: nat)
    requires ValidConfig(cfg)
    ensures var (s', r) := Step(cfg, s, RequestCode(raw, code, salt));
      && (r == Failed(PhoneInvalid) <==> NormalizePhone(raw).None?)
      && (r.Failed? ==> s' == s)
      && (NormalizePhone(raw).Some? ==>
            var phone := NormalizePhone(raw).value;
            && (r == Failed(RateLimited) <==> exists c :: c in s.codes && Young(cfg, s, c, phone))
            && (r == Failed(PhoneNotRegistered) <==>
                  !(exists c :: c in s.codes && Young(cfg, s, c, phone)) && !Registered(s.users, phone))
            && (r.CodeSent? <==> !(exists c :: c in s.codes && Young(cfg, s, c, phone)) && Registered(s.users, phone)))
      && (r.CodeSent? ==>
            && s' == s.(codes := s'.codes) && |s'.codes| == |s.codes| + 1 && s'.codes[..|s.codes|] == s.codes
            && var c := s'.codes[|s.codes|];
               && Some(c.phone) == NormalizePhone(raw) && cfg.compare(code, c.codeHash)
               && c.attempts == 0 && c.consumedAt.None? && c.createdAt == s.now && c.expiresAt == s.now + cfg.otpTtlMs)
  {
    if NormalizePhone(raw).Some? {
      var phone := NormalizePhone(raw).value;
      YoungIff(cfg, s, phone);
      assert Registered(s.users, phone) <==> FindUser(s.users, phone).Some?;
    }
  }

  lemma YoungIff(cfg: Config, s: Store, phone: string)
    ensures RequestedSince(s.codes, phone, RateCutoff(cfg, s.now)) <==> exists c :: c in s.codes && Young(cfg, s, c, phone)
  {
    if RequestedSince(s.codes, phone, RateCutoff(cfg, s.now)) {
      var i :| 0 <= i < |s.codes| && s.codes[i].phone == phone && s.codes[i].createdAt >= RateCutoff(cfg, s.now);
      assert s.codes[i] in s.codes && Young(cfg, s, s.codes[i], phone);
    }
  }

  lemma Scaled(b: nat, x: nat, y: nat)
    requires x <= y
    ensures b * x <= b * y
  {
    assert b * y == b * x + b * (y - x);
  }

  lemma CeilDivLeast(a: nat, b: Positive, m: nat)
    requires a > 0 && b * m >= a
    ensures CeilDiv(a, b) <= m
  {
    CeilDivIs(a, b);
    if m <= CeilDiv(a, b) - 1 {
      Scaled(b, m, CeilDiv(a, b) - 1);
    }
  }

  /** The pace in whole milliseconds never outlasts the seconds that are told. */
  lemma PaceFits(rate: Positive)
    ensures CeilDiv(60_000, rate) <= 1000 * CeilDiv(60, rate)
  {
    var n := CeilDiv(60, rate);
    CeilDivIs(60, rate);
    assert rate * (1000 * n) == 1000 * (rate * n);
    CeilDivLeast(60_000, rate, 1000 * n);
  }

  /** Asking again some time after a code was sent. */
  lemma AskAgain(cfg: Config, s: Store, raw: string, code: string, salt: nat, ms: nat, again: string, salt': nat)
    requires ValidConfig(cfg) && Step(cfg, s, RequestCode(raw, code, salt)).1.CodeSent?
    ensures var s2 := Step(cfg, Step(cfg, s, RequestCode(raw, code, salt)).0, Wait(ms)).0;
      var r := Step(cfg, s2, RequestCode(raw, again, salt')).1;
      && (r == Failed(RateLimited) <==> ms <= CeilDiv(60_000, cfg.ratePerMin))
      && (ms > CeilDiv(60_000, cfg.ratePerMin) ==> r.CodeSent?)
  {
    var s1 := Step(cfg, s, RequestCode(raw, code, salt)).0;
    var s2 := Step(cfg, s1, Wait(ms)).0;
    var phone, last := NormalizePhone(raw).value, s1.codes[|s.codes|];
    RequestOutcome(cfg, s, raw, code, salt);
    RequestOutcome(cfg, s2, raw, again, salt');
    assert s1.codes == s.codes + [last] && s2.codes == s1.codes && s2.users == s.users && s2.now == s.now + ms;
    assert last in s2.codes && (Young(cfg, s2, last, phone) <==> ms <= CeilDiv(60_000, cfg.ratePerMin));
    forall c | c in s2.codes && c != last ensures !Young(cfg, s2, c, phone) {
      assert c in s.codes;
    }
  }

  /** The answer to a request that is accepted tells the seconds to wait. Asking again is
      refused exactly for the pace's milliseconds; these never outlast the seconds told, but
      they last to their very end when the pace is whole seconds. */
  lemma RetryAfterIsEnough(cfg: Config, s: Store, raw: string, code: string, salt: nat, ms: nat, again: string, salt': nat)
    requires ValidConfig(cfg) && Step(cfg, s, RequestCode(raw, code, salt)).1.CodeSent?
    ensures var (s1, r) := Step(cfg, s, RequestCode(raw, code, salt));
      var r', pace := Step(cfg, Step(cfg, s1, Wait(ms)).0, RequestCode(raw, again, salt')).1, CeilDiv(60_000, cfg.ratePerMin);
      && (r' == Failed(RateLimited) <==> ms <= pace)
      && (ms > 1000 * r.retryAfterSec ==> r'.CodeSent?)
      && cfg.ratePerMin * r.retryAfterSec >= 60 > cfg.ratePerMin * (r.retryAfterSec - 1)
      && pace <= 1000 * r.retryAfterSec
  {
    AskAgain(cfg, s, raw, code, salt, ms, again, salt');
    CeilDivIs(60, cfg.ratePerMin);
    PaceFits(cfg.ratePerMin);
  }

  /** An input for the very end: with one code a minute, asking again after exactly the sixty
      seconds that were told is refused. */
  lemma ToldSecondsAreNotEnough(cfg: Config, s: Store, raw: string, code: string, salt: nat, again: string, salt': nat)
    requires ValidConfig(cfg) && cfg.ratePerMin == 1 && Step(cfg, s, RequestCode(raw, code, salt)).1.CodeSent?
    ensures var (s1, r) := Step(cfg, s, RequestCode(raw, code, salt));
      && r.retryAfterSec == 60
      && Step(cfg, Step(cfg, s1, Wait(60_000)).0, RequestCode(raw, again, salt')).1 == Failed(RateLimited)
  {
    AskAgain(cfg, s, raw, code, salt, 60_000, again, salt');
  }

  /** The code that was sent logs its phone's user in, as long as it lives. */
  lemma RequestedCodeLogsIn(cfg: Config, s: Store, raw: string, code: string, salt: nat, ms: nat, salt': nat)
    requires ValidConfig(cfg) && Consistent(s) && ms < cfg.otpTtlMs
    requires Step(cfg, s, RequestCode(raw, code, salt)).1.CodeSent?
    ensures var s2 := Step(cfg, Step(cfg, s, RequestCode(raw, code, salt)).0, Wait(ms)).0;
      var r := Step(cfg, s2, VerifyCode(raw, code, salt')).1;
      r.LoggedIn? && r.userId < |s.users| && s.users[r.userId].phone == NormalizePhone(raw)
  {
    var s1 := Step(cfg, s, RequestCode(raw, code, salt)).0;
    var s2 := Step(cfg, s1, Wait(ms)).0;
    RequestOutcome(cfg, s, raw, code, salt);
    StepKeepsConsistent(cfg, s, RequestCode(raw, code, salt));
    assert LiveFor(s2.codes[|s.codes|], NormalizePhone(raw).value, s2.now);
    LoginFindsRegisteredUser(cfg, s2, raw, code, salt');
  }

  // ------------------------------------------------------------------ entering a code

  /** The code at i is the phone's newest that is neither used nor expired. */
  predicate Newest(s: Store, i: int, phone: string) {
    && 0 <= i < |s.codes| && LiveFor(s.codes[i], phone, s.now)
    && forall j :: i < j < |s.codes| ==> !LiveFor(s.codes[j], phone, s.now)
  }

  /** Which login succeeds: the newest live code is compared, unless it has been tried too
      often. A wrong guess is counted on it and on nothing else. */
  lemma VerifyOutcome(cfg: Config, s: Store, raw: string, code: string, salt: nat, i: int)
    requires NormalizePhone(raw).Some? && Newest(s, i, NormalizePhone(raw).value)
    ensures var (s', r) := Step(cfg, s, VerifyCode(raw, code, salt));
      var c := s.codes[i];
      && (r == Failed(CodeLocked) <==> c.attempts >= cfg.maxAttempts) && (r == Failed(CodeLocked) ==> s' == s)
      && (r == Failed(WrongCode) <==> c.attempts < cfg.maxAttempts && !cfg.compare(code, c.codeHash))
      && (r.LoggedIn? <==> c.attempts < cfg.maxAttempts && cfg.compare(code, c.codeHash))
      && (r == Failed(WrongCode) ==> s' == s.(codes := s.codes[i := c.(attempts := c.attempts + 1)]))
      && (r.LoggedIn? ==> s'.codes == s.codes[i := c.(consumedAt := Some(s.now))])
  {
    var found := NewestLive(s.codes, NormalizePhone(raw).value, s.now);
    assert found == Some(i);
  }

  lemma VerifyWithoutCode(cfg: Config, s: Store, raw: string, code: string, salt: nat)
    ensures var (s', r) := Step(cfg, s, VerifyCode(raw, code, salt));
      && (r == Failed(PhoneInvalid) <==> NormalizePhone(raw).None?)
      && (NormalizePhone(raw).Some? ==> (r == Failed(NoLiveCode) <==> !exists i :: Newest(s, i, NormalizePhone(raw).value)))
      && (r == Failed(PhoneInvalid) || r == Failed(NoLiveCode) ==> s' == s)
  {
    if NormalizePhone(raw).Some? {
      var phone := NormalizePhone(raw).value;
      var found := NewestLive(s.codes, phone, s.now);
      if found.Some? { assert Newest(s, found.value, phone); }
    }
  }

  /** A login opens one session of the user, for the tokens it hands out, and writes down when. */
  lemma LoginOpensSession(cfg: Config, s: Store, raw: string, code: string, salt: nat)
    requires ValidConfig(cfg) && Consistent(s) && Step(cfg, s, VerifyCode(raw, code, salt)).1.LoggedIn?
    ensures var (s', r) := Step(cfg, s, VerifyCode(raw, code, salt));
      && r.userId < |s.users| && s.users[r.userId].phone == NormalizePhone(raw)
      && s'.users == s.users[r.userId := s.users[r.userId].(lastLoginAt := Some(s.now))]
      && r.jti == |s.sessions| && |s'.sessions| == |s.sessions| + 1 && s'.sessions[..|s.sessions|] == s.sessions
      && HoldsLiveSession(cfg, s', r.jti, r.refresh) && s'.sessions[r.jti].userId == r.userId
      && s'.sessions[r.jti].expiresAt == s.now + cfg.refreshTtlMs
      && r.access == cfg.signAccess(r.jti, s.now) && s'.now == s.now
  {
    LoginFindsRegisteredUser(cfg, s, raw, code, salt);
  }

  // --------------------------------------------------------------------- refreshing

  /** Which refresh is refused, and why: an unreadable token, a session that is gone, revoked or
      over, a secret that is not the session's. The last one means that a token was forged or
      mixed up, and ends the session. */
  lemma RefreshOutcome(cfg: Config, s: Store, token: string, salt: nat)
    requires Consistent(s)
    ensures var (s', r) := Step(cfg, s, Op.Refresh(token, salt));
      var named := cfg.verifyRefresh(token, s.now);
      && (r == Failed(RefreshInvalid) <==> named.None?)
      && (named.Some? ==>
            var usable := StillLive(s, named.value) && s.now <= s.sessions[named.value].expiresAt;
            && (r == Failed(RefreshRevoked) <==> !usable)
            && (usable ==>
                  && (r == Failed(RefreshMismatch) <==> !cfg.compare(token, s.sessions[named.value].refreshHash))
                  && (r.Refreshed? <==> cfg.compare(token, s.sessions[named.value].refreshHash))
                  && (r == Failed(RefreshMismatch) ==>
                        s' == s.(sessions := s.sessions[named.value := s.sessions[named.value].(revokedAt := Some(s.now))]))))
      && (r == Failed(RefreshInvalid) || r == Failed(RefreshRevoked) ==> s' == s)
  {
  }

  /** An accepted refresh ends the session it names and opens one for the same user. */
  lemma RefreshOpensSession(cfg: Config, s: Store, token: string, salt: nat)
    requires ValidConfig(cfg) && Step(cfg, s, Op.Refresh(token, salt)).1.Refreshed?
    ensures var (s', r) := Step(cfg, s, Op.Refresh(token, salt));
      && s'.users == s.users && s'.codes == s.codes && s'.now == s.now
      && r.oldJti < |s.sessions| == r.jti && |s'.sessions| == |s.sessions| + 1
      && s'.sessions[r.oldJti] == s.sessions[r.oldJti].(revokedAt := Some(s.now))
      && (forall j :: 0 <= j < |s.sessions| && j != r.oldJti ==> s'.sessions[j] == s.sessions[j])
      && HoldsLiveSession(cfg, s', r.jti, r.refresh) && s'.sessions[r.jti].userId == s.sessions[r.oldJti].userId
      && s'.sessions[r.jti].expiresAt == s.now + cfg.refreshTtlMs && r.access == cfg.signAccess(r.jti, s.now)
  {
  }

  // ------------------------------------------------------------- accounts come and go

  /** Creating a user is refused for an invalid phone or one that is taken, and otherwise adds
      the one user; that user can then ask for a code. */
  lemma CreateUserOutcome(cfg: Config, s: Store, raw: string, role: Role, first: Option<string>, last: Option<string>)
    ensures var (s', r) := Step(cfg, s, CreateUser(raw, role, first, last));
      && (r == Failed(PhoneInvalid) <==> NormalizePhone(raw).None?)
      && (NormalizePhone(raw).Some? ==>
            && (r == Failed(PhoneTaken) <==> Registered(s.users, NormalizePhone(raw).value))
            && Registered(s'.users, NormalizePhone(raw).value))
      && (r.Failed? ==> s' == s)
      && (!r.Failed? ==>
            && r == Done && s' == s.(users := s'.users) && |s'.users| == |s.users| + 1 && s'.users[..|s.users|] == s.users
            && var u := s'.users[|s.users|];
               u.phone == NormalizePhone(raw) && u.role == role && u.firstName == first && u.lastName == last
               && u.contactId.None? && u.lastLoginAt.None?)
  {
    var s' := Step(cfg, s, CreateUser(raw, role, first, last)).0;
    if NormalizePhone(raw).Some? {
      var phone := NormalizePhone(raw).value;
      var found := FindUser(s.users, phone);
      if found.None? { assert s'.users[|s.users|].phone == Some(phone); }
    }
  }

  /** Anonymising takes the account's phone and last name and replaces its first name, revokes
      its live sessions and drops its phone's codes; it keeps role and contact, and leaves every
      other account and its sessions alone. */
  lemma AnonymizeOutcome(cfg: Config, s: Store, u: nat)
    ensures var (s', r) := Step(cfg, s, Anonymize(u));
      && (r == Done <==> u < |s.users|) && (r != Done ==> r == Failed(NotFound) && s' == s)
      && (r == Done ==>
            && |s'.users| == |s.users| && |s'.sessions| == |s.sessions| && s'.now == s.now
            && (forall v :: 0 <= v < |s.users| && v != u ==> s'.users[v] == s.users[v])
            && s'.users[u].phone.None? && s'.users[u].lastName.None? && s'.users[u].firstName == Some("Удалённый пользователь")
            && s'.users[u].role == s.users[u].role && s'.users[u].contactId == s.users[u].contactId
            && (forall j :: 0 <= j < |s.sessions| ==>
                  s'.sessions[j] == if s.sessions[j].userId == u && s.sessions[j].revokedAt.None?
                                    then s.sessions[j].(revokedAt := Some(s.now)) else s.sessions[j])
            && (forall c :: c in s'.codes <==> c in s.codes && Some(c.phone) != s.users[u].phone))
  {
    if u < |s.users| && s.users[u].phone.Some? {
      DropPhoneKeepsOthers(s.codes, s.users[u].phone.value);
    }
  }
}
