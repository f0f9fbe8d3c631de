/** When an older one-time code is still accepted after a newer one was requested. */
module OlderCodes {
  import opened Wrappers
  import opened Phone
  import opened Identity
  import opened OtpLimits

  /** A code must be older than this when the next one is requested. */
  function Gap(cfg: Config): nat {
    CeilDiv(60_000, cfg.ratePerMin)
  }

  /** The login consumes a code of the phone although a newer one had been requested. */
  ghost predicate ConsumesOlder(cfg: Config, s: Store, raw: string, code: string, salt: nat) {
    && VerifyCodeStep(cfg, s, raw, code, salt).1.LoggedIn?
    && var phone := NormalizePhone(raw).value;
       exists j :: NewestLive(s.codes, phone, s.now).value < j < |s.codes| && s.codes[j].phone == phone
  }

  /** Codes that live no longer than the pace allows are never alive two at a time. */
  lemma ShortLivedCodesAreNewest(cfg: Config, s: Store, raw: string, code: string, salt: nat)
    requires Paced(cfg, s) && cfg.otpTtlMs <= Gap(cfg) + 1
    ensures !ConsumesOlder(cfg, s, raw, code, salt)
  {
  }

  predicate NoCodeOf(codes: seq<AuthCode>, phone: string) {
    forall i :: 0 <= i < |codes| ==> codes[i].phone != phone
  }

  /** The codes as they are created in the run that follows. */
  function FreshCode(cfg: Config, phone: string, code: string, salt: nat, at: int): AuthCode {
    AuthCode(phone, cfg.hash(code, salt), 0, at + cfg.otpTtlMs, None, at)
  }

  function TwoRequests(raw: string, first: string, second: string, gap: nat, salt: nat): seq<Op> {
    [RequestCode(raw, first, salt), Wait(gap + 1), RequestCode(raw, second, salt)]
  }

  lemma RequestAdds(cfg: Config, s: Store, raw: string, phone: string, code: string, salt: nat)
    requires NormalizePhone(raw) == Some(phone) && FindUser(s.users, phone).Some?
    requires forall i :: 0 <= i < |s.codes| && s.codes[i].phone == phone ==> s.now - s.codes[i].createdAt > Gap(cfg)
    ensures RequestCodeStep(cfg, s, raw, code, salt).0
         == s.(codes := s.codes + [FreshCode(cfg, phone, code, salt, s.now)])
  {
    assert !RequestedSince(s.codes, phone, RateCutoff(cfg, s.now));
    assert RequestCodeStep(cfg, s, raw, code, salt).1.CodeSent?;
    assert RequestCodeStep(cfg, s, raw, code, salt).0.codes == s.codes + [FreshCode(cfg, phone, code, salt, s.now)];
  }

  /** The store after the two requests. */
  function Requested(cfg: Config, s: Store, phone: string, first: string, second: string, salt: nat): Store {
    var later := s.now + Gap(cfg) + 1;
    s.(codes := s.codes + [FreshCode(cfg, phone, first, salt, s.now)] + [FreshCode(cfg, phone, second, salt, later)],
       now := later)
  }

  lemma RequestsMade(cfg: Config, s: Store, raw: string, phone: string, first: string, second: string, salt: nat)
    requires NormalizePhone(raw) == Some(phone) && FindUser(s.users, phone).Some? && NoCodeOf(s.codes, phone)
    ensures Run(cfg, s, TwoRequests(raw, first, second, Gap(cfg), salt)) == Requested(cfg, s, phone, first, second, salt)
  {
    var row, later := FreshCode(cfg, phone, first, salt, s.now), s.now + Gap(cfg) + 1;
    RequestAdds(cfg, s, raw, phone, first, salt);
    RequestAdds(cfg, s.(codes := s.codes + [row], now := later), raw, phone, second, salt);
    RunOfThree(cfg, s, s.(codes := s.codes + [row]), s.(codes := s.codes + [row], now := later),
               RequestCode(raw, first, salt), Wait(Gap(cfg) + 1), RequestCode(raw, second, salt));
  }

  lemma RunOfThree(cfg: Config, s: Store, s1: Store, s2: Store, a: Op, b: Op, c: Op)
    requires s1 == Step(cfg, s, a).0 && s2 == Step(cfg, s1, b).0
    ensures Run(cfg, s, [a, b, c]) == Step(cfg, s2, c).0
  {
    assert [a, b, c][1..] == [b, c] && [b, c][1..] == [c] && [c][1..] == [];
    assert Run(cfg, s2, [c]) == Step(cfg, s2, c).0;
    assert Run(cfg, s1, [b, c]) == Run(cfg, s2, [c]);
  }

  /** Longer-lived codes: the second code logs in, and then the first one does. */
  lemma FirstCodeStillLogsIn(cfg: Config, s: Store, raw: string, phone: string, first: string, second: string, salt: nat)
    requires ValidConfig(cfg) && cfg.otpTtlMs > Gap(cfg) + 1
    requires NormalizePhone(raw) == Some(phone) && FindUser(s.users, phone).Some? && NoCodeOf(s.codes, phone)
    ensures var asked := Run(cfg, s, TwoRequests(raw, first, second, Gap(cfg), salt));
      var (used, reply) := VerifyCodeStep(cfg, asked, raw, second, salt);
      reply.LoggedIn? && ConsumesOlder(cfg, used, raw, first, salt)
  {
    RequestsMade(cfg, s, raw, phone, first, second, salt);
    var asked := Run(cfg, s, TwoRequests(raw, first, second, Gap(cfg), salt));
    var n := |s.codes|;
    assert NewestLive(asked.codes, phone, asked.now) == Some(n + 1);
    var used := VerifyCodeStep(cfg, asked, raw, second, salt).0;
    assert used.codes[n] == FreshCode(cfg, phone, first, salt, s.now);
    assert LiveFor(used.codes[n], phone, used.now);
    assert NewestLive(used.codes, phone, used.now) == Some(n);
    assert used.codes[n + 1].phone == phone;
  }

  /** Where a registered phone has no code yet, some run accepts an older code after a newer
      one was requested exactly when codes live longer than the pace of requests and a
      millisecond. */
  lemma OlderCodeAcceptedIff(cfg: Config, s: Store, raw: string, phone: string)
    requires ValidConfig(cfg) && Paced(cfg, s)
    requires NormalizePhone(raw) == Some(phone) && FindUser(s.users, phone).Some? && NoCodeOf(s.codes, phone)
    ensures (exists ops, raw', code, salt :: ConsumesOlder(cfg, Run(cfg, s, ops), raw', code, salt))
       <==> cfg.otpTtlMs > Gap(cfg) + 1
  {
    if cfg.otpTtlMs > Gap(cfg) + 1 {
      FirstCodeStillLogsIn(cfg, s, raw, phone, "1", "2", 0);
      var ops := TwoRequests(raw, "1", "2", Gap(cfg), 0);
      RunThen(cfg, s, ops, VerifyCode(raw, "2", 0));
      assert ConsumesOlder(cfg, Run(cfg, s, ops + [VerifyCode(raw, "2", 0)]), raw, "1", 0);
    } else {
      forall ops, raw', code, salt ensures !ConsumesOlder(cfg, Run(cfg, s, ops), raw', code, salt) {
        ReachableIsPaced(cfg, s, ops);
        ShortLivedCodesAreNewest(cfg, Run(cfg, s, ops), raw', code, salt);
      }
    }
  }

  lemma {:induction false} RunThen(cfg: Config, s: Store, ops: seq<Op>, last: Op)
    ensures Run(cfg, s, ops + [last]) == Step(cfg, Run(cfg, s, ops), last).0
    decreases ops
  {
    if ops == [] {
      assert [last][1..] == [];
      assert ops + [last] == [last];
    } else {
      assert (ops + [last])[1..] == ops[1..] + [last];
      RunThen(cfg, Step(cfg, s, ops[0]).0, ops[1..], last);
    }
  }
}
