/** The quantitative promise of the one-time-code service: how many wrong codes can be
    compared for one phone in a window of time, and how many logins its codes can give. */
module OtpLimits {
  import opened Wrappers
  import opened Phone
  import opened Identity
  import opened AccountLifecycle

  /** Codes of one phone lie more than 60000 / rate milliseconds apart; attempts never pass
      the maximum; a code lives for exactly its time to live. */
  ghost predicate Paced(cfg: Config, s: Store) {
    && (forall i :: 0 <= i < |s.codes| ==>
          && s.codes[i].attempts <= cfg.maxAttempts
          && s.codes[i].expiresAt == s.codes[i].createdAt + cfg.otpTtlMs
          && s.codes[i].createdAt <= s.now)
    && Spaced(s.codes, CeilDiv(60_000, cfg.ratePerMin))
  }

  predicate Spaced(codes: seq<AuthCode>, gap: int) {
    forall i, j :: 0 <= i < j < |codes| && codes[i].phone == codes[j].phone ==> codes[j].createdAt - codes[i].createdAt > gap
  }

  /** The row the lookup picks is the one created last among the phone's live codes. */
  lemma NewestLiveIsLatest(cfg: Config, s: Store, phone: string, i: nat)
    requires Paced(cfg, s) && i < |s.codes| && LiveFor(s.codes[i], phone, s.now)
    ensures NewestLive(s.codes, phone, s.now).Some?
    ensures var newest := s.codes[NewestLive(s.codes, phone, s.now).value];
      s.codes[i] == newest || s.codes[i].createdAt < newest.createdAt
  {
    var k := NewestLive(s.codes, phone, s.now).value;
    assert i <= k;
  }

  /** Older codes are not cancelled by newer ones: a login consumes the newest live code,
      and the one before it, if it is still alive, is the next to be compared. */
  lemma LoginUncoversOlderCode(cfg: Config, s: Store, phone: string, code: string, salt: nat)
    requires VerifyPhoneStep(cfg, s, phone, code, salt).1.LoggedIn?
    ensures var k := NewestLive(s.codes, phone, s.now).value;
      NewestLive(VerifyPhoneStep(cfg, s, phone, code, salt).0.codes, phone, s.now)
      == NewestLive(s.codes[..k], phone, s.now)
  {
    var k := NewestLive(s.codes, phone, s.now).value;
    ConsumedUncovers(s.codes, k, s.codes[k].(consumedAt := Some(s.now)), phone, s.now);
  }

  lemma ConsumedUncovers(codes: seq<AuthCode>, k: nat, c: AuthCode, phone: string, now: int)
    requires k < |codes| && c.consumedAt.Some?
    requires forall i :: k < i < |codes| ==> !LiveFor(codes[i], phone, now)
    ensures NewestLive(codes[k := c], phone, now) == NewestLive(codes[..k], phone, now)
  {
    var front := NewestLive(codes[..k], phone, now);
    assert forall i :: 0 <= i < k ==> codes[..k][i] == codes[k := c][i];
    if front.Some? {
      assert LiveFor(codes[k := c][front.value], phone, now);
    }
  }

  lemma {:induction false} DropPhoneKeepsSpaced(codes: seq<AuthCode>, phone: string, gap: int)
    requires Spaced(codes, gap)
    ensures Spaced(DropPhone(codes, phone), gap)
  {
    if codes == [] {
    } else {
      var front := codes[..|codes| - 1];
      DropPhoneKeepsSpaced(front, phone, gap);
      DropPhoneKeepsOthers(front, phone);
      var kept := DropPhone(front, phone);
      forall i | 0 <= i < |kept| && kept[i].phone == codes[|front|].phone
        ensures codes[|front|].createdAt - kept[i].createdAt > gap
      {
        assert kept[i] in front;
      }
    }
  }

  lemma RequestKeepsPaced(cfg: Config, s: Store, raw: string, code: string, salt: nat)
    requires Paced(cfg, s)
    ensures Paced(cfg, RequestCodeStep(cfg, s, raw, code, salt).0)
  {
  }

  lemma VerifyKeepsPaced(cfg: Config, s: Store, phone: string, code: string, salt: nat)
    requires Paced(cfg, s)
    ensures Paced(cfg, VerifyPhoneStep(cfg, s, phone, code, salt).0)
  {
    var codes' := VerifyPhoneStep(cfg, s, phone, code, salt).0.codes;
    assert |codes'| == |s.codes|;
    assert forall i :: 0 <= i < |codes'| ==> codes'[i].phone == s.codes[i].phone && codes'[i].createdAt == s.codes[i].createdAt;
  }

  lemma AnonymizeKeepsPaced(cfg: Config, s: Store, id: nat)
    requires Paced(cfg, s)
    ensures Paced(cfg, AnonymizeStep(s, id).0)
  {
    if id < |s.users| && s.users[id].phone.Some? {
      var phone := s.users[id].phone.value;
      DropPhoneKeepsSpaced(s.codes, phone, CeilDiv(60_000, cfg.ratePerMin));
      DropPhoneKeepsOthers(s.codes, phone);
      var codes' := DropPhone(s.codes, phone);
      assert forall i :: 0 <= i < |codes'| ==> codes'[i] in s.codes;
    }
  }

  lemma StepKeepsPaced(cfg: Config, s: Store, op: Op)
    requires Paced(cfg, s)
    ensures Paced(cfg, Step(cfg, s, op).0)
    ensures s.now <= Step(cfg, s, op).0.now
  {
    match op
    case RequestCode(raw, code, salt) => RequestKeepsPaced(cfg, s, raw, code, salt);
    case VerifyCode(raw, code, salt) =>
      if NormalizePhone(raw).Some? {
        VerifyKeepsPaced(cfg, s, NormalizePhone(raw).value, code, salt);
      }
    case Anonymize(id) => AnonymizeKeepsPaced(cfg, s, id);
    case _ =>
  }

  // ------------------------------------------------------------ wrong guesses

  /** The step compares a code for this phone and finds it wrong. */
  predicate WrongGuess(cfg: Config, s: Store, op: Op, phone: string) {
    op.VerifyCode? && NormalizePhone(op.rawPhone) == Some(phone) && Step(cfg, s, op).1 == Failed(WrongCode)
  }

  function WrongGuesses(cfg: Config, s: Store, ops: seq<Op>, phone: string): nat
    decreases ops
  {
    if ops == [] then 0
    else (if WrongGuess(cfg, s, ops[0], phone) then 1 else 0)
         + WrongGuesses(cfg, Step(cfg, s, ops[0]).0, ops[1..], phone)
  }

  predicate AnonymizesHolder(s: Store, op: Op, phone: string) {
    op.Anonymize? && op.userId < |s.users| && s.users[op.userId].phone == Some(phone)
  }

  /** No step of the run anonymises the account that holds the phone. */
  predicate HolderStays(cfg: Config, s: Store, ops: seq<Op>, phone: string)
    decreases ops
  {
    ops == [] || (!AnonymizesHolder(s, ops[0], phone) && HolderStays(cfg, Step(cfg, s, ops[0]).0, ops[1..], phone))
  }

  predicate Counts(c: AuthCode, phone: string, since: int) {
    c.phone == phone && c.createdAt > since
  }

  /** Attempts stored on this phone's codes created after `since`. */
  function AttemptsSince(codes: seq<AuthCode>, phone: string, since: int): nat {
    if codes == [] then 0
    else
      var last := codes[|codes| - 1];
      AttemptsSince(codes[..|codes| - 1], phone, since) + if Counts(last, phone, since) then last.attempts else 0
  }

  function CodesSince(codes: seq<AuthCode>, phone: string, since: int): nat {
    if codes == [] then 0
    else
      CodesSince(codes[..|codes| - 1], phone, since) + if Counts(codes[|codes| - 1], phone, since) then 1 else 0
  }

  lemma {:induction false} AttemptsAfterUpdate(codes: seq<AuthCode>, i: nat, c: AuthCode, phone: string, since: int)
    requires i < |codes| && c.phone == codes[i].phone && c.createdAt == codes[i].createdAt
    ensures AttemptsSince(codes[i := c], phone, since) - AttemptsSince(codes, phone, since)
         == if Counts(codes[i], phone, since) then c.attempts - codes[i].attempts else 0
  {
    var n := |codes| - 1;
    if i == n {
      assert codes[i := c][..n] == codes[..n];
    } else {
      assert codes[i := c][..n] == codes[..n][i := c];
      AttemptsAfterUpdate(codes[..n], i, c, phone, since);
    }
  }

  lemma {:induction false} AttemptsAfterDrop(codes: seq<AuthCode>, other: string, phone: string, since: int)
    requires other != phone
    ensures AttemptsSince(DropPhone(codes, other), phone, since) == AttemptsSince(codes, phone, since)
  {
    if codes == [] {
    } else {
      var n := |codes| - 1;
      AttemptsAfterDrop(codes[..n], other, phone, since);
      var kept := DropPhone(codes[..n], other);
      if codes[n].phone != other {
        assert (kept + [codes[n]])[..|kept|] == kept;
      } else {
        assert kept + [] == kept;
      }
    }
  }

  lemma RequestCountsNothing(cfg: Config, s: Store, raw: string, code: string, salt: nat, phone: string, since: int)
    ensures AttemptsSince(RequestCodeStep(cfg, s, raw, code, salt).0.codes, phone, since)
         == AttemptsSince(s.codes, phone, since)
  {
    var codes' := RequestCodeStep(cfg, s, raw, code, salt).0.codes;
    if |codes'| == |s.codes| + 1 {
      assert codes'[..|s.codes|] == s.codes;
    }
  }

  lemma VerifyCountsAttempts(cfg: Config, s: Store, mine: string, code: string, salt: nat, phone: string, since: int)
    requires Paced(cfg, s) && since <= s.now - cfg.otpTtlMs
    ensures var r := VerifyPhoneStep(cfg, s, mine, code, salt);
      AttemptsSince(r.0.codes, phone, since)
      == AttemptsSince(s.codes, phone, since) + if mine == phone && r.1 == Failed(WrongCode) then 1 else 0
  {
    var found := NewestLive(s.codes, mine, s.now);
    if found.Some? {
      var i := found.value;
      AttemptsAfterUpdate(s.codes, i, s.codes[i].(attempts := s.codes[i].attempts + 1), phone, since);
      AttemptsAfterUpdate(s.codes, i, s.codes[i].(consumedAt := Some(s.now)), phone, since);
    }
  }

  /** Each wrong guess is one stored attempt on a code young enough to be alive. */
  lemma StepCountsAttempts(cfg: Config, s: Store, op: Op, phone: string, since: int)
    requires Paced(cfg, s) && since <= s.now - cfg.otpTtlMs
    requires !AnonymizesHolder(s, op, phone)
    ensures AttemptsSince(Step(cfg, s, op).0.codes, phone, since)
         == AttemptsSince(s.codes, phone, since) + if WrongGuess(cfg, s, op, phone) then 1 else 0
  {
    match op
    case RequestCode(raw, code, salt) => RequestCountsNothing(cfg, s, raw, code, salt, phone, since);
    case VerifyCode(raw, code, salt) =>
      if NormalizePhone(raw).Some? {
        VerifyCountsAttempts(cfg, s, NormalizePhone(raw).value, code, salt, phone, since);
      }
    case Anonymize(id) =>
      if id < |s.users| && s.users[id].phone.Some? {
        AttemptsAfterDrop(s.codes, s.users[id].phone.value, phone, since);
      }
    case _ =>
  }

  lemma {:induction false} RunCountsAttempts(cfg: Config, s: Store, ops: seq<Op>, phone: string, since: int)
    requires Paced(cfg, s) && since <= s.now - cfg.otpTtlMs
    requires HolderStays(cfg, s, ops, phone)
    ensures Paced(cfg, Run(cfg, s, ops)) && s.now <= Run(cfg, s, ops).now
    ensures AttemptsSince(Run(cfg, s, ops).codes, phone, since)
         == AttemptsSince(s.codes, phone, since) + WrongGuesses(cfg, s, ops, phone)
    decreases ops
  {
    if ops == [] {
    } else {
      StepKeepsPaced(cfg, s, ops[0]);
      StepCountsAttempts(cfg, s, ops[0], phone, since);
      RunCountsAttempts(cfg, Step(cfg, s, ops[0]).0, ops[1..], phone, since);
    }
  }

  lemma {:induction false} AttemptsBounded(codes: seq<AuthCode>, phone: string, since: int, max: nat)
    requires forall i :: 0 <= i < |codes| ==> codes[i].attempts <= max
    ensures AttemptsSince(codes, phone, since) <= max * CodesSince(codes, phone, since)
  {
    if codes == [] {
    } else {
      AttemptsBounded(codes[..|codes| - 1], phone, since, max);
      var n := CodesSince(codes[..|codes| - 1], phone, since);
      assert max * (n + 1) == max * n + max;
    }
  }

  /** Codes more than `gap` apart: the last of n codes created after `since` is at least
      (n - 1) * (gap + 1) milliseconds younger than the first. */
  lemma {:induction false} SpacingBoundsCount(codes: seq<AuthCode>, phone: string, since: int, gap: nat, until: int)
    requires Spaced(codes, gap)
    requires forall i :: 0 <= i < |codes| && codes[i].phone == phone ==> codes[i].createdAt <= until
    ensures CodesSince(codes, phone, since) > 0 ==> (CodesSince(codes, phone, since) - 1) * (gap + 1) < until - since
  {
    if codes == [] {
    } else {
      var n := |codes| - 1;
      var front, last := codes[..n], codes[n];
      if Counts(last, phone, since) {
        SpacingBoundsCount(front, phone, since, gap, last.createdAt - gap - 1);
        var k := CodesSince(front, phone, since);
        if k > 0 {
          assert k * (gap + 1) == (k - 1) * (gap + 1) + (gap + 1);
        }
      } else {
        SpacingBoundsCount(front, phone, since, gap, until);
      }
    }
  }

  lemma CeilDivCovers(a: nat, b: Positive)
    ensures CeilDiv(a, b) * b >= a
  {
    var x := a + b - 1;
    assert x == (x / b) * b + x % b;
  }

  lemma CeilDivAbove(m: nat, x: nat)
    ensures m * 60_000 < x ==> m + 1 <= CeilDiv(x, 60_000)
  {
  }

  lemma MultiplyMonotone(a: nat, n: nat, m: nat)
    ensures n <= m ==> a * n <= a * m && n * a <= m * a
  {
  }

  lemma CountFitsWindow(n: nat, gap: nat, length: nat, rate: Positive)
    requires n > 0 && length > 0
    requires gap == CeilDiv(60_000, rate) && (n - 1) * (gap + 1) < length
    ensures n <= CeilDiv(length * rate, 60_000)
  {
    var m, g := n - 1, gap + 1;
    CeilDivCovers(60_000, rate);
    MultiplyMonotone(rate, gap, g);
    MultiplyMonotone(m, 60_000, g * rate);
    MultiplyMonotone(rate, m * g, length - 1);
    Reassociate(m, g, rate);
    StrictlyLess(length, rate);
    CeilDivAbove(m, length * rate);
  }

  lemma Reassociate(a: nat, b: nat, c: nat)
    ensures a * (b * c) == (a * b) * c
  {
  }

  lemma StrictlyLess(length: Positive, rate: Positive)
    ensures (length - 1) * rate < length * rate
  {
    assert length * rate == (length - 1) * rate + rate;
  }

  /** In any window of T milliseconds in which the phone's account is not anonymised, at
      most maxAttempts * ceil((T + ttl) / W) wrong codes are compared for the phone, where
      W = 60000 / ratePerMin. */
  lemma {:induction false} WrongGuessesBounded(cfg: Config, s: Store, ops: seq<Op>, phone: string, window: nat)
    requires Paced(cfg, s) && HolderStays(cfg, s, ops, phone)
    requires Run(cfg, s, ops).now - s.now <= window && window + cfg.otpTtlMs > 0
    ensures WrongGuesses(cfg, s, ops, phone)
         <= cfg.maxAttempts * CeilDiv((window + cfg.otpTtlMs) * cfg.ratePerMin, 60_000)
  {
    var s', since := Run(cfg, s, ops), s.now - cfg.otpTtlMs;
    RunCountsAttempts(cfg, s, ops, phone, since);
    CodesInWindow(cfg, s', phone, since, window + cfg.otpTtlMs);
    assert WrongGuesses(cfg, s, ops, phone) <= AttemptsSince(s'.codes, phone, since);
  }

  lemma CodesInWindow(cfg: Config, s: Store, phone: string, since: int, length: nat)
    requires Paced(cfg, s) && s.now <= since + length && length > 0
    ensures AttemptsSince(s.codes, phone, since) <= cfg.maxAttempts * CeilDiv(length * cfg.ratePerMin, 60_000)
  {
    var gap := CeilDiv(60_000, cfg.ratePerMin);
    AttemptsBounded(s.codes, phone, since, cfg.maxAttempts);
    SpacingBoundsCount(s.codes, phone, since, gap, since + length);
    var n := CodesSince(s.codes, phone, since);
    if n > 0 {
      CountFitsWindow(n, gap, length, cfg.ratePerMin);
      MultiplyMonotone(cfg.maxAttempts, n, CeilDiv(length * cfg.ratePerMin, 60_000));
    }
  }

  /** Every store reachable from an empty one is paced, so the bound holds for every
      window of every run. */
  lemma {:induction false} ReachableIsPaced(cfg: Config, s: Store, ops: seq<Op>)
    requires Paced(cfg, s)
    ensures Paced(cfg, Run(cfg, s, ops))
    decreases ops
  {
    if ops == [] {
    } else {
      StepKeepsPaced(cfg, s, ops[0]);
      ReachableIsPaced(cfg, Step(cfg, s, ops[0]).0, ops[1..]);
    }
  }

  // ------------------------------------------------------- logins and requests

  function Requests(cfg: Config, s: Store, ops: seq<Op>, phone: string): nat
    decreases ops
  {
    if ops == [] then 0
    else (if ops[0].RequestCode? && NormalizePhone(ops[0].rawPhone) == Some(phone) && Step(cfg, s, ops[0]).1.CodeSent?
          then 1 else 0)
         + Requests(cfg, Step(cfg, s, ops[0]).0, ops[1..], phone)
  }

  function Logins(cfg: Config, s: Store, ops: seq<Op>, phone: string): nat
    decreases ops
  {
    if ops == [] then 0
    else (if ops[0].VerifyCode? && NormalizePhone(ops[0].rawPhone) == Some(phone) && Step(cfg, s, ops[0]).1.LoggedIn?
          then 1 else 0)
         + Logins(cfg, Step(cfg, s, ops[0]).0, ops[1..], phone)
  }

  /** Codes of the phone that have not been consumed. */
  function Unused(codes: seq<AuthCode>, phone: string): nat {
    if codes == [] then 0
    else
      var last := codes[|codes| - 1];
      Unused(codes[..|codes| - 1], phone) + if last.phone == phone && last.consumedAt.None? then 1 else 0
  }

  lemma {:induction false} UnusedAfterUpdate(codes: seq<AuthCode>, i: nat, c: AuthCode, phone: string)
    requires i < |codes| && c.phone == codes[i].phone && codes[i].consumedAt.None?
    ensures Unused(codes[i := c], phone)
         == Unused(codes, phone) - if c.phone == phone && c.consumedAt.Some? then 1 else 0
  {
    var n := |codes| - 1;
    if i == n {
      assert codes[i := c][..n] == codes[..n];
    } else {
      assert codes[i := c][..n] == codes[..n][i := c];
      UnusedAfterUpdate(codes[..n], i, c, phone);
    }
  }

  lemma {:induction false} UnusedAfterDrop(codes: seq<AuthCode>, other: string, phone: string)
    ensures Unused(DropPhone(codes, other), phone) <= Unused(codes, phone)
  {
    if codes == [] {
    } else {
      var n := |codes| - 1;
      UnusedAfterDrop(codes[..n], other, phone);
      var kept := DropPhone(codes[..n], other);
      if codes[n].phone != other {
        assert (kept + [codes[n]])[..|kept|] == kept;
      } else {
        assert kept + [] == kept;
      }
    }
  }

  lemma VerifySpendsCode(cfg: Config, s: Store, mine: string, code: string, salt: nat, phone: string)
    ensures var r := VerifyPhoneStep(cfg, s, mine, code, salt);
      Unused(r.0.codes, phone) + (if mine == phone && r.1.LoggedIn? then 1 else 0) <= Unused(s.codes, phone)
  {
    var found := NewestLive(s.codes, mine, s.now);
    if found.Some? {
      var i := found.value;
      UnusedAfterUpdate(s.codes, i, s.codes[i].(attempts := s.codes[i].attempts + 1), phone);
      UnusedAfterUpdate(s.codes, i, s.codes[i].(consumedAt := Some(s.now)), phone);
    }
  }

  lemma StepSpendsCodes(cfg: Config, s: Store, op: Op, phone: string)
    ensures Unused(Step(cfg, s, op).0.codes, phone) + Logins(cfg, s, [op], phone)
         <= Unused(s.codes, phone) + Requests(cfg, s, [op], phone)
  {
    match op
    case RequestCode(raw, code, salt) =>
      var codes' := Step(cfg, s, op).0.codes;
      if |codes'| == |s.codes| + 1 {
        assert codes'[..|s.codes|] == s.codes;
      }
    case VerifyCode(raw, code, salt) =>
      if NormalizePhone(raw).Some? {
        VerifySpendsCode(cfg, s, NormalizePhone(raw).value, code, salt, phone);
      }
    case Anonymize(id) =>
      if id < |s.users| && s.users[id].phone.Some? {
        UnusedAfterDrop(s.codes, s.users[id].phone.value, phone);
      }
    case _ =>
  }

  /** Successful logins for a phone never outnumber the codes requested for it. */
  lemma {:induction false} LoginsNeverExceedRequests(cfg: Config, s: Store, ops: seq<Op>, phone: string)
    ensures Unused(Run(cfg, s, ops).codes, phone) + Logins(cfg, s, ops, phone)
         <= Unused(s.codes, phone) + Requests(cfg, s, ops, phone)
    decreases ops
  {
    if ops == [] {
    } else {
      StepSpendsCodes(cfg, s, ops[0], phone);
      LoginsNeverExceedRequests(cfg, Step(cfg, s, ops[0]).0, ops[1..], phone);
    }
  }
}
