/** Phone normalisation (apps/api/src/common/phone.ts). */
module Phone {
  import opened Sequences
  import opened Wrappers

  predicate IsDigit(c: char) {
    '0' <= c <= '9'
  }

  /** White space and line terminators as String.prototype.trim removes them. */
  predicate IsSpace(c: char) {
    || '\t' <= c <= '\r'
    || c == ' '
    || c == '\U{00A0}'
    || c == '\U{1680}'
    || c == '\U{2028}'
    || c == '\U{2029}'
    || c == '\U{202F}'
    || c == '\U{205F}'
    || c == '\U{3000}'
    || c == '\U{FEFF}'
    || '\U{2000}' <= c <= '\U{200A}'
  }

  /** raw.replace(/\D/g, '') */
  function Digits(s: string): string {
    if s == "" then "" else (if IsDigit(s[0]) then [s[0]] else "") + Digits(s[1..])
  }

  /** raw.trim().startsWith('+') */
  predicate HadPlus(s: string) {
    s != "" && (s[0] == '+' || (IsSpace(s[0]) && HadPlus(s[1..])))
  }

  function NormalizePhone(raw: string): Option<string> {
    var d := Digits(raw);
    if raw == "" then None
    else if HadPlus(raw) then
      if |d| == 11 && d[0] == '7' then Some("+" + d) else None
    else if |d| == 11 && d[0] == '8' then Some("+7" + d[1..])
    else if |d| == 11 && d[0] == '7' then Some("+" + d)
    else if |d| == 10 then Some("+7" + d)
    else None
  }

  /** What user-creating code stores: the normal form, or the raw text of a foreign number. */
  function StoredPhone(raw: string): string {
    NormalizePhone(raw).GetOr(raw)
  }

  /** Canonical E.164 form of a Russian number: `+7` and ten digits. */
  predicate Canonical(p: string) {
    |p| == 12 && p[..2] == "+7" && AllDigits(p[2..])
  }

  predicate AllDigits(s: string) {
    forall i :: 0 <= i < |s| ==> IsDigit(s[i])
  }

  lemma {:induction false} DigitsConcat(a: string, b: string)
    ensures Digits(a + b) == Digits(a) + Digits(b)
  {
    if a == "" {
      assert a + b == b;
    } else {
      var first := if IsDigit(a[0]) then [a[0]] else "";
      TailOfConcat(a, b);
      DigitsConcat(a[1..], b);
      ConcatAssociates(first, Digits(a[1..]), Digits(b));
    }
  }

  lemma {:induction false} DigitsAreDigits(s: string)
    ensures AllDigits(Digits(s))
  {
    if s == "" {
    } else {
      DigitsAreDigits(s[1..]);
    }
  }

  lemma {:induction false} DigitsOfDigits(s: string)
    requires AllDigits(s)
    ensures Digits(s) == s
  {
    if s == "" {
    } else {
      DigitsOfDigits(s[1..]);
    }
  }

  /** The fixed points of normalisation are exactly the canonical numbers. */
  lemma FixedPointIffCanonical(p: string)
    ensures NormalizePhone(p) == Some(p) <==> Canonical(p)
  {
    if NormalizePhone(p) == Some(p) {
      NormalIsCanonical(p);
    }
    if Canonical(p) {
      assert p[0] == p[..2][0] && p[1] == p[..2][1];
      assert AllDigits(p[1..]) by {
        assert forall i :: 1 <= i < 11 ==> p[1..][i] == p[2..][i - 1];
      }
      DigitsOfDigits(p[1..]);
      assert Digits(p) == p[1..];
      assert p == "+" + p[1..];
    }
  }

  lemma NormalIsCanonical(raw: string)
    ensures NormalizePhone(raw).Some? ==> Canonical(NormalizePhone(raw).value)
  {
    DigitsAreDigits(raw);
  }

  /** Normalising twice is normalising once, and so is storing. */
  lemma NormalizeIdempotent(raw: string)
    ensures NormalizePhone(raw).Some? ==> NormalizePhone(NormalizePhone(raw).value) == NormalizePhone(raw)
    ensures StoredPhone(StoredPhone(raw)) == StoredPhone(raw)
  {
    NormalIsCanonical(raw);
    if NormalizePhone(raw).Some? {
      FixedPointIffCanonical(NormalizePhone(raw).value);
    }
  }

  predicate HasVisible(s: string) {
    exists i :: 0 <= i < |s| && !IsSpace(s[i])
  }

  /** The inserted character leaves the leading plus as it is: it is white space, or stands
      behind a visible character, or is a second plus or no plus in front of the first one. */
  predicate KeepsPlus(a: string, c: char, b: string) {
    IsSpace(c) || HasVisible(a) || (c == '+' <==> HadPlus(b))
  }

  /** Only the leading plus and the digits matter: any other character may stand anywhere. */
  lemma SeparatorsDoNotMatter(a: string, c: char, b: string)
    requires !IsDigit(c) && KeepsPlus(a, c, b)
    ensures NormalizePhone(a + [c] + b) == NormalizePhone(a + b)
  {
    DigitsConcat(a + [c], b);
    DigitsConcat(a, [c]);
    DigitsConcat(a, b);
    assert Digits([c]) == "" && Digits(a) + "" == Digits(a);
    assert Digits(a + [c] + b) == Digits(a + b);
    PlusKeptIff(a, c, b);
  }

  lemma {:induction false} PlusKeptIff(a: string, c: char, b: string)
    ensures HadPlus(a + [c] + b) == HadPlus(a + b) <==> KeepsPlus(a, c, b)
  {
    if a == "" {
      assert (a + [c] + b)[1..] == b == a + b;
    } else {
      TailOfConcat(a, [c]);
      TailOfConcat(a + [c], b);
      TailOfConcat(a, b);
      VisibleTail(a);
      if IsSpace(a[0]) {
        PlusKeptIff(a[1..], c, b);
      }
    }
  }

  lemma VisibleTail(s: string)
    requires s != ""
    ensures HasVisible(s) <==> !IsSpace(s[0]) || HasVisible(s[1..])
  {
    assert forall i :: 1 <= i < |s| ==> s[i] == s[1..][i - 1];
    assert forall i :: 0 <= i < |s| - 1 ==> s[1..][i] == s[i + 1];
  }

  /** The accepted spellings of one Russian number (bare, with the trunk digit 7 or 8,
      and international) have one normal form. */
  lemma SpellingsAgree(ten: string, trunk: char)
    requires |ten| == 10 && AllDigits(ten)
    requires trunk == '7' || trunk == '8'
    ensures NormalizePhone(ten) == Some("+7" + ten)
    ensures NormalizePhone([trunk] + ten) == Some("+7" + ten)
    ensures NormalizePhone("+7" + ten) == Some("+7" + ten)
  {
    BareSpelling(ten);
    TrunkSpelling(ten, trunk);
    assert ("+7" + ten)[..2] == "+7" && ("+7" + ten)[2..] == ten;
    FixedPointIffCanonical("+7" + ten);
  }

  lemma BareSpelling(ten: string)
    requires |ten| == 10 && AllDigits(ten)
    ensures NormalizePhone(ten) == Some("+7" + ten)
  {
    DigitsOfDigits(ten);
    assert IsDigit(ten[0]);
  }

  lemma TrunkSpelling(ten: string, trunk: char)
    requires |ten| == 10 && AllDigits(ten)
    requires trunk == '7' || trunk == '8'
    ensures NormalizePhone([trunk] + ten) == Some("+7" + ten)
  {
    var raw := [trunk] + ten;
    DigitsOfDigits(raw);
    assert raw[0] == trunk && raw[1..] == ten;
    assert "+" + ("7" + ten) == "+7" + ten;
  }

  /** Which texts are taken for a Russian number: with a plus in front, eleven digits of which
      the first is 7; without, ten digits, or eleven of which the first is 7 or 8. */
  lemma AcceptedIff(raw: string)
    ensures var d := Digits(raw);
      NormalizePhone(raw).Some? <==>
        if HadPlus(raw) then |d| == 11 && d[0] == '7' else |d| == 10 || (|d| == 11 && (d[0] == '7' || d[0] == '8'))
  {
  }

  lemma LastTen(d: string, normal: string)
    requires |d| == 10 || |d| == 11
    requires normal == if |d| == 10 then "+7" + d else if d[0] == '8' then "+7" + d[1..] else "+" + d
    requires |d| == 11 && d[0] != '8' ==> d[0] == '7'
    ensures |normal| == 12 && normal[..2] == "+7" && normal[2..] == d[|d| - 10..]
  {
  }

  /** The number itself is the last ten digits. */
  lemma NormalIsLastTen(raw: string)
    requires NormalizePhone(raw).Some?
    ensures var d, normal := Digits(raw), NormalizePhone(raw).value;
      |d| >= 10 && |normal| == 12 && normal[..2] == "+7" && normal[2..] == d[|d| - 10..]
  {
    LastTen(Digits(raw), NormalizePhone(raw).value);
  }
}
