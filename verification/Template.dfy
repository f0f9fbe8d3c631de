/** `{{name}}` substitution (substitute in apps/api/src/notifications/notifications.vars.ts). */
module Template {
  import opened Wrappers

  /** What the variables give for a key; a key they do not know renders as nothing. */
  type Vars = string -> Option<string>

  /** \w */
  predicate IsWord(c: char) {
    || 'a' <= c <= 'z'
    || 'A' <= c <= 'Z'
    || '0' <= c <= '9'
    || c == '_'
  }

  predicate IsKey(k: string) {
    k != "" && forall i :: 0 <= i < |k| ==> IsWord(k[i])
  }

  function Placeholder(key: string): string {
    "{{" + key + "}}"
  }

  /** The pattern occurs at position `i` with this key: the reference for what is a placeholder. */
  predicate Occurs(t: string, i: nat, key: string) {
    IsKey(key) && i + |key| + 4 <= |t| && t[i..i + |key| + 4] == Placeholder(key)
  }

  /** Length of the longest run of word characters at the start. */
  function WordRun(s: string): (n: nat)
    ensures n <= |s| && (n < |s| ==> !IsWord(s[n])) && forall i :: 0 <= i < n ==> IsWord(s[i])
  {
    if s == "" || !IsWord(s[0]) then 0 else 1 + WordRun(s[1..])
  }

  /** /\{\{(\w+)\}\}/ tried at the start of `s`. */
  function Match(s: string): Option<string> {
    if |s| < 4 || s[..2] != "{{" then None
    else
      var n := WordRun(s[2..]);
      if n > 0 && n + 4 <= |s| && s[n + 2..n + 4] == "}}" then Some(s[2..n + 2]) else None
  }

  /** text.replace with the global pattern: matches are sought from left to right,
      each search starts where the last match ended. */
  function Substitute(text: string, vars: Vars): string {
    if text == "" then ""
    else
      match Match(text)
      case Some(key) =>
        MatchSound(text);
        vars(key).GetOr("") + Substitute(text[|key| + 4..], vars)
      case None => [text[0]] + Substitute(text[1..], vars)
  }

  lemma MatchSound(s: string)
    ensures Match(s).Some? ==> Occurs(s, 0, Match(s).value)
  {
    if Match(s).Some? {
      var key := Match(s).value;
      assert s[..|key| + 4] == s[..2] + s[2..|key| + 2] + s[|key| + 2..|key| + 4];
      assert forall i :: 0 <= i < |key| ==> key[i] == s[2..][i];
    }
  }

  /** The greedy match finds the placeholder that is there: a key cannot contain a brace. */
  lemma MatchComplete(s: string, key: string)
    requires Occurs(s, 0, key)
    ensures Match(s) == Some(key)
  {
    var p := Placeholder(key);
    assert p == s[..|key| + 4];
    assert p[..2] == "{{" && p[2..|key| + 2] == key && p[|key| + 2..] == "}}";
    assert forall i :: 0 <= i < |key| ==> s[2..][i] == key[i];
    assert s[2..][|key|] == p[|key| + 2] == '}';
    assert s[..2] == p[..2] && s[2..|key| + 2] == key && s[|key| + 2..|key| + 4] == p[|key| + 2..];
    assert WordRun(s[2..]) == |key|;
  }

  // ---- the parse -------------------------------------------------------------------

  datatype Part = Lit(c: char) | Hole(key: string)

  /** The first part of a text, and how much of the text it covers. */
  function Head(text: string): (p: Part)
    requires text != ""
    ensures 0 < |Source(p)| <= |text| && text[..|Source(p)|] == Source(p)
  {
    match Match(text)
    case Some(key) =>
      MatchSound(text);
      Hole(key)
    case None => Lit(text[0])
  }

  function Rest(text: string): (r: string)
    requires text != ""
    ensures |r| < |text| && text == Source(Head(text)) + r
  {
    text[|Source(Head(text))|..]
  }

  function Parse(text: string): seq<Part> {
    if text == "" then [] else [Head(text)] + Parse(Rest(text))
  }

  function Source(p: Part): string {
    match p
    case Lit(c) => [c]
    case Hole(key) => Placeholder(key)
  }

  function Unparse(parts: seq<Part>): string {
    if parts == [] then "" else Source(parts[0]) + Unparse(parts[1..])
  }

  function Value(p: Part, vars: Vars): string {
    match p
    case Lit(c) => [c]
    case Hole(key) => vars(key).GetOr("")
  }

  function Render(parts: seq<Part>, vars: Vars): string {
    if parts == [] then "" else Value(parts[0], vars) + Render(parts[1..], vars)
  }

  /** The part at offset `i` of the text is a placeholder for `key`. */
  predicate HoleAt(parts: seq<Part>, i: int, key: string) {
    && parts != []
    && if i <= 0 then i == 0 && parts[0] == Hole(key)
       else HoleAt(parts[1..], i - |Source(parts[0])|, key)
  }

  lemma {:induction false} UnparseParse(text: string)
    ensures Unparse(Parse(text)) == text
  {
    if text == "" {
    } else {
      UnparseParse(Rest(text));
      assert Parse(text)[1..] == Parse(Rest(text));
    }
  }

  /** Text replacement one match at a time is one rendering of the parse. */
  lemma {:induction false} SubstituteRendersTheParse(text: string, vars: Vars)
    ensures Substitute(text, vars) == Render(Parse(text), vars)
  {
    if text == "" {
    } else {
      SubstituteHead(text, vars);
      SubstituteRendersTheParse(Rest(text), vars);
      assert Parse(text)[1..] == Parse(Rest(text));
    }
  }

  lemma SubstituteHead(text: string, vars: Vars)
    requires text != ""
    ensures Substitute(text, vars) == Value(Head(text), vars) + Substitute(Rest(text), vars)
  {
  }

  /** Giving every key its own placeholder back leaves the text as it was. */
  lemma {:induction false} IdentityVars(text: string, vars: Vars)
    requires forall key :: vars(key) == Some(Placeholder(key))
    ensures Substitute(text, vars) == text
  {
    if text == "" {
    } else {
      SubstituteHead(text, vars);
      IdentityVars(Rest(text), vars);
    }
  }

  // ---- every occurrence is replaced, and nothing else is touched ---------------------

  lemma OccurrenceChar(t: string, i: nat, key: string, d: nat)
    requires Occurs(t, i, key) && d < |key| + 4
    ensures t[i + d] == Placeholder(key)[d]
  {
    assert t[i..i + |key| + 4][d] == t[i + d];
  }

  /** Two opening braces do not stand inside a placeholder, except at its start. */
  lemma NoOpeningInside(t: string, i: nat, key: string, d: nat)
    requires Occurs(t, i, key) && 0 < d < |key| + 4
    ensures t[i + d] != '{' || i + d + 1 == |t| || t[i + d + 1] != '{'
  {
    OccurrenceChar(t, i, key, d);
    if d == 1 {
      OccurrenceChar(t, i, key, 2);
      assert IsWord(key[0]);
    } else if d < |key| + 2 {
      assert IsWord(key[d - 2]);
    }
  }

  /** Placeholders never overlap: none begins inside another one. */
  lemma OccurrencesDisjoint(t: string, i: nat, k: string, j: nat, l: string)
    requires Occurs(t, i, k) && Occurs(t, j, l) && i <= j
    ensures (i == j && k == l) || i + |k| + 4 <= j
  {
    if i == j {
      Shift(t, i, i, k);
      Shift(t, i, i, l);
      MatchComplete(t[i..], k);
      MatchComplete(t[i..], l);
    } else {
      OccurrenceChar(t, j, l, 0);
      OccurrenceChar(t, j, l, 1);
      if j < i + |k| + 4 {
        NoOpeningInside(t, i, k, j - i);
      }
    }
  }

  lemma Shift(t: string, n: nat, i: nat, key: string)
    requires n <= i && n <= |t|
    ensures Occurs(t[n..], i - n, key) <==> Occurs(t, i, key)
  {
    if i + |key| + 4 <= |t| {
      assert t[n..][i - n..i - n + |key| + 4] == t[i..i + |key| + 4];
    }
  }

  lemma Truncate(t: string, n: nat, i: nat, key: string)
    requires n <= |t|
    ensures Occurs(t[..n], i, key) <==> Occurs(t, i, key) && i + |key| + 4 <= n
  {
    if i + |key| + 4 <= n {
      assert t[..n][i..i + |key| + 4] == t[i..i + |key| + 4];
    }
  }

  /** The placeholders of the parse are exactly the places where the pattern occurs. */
  lemma {:induction false} HolesAreOccurrences(t: string, i: nat, key: string)
    ensures HoleAt(Parse(t), i, key) <==> Occurs(t, i, key)
    decreases |t|
  {
    if t == "" {
    } else {
      if i == 0 {
        HeadIsOccurrence(t, key);
      } else {
        ParseStep(t);
        HoleInTail(Parse(t), Head(t), Parse(Rest(t)), i, key);
        var n := |Source(Head(t))|;
        if i < n {
          OnlyHeadInside(t, i, key);
        } else {
          HolesAreOccurrences(Rest(t), i - n, key);
          Shift(t, n, i, key);
        }
      }
    }
  }

  lemma ParseStep(t: string)
    requires t != ""
    ensures Parse(t) == [Head(t)] + Parse(Rest(t))
  {
  }

  lemma HoleInTail(whole: seq<Part>, p: Part, rest: seq<Part>, i: nat, key: string)
    requires whole == [p] + rest && i > 0
    ensures HoleAt(whole, i, key) <==> HoleAt(rest, i - |Source(p)|, key)
  {
    assert whole[1..] == rest;
  }

  lemma HeadIsOccurrence(t: string, key: string)
    requires t != ""
    ensures Head(t) == Hole(key) <==> Occurs(t, 0, key)
  {
    MatchSound(t);
    if Occurs(t, 0, key) {
      MatchComplete(t, key);
    }
  }

  lemma OnlyHeadInside(t: string, i: nat, key: string)
    requires t != "" && 0 < i < |Source(Head(t))|
    ensures !Occurs(t, i, key)
  {
    MatchSound(t);
    if Occurs(t, i, key) {
      OccurrencesDisjoint(t, 0, Match(t).value, i, key);
    }
  }

  function Joined(before: string, key: string, after: string): string {
    before + Placeholder(key) + after
  }

  /** The parse splits at every placeholder: what stands before and after it is
      parsed as if it stood alone. */
  lemma {:induction false} ParseSplits(before: string, key: string, after: string)
    requires IsKey(key)
    ensures Parse(Joined(before, key, after)) == Parse(before) + [Hole(key)] + Parse(after)
    decreases |before|
  {
    var t := Joined(before, key, after);
    if before == "" {
      PlaceholderHead(key, after);
    } else {
      JoinedHead(before, key, after);
      ParseSplits(Rest(before), key, after);
      PrependToSplit([Head(before)], Parse(Rest(before)), [Hole(key)], Parse(after));
    }
  }

  lemma PrependToSplit(h: seq<Part>, a: seq<Part>, b: seq<Part>, c: seq<Part>)
    ensures h + (a + b + c) == (h + a) + b + c
  {
  }

  lemma Cut(a: string, p: string, b: string)
    ensures (a + p + b)[|a|..|a| + |p|] == p && (a + p + b)[..|a|] == a && (a + p + b)[|a| + |p|..] == b
  {
  }

  lemma PlaceholderHead(key: string, after: string)
    requires IsKey(key)
    ensures Head(Joined("", key, after)) == Hole(key) && Rest(Joined("", key, after)) == after
  {
    Cut("", Placeholder(key), after);
    HeadIsOccurrence(Joined("", key, after), key);
  }

  /** What follows does not change the first part of a text that stands before a placeholder. */
  lemma JoinedHead(before: string, key: string, after: string)
    requires IsKey(key) && before != ""
    ensures Head(Joined(before, key, after)) == Head(before)
    ensures Rest(Joined(before, key, after)) == Joined(Rest(before), key, after)
  {
    var t := Joined(before, key, after);
    Cut(before, Placeholder(key), after);
    HeadBefore(t, |before|, key);
    CutHead(Source(Head(before)), Rest(before), Placeholder(key), after);
  }

  lemma CutHead(h: string, r: string, p: string, b: string)
    ensures ((h + r) + p + b)[|h|..] == r + p + b
  {
  }

  /** The part before a later placeholder starts the way the whole text does. */
  lemma HeadBefore(t: string, i: nat, key: string)
    requires Occurs(t, i, key) && i > 0
    ensures Head(t[..i]) == Head(t)
  {
    if Match(t).Some? {
      var first := Match(t).value;
      HeadIsOccurrence(t, first);
      OccurrencesDisjoint(t, 0, first, i, key);
      Truncate(t, i, 0, first);
      HeadIsOccurrence(t[..i], first);
    } else if Match(t[..i]).Some? {
      var first := Match(t[..i]).value;
      HeadIsOccurrence(t[..i], first);
      Truncate(t, i, 0, first);
      HeadIsOccurrence(t, first);
    }
  }

  lemma {:induction false} RenderConcat(a: seq<Part>, b: seq<Part>, vars: Vars)
    ensures Render(a + b, vars) == Render(a, vars) + Render(b, vars)
  {
    if a == [] {
      assert a + b == b;
    } else {
      assert (a + b)[1..] == a[1..] + b;
      RenderConcat(a[1..], b, vars);
    }
  }

  /** A placeholder is replaced by its value verbatim, whatever that value contains, and
      what stands before and after it is substituted as if it stood alone. */
  lemma PlaceholderReplaced(before: string, key: string, after: string, vars: Vars)
    requires IsKey(key)
    ensures Substitute(Joined(before, key, after), vars)
         == Substitute(before, vars) + vars(key).GetOr("") + Substitute(after, vars)
  {
    ParseSplits(before, key, after);
    RenderConcat(Parse(before) + [Hole(key)], Parse(after), vars);
    RenderConcat(Parse(before), [Hole(key)], vars);
    assert Render([Hole(key)], vars) == vars(key).GetOr("");
    SubstituteRendersTheParse(Joined(before, key, after), vars);
    SubstituteRendersTheParse(before, vars);
    SubstituteRendersTheParse(after, vars);
  }

  /** A text in which the pattern does not occur is left alone. */
  lemma {:induction false} NoPlaceholderNoChange(t: string, vars: Vars)
    requires forall i: nat, key :: !Occurs(t, i, key)
    ensures Substitute(t, vars) == t
  {
    if t == "" {
    } else {
      if Match(t).Some? {
        HeadIsOccurrence(t, Match(t).value);
      }
      SubstituteHead(t, vars);
      forall i: nat, key ensures !Occurs(Rest(t), i, key) {
        Shift(t, 1, i + 1, key);
      }
      NoPlaceholderNoChange(Rest(t), vars);
    }
  }

  /** One pass only: the text that comes out may contain a placeholder, which
      a second substitution would replace. */
  lemma ResultNotRescanned(vars: Vars)
    requires vars("a") == Some("b") && vars("b") == Some("c")
    ensures Substitute(Joined("{{", "a", "}}"), vars) == Placeholder("b")
    ensures Substitute(Placeholder("b"), vars) == "c"
  {
    PlaceholderReplaced("{{", "a", "}}", vars);
    NoPlaceholderNoChange("{{", vars);
    NoPlaceholderNoChange("}}", vars);
    PlaceholderReplaced("", "b", "", vars);
    assert Joined("", "b", "") == Placeholder("b");
  }
}
