/** Escaping and inline markup of the Markdown converter (esc and inline in scripts/build-pdf.cjs). */
module HtmlText {
  import opened Sequences
  import opened Wrappers

  // ---- characters that remember where they come from --------------------------------

  /** A character of the page: copied from the document, written by the converter, or the
      `at`-th character of the entity that stands for the document's character `of`. */
  datatype Ch = In(c: char) | Out(c: char) | Ent(c: char, of: char, at: nat)

  type Html = seq<Ch>

  function FromInput(s: string): Html {
    if s == "" then [] else [In(s[0])] + FromInput(s[1..])
  }

  function Tag(s: string): (h: Html)
    ensures |h| == |s| && forall i :: 0 <= i < |s| ==> h[i] == Out(s[i])
  {
    seq(|s|, i requires 0 <= i < |s| => Out(s[i]))
  }

  function Text(h: Html): string {
    if h == [] then "" else [h[0].c] + Text(h[1..])
  }

  /** No angle bracket of the page comes from the document. */
  predicate Clean(h: Html) {
    forall i :: 0 <= i < |h| && !h[i].Out? ==> h[i].c != '<' && h[i].c != '>'
  }

  /** The characters of a replacement remember what they replace. */
  function Spelled(sub: string, of: char): (h: Html)
    ensures |h| == |sub| && forall i :: 0 <= i < |sub| ==> h[i] == Ent(sub[i], of, i)
  {
    seq(|sub|, i requires 0 <= i < |sub| => Ent(sub[i], of, i))
  }

  function ReplaceChar(s: Html, c: char, sub: string): Html {
    if s == [] then [] else (if s[0].c == c then Spelled(sub, c) else [s[0]]) + ReplaceChar(s[1..], c, sub)
  }

  function Esc(s: string): Html {
    ReplaceChar(ReplaceChar(ReplaceChar(FromInput(s), '&', "&amp;"), '<', "&lt;"), '>', "&gt;")
  }

  /** Length of [^stop]* at the start. */
  function Run(s: Html, stop: char): (n: nat)
    ensures n <= |s| && (n < |s| ==> s[n].c == stop)
  {
    if s == [] || s[0].c == stop then 0 else 1 + Run(s[1..], stop)
  }

  /** The three replacements of inline, one pass over the text each. */
  datatype Markup = CodeSpan | BoldText | Link

  /** The first `size` characters become their part [from..to], in the tag if there is one. */
  datatype Step = Step(from: nat, to: nat, size: nat, tag: Option<string>) {
    predicate Fits(s: Html) {
      from <= to <= size <= |s| && size > 0
    }
  }

  /** What the pattern of the pass does at the start of the text. Its three patterns are
      ` ([^`]+) `, two asterisks around [^*]+, and [ [^\]]+ ] followed by ( [^)]+ ). */
  function FirstStep(m: Markup, s: Html): (st: Step)
    requires s != []
    ensures st.Fits(s)
  {
    match m
    case CodeSpan =>
      var n := if s[0].c == '`' then Run(s[1..], '`') else 0;
      if n > 0 && n + 1 < |s| then Step(1, n + 1, n + 2, Some("code")) else Step(0, 1, 1, None)
    case BoldText =>
      var n := if |s| > 1 && s[0].c == '*' && s[1].c == '*' then Run(s[2..], '*') else 0;
      if n > 0 && n + 3 < |s| && s[n + 3].c == '*' then Step(2, n + 2, n + 4, Some("strong")) else Step(0, 1, 1, None)
    case Link =>
      var n := if s[0].c == '[' then Run(s[1..], ']') else 0;
      var k := if 0 < n < |s| - 2 && s[n + 2].c == '(' then Run(s[n + 3..], ')') else 0;
      if k > 0 && n + k + 3 < |s| then Step(1, n + 1, n + k + 4, None) else Step(0, 1, 1, None)
  }

  function Write(s: Html, st: Step): Html
    requires st.Fits(s)
  {
    match st.tag
    case Some(tag) => Wrapped(tag, s[st.from..st.to])
    case None => s[st.from..st.to]
  }

  function Pass(m: Markup, s: Html): Html
    decreases |s|
  {
    if s == [] then []
    else
      var st := FirstStep(m, s);
      Write(s, st) + Pass(m, s[st.size..])
  }

  function Wrapped(tag: string, h: Html): Html {
    Tag("<" + tag + ">") + h + Tag("</" + tag + ">")
  }

  function Inline(s: Html): Html {
    Pass(Link, Pass(BoldText, Pass(CodeSpan, s)))
  }

  // ---- escaping ---------------------------------------------------------------------

  function EntityText(c: char): string {
    match c
    case '&' => "&amp;"
    case '<' => "&lt;"
    case '>' => "&gt;"
    case _ => ""
  }

  /** What one character of the document becomes. */
  function Entity(c: char): Html {
    if EntityText(c) == "" then [In(c)] else Spelled(EntityText(c), c)
  }

  function EscOnePass(s: string): Html {
    if s == "" then [] else Entity(s[0]) + EscOnePass(s[1..])
  }

  lemma {:induction false} ReplaceConcat(a: Html, b: Html, c: char, sub: string)
    ensures ReplaceChar(a + b, c, sub) == ReplaceChar(a, c, sub) + ReplaceChar(b, c, sub)
  {
    if a == [] {
      assert a + b == b;
    } else {
      assert (a + b)[1..] == a[1..] + b;
      ReplaceConcat(a[1..], b, c, sub);
    }
  }

  lemma {:induction false} ReplaceAbsent(s: Html, c: char, sub: string)
    requires forall i :: 0 <= i < |s| ==> s[i].c != c
    ensures ReplaceChar(s, c, sub) == s
  {
    if s == [] {
    } else {
      ReplaceAbsent(s[1..], c, sub);
    }
  }

  lemma ReplaceOne(h: Ch, c: char, sub: string)
    ensures ReplaceChar([h], c, sub) == if h.c == c then Spelled(sub, c) else [h]
  {
    assert ReplaceChar([h][1..], c, sub) == [];
  }

  lemma EscOne(c: char)
    ensures ReplaceChar(ReplaceChar(ReplaceChar([In(c)], '&', "&amp;"), '<', "&lt;"), '>', "&gt;") == Entity(c)
  {
    ReplaceOne(In(c), '&', "&amp;");
    ReplaceOne(In(c), '<', "&lt;");
    ReplaceOne(In(c), '>', "&gt;");
    if c == '&' {
      ReplaceAbsent(Spelled("&amp;", '&'), '<', "&lt;");
      ReplaceAbsent(Spelled("&amp;", '&'), '>', "&gt;");
    } else if c == '<' {
      ReplaceAbsent(Spelled("&lt;", '<'), '>', "&gt;");
    }
  }

  /** The three replacements, the ampersand first, are one pass over the characters:
      no entity is escaped a second time. */
  lemma {:induction false} EscIsOnePass(s: string)
    ensures Esc(s) == EscOnePass(s)
  {
    if s == "" {
    } else {
      var h, rest := [In(s[0])], FromInput(s[1..]);
      ReplaceConcat(h, rest, '&', "&amp;");
      var h1, rest1 := ReplaceChar(h, '&', "&amp;"), ReplaceChar(rest, '&', "&amp;");
      ReplaceConcat(h1, rest1, '<', "&lt;");
      ReplaceConcat(ReplaceChar(h1, '<', "&lt;"), ReplaceChar(rest1, '<', "&lt;"), '>', "&gt;");
      EscOne(s[0]);
      EscIsOnePass(s[1..]);
    }
  }

  predicate StartsWith(s: string, p: string) {
    |p| <= |s| && forall i :: 0 <= i < |p| ==> s[i] == p[i]
  }

  /** The character a browser reads at the start of the text, and how far it reads. */
  function ReadChar(t: string): (r: (char, nat))
    requires t != ""
    ensures 0 < r.1 <= |t|
  {
    if StartsWith(t, "&amp;") then ('&', 5)
    else if StartsWith(t, "&lt;") then ('<', 4)
    else if StartsWith(t, "&gt;") then ('>', 4)
    else (t[0], 1)
  }

  function Decode(t: string): string {
    if t == "" then "" else [ReadChar(t).0] + Decode(t[ReadChar(t).1..])
  }

  lemma {:induction false} TextConcat(a: Html, b: Html)
    ensures Text(a + b) == Text(a) + Text(b)
  {
    if a == [] {
      assert a + b == b;
    } else {
      assert (a + b)[1..] == a[1..] + b;
      TextConcat(a[1..], b);
    }
  }

  lemma {:induction false} TextIs(h: Html, t: string)
    requires |h| == |t| && forall i :: 0 <= i < |t| ==> h[i].c == t[i]
    ensures Text(h) == t
  {
    if h == [] {
    } else {
      TextIs(h[1..], t[1..]);
    }
  }

  /** The page shows the text of the document: reading escaped text gives it back. */
  lemma {:induction false} EscapedTextIsRead(s: string)
    ensures Decode(Text(Esc(s))) == s
  {
    EscIsOnePass(s);
    if s == "" {
    } else {
      EscIsOnePass(s[1..]);
      EscapedTextIsRead(s[1..]);
      TextConcat(Entity(s[0]), EscOnePass(s[1..]));
      DecodeEntity(s[0], Text(EscOnePass(s[1..])));
    }
  }

  lemma DecodeEntity(c: char, rest: string)
    ensures Decode(Text(Entity(c)) + rest) == [c] + Decode(rest)
  {
    var t := Text(Entity(c));
    ReadEntity(c, rest);
    assert (t + rest)[|t|..] == rest;
  }

  lemma ReadEntity(c: char, rest: string)
    ensures var t := Text(Entity(c)); t != "" && ReadChar(t + rest) == (c, |t|)
  {
    if c == '&' {
      TextIs(Spelled("&amp;", '&'), "&amp;");
    } else if c == '<' {
      TextIs(Spelled("&lt;", '<'), "&lt;");
      assert ("&lt;" + rest)[1] != "&amp;"[1];
    } else if c == '>' {
      TextIs(Spelled("&gt;", '>'), "&gt;");
      assert ("&gt;" + rest)[1] != "&amp;"[1] && ("&gt;" + rest)[1] != "&lt;"[1];
    } else {
      assert Text([In(c)][1..]) == "";
      assert ([c] + rest)[0] != "&amp;"[0] == "&lt;"[0] == "&gt;"[0];
    }
  }

  // ---- inline markup adds tags and drops markers, nothing else ------------------------

  /** The characters of the document that the page keeps; an entity counts for the
      character it stands for. */
  function Kept(h: Html): string {
    if h == [] then "" else KeptChar(h[0]) + Kept(h[1..])
  }

  function KeptChar(h: Ch): string {
    match h
    case In(c) => [c]
    case Out(_) => ""
    case Ent(_, of, at) => if at == 0 then [of] else ""
  }

  /** `x` is `y` with some characters left out. */
  predicate Subsequence(x: string, y: string) {
    || x == ""
    || (y != "" && ((x[0] == y[0] && Subsequence(x[1..], y[1..])) || Subsequence(x, y[1..])))
  }

  /** The page part `h` keeps, in order, nothing but text of `s`. */
  predicate Keeps(h: Html, s: Html) {
    Subsequence(Kept(h), Kept(s))
  }

  lemma {:induction false} KeptConcat(a: Html, b: Html)
    ensures Kept(a + b) == Kept(a) + Kept(b)
  {
    if a == [] {
      assert a + b == b;
    } else {
      assert (a + b)[0] == a[0] && (a + b)[1..] == a[1..] + b;
      KeptConcat(a[1..], b);
      assert KeptChar(a[0]) + (Kept(a[1..]) + Kept(b)) == (KeptChar(a[0]) + Kept(a[1..])) + Kept(b);
    }
  }

  lemma {:induction false} KeptOfTag(s: string)
    ensures Kept(Tag(s)) == ""
  {
    if s == "" {
    } else {
      KeptOfTag(s[1..]);
      assert Tag(s)[1..] == Tag(s[1..]);
    }
  }

  lemma {:induction false} SubsequencePrepend(x: string, p: string, y: string)
    requires Subsequence(x, y)
    ensures Subsequence(x, p + y)
  {
    if p == "" {
      assert p + y == y;
    } else {
      SubsequencePrepend(x, p[1..], y);
      assert (p + y)[1..] == p[1..] + y;
    }
  }

  lemma {:induction false} SubsequenceConcat(a: string, b: string, x: string, y: string)
    requires Subsequence(a, b) && Subsequence(x, y)
    ensures Subsequence(a + x, b + y)
    decreases |b|
  {
    if a == "" {
      SubsequencePrepend(x, b, y);
      assert a + x == x;
    } else {
      assert (b + y)[1..] == b[1..] + y;
      assert (a + x)[1..] == a[1..] + x;
      if Subsequence(a, b[1..]) {
        SubsequenceConcat(a, b[1..], x, y);
      } else {
        SubsequenceConcat(a[1..], b[1..], x, y);
      }
    }
  }

  lemma {:induction false} SubsequenceTransitive(x: string, y: string, z: string)
    requires Subsequence(x, y) && Subsequence(y, z)
    ensures Subsequence(x, z)
    decreases |z|
  {
    if x == "" || z == "" {
    } else if Subsequence(y, z[1..]) {
      SubsequenceTransitive(x, y, z[1..]);
    } else if Subsequence(x, y[1..]) {
      SubsequenceTransitive(x, y[1..], z[1..]);
    } else {
      SubsequenceTransitive(x[1..], y[1..], z[1..]);
    }
  }

  lemma {:induction false} SubsequenceItself(x: string)
    ensures Subsequence(x, x)
  {
    if x == "" {
    } else {
      SubsequenceItself(x[1..]);
    }
  }

  lemma WrappedKept(tag: string, h: Html)
    ensures Kept(Wrapped(tag, h)) == Kept(h)
  {
    KeptConcat(Tag("<" + tag + ">") + h, Tag("</" + tag + ">"));
    KeptConcat(Tag("<" + tag + ">"), h);
    KeptOfTag("<" + tag + ">");
    KeptOfTag("</" + tag + ">");
  }

  lemma StepKeeps(s: Html, st: Step)
    requires st.Fits(s)
    ensures Keeps(Write(s, st), s[..st.size])
  {
    var mid := s[st.from..st.to];
    if st.tag.Some? {
      WrappedKept(st.tag.value, mid);
    }
    PartKeeps(s[..st.from], mid, s[st.to..st.size]);
    assert s[..st.size] == s[..st.from] + mid + s[st.to..st.size];
  }

  lemma PartKeeps(pre: Html, mid: Html, post: Html)
    ensures Keeps(mid, pre + mid + post)
  {
    KeptConcat(pre + mid, post);
    KeptConcat(pre, mid);
    MiddleIsSubsequence(Kept(pre), Kept(mid), Kept(post));
  }

  lemma MiddleIsSubsequence(a: string, b: string, c: string)
    ensures Subsequence(b, a + b + c)
  {
    SubsequenceItself(b);
    SubsequencePrepend(b, a, b);
    SubsequenceConcat(b, a + b, "", c);
    assert b + "" == b;
  }

  lemma {:induction false} PassKeeps(m: Markup, s: Html)
    ensures Keeps(Pass(m, s), s)
    decreases |s|
  {
    if s == [] {
    } else {
      var st := FirstStep(m, s);
      StepKeeps(s, st);
      PassKeeps(m, s[st.size..]);
      KeepsJoined(Write(s, st), Pass(m, s[st.size..]), s, st.size);
    }
  }

  lemma KeepsJoined(h1: Html, h2: Html, s: Html, k: nat)
    requires k <= |s| && Keeps(h1, s[..k]) && Keeps(h2, s[k..])
    ensures Keeps(h1 + h2, s)
  {
    KeptConcat(h1, h2);
    KeptConcat(s[..k], s[k..]);
    Rejoin(s, k);
    SubsequenceConcat(Kept(h1), Kept(s[..k]), Kept(h2), Kept(s[k..]));
  }

  /** Inline markup never invents, repeats or reorders text of the document. */
  lemma InlineKeeps(s: Html)
    ensures Keeps(Inline(s), s)
  {
    var a := Pass(CodeSpan, s);
    var b := Pass(BoldText, a);
    PassKeeps(CodeSpan, s);
    PassKeeps(BoldText, a);
    PassKeeps(Link, b);
    SubsequenceTransitive(Kept(b), Kept(a), Kept(s));
    SubsequenceTransitive(Kept(Pass(Link, b)), Kept(b), Kept(s));
  }

  lemma {:induction false} KeptSpelled(sub: string, of: char)
    requires sub != ""
    ensures Kept(Spelled(sub, of)) == [of]
  {
    var h := Spelled(sub, of);
    KeptNothing(h[1..]);
  }

  lemma {:induction false} KeptNothing(h: Html)
    requires forall i :: 0 <= i < |h| ==> h[i].Ent? && h[i].at > 0
    ensures Kept(h) == ""
  {
    if h == [] {
    } else {
      KeptNothing(h[1..]);
    }
  }

  /** Escaping keeps the whole text. */
  lemma {:induction false} EscKeepsAll(s: string)
    ensures Kept(Esc(s)) == s
  {
    EscIsOnePass(s);
    if s == "" {
    } else {
      EscIsOnePass(s[1..]);
      EscKeepsAll(s[1..]);
      KeptConcat(Entity(s[0]), EscOnePass(s[1..]));
      if EntityText(s[0]) != "" {
        KeptSpelled(EntityText(s[0]), s[0]);
      } else {
        assert [In(s[0])][1..] == [];
      }
    }
  }

  // ---- entities stay in one piece -----------------------------------------------------

  /** The character that has to follow: the next one of an entity that is not complete. */
  function Owed(left: Option<Ch>): Option<Ch> {
    match left
    case Some(Ent(_, of, at)) =>
      if at + 1 < |EntityText(of)| then Some(Ent(EntityText(of)[at + 1], of, at + 1)) else None
    case _ => None
  }

  predicate Follows(left: Option<Ch>, right: Option<Ch>) {
    if Owed(left).Some? then right == Owed(left)
    else right.Some? && right.value.Ent? ==> right == Some(Ent('&', right.value.of, 0)) && EntityText(right.value.of) != ""
  }

  /** Read after the character `left`, the text holds nothing but complete entities. */
  predicate Whole(left: Option<Ch>, h: Html)
    decreases h
  {
    if h == [] then Follows(left, None) else Follows(left, Some(h[0])) && Whole(Some(h[0]), h[1..])
  }

  lemma {:induction false} WholeJoin(left: Option<Ch>, a: Html, b: Html)
    requires Whole(left, a) && Whole(None, b)
    ensures Whole(left, a + b)
    decreases a
  {
    if a == [] {
      assert a + b == b;
    } else {
      TailOfConcat(a, b);
      WholeJoin(Some(a[0]), a[1..], b);
    }
  }

  /** After a character that is no part of an entity, reading starts afresh. */
  lemma {:induction false} WholeAfter(left: Option<Ch>, s: Html, p: nat)
    requires Whole(left, s) && 0 < p <= |s| && !s[p - 1].Ent?
    ensures Whole(None, s[p..])
    decreases s
  {
    if p == 1 {
    } else {
      WholeAfter(Some(s[0]), s[1..], p - 1);
      assert s[1..][p - 1..] == s[p..];
    }
  }

  /** Before a character that is no part of an entity, none is cut. */
  lemma {:induction false} WholeBefore(left: Option<Ch>, s: Html, p: nat)
    requires Whole(left, s) && p < |s| && !s[p].Ent?
    ensures Whole(left, s[..p])
    decreases s
  {
    if p == 0 {
      assert s[..0] == [];
    } else {
      WholeBefore(Some(s[0]), s[1..], p - 1);
      assert s[..p][1..] == s[1..][..p - 1];
    }
  }

  predicate IsMarker(c: char) {
    c in "`*[]()"
  }

  lemma {:induction false} MarkersStandAlone(left: Option<Ch>, s: Html, p: nat)
    requires Whole(left, s) && p < |s| && IsMarker(s[p].c)
    ensures !s[p].Ent?
    decreases s
  {
    if p == 0 {
      OwedIsLetter(left);
    } else {
      MarkersStandAlone(Some(s[0]), s[1..], p - 1);
    }
  }

  lemma OwedIsLetter(left: Option<Ch>)
    ensures Owed(left).Some? ==> !IsMarker(Owed(left).value.c)
  {
    assert forall c :: c in "`*[]()" ==> c !in "amp;" && c !in "lt;" && c !in "gt;";
  }

  /** A step that is not a plain copy cuts at markers only. */
  predicate CutsAtMarkers(s: Html, st: Step) {
    && st.Fits(s) && 0 < st.from && st.to < st.size
    && IsMarker(s[0].c) && IsMarker(s[st.from - 1].c) && IsMarker(s[st.to].c) && IsMarker(s[st.size - 1].c)
  }

  lemma StepCuts(m: Markup, s: Html)
    requires s != []
    ensures FirstStep(m, s) == Step(0, 1, 1, None) || CutsAtMarkers(s, FirstStep(m, s))
  {
  }

  /** What stands between two markers, and what follows a marker. */
  lemma WholeBetween(left: Option<Ch>, s: Html, from: nat, to: nat)
    requires Whole(left, s) && 0 < from <= to < |s| && IsMarker(s[from - 1].c) && IsMarker(s[to].c)
    ensures Whole(None, s[from..to])
  {
    var rest := s[from..];
    MarkersStandAlone(left, s, from - 1);
    WholeAfter(left, s, from);
    MarkersStandAlone(None, rest, to - from);
    WholeBefore(None, rest, to - from);
    assert rest[..to - from] == s[from..to];
  }

  lemma WholePart(left: Option<Ch>, s: Html, st: Step)
    requires Whole(left, s) && CutsAtMarkers(s, st)
    ensures Whole(None, s[st.from..st.to]) && Whole(None, s[st.size..])
  {
    WholeBetween(left, s, st.from, st.to);
    MarkersStandAlone(left, s, st.size - 1);
    WholeAfter(left, s, st.size);
  }

  lemma {:induction false} TagWhole(s: string)
    ensures Whole(None, Tag(s))
  {
    OutsWhole(None, Tag(s));
  }

  lemma {:induction false} OutsWhole(left: Option<Ch>, h: Html)
    requires (left.Some? ==> left.value.Out?) && forall i :: 0 <= i < |h| ==> h[i].Out?
    ensures Whole(left, h)
    decreases h
  {
    if h == [] {
    } else {
      OutsWhole(Some(h[0]), h[1..]);
    }
  }

  lemma WriteWhole(left: Option<Ch>, s: Html, st: Step)
    requires Whole(left, s) && CutsAtMarkers(s, st)
    ensures Whole(None, Write(s, st))
  {
    WholePart(left, s, st);
    if st.tag.Some? {
      var tag := st.tag.value;
      TagWhole("<" + tag + ">");
      TagWhole("</" + tag + ">");
      WholeJoin(None, Tag("<" + tag + ">"), s[st.from..st.to]);
      WholeJoin(None, Tag("<" + tag + ">") + s[st.from..st.to], Tag("</" + tag + ">"));
    }
  }

  /** A text that may start after `None` may start after any character that owes nothing. */
  lemma WholeAnywhere(left: Option<Ch>, h: Html)
    requires Owed(left).None? && Whole(None, h)
    ensures Whole(left, h)
  {
  }

  lemma {:induction false} PassWhole(m: Markup, left: Option<Ch>, s: Html)
    requires Whole(left, s)
    ensures Whole(left, Pass(m, s))
    decreases |s|
  {
    if s == [] {
    } else {
      var st := FirstStep(m, s);
      StepCuts(m, s);
      if st == Step(0, 1, 1, None) {
        PassWhole(m, Some(s[0]), s[1..]);
        assert Write(s, st) == [s[0]];
        assert ([s[0]] + Pass(m, s[1..]))[1..] == Pass(m, s[1..]);
      } else {
        WriteWhole(left, s, st);
        WholePart(left, s, st);
        PassWhole(m, None, s[st.size..]);
        WholeJoin(None, Write(s, st), Pass(m, s[st.size..]));
        MarkersStandAlone(left, s, 0);
        WholeAnywhere(left, Write(s, st) + Pass(m, s[st.size..]));
      }
    }
  }

  lemma {:induction false} EscWhole(s: string)
    ensures Whole(None, Esc(s))
  {
    EscIsOnePass(s);
    if s == "" {
    } else {
      EscIsOnePass(s[1..]);
      EscWhole(s[1..]);
      EntityWhole(s[0]);
      WholeJoin(None, Entity(s[0]), EscOnePass(s[1..]));
    }
  }

  lemma EntityWhole(c: char)
    ensures Whole(None, Entity(c))
  {
    if EntityText(c) == "" {
      assert [In(c)][1..] == [];
    } else {
      RestWhole(c, 0);
      assert Entity(c)[0..] == Entity(c);
    }
  }

  lemma {:induction false} RestWhole(c: char, k: nat)
    requires k < |EntityText(c)|
    ensures Entity(c)[k] == Ent(EntityText(c)[k], c, k) && Whole(Some(Entity(c)[k]), Entity(c)[k + 1..])
    ensures k == 0 ==> Whole(None, Entity(c)[0..])
    decreases |EntityText(c)| - k
  {
    if k + 1 < |EntityText(c)| {
      RestWhole(c, k + 1);
      assert Entity(c)[k + 1..][1..] == Entity(c)[k + 2..];
    } else {
      assert Entity(c)[k + 1..] == [];
    }
    if k == 0 {
      assert Entity(c)[0..][1..] == Entity(c)[1..];
    }
  }

  /** What the page shows of a text: its characters, some left out, none invented, repeated
      or moved, and every entity complete. */
  lemma InlineShowsText(s: string)
    ensures Subsequence(Kept(Inline(Esc(s))), s)
    ensures Whole(None, Inline(Esc(s)))
  {
    InlineKeeps(Esc(s));
    EscKeepsAll(s);
    EscWhole(s);
    PassWhole(CodeSpan, None, Esc(s));
    PassWhole(BoldText, None, Pass(CodeSpan, Esc(s)));
    PassWhole(Link, None, Pass(BoldText, Pass(CodeSpan, Esc(s))));
  }

  // ---- no angle bracket from the document ---------------------------------------------

  lemma CleanConcat(a: Html, b: Html)
    ensures Clean(a + b) <==> Clean(a) && Clean(b)
  {
    assert forall i :: 0 <= i < |b| ==> b[i] == (a + b)[|a| + i];
    assert forall i :: 0 <= i < |a| ==> a[i] == (a + b)[i];
  }

  lemma EntityClean(c: char)
    ensures Clean(Entity(c))
  {
  }

  lemma {:induction false} EscClean(s: string)
    ensures Clean(Esc(s))
  {
    EscIsOnePass(s);
    if s == "" {
    } else {
      EscIsOnePass(s[1..]);
      EscClean(s[1..]);
      EntityClean(s[0]);
      CleanConcat(Entity(s[0]), EscOnePass(s[1..]));
    }
  }

  lemma WriteClean(s: Html, st: Step)
    requires st.Fits(s) && Clean(s)
    ensures Clean(Write(s, st))
  {
    var part := s[st.from..st.to];
    assert Clean(part);
    if st.tag.Some? {
      var tag := st.tag.value;
      CleanConcat(Tag("<" + tag + ">") + part, Tag("</" + tag + ">"));
      CleanConcat(Tag("<" + tag + ">"), part);
    }
  }

  lemma {:induction false} PassClean(m: Markup, s: Html)
    requires Clean(s)
    ensures Clean(Pass(m, s))
    decreases |s|
  {
    if s == [] {
    } else {
      var st := FirstStep(m, s);
      WriteClean(s, st);
      PassClean(m, s[st.size..]);
      CleanConcat(Write(s, st), Pass(m, s[st.size..]));
    }
  }

  lemma InlineClean(s: string)
    ensures Clean(Inline(Esc(s)))
  {
    EscClean(s);
    PassClean(CodeSpan, Esc(s));
    PassClean(BoldText, Pass(CodeSpan, Esc(s)));
    PassClean(Link, Pass(BoldText, Pass(CodeSpan, Esc(s))));
  }
}
