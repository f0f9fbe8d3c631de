/** What a browser reads from the page of the Markdown converter (scripts/build-pdf.cjs): for
    each block its element with its whole text, and for inline markup the text it marks. */
module MarkdownText {
  import opened HtmlText
  import opened LinePatterns
  import opened Markdown
  import opened Sequences
  import opened Wrappers
  import MarkdownPage

  // ---- reading a page -----------------------------------------------------------------

  /** What is read: a tag by its name, or a character that is shown. */
  datatype Seen = Mark(name: string) | Shown(c: char)

  const WITHIN_TAG: Ch -> bool := (x: Ch) => x.c != '>'

  /** A tag runs from an angle bracket that the converter wrote to the next one that closes; an
      entity shows the character it stands for. */
  function Read(h: Html): seq<Seen>
    decreases |h|
  {
    if h == [] then []
    else match h[0]
      case In(c) => [Shown(c)] + Read(h[1..])
      case Ent(_, of, at) => (if at == 0 then [Shown(of)] else []) + Read(h[1..])
      case Out(c) =>
        if c != '<' then [Shown(c)] + Read(h[1..])
        else
          var end := Skip(h, 1, WITHIN_TAG);
          [Mark(Text(h[1..end]))] + Read(if end < |h| then h[end + 1..] else [])
  }

  function Chars(s: string): seq<Seen> {
    if s == "" then [] else [Shown(s[0])] + Chars(s[1..])
  }

  /** Whatever follows it, this part of the page is read like that. */
  ghost predicate Reads(h: Html, seen: seq<Seen>) {
    forall rest: Html :: Read(h + rest) == seen + Read(rest)
  }

  lemma ReadWhole(h: Html, seen: seq<Seen>)
    requires Reads(h, seen)
    ensures Read(h) == seen
  {
    assert Read(h + []) == seen + Read([]);
    assert h + [] == h && seen + [] == seen;
  }

  lemma ReadsNothing()
    ensures Reads([], [])
  {
    forall rest: Html ensures Read([] + rest) == [] + Read(rest) {
      assert [] + rest == rest;
    }
  }

  lemma ReadsConcat(a: Html, x: seq<Seen>, b: Html, y: seq<Seen>)
    requires Reads(a, x) && Reads(b, y)
    ensures Reads(a + b, x + y)
  {
    forall rest: Html ensures Read((a + b) + rest) == (x + y) + Read(rest) {
      ConcatAssociates(a, b, rest);
      assert Read(a + (b + rest)) == x + Read(b + rest);
      ConcatAssociates(x, y, Read(rest));
    }
  }

  lemma ReadsThree(a: Html, x: seq<Seen>, b: Html, y: seq<Seen>, c: Html, z: seq<Seen>)
    requires Reads(a, x) && Reads(b, y) && Reads(c, z)
    ensures Reads(a + b + c, x + y + z)
  {
    ReadsConcat(a, x, b, y);
    ReadsConcat(a + b, x + y, c, z);
  }

  predicate TagName(name: string) {
    '>' !in name
  }

  lemma ReadsTag(name: string)
    requires TagName(name)
    ensures Reads(Tag("<" + name + ">"), [Mark(name)])
  {
    forall rest: Html ensures Read(Tag("<" + name + ">") + rest) == [Mark(name)] + Read(rest) {
      var h := Tag("<" + name + ">") + rest;
      var end := |name| + 1;
      assert h[0] == Out('<') && h[end] == Out('>');
      assert forall k :: 1 <= k < end ==> h[k] == Out(name[k - 1]);
      SkipIs(h, 1, end, WITHIN_TAG);
      assert h[1..end] == Tag(name);
      TextIs(Tag(name), name);
      assert h[end + 1..] == rest;
    }
  }

  lemma ReadsNewline()
    ensures Reads(Tag("\n"), [Shown('\n')])
  {
    forall rest: Html ensures Read(Tag("\n") + rest) == [Shown('\n')] + Read(rest) {
      assert (Tag("\n") + rest)[0] == Out('\n') && (Tag("\n") + rest)[1..] == rest;
    }
  }

  lemma {:induction false} ReadsRest(of: char, k: nat, rest: Html)
    requires 0 < k <= |EntityText(of)|
    ensures Read(Spelled(EntityText(of), of)[k..] + rest) == Read(rest)
    decreases |EntityText(of)| - k
  {
    var h := Spelled(EntityText(of), of)[k..];
    if k == |EntityText(of)| {
      assert h + rest == rest;
    } else {
      assert (h + rest)[0] == Ent(EntityText(of)[k], of, k);
      assert (h + rest)[1..] == Spelled(EntityText(of), of)[k + 1..] + rest;
      ReadsRest(of, k + 1, rest);
    }
  }

  lemma ReadsEntity(c: char)
    ensures Reads(Entity(c), [Shown(c)])
  {
    forall rest: Html ensures Read(Entity(c) + rest) == [Shown(c)] + Read(rest) {
      if EntityText(c) == "" {
        assert ([In(c)] + rest)[1..] == rest;
      } else {
        assert (Entity(c) + rest)[0] == Ent(EntityText(c)[0], c, 0);
        assert (Entity(c) + rest)[1..] == Spelled(EntityText(c), c)[1..] + rest;
        ReadsRest(c, 1, rest);
      }
    }
  }

  /** Escaped text is read as the text. */
  lemma {:induction false} ReadsEsc(s: string)
    ensures Reads(Esc(s), Chars(s))
  {
    EscIsOnePass(s);
    if s == "" {
      ReadsNothing();
    } else {
      EscIsOnePass(s[1..]);
      ReadsEsc(s[1..]);
      ReadsEntity(s[0]);
      ReadsConcat(Entity(s[0]), [Shown(s[0])], EscOnePass(s[1..]), Chars(s[1..]));
    }
  }

  function Element(name: string, inside: seq<Seen>): seq<Seen> {
    [Mark(name)] + inside + [Mark("/" + name)]
  }

  lemma ReadsWrapped(name: string, h: Html, seen: seq<Seen>)
    requires TagName(name) && Reads(h, seen)
    ensures Reads(Wrapped(name, h), Element(name, seen))
  {
    ReadsTag(name);
    ReadsTag("/" + name);
    assert "<" + ("/" + name) + ">" == "</" + name + ">";
    ReadsConcat(Tag("<" + name + ">"), [Mark(name)], h, seen);
    ReadsConcat(Tag("<" + name + ">") + h, [Mark(name)] + seen, Tag("</" + name + ">"), [Mark("/" + name)]);
  }

  // ---- inline markup ------------------------------------------------------------------

  /** A stretch of a text: plain, `code`, **bold**, or [a link](to somewhere). */
  datatype Span = Plain(text: string) | CodeOf(text: string) | BoldOf(text: string) | LinkTo(text: string, target: string)

  function SourceOf(x: Span): string {
    match x
    case Plain(t) => t
    case CodeOf(t) => "`" + t + "`"
    case BoldOf(t) => "**" + t + "**"
    case LinkTo(t, u) => "[" + t + "](" + u + ")"
  }

  function Source(xs: seq<Span>): string {
    if xs == [] then "" else SourceOf(xs[0]) + Source(xs[1..])
  }

  predicate NoMarkers(s: string) {
    '`' !in s && '*' !in s && '[' !in s
  }

  /** What is marked is some text without markers of its own. */
  predicate Simple(x: Span) {
    && NoMarkers(x.text)
    && (x.Plain? || x.text != "")
    && (x.LinkTo? ==> ']' !in x.text && x.target != "" && NoMarkers(x.target) && ')' !in x.target)
  }

  predicate AllSimple(xs: seq<Span>) {
    forall i :: 0 <= i < |xs| ==> Simple(xs[i])
  }

  function SeenSpan(x: Span): seq<Seen> {
    match x
    case Plain(t) => Chars(t)
    case CodeOf(t) => Element("code", Chars(t))
    case BoldOf(t) => Element("strong", Chars(t))
    case LinkTo(t, _) => Chars(t)
  }

  function SeenSpans(xs: seq<Span>): seq<Seen> {
    if xs == [] then [] else SeenSpan(xs[0]) + SeenSpans(xs[1..])
  }

  predicate Lacks(h: Html, c: char) {
    forall i :: 0 <= i < |h| ==> h[i].c != c
  }

  /** The character at which the pattern of the pass can begin. */
  function Opener(m: Markup): char {
    match m
    case CodeSpan => '`'
    case BoldText => '*'
    case Link => '['
  }

  lemma LacksConcat(a: Html, b: Html, c: char)
    ensures Lacks(a + b, c) <==> Lacks(a, c) && Lacks(b, c)
  {
    assert forall i :: 0 <= i < |a| ==> a[i] == (a + b)[i];
    assert forall i :: 0 <= i < |b| ==> b[i] == (a + b)[|a| + i];
  }

  lemma EscConcats(a: string, b: string)
    ensures Esc(a + b) == Esc(a) + Esc(b)
  {
    EscIsOnePass(a + b);
    EscIsOnePass(a);
    EscIsOnePass(b);
    MarkdownPage.EscConcat(a, b);
  }

  lemma EscOfMarker(c: char)
    requires EntityText(c) == ""
    ensures Esc([c]) == [In(c)]
  {
    EscIsOnePass([c]);
    assert EscOnePass([c][1..]) == [];
  }

  lemma EntityLacks(x: char, c: char)
    requires IsMarker(c) && x != c
    ensures Lacks(Entity(x), c)
  {
    assert c !in "&amp;" && c !in "&lt;" && c !in "&gt;";
    if EntityText(x) != "" {
      assert forall i :: 0 <= i < |Entity(x)| ==> Entity(x)[i].c == EntityText(x)[i];
    }
  }

  /** Escaping brings in no marker. */
  lemma {:induction false} EscLacks(s: string, c: char)
    requires IsMarker(c) && c !in s
    ensures Lacks(Esc(s), c)
  {
    EscIsOnePass(s);
    if s == "" {
    } else {
      EscIsOnePass(s[1..]);
      EscLacks(s[1..], c);
      EntityLacks(s[0], c);
      LacksConcat(Entity(s[0]), EscOnePass(s[1..]), c);
    }
  }

  lemma {:induction false} EscNotEmpty(s: string)
    requires s != ""
    ensures Esc(s) != []
  {
    EscIsOnePass(s);
  }

  lemma CopyStep(m: Markup, s: Html)
    requires s != [] && s[0].c != Opener(m)
    ensures FirstStep(m, s) == HtmlText.Step(0, 1, 1, None) && Write(s, FirstStep(m, s)) == [s[0]]
  {
  }

  /** What holds no opening marker is copied. */
  lemma {:induction false} PassCopies(m: Markup, a: Html, b: Html)
    requires Lacks(a, Opener(m))
    ensures Pass(m, a + b) == a + Pass(m, b)
    decreases |a|
  {
    if a == [] {
      assert a + b == b;
    } else {
      TailOfConcat(a, b);
      PassCopies(m, a[1..], b);
      CopyStep(m, a + b);
      assert [a[0]] + a[1..] == a;
      ConcatAssociates([a[0]], a[1..], Pass(m, b));
    }
  }

  lemma RunEnds(a: Html, stop: Ch, b: Html)
    requires Lacks(a, stop.c)
    ensures Run(a + ([stop] + b), stop.c) == |a|
    decreases |a|
  {
    var s := a + ([stop] + b);
    if a == [] {
      assert s[0] == stop;
    } else {
      TailOfConcat(a, [stop] + b);
      RunEnds(a[1..], stop, b);
    }
  }

  lemma PassCode(t: Html, rest: Html)
    requires t != [] && Lacks(t, '`')
    ensures Pass(CodeSpan, [In('`')] + t + [In('`')] + rest) == Wrapped("code", t) + Pass(CodeSpan, rest)
  {
    var s := [In('`')] + t + [In('`')] + rest;
    assert s[1..] == t + ([In('`')] + rest);
    RunEnds(t, In('`'), rest);
    assert FirstStep(CodeSpan, s) == HtmlText.Step(1, |t| + 1, |t| + 2, Some("code"));
    assert s[1..|t| + 1] == t && s[|t| + 2..] == rest;
  }

  lemma PassBold(t: Html, rest: Html)
    requires t != [] && Lacks(t, '*')
    ensures Pass(BoldText, [In('*'), In('*')] + t + [In('*'), In('*')] + rest) == Wrapped("strong", t) + Pass(BoldText, rest)
  {
    var s := [In('*'), In('*')] + t + [In('*'), In('*')] + rest;
    assert s[2..] == t + ([In('*')] + ([In('*')] + rest));
    RunEnds(t, In('*'), [In('*')] + rest);
    assert s[|t| + 3] == In('*');
    assert FirstStep(BoldText, s) == HtmlText.Step(2, |t| + 2, |t| + 4, Some("strong"));
    assert s[2..|t| + 2] == t && s[|t| + 4..] == rest;
  }

  lemma PassLink(t: Html, u: Html, rest: Html)
    requires t != [] && Lacks(t, ']') && u != [] && Lacks(u, ')')
    ensures Pass(Link, [In('[')] + t + [In(']'), In('(')] + u + [In(')')] + rest) == t + Pass(Link, rest)
  {
    var s := [In('[')] + t + [In(']'), In('(')] + u + [In(')')] + rest;
    var n, k := |t|, |u|;
    assert s[1..] == t + ([In(']')] + ([In('(')] + u + [In(')')] + rest));
    RunEnds(t, In(']'), [In('(')] + u + [In(')')] + rest);
    assert s[n + 2] == In('(');
    assert s[n + 3..] == u + ([In(')')] + rest);
    RunEnds(u, In(')'), rest);
    assert FirstStep(Link, s) == HtmlText.Step(1, n + 1, n + k + 4, None);
    assert s[1..n + 1] == t && s[n + k + 4..] == rest;
  }

  function SpanHtml(x: Span): Html {
    match x
    case Plain(t) => Esc(t)
    case CodeOf(t) => Wrapped("code", Esc(t))
    case BoldOf(t) => Wrapped("strong", Esc(t))
    case LinkTo(t, _) => Esc(t)
  }

  predicate LacksOpeners(h: Html) {
    Lacks(h, '`') && Lacks(h, '*') && Lacks(h, '[')
  }

  lemma PlainLacks(t: string)
    requires NoMarkers(t)
    ensures LacksOpeners(Esc(t))
  {
    EscLacks(t, '`');
    EscLacks(t, '*');
    EscLacks(t, '[');
  }

  lemma TagLacks(s: string)
    requires NoMarkers(s)
    ensures LacksOpeners(Tag(s))
  {
  }

  lemma WrappedLacks(name: string, h: Html)
    requires NoMarkers(name) && LacksOpeners(h)
    ensures LacksOpeners(Wrapped(name, h))
  {
    TagLacks("<" + name + ">");
    TagLacks("</" + name + ">");
    forall c | c in "`*[" ensures Lacks(Wrapped(name, h), c) {
      LacksConcat(Tag("<" + name + ">"), h, c);
      LacksConcat(Tag("<" + name + ">") + h, Tag("</" + name + ">"), c);
    }
    assert '`' in "`*[" && '*' in "`*[" && '[' in "`*[";
  }

  /** What no pass acts on is copied by all three. */
  lemma InlineCopies(a: Html, b: Html)
    requires LacksOpeners(a)
    ensures Inline(a + b) == a + Inline(b)
  {
    PassCopies(CodeSpan, a, b);
    PassCopies(BoldText, a, Pass(CodeSpan, b));
    PassCopies(Link, a, Pass(BoldText, Pass(CodeSpan, b)));
  }

  lemma InlineCode(t: string, rest: string)
    requires Simple(CodeOf(t))
    ensures Inline(Esc(SourceOf(CodeOf(t)) + rest)) == SpanHtml(CodeOf(t)) + Inline(Esc(rest))
  {
    PlainLacks(t);
    EscNotEmpty(t);
    EscConcats("`" + t + "`", rest);
    EscConcats("`" + t, "`");
    EscConcats("`", t);
    EscOfMarker('`');
    PassCode(Esc(t), Esc(rest));
    WrappedLacks("code", Esc(t));
    PassCopies(BoldText, Wrapped("code", Esc(t)), Pass(CodeSpan, Esc(rest)));
    PassCopies(Link, Wrapped("code", Esc(t)), Pass(BoldText, Pass(CodeSpan, Esc(rest))));
  }

  lemma EscStars()
    ensures Esc("**") == [In('*'), In('*')]
  {
    EscOfMarker('*');
    EscConcats("*", "*");
    assert "*" + "*" == "**";
  }

  lemma BoldEscaped(t: string)
    ensures Esc(SourceOf(BoldOf(t))) == [In('*'), In('*')] + Esc(t) + [In('*'), In('*')]
  {
    EscStars();
    EscThree("**", t, "**");
  }

  lemma BoldLacks(t: Html)
    requires Lacks(t, '`')
    ensures Lacks([In('*'), In('*')] + t + [In('*'), In('*')], '`')
  {
    LacksConcat([In('*'), In('*')], t, '`');
    LacksConcat([In('*'), In('*')] + t, [In('*'), In('*')], '`');
  }

  lemma PassBoldOf(t: string, rest: Html)
    requires Simple(BoldOf(t))
    ensures Pass(BoldText, Esc(SourceOf(BoldOf(t))) + rest) == Wrapped("strong", Esc(t)) + Pass(BoldText, rest)
  {
    PlainLacks(t);
    EscNotEmpty(t);
    BoldEscaped(t);
    PassBold(Esc(t), rest);
  }

  lemma BoldCopied(t: string, rest: Html)
    requires Simple(BoldOf(t))
    ensures Pass(CodeSpan, Esc(SourceOf(BoldOf(t))) + rest) == Esc(SourceOf(BoldOf(t))) + Pass(CodeSpan, rest)
  {
    PlainLacks(t);
    BoldEscaped(t);
    BoldLacks(Esc(t));
    PassCopies(CodeSpan, Esc(SourceOf(BoldOf(t))), rest);
  }

  lemma StrongCopied(t: string, rest: Html)
    requires NoMarkers(t)
    ensures Pass(Link, Wrapped("strong", Esc(t)) + rest) == Wrapped("strong", Esc(t)) + Pass(Link, rest)
  {
    PlainLacks(t);
    WrappedLacks("strong", Esc(t));
    PassCopies(Link, Wrapped("strong", Esc(t)), rest);
  }

  lemma InlineBold(t: string, rest: string)
    requires Simple(BoldOf(t))
    ensures Inline(Esc(SourceOf(BoldOf(t)) + rest)) == SpanHtml(BoldOf(t)) + Inline(Esc(rest))
  {
    EscConcats(SourceOf(BoldOf(t)), rest);
    BoldCopied(t, Esc(rest));
    PassBoldOf(t, Pass(CodeSpan, Esc(rest)));
    StrongCopied(t, Pass(BoldText, Pass(CodeSpan, Esc(rest))));
  }

  lemma EscThree(a: string, b: string, c: string)
    ensures Esc(a + b + c) == Esc(a) + Esc(b) + Esc(c)
  {
    EscConcats(a + b, c);
    EscConcats(a, b);
  }

  lemma EscBrackets()
    ensures Esc("[") == [In('[')] && Esc("](") == [In(']'), In('(')] && Esc(")") == [In(')')]
  {
    EscOfMarker('[');
    EscOfMarker(']');
    EscOfMarker('(');
    EscOfMarker(')');
    EscConcats("]", "(");
    assert "]" + "(" == "](";
  }

  lemma LinkEscaped(t: string, u: string)
    ensures Esc(SourceOf(LinkTo(t, u))) == [In('[')] + Esc(t) + [In(']'), In('(')] + Esc(u) + [In(')')]
  {
    EscThree("[" + t + "](", u, ")");
    EscThree("[", t, "](");
    EscBrackets();
  }

  lemma InlineLink(t: string, u: string, rest: string)
    requires Simple(LinkTo(t, u))
    ensures Inline(Esc(SourceOf(LinkTo(t, u)) + rest)) == SpanHtml(LinkTo(t, u)) + Inline(Esc(rest))
  {
    var marked := [In('[')] + Esc(t) + [In(']'), In('(')] + Esc(u) + [In(')')];
    PlainLacks(t);
    PlainLacks(u);
    EscLacks(t, ']');
    EscLacks(u, ')');
    EscNotEmpty(t);
    EscNotEmpty(u);
    LinkEscaped(t, u);
    EscConcats(SourceOf(LinkTo(t, u)), rest);
    forall c | c in "`*" ensures Lacks(marked, c) {
      LacksConcat([In('[')], Esc(t), c);
      LacksConcat([In('[')] + Esc(t), [In(']'), In('(')], c);
      LacksConcat([In('[')] + Esc(t) + [In(']'), In('(')], Esc(u), c);
      LacksConcat([In('[')] + Esc(t) + [In(']'), In('(')] + Esc(u), [In(')')], c);
    }
    assert '`' in "`*" && '*' in "`*";
    PassCopies(CodeSpan, marked, Esc(rest));
    PassCopies(BoldText, marked, Pass(CodeSpan, Esc(rest)));
    PassLink(Esc(t), Esc(u), Pass(BoldText, Pass(CodeSpan, Esc(rest))));
  }

  /** The first stretch is rendered by itself, whatever follows it. */
  lemma InlineFirst(x: Span, rest: string)
    requires Simple(x)
    ensures Inline(Esc(SourceOf(x) + rest)) == SpanHtml(x) + Inline(Esc(rest))
  {
    match x
    case Plain(t) =>
      PlainLacks(t);
      EscConcats(t, rest);
      InlineCopies(Esc(t), Esc(rest));
    case CodeOf(t) => InlineCode(t, rest);
    case BoldOf(t) => InlineBold(t, rest);
    case LinkTo(t, u) => InlineLink(t, u, rest);
  }

  lemma ReadsSpan(x: Span)
    ensures Reads(SpanHtml(x), SeenSpan(x))
  {
    ReadsEsc(x.text);
    match x
    case CodeOf(t) => ReadsWrapped("code", Esc(t), Chars(t));
    case BoldOf(t) => ReadsWrapped("strong", Esc(t), Chars(t));
    case _ =>
  }

  /** A text of plain stretches, code, bold and links is read stretch by stretch: plain text
      whole, code and bold as an element around the whole text between the markers, a link as
      its text without its target. */
  lemma {:induction false} InlineReads(xs: seq<Span>)
    requires AllSimple(xs)
    ensures Reads(Inline(Esc(Source(xs))), SeenSpans(xs))
  {
    if xs == [] {
      EscIsOnePass("");
      ReadsNothing();
    } else {
      InlineFirst(xs[0], Source(xs[1..]));
      InlineReads(xs[1..]);
      ReadsSpan(xs[0]);
      ReadsConcat(SpanHtml(xs[0]), SeenSpan(xs[0]), Inline(Esc(Source(xs[1..]))), SeenSpans(xs[1..]));
    }
  }

  // ---- blocks -------------------------------------------------------------------------

  /** The cells of a table row: between bars, without the white space around them. */
  function CellTexts(parts: seq<string>): seq<string> {
    if parts == [] then [] else [Trim(parts[0])] + CellTexts(parts[1..])
  }

  function RowTexts(line: string): seq<string> {
    CellTexts(Split(RowText(line), '|'))
  }

  /** How a text is made up of stretches. */
  type Style = string -> seq<Span>

  predicate Styled(style: Style, text: string) {
    Source(style(text)) == text && AllSimple(style(text))
  }

  predicate AllStyled(style: Style, texts: seq<string>) {
    forall i :: 0 <= i < |texts| ==> Styled(style, texts[i])
  }

  predicate BlockStyled(style: Style, b: Block) {
    match b
    case Table(header, rows) =>
      AllStyled(style, RowTexts(header)) && forall i :: 0 <= i < |rows| ==> AllStyled(style, RowTexts(rows[i]))
    case Heading(level, text) => 1 <= level <= 6 && Styled(style, text)
    case Quote(ls) => Styled(style, JoinStrings(Unquoted(ls), " "))
    case Item(_, text) => Styled(style, text)
    case Para(text) => Styled(style, text)
    case _ => true
  }

  function HeadingName(level: nat): string {
    match level
    case 1 => "h1"
    case 2 => "h2"
    case 3 => "h3"
    case 4 => "h4"
    case 5 => "h5"
    case _ => "h6"
  }

  function SeenCells(name: string, texts: seq<string>, style: Style): seq<Seen> {
    if texts == [] then [] else Element(name, SeenSpans(style(texts[0]))) + SeenCells(name, texts[1..], style)
  }

  function SeenRows(rows: seq<string>, style: Style): seq<Seen> {
    if rows == [] then []
    else SeenRows(rows[..|rows| - 1], style) + Element("tr", SeenCells("td", RowTexts(rows[|rows| - 1]), style))
  }

  /** The element of each block, around its whole text. */
  function SeenBlock(b: Block, style: Style): seq<Seen> {
    match b
    case Code(ls) => Element("pre", Element("code", Chars(JoinStrings(ls, "\n"))))
    case Table(header, rows) =>
      Element("table", Element("thead", Element("tr", SeenCells("th", RowTexts(header), style)))
                       + Element("tbody", SeenRows(rows, style)))
    case Heading(level, text) => Element(HeadingName(level), SeenSpans(style(text)))
    case Rule => [Mark("hr/")]
    case Quote(ls) => Element("blockquote", SeenSpans(style(JoinStrings(Unquoted(ls), " "))))
    case Item(_, text) => Element("li", SeenSpans(style(text)))
    case Para(text) => Element("p", SeenSpans(style(text)))
    case Unclosed(_) => []
    case Blank => []
  }

  lemma ReadsText(name: string, text: string, style: Style)
    requires TagName(name) && Styled(style, text)
    ensures Reads(Wrapped(name, Inline(Esc(text))), Element(name, SeenSpans(style(text))))
  {
    InlineReads(style(text));
    ReadsWrapped(name, Inline(Esc(text)), SeenSpans(style(text)));
  }

  lemma {:induction false} ReadsCells(name: string, parts: seq<string>, style: Style)
    requires TagName(name) && AllStyled(style, CellTexts(parts))
    ensures Reads(RowCells(Cells(parts), name), SeenCells(name, CellTexts(parts), style))
  {
    if parts == [] {
      ReadsNothing();
    } else {
      var texts := CellTexts(parts);
      assert texts[0] == Trim(parts[0]) && texts[1..] == CellTexts(parts[1..]);
      assert forall i :: 0 <= i < |CellTexts(parts[1..])| ==> CellTexts(parts[1..])[i] == texts[i + 1];
      ReadsCells(name, parts[1..], style);
      ReadsText(name, texts[0], style);
      assert Cells(parts)[0] == Inline(Esc(texts[0])) && Cells(parts)[1..] == Cells(parts[1..]);
      ReadsConcat(Wrapped(name, Inline(Esc(texts[0]))), Element(name, SeenSpans(style(texts[0]))),
                  RowCells(Cells(parts[1..]), name), SeenCells(name, CellTexts(parts[1..]), style));
    }
  }

  lemma {:induction false} ReadsRows(rows: seq<string>, style: Style)
    requires forall i :: 0 <= i < |rows| ==> AllStyled(style, RowTexts(rows[i]))
    ensures Reads(TableRows(rows), SeenRows(rows, style))
  {
    if rows == [] {
      ReadsNothing();
    } else {
      var n := |rows| - 1;
      ReadsRows(rows[..n], style);
      ReadsCells("td", Split(RowText(rows[n]), '|'), style);
      ReadsWrapped("tr", RowCells(ParseRow(rows[n]), "td"), SeenCells("td", RowTexts(rows[n]), style));
      ReadsConcat(TableRows(rows[..n]), SeenRows(rows[..n], style), Wrapped("tr", RowCells(ParseRow(rows[n]), "td")),
                  Element("tr", SeenCells("td", RowTexts(rows[n]), style)));
    }
  }

  lemma ReadsTwoTags(a: string, b: string)
    requires TagName(a) && TagName(b)
    ensures Reads(Tag("<" + a + "><" + b + ">"), [Mark(a), Mark(b)])
  {
    ReadsTag(a);
    ReadsTag(b);
    ReadsConcat(Tag("<" + a + ">"), [Mark(a)], Tag("<" + b + ">"), [Mark(b)]);
    assert Tag("<" + a + "><" + b + ">") == Tag("<" + a + ">") + Tag("<" + b + ">");
    assert [Mark(a)] + [Mark(b)] == [Mark(a), Mark(b)];
  }

  lemma ReadsThreeTags(a: string, b: string, c: string)
    requires TagName(a) && TagName(b) && TagName(c)
    ensures Reads(Tag("<" + a + "><" + b + "><" + c + ">"), [Mark(a), Mark(b), Mark(c)])
  {
    ReadsTwoTags(a, b);
    ReadsTag(c);
    ReadsConcat(Tag("<" + a + "><" + b + ">"), [Mark(a), Mark(b)], Tag("<" + c + ">"), [Mark(c)]);
    assert Tag("<" + a + "><" + b + "><" + c + ">") == Tag("<" + a + "><" + b + ">") + Tag("<" + c + ">");
    assert [Mark(a), Mark(b)] + [Mark(c)] == [Mark(a), Mark(b), Mark(c)];
  }

  lemma ReadsTableOpen()
    ensures Reads(Tag("<table><thead><tr>"), [Mark("table"), Mark("thead"), Mark("tr")])
  {
    ReadsThreeTags("table", "thead", "tr");
    assert "<" + "table" + "><" + "thead" + "><" + "tr" + ">" == "<table><thead><tr>";
  }

  lemma ReadsHeadClose()
    ensures Reads(Tag("</tr></thead><tbody>"), [Mark("/tr"), Mark("/thead"), Mark("tbody")])
  {
    ReadsThreeTags("/tr", "/thead", "tbody");
    assert "<" + "/tr" + "><" + "/thead" + "><" + "tbody" + ">" == "</tr></thead><tbody>";
  }

  lemma ReadsTableClose()
    ensures Reads(Tag("</tbody></table>"), [Mark("/tbody"), Mark("/table")])
  {
    ReadsTwoTags("/tbody", "/table");
    assert "<" + "/tbody" + "><" + "/table" + ">" == "</tbody></table>";
  }

  lemma ReadsCodeTags()
    ensures Reads(Tag("<pre><code>"), [Mark("pre"), Mark("code")])
    ensures Reads(Tag("</code></pre>"), [Mark("/code"), Mark("/pre")])
  {
    ReadsTwoTags("pre", "code");
    ReadsTwoTags("/code", "/pre");
    assert "<" + "pre" + "><" + "code" + ">" == "<pre><code>";
    assert "<" + "/code" + "><" + "/pre" + ">" == "</code></pre>";
  }

  function HeadSeen(cells: seq<Seen>): seq<Seen> {
    [Mark("table"), Mark("thead"), Mark("tr")] + cells + [Mark("/tr"), Mark("/thead"), Mark("tbody")]
  }

  lemma ReadsHead(header: string, style: Style)
    requires AllStyled(style, RowTexts(header))
    ensures Reads(TableHead(header), HeadSeen(SeenCells("th", RowTexts(header), style)))
  {
    ReadsTableOpen();
    ReadsHeadClose();
    ReadsCells("th", Split(RowText(header), '|'), style);
    ReadsThree(Tag("<table><thead><tr>"), [Mark("table"), Mark("thead"), Mark("tr")],
               RowCells(ParseRow(header), "th"), SeenCells("th", RowTexts(header), style),
               Tag("</tr></thead><tbody>"), [Mark("/tr"), Mark("/thead"), Mark("tbody")]);
  }

  lemma TableSeen(cells: seq<Seen>, body: seq<Seen>)
    ensures HeadSeen(cells) + body + [Mark("/tbody"), Mark("/table")]
         == Element("table", Element("thead", Element("tr", cells)) + Element("tbody", body))
  {
    assert "/" + "table" == "/table" && "/" + "thead" == "/thead" && "/" + "tr" == "/tr" && "/" + "tbody" == "/tbody";
  }

  lemma ReadsTable(header: string, rows: seq<string>, style: Style)
    requires BlockStyled(style, Table(header, rows))
    ensures Reads(BlockHtml(Table(header, rows)), SeenBlock(Table(header, rows), style))
  {
    var cells, body := SeenCells("th", RowTexts(header), style), SeenRows(rows, style);
    ReadsHead(header, style);
    ReadsRows(rows, style);
    ReadsTableClose();
    ReadsThree(TableHead(header), HeadSeen(cells), TableRows(rows), body, Tag("</tbody></table>"), [Mark("/tbody"), Mark("/table")]);
    TableSeen(cells, body);
  }

  lemma {:induction false} CharsConcat(a: string, b: string)
    ensures Chars(a + b) == Chars(a) + Chars(b)
  {
    if a == "" {
      assert a + b == b;
    } else {
      TailOfConcat(a, b);
      CharsConcat(a[1..], b);
    }
  }

  /** The lines of a code block, joined. */
  lemma {:induction false} ReadsLines(ls: seq<string>)
    ensures Reads(Join(Escaped(ls), Tag("\n")), Chars(JoinStrings(ls, "\n")))
  {
    if ls == [] {
      ReadsNothing();
    } else if |ls| == 1 {
      ReadsEsc(ls[0]);
      assert Escaped(ls) == [Esc(ls[0])] + Escaped(ls[1..]);
    } else {
      ReadsLines(ls[1..]);
      ReadsEsc(ls[0]);
      ReadsNewline();
      MarkdownPage.EscapedRest(ls);
      ReadsConcat(Esc(ls[0]), Chars(ls[0]), Tag("\n"), [Shown('\n')]);
      ReadsConcat(Esc(ls[0]) + Tag("\n"), Chars(ls[0]) + [Shown('\n')], Join(Escaped(ls[1..]), Tag("\n")), Chars(JoinStrings(ls[1..], "\n")));
      CharsConcat(ls[0] + "\n", JoinStrings(ls[1..], "\n"));
      CharsConcat(ls[0], "\n");
      assert Chars("\n") == [Shown('\n')] by { assert "\n"[1..] == ""; }
    }
  }

  lemma CodeSeen(inside: seq<Seen>)
    ensures [Mark("pre"), Mark("code")] + inside + [Mark("/code"), Mark("/pre")] == Element("pre", Element("code", inside))
  {
    assert "/" + "pre" == "/pre" && "/" + "code" == "/code";
  }

  lemma ReadsCode(ls: seq<string>, style: Style)
    ensures Reads(BlockHtml(Code(ls)), SeenBlock(Code(ls), style))
  {
    var inside := Chars(JoinStrings(ls, "\n"));
    ReadsLines(ls);
    ReadsCodeTags();
    ReadsThree(Tag("<pre><code>"), [Mark("pre"), Mark("code")], Join(Escaped(ls), Tag("\n")), inside,
               Tag("</code></pre>"), [Mark("/code"), Mark("/pre")]);
    CodeSeen(inside);
  }

  lemma HeadingNames(level: nat)
    requires 1 <= level <= 6
    ensures HeadingTag(level) == HeadingName(level) && TagName(HeadingName(level))
  {
  }

  lemma ReadsBlock(b: Block, style: Style)
    requires BlockStyled(style, b)
    ensures Reads(BlockHtml(b), SeenBlock(b, style))
  {
    match b
    case Code(ls) => ReadsCode(ls, style);
    case Table(header, rows) => ReadsTable(header, rows, style);
    case Heading(level, text) =>
      HeadingNames(level);
      ReadsText(HeadingName(level), text, style);
    case Quote(ls) => ReadsText("blockquote", JoinStrings(Unquoted(ls), " "), style);
    case Item(_, text) => ReadsText("li", text, style);
    case Para(text) => ReadsText("p", text, style);
    case Rule =>
      ReadsTag("hr/");
      assert "<" + "hr/" + ">" == "<hr/>";
    case Unclosed(_) => ReadsNothing();
    case Blank => ReadsNothing();
  }

  // ---- the page -----------------------------------------------------------------------

  function ListName(k: Kind): string {
    if k == Ul then "ul" else "ol"
  }

  function SeenPiece(p: Piece, style: Style): seq<Seen> {
    match p
    case ListOpen(k) => [Mark(ListName(k))]
    case ListClose(k) => [Mark("/" + ListName(k))]
    case ListItem(_, text) => Element("li", SeenSpans(style(text)))
    case Whole(b) => SeenBlock(b, style)
  }

  /** Pieces with a line feed between them. */
  function SeenPieces(ps: seq<Piece>, style: Style): seq<Seen> {
    if ps == [] then []
    else if |ps| == 1 then SeenPiece(ps[0], style)
    else SeenPiece(ps[0], style) + [Shown('\n')] + SeenPieces(ps[1..], style)
  }

  predicate PieceStyled(style: Style, p: Piece) {
    match p
    case ListItem(k, text) => BlockStyled(style, Item(k, text))
    case Whole(b) => BlockStyled(style, b)
    case _ => true
  }

  lemma ReadsPiece(p: Piece, style: Style)
    requires PieceStyled(style, p)
    ensures Reads(PieceHtml(p), SeenPiece(p, style))
  {
    match p
    case ListOpen(k) => ReadsTag(ListName(k));
    case ListClose(k) =>
      ReadsTag("/" + ListName(k));
      assert "<" + ("/" + ListName(k)) + ">" == "</" + ListTag(k) + ">";
    case ListItem(k, text) => ReadsBlock(Item(k, text), style);
    case Whole(b) => ReadsBlock(b, style);
  }

  lemma {:induction false} HtmlsFront(ps: seq<Piece>)
    requires ps != []
    ensures Htmls(ps) == [PieceHtml(ps[0])] + Htmls(ps[1..])
  {
    var n := |ps| - 1;
    if n == 0 {
      assert ps[..0] == [] && ps[1..] == [];
    } else {
      HtmlsFront(ps[..n]);
      CutBoth(ps);
      ConcatAssociates([PieceHtml(ps[0])], Htmls(ps[..n][1..]), [PieceHtml(ps[n])]);
    }
  }

  lemma CutBoth(ps: seq<Piece>)
    requires |ps| > 1
    ensures var n := |ps| - 1;
      ps[..n] != [] && ps[..n][0] == ps[0] && ps[1..] != [] && |ps[1..]| == n && ps[1..][n - 1] == ps[n] && ps[..n][1..] == ps[1..][..n - 1]
  {
  }

  lemma {:induction false} ReadsPieces(ps: seq<Piece>, style: Style)
    requires forall i :: 0 <= i < |ps| ==> PieceStyled(style, ps[i])
    ensures Reads(Join(Htmls(ps), Tag("\n")), SeenPieces(ps, style))
  {
    if ps == [] {
      ReadsNothing();
    } else {
      HtmlsFront(ps);
      ReadsPiece(ps[0], style);
      if |ps| > 1 {
        ReadsPieces(ps[1..], style);
        HtmlsFront(ps[1..]);
        ReadsNewline();
        var rest := Join(Htmls(ps[1..]), Tag("\n"));
        assert Htmls(ps)[1..] == Htmls(ps[1..]) && Htmls(ps[1..]) != [];
        ReadsConcat(PieceHtml(ps[0]), SeenPiece(ps[0], style), Tag("\n"), [Shown('\n')]);
        ReadsConcat(PieceHtml(ps[0]) + Tag("\n"), SeenPiece(ps[0], style) + [Shown('\n')], rest, SeenPieces(ps[1..], style));
      } else {
        assert Htmls(ps[1..]) == [];
      }
    }
  }

  lemma {:induction false} FlatStyled(bs: seq<Block>, style: Style)
    requires forall i :: 0 <= i < |bs| ==> BlockStyled(style, bs[i])
    ensures forall i :: 0 <= i < |Flat(bs)| ==> PieceStyled(style, Flat(bs)[i])
  {
    if bs == [] {
    } else {
      FlatStyled(bs[1..], style);
    }
  }

  lemma {:induction false} RenderStyled(bs: seq<Block>, style: Style)
    requires forall i :: 0 <= i < |bs| ==> BlockStyled(style, bs[i])
    ensures forall i :: 0 <= i < |Render(bs)| ==> PieceStyled(style, Render(bs)[i])
    decreases |bs|
  {
    if bs == [] {
    } else if bs[0].Item? {
      var n := ItemRun(bs, bs[0].kind);
      FlatStyled(bs[..n], style);
      RenderStyled(bs[n..], style);
    } else {
      RenderStyled(bs[1..], style);
    }
  }

  /** A browser reads the page as the blocks of the document in order: each one its element
      around its whole text, with lists opened and closed around their items. The texts of the
      document may be marked up in any way that `style` tells. */
  lemma PageReads(re: Syntax, md: string, style: Style)
    requires forall b :: b in Parse(re, Lines(md)) ==> BlockStyled(style, b)
    ensures Read(ToHtml(re, md)) == SeenPieces(Render(Parse(re, Lines(md))), style)
  {
    var bs := Parse(re, Lines(md));
    assert forall i :: 0 <= i < |bs| ==> bs[i] in bs;
    RenderStyled(bs, style);
    ReadsPieces(Render(bs), style);
    ReadWhole(ToHtml(re, md), SeenPieces(Render(bs), style));
  }
}
