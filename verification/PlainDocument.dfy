/** Documents without inline markup, and table rows: what is written is what is shown
    (scripts/build-pdf.cjs). */
module PlainDocument {
  import opened HtmlText
  import opened LinePatterns
  import opened Markdown
  import opened MarkdownText
  import opened Phone
  import opened Sequences
  import opened Wrappers

  // ---- table rows ---------------------------------------------------------------------

  lemma {:induction false} SplitOne(s: string, sep: char)
    requires sep !in s
    ensures Split(s, sep) == [s]
  {
    if s == "" {
    } else {
      SplitOne(s[1..], sep);
      assert [s[0]] + s[1..] == s;
    }
  }

  lemma {:induction false} SplitFirst(s: string, sep: char, rest: string)
    requires sep !in s
    ensures Split(s + [sep] + rest, sep) == [s] + Split(rest, sep)
  {
    var whole := s + [sep] + rest;
    if s == "" {
      assert whole[1..] == rest;
    } else {
      SplitFirst(s[1..], sep, rest);
      assert whole[0] == s[0] && whole[1..] == s[1..] + [sep] + rest;
      assert [s[0]] + s[1..] == s;
    }
  }

  /** Parts without the separator come back from what they are joined to. */
  lemma {:induction false} JoinSplits(parts: seq<string>, sep: char)
    requires parts != [] && forall i :: 0 <= i < |parts| ==> sep !in parts[i]
    ensures Split(JoinStrings(parts, [sep]), sep) == parts
  {
    if |parts| == 1 {
      SplitOne(parts[0], sep);
    } else {
      var rest := JoinStrings(parts[1..], [sep]);
      JoinSplits(parts[1..], sep);
      SplitFirst(parts[0], sep, rest);
      assert JoinStrings(parts, [sep]) == parts[0] + [sep] + rest;
      assert [parts[0]] + parts[1..] == parts;
    }
  }

  lemma BarsOff(line: string, inside: string)
    requires Trim(line) == "|" + inside + "|"
    ensures RowText(line) == inside
  {
    assert Trim(line)[1..] == inside + "|";
    assert (inside + "|")[..|inside|] == inside;
  }

  lemma RowTextIs(left: string, inside: string, right: string)
    requires Spaces(left, 0, |left|) && Spaces(right, 0, |right|)
    ensures RowText(left + ("|" + inside + "|") + right) == inside
  {
    TrimIs(left, "|" + inside + "|", right);
    BarsOff(left + ("|" + inside + "|") + right, inside);
  }

  /** A table row with a bar at each end and any space around it is split into its cells. */
  lemma RowReads(left: string, cells: seq<string>, right: string)
    requires Spaces(left, 0, |left|) && Spaces(right, 0, |right|)
    requires cells != [] && forall i :: 0 <= i < |cells| ==> '|' !in cells[i]
    ensures Split(RowText(left + ("|" + JoinStrings(cells, "|") + "|") + right), '|') == cells
  {
    RowTextIs(left, JoinStrings(cells, "|"), right);
    JoinSplits(cells, '|');
  }

  // ---- what a line is -----------------------------------------------------------------

  /** The first visible character decides between heading, quote, bullet and number; what
      matches none of the patterns is a paragraph. */
  lemma LineIsBlock(line: string)
    ensures var b := LineBlock(MARKDOWN, line);
      && (b.Heading? <==> HeadingOf(line).Some?) && (b.Heading? ==> (b.level, b.text) == HeadingOf(line).value)
      && (b.Rule? <==> IsRule(line)) && (b.Quote? <==> IsQuote(line)) && (b.Quote? ==> b.lines == [line])
      && (b.Item? && b.kind == Ul <==> UlText(line).Some?) && (b.Item? && b.kind == Ul ==> Some(b.text) == UlText(line))
      && (b.Item? && b.kind == Ol <==> OlText(line).Some?) && (b.Item? && b.kind == Ol ==> Some(b.text) == OlText(line))
      && (b.Blank? <==> IsBlank(line))
      && (b.Para? ==> b.text == line)
  {
    SkipRuns(line, 0, IsSpace);
    SkipRuns(line, 0, IsHash);
    SkipRuns(line, 0, IsDash);
    BlankIsPattern(line);
    if IsRule(line) { DashesAreNoBullet(line); }
  }

  lemma DashesAreNoBullet(line: string)
    requires IsRule(line)
    ensures UlText(line).None? && OlText(line).None? && !IsBlank(line) && HeadingOf(line).None?
  {
    SkipRuns(line, 0, IsDash);
    SkipIs(line, 0, 0, IsSpace);
    SkipIs(line, 0, 0, IsHash);
    SkipIs(line, 1, 1, IsSpace);
    SkipIs(line, 0, 0, IsDigit);
  }

  lemma {:induction false} UnquotedAt(lines: seq<string>, i: nat)
    ensures |Unquoted(lines)| == |lines|
    ensures i < |lines| ==> Unquoted(lines)[i] == Unquote(lines[i])
  {
    if lines == [] {
    } else {
      UnquotedAt(lines[..|lines| - 1], i);
    }
  }

  // ---- documents without inline markup ------------------------------------------------

  /** Every text is one plain stretch. */
  const PLAIN: Style := (t: string) => [Plain(t)]

  lemma PlainStyled(t: string)
    requires NoMarkers(t)
    ensures Styled(PLAIN, t) && SeenSpans(PLAIN(t)) == Chars(t)
  {
    var xs := PLAIN(t);
    assert xs == [Plain(t)] && xs[1..] == [];
    assert t + "" == t;
    assert Chars(t) + [] == Chars(t);
  }

  lemma SliceUnmarked(s: string, i: nat, j: nat)
    requires NoMarkers(s) && i <= j <= |s|
    ensures NoMarkers(s[i..j])
  {
  }

  lemma {:induction false} PartsUnmarked(s: string, sep: char)
    requires NoMarkers(s)
    ensures forall i :: 0 <= i < |Split(s, sep)| ==> NoMarkers(Split(s, sep)[i])
  {
    if s == "" {
    } else {
      PartsUnmarked(s[1..], sep);
      var parts := Split(s[1..], sep);
      assert NoMarkers(parts[0]) && s[0] != '`' && s[0] != '*' && s[0] != '[';
      assert NoMarkers([s[0]] + parts[0]);
    }
  }

  lemma TrimUnmarked(s: string)
    requires NoMarkers(s)
    ensures NoMarkers(Trim(s))
  {
    var a, b := Skip(s, 0, IsSpace), DropSpaces(s, |s|);
    if a <= b { SliceUnmarked(s, a, b); }
  }

  lemma {:induction false} CellsPlain(parts: seq<string>)
    requires forall i :: 0 <= i < |parts| ==> NoMarkers(parts[i])
    ensures AllStyled(PLAIN, CellTexts(parts))
  {
    if parts == [] {
    } else {
      CellsPlain(parts[1..]);
      TrimUnmarked(parts[0]);
      PlainStyled(Trim(parts[0]));
    }
  }

  lemma RowPlain(line: string)
    requires NoMarkers(line)
    ensures AllStyled(PLAIN, RowTexts(line))
  {
    TrimUnmarked(line);
    assert NoMarkers(RowText(line));
    PartsUnmarked(RowText(line), '|');
    CellsPlain(Split(RowText(line), '|'));
  }

  lemma {:induction false} QuotePlain(ls: seq<string>)
    requires forall i :: 0 <= i < |ls| ==> NoMarkers(ls[i])
    ensures forall i :: 0 <= i < |Unquoted(ls)| ==> NoMarkers(Unquoted(ls)[i])
  {
    if ls == [] {
    } else {
      QuotePlain(ls[..|ls| - 1]);
    }
  }

  lemma {:induction false} JoinUnmarked(ls: seq<string>)
    requires forall i :: 0 <= i < |ls| ==> NoMarkers(ls[i])
    ensures NoMarkers(JoinStrings(ls, " "))
  {
    if |ls| > 1 {
      JoinUnmarked(ls[1..]);
    }
  }

  /** A line is a fence, or holds no marker. */
  predicate PlainLine(line: string) {
    IsFence(line) || NoMarkers(line)
  }

  lemma LinePlain(line: string)
    requires NoMarkers(line)
    ensures BlockStyled(PLAIN, LineBlock(MARKDOWN, line)) || LineBlock(MARKDOWN, line).Quote?
  {
    var b := LineBlock(MARKDOWN, line);
    HeadingIsPattern(line);
    UlIsPattern(line);
    OlIsPattern(line);
    match b
    case Heading(level, text) => PlainStyled(text);
    case Item(_, text) => PlainStyled(text);
    case Para(text) => PlainStyled(text);
    case _ =>
  }

  lemma RowsPlain(lines: seq<string>, i: nat, j: nat)
    requires i <= j <= |lines| && forall k :: i <= k < j ==> IsRow(lines[k]) && PlainLine(lines[k])
    ensures forall k :: 0 <= k < j - i ==> AllStyled(PLAIN, RowTexts(lines[i..j][k]))
  {
    forall k | 0 <= k < j - i ensures AllStyled(PLAIN, RowTexts(lines[i..j][k])) {
      assert lines[i..j][k] == lines[i + k];
      if IsFence(lines[i + k]) { FenceIsNothingElse(lines[i + k]); }
      RowPlain(lines[i + k]);
    }
  }

  lemma TablePlain(lines: seq<string>)
    requires |lines| > 1 && !IsFence(lines[0]) && forall i :: 0 <= i < |lines| ==> PlainLine(lines[i])
    ensures BlockStyled(PLAIN, TableBlock(MARKDOWN, lines))
  {
    SkipRuns(lines, 2, MARKDOWN.row);
    RowPlain(lines[0]);
    RowsPlain(lines, 2, Skip(lines, 2, MARKDOWN.row));
  }

  lemma QuotedPlain(lines: seq<string>)
    requires lines != [] && !IsFence(lines[0]) && forall i :: 0 <= i < |lines| ==> PlainLine(lines[i])
    requires LineBlock(MARKDOWN, lines[0]).Quote?
    ensures BlockStyled(PLAIN, Quote(lines[..Skip(lines, 1, MARKDOWN.quote)]))
  {
    var quoted := lines[..Skip(lines, 1, MARKDOWN.quote)];
    SkipRuns(lines, 1, MARKDOWN.quote);
    forall i | 0 <= i < |quoted| ensures NoMarkers(quoted[i]) {
      if IsFence(quoted[i]) { FenceIsNothingElse(quoted[i]); }
    }
    QuotePlain(quoted);
    JoinUnmarked(Unquoted(quoted));
    PlainStyled(JoinStrings(Unquoted(quoted), " "));
  }

  lemma FirstPlain(lines: seq<string>)
    requires lines != [] && forall i :: 0 <= i < |lines| ==> PlainLine(lines[i])
    ensures BlockStyled(PLAIN, First(MARKDOWN, lines))
  {
    if IsFence(lines[0]) {
    } else if StartsTable(MARKDOWN, lines) {
      TablePlain(lines);
    } else {
      LinePlain(lines[0]);
      if LineBlock(MARKDOWN, lines[0]).Quote? { QuotedPlain(lines); }
    }
  }

  lemma {:induction false} ParsePlain(lines: seq<string>)
    requires forall i :: 0 <= i < |lines| ==> PlainLine(lines[i])
    ensures forall b :: b in Parse(MARKDOWN, lines) ==> BlockStyled(PLAIN, b)
    decreases |lines|
  {
    if lines == [] {
    } else {
      FirstPlain(lines);
      ParsePlain(lines[Size(First(MARKDOWN, lines))..]);
    }
  }

  // ---- the text that is shown ---------------------------------------------------------

  function Letters(seen: seq<Seen>): string {
    if seen == [] then "" else (if seen[0].Shown? then [seen[0].c] else "") + Letters(seen[1..])
  }

  lemma {:induction false} LettersConcat(a: seq<Seen>, b: seq<Seen>)
    ensures Letters(a + b) == Letters(a) + Letters(b)
  {
    if a == [] {
      assert a + b == b;
    } else {
      TailOfConcat(a, b);
      LettersConcat(a[1..], b);
      ConcatAssociates(if a[0].Shown? then [a[0].c] else "", Letters(a[1..]), Letters(b));
    }
  }

  lemma {:induction false} LettersOfChars(s: string)
    ensures Letters(Chars(s)) == s
  {
    if s == "" {
    } else {
      LettersOfChars(s[1..]);
      assert Chars(s)[1..] == Chars(s[1..]);
      assert [s[0]] + s[1..] == s;
    }
  }

  lemma LettersOfElement(name: string, inside: seq<Seen>)
    ensures Letters(Element(name, inside)) == Letters(inside)
  {
    LettersConcat([Mark(name)] + inside, [Mark("/" + name)]);
    LettersConcat([Mark(name)], inside);
    assert Letters([Mark(name)]) == "" by { assert [Mark(name)][1..] == []; }
    assert Letters([Mark("/" + name)]) == "" by { assert [Mark("/" + name)][1..] == []; }
  }

  function Concat(texts: seq<string>): string {
    if texts == [] then "" else texts[0] + Concat(texts[1..])
  }

  function RowsText(rows: seq<string>): string {
    if rows == [] then "" else RowsText(rows[..|rows| - 1]) + Concat(RowTexts(rows[|rows| - 1]))
  }

  /** What there is to read in a block, without its markers. */
  function BlockText(b: Block): string {
    match b
    case Code(ls) => JoinStrings(ls, "\n")
    case Table(header, rows) => Concat(RowTexts(header)) + RowsText(rows)
    case Heading(_, text) => text
    case Quote(ls) => JoinStrings(Unquoted(ls), " ")
    case Item(_, text) => text
    case Para(text) => text
    case _ => ""
  }

  lemma PlainSpans(t: string)
    ensures Letters(SeenSpans(PLAIN(t))) == t
  {
    var xs := PLAIN(t);
    assert xs == [Plain(t)] && xs[1..] == [];
    LettersOfChars(t);
    assert Chars(t) + [] == Chars(t);
  }

  lemma {:induction false} CellsText(name: string, texts: seq<string>)
    ensures Letters(SeenCells(name, texts, PLAIN)) == Concat(texts)
  {
    if texts == [] {
    } else {
      CellsText(name, texts[1..]);
      PlainSpans(texts[0]);
      LettersOfElement(name, SeenSpans(PLAIN(texts[0])));
      LettersConcat(Element(name, SeenSpans(PLAIN(texts[0]))), SeenCells(name, texts[1..], PLAIN));
    }
  }

  lemma {:induction false} RowsAreText(rows: seq<string>)
    ensures Letters(SeenRows(rows, PLAIN)) == RowsText(rows)
  {
    if rows == [] {
    } else {
      var n := |rows| - 1;
      var cells := SeenCells("td", RowTexts(rows[n]), PLAIN);
      RowsAreText(rows[..n]);
      CellsText("td", RowTexts(rows[n]));
      LettersOfElement("tr", cells);
      LettersConcat(SeenRows(rows[..n], PLAIN), Element("tr", cells));
    }
  }

  lemma TableText(header: string, rows: seq<string>)
    ensures Letters(SeenBlock(Table(header, rows), PLAIN)) == BlockText(Table(header, rows))
  {
    var cells, body := SeenCells("th", RowTexts(header), PLAIN), SeenRows(rows, PLAIN);
    CellsText("th", RowTexts(header));
    RowsAreText(rows);
    LettersOfElement("tr", cells);
    LettersOfElement("thead", Element("tr", cells));
    LettersOfElement("tbody", body);
    LettersConcat(Element("thead", Element("tr", cells)), Element("tbody", body));
    LettersOfElement("table", Element("thead", Element("tr", cells)) + Element("tbody", body));
  }

  lemma BlockIsText(b: Block)
    ensures Letters(SeenBlock(b, PLAIN)) == BlockText(b)
  {
    match b
    case Code(ls) =>
      LettersOfChars(JoinStrings(ls, "\n"));
      LettersOfElement("code", Chars(JoinStrings(ls, "\n")));
      LettersOfElement("pre", Element("code", Chars(JoinStrings(ls, "\n"))));
    case Table(header, rows) => TableText(header, rows);
    case Heading(level, text) => TextIsText(HeadingName(level), text);
    case Quote(ls) => TextIsText("blockquote", JoinStrings(Unquoted(ls), " "));
    case Item(_, text) => TextIsText("li", text);
    case Para(text) => TextIsText("p", text);
    case Rule => assert [Mark("hr/")][1..] == [];
    case _ =>
  }

  lemma TextIsText(name: string, text: string)
    ensures Letters(Element(name, SeenSpans(PLAIN(text)))) == text
  {
    PlainSpans(text);
    LettersOfElement(name, SeenSpans(PLAIN(text)));
  }

  function PieceText(p: Piece): string {
    match p
    case ListItem(_, text) => text
    case Whole(b) => BlockText(b)
    case _ => ""
  }

  /** The texts of the pieces, one to a line. */
  function PieceTexts(ps: seq<Piece>): string {
    if ps == [] then ""
    else if |ps| == 1 then PieceText(ps[0])
    else PieceText(ps[0]) + "\n" + PieceTexts(ps[1..])
  }

  lemma PieceIsText(p: Piece)
    ensures Letters(SeenPiece(p, PLAIN)) == PieceText(p)
  {
    match p
    case ListItem(_, text) => TextIsText("li", text);
    case Whole(b) => BlockIsText(b);
    case ListOpen(k) => assert [Mark(ListName(k))][1..] == [];
    case ListClose(k) => assert [Mark("/" + ListName(k))][1..] == [];
  }

  lemma {:induction false} PiecesAreText(ps: seq<Piece>)
    ensures Letters(SeenPieces(ps, PLAIN)) == PieceTexts(ps)
  {
    if ps == [] {
    } else {
      PieceIsText(ps[0]);
      if |ps| > 1 {
        PiecesAreText(ps[1..]);
        LettersConcat(SeenPiece(ps[0], PLAIN) + [Shown('\n')], SeenPieces(ps[1..], PLAIN));
        LettersConcat(SeenPiece(ps[0], PLAIN), [Shown('\n')]);
        assert Letters([Shown('\n')]) == "\n" by { assert [Shown('\n')][1..] == []; }
      }
    }
  }

  /** For every document whose lines, fences excepted, hold no backtick, asterisk or opening
      bracket, a browser reads each block as its element around its text, character for
      character: what is shown is the text of the blocks in order, nothing left out. */
  lemma PlainDocumentReads(md: string)
    requires forall i :: 0 <= i < |Lines(md)| ==> PlainLine(Lines(md)[i])
    ensures Read(ToHtml(MARKDOWN, md)) == SeenPieces(Render(Parse(MARKDOWN, Lines(md))), PLAIN)
    ensures Letters(Read(ToHtml(MARKDOWN, md))) == PieceTexts(Render(Parse(MARKDOWN, Lines(md))))
  {
    ParsePlain(Lines(md));
    PageReads(MARKDOWN, md, PLAIN);
    PiecesAreText(Render(Parse(MARKDOWN, Lines(md))));
  }
}
