/** What every page of the Markdown converter satisfies (scripts/build-pdf.cjs). */
module MarkdownPage {
  import opened HtmlText
  import opened LinePatterns
  import opened Markdown
  import opened Wrappers

  // ---- no angle bracket of the page comes from the document ----------------------------

  predicate AllClean(parts: seq<Html>) {
    forall i :: 0 <= i < |parts| ==> Clean(parts[i])
  }

  lemma CleanThree(a: Html, b: Html, c: Html)
    ensures Clean(a + b + c) <==> Clean(a) && Clean(b) && Clean(c)
  {
    CleanConcat(a, b);
    CleanConcat(a + b, c);
  }

  lemma WrappedClean(tag: string, h: Html)
    ensures Clean(Wrapped(tag, h)) <==> Clean(h)
  {
    CleanThree(Tag("<" + tag + ">"), h, Tag("</" + tag + ">"));
  }

  lemma TextClean(tag: string, text: string)
    ensures Clean(Wrapped(tag, Inline(Esc(text))))
  {
    InlineClean(text);
    WrappedClean(tag, Inline(Esc(text)));
  }

  lemma {:induction false} JoinClean(parts: seq<Html>, sep: Html)
    requires AllClean(parts) && Clean(sep)
    ensures Clean(Join(parts, sep))
  {
    if |parts| > 1 {
      JoinClean(parts[1..], sep);
      CleanThree(parts[0], sep, Join(parts[1..], sep));
    }
  }

  lemma {:induction false} CellsClean(parts: seq<string>)
    ensures AllClean(Cells(parts))
  {
    if parts == [] {
    } else {
      CellsClean(parts[1..]);
      InlineClean(Trim(parts[0]));
      assert Cells(parts) == [Inline(Esc(Trim(parts[0])))] + Cells(parts[1..]);
    }
  }

  lemma {:induction false} RowCellsClean(cells: seq<Html>, tag: string)
    requires AllClean(cells)
    ensures Clean(RowCells(cells, tag))
  {
    if cells == [] {
    } else {
      RowCellsClean(cells[1..], tag);
      WrappedClean(tag, cells[0]);
      CleanConcat(Wrapped(tag, cells[0]), RowCells(cells[1..], tag));
    }
  }

  lemma RowClean(line: string, tag: string)
    ensures Clean(RowCells(ParseRow(line), tag))
  {
    CellsClean(Split(RowText(line), '|'));
    RowCellsClean(ParseRow(line), tag);
  }

  lemma {:induction false} TableRowsClean(rows: seq<string>)
    ensures Clean(TableRows(rows))
  {
    if rows == [] {
    } else {
      var n := |rows| - 1;
      TableRowsClean(rows[..n]);
      RowClean(rows[n], "td");
      WrappedClean("tr", RowCells(ParseRow(rows[n]), "td"));
      CleanConcat(TableRows(rows[..n]), Wrapped("tr", RowCells(ParseRow(rows[n]), "td")));
    }
  }

  lemma HeadClean(header: string)
    ensures Clean(TableHead(header))
  {
    RowClean(header, "th");
    CleanThree(Tag("<table><thead><tr>"), RowCells(ParseRow(header), "th"), Tag("</tr></thead><tbody>"));
  }

  lemma TableClean(header: string, rows: seq<string>)
    ensures Clean(BlockHtml(Table(header, rows)))
  {
    HeadClean(header);
    TableRowsClean(rows);
    CleanThree(TableHead(header), TableRows(rows), Tag("</tbody></table>"));
  }

  lemma {:induction false} EscapedClean(lines: seq<string>)
    ensures AllClean(Escaped(lines))
  {
    if lines == [] {
    } else {
      EscapedClean(lines[1..]);
      EscClean(lines[0]);
    }
  }

  lemma CodeClean(lines: seq<string>)
    ensures Clean(BlockHtml(Code(lines)))
  {
    EscapedClean(lines);
    JoinClean(Escaped(lines), Tag("\n"));
    CleanThree(Tag("<pre><code>"), Join(Escaped(lines), Tag("\n")), Tag("</code></pre>"));
  }

  lemma BlockClean(b: Block)
    ensures Clean(BlockHtml(b))
  {
    match b
    case Code(ls) => CodeClean(ls);
    case Table(header, rows) => TableClean(header, rows);
    case Heading(level, text) => TextClean(HeadingTag(level), text);
    case Quote(ls) => TextClean("blockquote", JoinStrings(Unquoted(ls), " "));
    case Item(_, text) => TextClean("li", text);
    case Para(text) => TextClean("p", text);
    case Rule =>
    case Unclosed(_) =>
    case Blank =>
  }

  lemma PieceClean(p: Piece)
    ensures Clean(PieceHtml(p))
  {
    match p
    case ListItem(k, text) => BlockClean(Item(k, text));
    case Whole(b) => BlockClean(b);
    case ListOpen(_) =>
    case ListClose(_) =>
  }

  lemma {:induction false} HtmlsClean(ps: seq<Piece>)
    ensures AllClean(Htmls(ps))
  {
    if ps == [] {
    } else {
      HtmlsClean(ps[..|ps| - 1]);
      PieceClean(ps[|ps| - 1]);
    }
  }

  /** Whatever the document, every `<` and `>` of its page was written by the converter. */
  lemma PageClean(re: Syntax, md: string)
    ensures Clean(ToHtml(re, md))
  {
    var pieces := Render(Parse(re, Lines(md)));
    HtmlsClean(pieces);
    JoinClean(Htmls(pieces), Tag("\n"));
  }

  // ---- code is shown verbatim ---------------------------------------------------------

  lemma {:induction false} EscConcat(a: string, b: string)
    ensures EscOnePass(a + b) == EscOnePass(a) + EscOnePass(b)
  {
    if a == "" {
      assert a + b == b;
    } else {
      assert (a + b)[1..] == a[1..] + b;
      EscConcat(a[1..], b);
      assert Entity(a[0]) + (EscOnePass(a[1..]) + EscOnePass(b)) == (Entity(a[0]) + EscOnePass(a[1..])) + EscOnePass(b);
    }
  }

  lemma EscText(a: string, b: string)
    ensures Text(Esc(a + b)) == Text(Esc(a)) + Text(Esc(b))
  {
    EscIsOnePass(a + b);
    EscIsOnePass(a);
    EscIsOnePass(b);
    EscConcat(a, b);
    TextConcat(EscOnePass(a), EscOnePass(b));
  }

  /** Escaping line by line and joining shows the same text as escaping the joined lines. */
  lemma {:induction false} CodeText(lines: seq<string>)
    ensures Text(Join(Escaped(lines), Tag("\n"))) == Text(Esc(JoinStrings(lines, "\n")))
  {
    if |lines| > 1 {
      var h, rest := lines[0], lines[1..];
      CodeText(rest);
      EscText(h + "\n", JoinStrings(rest, "\n"));
      EscText(h, "\n");
      NewlineText();
      TextConcat(Esc(h) + Tag("\n"), Join(Escaped(rest), Tag("\n")));
      TextConcat(Esc(h), Tag("\n"));
      EscapedRest(lines);
    } else if |lines| == 1 {
      assert Escaped(lines) == [Esc(lines[0])] + Escaped(lines[1..]);
    }
  }

  lemma EscapedRest(lines: seq<string>)
    requires |lines| > 1
    ensures Join(Escaped(lines), Tag("\n")) == Esc(lines[0]) + Tag("\n") + Join(Escaped(lines[1..]), Tag("\n"))
  {
    assert Escaped(lines)[1..] == Escaped(lines[1..]);
    assert Escaped(lines[1..]) != [];
  }

  lemma NewlineText()
    ensures Text(Esc("\n")) == Text(Tag("\n")) == "\n"
  {
    EscIsOnePass("\n");
    TextIs(Tag("\n"), "\n");
    assert EscOnePass("\n"[1..]) == [];
    assert Text([In('\n')][1..]) == "";
  }

  /** A browser shows a code block as its lines were written. */
  lemma CodeShownVerbatim(lines: seq<string>)
    ensures Decode(Text(Join(Escaped(lines), Tag("\n")))) == JoinStrings(lines, "\n")
  {
    CodeText(lines);
    EscapedTextIsRead(JoinStrings(lines, "\n"));
  }

  // ---- lines ------------------------------------------------------------------------

  lemma {:induction false} SplitJoins(s: string, sep: char)
    ensures JoinStrings(Split(s, sep), [sep]) == s
    ensures forall i :: 0 <= i < |Split(s, sep)| ==> sep !in Split(s, sep)[i]
  {
    if s == "" {
    } else {
      var parts := Split(s[1..], sep);
      SplitJoins(s[1..], sep);
      if s[0] == sep {
        assert ([""] + parts)[1..] == parts;
      } else {
        assert ([[s[0]] + parts[0]] + parts[1..])[1..] == parts[1..];
      }
    }
  }

  function WindowsEnd(c: char): string {
    if c == '\n' then "\r\n" else [c]
  }

  /** The same document with the line ends of Windows. */
  function WindowsEnds(s: string): string {
    if s == "" then "" else WindowsEnd(s[0]) + WindowsEnds(s[1..])
  }

  lemma UnixStep(c: char, rest: string)
    requires c != '\r'
    ensures UnixEnds(WindowsEnd(c) + rest) == [c] + UnixEnds(rest)
    ensures UnixEnds([c] + rest) == [c] + UnixEnds(rest)
  {
    assert ([c] + rest)[1..] == rest;
    if c == '\n' {
      assert ("\r\n" + rest)[2..] == rest;
    }
  }

  lemma {:induction false} UnixEndsBack(s: string)
    requires '\r' !in s
    ensures UnixEnds(WindowsEnds(s)) == s && UnixEnds(s) == s
  {
    if s == "" {
    } else {
      UnixEndsBack(s[1..]);
      UnixStep(s[0], WindowsEnds(s[1..]));
      UnixStep(s[0], s[1..]);
      assert [s[0]] + s[1..] == s;
    }
  }

  /** The page does not depend on which line ends the document uses. */
  lemma {:induction false} LineEndsDoNotMatter(re: Syntax, md: string)
    requires '\r' !in md
    ensures ToHtml(re, WindowsEnds(md)) == ToHtml(re, md)
  {
    UnixEndsBack(md);
  }
}
