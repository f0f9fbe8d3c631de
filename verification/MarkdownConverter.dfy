/** The loop of mdToHtml (scripts/build-pdf.cjs) builds the page its parse describes. */
module MarkdownConverter {
  import opened HtmlText
  import opened LinePatterns
  import opened Markdown
  import opened Wrappers

  // ---- what is written so far -----------------------------------------------------------

  /** The pieces written so far lead to the page when these lists are open and these blocks are left. */
  ghost predicate Follows(page: seq<Piece>, pieces: seq<Piece>, stack: seq<Kind>, left: seq<Block>) {
    pieces + Tail(stack, left) == page
  }

  function Closers(stack: seq<Kind>): seq<Piece> {
    if stack == [] then [] else [ListClose(stack[|stack| - 1])] + Closers(stack[..|stack| - 1])
  }

  /** At most one list is open, and the next block does not continue it. */
  predicate Closable(stack: seq<Kind>, left: seq<Block>) {
    |stack| <= 1 && (stack != [] && left != [] ==> !IsItem(left[0], stack[0]))
  }

  lemma Regroup(a: seq<Piece>, b: seq<Piece>, c: seq<Piece>)
    ensures a + (b + c) == (a + b) + c
  {
  }

  lemma CloseStep(page: seq<Piece>, pieces: seq<Piece>, stack: seq<Kind>, left: seq<Block>)
    requires Follows(page, pieces, stack, left) && Closable(stack, left)
    ensures Follows(page, pieces + Closers(stack), [], left)
  {
    if stack == [] {
      assert pieces + Closers(stack) == pieces;
    } else {
      TailClose(stack, left);
      Regroup(pieces, Closers(stack), Render(left));
    }
  }

  lemma TailClose(stack: seq<Kind>, bs: seq<Block>)
    requires Closable(stack, bs) && stack != []
    ensures Tail(stack, bs) == Closers(stack) + Render(bs)
  {
    var k := stack[0];
    SkipIs(bs, 0, 0, b => IsItem(b, k));
    assert bs[0..] == bs && bs[..0] == [];
    assert Closers(stack) == [ListClose(k)];
    assert stack[..0] == [];
    assert Flat([]) + ([ListClose(k)] + Render(bs)) == [ListClose(k)] + Render(bs);
  }

  /** A block outside lists: what is open is closed, then the block is written. */
  lemma {:induction false} BlockStep(page: seq<Piece>, pieces: seq<Piece>, stack: seq<Kind>, b: Block, rest: seq<Block>)
    requires |stack| <= 1 && Follows(page, pieces, stack, [b] + rest) && !b.Item?
    ensures Follows(page, pieces + Closers(stack) + Plain(b), [], rest)
  {
    CloseStep(page, pieces, stack, [b] + rest);
    assert ([b] + rest)[1..] == rest;
    Regroup(pieces + Closers(stack), Plain(b), Render(rest));
  }

  /** A list opens before an item when no list is open. */
  lemma OpenStep(page: seq<Piece>, pieces: seq<Piece>, b: Block, rest: seq<Block>)
    requires Follows(page, pieces, [], [b] + rest) && b.Item?
    ensures Follows(page, pieces + [ListOpen(b.kind)], [b.kind], [b] + rest)
  {
    TailOne(b.kind, [b] + rest);
    Regroup(pieces, [ListOpen(b.kind)], Tail([b.kind], [b] + rest));
  }

  lemma TailOne(k: Kind, bs: seq<Block>)
    ensures Tail([k], bs) == Flat(bs[..ItemRun(bs, k)]) + ([ListClose(k)] + Render(bs[ItemRun(bs, k)..]))
  {
    assert [k][..0] == [];
  }

  /** An item is written inside the open list of its kind. */
  lemma ItemStep(page: seq<Piece>, pieces: seq<Piece>, b: Block, rest: seq<Block>)
    requires b.Item? && Follows(page, pieces, [b.kind], [b] + rest)
    ensures Follows(page, pieces + [ListItem(b.kind, b.text)], [b.kind], rest)
  {
    TailItem(b, rest);
    Regroup(pieces, [ListItem(b.kind, b.text)], Tail([b.kind], rest));
  }

  lemma TailItem(b: Block, rest: seq<Block>)
    requires b.Item?
    ensures Tail([b.kind], [b] + rest) == [ListItem(b.kind, b.text)] + Tail([b.kind], rest)
  {
    var k, bs := b.kind, [b] + rest;
    var n := ItemRun(rest, k);
    TailOne(k, bs);
    TailOne(k, rest);
    assert bs[1..] == rest;
    RunIsOfKind(rest, k);
    SkipIs(bs, 0, n + 1, b => IsItem(b, k));
    assert bs[..n + 1][1..] == rest[..n];
    assert bs[n + 1..] == rest[n..];
    assert bs[..n + 1][0] == b;
    Regroup([ListItem(k, b.text)], Flat(rest[..n]), [ListClose(k)] + Render(rest[n..]));
  }

  lemma HtmlsPush(ps: seq<Piece>, p: Piece)
    ensures Htmls(ps + [p]) == Htmls(ps) + [PieceHtml(p)]
  {
    assert (ps + [p])[..|ps|] == ps;
  }

  // ---- which block starts at a line -----------------------------------------------------

  predicate TableAt(re: Syntax, lines: seq<string>, i: nat)
    requires i < |lines|
  {
    re.row(lines[i]) && i + 1 < |lines| && re.tableRule(lines[i + 1])
  }

  /** The lines from `i` to `j` are this block. */
  ghost predicate BlockAt(re: Syntax, lines: seq<string>, i: nat, j: nat, b: Block)
    requires i < j <= |lines|
  {
    Parse(re, lines[i..]) == [b] + Parse(re, lines[j..])
  }

  lemma BlockAtFirst(re: Syntax, lines: seq<string>, i: nat, b: Block)
    requires i < |lines| && First(re, lines[i..]) == b
    ensures i < i + Size(b) <= |lines| && BlockAt(re, lines, i, i + Size(b), b)
  {
    assert lines[i..][Size(b)..] == lines[i + Size(b)..];
  }

  lemma RunFrom(lines: seq<string>, i: nat, k: nat, j: nat, p: string -> bool)
    requires i + k <= |lines| && RunAt(lines, i + k, j, p)
    ensures Skip(lines[i..], k, p) == j - i
  {
    SkipIs(lines[i..], k, j - i, p);
  }

  lemma SliceFrom(lines: seq<string>, i: nat, k: nat, j: nat)
    requires i + k <= j <= |lines|
    ensures lines[i..][k..j - i] == lines[i + k..j]
  {
  }

  /** A fence with an end starts a code block. */
  lemma FenceStarts(re: Syntax, lines: seq<string>, i: nat, j: nat)
    requires i < j < |lines| && RunAt(lines, i + 1, j, line => !re.fence(line)) && re.fence(lines[i])
    ensures BlockAt(re, lines, i, j + 1, Code(lines[i + 1..j]))
  {
    FenceFound(re, lines, i, j);
    BlockAtFirst(re, lines, i, Code(lines[i + 1..j]));
  }

  lemma FenceFound(re: Syntax, lines: seq<string>, i: nat, j: nat)
    requires i < j < |lines| && RunAt(lines, i + 1, j, line => !re.fence(line))
    ensures FenceBlock(re, lines[i..]) == Code(lines[i + 1..j])
  {
    RunFrom(lines, i, 1, j, line => !re.fence(line));
    SliceFrom(lines, i, 1, j);
  }

  /** A fence without an end takes the rest of the document. */
  lemma FenceUnclosed(re: Syntax, lines: seq<string>, i: nat)
    requires i < |lines| && RunAt(lines, i + 1, |lines|, line => !re.fence(line)) && re.fence(lines[i])
    ensures BlockAt(re, lines, i, |lines|, Unclosed(lines[i + 1..]))
  {
    RunFrom(lines, i, 1, |lines|, line => !re.fence(line));
    SliceFrom(lines, i, 1, |lines|);
    BlockAtFirst(re, lines, i, Unclosed(lines[i + 1..]));
  }

  lemma TableFound(re: Syntax, lines: seq<string>, i: nat, j: nat)
    requires i + 2 <= j && RunAt(lines, i + 2, j, re.row)
    ensures TableBlock(re, lines[i..]) == Table(lines[i], lines[i + 2..j])
  {
    RunFrom(lines, i, 2, j, re.row);
    SliceFrom(lines, i, 2, j);
  }

  lemma TableStarts(re: Syntax, lines: seq<string>, i: nat, j: nat)
    requires i + 2 <= j && RunAt(lines, i + 2, j, re.row)
    requires !re.fence(lines[i]) && TableAt(re, lines, i)
    ensures BlockAt(re, lines, i, j, Table(lines[i], lines[i + 2..j]))
  {
    TableFound(re, lines, i, j);
    BlockAtFirst(re, lines, i, Table(lines[i], lines[i + 2..j]));
  }

  lemma LineStarts(re: Syntax, lines: seq<string>, i: nat)
    requires i < |lines| && !re.fence(lines[i]) && !TableAt(re, lines, i) && !LineBlock(re, lines[i]).Quote?
    ensures BlockAt(re, lines, i, i + 1, LineBlock(re, lines[i]))
  {
    BlockAtFirst(re, lines, i, LineBlock(re, lines[i]));
  }

  lemma QuoteFound(re: Syntax, lines: seq<string>, i: nat, j: nat)
    requires i < j && RunAt(lines, i, j, re.quote) && LineBlock(re, lines[i]).Quote?
    ensures TextBlock(re, lines[i..]) == Quote(lines[i..j])
  {
    RunFrom(lines, i, 1, j, re.quote);
    SliceFrom(lines, i, 0, j);
  }

  lemma QuoteStarts(re: Syntax, lines: seq<string>, i: nat, j: nat)
    requires i < j && RunAt(lines, i, j, re.quote)
    requires !re.fence(lines[i]) && !TableAt(re, lines, i) && LineBlock(re, lines[i]).Quote?
    ensures BlockAt(re, lines, i, j, Quote(lines[i..j]))
  {
    QuoteFound(re, lines, i, j);
    assert First(re, lines[i..]) == TextBlock(re, lines[i..]);
    BlockAtFirst(re, lines, i, Quote(lines[i..j]));
  }

  // ---- the loops ------------------------------------------------------------------------

  /** while (listStack.length) out.push(`</${listStack.pop()}>`) */
  method CloseLists(listStack: seq<Kind>, out: seq<Html>, ghost pieces: seq<Piece>) returns (closed: seq<Html>)
    requires out == Htmls(pieces)
    ensures closed == Htmls(pieces + Closers(listStack))
  {
    closed := out;
    var stack := listStack;
    ghost var done := pieces;
    while stack != []
      invariant closed == Htmls(done)
      invariant done + Closers(stack) == pieces + Closers(listStack)
    {
      var top := stack[|stack| - 1];
      Regroup(done, [ListClose(top)], Closers(stack[..|stack| - 1]));
      HtmlsPush(done, ListClose(top));
      done := done + [ListClose(top)];
      stack := stack[..|stack| - 1];
      closed := closed + [Tag("</" + ListTag(top) + ">")];
    }
    assert done + Closers([]) == done;
  }

  /** The rows of a table; they are split into cells when they are written. */
  method ReadRows(re: Syntax, lines: seq<string>, start: nat) returns (rows: seq<string>, i: nat)
    requires start <= |lines|
    ensures RunAt(lines, start, i, re.row)
    ensures rows == lines[start..i]
  {
    i, rows := start, [];
    while i < |lines| && re.row(lines[i])
      invariant start <= i <= |lines|
      invariant forall k :: start <= k < i ==> re.row(lines[k])
      invariant rows == lines[start..i]
    {
      rows := rows + [lines[i]];
      i := i + 1;
    }
  }

  method WriteRows(head: Html, rows: seq<string>) returns (t: Html)
    ensures t == head + TableRows(rows)
  {
    t := head;
    var k := 0;
    assert head + TableRows(rows[..0]) == head;
    while k < |rows|
      invariant k <= |rows|
      invariant t == head + TableRows(rows[..k])
    {
      TableRowsPush(head, rows, k);
      t := t + Wrapped("tr", RowCells(ParseRow(rows[k]), "td"));
      k := k + 1;
    }
    assert rows[..k] == rows;
  }

  lemma TableRowsPush(head: Html, body: seq<string>, k: nat)
    requires k < |body|
    ensures head + TableRows(body[..k + 1])
         == head + TableRows(body[..k]) + Wrapped("tr", RowCells(ParseRow(body[k]), "td"))
  {
    assert body[..k + 1][..k] == body[..k];
  }

  lemma UnquotedPush(lines: seq<string>, start: nat, i: nat)
    requires start <= i < |lines|
    ensures Unquoted(lines[start..i + 1]) == Unquoted(lines[start..i]) + [Unquote(lines[i])]
  {
    assert lines[start..i + 1][..i - start] == lines[start..i];
  }

  method ReadQuote(re: Syntax, lines: seq<string>, start: nat) returns (buf: seq<string>, i: nat)
    requires start < |lines| && re.quote(lines[start])
    ensures start < i && RunAt(lines, start, i, re.quote)
    ensures buf == Unquoted(lines[start..i])
  {
    i, buf := start, [];
    while i < |lines| && re.quote(lines[i])
      invariant start <= i <= |lines|
      invariant forall k :: start <= k < i ==> re.quote(lines[k])
      invariant buf == Unquoted(lines[start..i])
    {
      UnquotedPush(lines, start, i);
      buf := buf + [Unquote(lines[i])];
      i := i + 1;
    }
  }

  /** One line outside code blocks: a whole block, or one list item. */
  ghost predicate Progress(re: Syntax, lines: seq<string>, i: nat, pieces: seq<Piece>, stack: seq<Kind>)
    requires i <= |lines|
  {
    |stack| <= 1 && Follows(Render(Parse(re, lines)), pieces, stack, Parse(re, lines[i..]))
  }

  lemma BlockDone(re: Syntax, lines: seq<string>, i: nat, j: nat, b: Block, pieces: seq<Piece>, stack: seq<Kind>)
    requires i < j <= |lines| && BlockAt(re, lines, i, j, b) && !b.Item?
    requires Progress(re, lines, i, pieces, stack)
    ensures Progress(re, lines, j, pieces + Closers(stack) + Plain(b), [])
  {
    BlockStep(Render(Parse(re, lines)), pieces, stack, b, Parse(re, lines[j..]));
  }

  lemma ProgressEnds(re: Syntax, lines: seq<string>, pieces: seq<Piece>, stack: seq<Kind>)
    requires Progress(re, lines, |lines|, pieces, stack)
    ensures pieces + Closers(stack) == Render(Parse(re, lines))
  {
    var page := Render(Parse(re, lines));
    assert Parse(re, lines[|lines|..]) == [];
    CloseStep(page, pieces, stack, []);
    assert pieces + Closers(stack) + [] == pieces + Closers(stack);
  }

  lemma ProgressStarts(re: Syntax, lines: seq<string>)
    ensures Progress(re, lines, 0, [], [])
  {
    assert lines[0..] == lines;
    assert [] + Render(Parse(re, lines)) == Render(Parse(re, lines));
  }

  /** Close what is open and write one block. */
  method WriteBlock(ghost page: seq<Piece>, ghost b: Block, ghost rest: seq<Block>, html: Html,
                    out0: seq<Html>, stack: seq<Kind>, ghost pieces0: seq<Piece>)
    returns (out: seq<Html>, ghost pieces: seq<Piece>)
    requires !b.Item? && Plain(b) == [Whole(b)] && html == BlockHtml(b)
    requires out0 == Htmls(pieces0) && |stack| <= 1 && Follows(page, pieces0, stack, [b] + rest)
    ensures out == Htmls(pieces) && Follows(page, pieces, [], rest)
  {
    BlockStep(page, pieces0, stack, b, rest);
    out := CloseLists(stack, out0, pieces0);
    HtmlsPush(pieces0 + Closers(stack), Whole(b));
    pieces := pieces0 + Closers(stack) + [Whole(b)];
    out := out + [html];
  }

  /** Open the list of the item unless it is open, then write the item. */
  method WriteItem(ghost page: seq<Piece>, kind: Kind, text: string, ghost rest: seq<Block>,
                   out0: seq<Html>, stack: seq<Kind>, ghost pieces0: seq<Piece>)
    returns (out: seq<Html>, ghost pieces: seq<Piece>)
    requires out0 == Htmls(pieces0) && |stack| <= 1 && Follows(page, pieces0, stack, [Item(kind, text)] + rest)
    ensures out == Htmls(pieces) && Follows(page, pieces, [kind], rest)
  {
    out, pieces := out0, pieces0;
    ghost var b := Item(kind, text);
    if stack == [] || stack[|stack| - 1] != kind {
      CloseStep(page, pieces, stack, [b] + rest);
      out := CloseLists(stack, out, pieces);
      pieces := pieces + Closers(stack);
      OpenStep(page, pieces, b, rest);
      HtmlsPush(pieces, ListOpen(kind));
      pieces := pieces + [ListOpen(kind)];
      out := out + [Tag("<" + ListTag(kind) + ">")];
    } else {
      assert stack == [kind];
    }
    ItemStep(page, pieces, b, rest);
    HtmlsPush(pieces, ListItem(kind, text));
    pieces := pieces + [ListItem(kind, text)];
    out := out + [Wrapped("li", Inline(Esc(text)))];
  }

  /** One table outside code blocks. */
  method ConvertTable(re: Syntax, lines: seq<string>, start: nat, out0: seq<Html>, stack: seq<Kind>, ghost pieces0: seq<Piece>)
    returns (out: seq<Html>, i: nat, ghost pieces: seq<Piece>)
    requires start < |lines| && !re.fence(lines[start]) && TableAt(re, lines, start)
    requires out0 == Htmls(pieces0) && Progress(re, lines, start, pieces0, stack)
    ensures start < i <= |lines| && out == Htmls(pieces) && Progress(re, lines, i, pieces, [])
  {
    var rows;
    rows, i := ReadRows(re, lines, start + 2);
    var t := WriteRows(TableHead(lines[start]), rows);
    t := t + Tag("</tbody></table>");
    TableStarts(re, lines, start, i);
    out, pieces := WriteBlock(Render(Parse(re, lines)), Table(lines[start], rows), Parse(re, lines[i..]), t, out0, stack, pieces0);
  }

  method ConvertQuote(re: Syntax, lines: seq<string>, start: nat, out0: seq<Html>, stack: seq<Kind>, ghost pieces0: seq<Piece>)
    returns (out: seq<Html>, i: nat, ghost pieces: seq<Piece>)
    requires start < |lines| && !re.fence(lines[start]) && !TableAt(re, lines, start)
    requires LineBlock(re, lines[start]).Quote?
    requires out0 == Htmls(pieces0) && Progress(re, lines, start, pieces0, stack)
    ensures start < i <= |lines| && out == Htmls(pieces) && Progress(re, lines, i, pieces, [])
  {
    var buf;
    buf, i := ReadQuote(re, lines, start);
    var html := Wrapped("blockquote", Inline(Esc(JoinStrings(buf, " "))));
    QuoteStarts(re, lines, start, i);
    out, pieces := WriteBlock(Render(Parse(re, lines)), Quote(lines[start..i]), Parse(re, lines[i..]), html, out0, stack, pieces0);
  }

  /** A line that is a block of its own or a list item, the tests in the source's order. */
  method ConvertText(re: Syntax, line: string, ghost page: seq<Piece>, ghost rest: seq<Block>,
                     out0: seq<Html>, stack: seq<Kind>, ghost pieces0: seq<Piece>)
    returns (out: seq<Html>, listStack: seq<Kind>, ghost pieces: seq<Piece>)
    requires !LineBlock(re, line).Quote? && out0 == Htmls(pieces0)
    requires |stack| <= 1 && Follows(page, pieces0, stack, [LineBlock(re, line)] + rest)
    ensures out == Htmls(pieces) && |listStack| <= 1 && Follows(page, pieces, listStack, rest)
  {
    ghost var b := LineBlock(re, line);
    listStack := [];
    if re.heading(line).Some? {
      var h := re.heading(line).value;
      out, pieces := WriteBlock(page, b, rest, Wrapped(HeadingTag(h.0), Inline(Esc(h.1))), out0, stack, pieces0);
    } else if re.rule(line) {
      out, pieces := WriteBlock(page, b, rest, Tag("<hr/>"), out0, stack, pieces0);
    } else if re.ul(line).Some? {
      out, pieces := WriteItem(page, Ul, re.ul(line).value, rest, out0, stack, pieces0);
      listStack := [Ul];
    } else if re.ol(line).Some? {
      out, pieces := WriteItem(page, Ol, re.ol(line).value, rest, out0, stack, pieces0);
      listStack := [Ol];
    } else if re.blank(line) {
      BlockStep(page, pieces0, stack, Blank, rest);
      out := CloseLists(stack, out0, pieces0);
      pieces := pieces0 + Closers(stack);
      assert pieces + [] == pieces;
    } else {
      out, pieces := WriteBlock(page, b, rest, Wrapped("p", Inline(Esc(line))), out0, stack, pieces0);
    }
  }

  /** The body of the loop outside code blocks. */
  method ConvertLine(re: Syntax, lines: seq<string>, start: nat, out0: seq<Html>, stack0: seq<Kind>, ghost pieces0: seq<Piece>)
    returns (out: seq<Html>, i: nat, listStack: seq<Kind>, ghost pieces: seq<Piece>)
    requires start < |lines| && !re.fence(lines[start]) && out0 == Htmls(pieces0)
    requires Progress(re, lines, start, pieces0, stack0)
    ensures start < i <= |lines| && out == Htmls(pieces)
    ensures Progress(re, lines, i, pieces, listStack)
  {
    i, listStack := start + 1, [];
    if re.row(lines[start]) && start + 1 < |lines| && re.tableRule(lines[start + 1]) {
      out, i, pieces := ConvertTable(re, lines, start, out0, stack0, pieces0);
    } else if re.heading(lines[start]).None? && !re.rule(lines[start]) && re.quote(lines[start]) {
      out, i, pieces := ConvertQuote(re, lines, start, out0, stack0, pieces0);
    } else {
      LineStarts(re, lines, start);
      out, listStack, pieces := ConvertText(re, lines[start], Render(Parse(re, lines)), Parse(re, lines[i..]), out0, stack0, pieces0);
    }
  }

  /** A fence was opened at line `fence`, and the lines since then are code. */
  ghost predicate InFence(re: Syntax, lines: seq<string>, fence: nat, i: nat, pieces: seq<Piece>)
    requires fence < i <= |lines|
  {
    && Progress(re, lines, fence, pieces, [])
    && re.fence(lines[fence]) && forall k :: fence < k < i ==> !re.fence(lines[k])
  }

  lemma FenceOpened(re: Syntax, lines: seq<string>, i: nat, pieces: seq<Piece>, stack: seq<Kind>)
    requires i < |lines| && re.fence(lines[i]) && Progress(re, lines, i, pieces, stack)
    ensures InFence(re, lines, i, i + 1, pieces + Closers(stack))
  {
    var left := Parse(re, lines[i..]);
    assert left[0] == First(re, lines[i..]) == FenceBlock(re, lines[i..]);
    CloseStep(Render(Parse(re, lines)), pieces, stack, left);
  }

  lemma FenceClosed(re: Syntax, lines: seq<string>, fence: nat, i: nat, pieces: seq<Piece>)
    requires fence < i < |lines| && re.fence(lines[i]) && InFence(re, lines, fence, i, pieces)
    ensures Progress(re, lines, i + 1, pieces + [Whole(Code(lines[fence + 1..i]))], [])
  {
    FenceStarts(re, lines, fence, i);
    CodeDone(re, lines, fence, i + 1, lines[fence + 1..i], pieces);
  }

  lemma CodeDone(re: Syntax, lines: seq<string>, i: nat, j: nat, code: seq<string>, pieces: seq<Piece>)
    requires i < j <= |lines| && BlockAt(re, lines, i, j, Code(code)) && Progress(re, lines, i, pieces, [])
    ensures Progress(re, lines, j, pieces + [Whole(Code(code))], [])
  {
    BlockDone(re, lines, i, j, Code(code), pieces, []);
    CodeAlone(pieces, code);
  }

  lemma CodeAlone(pieces: seq<Piece>, code: seq<string>)
    ensures pieces + Closers([]) + Plain(Code(code)) == pieces + [Whole(Code(code))]
  {
  }

  lemma FenceDropped(re: Syntax, lines: seq<string>, fence: nat, pieces: seq<Piece>)
    requires fence < |lines| && InFence(re, lines, fence, |lines|, pieces)
    ensures Progress(re, lines, |lines|, pieces, [])
  {
    FenceUnclosed(re, lines, fence);
    BlockDone(re, lines, fence, |lines|, Unclosed(lines[fence + 1..]), pieces, []);
    assert pieces + Closers([]) + [] == pieces;
  }

  /** The loop invariant: outside a fence the pieces have come as far as line `i`; inside,
      they wait at the fence and the buffer holds the lines since then. */
  ghost predicate State(re: Syntax, lines: seq<string>, i: nat, inCode: bool, codeBuf: seq<string>,
                        stack: seq<Kind>, pieces: seq<Piece>, fence: nat)
    requires i <= |lines|
  {
    if inCode then
      stack == [] && fence < i && InFence(re, lines, fence, i, pieces) && codeBuf == lines[fence + 1..i]
    else Progress(re, lines, i, pieces, stack)
  }

  lemma CodeLine(re: Syntax, lines: seq<string>, i: nat, codeBuf: seq<string>, pieces: seq<Piece>, fence: nat)
    requires i < |lines| && State(re, lines, i, true, codeBuf, [], pieces, fence) && !re.fence(lines[i])
    ensures State(re, lines, i + 1, true, codeBuf + [lines[i]], [], pieces, fence)
  {
  }

  /** The closing fence: the buffered lines become one code block. */
  method WriteCode(ghost re: Syntax, ghost lines: seq<string>, ghost i: nat, ghost fence: nat, codeBuf: seq<string>,
                   out0: seq<Html>, ghost pieces0: seq<Piece>)
    returns (out: seq<Html>, ghost pieces: seq<Piece>)
    requires i < |lines| && State(re, lines, i, true, codeBuf, [], pieces0, fence) && re.fence(lines[i])
    requires out0 == Htmls(pieces0)
    ensures out == Htmls(pieces) && Progress(re, lines, i + 1, pieces, [])
  {
    FenceClosed(re, lines, fence, i, pieces0);
    HtmlsPush(pieces0, Whole(Code(codeBuf)));
    pieces := pieces0 + [Whole(Code(codeBuf))];
    out := out0 + [Tag("<pre><code>") + Join(Escaped(codeBuf), Tag("\n")) + Tag("</code></pre>")];
  }

  /** The loop over the lines, with the fence flag, the code buffer and the list stack. */
  method ConvertLines(re: Syntax, lines: seq<string>) returns (out: seq<Html>)
    ensures out == Htmls(Render(Parse(re, lines)))
  {
    var i, inCode := 0, false;
    var codeBuf: seq<string>, listStack: seq<Kind> := [], [];
    ghost var pieces: seq<Piece>, fence: nat := [], 0;
    out := [];
    ProgressStarts(re, lines);
    while i < |lines|
      invariant i <= |lines| && out == Htmls(pieces)
      invariant State(re, lines, i, inCode, codeBuf, listStack, pieces, fence)
    {
      if re.fence(lines[i]) {
        if !inCode {
          FenceOpened(re, lines, i, pieces, listStack);
          out := CloseLists(listStack, out, pieces);
          pieces := pieces + Closers(listStack);
          listStack, inCode, codeBuf, fence := [], true, [], i;
        } else {
          out, pieces := WriteCode(re, lines, i, fence, codeBuf, out, pieces);
          inCode := false;
        }
        i := i + 1;
      } else if inCode {
        CodeLine(re, lines, i, codeBuf, pieces, fence);
        codeBuf := codeBuf + [lines[i]];
        i := i + 1;
      } else {
        out, i, listStack, pieces := ConvertLine(re, lines, i, out, listStack, pieces);
      }
    }
    if inCode {
      FenceDropped(re, lines, fence, pieces);
    }
    ProgressEnds(re, lines, pieces, listStack);
    out := CloseLists(listStack, out, pieces);
  }

  method MdToHtml(re: Syntax, md: string) returns (html: Html)
    ensures html == ToHtml(re, md)
  {
    var out := ConvertLines(re, Lines(md));
    html := Join(out, Tag("\n"));
  }
}
