/** The line-driven Markdown converter (mdToHtml in scripts/build-pdf.cjs). */
module Markdown {
  import opened HtmlText
  import opened LinePatterns
  import opened Sequences
  import opened Wrappers

  datatype Kind = Ul | Ol

  datatype Block =
    | Code(lines: seq<string>)
    | Unclosed(lines: seq<string>)  // a fence without its end: its lines are dropped
    | Table(header: string, rows: seq<string>)
    | Heading(level: nat, text: string)
    | Rule
    | Quote(lines: seq<string>)
    | Item(kind: Kind, text: string)
    | Blank
    | Para(text: string)

  /** Number of lines the block covers. */
  function Size(b: Block): nat {
    match b
    case Code(ls) => |ls| + 2
    case Unclosed(ls) => |ls| + 1
    case Table(_, rows) => |rows| + 2
    case Quote(ls) => |ls|
    case _ => 1
  }

  /** The line tests of the converter, one for each of its patterns. The structure of
      the page is proved for all tests; MARKDOWN is the source's. */
  datatype Syntax = Syntax(
    fence: string -> bool, row: string -> bool, tableRule: string -> bool,
    heading: string -> Option<(nat, string)>, rule: string -> bool, quote: string -> bool,
    ul: string -> Option<string>, ol: string -> Option<string>, blank: string -> bool)

  const MARKDOWN: Syntax :=
    Syntax(IsFence, IsRow, IsTableRule, HeadingOf, IsRule, IsQuote, UlText, OlText, IsBlank)

  /** The block of a line outside fences and tables, tried in this order. */
  function LineBlock(re: Syntax, line: string): (b: Block)
    ensures !b.Code? && !b.Unclosed? && !b.Table?
    ensures b.Quote? ==> re.quote(line)
  {
    if re.heading(line).Some? then Heading(re.heading(line).value.0, re.heading(line).value.1)
    else if re.rule(line) then Rule
    else if re.quote(line) then Quote([line])
    else if re.ul(line).Some? then Item(Ul, re.ul(line).value)
    else if re.ol(line).Some? then Item(Ol, re.ol(line).value)
    else if re.blank(line) then Blank
    else Para(line)
  }


  /** The lines of a fence up to the next one. */
  function FenceBlock(re: Syntax, lines: seq<string>): (b: Block)
    requires lines != []
    ensures 0 < Size(b) <= |lines|
  {
    var j := Skip(lines, 1, line => !re.fence(line));
    if j < |lines| then Code(lines[1..j]) else Unclosed(lines[1..])
  }

  predicate StartsTable(re: Syntax, lines: seq<string>) {
    |lines| > 1 && re.row(lines[0]) && re.tableRule(lines[1])
  }

  function TableBlock(re: Syntax, lines: seq<string>): (b: Block)
    requires |lines| > 1
    ensures 0 < Size(b) <= |lines|
  {
    Table(lines[0], lines[2..Skip(lines, 2, re.row)])
  }

  /** Quoted lines that follow one another are one quote. */
  function TextBlock(re: Syntax, lines: seq<string>): (b: Block)
    requires lines != []
    ensures 0 < Size(b) <= |lines|
  {
    var b := LineBlock(re, lines[0]);
    if b.Quote? then Quote(lines[..Skip(lines, 1, re.quote)]) else b
  }

  /** The block that starts at the first line. */
  function First(re: Syntax, lines: seq<string>): (b: Block)
    requires lines != []
    ensures 0 < Size(b) <= |lines|
  {
    if re.fence(lines[0]) then FenceBlock(re, lines)
    else if StartsTable(re, lines) then TableBlock(re, lines)
    else TextBlock(re, lines)
  }

  function Parse(re: Syntax, lines: seq<string>): seq<Block>
    decreases |lines|
  {
    if lines == [] then []
    else
      var b := First(re, lines);
      [b] + Parse(re, lines[Size(b)..])
  }

  // ---- pieces of the page -----------------------------------------------------------

  /** One entry of the output list. The kind of a list item is the kind of its block. */
  datatype Piece = ListOpen(kind: Kind) | ListClose(kind: Kind) | ListItem(kind: Kind, text: string) | Whole(block: Block)

  predicate IsItem(b: Block, k: Kind) {
    b.Item? && b.kind == k
  }

  /** Number of items of kind `k` at the start. */
  function ItemRun(bs: seq<Block>, k: Kind): (n: nat)
    ensures n <= |bs| && (bs != [] && IsItem(bs[0], k) ==> n > 0)
  {
    Skip(bs, 0, b => IsItem(b, k))
  }

  /** A block outside lists; a blank line and an unclosed fence write nothing. */
  function Plain(b: Block): seq<Piece> {
    if b.Blank? || b.Unclosed? then [] else [Whole(b)]
  }

  function Alone(b: Block): seq<Piece> {
    if b.Item? then [ListItem(b.kind, b.text)] else Plain(b)
  }

  function Flat(bs: seq<Block>): seq<Piece> {
    if bs == [] then [] else Alone(bs[0]) + Flat(bs[1..])
  }

  /** Maximal runs of items of one kind become one list; every other block stands alone. */
  function Render(bs: seq<Block>): seq<Piece>
    decreases |bs|
  {
    if bs == [] then []
    else if bs[0].Item? then
      var k := bs[0].kind;
      var n := ItemRun(bs, k);
      [ListOpen(k)] + (Flat(bs[..n]) + ([ListClose(k)] + Render(bs[n..])))
    else Plain(bs[0]) + Render(bs[1..])
  }

  /** What is still to be written when the lists in `stack` are open. */
  function Tail(stack: seq<Kind>, bs: seq<Block>): seq<Piece> {
    if stack == [] then Render(bs)
    else
      var k := stack[|stack| - 1];
      Flat(bs[..ItemRun(bs, k)]) + ([ListClose(k)] + Tail(stack[..|stack| - 1], bs[ItemRun(bs, k)..]))
  }

  function ListTag(k: Kind): string {
    match k
    case Ul => "ul"
    case Ol => "ol"
  }

  function Join(parts: seq<Html>, sep: Html): Html {
    if parts == [] then []
    else if |parts| == 1 then parts[0]
    else parts[0] + sep + Join(parts[1..], sep)
  }

  function JoinStrings(parts: seq<string>, sep: string): string {
    if parts == [] then ""
    else if |parts| == 1 then parts[0]
    else parts[0] + sep + JoinStrings(parts[1..], sep)
  }

  function Split(s: string, sep: char): (parts: seq<string>)
    ensures parts != []
  {
    if s == "" then [""]
    else if s[0] == sep then [""] + Split(s[1..], sep)
    else
      var parts := Split(s[1..], sep);
      [[s[0]] + parts[0]] + parts[1..]
  }

  function Cells(parts: seq<string>): seq<Html> {
    if parts == [] then [] else [Inline(Esc(Trim(parts[0])))] + Cells(parts[1..])
  }

  /** A row without its outer bars. */
  function RowText(line: string): string {
    var t := Trim(line);
    var u := if t != "" && t[0] == '|' then t[1..] else t;
    if u != "" && u[|u| - 1] == '|' then u[..|u| - 1] else u
  }

  function ParseRow(line: string): seq<Html> {
    Cells(Split(RowText(line), '|'))
  }

  function RowCells(cells: seq<Html>, tag: string): Html {
    if cells == [] then [] else Wrapped(tag, cells[0]) + RowCells(cells[1..], tag)
  }

  function TableHead(header: string): Html {
    Tag("<table><thead><tr>") + RowCells(ParseRow(header), "th") + Tag("</tr></thead><tbody>")
  }

  function TableRows(rows: seq<string>): Html {
    if rows == [] then []
    else
      var n := |rows| - 1;
      TableRows(rows[..n]) + Wrapped("tr", RowCells(ParseRow(rows[n]), "td"))
  }

  function Escaped(lines: seq<string>): seq<Html> {
    if lines == [] then [] else [Esc(lines[0])] + Escaped(lines[1..])
  }

  function Unquoted(lines: seq<string>): seq<string> {
    if lines == [] then [] else Unquoted(lines[..|lines| - 1]) + [Unquote(lines[|lines| - 1])]
  }

  function HeadingTag(level: nat): string {
    "h" + [if level < 10 then "0123456789"[level] else '?']
  }

  function BlockHtml(b: Block): Html {
    match b
    case Code(ls) => Tag("<pre><code>") + Join(Escaped(ls), Tag("\n")) + Tag("</code></pre>")
    case Table(header, rows) => TableHead(header) + TableRows(rows) + Tag("</tbody></table>")
    case Heading(level, text) => Wrapped(HeadingTag(level), Inline(Esc(text)))
    case Rule => Tag("<hr/>")
    case Quote(ls) => Wrapped("blockquote", Inline(Esc(JoinStrings(Unquoted(ls), " "))))
    case Item(_, text) => Wrapped("li", Inline(Esc(text)))
    case Para(text) => Wrapped("p", Inline(Esc(text)))
    case Unclosed(_) => []
    case Blank => []
  }

  function PieceHtml(p: Piece): Html {
    match p
    case ListOpen(k) => Tag("<" + ListTag(k) + ">")
    case ListClose(k) => Tag("</" + ListTag(k) + ">")
    case ListItem(k, text) => BlockHtml(Item(k, text))
    case Whole(b) => BlockHtml(b)
  }

  function Htmls(ps: seq<Piece>): seq<Html> {
    if ps == [] then [] else Htmls(ps[..|ps| - 1]) + [PieceHtml(ps[|ps| - 1])]
  }

  // md.replace(/\r\n/g, '\n') 
  function UnixEnds(s: string): string {
    if s == "" then ""
    else if |s| > 1 && s[0] == '\r' && s[1] == '\n' then "\n" + UnixEnds(s[2..])
    else [s[0]] + UnixEnds(s[1..])
  }

  function Lines(md: string): seq<string> {
    Split(UnixEnds(md), '\n')
  }

  /** The specification of mdToHtml: parse into blocks, then render them. */
  function ToHtml(re: Syntax, md: string): Html {
    Join(Htmls(Render(Parse(re, Lines(md)))), Tag("\n"))
  }

  // ---- lists are balanced and hold exactly their items --------------------------------

  /** Reading the pieces with at most one list open: items stand in the open list of their
      kind, everything else stands outside lists, and every list that is opened is closed. */
  predicate Nested(ps: seq<Piece>, open: Option<Kind>) {
    if ps == [] then open == None
    else
      match ps[0]
      case ListOpen(k) => open == None && Nested(ps[1..], Some(k))
      case ListClose(k) => open == Some(k) && Nested(ps[1..], None)
      case ListItem(k, _) => open == Some(k) && Nested(ps[1..], open)
      case Whole(_) => open == None && Nested(ps[1..], None)
  }

  predicate AllOfKind(bs: seq<Block>, k: Kind) {
    forall i :: 0 <= i < |bs| ==> IsItem(bs[i], k)
  }

  lemma RunIsOfKind(bs: seq<Block>, k: Kind)
    ensures AllOfKind(bs[..ItemRun(bs, k)], k)
    ensures ItemRun(bs, k) < |bs| ==> !IsItem(bs[ItemRun(bs, k)], k)
  {
    SkipRuns(bs, 0, b => IsItem(b, k));
  }

  lemma {:induction false} ItemsNested(bs: seq<Block>, k: Kind, rest: seq<Piece>)
    requires AllOfKind(bs, k) && Nested(rest, Some(k))
    ensures Nested(Flat(bs) + rest, Some(k))
  {
    if bs == [] {
      assert Flat(bs) + rest == rest;
    } else {
      ItemsNested(bs[1..], k, rest);
      var item := ListItem(bs[0].kind, bs[0].text);
      NestedCons(item, Flat(bs[1..]) + rest, Some(k));
      ConsConcat(item, Flat(bs[1..]), rest);
    }
  }

  lemma NestedCons(p: Piece, ps: seq<Piece>, open: Option<Kind>)
    ensures Nested([p] + ps, open) ==
      match p
      case ListOpen(k) => open == None && Nested(ps, Some(k))
      case ListClose(k) => open == Some(k) && Nested(ps, None)
      case ListItem(k, _) => open == Some(k) && Nested(ps, open)
      case Whole(_) => open == None && Nested(ps, None)
  {
    assert ([p] + ps)[1..] == ps;
  }

  /** The list tags of every page are balanced, and every item is in one open list of its kind. */
  lemma {:induction false} PageNested(bs: seq<Block>)
    ensures Nested(Render(bs), None)
    decreases |bs|
  {
    if bs == [] {
    } else {
      if bs[0].Item? {
        var k := bs[0].kind;
        var n := ItemRun(bs, k);
        PageNested(bs[n..]);
        RunIsOfKind(bs, k);
        NestedCons(ListClose(k), Render(bs[n..]), Some(k));
        ItemsNested(bs[..n], k, [ListClose(k)] + Render(bs[n..]));
        NestedCons(ListOpen(k), Flat(bs[..n]) + ([ListClose(k)] + Render(bs[n..])), None);
      } else {
        PageNested(bs[1..]);
        NestedCons(Whole(bs[0]), Render(bs[1..]), None);
        assert [] + Render(bs[1..]) == Render(bs[1..]);
      }
    }
  }

  function UnlistedPiece(p: Piece): seq<Piece> {
    if p.ListOpen? || p.ListClose? then [] else [p]
  }

  /** The page without its list tags. */
  function Unlisted(ps: seq<Piece>): seq<Piece> {
    if ps == [] then [] else UnlistedPiece(ps[0]) + Unlisted(ps[1..])
  }

  /** Taking the list tags away leaves the blocks one by one, in the order of the document. */
  lemma {:induction false} RenderKeepsOrder(bs: seq<Block>)
    ensures Unlisted(Render(bs)) == Flat(bs)
    decreases |bs|
  {
    if bs == [] {
    } else if bs[0].Item? {
      var k := bs[0].kind;
      var n := ItemRun(bs, k);
      RenderKeepsOrder(bs[n..]);
      UnlistedRun(bs, k, n);
    } else {
      RenderKeepsOrder(bs[1..]);
      UnlistedPlain(bs[0], Render(bs[1..]));
    }
  }

  /** The run of items at the start becomes one list; without its tags it is the items. */
  lemma UnlistedRun(bs: seq<Block>, k: Kind, n: nat)
    requires n == ItemRun(bs, k) && Unlisted(Render(bs[n..])) == Flat(bs[n..])
    ensures Unlisted([ListOpen(k)] + (Flat(bs[..n]) + ([ListClose(k)] + Render(bs[n..])))) == Flat(bs)
  {
    RunIsOfKind(bs, k);
    UnlistedList(bs[..n], k, Render(bs[n..]));
    FlatSplit(bs, n);
  }

  lemma FlatSplit(bs: seq<Block>, n: nat)
    requires n <= |bs|
    ensures Flat(bs) == Flat(bs[..n]) + Flat(bs[n..])
  {
    FlatConcat(bs[..n], bs[n..]);
    Rejoin(bs, n);
  }

  lemma UnlistedList(items: seq<Block>, k: Kind, rest: seq<Piece>)
    requires AllOfKind(items, k)
    ensures Unlisted([ListOpen(k)] + (Flat(items) + ([ListClose(k)] + rest))) == Flat(items) + Unlisted(rest)
  {
    UnlistedCons(ListOpen(k), Flat(items) + ([ListClose(k)] + rest));
    UnlistedItems(items, k, [ListClose(k)] + rest);
    UnlistedCons(ListClose(k), rest);
  }

  lemma UnlistedCons(p: Piece, ps: seq<Piece>)
    ensures Unlisted([p] + ps) == UnlistedPiece(p) + Unlisted(ps)
  {
    assert ([p] + ps)[1..] == ps;
  }

  lemma UnlistedPlain(b: Block, ps: seq<Piece>)
    ensures Unlisted(Plain(b) + ps) == Plain(b) + Unlisted(ps)
  {
    if Plain(b) == [] {
      assert Plain(b) + ps == ps;
    } else {
      assert (Plain(b) + ps)[1..] == ps;
    }
  }

  lemma {:induction false} UnlistedItems(bs: seq<Block>, k: Kind, rest: seq<Piece>)
    requires AllOfKind(bs, k)
    ensures Unlisted(Flat(bs) + rest) == Flat(bs) + Unlisted(rest)
  {
    if bs == [] {
      assert Flat(bs) + rest == rest;
    } else {
      UnlistedItems(bs[1..], k, rest);
      var item := ListItem(bs[0].kind, bs[0].text);
      UnlistedCons(item, Flat(bs[1..]) + rest);
      ConsConcat(item, Flat(bs[1..]), rest);
      assert Flat(bs) + Unlisted(rest) == Alone(bs[0]) + (Flat(bs[1..]) + Unlisted(rest));
    }
  }

  lemma ConsConcat(p: Piece, ps: seq<Piece>, rest: seq<Piece>)
    ensures ([p] + ps) + rest == [p] + (ps + rest)
  {
  }

  lemma {:induction false} FlatConcat(a: seq<Block>, b: seq<Block>)
    ensures Flat(a + b) == Flat(a) + Flat(b)
  {
    if a == [] {
      assert a + b == b;
    } else {
      assert (a + b)[1..] == a[1..] + b;
      FlatConcat(a[1..], b);
    }
  }

  function Lists(ps: seq<Piece>): nat {
    if ps == [] then 0 else (if ps[0].ListOpen? then 1 else 0) + Lists(ps[1..])
  }

  /** The number of places where a run of items of one kind ends. */
  function Runs(bs: seq<Block>): nat {
    if bs == [] then 0
    else (if bs[0].Item? && !(|bs| > 1 && IsItem(bs[1], bs[0].kind)) then 1 else 0) + Runs(bs[1..])
  }

  /** No run of items is split: the page has one list for each maximal run. */
  lemma {:induction false} OneListPerRun(bs: seq<Block>)
    ensures Lists(Render(bs)) == Runs(bs)
    decreases |bs|
  {
    if bs == [] {
    } else {
      if bs[0].Item? {
        var k := bs[0].kind;
        var n := ItemRun(bs, k);
        RunIsOfKind(bs, k);
        ListsOfItems(bs[..n], k, [ListClose(k)] + Render(bs[n..]));
        ListsFirst(ListOpen(k), Flat(bs[..n]) + ([ListClose(k)] + Render(bs[n..])));
        ListsFirst(ListClose(k), Render(bs[n..]));
        OneListPerRun(bs[n..]);
        RunsOfRun(bs, k, n);
      } else {
        OneListPerRun(bs[1..]);
        if Plain(bs[0]) == [] {
          assert Plain(bs[0]) + Render(bs[1..]) == Render(bs[1..]);
        } else {
          ListsFirst(Whole(bs[0]), Render(bs[1..]));
        }
      }
    }
  }

  lemma ListsFirst(p: Piece, ps: seq<Piece>)
    ensures Lists([p] + ps) == (if p.ListOpen? then 1 else 0) + Lists(ps)
  {
    assert ([p] + ps)[1..] == ps;
  }

  lemma {:induction false} ListsOfItems(bs: seq<Block>, k: Kind, rest: seq<Piece>)
    requires AllOfKind(bs, k)
    ensures Lists(Flat(bs) + rest) == Lists(rest)
  {
    if bs == [] {
      assert Flat(bs) + rest == rest;
    } else {
      ListsOfItems(bs[1..], k, rest);
      ListsFirst(ListItem(bs[0].kind, bs[0].text), Flat(bs[1..]) + rest);
      assert Flat(bs) + rest == [ListItem(bs[0].kind, bs[0].text)] + (Flat(bs[1..]) + rest);
    }
  }

  lemma {:induction false} RunsOfRun(bs: seq<Block>, k: Kind, n: nat)
    requires 0 < n <= |bs| && AllOfKind(bs[..n], k)
    requires n < |bs| ==> !IsItem(bs[n], k)
    ensures Runs(bs) == 1 + Runs(bs[n..])
    decreases n
  {
    assert IsItem(bs[..n][0], k);
    if n > 1 {
      assert IsItem(bs[..n][1], k);
      assert bs[1..][..n - 1] == bs[..n][1..];
      assert bs[1..][n - 1..] == bs[n..];
      RunsOfRun(bs[1..], k, n - 1);
    }
  }

  // ---- every line belongs to one block ------------------------------------------------

  function TotalSize(bs: seq<Block>): nat {
    if bs == [] then 0 else Size(bs[0]) + TotalSize(bs[1..])
  }

  lemma {:induction false} EveryLineInOneBlock(re: Syntax, lines: seq<string>)
    ensures TotalSize(Parse(re, lines)) == |lines|
    decreases |lines|
  {
    if lines == [] {
    } else {
      EveryLineInOneBlock(re, lines[Size(First(re, lines))..]);
    }
  }

  predicate AllClosed(bs: seq<Block>) {
    forall i :: 0 <= i < |bs| ==> !bs[i].Unclosed?
  }

  /** The line belongs to no table or quote above it. */
  predicate Stops(re: Syntax, line: string) {
    !re.row(line) && !re.tableRule(line) && !re.quote(line)
  }

  /** `t` continues the lines `a` with a line that stops a table or a quote. */
  predicate StopsAfter(re: Syntax, t: seq<string>, a: seq<string>) {
    |a| < |t| && (forall i :: 0 <= i < |a| ==> t[i] == a[i]) && Stops(re, t[|a|])
  }

  /** A run of lines ends before a line that is not part of it. */
  lemma SkipBeforeStop(t: seq<string>, a: seq<string>, k: nat, p: string -> bool)
    requires |a| < |t| && (forall i :: 0 <= i < |a| ==> t[i] == a[i]) && k <= |a|
    ensures Skip(a, k, p) < |a| || !p(t[|a|]) ==> Skip(t, k, p) == Skip(a, k, p)
  {
    SkipRuns(a, k, p);
    if Skip(a, k, p) < |a| || !p(t[|a|]) {
      SkipIs(t, k, Skip(a, k, p), p);
    }
  }

  lemma FenceBeforeStop(re: Syntax, t: seq<string>, a: seq<string>)
    requires StopsAfter(re, t, a) && a != [] && !FenceBlock(re, a).Unclosed?
    ensures FenceBlock(re, t) == FenceBlock(re, a)
  {
    var j := Skip(a, 1, line => !re.fence(line));
    SkipBeforeStop(t, a, 1, line => !re.fence(line));
    assert t[1..j] == a[1..j];
  }

  lemma FirstBeforeStop(re: Syntax, t: seq<string>, a: seq<string>)
    requires StopsAfter(re, t, a) && a != [] && !First(re, a).Unclosed?
    ensures First(re, t) == First(re, a)
  {
    if re.fence(a[0]) {
      FenceBeforeStop(re, t, a);
    } else if StartsTable(re, a) {
      SkipBeforeStop(t, a, 2, re.row);
      assert t[2..Skip(a, 2, re.row)] == a[2..Skip(a, 2, re.row)];
    } else {
      SkipBeforeStop(t, a, 1, re.quote);
      assert t[..Skip(a, 1, re.quote)] == a[..Skip(a, 1, re.quote)];
    }
  }

  lemma ClosedRest(h: Block, rest: seq<Block>)
    ensures AllClosed([h] + rest) <==> !h.Unclosed? && AllClosed(rest)
  {
    assert ([h] + rest)[0] == h;
    assert forall k :: 0 <= k < |rest| ==> rest[k] == ([h] + rest)[k + 1];
  }

  /** A line that stops tables and quotes ends every block before it but an open fence:
      what stands before it is parsed as if it stood alone. */
  lemma {:induction false} StopSplits(re: Syntax, a: seq<string>, b: seq<string>)
    requires b != [] && Stops(re, b[0]) && AllClosed(Parse(re, a))
    ensures Parse(re, a + b) == Parse(re, a) + Parse(re, b)
    decreases |a|
  {
    if a == [] {
      assert a + b == b;
    } else {
      var h := First(re, a);
      var rest := a[Size(h)..];
      ClosedRest(h, Parse(re, rest));
      FirstBeforeStop(re, a + b, a);
      StopSplits(re, rest, b);
      DropOfConcat(a, b, Size(h));
      PrependBlock(h, Parse(re, rest), Parse(re, b));
    }
  }

  lemma DropOfConcat(a: seq<string>, b: seq<string>, n: nat)
    requires n <= |a|
    ensures (a + b)[n..] == a[n..] + b
  {
  }

  lemma PrependBlock(h: Block, a: seq<Block>, b: seq<Block>)
    ensures [h] + (a + b) == ([h] + a) + b
  {
  }

  // ---- which fences are closed --------------------------------------------------------

  function Fences(re: Syntax, lines: seq<string>): nat {
    if lines == [] then 0 else (if re.fence(lines[0]) then 1 else 0) + Fences(re, lines[1..])
  }

  /** No fence is taken for a line of a table or a quote. */
  ghost predicate FencesStop(re: Syntax) {
    forall line :: re.fence(line) ==> Stops(re, line)
  }

  lemma {:induction false} FencesConcat(re: Syntax, a: seq<string>, b: seq<string>)
    ensures Fences(re, a + b) == Fences(re, a) + Fences(re, b)
  {
    if a == [] {
      assert a + b == b;
    } else {
      assert (a + b)[1..] == a[1..] + b;
      FencesConcat(re, a[1..], b);
    }
  }

  lemma FencesSplit(re: Syntax, lines: seq<string>, n: nat)
    requires n <= |lines|
    ensures Fences(re, lines) == Fences(re, lines[..n]) + Fences(re, lines[n..])
  {
    FencesConcat(re, lines[..n], lines[n..]);
    Rejoin(lines, n);
  }

  lemma {:induction false} NoFences(re: Syntax, lines: seq<string>)
    requires forall i :: 0 <= i < |lines| ==> !re.fence(lines[i])
    ensures Fences(re, lines) == 0
  {
    if lines == [] {
    } else {
      NoFences(re, lines[1..]);
    }
  }

  /** A code block covers two fences, an open one its own, any other block none. */
  lemma FencesOfFirst(re: Syntax, lines: seq<string>)
    requires FencesStop(re) && lines != []
    ensures var b := First(re, lines);
      Fences(re, lines[..Size(b)]) == if b.Code? then 2 else if b.Unclosed? then 1 else 0
  {
    if re.fence(lines[0]) {
      FencesOfCode(re, lines);
    } else {
      var b := First(re, lines);
      if StartsTable(re, lines) {
        SkipRuns(lines, 2, re.row);
      } else {
        SkipRuns(lines, 1, re.quote);
      }
      NoFences(re, lines[..Size(b)]);
    }
  }

  lemma FencesOfCode(re: Syntax, lines: seq<string>)
    requires lines != [] && re.fence(lines[0])
    ensures var b := FenceBlock(re, lines); Fences(re, lines[..Size(b)]) == if b.Code? then 2 else 1
  {
    var j := Skip(lines, 1, line => !re.fence(line));
    SkipRuns(lines, 1, line => !re.fence(line));
    NoFences(re, lines[1..j]);
    FencesConcat(re, [lines[0]], lines[1..j]);
    assert [lines[0]] + lines[1..j] == lines[..j];
    if j < |lines| {
      FencesConcat(re, lines[..j], [lines[j]]);
      assert lines[..j] + [lines[j]] == lines[..j + 1];
    }
  }

  /** Every fence is closed exactly when their number is even. */
  lemma {:induction false} ClosedIffEven(re: Syntax, lines: seq<string>)
    requires FencesStop(re)
    ensures AllClosed(Parse(re, lines)) <==> Fences(re, lines) % 2 == 0
    decreases |lines|
  {
    if lines == [] {
    } else {
      var b := First(re, lines);
      var rest := lines[Size(b)..];
      FencesOfFirst(re, lines);
      FencesSplit(re, lines, Size(b));
      ClosedRest(b, Parse(re, rest));
      ClosedIffEven(re, rest);
      if b.Unclosed? { UnclosedTakesAll(re, lines); }
    }
  }

  lemma UnclosedTakesAll(re: Syntax, lines: seq<string>)
    requires lines != [] && First(re, lines).Unclosed?
    ensures lines[Size(First(re, lines))..] == [] && Parse(re, lines) == [First(re, lines)]
  {
  }

  lemma MarkdownFencesStop()
    ensures FencesStop(MARKDOWN)
  {
    forall line | MARKDOWN.fence(line) ensures Stops(MARKDOWN, line) {
      FenceIsNothingElse(line);
    }
  }

  // ---- blank lines ----------------------------------------------------------------------

  /** No test but the one for blank lines accepts an empty line. */
  predicate EmptyIsBlank(re: Syntax) {
    !re.fence("") && Stops(re, "") && LineBlock(re, "") == Blank
  }

  lemma MarkdownBlank()
    ensures EmptyIsBlank(MARKDOWN)
  {
  }

  lemma BlankFirst(re: Syntax, b: seq<string>)
    requires EmptyIsBlank(re)
    ensures Parse(re, [""] + b) == [Blank] + Parse(re, b)
  {
    var t := [""] + b;
    assert TextBlock(re, t) == Blank && t[1..] == b;
  }

  /** An open fence is the last block of its document. */
  lemma {:induction false} UnclosedIsLast(re: Syntax, lines: seq<string>, i: nat)
    requires i < |Parse(re, lines)| && Parse(re, lines)[i].Unclosed?
    ensures i == |Parse(re, lines)| - 1
    decreases |lines|
  {
    var b := First(re, lines);
    var rest := lines[Size(b)..];
    if b.Unclosed? {
      UnclosedTakesAll(re, lines);
    } else {
      assert Parse(re, lines)[i] == Parse(re, rest)[i - 1];
      UnclosedIsLast(re, rest, i - 1);
    }
  }

  /** An empty line splits the document into two that are parsed as if each stood alone,
      exactly when an even number of fences stands before it. */
  lemma BlankLineSplits(re: Syntax, a: seq<string>, b: seq<string>)
    requires EmptyIsBlank(re) && FencesStop(re)
    ensures Parse(re, a + ([""] + b)) == Parse(re, a) + ([Blank] + Parse(re, b)) <==> Fences(re, a) % 2 == 0
  {
    ClosedIffEven(re, a);
    BlankFirst(re, b);
    if AllClosed(Parse(re, a)) {
      StopSplits(re, a, [""] + b);
    } else {
      var i :| 0 <= i < |Parse(re, a)| && Parse(re, a)[i].Unclosed?;
      var split := Parse(re, a) + ([Blank] + Parse(re, b));
      assert split[i] == Parse(re, a)[i];
      if Parse(re, a + ([""] + b)) == split {
        UnclosedIsLast(re, a + ([""] + b), i);
      }
    }
  }

  // ---- what an open fence costs -----------------------------------------------------------

  function LastFence(re: Syntax, lines: seq<string>): (f: nat)
    requires Fences(re, lines) > 0
    ensures f < |lines| && re.fence(lines[f])
    ensures forall i :: f < i < |lines| ==> !re.fence(lines[i])
  {
    if Fences(re, lines[1..]) > 0 then 1 + LastFence(re, lines[1..])
    else
      FencesFound(re, lines[1..]);
      0
  }

  lemma {:induction false} FencesFound(re: Syntax, lines: seq<string>)
    requires Fences(re, lines) == 0
    ensures forall i :: 0 <= i < |lines| ==> !re.fence(lines[i])
  {
    if lines == [] {
    } else {
      FencesFound(re, lines[1..]);
    }
  }

  lemma OpenFenceSplits(re: Syntax, a: seq<string>, b: seq<string>)
    requires FencesStop(re) && Fences(re, a) % 2 == 0 && OnlyFenceFirst(re, b)
    ensures Parse(re, a + b) == Parse(re, a) + [Unclosed(b[1..])]
  {
    ClosedIffEven(re, a);
    StopSplits(re, a, b);
    LoneFence(re, b);
  }

  lemma EvenBeforeLast(re: Syntax, lines: seq<string>)
    requires Fences(re, lines) % 2 == 1
    ensures Fences(re, lines[..LastFence(re, lines)]) % 2 == 0
  {
    var f := LastFence(re, lines);
    FencesSplit(re, lines, f);
    LoneFence(re, lines[f..]);
  }

  /** With an odd number of fences everything from the last fence on is one open block. */
  lemma OpenFenceParse(re: Syntax, lines: seq<string>)
    requires FencesStop(re) && Fences(re, lines) % 2 == 1
    ensures var f := LastFence(re, lines);
      Parse(re, lines) == Parse(re, lines[..f]) + [Unclosed(lines[f + 1..])]
  {
    var f := LastFence(re, lines);
    var a, b := lines[..f], lines[f..];
    EvenBeforeLast(re, lines);
    OpenFenceSplits(re, a, b);
    Rejoin(lines, f);
    assert b[1..] == lines[f + 1..];
  }

  predicate OnlyFenceFirst(re: Syntax, lines: seq<string>) {
    lines != [] && re.fence(lines[0]) && forall i :: 0 < i < |lines| ==> !re.fence(lines[i])
  }

  lemma LoneFence(re: Syntax, lines: seq<string>)
    requires OnlyFenceFirst(re, lines)
    ensures Fences(re, lines) == 1 && Parse(re, lines) == [Unclosed(lines[1..])]
  {
    NoFences(re, lines[1..]);
    SkipIs(lines, 1, |lines|, line => !re.fence(line));
    UnclosedTakesAll(re, lines);
  }

  lemma {:induction false} RenderWithoutOpen(bs: seq<Block>, dropped: seq<string>)
    ensures Render(bs + [Unclosed(dropped)]) == Render(bs)
    decreases |bs|
  {
    var all := bs + [Unclosed(dropped)];
    if bs == [] {
      assert all[1..] == [] && Plain(all[0]) == [];
    } else if bs[0].Item? {
      var k := bs[0].kind;
      var n := ItemRun(bs, k);
      RunIsOfKind(bs, k);
      SkipIs(all, 0, n, b => IsItem(b, k));
      assert all[..n] == bs[..n] && all[n..] == bs[n..] + [Unclosed(dropped)];
      RenderWithoutOpen(bs[n..], dropped);
    } else {
      assert all[1..] == bs[1..] + [Unclosed(dropped)];
      RenderWithoutOpen(bs[1..], dropped);
    }
  }

  /** The lines lost are those from the last fence on: the page is the page of the lines
      before it. */
  lemma OpenFenceDropsTail(re: Syntax, lines: seq<string>)
    requires FencesStop(re) && Fences(re, lines) % 2 == 1
    ensures var f := LastFence(re, lines);
      && Render(Parse(re, lines)) == Render(Parse(re, lines[..f]))
      && TotalSize(Parse(re, lines[..f])) == f
  {
    var f := LastFence(re, lines);
    OpenFenceParse(re, lines);
    RenderWithoutOpen(Parse(re, lines[..f]), lines[f + 1..]);
    EveryLineInOneBlock(re, lines[..f]);
  }

  /** A document that shows it: one fence, and the page is empty. */
  lemma OpenFenceShowsNothing(text: string)
    requires !IsFence(text)
    ensures Fences(MARKDOWN, ["```", text]) == 1
    ensures Render(Parse(MARKDOWN, ["```", text])) == []
  {
    LoneFence(MARKDOWN, ["```", text]);
    RenderWithoutOpen([], [text]);
    assert ["```", text][1..] == [text] && [] + [Unclosed([text])] == [Unclosed([text])];
  }
}
