/** The line patterns of the Markdown converter (the regular expressions in scripts/build-pdf.cjs). */
module LinePatterns {
  import opened Phone
  import opened Wrappers

  // ---- scanning forward over the elements that satisfy a predicate --------------------

  function Skip<T>(s: seq<T>, i: nat, p: T -> bool): (j: nat)
    requires i <= |s|
    ensures i <= j <= |s|
    decreases |s| - i
  {
    if i < |s| && p(s[i]) then Skip(s, i + 1, p) else i
  }

  /** The elements from `i` to `j` are the longest run at `i` that satisfies `p`. */
  ghost predicate RunAt<T>(s: seq<T>, i: nat, j: nat, p: T -> bool) {
    && i <= j <= |s|
    && (forall k :: i <= k < j ==> p(s[k]))
    && (j < |s| ==> !p(s[j]))
  }

  lemma {:induction false} SkipRuns<T>(s: seq<T>, i: nat, p: T -> bool)
    requires i <= |s|
    ensures RunAt(s, i, Skip(s, i, p), p)
    decreases |s| - i
  {
    if i < |s| && p(s[i]) {
      SkipRuns(s, i + 1, p);
    }
  }

  lemma SkipIs<T>(s: seq<T>, i: nat, j: nat, p: T -> bool)
    requires RunAt(s, i, j, p)
    ensures Skip(s, i, p) == j
  {
    SkipRuns(s, i, p);
  }

  // ---- characters and line patterns ----------------------------------------------------

  /** A character `.` does not match. */
  predicate IsBreak(c: char) {
    c == '\n' || c == '\r' || c == '\U{2028}' || c == '\U{2029}'
  }

  /** The end of the text before its trailing white space, looking back from `n`. */
  function DropSpaces(s: string, n: nat): (m: nat)
    requires n <= |s|
    ensures m <= n
  {
    if n > 0 && IsSpace(s[n - 1]) then DropSpaces(s, n - 1) else n
  }

  function Trim(s: string): string {
    var a, b := Skip(s, 0, IsSpace), DropSpaces(s, |s|);
    if a <= b then s[a..b] else ""
  }

  predicate AllSpace(s: string, i: nat) {
    i <= |s| && Skip(s, i, IsSpace) == |s|
  }

  // /^```/
  predicate IsFence(line: string) {
    |line| >= 3 && line[0] == line[1] == line[2] == '`'
  }

  // /^\s*\|.*\|\s*$/
  predicate IsRow(line: string) {
    var a, b := Skip(line, 0, IsSpace), DropSpaces(line, |line|);
    && a + 1 < b && line[a] == line[b - 1] == '|'
    && NoBreak(line, a + 1, b - 1)
  }

  predicate NoBreak(s: string, i: nat, j: nat) {
    j <= |s| && forall k :: i <= k < j ==> !IsBreak(s[k])
  }

  predicate IsRuleChar(c: char) {
    IsSpace(c) || c == ':' || c == '|' || c == '-'
  }

  // /^\s*\|[\s:|-]+\|\s*$/
  predicate IsTableRule(line: string) {
    var a, b := Skip(line, 0, IsSpace), DropSpaces(line, |line|);
    && a + 2 < b && line[a] == line[b - 1] == '|'
    && forall k :: a < k < b - 1 ==> IsRuleChar(line[k])
  }

  predicate IsHash(c: char) {
    c == '#'
  }

  predicate IsDash(c: char) {
    c == '-'
  }

  // \s+(.*)$ at position `k`
  function TextAfter(line: string, k: nat): Option<string>
    requires k <= |line|
  {
    var j := Skip(line, k, IsSpace);
    if j > k && NoBreak(line, j, |line|) then Some(line[j..]) else None
  }

  // /^(#{1,6})\s+(.*)$/ : the level and the text
  function HeadingOf(line: string): Option<(nat, string)> {
    var k := Skip(line, 0, IsHash);
    var text := TextAfter(line, k);
    if 1 <= k <= 6 && text.Some? then Some((k, text.value)) else None
  }

  // /^---+\s*$/
  predicate IsRule(line: string) {
    var k := Skip(line, 0, IsDash);
    k >= 3 && AllSpace(line, k)
  }

  // /^>\s?/
  predicate IsQuote(line: string) {
    line != "" && line[0] == '>'
  }

  function Unquote(line: string): string {
    if !IsQuote(line) then line
    else if |line| > 1 && IsSpace(line[1]) then line[2..]
    else line[1..]
  }

  // /^(\s*)[-*]\s+(.*)$/
  function UlText(line: string): Option<string> {
    var a := Skip(line, 0, IsSpace);
    if a < |line| && (line[a] == '-' || line[a] == '*') then TextAfter(line, a + 1) else None
  }

  // /^(\s*)\d+\.\s+(.*)$/
  function OlText(line: string): Option<string> {
    var a := Skip(line, 0, IsSpace);
    var d := Skip(line, a, IsDigit);
    if a < d < |line| && line[d] == '.' then TextAfter(line, d + 1) else None
  }

  // /^\s*$/
  predicate IsBlank(line: string) {
    AllSpace(line, 0)
  }

  /** A fence is no table row, no table rule and no quote. */
  lemma FenceIsNothingElse(line: string)
    requires IsFence(line)
    ensures !IsRow(line) && !IsTableRule(line) && !IsQuote(line)
  {
    SkipIs(line, 0, 0, IsSpace);
  }

  // ---- the table row pattern as the regular expression states it ---------------------

  predicate Spaces(s: string, i: nat, j: nat) {
    j <= |s| && forall k :: i <= k < j ==> IsSpace(s[k])
  }

  /** The two outer bars of the pattern stand at `a` and `b`. */
  predicate Bars(line: string, a: nat, b: nat) {
    && a < b < |line| && line[a] == line[b] == '|'
    && Spaces(line, 0, a) && Spaces(line, b + 1, |line|)
  }

  lemma {:induction false} DropSpacesDrops(s: string, n: nat)
    requires n <= |s|
    ensures Spaces(s, DropSpaces(s, n), n)
    ensures DropSpaces(s, n) > 0 ==> !IsSpace(s[DropSpaces(s, n) - 1])
  {
    if n > 0 && IsSpace(s[n - 1]) {
      DropSpacesDrops(s, n - 1);
    }
  }

  lemma BarsFound(line: string, a: nat, b: nat)
    requires Bars(line, a, b)
    ensures Skip(line, 0, IsSpace) == a && DropSpaces(line, |line|) == b + 1
  {
    SkipIs(line, 0, a, IsSpace);
    DropSpacesDrops(line, |line|);
  }

  /** Skipping white space at both ends finds exactly the bars the pattern can match. */
  lemma RowIsPattern(line: string)
    ensures IsRow(line) <==> exists a: nat, b: nat :: Bars(line, a, b) && NoBreak(line, a + 1, b)
  {
    if IsRow(line) {
      var a, b := Skip(line, 0, IsSpace), DropSpaces(line, |line|);
      SkipRuns(line, 0, IsSpace);
      DropSpacesDrops(line, |line|);
      assert Bars(line, a, b - 1);
    }
    forall a: nat, b: nat | Bars(line, a, b) ensures NoBreak(line, a + 1, b) ==> IsRow(line) {
      BarsFound(line, a, b);
    }
  }

  // ---- the other patterns as the regular expressions state them ----------------------

  /** One or more spaces from `k` to `j`, and then no line break to the end. */
  predicate SpacedText(line: string, k: nat, j: nat) {
    k < j <= |line| && Spaces(line, k, j) && NoBreak(line, j, |line|)
  }

  /** The text is the end of the line and starts with no space: the spaces before it are all
      taken by the pattern. */
  predicate TextFrom(line: string, j: nat, text: string) {
    j <= |line| && text == line[j..] && (text == "" || !IsSpace(text[0]))
  }

  lemma TextAfterIs(line: string, k: nat)
    requires k <= |line|
    ensures TextAfter(line, k).Some? <==> exists j :: SpacedText(line, k, j)
    ensures TextAfter(line, k).Some? ==> exists j :: SpacedText(line, k, j) && TextFrom(line, j, TextAfter(line, k).value)
  {
    var j0 := Skip(line, k, IsSpace);
    SkipRuns(line, k, IsSpace);
    if TextAfter(line, k).Some? {
      assert SpacedText(line, k, j0) && TextFrom(line, j0, line[j0..]);
    }
    if j :| SpacedText(line, k, j) {
      assert j <= j0;
    }
  }

  predicate Hashes(line: string, k: nat) {
    k <= |line| && forall i :: 0 <= i < k ==> line[i] == '#'
  }

  /** One to six hashes, spaces, text: the level is the number of hashes. */
  lemma HeadingIsPattern(line: string)
    ensures HeadingOf(line).Some? <==> exists k: nat, j :: 1 <= k <= 6 && Hashes(line, k) && SpacedText(line, k, j)
    ensures HeadingOf(line).Some? ==>
      var (level, text) := HeadingOf(line).value;
      1 <= level <= 6 && Hashes(line, level) && exists j :: SpacedText(line, level, j) && TextFrom(line, j, text)
  {
    var k0 := Skip(line, 0, IsHash);
    SkipRuns(line, 0, IsHash);
    TextAfterIs(line, k0);
    if k: nat, j :| 1 <= k <= 6 && Hashes(line, k) && SpacedText(line, k, j) {
      assert IsSpace(line[k]);
      SkipIs(line, 0, k, IsHash);
    }
  }

  /** The line starts with spaces and then a dash or an asterisk, which ends at `k`. */
  predicate Bullet(line: string, k: nat) {
    0 < k <= |line| && Spaces(line, 0, k - 1) && (line[k - 1] == '-' || line[k - 1] == '*')
  }

  lemma BulletFound(line: string, k: nat)
    requires Bullet(line, k)
    ensures Skip(line, 0, IsSpace) == k - 1
  {
    SkipIs(line, 0, k - 1, IsSpace);
  }

  /** A bullet, spaces, text. */
  lemma UlIsPattern(line: string)
    ensures UlText(line).Some? <==> exists k: nat, j :: Bullet(line, k) && SpacedText(line, k, j)
    ensures UlText(line).Some? ==>
      exists k: nat, j :: Bullet(line, k) && SpacedText(line, k, j) && TextFrom(line, j, UlText(line).value)
  {
    var a := Skip(line, 0, IsSpace);
    SkipRuns(line, 0, IsSpace);
    if a < |line| { TextAfterIs(line, a + 1); }
    if UlText(line).Some? {
      assert Bullet(line, a + 1);
    }
    if k: nat, j :| Bullet(line, k) && SpacedText(line, k, j) {
      BulletFound(line, k);
    }
  }

  predicate Digits(line: string, a: nat, d: nat) {
    a < d <= |line| && forall i :: a <= i < d ==> IsDigit(line[i])
  }

  /** The line starts with spaces, digits and a dot, which ends at `k`. */
  predicate Numbered(line: string, k: nat) {
    0 < k <= |line| && line[k - 1] == '.' && exists a :: 0 <= a < k - 1 && Spaces(line, 0, a) && Digits(line, a, k - 1)
  }

  lemma NumberFound(line: string, k: nat)
    requires Numbered(line, k)
    ensures Skip(line, Skip(line, 0, IsSpace), IsDigit) == k - 1 > Skip(line, 0, IsSpace)
  {
    var a :| 0 <= a < k - 1 && Spaces(line, 0, a) && Digits(line, a, k - 1);
    assert IsDigit(line[a]);
    SkipIs(line, 0, a, IsSpace);
    SkipIs(line, a, k - 1, IsDigit);
  }

  /** A number, spaces, text. */
  lemma OlIsPattern(line: string)
    ensures OlText(line).Some? <==> exists k: nat, j :: Numbered(line, k) && SpacedText(line, k, j)
    ensures OlText(line).Some? ==>
      exists k: nat, j :: Numbered(line, k) && SpacedText(line, k, j) && TextFrom(line, j, OlText(line).value)
  {
    var a := Skip(line, 0, IsSpace);
    SkipRuns(line, 0, IsSpace);
    var d := Skip(line, a, IsDigit);
    SkipRuns(line, a, IsDigit);
    if d < |line| { TextAfterIs(line, d + 1); }
    if OlText(line).Some? {
      assert Spaces(line, 0, a) && Digits(line, a, d);
      assert Numbered(line, d + 1);
    }
    if k: nat, j :| Numbered(line, k) && SpacedText(line, k, j) {
      NumberFound(line, k);
    }
  }

  predicate Dashes(line: string, k: nat) {
    k <= |line| && forall i :: 0 <= i < k ==> line[i] == '-'
  }

  /** Three dashes or more, and spaces. */
  lemma RuleIsPattern(line: string)
    ensures IsRule(line) <==> exists k: nat :: k >= 3 && Dashes(line, k) && Spaces(line, k, |line|)
  {
    var k0 := Skip(line, 0, IsDash);
    SkipRuns(line, 0, IsDash);
    SkipRuns(line, k0, IsSpace);
    if IsRule(line) {
      assert Dashes(line, k0) && Spaces(line, k0, |line|);
    }
    if k: nat :| k >= 3 && Dashes(line, k) && Spaces(line, k, |line|) {
      assert k < |line| ==> IsSpace(line[k]);
      SkipIs(line, 0, k, IsDash);
      SkipIs(line, k, |line|, IsSpace);
    }
  }

  lemma BlankIsPattern(line: string)
    ensures IsBlank(line) <==> Spaces(line, 0, |line|)
  {
    SkipRuns(line, 0, IsSpace);
  }

  /** Two bars with spaces, colons, bars and dashes between them, one at least. */
  lemma TableRuleIsPattern(line: string)
    ensures IsTableRule(line) <==>
      exists a: nat, b: nat :: Bars(line, a, b) && a + 1 < b && forall k :: a < k < b ==> IsRuleChar(line[k])
  {
    if IsTableRule(line) {
      var a, b := Skip(line, 0, IsSpace), DropSpaces(line, |line|);
      SkipRuns(line, 0, IsSpace);
      DropSpacesDrops(line, |line|);
      assert Bars(line, a, b - 1);
    }
    forall a: nat, b: nat | Bars(line, a, b)
      ensures a + 1 < b && (forall k :: a < k < b ==> IsRuleChar(line[k])) ==> IsTableRule(line)
    {
      BarsFound(line, a, b);
    }
  }

  /** A quoted line without its mark, and without one space behind it if there is one. */
  lemma UnquoteIsPattern(line: string)
    requires IsQuote(line)
    ensures if |line| > 1 && IsSpace(line[1]) then line == ">" + [line[1]] + Unquote(line) else line == ">" + Unquote(line)
  {
  }

  /** Trimming takes the white space at both ends and nothing else. */
  lemma TrimIs(left: string, text: string, right: string)
    requires Spaces(left, 0, |left|) && Spaces(right, 0, |right|)
    requires text != "" ==> !IsSpace(text[0]) && !IsSpace(text[|text| - 1])
    ensures Trim(left + text + right) == text
  {
    var s := left + text + right;
    assert forall i :: 0 <= i < |left| ==> s[i] == left[i];
    assert forall i :: 0 <= i < |right| ==> s[|left| + |text| + i] == right[i];
    if text == "" {
      assert forall i :: 0 <= i < |s| ==> IsSpace(s[i]);
      SkipIs(s, 0, |s|, IsSpace);
      DropSpacesDrops(s, |s|);
    } else {
      assert s[|left|] == text[0] && s[|left| + |text| - 1] == text[|text| - 1];
      SkipIs(s, 0, |left|, IsSpace);
      DropSpacesDrops(s, |s|);
      assert DropSpaces(s, |s|) == |left| + |text|;
      assert s[|left|..|left| + |text|] == text;
    }
  }
}
