/** Cursor paging over rows in creation order: the query of listMessages
    (`createdAt < cursor`, newest first, at most `limit` rows). */
module Paging {
  import opened Wrappers

  /** where: { createdAt: { lt } } */
  function Before<T>(at: T -> int, rows: seq<T>, cutoff: Option<int>): seq<T> {
    if rows == [] then []
    else
      var last := rows[|rows| - 1];
      Before(at, rows[..|rows| - 1], cutoff) + if cutoff.None? || at(last) < cutoff.value then [last] else []
  }

  function Reverse<T>(s: seq<T>): (r: seq<T>)
    ensures |r| == |s|
    ensures forall i :: 0 <= i < |s| ==> r[i] == s[|s| - 1 - i]
  {
    if s == [] then [] else [s[|s| - 1]] + Reverse(s[..|s| - 1])
  }

  function LastN<T>(s: seq<T>, n: nat): seq<T> {
    if |s| <= n then s else s[|s| - n..]
  }

  function Page<T>(at: T -> int, rows: seq<T>, cutoff: Option<int>, limit: nat): seq<T> {
    Reverse(LastN(Before(at, rows, cutoff), limit))
  }

  predicate Ascending<T>(at: T -> int, rows: seq<T>) {
    forall i, j :: 0 <= i < j < |rows| ==> at(rows[i]) < at(rows[j])
  }

  lemma {:induction false} BeforeNothing<T>(at: T -> int, rows: seq<T>)
    ensures Before(at, rows, None) == rows
  {
    if rows == [] {
    } else {
      BeforeNothing(at, rows[..|rows| - 1]);
    }
  }

  lemma {:induction false} BeforeAll<T>(at: T -> int, rows: seq<T>, cutoff: int)
    requires forall i :: 0 <= i < |rows| ==> at(rows[i]) < cutoff
    ensures Before(at, rows, Some(cutoff)) == rows
  {
    if rows == [] {
    } else {
      BeforeAll(at, rows[..|rows| - 1], cutoff);
    }
  }

  /** With strictly ascending times, the rows before the k-th row are the first k. */
  lemma {:induction false} BeforeRow<T>(at: T -> int, rows: seq<T>, k: nat)
    requires Ascending(at, rows) && k < |rows|
    ensures Before(at, rows, Some(at(rows[k]))) == rows[..k]
  {
    var n := |rows| - 1;
    if k == n {
      BeforeAll(at, rows[..n], at(rows[k]));
    } else {
      BeforeRow(at, rows[..n], k);
      assert rows[..n][..k] == rows[..k];
    }
  }

  lemma ReverseTwice<T>(s: seq<T>)
    ensures Reverse(Reverse(s)) == s
  {
  }

  function Map<T, U>(f: T -> U, s: seq<T>): (r: seq<U>)
    ensures |r| == |s| && forall i :: 0 <= i < |s| ==> r[i] == f(s[i])
  {
    if s == [] then [] else Map(f, s[..|s| - 1]) + [f(s[|s| - 1])]
  }

  lemma {:induction false} BeforeOfMap<T, U>(f: T -> U, at: T -> int, atU: U -> int, rows: seq<T>, cutoff: Option<int>)
    requires forall t :: atU(f(t)) == at(t)
    ensures Map(f, Before(at, rows, cutoff)) == Before(atU, Map(f, rows), cutoff)
  {
    if rows == [] {
    } else {
      var n := |rows| - 1;
      BeforeOfMap(f, at, atU, rows[..n], cutoff);
      assert Map(f, rows)[..n] == Map(f, rows[..n]);
    }
  }

  lemma ReverseOfMap<T, U>(f: T -> U, s: seq<T>)
    ensures Map(f, Reverse(s)) == Reverse(Map(f, s))
  {
  }

  lemma LastNOfMap<T, U>(f: T -> U, s: seq<T>, n: nat)
    ensures Map(f, LastN(s, n)) == LastN(Map(f, s), n)
  {
  }

  /** Paging commutes with a view of the rows that keeps their times. */
  lemma {:induction false} PageOfMap<T, U>(f: T -> U, at: T -> int, atU: U -> int, rows: seq<T>, cutoff: Option<int>, limit: nat)
    requires forall t :: atU(f(t)) == at(t)
    ensures Map(f, Page(at, rows, cutoff, limit)) == Page(atU, Map(f, rows), cutoff, limit)
  {
    var visible := Before(at, rows, cutoff);
    BeforeOfMap(f, at, atU, rows, cutoff);
    LastNOfMap(f, visible, limit);
    ReverseOfMap(f, LastN(visible, limit));
  }
}
