/** `ORDER BY created_at DESC`: arranging orders newest first. */
module Recency {
  import opened Orders

  /** No order is preceded by an older one. */
  predicate NewestFirst(s: seq<Order>) {
    forall i, j :: 0 <= i < j < |s| ==> s[i].createdAt >= s[j].createdAt
  }

  /** Places `o` into a newest-first sequence, after every strictly newer order. */
  function InsertByRecency(o: Order, s: seq<Order>): (r: seq<Order>)
    requires NewestFirst(s)
    ensures NewestFirst(r)
    ensures multiset(r) == multiset(s) + multiset{o}
    ensures |r| == |s| + 1
    ensures r[0] == o || (|s| > 0 && r[0] == s[0])
  {
    if s == [] || o.createdAt >= s[0].createdAt then
      [o] + s
    else
      SliceNewestFirst(s, 1, |s|);
      var rest := InsertByRecency(o, s[1..]);
      assert s == [s[0]] + s[1..];
      assert multiset(s) == multiset{s[0]} + multiset(s[1..]);
      assert multiset([s[0]] + rest) == multiset{s[0]} + multiset(rest);
      assert s[0].createdAt >= rest[0].createdAt;
      ConsNewestFirst(s[0], rest);
      [s[0]] + rest
  }

  /** An order no older than the head of a newest-first sequence can lead it. */
  lemma ConsNewestFirst(x: Order, s: seq<Order>)
    requires NewestFirst(s)
    requires |s| > 0 ==> x.createdAt >= s[0].createdAt
    ensures NewestFirst([x] + s)
  {
    var r := [x] + s;
    forall i, j | 0 <= i < j < |r| ensures r[i].createdAt >= r[j].createdAt {
      if i == 0 {
        assert r[j] == s[j - 1];
      } else {
        assert r[i] == s[i - 1] && r[j] == s[j - 1];
      }
    }
  }

  /** The orders newest first: the same orders, rearranged. */
  function SortNewestFirst(s: seq<Order>): (r: seq<Order>)
    ensures NewestFirst(r)
    ensures multiset(r) == multiset(s)
    ensures |r| == |s|
  {
    if s == [] then
      []
    else
      assert s == [s[0]] + s[1..];
      InsertByRecency(s[0], SortNewestFirst(s[1..]))
  }

  /** Sorting neither adds nor drops an order. */
  lemma SortKeepsMembers(s: seq<Order>)
    ensures forall x :: x in SortNewestFirst(s) <==> x in s
  {
    var r := SortNewestFirst(s);
    forall x ensures x in r <==> x in s {
      assert x in r <==> x in multiset(r);
      assert x in s <==> x in multiset(s);
    }
  }

  /** A contiguous stretch of a newest-first sequence is newest first. */
  lemma SliceNewestFirst(s: seq<Order>, lo: int, hi: int)
    requires NewestFirst(s)
    requires 0 <= lo <= hi <= |s|
    ensures NewestFirst(s[lo..hi])
  {
    forall i, j | 0 <= i < j < hi - lo
      ensures s[lo..hi][i].createdAt >= s[lo..hi][j].createdAt
    {
      assert s[lo..hi][i] == s[lo + i] && s[lo..hi][j] == s[lo + j];
    }
  }
}
