/** Ordering comments by creation timestamp.

    The extension sorts with PHP's usort and comparators that never answer
    "equal" (they return -1 or 1 only), so the relative order of two comments
    with the same timestamp is not defined. The model therefore promises only
    what every run of usort delivers: the output is ordered by timestamp and
    is a permutation of the input. `SortByTimestamp` is one sort that meets
    this promise. */
module Ordering {
  import opened Host

  /** `a` may stand before `b`: non-increasing timestamps when the newest
      comes first, non-decreasing otherwise. */
  predicate InOrder(a: Comment, b: Comment, newestFirst: bool) {
    if newestFirst then a.timestamp >= b.timestamp else a.timestamp <= b.timestamp
  }

  predicate SortedByTimestamp(s: seq<Comment>, newestFirst: bool) {
    forall i, j :: 0 <= i < j < |s| ==> InOrder(s[i], s[j], newestFirst)
  }

  /** Inserts `c` into an already ordered sequence. */
  function InsertByTimestamp(c: Comment, s: seq<Comment>, newestFirst: bool): (r: seq<Comment>)
    requires SortedByTimestamp(s, newestFirst)
    ensures SortedByTimestamp(r, newestFirst)
    ensures multiset(r) == multiset(s) + multiset{c}
  {
    if s == [] then [c]
    else if InOrder(c, s[0], newestFirst) then [c] + s
    else
      var rest := InsertByTimestamp(c, s[1..], newestFirst);
      PrependKeepsOrder(s, c, rest, newestFirst);
      [s[0]] + rest
  }

  /** The step of `InsertByTimestamp` that keeps the head in front: `s[0]`
      may precede `c`, and it precedes every other element of `s`. */
  lemma PrependKeepsOrder(s: seq<Comment>, c: Comment, rest: seq<Comment>, newestFirst: bool)
    requires s != [] && SortedByTimestamp(s, newestFirst) && !InOrder(c, s[0], newestFirst)
    requires SortedByTimestamp(rest, newestFirst)
    requires multiset(rest) == multiset(s[1..]) + multiset{c}
    ensures SortedByTimestamp([s[0]] + rest, newestFirst)
    ensures multiset([s[0]] + rest) == multiset(s) + multiset{c}
  {
    assert s == [s[0]] + s[1..];
    var r := [s[0]] + rest;
    forall j | 0 < j < |r| ensures InOrder(s[0], r[j], newestFirst) {
      var x := r[j];
      assert x == rest[j - 1];
      assert x in multiset(rest);
      if x != c {
        assert x in multiset(s[1..]);
        var k :| 0 <= k < |s[1..]| && s[1..][k] == x;
        assert s[k + 1] == x;
      }
    }
  }

  /** An insertion sort: the result is ordered by timestamp in the requested
      direction and holds exactly the input comments. */
  function SortByTimestamp(s: seq<Comment>, newestFirst: bool): (r: seq<Comment>)
    ensures SortedByTimestamp(r, newestFirst)
    ensures multiset(r) == multiset(s)
  {
    if s == [] then []
    else
      assert s == [s[0]] + s[1..];
      InsertByTimestamp(s[0], SortByTimestamp(s[1..], newestFirst), newestFirst)
  }
}
