/** What the assembled discussion tree promises about the comments of a
    page: one entry per discussion in discussion order, replies ordered
    oldest first, every reply under its own discussion and nowhere else,
    and replies without a discussion on the page left out. */
module TreeProperties {
  import opened Wrappers
  import opened Host
  import opened Ordering
  import opened Streams

  /** Comment ids are page ids and so distinct within one page's comments. */
  predicate UniqueIds(all: seq<Comment>) {
    forall i, j :: 0 <= i < j < |all| ==> all[i].id != all[j].id
  }

  /** The tree has one entry per discussion, in the order of the
      discussions; each entry lists exactly the replies to its discussion. */
  lemma {:induction false} TreeFollowsDiscussions(all: seq<Comment>, newestOnTop: bool)
    ensures |CommentTree(all, newestOnTop)| == |GetDiscussions(all, newestOnTop)|
    ensures forall k :: 0 <= k < |CommentTree(all, newestOnTop)| ==>
      CommentTree(all, newestOnTop)[k].discussion == GetDiscussions(all, newestOnTop)[k] &&
      Children(CommentTree(all, newestOnTop)[k]) == GetReplies(all, GetDiscussions(all, newestOnTop)[k].id)
  {
    var ds := GetDiscussions(all, newestOnTop);
    EntriesLength(all, ds);
    forall k | 0 <= k < |ds|
      ensures CommentTree(all, newestOnTop)[k].discussion == ds[k]
      ensures Children(CommentTree(all, newestOnTop)[k]) == GetReplies(all, ds[k].id)
    {
      EntriesAt(all, ds, k);
    }
  }

  /** Discussions come newest first when `newestOnTop` is set and oldest
      first otherwise; the replies of every discussion come oldest first
      whatever the setting. */
  lemma TreeOrdering(all: seq<Comment>, newestOnTop: bool)
    ensures forall k, j :: 0 <= k < j < |CommentTree(all, newestOnTop)| ==>
      InOrder(CommentTree(all, newestOnTop)[k].discussion, CommentTree(all, newestOnTop)[j].discussion, newestOnTop)
    ensures forall k :: 0 <= k < |CommentTree(all, newestOnTop)| ==>
      SortedByTimestamp(Children(CommentTree(all, newestOnTop)[k]), false)
  {
    TreeFollowsDiscussions(all, newestOnTop);
  }

  /** Every discussion of the page has an entry in the tree. */
  lemma DiscussionHasEntry(all: seq<Comment>, newestOnTop: bool, d: Comment)
    requires d in all && IsDiscussion(d)
    ensures exists k :: 0 <= k < |CommentTree(all, newestOnTop)| && CommentTree(all, newestOnTop)[k].discussion == d
  {
    var ds := GetDiscussions(all, newestOnTop);
    assert d in ds by {
      assert multiset(ds)[d] == multiset(all)[d] > 0;
    }
    var k :| 0 <= k < |ds| && ds[k] == d;
    TreeFollowsDiscussions(all, newestOnTop);
  }

  /** Every entry of the tree belongs to a discussion of the page. */
  lemma EntryIsDiscussion(all: seq<Comment>, newestOnTop: bool, k: int)
    requires 0 <= k < |CommentTree(all, newestOnTop)|
    ensures CommentTree(all, newestOnTop)[k].discussion in all
    ensures IsDiscussion(CommentTree(all, newestOnTop)[k].discussion)
  {
    var ds := GetDiscussions(all, newestOnTop);
    TreeFollowsDiscussions(all, newestOnTop);
    var d := ds[k];
    assert multiset(ds)[d] > 0;
  }

  /** The roots of the tree are exactly the discussions of the page. */
  lemma RootsAreDiscussions(all: seq<Comment>, newestOnTop: bool, d: Comment)
    ensures (exists k :: 0 <= k < |CommentTree(all, newestOnTop)| && CommentTree(all, newestOnTop)[k].discussion == d)
      <==> d in all && IsDiscussion(d)
  {
    if d in all && IsDiscussion(d) {
      DiscussionHasEntry(all, newestOnTop, d);
    }
    if exists k :: 0 <= k < |CommentTree(all, newestOnTop)| && CommentTree(all, newestOnTop)[k].discussion == d {
      var k :| 0 <= k < |CommentTree(all, newestOnTop)| && CommentTree(all, newestOnTop)[k].discussion == d;
      EntryIsDiscussion(all, newestOnTop, k);
    }
  }

  /** A reply listed under an entry is a comment of the page whose parent is
      that entry's discussion: no reply lands under the wrong root. */
  lemma ReplyUnderItsOwnDiscussion(all: seq<Comment>, newestOnTop: bool, k: int, c: Comment)
    requires 0 <= k < |CommentTree(all, newestOnTop)|
    requires c in Children(CommentTree(all, newestOnTop)[k])
    ensures c in all
    ensures c.parentId == Some(CommentTree(all, newestOnTop)[k].discussion.id)
  {
    TreeFollowsDiscussions(all, newestOnTop);
    var d := CommentTree(all, newestOnTop)[k].discussion;
    var replies := GetReplies(all, d.id);
    assert multiset(replies)[c] > 0;
  }

  /** Two equal elements at different positions count twice. */
  lemma CountsTwice(s: seq<Comment>, i: int, j: int)
    requires 0 <= i < j < |s| && s[i] == s[j]
    ensures multiset(s)[s[i]] >= 2
  {
    assert s == s[..j] + s[j..];
    assert s[i] in s[..j];
    assert s[j] == s[j..][0];
    assert multiset(s) == multiset(s[..j]) + multiset(s[j..]);
  }

  /** An element counted twice occurs at two different positions. */
  lemma {:induction false} TwoPositions(s: seq<Comment>, x: Comment)
    requires multiset(s)[x] >= 2
    ensures exists i, j :: 0 <= i < j < |s| && s[i] == x && s[j] == x
  {
    assert s == [s[0]] + s[1..];
    if s[0] == x {
      assert multiset(s[1..])[x] >= 1;
      assert x in s[1..];
      var j :| 0 <= j < |s[1..]| && s[1..][j] == x;
      assert s[j + 1] == x;
    } else {
      TwoPositions(s[1..], x);
      var i, j :| 0 <= i < j < |s[1..]| && s[1..][i] == x && s[1..][j] == x;
      assert s[i + 1] == x && s[j + 1] == x;
    }
  }

  /** With distinct ids every comment of the page occurs exactly once. */
  lemma OccursOnce(all: seq<Comment>, c: Comment)
    requires UniqueIds(all) && c in all
    ensures multiset(all)[c] == 1
  {
    if multiset(all)[c] >= 2 {
      TwoPositions(all, c);
    }
  }

  /** A sub-multiset of comments with distinct ids has distinct ids too. */
  lemma SubmultisetIdsDistinct(all: seq<Comment>, ds: seq<Comment>, i: int, j: int)
    requires UniqueIds(all) && multiset(ds) <= multiset(all)
    requires 0 <= i < j < |ds|
    ensures ds[i].id != ds[j].id
  {
    var d1, d2 := ds[i], ds[j];
    if d1 == d2 {
      CountsTwice(ds, i, j);
      assert multiset(all)[d1] >= 2;
      TwoPositions(all, d1);
    } else {
      assert d1 in multiset(ds) && d2 in multiset(ds);
      assert d1 in all && d2 in all;
      var i1 :| 0 <= i1 < |all| && all[i1] == d1;
      var i2 :| 0 <= i2 < |all| && all[i2] == d2;
      assert i1 != i2;
    }
  }

  /** The discussions are a sub-multiset of the page's comments. */
  lemma DiscussionsWithinPage(all: seq<Comment>, newestOnTop: bool)
    ensures multiset(GetDiscussions(all, newestOnTop)) <= multiset(all)
  {
    var ds := GetDiscussions(all, newestOnTop);
    forall x ensures multiset(ds)[x] <= multiset(all)[x] {
    }
  }

  /** With distinct ids no two entries of the tree share a discussion id. */
  lemma EntryIdsDistinct(all: seq<Comment>, newestOnTop: bool, k1: int, k2: int)
    requires UniqueIds(all)
    requires 0 <= k1 < |CommentTree(all, newestOnTop)| && 0 <= k2 < |CommentTree(all, newestOnTop)|
    requires CommentTree(all, newestOnTop)[k1].discussion.id == CommentTree(all, newestOnTop)[k2].discussion.id
    ensures k1 == k2
  {
    TreeFollowsDiscussions(all, newestOnTop);
    DiscussionsWithinPage(all, newestOnTop);
    var ds := GetDiscussions(all, newestOnTop);
    if k1 < k2 {
      SubmultisetIdsDistinct(all, ds, k1, k2);
    } else if k2 < k1 {
      SubmultisetIdsDistinct(all, ds, k2, k1);
    }
  }

  /** A reply whose discussion is on the page appears exactly once in the
      tree: once under the entry of that discussion and under no other. */
  lemma ReplyPlacedOnce(all: seq<Comment>, newestOnTop: bool, c: Comment, d: Comment)
    requires UniqueIds(all)
    requires c in all && d in all && IsDiscussion(d) && c.parentId == Some(d.id)
    ensures exists k ::
      && 0 <= k < |CommentTree(all, newestOnTop)|
      && CommentTree(all, newestOnTop)[k].discussion == d
      && multiset(Children(CommentTree(all, newestOnTop)[k]))[c] == 1
      && (forall j :: 0 <= j < |CommentTree(all, newestOnTop)| && j != k ==>
            c !in Children(CommentTree(all, newestOnTop)[j]))
  {
    DiscussionHasEntry(all, newestOnTop, d);
    var k :| 0 <= k < |CommentTree(all, newestOnTop)| && CommentTree(all, newestOnTop)[k].discussion == d;
    assert multiset(Children(CommentTree(all, newestOnTop)[k]))[c] == 1 by {
      TreeFollowsDiscussions(all, newestOnTop);
      OccursOnce(all, c);
    }
    forall j | 0 <= j < |CommentTree(all, newestOnTop)| && j != k
      ensures c !in Children(CommentTree(all, newestOnTop)[j])
    {
      if c in Children(CommentTree(all, newestOnTop)[j]) {
        ReplyUnderItsOwnDiscussion(all, newestOnTop, j, c);
        EntryIdsDistinct(all, newestOnTop, j, k);
      }
    }
  }

  /** A reply whose parent is not a discussion of the page is dropped: it
      appears under no entry of the tree. */
  lemma OrphanReplyDropped(all: seq<Comment>, newestOnTop: bool, c: Comment, p: int)
    requires c.parentId == Some(p)
    requires forall d :: d in all && IsDiscussion(d) ==> d.id != p
    ensures forall k :: 0 <= k < |CommentTree(all, newestOnTop)| ==> c !in Children(CommentTree(all, newestOnTop)[k])
  {
    forall k | 0 <= k < |CommentTree(all, newestOnTop)|
      ensures c !in Children(CommentTree(all, newestOnTop)[k])
    {
      if c in Children(CommentTree(all, newestOnTop)[k]) {
        ReplyUnderItsOwnDiscussion(all, newestOnTop, k, c);
        EntryIsDiscussion(all, newestOnTop, k);
      }
    }
  }
}
