/** The page-side logic of the extension: which comments of a page are
    discussions and which are replies, how the discussion tree handed to the
    client is assembled and ordered, whether comments are shown on a page at
    all, and whether they start collapsed. */
module Streams {
  import opened Wrappers
  import opened Host
  import opened Ordering

  // ---------------------------------------------------------------------
  // Discussions and replies
  // ---------------------------------------------------------------------

  /** A discussion is a top-level comment: one without a parent. */
  predicate IsDiscussion(c: Comment) {
    c.parentId.None?
  }

  /** The comments of `all` that have no parent, in their original order. */
  function TopLevel(all: seq<Comment>): (r: seq<Comment>)
    ensures forall c {:trigger multiset(r)[c]} :: multiset(r)[c] == if IsDiscussion(c) then multiset(all)[c] else 0
  {
    if all == [] then []
    else
      assert all == [all[0]] + all[1..];
      (if IsDiscussion(all[0]) then [all[0]] else []) + TopLevel(all[1..])
  }

  /** The comments of `all` whose parent id is exactly `parentId`, in their
      original order. */
  function RepliesTo(all: seq<Comment>, parentId: int): (r: seq<Comment>)
    ensures forall c {:trigger multiset(r)[c]} :: multiset(r)[c] == if c.parentId == Some(parentId) then multiset(all)[c] else 0
  {
    if all == [] then []
    else
      assert all == [all[0]] + all[1..];
      (if all[0].parentId == Some(parentId) then [all[0]] else []) + RepliesTo(all[1..], parentId)
  }

  /** The discussions of a page: every top-level comment, each as often as
      it occurs in the input and nothing else, ordered newest first when
      `newestOnTop` is set and oldest first otherwise. */
  function GetDiscussions(all: seq<Comment>, newestOnTop: bool): (r: seq<Comment>)
    ensures SortedByTimestamp(r, newestOnTop)
    ensures forall c {:trigger multiset(r)[c]} :: multiset(r)[c] == if IsDiscussion(c) then multiset(all)[c] else 0
  {
    SortByTimestamp(TopLevel(all), newestOnTop)
  }

  /** The replies to the comment with id `parentId`: exactly the comments
      whose parent is that comment, always oldest first. */
  function GetReplies(all: seq<Comment>, parentId: int): (r: seq<Comment>)
    ensures SortedByTimestamp(r, false)
    ensures forall c {:trigger multiset(r)[c]} :: multiset(r)[c] == if c.parentId == Some(parentId) then multiset(all)[c] else 0
  {
    SortByTimestamp(RepliesTo(all, parentId), false)
  }

  // ---------------------------------------------------------------------
  // The discussion tree handed to the client
  // ---------------------------------------------------------------------

  /** The JSON object of one discussion. The client-side object gets its
      'children' key only when the first reply is appended, so a discussion
      without replies has no children entry at all (None). */
  datatype DiscussionJson = DiscussionJson(discussion: Comment, children: Option<seq<Comment>>)

  /** The replies listed under a discussion entry (none when the key is absent). */
  function Children(e: DiscussionJson): seq<Comment> {
    if e.children.Some? then e.children.value else []
  }

  /** The entry for discussion `d` with the replies `replies` appended in order. */
  function Entry(d: Comment, replies: seq<Comment>): (e: DiscussionJson)
    ensures e.discussion == d && Children(e) == replies
    ensures e.children.None? <==> replies == []
  {
    DiscussionJson(d, if replies == [] then None else Some(replies))
  }

  /** One entry per discussion of `ds`, in the order of `ds`, each carrying
      the replies to that discussion found in `all`. */
  function Entries(all: seq<Comment>, ds: seq<Comment>): seq<DiscussionJson> {
    if ds == [] then []
    else [Entry(ds[0], GetReplies(all, ds[0].id))] + Entries(all, ds[1..])
  }

  /** Entry `k` of the tree belongs to discussion `ds[k]` and lists exactly
      the replies to it. */
  lemma {:induction false} EntriesAt(all: seq<Comment>, ds: seq<Comment>, k: int)
    requires 0 <= k < |ds|
    ensures |Entries(all, ds)| == |ds|
    ensures Entries(all, ds)[k] == Entry(ds[k], GetReplies(all, ds[k].id))
  {
    if k > 0 {
      EntriesAt(all, ds[1..], k - 1);
    } else if |ds| > 1 {
      EntriesAt(all, ds[1..], 0);
    }
  }

  lemma {:induction false} EntriesLength(all: seq<Comment>, ds: seq<Comment>)
    ensures |Entries(all, ds)| == |ds|
  {
    if ds != [] {
      EntriesLength(all, ds[1..]);
    }
  }

  /** The tree of a page whose comments are `all`. */
  function CommentTree(all: seq<Comment>, newestOnTop: bool): seq<DiscussionJson> {
    Entries(all, GetDiscussions(all, newestOnTop))
  }

  /** Builds the list of discussion objects for the page whose comments are
      `all`, appending the replies of each discussion one by one. */
  method GetComments(all: seq<Comment>, newestOnTop: bool) returns (commentData: seq<DiscussionJson>)
    ensures commentData == CommentTree(all, newestOnTop)
  {
    commentData := [];
    var parentComments := GetDiscussions(all, newestOnTop);
    for i := 0 to |parentComments|
      invariant commentData == Entries(all, parentComments[..i])
    {
      var parentComment := parentComments[i];
      var parentJson := DiscussionJson(parentComment, None);
      var childComments := GetReplies(all, parentComment.id);
      for j := 0 to |childComments|
        invariant parentJson == Entry(parentComment, childComments[..j])
      {
        AppendChild(parentComment, childComments, j);
        parentJson := parentJson.(children := Some(Children(parentJson) + [childComments[j]]));
      }
      assert childComments[..|childComments|] == childComments;
      EntriesPrefix(all, parentComments, i);
      commentData := commentData + [parentJson];
    }
    assert parentComments[..|parentComments|] == parentComments;
  }

  /** Appending the next reply to the entry of `d` gives the entry for
      one more reply, and creates the 'children' key on the first one. */
  lemma AppendChild(d: Comment, replies: seq<Comment>, j: int)
    requires 0 <= j < |replies|
    ensures Entry(d, replies[..j]).(children := Some(Children(Entry(d, replies[..j])) + [replies[j]]))
      == Entry(d, replies[..j + 1])
  {
    assert replies[..j + 1] == replies[..j] + [replies[j]];
  }

  /** Extending the prefix of discussions by one appends one entry. */
  lemma EntriesPrefix(all: seq<Comment>, ds: seq<Comment>, i: int)
    requires 0 <= i < |ds|
    ensures Entries(all, ds[..i + 1]) == Entries(all, ds[..i]) + [Entry(ds[i], GetReplies(all, ds[i].id))]
  {
    assert ds[..i + 1] == ds[..i] + [ds[i]];
    EntriesSnoc(all, ds[..i], ds[i]);
  }

  lemma {:induction false} EntriesSnoc(all: seq<Comment>, ds: seq<Comment>, d: Comment)
    ensures Entries(all, ds + [d]) == Entries(all, ds) + [Entry(d, GetReplies(all, d.id))]
  {
    if ds == [] {
      assert ds + [d] == [d];
    } else {
      assert (ds + [d])[1..] == ds[1..] + [d];
      EntriesSnoc(all, ds[1..], d);
    }
  }

  // ---------------------------------------------------------------------
  // Display gate and initial collapse state
  // ---------------------------------------------------------------------

  /** The value of $wgCommentStreamsAllowedNamespaces: unset (null), a
      single namespace, or a list of namespaces. */
  datatype AllowedSetting = NotSet | Single(ns: int) | List(namespaces: seq<int>)

  /** Site configuration read by the page-side logic. */
  datatype Config = Config(
    allowedNamespaces: AllowedSetting,
    contentNamespaces: seq<int>,
    enableTalk: bool,
    newestStreamsOnTop: bool,
    initiallyCollapsedNamespaces: seq<int>,
    nsCommentStreams: int)

  /** What the gate looks at in the current request: the action name, the
      title, whether the page has deleted revisions and whether it exists. */
  datatype PageContext = PageContext(action: string, title: Title, isDeletedQuick: bool, pageExists: bool)

  /** The allowed namespaces as a list: the content namespaces when the
      setting is null, a one-element list when it is a single value. */
  function AllowedNamespaces(setting: AllowedSetting, contentNamespaces: seq<int>): (r: seq<int>)
    ensures setting.NotSet? ==> forall n :: n in r <==> n in contentNamespaces
    ensures setting.Single? ==> forall n :: n in r <==> n == setting.ns
    ensures setting.List? ==> forall n :: n in r <==> n in setting.namespaces
  {
    match setting
    case NotSet => contentNamespaces
    case Single(ns) => [ns]
    case List(namespaces) => namespaces
  }

  /** Whether comments start collapsed on a page of namespace `ns`: a talk
      page follows its subject namespace. */
  function InitiallyCollapsed(ns: int, collapsedNamespaces: seq<int>): (r: bool)
    ensures r <==> GetSubject(ns) in collapsedNamespaces
  {
    var namespace := if IsTalk(ns) then GetSubject(ns) else ns;
    namespace in collapsedNamespaces
  }

  /** A talk page starts collapsed exactly when its subject page does. */
  lemma TalkPageCollapsesWithSubject(subject: int, collapsedNamespaces: seq<int>)
    requires subject >= NS_MAIN && !IsTalk(subject)
    ensures IsTalk(subject + 1)
    ensures InitiallyCollapsed(subject + 1, collapsedNamespaces) == InitiallyCollapsed(subject, collapsedNamespaces)
  {
  }

  /** The JavaScript configuration passed to the client. */
  datatype JsConfig = JsConfig(newestStreamsOnTop: int, initiallyCollapsed: bool, comments: seq<DiscussionJson>)

  /** The per-request state of the extension: whether a
      <no-comment-streams/> tag disabled comments on the page being rendered. */
  class CommentStreams {
    var noCommentStreams: bool

    constructor ()
      ensures !noCommentStreams
    {
      noCommentStreams := false;
    }

    /** Disables the display of comments on the current page; from then on
        the gate refuses every page. */
    method DisableCommentsOnPage()
      modifies this
      ensures noCommentStreams
      ensures forall page, cfg :: !CheckDisplayComments(page, cfg)
    {
      noCommentStreams := true;
    }

    /** Whether comments are displayed on the page of `page`. The checks
        run in order and the first failing one refuses. */
    function CheckDisplayComments(page: PageContext, cfg: Config): (r: bool)
      reads this
      ensures r ==> !noCommentStreams
      ensures r ==> page.action == "view"
      ensures r && IsTalk(page.title.ns) ==>
        cfg.enableTalk || GetSubject(page.title.ns) in AllowedNamespaces(cfg.allowedNamespaces, cfg.contentNamespaces)
      ensures r && !IsTalk(page.title.ns) ==>
        page.title.ns in AllowedNamespaces(cfg.allowedNamespaces, cfg.contentNamespaces)
      ensures r ==> page.title.ns != cfg.nsCommentStreams
      ensures r ==> page.pageExists && !page.isDeletedQuick
      ensures !noCommentStreams && page.action == "view"
        && (if IsTalk(page.title.ns)
            then cfg.enableTalk || GetSubject(page.title.ns) in AllowedNamespaces(cfg.allowedNamespaces, cfg.contentNamespaces)
            else page.title.ns in AllowedNamespaces(cfg.allowedNamespaces, cfg.contentNamespaces))
        && page.title.ns != cfg.nsCommentStreams
        && page.pageExists && !page.isDeletedQuick
        ==> r
    {
      if noCommentStreams then false
      else if page.action != "view" then false
      else
        var allowed := AllowedNamespaces(cfg.allowedNamespaces, cfg.contentNamespaces);
        var namespace := page.title.ns;
        if IsTalk(namespace) && !cfg.enableTalk && GetSubject(namespace) !in allowed then false
        else if !IsTalk(namespace) && namespace !in allowed then false
        else if namespace == cfg.nsCommentStreams then false
        else if page.isDeletedQuick || !page.pageExists then false
        else true
    }

    /** Initialises the display: when the gate passes, the client receives
        the comment tree of the page (whose comments are `associated`), the
        ordering flag and the initial collapse state; otherwise nothing. */
    method Init(page: PageContext, cfg: Config, associated: seq<Comment>) returns (js: Option<JsConfig>)
      ensures js.Some? <==> CheckDisplayComments(page, cfg)
      ensures js.Some? ==> js.value.comments == CommentTree(associated, cfg.newestStreamsOnTop)
      ensures js.Some? ==> js.value.initiallyCollapsed == (GetSubject(page.title.ns) in cfg.initiallyCollapsedNamespaces)
      ensures js.Some? ==> js.value.newestStreamsOnTop == (if cfg.newestStreamsOnTop then 1 else 0)
    {
      if CheckDisplayComments(page, cfg) {
        var comments := GetComments(associated, cfg.newestStreamsOnTop);
        var collapsed := InitiallyCollapsed(page.title.ns, cfg.initiallyCollapsedNamespaces);
        js := Some(JsConfig(if cfg.newestStreamsOnTop then 1 else 0, collapsed, comments));
      } else {
        js := None;
      }
    }
  }
}
