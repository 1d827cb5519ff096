/** The API module that posts a reply to a comment: its parameters, the
    comment store, log and notifier it works with, and the ordered workflow
    of `execute` with its three error exits. */
module PostReply {
  import opened Wrappers
  import opened Host
  import opened PhpCast
  import opened Streams
  import opened TreeProperties

  // ---------------------------------------------------------------------
  // Request parameters
  // ---------------------------------------------------------------------

  datatype ParamType = StringParam | IntegerParam

  datatype ParamSpec = ParamSpec(name: string, paramType: ParamType, required: bool)

  /** The module's parameters: a required string 'wikitext' and a required
      integer 'parentid', and nothing else. */
  function GetAllowedParams(): (specs: seq<ParamSpec>)
    ensures |specs| == 2
    ensures ParamSpec("wikitext", StringParam, true) in specs
    ensures ParamSpec("parentid", IntegerParam, true) in specs
    ensures forall p :: p in specs ==> p.required
  {
    [ParamSpec("wikitext", StringParam, true), ParamSpec("parentid", IntegerParam, true)]
  }

  /** A raw request meets the declared parameters: every required one is
      present and every integer one is written as an integer. The host
      validates this before `execute` runs, because the module needs a
      token. */
  predicate SatisfiesParams(request: map<string, string>, specs: seq<ParamSpec>) {
    forall p :: p in specs && p.required ==>
      p.name in request && (p.paramType == IntegerParam ==> IsIntegerString(request[p.name]))
  }

  predicate ValidRequest(request: map<string, string>) {
    SatisfiesParams(request, GetAllowedParams())
  }

  lemma ValidRequestHasParams(request: map<string, string>)
    requires ValidRequest(request)
    ensures "wikitext" in request && "parentid" in request
    ensures IsIntegerString(request["parentid"])
  {
    assert ParamSpec("wikitext", StringParam, true) in GetAllowedParams();
    assert ParamSpec("parentid", IntegerParam, true) in GetAllowedParams();
  }

  /** The parent id as `execute` uses it: the 'parentid' value cast to int. */
  function ParentIdParam(request: map<string, string>): int
    requires ValidRequest(request)
  {
    ValidRequestHasParams(request);
    CastToInt(request["parentid"])
  }

  function WikitextParam(request: map<string, string>): string
    requires ValidRequest(request)
  {
    ValidRequestHasParams(request);
    request["wikitext"]
  }

  // ---------------------------------------------------------------------
  // Errors, log entries, notifications and the trace of effects
  // ---------------------------------------------------------------------

  /** The three ways `execute` dies. */
  datatype ApiError = PostPermissions | ParentPageDoesNotExist | PostFailed

  /** The message key each error is reported with. */
  function ErrorMessageKey(e: ApiError): string {
    match e
    case PostPermissions => "commentstreams-api-error-post-permissions"
    case ParentPageDoesNotExist => "commentstreams-api-error-post-parentpagedoesnotexist"
    case PostFailed => "commentstreams-api-error-post"
  }

  /** A log entry: log type, action, performer (user id) and target page. */
  datatype LogEntry = LogEntry(logType: string, action: string, performer: int, target: int)

  /** One call of the notifier: the reply, the page the discussion is on,
      the replying user and the parent comment. */
  datatype Notification = Notification(reply: Comment, associatedPage: int, userId: int, parent: Comment)

  /** The externally visible steps of the workflow, in the order taken. */
  datatype Effect =
    | LookupComment(id: int)
    | InsertReply(userId: int, parentId: int)
    | LogInsert(logId: int)
    | LogPublish(logId: int)
    | AddResult(replyId: int)
    | Notify(replyId: int)

  /** The reply the store creates for `user` under `parent`: a new comment on
      the parent's page whose parent is `parent`. */
  function NewReply(id: int, user: User, wikitext: string, parent: Comment, now: int): (c: Comment)
    ensures c.parentId == Some(parent.id) && c.associatedPageId == parent.associatedPageId
    ensures c.authorId == user.id && c.id == id
  {
    Comment(id, parent.associatedPageId, Some(parent.id), user.id, now, None, wikitext)
  }

  /** A reply posted under a discussion shows up in the page's tree exactly
      once, under that discussion. */
  lemma ReplyToDiscussionIsShown(all: seq<Comment>, newestOnTop: bool, parent: Comment,
                                 id: int, user: User, wikitext: string, now: int)
    requires parent in all && IsDiscussion(parent)
    requires UniqueIds(all + [NewReply(id, user, wikitext, parent, now)])
    ensures var page := all + [NewReply(id, user, wikitext, parent, now)];
      exists k ::
        && 0 <= k < |CommentTree(page, newestOnTop)|
        && CommentTree(page, newestOnTop)[k].discussion == parent
        && multiset(Children(CommentTree(page, newestOnTop)[k]))[NewReply(id, user, wikitext, parent, now)] == 1
        && (forall j :: 0 <= j < |CommentTree(page, newestOnTop)| && j != k ==>
              NewReply(id, user, wikitext, parent, now) !in Children(CommentTree(page, newestOnTop)[j]))
  {
    var reply := NewReply(id, user, wikitext, parent, now);
    var page := all + [reply];
    assert reply == page[|all|];
    assert parent in page;
    ReplyPlacedOnce(page, newestOnTop, reply, parent);
  }

  /** A reply posted under a comment that is itself a reply is stored but
      never shown: the tree only lists replies to discussions. */
  lemma ReplyToReplyIsNotShown(all: seq<Comment>, newestOnTop: bool, parent: Comment,
                               id: int, user: User, wikitext: string, now: int)
    requires parent in all && !IsDiscussion(parent)
    requires UniqueIds(all + [NewReply(id, user, wikitext, parent, now)])
    ensures var page := all + [NewReply(id, user, wikitext, parent, now)];
      forall k :: 0 <= k < |CommentTree(page, newestOnTop)| ==>
        NewReply(id, user, wikitext, parent, now) !in Children(CommentTree(page, newestOnTop)[k])
  {
    var reply := NewReply(id, user, wikitext, parent, now);
    var page := all + [reply];
    forall d | d in page && IsDiscussion(d)
      ensures d.id != parent.id
    {
      var i :| 0 <= i < |all| && all[i] == parent;
      var j :| 0 <= j < |page| && page[j] == d;
      assert page[i] == parent;
      assert i != j;
      if i < j { assert page[i].id != page[j].id; } else { assert page[j].id != page[i].id; }
    }
    OrphanReplyDropped(page, newestOnTop, reply, parent.id);
  }

  // ---------------------------------------------------------------------
  // Collaborators
  // ---------------------------------------------------------------------

  /** The comment store together with the set of existing wiki pages.
      Comments and pages share one id space; `nextId` is the next unused
      id. `accepting` says whether the backing database accepts a write. */
  class CommentStore {
    var comments: map<int, Comment>
    var pages: set<int>
    var nextId: int
    var accepting: bool

    ghost predicate Valid()
      reads this
    {
      && (forall id :: id in comments ==> id < nextId && comments[id].id == id)
      && (forall p :: p in pages ==> p < nextId)
    }

    constructor (comments: map<int, Comment>, pages: set<int>, nextId: int, accepting: bool)
      requires forall id :: id in comments ==> id < nextId && comments[id].id == id
      requires forall p :: p in pages ==> p < nextId
      ensures Valid()
      ensures this.comments == comments && this.pages == pages
      ensures this.nextId == nextId && this.accepting == accepting
    {
      this.comments := comments;
      this.pages := pages;
      this.nextId := nextId;
      this.accepting := accepting;
    }

    /** The comment with page id `id`, if there is one. */
    method GetComment(id: int) returns (c: Option<Comment>)
      ensures c.Some? <==> id in comments
      ensures c.Some? ==> c.value == comments[id]
    {
      c := if id in comments then Some(comments[id]) else None;
    }

    /** The page a comment is attached to, or None when that page no
        longer exists. */
    function AssociatedPage(c: Comment): (page: Option<int>)
      reads this
      ensures page.Some? <==> c.associatedPageId in pages
      ensures page.Some? ==> page.value == c.associatedPageId
    {
      if c.associatedPageId in pages then Some(c.associatedPageId) else None
    }

    /** Stores a reply to `parent` as a new comment page, or returns None
        when the write is refused. */
    method InsertReply(user: User, wikitext: string, parent: Comment, now: int) returns (reply: Option<Comment>)
      requires Valid()
      modifies this
      ensures Valid()
      ensures !old(accepting) ==> reply.None? && unchanged(this)
      ensures old(accepting) ==>
        && reply == Some(NewReply(old(nextId), user, wikitext, parent, now))
        && comments == old(comments)[old(nextId) := reply.value]
        && pages == old(pages) + {old(nextId)}
        && nextId == old(nextId) + 1
        && accepting
    {
      if !accepting {
        return None;
      }
      var r := NewReply(nextId, user, wikitext, parent, now);
      comments := comments[nextId := r];
      pages := pages + {nextId};
      nextId := nextId + 1;
      reply := Some(r);
    }
  }

  /** The logging table and the recent-changes feed it publishes to. */
  class LogDatabase {
    var entries: seq<LogEntry>
    var published: seq<int>

    constructor ()
      ensures entries == [] && published == []
    {
      entries, published := [], [];
    }

    /** Inserts an entry; its id is its position counted from 1. */
    method Insert(e: LogEntry) returns (logId: int)
      modifies this
      ensures logId == |old(entries)| + 1
      ensures entries == old(entries) + [e] && published == old(published)
    {
      entries := entries + [e];
      logId := |entries|;
    }

    /** Publishes an inserted entry to recent changes. */
    method Publish(logId: int)
      modifies this
      ensures published == old(published) + [logId] && entries == old(entries)
    {
      published := published + [logId];
    }
  }

  /** The API result being built. */
  class ApiResult {
    var values: map<string, int>

    constructor ()
      ensures values == map[]
    {
      values := map[];
    }

    method AddValue(name: string, value: int)
      modifies this
      ensures values == old(values)[name := value]
    {
      values := values[name := value];
    }
  }

  /** The notifier; it records the notifications it was asked to send. */
  class Notifier {
    var sent: seq<Notification>

    constructor ()
      ensures sent == []
    {
      sent := [];
    }

    method SendReplyNotifications(reply: Comment, associatedPage: int, user: User, parent: Comment)
      modifies this
      ensures sent == old(sent) + [Notification(reply, associatedPage, user.id, parent)]
    {
      sent := sent + [Notification(reply, associatedPage, user.id, parent)];
    }
  }

  // ---------------------------------------------------------------------
  // The API module
  // ---------------------------------------------------------------------

  class ApiCSPostReply {
    const moduleName: string
    const store: CommentStore
    const notifier: Notifier
    const logDb: LogDatabase
    const apiResult: ApiResult
    const suppressLogsFromRCs: bool
    /** The effects of this module's calls, in order. */
    ghost var trace: seq<Effect>

    constructor (moduleName: string, store: CommentStore, notifier: Notifier, logDb: LogDatabase,
                 apiResult: ApiResult, suppressLogsFromRCs: bool)
      ensures this.moduleName == moduleName && this.store == store && this.notifier == notifier
      ensures this.logDb == logDb && this.apiResult == apiResult
      ensures this.suppressLogsFromRCs == suppressLogsFromRCs
      ensures trace == []
    {
      this.moduleName := moduleName;
      this.store := store;
      this.notifier := notifier;
      this.logDb := logDb;
      this.apiResult := apiResult;
      this.suppressLogsFromRCs := suppressLogsFromRCs;
      trace := [];
    }

    /** Logs `action` by `user` against `target`: nothing happens without a
        target; otherwise the entry is always inserted, and it is published
        to recent changes unless that is suppressed. */
    method LogAction(user: User, action: string, target: Option<int>)
      modifies this, logDb
      ensures target.None? ==> unchanged(logDb) && trace == old(trace)
      ensures target.Some? ==>
        var logId := |old(logDb.entries)| + 1;
        && logDb.entries == old(logDb.entries) + [LogEntry("commentstreams", action, user.id, target.value)]
        && logDb.published == old(logDb.published) + (if suppressLogsFromRCs then [] else [logId])
        && trace == old(trace) + [LogInsert(logId)] + (if suppressLogsFromRCs then [] else [LogPublish(logId)])
    {
      if target.None? {
        return;
      }
      var logId := logDb.Insert(LogEntry("commentstreams", action, user.id, target.value));
      trace := trace + [LogInsert(logId)];
      if !suppressLogsFromRCs {
        logDb.Publish(logId);
        trace := trace + [LogPublish(logId)];
      }
    }

    /** Posts a reply by `user` at time `now`. The steps run in order:
        permission check, parent lookup, the parent's page, insert, log,
        result, notification; each failure returns its error and performs
        none of the later steps. */
    method Execute(user: User, request: map<string, string>, now: int) returns (outcome: Result<int, ApiError>)
      requires ValidRequest(request)
      requires store.Valid()
      modifies this, store, logDb, apiResult, notifier
      ensures store.Valid()
      // no 'cs-comment' right: refused before the store is touched
      ensures !UserHasRight(user, "cs-comment") ==>
        && outcome == Failure(PostPermissions)
        && ErrorMessageKey(outcome.error) == "commentstreams-api-error-post-permissions"
        && trace == old(trace)
        && unchanged(store, logDb, apiResult, notifier)
      // unknown parent comment
      ensures UserHasRight(user, "cs-comment") && ParentIdParam(request) !in old(store.comments) ==>
        && outcome == Failure(ParentPageDoesNotExist)
        && ErrorMessageKey(outcome.error) == "commentstreams-api-error-post-parentpagedoesnotexist"
        && trace == old(trace) + [LookupComment(ParentIdParam(request))]
        && unchanged(store, logDb, apiResult, notifier)
      // the parent's page is gone: the same error as an unknown parent
      ensures (&& UserHasRight(user, "cs-comment") && ParentIdParam(request) in old(store.comments)
               && old(store.comments[ParentIdParam(request)].associatedPageId !in store.pages)) ==>
        && outcome == Failure(ParentPageDoesNotExist)
        && ErrorMessageKey(outcome.error) == "commentstreams-api-error-post-parentpagedoesnotexist"
        && trace == old(trace) + [LookupComment(ParentIdParam(request))]
        && unchanged(store, logDb, apiResult, notifier)
      // the store refuses the reply: nothing is logged, returned or notified
      ensures (&& UserHasRight(user, "cs-comment") && ParentIdParam(request) in old(store.comments)
               && old(store.comments[ParentIdParam(request)].associatedPageId in store.pages)
               && !old(store.accepting)) ==>
        && outcome == Failure(PostFailed)
        && ErrorMessageKey(outcome.error) == "commentstreams-api-error-post"
        && trace == old(trace) + [LookupComment(ParentIdParam(request)), InsertReply(user.id, ParentIdParam(request))]
        && unchanged(store, logDb, apiResult, notifier)
      // success
      ensures (&& UserHasRight(user, "cs-comment") && ParentIdParam(request) in old(store.comments)
               && old(store.comments[ParentIdParam(request)].associatedPageId in store.pages)
               && old(store.accepting)) ==>
        var parentId := ParentIdParam(request);
        var parent := old(store.comments[parentId]);
        var id := old(store.nextId);
        var reply := NewReply(id, user, WikitextParam(request), parent, now);
        var page := parent.associatedPageId;
        var logId := |old(logDb.entries)| + 1;
        && outcome == Success(id)
        && store.comments == old(store.comments)[id := reply]
        && store.pages == old(store.pages) + {id} && store.nextId == id + 1 && store.accepting
        && logDb.entries == old(logDb.entries) + [LogEntry("commentstreams", "reply-create", user.id, page)]
        && logDb.published == old(logDb.published) + (if suppressLogsFromRCs then [] else [logId])
        && apiResult.values == old(apiResult.values)[moduleName := id]
        && notifier.sent == old(notifier.sent) + [Notification(reply, page, user.id, parent)]
        && trace == old(trace) + [LookupComment(parentId), InsertReply(user.id, parentId), LogInsert(logId)]
                    + (if suppressLogsFromRCs then [] else [LogPublish(logId)])
                    + [AddResult(id), Notify(id)]
    {
      if !UserHasRight(user, "cs-comment") {
        return Failure(PostPermissions);
      }
      ValidRequestHasParams(request);
      var parentId := CastToInt(request["parentid"]);
      var wikitext := request["wikitext"];

      trace := trace + [LookupComment(parentId)];
      var parentComment := store.GetComment(parentId);
      if parentComment.None? {
        return Failure(ParentPageDoesNotExist);
      }
      var associatedPage := store.AssociatedPage(parentComment.value);
      if associatedPage.None? {
        return Failure(ParentPageDoesNotExist);
      }

      trace := trace + [InsertReply(user.id, parentId)];
      var reply := store.InsertReply(user, wikitext, parentComment.value, now);
      if reply.None? {
        return Failure(PostFailed);
      }

      var replyPage := store.AssociatedPage(reply.value);
      if replyPage.Some? {
        LogAction(user, "reply-create", replyPage);
      }

      apiResult.AddValue(moduleName, reply.value.id);
      trace := trace + [AddResult(reply.value.id)];

      notifier.SendReplyNotifications(reply.value, associatedPage.value, user, parentComment.value);
      trace := trace + [Notify(reply.value.id)];

      outcome := Success(reply.value.id);
    }
  }
}
