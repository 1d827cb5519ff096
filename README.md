# CommentStreams in Dafny

A Dafny model of the core of CommentStreams, the MediaWiki extension that
attaches threaded comments to wiki pages. Every comment is a wiki page of
its own, stored in a dedicated comment namespace (`NS_COMMENTSTREAMS`, with
its talk namespace `NS_COMMENTSTREAMS_TALK` right after it). The model
covers three areas:

- **Page side** (`includes/CommentStreams.php`). It covers the gate that
  decides whether comments render on a page at all, including the
  `<no-comment-streams/>` switch. It assembles the discussion tree sent to
  the client: discussions are the top-level comments, ordered newest or
  oldest first. Each discussion gets a flat list of its direct replies,
  always oldest first. It also covers the rule for whether comments start
  collapsed.
- **Hooks** (`includes/CommentStreamsHooks.php`). Only the author of the
  oldest revision of a comment page may edit it. Comment pages never move.
  Only 'info' and 'history' reach MediaWiki for a comment page. The hooks
  also register the two comment namespaces.
- **Posting a reply** (`includes/ApiCSPostReply.php`). The API module runs
  in a fixed order: permission check, parent lookup, the parent's page,
  insert, log entry (published to recent changes unless suppressed), API
  result, notification. Each error exit skips every later step.

Files:

- `wrappers.dfy`: the `Option` and `Result` types.
- `host.dfy`: the host rules the extension relies on. It holds MediaWiki's
  talk/subject namespace numbering, titles, users and the comment record.
- `ordering.dfy`: ordering comments by creation timestamp.
- `comment_streams.dfy`: the module `Streams`, which holds the discussion
  and reply filters, tree assembly, the display gate, the collapse rule and
  the class `CommentStreams`.
- `tree_properties.dfy`: what the assembled tree promises.
- `hooks.dfy`: the module `Hooks`.
- `php_cast.dfy`: PHP's `(int)` cast of a request string.
- `post_reply.dfy`: the module `PostReply`. It holds the parameters, the
  collaborators (comment store, log database, API result, notifier) and the
  class `ApiCSPostReply`.

Inputs from the environment become parameters:

- The comments of the page being rendered are the `associated` list.
- The creation clock is `now`.
- The requesting user is `user`.
- Site settings are a `Config` value.
- The comment namespace index is `nsCommentStreams`.

The collaborators of the API module are small classes that record what was
asked of them. `ApiCSPostReply` keeps a ghost `trace` of the effects in the
order they happened.

A discussion without replies has no `children` key at all, because PHP
creates the key on the first append (`includes/CommentStreams.php:136`); the
model keeps that difference between an empty and a missing reply list.

## Model

| member | source | states |
|---|---|---|
| `Ordering.SortByTimestamp` | includes/CommentStreams.php:188-204 | the result is ordered by creation timestamp in the requested direction (non-increasing newest-first, non-decreasing otherwise) and is a permutation of the input, which is what usort with these comparators delivers |
| `Streams.TopLevel` | includes/CommentStreams.php:183-187 | the filter keeps every comment without a parent, as often as it occurs, and nothing else |
| `Streams.RepliesTo` | includes/CommentStreams.php:216-223 | the filter keeps exactly the comments whose parent id is identical to the given id, with their multiplicity |
| `Streams.GetDiscussions` | includes/CommentStreams.php:182-206 | the discussions are exactly the input comments with a null parent, each once per occurrence; newest first when newestOnTop is set, oldest first otherwise |
| `Streams.GetReplies` | includes/CommentStreams.php:215-232 | the replies are exactly the comments whose parent id equals the given id, with their multiplicity, and they are oldest first whatever newestOnTop says |
| `Streams.Entry` | includes/CommentStreams.php:130-138 | a discussion object lists exactly the given replies in order, and it has no children key when there are none |
| `Streams.EntriesAt` | includes/CommentStreams.php:130-139 | the k-th discussion object belongs to the k-th discussion and carries that discussion's replies |
| `Streams.GetComments` | includes/CommentStreams.php:124-141 | the nested loops build exactly the tree: one object per discussion in discussion order, each holding its replies |
| `Streams.AllowedNamespaces` | includes/CommentStreams.php:82-87 | an unset setting means the content namespaces, a single value means just that namespace, and a list is taken as is |
| `Streams.InitiallyCollapsed` | includes/CommentStreams.php:152-158 | comments start collapsed iff the page's subject namespace is in the collapsed list; a talk namespace is replaced by its subject namespace |
| `Streams.TalkPageCollapsesWithSubject` | includes/CommentStreams.php:154-157 | a talk page starts collapsed exactly when its subject page does |
| `Streams.CommentStreams.constructor` | includes/CommentStreams.php:41 | comments start out enabled |
| `Streams.CommentStreams.DisableCommentsOnPage` | includes/CommentStreams.php:47-49 | after the call the flag is set and the gate refuses every page under every configuration |
| `Streams.CommentStreams.CheckDisplayComments` | includes/CommentStreams.php:69-116 | the gate passes iff all of these hold: comments are not disabled; the action is 'view'; a talk page has the talk switch on or its subject namespace allowed, and any other page has its own namespace allowed; the namespace is not the comment namespace; the page exists and has no deleted revisions |
| `Streams.CommentStreams.Init` | includes/CommentStreams.php:56-61 | the client gets a configuration iff the gate passes; it holds the page's comment tree, the ordering flag as 1/0 and the collapse state of the subject namespace |
| `TreeProperties.TreeFollowsDiscussions` | includes/CommentStreams.php:128-139 | the tree has one entry per discussion, in discussion order; each entry's children are exactly that discussion's replies |
| `TreeProperties.TreeOrdering` | includes/CommentStreams.php:128-137 | roots are non-increasing by timestamp when newestOnTop is set and non-decreasing otherwise; the children of every root are non-decreasing |
| `TreeProperties.RootsAreDiscussions` | includes/CommentStreams.php:128-130 | a comment is a root of the tree iff it is a comment of the page without a parent |
| `TreeProperties.ReplyUnderItsOwnDiscussion` | includes/CommentStreams.php:132-137 | a comment listed under a root is a comment of the page whose parent is that root, so a reply never lands under the wrong root |
| `TreeProperties.ReplyPlacedOnce` | includes/CommentStreams.php:130-139 | when ids are distinct, a reply whose discussion is on the page appears exactly once in the tree, under that discussion, and under no other |
| `TreeProperties.OrphanReplyDropped` | includes/CommentStreams.php:128-139 | a reply whose parent is not a discussion of the page appears nowhere in the tree |
| `Hooks.CommentStreamsTalkNamespace` | includes/CommentStreamsHooks.php:245-246 | the talk namespace of the comment namespace is the comment namespace index plus one |
| `Hooks.AddCommentStreamsNamespaces` | includes/CommentStreamsHooks.php:51-55 | exactly the two comment namespace keys are added, named 'CommentStreams' and 'CommentStreams_Talk'; every other entry is unchanged and other hooks run |
| `Hooks.OnMediaWikiPerformAction` | includes/CommentStreamsHooks.php:71-109 | pages outside the comment namespace always go through; on a comment page only 'info' and 'history' go through, every other action is stopped |
| `Hooks.OnMovePageIsValidMove` | includes/CommentStreamsHooks.php:121-129 | the hook returns false and marks the status failed iff the old or the new title is in the comment namespace; otherwise it returns true and leaves the status alone |
| `Hooks.EditOpinion` | includes/CommentStreamsHooks.php:143-165 | there is no opinion for actions other than 'edit' and for titles outside the comment namespace; an edit of an existing comment page is denied iff the user is not the oldest revision's user; a comment page that does not exist yet may be created |
| `Hooks.UserCan` | includes/CommentStreamsHooks.php:143-165 | the hook returns false and sets the by-reference result to false exactly when the decision is a denial; otherwise it returns true and leaves the result untouched |
| `Hooks.LaterRevisionsKeepAuthorship` | includes/CommentStreamsHooks.php:159-162 | edits by anyone after the first revision never change who may edit a comment page |
| `Hooks.HideCommentStreams` | includes/CommentStreamsHooks.php:191-197 | the tag renders as the empty string and afterwards the gate refuses every page |
| `PhpCast.CastRoundTrip` | includes/ApiCSPostReply.php:89-92 | casting the decimal form of any integer gives that integer back, and that form passes the integer parameter check |
| `PostReply.GetAllowedParams` | includes/ApiCSPostReply.php:131-142 | there are exactly two parameters, both required: 'wikitext' of type string and 'parentid' of type integer |
| `PostReply.ValidRequestHasParams` | includes/ApiCSPostReply.php:131-142 | a request that meets the declared parameters carries 'wikitext' and an integer-formatted 'parentid' |
| `PostReply.NewReply` | includes/ApiCSPostReply.php:101-105 | the stored reply has the given id and the user as author, its parent is the parent comment, and it sits on the parent's page |
| `PostReply.ReplyToDiscussionIsShown` | includes/CommentStreams.php:130-139 | a reply posted under a discussion appears exactly once under that discussion's entry and under no other entry of the page's tree |
| `PostReply.ReplyToReplyIsNotShown` | includes/CommentStreams.php:130-139 | a reply posted under a comment that is itself a reply appears nowhere in the page's tree |
| `PostReply.CommentStore.GetComment` | includes/ApiCSPostReply.php:93 | the lookup finds a comment iff the store has one under that id, and returns that comment |
| `PostReply.CommentStore.AssociatedPage` | includes/ApiCSPostReply.php:97-98 | a comment's page is found iff that page still exists |
| `PostReply.CommentStore.InsertReply` | includes/ApiCSPostReply.php:101-108 | a refused write returns nothing and changes nothing; otherwise the reply is stored under a fresh id, which becomes an existing page |
| `PostReply.LogDatabase.Insert` | includes/ApiCSPostReply.php:164 | the entry is appended and its id is returned |
| `PostReply.LogDatabase.Publish` | includes/ApiCSPostReply.php:166-168 | the log id is appended to the recent-changes feed |
| `PostReply.ApiResult.AddValue` | includes/ApiCSPostReply.php:114 | the module's result key is set to the value |
| `PostReply.Notifier.SendReplyNotifications` | includes/ApiCSPostReply.php:116-122 | exactly one notification is recorded, carrying the reply, the page, the user and the parent |
| `PostReply.ApiCSPostReply.LogAction` | includes/ApiCSPostReply.php:157-169 | nothing happens without a target; otherwise the entry is always inserted, and it is published iff suppressLogsFromRCs is false |
| `PostReply.ApiCSPostReply.Execute` | includes/ApiCSPostReply.php:84-126 | the cases are as follows. Without the 'cs-comment' right the call fails with message key 'commentstreams-api-error-post-permissions' and touches nothing. A missing parent fails with 'commentstreams-api-error-post-parentpagedoesnotexist' after the lookup alone, and so does a parent whose page is gone. A refused insert fails with 'commentstreams-api-error-post', with no log, result or notification. On success the reply is stored under the next free id, which becomes an existing page, the store keeps accepting writes, and a 'reply-create' entry is logged against the reply's page, which is the parent's page, published unless suppressed. The reply id becomes the result, one notification goes out with (reply, page, user, parent), and the trace records the steps in that order. |

## Left out

- Ties: the comparators at `includes/CommentStreams.php:193`, `:201` and `:228` never return 0, so usort leaves equal timestamps in no defined order; the model promises sorted by timestamp plus permutation, and `Ordering.SortByTimestamp` is one admissible order.
- Notifications: `execute` (`includes/ApiCSPostReply.php:116-122`) does not catch a failing notifier; the notifier always succeeds in the model.
- Comment JSON: `getJSON` belongs to the comment class, which is not part of this model. The JSON of a comment is the comment record itself.
- Fetching a page's comments: `Comment::getAssociatedComments` and the article-id lookup are left out. The page's comments are a parameter.
- The singleton: the static instance is left out. One `CommentStreams` object is passed explicitly.
- Display names and avatars: `initJS` also passes the user's display name and avatar, and it loads the client module. These are rendering glue and are left out. Only the collapse flag, the ordering flag and the tree are modelled.
- Comment page rendering: when `onMediaWikiPerformAction` stops an action on a comment page, it also renders the page (title, subtitle link, page properties). That part is host UI and is left out.
- Host plumbing: the schema update, the namespace constants defined from globals, and search-hit rewriting are left out. The one exception is the talk index being the comment index plus one.
- Semantic MediaWiki: property registration and `updateData` are a third-party integration and are left out.
- Parser hooks: the parser-hook registration and `disableCache` are left out. Only the effect of the tag on the flag is modelled.
- Generic API base: `includes/ApiCSBase.php` is generic API plumbing and is not part of this model.
- Token and parameter checks: the CSRF token check and the host's parameter validation are left out. `Execute` requires a request that already meets `GetAllowedParams`, which the API framework validates before `execute` runs.
- PHP's integer cast: `PhpCast.CastToInt` models decimal notation only. Exponent and float forms and 64-bit saturation are not modelled, since the integer parameter check admits only a sign and digits.
- `in_array`: PHP compares loosely. Namespaces are plain integers here, so only integer comparison is modelled.
- The comment store: its internals are not part of this model. A stored reply takes the next unused id, and a refused write is a store flag.
- Exceptions: a notifier or database that throws is left out, and so is `dieWithError`'s exception itself. An error exit is a `Failure` result.
- Timestamps: a creation timestamp is an integer rather than a DateTime.
