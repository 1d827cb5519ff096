/** The extension's hook handlers that guard comment pages: who may edit a
    comment page, that comment pages never move, which page actions reach a
    comment page, the registration of the comment namespaces, and the
    <no-comment-streams/> tag. */
module Hooks {
  import opened Wrappers
  import opened Host
  import Streams

  /** NS_COMMENTSTREAMS_TALK: the talk namespace of the comment namespace is
      the next index after it. */
  function CommentStreamsTalkNamespace(nsCommentStreams: int): (t: int)
    ensures t > nsCommentStreams
  {
    nsCommentStreams + 1
  }

  /** Adds the canonical names of the two comment namespaces to the
      namespace table passed by reference, and lets other hooks run. */
  method AddCommentStreamsNamespaces(namespaces: map<int, string>, nsCommentStreams: int)
    returns (namespaces': map<int, string>, continueHooks: bool)
    ensures namespaces'.Keys == namespaces.Keys + {nsCommentStreams, CommentStreamsTalkNamespace(nsCommentStreams)}
    ensures namespaces'[nsCommentStreams] == "CommentStreams"
    ensures namespaces'[CommentStreamsTalkNamespace(nsCommentStreams)] == "CommentStreams_Talk"
    ensures forall n :: n in namespaces && n != nsCommentStreams && n != CommentStreamsTalkNamespace(nsCommentStreams) ==>
      namespaces'[n] == namespaces[n]
    ensures continueHooks
  {
    namespaces' := namespaces[nsCommentStreams := "CommentStreams"];
    namespaces' := namespaces'[CommentStreamsTalkNamespace(nsCommentStreams) := "CommentStreams_Talk"];
    continueHooks := true;
  }

  /** Whether MediaWiki goes on to perform `action` on `title`. On a comment
      page only the 'info' and 'history' actions go through; every other
      action is answered by the extension (it shows the comment instead). */
  function OnMediaWikiPerformAction(title: Title, action: string, nsCommentStreams: int): (continueHooks: bool)
    ensures title.ns != nsCommentStreams ==> continueHooks
    ensures title.ns == nsCommentStreams ==> (continueHooks <==> action in {"info", "history"})
  {
    if title.ns != nsCommentStreams then true
    else match action
      case "info" => true
      case "history" => true
      case _ => false
  }

  /** A MediaWiki status object; the hook can only flip its result. */
  class Status {
    var ok: bool

    constructor (ok: bool)
      ensures this.ok == ok
    {
      this.ok := ok;
    }
  }

  /** Refuses every move whose source or destination is in the comment
      namespace, marking the status as failed; otherwise the status is left
      alone and other hooks run. */
  method OnMovePageIsValidMove(oldTitle: Title, newTitle: Title, status: Status, nsCommentStreams: int)
    returns (continueHooks: bool)
    modifies status
    ensures continueHooks <==> oldTitle.ns != nsCommentStreams && newTitle.ns != nsCommentStreams
    ensures !continueHooks ==> !status.ok
    ensures continueHooks ==> status.ok == old(status.ok)
  {
    if oldTitle.ns == nsCommentStreams || newTitle.ns == nsCommentStreams {
      status.ok := false;
      return false;
    }
    return true;
  }

  /** An existing wiki page as far as authorship goes: the user of its
      oldest revision and the users of the later revisions. */
  datatype WikiPage = WikiPage(oldestRevisionUser: int, laterRevisionUsers: seq<int>)

  /** What the userCan hook says about an action: nothing (other hooks and
      the permission system decide), an explicit allowance, or a denial. */
  datatype Opinion = NoOpinion | Allow | Deny

  /** The userCan decision for `user` performing `action` on `title`, where
      `pages` maps the title of every existing page to its revisions. Only
      the 'edit' action on comment pages is judged; an existing comment page
      may be edited only by the author of its oldest revision. */
  function EditOpinion(title: Title, user: User, action: string, pages: map<Title, WikiPage>, nsCommentStreams: int): (o: Opinion)
    ensures o == NoOpinion <==> action != "edit" || title.ns != nsCommentStreams
    ensures o == Deny <==>
      action == "edit" && title.ns == nsCommentStreams && title in pages && user.id != pages[title].oldestRevisionUser
    ensures o == Allow ==> title !in pages || user.id == pages[title].oldestRevisionUser
  {
    if action != "edit" then NoOpinion
    else if title.ns != nsCommentStreams then NoOpinion
    else if title !in pages then Allow
    else if user.id != pages[title].oldestRevisionUser then Deny
    else Allow
  }

  /** The userCan hook: `result` is the by-reference verdict, which the hook
      sets to false only when it denies; the returned flag is false exactly
      then (stop running other hooks). */
  method UserCan(title: Title, user: User, action: string, result: bool, pages: map<Title, WikiPage>, nsCommentStreams: int)
    returns (continueHooks: bool, result': bool)
    ensures continueHooks <==> EditOpinion(title, user, action, pages, nsCommentStreams) != Deny
    ensures result' == if continueHooks then result else false
  {
    result' := result;
    if action != "edit" {
      return true, result';
    }
    if title.ns != nsCommentStreams {
      return true, result';
    }
    if title !in pages {
      return true, result';
    }
    if user.id != pages[title].oldestRevisionUser {
      result' := false;
      return false, result';
    }
    return true, result';
  }

  /** A page after one more revision by `editor`. */
  function AddRevision(page: WikiPage, editor: int): (p: WikiPage)
    ensures p.oldestRevisionUser == page.oldestRevisionUser
  {
    page.(laterRevisionUsers := page.laterRevisionUsers + [editor])
  }

  /** Later revisions, by anyone, never change who may edit a comment page:
      authorship is that of the oldest revision. This records a frame fact
      of `EditOpinion`, which reads only the oldest revision's user; it
      holds by construction and needs no proof steps. */
  lemma LaterRevisionsKeepAuthorship(title: Title, user: User, action: string, pages: map<Title, WikiPage>,
                                     nsCommentStreams: int, editor: int)
    requires title in pages
    ensures EditOpinion(title, user, action, pages[title := AddRevision(pages[title], editor)], nsCommentStreams)
         == EditOpinion(title, user, action, pages, nsCommentStreams)
  {
  }

  /** The <no-comment-streams/> tag: renders as nothing and turns comments
      off for the page being rendered. */
  method HideCommentStreams(cs: Streams.CommentStreams) returns (output: string)
    modifies cs
    ensures output == ""
    ensures cs.noCommentStreams
    ensures forall page, cfg :: !cs.CheckDisplayComments(page, cfg)
  {
    cs.DisableCommentsOnPage();
    output := "";
  }
}
