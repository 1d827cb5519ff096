/** The parts of the host wiki that the extension relies on: namespace
    numbering, titles, users, and the comment record kept by the comment
    store. These are MediaWiki's own rules, restated so that the extension's
    logic can be stated over them. */
module Host {
  import opened Wrappers

  /** MediaWiki's main (article) namespace. */
  const NS_MAIN: int := 0

  /** MediaWiki numbers every subject namespace with an even index >= 0 and
      its talk namespace with the next (odd) index; namespaces below zero
      (Special, Media) have no talk namespace. */
  predicate IsTalk(ns: int) {
    ns > NS_MAIN && ns % 2 == 1
  }

  /** The subject namespace of a namespace: a talk namespace maps to the
      namespace just below it, every other namespace to itself. */
  function GetSubject(ns: int): (s: int)
    ensures !IsTalk(s)
    ensures IsTalk(ns) ==> s == ns - 1
    ensures !IsTalk(ns) ==> s == ns
  {
    if ns < NS_MAIN then ns
    else if IsTalk(ns) then ns - 1
    else ns
  }

  /** A page title: its namespace index and its database key. */
  datatype Title = Title(ns: int, dbKey: string)

  /** A user: the numeric user id (0 for anonymous users) and the rights the
      permission manager grants. */
  datatype User = User(id: int, rights: set<string>)

  predicate UserHasRight(u: User, right: string) {
    right in u.rights
  }

  /** A comment as the comment store returns it. Every comment is itself a
      wiki page; `id` is that page's id. `parentId` is None for a discussion
      (a top-level comment) and the id of the parent comment for a reply.
      `timestamp` is the creation time of the comment page. */
  datatype Comment = Comment(
    id: int,
    associatedPageId: int,
    parentId: Option<int>,
    authorId: int,
    timestamp: int,
    commentTitle: Option<string>,
    wikitext: string)
}
