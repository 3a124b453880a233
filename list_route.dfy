// GET /api/files: the caller's rows directly under one folder, or at the
// root when no folder is named. It only reads the table.

module ListRoute {
  import opened Js
  import opened Schema
  import opened Http

  /** The query string; `None` is an absent parameter. */
  datatype ListQuery = ListQuery(userId: Option<string>, parentId: Option<string>)

  const Unauthorized := Error(401, "unauthorized")

  /** `select ... where user_id = userId and parent_id = p` (or `parent_id is
      null` when `parentId` is `None`), in table order. */
  function SelectOwnedUnder(files: seq<FileRecord>, userId: string, parentId: Option<string>): (rows: seq<FileRecord>)
    ensures forall r :: r in rows <==> r in files && r.userId == userId && r.parentId == parentId
    ensures |rows| <= |files|
    decreases |files|
  {
    if |files| == 0 then []
    else
      var rest := SelectOwnedUnder(files[1..], userId, parentId);
      if files[0].userId == userId && files[0].parentId == parentId then [files[0]] + rest else rest
  }

  /** The parent a request lists: the `parentId` parameter when it is
      non-empty, the root otherwise. */
  function ListedParent(q: ListQuery): (p: Option<string>)
    ensures p.Some? <==> q.parentId.Some? && q.parentId.value != ""
    ensures p.Some? ==> p == q.parentId
  {
    if q.parentId.Some? && q.parentId.value != "" then q.parentId else None
  }

  /** The handler. It never changes the table, so it is a function of it. */
  function List(files: seq<FileRecord>, auth: Option<string>, q: ListQuery): (r: Response)
    ensures !Authenticated(auth) || q.userId != auth ==> r == Unauthorized
    ensures Authenticated(auth) && q.userId == auth ==> r.Reply? && r.status == 200 && r.body.FileList?
    ensures r.Reply? && r.body.FileList? ==>
      && Authenticated(auth) && q.userId == auth
      && (forall row :: row in r.body.files <==>
            row in files && row.userId == auth.value && row.parentId == ListedParent(q))
  {
    if !Authenticated(auth) then Unauthorized
    else if q.userId.None? || q.userId.value == "" || q.userId != auth then Unauthorized
    else Reply(200, FileList(SelectOwnedUnder(files, auth.value, ListedParent(q))))
  }

  /** No listing ever shows a row of another user. */
  lemma ListIsolatesOwners(files: seq<FileRecord>, auth: Option<string>, q: ListQuery, row: FileRecord)
    requires List(files, auth, q).Reply? && List(files, auth, q).body.FileList?
    requires row in List(files, auth, q).body.files
    ensures auth.Some? && row.userId == auth.value
  {
  }

  /** Trash is not filtered, and a parent that does not exist is an empty
      listing rather than an error. */
  lemma ListKeepsTrashAndUnknownParents(files: seq<FileRecord>, userId: string, parentId: string)
    requires userId != "" && parentId != ""
    ensures var r := List(files, Some(userId), ListQuery(Some(userId), Some(parentId)));
      && r.Reply? && r.status == 200
      && (forall row :: row in files && row.userId == userId && row.parentId == Some(parentId) && row.isTrash ==>
            row in r.body.files)
      && (!IdTaken(files, parentId) && (forall k :: 0 <= k < |files| ==> files[k].parentId != Some(parentId)) ==>
            r.body.files == [])
  {
    if forall k :: 0 <= k < |files| ==> files[k].parentId != Some(parentId) {
      NothingUnderSelectsNothing(files, userId, parentId);
    }
  }

  lemma {:induction false} NothingUnderSelectsNothing(files: seq<FileRecord>, userId: string, parentId: string)
    requires forall k :: 0 <= k < |files| ==> files[k].parentId != Some(parentId)
    ensures SelectOwnedUnder(files, userId, Some(parentId)) == []
    decreases |files|
  {
    if |files| > 0 {
      assert forall k :: 0 <= k < |files| - 1 ==> files[1..][k] == files[k + 1];
      NothingUnderSelectsNothing(files[1..], userId, parentId);
    }
  }

  /** A listing with a folder is that folder's children, narrowed to the caller. */
  lemma ListIsOwnedChildren(files: seq<FileRecord>, userId: string, parentId: string)
    requires userId != "" && parentId != ""
    ensures var r := List(files, Some(userId), ListQuery(Some(userId), Some(parentId)));
      forall row :: row in r.body.files <==> row in ChildrenOf(files, parentId) && row.userId == userId
  {
  }
}
