// POST /api/folders/create: add a folder row for the caller, as the code
// is written: its parent lookup compares the row id with both the parent id
// and the caller's user id, a created folder is answered with status 400,
// and a thrown error ends in an empty catch block that returns nothing.

module FolderCreateRoute {
  import opened Js
  import opened Schema
  import opened Http

  /** The destructured JSON body. `parentId` is `None` when the key is
      absent (the `= null` default) or null. */
  datatype FolderBody = FolderBody(name: JsValue, userId: JsValue, parentId: Option<string>)

  /** The reply, and the values handed to `db.insert` (if any), and the table after. */
  datatype Outcome = Outcome(response: Response, insert: Option<NewFile>, files: seq<FileRecord>)

  const Unauthorized := Error(401, "unauthorized")
  const NameRequired := Error(400, "folder name is required")
  const ParentNotFound := Error(404, "Parent folder not found")
  const CreatedMessage := "folder created successfully"

  /** `!name || typeof name !== "string" || name.trim() === ""` fails. */
  predicate ValidName(name: JsValue)
  {
    name.Str? && name.s != "" && Trim(name.s) != ""
  }

  /** A valid name is a string with a non-white-space character. */
  lemma ValidNameIffNotBlank(name: JsValue)
    ensures ValidName(name) <==> name.Str? && !AllSpace(name.s)
  {
    if name.Str? {
      TrimEmptyIffAllSpace(name.s);
    }
  }

  /** The parent query as written: `files.id = parentId AND files.id = userId
      AND files.is_folder`. The owner column is never compared. */
  predicate ParentRowFound(files: seq<FileRecord>, parentId: string, userId: string)
  {
    exists k :: 0 <= k < |files| && files[k].id == parentId && files[k].id == userId && files[k].isFolder
  }

  /** The `folderData` object. */
  function FolderValues(id: string, name: string, userId: string, pathUuid: string, parentId: Option<string>): NewFile
  {
    NewFile(id, Trim(name), "/folder/" + userId + "/" + pathUuid, 0, "folder", "", None, None,
            userId, parentId, true, false, false)
  }

  /** The whole handler. `body == None` means `request.json()` threw (or the
      body is JSON null, which cannot be destructured): the empty catch block
      answers nothing. `folderId` and `pathUuid` are the two `uuidv4()` values. */
  function Create(files: seq<FileRecord>, auth: Option<string>, body: Option<FolderBody>,
                  folderId: string, pathUuid: string): (o: Outcome)
    // The checks, in order.
    ensures !Authenticated(auth) ==> o.response == Unauthorized
    ensures Authenticated(auth) && body.None? ==> o.response == NoResponse
    ensures Authenticated(auth) && body.Some? && body.value.userId != Str(auth.value) ==> o.response == Unauthorized
    ensures Authenticated(auth) && body.Some? && body.value.userId == Str(auth.value) && !ValidName(body.value.name) ==>
      o.response == NameRequired
    ensures Authenticated(auth) && body.Some? && body.value.userId == Str(auth.value) && ValidName(body.value.name)
            && body.value.parentId.Some? && body.value.parentId.value != ""
            && !ParentRowFound(files, body.value.parentId.value, auth.value) ==>
      o.response == ParentNotFound
    // Nothing is inserted unless every check passed.
    ensures o.insert.Some? <==>
      && Authenticated(auth) && body.Some? && body.value.userId == Str(auth.value) && ValidName(body.value.name)
      && (body.value.parentId.Some? && body.value.parentId.value != "" ==>
            ParentRowFound(files, body.value.parentId.value, auth.value))
    ensures o.insert.None? ==> o.files == files
    // The folder row: trimmed name, empty content, no ImageKit data, the raw parent id.
    ensures o.insert.Some? ==>
      var v := o.insert.value;
      && v.id == folderId && v.name == Trim(body.value.name.s) && v.name != ""
      && v.path == "/folder/" + auth.value + "/" + pathUuid
      && v.size == 0 && v.fileType == "folder" && v.fileUrl == ""
      && v.thumbnailUrl.None? && v.imagekitFileId.None?
      && v.userId == auth.value && v.parentId == body.value.parentId
      && v.isFolder && !v.isStarred && !v.isTrash
    // A created folder is reported with status 400; a failed insert answers nothing.
    ensures o.insert.Some? && InsertInto(files, o.insert.value).Some? ==>
      && o.files == files + [Row(o.insert.value)]
      && o.response == Reply(400, FolderCreated(CreatedMessage, Row(o.insert.value)))
    ensures o.insert.Some? && InsertInto(files, o.insert.value).None? ==>
      o.files == files && o.response == NoResponse
    // No reply of this handler has a success status.
    ensures !IsOk(o.response)
  {
    if !Authenticated(auth) then Outcome(Unauthorized, None, files)
    else if body.None? then Outcome(NoResponse, None, files)
    else
      var userId := auth.value;
      var b := body.value;
      if b.userId != Str(userId) then Outcome(Unauthorized, None, files)
      else if !ValidName(b.name) then Outcome(NameRequired, None, files)
      else if b.parentId.Some? && b.parentId.value != "" && !ParentRowFound(files, b.parentId.value, userId) then
        Outcome(ParentNotFound, None, files)
      else
        var values := FolderValues(folderId, b.name.s, userId, pathUuid, b.parentId);
        assert values.name != "" by { TrimEmptyIffAllSpace(b.name.s); }
        match InsertInto(files, values)
        case None => Outcome(NoResponse, Some(values), files)
        case Some(after) => Outcome(Reply(400, FolderCreated(CreatedMessage, Row(values))), Some(values), after)
  }

  /** The handler against the shared database. */
  method Post(db: Database, auth: Option<string>, body: Option<FolderBody>, folderId: string, pathUuid: string)
    returns (response: Response)
    requires db.Valid()
    modifies db
    ensures db.Valid()
    ensures var o := Create(old(db.files), auth, body, folderId, pathUuid);
      response == o.response && db.files == o.files
  {
    if !Authenticated(auth) {
      return Unauthorized;
    }
    if body.None? {
      return NoResponse;
    }
    var userId := auth.value;
    var b := body.value;
    if b.userId != Str(userId) {
      return Unauthorized;
    }
    if !ValidName(b.name) {
      return NameRequired;
    }
    if b.parentId.Some? && b.parentId.value != "" && !ParentRowFound(db.files, b.parentId.value, userId) {
      return ParentNotFound;
    }
    var row := db.Insert(FolderValues(folderId, b.name.s, userId, pathUuid, b.parentId));
    if row.Some? {
      response := Reply(400, FolderCreated(CreatedMessage, row.value));
    } else {
      response := NoResponse;
    }
  }

  /** Because the query compares the row id with the caller's id, a parent
      whose id differs from the caller's user id is never found, however the
      table looks: every such request that gets that far is a 404. */
  lemma ParentMustEqualUserId(files: seq<FileRecord>, userId: string, name: string, parentId: string,
                              folderId: string, pathUuid: string)
    requires userId != "" && !AllSpace(name)
    requires parentId != "" && parentId != userId
    ensures var body := FolderBody(Str(name), Str(userId), Some(parentId));
      var o := Create(files, Some(userId), Some(body), folderId, pathUuid);
      o.response == ParentNotFound && o.files == files
  {
    ValidNameIffNotBlank(Str(name));
  }

  /** The caller's own folder is rejected as a parent. */
  lemma OwnFolderRejectedAsParent()
    ensures var folder := FileRecord("f1", "Docs", 0, "folder", "", None, None, "u1", None, true, false, false);
      var body := FolderBody(Str("Sub"), Str("u1"), Some("f1"));
      Create([folder], Some("u1"), Some(body), "f2", "p2").response == ParentNotFound
  {
    assert !AllSpace("Sub") by {
      assert !IsJsSpace("Sub"[0]);
    }
    ParentMustEqualUserId([FileRecord("f1", "Docs", 0, "folder", "", None, None, "u1", None, true, false, false)],
                          "u1", "Sub", "f1", "f2", "p2");
  }

  /** The owner column is not compared: a folder of another user whose id
      equals the caller's user id is accepted, and the new row then hangs
      under a folder that is not the caller's. */
  lemma ForeignParentAccepted()
    ensures var foreign := FileRecord("u1", "Theirs", 0, "folder", "", None, None, "u2", None, true, false, false);
      var body := FolderBody(Str("Mine"), Str("u1"), Some("u1"));
      var o := Create([foreign], Some("u1"), Some(body), "f2", "p2");
      && ParentsAreOwnedFolders([foreign])
      && o.insert.Some?
      && o.files == [foreign, Row(o.insert.value)]
      && !ParentsAreOwnedFolders(o.files)
  {
    var foreign := FileRecord("u1", "Theirs", 0, "folder", "", None, None, "u2", None, true, false, false);
    var body := FolderBody(Str("Mine"), Str("u1"), Some("u1"));
    assert ParentRowFound([foreign], "u1", "u1") by {
      assert [foreign][0].id == "u1";
    }
    assert !AllSpace("Mine") by {
      assert !IsJsSpace("Mine"[0]);
    }
    ValidNameIffNotBlank(Str("Mine"));
    var o := Create([foreign], Some("u1"), Some(body), "f2", "p2");
    assert !IdTaken([foreign], "f2");
    var row := Row(o.insert.value);
    assert o.files == [foreign, row];
    assert !HasFolder(o.files, "u1", "u1") by {
      assert o.files[0].userId == "u2";
      assert o.files[1].id == "f2";
    }
    assert o.files[1].parentId == Some("u1");
  }

  /** There is no check on sibling names: the same request made twice with
      fresh uuids appends two folders with the same name and parent. */
  lemma SameNameTwice(files: seq<FileRecord>, auth: Option<string>, body: Option<FolderBody>,
                      id1: string, path1: string, id2: string, path2: string)
    requires Create(files, auth, body, id1, path1).insert.Some?
    requires InsertInto(files, Create(files, auth, body, id1, path1).insert.value).Some?
    requires id1 != id2 && !IdTaken(files, id2)
    ensures var first := Create(files, auth, body, id1, path1);
      var second := Create(first.files, auth, body, id2, path2);
      && |second.files| == |files| + 2
      && second.files[|files|].name == second.files[|files| + 1].name
      && second.files[|files|].parentId == second.files[|files| + 1].parentId
      && second.files[|files|].id != second.files[|files| + 1].id
  {
    var first := Create(files, auth, body, id1, path1);
    var b := body.value;
    if b.parentId.Some? && b.parentId.value != "" {
      var k :| 0 <= k < |files| && files[k].id == b.parentId.value && files[k].id == auth.value && files[k].isFolder;
      assert first.files[k] == files[k];
    }
    assert !IdTaken(first.files, id2) by {
      assert first.files == files + [Row(first.insert.value)];
    }
  }
}
