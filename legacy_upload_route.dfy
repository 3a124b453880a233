// POST /api/upload: record a file the client already uploaded to ImageKit,
// from the metadata the client sends, defaulting every falsy field.

module LegacyUploadRoute {
  import opened Js
  import opened Schema
  import opened Http

  /** The `imagekit` object of the body, field by field. */
  datatype ImageKitMeta = ImageKitMeta(
    name: JsText,
    filePath: JsText,
    size: JsNumber,
    fileType: JsText,
    url: JsText,
    fileId: JsText,
    thumbnailUrl: JsText)

  /** The destructured body. `imagekit` is `None` when it is absent, null,
      or not an object (so that it has no `url`). */
  datatype LegacyBody = LegacyBody(imagekit: Option<ImageKitMeta>, userId: JsValue)

  datatype Outcome = Outcome(response: Response, insert: Option<NewFile>, files: seq<FileRecord>)

  const Unauthorized := Error(401, "unauthorized")
  const InvalidData := Error(403, "invalid file upload data")
  const SaveFailed := Error(403, "failed to save info data to database")

  /** `v || d` for a text field. */
  function TextOr(v: JsText, d: string): (r: string)
    ensures Truthy(v) ==> r == v.s && r != ""
    ensures !Truthy(v) ==> r == d
  {
    if Truthy(v) then v.s else d
  }

  /** `v || null` for a text field. */
  function TextOrNull(v: JsText): (r: Option<string>)
    ensures r.Some? <==> Truthy(v)
    ensures r.Some? ==> r.value == v.s && r.value != ""
  {
    if Truthy(v) then Some(v.s) else None
  }

  /** A text field stored as it is: undefined and null become SQL null. */
  function Nullable(v: JsText): (r: Option<string>)
    ensures r.Some? <==> v.Str?
    ensures r.Some? ==> r.value == v.s
  {
    if v.Str? then Some(v.s) else None
  }

  /** The `fileData` object; `url` is known to be a non-empty string. */
  function MetaValues(m: ImageKitMeta, id: string, userId: string): NewFile
    requires Truthy(m.url)
  {
    NewFile(id,
            TextOr(m.name, "untitled"),
            TextOr(m.filePath, "/storex/" + userId + "/" + Interpolate(m.name)),
            if Truthy(m.size) then m.size.n else 0,
            TextOr(m.fileType, "image"),
            m.url.s,
            TextOrNull(m.thumbnailUrl),
            Nullable(m.fileId),
            userId, None, false, false, false)
  }

  /** The handler. `body == None` means `request.json()` threw, which the
      catch block answers with 403; `generatedId` is the id the table's random
      default gives the row. */
  function Save(files: seq<FileRecord>, auth: Option<string>, body: Option<LegacyBody>, generatedId: string): (o: Outcome)
    // The checks, in order.
    ensures !Authenticated(auth) ==> o.response == Unauthorized
    ensures Authenticated(auth) && body.None? ==> o.response == SaveFailed
    ensures Authenticated(auth) && body.Some? && body.value.userId != Str(auth.value) ==> o.response == Unauthorized
    ensures Authenticated(auth) && body.Some? && body.value.userId == Str(auth.value)
            && (body.value.imagekit.None? || !Truthy(body.value.imagekit.value.url)) ==>
      o.response == InvalidData
    // Something is inserted exactly when every check passed.
    ensures o.insert.Some? <==>
      && Authenticated(auth) && body.Some? && body.value.userId == Str(auth.value)
      && body.value.imagekit.Some? && Truthy(body.value.imagekit.value.url)
    ensures o.insert.None? ==> o.files == files
    // The row: falsy fields defaulted, always a root-level non-folder of the caller.
    ensures o.insert.Some? ==>
      var m := body.value.imagekit.value;
      var v := o.insert.value;
      && v.id == generatedId
      && v.name == (if Truthy(m.name) then m.name.s else "untitled")
      && v.path == (if Truthy(m.filePath) then m.filePath.s else "/storex/" + auth.value + "/" + Interpolate(m.name))
      && v.size == (if m.size.Num? then m.size.n else 0)
      && v.fileType == (if Truthy(m.fileType) then m.fileType.s else "image")
      && v.fileUrl == m.url.s && v.fileUrl != ""
      && v.thumbnailUrl == (if Truthy(m.thumbnailUrl) then Some(m.thumbnailUrl.s) else None)
      && v.imagekitFileId == (if m.fileId.Str? then Some(m.fileId.s) else None)
      && v.userId == auth.value && v.parentId.None?
      && !v.isFolder && !v.isStarred && !v.isTrash
    // Success appends exactly that row; a failed insert is a 403.
    ensures IsOk(o.response) <==> o.insert.Some? && InsertInto(files, o.insert.value).Some?
    ensures IsOk(o.response) ==>
      o.files == files + [Row(o.insert.value)] && o.response == Reply(200, NewFileBody(Row(o.insert.value)))
    ensures !IsOk(o.response) ==> o.files == files
    ensures o.insert.Some? && !IsOk(o.response) ==> o.response == SaveFailed
  {
    if !Authenticated(auth) then Outcome(Unauthorized, None, files)
    else if body.None? then Outcome(SaveFailed, None, files)
    else
      var userId := auth.value;
      var b := body.value;
      if b.userId != Str(userId) then Outcome(Unauthorized, None, files)
      else if b.imagekit.None? || !Truthy(b.imagekit.value.url) then Outcome(InvalidData, None, files)
      else
        var values := MetaValues(b.imagekit.value, generatedId, userId);
        match InsertInto(files, values)
        case None => Outcome(SaveFailed, Some(values), files)
        case Some(after) => Outcome(Reply(200, NewFileBody(Row(values))), Some(values), after)
  }

  /** The handler against the shared database. */
  method Post(db: Database, auth: Option<string>, body: Option<LegacyBody>, generatedId: string)
    returns (response: Response)
    requires db.Valid()
    modifies db
    ensures db.Valid()
    ensures var o := Save(old(db.files), auth, body, generatedId);
      response == o.response && db.files == o.files
  {
    if !Authenticated(auth) {
      return Unauthorized;
    }
    if body.None? {
      return SaveFailed;
    }
    var userId := auth.value;
    var b := body.value;
    if b.userId != Str(userId) {
      return Unauthorized;
    }
    if b.imagekit.None? || !Truthy(b.imagekit.value.url) {
      return InvalidData;
    }
    var row := db.Insert(MetaValues(b.imagekit.value, generatedId, userId));
    if row.Some? {
      response := Reply(200, NewFileBody(row.value));
    } else {
      response := SaveFailed;
    }
  }

  /** A client-supplied size outside PostgreSQL's `integer` range makes the
      insert throw, which the route reports as 403. */
  lemma OversizedMetadataRejected(files: seq<FileRecord>, userId: string, m: ImageKitMeta, generatedId: string)
    requires userId != "" && Truthy(m.url)
    requires m.size == Num(0x8000_0000)
    ensures var o := Save(files, Some(userId), Some(LegacyBody(Some(m), Str(userId))), generatedId);
      o.response == SaveFailed && o.files == files
  {
  }

  /** With every optional field absent, the path names the literal text
      "undefined". */
  lemma AbsentNameInPath(userId: string, url: string, generatedId: string)
    requires userId != "" && url != ""
    ensures var m := ImageKitMeta(Undefined, Undefined, Undefined, Undefined, Str(url), Undefined, Undefined);
      var v := MetaValues(m, generatedId, userId);
      v.name == "untitled" && v.path == "/storex/" + userId + "/undefined" && v.size == 0 && v.fileType == "image"
  {
  }

  /** The legacy route keeps the tree shape: its rows are always at the root. */
  lemma SaveKeepsParentsOwnedFolders(files: seq<FileRecord>, auth: Option<string>, body: Option<LegacyBody>, generatedId: string)
    requires ParentsAreOwnedFolders(files)
    ensures ParentsAreOwnedFolders(Save(files, auth, body, generatedId).files)
  {
    var o := Save(files, auth, body, generatedId);
    if IsOk(o.response) {
      forall k | 0 <= k < |o.files| && o.files[k].parentId.Some?
        ensures HasFolder(o.files, o.files[k].userId, o.files[k].parentId.value)
      {
        assert k < |files|;
        var r := files[k];
        var j :| 0 <= j < |files| && files[j].id == r.parentId.value && files[j].userId == r.userId && files[j].isFolder;
        assert o.files[j] == files[j];
      }
    }
  }
}
