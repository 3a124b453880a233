// POST /api/files/upload: store one image or PDF in ImageKit under the
// caller's folder, then record it in the `files` table.

module UploadRoute {
  import opened Js
  import opened Schema
  import opened Http

  /** The parts of a browser `File` the handler reads; the bytes are not modelled. */
  datatype File = File(name: string, fileType: string, size: nat)

  /** `formData.get("file")`: absent (null), a plain text entry, or a file. */
  datatype FormEntry = Missing | TextEntry(text: string) | FileEntry(file: File)

  /** The multipart form; `None` for `userId` or `parentId` is an absent field. */
  datatype UploadForm = UploadForm(file: FormEntry, userId: Option<string>, parentId: Option<string>)

  /** The arguments of `imagekit.upload` the model keeps (the bytes are left
      out; `useUniqueFileName` is always false). */
  datatype UploadCall = UploadCall(fileName: string, folder: string)

  /** What `imagekit.upload` did: resolved with a stored path and URLs, or
      rejected with a value that may or may not be an `Error`. */
  datatype ImageKitReply =
    | Uploaded(filePath: string, url: string, thumbnailUrl: Option<string>)
    | Rejected(isError: bool, message: string)

  /** What passed validation: the caller, the file and the normalised parent. */
  datatype Checked = Checked(userId: string, file: File, parentId: Option<string>)

  /** Everything a request leaves behind: the reply, the upload call made (if
      any), the values handed to `db.insert` (if any) and the table after. */
  datatype Outcome = Outcome(
    response: Response,
    call: Option<UploadCall>,
    insert: Option<NewFile>,
    files: seq<FileRecord>)

  const Unauthorized := Error(401, "Unauthorized")
  const FileRequired := Error(400, "File is required")
  const UnsupportedType := Error(400, "Only images and PDF files are supported")
  const ParentNotFound := Error(404, "Parent folder not found")
  const ServiceUnavailable := Error(503, "File upload service error")
  const UploadFailed := Error(500, "Failed to upload file")

  /** `(formData.get("parentId") as string) || null`: an empty field is no parent. */
  function FormParent(p: Option<string>): (r: Option<string>)
    ensures r.None? <==> p.None? || p == Some("")
    ensures r.Some? ==> r == p && r.value != ""
  {
    if p.Some? && p.value != "" then p else None
  }

  /** The MIME allow-list. */
  predicate AllowedType(t: string)
  {
    StartsWith(t, "image/") || t == "application/pdf"
  }

  /** The early-return chain, in source order: identity, form parsing, form
      `userId`, file presence, file type, parent folder. `form == None` means
      `request.formData()` threw; a non-empty text entry for `file` has no
      `type`, so reading it throws; both land in the catch block as 500. */
  function Validate(files: seq<FileRecord>, auth: Option<string>, form: Option<UploadForm>): (r: Guard<Checked>)
    ensures !Authenticated(auth) ==> r == Stop(Unauthorized)
    ensures Authenticated(auth) && form.None? ==> r == Stop(UploadFailed)
    ensures Authenticated(auth) && form.Some? && form.value.userId != auth ==> r == Stop(Unauthorized)
    ensures Authenticated(auth) && form.Some? && form.value.userId == auth ==>
      var f := form.value.file;
      && (f.Missing? || f == TextEntry("") ==> r == Stop(FileRequired))
      && (f.TextEntry? && f.text != "" ==> r == Stop(UploadFailed))
      && (f.FileEntry? && !AllowedType(f.file.fileType) ==> r == Stop(UnsupportedType))
    ensures r.Continue? <==>
      && Authenticated(auth) && form.Some? && form.value.userId == auth
      && form.value.file.FileEntry? && AllowedType(form.value.file.file.fileType)
      && (FormParent(form.value.parentId).Some? ==> HasFolder(files, auth.value, form.value.parentId.value))
    ensures r.Continue? ==>
      && r.value.userId == auth.value
      && r.value.file == form.value.file.file
      && r.value.parentId == FormParent(form.value.parentId)
    ensures Authenticated(auth) && form.Some? && form.value.userId == auth
            && form.value.file.FileEntry? && AllowedType(form.value.file.file.fileType)
            && FormParent(form.value.parentId).Some? && !HasFolder(files, auth.value, form.value.parentId.value) ==>
      r == Stop(ParentNotFound)
    ensures r.Stop? && r.response == ParentNotFound ==>
      FormParent(form.value.parentId).Some? && !HasFolder(files, auth.value, form.value.parentId.value)
  {
    if !Authenticated(auth) then Stop(Unauthorized)
    else if form.None? then Stop(UploadFailed)
    else
      var userId := auth.value;
      var fields := form.value;
      var parentId := FormParent(fields.parentId);
      if fields.userId != Some(userId) then Stop(Unauthorized)
      else match fields.file
        case Missing => Stop(FileRequired)
        case TextEntry(text) => if text == "" then Stop(FileRequired) else Stop(UploadFailed)
        case FileEntry(file) =>
          if !AllowedType(file.fileType) then Stop(UnsupportedType)
          else if parentId.Some? && !HasFolder(files, userId, parentId.value) then Stop(ParentNotFound)
          else Continue(Checked(userId, file, parentId))
  }

  /** `originalFileName.split(".").pop() || ""` */
  function Extension(name: string): string
  {
    LastPiece(name, '.')
  }

  /** The ImageKit folder: per user, and per parent folder when there is one. */
  function FolderPath(userId: string, parentId: Option<string>): (path: string)
    ensures StartsWith(path, "/storex/" + userId)
    ensures parentId.None? <==> |path| == |"/storex/" + userId|
    ensures parentId.Some? ==> |parentId.value| < |path| && path[|path| - |parentId.value|..] == parentId.value
  {
    if parentId.Some? then "/storex/" + userId + "/folder/" + parentId.value else "/storex/" + userId
  }

  /** `${uuidv4()}.${fileExtension}` */
  function StoredFileName(uuid: string, originalName: string): (stored: string)
    ensures StartsWith(stored, uuid + ".")
    ensures stored[|uuid| + 1..] == Extension(originalName)
  {
    uuid + "." + Extension(originalName)
  }

  /** The generated name is the uuid, a dot and the text after the original
      name's last dot (the whole name when it has none). */
  lemma StoredFileNameShape(uuid: string, originalName: string)
    ensures var stored := StoredFileName(uuid, originalName);
      var ext := stored[|uuid| + 1..];
      && StartsWith(stored, uuid + ".")
      && '.' !in ext
      && |ext| <= |originalName| && originalName[|originalName| - |ext|..] == ext
      && ('.' !in originalName ==> ext == originalName)
      && ('.' in originalName ==> |ext| < |originalName| && originalName[|originalName| - |ext| - 1] == '.')
  {
    LastPieceIsTextAfterLastSeparator(originalName, '.');
    var stored := StoredFileName(uuid, originalName);
    assert stored[..|uuid| + 1] == uuid + ".";
    assert stored[|uuid| + 1..] == Extension(originalName);
  }

  /** Only the last dot counts. */
  lemma StoredFileNameTwoDots()
    ensures StoredFileName("u1", "a.b.pdf") == "u1.pdf"
  {
    var pdf := Split("pdf", '.');
    SplitSingle("pdf", '.');
    assert pdf == ["pdf"] by { SplitJoin("pdf", '.'); }
    assert "a.b.pdf" == ['a'] + (['.'] + (['b'] + (['.'] + "pdf")));
    SplitCons('.', "pdf", '.');
    SplitCons('b', ".pdf", '.');
    SplitCons('.', "b.pdf", '.');
    SplitCons('a', ".b.pdf", '.');
  }

  /** A name ending in a dot gets an empty extension. */
  lemma StoredFileNameTrailingDot()
    ensures StoredFileName("u1", "scan.") == "u1."
  {
    SplitSingle("scan", '.');
    SplitCons('.', "", '.');
    assert "scan." == ['s'] + (['c'] + (['a'] + (['n'] + ".")));
    SplitCons('n', ".", '.');
    SplitCons('a', "n.", '.');
    SplitCons('c', "an.", '.');
    SplitCons('s', "can.", '.');
  }

  /** `thumbnailUrl || null` */
  function OrNull(s: Option<string>): (r: Option<string>)
    ensures r != Some("")
    ensures r.Some? ==> r == s
    ensures r.None? <==> s.None? || s == Some("")
  {
    if s == Some("") then None else s
  }

  /** The `fileData` object: original name, the uploaded path and URLs, and
      the flags cleared. `imagekitFileId` is not among its keys. */
  function FileValues(c: Checked, id: string, filePath: string, url: string, thumbnailUrl: Option<string>): NewFile
  {
    NewFile(id, c.file.name, filePath, c.file.size, c.file.fileType, url, OrNull(thumbnailUrl),
            None, c.userId, c.parentId, false, false, false)
  }

  /** The catch block: an `Error` whose message mentions ImageKit is a 503,
      anything else a 500. */
  function RejectionResponse(isError: bool, message: string): (r: Response)
    ensures r == ServiceUnavailable <==> isError && Contains(message, "ImageKit")
    ensures r == ServiceUnavailable || r == UploadFailed
  {
    if isError && Contains(message, "ImageKit") then ServiceUnavailable else UploadFailed
  }

  /** The whole handler as a function of the table before the request.
      `generatedId` is the id the table's random default gives the row;
      `fileUuid` is the value of `uuidv4()`; `service` is what ImageKit did. */
  function Upload(files: seq<FileRecord>, auth: Option<string>, form: Option<UploadForm>,
                  generatedId: string, fileUuid: string, service: ImageKitReply): (o: Outcome)
    // ImageKit is called exactly when validation passes, with the derived name and folder.
    ensures o.call.Some? <==> Validate(files, auth, form).Continue?
    ensures o.call.None? ==> o.response == Validate(files, auth, form).response && o.insert.None? && o.files == files
    ensures o.call.Some? ==>
      var c := Validate(files, auth, form).value;
      o.call.value == UploadCall(StoredFileName(fileUuid, c.file.name), FolderPath(c.userId, c.parentId))
    // The insert comes after a successful upload, and only then.
    ensures o.insert.Some? <==> o.call.Some? && service.Uploaded?
    ensures service.Rejected? ==> o.files == files
    ensures service.Rejected? && o.call.Some? ==> o.response == RejectionResponse(service.isError, service.message)
    // The row written: original name, the file's size and type, the returned URLs, no ImageKit id.
    ensures o.insert.Some? ==>
      var v := o.insert.value;
      var c := Validate(files, auth, form).value;
      && v.id == generatedId && v.name == c.file.name && v.path == service.filePath
      && v.size == c.file.size && v.fileType == c.file.fileType
      && v.fileUrl == service.url && v.thumbnailUrl == OrNull(service.thumbnailUrl)
      && v.imagekitFileId.None? && v.userId == auth.value && v.parentId == FormParent(form.value.parentId)
      && !v.isFolder && !v.isStarred && !v.isTrash
    // Success appends exactly that row and replies with it; every other reply leaves the table alone.
    ensures IsOk(o.response) <==> o.insert.Some? && InsertInto(files, o.insert.value).Some?
    ensures IsOk(o.response) ==>
      o.files == files + [Row(o.insert.value)] && o.response == Reply(200, FileCreated(Row(o.insert.value)))
    ensures !IsOk(o.response) ==> o.files == files
    ensures o.insert.Some? && !IsOk(o.response) ==> o.response == UploadFailed
  {
    match Validate(files, auth, form)
    case Stop(response) => Outcome(response, None, None, files)
    case Continue(c) =>
      var call := UploadCall(StoredFileName(fileUuid, c.file.name), FolderPath(c.userId, c.parentId));
      match service
      case Rejected(isError, message) => Outcome(RejectionResponse(isError, message), Some(call), None, files)
      case Uploaded(filePath, url, thumbnailUrl) =>
        var values := FileValues(c, generatedId, filePath, url, thumbnailUrl);
        match InsertInto(files, values)
        case None => Outcome(UploadFailed, Some(call), Some(values), files)
        case Some(after) => Outcome(Reply(200, FileCreated(Row(values))), Some(call), Some(values), after)
  }

  /** The handler against the shared database: the same steps, with the
      insert done on `db`. */
  method Post(db: Database, auth: Option<string>, form: Option<UploadForm>,
              generatedId: string, fileUuid: string, service: ImageKitReply)
    returns (response: Response, call: Option<UploadCall>)
    requires db.Valid()
    modifies db
    ensures db.Valid()
    ensures var o := Upload(old(db.files), auth, form, generatedId, fileUuid, service);
      response == o.response && call == o.call && db.files == o.files
  {
    var checked := Validate(db.files, auth, form);
    if checked.Stop? {
      return checked.response, None;
    }
    var c := checked.value;
    call := Some(UploadCall(StoredFileName(fileUuid, c.file.name), FolderPath(c.userId, c.parentId)));
    if service.Rejected? {
      response := RejectionResponse(service.isError, service.message);
      return;
    }
    var row := db.Insert(FileValues(c, generatedId, service.filePath, service.url, service.thumbnailUrl));
    if row.Some? {
      response := Reply(200, FileCreated(row.value));
    } else {
      response := UploadFailed;
    }
  }

  /** A type the route rejects never reaches ImageKit or the table. */
  lemma RejectedTypeTouchesNothing(files: seq<FileRecord>, auth: Option<string>, form: Option<UploadForm>,
                                   generatedId: string, fileUuid: string, service: ImageKitReply)
    requires Authenticated(auth) && form.Some? && form.value.userId == auth
    requires form.value.file.FileEntry? && !AllowedType(form.value.file.file.fileType)
    ensures var o := Upload(files, auth, form, generatedId, fileUuid, service);
      o.response == UnsupportedType && o.call.None? && o.insert.None? && o.files == files
  {
  }

  /** An upload never breaks the tree shape: the new row's parent, if any,
      is a folder the caller owns. */
  lemma UploadKeepsParentsOwnedFolders(
    files: seq<FileRecord>, auth: Option<string>, form: Option<UploadForm>,
    generatedId: string, fileUuid: string, service: ImageKitReply)
    requires ParentsAreOwnedFolders(files)
    ensures ParentsAreOwnedFolders(Upload(files, auth, form, generatedId, fileUuid, service).files)
  {
    var o := Upload(files, auth, form, generatedId, fileUuid, service);
    if IsOk(o.response) {
      var row := Row(o.insert.value);
      assert o.files == files + [row];
      forall k | 0 <= k < |o.files| && o.files[k].parentId.Some?
        ensures HasFolder(o.files, o.files[k].userId, o.files[k].parentId.value)
      {
        var r := o.files[k];
        var j: int;
        if k < |files| {
          assert r == files[k];
          j :| 0 <= j < |files| && files[j].id == r.parentId.value && files[j].userId == r.userId && files[j].isFolder;
        } else {
          assert r == row;
          j :| 0 <= j < |files| && files[j].id == r.parentId.value && files[j].userId == r.userId && files[j].isFolder;
        }
        assert o.files[j] == files[j];
      }
    }
  }
}
