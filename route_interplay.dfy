// How the routes work together on one table: what a listing shows after a
// create, and a folder-then-upload session.

module RouteInterplay {
  import opened Js
  import opened Schema
  import opened Http
  import UploadRoute
  import FolderCreateRoute
  import ListRoute

  /** After a successful upload, the caller's listing of the folder it went
      into (or of the root) shows the new row, and a listing of any other
      folder does not. */
  lemma UploadedRowListedExactlyUnderItsParent(
    files: seq<FileRecord>, auth: Option<string>, form: Option<UploadRoute.UploadForm>,
    generatedId: string, fileUuid: string, service: UploadRoute.ImageKitReply, q: ListRoute.ListQuery)
    requires IsOk(UploadRoute.Upload(files, auth, form, generatedId, fileUuid, service).response)
    requires q.userId == auth
    ensures var o := UploadRoute.Upload(files, auth, form, generatedId, fileUuid, service);
      var row := Row(o.insert.value);
      var listing := ListRoute.List(o.files, auth, q);
      row in listing.body.files <==> ListRoute.ListedParent(q) == UploadRoute.FormParent(form.value.parentId)
  {
  }

  /** The same for a created folder, whose parent is stored as sent. */
  lemma CreatedFolderListedExactlyUnderItsParent(
    files: seq<FileRecord>, auth: Option<string>, body: Option<FolderCreateRoute.FolderBody>,
    folderId: string, pathUuid: string, q: ListRoute.ListQuery)
    requires FolderCreateRoute.Create(files, auth, body, folderId, pathUuid).insert.Some?
    requires InsertInto(files, FolderCreateRoute.Create(files, auth, body, folderId, pathUuid).insert.value).Some?
    requires q.userId == auth
    ensures var o := FolderCreateRoute.Create(files, auth, body, folderId, pathUuid);
      var row := Row(o.insert.value);
      var listing := ListRoute.List(o.files, auth, q);
      row in listing.body.files <==> ListRoute.ListedParent(q) == body.value.parentId
  {
  }

  /** Creating "Docs" at the root of an empty table gives one root folder. */
  lemma CreateDocsAtRoot(folderId: string, pathUuid: string)
    ensures var body := FolderCreateRoute.FolderBody(Str("Docs"), Str("u1"), None);
      var created := FolderCreateRoute.Create([], Some("u1"), Some(body), folderId, pathUuid);
      && created.response.Reply? && created.response.status == 400
      && |created.files| == 1
      && created.files[0].id == folderId && created.files[0].userId == "u1"
      && created.files[0].isFolder && created.files[0].parentId.None?
  {
    assert !AllSpace("Docs") by {
      assert !IsJsSpace("Docs"[0]);
    }
    FolderCreateRoute.ValidNameIffNotBlank(Str("Docs"));
  }

  /** Uploading "a.pdf" into a folder the caller owns stores it there. */
  lemma UploadPdfInto(files: seq<FileRecord>, folderId: string, fileId: string, fileUuid: string)
    requires folderId != "" && HasFolder(files, "u1", folderId) && !IdTaken(files, fileId)
    ensures var file := UploadRoute.File("a.pdf", "application/pdf", 1024);
      var form := UploadRoute.UploadForm(UploadRoute.FileEntry(file), Some("u1"), Some(folderId));
      var service := UploadRoute.Uploaded("/storex/u1/folder/x/y.pdf", "https://cdn/y.pdf", None);
      var uploaded := UploadRoute.Upload(files, Some("u1"), Some(form), fileId, fileUuid, service);
      && IsOk(uploaded.response)
      && uploaded.files[..|files|] == files && |uploaded.files| == |files| + 1
      && uploaded.files[|files|].parentId == Some(folderId) && uploaded.files[|files|].userId == "u1"
      && uploaded.files[|files|].size == 1024
  {
    assert UploadRoute.AllowedType("application/pdf");
    var file := UploadRoute.File("a.pdf", "application/pdf", 1024);
    var form := UploadRoute.UploadForm(UploadRoute.FileEntry(file), Some("u1"), Some(folderId));
    var c := UploadRoute.Checked("u1", file, Some(folderId));
    assert UploadRoute.Validate(files, Some("u1"), Some(form)) == Continue(c);
    var values := UploadRoute.FileValues(c, fileId, "/storex/u1/folder/x/y.pdf", "https://cdn/y.pdf", None);
    assert FitsInteger(values.size);
    assert InsertInto(files, values).Some?;
    var service := UploadRoute.Uploaded("/storex/u1/folder/x/y.pdf", "https://cdn/y.pdf", None);
    var uploaded := UploadRoute.Upload(files, Some("u1"), Some(form), fileId, fileUuid, service);
    assert uploaded.files == files + [Row(values)];
  }

  /** That upload goes to ImageKit under the folder's path, with the
      uuid and the original extension as its name. */
  lemma UploadPdfIntoCall(files: seq<FileRecord>, folderId: string, fileId: string, fileUuid: string)
    requires folderId != "" && HasFolder(files, "u1", folderId)
    ensures var file := UploadRoute.File("a.pdf", "application/pdf", 1024);
      var form := UploadRoute.UploadForm(UploadRoute.FileEntry(file), Some("u1"), Some(folderId));
      var service := UploadRoute.Uploaded("/storex/u1/folder/x/y.pdf", "https://cdn/y.pdf", None);
      UploadRoute.Upload(files, Some("u1"), Some(form), fileId, fileUuid, service).call ==
        Some(UploadRoute.UploadCall(fileUuid + ".pdf", "/storex/u1/folder/" + folderId))
  {
    PdfExtension();
    var file := UploadRoute.File("a.pdf", "application/pdf", 1024);
    var form := UploadRoute.UploadForm(UploadRoute.FileEntry(file), Some("u1"), Some(folderId));
    var c := UploadRoute.Checked("u1", file, Some(folderId));
    assert UploadRoute.AllowedType("application/pdf");
    assert UploadRoute.Validate(files, Some("u1"), Some(form)) == Continue(c);
    assert UploadRoute.StoredFileName(fileUuid, "a.pdf") == fileUuid + ".pdf" by {
      assert fileUuid + "." + "pdf" == fileUuid + ("." + "pdf");
      assert "." + "pdf" == ".pdf";
    }
    assert UploadRoute.FolderPath("u1", Some(folderId)) == "/storex/u1/folder/" + folderId by {
      assert "/storex/" + "u1" + "/folder/" == "/storex/u1/folder/";
    }
    var service := UploadRoute.Uploaded("/storex/u1/folder/x/y.pdf", "https://cdn/y.pdf", None);
    var o := UploadRoute.Upload(files, Some("u1"), Some(form), fileId, fileUuid, service);
    assert o.call == Some(UploadRoute.UploadCall(UploadRoute.StoredFileName(fileUuid, "a.pdf"),
                                                 UploadRoute.FolderPath("u1", Some(folderId))));
  }

  lemma PdfExtension()
    ensures UploadRoute.Extension("a.pdf") == "pdf"
  {
    var pdf := Split("pdf", '.');
    SplitSingle("pdf", '.');
    assert pdf == ["pdf"] by { SplitJoin("pdf", '.'); }
    assert "a.pdf" == ['a'] + (['.'] + "pdf");
    SplitCons('.', "pdf", '.');
    SplitCons('a', ".pdf", '.');
  }

  /** A user creates "Docs" at the root and uploads a PDF into it: the
      upload succeeds, the folder's listing shows the file and the root
      listing shows the folder. (Where the file goes in ImageKit is
      `UploadPdfIntoCall`.) */
  lemma FolderThenUpload(folderId: string, pathUuid: string, fileId: string, fileUuid: string)
    requires folderId != "" && folderId != fileId
    ensures var body := FolderCreateRoute.FolderBody(Str("Docs"), Str("u1"), None);
      var created := FolderCreateRoute.Create([], Some("u1"), Some(body), folderId, pathUuid);
      var file := UploadRoute.File("a.pdf", "application/pdf", 1024);
      var form := UploadRoute.UploadForm(UploadRoute.FileEntry(file), Some("u1"), Some(folderId));
      var service := UploadRoute.Uploaded("/storex/u1/folder/x/y.pdf", "https://cdn/y.pdf", None);
      var uploaded := UploadRoute.Upload(created.files, Some("u1"), Some(form), fileId, fileUuid, service);
      var inFolder := ListRoute.List(uploaded.files, Some("u1"), ListRoute.ListQuery(Some("u1"), Some(folderId)));
      var atRoot := ListRoute.List(uploaded.files, Some("u1"), ListRoute.ListQuery(Some("u1"), None));
      && IsOk(uploaded.response)
      && |uploaded.files| == 2
      && uploaded.files[1] in inFolder.body.files
      && uploaded.files[0] in atRoot.body.files
  {
    CreateDocsAtRoot(folderId, pathUuid);
    var body := FolderCreateRoute.FolderBody(Str("Docs"), Str("u1"), None);
    var created := FolderCreateRoute.Create([], Some("u1"), Some(body), folderId, pathUuid);
    assert HasFolder(created.files, "u1", folderId) by {
      assert created.files[0].id == folderId;
    }
    assert !IdTaken(created.files, fileId);
    UploadPdfInto(created.files, folderId, fileId, fileUuid);
    var file := UploadRoute.File("a.pdf", "application/pdf", 1024);
    var form := UploadRoute.UploadForm(UploadRoute.FileEntry(file), Some("u1"), Some(folderId));
    var service := UploadRoute.Uploaded("/storex/u1/folder/x/y.pdf", "https://cdn/y.pdf", None);
    var uploaded := UploadRoute.Upload(created.files, Some("u1"), Some(form), fileId, fileUuid, service);
    assert uploaded.files[0] == created.files[0];
  }
}
