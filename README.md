# Storx file-storage core, modelled in Dafny

Storx is a file manager. Users upload images and PDFs to ImageKit, a
storage and CDN service, and keep the metadata in a single PostgreSQL table,
`files`. That table holds both files and folders: a row's `parentId` names
the folder it sits in, or is null at the root. This project models the
server side of that system:

- the upload route, which checks the form, sends the bytes to ImageKit and
  records the row (`upload_route.dfy`);
- the folder-create route (`folder_create_route.dfy`);
- the listing route (`list_route.dfy`);
- the older metadata-only upload route (`legacy_upload_route.dfy`);
- the table and its insert (`schema.dfy`);
- the dashboard's folder navigation state (`dashboard_state.dfy`);
- the icon chosen for a row (`file_icons.dfy`).

`js.dfy` holds the small part of JavaScript the handlers rely on: truthiness,
`startsWith`, `includes`, `split(".").pop()`, `trim()` and template
interpolation of `undefined`. `http.dfy` holds the replies. `route_interplay.dfy`
relates the routes to each other through the shared table.

Each route that writes has two forms:

- A function of the table before the request, returning an `Outcome`: the
  reply, the ImageKit call made, the values handed to `db.insert`, and the
  table after. Its contract gives the order of the checks, the exact error
  replies and the row written.
- A `Post` method on the shared `Schema.Database` object, which performs the
  same steps with `db.Insert` and is proved equal to that function.

The database is modelled as follows:

- `insert` throws on a duplicate primary key or on a `size` outside
  PostgreSQL's `integer` range. Otherwise it appends the row.
- The row's `id` and every `uuidv4()` value are parameters.
- ImageKit's answer is a parameter: the stored path and URLs, or a
  rejection with its message.
- The caller's identity from the authentication service is a parameter, an
  optional string.

The model follows the code as written, including these behaviours, each shown
by a lemma:

- The folder-create route's parent lookup
  (app/api/folders/create/route.ts:28-37) compares the row id with both the
  parent id and the caller's user id, and never compares the owner column.
  So a folder of the caller is found only when its id equals the caller's
  user id; every other parent id gives 404 (`ParentMustEqualUserId`,
  `OwnFolderRejectedAsParent`).
  A folder of another user whose id equals the caller's id is accepted, which
  breaks the owned-parent tree shape (`ForeignParentAccepted`). The upload
  route's lookup of the same kind compares the owner column with the caller
  (app/api/files/upload/route.ts:44-49).
- The folder-create route sends a created folder in a body with
  `success: true` and "folder created successfully", but with status 400
  (app/api/folders/create/route.ts:64-70). Its empty `catch` block returns
  nothing, which is modelled as `NoResponse`.
- The upload route's row values (app/api/files/upload/route.ts:82-94) have no
  `imagekitFileId` key, so uploaded rows keep no ImageKit file id, while the
  legacy route stores the one the client sends.
- The `path` key that every handler computes is not a column of the `files`
  table (lib/db/schema.ts:12-37), so it is dropped on insert.

## Model

| member | source | states |
|---|---|---|
| Schema.InsertInto | lib/db/schema.ts:12-37 | the insert succeeds exactly when the id is not already a key and the size fits a PostgreSQL `integer`; success appends the row (without `path`) and keeps the primary-key and range invariant |
| Schema.Database.Insert | lib/db/schema.ts:12-37 | `db.insert(...).returning()` on the shared table: returns the written row and appends it, or returns nothing and leaves the table unchanged, keeping the table invariant |
| Schema.Database.constructor | lib/db/schema.ts:12-37 | a new database holds an empty `files` table that satisfies the invariant |
| Schema.ParentOf | lib/db/schema.ts:41-45 | the `parent` relation gives a row of the table whose id is the row's `parentId`, and gives nothing only for root rows or dangling parent ids |
| Schema.ChildrenOf | lib/db/schema.ts:47-49 | the `children` relation holds exactly the rows whose `parentId` is the given id |
| Schema.ParentChildrenAgree | lib/db/schema.ts:39-50 | with unique ids, a row is among the children of `q` exactly when `q` is its parent: the two sides of the relation agree |
| UploadRoute.FormParent | app/api/files/upload/route.ts:19 | an absent or empty `parentId` field means the root; any other value is kept as is |
| UploadRoute.Validate | app/api/files/upload/route.ts:11-58 | the checks in source order: 401 without identity, 500 when the form cannot be read, 401 when the form's `userId` differs, 400 when the file is missing, 400 for a type other than `image/*` or `application/pdf`, 404 when a named parent is not a folder owned by the caller; the request passes exactly when every check holds |
| UploadRoute.AllowedType | app/api/files/upload/route.ts:32 | the allow-list: a type beginning with `image/`, or exactly `application/pdf` |
| UploadRoute.FolderPath | app/api/files/upload/route.ts:67-69 | the ImageKit folder always starts with `/storex/<user>`; it is exactly that without a parent, and otherwise ends in the parent id |
| UploadRoute.Extension | app/api/files/upload/route.ts:64 | `fileExtension` is the last piece of the name split at dots (see `Js.LastPieceIsTextAfterLastSeparator` and `UploadRoute.StoredFileNameShape`) |
| UploadRoute.StoredFileName | app/api/files/upload/route.ts:71 | the stored name is the uuid, a dot, then the original name's extension |
| UploadRoute.OrNull | app/api/files/upload/route.ts:88 | the thumbnail fallback to null is never the empty string; it keeps a non-empty URL and turns an absent or empty one into null |
| UploadRoute.FileValues | app/api/files/upload/route.ts:82-94 | the values inserted for an upload: original name, ImageKit path and URLs, file size and type, the caller and the normalised parent, flags cleared, no ImageKit id |
| FolderCreateRoute.ValidName | app/api/folders/create/route.ts:21 | the name test: a non-empty string whose trimmed form is non-empty |
| FolderCreateRoute.ParentRowFound | app/api/folders/create/route.ts:28-37 | the parent lookup as written: a folder row whose id equals both the parent id and the caller's user id |
| FolderCreateRoute.FolderValues | app/api/folders/create/route.ts:48-62 | the folder row values: trimmed name, `/folder/<user>/<uuid>` path, size 0, type `folder`, empty URL, no thumbnail or ImageKit id, the raw parent id |
| LegacyUploadRoute.MetaValues | app/api/upload/route.ts:29-42 | the values inserted from client metadata, with every falsy field defaulted and the row at the root |
| LegacyUploadRoute.TextOr | app/api/upload/route.ts:30-33 | the fallback of a text field to a default gives the non-empty string when there is one and the default otherwise |
| LegacyUploadRoute.TextOrNull | app/api/upload/route.ts:36 | the fallback of a text field to null gives a value exactly for a non-empty string, and that value is the string |
| LegacyUploadRoute.Nullable | app/api/upload/route.ts:35 | a field stored as given is a value exactly when it is a string, and that value is the string |
| Js.Truthy | app/api/upload/route.ts:22 | JavaScript truthiness: undefined, null, false, 0 and the empty string are falsy |
| Js.Interpolate | app/api/upload/route.ts:31 | a template literal prints a string as itself and undefined and null as their names |
| Js.StartsWith | app/api/files/upload/route.ts:32 | `startsWith`: the prefix is the first characters of the string |
| Js.Contains | lib/file-utils.ts:23 | `includes`: the word starts at some position of the string |
| Js.Split | app/api/files/upload/route.ts:64 | `split` on one character always gives at least one piece |
| Js.LastPiece | app/api/files/upload/route.ts:64 | `split(".").pop()`, which is never undefined, so the fallback to `""` never applies |
| Js.Trim | app/api/folders/create/route.ts:21 | `trim()` removes ECMAScript white space from both ends |
| Schema.HasFolder | app/api/files/upload/route.ts:41-50 | the upload route's parent query: a row with the given id and owner and the folder flag set |
| Http.Authenticated | app/api/files/upload/route.ts:12 | the `!userId` test on the caller's identity, shared by all four routes (also app/api/folders/create/route.ts:13, app/api/files/route.ts:10, app/api/upload/route.ts:9): absent or empty is unauthenticated |
| Schema.Row | lib/db/schema.ts:12-37 | the row written for insert values: every column copied, `path` dropped |
| Schema.FitsInteger | lib/db/schema.ts:17 | `size` is a PostgreSQL `integer`: from -2^31 up to 2^31 - 1 |
| Schema.TableInvariant | lib/db/schema.ts:13-17 | every stored table has unique ids (the primary key) and sizes in `integer` range |
| UploadRoute.StoredFileNameShape | app/api/files/upload/route.ts:63-71 | the ImageKit file name is the uuid, a dot and the text after the original name's last dot (the whole name when it has no dot), which holds no dot |
| UploadRoute.StoredFileNameTwoDots | app/api/files/upload/route.ts:64 | only the last dot counts: `a.b.pdf` gives extension `pdf` |
| UploadRoute.StoredFileNameTrailingDot | app/api/files/upload/route.ts:64 | a name ending in a dot gives an empty extension, so the stored name ends in the dot |
| UploadRoute.RejectionResponse | app/api/files/upload/route.ts:103-118 | a thrown `Error` whose message mentions ImageKit becomes 503; any other thrown value becomes 500 |
| UploadRoute.Upload | app/api/files/upload/route.ts:9-119 | ImageKit is called exactly when validation passes, with the derived name and the per-user (and per-folder) path; the row is inserted only after a successful upload and holds the original name, size, type, returned URLs, the normalised parent and no ImageKit id; a 200 reply appends exactly that row, and every other reply leaves the table unchanged |
| UploadRoute.Post | app/api/files/upload/route.ts:9-119 | the handler run against the shared database gives the same reply, ImageKit call and table as `Upload`, and keeps the table invariant |
| UploadRoute.RejectedTypeTouchesNothing | app/api/files/upload/route.ts:32-37 | a file type outside the allow-list is answered 400 without calling ImageKit or touching the table |
| UploadRoute.UploadKeepsParentsOwnedFolders | app/api/files/upload/route.ts:39-58 | because the parent check is scoped to the caller and requires a folder, an upload preserves the property that every parent is a folder owned by the same user |
| FolderCreateRoute.ValidNameIffNotBlank | app/api/folders/create/route.ts:21-26 | a folder name is accepted exactly when it is a string with a character that is not white space |
| FolderCreateRoute.Create | app/api/folders/create/route.ts:10-73 | the checks in order (401, nothing when the body cannot be read, 401, 400 for a blank name, 404 when the parent lookup finds nothing); the folder row has the trimmed name, size 0, type `folder`, an empty URL and the raw parent id; a created folder is answered with status 400, a failed insert answers nothing, and no reply has a success status |
| FolderCreateRoute.Post | app/api/folders/create/route.ts:10-73 | the handler run against the shared database gives the same reply and table as `Create`, and keeps the table invariant |
| FolderCreateRoute.ParentMustEqualUserId | app/api/folders/create/route.ts:27-44 | with the lookup as written, any parent id that differs from the caller's user id gives 404 and leaves the table unchanged, whatever the table holds |
| FolderCreateRoute.OwnFolderRejectedAsParent | app/api/folders/create/route.ts:27-44 | a folder the caller owns, named as the parent, is answered 404 |
| FolderCreateRoute.ForeignParentAccepted | app/api/folders/create/route.ts:27-44 | another user's folder whose id equals the caller's id is accepted as the parent, and the table then has a row whose parent is not a folder owned by its user |
| FolderCreateRoute.SameNameTwice | app/api/folders/create/route.ts:48-63 | no check on sibling names: the same request made twice appends two folders with the same name and parent and different ids |
| ListRoute.SelectOwnedUnder | app/api/files/route.ts:23-33 | the query returns exactly the table's rows that have the given owner and parent |
| ListRoute.ListedParent | app/api/files/route.ts:23 | a non-empty `parentId` parameter selects that folder; an absent or empty one selects the root |
| ListRoute.List | app/api/files/route.ts:7-43 | 401 without identity or when the `userId` parameter differs from it; otherwise 200 with exactly the caller's rows under the listed parent |
| ListRoute.ListIsolatesOwners | app/api/files/route.ts:18-27 | a listing never contains a row of another user |
| ListRoute.ListKeepsTrashAndUnknownParents | app/api/files/route.ts:23-35 | trashed rows are not filtered out, and a parent id that no row has and no row names gives an empty 200 listing rather than an error |
| ListRoute.NothingUnderSelectsNothing | app/api/files/route.ts:24-27 | a parent id that no row names selects no rows |
| ListRoute.ListIsOwnedChildren | app/api/files/route.ts:23-27 | a folder listing is that folder's `children`, narrowed to the caller's rows |
| LegacyUploadRoute.Save | app/api/upload/route.ts:6-54 | the checks in order (401, 403 when the body cannot be read, 401, 403 without metadata or a URL); the row is a root-level file of the caller with every falsy field defaulted (`untitled`, a `/storex/<user>/<name>` path, size 0, type `image`) and the given URL; a 200 reply appends exactly that row, and a failed insert is 403 with the table unchanged |
| LegacyUploadRoute.Post | app/api/upload/route.ts:6-54 | the handler run against the shared database gives the same reply and table as `Save`, and keeps the table invariant |
| LegacyUploadRoute.OversizedMetadataRejected | app/api/upload/route.ts:32 | a client-sent size of 2^31 does not fit the `integer` column, so the insert throws and the reply is 403 with the table unchanged |
| LegacyUploadRoute.AbsentNameInPath | app/api/upload/route.ts:30-33 | with only a URL sent, the row is named `untitled` and its path ends in the literal text `undefined` |
| LegacyUploadRoute.SaveKeepsParentsOwnedFolders | app/api/upload/route.ts:38 | rows from this route always sit at the root, so the owned-parent tree shape is preserved |
| FileIcons.FileIcon | lib/file-utils.ts:14-34 | the first test that holds decides the icon: folder, then `image/` prefix, then `pdf` or `document`, then `video/` prefix, then `zip` or `archive`, and otherwise the generic icon; each icon is characterised both ways |
| FileIcons.GenericWhenNothingMatches | lib/file-utils.ts:33 | a non-folder type that matches no test gets the generic icon |
| FileIcons.ImageBeatsPdf | lib/file-utils.ts:21-24 | the image test comes first: `image/pdf` mentions `pdf` yet gets the image icon |
| FileIcons.FolderIgnoresType | lib/file-utils.ts:15-19 | a folder gets the folder icon whatever its type |
| FileIcons.UploadableTypesHaveIcons | lib/file-utils.ts:21-24 | every type the upload route accepts is shown with the image or the document icon |
| FileIcons.LegacyDefaultTypeIsGeneric | app/api/upload/route.ts:33 | the legacy route's default type `image` has no slash and gets the generic icon |
| DashboardState.OpenFolder | hooks/useDashboardState.ts:15-18 | opening a folder appends its crumb to the trail, makes it the current folder and keeps the trail consistent |
| DashboardState.KeepThrough | hooks/useDashboardState.ts:21 | `slice(0, index + 1)` keeps the first `index + 1` crumbs, or all of them when there are fewer |
| DashboardState.OpenCrumb | hooks/useDashboardState.ts:20-26 | clicking a crumb keeps the trail through it and makes the last kept crumb's folder current, keeping the trail consistent |
| DashboardState.InitialConsistent | hooks/useDashboardState.ts:6-9 | the initial state, no folder and the Home crumb alone, is consistent |
| DashboardState.HomeResets | components/dashboard/Sidebar.tsx:49 | the Home button, which clicks crumb 0, always returns to the initial state |
| DashboardState.LastCrumbIsNoOp | hooks/useDashboardState.ts:20-26 | clicking the last crumb changes nothing |
| DashboardState.OpenCrumbIdempotent | hooks/useDashboardState.ts:20-26 | clicking the same crumb twice is the same as clicking it once |
| DashboardState.OpenThenBack | hooks/useDashboardState.ts:15-26 | opening a folder and then clicking the crumb that was last before it restores the previous state |
| DashboardState.NoFolderIffAtHome | hooks/useDashboardState.ts:6-9 | no folder is open exactly when the trail is the Home crumb alone |
| DashboardState.Dashboard.constructor | hooks/useDashboardState.ts:6-9 | the hook starts with no current folder and the Home crumb |
| DashboardState.Dashboard.NavigateToFolder | hooks/useDashboardState.ts:15-18 | updates both state cells as `OpenFolder` says, keeping them consistent |
| DashboardState.Dashboard.NavigateToBreadcrumb | hooks/useDashboardState.ts:20-26 | updates both state cells as `OpenCrumb` says, keeping them consistent |
| Js.SplitJoin | app/api/files/upload/route.ts:64 | joining the pieces of `split` with the separator gives the original name back |
| Js.SplitSingle | app/api/files/upload/route.ts:64 | a name splits into one piece exactly when it has no dot |
| Js.LastPieceIsTextAfterLastSeparator | app/api/files/upload/route.ts:64 | `split(".").pop()` is the longest dot-free suffix of the name: the whole name without a dot, and otherwise the text after the last dot |
| Js.TrimShape | app/api/folders/create/route.ts:50 | `trim()` keeps a contiguous middle part, removes only white space around it, and leaves no white space at either end |
| Js.TrimEmptyIffAllSpace | app/api/folders/create/route.ts:21 | `name.trim() === ""` exactly when every character is white space |
| Js.TrimIdempotent | app/api/folders/create/route.ts:50 | trimming a trimmed name changes nothing |
| RouteInterplay.UploadedRowListedExactlyUnderItsParent | app/api/files/upload/route.ts:82-97 | after a successful upload, the caller's listing shows the new row exactly when it lists the folder the form named (or the root) |
| RouteInterplay.CreatedFolderListedExactlyUnderItsParent | app/api/folders/create/route.ts:48-63 | a created folder shows up in its owner's listing exactly when that listing is of the parent id the body sent |
| RouteInterplay.CreateDocsAtRoot | app/api/folders/create/route.ts:48-71 | creating `Docs` at the root of an empty table stores one root folder of the caller and answers with status 400 |
| RouteInterplay.UploadPdfInto | app/api/files/upload/route.ts:82-102 | a PDF uploaded into a folder the caller owns is answered 200 and appends one row under that folder with the file's size |
| RouteInterplay.UploadPdfIntoCall | app/api/files/upload/route.ts:63-79 | that PDF goes to ImageKit as `<uuid>.pdf` in `/storex/<user>/folder/<folder id>` |
| RouteInterplay.PdfExtension | app/api/files/upload/route.ts:64 | `a.pdf` has the extension `pdf` |
| RouteInterplay.FolderThenUpload | app/api/files/route.ts:23-35 | after creating a root folder and uploading a PDF into it, the folder's listing shows the file and the root listing shows the folder |

## Left out

- `formatFileSize` (lib/file-utils.ts:6-12) is left out because it is floating-point arithmetic (`Math.log`, `toFixed`).
- The star, trash and delete routes are context for this model, not part of it. The hooks and components that call the routes are not part of it either.
- The `imagekit-auth` route and the migration script are not part of this model.
- `createdAt` and `updatedAt` are left out: they are clock values that no modelled behaviour reads.
- The bytes of an uploaded file (`arrayBuffer`, `Buffer.from`) are left out. So is `console.error` logging.
- ImageKit, the authentication service and `uuidv4()` are parameters rather than models.
- PostgreSQL's uuid type is not modelled. A `parentId` or id that is not a well-formed uuid makes the real query or insert throw, while here it is an ordinary string. The effect: an upload or listing with such a parent answers 404 or an empty list rather than 500, and the folder-create lookup compares with the user id without the cast error it would raise. In the folder-create route, `parentId: ""` skips the lookup (the `if (parentId)` test at app/api/folders/create/route.ts:27 is false) and reaches the insert, where the real `uuid` column throws and the empty catch block answers nothing; the model instead stores `parentId == Some("")` and answers 400.
- Sizes are integers. Fractional numbers and `NaN` in the legacy route's `size` are not modelled.
- In the upload form, only `file` may be text or a file. `userId` and `parentId` are text or absent; a file sent in those fields is not modelled.
- In the folder-create body, `parentId` is a string or absent/null; other JSON types are not modelled.
- LegacyUploadRoute.Save: the metadata fields are strings or absent/null, and `size` is an integer or absent/null. Other JSON values are not modelled: a truthy number, boolean or object kept by `||`, a falsy non-string such as `name: 0` (which gives "untitled" as the name but a path ending in `/0`), and the coercion or error PostgreSQL applies to them (an error gives 403).
- UploadRoute.Validate: `request.formData()` failing is one case, a 500, whatever the reason.
- DashboardState.Dashboard.NavigateToBreadcrumb: the index is a natural number. A negative index, which no caller passes, is not modelled.
- React state updates are modelled as immediate and sequential. Batching and stale closures are not modelled.
- The dashboard's view mode, search query, selection and sidebar flags are not modelled; they carry no logic in the hook.
- Row order is table (insertion) order. PostgreSQL gives no order without `order by`, so the listing contracts speak of membership, not order.
