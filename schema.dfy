// The `files` table: one self-referential table holding both files and
// folders, and the database object whose `insert` appends rows to it.

module Schema {
  import opened Js

  /** One row of `files`. `createdAt`/`updatedAt` are not modelled. A null
      `parentId` means the row sits at the root. */
  datatype FileRecord = FileRecord(
    id: string,
    name: string,
    size: int,
    fileType: string,
    fileUrl: string,
    thumbnailUrl: Option<string>,
    imagekitFileId: Option<string>,
    userId: string,
    parentId: Option<string>,
    isFolder: bool,
    isStarred: bool,
    isTrash: bool)

  /** The object a handler passes to `db.insert(files).values(...)`. It may
      carry a `path` key, which is not a column of the table and is dropped
      when the row is written. `id` stands for the value the row will get:
      either the handler's own uuid or the column's random default. */
  datatype NewFile = NewFile(
    id: string,
    name: string,
    path: string,
    size: int,
    fileType: string,
    fileUrl: string,
    thumbnailUrl: Option<string>,
    imagekitFileId: Option<string>,
    userId: string,
    parentId: Option<string>,
    isFolder: bool,
    isStarred: bool,
    isTrash: bool)

  /** The row written for a `NewFile`: every column taken from the values,
      and no `path`. */
  function Row(v: NewFile): (r: FileRecord)
  {
    FileRecord(v.id, v.name, v.size, v.fileType, v.fileUrl, v.thumbnailUrl,
               v.imagekitFileId, v.userId, v.parentId, v.isFolder, v.isStarred, v.isTrash)
  }

  /** Range of a PostgreSQL `integer` column, the type of `size`. */
  predicate FitsInteger(n: int)
  {
    -0x8000_0000 <= n < 0x8000_0000
  }

  predicate IdTaken(files: seq<FileRecord>, id: string)
  {
    exists k :: 0 <= k < |files| && files[k].id == id
  }

  /** `id` is the primary key. */
  predicate UniqueIds(files: seq<FileRecord>)
  {
    forall i, j :: 0 <= i < |files| && 0 <= j < |files| && i != j ==> files[i].id != files[j].id
  }

  /** What the table's column types and key guarantee of every stored state. */
  predicate TableInvariant(files: seq<FileRecord>)
  {
    && UniqueIds(files)
    && forall k :: 0 <= k < |files| ==> FitsInteger(files[k].size)
  }

  /** `db.insert(files).values(v)`: the row is appended, unless the database
      rejects it (a duplicate primary key, or a size outside `integer`), in
      which case the call throws and the table is unchanged. */
  function InsertInto(files: seq<FileRecord>, v: NewFile): (r: Option<seq<FileRecord>>)
    ensures r.Some? <==> !IdTaken(files, v.id) && FitsInteger(v.size)
    ensures r.Some? ==> r.value == files + [Row(v)]
    ensures r.Some? && TableInvariant(files) ==> TableInvariant(r.value)
  {
    if IdTaken(files, v.id) || !FitsInteger(v.size) then None else Some(files + [Row(v)])
  }

  /** A row with the given id, owner and the folder flag set exists. */
  predicate HasFolder(files: seq<FileRecord>, userId: string, id: string)
  {
    exists k :: 0 <= k < |files| && files[k].id == id && files[k].userId == userId && files[k].isFolder
  }

  /** The tree shape the handlers are meant to keep: every row that names a
      parent names a folder of the same owner. */
  predicate ParentsAreOwnedFolders(files: seq<FileRecord>)
  {
    forall k :: 0 <= k < |files| && files[k].parentId.Some? ==>
      HasFolder(files, files[k].userId, files[k].parentId.value)
  }

  /** `fileRelation.parent`: the row whose id is this row's `parentId`. */
  function ParentOf(files: seq<FileRecord>, r: FileRecord): (p: Option<FileRecord>)
    ensures p.Some? ==> p.value in files && r.parentId == Some(p.value.id)
    ensures p.None? ==> r.parentId.None? || !IdTaken(files, r.parentId.value)
    decreases |files|
  {
    if r.parentId.None? || |files| == 0 then None
    else if files[0].id == r.parentId.value then Some(files[0])
    else ParentOf(files[1..], r)
  }

  /** `fileRelation.children`: every row whose `parentId` is this id, in table order. */
  function ChildrenOf(files: seq<FileRecord>, id: string): (c: seq<FileRecord>)
    ensures forall r :: r in c <==> r in files && r.parentId == Some(id)
    ensures |c| <= |files|
    decreases |files|
  {
    if |files| == 0 then []
    else if files[0].parentId == Some(id) then [files[0]] + ChildrenOf(files[1..], id)
    else ChildrenOf(files[1..], id)
  }

  /** Under the primary key, the two halves of the relation agree: a row is
      among the children of `q` exactly when `q` is its one parent. */
  lemma ParentChildrenAgree(files: seq<FileRecord>, q: FileRecord, r: FileRecord)
    requires UniqueIds(files)
    requires q in files && r in files
    ensures r in ChildrenOf(files, q.id) <==> ParentOf(files, r) == Some(q)
  {
    if r.parentId == Some(q.id) {
      var p := ParentOf(files, r);
      assert IdTaken(files, q.id) by {
        var k :| 0 <= k < |files| && files[k] == q;
      }
      var i :| 0 <= i < |files| && files[i] == q;
      var j :| 0 <= j < |files| && files[j] == p.value;
      assert files[i].id == files[j].id;
    }
  }

  /** The shared database handle; `files` is the whole table. */
  class Database {
    var files: seq<FileRecord>

    ghost predicate Valid()
      reads this
    {
      TableInvariant(files)
    }

    constructor ()
      ensures Valid() && files == []
    {
      files := [];
    }

    /** `db.insert(files).values(v).returning()`: the inserted row, or
        `None` when the database throws. */
    method Insert(v: NewFile) returns (row: Option<FileRecord>)
      requires Valid()
      modifies this
      ensures Valid()
      ensures row.Some? <==> InsertInto(old(files), v).Some?
      ensures row.Some? ==> row.value == Row(v) && files == old(files) + [row.value]
      ensures row.None? ==> files == old(files)
    {
      var after := InsertInto(files, v);
      if after.Some? {
        files := after.value;
        row := Some(Row(v));
      } else {
        row := None;
      }
    }
  }
}
