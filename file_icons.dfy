// `getFileIcon`: the icon a listing shows for a row, chosen by an ordered
// chain of tests on the folder flag and the type string.

module FileIcons {
  import opened Js

  datatype Icon = FolderIcon | ImageIcon | DocIcon | VideoIcon | ArchiveIcon | GenericIcon

  predicate IsDocType(t: string)
  {
    Contains(t, "pdf") || Contains(t, "document")
  }

  predicate IsArchiveType(t: string)
  {
    Contains(t, "zip") || Contains(t, "archive")
  }

  /** The first test that holds decides the icon. */
  function FileIcon(isFolder: bool, fileType: string): (icon: Icon)
    ensures icon == FolderIcon <==> isFolder
    ensures icon == ImageIcon <==> !isFolder && StartsWith(fileType, "image/")
    ensures icon == DocIcon <==> !isFolder && !StartsWith(fileType, "image/") && IsDocType(fileType)
    ensures icon == VideoIcon <==>
      !isFolder && !StartsWith(fileType, "image/") && !IsDocType(fileType) && StartsWith(fileType, "video/")
    ensures icon == ArchiveIcon <==>
      && !isFolder && !StartsWith(fileType, "image/") && !IsDocType(fileType) && !StartsWith(fileType, "video/")
      && IsArchiveType(fileType)
  {
    if isFolder then FolderIcon
    else if StartsWith(fileType, "image/") then ImageIcon
    else if IsDocType(fileType) then DocIcon
    else if StartsWith(fileType, "video/") then VideoIcon
    else if IsArchiveType(fileType) then ArchiveIcon
    else GenericIcon
  }

  /** A type whose tests all fail gets the generic icon. */
  lemma GenericWhenNothingMatches(fileType: string)
    requires !StartsWith(fileType, "image/") && !IsDocType(fileType)
    requires !StartsWith(fileType, "video/") && !IsArchiveType(fileType)
    ensures FileIcon(false, fileType) == GenericIcon
  {
  }

  /** The image test comes first: an image type mentioning "pdf" is still an image. */
  lemma ImageBeatsPdf()
    ensures Contains("image/pdf", "pdf")
    ensures FileIcon(false, "image/pdf") == ImageIcon
  {
    ContainsAt("image/pdf", "pdf", 6);
  }

  /** A folder is shown as a folder whatever its type says. */
  lemma FolderIgnoresType(fileType: string)
    ensures FileIcon(true, fileType) == FolderIcon
  {
  }

  /** Everything the upload route accepts is shown as an image or a document. */
  lemma UploadableTypesHaveIcons(fileType: string)
    requires StartsWith(fileType, "image/") || fileType == "application/pdf"
    ensures FileIcon(false, fileType) == ImageIcon || FileIcon(false, fileType) == DocIcon
  {
    if !StartsWith(fileType, "image/") {
      ContainsAt(fileType, "pdf", 12);
    }
  }

  /** The legacy route's default type "image" has no slash, so such a row
      gets the generic icon. */
  lemma LegacyDefaultTypeIsGeneric()
    ensures FileIcon(false, "image") == GenericIcon
  {
    assert !StartsWith("image", "image/");
    NotContainsShort("image", "pdf");
    NotContainsShort("image", "zip");
    assert !Contains("image", "document");
    assert !Contains("image", "archive");
  }

  /** A string does not contain a word whose first letter it lacks. */
  lemma {:induction false} NotContainsShort(s: string, sub: string)
    requires |sub| > 0 && sub[0] !in s
    ensures !Contains(s, sub)
    decreases |s|
  {
    if |s| > 0 {
      assert forall j :: 0 <= j < |s| - 1 ==> s[1..][j] == s[j + 1];
      NotContainsShort(s[1..], sub);
    }
  }
}
