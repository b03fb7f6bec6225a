/** The string side of image storage shared by the inspection and the
    transformer services: the stored file name, the public URL handed back to
    the client, and the storage key obtained from that URL by deleting every
    "/files/". The file-system calls around them are not modelled. */
module FileUrls {
  import opened Common

  const FilesSegment: string := "/files/"

  /** (original == null || original.isBlank()) ? "image" : original */
  function StoredFilename(original: Option<string>): (r: string)
    ensures original.None? ==> r == "image"
    ensures original.Some? && IsBlank(original.value) ==> r == "image"
    ensures original.Some? && !IsBlank(original.value) ==> r == original.value
    ensures !IsBlank(r)
  {
    if original.None? || IsBlank(original.value) then
      assert !IsWhitespace("image"[0]);
      "image"
    else original.value
  }

  /** "/files/" + dir + "/" + id + "/" + filename */
  function PublicUrl(dir: string, id: string, filename: string): string {
    FilesSegment + dir + "/" + id + "/" + filename
  }

  /** url.replace("/files/", "") */
  function StorageKey(url: string): string {
    RemoveAll(url, FilesSegment)
  }

  /** The only slashes of dir + "/" + id + "/" + filename are the two separators. */
  lemma SlashPositions(dir: string, id: string, filename: string, j: nat)
    requires NoSlash(dir) && NoSlash(id) && NoSlash(filename)
    requires j < |dir + "/" + id + "/" + filename|
    ensures (dir + "/" + id + "/" + filename)[j] == '/' ==> j == |dir| || j == |dir| + 1 + |id|
  {
    var rest := dir + "/" + id + "/" + filename;
    if j < |dir| {
      assert rest[j] == dir[j];
    } else if |dir| < j < |dir| + 1 + |id| {
      assert rest[j] == id[j - |dir| - 1];
    } else if j > |dir| + 1 + |id| {
      assert rest[j] == filename[j - |dir| - 2 - |id|];
    }
  }

  /** Mapping a public URL back to its storage key yields dir/id/filename,
      provided no part contains a slash and id is not "files" (otherwise the
      separator before id would start a second "/files/"). */
  lemma {:induction false} StorageKeyOfPublicUrl(dir: string, id: string, filename: string)
    requires NoSlash(dir) && NoSlash(id) && NoSlash(filename)
    requires id != "files"
    ensures StorageKey(PublicUrl(dir, id, filename)) == dir + "/" + id + "/" + filename
  {
    var rest := dir + "/" + id + "/" + filename;
    var url := PublicUrl(dir, id, filename);
    assert url == FilesSegment + rest;
    assert url[..|FilesSegment|] == FilesSegment;
    assert url[|FilesSegment|..] == rest;
    forall i: nat
      ensures !OccursAt(rest, FilesSegment, i)
    {
      if i + 7 <= |rest| && rest[i] == '/' && rest[i + 6] == '/' {
        SlashPositions(dir, id, filename, i);
        SlashPositions(dir, id, filename, i + 6);
        assert rest[i + 1..i + 6] == id;
        assert rest[i..i + 7][1..6] == id;
      } else if i + 7 <= |rest| {
        assert rest[i..i + 7][0] == rest[i] && rest[i..i + 7][6] == rest[i + 6];
      }
    }
    RemoveAllAbsent(rest, FilesSegment);
  }

  /** Path.of("uploads", url.replace("/files/", "")). */
  function ResourcePath(url: string): string {
    "uploads/" + StorageKey(url)
  }

  lemma ResourcePathOfPublicUrl(dir: string, id: string, filename: string)
    requires NoSlash(dir) && NoSlash(id) && NoSlash(filename)
    requires id != "files"
    ensures ResourcePath(PublicUrl(dir, id, filename)) == "uploads/" + dir + "/" + id + "/" + filename
  {
    StorageKeyOfPublicUrl(dir, id, filename);
  }
}
