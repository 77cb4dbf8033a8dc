/**
 * The path rules of the artifact provider that stores items as blobs of one
 * container under an optional prefix folder: prefix normalisation, the blob
 * path used for upload and download, the item path given to listed blobs and
 * the basename rewrite after a download. The storage service's calls are
 * represented by their outcomes, passed in as parameters.
 */
module BlobProvider {
  import opened Wrappers
  import opened JsString
  import opened PosixPath

  datatype ItemType = File | Folder

  /** An artifact item exchanged with the transfer engine; the provider rewrites its path and metadata in place. */
  class ArtifactItem {
    var path: string
    var itemType: ItemType
    var metadata: map<string, string>

    constructor (path: string, itemType: ItemType)
      ensures this.path == path && this.itemType == itemType && metadata == map[]
    {
      this.path := path;
      this.itemType := itemType;
      metadata := map[];
    }
  }

  /** A blob as the container listing returns it. */
  datatype BlobEntry = BlobEntry(name: string)

  // ----- Path rules -----

  /**
   * The prefix folder kept by the constructor: empty when the option is absent or
   * empty; otherwise the option itself, with one `/` appended only when it does
   * not already end in `/`.
   */
  function NormalizePrefix(prefixFolderPath: Option<string>): (r: string)
    ensures r == [] <==> prefixFolderPath.None? || prefixFolderPath.value == []
    ensures r != [] ==> EndsWith(r, "/") && StartsWith(r, prefixFolderPath.value)
    ensures r != [] ==> |r| == |prefixFolderPath.value| + (if EndsWith(prefixFolderPath.value, "/") then 0 else 1)
  {
    match prefixFolderPath
    case None => []
    case Some(p) => if p == [] then [] else if EndsWith(p, "/") then p else p + "/"
  }

  /** Normalising an already normalised prefix changes nothing. */
  lemma NormalizePrefixIdempotent(prefixFolderPath: Option<string>)
    ensures NormalizePrefix(Some(NormalizePrefix(prefixFolderPath))) == NormalizePrefix(prefixFolderPath)
  {
  }

  /** The blob an upload writes: the item path under the prefix (an empty prefix leaves it as it is). */
  function UploadBlobPath(prefix: string, itemPath: string): (r: string)
    ensures r == prefix + itemPath
  {
    if prefix != [] then prefix + itemPath else itemPath
  }

  /** The blob a download reads: the prefix is re-added unless listed items kept it. */
  function DownloadBlobPath(prefix: string, addPrefix: bool, itemPath: string): (r: string)
    ensures addPrefix ==> r == itemPath
    ensures !addPrefix ==> r == prefix + itemPath
  {
    if !addPrefix && prefix != [] then prefix + itemPath else itemPath
  }

  /**
   * `blobName.replace(prefix, "").trim()`: the first occurrence of the prefix is
   * removed and the rest trimmed. A name that starts with the prefix loses
   * exactly that start; a name without it is only trimmed.
   */
  function StripPrefix(blobName: string, prefix: string): (r: string)
    ensures StartsWith(blobName, prefix) ==> r == Trim(blobName[|prefix|..])
    ensures IndexOf(blobName, prefix).None? ==> r == Trim(blobName)
    ensures IndexOf(blobName, prefix).Some? ==>
      var i := IndexOf(blobName, prefix).value; r == Trim(blobName[..i] + blobName[i + |prefix|..])
    ensures |r| <= |blobName|
  {
    assert IndexOf(blobName, prefix).Some? ==>
      var i := IndexOf(blobName, prefix).value;
      ReplaceFirst(blobName, prefix, "") == blobName[..i] + blobName[i + |prefix|..] by {
      if IndexOf(blobName, prefix).Some? {
        RemoveFirstOccurrence(blobName, prefix);
      }
    }
    assert StartsWith(blobName, prefix) ==> ReplaceFirst(blobName, prefix, "") == blobName[|prefix|..] by {
      if StartsWith(blobName, prefix) {
        assert blobName == prefix + blobName[|prefix|..];
        RemoveLeadingOccurrence(prefix, blobName[|prefix|..]);
      }
    }
    Trim(ReplaceFirst(blobName, prefix, ""))
  }

  /**
   * Whatever comes before it, the first occurrence of the prefix is the one cut
   * out: a name whose first occurrence of the prefix is at `i` loses the stretch
   * at `i` and is trimmed.
   */
  lemma StripPrefixAtFirstOccurrence(blobName: string, prefix: string, i: nat)
    requires OccursAt(blobName, prefix, i) && forall j :: 0 <= j < i ==> !OccursAt(blobName, prefix, j)
    ensures StripPrefix(blobName, prefix) == Trim(blobName[..i] + blobName[i + |prefix|..])
  {
    FirstOccurrenceIsIndexOf(blobName, prefix, i);
    RemoveFirstOccurrence(blobName, prefix);
    assert ReplaceFirst(blobName, prefix, "") == blobName[..i] + blobName[i + |prefix|..];
  }

  /** The occurrence with none before it is the one `indexOf` finds. */
  lemma FirstOccurrenceIsIndexOf(s: string, pat: string, i: nat)
    requires OccursAt(s, pat, i) && forall j :: 0 <= j < i ==> !OccursAt(s, pat, j)
    ensures IndexOf(s, pat) == Some(i)
  {
    var found := IndexOf(s, pat);
    assert found.None? ==> !OccursAt(s, pat, i);
    var v: nat := found.value;
    assert v < i ==> !OccursAt(s, pat, v);
    assert i < v ==> !OccursAt(s, pat, i);
  }

  /**
   * The path a listed blob gets as an item: the prefix is stripped only when it
   * is not empty and items do not keep it; then a name starting with the prefix
   * loses exactly that start and is trimmed, and any other name has the first
   * occurrence of the prefix removed and is trimmed.
   */
  function ListedItemPath(prefix: string, addPrefix: bool, blobName: string): (r: string)
    ensures addPrefix || prefix == [] ==> r == blobName
    ensures !addPrefix && prefix != [] ==> r == StripPrefix(blobName, prefix)
    ensures !addPrefix && prefix != [] && StartsWith(blobName, prefix) ==> r == Trim(blobName[|prefix|..])
    ensures |r| <= |blobName|
  {
    if !addPrefix && prefix != [] then StripPrefix(blobName, prefix) else blobName
  }

  /**
   * List, then download: for a blob under the prefix whose remaining name has no
   * whitespace at either end, the download path of its item is the blob's name.
   */
  lemma ListThenDownload(prefix: string, addPrefix: bool, rest: string)
    requires IsTrimmed(rest)
    ensures DownloadBlobPath(prefix, addPrefix, ListedItemPath(prefix, addPrefix, prefix + rest)) == prefix + rest
  {
    if !addPrefix && prefix != [] {
      assert (prefix + rest)[|prefix|..] == rest;
      TrimOfTrimmed(rest);
    }
  }

  /** The round trip needs the trimmed name: a trailing space is lost and the download asks for another blob. */
  lemma TrailingSpaceBreaksRoundTrip()
    ensures ListedItemPath("p/", false, "p/a ") == "a"
    ensures DownloadBlobPath("p/", false, ListedItemPath("p/", false, "p/a ")) != "p/a "
  {
    TrailingSpaceSteps();
  }

  lemma TrailingSpaceSteps()
    ensures StartsWith("p/a ", "p/") && "p/a "[2..] == "a "
    ensures Trim("a ") == "a"
  {
    assert "p/a "[..2] == "p/";
    assert "p/a "[2..] == "a ";
    assert SkipWhitespace("a ", 0) == 0;
    assert SkipWhitespaceBack("a ", 2) == 1;
  }

  /** Only the first occurrence goes: an item path can still start with the prefix. */
  lemma OnlyFirstOccurrenceStripped()
    ensures ListedItemPath("p/", false, "p/p/a") == "p/a"
  {
    assert StartsWith("p/p/a", "p/");
    assert "p/p/a"[2..] == "p/a";
    TrimOfTrimmed("p/a");
  }

  /** The first occurrence goes even when it is not at the start: `x/p/a` lists as `x/a`. */
  lemma MiddleOccurrenceStripped()
    ensures ListedItemPath("p/", false, "x/p/a") == "x/a"
  {
    MiddleOccurrenceSteps();
    StripPrefixAtFirstOccurrence("x/p/a", "p/", 2);
    TrimOfTrimmed("x/a");
  }

  lemma MiddleOccurrenceSteps()
    ensures OccursAt("x/p/a", "p/", 2)
    ensures !OccursAt("x/p/a", "p/", 0) && !OccursAt("x/p/a", "p/", 1)
    ensures "x/p/a"[..2] + "x/p/a"[4..] == "x/a"
    ensures IsTrimmed("x/a")
  {
    assert "x/p/a"[2..4] == "p/";
    assert "x/p/a"[0..2][0] == 'x';
    assert "x/p/a"[1..3][0] == '/';
    assert "x/p/a"[..2] == "x/";
    assert "x/p/a"[4..] == "a";
  }

  // ----- The provider -----

  class AzureBlobProvider {
    const storageAccount: string
    const containerName: string
    const accessKey: string
    /** The normalised prefix folder: empty, or ending in `/`. */
    const prefix: string
    /** Whether listed and downloaded items keep the prefix in their paths. */
    const addPrefix: bool

    /** Normalises the prefix folder; an absent flag means items do not keep the prefix. */
    constructor (storageAccount: string, containerName: string, accessKey: string,
                 prefixFolderPath: Option<string>, addPrefixToDownloadedItems: Option<bool>)
      ensures prefix == [] || EndsWith(prefix, "/")
      ensures this.storageAccount == storageAccount && this.containerName == containerName && this.accessKey == accessKey
      ensures prefix == NormalizePrefix(prefixFolderPath)
      ensures addPrefix <==> addPrefixToDownloadedItems == Some(true)
    {
      this.storageAccount := storageAccount;
      this.accessKey := accessKey;
      this.containerName := containerName;
      if prefixFolderPath.Some? && prefixFolderPath.value != [] {
        prefix := if EndsWith(prefixFolderPath.value, "/") then prefixFolderPath.value else prefixFolderPath.value + "/";
      } else {
        prefix := [];
      }
      addPrefix := addPrefixToDownloadedItems == Some(true);
    }

    /**
     * `putArtifactItem`: uploads to the item's path under the prefix. `upload` is
     * the storage service's answer for that blob: its URL, or the error it raised.
     * On success the URL is recorded as the item's `destinationUrl`; on failure
     * the error propagates and the item is left as it was.
     */
    method PutArtifactItem(item: ArtifactItem, upload: Result<string>) returns (r: Result<ArtifactItem>, blobPath: string)
      modifies item
      ensures blobPath == UploadBlobPath(prefix, item.path)
      ensures item.path == old(item.path) && item.itemType == old(item.itemType)
      ensures upload.Success? ==>
        r == Success(item) && item.metadata == old(item.metadata)["destinationUrl" := upload.value]
      ensures upload.Failure? ==> r == Failure(upload.error) && item.metadata == old(item.metadata)
    {
      blobPath := if prefix != [] then prefix + item.path else item.path;
      match upload
      case Success(blobUrl) =>
        item.metadata := item.metadata["destinationUrl" := blobUrl];
        r := Success(item);
      case Failure(error) =>
        r := Failure(error);
    }

    /** `getArtifactItems`: nested listing is not supported and always fails. */
    method GetArtifactItems(artifactItem: ArtifactItem) returns (r: Result<seq<ArtifactItem>>)
      ensures r == Failure("GetArtifactItemsNotSupported")
    {
      r := Failure("GetArtifactItemsNotSupported");
    }

    /**
     * `getArtifactItem`: reads the blob at the item's download path. `download` is
     * the storage service's answer for that blob: a stream, or the error it raised.
     * After a successful download the item's path is its basename.
     */
    method GetArtifactItem<S>(artifactItem: ArtifactItem, download: Result<S>) returns (r: Result<S>, blobPath: string)
      modifies artifactItem
      ensures blobPath == DownloadBlobPath(prefix, addPrefix, old(artifactItem.path))
      ensures r == download
      ensures artifactItem.path == if download.Success? then Basename(old(artifactItem.path)) else old(artifactItem.path)
      ensures artifactItem.itemType == old(artifactItem.itemType) && artifactItem.metadata == old(artifactItem.metadata)
    {
      blobPath := artifactItem.path;
      if !addPrefix && prefix != [] {
        blobPath := prefix + artifactItem.path;
      }
      match download
      case Success(stream) =>
        artifactItem.path := Basename(artifactItem.path);
        r := Success(stream);
      case Failure(error) =>
        r := Failure(error);
    }

    /**
     * `getRootItems`: lists the container under the prefix and converts every blob.
     * `listBlobsFlat` is the storage service's listing for a name prefix: all
     * pages in order, or the error a page request raised, which propagates.
     */
    method GetRootItems(listBlobsFlat: string -> Result<seq<BlobEntry>>) returns (r: Result<seq<ArtifactItem>>)
      ensures listBlobsFlat(prefix).Failure? ==> r == Failure(listBlobsFlat(prefix).error)
      ensures listBlobsFlat(prefix).Success? ==> r.Success? && |r.value| == |listBlobsFlat(prefix).value|
      ensures r.Success? ==> forall k :: 0 <= k < |r.value| ==> fresh(r.value[k])
      ensures r.Success? ==> forall j, k :: 0 <= j < k < |r.value| ==> r.value[j] != r.value[k]
      ensures r.Success? ==> forall k :: 0 <= k < |r.value| ==>
        r.value[k].itemType == File && r.value[k].path == ListedItemPath(prefix, addPrefix, listBlobsFlat(prefix).value[k].name)
    {
      match listBlobsFlat(prefix)
      case Failure(error) =>
        r := Failure(error);
      case Success(blobItems) =>
        var items := ConvertBlobResultToArtifactItems(blobItems);
        r := Success(items);
    }

    /**
     * `_convertBlobResultToArtifactItem`: one new file item per blob, no two
     * the same object, in the listing's order, whose path is the blob's name with the prefix stripped
     * unless items keep it.
     */
    method ConvertBlobResultToArtifactItems(blobItems: seq<BlobEntry>) returns (artifactItems: seq<ArtifactItem>)
      ensures |artifactItems| == |blobItems|
      ensures forall k :: 0 <= k < |artifactItems| ==> fresh(artifactItems[k])
      ensures forall j, k :: 0 <= j < k < |artifactItems| ==> artifactItems[j] != artifactItems[k]
      ensures forall k :: 0 <= k < |artifactItems| ==>
        artifactItems[k].itemType == File && artifactItems[k].path == ListedItemPath(prefix, addPrefix, blobItems[k].name)
    {
      artifactItems := [];
      var i := 0;
      while i < |blobItems|
        invariant 0 <= i <= |blobItems| && |artifactItems| == i
        invariant forall k :: 0 <= k < i ==> fresh(artifactItems[k])
        invariant forall j, k :: 0 <= j < k < i ==> artifactItems[j] != artifactItems[k]
        invariant forall k :: 0 <= k < i ==>
          artifactItems[k].itemType == File && artifactItems[k].path == ListedItemPath(prefix, addPrefix, blobItems[k].name)
      {
        var artifactItem := ConvertBlob(blobItems[i]);
        artifactItems := artifactItems + [artifactItem];
        i := i + 1;
      }
    }

    /** The `forEach` callback: a new file item for one listed blob, with the listed path. */
    method ConvertBlob(item: BlobEntry) returns (artifactItem: ArtifactItem)
      ensures fresh(artifactItem)
      ensures artifactItem.itemType == File && artifactItem.path == ListedItemPath(prefix, addPrefix, item.name)
    {
      artifactItem := new ArtifactItem(item.name, File);
      if !addPrefix && prefix != [] {
        // relative path without the prefix: its first occurrence is removed
        artifactItem.path := StripPrefix(item.name, prefix);
      }
    }
  }

  /** Every item listed by the provider is found again by a download, when its blob lies under the prefix with a trimmed rest. */
  lemma ListedItemsDownloadable(provider: AzureBlobProvider, blobName: string)
    requires StartsWith(blobName, provider.prefix) && IsTrimmed(blobName[|provider.prefix|..])
    ensures DownloadBlobPath(provider.prefix, provider.addPrefix,
      ListedItemPath(provider.prefix, provider.addPrefix, blobName)) == blobName
  {
    assert blobName == provider.prefix + blobName[|provider.prefix|..];
    ListThenDownload(provider.prefix, provider.addPrefix, blobName[|provider.prefix|..]);
  }
}
