/**
 * The blob storage service: naming, uploading and deleting the files attached to an
 * entity field. The blob container is an object holding the blobs it stores, keyed by
 * blob name; the clock that `GetTimeStamp` reads is a parameter.
 */
module FileService {
  import opened Text
  import opened Numerals
  import opened Guids
  import opened Seqs

  // ---------------------------------------------------------------------------
  // Timestamps

  /** A local date and time to the millisecond. */
  datatype DateTime = DateTime(year: nat, month: nat, day: nat, hour: nat, minute: nat, second: nat, millisecond: nat)

  predicate ValidDateTime(t: DateTime) {
    && 1 <= t.year <= 9999 && 1 <= t.month <= 12 && 1 <= t.day <= 31
    && t.hour < 24 && t.minute < 60 && t.second < 60 && t.millisecond < 1000
  }

  /** A reading of `DateTime.Now`. */
  type Moment = t: DateTime | ValidDateTime(t) witness DateTime(1, 1, 1, 0, 0, 0, 0)

  /** `GetTimeStamp()`: the time formatted as `yyyyMMddHHmmssfff`. */
  function TimeStamp(t: Moment): (s: string)
    ensures |s| == 17 && AllDigitsIn(s, 10)
  {
    Pad(t.year, 4, 10) + Pad(t.month, 2, 10) + Pad(t.day, 2, 10) + Pad(t.hour, 2, 10)
      + Pad(t.minute, 2, 10) + Pad(t.second, 2, 10) + Pad(t.millisecond, 3, 10)
  }

  /** Reads the seven fields back from their fixed columns. */
  function ParseTimeStamp(s: string): DateTime
    requires |s| == 17 && AllDigitsIn(s, 10)
  {
    DateTime(Value(s[..4], 10), Value(s[4..6], 10), Value(s[6..8], 10), Value(s[8..10], 10),
             Value(s[10..12], 10), Value(s[12..14], 10), Value(s[14..], 10))
  }

  /** The timestamp loses nothing: every field can be read back from its columns. */
  lemma TimeStampRoundTrip(t: Moment)
    ensures ParseTimeStamp(TimeStamp(t)) == t
  {
    var s := TimeStamp(t);
    assert Pow(10, 2) == 100;
    assert Pow(10, 3) == 1000;
    assert Pow(10, 4) == 10000;
    assert s[..4] == Pad(t.year, 4, 10);
    assert s[4..6] == Pad(t.month, 2, 10);
    assert s[6..8] == Pad(t.day, 2, 10);
    assert s[8..10] == Pad(t.hour, 2, 10);
    assert s[10..12] == Pad(t.minute, 2, 10);
    assert s[12..14] == Pad(t.second, 2, 10);
    assert s[14..] == Pad(t.millisecond, 3, 10);
    PadValue(t.year, 4, 10);
    PadValue(t.month, 2, 10);
    PadValue(t.day, 2, 10);
    PadValue(t.hour, 2, 10);
    PadValue(t.minute, 2, 10);
    PadValue(t.second, 2, 10);
    PadValue(t.millisecond, 3, 10);
  }

  /** Different moments give different timestamp folders. */
  lemma TimeStampInjective(a: Moment, b: Moment)
    requires TimeStamp(a) == TimeStamp(b)
    ensures a == b
  {
    TimeStampRoundTrip(a);
    TimeStampRoundTrip(b);
  }

  // ---------------------------------------------------------------------------
  // Blob names

  /** An uploaded file: its name and its content. */
  datatype FormFile = FormFile(fileName: string, contentType: string, content: seq<bv8>)

  function Folder(tenantId: Guid, entityName: string, fieldName: string): string {
    GuidText(tenantId) + "/" + entityName + "/" + fieldName + "/"
  }

  /** `{tenantId}/{entityName}/{fieldName}/{fileName}`. */
  function BlobPath(tenantId: Guid, entityName: string, fieldName: string, fileName: string): string {
    Folder(tenantId, entityName, fieldName) + fileName
  }

  /** `{tenantId}/{entityName}/{fieldName}/{timestamp}/{fileName}`. */
  function StampedBlobPath(tenantId: Guid, entityName: string, fieldName: string, stamp: string, fileName: string): string {
    Folder(tenantId, entityName, fieldName) + stamp + "/" + fileName
  }

  /**
   * The blob a named file is uploaded to: its plain path unless a blob of that name
   * exists, in which case a timestamped sub-folder, whose name is not probed again.
   */
  function TargetPath(existing: set<string>, tenantId: Guid, entityName: string, fieldName: string, fileName: string, now: Moment)
    : (p: string)
    ensures p == BlobPath(tenantId, entityName, fieldName, fileName) <==> BlobPath(tenantId, entityName, fieldName, fileName) !in existing
    ensures StartsWith(p, Folder(tenantId, entityName, fieldName)) && EndsWith(p, fileName)
  {
    var plain := BlobPath(tenantId, entityName, fieldName, fileName);
    if plain in existing then StampedBlobPath(tenantId, entityName, fieldName, TimeStamp(now), fileName) else plain
  }

  // ---------------------------------------------------------------------------
  // SaveFiles as a function of the container's blobs

  /** The paths returned so far and the container's blobs at that point. */
  datatype SaveState = SaveState(paths: seq<string>, blobs: map<string, FormFile>)

  /** One pass of the `foreach` in SaveFiles. */
  function SaveOne(state: SaveState, uri: string, tenantId: Guid, entityName: string, fieldName: string, file: FormFile, now: Moment)
    : (r: SaveState)
    ensures state.blobs.Keys <= r.blobs.Keys
  {
    if file.fileName == "" then SaveState(state.paths + [""], state.blobs)
    else
      var p := TargetPath(state.blobs.Keys, tenantId, entityName, fieldName, file.fileName, now);
      SaveState(state.paths + [uri + "/" + p], state.blobs[p := file])
  }

  /**
   * Saving `files` one after another into a container holding `blobs`, the clock
   * reading `now(i)` while the i-th file is saved. Every file yields exactly one path,
   * and no blob is removed.
   */
  function Saved(blobs: map<string, FormFile>, uri: string, tenantId: Guid, entityName: string, fieldName: string,
                 files: seq<FormFile>, now: nat -> Moment): (r: SaveState)
    ensures |r.paths| == |files|
    ensures blobs.Keys <= r.blobs.Keys
  {
    if files == [] then SaveState([], blobs)
    else
      var n := |files| - 1;
      SaveOne(Saved(blobs, uri, tenantId, entityName, fieldName, files[..n], now), uri, tenantId, entityName, fieldName, files[n], now(n))
  }

  /** The path of a file is "" exactly when the file has no name. */
  lemma SavedEmptyPaths(blobs: map<string, FormFile>, uri: string, tenantId: Guid, entityName: string, fieldName: string,
                        files: seq<FormFile>, now: nat -> Moment)
    ensures var r := Saved(blobs, uri, tenantId, entityName, fieldName, files, now);
      forall i :: 0 <= i < |files| ==> (r.paths[i] == "" <==> files[i].fileName == "")
  {
    forall i | 0 <= i < |files|
      ensures Saved(blobs, uri, tenantId, entityName, fieldName, files, now).paths[i] == "" <==> files[i].fileName == ""
    {
      SavedAt(blobs, uri, tenantId, entityName, fieldName, files, now, i);
      var upTo := Saved(blobs, uri, tenantId, entityName, fieldName, files[..i + 1], now);
      SavedPrefix(blobs, uri, tenantId, entityName, fieldName, files, now, i + 1);
      PrefixIndex(upTo.paths, Saved(blobs, uri, tenantId, entityName, fieldName, files, now).paths, i);
    }
  }

  /** The blob the i-th file is written to: chosen against the blobs saved before it. */
  function BlobOf(blobs: map<string, FormFile>, tenantId: Guid, entityName: string, fieldName: string,
                  files: seq<FormFile>, now: nat -> Moment, i: nat): string
    requires i < |files|
  {
    TargetPath(Saved(blobs, "", tenantId, entityName, fieldName, files[..i], now).blobs.Keys,
               tenantId, entityName, fieldName, files[i].fileName, now(i))
  }

  /** The container URI plays no part in which blobs are written. */
  lemma {:induction false} SavedBlobsIgnoreUri(blobs: map<string, FormFile>, uri: string, other: string, tenantId: Guid,
                                               entityName: string, fieldName: string, files: seq<FormFile>, now: nat -> Moment)
    ensures Saved(blobs, uri, tenantId, entityName, fieldName, files, now).blobs ==
            Saved(blobs, other, tenantId, entityName, fieldName, files, now).blobs
  {
    if files != [] {
      SavedBlobsIgnoreUri(blobs, uri, other, tenantId, entityName, fieldName, files[..|files| - 1], now);
    }
  }

  /** Saving more files never changes the paths already returned. */
  lemma {:induction false} SavedPrefix(blobs: map<string, FormFile>, uri: string, tenantId: Guid, entityName: string, fieldName: string,
                                       files: seq<FormFile>, now: nat -> Moment, j: nat)
    requires j <= |files|
    ensures Saved(blobs, uri, tenantId, entityName, fieldName, files, now).paths[..j] ==
            Saved(blobs, uri, tenantId, entityName, fieldName, files[..j], now).paths
    decreases |files|
  {
    if j < |files| {
      var n := |files| - 1;
      SavedPrefix(blobs, uri, tenantId, entityName, fieldName, files[..n], now, j);
      assert files[..n][..j] == files[..j];
    } else {
      assert files[..j] == files;
    }
  }

  /**
   * The i-th path of a named file is the container URI, "/", and the blob it was
   * written to; that blob is the plain path exactly when no blob of that name existed
   * before it, and otherwise the timestamped path taken at the time of that file.
   */
  lemma SavedPath(blobs: map<string, FormFile>, uri: string, tenantId: Guid, entityName: string, fieldName: string,
                  files: seq<FormFile>, now: nat -> Moment, i: nat)
    requires i < |files| && files[i].fileName != ""
    ensures var b := BlobOf(blobs, tenantId, entityName, fieldName, files, now, i);
      && Saved(blobs, uri, tenantId, entityName, fieldName, files, now).paths[i] == uri + "/" + b
      && (b == BlobPath(tenantId, entityName, fieldName, files[i].fileName) <==>
          BlobPath(tenantId, entityName, fieldName, files[i].fileName) !in Saved(blobs, uri, tenantId, entityName, fieldName, files[..i], now).blobs)
      && (b != BlobPath(tenantId, entityName, fieldName, files[i].fileName) ==>
          b == StampedBlobPath(tenantId, entityName, fieldName, TimeStamp(now(i)), files[i].fileName))
  {
    var before := Saved(blobs, uri, tenantId, entityName, fieldName, files[..i], now);
    var b := BlobOf(blobs, tenantId, entityName, fieldName, files, now, i);
    SavedBlobsIgnoreUri(blobs, uri, "", tenantId, entityName, fieldName, files[..i], now);
    assert b == TargetPath(before.blobs.Keys, tenantId, entityName, fieldName, files[i].fileName, now(i));
    SavedAt(blobs, uri, tenantId, entityName, fieldName, files, now, i);
    var upTo := Saved(blobs, uri, tenantId, entityName, fieldName, files[..i + 1], now);
    assert upTo.paths[i] == uri + "/" + b;
    SavedPrefix(blobs, uri, tenantId, entityName, fieldName, files, now, i + 1);
    PrefixIndex(upTo.paths, Saved(blobs, uri, tenantId, entityName, fieldName, files, now).paths, i);
  }

  /** Saving up to the i-th file is saving up to the one before it, then that file. */
  lemma SavedAt(blobs: map<string, FormFile>, uri: string, tenantId: Guid, entityName: string, fieldName: string,
                files: seq<FormFile>, now: nat -> Moment, i: nat)
    requires i < |files|
    ensures Saved(blobs, uri, tenantId, entityName, fieldName, files[..i + 1], now) ==
            SaveOne(Saved(blobs, uri, tenantId, entityName, fieldName, files[..i], now), uri, tenantId, entityName, fieldName, files[i], now(i))
  {
    assert files[..i + 1][..i] == files[..i];
  }

  /** Each named file ends up stored: under its blob, unless a later file took that name. */
  lemma SavedStored(blobs: map<string, FormFile>, uri: string, tenantId: Guid, entityName: string, fieldName: string,
                    files: seq<FormFile>, now: nat -> Moment, i: nat)
    requires i < |files| && files[i].fileName != ""
    ensures var b := BlobOf(blobs, tenantId, entityName, fieldName, files, now, i);
      && b in Saved(blobs, uri, tenantId, entityName, fieldName, files[..i + 1], now).blobs
      && Saved(blobs, uri, tenantId, entityName, fieldName, files[..i + 1], now).blobs[b] == files[i]
      && b in Saved(blobs, uri, tenantId, entityName, fieldName, files, now).blobs
  {
    assert files[..i + 1][..i] == files[..i];
    SavedBlobsIgnoreUri(blobs, uri, "", tenantId, entityName, fieldName, files[..i], now);
    SavedKeysGrow(blobs, uri, tenantId, entityName, fieldName, files, now, i + 1);
  }

  lemma {:induction false} SavedKeysGrow(blobs: map<string, FormFile>, uri: string, tenantId: Guid, entityName: string, fieldName: string,
                                         files: seq<FormFile>, now: nat -> Moment, j: nat)
    requires j <= |files|
    ensures Saved(blobs, uri, tenantId, entityName, fieldName, files[..j], now).blobs.Keys <=
            Saved(blobs, uri, tenantId, entityName, fieldName, files, now).blobs.Keys
    decreases |files|
  {
    if j < |files| {
      var n := |files| - 1;
      SavedKeysGrow(blobs, uri, tenantId, entityName, fieldName, files[..n], now, j);
      assert files[..n][..j] == files[..j];
      SavedLastKeys(blobs, uri, tenantId, entityName, fieldName, files, now);
    } else {
      assert files[..j] == files;
    }
  }

  /** The last file saved never removes a blob. */
  lemma SavedLastKeys(blobs: map<string, FormFile>, uri: string, tenantId: Guid, entityName: string, fieldName: string,
                      files: seq<FormFile>, now: nat -> Moment)
    requires files != []
    ensures Saved(blobs, uri, tenantId, entityName, fieldName, files[..|files| - 1], now).blobs.Keys <=
            Saved(blobs, uri, tenantId, entityName, fieldName, files, now).blobs.Keys
  {
  }

  /**
   * A file whose plain path is taken gets the timestamped path even when that one is
   * taken too: the new upload replaces it.
   */
  lemma StampedPathNotRechecked(blobs: map<string, FormFile>, uri: string, tenantId: Guid, entityName: string, fieldName: string,
                                file: FormFile, now: nat -> Moment)
    requires file.fileName != ""
    requires BlobPath(tenantId, entityName, fieldName, file.fileName) in blobs
    requires StampedBlobPath(tenantId, entityName, fieldName, TimeStamp(now(0)), file.fileName) in blobs
    ensures var r := Saved(blobs, uri, tenantId, entityName, fieldName, [file], now);
      var stamped := StampedBlobPath(tenantId, entityName, fieldName, TimeStamp(now(0)), file.fileName);
      r.paths == [uri + "/" + stamped] && r.blobs == blobs[stamped := file]
  {
    assert [file][..0] == [];
  }

  // ---------------------------------------------------------------------------
  // Relative paths for DeleteFiles

  /**
   * The blob name a stored path refers to: the part after the first "/{container}/"
   * and before the next one, or the whole path when it has no such part.
   */
  function RelativePath(path: string, containerName: string): (r: string)
    ensures !Contains(r, "/" + containerName + "/")
  {
    var marker := "/" + containerName + "/";
    if Contains(path, marker) then
      SplitOnMany(path, marker);
      SplitOnPartsFree(path, marker);
      SplitOn(path, marker)[1]
    else path
  }

  /** A path that never mentions the container's folder is used as the blob name itself. */
  lemma RelativePathUnmarked(path: string, containerName: string)
    requires !Contains(path, "/" + containerName + "/")
    ensures RelativePath(path, containerName) == path
  {
  }

  /** `x/{container}/y` is `x`, the marker "/{container}/" and `y`; the marker less its last "/" ends `x/{container}`. */
  lemma MarkerParts(x: string, containerName: string, y: string)
    ensures x + "/" + containerName + "/" + y == x + ("/" + containerName + "/") + y
    ensures x + ("/" + containerName + "/")[..|"/" + containerName + "/"| - 1] == x + "/" + containerName
  {
    var marker := "/" + containerName + "/";
    assert marker[..|marker| - 1] == "/" + containerName;
  }

  /**
   * After the first "/{container}/" (one that starts after `prefix`), the blob name
   * runs up to the next one.
   */
  lemma RelativePathAfter(prefix: string, containerName: string, rest: string)
    requires !Contains(prefix + "/" + containerName, "/" + containerName + "/")
    ensures RelativePath(prefix + "/" + containerName + "/" + rest, containerName) ==
            SplitOn(rest, "/" + containerName + "/")[0]
  {
    var marker := "/" + containerName + "/";
    var path := prefix + "/" + containerName + "/" + rest;
    MarkerParts(prefix, containerName, rest);
    SplitOnAfter(prefix, marker, rest);
    assert path[|prefix|..|prefix| + |marker|] == marker;
    assert OccursAt(path, marker, |prefix|);
  }

  /**
   * The path SaveFiles returns leads DeleteFiles back to the blob it saved, when the
   * container URI ends in "/{container}" and neither the URI nor the blob name
   * contains "/{container}/".
   */
  lemma RelativePathOfSaved(host: string, containerName: string, blob: string)
    requires !Contains(host + "/" + containerName, "/" + containerName + "/")
    requires !Contains(blob, "/" + containerName + "/")
    ensures RelativePath(host + "/" + containerName + "/" + blob, containerName) == blob
  {
    RelativePathAfter(host, containerName, blob);
    SplitOnWithout(blob, "/" + containerName + "/");
  }

  /** Text after a second "/{container}/" is dropped. */
  lemma RelativePathDropsSecondPart(containerName: string, a: string, b: string, c: string)
    requires !Contains(a + "/" + containerName, "/" + containerName + "/")
    requires !Contains(b + "/" + containerName, "/" + containerName + "/")
    ensures RelativePath(a + "/" + containerName + "/" + (b + "/" + containerName + "/" + c), containerName) == b
  {
    var marker := "/" + containerName + "/";
    RelativePathAfter(a, containerName, b + "/" + containerName + "/" + c);
    MarkerParts(b, containerName, c);
    SplitOnAfter(b, marker, c);
  }

  function RelativePaths(paths: seq<string>, containerName: string): set<string> {
    set p | p in paths :: RelativePath(p, containerName)
  }

  /**
   * `DeleteIfExistsAsync` for each path in turn: true when its blob is still there,
   * false when it never was or an earlier path of the batch already deleted it.
   */
  function DeleteStatuses(existing: set<string>, paths: seq<string>, containerName: string): (status: seq<bool>)
    ensures |status| == |paths|
    ensures forall i :: 0 <= i < |paths| ==>
      (status[i] <==> RelativePath(paths[i], containerName) in existing &&
                      forall j :: 0 <= j < i ==> RelativePath(paths[j], containerName) != RelativePath(paths[i], containerName))
  {
    if paths == [] then []
    else
      var n := |paths| - 1;
      var earlier := paths[..n];
      var rel := RelativePath(paths[n], containerName);
      assert forall j :: 0 <= j < n ==> earlier[j] == paths[j];
      assert rel !in RelativePaths(earlier, containerName) <==> forall j :: 0 <= j < n ==> RelativePath(paths[j], containerName) != rel;
      DeleteStatuses(existing, earlier, containerName) + [rel in existing - RelativePaths(earlier, containerName)]
  }

  lemma DeleteStep(existing: set<string>, paths: seq<string>, containerName: string, i: nat)
    requires i < |paths|
    ensures var rel := RelativePath(paths[i], containerName);
      && RelativePaths(paths[..i + 1], containerName) == RelativePaths(paths[..i], containerName) + {rel}
      && DeleteStatuses(existing, paths[..i + 1], containerName) ==
         DeleteStatuses(existing, paths[..i], containerName) + [rel in existing - RelativePaths(paths[..i], containerName)]
  {
    assert paths[..i + 1][..i] == paths[..i];
    assert paths[..i + 1] == paths[..i] + [paths[i]];
  }

  /** Removing one more name from what is left: it was there exactly when it was stored and not yet removed. */
  lemma RemoveAgain(m: map<string, FormFile>, removed: set<string>, rel: string)
    ensures rel in m - removed <==> rel in m.Keys - removed
    ensures (m - removed) - {rel} == m - (removed + {rel})
  {
  }

  // ---------------------------------------------------------------------------
  // The container

  /** A blob container: its name, its URI and the blobs it holds. */
  class BlobContainer {
    const name: string
    const uri: string
    var blobs: map<string, FormFile>

    constructor (name: string, uri: string, blobs: map<string, FormFile>)
      ensures this.name == name && this.uri == uri && this.blobs == blobs
    {
      this.name := name;
      this.uri := uri;
      this.blobs := blobs;
    }

    /**
     * `SaveFiles(tenantId, entityName, fieldName, files)`: one path per file, in order;
     * `now(i)` is the clock reading while the i-th file is saved.
     */
    method SaveFiles(tenantId: Guid, entityName: string, fieldName: string, files: seq<FormFile>, now: nat -> Moment)
      returns (filePath: seq<string>)
      modifies this
      ensures SaveState(filePath, blobs) == Saved(old(blobs), uri, tenantId, entityName, fieldName, files, now)
    {
      filePath := [];
      var i := 0;
      while i < |files|
        invariant 0 <= i <= |files|
        invariant SaveState(filePath, blobs) == Saved(old(blobs), uri, tenantId, entityName, fieldName, files[..i], now)
      {
        var file := files[i];
        var path := "";
        if file.fileName != "" {
          path := BlobPath(tenantId, entityName, fieldName, file.fileName);
          if path in blobs {
            path := StampedBlobPath(tenantId, entityName, fieldName, TimeStamp(now(i)), file.fileName);
          }
          blobs := blobs[path := file];
          path := uri + "/" + path;
        }
        filePath := filePath + [path];
        assert files[..i + 1][..i] == files[..i];
        i := i + 1;
      }
      assert files[..i] == files;
    }

    /** `DeleteFiles(filePaths)`: one status per path, in order; the named blobs are gone. */
    method DeleteFiles(filePaths: seq<string>) returns (deleteStatus: seq<bool>)
      modifies this
      ensures deleteStatus == DeleteStatuses(old(blobs).Keys, filePaths, name)
      ensures blobs == old(blobs) - RelativePaths(filePaths, name)
    {
      deleteStatus := [];
      var i := 0;
      while i < |filePaths|
        invariant 0 <= i <= |filePaths|
        invariant deleteStatus == DeleteStatuses(old(blobs).Keys, filePaths[..i], name)
        invariant blobs == old(blobs) - RelativePaths(filePaths[..i], name)
      {
        var path := filePaths[i];
        var marker := "/" + name + "/";
        var relativePath := if Contains(path, marker) then RelativePath(path, name) else path;
        var result := relativePath in blobs;
        RemoveAgain(old(blobs), RelativePaths(filePaths[..i], name), relativePath);
        blobs := blobs - {relativePath};
        deleteStatus := deleteStatus + [result];
        DeleteStep(old(blobs).Keys, filePaths, name, i);
        i := i + 1;
      }
      assert filePaths[..i] == filePaths;
    }
  }
}
