/**
  The first-level scan of a folder: `FolderScanner.scan_folder`,
  `_get_dir_size` and `_get_file_count`, and their copies
  `get_first_level_entries`, `get_dir_size` and `get_file_count` in the
  single-file version of the tool. The file system calls (`os.scandir`,
  `os.walk`, `stat`, `os.path.getsize`) are replaced by the tree of module
  FsTree; progress printing is not modelled.
 */
module Scanner {

  import opened Wrappers
  import opened FsTree

  /** The one error that ends a scan: the folder itself cannot be listed. */
  datatype ScanError = CannotOpen

  /** The entries recorded for a listing, in listing order; a later entry with
      the same name overwrites an earlier one, as a dict assignment does. */
  function ScanListing(listing: seq<(string, Node)>): ScanResult
  {
    if listing == [] then map[]
    else
      var entries := ScanListing(listing[..|listing| - 1]);
      var last := listing[|listing| - 1];
      match FirstLevel(last.1)
      case Some(m) => entries[last.0 := m]
      case None => entries
  }

  /** A first-level directory that cannot be listed is not skipped: the walks below it
      yield nothing, so it is recorded with `(0, 0)`, which compares equal to an
      absent name. */
  lemma UnlistableDirectoryRecordedAsZero(listing: seq<(string, Node)>, name: string, ch: seq<(string, Node)>)
    ensures Walk(Dir(false, ch)) == []
    ensures var e := ScanListing(listing + [(name, Dir(false, ch))]);
      name in e && e[name] == Measurement(0, 0)
  {
  }

  /** Names in one directory listing are distinct. */
  predicate DistinctNames(listing: seq<(string, Node)>)
  {
    forall i, j :: 0 <= i < j < |listing| ==> listing[i].0 != listing[j].0
  }

  /** Every key of a scan is the name of a first-level entry. */
  lemma {:induction false} ScanKeysAreFirstLevelNames(listing: seq<(string, Node)>)
    ensures forall name :: name in ScanListing(listing) ==>
              exists i :: 0 <= i < |listing| && listing[i].0 == name && FirstLevel(listing[i].1).Some?
  {
    if listing != [] {
      var init := listing[..|listing| - 1];
      ScanKeysAreFirstLevelNames(init);
      forall name | name in ScanListing(listing)
        ensures exists i :: 0 <= i < |listing| && listing[i].0 == name && FirstLevel(listing[i].1).Some?
      {
        if name in ScanListing(init) {
          var i :| 0 <= i < |init| && init[i].0 == name && FirstLevel(init[i].1).Some?;
          assert listing[i] == init[i];
        } else {
          assert listing[|listing| - 1].0 == name;
        }
      }
    }
  }

  /** With distinct names, an entry is recorded exactly when `FirstLevel` keeps it,
      and it is recorded with `FirstLevel`'s measurement. */
  lemma {:induction false} ScanListingEntries(listing: seq<(string, Node)>)
    requires DistinctNames(listing)
    ensures forall i :: 0 <= i < |listing| ==>
              (listing[i].0 in ScanListing(listing) <==> FirstLevel(listing[i].1).Some?)
    ensures forall i :: 0 <= i < |listing| && FirstLevel(listing[i].1).Some? ==>
              ScanListing(listing)[listing[i].0] == FirstLevel(listing[i].1).value
  {
    if listing != [] {
      var n := |listing|;
      var init := listing[..n - 1];
      ScanListingEntries(init);
      ScanKeysAreFirstLevelNames(init);
      forall i | 0 <= i < n
        ensures listing[i].0 in ScanListing(listing) <==> FirstLevel(listing[i].1).Some?
        ensures FirstLevel(listing[i].1).Some? ==> ScanListing(listing)[listing[i].0] == FirstLevel(listing[i].1).value
      {
        if i < n - 1 {
          assert listing[i] == init[i];
          assert listing[i].0 != listing[n - 1].0;
        }
      }
    }
  }

  /** `_get_dir_size`: walks `folder` and adds up `os.path.getsize` of every file met;
      a file whose size read raises adds nothing, yet it still bumps the running
      counter `numSizedFilesTotal`, which comes back advanced by every file met. */
  method GetDirSize(folder: Node, numSizedFilesTotal: nat) returns (totalSizeThisFolder: nat, numSizedFiles: nat)
    ensures totalSizeThisFolder == (if folder.Dir? then TreeSize(folder) else 0)
    ensures numSizedFiles == numSizedFilesTotal + (if folder.Dir? then TreeCount(folder) else 0)
  {
    var walk := Walk(folder);
    totalSizeThisFolder, numSizedFiles := 0, numSizedFilesTotal;
    for i := 0 to |walk|
      invariant totalSizeThisFolder == WalkSize(walk[..i])
      invariant numSizedFiles == numSizedFilesTotal + WalkCount(walk[..i])
    {
      var files := walk[i];
      for j := 0 to |files|
        invariant totalSizeThisFolder == WalkSize(walk[..i]) + FilesSize(files[..j])
        invariant numSizedFiles == numSizedFilesTotal + WalkCount(walk[..i]) + j
      {
        numSizedFiles := numSizedFiles + 1;
        var f := files[j];
        if f.File? && f.readable {
          totalSizeThisFolder := totalSizeThisFolder + f.size;
        }
        assert files[..j + 1][..j] == files[..j];
      }
      assert files[..|files|] == files;
      assert walk[..i + 1][..i] == walk[..i];
    }
    assert walk[..|walk|] == walk;
    if folder.Dir? {
      WalkMatchesTree(folder);
    }
  }

  /** `_get_file_count`: walks `folder` adding the length of each `files` list; the
      running counter `countedFilesTotal` comes back advanced by the same amount. */
  method GetFileCount(folder: Node, countedFilesTotal: nat) returns (totalCountThisFolder: nat, countedFiles: nat)
    ensures totalCountThisFolder == (if folder.Dir? then TreeCount(folder) else 0)
    ensures countedFiles == countedFilesTotal + totalCountThisFolder
  {
    var walk := Walk(folder);
    totalCountThisFolder, countedFiles := 0, countedFilesTotal;
    for i := 0 to |walk|
      invariant totalCountThisFolder == WalkCount(walk[..i])
      invariant countedFiles == countedFilesTotal + totalCountThisFolder
    {
      totalCountThisFolder := totalCountThisFolder + |walk[i]|;
      countedFiles := countedFiles + |walk[i]|;
      assert walk[..i + 1][..i] == walk[..i];
    }
    assert walk[..|walk|] == walk;
    if folder.Dir? {
      WalkMatchesTree(folder);
    }
  }

  /** `scan_folder`: one pass over the folder's listing. A regular file is recorded
      as `(size, 1)`, a directory as its walked size and file count; a file whose
      `stat` raises and every other kind of entry are skipped. A folder that cannot
      be listed ends the scan with an error. */
  method ScanFolder(folder: Node) returns (r: Result<ScanResult, ScanError>)
    ensures folder.Dir? && folder.listable ==> r == Success(ScanListing(folder.children))
    ensures !(folder.Dir? && folder.listable) ==> r == Failure(CannotOpen)
  {
    if !(folder.Dir? && folder.listable) {
      return Failure(CannotOpen);
    }
    var listing := folder.children;
    var entries: ScanResult := map[];
    // Running totals across entries; in the source they only feed the progress line.
    var numSizedFilesTotal: nat, countedFilesTotal: nat := 0, 0;
    for i := 0 to |listing|
      invariant entries == ScanListing(listing[..i])
    {
      assert listing[..i + 1][..i] == listing[..i];
      var (name, node) := listing[i];
      var sizeThisItem: nat, filecountThisItem: nat;
      match node {
        case File(size, readable) =>
          numSizedFilesTotal := numSizedFilesTotal + 1;
          if !readable {
            // entry.stat() raises OSError: the entry is skipped
            continue;
          }
          sizeThisItem, filecountThisItem := size, 1;
          countedFilesTotal := countedFilesTotal + 1;
        case Dir(_, _) =>
          sizeThisItem, numSizedFilesTotal := GetDirSize(node, numSizedFilesTotal);
          filecountThisItem, countedFilesTotal := GetFileCount(node, countedFilesTotal);
        case Other =>
          continue;
      }
      entries := entries[name := Measurement(sizeThisItem, filecountThisItem)];
    }
    assert listing[..|listing|] == listing;
    return Success(entries);
  }
}
