/**
  The totals of a whole scan against the folder it scans. The TOTAL row of a
  comparison sums a scan's values; this module ties that sum to the recursive
  bytes and file count of the scanned folder, apart from the first-level
  entries the scan leaves out.
 */
module ScanTotals {

  import opened FsTree
  import opened Compare
  import opened Scanner

  /** How many of the first `k` entries of a listing the first-level scan leaves out:
      files whose `stat` raises, and entries that are neither a regular file nor a
      directory (sockets, FIFOs, first-level links). */
  function SkippedCount(listing: seq<(string, Node)>, k: nat): nat
    requires k <= |listing|
  {
    if k == 0 then 0
    else SkippedCount(listing, k - 1) + (if FirstLevel(listing[k - 1].1).None? then 1 else 0)
  }

  /** What `FirstLevel` records is the entry's recursive bytes and count; an entry it
      leaves out weighs no bytes and one file. */
  lemma FirstLevelMeasures(c: Node)
    ensures FirstLevel(c).Some? ==> FirstLevel(c).value == Measurement(TreeSize(c), TreeCount(c))
    ensures FirstLevel(c).None? ==> TreeSize(c) == 0 && TreeCount(c) == 1
  {
  }

  /** With distinct names, an entry's name is not yet a key when the scan reaches it. */
  lemma NameNotYetScanned(listing: seq<(string, Node)>, j: nat)
    requires DistinctNames(listing) && j < |listing|
    ensures listing[j].0 !in ScanListing(listing[..j])
  {
    ScanKeysAreFirstLevelNames(listing[..j]);
  }

  /** Scanning one more entry records it when `FirstLevel` keeps it. */
  lemma ScanListingSnoc(ch: seq<(string, Node)>, k: nat)
    requires 0 < k <= |ch|
    ensures var c := ch[k - 1];
      ScanListing(ch[..k])
      == if FirstLevel(c.1).Some? then ScanListing(ch[..k - 1])[c.0 := FirstLevel(c.1).value]
         else ScanListing(ch[..k - 1])
  {
    assert ch[..k][..k - 1] == ch[..k - 1];
  }

  /** The scan of the first `k` entries sums to the recursive bytes of those entries,
      and to their recursive count less the entries it leaves out. */
  lemma {:induction false} ScanTotalPrefix(ch: seq<(string, Node)>, k: nat)
    requires DistinctNames(ch) && k <= |ch|
    ensures var n, t := Dir(true, ch), ScanTotal(ScanListing(ch[..k]));
      t.size == ChildrenSize(n, k) && t.count + SkippedCount(ch, k) == ChildrenCount(n, k)
  {
    if k > 0 {
      var j: nat := k - 1;
      var c := ch[j];
      ScanTotalPrefix(ch, j);
      ScanListingSnoc(ch, k);
      FirstLevelMeasures(c.1);
      if FirstLevel(c.1).Some? {
        NameNotYetScanned(ch, j);
        ScanTotalInsert(ScanListing(ch[..j]), c.0, FirstLevel(c.1).value);
      }
    }
  }

  /** The scan of a listable folder sums to the folder's recursive bytes, and to its
      recursive file count less the first-level entries the scan leaves out. */
  lemma ScanTotalIsTreeTotal(root: Node)
    requires root.Dir? && root.listable && DistinctNames(root.children)
    ensures var t := ScanTotal(ScanListing(root.children));
      && t.size == TreeSize(root)
      && t.count + SkippedCount(root.children, |root.children|) == TreeCount(root)
  {
    ScanTotalPrefix(root.children, |root.children|);
    assert root.children[..|root.children|] == root.children;
  }
}
