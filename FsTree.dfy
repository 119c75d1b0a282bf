/**
  The file system as the scanner sees it: an inductive tree whose leaves are
  regular files (whose size read may fail) and other non-directory entries,
  and what `os.walk` yields over it. `TreeSize` and `TreeCount` are the
  reference aggregates, defined by structural recursion; the walk-based
  sums that the scanner's loops compute are proved equal to them.
 */
module FsTree {

  import opened Wrappers

  /** One file-system object. */
  datatype Node =
      /** A regular file; `readable` is false when reading its size (`stat`) raises `OSError`. */
    | File(size: nat, readable: bool)
      /** A directory; `listable` is false when listing it raises `OSError`. */
    | Dir(listable: bool, children: seq<(string, Node)>)
      /** Any other kind of entry: socket, FIFO, device; at the first level of a scan
          also a symbolic link, which the scan skips. */
    | Other

  /** What one scanned entry contributes: total bytes and number of files. */
  datatype Measurement = Measurement(size: nat, count: nat)

  /** The scan of one folder: first-level entry name to its measurement. */
  type ScanResult = map<string, Measurement>

  /** The bytes `os.path.getsize` adds for a non-directory entry met by the walk:
      nothing when the read raises, and nothing for an entry that is not a regular file. */
  function ReadSize(n: Node): nat
  {
    if n.File? && n.readable then n.size else 0
  }

  /** Bytes of every readable regular file in the subtree of `n`. */
  function TreeSize(n: Node): nat
  {
    match n
    case Dir(listable, children) => if listable then ChildrenSize(n, |children|) else 0
    case _ => ReadSize(n)
  }

  /** `TreeSize` summed over the first `k` children of directory `n`. */
  function ChildrenSize(n: Node, k: nat): nat
    requires n.Dir? && k <= |n.children|
    decreases n, k
  {
    if k == 0 then 0 else ChildrenSize(n, k - 1) + TreeSize(n.children[k - 1].1)
  }

  /** Number of non-directory entries in the subtree of `n`, whether or not their size can be read. */
  function TreeCount(n: Node): nat
  {
    match n
    case Dir(listable, children) => if listable then ChildrenCount(n, |children|) else 0
    case _ => 1
  }

  /** `TreeCount` summed over the first `k` children of directory `n`. */
  function ChildrenCount(n: Node, k: nat): nat
    requires n.Dir? && k <= |n.children|
    decreases n, k
  {
    if k == 0 then 0 else ChildrenCount(n, k - 1) + TreeCount(n.children[k - 1].1)
  }

  /** The non-directory entries among the first `k` children of directory `n`:
      the `files` part of the `os.walk` step that lists `n`. */
  function Files(n: Node, k: nat): seq<Node>
    requires n.Dir? && k <= |n.children|
    decreases n, k
  {
    if k == 0 then []
    else Files(n, k - 1) + (if n.children[k - 1].1.Dir? then [] else [n.children[k - 1].1])
  }

  /** `os.walk(n)` top down: for each directory it manages to list, that directory's
      `files`. A directory whose listing fails yields nothing and is not descended. */
  function Walk(n: Node): seq<seq<Node>>
  {
    match n
    case Dir(listable, children) => if listable then [Files(n, |children|)] + WalkChildren(n, |children|) else []
    case _ => []
  }

  /** The walks of the first `k` children of directory `n`, in listing order
      (a child that is not a directory yields nothing). */
  function WalkChildren(n: Node, k: nat): seq<seq<Node>>
    requires n.Dir? && k <= |n.children|
    decreases n, k
  {
    if k == 0 then [] else WalkChildren(n, k - 1) + Walk(n.children[k - 1].1)
  }

  function FilesSize(fs: seq<Node>): nat
  {
    if fs == [] then 0 else FilesSize(fs[..|fs| - 1]) + ReadSize(fs[|fs| - 1])
  }

  function WalkSize(w: seq<seq<Node>>): nat
  {
    if w == [] then 0 else WalkSize(w[..|w| - 1]) + FilesSize(w[|w| - 1])
  }

  function WalkCount(w: seq<seq<Node>>): nat
  {
    if w == [] then 0 else WalkCount(w[..|w| - 1]) + |w[|w| - 1]|
  }

  lemma {:induction false} FilesSizeAppend(a: seq<Node>, b: seq<Node>)
    ensures FilesSize(a + b) == FilesSize(a) + FilesSize(b)
    decreases |b|
  {
    if b != [] {
      assert (a + b)[..|a + b| - 1] == a + b[..|b| - 1];
      FilesSizeAppend(a, b[..|b| - 1]);
    } else {
      assert a + b == a;
    }
  }

  lemma {:induction false} WalkAppend(a: seq<seq<Node>>, b: seq<seq<Node>>)
    ensures WalkSize(a + b) == WalkSize(a) + WalkSize(b)
    ensures WalkCount(a + b) == WalkCount(a) + WalkCount(b)
    decreases |b|
  {
    if b != [] {
      assert (a + b)[..|a + b| - 1] == a + b[..|b| - 1];
      WalkAppend(a, b[..|b| - 1]);
    } else {
      assert a + b == a;
    }
  }

  /** The sums over the walk of a directory are its reference aggregates. */
  lemma {:induction false} WalkMatchesTree(n: Node)
    requires n.Dir?
    ensures WalkSize(Walk(n)) == TreeSize(n)
    ensures WalkCount(Walk(n)) == TreeCount(n)
    decreases n, |n.children| + 1
  {
    if n.listable {
      WalkChildrenMatches(n, |n.children|);
      WalkAppend([Files(n, |n.children|)], WalkChildren(n, |n.children|));
      assert [Files(n, |n.children|)][..0] == [];
    }
  }

  lemma {:induction false} WalkChildrenMatches(n: Node, k: nat)
    requires n.Dir? && k <= |n.children|
    ensures FilesSize(Files(n, k)) + WalkSize(WalkChildren(n, k)) == ChildrenSize(n, k)
    ensures |Files(n, k)| + WalkCount(WalkChildren(n, k)) == ChildrenCount(n, k)
    decreases n, k
  {
    if k > 0 {
      var j: nat := k - 1;
      var last := n.children[j].1;
      WalkChildrenMatches(n, j);
      if last.Dir? {
        WalkMatchesTree(last);
      }
      ChildStep(n, j);
    }
  }

  /** Both sums over the first `j + 1` children, from the sums over the first `j`. */
  lemma ChildStep(n: Node, j: nat)
    requires n.Dir? && j < |n.children|
    requires FilesSize(Files(n, j)) + WalkSize(WalkChildren(n, j)) == ChildrenSize(n, j)
    requires |Files(n, j)| + WalkCount(WalkChildren(n, j)) == ChildrenCount(n, j)
    requires n.children[j].1.Dir? ==> WalkSize(Walk(n.children[j].1)) == TreeSize(n.children[j].1)
    requires n.children[j].1.Dir? ==> WalkCount(Walk(n.children[j].1)) == TreeCount(n.children[j].1)
    ensures FilesSize(Files(n, j + 1)) + WalkSize(WalkChildren(n, j + 1)) == ChildrenSize(n, j + 1)
    ensures |Files(n, j + 1)| + WalkCount(WalkChildren(n, j + 1)) == ChildrenCount(n, j + 1)
  {
    SizeStep(n, j + 1);
    CountStep(n, j + 1);
  }

  /** The walk over one more child adds that child's bytes, given that a directory
      child's walk adds up to its aggregates. */
  lemma SizeStep(n: Node, k: nat)
    requires n.Dir? && 0 < k <= |n.children|
    requires n.children[k - 1].1.Dir? ==> WalkSize(Walk(n.children[k - 1].1)) == TreeSize(n.children[k - 1].1)
    ensures FilesSize(Files(n, k)) + WalkSize(WalkChildren(n, k))
            == FilesSize(Files(n, k - 1)) + WalkSize(WalkChildren(n, k - 1)) + TreeSize(n.children[k - 1].1)
  {
    var last := n.children[k - 1].1;
    WalkAppend(WalkChildren(n, k - 1), Walk(last));
    if last.Dir? {
      assert Files(n, k - 1) + [] == Files(n, k - 1);
    } else {
      FilesSizeAppend(Files(n, k - 1), [last]);
      assert [last][..0] == [];
    }
  }

  /** The walk over one more child adds that child's file count, under the same premise. */
  lemma CountStep(n: Node, k: nat)
    requires n.Dir? && 0 < k <= |n.children|
    requires n.children[k - 1].1.Dir? ==> WalkCount(Walk(n.children[k - 1].1)) == TreeCount(n.children[k - 1].1)
    ensures |Files(n, k)| + WalkCount(WalkChildren(n, k))
            == |Files(n, k - 1)| + WalkCount(WalkChildren(n, k - 1)) + TreeCount(n.children[k - 1].1)
  {
    var last := n.children[k - 1].1;
    WalkAppend(WalkChildren(n, k - 1), Walk(last));
  }

  /** The aggregates over a listing depend only on the listing. */
  lemma {:induction false} ChildrenSumsPrefix(n: Node, m: Node, k: nat)
    requires n.Dir? && m.Dir? && k <= |n.children| && k <= |m.children|
    requires n.children[..k] == m.children[..k]
    ensures ChildrenSize(n, k) == ChildrenSize(m, k)
    ensures ChildrenCount(n, k) == ChildrenCount(m, k)
  {
    if k > 0 {
      assert n.children[k - 1] == n.children[..k][k - 1];
      assert n.children[..k - 1] == n.children[..k][..k - 1];
      assert m.children[..k - 1] == m.children[..k][..k - 1];
      ChildrenSumsPrefix(n, m, k - 1);
    }
  }

  /** What the first-level scan records for one entry of the scanned folder, or `None`
      when it skips the entry: a regular file is `(size, 1)`, a directory its aggregates;
      a file whose `stat` raises and any other kind of entry are left out. */
  function FirstLevel(n: Node): Option<Measurement>
  {
    match n
    case File(size, readable) => if readable then Some(Measurement(size, 1)) else None
    case Dir(_, _) => Some(Measurement(TreeSize(n), TreeCount(n)))
    case Other => None
  }

  /** A file whose size read fails is counted but adds no bytes; the size/count asymmetry. */
  lemma {:induction false} UnreadableFileCountedNotSized(ch: seq<(string, Node)>, name: string, size: nat)
    ensures TreeSize(Dir(true, ch + [(name, File(size, false))])) == TreeSize(Dir(true, ch))
    ensures TreeCount(Dir(true, ch + [(name, File(size, false))])) == TreeCount(Dir(true, ch)) + 1
  {
    var d, d' := Dir(true, ch), Dir(true, ch + [(name, File(size, false))]);
    assert d'.children[..|ch|] == d.children[..|ch|];
    ChildrenSumsPrefix(d', d, |ch|);
    assert d'.children[|ch|].1 == File(size, false);
    assert TreeSize(d') == ChildrenSize(d', |ch|) + TreeSize(File(size, false));
    assert TreeCount(d') == ChildrenCount(d', |ch| + 1) == ChildrenCount(d', |ch|) + 1;
    assert TreeSize(d) == ChildrenSize(d, |ch|) && TreeCount(d) == ChildrenCount(d, |ch|);
  }

  /** A readable file adds its size and one to the count. */
  lemma {:induction false} ReadableFileCountedAndSized(ch: seq<(string, Node)>, name: string, size: nat)
    ensures TreeSize(Dir(true, ch + [(name, File(size, true))])) == TreeSize(Dir(true, ch)) + size
    ensures TreeCount(Dir(true, ch + [(name, File(size, true))])) == TreeCount(Dir(true, ch)) + 1
  {
    var d, d' := Dir(true, ch), Dir(true, ch + [(name, File(size, true))]);
    assert d'.children[..|ch|] == d.children[..|ch|];
    ChildrenSumsPrefix(d', d, |ch|);
    assert d'.children[|ch|].1 == File(size, true);
    assert TreeSize(d') == ChildrenSize(d', |ch|) + TreeSize(File(size, true));
    assert TreeCount(d') == ChildrenCount(d', |ch| + 1) == ChildrenCount(d', |ch|) + 1;
    assert TreeSize(d) == ChildrenSize(d, |ch|) && TreeCount(d) == ChildrenCount(d, |ch|);
  }
}
