# chksync in Dafny

chksync compares two folders entry by entry. The model covers two parts of it.

- **Scanner.** It maps each first-level entry of a folder to a measurement: the bytes and the number of files below it.
- **Comparison engine.** It takes the sorted union of both scans' names and looks each name up on both sides, with `(0, 0)` for a missing side. It marks size, count and overall differences and can keep only the differing rows. It ends the list with a separator row and a TOTAL row. The TOTAL row holds four sums and three difference counters.

The repository holds two versions of this logic, and both are modelled:
- chksync_func.py, the class-based version (`FolderScanner`, `ComparisonData`, `build_comparison_data`);
- chksync.py, the single-file version (`get_first_level_entries`, `get_dir_size`, `get_file_count`, and the loop in `main`).

Modules:

- `FsTree`: the file system as an inductive tree.
  - A node is `File(size, readable)`, `Dir(listable, children)` or `Other`.
  - `Walk` describes what `os.walk` yields over the tree.
  - `TreeSize` and `TreeCount` are reference aggregates defined by structural recursion.
- `Scanner`:
  - `scan_folder`, `_get_dir_size` and `_get_file_count` as methods with loops.
  - The specification function `ScanListing` (a dict filled in listing order).
  - The two scanner versions are the same algorithm, modelled once.
- `StrOrder`: Python's ordering of `str` values, and `sorted(set(...) | set(...))` both as a specification (`SortedKeys`) and as a method (`SortedUnion`).
- `ScanTotals`: the totals of a whole scan against the recursive totals of the scanned folder.
- `Compare`: the comparison as functions (`CompareName`, `EmittedRows`, `Tally`, `Table`, `Comparison`), plus the properties proved about them.
- `ChksyncFunc`: `build_comparison_data` and the class `ComparisonData` with `build_data`. Both are loops proved equal to `Comparison`. The module also holds a worked example: folders A and B, where A holds `x.txt` and `d/` and B holds only `x.txt`.
- `Chksync`: the comparison loop of chksync.py's `main`. It accumulates the totals inside the filter branch and adds no separator row.

Unbounded `nat` stands in for Python's `int`, which does not overflow either.

Where the code does something a reader of the tool's output might not expect, the model follows the code:
- A file inside a first-level directory whose size cannot be read is still counted by `_get_file_count`. It is left out only of the size (`FsTree.UnreadableFileCountedNotSized`).
- Entries below a first-level directory that are not regular files (sockets, FIFOs) are in the `files` list of `os.walk`. They are therefore counted, with no bytes.
- A first-level directory that cannot be listed is not skipped. `os.walk` swallows the listing error, so the directory is recorded as `(0, 0)` (chksync_func.py:97-109 and 166; chksync.py:77-85 and 117). Against a folder that lacks that name, it compares equal, because a missing name is looked up as `(0, 0)` (`Scanner.UnlistableDirectoryRecordedAsZero`, `Compare.AbsentComparedAsZero`).

## Model

| member | source | states |
|---|---|---|
| FsTree.WalkMatchesTree | chksync_func.py:166-183 | the sums that walking a directory produces (bytes of readable files, number of non-directory entries) equal the directory's recursive aggregates |
| FsTree.UnreadableFileCountedNotSized | chksync_func.py:166-209 | a file whose size read raises adds 1 to its directory's file count and 0 to its byte total |
| FsTree.ReadableFileCountedAndSized | chksync_func.py:166-209 | a readable file adds its size to its directory's bytes and 1 to its count |
| Scanner.GetDirSize | chksync_func.py:157-199 | returns the bytes of every readable file below the folder, and the running counter advanced by every file met, readable or not; `get_dir_size` at chksync.py:109-140 is the same loop |
| Scanner.GetFileCount | chksync_func.py:201-221 | returns the number of files below the folder, and the running counter advanced by that same number; `get_file_count` at chksync.py:142-158 is the same loop |
| Scanner.ScanFolder | chksync_func.py:69-155 | a listable folder yields the dict `ScanListing` of its listing; a folder that cannot be opened yields the error; `get_first_level_entries` at chksync.py:51-107 is the same loop |
| Scanner.ScanListingEntries | chksync_func.py:87-124 | with distinct names, an entry is recorded exactly when it is a readable regular file (as `(size, 1)`) or a directory (as its recursive bytes and count); other entries and files whose `stat` fails are absent (the same branches as chksync.py:67-96) |
| Scanner.UnlistableDirectoryRecordedAsZero | chksync_func.py:97-109 | a first-level directory whose listing fails yields no walk and is recorded as `(0, 0)` rather than skipped |
| Scanner.ScanKeysAreFirstLevelNames | chksync_func.py:115 | every key of the scan is the name of a first-level entry that the scan keeps |
| ScanTotals.ScanTotalPrefix | chksync_func.py:82-124 | scanning the first `k` entries sums to their recursive bytes, and to their recursive file count less the entries the scan leaves out |
| ScanTotals.ScanTotalIsTreeTotal | chksync_func.py:82-124 | the sum of a listable folder's scan is the folder's recursive byte total, and its recursive file count less the first-level entries the scan leaves out (files whose `stat` raises, sockets, FIFOs, first-level links); `get_first_level_entries` at chksync.py:62-96 is the same loop |
| StrOrder.BelowTransitive | chksync_func.py:235 | the string order used by `sorted` is transitive |
| StrOrder.BelowTotal | chksync_func.py:235 | any two distinct strings are ordered one way or the other |
| StrOrder.SortedKeysMembers | chksync_func.py:235 | the sorted names hold each name of the set exactly once and nothing else |
| StrOrder.SortedKeysAscending | chksync_func.py:235 | the sorted names are strictly ascending, hence free of duplicates |
| StrOrder.AscendingEnumerationUnique | chksync_func.py:235 | two strictly ascending sequences with the same elements are equal, so the sorted order is determined by the set |
| StrOrder.Least | chksync_func.py:235 | returns the least name of a non-empty set |
| StrOrder.SortedUnion | chksync_func.py:235 | returns the union of both key sets in ascending order |
| Compare.AbsentComparedAsZero | chksync_func.py:248-252 | a name on one side only is DIFF-marked exactly when its measurement there is not `(0, 0)` |
| Compare.EmittedRowsFaithful | chksync_func.py:248-265 | every row holds the looked-up values with the `(0, 0)` default; SD is set iff the sizes differ, CD iff the counts differ, DIFF iff either does; with the filter on, every row is DIFF-marked |
| Compare.AllNamesEmitted | chksync_func.py:255-265 | without the filter there is exactly one row per name, in the order of the names |
| Compare.OnlyDiffsIsFilter | chksync_func.py:255-265 | with the filter on, the rows are exactly the DIFF-marked rows of the unfiltered run, in order |
| Compare.EmittedRowsAscending | chksync_func.py:247-265 | rows built from strictly ascending names have strictly ascending names |
| Compare.CounterBounds | chksync_func.py:272-277 | SD equals the number of rows whose sizes differ, CD the number whose file counts differ, DIFF the number of DIFF-marked rows; DIFF is at least SD and at least CD, at most their sum and at most the number of rows |
| Compare.TallyNamesIsSeqSum | chksync_func.py:267-270 | accumulating name by name gives, per side, the sums of the looked-up measurements |
| Compare.TallyIsSeqSum | chksync_func.py:267-270 | the four accumulated totals are the sums of the looked-up measurements along the names |
| Compare.UnionTotalsAreScanTotals | chksync_func.py:267-270 | over the sorted union, the totals are the sums of each scan's values |
| Compare.DiffCounterIsFilteredRows | chksync_func.py:276-277 | the DIFF counter over all names equals the number of rows the filter keeps |
| Compare.ComparisonTotals | chksync_func.py:267-304 | the result is the emitted rows followed by the separator and the TOTAL row; the TOTAL sums are the scans' sums, whatever the filter; SD and CD count the names of the union whose sizes, and whose file counts, differ; DIFF counts the rows the filter keeps |
| Compare.FilterKeepsTotals | chksync_func.py:255-277 | the filtered rows are among the unfiltered ones, and the TOTAL row is identical with and without the filter |
| Compare.ComparisonCounters | chksync_func.py:272-277 | in the TOTAL row, DIFF is at least SD and CD, at most SD + CD, and at most the number of names in the union |
| Compare.ComparisonRowsOrdered | chksync_func.py:235-265 | the rows of the result come first, in strictly ascending name order, each faithful to both scans and named from the union |
| Compare.ComparisonRowsMembership | chksync_func.py:255-265 | a name of the union has its row in the result exactly when the filter is off or the row is DIFF-marked |
| Compare.SelfComparisonHasNoDiffs | chksync_func.py:272-277 | comparing a scan with itself leaves no row through the filter and all three counters at zero |
| ChksyncFunc.BuildComparisonData | chksync_func.py:371-443 | returns `Comparison(entries1, entries2, only_diffs)` |
| ChksyncFunc.ComparisonData.constructor | chksync_func.py:227-231 | stores both scans and the flag and starts with an empty `data` |
| ChksyncFunc.ComparisonData.BuildData | chksync_func.py:233-305 | rebuilds `data` as `Comparison(entries1, entries2, only_diffs)` and returns it, so it agrees with `build_comparison_data` on equal inputs |
| ChksyncFunc.ScansOfExampleFolders | chksync_func.py:87-119 | scanning example folder A gives `x.txt -> (5, 1)` and `d -> (10, 2)`; scanning B gives `x.txt -> (5, 1)` |
| ChksyncFunc.ExampleUnionOrder | chksync_func.py:235 | the sorted union of the example scans is `["d", "x.txt"]` |
| ChksyncFunc.ExampleRows | chksync_func.py:247-265 | `d` gives `(10, 0, SD, 2, 0, CD, DIFF)` and `x.txt` gives `(5, 5, 1, 1)` with no mark; only `d` passes the filter |
| ChksyncFunc.ExampleTally | chksync_func.py:267-277 | the example totals are 15 and 5 bytes and 3 and 1 files, with one difference of each kind |
| ChksyncFunc.ExampleComparison | chksync_func.py:233-305 | the example comparison is its rows, the separator and that TOTAL row, with or without the filter |
| Chksync.MainComparison | chksync.py:169-215 | returns `MainReport`: the emitted rows, then a TOTAL row accumulated over the emitted rows only |
| Chksync.MainRowsAreComparisonRows | chksync.py:181-203 | `main` lists the same rows in the same order as the class-based comparison; only the separator row is missing |
| Chksync.MainTotalsWithoutFilter | chksync.py:205-215 | without the filter, the TOTAL row of `main` equals the class-based one and holds the scans' sums |
| Chksync.MainTotalsWithFilter | chksync.py:193-215 | with the filter on, the TOTAL row of `main` sums only the DIFF-marked rows, and its DIFF counter equals the number of listed rows |
| Chksync.FilteredTallyBelow | chksync.py:193-208 | each filtered total is at most the unfiltered one |
| Chksync.FilteredTallyMisses | chksync.py:193-208 | a name whose row is not DIFF-marked is missing from the filtered totals: they fall short of the unfiltered ones by at least its measurements |
| Chksync.MainTotalsOmitEqualEntries | chksync.py:193-215 | with the filter on, a name with equal measurements on both sides makes each of `main`'s four totals fall short of the folder's sum by at least that name's measurement |
| Chksync.ExampleTotalsFallShort | chksync.py:205-208 | for `{a: (1, 1), b: (2, 1)}` against `{a: (1, 1)}` with the filter on, `main`'s Size1 total is below the first folder's byte total |

## Left out

- The file-system calls (`os.scandir`, `os.walk`, `entry.stat`, `os.path.getsize`) are not modelled as calls. They become the tree of module `FsTree`, where each file carries a flag that says whether reading its size succeeds.
- A symbolic link among the first-level entries is skipped, because `is_file` and `is_dir` are called with `follow_symlinks=False` (chksync_func.py:87 and 97; chksync.py:68 and 77). The model covers it by reading such an entry as `Other`, which `FirstLevel` skips.
- Symbolic links below the first level are not modelled. There, `os.walk` lists a link to a directory under `dirs`, does not descend into it, and so adds nothing to the bytes or the count. Any other link, including a broken one, is listed under `files`: it is counted, and sized through its target unless `getsize` raises.
- A listing is not re-read while it is scanned: concurrent changes to the file system, and errors raised halfway through a listing, are not modelled.
- Progress printing, its cadence conditions and the progress-only counters are left out: `processed_parent_items`, `total_file_size_so_far`, `num_sized_files_this_folder` and `verbose_level`. `ScanFolder` keeps the running counters that it threads through the walks.
- `DebugUtils`, `debug_print` and `debug_with_counters` are left out. They only print caller variables.
- The `takeout.zip` breakpoint statements in chksync.py are no-ops and are left out.
- Argument parsing is left out, including the `only-diffs` argument of chksync.py and its `.lower()` test. So are TTY detection and folder validation. The filter flag is a parameter.
- Rendering is left out: pandas, tabulate, markdown, CSV, rich, and the comma-formatted strings of chksync.py. Rows carry numbers and booleans. The separator row carries no text, and the marks are booleans rather than `'*'` and `'**'`.
- chksync_func.py `main` and `output_results` are left out. They call functions that the file does not define.
- create_test_files.py is not part of this model. It only writes fixture files.
- File names that are not valid Unicode are not modelled. On POSIX, Python decodes their undecodable bytes as lone surrogates and sorts them by code point; a Dafny `string` holds only Unicode scalar values, so such names cannot be represented.
- ScanTotals.ScanTotalIsTreeTotal and ScanTotals.ScanTotalPrefix: stated for listings with distinct names, which a real directory listing always has.
- Scanner.ScanListingEntries: stated for listings with distinct names, which a real directory listing always has. For a listing with repeated names, `ScanListing` itself models the dict's last-write-wins overwrite.

## Findings

| source | as written | input that shows it | evidently intended | confidence | as-written member | corrected member |
|---|---|---|---|---|---|---|
| chksync.py:205-215 | the four totals and three counters are accumulated inside `if not only_diffs or diff`, so with `only-diffs` they cover only the listed rows | scans `{a: (1, 1), b: (2, 1)}` and `{a: (1, 1)}` with `only-diffs`: `main` reports Size1 total 2, while the first folder holds 3 bytes | totals over every name of the union, whatever the filter, as the later copy of the same loop at chksync_func.py:267-277 accumulates them outside the filter branch | medium; not executed | Chksync.MainTotalsOmitEqualEntries | Compare.FilterKeepsTotals |
