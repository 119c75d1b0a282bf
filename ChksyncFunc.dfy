/**
  The comparison of the class-based version of the tool:
  `ComparisonData.build_data` and the module-level `build_comparison_data`,
  two copies of one loop. Both loop over the sorted union of names, append a
  row when the filter lets it through, and accumulate the totals and the
  difference counters for every name, outside the filter; the list ends with
  a separator row and the TOTAL row.
 */
module ChksyncFunc {

  import opened FsTree
  import opened StrOrder
  import opened Compare
  import Scanner

  /** `build_comparison_data(entries1, entries2, only_diffs)`. */
  method BuildComparisonData(entries1: ScanResult, entries2: ScanResult, onlyDiffs: bool) returns (data: seq<Row>)
    ensures data == Comparison(entries1, entries2, onlyDiffs)
  {
    var allNames := SortedUnion(entries1.Keys, entries2.Keys);
    data := [];
    var totalSize1, totalSize2, totalFc1, totalFc2 := 0, 0, 0, 0;
    var sizeDiffCount, fileDiffCount, diffCount := 0, 0, 0;
    ghost var tally := NoTotals;
    for i := 0 to |allNames|
      invariant data == EmittedRows(allNames[..i], entries1, entries2, onlyDiffs)
      invariant tally == TallyNames(allNames[..i], entries1, entries2)
      invariant totalSize1 == tally.size1 && totalSize2 == tally.size2
      invariant totalFc1 == tally.count1 && totalFc2 == tally.count2
      invariant sizeDiffCount == tally.sizeDiffs && fileDiffCount == tally.countDiffs && diffCount == tally.diffs
    {
      var name := allNames[i];
      EmittedRowsStep(allNames, i, entries1, entries2, onlyDiffs);
      TallyEntry(tally, name, entries1, entries2);
      TallyNamesStep(allNames, i, entries1, entries2);
      tally := Tally(tally, CompareName(name, entries1, entries2));
      var m1, m2 := Lookup(entries1, name), Lookup(entries2, name);
      var size1, fc1, size2, fc2 := m1.size, m1.count, m2.size, m2.count;
      var sizediff := size1 != size2;
      var filediff := fc1 != fc2;
      var diff := fc1 != fc2 || size1 != size2;
      if !onlyDiffs || diff {
        data := data + [Entry(name, size1, size2, sizediff, fc1, fc2, filediff, diff)];
      }
      totalSize1, totalSize2 := totalSize1 + size1, totalSize2 + size2;
      totalFc1, totalFc2 := totalFc1 + fc1, totalFc2 + fc2;
      if size1 != size2 {
        sizeDiffCount := sizeDiffCount + 1;
      }
      if fc1 != fc2 {
        fileDiffCount := fileDiffCount + 1;
      }
      if size1 != size2 || fc1 != fc2 {
        diffCount := diffCount + 1;
      }
    }
    assert Totals(totalSize1, totalSize2, totalFc1, totalFc2, sizeDiffCount, fileDiffCount, diffCount) == tally;
    ComparisonByNames(allNames, entries1, entries2, onlyDiffs, data, tally);
    data := data + [Separator];
    data := data + [Total(Totals(totalSize1, totalSize2, totalFc1, totalFc2, sizeDiffCount, fileDiffCount, diffCount))];
  }

  /** `ComparisonData`: the two scans and the filter flag, and the row list that
      `build_data` rebuilds in place. */
  class ComparisonData {
    const entries1: ScanResult
    const entries2: ScanResult
    const onlyDiffs: bool
    var data: seq<Row>

    constructor (entries1: ScanResult, entries2: ScanResult, onlyDiffs: bool)
      ensures this.entries1 == entries1 && this.entries2 == entries2 && this.onlyDiffs == onlyDiffs
      ensures data == []
    {
      this.entries1 := entries1;
      this.entries2 := entries2;
      this.onlyDiffs := onlyDiffs;
      data := [];
    }

    /** `build_data`: resets `data`, fills it and returns it. */
    method BuildData() returns (r: seq<Row>)
      modifies this
      ensures data == Comparison(entries1, entries2, onlyDiffs)
      ensures r == data
    {
      var allNames := SortedUnion(entries1.Keys, entries2.Keys);
      data := [];
      var totalSize1, totalSize2, totalFc1, totalFc2 := 0, 0, 0, 0;
      var sizeDiffCount, fileDiffCount, diffCount := 0, 0, 0;
      ghost var tally := NoTotals;
      for i := 0 to |allNames|
        invariant data == EmittedRows(allNames[..i], entries1, entries2, onlyDiffs)
        invariant tally == TallyNames(allNames[..i], entries1, entries2)
        invariant totalSize1 == tally.size1 && totalSize2 == tally.size2
        invariant totalFc1 == tally.count1 && totalFc2 == tally.count2
        invariant sizeDiffCount == tally.sizeDiffs && fileDiffCount == tally.countDiffs && diffCount == tally.diffs
      {
        var name := allNames[i];
        EmittedRowsStep(allNames, i, entries1, entries2, onlyDiffs);
        TallyEntry(tally, name, entries1, entries2);
        TallyNamesStep(allNames, i, entries1, entries2);
        tally := Tally(tally, CompareName(name, entries1, entries2));
        var m1, m2 := Lookup(entries1, name), Lookup(entries2, name);
        var size1, fc1, size2, fc2 := m1.size, m1.count, m2.size, m2.count;
        var sizediff := size1 != size2;
        var filediff := fc1 != fc2;
        var diff := fc1 != fc2 || size1 != size2;
        if !onlyDiffs || diff {
          data := data + [Entry(name, size1, size2, sizediff, fc1, fc2, filediff, diff)];
        }
        totalSize1, totalSize2 := totalSize1 + size1, totalSize2 + size2;
        totalFc1, totalFc2 := totalFc1 + fc1, totalFc2 + fc2;
        if size1 != size2 {
          sizeDiffCount := sizeDiffCount + 1;
        }
        if fc1 != fc2 {
          fileDiffCount := fileDiffCount + 1;
        }
        if size1 != size2 || fc1 != fc2 {
          diffCount := diffCount + 1;
        }
      }
      assert Totals(totalSize1, totalSize2, totalFc1, totalFc2, sizeDiffCount, fileDiffCount, diffCount) == tally;
      ComparisonByNames(allNames, entries1, entries2, onlyDiffs, data, tally);
      data := data + [Separator];
      data := data + [Total(Totals(totalSize1, totalSize2, totalFc1, totalFc2, sizeDiffCount, fileDiffCount, diffCount))];
      r := data;
    }
  }

  /** Two folders: A holds a 5-byte file "x.txt" and a directory "d" with files of
      4 and 6 bytes; B holds only the same "x.txt". */
  const FolderA: Node := Dir(true, [("x.txt", File(5, true)), ("d", Dir(true, [("p", File(4, true)), ("q", File(6, true))]))])
  const FolderB: Node := Dir(true, [("x.txt", File(5, true))])
  const ScanA: ScanResult := map["x.txt" := Measurement(5, 1), "d" := Measurement(10, 2)]
  const ScanB: ScanResult := map["x.txt" := Measurement(5, 1)]

  /** A directory entry is recorded with the bytes and the number of the files below it. */
  lemma ScansOfExampleFolders()
    ensures Scanner.ScanListing(FolderA.children) == ScanA
    ensures Scanner.ScanListing(FolderB.children) == ScanB
  {
    var d := FolderA.children[1].1;
    assert TreeSize(d) == ChildrenSize(d, 2) == 10;
    assert TreeCount(d) == ChildrenCount(d, 2) == 2;
    assert FolderA.children[..1] == [("x.txt", File(5, true))];
    assert FolderB.children[..0] == [];
  }

  lemma ExampleUnionOrder()
    ensures SortedKeys(ScanA.Keys + ScanB.Keys) == ["d", "x.txt"]
  {
    assert ScanA.Keys + ScanB.Keys == {"d", "x.txt"};
    assert Below("d", "x.txt");
    SortedPair("d", "x.txt");
  }

  lemma ExampleRows()
    ensures EmittedRows(["d", "x.txt"], ScanA, ScanB, false)
            == [Entry("d", 10, 0, true, 2, 0, true, true), Entry("x.txt", 5, 5, false, 1, 1, false, false)]
    ensures EmittedRows(["d", "x.txt"], ScanA, ScanB, true) == [Entry("d", 10, 0, true, 2, 0, true, true)]
  {
    ExampleLookups();
    assert ["d", "x.txt"][..1] == ["d"] && ["d"][..0] == [];
  }

  lemma ExampleLookups()
    ensures Lookup(ScanA, "d") == Measurement(10, 2) && Lookup(ScanB, "d") == Measurement(0, 0)
    ensures Lookup(ScanA, "x.txt") == Measurement(5, 1) && Lookup(ScanB, "x.txt") == Measurement(5, 1)
  {
    assert |"d"| != |"x.txt"|;
  }

  lemma ExampleTally()
    ensures TallyRows(EmittedRows(["d", "x.txt"], ScanA, ScanB, false)) == Totals(15, 5, 3, 1, 1, 1, 1)
  {
    var rd, rx := CompareName("d", ScanA, ScanB), CompareName("x.txt", ScanA, ScanB);
    ExampleLookups();
    assert ["d", "x.txt"][..1] == ["d"] && ["d"][..0] == [];
    assert EmittedRows(["d", "x.txt"], ScanA, ScanB, false) == [rd, rx];
    assert [rd, rx][..1] == [rd] && [rd][..0] == [];
    assert TallyRows([rd]) == Tally(NoTotals, rd) == Totals(10, 0, 2, 0, 1, 1, 1);
    assert TallyRows([rd, rx]) == Tally(TallyRows([rd]), rx);
  }

  /** Comparing A with B: "d" differs in size and count and is DIFF-marked, "x.txt"
      is equal (the rows are those of `ExampleRows`); the TOTAL row holds 15 and 5
      bytes, 3 and 1 files and one difference of each kind, with or without the filter. */
  lemma ExampleComparison(onlyDiffs: bool)
    ensures Comparison(ScanA, ScanB, onlyDiffs)
            == EmittedRows(["d", "x.txt"], ScanA, ScanB, onlyDiffs) + [Separator, Total(Totals(15, 5, 3, 1, 1, 1, 1))]
  {
    ExampleUnionOrder();
    ExampleTally();
  }
}
