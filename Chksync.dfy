/**
  The comparison loop of the single-file version of the tool (`main` of
  chksync.py). It walks the sorted union of names like the class-based version
  and emits the same rows, but it accumulates the four totals and the three
  difference counters only for the rows it emits, and it adds no separator
  row before the TOTAL row.
 */
module Chksync {

  import opened FsTree
  import opened StrOrder
  import opened Compare

  /** The table as `main` builds it for the sorted names: the emitted rows, then
      a TOTAL row accumulated over those rows only. */
  function MainTable(names: seq<string>, e1: ScanResult, e2: ScanResult, onlyDiffs: bool): seq<Row>
  {
    var rows := EmittedRows(names, e1, e2, onlyDiffs);
    rows + [Total(TallyRows(rows))]
  }

  /** The table `main` builds for two scans. */
  ghost function MainReport(e1: ScanResult, e2: ScanResult, onlyDiffs: bool): seq<Row>
  {
    MainTable(SortedKeys(e1.Keys + e2.Keys), e1, e2, onlyDiffs)
  }

  /** The loop of `main`, from the sorted union of names to the TOTAL row. */
  method MainComparison(entries1: ScanResult, entries2: ScanResult, onlyDiffs: bool) returns (table: seq<Row>)
    ensures table == MainReport(entries1, entries2, onlyDiffs)
  {
    var allNames := SortedUnion(entries1.Keys, entries2.Keys);
    var data := [];
    var totalSize1, totalSize2, totalFc1, totalFc2 := 0, 0, 0, 0;
    var sizeDiffCount, fileDiffCount, diffCount := 0, 0, 0;
    ghost var tally := NoTotals;
    for i := 0 to |allNames|
      invariant data == EmittedRows(allNames[..i], entries1, entries2, onlyDiffs)
      invariant tally == TallyRows(data)
      invariant totalSize1 == tally.size1 && totalSize2 == tally.size2
      invariant totalFc1 == tally.count1 && totalFc2 == tally.count2
      invariant sizeDiffCount == tally.sizeDiffs && fileDiffCount == tally.countDiffs && diffCount == tally.diffs
    {
      var name := allNames[i];
      EmittedRowsStep(allNames, i, entries1, entries2, onlyDiffs);
      TallyEntry(tally, name, entries1, entries2);
      TallyRowsSnoc(data, CompareName(name, entries1, entries2));
      var m1, m2 := Lookup(entries1, name), Lookup(entries2, name);
      var size1, fc1, size2, fc2 := m1.size, m1.count, m2.size, m2.count;
      var sizediff := size1 != size2;
      var filediff := fc1 != fc2;
      var diff := fc1 != fc2 || size1 != size2;
      if !onlyDiffs || diff {
        data := data + [Entry(name, size1, size2, sizediff, fc1, fc2, filediff, diff)];
        tally := Tally(tally, CompareName(name, entries1, entries2));
        totalSize1, totalSize2 := totalSize1 + size1, totalSize2 + size2;
        totalFc1, totalFc2 := totalFc1 + fc1, totalFc2 + fc2;
        if size1 != size2 {
          sizeDiffCount := sizeDiffCount + 1;
        }
        if fc1 != fc2 {
          fileDiffCount := fileDiffCount + 1;
        }
        if size1 != size2 || fc1 != fc2 {
          diffCount := diffCount + 1;
        }
      }
    }
    assert allNames[..|allNames|] == allNames;
    assert Totals(totalSize1, totalSize2, totalFc1, totalFc2, sizeDiffCount, fileDiffCount, diffCount) == tally;
    table := data + [Total(Totals(totalSize1, totalSize2, totalFc1, totalFc2, sizeDiffCount, fileDiffCount, diffCount))];
  }

  /** `main` lists the same rows as the class-based comparison, in the same order;
      only the separator row is missing before its TOTAL row. */
  lemma MainRowsAreComparisonRows(e1: ScanResult, e2: ScanResult, onlyDiffs: bool)
    ensures var m, c := MainReport(e1, e2, onlyDiffs), Comparison(e1, e2, onlyDiffs);
      && |m| + 1 == |c|
      && m[..|m| - 1] == c[..|c| - 2]
      && m[|m| - 1].Total? && c[|c| - 1].Total?
  {
    var rows := EmittedRows(SortedKeys(e1.Keys + e2.Keys), e1, e2, onlyDiffs);
    assert MainReport(e1, e2, onlyDiffs)[..|rows|] == rows;
    assert Comparison(e1, e2, onlyDiffs)[..|rows|] == rows;
  }

  /** Without the filter every name is emitted, so the TOTAL row of `main` is the
      class-based one: the sums of each scan's values. */
  lemma MainTotalsWithoutFilter(e1: ScanResult, e2: ScanResult)
    ensures var m, c := MainReport(e1, e2, false), Comparison(e1, e2, false);
      && m[|m| - 1] == c[|c| - 1]
      && m[|m| - 1].totals.size1 == ScanTotal(e1).size && m[|m| - 1].totals.count1 == ScanTotal(e1).count
      && m[|m| - 1].totals.size2 == ScanTotal(e2).size && m[|m| - 1].totals.count2 == ScanTotal(e2).count
  {
    ComparisonTotals(e1, e2, false);
  }

  /** With the filter on, the TOTAL row of `main` accumulates the DIFF-marked names
      only: its DIFF counter is the number of listed rows, and its totals are those
      of the differing names of the unfiltered comparison. */
  lemma MainTotalsWithFilter(e1: ScanResult, e2: ScanResult)
    ensures var m := MainReport(e1, e2, true);
      var names := SortedKeys(e1.Keys + e2.Keys);
      && m[|m| - 1].Total?
      && m[|m| - 1].totals == TallyRows(DiffRows(EmittedRows(names, e1, e2, false)))
      && m[|m| - 1].totals.diffs == |m| - 1
  {
    var names := SortedKeys(e1.Keys + e2.Keys);
    var rows := EmittedRows(names, e1, e2, true);
    OnlyDiffsIsFilter(names, e1, e2);
    EmittedRowsFaithful(names, e1, e2, true);
    CounterBounds(rows);
    DiffRowsOfDiffRows(rows);
  }

  /** Rows that all carry the DIFF mark pass the filter unchanged. */
  lemma {:induction false} DiffRowsOfDiffRows(rows: seq<Row>)
    requires forall r :: r in rows ==> r.Entry? && r.diff
    ensures DiffRows(rows) == rows
  {
    if rows != [] {
      assert rows[|rows| - 1] in rows;
      DiffRowsOfDiffRows(rows[..|rows| - 1]);
      assert rows[..|rows| - 1] + [rows[|rows| - 1]] == rows;
    }
  }

  /** One more name: the unfiltered totals grow by its measurements, the filtered
      ones only when its row is DIFF-marked. */
  lemma FilterStep(names: seq<string>, e1: ScanResult, e2: ScanResult)
    requires names != []
    ensures var init, last := names[..|names| - 1], names[|names| - 1];
      var f, a := TallyRows(EmittedRows(names, e1, e2, true)), TallyRows(EmittedRows(names, e1, e2, false));
      var f0, a0 := TallyRows(EmittedRows(init, e1, e2, true)), TallyRows(EmittedRows(init, e1, e2, false));
      var m1, m2, d := Lookup(e1, last), Lookup(e2, last), CompareName(last, e1, e2).diff;
      && a.size1 == a0.size1 + m1.size && a.count1 == a0.count1 + m1.count
      && a.size2 == a0.size2 + m2.size && a.count2 == a0.count2 + m2.count
      && f.size1 == f0.size1 + (if d then m1.size else 0) && f.count1 == f0.count1 + (if d then m1.count else 0)
      && f.size2 == f0.size2 + (if d then m2.size else 0) && f.count2 == f0.count2 + (if d then m2.count else 0)
  {
    var init := names[..|names| - 1];
    var r := CompareName(names[|names| - 1], e1, e2);
    TallyRowsSnoc(EmittedRows(init, e1, e2, true), r);
    TallyRowsSnoc(EmittedRows(init, e1, e2, false), r);
  }

  /** Filtering can only leave rows out: each filtered total is at most the unfiltered one. */
  lemma {:induction false} FilteredTallyBelow(names: seq<string>, e1: ScanResult, e2: ScanResult)
    ensures var f, a := TallyRows(EmittedRows(names, e1, e2, true)), TallyRows(EmittedRows(names, e1, e2, false));
      f.size1 <= a.size1 && f.count1 <= a.count1 && f.size2 <= a.size2 && f.count2 <= a.count2
  {
    if names != [] {
      FilteredTallyBelow(names[..|names| - 1], e1, e2);
      FilterStep(names, e1, e2);
    }
  }

  /** A name whose row is not DIFF-marked is left out of the filtered totals: they
      fall short of the unfiltered ones by at least that name's measurements. */
  lemma {:induction false} FilteredTallyMisses(names: seq<string>, e1: ScanResult, e2: ScanResult, k: nat)
    requires k < |names| && !CompareName(names[k], e1, e2).diff
    ensures var f, a := TallyRows(EmittedRows(names, e1, e2, true)), TallyRows(EmittedRows(names, e1, e2, false));
      var m1, m2 := Lookup(e1, names[k]), Lookup(e2, names[k]);
      && f.size1 + m1.size <= a.size1 && f.count1 + m1.count <= a.count1
      && f.size2 + m2.size <= a.size2 && f.count2 + m2.count <= a.count2
  {
    var init := names[..|names| - 1];
    FilterStep(names, e1, e2);
    if k == |names| - 1 {
      FilteredTallyBelow(init, e1, e2);
    } else {
      assert init[k] == names[k];
      FilteredTallyMisses(init, e1, e2, k);
    }
  }

  /** With the filter on, a name present with equal measurements on both sides makes
      the TOTAL row of `main` fall short of the folder totals, which the class-based
      comparison reports, by at least that name's measurement. */
  lemma MainTotalsOmitEqualEntries(e1: ScanResult, e2: ScanResult, name: string)
    requires name in e1 && name in e2 && e1[name] == e2[name]
    ensures var m, c := MainReport(e1, e2, true), Comparison(e1, e2, true);
      && m[|m| - 1].Total? && c[|c| - 1].Total?
      && m[|m| - 1].totals.size1 + e1[name].size <= c[|c| - 1].totals.size1 == ScanTotal(e1).size
      && m[|m| - 1].totals.count1 + e1[name].count <= c[|c| - 1].totals.count1 == ScanTotal(e1).count
      && m[|m| - 1].totals.size2 + e2[name].size <= c[|c| - 1].totals.size2 == ScanTotal(e2).size
      && m[|m| - 1].totals.count2 + e2[name].count <= c[|c| - 1].totals.count2 == ScanTotal(e2).count
  {
    var names := SortedKeys(e1.Keys + e2.Keys);
    SortedKeysMembers(e1.Keys + e2.Keys);
    var k :| 0 <= k < |names| && names[k] == name;
    FilteredTallyMisses(names, e1, e2, k);
    ComparisonTotals(e1, e2, true);
  }

  /** Two scans that share an equal entry "a" and differ on "b". */
  const ExampleScan1: ScanResult := map["a" := Measurement(1, 1), "b" := Measurement(2, 1)]
  const ExampleScan2: ScanResult := map["a" := Measurement(1, 1)]

  /** With the filter on, `main` reports a Size1 total below the bytes of the first
      folder (it counts only the 2 bytes of "b", not the 3 of both entries). */
  lemma ExampleTotalsFallShort()
    ensures var m := MainReport(ExampleScan1, ExampleScan2, true);
      m[|m| - 1].totals.size1 < ScanTotal(ExampleScan1).size
  {
    assert ExampleScan1["a"] == ExampleScan2["a"] == Measurement(1, 1);
    MainTotalsOmitEqualEntries(ExampleScan1, ExampleScan2, "a");
  }
}
