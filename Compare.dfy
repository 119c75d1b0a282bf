/**
  The comparison engine as functions: one row per name of the sorted union of
  two scans, each side defaulting to `(0, 0)`, three difference marks per row,
  the `only_diffs` filter, and the totals with their difference counters.
  `Table` is what `build_comparison_data` and `ComparisonData.build_data`
  return for a given sorted name list; `Comparison` fixes that list to the
  sorted union of the two scans' keys.
 */
module Compare {

  import opened FsTree
  import opened StrOrder

  /** `entries.get(name, (0, 0))`. */
  function Lookup(e: ScanResult, name: string): Measurement
  {
    if name in e then e[name] else Measurement(0, 0)
  }

  /** The TOTAL row's values: byte and file totals per side and three difference counters. */
  datatype Totals = Totals(size1: nat, size2: nat, count1: nat, count2: nat,
                           sizeDiffs: nat, countDiffs: nat, diffs: nat)

  /** One row of the result: a name's comparison, the separator, or the TOTAL row.
      `sizeDiff`, `countDiff` and `diff` are the SD, CD and DIFF marks. */
  datatype Row =
    | Entry(name: string, size1: nat, size2: nat, sizeDiff: bool,
            count1: nat, count2: nat, countDiff: bool, diff: bool)
    | Separator
    | Total(totals: Totals)

  /** The row computed for one name in the comparison loop. */
  function CompareName(name: string, e1: ScanResult, e2: ScanResult): Row
  {
    var m1, m2 := Lookup(e1, name), Lookup(e2, name);
    Entry(name, m1.size, m2.size, m1.size != m2.size,
          m1.count, m2.count, m1.count != m2.count,
          m1.count != m2.count || m1.size != m2.size)
  }

  /** `if not only_diffs or diff`: whether the loop appends a row. */
  predicate Emitted(r: Row, onlyDiffs: bool)
  {
    !onlyDiffs || (r.Entry? && r.diff)
  }

  /** The rows appended while looping over `names`. */
  function EmittedRows(names: seq<string>, e1: ScanResult, e2: ScanResult, onlyDiffs: bool): seq<Row>
  {
    if names == [] then []
    else
      var rows := EmittedRows(names[..|names| - 1], e1, e2, onlyDiffs);
      var r := CompareName(names[|names| - 1], e1, e2);
      if Emitted(r, onlyDiffs) then rows + [r] else rows
  }

  const NoTotals := Totals(0, 0, 0, 0, 0, 0, 0)

  /** One step of the accumulation: the four totals and the three counters. */
  function Tally(t: Totals, r: Row): Totals
  {
    match r
    case Entry(_, size1, size2, _, count1, count2, _, _) =>
      Totals(t.size1 + size1, t.size2 + size2, t.count1 + count1, t.count2 + count2,
             t.sizeDiffs + (if size1 != size2 then 1 else 0),
             t.countDiffs + (if count1 != count2 then 1 else 0),
             t.diffs + (if size1 != size2 || count1 != count2 then 1 else 0))
    case _ => t
  }

  /** The accumulation over a sequence of rows, from zero. */
  function TallyRows(rows: seq<Row>): Totals
  {
    if rows == [] then NoTotals else Tally(TallyRows(rows[..|rows| - 1]), rows[|rows| - 1])
  }

  /** Accumulating one more row is one more step of `Tally`. */
  lemma TallyRowsSnoc(rows: seq<Row>, r: Row)
    ensures TallyRows(rows + [r]) == Tally(TallyRows(rows), r)
  {
    assert (rows + [r])[..|rows|] == rows;
  }

  /** What one name adds to the totals and the counters. */
  lemma TallyEntry(t: Totals, name: string, e1: ScanResult, e2: ScanResult)
    ensures var m1, m2 := Lookup(e1, name), Lookup(e2, name);
      Tally(t, CompareName(name, e1, e2))
      == Totals(t.size1 + m1.size, t.size2 + m2.size, t.count1 + m1.count, t.count2 + m2.count,
                t.sizeDiffs + (if m1.size != m2.size then 1 else 0),
                t.countDiffs + (if m1.count != m2.count then 1 else 0),
                t.diffs + (if m1.size != m2.size || m1.count != m2.count then 1 else 0))
  {
  }

  /** One more name: the emitted rows grow by that name's row when the filter lets it through. */
  lemma EmittedRowsStep(names: seq<string>, i: nat, e1: ScanResult, e2: ScanResult, onlyDiffs: bool)
    requires i < |names|
    ensures EmittedRows(names[..i + 1], e1, e2, onlyDiffs)
            == EmittedRows(names[..i], e1, e2, onlyDiffs)
               + (if Emitted(CompareName(names[i], e1, e2), onlyDiffs) then [CompareName(names[i], e1, e2)] else [])
  {
    assert names[..i + 1][..i] == names[..i];
  }

  /** The accumulation taken name by name, whatever the filter. */
  function TallyNames(names: seq<string>, e1: ScanResult, e2: ScanResult): Totals
  {
    if names == [] then NoTotals
    else Tally(TallyNames(names[..|names| - 1], e1, e2), CompareName(names[|names| - 1], e1, e2))
  }

  lemma TallyNamesStep(names: seq<string>, i: nat, e1: ScanResult, e2: ScanResult)
    requires i < |names|
    ensures TallyNames(names[..i + 1], e1, e2) == Tally(TallyNames(names[..i], e1, e2), CompareName(names[i], e1, e2))
  {
    assert names[..i + 1][..i] == names[..i];
  }

  /** Accumulating name by name is accumulating over the unfiltered rows. */
  lemma {:induction false} TallyNamesIsTallyRows(names: seq<string>, e1: ScanResult, e2: ScanResult)
    ensures TallyNames(names, e1, e2) == TallyRows(EmittedRows(names, e1, e2, false))
  {
    if names != [] {
      var init := names[..|names| - 1];
      TallyNamesIsTallyRows(init, e1, e2);
      var all := EmittedRows(names, e1, e2, false);
      assert all[..|all| - 1] == EmittedRows(init, e1, e2, false);
    }
  }

  /** The result list for the sorted names: the emitted rows, the separator, and
      the TOTAL row accumulated over every name, emitted or not. */
  function Table(names: seq<string>, e1: ScanResult, e2: ScanResult, onlyDiffs: bool): seq<Row>
  {
    EmittedRows(names, e1, e2, onlyDiffs) + [Separator, Total(TallyRows(EmittedRows(names, e1, e2, false)))]
  }

  /** The whole comparison of two scans. */
  ghost function Comparison(e1: ScanResult, e2: ScanResult, onlyDiffs: bool): seq<Row>
  {
    Table(SortedKeys(e1.Keys + e2.Keys), e1, e2, onlyDiffs)
  }

  /** The comparison is complete once every name of the sorted union has been
      taken: its rows, the separator, and the totals taken name by name. */
  lemma ComparisonByNames(names: seq<string>, e1: ScanResult, e2: ScanResult, onlyDiffs: bool,
                          rows: seq<Row>, t: Totals)
    requires names == SortedKeys(e1.Keys + e2.Keys)
    requires rows == EmittedRows(names[..|names|], e1, e2, onlyDiffs)
    requires t == TallyNames(names[..|names|], e1, e2)
    ensures rows + [Separator, Total(t)] == Comparison(e1, e2, onlyDiffs)
  {
    assert names[..|names|] == names;
    TallyNamesIsTallyRows(names, e1, e2);
  }

  /** The rows whose DIFF mark is set, in order: an independent statement of the filter. */
  function DiffRows(rows: seq<Row>): seq<Row>
  {
    if rows == [] then []
    else DiffRows(rows[..|rows| - 1]) + (if rows[|rows| - 1].Entry? && rows[|rows| - 1].diff then [rows[|rows| - 1]] else [])
  }

  /** The rows whose two sizes differ, in order: the rows the SD counter counts. */
  function SizeDiffRows(rows: seq<Row>): seq<Row>
  {
    if rows == [] then []
    else
      var last := rows[|rows| - 1];
      SizeDiffRows(rows[..|rows| - 1]) + (if last.Entry? && last.size1 != last.size2 then [last] else [])
  }

  /** The rows whose two file counts differ, in order: the rows the CD counter counts. */
  function CountDiffRows(rows: seq<Row>): seq<Row>
  {
    if rows == [] then []
    else
      var last := rows[|rows| - 1];
      CountDiffRows(rows[..|rows| - 1]) + (if last.Entry? && last.count1 != last.count2 then [last] else [])
  }

  /** Row names in strictly ascending order. */
  predicate RowsAscending(rows: seq<Row>)
  {
    forall i, j :: 0 <= i < j < |rows| ==> rows[i].Entry? && rows[j].Entry? && Below(rows[i].name, rows[j].name)
  }

  /** Every row describes its name faithfully: values looked up with the `(0, 0)`
      default, SD iff the sizes differ, CD iff the counts differ, DIFF iff either. */
  predicate RowFaithful(r: Row, e1: ScanResult, e2: ScanResult)
  {
    && r.Entry?
    && r.size1 == (if r.name in e1 then e1[r.name].size else 0)
    && r.count1 == (if r.name in e1 then e1[r.name].count else 0)
    && r.size2 == (if r.name in e2 then e2[r.name].size else 0)
    && r.count2 == (if r.name in e2 then e2[r.name].count else 0)
    && (r.sizeDiff <==> r.size1 != r.size2)
    && (r.countDiff <==> r.count1 != r.count2)
    && (r.diff <==> r.sizeDiff || r.countDiff)
  }

  /** Without the filter there is exactly one row per name, in the order of the names. */
  lemma {:induction false} AllNamesEmitted(names: seq<string>, e1: ScanResult, e2: ScanResult)
    ensures |EmittedRows(names, e1, e2, false)| == |names|
    ensures forall i :: 0 <= i < |names| ==> EmittedRows(names, e1, e2, false)[i] == CompareName(names[i], e1, e2)
  {
    if names != [] {
      var init := names[..|names| - 1];
      AllNamesEmitted(init, e1, e2);
      assert forall i :: 0 <= i < |init| ==> names[i] == init[i];
    }
  }

  /** Every emitted row is faithful to both scans, names one of the looped names,
      and with the filter on carries the DIFF mark. */
  lemma {:induction false} EmittedRowsFaithful(names: seq<string>, e1: ScanResult, e2: ScanResult, onlyDiffs: bool)
    ensures forall r :: r in EmittedRows(names, e1, e2, onlyDiffs) ==>
              RowFaithful(r, e1, e2) && r.name in names && (onlyDiffs ==> r.diff)
  {
    if names != [] {
      var init := names[..|names| - 1];
      EmittedRowsFaithful(init, e1, e2, onlyDiffs);
      forall r | r in EmittedRows(names, e1, e2, onlyDiffs)
        ensures RowFaithful(r, e1, e2) && r.name in names && (onlyDiffs ==> r.diff)
      {
        if r in EmittedRows(init, e1, e2, onlyDiffs) {
          assert r.name in init;
        }
      }
    }
  }

  /** With the filter on, the rows are exactly the DIFF-marked rows of the unfiltered run, in order. */
  lemma {:induction false} OnlyDiffsIsFilter(names: seq<string>, e1: ScanResult, e2: ScanResult)
    ensures EmittedRows(names, e1, e2, true) == DiffRows(EmittedRows(names, e1, e2, false))
  {
    if names != [] {
      var init := names[..|names| - 1];
      OnlyDiffsIsFilter(init, e1, e2);
      var all := EmittedRows(names, e1, e2, false);
      assert all[..|all| - 1] == EmittedRows(init, e1, e2, false);
    }
  }

  /** Rows of strictly ascending names are themselves in strictly ascending name order. */
  lemma {:induction false} EmittedRowsAscending(names: seq<string>, e1: ScanResult, e2: ScanResult, onlyDiffs: bool)
    requires StrictlyAscending(names)
    ensures RowsAscending(EmittedRows(names, e1, e2, onlyDiffs))
  {
    if names != [] {
      var init := names[..|names| - 1];
      var last := names[|names| - 1];
      EmittedRowsAscending(init, e1, e2, onlyDiffs);
      EmittedRowsFaithful(init, e1, e2, onlyDiffs);
      var rows := EmittedRows(init, e1, e2, onlyDiffs);
      forall i | 0 <= i < |rows|
        ensures rows[i].Entry? && Below(rows[i].name, last)
      {
        assert rows[i] in rows;
        var k :| 0 <= k < |init| && init[k] == rows[i].name;
        assert names[k] == init[k];
      }
    }
  }

  /** A name present on one side only is compared against `(0, 0)`, so it is
      marked DIFF exactly when its measurement there is not `(0, 0)`. */
  lemma AbsentComparedAsZero(name: string, e1: ScanResult, e2: ScanResult)
    requires (name in e1) != (name in e2)
    ensures CompareName(name, e1, e2).diff <==>
              (if name in e1 then e1[name] else e2[name]) != Measurement(0, 0)
  {
  }

  /** The three counters: DIFF counts at least as many rows as SD and as CD, at most
      both together, and at most all rows; SD counts exactly the rows whose sizes
      differ, CD those whose file counts differ, DIFF the DIFF-marked rows. */
  lemma {:induction false} CounterBounds(rows: seq<Row>)
    requires forall r :: r in rows ==> r.Entry? && (r.diff <==> r.size1 != r.size2 || r.count1 != r.count2)
    ensures var t := TallyRows(rows);
      && t.sizeDiffs <= t.diffs && t.countDiffs <= t.diffs
      && t.diffs <= t.sizeDiffs + t.countDiffs
      && t.diffs <= |rows|
      && t.sizeDiffs == |SizeDiffRows(rows)|
      && t.countDiffs == |CountDiffRows(rows)|
      && t.diffs == |DiffRows(rows)|
  {
    if rows != [] {
      assert rows[|rows| - 1] in rows;
      CounterBounds(rows[..|rows| - 1]);
    }
  }

  /** Two measurements added componentwise. */
  function Add(a: Measurement, b: Measurement): Measurement
  {
    Measurement(a.size + b.size, a.count + b.count)
  }

  lemma AddSwap(a: Measurement, b: Measurement, c: Measurement)
    ensures Add(a, Add(b, c)) == Add(b, Add(a, c))
  {
  }

  /** The sum of the measurements of `e` over the names `keys` (absent names add `(0, 0)`). */
  ghost function MeasureSum(keys: set<string>, e: ScanResult): Measurement
    decreases |keys|
  {
    if keys == {} then Measurement(0, 0)
    else var k :| k in keys; Add(Lookup(e, k), MeasureSum(keys - {k}, e))
  }

  /** The totals of one scan: the sum of all its values. */
  ghost function ScanTotal(e: ScanResult): Measurement
  {
    MeasureSum(e.Keys, e)
  }

  lemma {:induction false} MeasureSumRemove(keys: set<string>, e: ScanResult, k: string)
    requires k in keys
    ensures MeasureSum(keys, e) == Add(Lookup(e, k), MeasureSum(keys - {k}, e))
    decreases |keys|
  {
    var j :| j in keys && MeasureSum(keys, e) == Add(Lookup(e, j), MeasureSum(keys - {j}, e));
    if j != k {
      var withoutJ, withoutK := keys - {j}, keys - {k};
      var rest := withoutJ - {k};
      assert withoutK - {j} == rest;
      MeasureSumRemove(withoutJ, e, k);
      MeasureSumRemove(withoutK, e, j);
      AddSwap(Lookup(e, j), Lookup(e, k), MeasureSum(rest, e));
    }
  }

  /** Two scans that agree on `keys` have the same sum over them. */
  lemma {:induction false} MeasureSumAgree(keys: set<string>, e: ScanResult, e': ScanResult)
    requires forall k :: k in keys ==> Lookup(e, k) == Lookup(e', k)
    ensures MeasureSum(keys, e) == MeasureSum(keys, e')
    decreases |keys|
  {
    if keys != {} {
      var k :| k in keys;
      MeasureSumRemove(keys, e, k);
      MeasureSumRemove(keys, e', k);
      MeasureSumAgree(keys - {k}, e, e');
    }
  }

  /** Recording a new name adds its measurement to the scan's total. */
  lemma ScanTotalInsert(e: ScanResult, name: string, m: Measurement)
    requires name !in e
    ensures ScanTotal(e[name := m]) == Add(m, ScanTotal(e))
  {
    var e' := e[name := m];
    MeasureSumRemove(e'.Keys, e', name);
    assert e'.Keys - {name} == e.Keys;
    MeasureSumAgree(e.Keys, e, e');
  }

  /** Names absent from a scan add nothing to its sum. */
  lemma {:induction false} MeasureSumIgnoresAbsent(keys: set<string>, e: ScanResult)
    requires e.Keys <= keys
    ensures MeasureSum(keys, e) == ScanTotal(e)
    decreases |keys|
  {
    if keys != e.Keys {
      assert !(keys <= e.Keys);
      var k :| k in keys && k !in e.Keys;
      MeasureSumRemove(keys, e, k);
      MeasureSumIgnoresAbsent(keys - {k}, e);
    }
  }

  /** The measurements looked up along `names`, summed componentwise. */
  function SeqSum(names: seq<string>, e: ScanResult): Measurement
  {
    if names == [] then Measurement(0, 0)
    else Add(SeqSum(names[..|names| - 1], e), Lookup(e, names[|names| - 1]))
  }

  /** Accumulating name by name sums the looked-up measurements of each side. */
  lemma {:induction false} TallyNamesIsSeqSum(names: seq<string>, e1: ScanResult, e2: ScanResult)
    ensures var t, s1, s2 := TallyNames(names, e1, e2), SeqSum(names, e1), SeqSum(names, e2);
      t.size1 == s1.size && t.count1 == s1.count && t.size2 == s2.size && t.count2 == s2.count
  {
    if names != [] {
      var init, last := names[..|names| - 1], names[|names| - 1];
      TallyNamesIsSeqSum(init, e1, e2);
      TallyEntry(TallyNames(init, e1, e2), last, e1, e2);
    }
  }

  /** The accumulated totals are the sums of the looked-up measurements. */
  lemma TallyIsSeqSum(names: seq<string>, e1: ScanResult, e2: ScanResult)
    ensures var t := TallyRows(EmittedRows(names, e1, e2, false));
      && t.size1 == SeqSum(names, e1).size && t.count1 == SeqSum(names, e1).count
      && t.size2 == SeqSum(names, e2).size && t.count2 == SeqSum(names, e2).count
  {
    TallyNamesIsTallyRows(names, e1, e2);
    TallyNamesIsSeqSum(names, e1, e2);
  }

  /** The set of names in a sequence, built name by name so that proofs can peel off
      the last name; `NameSetMembers` shows it holds exactly the names of the sequence. */
  function NameSet(names: seq<string>): set<string>
  {
    if names == [] then {} else NameSet(names[..|names| - 1]) + {names[|names| - 1]}
  }

  lemma {:induction false} NameSetMembers(names: seq<string>)
    ensures forall n :: n in NameSet(names) <==> n in names
  {
    if names != [] {
      NameSetMembers(names[..|names| - 1]);
      assert names == names[..|names| - 1] + [names[|names| - 1]];
    }
  }

  /** No name occurs twice. */
  predicate Distinct(names: seq<string>)
  {
    forall i, j :: 0 <= i < j < |names| ==> names[i] != names[j]
  }

  lemma DistinctSplit(names: seq<string>)
    requires Distinct(names) && names != []
    ensures Distinct(names[..|names| - 1]) && names[|names| - 1] !in names[..|names| - 1]
  {
  }

  /** Along distinct names, the sum does not depend on their order. */
  lemma {:induction false} SeqSumIsMeasureSum(names: seq<string>, e: ScanResult)
    requires Distinct(names)
    ensures SeqSum(names, e) == MeasureSum(NameSet(names), e)
  {
    if names != [] {
      var init, last := names[..|names| - 1], names[|names| - 1];
      DistinctSplit(names);
      SeqSumIsMeasureSum(init, e);
      NameSetMembers(init);
      assert NameSet(names) - {last} == NameSet(init);
      MeasureSumRemove(NameSet(names), e, last);
    }
  }

  lemma NameSetOfSorted(keys: set<string>)
    ensures NameSet(SortedKeys(keys)) == keys
  {
    SortedKeysMembers(keys);
    NameSetMembers(SortedKeys(keys));
  }

  lemma AscendingIsDistinct(names: seq<string>)
    requires StrictlyAscending(names)
    ensures Distinct(names)
  {
    forall i, j | 0 <= i < j < |names| ensures names[i] != names[j] {
      BelowAsymmetric(names[i], names[j]);
    }
  }

  /** Over the sorted union, the four totals are the sums of each scan's values. */
  lemma UnionTotalsAreScanTotals(e1: ScanResult, e2: ScanResult)
    ensures var t := TallyRows(EmittedRows(SortedKeys(e1.Keys + e2.Keys), e1, e2, false));
      && t.size1 == ScanTotal(e1).size && t.count1 == ScanTotal(e1).count
      && t.size2 == ScanTotal(e2).size && t.count2 == ScanTotal(e2).count
  {
    var names := SortedKeys(e1.Keys + e2.Keys);
    SortedKeysAscending(e1.Keys + e2.Keys);
    SortedKeysMembers(e1.Keys + e2.Keys);
    AscendingIsDistinct(names);
    TallyIsSeqSum(names, e1, e2);
    SeqSumIsMeasureSum(names, e1);
    SeqSumIsMeasureSum(names, e2);
    NameSetOfSorted(e1.Keys + e2.Keys);
    MeasureSumIgnoresAbsent(e1.Keys + e2.Keys, e1);
    MeasureSumIgnoresAbsent(e1.Keys + e2.Keys, e2);
  }

  /** The DIFF counter over all names is the number of rows the filter keeps. */
  lemma DiffCounterIsFilteredRows(names: seq<string>, e1: ScanResult, e2: ScanResult)
    ensures TallyRows(EmittedRows(names, e1, e2, false)).diffs == |EmittedRows(names, e1, e2, true)|
  {
    EmittedRowsFaithful(names, e1, e2, false);
    CounterBounds(EmittedRows(names, e1, e2, false));
    OnlyDiffsIsFilter(names, e1, e2);
  }

  /** The TOTAL row of a comparison: the sums of each scan's values, whatever
      `only_diffs` is; SD and CD counters equal to the number of names whose
      sizes, and whose file counts, differ; and a DIFF counter equal to the
      number of rows the filtered comparison emits. The separator sits right
      before it. */
  lemma ComparisonTotals(e1: ScanResult, e2: ScanResult, onlyDiffs: bool)
    ensures var r := Comparison(e1, e2, onlyDiffs);
      var names := SortedKeys(e1.Keys + e2.Keys);
      && |r| == |EmittedRows(names, e1, e2, onlyDiffs)| + 2
      && r[|r| - 2] == Separator
      && r[|r| - 1].Total?
      && r[|r| - 1].totals.size1 == ScanTotal(e1).size
      && r[|r| - 1].totals.count1 == ScanTotal(e1).count
      && r[|r| - 1].totals.size2 == ScanTotal(e2).size
      && r[|r| - 1].totals.count2 == ScanTotal(e2).count
      && r[|r| - 1].totals.sizeDiffs == |SizeDiffRows(EmittedRows(names, e1, e2, false))|
      && r[|r| - 1].totals.countDiffs == |CountDiffRows(EmittedRows(names, e1, e2, false))|
      && r[|r| - 1].totals.diffs == |EmittedRows(names, e1, e2, true)|
  {
    var names := SortedKeys(e1.Keys + e2.Keys);
    UnionTotalsAreScanTotals(e1, e2);
    DiffCounterIsFilteredRows(names, e1, e2);
    EmittedRowsFaithful(names, e1, e2, false);
    CounterBounds(EmittedRows(names, e1, e2, false));
  }

  /** The filter changes the rows only: the filtered rows are among the unfiltered
      ones, and the TOTAL row is the same with or without it. */
  lemma FilterKeepsTotals(e1: ScanResult, e2: ScanResult)
    ensures var f, a := Comparison(e1, e2, true), Comparison(e1, e2, false);
      && f[|f| - 1] == a[|a| - 1]
      && (forall i :: 0 <= i < |f| - 2 ==> f[i] in a[..|a| - 2])
  {
    var names := SortedKeys(e1.Keys + e2.Keys);
    var rf, ra := EmittedRows(names, e1, e2, true), EmittedRows(names, e1, e2, false);
    assert Comparison(e1, e2, true)[..|rf|] == rf;
    assert Comparison(e1, e2, false)[..|ra|] == ra;
    OnlyDiffsIsFilter(names, e1, e2);
    forall i | 0 <= i < |rf| ensures rf[i] in ra {
      DiffRowsMembership(ra, rf[i]);
    }
  }

  /** The three counters of the TOTAL row: DIFF is at least SD and at least CD, at
      most their sum, and at most the number of names in the union. */
  lemma ComparisonCounters(e1: ScanResult, e2: ScanResult, onlyDiffs: bool)
    ensures var r := Comparison(e1, e2, onlyDiffs);
      var t := r[|r| - 1].totals;
      && t.sizeDiffs <= t.diffs && t.countDiffs <= t.diffs
      && t.diffs <= t.sizeDiffs + t.countDiffs
      && t.diffs <= |e1.Keys + e2.Keys|
  {
    var names := SortedKeys(e1.Keys + e2.Keys);
    SortedKeysMembers(e1.Keys + e2.Keys);
    AllNamesEmitted(names, e1, e2);
    EmittedRowsFaithful(names, e1, e2, false);
    CounterBounds(EmittedRows(names, e1, e2, false));
  }

  /** The rows of a comparison come first, in strictly ascending name order, each
      faithful to both scans and naming a name of the union. */
  lemma ComparisonRowsOrdered(e1: ScanResult, e2: ScanResult, onlyDiffs: bool)
    ensures var names := SortedKeys(e1.Keys + e2.Keys);
      var rows := EmittedRows(names, e1, e2, onlyDiffs);
      && rows == Comparison(e1, e2, onlyDiffs)[..|rows|]
      && RowsAscending(rows)
      && (forall r :: r in rows ==> RowFaithful(r, e1, e2) && r.name in e1.Keys + e2.Keys)
  {
    var names := SortedKeys(e1.Keys + e2.Keys);
    SortedKeysAscending(e1.Keys + e2.Keys);
    SortedKeysMembers(e1.Keys + e2.Keys);
    EmittedRowsAscending(names, e1, e2, onlyDiffs);
    EmittedRowsFaithful(names, e1, e2, onlyDiffs);
  }

  /** Without the filter every name of the union has its row; with it, exactly the
      names whose row is DIFF-marked. */
  lemma ComparisonRowsMembership(e1: ScanResult, e2: ScanResult, onlyDiffs: bool)
    ensures var rows := EmittedRows(SortedKeys(e1.Keys + e2.Keys), e1, e2, onlyDiffs);
      forall name :: name in e1.Keys + e2.Keys ==>
        (CompareName(name, e1, e2) in rows <==> !onlyDiffs || CompareName(name, e1, e2).diff)
  {
    var names := SortedKeys(e1.Keys + e2.Keys);
    var all := EmittedRows(names, e1, e2, false);
    SortedKeysMembers(e1.Keys + e2.Keys);
    AllNamesEmitted(names, e1, e2);
    OnlyDiffsIsFilter(names, e1, e2);
    forall name | name in e1.Keys + e2.Keys
      ensures CompareName(name, e1, e2) in EmittedRows(names, e1, e2, onlyDiffs)
              <==> !onlyDiffs || CompareName(name, e1, e2).diff
    {
      var i :| 0 <= i < |names| && names[i] == name;
      assert all[i] == CompareName(name, e1, e2);
      if onlyDiffs {
        DiffRowsMembership(all, CompareName(name, e1, e2));
      }
    }
  }

  lemma {:induction false} DiffRowsMembership(rows: seq<Row>, r: Row)
    ensures r in DiffRows(rows) <==> r in rows && r.Entry? && r.diff
  {
    if rows != [] {
      DiffRowsMembership(rows[..|rows| - 1], r);
      assert rows == rows[..|rows| - 1] + [rows[|rows| - 1]];
    }
  }

  /** Comparing a scan with itself marks nothing: no row survives the filter and
      all three counters are zero. */
  lemma SelfComparisonHasNoDiffs(e: ScanResult, onlyDiffs: bool)
    ensures var r := Comparison(e, e, onlyDiffs);
      && (onlyDiffs ==> |r| == 2)
      && r[|r| - 1].Total?
      && r[|r| - 1].totals.sizeDiffs == 0 && r[|r| - 1].totals.countDiffs == 0 && r[|r| - 1].totals.diffs == 0
  {
    NoDiffsAgainstItself(SortedKeys(e.Keys + e.Keys), e);
  }

  lemma {:induction false} NoDiffsAgainstItself(names: seq<string>, e: ScanResult)
    ensures EmittedRows(names, e, e, true) == []
    ensures var t := TallyRows(EmittedRows(names, e, e, false));
      t.sizeDiffs == 0 && t.countDiffs == 0 && t.diffs == 0
  {
    if names != [] {
      NoDiffsAgainstItself(names[..|names| - 1], e);
    }
  }
}
