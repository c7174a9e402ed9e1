/** What the merge helpers compute, stated against independent definitions:
    totals are additive across partitions, MIN/MAX find the extreme value
    (with 0 standing for "unset" in the numeric case), and the parallel
    path's per-aggregate error handling changes nothing when no aggregate
    throws. */
module MergeLaws {
  import opened Common
  import opened ResultCursor
  import opened StringOrder
  import opened Merge

  /** The total of the concatenation is the sum of the totals, the first
      failure winning. */
  function AddTotals(x: Result<int>, y: Result<int>): Result<int>
  {
    match x
    case Failure(f) => Failure(f)
    case Success(a) =>
      match y
      case Failure(f) => Failure(f)
      case Success(b) => Success(a + b)
  }

  /** Merging a further partition into the accumulated rows adds that
      partition's total to the running total. */
  lemma {:induction false} TotalOfConcat(a: seq<Row>, b: seq<Row>, col: int)
    ensures ColumnTotal(a + b, col) == AddTotals(ColumnTotal(a, col), ColumnTotal(b, col))
    decreases |b|
  {
    if b == [] {
      assert a + b == a;
    } else {
      var b' := b[..|b| - 1];
      assert (a + b)[..|a + b| - 1] == a + b';
      assert (a + b)[|a + b| - 1] == b[|b| - 1];
      TotalOfConcat(a, b', col);
    }
  }

  /** AVG's pair of running totals is the pair of the two columns' totals:
      it exists exactly when both totals do. */
  lemma {:induction false} PairFoldIsTotals(rows: seq<Row>, col: int)
    ensures Fold(rows, (0, 0), PairStep(col)).Success? <==>
            ColumnTotal(rows, col).Success? && ColumnTotal(rows, col + 1).Success?
    ensures Fold(rows, (0, 0), PairStep(col)).Success? ==>
            Fold(rows, (0, 0), PairStep(col)).value == (ColumnTotal(rows, col).value, ColumnTotal(rows, col + 1).value)
    decreases |rows|
  {
    if rows != [] {
      PairFoldIsTotals(rows[..|rows| - 1], col);
    }
  }

  /** Every cell of the column reads as a non-zero Integer. */
  ghost predicate NonZeroInts(rows: seq<Row>, col: int)
  {
    forall i :: 0 <= i < |rows| ==> ReadInt(rows[i], col).Success? && ReadInt(rows[i], col).value != 0
  }

  ghost predicate IsExtreme(rows: seq<Row>, col: int, isMin: bool, m: int)
  {
    && (exists i :: 0 <= i < |rows| && ReadInt(rows[i], col) == Success(m))
    && (forall i :: 0 <= i < |rows| && ReadInt(rows[i], col).Success? ==>
          if isMin then m <= ReadInt(rows[i], col).value else m >= ReadInt(rows[i], col).value)
  }

  /** Without zeros in the column, numeric MIN/MAX is the true minimum or
      maximum of the column. */
  lemma {:induction false} IntExtremeIsExtreme(rows: seq<Row>, col: int, isMin: bool)
    requires |rows| > 0 && NonZeroInts(rows, col)
    ensures Fold(rows, 0, IntExtremeStep(col, isMin)).Success?
    ensures IsExtreme(rows, col, isMin, Fold(rows, 0, IntExtremeStep(col, isMin)).value)
    decreases |rows|
  {
    var n := |rows|;
    var init := rows[..n - 1];
    var last := ReadInt(rows[n - 1], col).value;
    if n == 1 {
      assert init == [];
      assert ReadInt(rows[0], col) == Success(last);
    } else {
      assert NonZeroInts(init, col) by {
        forall i | 0 <= i < |init| ensures ReadInt(init[i], col).Success? && ReadInt(init[i], col).value != 0 {
          assert init[i] == rows[i];
        }
      }
      IntExtremeIsExtreme(init, col, isMin);
      var m := Fold(init, 0, IntExtremeStep(col, isMin)).value;
      var k :| 0 <= k < |init| && ReadInt(init[k], col) == Success(m);
      assert init[k] == rows[k];
      assert m != 0;
      var picked := IntPick(isMin, m, last);
      assert Fold(rows, 0, IntExtremeStep(col, isMin)) == Success(picked);
      forall i | 0 <= i < |rows| && ReadInt(rows[i], col).Success?
        ensures if isMin then picked <= ReadInt(rows[i], col).value else picked >= ReadInt(rows[i], col).value
      {
        if i < n - 1 { assert init[i] == rows[i]; }
      }
      if picked == last {
        assert ReadInt(rows[n - 1], col) == Success(picked);
      } else {
        assert ReadInt(rows[k], col) == Success(picked);
      }
    }
  }

  /** Folding a concatenation folds the second part from the first part's
      result, the first failure winning. */
  lemma {:induction false} FoldConcat<A>(a: seq<Row>, b: seq<Row>, init: A, step: (A, Row) -> Result<A>)
    ensures Fold(a + b, init, step) ==
            match Fold(a, init, step)
            case Failure(f) => Failure(f)
            case Success(acc) => Fold(b, acc, step)
    decreases |b|
  {
    if b == [] {
      assert a + b == a;
    } else {
      var b' := b[..|b| - 1];
      assert (a + b)[..|a + b| - 1] == a + b';
      assert (a + b)[|a + b| - 1] == b[|b| - 1];
      FoldConcat(a, b', init, step);
    }
  }

  /** 0 is the "unset" marker of numeric MIN/MAX: whenever the accumulator is
      0 after some rows, the rows before make no difference, and the rest of
      the column is folded as if from the start. */
  lemma ZeroIsUnset(rows: seq<Row>, k: nat, col: int, isMin: bool)
    requires k <= |rows| && Fold(rows[..k], 0, IntExtremeStep(col, isMin)) == Success(0)
    ensures Fold(rows, 0, IntExtremeStep(col, isMin)) == Fold(rows[k..], 0, IntExtremeStep(col, isMin))
  {
    FoldConcat(rows[..k], rows[k..], 0, IntExtremeStep(col, isMin));
    assert rows[..k] + rows[k..] == rows;
  }

  /** In particular a leading 0 cell is skipped: the next row's value
      overwrites it, whatever its sign. */
  lemma LeadingZeroIsSkipped(rows: seq<Row>, col: int, isMin: bool)
    requires |rows| > 0 && ReadInt(rows[0], col) == Success(0)
    ensures Fold(rows, 0, IntExtremeStep(col, isMin)) == Fold(rows[1..], 0, IntExtremeStep(col, isMin))
  {
    FoldSingle(rows[0], 0, IntExtremeStep(col, isMin));
    assert rows[..1] == [rows[0]];
    ZeroIsUnset(rows, 1, col, isMin);
  }

  /** Worked case: a zero MIN is overwritten by the next row's value. */
  lemma MinTreatsZeroAsUnset()
    ensures ExtremeOf([[IntV(0)], [IntV(5)]], 0, true) == Success(IntV(5))
  {
    FoldPair([IntV(0)], [IntV(5)], 0, IntExtremeStep(0, true));
    assert ReadInt([IntV(0)], 0) == Success(0);
    assert IntExtremeStep(0, true)(0, [IntV(0)]) == Success(0);
    assert ReadInt([IntV(5)], 0) == Success(5);
    assert IntExtremeStep(0, true)(0, [IntV(5)]) == Success(5);
  }

  /** Worked case for MAX: a zero is overwritten even by a negative value. */
  lemma MaxTreatsZeroAsUnset()
    ensures ExtremeOf([[IntV(0)], [IntV(-3)]], 0, false) == Success(IntV(-3))
  {
    FoldPair([IntV(0)], [IntV(-3)], 0, IntExtremeStep(0, false));
    assert ReadInt([IntV(0)], 0) == Success(0);
    assert IntExtremeStep(0, false)(0, [IntV(0)]) == Success(0);
    assert ReadInt([IntV(-3)], 0) == Success(-3);
    assert IntExtremeStep(0, false)(0, [IntV(-3)]) == Success(-3);
  }

  ghost predicate AllStrings(rows: seq<Row>, col: int)
  {
    forall i :: 0 <= i < |rows| ==> Cell(rows[i], col).Success? && Cell(rows[i], col).value.StrV?
  }

  ghost predicate IsBestString(rows: seq<Row>, col: int, isMin: bool, s: string)
  {
    && (exists i :: 0 <= i < |rows| && Cell(rows[i], col) == Success(StrV(s)))
    && (forall i :: 0 <= i < |rows| && Cell(rows[i], col).Success? && Cell(rows[i], col).value.StrV? ==>
          var t := Cell(rows[i], col).value.s;
          if isMin then AtMost(s, t) else AtMost(t, s))
  }

  /** String MIN/MAX is the least (greatest) value of the column under the
      comparator's order, which is lexicographic order. */
  lemma {:induction false} StrExtremeIsBest(rows: seq<Row>, col: int, isMin: bool)
    requires |rows| > 0 && AllStrings(rows, col)
    ensures Fold(rows, None, StrExtremeStep(col, isMin)).Success?
    ensures Fold(rows, None, StrExtremeStep(col, isMin)).value.Some?
    ensures IsBestString(rows, col, isMin, Fold(rows, None, StrExtremeStep(col, isMin)).value.value)
    decreases |rows|
  {
    var n := |rows|;
    var init := rows[..n - 1];
    var last := Cell(rows[n - 1], col).value.s;
    if n == 1 {
      assert init == [];
      assert Fold(rows, None, StrExtremeStep(col, isMin)) == Success(Some(last));
      assert Cell(rows[0], col) == Success(StrV(last));
    } else {
      assert AllStrings(init, col) by {
        forall i | 0 <= i < |init| ensures Cell(init[i], col).Success? && Cell(init[i], col).value.StrV? {
          assert init[i] == rows[i];
        }
      }
      StrExtremeIsBest(init, col, isMin);
      var b := Fold(init, None, StrExtremeStep(col, isMin)).value.value;
      var k :| 0 <= k < |init| && Cell(init[k], col) == Success(StrV(b));
      assert init[k] == rows[k];
      var replace := if isMin then CompareStrings(b, last) > 0 else CompareStrings(b, last) < 0;
      var picked := if replace then last else b;
      assert Fold(rows, None, StrExtremeStep(col, isMin)) == Success(Some(picked));
      Antisymmetric(b, last);
      forall i | 0 <= i < |rows| && Cell(rows[i], col).Success? && Cell(rows[i], col).value.StrV?
        ensures var t := Cell(rows[i], col).value.s; if isMin then AtMost(picked, t) else AtMost(t, picked)
      {
        if i < n - 1 {
          assert init[i] == rows[i];
          if replace {
            if isMin { AtMostTransitive(last, b, rows[i][col].s); }
            else { AtMostTransitive(rows[i][col].s, b, last); }
          }
        }
      }
      if replace {
        assert Cell(rows[n - 1], col) == Success(StrV(picked));
      } else {
        assert Cell(rows[k], col) == Success(StrV(picked));
      }
    }
  }

  /** The parallel path swallows TrainDBException per aggregate; when the
      sequential path's merge does not fail, both produce the same row. */
  lemma {:induction false} CatchingAgreesWithoutFailures(rows: seq<Row>, aggs: seq<AggKind>, j: nat, aggIdx: nat,
                                                        scale: int -> int, average: Average)
    requires MergeColumns(rows, aggs, j, aggIdx, scale, average, false).Success?
    ensures MergeColumns(rows, aggs, j, aggIdx, scale, average, true)
         == MergeColumns(rows, aggs, j, aggIdx, scale, average, false)
    decreases ColumnCount(rows) - j
  {
    if j < ColumnCount(rows) && aggIdx < |aggs| {
      var next := if aggs[aggIdx] == Avg then j + 2 else j + 1;
      CatchingAgreesWithoutFailures(rows, aggs, next, aggIdx + 1, scale, average);
    }
  }

  /** Number of physical columns a projection of these aggregates has. */
  function Width(aggs: seq<AggKind>): nat
  {
    if aggs == [] then 0
    else Width(aggs[..|aggs| - 1]) + (if aggs[|aggs| - 1] == Avg then 2 else 1)
  }

  lemma WidthExtend(aggs: seq<AggKind>, k: nat)
    requires k < |aggs|
    ensures Width(aggs[..k + 1]) == Width(aggs[..k]) + (if aggs[k] == Avg then 2 else 1)
  {
    assert aggs[..k + 1][..k] == aggs[..k];
  }

  lemma WidthBound(aggs: seq<AggKind>, k: nat)
    requires k < |aggs|
    ensures Width(aggs[..k + 1]) <= Width(aggs)
    decreases |aggs| - k
  {
    if k + 1 < |aggs| {
      WidthBound(aggs, k + 1);
      WidthExtend(aggs, k + 1);
    } else {
      assert aggs[..k + 1] == aggs;
    }
  }

  /** When the rows have the projection's shape, a successful merge emits one
      value per aggregate, AVG consuming its two columns. */
  lemma {:induction false} OneValuePerAggregate(rows: seq<Row>, aggs: seq<AggKind>, k: nat,
                                               scale: int -> int, average: Average)
    requires k <= |aggs| && ColumnCount(rows) == Width(aggs)
    requires MergeColumns(rows, aggs, Width(aggs[..k]), k, scale, average, false).Success?
    ensures |MergeColumns(rows, aggs, Width(aggs[..k]), k, scale, average, false).value| == |aggs| - k
    decreases |aggs| - k
  {
    if k < |aggs| {
      WidthExtend(aggs, k);
      WidthBound(aggs, k);
      OneValuePerAggregate(rows, aggs, k + 1, scale, average);
    } else {
      assert aggs[..k] == aggs;
    }
  }

  // Worked cases.

  lemma FoldSingle<A>(r: Row, init: A, step: (A, Row) -> Result<A>)
    ensures Fold([r], init, step) == step(init, r)
  {
    assert [r][..0] == [];
  }

  /** Folding two rows is the step on the first, then on the second. */
  lemma FoldPair<A>(r0: Row, r1: Row, init: A, step: (A, Row) -> Result<A>)
    ensures Fold([r0, r1], init, step) ==
            match step(init, r0)
            case Failure(f) => Failure(f)
            case Success(acc) => step(acc, r1)
  {
    assert [r0, r1][..1] == [r0];
    FoldSingle(r0, init, step);
  }

  /** SUM, not approximate: partition sums 55, 155, 255, 355 merge to 820. */
  lemma ExactSumOfFourPartitions()
    ensures ScaledTotal([[IntV(55)], [IntV(155)], [IntV(255)], [IntV(355)]], 0, x => x) == Success(IntV(820))
  {
    var rows: seq<Row> := [[IntV(55)], [IntV(155)], [IntV(255)], [IntV(355)]];
    FoldSingle(rows[0], 0, TotalStep(0));
    assert rows[..1] == [rows[0]];
    FoldExtend(rows, 1, 0, TotalStep(0));
    FoldExtend(rows, 2, 0, TotalStep(0));
    FoldExtend(rows, 3, 0, TotalStep(0));
    assert rows[..4] == rows;
  }

  /** COUNT, approximate, two of four partitions scanned: factor 4 / 2. */
  lemma ApproximateCountOfHalfTheData()
    ensures ScaledTotal([[IntV(25)], [IntV(25)]], 0, x => x * (4 / 2)) == Success(IntV(100))
  {
    FoldPair([IntV(25)], [IntV(25)], 0, TotalStep(0));
    assert TotalStep(0)(0, [IntV(25)]) == Success(25);
    assert TotalStep(0)(25, [IntV(25)]) == Success(50);
  }

  /** String MIN over the per-partition results "al" and "ann". */
  lemma StringMinOfTwoPartitions()
    ensures ExtremeOf([[StrV("al")], [StrV("ann")]], 0, true) == Success(StrV("al"))
  {
    assert CompareStrings("al", "ann") == 'l' as int - 'n' as int;
    FoldPair([StrV("al")], [StrV("ann")], None, StrExtremeStep(0, true));
    assert Cell([StrV("al")], 0) == Success(StrV("al"));
    assert StrExtremeStep(0, true)(None, [StrV("al")]) == Success(Some("al"));
    assert Cell([StrV("ann")], 0) == Success(StrV("ann"));
    assert StrExtremeStep(0, true)(Some("al"), [StrV("ann")]) == Success(Some("al"));
  }

  /** String MAX over the same results. */
  lemma StringMaxOfTwoPartitions()
    ensures ExtremeOf([[StrV("al")], [StrV("ann")]], 0, false) == Success(StrV("ann"))
  {
    assert CompareStrings("al", "ann") == 'l' as int - 'n' as int;
    FoldPair([StrV("al")], [StrV("ann")], None, StrExtremeStep(0, false));
    assert Cell([StrV("al")], 0) == Success(StrV("al"));
    assert StrExtremeStep(0, false)(None, [StrV("al")]) == Success(Some("al"));
    assert Cell([StrV("ann")], 0) == Success(StrV("ann"));
    assert StrExtremeStep(0, false)(Some("al"), [StrV("ann")]) == Success(Some("ann"));
  }

  /** The prefix case: the shorter string is the smaller. */
  lemma StringMinOfPrefix()
    ensures ExtremeOf([[StrV("ann")], [StrV("an")]], 0, true) == Success(StrV("an"))
  {
    assert CompareStrings("ann", "an") == 1;
    FoldPair([StrV("ann")], [StrV("an")], None, StrExtremeStep(0, true));
    assert Cell([StrV("ann")], 0) == Success(StrV("ann"));
    assert StrExtremeStep(0, true)(None, [StrV("ann")]) == Success(Some("ann"));
    assert Cell([StrV("an")], 0) == Success(StrV("an"));
    assert StrExtremeStep(0, true)(Some("ann"), [StrV("an")]) == Success(Some("an"));
  }
}
