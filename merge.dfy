/** The merge helpers of TrainDBPrepareImpl (executeIncrementalCount, Sum,
    Avg, Min, Max) and the loop that calls one of them per aggregate. Each
    helper rewinds a cursor over ALL accumulated rows and recomputes its
    accumulator from scratch; the specification functions below say what that
    pass yields. */
module Merge {
  import opened Common
  import opened ResultCursor
  import opened StringOrder

  datatype AggKind = Count | Sum | Avg | Min | Max

  /** SqlAggFunction.getName() of the standard operators. */
  function Label(k: AggKind): string
  {
    match k
    case Count => "COUNT"
    case Sum => "SUM"
    case Avg => "AVG"
    case Min => "MIN"
    case Max => "MAX"
  }

  function Labels(aggs: seq<AggKind>): (r: seq<string>)
    ensures |r| == |aggs|
    ensures forall i :: 0 <= i < |aggs| ==> r[i] == Label(aggs[i])
  {
    if aggs == [] then [] else Labels(aggs[..|aggs| - 1]) + [Label(aggs[|aggs| - 1])]
  }

  /** Left fold over the rows in list order, stopping at the first failure,
      which is what a `while (res.next())` loop with a throwing body does. */
  function Fold<A>(rows: seq<Row>, init: A, step: (A, Row) -> Result<A>): Result<A>
    decreases |rows|
  {
    if rows == [] then Success(init)
    else match Fold(rows[..|rows| - 1], init, step)
      case Failure(f) => Failure(f)
      case Success(acc) => step(acc, rows[|rows| - 1])
  }

  lemma FoldExtend<A>(rows: seq<Row>, i: nat, init: A, step: (A, Row) -> Result<A>)
    requires i < |rows|
    ensures Fold(rows[..i + 1], init, step) ==
            match Fold(rows[..i], init, step)
            case Failure(f) => Failure(f)
            case Success(acc) => step(acc, rows[i])
  {
    assert rows[..i + 1][..i] == rows[..i];
  }

  /** Once the fold of a prefix fails, the fold of the whole list fails the same way. */
  lemma {:induction false} FoldFailureSticks<A>(rows: seq<Row>, k: nat, init: A, step: (A, Row) -> Result<A>)
    requires k <= |rows| && Fold(rows[..k], init, step).Failure?
    ensures Fold(rows, init, step) == Fold(rows[..k], init, step)
    decreases |rows| - k
  {
    if k < |rows| {
      FoldExtend(rows, k, init, step);
      FoldFailureSticks(rows, k + 1, init, step);
    } else {
      assert rows[..k] == rows;
    }
  }

  /** `(int) res.getValue(col)`: unboxing an Integer; a String does not cast
      and null does not unbox. */
  function ReadInt(row: Row, col: int): Result<int>
  {
    match Cell(row, col)
    case Failure(f) => Failure(f)
    case Success(IntV(n)) => Success(n)
    case Success(StrV(_)) => Failure(ClassCast)
    case Success(NullV) => Failure(NullPointer)
  }

  /** The column type the helper reads before its loop: the first row's cell. */
  function FirstType(rows: seq<Row>, col: int): (r: Result<ColumnType>)
    ensures r.Success? ==> |rows| > 0 && 0 <= col < |rows[0]|
  {
    if |rows| == 0 then Failure(EmptyResultAccessed)
    else match Cell(rows[0], col)
      case Failure(f) => Failure(f)
      case Success(v) => Success(TypeOf(v))
  }

  function TotalStep(col: int): (int, Row) -> Result<int>
  {
    (acc: int, row: Row) =>
      match ReadInt(row, col)
      case Failure(f) => Failure(f)
      case Success(n) => Success(acc + n)
  }

  /** The integer sum of column `col` over the rows. */
  function ColumnTotal(rows: seq<Row>, col: int): Result<int>
  {
    Fold(rows, 0, TotalStep(col))
  }

  /** COUNT and integer SUM: the column total over all rows, scaled by the
      approximate factor (`scale` is `(int)(total * approximate)`). */
  function ScaledTotal(rows: seq<Row>, col: int, scale: int -> int): Result<Value>
  {
    match FirstType(rows, col)
    case Failure(f) => Failure(f)
    case Success(Integer) =>
      (match ColumnTotal(rows, col)
       case Failure(f) => Failure(f)
       case Success(t) => Success(IntV(scale(t))))
    case Success(_) => Failure(UnsupportedDataType)
  }

  function PairStep(col: int): ((int, int), Row) -> Result<(int, int)>
  {
    (acc: (int, int), row: Row) =>
      match ReadInt(row, col)
      case Failure(f) => Failure(f)
      case Success(s) =>
        match ReadInt(row, col + 1)
        case Failure(f) => Failure(f)
        case Success(c) => Success((acc.0 + s, acc.1 + c))
  }

  /** `Math.round((double)(sum * approximate) / (double)(cnt * approximate))`
      for the integer totals and the factor's scale. Both products are doubles,
      so with the inexact factor of the parallel path the quotient can differ
      from sum / cnt, and the oracle sees the scale as well as the totals. */
  type Average = (int, int, int -> int) -> int

  /** AVG reads the sum column and the count column next to it; the rounded
      floating quotient of the scaled totals is the oracle `average`. */
  function AvgOf(rows: seq<Row>, col: int, scale: int -> int, average: Average): Result<Value>
  {
    match FirstType(rows, col)
    case Failure(f) => Failure(f)
    case Success(Integer) =>
      (match Fold(rows, (0, 0), PairStep(col))
       case Failure(f) => Failure(f)
       case Success(p) => Success(IntV(average(p.0, p.1, scale))))
    case Success(_) => Failure(UnsupportedDataType)
  }

  /** One step of numeric MIN/MAX: 0 means "unset", so the current value
      replaces an accumulator that is 0. */
  function IntPick(isMin: bool, best: int, cur: int): int
  {
    if best == 0 then cur
    else if (if isMin then best > cur else best < cur) then cur
    else best
  }

  function IntExtremeStep(col: int, isMin: bool): (int, Row) -> Result<int>
  {
    (acc: int, row: Row) =>
      match ReadInt(row, col)
      case Failure(f) => Failure(f)
      case Success(n) => Success(IntPick(isMin, acc, n))
  }

  /** One step of string MIN/MAX: the first value is kept and replaced only
      when the comparator says the current one is strictly better; comparing
      against null throws. */
  function StrPick(isMin: bool, best: Option<string>, v: Value): Result<Option<string>>
  {
    match v
    case IntV(_) => Failure(ClassCast)
    case NullV => if best.None? then Success(None) else Failure(NullPointer)
    case StrV(s) =>
      if best.None? then Success(Some(s))
      else if (if isMin then CompareStrings(best.value, s) > 0 else CompareStrings(best.value, s) < 0)
      then Success(Some(s))
      else Success(best)
  }

  function StrExtremeStep(col: int, isMin: bool): (Option<string>, Row) -> Result<Option<string>>
  {
    (acc: Option<string>, row: Row) =>
      match Cell(row, col)
      case Failure(f) => Failure(f)
      case Success(v) => StrPick(isMin, acc, v)
  }

  function StrValue(s: Option<string>): Value
  {
    if s.Some? then StrV(s.value) else NullV
  }

  /** MIN (isMin) or MAX over column `col`, unscaled. */
  function ExtremeOf(rows: seq<Row>, col: int, isMin: bool): Result<Value>
  {
    match FirstType(rows, col)
    case Failure(f) => Failure(f)
    case Success(Integer) =>
      (match Fold(rows, 0, IntExtremeStep(col, isMin))
       case Failure(f) => Failure(f)
       case Success(m) => Success(IntV(m)))
    case Success(Varchar) =>
      (match Fold(rows, None, StrExtremeStep(col, isMin))
       case Failure(f) => Failure(f)
       case Success(m) => Success(StrValue(m)))
    case Success(JavaObject) => Failure(UnsupportedDataType)
  }

  function AggregateOf(k: AggKind, rows: seq<Row>, col: int, scale: int -> int,
                       average: Average): Result<Value>
  {
    if k == Avg then AvgOf(rows, col, scale, average)
    else if k == Min || k == Max then ExtremeOf(rows, col, k == Min)
    else ScaledTotal(rows, col, scale)
  }

  function ColumnCount(rows: seq<Row>): nat
  {
    if |rows| == 0 then 0 else |rows[0]|
  }

  /** The merged row from physical column j and aggregate aggIdx on. Each
      aggregate consumes one column, AVG two when it succeeds. With
      `catchEach` (the parallel path) a TrainDBException of one aggregate is
      swallowed and that aggregate emits nothing; otherwise it aborts the row. */
  function MergeColumns(rows: seq<Row>, aggs: seq<AggKind>, j: nat, aggIdx: nat,
                        scale: int -> int, average: Average, catchEach: bool): Result<seq<Value>>
    decreases ColumnCount(rows) - j
  {
    if j >= ColumnCount(rows) then Success([])
    else if aggIdx >= |aggs| then Failure(IndexOutOfBounds)
    else
      var v := AggregateOf(aggs[aggIdx], rows, j, scale, average);
      if v.Failure? && !(catchEach && v.fault == UnsupportedDataType) then Failure(v.fault)
      else
        var next := if v.Success? && aggs[aggIdx] == Avg then j + 2 else j + 1;
        var rest := MergeColumns(rows, aggs, next, aggIdx + 1, scale, average, catchEach);
        if v.Failure? then rest else Prepend([v.value], rest)
  }

  function Prepend(r: seq<Value>, out: Result<seq<Value>>): Result<seq<Value>>
  {
    match out
    case Failure(f) => Failure(f)
    case Success(vs) => Success(r + vs)
  }

  // ---------------------------------------------------------------------
  // The helpers, driven by the cursor as in the source.

  method IncrementalCount(res: ResultFromListData, columnIdx: int, scale: int -> int) returns (out: Result<Value>)
    requires res.Valid()
    modifies res`cursor
    ensures res.Valid()
    ensures out == ScaledTotal(res.Rows(), columnIdx, scale)
  {
    out := IntegerTotal(res, columnIdx, scale);
  }

  method IncrementalSum(res: ResultFromListData, columnIdx: int, scale: int -> int) returns (out: Result<Value>)
    requires res.Valid()
    modifies res`cursor
    ensures res.Valid()
    ensures out == ScaledTotal(res.Rows(), columnIdx, scale)
  {
    out := IntegerTotal(res, columnIdx, scale);
  }

  /** The loop COUNT and integer SUM share: total the column while
      res.next(), then scale. */
  method IntegerTotal(res: ResultFromListData, columnIdx: int, scale: int -> int) returns (out: Result<Value>)
    requires res.Valid()
    modifies res`cursor
    ensures res.Valid()
    ensures out == ScaledTotal(res.Rows(), columnIdx, scale)
  {
    var ty := res.GetColumnType(columnIdx);
    if ty.Failure? {
      return Failure(ty.fault);
    }
    ghost var rows := res.Rows();
    var total := 0;
    res.Rewind();
    while true
      invariant res.Valid() && res.Rows() == rows
      invariant res.cursor >= 0 ==> ty.value == Integer
      invariant Fold(rows[..res.cursor + 1], 0, TotalStep(columnIdx)) == Success(total)
      decreases res.RowCount() - res.cursor
    {
      var more := res.Next();
      if !more {
        break;
      }
      if ty.value != Integer {
        return Failure(UnsupportedDataType);
      }
      var next := TotalAt(res, columnIdx, total);
      if next.Failure? {
        FoldFailureSticks(rows, res.cursor + 1, 0, TotalStep(columnIdx));
        return Failure(next.fault);
      }
      total := next.value;
    }
    assert rows[..res.cursor + 1] == rows;
    out := Success(IntV(scale(total)));
  }

  method IncrementalAvg(res: ResultFromListData, columnIdx: int, scale: int -> int, average: Average)
    returns (out: Result<Value>)
    requires res.Valid()
    modifies res`cursor
    ensures res.Valid()
    ensures out == AvgOf(res.Rows(), columnIdx, scale, average)
  {
    var ty := res.GetColumnType(columnIdx);
    if ty.Failure? {
      return Failure(ty.fault);
    }
    ghost var rows := res.Rows();
    var totalSum, totalCnt := 0, 0;
    res.Rewind();
    while true
      invariant res.Valid() && res.Rows() == rows
      invariant res.cursor >= 0 ==> ty.value == Integer
      invariant Fold(rows[..res.cursor + 1], (0, 0), PairStep(columnIdx)) == Success((totalSum, totalCnt))
      decreases res.RowCount() - res.cursor
    {
      var more := res.Next();
      if !more {
        break;
      }
      if ty.value != Integer {
        return Failure(UnsupportedDataType);
      }
      var next := PairAt(res, columnIdx, (totalSum, totalCnt));
      if next.Failure? {
        FoldFailureSticks(rows, res.cursor + 1, (0, 0), PairStep(columnIdx));
        return Failure(next.fault);
      }
      totalSum, totalCnt := next.value.0, next.value.1;
    }
    assert rows[..res.cursor + 1] == rows;
    out := Success(IntV(average(totalSum, totalCnt, scale)));
  }

  /** One pass of the COUNT/SUM loop body: add the current row's cell to
      the total of the rows before it. */
  method TotalAt(res: ResultFromListData, col: int, total: int) returns (r: Result<int>)
    requires res.Valid() && 0 <= res.cursor < res.RowCount()
    requires Fold(res.Rows()[..res.cursor], 0, TotalStep(col)) == Success(total)
    ensures r == Fold(res.Rows()[..res.cursor + 1], 0, TotalStep(col))
  {
    FoldExtend(res.Rows(), res.cursor, 0, TotalStep(col));
    var n := IntAt(res, col);
    if n.Failure? {
      return Failure(n.fault);
    }
    r := Success(total + n.value);
  }

  /** `(int) res.getValue(col)` on the current row. */
  method IntAt(res: ResultFromListData, col: int) returns (r: Result<int>)
    requires res.Valid() && 0 <= res.cursor < res.RowCount()
    ensures r == ReadInt(res.Rows()[res.cursor], col)
  {
    var v := res.GetValue(col);
    match v {
      case Failure(f) => r := Failure(f);
      case Success(IntV(i)) => r := Success(i);
      case Success(StrV(_)) => r := Failure(ClassCast);
      case Success(NullV) => r := Failure(NullPointer);
    }
  }

  /** One pass of the AVG loop body: add the current row's sum and count
      cells to the totals of the rows before it. */
  method PairAt(res: ResultFromListData, col: int, totals: (int, int)) returns (r: Result<(int, int)>)
    requires res.Valid() && 0 <= res.cursor < res.RowCount()
    requires Fold(res.Rows()[..res.cursor], (0, 0), PairStep(col)) == Success(totals)
    ensures r == Fold(res.Rows()[..res.cursor + 1], (0, 0), PairStep(col))
  {
    FoldExtend(res.Rows(), res.cursor, (0, 0), PairStep(col));
    var s := IntAt(res, col);
    if s.Failure? {
      return Failure(s.fault);
    }
    var c := IntAt(res, col + 1);
    if c.Failure? {
      return Failure(c.fault);
    }
    r := Success((totals.0 + s.value, totals.1 + c.value));
  }

  /** One pass of the integer MIN/MAX loop body. */
  method IntExtremeAt(res: ResultFromListData, col: int, isMin: bool, best: int) returns (r: Result<int>)
    requires res.Valid() && 0 <= res.cursor < res.RowCount()
    requires Fold(res.Rows()[..res.cursor], 0, IntExtremeStep(col, isMin)) == Success(best)
    ensures r == Fold(res.Rows()[..res.cursor + 1], 0, IntExtremeStep(col, isMin))
  {
    FoldExtend(res.Rows(), res.cursor, 0, IntExtremeStep(col, isMin));
    var n := IntAt(res, col);
    if n.Failure? {
      return Failure(n.fault);
    }
    r := Success(IntPick(isMin, best, n.value));
  }

  /** One pass of the string MIN/MAX loop body: read the cell and compare it
      with the best so far. */
  method StrExtremeAt(res: ResultFromListData, col: int, isMin: bool, best: Option<string>)
    returns (r: Result<Option<string>>)
    requires res.Valid() && 0 <= res.cursor < res.RowCount()
    requires Fold(res.Rows()[..res.cursor], None, StrExtremeStep(col, isMin)) == Success(best)
    ensures r == Fold(res.Rows()[..res.cursor + 1], None, StrExtremeStep(col, isMin))
  {
    FoldExtend(res.Rows(), res.cursor, None, StrExtremeStep(col, isMin));
    var v := res.GetValue(col);
    if v.Failure? {
      return Failure(v.fault);
    }
    r := StrPick(isMin, best, v.value);
  }

  method IncrementalMin(res: ResultFromListData, columnIdx: int) returns (out: Result<Value>)
    requires res.Valid()
    modifies res`cursor
    ensures res.Valid()
    ensures out == ExtremeOf(res.Rows(), columnIdx, true)
  {
    out := IncrementalExtreme(res, columnIdx, true);
  }

  method IncrementalMax(res: ResultFromListData, columnIdx: int) returns (out: Result<Value>)
    requires res.Valid()
    modifies res`cursor
    ensures res.Valid()
    ensures out == ExtremeOf(res.Rows(), columnIdx, false)
  {
    out := IncrementalExtreme(res, columnIdx, false);
  }

  /** The loop MIN and MAX share; they differ only in the comparison. The
      source switches on the column type inside the loop; the type is read
      once before it, so here the switch selects one of two loops. On any
      other type the first row throws, and there is a first row whenever the
      type could be read. */
  method IncrementalExtreme(res: ResultFromListData, columnIdx: int, isMin: bool) returns (out: Result<Value>)
    requires res.Valid()
    modifies res`cursor
    ensures res.Valid()
    ensures out == ExtremeOf(res.Rows(), columnIdx, isMin)
  {
    var ty := res.GetColumnType(columnIdx);
    if ty.Failure? {
      return Failure(ty.fault);
    }
    match ty.value {
      case Integer =>
        var m := IntExtremeLoop(res, columnIdx, isMin);
        out := if m.Success? then Success(IntV(m.value)) else Failure(m.fault);
      case Varchar =>
        var m := StrExtremeLoop(res, columnIdx, isMin);
        out := if m.Success? then Success(StrValue(m.value)) else Failure(m.fault);
      case JavaObject =>
        out := Failure(UnsupportedDataType);
    }
  }

  /** The integer MIN/MAX loop: the number left in intMin/intMax. */
  method IntExtremeLoop(res: ResultFromListData, columnIdx: int, isMin: bool) returns (out: Result<int>)
    requires res.Valid()
    modifies res`cursor
    ensures res.Valid()
    ensures out == Fold(res.Rows(), 0, IntExtremeStep(columnIdx, isMin))
  {
    ghost var rows := res.Rows();
    var best := 0;
    res.Rewind();
    while true
      invariant res.Valid() && res.Rows() == rows
      invariant Fold(rows[..res.cursor + 1], 0, IntExtremeStep(columnIdx, isMin)) == Success(best)
      decreases res.RowCount() - res.cursor
    {
      var more := res.Next();
      if !more {
        break;
      }
      var next := IntExtremeAt(res, columnIdx, isMin, best);
      if next.Failure? {
        FoldFailureSticks(rows, res.cursor + 1, 0, IntExtremeStep(columnIdx, isMin));
        return next;
      }
      best := next.value;
    }
    assert rows[..res.cursor + 1] == rows;
    out := Success(best);
  }

  /** The string MIN/MAX loop: the string left in stringMin/stringMax, null
      while no row has been read. */
  method StrExtremeLoop(res: ResultFromListData, columnIdx: int, isMin: bool) returns (out: Result<Option<string>>)
    requires res.Valid()
    modifies res`cursor
    ensures res.Valid()
    ensures out == Fold(res.Rows(), None, StrExtremeStep(columnIdx, isMin))
  {
    ghost var rows := res.Rows();
    var best: Option<string> := None;
    res.Rewind();
    while true
      invariant res.Valid() && res.Rows() == rows
      invariant Fold(rows[..res.cursor + 1], None, StrExtremeStep(columnIdx, isMin)) == Success(best)
      decreases res.RowCount() - res.cursor
    {
      var more := res.Next();
      if !more {
        break;
      }
      var next := StrExtremeAt(res, columnIdx, isMin, best);
      if next.Failure? {
        FoldFailureSticks(rows, res.cursor + 1, None, StrExtremeStep(columnIdx, isMin));
        return next;
      }
      best := next.value;
    }
    assert rows[..res.cursor + 1] == rows;
    out := Success(best);
  }

  /** The `switch (agg.getKind())` of the merge loop: one helper call. */
  method MergeOne(res: ResultFromListData, k: AggKind, j: int, scale: int -> int,
                  average: Average) returns (v: Result<Value>)
    requires res.Valid()
    modifies res`cursor
    ensures res.Valid()
    ensures v == AggregateOf(k, res.Rows(), j, scale, average)
  {
    match k {
      case Count => v := IncrementalCount(res, j, scale);
      case Sum => v := IncrementalSum(res, j, scale);
      case Avg => v := IncrementalAvg(res, j, scale, average);
      case Min => v := IncrementalMin(res, j);
      case Max => v := IncrementalMax(res, j);
    }
  }

  /** The values an aggregate contributes to the merged row: none when its
      exception was swallowed. */
  function Emitted(v: Option<Value>): seq<Value>
  {
    if v.Some? then [v.value] else []
  }

  /** One pass of the merge loop body: the helper for aggregate `aggIdx` on
      column `j`, with the parallel path's catch around it. `next` is the
      column the following aggregate reads. */
  method MergeAt(res: ResultFromListData, aggs: seq<AggKind>, j: nat, aggIdx: nat, scale: int -> int,
                 average: Average, catchEach: bool) returns (step: Result<Option<Value>>, next: nat)
    requires res.Valid() && j < ColumnCount(res.Rows()) && aggIdx < |aggs|
    modifies res`cursor
    ensures res.Valid()
    ensures next > j
    ensures step.Failure? ==>
      MergeColumns(res.Rows(), aggs, j, aggIdx, scale, average, catchEach) == Failure(step.fault)
    ensures step.Success? ==>
      MergeColumns(res.Rows(), aggs, j, aggIdx, scale, average, catchEach)
      == Prepend(Emitted(step.value), MergeColumns(res.Rows(), aggs, next, aggIdx + 1, scale, average, catchEach))
  {
    var v := MergeOne(res, aggs[aggIdx], j, scale, average);
    if v.Failure? {
      if catchEach && v.fault == UnsupportedDataType {
        var rest := MergeColumns(res.Rows(), aggs, j + 1, aggIdx + 1, scale, average, catchEach);
        if rest.Success? {
          assert [] + rest.value == rest.value;
        }
        return Success(None), j + 1;
      }
      return Failure(v.fault), j + 1;
    }
    next := if aggs[aggIdx] == Avg then j + 2 else j + 1;
    step := Success(Some(v.value));
  }

  lemma PrependAssocAll(r: seq<Value>, e: seq<Value>, out: Result<seq<Value>>)
    ensures Prepend(r, Prepend(e, out)) == Prepend(r + e, out)
  {
    if out.Success? {
      assert r + (e + out.value) == (r + e) + out.value;
    }
  }

  /** The loop `for (j = 0; j < res.getColumnCount(); j++, aggIdx++)` that
      builds the merged row, one helper call per aggregate. */
  method MergeRow(res: ResultFromListData, aggs: seq<AggKind>, scale: int -> int,
                  average: Average, catchEach: bool) returns (out: Result<seq<Value>>)
    requires res.Valid()
    modifies res`cursor
    ensures res.Valid()
    ensures out == MergeColumns(res.Rows(), aggs, 0, 0, scale, average, catchEach)
  {
    ghost var rows := res.Rows();
    var r: seq<Value> := [];
    var j, aggIdx := 0, 0;
    ghost var whole := MergeColumns(rows, aggs, 0, 0, scale, average, catchEach);
    if whole.Success? {
      assert r + whole.value == whole.value;
    }
    // getColumnCount() is re-read by the loop guard; the helpers only move
    // the cursor, so it is the same number each time.
    var columns := res.GetColumnCount();
    while j < columns
      invariant res.Valid() && res.Rows() == rows && columns == ColumnCount(rows)
      invariant whole == Prepend(r, MergeColumns(rows, aggs, j, aggIdx, scale, average, catchEach))
      decreases ColumnCount(rows) - j
    {
      if aggIdx >= |aggs| {
        return Failure(IndexOutOfBounds);
      }
      var step, next := MergeAt(res, aggs, j, aggIdx, scale, average, catchEach);
      if step.Failure? {
        return Failure(step.fault);
      }
      PrependAssocAll(r, Emitted(step.value), MergeColumns(rows, aggs, next, aggIdx + 1, scale, average, catchEach));
      r := r + Emitted(step.value);
      j, aggIdx := next, aggIdx + 1;
    }
    assert r + [] == r;
    out := Success(r);
  }
}
