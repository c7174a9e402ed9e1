/** The per-connection state of incremental execution (the TaskCoordinator
    fields TrainDBPrepareImpl reads and writes) and the three entry points
    that drive it: executeIncremental starts a statement and merges its first
    partition, executeIncrementalNext merges the next partition, and
    executeIncrementalNextParallel merges the result of the next queued scan.

    Each entry point is a method on the class, proved equal to a step
    function on a snapshot of the fields; the properties of the state machine
    are lemmas about those step functions. */
module Coordinator {
  import opened Common
  import opened ResultCursor
  import opened Merge
  import opened Plan

  /** What an entry point hands back: the column labels and the rows. */
  datatype Response = Response(header: seq<string>, rows: seq<Row>)

  /** A scan that fails throws SQLException (None); one that succeeds yields rows. */
  type Scan = string -> Option<seq<Row>>

  /** A queued scan: its rows, or None when its Future failed. */
  type Pending = Option<seq<Row>>

  /** The fields of TaskCoordinator, as a value. */
  datatype State = State(saveQuery: seq<string>, saveQueryIdx: int, totalRes: seq<Row>, header: seq<string>,
                         aggCalls: seq<AggKind>, approximate: bool, parallel: bool, totalPartitionCnt: int,
                         futures: Option<seq<Pending>>)

  /** The index never passes the plan, and once past the first partition the
      partition count is the plan's length. */
  predicate Valid(st: State)
  {
    && 0 <= st.saveQueryIdx <= |st.saveQuery|
    && (st.saveQueryIdx > 0 ==> st.totalPartitionCnt == |st.saveQuery|)
  }

  /** `(int)(total * factor)` for the integer factor of the sequential paths. */
  function Times(factor: int): int -> int
  {
    x => x * factor
  }

  /** `(int)(total * ((double) num / (double) den))`, given as the oracle `ratio`. */
  function Ratio(ratio: (int, int, int) -> int, num: int, den: int): int -> int
  {
    x => ratio(x, num, den)
  }

  /** The rows a call returns after merging: none when nothing is
      accumulated, otherwise the one merged row. */
  function MergedRows(rows: seq<Row>, aggs: seq<AggKind>, scale: int -> int, average: Average,
                      catchEach: bool): (r: Result<seq<Row>>)
    ensures r.Success? ==> |r.value| == (if |rows| == 0 then 0 else 1)
  {
    if |rows| == 0 then Success([])
    else match MergeColumns(rows, aggs, 0, 0, scale, average, catchEach)
      case Failure(f) => Failure(f)
      case Success(row) => Success([row])
  }

  /** How a step merges totalRes: the rows, the aggregates, the scale and
      whether each aggregate's TrainDBException is swallowed. The step
      functions take it as a parameter, so their laws hold for any merge;
      the class passes MergeWith(average). */
  type Merger = (seq<Row>, seq<AggKind>, int -> int, bool) -> Result<seq<Row>>

  function MergeWith(average: Average): Merger
  {
    (rows: seq<Row>, aggs: seq<AggKind>, scale: int -> int, catchEach: bool) =>
      MergedRows(rows, aggs, scale, average, catchEach)
  }

  /** The scans of `qs`, in order. */
  function Scans(scan: Scan, qs: seq<string>): (r: seq<Pending>)
    ensures |r| == |qs|
    ensures forall i :: 0 <= i < |qs| ==> r[i] == scan(qs[i])
  {
    seq(|qs|, i requires 0 <= i < |qs| => scan(qs[i]))
  }

  // ---------------------------------------------------------------------
  // The step functions.

  /** executeIncremental on a statement other than "rows". */
  function Start(st: State, sql: string, parsed: Option<Statement>, url: string,
                 schemas: seq<PartitionedSchema>, scan: Scan, merge: Merger): (State, Result<Response>)
  {
    var st1 := st.(approximate := IsApproximate(sql));
    if parsed.None? then (st1, Failure(ParseFailed))
    else
      var p := PlanStatement(parsed.value, url, schemas);
      var st2 := st1.(saveQueryIdx := 0, saveQuery := [], totalRes := [], header := [], aggCalls := p.aggs);
      match p.outcome
      case Failure(f) => (st2, Failure(f))
      case Success(qs) => FirstPartition(st2.(saveQuery := qs), scan, merge)
  }

  /** The part of executeIncremental after the plan is stored (with the
      index reset to 0): scan partition 0, then merge and queue the rest. */
  function FirstPartition(st: State, scan: Scan, merge: Merger): (State, Result<Response>)
  {
    var qs := st.saveQuery;
    var st1 := st.(totalPartitionCnt := |qs|, futures := Some(if st.futures.Some? then st.futures.value else []));
    if |qs| == 0 then (st1, Failure(IndexOutOfBounds))
    else match scan(qs[0])
      case None => (st1, Failure(ScanFailed))
      case Some(rows) => FirstMerge(st1, rows, scan, merge)
  }

  /** Partition 0's rows are in hand: record them and the header, merge with
      the integer factor for index 0, and on success queue the other
      partitions when parallel. */
  function FirstMerge(st: State, rows: seq<Row>, scan: Scan, merge: Merger): (State, Result<Response>)
  {
    var qs := st.saveQuery;
    var labels := Labels(st.aggCalls);
    var st1 := st.(totalRes := st.totalRes + rows, header := st.header + labels);
    var scale := Times(Factor(st.approximate, st.totalPartitionCnt, 0));
    match merge(st1.totalRes, st.aggCalls, scale, false)
    case Failure(f) =>
      if f == UnsupportedDataType then (st1, Success(Response(labels, []))) else (st1, Failure(f))
    case Success(out) =>
      var queued := if st.parallel && |qs| >= 1 then Scans(scan, qs[1..]) else [];
      (st1.(saveQueryIdx := if st.parallel then |qs| else 1,
            futures := Some((if st.futures.Some? then st.futures.value else []) + queued)),
       Success(Response(labels, out)))
  }

  /** executeIncrementalNext. */
  function Next(st: State, scan: Scan, merge: Merger): (State, Result<Response>)
  {
    if st.saveQueryIdx <= 0 then (st, Failure(NotPartitioned))
    else if |st.saveQuery| <= st.saveQueryIdx then (st, Success(Response(st.header, [])))
    else match scan(st.saveQuery[st.saveQueryIdx])
      case None => (st, Failure(ScanFailed))
      case Some(rows) =>
        var st1 := st.(totalRes := st.totalRes + rows);
        var labels := Labels(st.aggCalls);
        var scale := Times(Factor(st.approximate, st.totalPartitionCnt, st.saveQueryIdx as nat));
        match merge(st1.totalRes, st.aggCalls, scale, false)
        case Failure(f) =>
          if f == UnsupportedDataType then (st1, Success(Response(labels, []))) else (st1, Failure(f))
        case Success(out) => (st1.(saveQueryIdx := st.saveQueryIdx + 1), Success(Response(labels, out)))
  }

  /** The scale of the parallel path: the double factor when approximate. */
  function ParallelScale(st: State, ratio: (int, int, int) -> int): int -> int
  {
    if st.approximate then Ratio(ratio, st.totalPartitionCnt, st.saveQueryIdx + 1) else Times(1)
  }

  /** executeIncrementalNextParallel. */
  function NextParallel(st: State, merge: Merger, ratio: (int, int, int) -> int): (State, Result<Response>)
  {
    if st.futures.None? then (st, Failure(NullPointer))
    else if |st.futures.value| == 0 then (st, Success(Response(st.header, [])))
    else
      var head := st.futures.value[0];
      var st1 := st.(futures := Some(st.futures.value[1..]),
                     totalRes := st.totalRes + (if head.Some? then head.value else []));
      match merge(st1.totalRes, st.aggCalls, ParallelScale(st, ratio), true)
      case Failure(f) => (st1, Failure(f))
      case Success(out) => (st1, Success(Response(st.header, out)))
  }

  /** The dispatch at the top of executeIncremental: the command kind sets
      the parallel flag, and the statement "rows" advances instead of starting. */
  function Dispatch(st: State, sql: string, parallelCmd: bool, parsed: Option<Statement>, url: string,
                    schemas: seq<PartitionedSchema>, scan: Scan, merge: Merger,
                    ratio: (int, int, int) -> int): (State, Result<Response>)
  {
    var st1 := st.(parallel := parallelCmd);
    if sql == "rows" then
      if parallelCmd then NextParallel(st1, merge, ratio) else Next(st1, scan, merge)
    else Start(st1, sql, parsed, url, schemas, scan, merge)
  }

  // ---------------------------------------------------------------------
  // The class.

  class TaskCoordinator {
    var saveQuery: seq<string>
    var saveQueryIdx: int
    var totalRes: seq<Row>
    var header: seq<string>
    var aggCalls: seq<AggKind>
    var approximate: bool
    var parallel: bool
    var totalPartitionCnt: int
    var incrementalFutures: Option<seq<Pending>>

    function Snapshot(): State
      reads this
    {
      State(saveQuery, saveQueryIdx, totalRes, header, aggCalls, approximate, parallel, totalPartitionCnt,
            incrementalFutures)
    }

    /** A fresh coordinator: nothing planned, no futures list yet. */
    constructor ()
      ensures Snapshot() == State([], 0, [], [], [], false, false, 0, None)
      ensures Valid(Snapshot())
    {
      saveQuery, saveQueryIdx, totalRes, header, aggCalls := [], 0, [], [], [];
      approximate, parallel, totalPartitionCnt, incrementalFutures := false, false, 0, None;
    }

    method Execute(sql: string, parallelCmd: bool, parse: string -> Option<Statement>, url: string,
                   schemas: seq<PartitionedSchema>, scan: Scan, average: Average,
                   ratio: (int, int, int) -> int) returns (r: Result<Response>)
      modifies this
      ensures (Snapshot(), r) == Dispatch(old(Snapshot()), sql, parallelCmd, parse(sql), url, schemas, scan, MergeWith(average), ratio)
    {
      parallel := parallelCmd;
      if sql == "rows" {
        if parallel {
          r := ExecuteIncrementalNextParallel(average, ratio);
        } else {
          r := ExecuteIncrementalNext(scan, average);
        }
        return;
      }
      r := ExecuteIncremental(sql, parse, url, schemas, scan, average);
    }

    /** Append a partition's rows to totalRes one by one. */
    method AppendRows(rows: seq<Row>)
      modifies this`totalRes
      ensures totalRes == old(totalRes) + rows
    {
      for i := 0 to |rows|
        invariant totalRes == old(totalRes) + rows[..i]
      {
        totalRes := totalRes + [rows[i]];
        assert rows[..i + 1] == rows[..i] + [rows[i]];
      }
      assert rows[..|rows|] == rows;
    }

    /** The header loop: one label per recorded aggregate call. */
    method CurrentLabels() returns (labels: seq<string>)
      ensures labels == Labels(aggCalls)
    {
      labels := [];
      for j := 0 to |aggCalls|
        invariant labels == Labels(aggCalls[..j])
      {
        assert aggCalls[..j + 1][..j] == aggCalls[..j];
        labels := labels + [Label(aggCalls[j])];
      }
      assert aggCalls[..|aggCalls|] == aggCalls;
    }

    /** Wrap totalRes in a list-backed result and merge it when it has rows. */
    method MergeTotal(scale: int -> int, average: Average, catchEach: bool) returns (m: Result<seq<Row>>)
      ensures m == MergedRows(totalRes, aggCalls, scale, average, catchEach)
    {
      var res := new ResultFromListData(header, Some(totalRes));
      if res.RowCount() > 0 {
        var row := MergeRow(res, aggCalls, scale, average, catchEach);
        if row.Failure? {
          return Failure(row.fault);
        }
        m := Success([row.value]);
      } else {
        m := Success([]);
      }
    }

    /** The select loop: record one call per aggregate item and build the
        per-partition column list; stop at the first failing item. */
    method RewriteSelectList(items: seq<SelectItem>) returns (columnList: string, fault: Option<Fault>)
      requires aggCalls == []
      modifies this`aggCalls
      ensures Rewritten(aggCalls, columnList, fault) == Rewrite(items)
    {
      columnList := "";
      for i := 0 to |items|
        invariant Rewrite(items[..i]) == Rewritten(aggCalls, columnList, None)
      {
        assert items[..i + 1][..i] == items[..i];
        if i > 0 {
          columnList := columnList + " ,";
        }
        var item := ItemRewrite(items[i]);
        if item.Failure? {
          assert Rewrite(items[..i + 1]) == Rewritten(aggCalls, columnList, Some(item.fault));
          RewriteStaysFailed(items, i + 1);
          return columnList, Some(item.fault);
        }
        if item.value.Some? {
          aggCalls := aggCalls + [item.value.value.0];
          columnList := columnList + item.value.value.1;
        }
      }
      assert items[..|items|] == items;
      fault := None;
    }

    /** The plan loop: one query per partition, appended in order. */
    method BuildPlan(dialect: string, cols: string, schemaName: Option<string>, tblName: Option<string>,
                     key: Option<string>, parts: seq<string>)
      modifies this`saveQuery
      ensures saveQuery == old(saveQuery) + PlanQueries(dialect, cols, schemaName, tblName, key, parts)
    {
      ghost var plan := PlanQueries(dialect, cols, schemaName, tblName, key, parts);
      for k := 0 to |parts|
        invariant saveQuery == old(saveQuery) + plan[..k]
      {
        var changeQuery := PartitionQuery(dialect, cols, schemaName, tblName, key, parts, k);
        saveQuery := saveQuery + [changeQuery];
        assert plan[..k + 1] == plan[..k] + [changeQuery];
      }
      assert plan[..|parts|] == plan;
    }

    /** The parallel dispatch loop: one future per remaining partition, each
        taking the next index. */
    method DispatchScans(scan: Scan)
      requires saveQueryIdx == 0 && |saveQuery| >= 1 && incrementalFutures.Some?
      modifies this`saveQueryIdx, this`incrementalFutures
      ensures saveQueryIdx == |saveQuery| - 1
      ensures incrementalFutures == Some(old(incrementalFutures.value) + Scans(scan, saveQuery[1..]))
    {
      ghost var queued := incrementalFutures.value;
      assert queued + Scans(scan, saveQuery[1..1]) == queued;
      for idx := 1 to |saveQuery|
        invariant saveQueryIdx == idx - 1
        invariant incrementalFutures == Some(queued + Scans(scan, saveQuery[1..idx]))
      {
        saveQueryIdx := saveQueryIdx + 1;
        var task := scan(saveQuery[saveQueryIdx]);
        assert Scans(scan, saveQuery[1..idx + 1]) == Scans(scan, saveQuery[1..idx]) + [task];
        assert queued + Scans(scan, saveQuery[1..idx + 1]) == incrementalFutures.value + [task];
        incrementalFutures := Some(incrementalFutures.value + [task]);
      }
      assert saveQuery[1..|saveQuery|] == saveQuery[1..];
    }

    method ExecuteIncremental(sql: string, parse: string -> Option<Statement>, url: string,
                              schemas: seq<PartitionedSchema>, scan: Scan, average: Average)
      returns (r: Result<Response>)
      modifies this
      ensures (Snapshot(), r) == Start(old(Snapshot()), sql, parse(sql), url, schemas, scan, MergeWith(average))
    {
      approximate := IsApproximate(sql);
      var parsed := parse(sql);
      if parsed.None? {
        return Failure(ParseFailed);
      }
      ResetStatement();
      var fault := PlanStatementInto(parsed.value, url, schemas);
      if fault.Some? {
        return Failure(fault.value);
      }
      r := RunFirstPartition(scan, average);
    }

    /** The reset before planning: index, plan, rows, header and aggregate
        calls are cleared. */
    method ResetStatement()
      modifies this`saveQueryIdx, this`saveQuery, this`totalRes, this`header, this`aggCalls
      ensures Snapshot() == old(Snapshot()).(saveQueryIdx := 0, saveQuery := [], totalRes := [], header := [], aggCalls := [])
    {
      saveQueryIdx := 0;
      saveQuery, totalRes, header, aggCalls := [], [], [], [];
    }

    /** From the parsed statement to the stored plan: the select loop, the
        FROM split, the dialect, the partition lookup and the plan loop. */
    method PlanStatementInto(stmt: Statement, url: string, schemas: seq<PartitionedSchema>) returns (fault: Option<Fault>)
      requires saveQuery == [] && aggCalls == []
      modifies this`aggCalls, this`saveQuery
      ensures aggCalls == PlanStatement(stmt, url, schemas).aggs
      ensures fault.None? <==> PlanStatement(stmt, url, schemas).outcome.Success?
      ensures fault.Some? ==> PlanStatement(stmt, url, schemas).outcome == Failure(fault.value) && saveQuery == []
      ensures fault.None? ==> saveQuery == PlanStatement(stmt, url, schemas).outcome.value
    {
      if stmt.OtherStatement? {
        return Some(ClassCast);
      }
      var columnList, itemFault := RewriteSelectList(stmt.items);
      if itemFault.Some? {
        return itemFault;
      }
      var tableName := FromText(stmt.from);
      if tableName.Failure? {
        return Some(tableName.fault);
      }
      var (schemaName, tblname) := TableRef(tableName.value);
      var dbQuery := Dialect(url);
      if dbQuery.Failure? {
        return Some(dbQuery.fault);
      }
      var partitionList, partitionKey := FindPartitions(schemas, schemaName, tblname, dbQuery.value);
      if partitionList.None? {
        return Some(NotPartitioned);
      }
      BuildPlan(dbQuery.value, columnList, schemaName, tblname, partitionKey, partitionList.value);
      fault := None;
    }

    /** Partition 0: scan it, then hand its rows to FinishFirst. */
    method RunFirstPartition(scan: Scan, average: Average) returns (r: Result<Response>)
      requires saveQueryIdx == 0
      modifies this
      ensures (Snapshot(), r) == FirstPartition(old(Snapshot()), scan, MergeWith(average))
    {
      totalPartitionCnt := |saveQuery|;
      if incrementalFutures.None? {
        incrementalFutures := Some([]);
      }
      if |saveQuery| == 0 {
        return Failure(IndexOutOfBounds);
      }
      var rows := scan(saveQuery[0]);
      if rows.None? {
        return Failure(ScanFailed);
      }
      r := FinishFirst(rows.value, scan, average);
    }

    /** Partition 0's rows go to totalRes and one label per aggregate to the
        header. */
    method RecordFirst(rows: seq<Row>) returns (labels: seq<string>)
      modifies this`totalRes, this`header
      ensures labels == Labels(aggCalls)
      ensures Snapshot() == old(Snapshot()).(totalRes := old(totalRes) + rows, header := old(header) + labels)
    {
      AppendRows(rows);
      labels := CurrentLabels();
      header := header + labels;
    }

    /** Record partition 0's rows and the header, merge, and queue the rest. */
    method FinishFirst(rows: seq<Row>, scan: Scan, average: Average) returns (r: Result<Response>)
      requires saveQueryIdx == 0 && |saveQuery| >= 1 && incrementalFutures.Some?
      modifies this
      ensures (Snapshot(), r) == FirstMerge(old(Snapshot()), rows, scan, MergeWith(average))
    {
      var factor := Factor(approximate, totalPartitionCnt, 0);
      var labels := RecordFirst(rows);
      var merged := MergeTotal(Times(factor), average, false);
      assert merged == MergeWith(average)(totalRes, aggCalls, Times(factor), false);
      if merged.Failure? {
        if merged.fault == UnsupportedDataType {
          return Success(Response(labels, []));
        }
        return Failure(merged.fault);
      }
      if parallel {
        DispatchScans(scan);
      } else {
        assert incrementalFutures.value + [] == incrementalFutures.value;
      }
      saveQueryIdx := saveQueryIdx + 1;
      r := Success(Response(labels, merged.value));
    }

    method ExecuteIncrementalNext(scan: Scan, average: Average) returns (r: Result<Response>)
      modifies this
      ensures (Snapshot(), r) == Next(old(Snapshot()), scan, MergeWith(average))
    {
      var currentIdx := saveQueryIdx;
      if currentIdx <= 0 {
        return Failure(NotPartitioned);
      }
      if |saveQuery| <= currentIdx {
        return Success(Response(header, []));
      }
      var rows := scan(saveQuery[currentIdx]);
      if rows.None? {
        return Failure(ScanFailed);
      }
      AppendRows(rows.value);
      var factor := Factor(approximate, totalPartitionCnt, saveQueryIdx as nat);
      var labels := CurrentLabels();
      var merged := MergeTotal(Times(factor), average, false);
      if merged.Failure? {
        if merged.fault == UnsupportedDataType {
          return Success(Response(labels, []));
        }
        return Failure(merged.fault);
      }
      saveQueryIdx := saveQueryIdx + 1;
      r := Success(Response(labels, merged.value));
    }

    method ExecuteIncrementalNextParallel(average: Average, ratio: (int, int, int) -> int)
      returns (r: Result<Response>)
      modifies this
      ensures (Snapshot(), r) == NextParallel(old(Snapshot()), MergeWith(average), ratio)
    {
      if incrementalFutures.None? {
        return Failure(NullPointer);
      }
      if |incrementalFutures.value| > 0 {
        var result := incrementalFutures.value[0];
        incrementalFutures := Some(incrementalFutures.value[1..]);
        if result.Some? {
          AppendRows(result.value);
        } else {
          assert totalRes + [] == totalRes;
        }
        var scale := if approximate then Ratio(ratio, totalPartitionCnt, saveQueryIdx + 1) else Times(1);
        var merged := MergeTotal(scale, average, true);
        if merged.Failure? {
          return Failure(merged.fault);
        }
        return Success(Response(header, merged.value));
      }
      r := Success(Response(header, []));
    }
  }

  /** Once the select loop has failed, later items do not change its outcome. */
  lemma {:induction false} RewriteStaysFailed(items: seq<SelectItem>, k: nat)
    requires k <= |items| && Rewrite(items[..k]).fault.Some?
    ensures Rewrite(items) == Rewrite(items[..k])
    decreases |items| - k
  {
    if k < |items| {
      assert items[..k + 1][..k] == items[..k];
      RewriteStaysFailed(items, k + 1);
    } else {
      assert items[..k] == items;
    }
  }
}
