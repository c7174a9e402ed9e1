/** Properties of the incremental state machine: what each entry point keeps,
    what it advances, and what a whole run accumulates. */
module CoordinatorLaws {
  import opened Common
  import opened ResultCursor
  import opened Merge
  import opened Plan
  import opened Coordinator

  /** Two states describe the same started statement: plan, header,
      aggregates, flags and partition count agree. */
  predicate SamePlan(a: State, b: State)
  {
    && a.saveQuery == b.saveQuery && a.header == b.header && a.aggCalls == b.aggCalls
    && a.approximate == b.approximate && a.parallel == b.parallel
    && a.totalPartitionCnt == b.totalPartitionCnt
  }

  /** The rows of a list of scan outcomes, in order; a failed one adds none. */
  function Gathered(ps: seq<Pending>): seq<Row>
  {
    if |ps| == 0 then [] else (if ps[0].Some? then ps[0].value else []) + Gathered(ps[1..])
  }

  /** `n` consecutive "rows" requests on the sequential path. */
  function NextN(st: State, n: nat, scan: Scan, merge: Merger): State
    decreases n
  {
    if n == 0 then st else NextN(Next(st, scan, merge).0, n - 1, scan, merge)
  }

  /** `n` consecutive "rows" requests on the parallel path. */
  function NextParallelN(st: State, n: nat, merge: Merger, ratio: (int, int, int) -> int): State
    decreases n
  {
    if n == 0 then st else NextParallelN(NextParallel(st, merge, ratio).0, n - 1, merge, ratio)
  }

  /** Each of `n` sequential requests moved on to the next partition: its
      scan succeeded and its merge threw nothing that was swallowed. */
  predicate Advances(st: State, n: nat, scan: Scan, merge: Merger)
    decreases n
  {
    n == 0 ||
    (var st1 := Next(st, scan, merge).0;
     st1.saveQueryIdx == st.saveQueryIdx + 1 && Advances(st1, n - 1, scan, merge))
  }

  // ---------------------------------------------------------------------
  // One call at a time.

  lemma StartPreservesValid(st: State, sql: string, parsed: Option<Statement>, url: string,
                            schemas: seq<PartitionedSchema>, scan: Scan, merge: Merger)
    requires Valid(st)
    ensures Valid(Start(st, sql, parsed, url, schemas, scan, merge).0)
  {
    if parsed.Some? {
      var p := PlanStatement(parsed.value, url, schemas);
      if p.outcome.Success? {
        StartOfPlanned(st, sql, parsed.value, url, schemas, scan, merge, p.outcome.value);
        FirstPartitionPreservesValid(Planned(st, sql, p.aggs, p.outcome.value), scan, merge);
      }
    }
  }

  lemma FirstPartitionPreservesValid(st: State, scan: Scan, merge: Merger)
    requires st.saveQueryIdx == 0
    ensures Valid(FirstPartition(st, scan, merge).0)
  {
  }

  lemma NextPreservesValid(st: State, scan: Scan, merge: Merger)
    requires Valid(st)
    ensures Valid(Next(st, scan, merge).0)
  {
  }

  lemma NextParallelPreservesValid(st: State, merge: Merger, ratio: (int, int, int) -> int)
    requires Valid(st)
    ensures Valid(NextParallel(st, merge, ratio).0)
  {
  }

  /** Whatever the command, the state stays valid. */
  lemma DispatchPreservesValid(st: State, sql: string, parallelCmd: bool, parsed: Option<Statement>, url: string,
                               schemas: seq<PartitionedSchema>, scan: Scan, merge: Merger,
                               ratio: (int, int, int) -> int)
    requires Valid(st)
    ensures Valid(Dispatch(st, sql, parallelCmd, parsed, url, schemas, scan, merge, ratio).0)
  {
    var st1 := st.(parallel := parallelCmd);
    if sql == "rows" {
      if parallelCmd {
        NextParallelPreservesValid(st1, merge, ratio);
      } else {
        NextPreservesValid(st1, scan, merge);
      }
    } else {
      StartPreservesValid(st1, sql, parsed, url, schemas, scan, merge);
    }
  }

  /** A sequential "rows" request keeps the plan and the futures, only adds
      rows, and moves the index by one at most, and only when it succeeds. */
  lemma NextStep(st: State, scan: Scan, merge: Merger)
    ensures var (st1, r) := Next(st, scan, merge);
      && SamePlan(st, st1) && st1.futures == st.futures
      && st.totalRes <= st1.totalRes
      && (st1.saveQueryIdx == st.saveQueryIdx || (st1.saveQueryIdx == st.saveQueryIdx + 1 && r.Success?))
  {
  }

  /** The index advances exactly when there is a partition left, its scan
      succeeds and its merge throws nothing; the partition's rows are then
      appended. */
  lemma NextAdvancesIff(st: State, scan: Scan, merge: Merger)
    ensures var st1 := Next(st, scan, merge).0;
      st1.saveQueryIdx == st.saveQueryIdx + 1 <==>
        && 0 < st.saveQueryIdx < |st.saveQuery|
        && scan(st.saveQuery[st.saveQueryIdx]).Some?
        && merge(st.totalRes + scan(st.saveQuery[st.saveQueryIdx]).value, st.aggCalls,
                 Times(Factor(st.approximate, st.totalPartitionCnt, st.saveQueryIdx as nat)), false).Success?
    ensures var st1 := Next(st, scan, merge).0;
      st1.saveQueryIdx == st.saveQueryIdx + 1 ==>
        st1.totalRes == st.totalRes + scan(st.saveQuery[st.saveQueryIdx]).value
  {
  }

  /** Past the last partition a request changes nothing and returns no rows
      under the stored header. */
  lemma NextAfterLastPartition(st: State, scan: Scan, merge: Merger)
    requires 0 < st.saveQueryIdx && |st.saveQuery| <= st.saveQueryIdx
    ensures Next(st, scan, merge) == (st, Success(Response(st.header, [])))
  {
  }

  /** Before any statement the sequential path throws. */
  lemma NextBeforeStart(st: State, scan: Scan, merge: Merger)
    requires st.saveQueryIdx <= 0
    ensures Next(st, scan, merge) == (st, Failure(NotPartitioned))
  {
  }

  /** A merge exception that is swallowed leaves the index where it was, so
      the following request scans the same partition again and its rows are
      accumulated twice. */
  lemma SwallowedMergeRepeatsPartition(st: State, scan: Scan, merge: Merger, rows: seq<Row>)
    requires 0 < st.saveQueryIdx < |st.saveQuery|
    requires scan(st.saveQuery[st.saveQueryIdx]) == Some(rows)
    requires merge(st.totalRes + rows, st.aggCalls,
                   Times(Factor(st.approximate, st.totalPartitionCnt, st.saveQueryIdx as nat)), false) == Failure(UnsupportedDataType)
    ensures var (st1, r) := Next(st, scan, merge);
      && r == Success(Response(Labels(st.aggCalls), []))
      && st1.saveQueryIdx == st.saveQueryIdx
      && Next(st1, scan, merge).0.totalRes == st.totalRes + rows + rows
  {
    var st1 := Next(st, scan, merge).0;
    assert st1 == st.(totalRes := st.totalRes + rows);
  }

  /** A parallel "rows" request keeps the plan and the index, pops the oldest
      future and appends its rows (none when it failed). */
  lemma NextParallelStep(st: State, merge: Merger, ratio: (int, int, int) -> int)
    requires st.futures.Some? && |st.futures.value| > 0
    ensures var (st1, r) := NextParallel(st, merge, ratio);
      && SamePlan(st, st1) && st1.saveQueryIdx == st.saveQueryIdx
      && st1.futures == Some(st.futures.value[1..])
      && st1.totalRes == st.totalRes + Gathered(st.futures.value[..1])
      && (r.Success? ==> r.value.header == st.header)
  {
    var fs := st.futures.value;
    assert fs[..1][1..] == [];
  }

  /** A parallel request with nothing queued changes nothing. */
  lemma NextParallelDrained(st: State, merge: Merger, ratio: (int, int, int) -> int)
    requires st.futures == Some([])
    ensures NextParallel(st, merge, ratio) == (st, Success(Response(st.header, [])))
  {
  }

  /** Without a statement started, the futures list is missing and the
      parallel path throws. */
  lemma NextParallelBeforeStart(st: State, merge: Merger, ratio: (int, int, int) -> int)
    requires st.futures.None?
    ensures NextParallel(st, merge, ratio) == (st, Failure(NullPointer))
  {
  }

  /** The parallel path never moves the index, so its scale never changes. */
  lemma NextParallelKeepsScale(st: State, merge: Merger, ratio: (int, int, int) -> int)
    ensures ParallelScale(NextParallel(st, merge, ratio).0, ratio) == ParallelScale(st, ratio)
  {
  }

  /** "rows" never plans: the plan and the aggregates stay, the command only
      sets the parallel flag. */
  lemma RowsCommandNeverPlans(st: State, parallelCmd: bool, parsed: Option<Statement>, url: string,
                              schemas: seq<PartitionedSchema>, scan: Scan, merge: Merger,
                              ratio: (int, int, int) -> int)
    ensures var st1 := Dispatch(st, "rows", parallelCmd, parsed, url, schemas, scan, merge, ratio).0;
      && st1.saveQuery == st.saveQuery && st1.aggCalls == st.aggCalls && st1.parallel == parallelCmd
      && st1.header == st.header && st1.approximate == st.approximate
  {
  }

  // ---------------------------------------------------------------------
  // Starting a statement.

  /** A statement that is not parsed leaves everything but the approximate
      flag alone. */
  lemma StartUnparsed(st: State, sql: string, url: string, schemas: seq<PartitionedSchema>,
                      scan: Scan, merge: Merger)
    ensures Start(st, sql, None, url, schemas, scan, merge) ==
            (st.(approximate := IsApproximate(sql)), Failure(ParseFailed))
  {
  }

  /** The reset happens before planning, so a statement that fails to plan
      wipes the previous statement's progress and leaves nothing to fetch. */
  lemma StartPlanningFailure(st: State, sql: string, stmt: Statement, url: string,
                             schemas: seq<PartitionedSchema>, scan: Scan, merge: Merger)
    requires PlanStatement(stmt, url, schemas).outcome.Failure?
    ensures var (st1, r) := Start(st, sql, Some(stmt), url, schemas, scan, merge);
      && r == Failure(PlanStatement(stmt, url, schemas).outcome.fault)
      && st1.saveQuery == [] && st1.totalRes == [] && st1.header == [] && st1.saveQueryIdx == 0
      && st1.aggCalls == PlanStatement(stmt, url, schemas).aggs && st1.futures == st.futures
  {
  }

  /** The state a planned statement starts from: the approximate flag set,
      everything reset, and the plan and its aggregates stored. */
  function Planned(st: State, sql: string, aggs: seq<AggKind>, qs: seq<string>): State
  {
    st.(approximate := IsApproximate(sql), saveQueryIdx := 0, saveQuery := qs, totalRes := [], header := [],
        aggCalls := aggs)
  }

  lemma StartOfPlanned(st: State, sql: string, stmt: Statement, url: string,
                       schemas: seq<PartitionedSchema>, scan: Scan, merge: Merger, qs: seq<string>)
    requires PlanStatement(stmt, url, schemas).outcome == Success(qs)
    ensures Start(st, sql, Some(stmt), url, schemas, scan, merge) ==
            FirstPartition(Planned(st, sql, PlanStatement(stmt, url, schemas).aggs, qs), scan, merge)
  {
  }

  /** Partition 0 scanned and merged: its rows replace totalRes, the header
      is the labels, and the index and the futures follow the parallel flag. */
  lemma FirstPartitionMerged(st: State, scan: Scan, merge: Merger, rows: seq<Row>)
    requires st.saveQueryIdx == 0 && st.totalRes == [] && st.header == []
    requires |st.saveQuery| > 0 && scan(st.saveQuery[0]) == Some(rows)
    requires merge(rows, st.aggCalls, Times(Factor(st.approximate, |st.saveQuery|, 0)), false).Success?
    ensures var (st1, r) := FirstPartition(st, scan, merge);
      && st1.saveQuery == st.saveQuery && st1.totalPartitionCnt == |st.saveQuery|
      && st1.saveQueryIdx == (if st.parallel then |st.saveQuery| else 1)
      && st1.totalRes == rows && st1.header == Labels(st.aggCalls)
      && st1.futures == Some((if st.futures.Some? then st.futures.value else [])
                             + (if st.parallel then Scans(scan, st.saveQuery[1..]) else []))
      && r.Success? && r.value.header == st1.header
      && r.value.rows == merge(rows, st.aggCalls, Times(Factor(st.approximate, |st.saveQuery|, 0)), false).value
  {
    assert [] + rows == rows;
  }

  /** A sequential start that plans, scans and merges partition 0 stores the
      plan, keeps exactly partition 0's rows, and points at partition 1. */
  lemma StartSequential(st: State, sql: string, stmt: Statement, url: string,
                        schemas: seq<PartitionedSchema>, scan: Scan, merge: Merger,
                        qs: seq<string>, rows: seq<Row>)
    requires !st.parallel
    requires PlanStatement(stmt, url, schemas).outcome == Success(qs) && |qs| > 0
    requires scan(qs[0]) == Some(rows)
    requires merge(rows, PlanStatement(stmt, url, schemas).aggs,
                   Times(Factor(IsApproximate(sql), |qs|, 0)), false).Success?
    ensures var (st1, r) := Start(st, sql, Some(stmt), url, schemas, scan, merge);
      && st1.saveQuery == qs && st1.saveQueryIdx == 1 && st1.totalPartitionCnt == |qs|
      && st1.totalRes == rows && st1.header == Labels(PlanStatement(stmt, url, schemas).aggs)
      && st1.futures == Some(if st.futures.Some? then st.futures.value else [])
      && r.Success? && r.value.header == st1.header
      && r.value.rows == merge(rows, PlanStatement(stmt, url, schemas).aggs,
                               Times(Factor(IsApproximate(sql), |qs|, 0)), false).value
  {
    var aggs := PlanStatement(stmt, url, schemas).aggs;
    var p := Planned(st, sql, aggs, qs);
    StartOfPlanned(st, sql, stmt, url, schemas, scan, merge, qs);
    FirstPartitionMerged(p, scan, merge, rows);
    var stale := if st.futures.Some? then st.futures.value else [];
    assert p.futures == st.futures && !p.parallel;
    assert stale + [] == stale;
  }

  /** A parallel start queues one scan per remaining partition, in order,
      behind whatever an earlier statement left queued, and sets the index
      to the number of partitions. */
  lemma StartParallel(st: State, sql: string, stmt: Statement, url: string,
                      schemas: seq<PartitionedSchema>, scan: Scan, merge: Merger,
                      qs: seq<string>, rows: seq<Row>)
    requires st.parallel
    requires PlanStatement(stmt, url, schemas).outcome == Success(qs) && |qs| > 0
    requires scan(qs[0]) == Some(rows)
    requires merge(rows, PlanStatement(stmt, url, schemas).aggs,
                   Times(Factor(IsApproximate(sql), |qs|, 0)), false).Success?
    ensures var (st1, r) := Start(st, sql, Some(stmt), url, schemas, scan, merge);
      && st1.saveQuery == qs && st1.saveQueryIdx == |qs| && st1.totalPartitionCnt == |qs|
      && st1.totalRes == rows
      && st1.futures == Some((if st.futures.Some? then st.futures.value else []) + Scans(scan, qs[1..]))
      && r.Success?
  {
    StartOfPlanned(st, sql, stmt, url, schemas, scan, merge, qs);
    FirstPartitionMerged(Planned(st, sql, PlanStatement(stmt, url, schemas).aggs, qs), scan, merge, rows);
  }

  /** After an approximate parallel start over N partitions, every parallel
      request scales by N / (N + 1), and keeps doing so. */
  lemma ParallelRatioIsFixed(st: State, sql: string, stmt: Statement, url: string,
                             schemas: seq<PartitionedSchema>, scan: Scan, merge: Merger,
                             ratio: (int, int, int) -> int, qs: seq<string>, rows: seq<Row>, n: nat)
    requires st.parallel && IsApproximate(sql)
    requires PlanStatement(stmt, url, schemas).outcome == Success(qs) && |qs| > 0
    requires scan(qs[0]) == Some(rows)
    requires merge(rows, PlanStatement(stmt, url, schemas).aggs,
                   Times(Factor(IsApproximate(sql), |qs|, 0)), false).Success?
    ensures var st1 := Start(st, sql, Some(stmt), url, schemas, scan, merge).0;
      ParallelScale(NextParallelN(st1, n, merge, ratio), ratio) == Ratio(ratio, |qs|, |qs| + 1)
  {
    var st1 := Start(st, sql, Some(stmt), url, schemas, scan, merge).0;
    StartParallel(st, sql, stmt, url, schemas, scan, merge, qs, rows);
    ParallelScaleAcross(st1, n, merge, ratio);
  }

  lemma {:induction false} ParallelScaleAcross(st: State, n: nat, merge: Merger, ratio: (int, int, int) -> int)
    ensures ParallelScale(NextParallelN(st, n, merge, ratio), ratio) == ParallelScale(st, ratio)
    decreases n
  {
    if n > 0 {
      NextParallelKeepsScale(st, merge, ratio);
      ParallelScaleAcross(NextParallel(st, merge, ratio).0, n - 1, merge, ratio);
    }
  }

  // ---------------------------------------------------------------------
  // Whole runs.

  /** Scanning a list of queries gathers the first query's rows, then the rest. */
  lemma GatheredScansCons(scan: Scan, qs: seq<string>)
    requires |qs| > 0
    ensures Gathered(Scans(scan, qs)) ==
            (if scan(qs[0]).Some? then scan(qs[0]).value else []) + Gathered(Scans(scan, qs[1..]))
  {
    assert Scans(scan, qs)[1..] == Scans(scan, qs[1..]);
  }

  /** Draining `n` futures appends their rows in queue order and leaves the
      rest queued; the index and the plan do not move. */
  lemma {:induction false} ParallelDrain(st: State, n: nat, merge: Merger, ratio: (int, int, int) -> int)
    requires st.futures.Some? && n <= |st.futures.value|
    ensures var st1 := NextParallelN(st, n, merge, ratio);
      && SamePlan(st, st1) && st1.saveQueryIdx == st.saveQueryIdx
      && st1.futures == Some(st.futures.value[n..])
      && st1.totalRes == st.totalRes + Gathered(st.futures.value[..n])
    decreases n
  {
    var fs := st.futures.value;
    if n == 0 {
      assert fs[0..] == fs;
      assert st.totalRes + [] == st.totalRes;
    } else {
      var st1 := NextParallel(st, merge, ratio).0;
      NextParallelStep(st, merge, ratio);
      ParallelDrain(st1, n - 1, merge, ratio);
      assert fs[1..][n - 1..] == fs[n..];
      assert fs[1..][..n - 1] == fs[..n][1..];
      assert Gathered(fs[..1]) == (if fs[0].Some? then fs[0].value else []) by {
        assert fs[..1][1..] == [];
      }
    }
  }

  /** A parallel statement on a coordinator with nothing queued, drained with
      one request per remaining partition, accumulates every partition's rows
      exactly once, in plan order, and leaves nothing queued. */
  lemma ParallelRunGathersAllPartitions(st: State, sql: string, stmt: Statement, url: string,
                                        schemas: seq<PartitionedSchema>, scan: Scan, merge: Merger,
                                        ratio: (int, int, int) -> int, qs: seq<string>, rows: seq<Row>)
    requires st.parallel && (st.futures.None? || st.futures == Some([]))
    requires PlanStatement(stmt, url, schemas).outcome == Success(qs) && |qs| > 0
    requires scan(qs[0]) == Some(rows)
    requires merge(rows, PlanStatement(stmt, url, schemas).aggs,
                   Times(Factor(IsApproximate(sql), |qs|, 0)), false).Success?
    ensures var st1 := Start(st, sql, Some(stmt), url, schemas, scan, merge).0;
      var st2 := NextParallelN(st1, |qs| - 1, merge, ratio);
      && st2.totalRes == Gathered(Scans(scan, qs))
      && st2.futures == Some([])
  {
    var st1 := Start(st, sql, Some(stmt), url, schemas, scan, merge).0;
    StartParallel(st, sql, stmt, url, schemas, scan, merge, qs, rows);
    var stale: seq<Pending> := if st.futures.Some? then st.futures.value else [];
    assert stale == [];
    AppendEmpty(Scans(scan, qs[1..]));
    ParallelRunFrom(st1, scan, merge, ratio, qs, rows);
  }

  /** Draining the parallel queue of partitions 1 up to the last one. */
  lemma ParallelRunFrom(st1: State, scan: Scan, merge: Merger, ratio: (int, int, int) -> int,
                        qs: seq<string>, rows: seq<Row>)
    requires |qs| > 0 && scan(qs[0]) == Some(rows)
    requires st1.totalRes == rows && st1.futures == Some(Scans(scan, qs[1..]))
    ensures var st2 := NextParallelN(st1, |qs| - 1, merge, ratio);
      && st2.totalRes == Gathered(Scans(scan, qs))
      && st2.futures == Some([])
  {
    var fs := Scans(scan, qs[1..]);
    ParallelDrain(st1, |qs| - 1, merge, ratio);
    assert fs[..|qs| - 1] == fs;
    assert fs[|qs| - 1..] == [];
    GatheredScansCons(scan, qs);
  }

  /** The rows of partitions i .. i + n - 1 are partition i's, then the rest. */
  lemma GatheredSlice(scan: Scan, qs: seq<string>, i: nat, n: nat)
    requires i < i + n <= |qs|
    ensures Gathered(Scans(scan, qs[i..i + n])) ==
            (if scan(qs[i]).Some? then scan(qs[i]).value else []) + Gathered(Scans(scan, qs[i + 1..i + n]))
  {
    GatheredScansCons(scan, qs[i..i + n]);
    assert qs[i..i + n][1..] == qs[i + 1..i + n];
  }

  /** `st2` is `st` after `k` advancing requests: same plan, the index `k`
      further, and the rows of those `k` partitions appended in order. */
  predicate Drained(st: State, st2: State, scan: Scan, k: nat)
  {
    && 0 <= st.saveQueryIdx && st.saveQueryIdx + k <= |st.saveQuery|
    && SamePlan(st, st2) && st2.saveQueryIdx == st.saveQueryIdx + k
    && st2.totalRes == st.totalRes + Gathered(Scans(scan, st.saveQuery[st.saveQueryIdx..st.saveQueryIdx + k]))
  }

  /** One sequential request that advances drains exactly one partition. */
  lemma AdvanceOnce(st: State, scan: Scan, merge: Merger)
    requires Valid(st) && Next(st, scan, merge).0.saveQueryIdx == st.saveQueryIdx + 1
    ensures Valid(Next(st, scan, merge).0) && Drained(st, Next(st, scan, merge).0, scan, 1)
  {
    NextAdvancesIff(st, scan, merge);
    NextStep(st, scan, merge);
    NextPreservesValid(st, scan, merge);
    var i := st.saveQueryIdx;
    GatheredSlice(scan, st.saveQuery, i, 1);
    assert Scans(scan, st.saveQuery[i + 1..i + 1]) == [];
    var rows := scan(st.saveQuery[i]).value;
    assert rows + [] == rows;
  }

  /** The rows of partitions i .. i + k are partition i's, then those of the
      `k` after it. */
  lemma GatheredSplit(scan: Scan, qs: seq<string>, i: nat, k: nat)
    requires i + 1 + k <= |qs|
    ensures Gathered(Scans(scan, qs[i..i + 1 + k])) ==
            Gathered(Scans(scan, qs[i..i + 1])) + Gathered(Scans(scan, qs[i + 1..i + 1 + k]))
  {
    var head := if scan(qs[i]).Some? then scan(qs[i]).value else [];
    var whole, first := Scans(scan, qs[i..i + 1 + k]), Scans(scan, qs[i..i + 1]);
    assert whole[1..] == Scans(scan, qs[i + 1..i + 1 + k]);
    assert first[1..] == [];
    assert Gathered(first) == head + [];
    AppendEmpty(head);
  }

  /** One partition, then `k` more, is `k + 1` partitions. */
  lemma DrainedStep(st: State, st1: State, st2: State, scan: Scan, k: nat)
    requires Drained(st, st1, scan, 1) && Drained(st1, st2, scan, k)
    ensures Drained(st, st2, scan, k + 1)
  {
    var q, i := st.saveQuery, st.saveQueryIdx;
    var g1 := Gathered(Scans(scan, q[i..i + 1]));
    var g2 := Gathered(Scans(scan, q[i + 1..i + 1 + k]));
    assert st1.totalRes == st.totalRes + g1;
    assert st2.totalRes == st1.totalRes + g2;
    GatheredSplit(scan, q, i, k);
    AppendAssoc(st.totalRes, g1, g2);
  }

  /** No request drains nothing. */
  lemma DrainedNone(st: State, scan: Scan)
    requires 0 <= st.saveQueryIdx <= |st.saveQuery|
    ensures Drained(st, st, scan, 0)
  {
    var i := st.saveQueryIdx;
    assert Scans(scan, st.saveQuery[i..i]) == [];
    AppendEmpty(st.totalRes);
  }

  /** `n` sequential requests that each advance append, in order, the rows of
      the next `n` partitions. */
  lemma {:induction false} SequentialDrain(st: State, n: nat, scan: Scan, merge: Merger)
    requires Valid(st) && Advances(st, n, scan, merge)
    ensures Drained(st, NextN(st, n, scan, merge), scan, n)
    decreases n
  {
    if n == 0 {
      DrainedNone(st, scan);
    } else {
      var st1 := Next(st, scan, merge).0;
      assert Advances(st1, n - 1, scan, merge);
      AdvanceOnce(st, scan, merge);
      SequentialDrain(st1, n - 1, scan, merge);
      assert NextN(st, n, scan, merge) == NextN(st1, n - 1, scan, merge);
      DrainedStep(st, st1, NextN(st1, n - 1, scan, merge), scan, n - 1);
    }
  }

  /** Draining the sequential path from partition 1 up to the last one. */
  lemma SequentialRunFrom(st1: State, scan: Scan, merge: Merger, qs: seq<string>, rows: seq<Row>)
    requires Valid(st1) && st1.saveQuery == qs && st1.saveQueryIdx == 1 && st1.totalRes == rows
    requires |qs| > 0 && scan(qs[0]) == Some(rows)
    requires Advances(st1, |qs| - 1, scan, merge)
    ensures var st2 := NextN(st1, |qs| - 1, scan, merge);
      && st2.totalRes == Gathered(Scans(scan, qs))
      && Next(st2, scan, merge) == (st2, Success(Response(st2.header, [])))
  {
    SequentialDrain(st1, |qs| - 1, scan, merge);
    assert qs[1..1 + |qs| - 1] == qs[1..];
    GatheredScansCons(scan, qs);
    var st2 := NextN(st1, |qs| - 1, scan, merge);
    NextAfterLastPartition(st2, scan, merge);
  }

  /** A sequential statement whose every request advances accumulates every
      partition's rows exactly once, in plan order; the request after the
      last partition returns no rows and changes nothing. */
  lemma SequentialRunGathersAllPartitions(st: State, sql: string, stmt: Statement, url: string,
                                          schemas: seq<PartitionedSchema>, scan: Scan, merge: Merger,
                                          qs: seq<string>, rows: seq<Row>)
    requires Valid(st) && !st.parallel
    requires PlanStatement(stmt, url, schemas).outcome == Success(qs) && |qs| > 0
    requires scan(qs[0]) == Some(rows)
    requires merge(rows, PlanStatement(stmt, url, schemas).aggs,
                   Times(Factor(IsApproximate(sql), |qs|, 0)), false).Success?
    requires Advances(Start(st, sql, Some(stmt), url, schemas, scan, merge).0, |qs| - 1, scan, merge)
    ensures var st1 := Start(st, sql, Some(stmt), url, schemas, scan, merge).0;
      var st2 := NextN(st1, |qs| - 1, scan, merge);
      && st2.totalRes == Gathered(Scans(scan, qs))
      && Next(st2, scan, merge) == (st2, Success(Response(st2.header, [])))
  {
    var st1 := Start(st, sql, Some(stmt), url, schemas, scan, merge).0;
    StartSequential(st, sql, stmt, url, schemas, scan, merge, qs, rows);
    StartPreservesValid(st, sql, Some(stmt), url, schemas, scan, merge);
    SequentialRunFrom(st1, scan, merge, qs, rows);
  }
}
