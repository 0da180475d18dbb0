/** Run and dispatch statistics per configured entity (`apps/api/runtime_state.py`). */
module OperationalStatistics {
  import opened Prelude

  /** With the configured entities its context names, `""` where it names none. */
  datatype Run = Run(
    runId: string, createdAt: int, status: string, passed: bool,
    assetId: string, contractId: string, mappingId: string, definitionId: string)

  datatype Dispatch = Dispatch(dispatchId: string, status: string, enqueuedAt: int, completedAt: Option<int>)

  datatype Stamp = Stamp(at: int, id: string, status: string)

  /** An entity's statistics over runs; a mark holds the id, time and status shown for the latest event of its kind. */
  datatype RunStats = RunStats(
    count: nat, failed: nat, lastRun: Option<Stamp>, lastSuccess: Option<Stamp>, lastFailure: Option<Stamp>)

  datatype DispatchStats = DispatchStats(
    count: nat, byStatus: map<string, nat>, lastDispatch: Option<Stamp>, lastFailed: Option<Stamp>)

  const STATUSES: set<string> := {"enqueued", "running", "failed", "completed"}

  const NO_RUNS := RunStats(0, 0, None, None, None)

  function RunStamp(run: Run): Stamp { Stamp(run.createdAt, run.runId, run.status) }

  function DispatchStamp(d: Dispatch): Stamp { Stamp(d.enqueuedAt, d.dispatchId, d.status) }

  function FailedStamp(d: Dispatch): Stamp {
    Stamp(if d.completedAt.Some? then d.completedAt.value else d.enqueuedAt, d.dispatchId, d.status)
  }

  // ------------------------------------------------------------------ what the statistics mean

  /** The mark shows the last of the latest stamps. */
  ghost predicate IsLatest(mark: Option<Stamp>, stamps: seq<Stamp>) {
    if stamps == [] then mark.None? else exists i :: LatestAt(stamps, i) && mark == Some(stamps[i])
  }

  ghost predicate LatestAt(stamps: seq<Stamp>, i: int) {
    && 0 <= i < |stamps|
    && (forall j :: 0 <= j < |stamps| ==> stamps[j].at <= stamps[i].at)
    && (forall j :: i < j < |stamps| ==> stamps[j].at < stamps[i].at)
  }

  datatype Kind = AnyRun | PassedRun | FailedRun

  function StampsOf(runs: seq<Run>, kind: Kind): seq<Stamp> {
    if runs == [] then []
    else
      var last := runs[|runs| - 1];
      StampsOf(runs[..|runs| - 1], kind) +
      if kind.AnyRun? || last.passed == kind.PassedRun? then [RunStamp(last)] else []
  }

  function DispatchStamps(dispatches: seq<Dispatch>): seq<Stamp> {
    seq(|dispatches|, i requires 0 <= i < |dispatches| => DispatchStamp(dispatches[i]))
  }

  function FailedStamps(dispatches: seq<Dispatch>): seq<Stamp> {
    if dispatches == [] then []
    else
      var last := dispatches[|dispatches| - 1];
      FailedStamps(dispatches[..|dispatches| - 1]) + if last.status == "failed" then [FailedStamp(last)] else []
  }

  function CountStatus(dispatches: seq<Dispatch>, status: string): nat {
    if dispatches == [] then 0
    else
      CountStatus(dispatches[..|dispatches| - 1], status) +
      if dispatches[|dispatches| - 1].status == status then 1 else 0
  }

  /** Exact counts and latest marks of a run list. */
  ghost predicate SummarizesRuns(stats: RunStats, runs: seq<Run>) {
    && stats.count == |runs| && stats.failed == |StampsOf(runs, FailedRun)|
    && IsLatest(stats.lastRun, StampsOf(runs, AnyRun))
    && IsLatest(stats.lastSuccess, StampsOf(runs, PassedRun))
    && IsLatest(stats.lastFailure, StampsOf(runs, FailedRun))
  }

  ghost predicate SummarizesDispatches(stats: DispatchStats, dispatches: seq<Dispatch>) {
    && stats.count == |dispatches|
    && stats.byStatus.Keys == STATUSES
    && (forall s :: s in STATUSES ==> stats.byStatus[s] == CountStatus(dispatches, s))
    && IsLatest(stats.lastDispatch, DispatchStamps(dispatches))
    && IsLatest(stats.lastFailed, FailedStamps(dispatches))
  }

  // ------------------------------------------------------------------ the same in plain terms

  /** Positions of the runs with an outcome, or of all of them. */
  function RunsWith(runs: seq<Run>, passed: Option<bool>): set<int> {
    set i | 0 <= i < |runs| && (passed.Some? ==> runs[i].passed == passed.value)
  }

  /** `i` is the last of the latest among `chosen`. */
  ghost predicate LastOfLatest(chosen: set<int>, at: int -> int, i: int) {
    i in chosen && forall j :: j in chosen ==> at(j) < at(i) || (at(j) == at(i) && j <= i)
  }

  /** The mark names the id, time and status of the last of the latest runs with an outcome. */
  ghost predicate MarksRun(mark: Option<Stamp>, runs: seq<Run>, passed: Option<bool>) {
    var chosen := RunsWith(runs, passed);
    if chosen == {} then mark.None?
    else exists i :: LastOfLatest(chosen, j => if 0 <= j < |runs| then runs[j].createdAt else 0, i)
           && 0 <= i < |runs| && mark == Some(Stamp(runs[i].createdAt, runs[i].runId, runs[i].status))
  }

  ghost predicate PlainRunSummary(stats: RunStats, runs: seq<Run>) {
    && stats.count == |runs| && stats.failed == |RunsWith(runs, Some(false))|
    && MarksRun(stats.lastRun, runs, None) && MarksRun(stats.lastSuccess, runs, Some(true))
    && MarksRun(stats.lastFailure, runs, Some(false))
  }

  function DispatchesWith(dispatches: seq<Dispatch>, status: Option<string>): set<int> {
    set i | 0 <= i < |dispatches| && (status.Some? ==> dispatches[i].status == status.value)
  }

  /** When a dispatch is counted as failed: at its completion, or else when it was enqueued. */
  function FailedAt(dispatches: seq<Dispatch>, i: int): int {
    if !(0 <= i < |dispatches|) then 0
    else match dispatches[i].completedAt case None => dispatches[i].enqueuedAt case Some(at) => at
  }

  ghost predicate PlainDispatchSummary(stats: DispatchStats, dispatches: seq<Dispatch>) {
    && stats.count == |dispatches| && stats.byStatus.Keys == {"enqueued", "running", "failed", "completed"}
    && (forall s :: s in stats.byStatus ==> stats.byStatus[s] == |DispatchesWith(dispatches, Some(s))|)
    && (if dispatches == [] then stats.lastDispatch.None?
        else exists i ::
          LastOfLatest(DispatchesWith(dispatches, None),
                       j => if 0 <= j < |dispatches| then dispatches[j].enqueuedAt else 0, i)
          && 0 <= i < |dispatches|
          && stats.lastDispatch ==
               Some(Stamp(dispatches[i].enqueuedAt, dispatches[i].dispatchId, dispatches[i].status)))
    && (if DispatchesWith(dispatches, Some("failed")) == {} then stats.lastFailed.None?
        else exists i ::
          LastOfLatest(DispatchesWith(dispatches, Some("failed")), j => FailedAt(dispatches, j), i)
          && 0 <= i < |dispatches|
          && stats.lastFailed == Some(Stamp(FailedAt(dispatches, i), dispatches[i].dispatchId, "failed")))
  }

  function OutcomeOf(kind: Kind): Option<bool> {
    match kind case AnyRun => None case PassedRun => Some(true) case FailedRun => Some(false)
  }

  /** The chosen positions, in order. */
  ghost predicate Lists(positions: seq<int>, chosen: set<int>) {
    && (forall i, j :: 0 <= i < j < |positions| ==> positions[i] < positions[j])
    && (forall k :: 0 <= k < |positions| ==> positions[k] in chosen)
    && (forall n :: n in chosen ==> n in positions)
  }

  lemma ListsOneMore(positions: seq<int>, chosen: set<int>, n: int)
    requires Lists(positions, chosen) && forall i :: i in chosen ==> i < n
    ensures Lists(positions + [n], chosen + {n})
  {
    var more := positions + [n];
    forall i | i in chosen ensures i in more { assert i in positions; }
    assert more[|positions|] == n;
  }

  /** Stamps stand for the runs at `positions`, in order. */
  ghost predicate Represents(stamps: seq<Stamp>, positions: seq<int>, chosen: set<int>) {
    |positions| == |stamps| && Lists(positions, chosen)
  }

  lemma {:induction false} RepresentedSize(stamps: seq<Stamp>, positions: seq<int>, chosen: set<int>)
    requires Represents(stamps, positions, chosen)
    ensures |stamps| == |chosen|
  {
    var ids := set i | 0 <= i < |positions| :: positions[i];
    forall n ensures n in chosen <==> n in ids {
      if n in ids { assert n in chosen; }
      if n in chosen { assert n in positions; }
    }
    assert chosen == ids;
    SizeOfDistinct(positions);
  }

  lemma {:induction false} SizeOfDistinct(s: seq<int>)
    requires forall i, j :: 0 <= i < j < |s| ==> s[i] < s[j]
    ensures |set i | 0 <= i < |s| :: s[i]| == |s|
    decreases |s|
  {
    if s == [] {
    } else {
      var n := |s| - 1;
      SizeOfDistinct(s[..n]);
      assert (set i | 0 <= i < |s| :: s[i]) == (set i | 0 <= i < n :: s[..n][i]) + {s[n]};
    }
  }

  /** A mark for the stamps is a mark for what they stand for. */
  lemma {:induction false} LatestRepresented(
    mark: Option<Stamp>, stamps: seq<Stamp>, positions: seq<int>, chosen: set<int>, at: int -> int)
    requires IsLatest(mark, stamps) && Represents(stamps, positions, chosen)
    requires forall k :: 0 <= k < |stamps| ==> stamps[k].at == at(positions[k])
    ensures chosen == {} <==> mark.None?
    ensures mark.Some? ==>
              exists k :: 0 <= k < |stamps| && mark == Some(stamps[k]) && LastOfLatest(chosen, at, positions[k])
  {
    RepresentedSize(stamps, positions, chosen);
    if stamps != [] {
      assert positions[0] in chosen;
      var i :| LatestAt(stamps, i) && mark == Some(stamps[i]);
      forall j | j in chosen ensures at(j) < at(positions[i]) || (at(j) == at(positions[i]) && j <= positions[i]) {
        var k :| 0 <= k < |positions| && positions[k] == j;
      }
    }
  }

  lemma {:induction false} StampPositions(runs: seq<Run>, kind: Kind) returns (positions: seq<int>)
    ensures Represents(StampsOf(runs, kind), positions, RunsWith(runs, OutcomeOf(kind)))
    ensures forall k :: 0 <= k < |positions| ==>
              && 0 <= positions[k] < |runs|
              && StampsOf(runs, kind)[k] ==
                   Stamp(runs[positions[k]].createdAt, runs[positions[k]].runId, runs[positions[k]].status)
    decreases |runs|
  {
    if runs == [] {
      positions := [];
    } else {
      var n := |runs| - 1;
      positions := StampPositions(runs[..n], kind);
      var few := RunsWith(runs[..n], OutcomeOf(kind));
      assert RunsWith(runs, OutcomeOf(kind)) == few + if CountsAs(runs[n], kind) then {n} else {};
      if CountsAs(runs[n], kind) {
        ListsOneMore(positions, few, n);
        positions := positions + [n];
      }
    }
  }

  predicate CountsAs(run: Run, kind: Kind) {
    kind.AnyRun? || run.passed == kind.PassedRun?
  }

  lemma {:induction false} MarkMeans(mark: Option<Stamp>, runs: seq<Run>, kind: Kind)
    requires IsLatest(mark, StampsOf(runs, kind))
    ensures MarksRun(mark, runs, OutcomeOf(kind))
    ensures |StampsOf(runs, kind)| == |RunsWith(runs, OutcomeOf(kind))|
  {
    var stamps, chosen := StampsOf(runs, kind), RunsWith(runs, OutcomeOf(kind));
    var positions := StampPositions(runs, kind);
    var at := j => if 0 <= j < |runs| then runs[j].createdAt else 0;
    RepresentedSize(stamps, positions, chosen);
    LatestRepresented(mark, stamps, positions, chosen, at);
    if mark.Some? {
      var k :| 0 <= k < |stamps| && mark == Some(stamps[k]) && LastOfLatest(chosen, at, positions[k]);
      assert LastOfLatest(chosen, j => if 0 <= j < |runs| then runs[j].createdAt else 0, positions[k]) by {
        forall j | j in chosen ensures
          runs[j].createdAt < runs[positions[k]].createdAt
          || (runs[j].createdAt == runs[positions[k]].createdAt && j <= positions[k])
        {
          assert at(j) == runs[j].createdAt;
        }
      }
    }
  }

  /** What the statistics of a run list say. */
  lemma {:induction false} RunSummaryMeans(stats: RunStats, runs: seq<Run>)
    requires SummarizesRuns(stats, runs)
    ensures PlainRunSummary(stats, runs)
  {
    MarkMeans(stats.lastRun, runs, AnyRun);
    MarkMeans(stats.lastSuccess, runs, PassedRun);
    MarkMeans(stats.lastFailure, runs, FailedRun);
  }

  lemma {:induction false} StatusCount(dispatches: seq<Dispatch>, status: string)
    ensures CountStatus(dispatches, status) == |DispatchesWith(dispatches, Some(status))|
    decreases |dispatches|
  {
    if dispatches == [] {
    } else {
      var n := |dispatches| - 1;
      StatusCount(dispatches[..n], status);
      var few, more := DispatchesWith(dispatches[..n], Some(status)), DispatchesWith(dispatches, Some(status));
      if dispatches[n].status == status {
        assert more == few + {n};
      } else {
        assert more == few;
      }
    }
  }

  /** The stamp of the failed dispatch at `n`. */
  function FailedAtStamp(dispatches: seq<Dispatch>, n: int): Stamp
    requires 0 <= n < |dispatches|
  {
    Stamp(FailedAt(dispatches, n), dispatches[n].dispatchId, "failed")
  }

  lemma DispatchesOneMore(dispatches: seq<Dispatch>, n: nat, status: string)
    requires |dispatches| == n + 1
    ensures DispatchesWith(dispatches, Some(status)) ==
              DispatchesWith(dispatches[..n], Some(status)) + if dispatches[n].status == status then {n} else {}
  {
  }

  lemma {:induction false} FailedPositions(dispatches: seq<Dispatch>) returns (positions: seq<int>)
    ensures Represents(FailedStamps(dispatches), positions, DispatchesWith(dispatches, Some("failed")))
    ensures forall k :: 0 <= k < |positions| ==>
              0 <= positions[k] < |dispatches| && FailedStamps(dispatches)[k] == FailedAtStamp(dispatches, positions[k])
    decreases |dispatches|
  {
    if dispatches == [] {
      positions := [];
    } else {
      var n := |dispatches| - 1;
      var few := dispatches[..n];
      var earlier := FailedPositions(few);
      DispatchesOneMore(dispatches, n, "failed");
      var chosen := DispatchesWith(few, Some("failed"));
      positions := earlier;
      if dispatches[n].status == "failed" {
        ListsOneMore(earlier, chosen, n);
        positions := earlier + [n];
      }
      forall k | 0 <= k < |positions|
        ensures 0 <= positions[k] < |dispatches|
        ensures FailedStamps(dispatches)[k] == FailedAtStamp(dispatches, positions[k])
      {
        if k < |earlier| { assert FailedStamps(few)[k] == FailedAtStamp(few, earlier[k]); }
      }
    }
  }

  lemma {:induction false} FailedMarkMeans(mark: Option<Stamp>, dispatches: seq<Dispatch>)
    requires IsLatest(mark, FailedStamps(dispatches))
    ensures if DispatchesWith(dispatches, Some("failed")) == {} then mark.None?
            else exists i ::
              LastOfLatest(DispatchesWith(dispatches, Some("failed")), j => FailedAt(dispatches, j), i)
              && 0 <= i < |dispatches|
              && mark == Some(Stamp(FailedAt(dispatches, i), dispatches[i].dispatchId, "failed"))
  {
    var stamps, chosen := FailedStamps(dispatches), DispatchesWith(dispatches, Some("failed"));
    var positions := FailedPositions(dispatches);
    var at := j => FailedAt(dispatches, j);
    LatestRepresented(mark, stamps, positions, chosen, at);
    if mark.Some? {
      var k :| 0 <= k < |stamps| && mark == Some(stamps[k]) && LastOfLatest(chosen, at, positions[k]);
      assert LastOfLatest(chosen, j => FailedAt(dispatches, j), positions[k]) by {
        forall j | j in chosen
          ensures FailedAt(dispatches, j) < FailedAt(dispatches, positions[k])
                  || (FailedAt(dispatches, j) == FailedAt(dispatches, positions[k]) && j <= positions[k])
        {
          assert at(j) == FailedAt(dispatches, j);
        }
      }
    }
  }

  lemma {:induction false} DispatchMarkMeans(mark: Option<Stamp>, dispatches: seq<Dispatch>)
    requires IsLatest(mark, DispatchStamps(dispatches))
    ensures if dispatches == [] then mark.None?
            else exists i ::
              LastOfLatest(DispatchesWith(dispatches, None),
                           j => if 0 <= j < |dispatches| then dispatches[j].enqueuedAt else 0, i)
              && 0 <= i < |dispatches|
              && mark == Some(Stamp(dispatches[i].enqueuedAt, dispatches[i].dispatchId, dispatches[i].status))
  {
    var stamps := DispatchStamps(dispatches);
    if dispatches != [] {
      var i :| LatestAt(stamps, i) && mark == Some(stamps[i]);
      assert LastOfLatest(DispatchesWith(dispatches, None),
                          j => if 0 <= j < |dispatches| then dispatches[j].enqueuedAt else 0, i) by {
        forall j | j in DispatchesWith(dispatches, None)
          ensures dispatches[j].enqueuedAt < dispatches[i].enqueuedAt
                  || (dispatches[j].enqueuedAt == dispatches[i].enqueuedAt && j <= i)
        {
          assert stamps[j].at == dispatches[j].enqueuedAt;
        }
      }
    }
  }

  /** What the statistics of a dispatch list say. */
  lemma {:induction false} DispatchSummaryMeans(stats: DispatchStats, dispatches: seq<Dispatch>)
    requires SummarizesDispatches(stats, dispatches)
    ensures PlainDispatchSummary(stats, dispatches)
  {
    forall s | s in stats.byStatus ensures stats.byStatus[s] == |DispatchesWith(dispatches, Some(s))| {
      StatusCount(dispatches, s);
    }
    DispatchMarkMeans(stats.lastDispatch, dispatches);
    FailedMarkMeans(stats.lastFailed, dispatches);
  }

  // ------------------------------------------------------------------ the updates

  /** `update_latest_timestamp`: a later or equal time takes the mark. */
  function Latest(mark: Option<Stamp>, s: Stamp): Option<Stamp> {
    if mark.None? || s.at >= mark.value.at then Some(s) else mark
  }

  function WithRun(stats: RunStats, run: Run): RunStats {
    var s := RunStamp(run);
    var counted := stats.(count := stats.count + 1, lastRun := Latest(stats.lastRun, s));
    if run.passed then counted.(lastSuccess := Latest(stats.lastSuccess, s))
    else counted.(failed := stats.failed + 1, lastFailure := Latest(stats.lastFailure, s))
  }

  function WithDispatch(stats: DispatchStats, d: Dispatch): DispatchStats {
    DispatchStats(
      stats.count + 1,
      if d.status in stats.byStatus then stats.byStatus[d.status := stats.byStatus[d.status] + 1] else stats.byStatus,
      Latest(stats.lastDispatch, DispatchStamp(d)),
      if d.status == "failed" then Latest(stats.lastFailed, FailedStamp(d)) else stats.lastFailed)
  }

  lemma LatestGrows(mark: Option<Stamp>, stamps: seq<Stamp>, s: Stamp)
    requires IsLatest(mark, stamps)
    ensures IsLatest(Latest(mark, s), stamps + [s])
  {
    var more := stamps + [s];
    if stamps == [] {
      assert LatestAt(more, 0);
    } else {
      var i :| LatestAt(stamps, i) && mark == Some(stamps[i]);
      if s.at >= stamps[i].at { assert LatestAt(more, |stamps|) && more[|stamps|] == s; }
      else { assert LatestAt(more, i) && more[i] == stamps[i]; }
    }
  }

  lemma StampsGrow(runs: seq<Run>, run: Run, kind: Kind)
    ensures StampsOf(runs + [run], kind) ==
            if kind.AnyRun? || run.passed == kind.PassedRun?
              then StampsOf(runs, kind) + [RunStamp(run)] else StampsOf(runs, kind)
  {
    assert (runs + [run])[..|runs|] == runs;
  }

  /** One more run keeps the statistics exact. */
  lemma WithRunSummarizes(stats: RunStats, runs: seq<Run>, run: Run)
    requires SummarizesRuns(stats, runs)
    ensures SummarizesRuns(WithRun(stats, run), runs + [run])
  {
    StampsGrow(runs, run, AnyRun);
    StampsGrow(runs, run, PassedRun);
    StampsGrow(runs, run, FailedRun);
    LatestGrows(stats.lastRun, StampsOf(runs, AnyRun), RunStamp(run));
    if run.passed { LatestGrows(stats.lastSuccess, StampsOf(runs, PassedRun), RunStamp(run)); }
    else { LatestGrows(stats.lastFailure, StampsOf(runs, FailedRun), RunStamp(run)); }
  }

  lemma WithDispatchSummarizes(stats: DispatchStats, dispatches: seq<Dispatch>, d: Dispatch)
    requires SummarizesDispatches(stats, dispatches)
    ensures SummarizesDispatches(WithDispatch(stats, d), dispatches + [d])
  {
    var more := dispatches + [d];
    assert more[..|dispatches|] == dispatches;
    assert DispatchStamps(more) == DispatchStamps(dispatches) + [DispatchStamp(d)];
    LatestGrows(stats.lastDispatch, DispatchStamps(dispatches), DispatchStamp(d));
    assert FailedStamps(more) == FailedStamps(dispatches) + if d.status == "failed" then [FailedStamp(d)] else [];
    if d.status == "failed" { LatestGrows(stats.lastFailed, FailedStamps(dispatches), FailedStamp(d)); }
    else { assert FailedStamps(more) == FailedStamps(dispatches); }
  }

  /** A statistics dictionary, updated in place. */
  class OperationalStats {
    var runCount: nat
    var failedRunCount: nat
    var lastRun: Option<Stamp>
    var lastSuccess: Option<Stamp>
    var lastFailure: Option<Stamp>
    var dispatchCount: nat
    var byStatus: map<string, nat>
    var lastDispatch: Option<Stamp>
    var lastFailedDispatch: Option<Stamp>

    function Runs(): RunStats reads this { RunStats(runCount, failedRunCount, lastRun, lastSuccess, lastFailure) }

    function Dispatches(): DispatchStats reads this {
      DispatchStats(dispatchCount, byStatus, lastDispatch, lastFailedDispatch)
    }

    constructor ()
      ensures SummarizesRuns(Runs(), []) && SummarizesDispatches(Dispatches(), [])
    {
      runCount, failedRunCount, dispatchCount := 0, 0, 0;
      lastRun, lastSuccess, lastFailure, lastDispatch, lastFailedDispatch := None, None, None, None, None;
      byStatus := map s | s in STATUSES :: 0;
    }

    method UpdateRun(run: Run)
      modifies this
      ensures Runs() == WithRun(old(Runs()), run) && Dispatches() == old(Dispatches())
    {
      runCount := runCount + 1;
      if lastRun.None? || run.createdAt >= lastRun.value.at { lastRun := Some(RunStamp(run)); }
      if run.passed {
        if lastSuccess.None? || run.createdAt >= lastSuccess.value.at { lastSuccess := Some(RunStamp(run)); }
        return;
      }
      failedRunCount := failedRunCount + 1;
      if lastFailure.None? || run.createdAt >= lastFailure.value.at { lastFailure := Some(RunStamp(run)); }
    }

    method UpdateDispatch(d: Dispatch)
      modifies this
      ensures Dispatches() == WithDispatch(old(Dispatches()), d) && Runs() == old(Runs())
    {
      dispatchCount := dispatchCount + 1;
      if d.status in byStatus { byStatus := byStatus[d.status := byStatus[d.status] + 1]; }
      if lastDispatch.None? || d.enqueuedAt >= lastDispatch.value.at { lastDispatch := Some(DispatchStamp(d)); }
      if d.status == "failed" {
        var s := FailedStamp(d);
        if lastFailedDispatch.None? || s.at >= lastFailedDispatch.value.at { lastFailedDispatch := Some(s); }
      }
    }

    method FoldRuns(runs: seq<Run>)
      requires SummarizesRuns(Runs(), [])
      modifies this
      ensures SummarizesRuns(Runs(), runs) && Dispatches() == old(Dispatches())
      ensures PlainRunSummary(Runs(), runs)
    {
      for n := 0 to |runs|
        invariant SummarizesRuns(Runs(), runs[..n]) && Dispatches() == old(Dispatches())
      {
        assert runs[..n + 1] == runs[..n] + [runs[n]];
        WithRunSummarizes(Runs(), runs[..n], runs[n]);
        UpdateRun(runs[n]);
      }
      assert runs[..|runs|] == runs;
      RunSummaryMeans(Runs(), runs);
    }

    method FoldDispatches(dispatches: seq<Dispatch>)
      requires SummarizesDispatches(Dispatches(), [])
      modifies this
      ensures SummarizesDispatches(Dispatches(), dispatches) && Runs() == old(Runs())
      ensures PlainDispatchSummary(Dispatches(), dispatches)
    {
      for n := 0 to |dispatches|
        invariant SummarizesDispatches(Dispatches(), dispatches[..n]) && Runs() == old(Runs())
      {
        assert dispatches[..n + 1] == dispatches[..n] + [dispatches[n]];
        WithDispatchSummarizes(Dispatches(), dispatches[..n], dispatches[n]);
        UpdateDispatch(dispatches[n]);
      }
      assert dispatches[..|dispatches|] == dispatches;
      DispatchSummaryMeans(Dispatches(), dispatches);
    }
  }

  // ------------------------------------------------------------------ consequences

  lemma {:induction false} StampsByKind(runs: seq<Run>)
    ensures |StampsOf(runs, AnyRun)| == |runs|
    ensures forall i :: 0 <= i < |runs| ==> StampsOf(runs, AnyRun)[i] == RunStamp(runs[i])
    ensures |runs| == |StampsOf(runs, PassedRun)| + |StampsOf(runs, FailedRun)|
    decreases |runs|
  {
    if runs == [] {
    } else {
      StampsByKind(runs[..|runs| - 1]);
    }
  }

  /** Growing lists: a mark for the whole is a mark for the runs of its own outcome. */
  lemma {:induction false} LatestOfItsKind(runs: seq<Run>, i: nat)
    requires i < |runs| && LatestAt(StampsOf(runs, AnyRun), i)
    ensures IsLatest(Some(RunStamp(runs[i])), StampsOf(runs, if runs[i].passed then PassedRun else FailedRun))
    decreases |runs|
  {
    var n := |runs| - 1;
    StampsByKind(runs);
    StampsByKind(runs[..n]);
    assert runs == runs[..n] + [runs[n]];
    StampsGrow(runs[..n], runs[n], AnyRun);
    if i == n {
      LastOfItsKind(runs[..n], runs[n]);
    } else {
      assert LatestAt(StampsOf(runs[..n], AnyRun), i);
      LatestOfItsKind(runs[..n], i);
      assert StampsOf(runs, AnyRun)[n] == RunStamp(runs[n]);
      EarlierDoesNotMatter(runs[..n], runs[n], RunStamp(runs[i]), if runs[i].passed then PassedRun else FailedRun);
    }
  }

  lemma {:induction false} LastOfItsKind(runs: seq<Run>, run: Run)
    requires forall i :: 0 <= i < |runs| ==> runs[i].createdAt <= run.createdAt
    ensures IsLatest(Some(RunStamp(run)), StampsOf(runs + [run], if run.passed then PassedRun else FailedRun))
  {
    var kind := if run.passed then PassedRun else FailedRun;
    StampsGrow(runs, run, kind);
    AtMost(runs, kind, run.createdAt);
    assert LatestAt(StampsOf(runs + [run], kind), |StampsOf(runs, kind)|);
  }

  lemma EarlierDoesNotMatter(runs: seq<Run>, run: Run, s: Stamp, kind: Kind)
    requires IsLatest(Some(s), StampsOf(runs, kind)) && run.createdAt < s.at
    ensures IsLatest(Some(s), StampsOf(runs + [run], kind))
  {
    StampsGrow(runs, run, kind);
    var k :| LatestAt(StampsOf(runs, kind), k) && StampsOf(runs, kind)[k] == s;
    assert LatestAt(StampsOf(runs + [run], kind), k);
  }

  lemma {:induction false} AtMost(runs: seq<Run>, kind: Kind, at: int)
    requires forall i :: 0 <= i < |runs| ==> runs[i].createdAt <= at
    ensures forall i :: 0 <= i < |StampsOf(runs, kind)| ==> StampsOf(runs, kind)[i].at <= at
    decreases |runs|
  {
    if runs == [] {
    } else {
      AtMost(runs[..|runs| - 1], kind, at);
    }
  }

  lemma LatestIsUnique(a: Option<Stamp>, b: Option<Stamp>, stamps: seq<Stamp>)
    requires IsLatest(a, stamps) && IsLatest(b, stamps)
    ensures a == b
  {
    if stamps != [] {
      var i :| LatestAt(stamps, i) && a == Some(stamps[i]);
      var j :| LatestAt(stamps, j) && b == Some(stamps[j]);
      assert i == j;
    }
  }

  /** The last run shown is the last success or the last failure shown. */
  lemma LastRunIsLastSuccessOrFailure(stats: RunStats, runs: seq<Run>)
    requires SummarizesRuns(stats, runs)
    ensures stats.lastRun == stats.lastSuccess || stats.lastRun == stats.lastFailure
    ensures runs != [] ==> stats.lastRun.Some?
  {
    StampsByKind(runs);
    if runs != [] {
      var stamps := StampsOf(runs, AnyRun);
      var i :| LatestAt(stamps, i) && stats.lastRun == Some(stamps[i]);
      LatestOfItsKind(runs, i);
      if runs[i].passed { LatestIsUnique(stats.lastRun, stats.lastSuccess, StampsOf(runs, PassedRun)); }
      else { LatestIsUnique(stats.lastRun, stats.lastFailure, StampsOf(runs, FailedRun)); }
    }
  }

  // ------------------------------------------------------------------ grouping

  datatype Schedule = Schedule(scheduleId: string, targetsDefinition: bool, targetRef: string)

  /** A configured entity whose runs are summarized. */
  datatype Group = ByAsset(id: string) | ByContract(id: string) | ByMapping(id: string) | ByDefinition(id: string)

  predicate Belongs(run: Run, group: Group) {
    && group.id != ""
    && match group
       case ByAsset(id) => run.assetId == id
       case ByContract(id) => run.contractId == id
       case ByMapping(id) => run.mappingId == id
       case ByDefinition(id) => run.definitionId == id
  }

  function RunsOf(runs: seq<Run>, group: Group): seq<Run> {
    if runs == [] then []
    else RunsOf(runs[..|runs| - 1], group) + if Belongs(runs[|runs| - 1], group) then [runs[|runs| - 1]] else []
  }

  lemma RunsOfGrow(runs: seq<Run>, n: nat, group: Group)
    requires n < |runs|
    ensures RunsOf(runs[..n + 1], group) ==
            if Belongs(runs[n], group) then RunsOf(runs[..n], group) + [runs[n]] else RunsOf(runs[..n], group)
  {
    assert runs[..n + 1][..n] == runs[..n];
  }

  /** The run's context names the entity. */
  predicate NamedBy(run: Run, group: Group) {
    match group
    case ByAsset(id) => id != "" && id == run.assetId
    case ByContract(id) => id != "" && id == run.contractId
    case ByMapping(id) => id != "" && id == run.mappingId
    case ByDefinition(id) => id != "" && id == run.definitionId
  }

  lemma BelongsIsNamed(run: Run, group: Group)
    ensures Belongs(run, group) <==> NamedBy(run, group)
  {
  }

  function NamingRuns(runs: seq<Run>, group: Group): set<int> {
    set i | 0 <= i < |runs| && NamedBy(runs[i], group)
  }

  lemma NamingOneMore(runs: seq<Run>, n: nat, group: Group)
    requires |runs| == n + 1
    ensures NamingRuns(runs, group) == NamingRuns(runs[..n], group) + if NamedBy(runs[n], group) then {n} else {}
  {
  }

  /** An entity's runs are those that name it, in order; so nameless entities have none. */
  lemma {:induction false} RunsOfMeans(runs: seq<Run>, group: Group) returns (positions: seq<int>)
    ensures |positions| == |RunsOf(runs, group)| && Lists(positions, NamingRuns(runs, group))
    ensures forall k :: 0 <= k < |positions| ==>
              0 <= positions[k] < |runs| && RunsOf(runs, group)[k] == runs[positions[k]]
    decreases |runs|
  {
    if runs == [] {
      positions := [];
    } else {
      var n := |runs| - 1;
      var few := runs[..n];
      var earlier := RunsOfMeans(few, group);
      NamingOneMore(runs, n, group);
      BelongsIsNamed(runs[n], group);
      positions := earlier;
      if NamedBy(runs[n], group) {
        ListsOneMore(earlier, NamingRuns(few, group), n);
        positions := earlier + [n];
      }
      forall k | 0 <= k < |positions|
        ensures 0 <= positions[k] < |runs| && RunsOf(runs, group)[k] == runs[positions[k]]
      {
        if k < |earlier| { assert RunsOf(few, group)[k] == few[earlier[k]]; }
      }
    }
  }

  /** The definition a schedule's runs are counted for. */
  function GroupOf(schedule: Schedule): Group {
    ByDefinition(if schedule.targetsDefinition then schedule.targetRef else "")
  }

  type ById = map<string, RunStats>

  /** The per-entity dictionaries. */
  type ByGroup = map<Group, RunStats>

  /** An entity has an entry when listed or run, and the entry is the summary of its own runs. */
  ghost predicate GroupSummarized(stats: ByGroup, listed: set<Group>, runs: seq<Run>, group: Group) {
    && (group in stats <==> group in listed || RunsOf(runs, group) != [])
    && (group in stats ==> SummarizesRuns(stats[group], RunsOf(runs, group)))
  }

  ghost predicate ScheduleSummarized(schedules: ById, s: Schedule, runs: seq<Run>) {
    s.scheduleId in schedules && SummarizesRuns(schedules[s.scheduleId], RunsOf(runs, GroupOf(s)))
  }

  function EntryOf(stats: ByGroup, group: Group): RunStats {
    if group in stats then stats[group] else NO_RUNS
  }

  function Noted(stats: ByGroup, run: Run, group: Group): ByGroup {
    if Belongs(run, group) then stats[group := WithRun(EntryOf(stats, group), run)] else stats
  }

  /** The run noted for each entity its context names. */
  function NotedForAll(stats: ByGroup, run: Run): ByGroup {
    var assets := Noted(stats, run, ByAsset(run.assetId));
    var contracts := Noted(assets, run, ByContract(run.contractId));
    var mappings := Noted(contracts, run, ByMapping(run.mappingId));
    Noted(mappings, run, ByDefinition(run.definitionId))
  }

  lemma EachGroupIsNotedOnce(stats: ByGroup, run: Run, group: Group)
    ensures Belongs(run, group) ==>
              group in NotedForAll(stats, run) && NotedForAll(stats, run)[group] == WithRun(EntryOf(stats, group), run)
    ensures !Belongs(run, group) ==>
              (group in NotedForAll(stats, run) <==> group in stats)
              && (group in stats ==> NotedForAll(stats, run)[group] == stats[group])
  {
    match group { case _ => }
  }

  lemma GroupsStaySummarized(stats: ByGroup, listed: set<Group>, runs: seq<Run>, n: nat, group: Group)
    requires n < |runs| && GroupSummarized(stats, listed, runs[..n], group)
    ensures GroupSummarized(NotedForAll(stats, runs[n]), listed, runs[..n + 1], group)
  {
    RunsOfGrow(runs, n, group);
    EachGroupIsNotedOnce(stats, runs[n], group);
    if Belongs(runs[n], group) {
      WithRunSummarizes(EntryOf(stats, group), RunsOf(runs[..n], group), runs[n]);
    }
  }

  /** The run loop of `build_operational_summary`: statistics per entity and per schedule. */
  class OperationalSummary {
    var entities: ByGroup
    var schedules: ById

    method Build(runs: seq<Run>, listed: set<Group>, configured: seq<Schedule>)
      requires forall i, j :: 0 <= i < j < |configured| ==> configured[i].scheduleId != configured[j].scheduleId
      modifies this
      ensures forall group :: GroupSummarized(entities, listed, runs, group)
      ensures forall k :: 0 <= k < |configured| ==> ScheduleSummarized(schedules, configured[k], runs)
      ensures schedules.Keys == set k | 0 <= k < |configured| :: configured[k].scheduleId
    {
      Start(listed, configured);
      for n := 0 to |runs|
        invariant forall group :: GroupSummarized(entities, listed, runs[..n], group)
        invariant forall k :: 0 <= k < |configured| ==> ScheduleSummarized(schedules, configured[k], runs[..n])
        invariant schedules.Keys == set k | 0 <= k < |configured| :: configured[k].scheduleId
      {
        var next := NotedForAll(entities, runs[n]);
        ghost var more := runs[..n + 1];
        forall group
          ensures GroupSummarized(next, listed, more, group)
        {
          GroupsStaySummarized(entities, listed, runs, n, group);
        }
        entities := next;
        RecordSchedules(runs, n, configured);
      }
      assert runs[..|runs|] == runs;
    }

    /** Every listed entity starts without runs. */
    method Start(listed: set<Group>, configured: seq<Schedule>)
      modifies this
      ensures forall group :: GroupSummarized(entities, listed, [], group)
      ensures forall k :: 0 <= k < |configured| ==> ScheduleSummarized(schedules, configured[k], [])
      ensures schedules.Keys == set k | 0 <= k < |configured| :: configured[k].scheduleId
    {
      entities := map group | group in listed :: NO_RUNS;
      schedules := map k | 0 <= k < |configured| :: configured[k].scheduleId := NO_RUNS;
    }

    /** Every schedule of the run's definition gets the run. */
    method RecordSchedules(runs: seq<Run>, n: nat, configured: seq<Schedule>)
      requires n < |runs|
      requires forall i, j :: 0 <= i < j < |configured| ==> configured[i].scheduleId != configured[j].scheduleId
      requires forall k :: 0 <= k < |configured| ==> ScheduleSummarized(schedules, configured[k], runs[..n])
      modifies this`schedules
      ensures schedules.Keys == old(schedules.Keys)
      ensures forall k :: 0 <= k < |configured| ==> ScheduleSummarized(schedules, configured[k], runs[..n + 1])
    {
      for i := 0 to |configured|
        invariant schedules.Keys == old(schedules.Keys)
        invariant forall k :: 0 <= k < i ==> ScheduleSummarized(schedules, configured[k], runs[..n + 1])
        invariant forall k :: i <= k < |configured| ==> ScheduleSummarized(schedules, configured[k], runs[..n])
      {
        ghost var before := schedules;
        RecordSchedule(configured[i], runs, n);
        OneMoreScheduleIsSummarized(before, schedules, configured, i, runs[..n], runs[..n + 1]);
      }
    }

    method RecordSchedule(s: Schedule, runs: seq<Run>, n: nat)
      requires n < |runs| && ScheduleSummarized(schedules, s, runs[..n])
      modifies this`schedules
      ensures schedules.Keys == old(schedules.Keys) && ScheduleSummarized(schedules, s, runs[..n + 1])
      ensures schedules == old(schedules)[s.scheduleId := schedules[s.scheduleId]]
    {
      var run := runs[n];
      ghost var before := schedules;
      if run.definitionId != "" && s.targetsDefinition && s.targetRef == run.definitionId {
        schedules := schedules[s.scheduleId := WithRun(schedules[s.scheduleId], run)];
      }
      ScheduleStaysSummarized(before, schedules, s, runs, n);
    }
  }

  lemma OtherScheduleStaysSummarized(schedules: ById, next: ById, s: Schedule, other: Schedule, runs: seq<Run>)
    requires ScheduleSummarized(schedules, other, runs) && other.scheduleId != s.scheduleId
    requires s.scheduleId in next && next == schedules[s.scheduleId := next[s.scheduleId]]
    ensures ScheduleSummarized(next, other, runs)
  {
  }

  lemma OneMoreScheduleIsSummarized(
    schedules: ById, next: ById, configured: seq<Schedule>, i: nat, was: seq<Run>, now: seq<Run>)
    requires forall j, k :: 0 <= j < k < |configured| ==> configured[j].scheduleId != configured[k].scheduleId
    requires i < |configured| && configured[i].scheduleId in next
    requires next == schedules[configured[i].scheduleId := next[configured[i].scheduleId]]
    requires ScheduleSummarized(next, configured[i], now)
    requires forall k :: 0 <= k < i ==> ScheduleSummarized(schedules, configured[k], now)
    requires forall k :: i < k < |configured| ==> ScheduleSummarized(schedules, configured[k], was)
    ensures forall k :: 0 <= k <= i ==> ScheduleSummarized(next, configured[k], now)
    ensures forall k :: i < k < |configured| ==> ScheduleSummarized(next, configured[k], was)
  {
    forall k | 0 <= k < i ensures ScheduleSummarized(next, configured[k], now) {
      OtherScheduleStaysSummarized(schedules, next, configured[i], configured[k], now);
    }
    forall k | i < k < |configured| ensures ScheduleSummarized(next, configured[k], was) {
      OtherScheduleStaysSummarized(schedules, next, configured[i], configured[k], was);
    }
  }

  lemma ScheduleStaysSummarized(schedules: ById, next: ById, s: Schedule, runs: seq<Run>, n: nat)
    requires n < |runs| && ScheduleSummarized(schedules, s, runs[..n])
    requires next == if Belongs(runs[n], GroupOf(s))
                     then schedules[s.scheduleId := WithRun(schedules[s.scheduleId], runs[n])] else schedules
    ensures ScheduleSummarized(next, s, runs[..n + 1])
  {
    RunsOfGrow(runs, n, GroupOf(s));
    if Belongs(runs[n], GroupOf(s)) {
      WithRunSummarizes(schedules[s.scheduleId], RunsOf(runs[..n], GroupOf(s)), runs[n]);
    }
  }
}
