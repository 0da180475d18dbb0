/** One row of `schedule_dispatches` and the row updates the control-plane store performs. */
module ScheduleDispatch {
  import opened Prelude
  import Text

  type WorkerId = string
  type DispatchId = string

  datatype Status = Enqueued | Running | Completed | Failed

  datatype Failure = ClaimExpired | ProcessingError(message: string)

  /**
   * `job` is bookkeeping of the model: the first dispatch of a chain of recoveries. A replacement
   * inherits the job of the dispatch it was requeued from, every other dispatch is its own job.
   */
  datatype Dispatch = Dispatch(
    scheduleId: string,
    enqueuedAt: real,
    status: Status,
    startedAt: Option<real>,
    completedAt: Option<real>,
    runIds: seq<string>,
    failure: Option<Failure>,
    claimedBy: Option<WorkerId>,
    claimedAt: Option<real>,
    claimExpiresAt: Option<real>,
    job: DispatchId)

  type Table = map<DispatchId, Dispatch>

  /** What a worker has to say about a dispatch once processing ended. */
  datatype Verdict = Succeed(runIds: seq<string>) | Fail(runIds: seq<string>, reason: string)

  predicate Terminal(row: Dispatch) {
    row.status == Completed || row.status == Failed
  }

  predicate Active(row: Dispatch) {
    row.status == Enqueued || row.status == Running
  }

  /** The guard of renewals and of the compare-and-set in `mark_schedule_dispatch_status`. */
  predicate HeldBy(row: Dispatch, w: WorkerId) {
    row.status == Running && row.claimedBy == Some(w)
  }

  predicate Stale(row: Dispatch, asOf: real) {
    row.status == Running && row.claimExpiresAt.Some? && row.claimExpiresAt.value < asOf
  }

  function Fresh(scheduleId: string, at: real, job: DispatchId): Dispatch {
    Dispatch(scheduleId, at, Enqueued, None, None, [], None, None, None, None, job)
  }

  function Claimed(row: Dispatch, w: WorkerId, at: real, lease: int): Dispatch {
    row.(status := Running,
         startedAt := if row.startedAt.Some? then row.startedAt else Some(at),
         completedAt := None,
         failure := None,
         claimedBy := Some(w),
         claimedAt := Some(at),
         claimExpiresAt := Some(at + lease as real))
  }

  function Renewed(row: Dispatch, at: real, lease: int): Dispatch {
    row.(claimedAt := Some(at), claimExpiresAt := Some(at + lease as real))
  }

  function Recovered(row: Dispatch, asOf: real): Dispatch {
    row.(status := Failed, completedAt := Some(asOf), failure := Some(ClaimExpired), claimExpiresAt := None)
  }

  /**
   * The UPDATE of `mark_schedule_dispatch_status`: the columns it does not decide are written back
   * from `seen`, the row read in an earlier transaction.
   */
  function Closed(row: Dispatch, seen: Dispatch, verdict: Verdict, at: real): Dispatch {
    row.(status := if verdict.Succeed? then Completed else Failed,
         startedAt := seen.startedAt,
         completedAt := Some(at),
         runIds := verdict.runIds,
         failure := if verdict.Succeed? then None else Some(ProcessingError(verdict.reason)),
         claimedBy := seen.claimedBy,
         claimedAt := seen.claimedAt,
         claimExpiresAt := None)
  }

  /** A rejected completion is retried as a failure with the same run ids. */
  function Downgraded(verdict: Verdict): Verdict {
    Fail(verdict.runIds, "Schedule dispatch changed before update")
  }

  /**
   * What an update of a row leaves alone, and what it comes to: nothing changes the schedule, the place in
   * the queue or the job; only a mark stores run ids; a recovered claim keeps its worker for the record.
   */
  lemma UpdatesMean(row: Dispatch, seen: Dispatch, w: WorkerId, at: real, lease: int, verdict: Verdict)
    ensures forall u :: u in {Claimed(row, w, at, lease), Renewed(row, at, lease), Recovered(row, at)} ==>
              && u.scheduleId == row.scheduleId && u.enqueuedAt == row.enqueuedAt && u.job == row.job
              && u.runIds == row.runIds && (row.startedAt.Some? ==> u.startedAt == row.startedAt)
    ensures HeldBy(Claimed(row, w, at, lease), w)
    ensures HeldBy(row, w) ==> HeldBy(Renewed(row, at, lease), w)
    ensures lease > 0 ==> !Stale(Claimed(row, w, at, lease), at) && !Stale(Renewed(row, at, lease), at)
    ensures var r := Recovered(row, at);
            r.status == Failed && r.failure == Some(ClaimExpired) && r.completedAt == Some(at)
            && r.claimedBy == row.claimedBy && r.claimedAt == row.claimedAt && r.claimExpiresAt == None
    ensures var c := Closed(row, seen, verdict, at);
            && c.scheduleId == row.scheduleId && c.enqueuedAt == row.enqueuedAt && c.job == row.job
            && (HeldBy(seen, w) ==> c.claimedBy == Some(w) && !HeldBy(c, w))
            && c.runIds == verdict.runIds && c.completedAt == Some(at) && c.claimExpiresAt == None
            && (c.status == Completed && c.failure == None <==> verdict.Succeed?)
            && (verdict.Fail? ==> c.status == Failed && c.failure == Some(ProcessingError(verdict.reason)))
  {
  }

  // ------------------------------------------------------------------ the orders of the store's queries

  /** `ORDER BY <time>, dispatch_id`. */
  predicate Earlier(times: map<DispatchId, real>, a: DispatchId, b: DispatchId)
    requires a in times && b in times
  {
    times[a] < times[b] || (times[a] == times[b] && Text.Less(a, b))
  }

  predicate First(times: map<DispatchId, real>, id: DispatchId) {
    id in times && forall x :: x in times ==> x == id || Earlier(times, id, x)
  }

  lemma {:induction false} FirstExists(times: map<DispatchId, real>) returns (first: DispatchId)
    requires times != map[]
    ensures First(times, first)
    decreases |times|
  {
    var some :| some in times;
    var rest := times - {some};
    assert forall x :: x in times ==> x == some || x in rest;
    assert times.Keys == rest.Keys + {some};
    if rest == map[] {
      first := some;
    } else {
      var m := FirstExists(rest);
      Text.LessIsTotal(some, m);
      first := if Earlier(times, m, some) then m else some;
      forall x | x in rest && x != m && first == some ensures Earlier(times, some, x) {
        assert Earlier(rest, m, x);
        if times[some] == times[m] == times[x] { Text.LessIsTransitive(some, m, x); }
      }
      forall x | x in rest && x != m && first == m ensures Earlier(times, m, x) { assert Earlier(rest, m, x); }
    }
  }

  /** Enqueued dispatches by enqueue time. */
  function Queue(rows: Table): map<DispatchId, real> {
    map id | id in rows && rows[id].status == Enqueued :: rows[id].enqueuedAt
  }

  /** Expired claims by expiry. */
  function Expired(rows: Table, asOf: real): map<DispatchId, real> {
    map id | id in rows && Stale(rows[id], asOf) :: rows[id].claimExpiresAt.value
  }
}
