/**
 * The schedule-dispatch lease protocol as a transition system: any number of workers, one lease
 * renewer thread for each dispatch being processed, one shared table and one clock. A run is any
 * interleaving of the steps below; each database transaction is one step.
 */
module LeaseProtocol {
  import opened Prelude
  import opened ScheduleDispatch

  /**
   * Where a worker stands in `_watch_schedule_dispatches` and `_process_schedule_dispatch`. `stamp` is the
   * iteration's `now`, `since` the time processing ended.
   */
  datatype Phase =
    | Ready
    | Polling(stamp: real)
    | Reread(id: DispatchId, stamp: real)
    | Working(id: DispatchId)
    | Closing(id: DispatchId, verdict: Verdict, since: real)
    | Writing(id: DispatchId, verdict: Verdict, seen: Dispatch, since: real)
    | Down

  datatype RenewerPhase = Waiting(since: real) | Stamped(at: real) | Finished

  datatype Renewer = Renewer(owner: WorkerId, phase: RenewerPhase, stopped: bool, failed: bool)

  datatype State = State(
    now: real,
    rows: Table,
    workers: map<WorkerId, Phase>,
    renewers: map<DispatchId, Renewer>)

  datatype Step =
    | Tick(to: real)
    | Enqueue(id: DispatchId, scheduleId: string, at: real)
    | Poll(w: WorkerId)
    | Recover(w: WorkerId, id: DispatchId, replacement: Option<DispatchId>)
    | Claim(w: WorkerId, id: DispatchId)
    | ClaimNothing(w: WorkerId)
    | ReadBack(w: WorkerId)
    | Finish(w: WorkerId, verdict: Verdict)
    | MarkRead(w: WorkerId)
    | MarkWrite(w: WorkerId)
    | Crash(w: WorkerId)
    | Wake(id: DispatchId)
    | CommitRenewal(id: DispatchId)
    | RenewerError(id: DispatchId)
    | QuitRenewer(id: DispatchId)

  /** `interval_seconds = max(0.5, lease_seconds / 3)`. */
  function RenewalInterval(lease: int): real {
    var third := lease as real / 3.0;
    if third < 0.5 then 0.5 else third
  }

  predicate Holding(p: Phase) {
    p.Reread? || p.Working? || p.Closing? || p.Writing?
  }

  predicate Init(s: State) {
    s.rows == map[] && s.renewers == map[] && forall w <- s.workers :: s.workers[w] == Ready
  }

  predicate Enabled(lease: int, s: State, step: Step) {
    match step
    case Tick(to) => s.now <= to
    case Enqueue(id, _, at) => id !in s.rows && at <= s.now
    case Poll(w) => w in s.workers && s.workers[w].Ready?
    case Recover(w, id, replacement) =>
      && w in s.workers && s.workers[w].Polling?
      && id in s.rows && Stale(s.rows[id], s.workers[w].stamp)
      && (replacement.Some? ==> replacement.value !in s.rows)
    case Claim(w, id) =>
      && w in s.workers && s.workers[w].Polling?
      && id in s.rows && s.rows[id].status == Enqueued
    case ClaimNothing(w) => w in s.workers && s.workers[w].Polling?
    case ReadBack(w) => w in s.workers && s.workers[w].Reread? && s.workers[w].id in s.rows
    case Finish(w, verdict) =>
      && w in s.workers && s.workers[w].Working?
      && var id := s.workers[w].id;
         id in s.renewers && s.renewers[id].failed ==> verdict.Fail?
    case MarkRead(w) => w in s.workers && s.workers[w].Closing? && s.workers[w].id in s.rows
    case MarkWrite(w) => w in s.workers && s.workers[w].Writing? && s.workers[w].id in s.rows
    case Crash(w) => w in s.workers
    case Wake(id) =>
      && id in s.renewers && s.renewers[id].phase.Waiting? && !s.renewers[id].stopped
      && s.renewers[id].phase.since + RenewalInterval(lease) <= s.now
    case CommitRenewal(id) => id in s.renewers && s.renewers[id].phase.Stamped? && id in s.rows
    case RenewerError(id) => id in s.renewers && !s.renewers[id].phase.Finished?
    case QuitRenewer(id) => id in s.renewers && s.renewers[id].phase.Waiting? && s.renewers[id].stopped
  }

  /** A mark raised ValueError: a completion falls back to failing, a failure is given up (exit code 1). */
  function AfterRejectedMark(id: DispatchId, verdict: Verdict, since: real): Phase {
    if verdict.Succeed? then Closing(id, Downgraded(verdict), since) else Ready
  }

  function Apply(lease: int, s: State, step: Step): State
    requires Enabled(lease, s, step)
  {
    match step
    case Tick(to) => s.(now := to)
    case Enqueue(id, scheduleId, at) => s.(rows := s.rows[id := Fresh(scheduleId, at, id)])
    case Poll(w) => s.(workers := s.workers[w := Polling(s.now)])
    case Recover(w, id, replacement) =>
      var asOf := s.workers[w].stamp;
      var row := s.rows[id];
      var closed := s.rows[id := Recovered(row, asOf)];
      s.(rows := if replacement.None? then closed
                 else closed[replacement.value := Fresh(row.scheduleId, asOf, row.job)])
    case Claim(w, id) =>
      s.(rows := s.rows[id := Claimed(s.rows[id], w, s.workers[w].stamp, lease)],
         workers := s.workers[w := Reread(id, s.workers[w].stamp)])
    case ClaimNothing(w) => s.(workers := s.workers[w := Ready])
    case ReadBack(w) =>
      var id := s.workers[w].id;
      if !HeldBy(s.rows[id], w) then s.(workers := s.workers[w := Down])
      else
        var working := s.(workers := s.workers[w := Working(id)]);
        if lease <= 0 then working
        else working.(renewers := s.renewers[id := Renewer(w, Waiting(s.now), false, false)])
    case Finish(w, verdict) =>
      var id := s.workers[w].id;
      var closing := s.(workers := s.workers[w := Closing(id, verdict, s.now)]);
      if id !in s.renewers then closing
      else closing.(renewers := s.renewers[id := s.renewers[id].(stopped := true)])
    case MarkRead(w) =>
      var p := s.workers[w];
      s.(workers := s.workers[w := if HeldBy(s.rows[p.id], w) then Writing(p.id, p.verdict, s.rows[p.id], p.since)
                                   else AfterRejectedMark(p.id, p.verdict, p.since)])
    case MarkWrite(w) =>
      var p := s.workers[w];
      if HeldBy(s.rows[p.id], w)
      then s.(rows := s.rows[p.id := Closed(s.rows[p.id], p.seen, p.verdict, s.now)],
              workers := s.workers[w := Ready])
      else s.(workers := s.workers[w := AfterRejectedMark(p.id, p.verdict, p.since)])
    case Crash(w) => s.(workers := s.workers[w := Down])
    case Wake(id) => s.(renewers := s.renewers[id := s.renewers[id].(phase := Stamped(s.now))])
    case CommitRenewal(id) =>
      var r := s.renewers[id];
      if HeldBy(s.rows[id], r.owner)
      then s.(rows := s.rows[id := Renewed(s.rows[id], r.phase.at, lease)],
              renewers := s.renewers[id := r.(phase := Waiting(s.now))])
      else s.(renewers := s.renewers[id := Renewer(r.owner, Finished, true, true)])
    case RenewerError(id) => s.(renewers := s.renewers[id := Renewer(s.renewers[id].owner, Finished, true, true)])
    case QuitRenewer(id) => s.(renewers := s.renewers[id := s.renewers[id].(phase := Finished)])
  }

  // ------------------------------------------------------------------ invariant

  predicate RowShape(lease: int, row: Dispatch) {
    && (row.status == Enqueued ==> row.claimedBy.None?)
    && (row.status == Running ==>
          && row.claimedBy.Some? && row.claimedAt.Some?
          && row.claimExpiresAt == Some(row.claimedAt.value + lease as real))
    && (Terminal(row) ==> row.claimedBy.Some? && row.claimExpiresAt.None?)
  }

  predicate RowOk(lease: int, rows: Table, id: DispatchId)
    requires id in rows
  {
    rows[id].job in rows && RowShape(lease, rows[id])
  }

  /** `id` was claimed by `w`; no later step can make it anyone else's. */
  predicate ClaimedOnceBy(rows: Table, id: DispatchId, w: WorkerId) {
    id in rows && rows[id].status != Enqueued && rows[id].claimedBy == Some(w)
  }

  predicate PhaseOk(s: State, w: WorkerId, p: Phase) {
    && (p.Polling? ==> p.stamp <= s.now)
    && (Holding(p) ==> ClaimedOnceBy(s.rows, p.id, w))
    && (p.Writing? ==> HeldBy(p.seen, w))
  }

  predicate RenewerOk(s: State, id: DispatchId, r: Renewer) {
    ClaimedOnceBy(s.rows, id, r.owner) && (r.phase.Stamped? ==> r.phase.at <= s.now)
  }

  ghost predicate OneActivePerJob(rows: Table) {
    forall a, b :: a in rows && b in rows && a != b && Active(rows[a]) && Active(rows[b]) ==> rows[a].job != rows[b].job
  }

  ghost predicate RowsOk(lease: int, s: State) {
    forall id {:trigger RowOk(lease, s.rows, id)} :: id in s.rows ==> RowOk(lease, s.rows, id)
  }

  ghost predicate PhasesOk(s: State) {
    forall w {:trigger PhaseOk(s, w, s.workers[w])} :: w in s.workers ==> PhaseOk(s, w, s.workers[w])
  }

  ghost predicate RenewersOk(s: State) {
    forall id {:trigger RenewerOk(s, id, s.renewers[id])} :: id in s.renewers ==> RenewerOk(s, id, s.renewers[id])
  }

  ghost predicate Inv(lease: int, s: State) {
    RowsOk(lease, s) && PhasesOk(s) && RenewersOk(s) && OneActivePerJob(s.rows)
  }

  /** How one step may change a row that already exists. */
  predicate RowEvolves(lease: int, s: State, step: Step, id: DispatchId, was: Dispatch, became: Dispatch)
    requires Enabled(lease, s, step)
  {
    || became == was
    || (&& step.Claim? && step.id == id && was.status == Enqueued
        && became == Claimed(was, step.w, s.workers[step.w].stamp, lease))
    || (&& step.CommitRenewal? && step.id == id && HeldBy(was, s.renewers[id].owner)
        && became == Renewed(was, s.renewers[id].phase.at, lease))
    || (&& step.Recover? && step.id == id && Stale(was, s.workers[step.w].stamp)
        && became == Recovered(was, s.workers[step.w].stamp))
    || (&& step.MarkWrite? && s.workers[step.w].id == id && HeldBy(was, step.w)
        && became == Closed(was, s.workers[step.w].seen, s.workers[step.w].verdict, s.now))
  }

  /** Every change of an existing row is one of the four legal ones, made by whoever may make it. */
  lemma EachRowEvolvesLegally(lease: int, s: State, step: Step, id: DispatchId)
    requires Enabled(lease, s, step) && id in s.rows
    ensures id in Apply(lease, s, step).rows
    ensures RowEvolves(lease, s, step, id, s.rows[id], Apply(lease, s, step).rows[id])
  {
    match step {
      case Recover(w, x, replacement) =>
      case CommitRenewal(x) =>
      case MarkWrite(w) =>
      case _ =>
    }
  }

  /** A claim, once made, stays the same worker's for good: the row only ever moves to a terminal status. */
  lemma ClaimsPersist(lease: int, s: State, step: Step, id: DispatchId, w: WorkerId, became: Dispatch)
    requires Inv(lease, s) && Enabled(lease, s, step) && ClaimedOnceBy(s.rows, id, w)
    requires RowEvolves(lease, s, step, id, s.rows[id], became)
    ensures became.status != Enqueued && became.claimedBy == Some(w)
  {
    if step.MarkWrite? {
      assert PhaseOk(s, step.w, s.workers[step.w]);
    }
  }

  lemma ClaimsStay(lease: int, s: State, step: Step, id: DispatchId, w: WorkerId)
    requires Inv(lease, s) && Enabled(lease, s, step) && ClaimedOnceBy(s.rows, id, w)
    ensures ClaimedOnceBy(Apply(lease, s, step).rows, id, w)
  {
    EachRowEvolvesLegally(lease, s, step, id);
    ClaimsPersist(lease, s, step, id, w, Apply(lease, s, step).rows[id]);
  }

  lemma InitHolds(lease: int, s: State)
    requires Init(s)
    ensures Inv(lease, s)
  {
  }

  lemma ShapeStays(lease: int, s: State, step: Step, id: DispatchId, became: Dispatch)
    requires Inv(lease, s) && Enabled(lease, s, step) && id in s.rows
    requires RowEvolves(lease, s, step, id, s.rows[id], became)
    ensures RowShape(lease, became) && became.job == s.rows[id].job
  {
    assert RowOk(lease, s.rows, id);
    if step.MarkWrite? {
      assert PhaseOk(s, step.w, s.workers[step.w]);
    }
  }

  /** The only rows a step can add are enqueued ones: a new job, or one more try of a job being recovered. */
  predicate RowAppears(s: State, step: Step, id: DispatchId, row: Dispatch)
    requires id !in s.rows
  {
    && row.status == Enqueued && row.claimedBy.None?
    && (|| (step.Enqueue? && row.job == id)
        || (step.Recover? && step.replacement == Some(id) && step.id in s.rows && row.job == s.rows[step.id].job))
  }

  lemma NewRowsAppearLegally(lease: int, s: State, step: Step, id: DispatchId)
    requires Enabled(lease, s, step) && id !in s.rows && id in Apply(lease, s, step).rows
    ensures RowAppears(s, step, id, Apply(lease, s, step).rows[id])
    ensures step.Recover? ==> Terminal(Apply(lease, s, step).rows[step.id])
    ensures step.Enqueue? ==> step.id == id
  {
    match step {
      case Enqueue(x, scheduleId, at) =>
      case Recover(w, x, replacement) =>
      case _ =>
    }
  }

  lemma RowsStayOk(lease: int, s: State, step: Step, id: DispatchId)
    requires Inv(lease, s) && Enabled(lease, s, step) && id in Apply(lease, s, step).rows
    ensures RowOk(lease, Apply(lease, s, step).rows, id)
  {
    var rows := Apply(lease, s, step).rows;
    if id in s.rows {
      EachRowEvolvesLegally(lease, s, step, id);
      ShapeStays(lease, s, step, id, rows[id]);
      assert RowOk(lease, s.rows, id);
      EachRowEvolvesLegally(lease, s, step, s.rows[id].job);
    } else {
      NewRowsAppearLegally(lease, s, step, id);
      if step.Recover? {
        assert RowOk(lease, s.rows, step.id);
        EachRowEvolvesLegally(lease, s, step, s.rows[step.id].job);
      }
    }
  }

  /** A worker that does not move keeps what it knows, whatever the others do. */
  lemma UnmovedPhasesStayOk(lease: int, s: State, step: Step, w: WorkerId, s': State)
    requires Inv(lease, s) && Enabled(lease, s, step) && s' == Apply(lease, s, step)
    requires w in s.workers && w in s'.workers && s'.workers[w] == s.workers[w] && s.now <= s'.now
    ensures PhaseOk(s', w, s'.workers[w])
  {
    assert PhaseOk(s, w, s.workers[w]);
    if Holding(s.workers[w]) {
      ClaimsStay(lease, s, step, s.workers[w].id, w);
    }
  }

  /** What a worker polling, closing or giving up knows, it knew before: it has not touched any row. */
  lemma ReadersPhasesStayOk(lease: int, s: State, step: Step, w: WorkerId, s': State)
    requires Inv(lease, s) && Enabled(lease, s, step) && s' == Apply(lease, s, step)
    requires w in s.workers && w in s'.workers && s'.workers[w] != s.workers[w] && s'.rows == s.rows
    requires !step.Claim? && !step.MarkWrite?
    ensures PhaseOk(s', w, s'.workers[w])
  {
    assert PhaseOk(s, w, s.workers[w]);
    match step {
      case MarkRead(x) => assert w == x;
      case ReadBack(x) => assert w == x;
      case _ =>
    }
  }

  lemma WritersPhasesStayOk(lease: int, s: State, w: WorkerId)
    requires Inv(lease, s) && Enabled(lease, s, MarkWrite(w))
    ensures PhaseOk(Apply(lease, s, MarkWrite(w)), w, Apply(lease, s, MarkWrite(w)).workers[w])
  {
    assert PhaseOk(s, w, s.workers[w]);
  }

  lemma PhasesStayOk(lease: int, s: State, step: Step, w: WorkerId)
    requires Inv(lease, s) && Enabled(lease, s, step) && w in Apply(lease, s, step).workers
    ensures PhaseOk(Apply(lease, s, step), w, Apply(lease, s, step).workers[w])
  {
    var s' := Apply(lease, s, step);
    if s'.workers[w] == s.workers[w] {
      UnmovedPhasesStayOk(lease, s, step, w, s');
    } else if step.MarkWrite? {
      WritersPhasesStayOk(lease, s, w);
    } else if !step.Claim? {
      ReadersPhasesStayOk(lease, s, step, w, s');
    }
  }

  lemma RenewersStayOk(lease: int, s: State, step: Step, id: DispatchId)
    requires Inv(lease, s) && Enabled(lease, s, step) && id in Apply(lease, s, step).renewers
    ensures RenewerOk(Apply(lease, s, step), id, Apply(lease, s, step).renewers[id])
  {
    if id in s.renewers {
      assert RenewerOk(s, id, s.renewers[id]);
      ClaimsStay(lease, s, step, id, s.renewers[id].owner);
    }
    match step {
      case ReadBack(w) => assert PhaseOk(s, w, s.workers[w]);
      case _ =>
    }
  }

  lemma JobsStayExclusive(lease: int, s: State, step: Step)
    requires Inv(lease, s) && Enabled(lease, s, step)
    ensures OneActivePerJob(Apply(lease, s, step).rows)
  {
    var rows := Apply(lease, s, step).rows;
    forall a, b | a in rows && b in rows && a != b && Active(rows[a]) && Active(rows[b])
      ensures rows[a].job != rows[b].job
    {
      ActiveRowOrigin(lease, s, step, a);
      ActiveRowOrigin(lease, s, step, b);
    }
  }

  /** An active row was active before, or is new: then no row that stays active has its job. */
  lemma ActiveRowOrigin(lease: int, s: State, step: Step, id: DispatchId)
    requires Inv(lease, s) && Enabled(lease, s, step)
    requires id in Apply(lease, s, step).rows && Active(Apply(lease, s, step).rows[id])
    ensures id in s.rows ==>
              Active(s.rows[id]) && Apply(lease, s, step).rows[id].job == s.rows[id].job && s.rows[id].job in s.rows
    ensures id !in s.rows ==> RowAppears(s, step, id, Apply(lease, s, step).rows[id])
    ensures id !in s.rows && step.Recover? ==> Active(s.rows[step.id])
    ensures step.Recover? ==> id != step.id
    ensures id !in s.rows && step.Enqueue? ==> id == step.id
  {
    if id in s.rows {
      EachRowEvolvesLegally(lease, s, step, id);
      ShapeStays(lease, s, step, id, Apply(lease, s, step).rows[id]);
      assert RowOk(lease, s.rows, id);
    } else {
      NewRowsAppearLegally(lease, s, step, id);
    }
    if step.Recover? {
      EachRowEvolvesLegally(lease, s, step, step.id);
    }
  }

  lemma AllRowsStayOk(lease: int, s: State, step: Step, s': State)
    requires Inv(lease, s) && Enabled(lease, s, step) && s' == Apply(lease, s, step)
    ensures RowsOk(lease, s')
  {
    forall id | id in s'.rows ensures RowOk(lease, s'.rows, id) { RowsStayOk(lease, s, step, id); }
  }

  lemma AllPhasesStayOk(lease: int, s: State, step: Step, s': State)
    requires Inv(lease, s) && Enabled(lease, s, step) && s' == Apply(lease, s, step)
    ensures PhasesOk(s')
  {
    forall w | w in s'.workers ensures PhaseOk(s', w, s'.workers[w]) { PhasesStayOk(lease, s, step, w); }
  }

  lemma AllRenewersStayOk(lease: int, s: State, step: Step, s': State)
    requires Inv(lease, s) && Enabled(lease, s, step) && s' == Apply(lease, s, step)
    ensures RenewersOk(s')
  {
    forall id | id in s'.renewers ensures RenewerOk(s', id, s'.renewers[id]) { RenewersStayOk(lease, s, step, id); }
  }

  lemma InvStep(lease: int, s: State, step: Step)
    requires Inv(lease, s) && Enabled(lease, s, step)
    ensures Inv(lease, Apply(lease, s, step))
  {
    var s' := Apply(lease, s, step);
    AllRowsStayOk(lease, s, step, s');
    AllPhasesStayOk(lease, s, step, s');
    AllRenewersStayOk(lease, s, step, s');
    JobsStayExclusive(lease, s, step);
  }
}
