/** Safety of the lease protocol over whole runs: every interleaving of workers, recoveries and late renewals. */
module LeaseSafety {
  import opened Prelude
  import opened ScheduleDispatch
  import opened LeaseProtocol

  /** Any interleaving whatsoever, starting from an empty table. */
  ghost predicate IsRun(lease: int, states: seq<State>, steps: seq<Step>) {
    && |states| == |steps| + 1
    && Init(states[0])
    && forall i {:trigger steps[i]} :: 0 <= i < |steps| ==>
         Enabled(lease, states[i], steps[i]) && states[i + 1] == Apply(lease, states[i], steps[i])
  }

  lemma {:induction false} RunsKeepInv(lease: int, states: seq<State>, steps: seq<Step>, i: nat)
    requires IsRun(lease, states, steps) && i < |states|
    ensures Inv(lease, states[i])
  {
    if i == 0 {
      InitHolds(lease, states[0]);
    } else {
      RunsKeepInv(lease, states, steps, i - 1);
      assert states[i] == Apply(lease, states[i - 1], steps[i - 1]);
      InvStep(lease, states[i - 1], steps[i - 1]);
    }
  }

  lemma {:induction false} RowsNeverVanish(
    lease: int, states: seq<State>, steps: seq<Step>, i: nat, j: nat, id: DispatchId)
    requires IsRun(lease, states, steps) && i <= j < |states| && id in states[i].rows
    ensures id in states[j].rows
  {
    if i == j {
    } else {
      RowsNeverVanish(lease, states, steps, i, j - 1, id);
      assert states[j] == Apply(lease, states[j - 1], steps[j - 1]);
      EachRowEvolvesLegally(lease, states[j - 1], steps[j - 1], id);
    }
  }

  /** A completed or failed dispatch never changes again, in any column. */
  lemma {:induction false} TerminalRowsAreFrozen(
    lease: int, states: seq<State>, steps: seq<Step>, i: nat, j: nat, id: DispatchId)
    requires IsRun(lease, states, steps) && i <= j < |states|
    requires id in states[i].rows && Terminal(states[i].rows[id])
    ensures id in states[j].rows && states[j].rows[id] == states[i].rows[id]
  {
    if i == j {
    } else {
      TerminalRowsAreFrozen(lease, states, steps, i, j - 1, id);
      assert states[j] == Apply(lease, states[j - 1], steps[j - 1]);
      EachRowEvolvesLegally(lease, states[j - 1], steps[j - 1], id);
    }
  }

  /** Step `i` takes dispatch `id` out of the queue for good. */
  predicate ClosesAt(states: seq<State>, i: nat, id: DispatchId)
    requires i + 1 < |states|
  {
    && id in states[i].rows && !Terminal(states[i].rows[id])
    && id in states[i + 1].rows && Terminal(states[i + 1].rows[id])
  }

  /** Each dispatch is closed at most once, so it completes at most once. */
  lemma ClosesAtMostOnce(lease: int, states: seq<State>, steps: seq<Step>, i: nat, j: nat, id: DispatchId)
    requires IsRun(lease, states, steps) && i < |steps| && j < |steps|
    requires ClosesAt(states, i, id) && ClosesAt(states, j, id)
    ensures i == j
  {
    if i < j {
      TerminalRowsAreFrozen(lease, states, steps, i + 1, j, id);
    } else if j < i {
      TerminalRowsAreFrozen(lease, states, steps, j + 1, i, id);
    }
  }

  /** The holder's own mark is what closed the dispatch, with the outcome that worker computed. */
  predicate ClosedByHolder(s: State, step: Step, id: DispatchId, row: Dispatch, became: Dispatch) {
    && step.MarkWrite? && HeldBy(row, step.w)
    && step.w in s.workers && s.workers[step.w].Writing? && s.workers[step.w].id == id
    && became.status == (if s.workers[step.w].verdict.Succeed? then Completed else Failed)
    && became.runIds == s.workers[step.w].verdict.runIds
    && became.completedAt == Some(s.now) && became.claimedBy == Some(step.w)
  }

  /** A recovery closed it, and only because the claim had expired before that moment. */
  predicate ClosedByRecovery(s: State, step: Step, id: DispatchId, row: Dispatch, became: Dispatch) {
    && step.Recover? && step.id == id
    && row.claimExpiresAt.Some? && row.claimExpiresAt.value < s.now
    && became.status == Failed && became.failure == Some(ClaimExpired) && became.claimedBy == row.claimedBy
  }

  /** Only the worker holding the claim at that moment, or the recovery of an expired claim, closes a dispatch. */
  lemma OnlyHolderOrExpiryCloses(lease: int, states: seq<State>, steps: seq<Step>, i: nat, id: DispatchId)
    requires IsRun(lease, states, steps) && i < |steps| && ClosesAt(states, i, id)
    ensures var row, became := states[i].rows[id], states[i + 1].rows[id];
            || ClosedByHolder(states[i], steps[i], id, row, became)
            || ClosedByRecovery(states[i], steps[i], id, row, became)
  {
    RunsKeepInv(lease, states, steps, i);
    var s, step := states[i], steps[i];
    EachRowEvolvesLegally(lease, s, step, id);
    match step {
      case MarkWrite(w) => assert PhaseOk(s, w, s.workers[w]);
      case Recover(w, x, _) => assert PhaseOk(s, w, s.workers[w]);
      case _ =>
    }
  }

  /** In no reachable state do two workers hold the same dispatch. */
  lemma OneHolderPerDispatch(
    lease: int, states: seq<State>, steps: seq<Step>, i: nat, v: WorkerId, w: WorkerId)
    requires IsRun(lease, states, steps) && i < |states|
    requires v in states[i].workers && Holding(states[i].workers[v])
    requires w in states[i].workers && Holding(states[i].workers[w])
    requires states[i].workers[v].id == states[i].workers[w].id
    ensures v == w
  {
    RunsKeepInv(lease, states, steps, i);
    assert PhaseOk(states[i], v, states[i].workers[v]);
    assert PhaseOk(states[i], w, states[i].workers[w]);
  }

  /** A mark or renewal concerning dispatch `id`. */
  predicate TouchesFor(s: State, step: Step, id: DispatchId) {
    || (step.CommitRenewal? && step.id == id)
    || ((step.MarkRead? || step.MarkWrite?) && step.w in s.workers && Holding(s.workers[step.w])
      && s.workers[step.w].id == id)
  }

  /**
   * Once a claim has been recovered, whatever its old holder and its renewer still do for that
   * dispatch, however late, leaves the whole table as it is: the next holder is never overwritten.
   */
  lemma RecoveredHolderIsPowerless(
    lease: int, states: seq<State>, steps: seq<Step>, i: nat, j: nat, id: DispatchId)
    requires IsRun(lease, states, steps) && i < j < |steps|
    requires steps[i].Recover? && steps[i].id == id
    requires TouchesFor(states[j], steps[j], id)
    ensures states[j + 1].rows == states[j].rows
  {
    assert states[i + 1] == Apply(lease, states[i], steps[i]);
    assert Terminal(states[i + 1].rows[id]);
    TerminalRowsAreFrozen(lease, states, steps, i + 1, j, id);
    assert states[j + 1] == Apply(lease, states[j], steps[j]);
  }

  /** A mark or renewal for one dispatch never touches another dispatch's row. */
  lemma MarksAndRenewalsAreFramed(lease: int, s: State, step: Step, id: DispatchId, other: DispatchId)
    requires Enabled(lease, s, step) && TouchesFor(s, step, id) && other != id
    ensures var rows := Apply(lease, s, step).rows;
            && (other in rows <==> other in s.rows)
            && (other in rows ==> rows[other] == s.rows[other])
  {
  }

  // ------------------------------------------------------------------ what one worker may rely on

  predicate OthersMayTurn(me: WorkerId, was: Dispatch, became: Dispatch) {
    && (Terminal(was) ==> became == was)
    && (HeldBy(was, me) ==>
          || HeldBy(became, me)
          || (became.status == Failed && became.failure == Some(ClaimExpired) && became.claimedBy == Some(me)))
    && (was.status == Enqueued ==> became.claimedBy != Some(me))
    && (was.status == Running && was.claimedBy != Some(me) ==>
          became.status != Enqueued && became.claimedBy == was.claimedBy)
    && (became.status == Enqueued ==> was.status == Enqueued)
  }

  /** All that other workers, and `me`'s own renewer thread, can do to the table. */
  predicate OthersMayChange(me: WorkerId, before: Table, after: Table) {
    && (forall id :: id in before ==> id in after && OthersMayTurn(me, before[id], after[id]))
    && (forall id :: id in after && id !in before ==> after[id].claimedBy != Some(me))
  }

  predicate ActsAs(step: Step, w: WorkerId) {
    match step
    case Poll(x) => x == w
    case Recover(x, _, _) => x == w
    case Claim(x, _) => x == w
    case ClaimNothing(x) => x == w
    case ReadBack(x) => x == w
    case Finish(x, _) => x == w
    case MarkRead(x) => x == w
    case MarkWrite(x) => x == w
    case Crash(x) => x == w
    case _ => false
  }

  /**
   * Every step of the protocol that `me` does not take is covered by the rely condition, and so is
   * `me`'s own recovery of expired claims.
   */
  lemma OtherStepsKeepRely(lease: int, s: State, step: Step, me: WorkerId)
    requires Inv(lease, s) && Enabled(lease, s, step) && (!ActsAs(step, me) || step.Recover?)
    ensures OthersMayChange(me, s.rows, Apply(lease, s, step).rows)
  {
    var rows := Apply(lease, s, step).rows;
    forall id | id in s.rows ensures id in rows && OthersMayTurn(me, s.rows[id], rows[id]) {
      EachRowEvolvesLegally(lease, s, step, id);
      assert RowOk(lease, s.rows, id);
      if step.MarkWrite? {
        assert PhaseOk(s, step.w, s.workers[step.w]);
      }
    }
    forall id | id in rows && id !in s.rows ensures rows[id].claimedBy != Some(me) {
      NewRowsAppearLegally(lease, s, step, id);
    }
  }

  lemma RelyIsReflexive(lease: int, s: State, me: WorkerId)
    requires Inv(lease, s)
    ensures OthersMayChange(me, s.rows, s.rows)
  {
    forall id | id in s.rows ensures OthersMayTurn(me, s.rows[id], s.rows[id]) {
      assert RowOk(lease, s.rows, id);
    }
  }

  lemma RelyIsTransitive(me: WorkerId, a: Table, b: Table, c: Table)
    requires OthersMayChange(me, a, b) && OthersMayChange(me, b, c)
    ensures OthersMayChange(me, a, c)
  {
    forall id | id in a ensures id in c && OthersMayTurn(me, a[id], c[id]) {
      assert OthersMayTurn(me, a[id], b[id]) && OthersMayTurn(me, b[id], c[id]);
    }
    forall id | id in c && id !in a ensures c[id].claimedBy != Some(me) {
      if id in b {
        assert OthersMayTurn(me, b[id], c[id]);
      }
    }
  }

  /** Any stretch of a run in which `me` takes no step is covered by the rely condition. */
  lemma {:induction false} InterferenceIsRely(
    lease: int, states: seq<State>, steps: seq<Step>, i: nat, j: nat, me: WorkerId)
    requires IsRun(lease, states, steps) && i <= j < |states|
    requires forall k :: i <= k < j ==> !ActsAs(steps[k], me) || steps[k].Recover?
    ensures OthersMayChange(me, states[i].rows, states[j].rows)
  {
    RunsKeepInv(lease, states, steps, i);
    if i == j {
      RelyIsReflexive(lease, states[i], me);
    } else {
      InterferenceIsRely(lease, states, steps, i, j - 1, me);
      RunsKeepInv(lease, states, steps, j - 1);
      assert states[j] == Apply(lease, states[j - 1], steps[j - 1]);
      OtherStepsKeepRely(lease, states[j - 1], steps[j - 1], me);
      RelyIsTransitive(me, states[i].rows, states[j - 1].rows, states[j].rows);
    }
  }
}
