/**
 * The worker side of the lease protocol as the code runs it: the lease renewer thread, the
 * processing of one claimed dispatch and the watch loop. Whatever other workers and the worker's own
 * renewer thread do in the meantime happens in `ControlPlane.Interfere`, which may do anything the
 * rely condition of `LeaseSafety` allows.
 */
module DispatchWorker {
  import opened Prelude
  import opened ScheduleDispatch
  import opened LeaseProtocol
  import opened LeaseSafety

  /** The dispatches worker `me` holds a running claim on. */
  function Held(rows: Table, me: WorkerId): set<DispatchId> {
    set id | id in rows && HeldBy(rows[id], me)
  }

  predicate WellShaped(lease: int, rows: Table) {
    forall id {:trigger rows[id]} :: id in rows ==> RowShape(lease, rows[id])
  }

  lemma NothingMayHappen(lease: int, rows: Table, me: WorkerId)
    requires WellShaped(lease, rows)
    ensures OthersMayChange(me, rows, rows)
  {
  }

  /** Interference can take claims away from a worker, but never hands it one. */
  lemma InterferenceGivesNoClaims(me: WorkerId, before: Table, after: Table)
    requires OthersMayChange(me, before, after)
    ensures Held(after, me) <= Held(before, me)
  {
    forall id | id in Held(after, me) ensures id in Held(before, me) {
      assert id in before && OthersMayTurn(me, before[id], after[id]);
    }
  }

  /** `me` itself touched no row but `id`'s. */
  ghost predicate OtherRowsFramed(me: WorkerId, id: DispatchId, before: Table, after: Table) {
    && (forall x :: x in before && x != id ==> x in after && OthersMayTurn(me, before[x], after[x]))
    && (forall x :: x in after && x !in before ==> after[x].claimedBy != Some(me))
  }

  lemma FramesCompose(me: WorkerId, id: DispatchId, a: Table, b: Table, c: Table)
    requires id in a && id in b && OtherRowsFramed(me, id, a, b) && OtherRowsFramed(me, id, b, c)
    ensures OtherRowsFramed(me, id, a, c)
  {
    forall x | x in a && x != id ensures x in c && OthersMayTurn(me, a[x], c[x]) {
      assert OthersMayTurn(me, a[x], b[x]) && OthersMayTurn(me, b[x], c[x]);
    }
    forall x | x in c && x !in a ensures c[x].claimedBy != Some(me) {
      if x in b {
        assert OthersMayTurn(me, b[x], c[x]);
      }
    }
  }

  /**
   * The other half of the bargain: a claim, renewal or closing of `me`'s is, to every other worker, a change
   * its own rely condition allows.
   */
  lemma OwnUpdatesKeepOthersRely(
    lease: int, rows: Table, id: DispatchId, me: WorkerId, other: WorkerId, became: Dispatch, at: real,
    seen: Dispatch, verdict: Verdict)
    requires WellShaped(lease, rows) && id in rows && me != other
    requires || (rows[id].status == Enqueued && became == Claimed(rows[id], me, at, lease))
             || (HeldBy(rows[id], me) && became == Renewed(rows[id], at, lease))
             || (HeldBy(rows[id], me) && HeldBy(seen, me) && became == Closed(rows[id], seen, verdict, at))
    ensures OthersMayChange(other, rows, rows[id := became]) && WellShaped(lease, rows[id := became])
  {
    assert RowShape(lease, rows[id]);
  }

  /**
   * They are the protocol's own steps: from where the thread stands, the step is enabled and does to the table
   * what `ClaimNext`, `Renew` and the update of `Mark` promise, rejections included.
   */
  lemma OwnUpdatesAreSteps(lease: int, s: State, id: DispatchId, me: WorkerId, at: real)
    requires id in s.rows && me in s.workers
    ensures s.workers[me] == Polling(at) && id in Queue(s.rows) ==>
              && Enabled(lease, s, Claim(me, id))
              && var s' := Apply(lease, s, Claim(me, id));
                 s'.rows == s.rows[id := Claimed(s.rows[id], me, at, lease)] && s'.workers[me] == Reread(id, at)
    ensures id in s.renewers && s.renewers[id].owner == me && s.renewers[id].phase == Stamped(at) ==>
              && Enabled(lease, s, CommitRenewal(id))
              && var s' := Apply(lease, s, CommitRenewal(id));
                 && s'.rows == (if HeldBy(s.rows[id], me) then s.rows[id := Renewed(s.rows[id], at, lease)] else s.rows)
                 && (s'.renewers[id].phase.Finished? <==> !HeldBy(s.rows[id], me))
    ensures s.workers[me].Closing? && s.workers[me].id == id ==>
              && Enabled(lease, s, MarkRead(me))
              && var s', p := Apply(lease, s, MarkRead(me)), s.workers[me];
                 && s'.rows == s.rows
                 && (HeldBy(s.rows[id], me) ==> s'.workers[me] == Writing(id, p.verdict, s.rows[id], p.since))
                 && (!HeldBy(s.rows[id], me) ==> s'.workers[me] == AfterRejectedMark(id, p.verdict, p.since))
    ensures s.workers[me].Writing? && s.workers[me].id == id ==>
              && Enabled(lease, s, MarkWrite(me))
              && var s', p := Apply(lease, s, MarkWrite(me)), s.workers[me];
                 && (HeldBy(s.rows[id], me) ==>
                       s'.rows == s.rows[id := Closed(s.rows[id], p.seen, p.verdict, s.now)])
                 && (!HeldBy(s.rows[id], me) ==>
                       s'.rows == s.rows && s'.workers[me] == AfterRejectedMark(id, p.verdict, p.since))
  {
  }

  /** One call of `claim_next_schedule_dispatch`: what was queued, what was locked, what was claimed. */
  datatype Attempt = Attempt(queued: set<DispatchId>, locked: set<DispatchId>, claimed: Option<DispatchId>)

  /** An enqueued row that is not locked, before every other such row by enqueue time and id. */
  predicate HeadOfQueue(rows: Table, locked: set<DispatchId>, id: DispatchId) {
    && id in rows && rows[id].status == Enqueued && id !in locked
    && forall x :: x in rows && x != id && rows[x].status == Enqueued && x !in locked ==>
         rows[id].enqueuedAt < rows[x].enqueuedAt
         || (rows[id].enqueuedAt == rows[x].enqueuedAt && Text.Less(id, x))
  }

  lemma FirstIsHead(rows: Table, locked: set<DispatchId>, id: DispatchId)
    requires First(Queue(rows) - locked, id)
    ensures HeadOfQueue(rows, locked, id)
  {
    var open := Queue(rows) - locked;
    forall x | x in rows && x != id && rows[x].status == Enqueued && x !in locked ensures Earlier(open, id, x) {
      assert x in open;
    }
  }

  lemma NothingOpen(rows: Table, locked: set<DispatchId>)
    ensures Queue(rows) - locked == map[] <==>
            forall x :: x in rows && rows[x].status == Enqueued ==> x in locked
  {
    var open := Queue(rows) - locked;
    forall x ensures x in open <==> x in rows && rows[x].status == Enqueued && x !in locked {}
    if open != map[] { var x :| x in open; }
  }

  /** The control-plane store: the shared table, each method one or two transactions on it. */
  class ControlPlane {
    const lease: int
    var rows: Table

    /** The claims this process has asked for. */
    ghost var attempts: seq<Attempt>

    /** The dispatches whose claims this process got renewed. */
    ghost var granted: seq<DispatchId>

    ghost predicate Valid() reads this { WellShaped(lease, rows) }

    constructor (lease: int)
      ensures Valid() && rows == map[] && this.lease == lease && attempts == [] && granted == []
    {
      this.lease := lease;
      rows, attempts, granted := map[], [], [];
    }

    /** Any number of steps of other workers and of `me`'s renewer thread. */
    method Interfere(me: WorkerId)
      requires Valid()
      modifies this`rows
      ensures Valid() && OthersMayChange(me, old(rows), rows)
    {
      NothingMayHappen(lease, rows, me);
      var after :| OthersMayChange(me, rows, after) && WellShaped(lease, after);
      rows := after;
    }

    /**
     * `claim_next_schedule_dispatch`'s claim: the first enqueued row in the order of the queue, the rows that
     * other transactions have locked being skipped.
     */
    method ClaimNext(me: WorkerId, at: real, locked: set<DispatchId>) returns (claimed: Option<DispatchId>)
      requires Valid()
      modifies this`rows, this`attempts
      ensures Valid()
      ensures claimed.None? <==> Queue(old(rows)) - locked == map[]
      ensures claimed.None? <==> forall x :: x in old(rows) && old(rows)[x].status == Enqueued ==> x in locked
      ensures claimed.None? ==> rows == old(rows)
      ensures claimed.Some? ==> HeadOfQueue(old(rows), locked, claimed.value)
      ensures claimed.Some? ==>
                var id, row := claimed.value, old(rows)[claimed.value];
                rows == old(rows)[id := row.(
                  status := Running, startedAt := if row.startedAt == None then Some(at) else row.startedAt,
                  completedAt := None, failure := None,
                  claimedBy := Some(me), claimedAt := Some(at), claimExpiresAt := Some(at + lease as real))]
      ensures claimed.Some? ==>
                var id := claimed.value;
                && First(Queue(old(rows)) - locked, id)
                && rows == old(rows)[id := Claimed(old(rows)[id], me, at, lease)]
      ensures attempts == old(attempts) + [Attempt(Queue(old(rows)).Keys, locked, claimed)]
    {
      var open := Queue(rows) - locked;
      claimed := None;
      ghost var queued := Queue(rows).Keys;
      NothingOpen(rows, locked);
      if open != map[] {
        ghost var first := FirstExists(open);
        var id :| id in open && First(open, id);
        FirstIsHead(rows, locked, id);
        rows := rows[id := Claimed(rows[id], me, at, lease)];
        claimed := Some(id);
      }
      attempts := attempts + [Attempt(queued, locked, claimed)];
    }

    /** `renew_schedule_dispatch_claim`. */
    method Renew(id: DispatchId, me: WorkerId, at: real) returns (renewed: Result<Dispatch, string>)
      requires Valid() && id in rows
      modifies this`rows, this`granted
      ensures Valid() && renewed.Ok? == HeldBy(old(rows)[id], me)
      ensures rows == if renewed.Ok? then old(rows)[id := Renewed(old(rows)[id], at, lease)] else old(rows)
      ensures renewed.Ok? ==>
                rows[id] == old(rows)[id].(claimedAt := Some(at), claimExpiresAt := Some(at + lease as real))
      ensures granted == old(granted) + if renewed.Ok? then [id] else []
    {
      if !HeldBy(rows[id], me) { return Err("Schedule dispatch lease can only be renewed by the claiming worker"); }
      rows := rows[id := Renewed(rows[id], at, lease)];
      granted := granted + [id];
      return Ok(rows[id]);
    }

    /**
     * `mark_schedule_dispatch_status` with the expectations the worker passes: a read in one
     * transaction, the conditional update in a second one.
     */
    method Mark(id: DispatchId, verdict: Verdict, me: WorkerId, at: real) returns (marked: Result<Dispatch, string>)
      requires Valid() && ClaimedOnceBy(rows, id, me)
      modifies this`rows
      ensures Valid() && ClaimedOnceBy(rows, id, me) && Terminal(rows[id])
      ensures Terminal(old(rows)[id]) ==> rows[id] == old(rows)[id]
      ensures marked.Ok? ==>
                && HeldBy(old(rows)[id], me)
                && rows[id].status == (if verdict.Succeed? then Completed else Failed)
                && rows[id].runIds == verdict.runIds && rows[id].completedAt == Some(at)
                && rows[id].failure == (if verdict.Succeed? then None else Some(ProcessingError(verdict.reason)))
      ensures marked.Err? ==> !HeldBy(rows[id], me) && (rows[id] == old(rows)[id] || rows[id].status == Failed)
      ensures marked.Err? && HeldBy(old(rows)[id], me) ==> rows[id].failure == Some(ClaimExpired)
      ensures OtherRowsFramed(me, id, old(rows), rows)
    {
      var seen := rows[id];
      if !HeldBy(seen, me) { NothingMayHappen(lease, rows, me); return Err("Schedule dispatch changed before update"); }
      Interfere(me);
      assert OthersMayTurn(me, old(rows)[id], rows[id]);
      if !HeldBy(rows[id], me) { return Err("Schedule dispatch could not be updated"); }
      rows := rows[id := Closed(rows[id], seen, verdict, at)];
      return Ok(rows[id]);
    }
  }

  /** What `_error` can hold: the store refused the renewal, or the database or the heartbeat raised. */
  datatype RenewalError = Rejected | Broken

  /**
   * What one wake-up of the renewer meets: whether its renewal gets to the store and back, and its heartbeat through.
   */
  datatype Line = Line(sent: bool, answered: bool, heartbeat: bool)

  /** `_ScheduleDispatchLeaseRenewer`: the thread that keeps one claim alive. */
  class LeaseRenewer {
    const store: ControlPlane
    const id: DispatchId
    const owner: WorkerId
    var stopped: bool
    var error: Option<RenewalError>
    var renewals: nat

    constructor (store: ControlPlane, id: DispatchId, owner: WorkerId)
      ensures this.store == store && this.id == id && this.owner == owner && !stopped && error.None? && renewals == 0
    {
      this.store, this.id, this.owner := store, id, owner;
      stopped, error, renewals := false, None, 0;
    }

    /** One wake-up: a renewal and the heartbeat after it. */
    method WakeUp(line: Line)
      requires store.Valid() && ClaimedOnceBy(store.rows, id, owner) && !stopped && error.None?
      modifies this, store`rows, store`granted
      ensures store.Valid() && ClaimedOnceBy(store.rows, id, owner)
      ensures OthersMayChange(owner, old(store.rows), store.rows)
      ensures stopped <==> error.Some?
      ensures error == Some(Rejected) ==> line.sent && line.answered && !HeldBy(store.rows[id], owner)
      ensures error == Some(Broken) <==> !line.sent || !line.answered || (error != Some(Rejected) && !line.heartbeat)
      ensures renewals == old(renewals) + Once(line.sent && line.answered && error != Some(Rejected))
      ensures line.sent && line.answered && error != Some(Rejected) ==> store.granted == old(store.granted) + [id]
    {
      store.Interfere(owner);
      ghost var mid := store.rows;
      assert OthersMayTurn(owner, old(store.rows)[id], mid[id]);
      var renewedAt: real := *;
      var renewed: Result<Dispatch, string> := Err("The database did not get the renewal");
      NothingMayHappen(store.lease, mid, owner);
      if line.sent { renewed := store.Renew(id, owner, renewedAt); }
      RelyIsTransitive(owner, old(store.rows), mid, store.rows);
      if !line.sent || !line.answered {
        error, stopped := Some(Broken), true;
      } else if renewed.Err? {
        error, stopped := Some(Rejected), true;
      } else {
        renewals := renewals + 1;
        if !line.heartbeat { error, stopped := Some(Broken), true; }
      }
    }

    /**
     * The thread body; one interval for each of `lines` passes before the stop request is seen. It renews
     * the claim at each wake-up until something goes wrong, gives up at the first error, and a rejected
     * renewal means that the claim is gone for good. After any other error the claim may still be held. To
     * its own worker the thread is covered by the rely condition.
     */
    method Run(lines: seq<Line>)
      requires store.Valid() && ClaimedOnceBy(store.rows, id, owner) && !stopped && error.None? && renewals == 0
      modifies this, store`rows, store`granted
      ensures store.Valid() && OthersMayChange(owner, old(store.rows), store.rows)
      ensures stopped && renewals <= |lines|
      ensures forall k :: 0 <= k < renewals ==> lines[k].sent && lines[k].answered
      ensures error.None? ==>
                && renewals == |lines| && (forall k :: 0 <= k < |lines| ==> lines[k].heartbeat)
                && store.granted == old(store.granted) + seq(renewals, _ => id)
      ensures error == Some(Rejected) ==>
                && renewals < |lines| && lines[renewals].sent && lines[renewals].answered
                && id in store.rows && !HeldBy(store.rows[id], owner)
      ensures error == Some(Broken) ==>
                || (renewals < |lines| && !(lines[renewals].sent && lines[renewals].answered))
                || (renewals > 0 && !lines[renewals - 1].heartbeat)
    {
      var woken := 0;
      NothingMayHappen(store.lease, store.rows, owner);
      while woken < |lines| && !stopped
        invariant store.Valid() && ClaimedOnceBy(store.rows, id, owner)
        invariant OthersMayChange(owner, old(store.rows), store.rows)
        invariant renewals <= woken <= |lines| && forall k :: 0 <= k < renewals ==> lines[k].sent && lines[k].answered
        invariant stopped <==> error.Some?
        invariant error.None? ==>
                    && renewals == woken && (forall k :: 0 <= k < woken ==> lines[k].heartbeat)
                    && store.granted == old(store.granted) + seq(renewals, _ => id)
        invariant error == Some(Rejected) ==>
                    && renewals < |lines| && lines[renewals].sent && lines[renewals].answered
                    && !HeldBy(store.rows[id], owner)
        invariant error == Some(Broken) ==>
                    || (renewals < |lines| && !(lines[renewals].sent && lines[renewals].answered))
                    || (renewals > 0 && !lines[renewals - 1].heartbeat)
        decreases |lines| - woken
      {
        ghost var start := store.rows;
        WakeUp(lines[woken]);
        RelyIsTransitive(owner, old(store.rows), start, store.rows);
        woken := woken + 1;
      }
      stopped := true;
    }
  }

  // ------------------------------------------------------------------ one worker process

  /** `pollsLeft` is how many more times the shutdown event reads unset; `None` if it is never set. */
  class ShutdownEvent {
    var pollsLeft: Option<nat>

    constructor (pollsLeft: Option<nat>)
      ensures this.pollsLeft == pollsLeft
    {
      this.pollsLeft := pollsLeft;
    }

    method IsSet() returns (b: bool)
      modifies this
      ensures b <==> old(pollsLeft) == Some(0)
      ensures pollsLeft == if old(pollsLeft).Some? && old(pollsLeft).value > 0
                           then Some(old(pollsLeft).value - 1) else old(pollsLeft)
    {
      b := pollsLeft == Some(0);
      if pollsLeft.Some? && !b {
        pollsLeft := Some(pollsLeft.value - 1);
      }
    }
  }

  /**
   * What one iteration of the watch loop meets: the rows locked by others, what processing the claimed
   * dispatch comes to, with the run ids and message of an error, and whether the lease renewer has failed.
   */
  datatype Turn = Turn(
    locked: set<DispatchId>, processing: Result<seq<string>, (seq<string>, string)>, renewalFailed: bool)

  datatype Event =
    | Claiming(id: DispatchId)
    | Processed(id: DispatchId, exitCode: int)
    | BackedUp(held: set<DispatchId>)
    | Idle
    | Stopped

  /**
   * A claim is followed at once by the processing of that very dispatch, nothing else processes, and
   * a backup finds no running claim of this worker.
   */
  predicate Orderly(log: seq<Event>)
    decreases |log|
  {
    if log == [] then true
    else
      match log[|log| - 1]
      case Claiming(_) => false
      case Processed(id, code) =>
        && (code == 0 || code == 1)
        && |log| >= 2 && log[|log| - 2] == Claiming(id) && Orderly(log[..|log| - 2])
      case BackedUp(held) => held == {} && Orderly(log[..|log| - 1])
      case Idle => Orderly(log[..|log| - 1])
      case Stopped => Orderly(log[..|log| - 1])
  }

  /** The exit code reported for each processed dispatch is what the table says about it. */
  ghost predicate CodesMatchTable(log: seq<Event>, rows: Table, me: WorkerId) {
    forall e :: e in log && e.Processed? ==>
      && e.id in rows && rows[e.id].claimedBy == Some(me)
      && (e.exitCode == 0 <==> rows[e.id].status == Completed)
      && (e.exitCode == 1 <==> rows[e.id].status == Failed)
  }

  predicate SomeFailure(log: seq<Event>) {
    exists e :: e in log && e.Processed? && e.exitCode == 1
  }

  /** The dispatches claimed, in order. */
  function Claims(log: seq<Event>): seq<DispatchId> {
    if log == [] then []
    else
      var last := log[|log| - 1];
      Claims(log[..|log| - 1]) + if last.Claiming? then [last.id] else []
  }

  function Idles(log: seq<Event>): nat {
    if log == [] then 0 else Idles(log[..|log| - 1]) + Once(log[|log| - 1].Idle?)
  }

  lemma {:induction false} OneMoreEvent(log: seq<Event>, e: Event)
    ensures Claims(log + [e]) == Claims(log) + if e.Claiming? then [e.id] else []
    ensures Idles(log + [e]) == Idles(log) + Once(e.Idle?)
  {
    assert (log + [e])[..|log|] == log;
  }

  /** The dispatches the store handed out, in order. */
  function Won(attempts: seq<Attempt>): seq<DispatchId> {
    if attempts == [] then []
    else
      var last := attempts[|attempts| - 1];
      Won(attempts[..|attempts| - 1]) + if last.claimed.Some? then [last.claimed.value] else []
  }

  const RENEWAL_FAILED := "Schedule dispatch lease renewal failed."

  /** How a dispatch ended: recovered by expiry, or as its processing and its lease renewer say. */
  predicate EndedAs(row: Dispatch, turn: Turn) {
    || (row.status == Failed && row.failure == Some(ClaimExpired))
    || (match turn.processing
        case Ok(runIds) =>
          && row.runIds == runIds && row.status == (if turn.renewalFailed then Failed else Completed)
          && row.failure == (if turn.renewalFailed then Some(ProcessingError(RENEWAL_FAILED)) else None)
        case Err((runIds, message)) =>
          row.status == Failed && row.runIds == runIds && row.failure == Some(ProcessingError(message)))
  }

  /** The attempt claims exactly when something queued is not locked, and what it claims ends as its turn says. */
  predicate Settled(a: Attempt, turn: Turn, rows: Table) {
    && a.locked == turn.locked && (a.claimed.None? <==> a.queued <= a.locked)
    && (a.claimed.Some? ==>
          && a.claimed.value in a.queued - a.locked && a.claimed.value in rows
          && EndedAs(rows[a.claimed.value], turn))
  }

  ghost predicate AllSettled(attempts: seq<Attempt>, turns: nat -> Turn, rows: Table) {
    forall k: nat {:trigger attempts[k]} :: k < |attempts| ==> Settled(attempts[k], turns(k), rows)
  }

  /**
   * One attempt and what came of it: what is claimed is the head of the open queue, it is logged with the
   * outcome of its processing unless it was lost, and ends as its turn says.
   */
  ghost predicate Answered(
    before: Table, a: Attempt, turn: Turn, after: Table, log: seq<Event>, log': seq<Event>,
    outcome: Option<Result<int, string>>)
  {
    && a.queued == Queue(before).Keys && a.locked == turn.locked && (a.claimed.None? <==> outcome.None?)
    && (a.claimed.None? ==> log' == log && Queue(before) - turn.locked == map[])
    && (a.claimed.Some? ==>
          && First(Queue(before) - turn.locked, a.claimed.value)
          && (outcome.value.Err? ==> log' == log + [Claiming(a.claimed.value)])
          && (outcome.value.Ok? ==>
                && log' == log + [Claiming(a.claimed.value), Processed(a.claimed.value, outcome.value.value)]
                && a.claimed.value in after && EndedAs(after[a.claimed.value], turn)))
  }

  lemma {:induction false} OneMoreAttempt(
    asked: seq<Attempt>, attempts: seq<Attempt>, turns: nat -> Turn, before: Table, after: Table, log: seq<Event>,
    log': seq<Event>, outcome: Option<Result<int, string>>)
    requires |attempts| == |asked| + 1 && attempts[..|asked|] == asked
    requires Answered(before, attempts[|asked|], turns(|asked|), after, log, log', outcome)
    requires Claims(log) == Won(asked)
    requires AllSettled(asked, turns, before) && ClosedRowsStay(before, after)
    ensures Claims(log') == Won(attempts) && Idles(log') == Idles(log)
    ensures |Claims(log')| == |Claims(log)| + Once(outcome.Some?)
    ensures AllSettled(asked, turns, after)
    ensures (outcome.Some? ==> outcome.value.Ok?) ==> AllSettled(attempts, turns, after)
  {
    var a := attempts[|asked|];
    SettledStays(asked, turns, before, after);
    if a.claimed.Some? {
      var id := a.claimed.value;
      OneMoreEvent(log, Claiming(id));
      if outcome.value.Ok? {
        OneMoreEvent(log + [Claiming(id)], Processed(id, outcome.value.value));
        assert log' == log + [Claiming(id)] + [Processed(id, outcome.value.value)];
      }
    }
    if outcome.Some? ==> outcome.value.Ok? {
      AnsweredIsSettled(before, a, turns(|asked|), after, log, log', outcome);
      SettledOneMore(asked, attempts, turns, after);
    }
  }

  lemma SettledOneMore(asked: seq<Attempt>, attempts: seq<Attempt>, turns: nat -> Turn, rows: Table)
    requires |attempts| == |asked| + 1 && attempts[..|asked|] == asked
    requires AllSettled(asked, turns, rows) && Settled(attempts[|asked|], turns(|asked|), rows)
    ensures AllSettled(attempts, turns, rows)
  {
    forall k: nat | k < |attempts| ensures Settled(attempts[k], turns(k), rows) {
      if k < |asked| { assert attempts[k] == asked[k] && Settled(asked[k], turns(k), rows); }
    }
  }

  lemma AnsweredIsSettled(
    before: Table, a: Attempt, turn: Turn, after: Table, log: seq<Event>, log': seq<Event>,
    outcome: Option<Result<int, string>>)
    requires Answered(before, a, turn, after, log, log', outcome)
    requires outcome.Some? ==> outcome.value.Ok?
    ensures Settled(a, turn, after)
  {
    if a.claimed.None? {
      forall x | x in a.queued ensures x in a.locked { assert x in a.locked || x in Queue(before) - a.locked; }
    }
  }

  lemma {:induction false} RestingClaimsNothing(log: seq<Event>)
    ensures Claims(log + [Idle]) == Claims(log + [BackedUp({}), Idle]) == Claims(log)
    ensures Idles(log + [Idle]) == Idles(log + [BackedUp({}), Idle]) == Idles(log) + 1
  {
    OneMoreEvent(log, Idle);
    OneMoreEvent(log, BackedUp({}));
    OneMoreEvent(log + [BackedUp({})], Idle);
    assert log + [BackedUp({}), Idle] == log + [BackedUp({})] + [Idle];
  }

  /** No closed row is touched. */
  predicate ClosedRowsStay(before: Table, after: Table) {
    forall x :: x in before && Terminal(before[x]) ==> x in after && after[x] == before[x]
  }

  lemma SettledStays(attempts: seq<Attempt>, turns: nat -> Turn, before: Table, after: Table)
    requires AllSettled(attempts, turns, before) && ClosedRowsStay(before, after)
    ensures AllSettled(attempts, turns, after)
  {
    forall k: nat | k < |attempts| ensures Settled(attempts[k], turns(k), after) {
      assert Settled(attempts[k], turns(k), before);
    }
  }

  lemma InterferenceKeepsClosedRows(me: WorkerId, before: Table, after: Table)
    requires OthersMayChange(me, before, after)
    ensures ClosedRowsStay(before, after)
  {
    forall x | x in before && Terminal(before[x]) ensures x in after && after[x] == before[x] {
      assert OthersMayTurn(me, before[x], after[x]);
    }
  }

  lemma FramesKeepClosedRows(me: WorkerId, id: DispatchId, before: Table, after: Table)
    requires OtherRowsFramed(me, id, before, after) && (id in before ==> !Terminal(before[id]))
    ensures ClosedRowsStay(before, after)
  {
    forall x | x in before && Terminal(before[x]) ensures x in after && after[x] == before[x] {
      assert OthersMayTurn(me, before[x], after[x]);
    }
  }

  lemma CodesStayTrue(log: seq<Event>, before: Table, after: Table, me: WorkerId)
    requires CodesMatchTable(log, before, me) && OthersMayChange(me, before, after)
    requires forall e :: e in log && e.Processed? ==> e.exitCode == 0 || e.exitCode == 1
    ensures CodesMatchTable(log, after, me)
  {
    forall e | e in log && e.Processed?
      ensures e.id in after && after[e.id] == before[e.id]
    {
      assert OthersMayTurn(me, before[e.id], after[e.id]);
    }
  }

  class Watcher {
    const me: WorkerId
    const store: ControlPlane
    var iterations: nat
    var log: seq<Event>

    constructor (me: WorkerId, store: ControlPlane)
      ensures this.me == me && this.store == store && iterations == 0 && log == []
    {
      this.me, this.store := me, store;
      iterations, log := 0, [];
    }

    /**
     * `_process_schedule_dispatch` for a dispatch that was just claimed. The outcome stored is the one that
     * processing gave, unless the claim expired, and the exit code tells exactly how the dispatch ended,
     * whoever ended it; the only way to raise is to have lost the claim between the claim's commit and
     * reading it back.
     */
    method Process(id: DispatchId, turn: Turn) returns (exit: Result<int, string>)
      requires store.Valid() && ClaimedOnceBy(store.rows, id, me)
      modifies store`rows
      ensures store.Valid() && ClaimedOnceBy(store.rows, id, me) && Terminal(store.rows[id])
      ensures exit.Ok? ==>
                && (exit.value == 0 || exit.value == 1)
                && (exit.value == 0 <==> store.rows[id].status == Completed)
                && (exit.value == 1 <==> store.rows[id].status == Failed)
      ensures exit == Ok(0) ==>
                && turn.processing.Ok? && !turn.renewalFailed
                && store.rows[id].runIds == turn.processing.value && store.rows[id].failure == None
      ensures exit == Ok(1) && store.rows[id].failure != Some(ClaimExpired) ==>
                && (turn.processing.Ok? ==>
                      && turn.renewalFailed && store.rows[id].runIds == turn.processing.value
                      && store.rows[id].failure == Some(ProcessingError("Schedule dispatch lease renewal failed.")))
                && (turn.processing.Err? ==>
                      && store.rows[id].runIds == turn.processing.error.0
                      && store.rows[id].failure == Some(ProcessingError(turn.processing.error.1)))
      ensures exit.Err? && HeldBy(old(store.rows)[id], me) ==> store.rows[id].failure == Some(ClaimExpired)
      ensures Terminal(old(store.rows)[id]) ==> store.rows[id] == old(store.rows)[id]
      ensures OtherRowsFramed(me, id, old(store.rows), store.rows)
    {
      ghost var r0 := store.rows;
      store.Interfere(me);
      ghost var r1 := store.rows;
      assert OthersMayTurn(me, r0[id], r1[id]);
      if !HeldBy(store.rows[id], me) { return Err("Schedule dispatch must be claimed by worker"); }

      // Ingestion and promotion, with the renewer thread and everybody else running alongside.
      store.Interfere(me);
      ghost var r2 := store.rows;
      RelyIsTransitive(me, r0, r1, r2);
      assert OthersMayTurn(me, r1[id], r2[id]);

      var verdict := match turn.processing
        case Ok(runIds) =>
          if turn.renewalFailed then Fail(runIds, RENEWAL_FAILED) else Succeed(runIds)
        case Err((runIds, message)) => Fail(runIds, message);
      var now: real := *;
      if verdict.Succeed? {
        var completed := store.Mark(id, verdict, me, now);
        if completed.Ok? { FramesCompose(me, id, r0, r2, store.rows); return Ok(0); }
        verdict := Downgraded(verdict);
      }
      ghost var r3 := store.rows;
      FramesCompose(me, id, r0, r2, r3);
      var failed := store.Mark(id, verdict, me, now);
      FramesCompose(me, id, r0, r3, store.rows);
      return Ok(1);
    }

    ghost predicate Quiet()
      reads this, store
    {
      && store.Valid() && Held(store.rows, me) == {}
      && Orderly(log) && CodesMatchTable(log, store.rows, me)
    }

    /** What everybody does between two of this worker's own steps, its own recovery and enqueueing included. */
    method LetOthersRun()
      requires Quiet()
      modifies store`rows
      ensures Quiet() && ClosedRowsStay(old(store.rows), store.rows)
    {
      ghost var before := store.rows;
      store.Interfere(me);
      InterferenceGivesNoClaims(me, before, store.rows);
      InterferenceKeepsClosedRows(me, before, store.rows);
      OrderlyCodes(log);
      CodesStayTrue(log, before, store.rows, me);
    }

    /**
     * `_watch_schedule_dispatches`. It asks for a claim once in every iteration that no shutdown request
     * cuts short, processes each dispatch it is given, and leaves it as that iteration's processing said,
     * unless its claim expired. It ends at a shutdown request or `max_iterations`, returns 1 exactly when
     * some dispatch it processed ended up failed in the table, backs up only while holding no running
     * claim, and holds none when it returns. It raises only for a claim lost before it was read back.
     */
    method Watch(shutdown: ShutdownEvent, maxIterations: Option<int>, backups: bool, turns: nat -> Turn)
      returns (exit: Result<int, string>)
      requires Quiet() && iterations == 0 && log == [] && store.attempts == []
      requires maxIterations.Some? || shutdown.pollsLeft.Some?
      modifies this, store, shutdown
      ensures exit.Ok? ==> Quiet() && (exit.value == 1 <==> SomeFailure(log)) && (exit.value == 0 || exit.value == 1)
      ensures exit.Err? ==> LostLastClaim()
      ensures maxIterations.Some? ==> iterations <= if maxIterations.value < 1 then 1 else maxIterations.value
      ensures exit.Ok? ==>
                || shutdown.pollsLeft == Some(0)
                || (maxIterations.Some? && 1 <= iterations && maxIterations.value <= iterations)
      ensures exit.Ok? ==>
                || |store.attempts| == iterations
                || (|store.attempts| == iterations - 1 && shutdown.pollsLeft == Some(0))
      ensures exit.Err? ==>
                |store.attempts| == iterations + 1 && AllSettled(store.attempts[..iterations], turns, store.rows)
      ensures Claims(log) == Won(store.attempts)
      ensures exit.Ok? ==> AllSettled(store.attempts, turns, store.rows) && iterations == |Claims(log)| + Idles(log)
    {
      var observedFailure := false;
      while true
        invariant Kept(turns) && |store.attempts| == iterations
        invariant observedFailure <==> SomeFailure(log)
        invariant maxIterations.Some? ==> iterations == 0 || iterations < maxIterations.value
        invariant maxIterations.None? ==> shutdown.pollsLeft.Some?
        decreases if maxIterations.Some? && maxIterations.value >= 1 then maxIterations.value - iterations else 0,
                  if maxIterations.None? then shutdown.pollsLeft.value + 1 else if iterations == 0 then 1 else 0
      {
        var stopping := shutdown.IsSet();
        if stopping {
          OneMoreEvent(log, Stopped);
          Record(Stopped);
          return Ok(if observedFailure then 1 else 0);
        }
        var outcome;
        outcome, stopping := Iterate(shutdown, backups, turns);
        if outcome.Err? { return outcome; }
        observedFailure := observedFailure || outcome.value != 0;
        if stopping || (maxIterations.Some? && iterations >= maxIterations.value) {
          return Ok(if observedFailure then 1 else 0);
        }
      }
    }

    /** What was claimed is what the store handed out, and it ended as its turn says. */
    ghost predicate Kept(turns: nat -> Turn)
      reads this, store
    {
      && Quiet() && Claims(log) == Won(store.attempts)
      && AllSettled(store.attempts, turns, store.rows) && iterations == |Claims(log)| + Idles(log)
    }

    /** The body of the loop, behind the test for shutdown: a dispatch is processed, or the worker is idle. */
    method Iterate(shutdown: ShutdownEvent, backups: bool, turns: nat -> Turn)
      returns (outcome: Result<int, string>, stopping: bool)
      requires Kept(turns) && |store.attempts| == iterations
      modifies this`log, this`iterations, store, shutdown
      ensures old(shutdown.pollsLeft).None? ==> shutdown.pollsLeft.None?
      ensures old(shutdown.pollsLeft).Some? ==>
                shutdown.pollsLeft.Some? && shutdown.pollsLeft.value <= old(shutdown.pollsLeft).value
      ensures outcome.Err? ==>
                && LostLastClaim() && Claims(log) == Won(store.attempts)
                && iterations == old(iterations) && |store.attempts| == iterations + 1
                && AllSettled(store.attempts[..iterations], turns, store.rows)
      ensures outcome.Ok? ==>
                && Kept(turns) && iterations == old(iterations) + 1 && (outcome.value == 0 || outcome.value == 1)
                && (SomeFailure(log) <==> SomeFailure(old(log)) || outcome.value == 1)
      ensures outcome.Ok? && !stopping ==> |store.attempts| == iterations
      ensures outcome.Ok? && stopping ==>
                shutdown.pollsLeft == Some(0) && (|store.attempts| == iterations || |store.attempts| == iterations - 1)
    {
      ghost var events := log;
      var claimed := Attend(shutdown, turns);
      stopping := false;
      if claimed.Some? {
        outcome := claimed.value;
        if outcome.Ok? { iterations := iterations + 1; }
      } else {
        stopping := Rest(shutdown, backups);
        RestingClaimsNothing(events);
        outcome, iterations := Ok(0), iterations + 1;
      }
    }

    /** The attempt of one iteration, among the others' work. */
    method Attend(shutdown: ShutdownEvent, turns: nat -> Turn) returns (claimed: Option<Result<int, string>>)
      requires Kept(turns) && |store.attempts| == iterations
      modifies this`log, store, shutdown
      ensures old(shutdown.pollsLeft).None? ==> shutdown.pollsLeft.None?
      ensures old(shutdown.pollsLeft).Some? ==>
                shutdown.pollsLeft.Some? && shutdown.pollsLeft.value <= old(shutdown.pollsLeft).value
      ensures |store.attempts| == iterations + 1
              || (|store.attempts| == iterations && claimed.None? && shutdown.pollsLeft == Some(0))
      ensures AllSettled(store.attempts[..iterations], turns, store.rows)
      ensures Claims(log) == Won(store.attempts) && Idles(log) == Idles(old(log))
      ensures |Claims(log)| == |Claims(old(log))| + Once(claimed.Some?)
      ensures claimed.None? ==> Quiet() && log == old(log)
      ensures claimed.Some? && claimed.value.Err? ==> LostLastClaim()
      ensures (claimed.Some? ==> claimed.value.Ok?) ==> AllSettled(store.attempts, turns, store.rows)
      ensures claimed.Some? && claimed.value.Ok? ==>
                && Quiet() && (claimed.value.value == 0 || claimed.value.value == 1)
                && (SomeFailure(log) <==> SomeFailure(old(log)) || claimed.value.value == 1)
    {
      ghost var before := store.rows;
      LetOthersRun();
      SettledStays(store.attempts, turns, before, store.rows);
      ghost var asked, rows, events := store.attempts, store.rows, log;
      claimed := Next(shutdown, turns(iterations));
      if |store.attempts| > |asked| {
        OneMoreAttempt(asked, store.attempts, turns, rows, store.rows, events, log, claimed);
      } else {
        SettledStays(asked, turns, rows, store.rows);
      }
    }

    /** The last claim was lost before it was read back; everything before it is in order. */
    ghost predicate LostLastClaim()
      reads this, store
    {
      && |log| > 0 && log[|log| - 1].Claiming? && Orderly(log[..|log| - 1])
      && log[|log| - 1].id in store.rows && !HeldBy(store.rows[log[|log| - 1].id], me)
    }

    /**
     * Claims the next dispatch exactly when no shutdown was requested and some queued row is not locked, and
     * processes what it claimed.
     */
    method Next(shutdown: ShutdownEvent, turn: Turn) returns (outcome: Option<Result<int, string>>)
      requires Quiet()
      modifies store, this`log, shutdown
      ensures old(shutdown.pollsLeft).None? ==> shutdown.pollsLeft.None?
      ensures old(shutdown.pollsLeft).Some? ==>
                shutdown.pollsLeft.Some? && shutdown.pollsLeft.value <= old(shutdown.pollsLeft).value
      ensures outcome.None? <==> old(shutdown.pollsLeft) == Some(0) || Queue(old(store.rows)) - turn.locked == map[]
      ensures old(shutdown.pollsLeft) == Some(0) ==>
                shutdown.pollsLeft == Some(0) && store.attempts == old(store.attempts)
      ensures old(shutdown.pollsLeft) != Some(0) ==>
                && |store.attempts| == |old(store.attempts)| + 1
                && store.attempts[..|old(store.attempts)|] == old(store.attempts)
                && Answered(old(store.rows), store.attempts[|old(store.attempts)|], turn, store.rows,
                            old(log), log, outcome)
      ensures outcome.None? ==> Quiet() && log == old(log) && store.rows == old(store.rows)
      ensures outcome.Some? && outcome.value.Ok? ==>
                && Quiet() && (outcome.value.value == 0 || outcome.value.value == 1)
                && (SomeFailure(log) <==> SomeFailure(old(log)) || outcome.value.value == 1)
      ensures outcome.Some? && outcome.value.Err? ==> LostLastClaim()
      ensures ClosedRowsStay(old(store.rows), store.rows)
    {
      var stopping := shutdown.IsSet();
      if stopping { return None; }
      outcome := ClaimAndProcess(turn);
    }

    /** The claim of the first queued row that is not locked, if there is one, and its processing. */
    method ClaimAndProcess(turn: Turn) returns (outcome: Option<Result<int, string>>)
      requires Quiet()
      modifies store, this`log
      ensures outcome.None? <==> Queue(old(store.rows)) - turn.locked == map[]
      ensures |store.attempts| == |old(store.attempts)| + 1
              && store.attempts[..|old(store.attempts)|] == old(store.attempts)
      ensures Answered(old(store.rows), store.attempts[|old(store.attempts)|], turn, store.rows,
                       old(log), log, outcome)
      ensures outcome.None? ==> Quiet() && log == old(log) && store.rows == old(store.rows)
      ensures outcome.Some? && outcome.value.Ok? ==>
                && Quiet() && (outcome.value.value == 0 || outcome.value.value == 1)
                && (SomeFailure(log) <==> SomeFailure(old(log)) || outcome.value.value == 1)
      ensures outcome.Some? && outcome.value.Err? ==> LostLastClaim()
      ensures ClosedRowsStay(old(store.rows), store.rows)
    {
      var now: real := *;
      ghost var before := store.rows;
      var claimed := store.ClaimNext(me, now, turn.locked);
      if claimed.None? { return None; }
      OrderlyCodes(log);
      ClaimIsTheOnlyOne(log, me, before, store.rows, claimed.value, now, store.lease);
      var exit := ProcessClaimed(claimed.value, turn);
      return Some(exit);
    }

    /** Processing a held claim, seen from outside: closed rows stay, nothing is held after it. */
    method ProcessHeld(id: DispatchId, turn: Turn) returns (exit: Result<int, string>)
      requires store.Valid() && ClaimedOnceBy(store.rows, id, me) && Held(store.rows, me) <= {id}
      requires !Terminal(store.rows[id])
      modifies store`rows
      ensures store.Valid() && Held(store.rows, me) == {} && ClosedRowsStay(old(store.rows), store.rows)
      ensures ClaimedOnceBy(store.rows, id, me) && Terminal(store.rows[id])
      ensures OtherRowsFramed(me, id, old(store.rows), store.rows)
      ensures exit.Ok? ==>
                && (exit.value == 0 || exit.value == 1) && EndedAs(store.rows[id], turn)
                && (exit.value == 0 <==> store.rows[id].status == Completed)
                && (exit.value == 1 <==> store.rows[id].status == Failed)
    {
      ghost var before := store.rows;
      exit := Process(id, turn);
      FramesKeepClosedRows(me, id, before, store.rows);
      NothingHeldAfter(me, id, before, store.rows);
    }

    method ProcessClaimed(id: DispatchId, turn: Turn) returns (exit: Result<int, string>)
      requires store.Valid() && ClaimedOnceBy(store.rows, id, me) && Held(store.rows, me) <= {id}
      requires !Terminal(store.rows[id]) && Orderly(log) && CodesMatchTable(log, store.rows, me)
      modifies store`rows, this`log
      ensures exit.Ok? ==>
                && Quiet() && (exit.value == 0 || exit.value == 1)
                && log == old(log) + [Claiming(id), Processed(id, exit.value)]
                && (SomeFailure(log) <==> SomeFailure(old(log)) || exit.value == 1)
                && id in store.rows && EndedAs(store.rows[id], turn)
      ensures exit.Err? ==> log == old(log) + [Claiming(id)] && LostLastClaim()
      ensures ClosedRowsStay(old(store.rows), store.rows)
    {
      var log0 := log;
      ghost var rows0 := store.rows;
      log := log0 + [Claiming(id)];
      assert log[..|log| - 1] == log0;
      exit := ProcessHeld(id, turn);
      if exit.Err? { return; }
      log := log0 + [Claiming(id), Processed(id, exit.value)];
      ProcessedClaimIsLogged(log0, id, exit.value, rows0, store.rows, me);
    }

    /** The idle branch: a due backup, then the heartbeat that may report the shutdown. */
    method Rest(shutdown: ShutdownEvent, backups: bool) returns (stopping: bool)
      requires Quiet()
      modifies this`log, shutdown
      ensures old(shutdown.pollsLeft).None? ==> shutdown.pollsLeft.None?
      ensures old(shutdown.pollsLeft).Some? ==>
                shutdown.pollsLeft.Some? && shutdown.pollsLeft.value <= old(shutdown.pollsLeft).value
      ensures stopping ==> shutdown.pollsLeft == Some(0)
      ensures old(shutdown.pollsLeft) == Some(0) ==> stopping
      ensures Quiet() && (SomeFailure(log) <==> SomeFailure(old(log)))
      ensures log == old(log) + if backups && old(shutdown.pollsLeft) != Some(0) then [BackedUp({}), Idle] else [Idle]
    {
      if backups { BackUp(shutdown); }
      Record(Idle);
      stopping := shutdown.IsSet();
    }

    /** A due backup, unless shutdown is requested. */
    method BackUp(shutdown: ShutdownEvent)
      requires Quiet()
      modifies this`log, shutdown
      ensures old(shutdown.pollsLeft).None? ==> shutdown.pollsLeft.None?
      ensures old(shutdown.pollsLeft).Some? ==>
                shutdown.pollsLeft.Some? && shutdown.pollsLeft.value <= old(shutdown.pollsLeft).value
      ensures Quiet() && (SomeFailure(log) <==> SomeFailure(old(log)))
      ensures log == old(log) + if old(shutdown.pollsLeft) != Some(0) then [BackedUp({})] else []
    {
      var stopping := shutdown.IsSet();
      if !stopping { Record(BackedUp(Held(store.rows, me))); }
    }

    method Record(e: Event)
      requires Quiet() && (e.Idle? || e.Stopped? || e == BackedUp({}))
      modifies this`log
      ensures Quiet() && log == old(log) + [e]
      ensures SomeFailure(log) <==> SomeFailure(old(log))
    {
      log := log + [e];
      assert log[..|log| - 1] == old(log);
    }
  }

  /** What claiming does to a worker that held nothing. */
  lemma ClaimIsTheOnlyOne(
    log: seq<Event>, me: WorkerId, before: Table, after: Table, id: DispatchId, at: real, lease: int)
    requires Held(before, me) == {} && CodesMatchTable(log, before, me)
    requires forall e :: e in log && e.Processed? ==> e.exitCode == 0 || e.exitCode == 1
    requires id in before && before[id].status == Enqueued && after == before[id := Claimed(before[id], me, at, lease)]
    ensures Held(after, me) <= {id} && ClaimedOnceBy(after, id, me) && CodesMatchTable(log, after, me)
  {
    forall x | x in after && x != id ensures !HeldBy(after[x], me) {
      assert x !in Held(before, me);
    }
  }

  /** After a framed processing the log stays in order and true, and only its own code is new. */
  lemma ProcessedClaimIsLogged(log: seq<Event>, id: DispatchId, code: int, before: Table, after: Table, me: WorkerId)
    requires Orderly(log) && CodesMatchTable(log, before, me) && OtherRowsFramed(me, id, before, after)
    requires id in before && !Terminal(before[id]) && (code == 0 || code == 1)
    requires ClaimedOnceBy(after, id, me) && (code == 0 <==> after[id].status == Completed)
    requires code == 1 <==> after[id].status == Failed
    ensures var log' := log + [Claiming(id), Processed(id, code)];
            Orderly(log') && CodesMatchTable(log', after, me) && (SomeFailure(log') <==> SomeFailure(log) || code == 1)
  {
    OrderlyCodes(log);
    CodesStayFramed(log, id, before, after, me);
    ProcessedIsLogged(log, id, code, after, me);
  }

  lemma ProcessedIsLogged(log: seq<Event>, id: DispatchId, code: int, rows: Table, me: WorkerId)
    requires Orderly(log) && CodesMatchTable(log, rows, me) && (code == 0 || code == 1)
    requires ClaimedOnceBy(rows, id, me) && (code == 0 <==> rows[id].status == Completed)
    requires code == 1 <==> rows[id].status == Failed
    ensures var log' := log + [Claiming(id), Processed(id, code)];
            && Orderly(log') && CodesMatchTable(log', rows, me)
            && (SomeFailure(log') <==> SomeFailure(log) || code == 1)
  {
    var log' := log + [Claiming(id), Processed(id, code)];
    assert log'[..|log'| - 2] == log;
    if code == 1 {
      assert log'[|log'| - 1] in log';
    }
    if SomeFailure(log) {
      var e :| e in log && e.Processed? && e.exitCode == 1;
      assert e in log';
    }
  }

  lemma {:induction false} OrderlyCodes(log: seq<Event>)
    requires Orderly(log)
    ensures forall e :: e in log && e.Processed? ==> e.exitCode == 0 || e.exitCode == 1
    decreases |log|
  {
    if log == [] {
    } else {
      var n := |log|;
      if log[n - 1].Processed? {
        OrderlyCodes(log[..n - 2]);
        assert log == log[..n - 2] + [log[n - 2], log[n - 1]];
      } else {
        OrderlyCodes(log[..n - 1]);
        assert log == log[..n - 1] + [log[n - 1]];
      }
    }
  }

  lemma NothingHeldAfter(me: WorkerId, id: DispatchId, before: Table, after: Table)
    requires OtherRowsFramed(me, id, before, after) && id in after && Terminal(after[id])
    requires Held(before, me) <= {id}
    ensures Held(after, me) == {}
  {
    forall x | x in after ensures !HeldBy(after[x], me) {
      if x in before && x != id {
        assert OthersMayTurn(me, before[x], after[x]);
        assert x !in Held(before, me);
      }
    }
  }

  lemma CodesStayFramed(log: seq<Event>, id: DispatchId, before: Table, after: Table, me: WorkerId)
    requires CodesMatchTable(log, before, me) && OtherRowsFramed(me, id, before, after)
    requires id in before && id in after && (Terminal(before[id]) ==> after[id] == before[id])
    requires forall e :: e in log && e.Processed? ==> e.exitCode == 0 || e.exitCode == 1
    ensures CodesMatchTable(log, after, me)
  {
    forall e | e in log && e.Processed?
      ensures e.id in after && after[e.id] == before[e.id]
    {
      if e.id != id {
        assert OthersMayTurn(me, before[e.id], after[e.id]);
      }
    }
  }
}
