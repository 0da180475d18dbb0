/**
 * What an expired claim costs: a ready worker, doing what the store's queries make it do, ends up sharing the
 * job with the worker that is still processing it.
 */
module LeaseTakeOver {
  import opened Prelude
  import opened ScheduleDispatch
  import opened LeaseProtocol
  import opened LeaseSafety
  import opened LeaseTiming

  // ------------------------------------------------------------------ the store by itself

  datatype Schedule = Schedule(enabled: bool, archived: bool, maxConcurrency: int)

  type Schedules = map<string, Schedule>

  function ActiveOf(rows: Table, scheduleId: string): set<DispatchId> {
    set id | id in rows && Active(rows[id]) && rows[id].scheduleId == scheduleId
  }

  /** A replacement is enqueued for a live schedule below its concurrency limit. */
  predicate Admits(schedules: Schedules, rows: Table, scheduleId: string) {
    && scheduleId in schedules && schedules[scheduleId].enabled && !schedules[scheduleId].archived
    && |ActiveOf(rows, scheduleId)| < schedules[scheduleId].maxConcurrency
  }

  /**
   * What the store does when no other transaction holds a lock: expired claims are recovered by expiry, each
   * with a replacement exactly when its schedule admits one, all of them before the claim, and the claim takes
   * the head of the queue.
   */
  predicate StoreDoes(schedules: Schedules, s: State, step: Step) {
    match step
    case Recover(w, id, replacement) =>
      && w in s.workers && s.workers[w].Polling? && First(Expired(s.rows, s.workers[w].stamp), id)
      && (replacement.Some? <==>
            Admits(schedules, s.rows[id := Recovered(s.rows[id], s.workers[w].stamp)], s.rows[id].scheduleId))
    case Claim(w, id) =>
      && w in s.workers && s.workers[w].Polling? && Expired(s.rows, s.workers[w].stamp) == map[]
      && First(Queue(s.rows), id)
    case ClaimNothing(w) =>
      && w in s.workers && s.workers[w].Polling? && Expired(s.rows, s.workers[w].stamp) == map[]
      && Queue(s.rows) == map[]
    case _ => true
  }

  /** A run and a continuation of it in which only `v` acts, as the store makes it. */
  datatype Continuation = Continuation(states: seq<State>, steps: seq<Step>, more: seq<State>, taken: seq<Step>)
  {
    ghost predicate Valid(lease: int, schedules: Schedules, v: WorkerId) {
      && IsRun(lease, states, steps) && IsRun(lease, more, taken) && states <= more && steps <= taken
      && forall i {:trigger taken[i]} :: |steps| <= i < |taken| ==>
           ActsAs(taken[i], v) && StoreDoes(schedules, more[i], taken[i])
    }

    function Last(): State
      requires more != []
    {
      more[|more| - 1]
    }
  }

  lemma Advance(lease: int, schedules: Schedules, v: WorkerId, c: Continuation, step: Step) returns (next: Continuation)
    requires c.Valid(lease, schedules, v) && Enabled(lease, c.Last(), step)
    requires ActsAs(step, v) && StoreDoes(schedules, c.Last(), step)
    ensures next.Valid(lease, schedules, v) && next.states == c.states && next.steps == c.steps
    ensures next.more == c.more + [Apply(lease, c.Last(), step)] && next.taken == c.taken + [step]
  {
    next := c.(more := c.more + [Apply(lease, c.Last(), step)], taken := c.taken + [step]);
    ExtendRun(lease, c.more, c.taken, step);
    forall i | |c.steps| <= i < |next.taken|
      ensures ActsAs(next.taken[i], v) && StoreDoes(schedules, next.more[i], next.taken[i])
    {
      if i < |c.taken| { assert next.taken[i] == c.taken[i]; }
    }
  }

  // ------------------------------------------------------------------ recovering

  /** Two workers busy with one job. */
  predicate SharedJob(s: State, v: WorkerId, w: WorkerId) {
    && v != w && v in s.workers && w in s.workers && s.workers[v].Working? && s.workers[w].Working?
    && s.workers[v].id in s.rows && s.workers[w].id in s.rows
    && s.rows[s.workers[v].id].job == s.rows[s.workers[w].id].job
  }

  predicate JobIsQueued(rows: Table, job: DispatchId) {
    exists id :: id in Queue(rows) && rows[id].job == job
  }

  /** The dispatch's claim has expired and its schedule admits a replacement once the claim is closed. */
  predicate Replaceable(schedules: Schedules, rows: Table, id: DispatchId, asOf: real) {
    && id in rows && Stale(rows[id], asOf)
    && var scheduleId := rows[id].scheduleId;
       && scheduleId in schedules && schedules[scheduleId].enabled && !schedules[scheduleId].archived
       && |ActiveOf(rows, scheduleId)| <= schedules[scheduleId].maxConcurrency
  }

  /** `v` polls while `w` processes dispatch `id`, whose job is queued again or about to be. */
  predicate Pending(schedules: Schedules, s: State, v: WorkerId, w: WorkerId, id: DispatchId, job: DispatchId) {
    && v != w && v in s.workers && s.workers[v] == Polling(s.now) && w in s.workers && s.workers[w] == Working(id)
    && id in s.rows && s.rows[id].job == job
    && (Replaceable(schedules, s.rows, id, s.now) || JobIsQueued(s.rows, job))
  }

  lemma {:induction false} UnusedId(used: set<DispatchId>) returns (id: DispatchId)
    ensures id !in used
  {
    var n := LongerThanAll(used);
    id := seq(n, _ => 'x');
  }

  lemma {:induction false} LongerThanAll(used: set<DispatchId>) returns (n: nat)
    ensures forall id :: id in used ==> |id| < n
    decreases |used|
  {
    if used == {} {
      n := 0;
    } else {
      var some :| some in used;
      n := LongerThanAll(used - {some});
      n := if |some| < n then n else |some| + 1;
    }
  }

  lemma ActiveAfterClosing(rows: Table, id: DispatchId, asOf: real, scheduleId: string)
    requires id in rows
    ensures ActiveOf(rows[id := Recovered(rows[id], asOf)], scheduleId) == ActiveOf(rows, scheduleId) - {id}
  {
  }

  lemma ActiveAfterEnqueueing(rows: Table, id: DispatchId, row: Dispatch, scheduleId: string)
    requires id !in rows && row.status == Enqueued
    ensures ActiveOf(rows[id := row], scheduleId)
         == ActiveOf(rows, scheduleId) + (if row.scheduleId == scheduleId then {id} else {})
  {
  }

  /** The table after a recovery and, perhaps, its replacement. */
  function WithRecovery(rows: Table, id: DispatchId, asOf: real, replacement: Option<DispatchId>): Table
    requires id in rows
  {
    var closed := rows[id := Recovered(rows[id], asOf)];
    if replacement.None? then closed
    else closed[replacement.value := Fresh(rows[id].scheduleId, asOf, rows[id].job)]
  }

  /** Closing one active row and adding at most one of the same schedule does not raise any schedule's count. */
  lemma ActiveDoesNotGrow(rows: Table, id: DispatchId, asOf: real, replacement: Option<DispatchId>, scheduleId: string)
    requires id in rows && Active(rows[id]) && (replacement.Some? ==> replacement.value !in rows)
    ensures |ActiveOf(WithRecovery(rows, id, asOf, replacement), scheduleId)| <= |ActiveOf(rows, scheduleId)|
    ensures rows[id].scheduleId == scheduleId ==>
              |ActiveOf(rows[id := Recovered(rows[id], asOf)], scheduleId)| < |ActiveOf(rows, scheduleId)|
  {
    var closed := rows[id := Recovered(rows[id], asOf)];
    ActiveAfterClosing(rows, id, asOf, scheduleId);
    if replacement.Some? {
      var row := Fresh(rows[id].scheduleId, asOf, rows[id].job);
      ActiveAfterEnqueueing(closed, replacement.value, row, scheduleId);
    }
    if rows[id].scheduleId == scheduleId {
      assert id in ActiveOf(rows, scheduleId);
    }
  }

  lemma StillQueued(rows: Table, id: DispatchId, asOf: real, replacement: Option<DispatchId>, job: DispatchId)
    requires id in rows && rows[id].status == Running && (replacement.Some? ==> replacement.value !in rows)
    requires JobIsQueued(rows, job)
    ensures JobIsQueued(WithRecovery(rows, id, asOf, replacement), job)
  {
    var q :| q in Queue(rows) && rows[q].job == job;
    assert q in Queue(WithRecovery(rows, id, asOf, replacement));
  }

  lemma StillReplaceable(schedules: Schedules, rows: Table, id: DispatchId, asOf: real,
                         replacement: Option<DispatchId>, other: DispatchId)
    requires id in rows && Stale(rows[id], asOf) && (replacement.Some? ==> replacement.value !in rows)
    requires Replaceable(schedules, rows, other, asOf) && other != id
    ensures Replaceable(schedules, WithRecovery(rows, id, asOf, replacement), other, asOf)
  {
    ActiveDoesNotGrow(rows, id, asOf, replacement, rows[other].scheduleId);
  }

  /** Recovering a dispatch whose schedule admits it puts the job back in the queue. */
  lemma ReplacedIsQueued(schedules: Schedules, rows: Table, id: DispatchId, asOf: real,
                         replacement: Option<DispatchId>)
    requires Replaceable(schedules, rows, id, asOf) && (replacement.Some? ==> replacement.value !in rows)
    requires replacement.Some? <==>
               Admits(schedules, rows[id := Recovered(rows[id], asOf)], rows[id].scheduleId)
    ensures JobIsQueued(WithRecovery(rows, id, asOf, replacement), rows[id].job)
  {
    ActiveDoesNotGrow(rows, id, asOf, replacement, rows[id].scheduleId);
    assert replacement.value in Queue(WithRecovery(rows, id, asOf, replacement));
  }

  /** Each recovery takes one claim off the list of expired ones. */
  lemma FewerExpired(rows: Table, id: DispatchId, asOf: real, replacement: Option<DispatchId>)
    requires id in rows && (replacement.Some? ==> replacement.value !in rows)
    ensures Expired(WithRecovery(rows, id, asOf, replacement), asOf) == Expired(rows, asOf) - {id}
  {
  }

  /** The recovery that comes next, whichever it is, keeps the job pending. */
  lemma RecoveryKeepsPending(
    lease: int, schedules: Schedules, s: State, v: WorkerId, w: WorkerId, id: DispatchId, job: DispatchId, step: Step)
    requires Pending(schedules, s, v, w, id, job) && Enabled(lease, s, step)
    requires step.Recover? && step.w == v && StoreDoes(schedules, s, step)
    ensures Pending(schedules, Apply(lease, s, step), v, w, id, job)
  {
    var rows := Apply(lease, s, step).rows;
    assert rows == WithRecovery(s.rows, step.id, s.now, step.replacement);
    if JobIsQueued(s.rows, job) {
      StillQueued(s.rows, step.id, s.now, step.replacement, job);
    } else if step.id == id {
      ReplacedIsQueued(schedules, s.rows, id, s.now, step.replacement);
    } else {
      StillReplaceable(schedules, s.rows, step.id, s.now, step.replacement, id);
    }
  }

  lemma RecoverOne(
    lease: int, schedules: Schedules, v: WorkerId, w: WorkerId, c: Continuation, id: DispatchId, job: DispatchId)
    returns (next: Continuation)
    requires c.Valid(lease, schedules, v) && Pending(schedules, c.Last(), v, w, id, job)
    requires Expired(c.Last().rows, c.Last().now) != map[]
    ensures next.Valid(lease, schedules, v) && next.states == c.states && next.steps == c.steps
    ensures Pending(schedules, next.Last(), v, w, id, job) && next.Last().now == c.Last().now
    ensures |Expired(next.Last().rows, next.Last().now)| < |Expired(c.Last().rows, c.Last().now)|
  {
    var s := c.Last();
    var expired := Expired(s.rows, s.now);
    var x := FirstExists(expired);
    var unused := UnusedId(s.rows.Keys);
    var admitted := Admits(schedules, s.rows[x := Recovered(s.rows[x], s.now)], s.rows[x].scheduleId);
    var step := Recover(v, x, if admitted then Some(unused) else None);
    next := Advance(lease, schedules, v, c, step);
    RecoveryKeepsPending(lease, schedules, s, v, w, id, job, step);
    FewerExpired(s.rows, x, s.now, step.replacement);
    assert expired.Keys == (expired - {x}).Keys + {x};
  }

  lemma {:induction false} RecoverAll(
    lease: int, schedules: Schedules, v: WorkerId, w: WorkerId, c: Continuation, id: DispatchId, job: DispatchId)
    returns (end: Continuation)
    requires c.Valid(lease, schedules, v) && Pending(schedules, c.Last(), v, w, id, job)
    ensures end.Valid(lease, schedules, v) && end.states == c.states && end.steps == c.steps
    ensures Pending(schedules, end.Last(), v, w, id, job)
    ensures end.Last().now == c.Last().now && Expired(end.Last().rows, end.Last().now) == map[]
    ensures JobIsQueued(end.Last().rows, job)
    decreases |Expired(c.Last().rows, c.Last().now)|
  {
    if Expired(c.Last().rows, c.Last().now) == map[] {
      end := c;
      assert id !in Expired(c.Last().rows, c.Last().now);
    } else {
      var next := RecoverOne(lease, schedules, v, w, c, id, job);
      end := RecoverAll(lease, schedules, v, w, next, id, job);
    }
  }

  // ------------------------------------------------------------------ working off the queue

  lemma NoRenewerWhileQueued(lease: int, c: Continuation, x: DispatchId)
    requires IsRun(lease, c.more, c.taken) && x in Queue(c.Last().rows)
    ensures x !in c.Last().renewers
  {
    RunsKeepInv(lease, c.more, c.taken, |c.more| - 1);
    RenewedIsClaimed(lease, c.Last(), x);
  }

  /** After claiming and reading back, `v` processes the head of the queue. */
  lemma TakeHead(lease: int, schedules: Schedules, v: WorkerId, c: Continuation, x: DispatchId)
    returns (next: Continuation)
    requires c.Valid(lease, schedules, v)
    requires var s := c.Last();
             && v in s.workers && s.workers[v] == Polling(s.now)
             && Expired(s.rows, s.now) == map[] && First(Queue(s.rows), x)
    ensures next.Valid(lease, schedules, v) && next.states == c.states && next.steps == c.steps
    ensures var s, t := c.Last(), next.Last();
            && t.now == s.now && t.workers == s.workers[v := Working(x)]
            && t.rows == s.rows[x := Claimed(s.rows[x], v, s.now, lease)]
            && (x in t.renewers ==> !t.renewers[x].failed)
  {
    var s := c.Last();
    NoRenewerWhileQueued(lease, c, x);
    next := Advance(lease, schedules, v, c, Claim(v, x));
    next := Advance(lease, schedules, v, next, ReadBack(v));
    assert next.Last().workers == s.workers[v := Working(x)];
  }

  /** It finishes, stores the outcome and polls again, without any time passing. */
  lemma FinishAndPoll(lease: int, schedules: Schedules, v: WorkerId, c: Continuation, x: DispatchId)
    returns (next: Continuation)
    requires c.Valid(lease, schedules, v)
    requires var s := c.Last();
             && v in s.workers && s.workers[v] == Working(x) && x in s.rows && HeldBy(s.rows[x], v)
             && (x in s.renewers ==> !s.renewers[x].failed)
    ensures next.Valid(lease, schedules, v) && next.states == c.states && next.steps == c.steps
    ensures var s, t := c.Last(), next.Last();
            && t.now == s.now && t.workers == s.workers[v := Polling(s.now)]
            && t.rows == s.rows[x := Closed(s.rows[x], s.rows[x], Succeed([]), s.now)]
  {
    var s := c.Last();
    next := Advance(lease, schedules, v, c, Finish(v, Succeed([])));
    next := Advance(lease, schedules, v, next, MarkRead(v));
    next := Advance(lease, schedules, v, next, MarkWrite(v));
    next := Advance(lease, schedules, v, next, Poll(v));
    assert next.Last().workers == s.workers[v := Polling(s.now)];
  }

  lemma {:induction false} WorkOff(
    lease: int, schedules: Schedules, v: WorkerId, w: WorkerId, c: Continuation, id: DispatchId, job: DispatchId)
    returns (end: Continuation)
    requires c.Valid(lease, schedules, v) && Pending(schedules, c.Last(), v, w, id, job)
    requires Expired(c.Last().rows, c.Last().now) == map[] && JobIsQueued(c.Last().rows, job)
    ensures end.Valid(lease, schedules, v) && end.states == c.states && end.steps == c.steps
    ensures SharedJob(end.Last(), v, w)
    decreases |Queue(c.Last().rows)|
  {
    var s := c.Last();
    var x := FirstExists(Queue(s.rows));
    var busy := TakeHead(lease, schedules, v, c, x);
    IsNotQueued(lease, c, w, id);
    if s.rows[x].job == job {
      end := busy;
    } else {
      var done := FinishAndPoll(lease, schedules, v, busy, x);
      HeadIsDone(lease, s, done.Last(), v, x, job);
      end := WorkOff(lease, schedules, v, w, done, id, job);
    }
  }

  /** The dispatch a worker processes is not in the queue. */
  lemma IsNotQueued(lease: int, c: Continuation, w: WorkerId, id: DispatchId)
    requires IsRun(lease, c.more, c.taken)
    requires w in c.Last().workers && c.Last().workers[w] == Working(id)
    ensures id !in Queue(c.Last().rows)
  {
    RunsKeepInv(lease, c.more, c.taken, |c.more| - 1);
    assert PhaseOk(c.Last(), w, c.Last().workers[w]);
  }

  lemma HeadIsDone(lease: int, s: State, t: State, v: WorkerId, x: DispatchId, job: DispatchId)
    requires x in Queue(s.rows) && s.rows[x].job != job && JobIsQueued(s.rows, job)
    requires Expired(s.rows, s.now) == map[] && t.now == s.now
    requires var row := Claimed(s.rows[x], v, s.now, lease);
             t.rows == s.rows[x := Closed(row, row, Succeed([]), s.now)]
    ensures Expired(t.rows, t.now) == map[] && JobIsQueued(t.rows, job)
    ensures |Queue(t.rows)| < |Queue(s.rows)|
  {
    var q :| q in Queue(s.rows) && s.rows[q].job == job;
    assert q in Queue(t.rows) && t.rows[q].job == job;
    assert Queue(t.rows) == Queue(s.rows) - {x};
    assert Queue(s.rows).Keys == Queue(t.rows).Keys + {x};
    forall y ensures y !in Expired(t.rows, t.now) { assert y !in Expired(s.rows, s.now); }
  }

  /**
   * Whenever, in any run, the claim of a worker that is still processing has expired, its schedule admits a
   * replacement, and another worker is ready, that worker recovers it, works off what is queued before, and
   * then processes the same job: whatever else is queued or expired, and without any time passing.
   */
  lemma ExpiryBreaksExclusion(
    lease: int, schedules: Schedules, states: seq<State>, steps: seq<Step>, v: WorkerId, w: WorkerId)
    returns (end: Continuation)
    requires IsRun(lease, states, steps)
    requires var s := states[|states| - 1];
             && w in s.workers && s.workers[w].Working? && v in s.workers && s.workers[v].Ready?
             && Replaceable(schedules, s.rows, s.workers[w].id, s.now)
    ensures end.Valid(lease, schedules, v) && end.states == states && end.steps == steps
    ensures SharedJob(end.Last(), v, w)
  {
    var s := states[|states| - 1];
    var id := s.workers[w].id;
    var c := Continuation(states, steps, states, steps);
    c := Advance(lease, schedules, v, c, Poll(v));
    c := RecoverAll(lease, schedules, v, w, c, id, s.rows[id].job);
    end := WorkOff(lease, schedules, v, w, c, id, s.rows[id].job);
  }

  // ------------------------------------------------------------------ one concrete run for every lease

  /** One stalled renewal: "a" is still working on the only dispatch when its claim expires. */
  function Stall(lease: nat): seq<Step> {
    [Enqueue("d", "schedule", 0.0), Poll("a"), Claim("a", "d"), ReadBack("a"), Tick(lease as real + 1.0)]
  }

  const ONE_AT_A_TIME: Schedules := map["schedule" := Schedule(true, false, 1)]

  /** So every lease length admits a run in which two workers share a job, even with one schedule of limit one. */
  lemma StalledRenewalBreaksExclusion(lease: nat) returns (end: Continuation)
    ensures end.Valid(lease, ONE_AT_A_TIME, "b") && end.steps == Stall(lease)
    ensures SharedJob(end.Last(), "b", "a")
  {
    var states := StalledRun(lease);
    var s := states[|states| - 1];
    assert ActiveOf(s.rows, "schedule") == {"d"};
    end := ExpiryBreaksExclusion(lease, ONE_AT_A_TIME, states, Stall(lease), "b", "a");
  }

  lemma StalledRun(lease: nat) returns (states: seq<State>)
    ensures IsRun(lease, states, Stall(lease))
    ensures var s := states[|states| - 1];
            && s.now == lease as real + 1.0 && s.workers == map["a" := Working("d"), "b" := Ready]
            && s.rows == map["d" := Claimed(Fresh("schedule", 0.0, "d"), "a", 0.0, lease)]
  {
    var steps := Stall(lease);
    var queued := Fresh("schedule", 0.0, "d");
    states := [State(0.0, map[], map["a" := Ready, "b" := Ready], map[])];
    for k := 0 to 5
      invariant IsRun(lease, states, steps[..k]) && |states| == k + 1
      invariant var t := states[|states| - 1];
                && t.now == (if k == 5 then lease as real + 1.0 else 0.0)
                && t.rows == (if k == 0 then map[]
                              else map["d" := if k < 3 then queued else Claimed(queued, "a", 0.0, lease)])
                && t.workers == map["a" := if k < 2 then Ready else if k == 2 then Polling(0.0)
                                           else if k == 3 then Reread("d", 0.0) else Working("d"),
                                    "b" := Ready]
    {
      ExtendRun(lease, states, steps[..k], steps[k]);
      states := states + [Apply(lease, states[|states| - 1], steps[k])];
      assert steps[..k + 1] == steps[..k] + [steps[k]];
    }
    assert steps[..5] == steps;
  }
}
