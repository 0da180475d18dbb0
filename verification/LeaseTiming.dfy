/** When renewals are prompt enough, leases exclude concurrent work on one job; when they are not, they do not. */
module LeaseTiming {
  import opened Prelude
  import opened ScheduleDispatch
  import opened LeaseProtocol
  import opened LeaseSafety

  /** The renewal interval leaves at least half of the lease for delays exactly from one second up. */
  lemma IntervalIsHalfLease(lease: int)
    ensures RenewalInterval(lease) <= lease as real / 2.0 <==> lease >= 1
    ensures lease >= 1 ==> RenewalInterval(lease) < lease as real
  {
  }

  // ------------------------------------------------------------------ how late threads may be

  /**
   * Bounds on delays: from the claim's stamp to the renewer's start, from the end of a renewal interval to the
   * next renewal's stamp (the heartbeat after a renewal included), from a renewal's stamp to its commit, and
   * from the end of processing to the mark that stores the outcome.
   */
  datatype Delays = Delays(start: real, wake: real, commit: real, close: real)
  {
    predicate Valid() {
      start >= 0.0 && wake >= 0.0 && commit >= 0.0 && close >= 0.0
    }

    /** From the stamp that is in the table to the start of the interval that follows it. */
    function Lead(): real {
      if start < commit then commit else start
    }

    /** All the delays between one stamp and the commit of the next, or the mark. */
    function Total(closing: bool): real {
      Lead() + wake + commit + if closing then close else 0.0
    }

    /** The delays fit into the lease beside the renewal interval. */
    predicate Fits(lease: int, closing: bool) {
      Total(closing) <= lease as real - RenewalInterval(lease)
    }
  }

  /** The workers the delays are about: those that process, and those that close when `closing` is set. */
  predicate Concerned(p: Phase, closing: bool) {
    p.Reread? || p.Working? || (closing && (p.Closing? || p.Writing?))
  }

  /** Neither the worker nor its renewer thread is overdue; this does not look at the table. */
  predicate Prompt(lease: int, d: Delays, s: State, p: Phase) {
    match p
    case Reread(_, stamp) => s.now - stamp <= d.start
    case Working(id) =>
      id in s.renewers ==>
        (match s.renewers[id].phase
         case Waiting(since) => s.now - since <= RenewalInterval(lease) + d.wake
         case Stamped(at) => s.now - at <= d.commit
         case Finished => true)
    case Closing(_, _, since) => s.now - since <= d.close
    case Writing(_, _, _, since) => s.now - since <= d.close
    case _ => true
  }

  ghost predicate AllPrompt(lease: int, d: Delays, closing: bool, s: State) {
    forall w {:trigger s.workers[w]} :: w in s.workers && Concerned(s.workers[w], closing) ==>
      Prompt(lease, d, s, s.workers[w])
  }

  /** The renewer of a dispatch being processed runs into an error other than a rejected renewal. */
  predicate BreaksRenewer(s: State, step: Step) {
    step.RenewerError? && exists w :: w in s.workers && s.workers[w] == Working(step.id)
  }

  /** A run in which the threads keep to their delays. */
  ghost predicate PromptRun(lease: int, d: Delays, closing: bool, states: seq<State>, steps: seq<Step>) {
    && IsRun(lease, states, steps) && d.Valid()
    && (forall i {:trigger AllPrompt(lease, d, closing, states[i])} :: 0 <= i < |states| ==>
          AllPrompt(lease, d, closing, states[i]))
    && (forall i {:trigger steps[i]} :: 0 <= i < |steps| ==> !BreaksRenewer(states[i], steps[i]))
  }

  /** A run in which, moreover, the delays fit into the lease. */
  ghost predicate TimelyRun(lease: int, d: Delays, closing: bool, states: seq<State>, steps: seq<Step>) {
    PromptRun(lease, d, closing, states, steps) && d.Fits(lease, closing)
  }

  // ------------------------------------------------------------------ the claim and its renewer keep pace

  /** Worker `w` holds an unexpired claim on the dispatch it is busy with. */
  predicate Secure(s: State, w: WorkerId, p: Phase) {
    Holding(p) ==>
      && p.id in s.rows && HeldBy(s.rows[p.id], w)
      && s.rows[p.id].claimExpiresAt.Some? && s.now <= s.rows[p.id].claimExpiresAt.value
  }

  /** Where the thread stands is never far from `stamp`, the claim's stamp in the table. */
  predicate KeepsPace(lease: int, d: Delays, s: State, w: WorkerId, p: Phase, stamp: real)
    requires Holding(p)
  {
    var wait := d.Lead() + RenewalInterval(lease) + d.wake;
    match p
    case Reread(id, at) => stamp == at && id !in s.renewers
    case Working(id) =>
      && id in s.renewers && s.renewers[id].owner == w && !s.renewers[id].stopped && !s.renewers[id].failed
      && (match s.renewers[id].phase
          case Waiting(since) => stamp <= since <= stamp + d.Lead()
          case Stamped(at) => stamp <= at <= stamp + wait
          case Finished => false)
    case _ =>
      && p.since <= stamp + wait + d.commit
      && (p.id in s.renewers ==>
            s.renewers[p.id].stopped && (s.renewers[p.id].phase.Stamped? ==> stamp <= s.renewers[p.id].phase.at))
  }

  predicate OnCourse(lease: int, d: Delays, s: State, w: WorkerId, p: Phase)
    requires Holding(p)
  {
    && p.id in s.rows && HeldBy(s.rows[p.id], w)
    && s.rows[p.id].claimedAt.Some? && s.rows[p.id].claimedAt.value <= s.now
    && KeepsPace(lease, d, s, w, p, s.rows[p.id].claimedAt.value)
  }

  ghost predicate AllOnCourse(lease: int, d: Delays, closing: bool, s: State) {
    forall w {:trigger s.workers[w]} :: w in s.workers && Concerned(s.workers[w], closing) ==>
      OnCourse(lease, d, s, w, s.workers[w])
  }

  /** Non-expiry: a claim whose threads keep pace and are not overdue has time left. */
  lemma OnCourseIsSecure(lease: int, d: Delays, closing: bool, s: State, w: WorkerId)
    requires Inv(lease, s) && d.Valid() && d.Fits(lease, closing)
    requires w in s.workers && Concerned(s.workers[w], closing)
    requires OnCourse(lease, d, s, w, s.workers[w]) && Prompt(lease, d, s, s.workers[w])
    ensures Secure(s, w, s.workers[w])
  {
    assert RowOk(lease, s.rows, s.workers[w].id);
  }

  /** A dispatch held under an unexpired claim changes hands by no step but its holder's mark. */
  lemma HeldRowsStayHeld(lease: int, s: State, step: Step, w: WorkerId, became: Dispatch)
    requires Inv(lease, s) && Enabled(lease, s, step) && step != MarkWrite(w)
    requires w in s.workers && Holding(s.workers[w]) && Secure(s, w, s.workers[w])
    requires var id := s.workers[w].id; RowEvolves(lease, s, step, id, s.rows[id], became)
    ensures HeldBy(became, w)
  {
    assert PhaseOk(s, w, s.workers[w]);
    match step {
      case Recover(x, _, _) => assert PhaseOk(s, x, s.workers[x]);
      case CommitRenewal(y) => assert RenewerOk(s, y, s.renewers[y]);
      case _ =>
    }
  }

  /** Whoever holds a dispatch after a step other than its own claim held it before. */
  lemma HoldersHeldBefore(lease: int, s: State, step: Step, w: WorkerId)
    requires Enabled(lease, s, step) && w in s.workers && w in Apply(lease, s, step).workers
    requires Holding(Apply(lease, s, step).workers[w]) && !(step.Claim? && step.w == w)
    ensures Holding(s.workers[w]) && s.workers[w].id == Apply(lease, s, step).workers[w].id
    ensures step == MarkWrite(w) ==> !HeldBy(s.rows[s.workers[w].id], w)
  {
    match step {
      case ReadBack(x) =>
      case MarkRead(x) =>
      case MarkWrite(x) =>
      case _ =>
    }
  }

  /** No step takes a dispatch away from a holder whose claim is unexpired. */
  lemma HoldersKeepTheirRow(lease: int, s: State, step: Step, w: WorkerId)
    requires Inv(lease, s) && Enabled(lease, s, step)
    requires w in s.workers && Secure(s, w, s.workers[w])
    requires w in Apply(lease, s, step).workers && Holding(Apply(lease, s, step).workers[w])
    ensures var s' := Apply(lease, s, step);
            s'.workers[w].id in s'.rows && HeldBy(s'.rows[s'.workers[w].id], w)
  {
    if !step.Claim? || step.w != w {
      HoldersHeldBefore(lease, s, step, w);
      var id := s.workers[w].id;
      EachRowEvolvesLegally(lease, s, step, id);
      HeldRowsStayHeld(lease, s, step, w, Apply(lease, s, step).rows[id]);
    }
  }

  /** Steps of another worker, and of another dispatch's renewer, leave the claim and the renewer of `id` alone. */
  predicate Elsewhere(s: State, step: Step, w: WorkerId, id: DispatchId) {
    match step
    case Wake(x) => x != id
    case CommitRenewal(x) => x != id
    case RenewerError(x) => x != id
    case QuitRenewer(x) => x != id
    case _ => !ActsAs(step, w) || step.Recover?
  }

  lemma ElsewhereIsFramed(lease: int, s: State, step: Step, w: WorkerId)
    requires Inv(lease, s) && Enabled(lease, s, step)
    requires w in s.workers && Holding(s.workers[w]) && Secure(s, w, s.workers[w])
    requires Elsewhere(s, step, w, s.workers[w].id)
    ensures var s', id := Apply(lease, s, step), s.workers[w].id;
            && w in s'.workers && s'.workers[w] == s.workers[w]
            && id in s'.rows && s'.rows[id] == s.rows[id]
            && (id in s'.renewers <==> id in s.renewers) && (id in s.renewers ==> s'.renewers[id] == s.renewers[id])
  {
    var id := s.workers[w].id;
    assert PhaseOk(s, w, s.workers[w]);
    EachRowEvolvesLegally(lease, s, step, id);
    match step {
      case Recover(x, _, _) => assert PhaseOk(s, x, s.workers[x]);
      case ReadBack(x) => assert PhaseOk(s, x, s.workers[x]);
      case Finish(x, _) => assert PhaseOk(s, x, s.workers[x]);
      case MarkWrite(x) => assert PhaseOk(s, x, s.workers[x]);
      case _ =>
    }
  }

  /** A worker that enters processing, or moves on in it, stays on course. */
  lemma OwnStepStaysOnCourse(lease: int, d: Delays, closing: bool, s: State, step: Step, w: WorkerId)
    requires Inv(lease, s) && Enabled(lease, s, step) && lease >= 1 && d.Valid()
    requires w in s.workers && ActsAs(step, w) && !step.Recover? && Secure(s, w, s.workers[w])
    requires Concerned(s.workers[w], closing) ==>
               OnCourse(lease, d, s, w, s.workers[w]) && Prompt(lease, d, s, s.workers[w])
    requires Concerned(Apply(lease, s, step).workers[w], closing)
    ensures OnCourse(lease, d, Apply(lease, s, step), w, Apply(lease, s, step).workers[w])
  {
    HoldersKeepTheirRow(lease, s, step, w);
    assert PhaseOk(s, w, s.workers[w]);
    match step {
      case Claim(_, id) => RenewedIsClaimed(lease, s, id);
      case _ =>
    }
  }

  lemma RenewedIsClaimed(lease: int, s: State, id: DispatchId)
    requires Inv(lease, s) && id in s.rows
    ensures id in s.renewers ==> s.rows[id].status != Enqueued
  {
    if id in s.renewers { assert RenewerOk(s, id, s.renewers[id]); }
  }

  /** Steps of the worker's own renewer keep the two in step. */
  lemma RenewerStepStaysOnCourse(lease: int, d: Delays, s: State, step: Step, w: WorkerId)
    requires Inv(lease, s) && Enabled(lease, s, step) && d.Valid() && !BreaksRenewer(s, step)
    requires w in s.workers && Holding(s.workers[w]) && Secure(s, w, s.workers[w])
    requires OnCourse(lease, d, s, w, s.workers[w]) && Prompt(lease, d, s, s.workers[w])
    requires !Elsewhere(s, step, w, s.workers[w].id) && !ActsAs(step, w)
    ensures OnCourse(lease, d, Apply(lease, s, step), w, Apply(lease, s, step).workers[w])
  {
    var id := s.workers[w].id;
    assert id in s.renewers && RenewerOk(s, id, s.renewers[id]);
    assert ClaimedOnceBy(s.rows, id, w);
  }

  lemma StepStaysOnCourse(lease: int, d: Delays, closing: bool, s: State, step: Step, s': State)
    requires Inv(lease, s) && Enabled(lease, s, step) && s' == Apply(lease, s, step)
    requires d.Valid() && d.Fits(lease, closing)
    requires AllOnCourse(lease, d, closing, s) && AllPrompt(lease, d, closing, s) && !BreaksRenewer(s, step)
    ensures AllOnCourse(lease, d, closing, s')
  {
    forall w | w in s'.workers && Concerned(s'.workers[w], closing) ensures OnCourse(lease, d, s', w, s'.workers[w]) {
      WorkersStay(lease, s, step, w);
      if Concerned(s.workers[w], closing) { OnCourseIsSecure(lease, d, closing, s, w); }
      OneWorkerStaysOnCourse(lease, d, closing, s, step, w);
    }
  }

  lemma OneWorkerStaysOnCourse(lease: int, d: Delays, closing: bool, s: State, step: Step, w: WorkerId)
    requires Inv(lease, s) && Enabled(lease, s, step) && d.Valid() && d.Fits(lease, closing)
    requires w in s.workers && w in Apply(lease, s, step).workers
    requires Concerned(Apply(lease, s, step).workers[w], closing)
    requires Concerned(s.workers[w], closing) ==>
               Secure(s, w, s.workers[w]) && OnCourse(lease, d, s, w, s.workers[w]) && Prompt(lease, d, s, s.workers[w])
    requires !BreaksRenewer(s, step)
    ensures OnCourse(lease, d, Apply(lease, s, step), w, Apply(lease, s, step).workers[w])
  {
    EntersConcernedByClaim(lease, closing, s, step, w);
    if ActsAs(step, w) && !step.Recover? {
      OwnStepStaysOnCourse(lease, d, closing, s, step, w);
    } else if Elsewhere(s, step, w, s.workers[w].id) {
      ElsewhereIsFramed(lease, s, step, w);
    } else {
      RenewerStepStaysOnCourse(lease, d, s, step, w);
    }
  }

  /** Who is concerned after a step was so before, or has just claimed. */
  lemma EntersConcernedByClaim(lease: int, closing: bool, s: State, step: Step, w: WorkerId)
    requires Enabled(lease, s, step) && w in s.workers && w in Apply(lease, s, step).workers
    requires Concerned(Apply(lease, s, step).workers[w], closing)
    ensures Concerned(s.workers[w], closing) || (step.Claim? && step.w == w && s.workers[w].Polling?)
  {
  }

  lemma WorkersStay(lease: int, s: State, step: Step, w: WorkerId)
    requires Enabled(lease, s, step)
    ensures w in Apply(lease, s, step).workers <==> w in s.workers
  {
    match step { case _ => }
  }

  // ------------------------------------------------------------------ what timeliness buys

  lemma {:induction false} TimelyRunsStayOnCourse(
    lease: int, d: Delays, closing: bool, states: seq<State>, steps: seq<Step>, i: nat)
    requires TimelyRun(lease, d, closing, states, steps) && i < |states|
    ensures AllOnCourse(lease, d, closing, states[i])
  {
    if i == 0 {
      assert Init(states[0]);
    } else {
      TimelyRunsStayOnCourse(lease, d, closing, states, steps, i - 1);
      RunsKeepInv(lease, states, steps, i - 1);
      assert AllPrompt(lease, d, closing, states[i - 1]) && !BreaksRenewer(states[i - 1], steps[i - 1]);
      StepStaysOnCourse(lease, d, closing, states[i - 1], steps[i - 1], states[i]);
    }
  }

  /** In a timely run the claim never expires while its holder is processing, or closing when that is timely too. */
  lemma TimelyHoldersAreSecure(
    lease: int, d: Delays, closing: bool, states: seq<State>, steps: seq<Step>, i: nat, w: WorkerId)
    requires TimelyRun(lease, d, closing, states, steps) && i < |states|
    requires w in states[i].workers && Concerned(states[i].workers[w], closing)
    ensures Secure(states[i], w, states[i].workers[w])
  {
    TimelyRunsStayOnCourse(lease, d, closing, states, steps, i);
    RunsKeepInv(lease, states, steps, i);
    assert AllPrompt(lease, d, closing, states[i]);
    OnCourseIsSecure(lease, d, closing, states[i], w);
  }

  /** From one second up, delays that total at most half the lease always fit. */
  lemma HalfTheLeaseIsEnough(lease: int, d: Delays, closing: bool)
    requires lease >= 1 && d.Total(closing) <= lease as real / 2.0
    ensures d.Fits(lease, closing)
  {
    IntervalIsHalfLease(lease);
  }

  /** So no recovery ever hits a dispatch that such a worker is busy with ... */
  lemma TimelyClaimsAreNotRecovered(
    lease: int, d: Delays, closing: bool, states: seq<State>, steps: seq<Step>, i: nat, w: WorkerId)
    requires TimelyRun(lease, d, closing, states, steps) && i < |steps|
    requires steps[i].Recover? && w in states[i].workers && Concerned(states[i].workers[w], closing)
    ensures states[i].workers[w].id != steps[i].id
  {
    TimelyHoldersAreSecure(lease, d, closing, states, steps, i, w);
    RunsKeepInv(lease, states, steps, i);
    assert PhaseOk(states[i], steps[i].w, states[i].workers[steps[i].w]);
  }

  /** ... and its renewals are never rejected ... */
  lemma TimelyRenewalsSucceed(
    lease: int, d: Delays, closing: bool, states: seq<State>, steps: seq<Step>, i: nat, w: WorkerId)
    requires TimelyRun(lease, d, closing, states, steps) && i < |steps|
    requires w in states[i].workers && states[i].workers[w].Working?
    requires steps[i] == CommitRenewal(states[i].workers[w].id)
    ensures var id := steps[i].id;
            && !states[i + 1].renewers[id].failed
            && states[i + 1].rows[id] == Renewed(states[i].rows[id], states[i].renewers[id].phase.at, lease)
  {
    TimelyHoldersAreSecure(lease, d, closing, states, steps, i, w);
    TimelyRunsStayOnCourse(lease, d, closing, states, steps, i);
    assert states[i + 1] == Apply(lease, states[i], steps[i]);
  }

  /** ... no mark is rejected: the outcome the worker computed is the one that is stored ... */
  lemma TimelyMarksSucceed(lease: int, d: Delays, states: seq<State>, steps: seq<Step>, i: nat, w: WorkerId)
    requires TimelyRun(lease, d, true, states, steps) && i < |steps|
    requires steps[i] == MarkRead(w) || steps[i] == MarkWrite(w)
    ensures var p := states[i].workers[w];
            && (steps[i].MarkRead? ==>
              states[i + 1].workers[w] == Writing(p.id, p.verdict, states[i].rows[p.id], p.since))
            && (steps[i].MarkWrite? ==>
                  states[i + 1].rows[p.id].status == (if p.verdict.Succeed? then Completed else Failed))
  {
    TimelyHoldersAreSecure(lease, d, true, states, steps, i, w);
    assert states[i + 1] == Apply(lease, states[i], steps[i]);
  }

  /** ... and no two workers are ever busy with the same job, recoveries included. */
  lemma TimelyWorkIsExclusive(
    lease: int, d: Delays, closing: bool, states: seq<State>, steps: seq<Step>, i: nat, v: WorkerId, w: WorkerId)
    requires TimelyRun(lease, d, closing, states, steps) && i < |states|
    requires v in states[i].workers && Concerned(states[i].workers[v], closing)
    requires states[i].workers[v].id in states[i].rows
    requires w in states[i].workers && Concerned(states[i].workers[w], closing)
    requires states[i].workers[w].id in states[i].rows
    requires states[i].rows[states[i].workers[v].id].job == states[i].rows[states[i].workers[w].id].job
    ensures v == w
  {
    TimelyHoldersAreSecure(lease, d, closing, states, steps, i, v);
    TimelyHoldersAreSecure(lease, d, closing, states, steps, i, w);
    RunsKeepInv(lease, states, steps, i);
    if states[i].workers[v].id == states[i].workers[w].id {
      OneHolderPerDispatch(lease, states, steps, i, v, w);
    }
  }

  // ------------------------------------------------------------------ the timing condition can be met ...

  /** One more step by which no thread is overdue. */
  lemma Extend(lease: int, d: Delays, closing: bool, states: seq<State>, steps: seq<Step>, step: Step)
    returns (more: seq<State>)
    requires PromptRun(lease, d, closing, states, steps)
    requires var s := states[|states| - 1];
             Enabled(lease, s, step) && !BreaksRenewer(s, step) && AllPrompt(lease, d, closing, Apply(lease, s, step))
    ensures more == states + [Apply(lease, states[|states| - 1], step)]
    ensures PromptRun(lease, d, closing, more, steps + [step])
  {
    more := states + [Apply(lease, states[|states| - 1], step)];
    forall i | 0 <= i < |more| ensures AllPrompt(lease, d, closing, more[i]) {
      if i < |states| { assert AllPrompt(lease, d, closing, states[i]); }
    }
    ExtendRun(lease, states, steps, step);
    forall i | 0 <= i < |steps + [step]| ensures !BreaksRenewer(more[i], (steps + [step])[i]) {
      if i < |steps| { assert !BreaksRenewer(states[i], steps[i]); }
    }
  }

  lemma ExtendRun(lease: int, states: seq<State>, steps: seq<Step>, step: Step)
    requires IsRun(lease, states, steps) && Enabled(lease, states[|states| - 1], step)
    ensures IsRun(lease, states + [Apply(lease, states[|states| - 1], step)], steps + [step])
  {
    var more, all := states + [Apply(lease, states[|states| - 1], step)], steps + [step];
    forall i | 0 <= i < |all| ensures Enabled(lease, more[i], all[i]) && more[i + 1] == Apply(lease, more[i], all[i]) {
      if i < |steps| { assert all[i] == steps[i]; }
    }
  }

  /** Worker "w" processes "d" and its renewer has just started to wait; the claim's stamp is `lead` old. */
  ghost predicate Leads(lead: real, states: seq<State>) {
    && |states| > 0
    && var s := states[|states| - 1];
       && s.workers == map["w" := Working("d")]
       && s.renewers == map["d" := Renewer("w", Waiting(s.now), false, false)]
       && s.rows.Keys == {"d"} && HeldBy(s.rows["d"], "w") && s.rows["d"].claimedAt == Some(s.now - lead)
  }

  /** The row of the only dispatch once "w" has claimed it at time zero. */
  function FirstClaim(lease: int): Dispatch {
    Claimed(Fresh("schedule", 0.0, "d"), "w", 0.0, lease)
  }

  lemma ClaimsFirst(lease: int, d: Delays, closing: bool) returns (states: seq<State>, steps: seq<Step>)
    requires d.Valid()
    ensures PromptRun(lease, d, closing, states, steps)
    ensures states[|states| - 1] == State(0.0, map["d" := FirstClaim(lease)], map["w" := Reread("d", 0.0)], map[])
  {
    states, steps := [State(0.0, map[], map["w" := Ready], map[])], [];
    assert PromptRun(lease, d, closing, states, steps);
    states := Extend(lease, d, closing, states, steps, Enqueue("d", "schedule", 0.0));
    steps := steps + [Enqueue("d", "schedule", 0.0)];
    states := Extend(lease, d, closing, states, steps, Poll("w"));
    steps := steps + [Poll("w")];
    states := Extend(lease, d, closing, states, steps, Claim("w", "d"));
    steps := steps + [Claim("w", "d")];
  }

  /** A slow start: the renewer starts as late as it may. */
  lemma LeadsByStart(lease: int, d: Delays, closing: bool) returns (states: seq<State>, steps: seq<Step>)
    requires lease >= 1 && d.Valid()
    ensures PromptRun(lease, d, closing, states, steps) && Leads(d.start, states)
    ensures states[|states| - 1].now == d.start
  {
    states, steps := ClaimsFirst(lease, d, closing);
    states := Extend(lease, d, closing, states, steps, Tick(d.start));
    steps := steps + [Tick(d.start)];
    states := Extend(lease, d, closing, states, steps, ReadBack("w"));
    steps := steps + [ReadBack("w")];
  }

  /** The renewer wakes up and stamps, `wait` after its interval. */
  lemma Wakes(lease: int, d: Delays, closing: bool, wait: real, lead: real, before: seq<State>, taken: seq<Step>)
    returns (states: seq<State>, steps: seq<Step>)
    requires PromptRun(lease, d, closing, before, taken) && Leads(lead, before) && 0.0 <= wait <= d.wake
    ensures PromptRun(lease, d, closing, states, steps)
    ensures var s := before[|before| - 1];
            var at := s.now + RenewalInterval(lease) + wait;
            states[|states| - 1] == s.(now := at, renewers := map["d" := Renewer("w", Stamped(at), false, false)])
  {
    var tick := Tick(before[|before| - 1].now + RenewalInterval(lease) + wait);
    states := Extend(lease, d, closing, before, taken, tick);
    steps := taken + [tick];
    states := Extend(lease, d, closing, states, steps, Wake("d"));
    steps := steps + [Wake("d")];
  }

  /** A slow renewal: it is stamped in time and committed as late as it may be. */
  lemma LeadsByCommit(lease: int, d: Delays, closing: bool, lead: real, before: seq<State>, taken: seq<Step>)
    returns (states: seq<State>, steps: seq<Step>)
    requires PromptRun(lease, d, closing, before, taken) && Leads(lead, before)
    ensures PromptRun(lease, d, closing, states, steps) && Leads(d.commit, states)
    ensures states[|states| - 1].now == before[|before| - 1].now + RenewalInterval(lease) + d.commit
  {
    states, steps := Wakes(lease, d, closing, 0.0, lead, before, taken);
    var tick := Tick(states[|states| - 1].now + d.commit);
    states := Extend(lease, d, closing, states, steps, tick);
    steps := steps + [tick];
    states := Extend(lease, d, closing, states, steps, CommitRenewal("d"));
    steps := steps + [CommitRenewal("d")];
  }

  const NO_DELAYS := Delays(0.0, 0.0, 0.0, 0.0)

  /** Renewals carry a claim as long as one likes: for every n there is a timely run that lasts n intervals. */
  lemma {:induction false} ClaimsCanBeKept(lease: int, n: nat) returns (states: seq<State>, steps: seq<Step>)
    requires lease >= 1
    ensures TimelyRun(lease, NO_DELAYS, true, states, steps) && Leads(0.0, states)
    ensures states[|states| - 1].now == n as real * RenewalInterval(lease)
  {
    IntervalIsHalfLease(lease);
    if n == 0 {
      states, steps := LeadsByStart(lease, NO_DELAYS, true);
    } else {
      var before, taken := ClaimsCanBeKept(lease, n - 1);
      states, steps := LeadsByCommit(lease, NO_DELAYS, true, 0.0, before, taken);
    }
  }

  // ------------------------------------------------------------------ ... and is exact

  /** Delays that do not fit let a claim expire in a run in which every thread keeps to them. */
  lemma MisfitExpires(lease: int, d: Delays) returns (states: seq<State>, steps: seq<Step>)
    requires lease >= 1 && d.Valid() && !d.Fits(lease, false)
    ensures PromptRun(lease, d, false, states, steps)
    ensures InsecureWorker(states, |states| - 1, "w")
  {
    states, steps := LeadsByStart(lease, d, false);
    if d.Lead() == d.commit {
      states, steps := LeadsByCommit(lease, d, false, d.start, states, steps);
    }
    RunsKeepInv(lease, states, steps, |states| - 1);
    assert RowOk(lease, states[|states| - 1].rows, "d");
    states, steps := Wakes(lease, d, false, d.wake, d.Lead(), states, steps);
    var tick := Tick(states[|states| - 1].now + d.commit);
    states := Extend(lease, d, false, states, steps, tick);
    steps := steps + [tick];
  }

  /** A worker that processes under an expired claim. */
  predicate InsecureWorker(states: seq<State>, i: int, w: WorkerId) {
    && 0 <= i < |states| && w in states[i].workers && Concerned(states[i].workers[w], false)
    && !Secure(states[i], w, states[i].workers[w])
  }

  /** Bounds on delays rule out processing under an expired claim exactly when they fit into the lease. */
  lemma ProcessingIsSecureExactlyWhenDelaysFit(lease: int, d: Delays)
    requires lease >= 1 && d.Valid()
    ensures (forall states: seq<State>, steps, i, w :: PromptRun(lease, d, false, states, steps) ==>
              !InsecureWorker(states, i, w)) <==>
            d.Fits(lease, false)
  {
    if d.Fits(lease, false) {
      forall states: seq<State>, steps, i, w | PromptRun(lease, d, false, states, steps)
        ensures !InsecureWorker(states, i, w)
      {
        if 0 <= i < |states| && w in states[i].workers && Concerned(states[i].workers[w], false) {
          TimelyHoldersAreSecure(lease, d, false, states, steps, i, w);
        }
      }
    } else {
      var states, steps := MisfitExpires(lease, d);
    }
  }
}
