/**
 * Completeness, validation flags and the confidence verdict (`publication_confidence_service.py` and
 * `packages/platform/publication_confidence.py`), with the freshness of single runs (`source_freshness.py`).
 */
module PublicationConfidence {
  import opened Prelude
  import opened ContributingSources

  datatype FreshnessState = Current | DueSoon | Overdue | MissingPeriod | ParseFailed | Unconfigured

  datatype Verdict = Unavailable | Unreliable | Degraded | Trustworthy

  /**
   * A freshness config as of the assessment: `withinWindow` says that the grace window of the current cycle is
   * still open, `covers` whether a run landed at a time covers the expected period.
   */
  datatype FreshnessConfig = AdHoc | Scheduled(withinWindow: bool, covers: int -> bool)

  /**
   * What an assessment reads: resolvable runs, the listing for later landings where the store offers one, and configs.
   */
  datatype Metadata = Metadata(
    lookup: Lookup, listing: Option<seq<RunRecord>>, asOf: int, configs: map<string, FreshnessConfig>)

  /** `quality_flags`; `errors` is missing when no run was inspected. */
  datatype Flags = Flags(
    errors: Option<nat>, rejected: nat, validationUnknown: nat, expected: nat, covered: nat, completenessUnknown: nat)

  // ------------------------------------------------------------------ what the answers mean

  /** What a source's state says about its config and its contributing run. */
  predicate StateMeans(m: Metadata, s: Source, state: FreshnessState) {
    var configured := (s.assetId.Some? || s.declared) && s.key in m.configs;
    var known := s.runId in m.lookup;
    var failed := known && m.lookup[s.runId].status in {"rejected", "failed"};
    if !configured then state == if s.declared && s.assetId.None? then Current else Unconfigured
    else
      && (state == ParseFailed <==> failed)
      && (!failed ==>
            match m.configs[s.key]
            case AdHoc => state == Current
            case Scheduled(withinWindow, covers) =>
              var covered := known && m.lookup[s.runId].status in {"landed", "passed", "success", "completed"}
                               && covers(m.lookup[s.runId].createdAt);
              && (state == Current <==> covered)
              && (state == DueSoon <==> !covered && withinWindow)
              && (state == Overdue <==> !covered && !withinWindow))
  }

  /** The contributing run has landed, and with rows. */
  predicate HasRows(lookup: Lookup, s: Source) {
    && s.runId in lookup && lookup[s.runId].passed && lookup[s.runId].rowCount > 0
    && (s.rowCount.Some? ==> s.rowCount.value > 0)
  }

  /** A landing of the source's dataset that failed after its contributing run. */
  predicate FailedLater(m: Metadata, s: Source, run: RunRecord, later: RunRecord) {
    && later.dataset == run.dataset && later.runId != run.runId && later.status in {"rejected", "failed"}
    && (s.assetId.Some? || later.sourceName == run.sourceName)
    && run.createdAt < later.createdAt <= m.asOf
  }

  /** The run is known, and something is wrong with it or with a later landing. */
  ghost predicate Flawed(m: Metadata, s: Source) {
    && s.runId in m.lookup
    && var run := m.lookup[s.runId];
       || run.issues > 0 || !run.passed || run.status in {"rejected", "failed"}
       || (m.listing.Some? && exists later :: later in m.listing.value && FailedLater(m, s, run, later))
  }

  /** The positions of the sources with rows, and of those without a known run. */
  function Present(lookup: Lookup, sources: seq<Source>): set<int> {
    set i | 0 <= i < |sources| && HasRows(lookup, sources[i])
  }

  function Missing(lookup: Lookup, sources: seq<Source>): set<int> {
    set i | 0 <= i < |sources| && sources[i].runId !in lookup
  }

  // ------------------------------------------------------------------ evidence

  predicate IsLaterFailure(run: RunRecord, candidate: RunRecord, asOf: int, matchName: bool) {
    && candidate.dataset == run.dataset && candidate.runId != run.runId
    && (matchName ==> candidate.sourceName == run.sourceName)
    && candidate.Rejected() && run.createdAt < candidate.createdAt <= asOf
  }

  /** Failed landings of the run's dataset after it. */
  function LaterFailures(candidates: seq<RunRecord>, run: RunRecord, asOf: int, matchName: bool): seq<RunRecord> {
    if candidates == [] then []
    else
      LaterFailures(candidates[..|candidates| - 1], run, asOf, matchName) +
      if IsLaterFailure(run, candidates[|candidates| - 1], asOf, matchName) then [candidates[|candidates| - 1]] else []
  }

  function LaterFailuresOf(m: Metadata, run: RunRecord, s: Source): seq<RunRecord> {
    if m.listing.None? then [] else LaterFailures(m.listing.value, run, m.asOf, s.assetId.None?)
  }

  function Issues(runs: seq<RunRecord>): nat {
    if runs == [] then 0 else Issues(runs[..|runs| - 1]) + runs[|runs| - 1].issues
  }

  predicate Covers(s: Source, run: RunRecord) {
    run.passed && run.rowCount > 0 && (s.rowCount.Some? ==> s.rowCount.value > 0)
  }

  predicate Covered(lookup: Lookup, s: Source) {
    s.runId in lookup && Covers(s, lookup[s.runId])
  }

  ghost predicate AllPresent(lookup: Lookup, sources: seq<Source>) {
    sources != [] && forall s :: s in sources ==> Covered(lookup, s)
  }

  predicate Clean(m: Metadata, s: Source) {
    && s.runId in m.lookup && m.lookup[s.runId].issues == 0
    && m.lookup[s.runId].passed && !m.lookup[s.runId].Rejected()
    && LaterFailuresOf(m, m.lookup[s.runId], s) == []
  }

  function CoveredIn(lookup: Lookup, sources: seq<Source>): nat {
    if sources == [] then 0
    else CoveredIn(lookup, sources[..|sources| - 1]) + Once(Covered(lookup, sources[|sources| - 1]))
  }

  function UnknownIn(lookup: Lookup, sources: seq<Source>): nat {
    if sources == [] then 0
    else UnknownIn(lookup, sources[..|sources| - 1]) + Once(sources[|sources| - 1].runId !in lookup)
  }

  function Rejections(m: Metadata, s: Source): nat {
    if s.runId !in m.lookup then 0
    else
      var run := m.lookup[s.runId];
      Once(!run.passed || run.Rejected()) + |LaterFailuresOf(m, run, s)|
  }

  function Errors(m: Metadata, s: Source): nat {
    if s.runId !in m.lookup then 0 else m.lookup[s.runId].issues + Issues(LaterFailuresOf(m, m.lookup[s.runId], s))
  }

  function RejectionsIn(m: Metadata, sources: seq<Source>): nat {
    if sources == [] then 0 else RejectionsIn(m, sources[..|sources| - 1]) + Rejections(m, sources[|sources| - 1])
  }

  function ErrorsIn(m: Metadata, sources: seq<Source>): nat {
    if sources == [] then 0 else ErrorsIn(m, sources[..|sources| - 1]) + Errors(m, sources[|sources| - 1])
  }

  function Percentage(covered: nat, expected: nat): nat {
    if expected == 0 then 0 else 100 * covered / expected
  }

  function FlagsOf(m: Metadata, sources: seq<Source>): Flags {
    var unknown := UnknownIn(m.lookup, sources);
    Flags(
      if unknown < |sources| then Some(ErrorsIn(m, sources)) else None,
      RejectionsIn(m, sources), unknown, |sources|, CoveredIn(m.lookup, sources), unknown)
  }

  // ------------------------------------------------------------------ the folds

  /** `later_failed_runs`. */
  method FindLaterFailures(m: Metadata, run: RunRecord, s: Source) returns (failures: seq<RunRecord>)
    ensures failures == LaterFailuresOf(m, run, s)
    ensures forall c :: c in failures <==> m.listing.Some? && c in m.listing.value && FailedLater(m, s, run, c)
  {
    LaterFailuresMean(m, run, s);
    failures := [];
    if m.listing.Some? {
      var candidates := m.listing.value;
      for n := 0 to |candidates|
        invariant failures == LaterFailures(candidates[..n], run, m.asOf, s.assetId.None?)
      {
        assert candidates[..n + 1][..n] == candidates[..n];
        if IsLaterFailure(run, candidates[n], m.asOf, s.assetId.None?) { failures := failures + [candidates[n]]; }
      }
      assert candidates[..|candidates|] == candidates;
    }
  }

  lemma {:induction false} LaterFailuresFilter(
    candidates: seq<RunRecord>, m: Metadata, run: RunRecord, s: Source, matchName: bool)
    requires matchName == s.assetId.None?
    ensures forall c :: c in LaterFailures(candidates, run, m.asOf, matchName) <==>
              c in candidates && FailedLater(m, s, run, c)
    decreases |candidates|
  {
    if candidates == [] {
    } else {
      var n := |candidates| - 1;
      LaterFailuresFilter(candidates[..n], m, run, s, matchName);
      assert candidates == candidates[..n] + [candidates[n]];
    }
  }

  lemma LaterFailuresMean(m: Metadata, run: RunRecord, s: Source)
    ensures forall c :: c in LaterFailuresOf(m, run, s) <==>
              m.listing.Some? && c in m.listing.value && FailedLater(m, s, run, c)
  {
    if m.listing.Some? { LaterFailuresFilter(m.listing.value, m, run, s, s.assetId.None?); }
  }

  lemma CleanExactlyWhenKnownAndNotFlawed(m: Metadata, s: Source)
    ensures Clean(m, s) <==> s.runId in m.lookup && !Flawed(m, s)
  {
    if s.runId in m.lookup {
      var failures := LaterFailuresOf(m, m.lookup[s.runId], s);
      LaterFailuresMean(m, m.lookup[s.runId], s);
      if failures != [] { assert failures[0] in failures; }
    }
  }

  lemma {:induction false} CountsAreSizes(lookup: Lookup, sources: seq<Source>)
    ensures CoveredIn(lookup, sources) == |Present(lookup, sources)|
    ensures UnknownIn(lookup, sources) == |Missing(lookup, sources)|
    decreases |sources|
  {
    if sources == [] {
    } else {
      var n := |sources| - 1;
      CountsAreSizes(lookup, sources[..n]);
      PresentGrows(lookup, sources);
      MissingGrows(lookup, sources);
    }
  }

  lemma PresentGrows(lookup: Lookup, sources: seq<Source>)
    requires sources != []
    ensures |Present(lookup, sources)| ==
              |Present(lookup, sources[..|sources| - 1])| + Once(HasRows(lookup, sources[|sources| - 1]))
  {
    var n := |sources| - 1;
    if HasRows(lookup, sources[n]) {
      assert Present(lookup, sources) == Present(lookup, sources[..n]) + {n};
    } else {
      assert Present(lookup, sources) == Present(lookup, sources[..n]);
    }
  }

  lemma {:induction false} MissingGrows(lookup: Lookup, sources: seq<Source>)
    requires sources != []
    ensures |Missing(lookup, sources)| ==
              |Missing(lookup, sources[..|sources| - 1])| + Once(sources[|sources| - 1].runId !in lookup)
  {
    var n := |sources| - 1;
    if sources[n].runId !in lookup {
      assert Missing(lookup, sources) == Missing(lookup, sources[..n]) + {n};
    } else {
      assert Missing(lookup, sources) == Missing(lookup, sources[..n]);
    }
  }

  /** How many landings failed later, and how many issues they had. */
  method CountLaterFailures(m: Metadata, run: RunRecord, s: Source) returns (rejected: nat, issues: nat)
    ensures rejected == |LaterFailuresOf(m, run, s)| && issues == Issues(LaterFailuresOf(m, run, s))
  {
    var failures := FindLaterFailures(m, run, s);
    rejected, issues := 0, 0;
    for k := 0 to |failures|
      invariant rejected == k && issues == Issues(failures[..k])
    {
      assert failures[..k + 1][..k] == failures[..k];
      rejected, issues := rejected + 1, issues + failures[k].issues;
    }
    assert failures[..|failures|] == failures;
  }

  /** `_validation_flags`. */
  method ValidationFlags(m: Metadata, sources: seq<Source>, resolver: RunResolver)
    returns (errors: Option<nat>, rejected: nat, unknown: nat)
    requires resolver.Valid() && resolver.lookup == m.lookup
    modifies resolver
    ensures resolver.Valid()
    ensures errors == FlagsOf(m, sources).errors && rejected == FlagsOf(m, sources).rejected
    ensures unknown == FlagsOf(m, sources).validationUnknown
  {
    var count, checked := 0, 0;
    rejected, unknown := 0, 0;
    for n := 0 to |sources|
      invariant resolver.Valid()
      invariant rejected == RejectionsIn(m, sources[..n]) && unknown == UnknownIn(m.lookup, sources[..n])
      invariant count == ErrorsIn(m, sources[..n]) && checked + unknown == n
    {
      assert sources[..n + 1][..n] == sources[..n];
      var run := resolver.Get(sources[n].runId);
      if run.None? {
        unknown := unknown + 1;
      } else {
        checked, count := checked + 1, count + run.value.issues;
        if !run.value.passed || run.value.Rejected() { rejected := rejected + 1; }
        var later, found := CountLaterFailures(m, run.value, sources[n]);
        rejected, count := rejected + later, count + found;
      }
    }
    assert sources[..|sources|] == sources;
    errors := if checked > 0 then Some(count) else None;
  }

  /** `_completeness`. */
  method Completeness(lookup: Lookup, sources: seq<Source>, resolver: RunResolver)
    returns (pct: nat, expected: nat, covered: nat, unknown: nat)
    requires resolver.Valid() && resolver.lookup == lookup
    modifies resolver
    ensures resolver.Valid()
    ensures expected == |sources| && covered == CoveredIn(lookup, sources) && unknown == UnknownIn(lookup, sources)
    ensures covered == |Present(lookup, sources)| && unknown == |Missing(lookup, sources)|
    ensures pct == Percentage(covered, expected)
    ensures covered + unknown <= expected && pct <= 100
    ensures pct == 100 <==> AllPresent(lookup, sources)
  {
    expected, covered, unknown := |sources|, 0, 0;
    for n := 0 to |sources|
      invariant resolver.Valid()
      invariant covered == CoveredIn(lookup, sources[..n]) && unknown == UnknownIn(lookup, sources[..n])
    {
      assert sources[..n + 1][..n] == sources[..n];
      var run := resolver.Get(sources[n].runId);
      if run.None? {
        unknown := unknown + 1;
      } else if Covers(sources[n], run.value) {
        covered := covered + 1;
      }
    }
    assert sources[..|sources|] == sources;
    CompletenessBounds(lookup, sources);
    CountsAreSizes(lookup, sources);
    pct := Percentage(covered, expected);
  }

  lemma {:induction false} CountsAddUp(lookup: Lookup, sources: seq<Source>)
    ensures CoveredIn(lookup, sources) + UnknownIn(lookup, sources) <= |sources|
    decreases |sources|
  {
    if sources == [] {
    } else {
      CountsAddUp(lookup, sources[..|sources| - 1]);
    }
  }

  lemma {:induction false} AllCovered(lookup: Lookup, sources: seq<Source>)
    ensures CoveredIn(lookup, sources) <= |sources|
    ensures CoveredIn(lookup, sources) == |sources| <==> forall s :: s in sources ==> Covered(lookup, s)
    decreases |sources|
  {
    if sources == [] {
    } else {
      var n := |sources| - 1;
      AllCovered(lookup, sources[..n]);
      assert sources == sources[..n] + [sources[n]];
    }
  }

  lemma {:induction false} AllUnknown(sources: seq<Source>)
    ensures UnknownIn(map[], sources) == |sources| && CoveredIn(map[], sources) == 0
    decreases |sources|
  {
    if sources == [] {
    } else {
      AllUnknown(sources[..|sources| - 1]);
    }
  }

  /** An integer percentage that says 100 only when every source is covered. */
  lemma CompletenessBounds(lookup: Lookup, sources: seq<Source>)
    ensures CoveredIn(lookup, sources) + UnknownIn(lookup, sources) <= |sources|
    ensures Percentage(CoveredIn(lookup, sources), |sources|) <= 100
    ensures Percentage(CoveredIn(lookup, sources), |sources|) == 100 <==> AllPresent(lookup, sources)
  {
    CountsAddUp(lookup, sources);
    AllCovered(lookup, sources);
    if sources != [] { PercentageBounds(CoveredIn(lookup, sources), |sources|); }
  }

  lemma PercentageBounds(covered: nat, expected: nat)
    requires covered <= expected && expected > 0
    ensures Percentage(covered, expected) <= 100
    ensures Percentage(covered, expected) == 100 <==> covered == expected
  {
    var q := 100 * covered / expected;
    DivisionBounds(100 * covered, expected);
    if q >= 101 { TimesIsMonotone(101, q, expected); }
    if q == 100 { assert 100 * expected <= 100 * covered; }
    if covered == expected && q <= 99 { TimesIsMonotone(q + 1, 100, expected); }
  }

  lemma DivisionBounds(a: nat, d: nat)
    requires d > 0
    ensures a / d * d <= a < (a / d + 1) * d
  {
    assert a == a / d * d + a % d;
  }

  lemma TimesIsMonotone(a: int, b: int, d: nat)
    requires a <= b
    ensures a * d <= b * d
  {
  }

  // ------------------------------------------------------------------ freshness

  /** Source names are never matched against configs. */
  predicate Configured(m: Metadata, s: Source) {
    (s.assetId.Some? || s.declared) && s.key in m.configs
  }

  /** The state of a source, judged by its contributing run alone. */
  function StateOf(m: Metadata, s: Source): FreshnessState {
    if !Configured(m, s) then (if s.declared && s.assetId.None? then Current else Unconfigured)
    else if s.runId in m.lookup && m.lookup[s.runId].Rejected() then ParseFailed
    else match m.configs[s.key]
      case AdHoc => Current
      case Scheduled(withinWindow, covers) =>
        if s.runId in m.lookup && m.lookup[s.runId].Succeeded() && covers(m.lookup[s.runId].createdAt) then Current
        else if withinWindow then DueSoon else Overdue
  }

  function StatesOf(m: Metadata, sources: seq<Source>): (states: seq<FreshnessState>)
    ensures |states| == |sources| && forall i :: 0 <= i < |states| ==> states[i] == StateOf(m, sources[i])
  {
    seq(|sources|, i requires 0 <= i < |sources| => StateOf(m, sources[i]))
  }

  /**
   * "An unknown run can never read current" holds for scheduled sources only: without its run a source reads
   * current exactly when its config is ad hoc, or it has none and lineage declares it.
   */
  lemma CurrentWithoutRunExactlyWhen(m: Metadata, s: Source)
    requires s.runId !in m.lookup
    ensures StateOf(m, s) == Current <==>
            if Configured(m, s) then m.configs[s.key].AdHoc? else s.declared && s.assetId.None?
  {
  }

  /** Exactly one state means what it says. */
  lemma StatesMean(m: Metadata, s: Source, state: FreshnessState)
    ensures StateMeans(m, s, state) <==> state == StateOf(m, s)
  {
  }

  /** `_evaluate_freshness` over the contributing sources. */
  method EvaluateFreshness(m: Metadata, sources: seq<Source>, resolver: RunResolver)
    returns (states: seq<FreshnessState>)
    requires resolver.Valid() && resolver.lookup == m.lookup
    modifies resolver
    ensures resolver.Valid() && states == StatesOf(m, sources)
    ensures |states| == |sources| && forall i :: 0 <= i < |states| ==> StateMeans(m, sources[i], states[i])
  {
    forall s ensures StateMeans(m, s, StateOf(m, s)) { StatesMean(m, s, StateOf(m, s)); }
    states := [];
    for n := 0 to |sources|
      invariant resolver.Valid()
      invariant |states| == n && forall i :: 0 <= i < n ==> states[i] == StateOf(m, sources[i])
    {
      var s := sources[n];
      var state := if s.declared && s.assetId.None? then Current else Unconfigured;
      if (s.assetId.Some? || s.declared) && s.key in m.configs {
        var run := resolver.Get(s.runId);
        var config := m.configs[s.key];
        if run.Some? && run.value.Rejected() {
          state := ParseFailed;
        } else if config.AdHoc? || (run.Some? && run.value.Succeeded() && config.covers(run.value.createdAt)) {
          state := Current;
        } else {
          state := if config.withinWindow then DueSoon else Overdue;
        }
      }
      states := states + [state];
    }
  }

  // ------------------------------------------------------------------ the verdict

  predicate Stale(states: seq<FreshnessState>) {
    Overdue in states || MissingPeriod in states
  }

  function UpperBound(pct: int, flags: Flags): real {
    if flags.completenessUnknown == 0 || flags.expected == 0 then pct as real
    else
      var bound := pct as real + 100.0 * flags.completenessUnknown as real / flags.expected as real;
      if bound < 100.0 then bound else 100.0
  }

  /** `_compute_verdict`, `validation_signal_state` and `completeness_signal_state` included. */
  function ComputeVerdict(states: seq<FreshnessState>, pct: int, flags: Flags): Verdict {
    var hasErrors := (flags.errors.Some? && flags.errors.value > 0) || flags.rejected > 0;
    if states == [] then Unavailable
    else if forall i :: 0 <= i < |states| ==> states[i] == Unconfigured then Unavailable
    else if (forall i :: 0 <= i < |states| ==> states[i] == Current) && pct == 100 && flags.completenessUnknown == 0
            && flags.errors.Some? && flags.validationUnknown == 0 && !hasErrors then Trustworthy
    else if Stale(states) || hasErrors then (if UpperBound(pct, flags) < 50.0 then Unreliable else Degraded)
    else Degraded
  }

  function Assess(m: Metadata, sources: seq<Source>): Verdict {
    ComputeVerdict(StatesOf(m, sources), Percentage(CoveredIn(m.lookup, sources), |sources|), FlagsOf(m, sources))
  }

  lemma {:induction false} FlaggedExactlyWhenUnclean(m: Metadata, sources: seq<Source>)
    ensures (forall s :: s in sources ==> Clean(m, s)) <==>
            UnknownIn(m.lookup, sources) == 0 && ErrorsIn(m, sources) == 0 && RejectionsIn(m, sources) == 0
    decreases |sources|
  {
    if sources == [] {
    } else {
      var n := |sources| - 1;
      var s := sources[n];
      FlaggedExactlyWhenUnclean(m, sources[..n]);
      assert sources == sources[..n] + [s];
      assert Clean(m, s) <==> s.runId in m.lookup && Errors(m, s) == 0 && Rejections(m, s) == 0;
    }
  }

  /** Current, present and verifiably clean. */
  ghost predicate Sound(m: Metadata, s: Source) {
    StateMeans(m, s, Current) && HasRows(m.lookup, s) && !Flawed(m, s)
  }

  lemma SoundExactlyWhen(m: Metadata, s: Source)
    ensures Sound(m, s) <==> StateOf(m, s) == Current && Covered(m.lookup, s) && Clean(m, s)
  {
    StatesMean(m, s, Current);
    CleanExactlyWhenKnownAndNotFlawed(m, s);
  }

  lemma {:induction false} AllSoundExactlyWhen(m: Metadata, sources: seq<Source>)
    ensures (forall s :: s in sources ==> Sound(m, s)) <==>
            && (forall i :: 0 <= i < |sources| ==> StatesOf(m, sources)[i] == Current)
            && (forall s :: s in sources ==> Covered(m.lookup, s)) && (forall s :: s in sources ==> Clean(m, s))
  {
    forall s ensures Sound(m, s) <==> StateOf(m, s) == Current && Covered(m.lookup, s) && Clean(m, s) {
      SoundExactlyWhen(m, s);
    }
    if forall s :: s in sources ==> Sound(m, s) {
      forall i | 0 <= i < |sources| ensures StatesOf(m, sources)[i] == Current {
        assert sources[i] in sources && Sound(m, sources[i]);
      }
      forall s | s in sources ensures Covered(m.lookup, s) && Clean(m, s) { assert Sound(m, s); }
    }
    if forall i :: 0 <= i < |sources| ==> StatesOf(m, sources)[i] == Current {
      forall s | s in sources ensures StateOf(m, s) == Current {
        var i :| 0 <= i < |sources| && sources[i] == s;
        assert StatesOf(m, sources)[i] == Current;
      }
    }
  }

  /** Trustworthy means: every source is current, present and verifiably clean, with no later failed landing. */
  lemma {:induction false} TrustworthyExactlyWhen(m: Metadata, sources: seq<Source>)
    ensures Assess(m, sources) == Trustworthy <==> sources != [] && forall s :: s in sources ==> Sound(m, s)
  {
    CompletenessBounds(m.lookup, sources);
    FlaggedExactlyWhenUnclean(m, sources);
    AllSoundExactlyWhen(m, sources);
    if sources != [] && forall i :: 0 <= i < |sources| ==> StatesOf(m, sources)[i] == Current {
      assert StatesOf(m, sources)[0] == Current;
    }
  }

  // ------------------------------------------------------------------ the 50% threshold

  /** Fewer than half the sources would be covered even if every unknown one were. */
  predicate UnderHalf(covered: nat, unknown: nat, expected: nat) {
    2 * (covered + unknown) < expected
  }

  /** The same, or at least half would be covered, but by less than rounding the percentage took away. */
  predicate TooFew(covered: nat, unknown: nat, expected: nat)
    requires expected > 0
  {
    || UnderHalf(covered, unknown, expected)
    || (unknown > 0 && 0 <= 100 * (covered + unknown) - 50 * expected < 100 * covered % expected)
  }

  lemma {:induction false} BoundIsUnderHalf(flags: Flags)
    requires flags.expected > 0
    ensures UpperBound(Percentage(flags.covered, flags.expected), flags) < 50.0 <==>
              TooFew(flags.covered, flags.completenessUnknown, flags.expected)
  {
    RoundedThreshold(flags.covered, flags.completenessUnknown, flags.expected);
  }

  /**
   * The documented threshold is `UnderHalf`, the one in the code is `TooFew`: they differ by the rounding of
   * the percentage.
   */
  lemma ThresholdIsUnderHalfExceptForRounding(m: Metadata, sources: seq<Source>)
    requires sources != []
    ensures var covered, unknown, expected := CoveredIn(m.lookup, sources), UnknownIn(m.lookup, sources), |sources|;
            UpperBound(Percentage(covered, expected), FlagsOf(m, sources)) < 50.0 <==>
              TooFew(covered, unknown, expected)
  {
    BoundIsUnderHalf(FlagsOf(m, sources));
  }

  lemma {:induction false} CountOneMore(lookup: Lookup, sources: seq<Source>, s: Source)
    ensures CoveredIn(lookup, sources + [s]) == CoveredIn(lookup, sources) + if Covered(lookup, s) then 1 else 0
    ensures UnknownIn(lookup, sources + [s]) == UnknownIn(lookup, sources) + if s.runId in lookup then 0 else 1
  {
    assert (sources + [s])[..|sources|] == sources;
  }

  function Declares(key: string, runId: string): Source {
    Source(key, runId, None, true, None)
  }

  /** Six sources: one present and overdue, two whose runs are unknown, three without rows. */
  function SixSources(): seq<Source> {
    [Declares("a", "landing"), Declares("b", "gone"), Declares("c", "gone"),
     Declares("d", "empty"), Declares("e", "empty"), Declares("f", "empty")]
  }

  function Landing(runId: string, rowCount: nat): RunRecord {
    RunRecord(runId, true, "landed", rowCount, 0, "s", "data", 0)
  }

  function SixSourcesMetadata(): Metadata {
    Metadata(map["landing" := Landing("landing", 1), "empty" := Landing("empty", 0)], None, 1,
             map["a" := Scheduled(false, _ => false)])
  }

  /** One covered source, two unknown ones and three known ones that are not covered. */
  lemma CountSix(lookup: Lookup, a: Source, b: Source, c: Source, d: Source, e: Source, f: Source)
    requires Covered(lookup, a) && a.runId in lookup && b.runId !in lookup && c.runId !in lookup
    requires forall s :: s in {d, e, f} ==> !Covered(lookup, s) && s.runId in lookup
    ensures CoveredIn(lookup, [a, b, c, d, e, f]) == 1 && UnknownIn(lookup, [a, b, c, d, e, f]) == 2
  {
    CountOneMore(lookup, [], a);
    CountOneMore(lookup, [a], b);
    CountOneMore(lookup, [a, b], c);
    CountOneMore(lookup, [a, b, c], d);
    CountOneMore(lookup, [a, b, c, d], e);
    CountOneMore(lookup, [a, b, c, d, e], f);
    assert [] + [a] == [a] && [a] + [b] == [a, b] && [a, b] + [c] == [a, b, c];
    assert [a, b, c] + [d] == [a, b, c, d] && [a, b, c, d] + [e] == [a, b, c, d, e];
    assert [a, b, c, d, e] + [f] == [a, b, c, d, e, f];
  }

  lemma CountSixSources(lookup: Lookup)
    requires "landing" in lookup && lookup["landing"].passed && lookup["landing"].rowCount > 0
    requires "gone" !in lookup && "empty" in lookup && lookup["empty"].rowCount == 0
    ensures CoveredIn(lookup, SixSources()) == 1 && UnknownIn(lookup, SixSources()) == 2
  {
    var s := SixSources();
    CountSix(lookup, s[0], s[1], s[2], s[3], s[4], s[5]);
    assert s == [s[0], s[1], s[2], s[3], s[4], s[5]];
  }

  /** So half of the sources may be covered, yet the publication is unreliable, as the one landing is out of date. */
  lemma RoundingCrossesTheThreshold()
    ensures var m, sources := SixSourcesMetadata(), SixSources();
            && !UnderHalf(CoveredIn(m.lookup, sources), UnknownIn(m.lookup, sources), |sources|)
            && Assess(m, sources) == Unreliable
  {
    var m, sources := SixSourcesMetadata(), SixSources();
    CountSixSources(m.lookup);
    assert StatesOf(m, sources)[0] == Overdue;
    ThresholdIsUnderHalfExceptForRounding(m, sources);
  }

  lemma RoundedThreshold(c: nat, u: nat, e: nat)
    requires e > 0
    ensures u == 0 ==> (Percentage(c, e) < 50 <==> UnderHalf(c, u, e))
    ensures u > 0 ==>
              (Percentage(c, e) as real + 100.0 * u as real / e as real < 50.0 <==>
               UnderHalf(c, u, e) || 0 <= 100 * (c + u) - 50 * e < 100 * c % e)
  {
    var q, r := 100 * c / e, 100 * c % e;
    DivisionBounds(100 * c, e);
    assert r == 100 * c - q * e;
    IntegerThreshold(c, e, q, r);
    RealThreshold(u, e, q);
  }

  lemma IntegerThreshold(c: nat, e: nat, q: nat, r: nat)
    requires 0 <= r < e && 100 * c == q * e + r
    ensures q < 50 <==> 2 * c < e
  {
    if q >= 50 { TimesIsMonotone(50, q, e); } else { TimesIsMonotone(q, 49, e); }
  }

  lemma RealThreshold(u: nat, e: nat, q: nat)
    requires e > 0
    ensures q as real + 100.0 * u as real / e as real < 50.0 <==> q * e + 100 * u < 50 * e
  {
    ScaledThreshold(q as real, 100.0 * u as real, e as real);
    RealProduct(q, e);
    SameOverIntegers(q * e, u, e);
  }

  lemma ScaledThreshold(x: real, share: real, n: real)
    requires n > 0.0
    ensures x + share / n < 50.0 <==> x * n + share < 50.0 * n
  {
    RealDivision(share, n);
    RealSum(x, share / n, n);
    RealOrder(x + share / n, 50.0, n);
  }

  lemma SameOverIntegers(p: nat, u: nat, e: nat)
    ensures p as real + 100.0 * u as real < 50.0 * e as real <==> p + 100 * u < 50 * e
  {
  }

  lemma RealSum(a: real, b: real, d: real)
    ensures (a + b) * d == a * d + b * d
  {
  }

  lemma {:induction false} RealProduct(a: nat, b: nat)
    ensures (a * b) as real == a as real * b as real
  {
    if a == 0 {
    } else {
      RealProduct(a - 1, b);
      assert a * b == (a - 1) * b + b;
      RealSum((a - 1) as real, 1.0, b as real);
    }
  }

  lemma RealDivision(a: real, d: real)
    requires d > 0.0
    ensures a / d * d == a
  {
  }

  lemma RealOrder(a: real, b: real, d: real)
    requires d > 0.0
    ensures a < b <==> a * d < b * d
  {
  }

  // ------------------------------------------------------------------ hidden runs

  /** Some runs can no longer be resolved. */
  predicate Hides(hidden: Lookup, lookup: Lookup) {
    forall id :: id in hidden ==> id in lookup && hidden[id] == lookup[id]
  }

  /** Hiding runs never raises completeness and never hides that something is unknown. */
  lemma {:induction false} HidingLowersCompleteness(hidden: Lookup, lookup: Lookup, sources: seq<Source>)
    requires Hides(hidden, lookup)
    ensures CoveredIn(hidden, sources) <= CoveredIn(lookup, sources)
    ensures UnknownIn(hidden, sources) >= UnknownIn(lookup, sources)
    ensures Percentage(CoveredIn(hidden, sources), |sources|) <= Percentage(CoveredIn(lookup, sources), |sources|)
    ensures CoveredIn(lookup, sources) + UnknownIn(lookup, sources)
         <= CoveredIn(hidden, sources) + UnknownIn(hidden, sources)
    decreases |sources|
  {
    if sources == [] {
    } else {
      var n := |sources| - 1;
      HidingLowersCompleteness(hidden, lookup, sources[..n]);
      DivisionIsMonotone(100 * CoveredIn(hidden, sources), 100 * CoveredIn(lookup, sources), |sources|);
    }
  }

  lemma DivisionIsMonotone(a: nat, b: nat, d: nat)
    requires a <= b && d > 0
    ensures a / d <= b / d
  {
    DivisionBounds(a, d);
    DivisionBounds(b, d);
    if b / d < a / d { TimesIsMonotone(b / d + 1, a / d, d); }
  }

  function Rank(v: Verdict): nat {
    match v
    case Unavailable => 0
    case Unreliable => 1
    case Degraded => 2
    case Trustworthy => 3
  }

  predicate Upgrades(m: Metadata, hidden: Lookup, sources: seq<Source>) {
    Hides(hidden, m.lookup) && Rank(Assess(m.(lookup := hidden), sources)) > Rank(Assess(m, sources))
  }

  /** Hidden runs never make a publication trustworthy. */
  lemma HidingNeverMakesTrustworthy(m: Metadata, hidden: Lookup, sources: seq<Source>)
    requires Hides(hidden, m.lookup)
    requires Assess(m.(lookup := hidden), sources) == Trustworthy
    ensures Assess(m, sources) == Trustworthy
  {
    var h := m.(lookup := hidden);
    TrustworthyExactlyWhen(h, sources);
    TrustworthyExactlyWhen(m, sources);
    forall s | s in sources ensures Sound(m, s) {
      assert Sound(h, s);
    }
  }

  /** Hiding runs neither gives nor takes a config. */
  lemma UnconfiguredStaysUnconfigured(m: Metadata, hidden: Lookup, s: Source)
    ensures StateOf(m.(lookup := hidden), s) == Unconfigured <==> StateOf(m, s) == Unconfigured
  {
  }

  lemma UnavailableStaysUnavailable(m: Metadata, hidden: Lookup, sources: seq<Source>)
    ensures Assess(m.(lookup := hidden), sources) == Unavailable <==> Assess(m, sources) == Unavailable
  {
    var h := m.(lookup := hidden);
    var a, b := StatesOf(m, sources), StatesOf(h, sources);
    forall i | 0 <= i < |sources| ensures a[i] == Unconfigured <==> b[i] == Unconfigured {
      UnconfiguredStaysUnconfigured(m, hidden, sources[i]);
    }
  }

  lemma {:induction false} FullBound(sources: seq<Source>, m: Metadata)
    requires sources != [] && UnknownIn(m.lookup, sources) == |sources|
    ensures UpperBound(Percentage(CoveredIn(m.lookup, sources), |sources|), FlagsOf(m, sources)) >= 50.0
  {
    var pct := Percentage(CoveredIn(m.lookup, sources), |sources|);
    TimesIsMonotone(0, pct, |sources|);
    RealThreshold(|sources|, |sources|, pct);
  }

  // ------------------------------------------------------------------ when the verdict is unreliable

  /** What counts against a source: it is overdue, or its run is known and not clean. */
  ghost predicate Suspect(m: Metadata, s: Source) {
    StateMeans(m, s, Overdue) || Flawed(m, s)
  }

  ghost predicate UnreliableSources(m: Metadata, sources: seq<Source>)
    requires sources != []
  {
    && (exists s :: s in sources && !StateMeans(m, s, Unconfigured))
    && (exists s :: s in sources && Suspect(m, s))
    && TooFew(|Present(m.lookup, sources)|, |Missing(m.lookup, sources)|, |sources|)
  }

  lemma SuspectExactlyWhen(m: Metadata, s: Source)
    ensures Suspect(m, s) <==> StateOf(m, s) == Overdue || (s.runId in m.lookup && !Clean(m, s))
    ensures StateMeans(m, s, Unconfigured) <==> StateOf(m, s) == Unconfigured
  {
    StatesMean(m, s, Overdue);
    StatesMean(m, s, Unconfigured);
    CleanExactlyWhenKnownAndNotFlawed(m, s);
  }

  lemma {:induction false} FlaggedExactlyWhenSomeRunIsUnclean(m: Metadata, sources: seq<Source>)
    ensures ErrorsIn(m, sources) > 0 || RejectionsIn(m, sources) > 0 <==>
            exists s :: s in sources && s.runId in m.lookup && !Clean(m, s)
    ensures ErrorsIn(m, sources) > 0 ==> UnknownIn(m.lookup, sources) < |sources|
    decreases |sources|
  {
    if sources == [] {
    } else {
      var n := |sources| - 1;
      var s := sources[n];
      FlaggedExactlyWhenSomeRunIsUnclean(m, sources[..n]);
      CountsAddUp(m.lookup, sources[..n]);
      assert sources == sources[..n] + [s];
      assert s.runId in m.lookup ==> (Clean(m, s) <==> Errors(m, s) == 0 && Rejections(m, s) == 0);
    }
  }

  lemma {:induction false} StaleExactlyWhenSomeOverdue(m: Metadata, sources: seq<Source>)
    ensures Stale(StatesOf(m, sources)) <==> exists s :: s in sources && StateOf(m, s) == Overdue
    ensures (forall i :: 0 <= i < |sources| ==> StatesOf(m, sources)[i] == Unconfigured) <==>
            forall s :: s in sources ==> StateOf(m, s) == Unconfigured
  {
    var states := StatesOf(m, sources);
    if s :| s in sources && StateOf(m, s) == Overdue {
      var i :| 0 <= i < |sources| && sources[i] == s;
      assert states[i] == Overdue;
    }
    if Stale(states) {
      var i :| 0 <= i < |states| && (states[i] == Overdue || states[i] == MissingPeriod);
      assert sources[i] in sources && StateOf(m, sources[i]) == states[i];
    }
    if forall i :: 0 <= i < |sources| ==> states[i] == Unconfigured {
      forall s | s in sources ensures StateOf(m, s) == Unconfigured {
        var i :| 0 <= i < |sources| && sources[i] == s;
        assert states[i] == Unconfigured;
      }
    }
  }

  lemma {:induction false} SomethingCountsAgainst(m: Metadata, sources: seq<Source>)
    ensures Stale(StatesOf(m, sources)) || ErrorsIn(m, sources) > 0 || RejectionsIn(m, sources) > 0 <==>
              exists s :: s in sources && Suspect(m, s)
  {
    StaleExactlyWhenSomeOverdue(m, sources);
    FlaggedExactlyWhenSomeRunIsUnclean(m, sources);
    forall s ensures Suspect(m, s) <==> StateOf(m, s) == Overdue || (s.runId in m.lookup && !Clean(m, s)) {
      SuspectExactlyWhen(m, s);
    }
    if s :| s in sources && StateOf(m, s) == Overdue { assert Suspect(m, s); }
    if s :| s in sources && s.runId in m.lookup && !Clean(m, s) { assert Suspect(m, s); }
  }

  lemma {:induction false} UnavailableExactlyWhen(m: Metadata, sources: seq<Source>)
    ensures Assess(m, sources) == Unavailable <==> forall s :: s in sources ==> StateMeans(m, s, Unconfigured)
  {
    StaleExactlyWhenSomeOverdue(m, sources);
    forall s ensures StateMeans(m, s, Unconfigured) <==> StateOf(m, s) == Unconfigured { SuspectExactlyWhen(m, s); }
  }

  /** A known flaw is counted among the errors or the rejections that the verdict looks at. */
  lemma {:induction false} ErrorsAreSeen(m: Metadata, sources: seq<Source>)
    ensures var flags := FlagsOf(m, sources);
            (flags.errors.Some? && flags.errors.value > 0) || flags.rejected > 0 <==>
              ErrorsIn(m, sources) > 0 || RejectionsIn(m, sources) > 0
  {
    FlaggedExactlyWhenSomeRunIsUnclean(m, sources);
  }

  /** Unreliable means: some source is configured, something counts against one, and too few may be covered. */
  lemma {:induction false} UnreliableExactlyWhen(m: Metadata, sources: seq<Source>)
    requires sources != []
    ensures Assess(m, sources) == Unreliable <==> UnreliableSources(m, sources)
  {
    ThresholdIsUnderHalfExceptForRounding(m, sources);
    CountsAreSizes(m.lookup, sources);
    ErrorsAreSeen(m, sources);
    SomethingCountsAgainst(m, sources);
    UnavailableExactlyWhen(m, sources);
    if Stale(StatesOf(m, sources)) { StaleIsNotCurrent(StatesOf(m, sources)); }
  }

  lemma StaleIsNotCurrent(states: seq<FreshnessState>)
    requires Stale(states)
    ensures exists i :: 0 <= i < |states| && states[i] != Current
  {
    var i :| 0 <= i < |states| && (states[i] == Overdue || states[i] == MissingPeriod);
  }

  /** Forgetting every run makes an unreliable publication degraded. */
  lemma {:induction false} ForgettingUpgrades(m: Metadata, sources: seq<Source>)
    requires sources != [] && UnreliableSources(m, sources)
    ensures Assess(m, sources) == Unreliable && Assess(m.(lookup := map[]), sources) == Degraded
    ensures Upgrades(m, map[], sources)
  {
    UnreliableExactlyWhen(m, sources);
    AllUnknown(sources);
    FullBound(sources, m.(lookup := map[]));
    UnavailableStaysUnavailable(m, map[], sources);
    if Assess(m.(lookup := map[]), sources) == Trustworthy {
      HidingNeverMakesTrustworthy(m, map[], sources);
    }
  }

  /**
   * "Unknown inputs never upgrade the verdict" holds except that some hiding makes a publication degraded
   * instead of unreliable, exactly when its sources are such that it is unreliable.
   */
  lemma {:induction false} HidingUpgradesExactlyWhenUnreliable(m: Metadata, sources: seq<Source>)
    requires sources != []
    ensures (exists hidden :: Upgrades(m, hidden, sources)) <==> UnreliableSources(m, sources)
    ensures forall hidden :: Upgrades(m, hidden, sources) ==> Assess(m.(lookup := hidden), sources) == Degraded
  {
    UnreliableExactlyWhen(m, sources);
    if UnreliableSources(m, sources) { ForgettingUpgrades(m, sources); }
    forall hidden | Upgrades(m, hidden, sources)
      ensures Assess(m, sources) == Unreliable && Assess(m.(lookup := hidden), sources) == Degraded
    {
      UnavailableStaysUnavailable(m, hidden, sources);
      if Assess(m.(lookup := hidden), sources) == Trustworthy {
        HidingNeverMakesTrustworthy(m, hidden, sources);
      }
    }
  }

  /** Such a publication: its one source failed, and reads degraded once the failed run is forgotten. */
  lemma HiddenFailureUpgrades()
    ensures var sources := [Source("s", "r", None, true, None)];
            var failed := RunRecord("r", false, "failed", 0, 1, "s", "data", 0);
            var m := Metadata(map["r" := failed], None, 1, map[]);
            Assess(m, sources) == Unreliable && Assess(m.(lookup := map[]), sources) == Degraded
  {
    var s := Source("s", "r", None, true, None);
    var failed := RunRecord("r", false, "failed", 0, 1, "s", "data", 0);
    var m := Metadata(map["r" := failed], None, 1, map[]);
    CountOneMore(m.lookup, [], s);
    assert [] + [s] == [s];
    CountsAreSizes(m.lookup, [s]);
    assert s in [s] && Suspect(m, s);
    ForgettingUpgrades(m, [s]);
  }

  // ------------------------------------------------------------------ the code

  /**
   * `compute_and_record_publication_confidence`, from the contributing sources to the verdict: each verdict
   * exactly when the sources, their configs and their runs say so.
   */
  method AssessPublication(m: Metadata, sources: seq<Source>, resolver: RunResolver) returns (verdict: Verdict)
    requires resolver.Valid() && resolver.lookup == m.lookup
    modifies resolver
    ensures resolver.Valid() && verdict == Assess(m, sources)
    ensures verdict == Unavailable <==> forall s :: s in sources ==> StateMeans(m, s, Unconfigured)
    ensures verdict == Trustworthy <==> sources != [] && forall s :: s in sources ==> Sound(m, s)
    ensures verdict == Unreliable <==> sources != [] && UnreliableSources(m, sources)
  {
    var states := EvaluateFreshness(m, sources, resolver);
    var pct, expected, covered, unknown := Completeness(m.lookup, sources, resolver);
    var errors, rejected, unchecked := ValidationFlags(m, sources, resolver);
    UnavailableExactlyWhen(m, sources);
    TrustworthyExactlyWhen(m, sources);
    if sources != [] { UnreliableExactlyWhen(m, sources); }
    verdict := ComputeVerdict(states, pct, Flags(errors, rejected, unchecked, expected, covered, unknown));
  }
}
