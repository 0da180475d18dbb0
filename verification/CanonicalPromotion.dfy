/**
 * Promotion of landed runs into the warehouse (`run_canonical_promotion`, `packages/pipelines/promotion_registry.py`).
 * The process may die between any two effects.
 */
module CanonicalPromotion {
  import opened Prelude

  datatype Run = Run(passed: bool, header: seq<string>)

  /** A domain's handler; `rows` are the serialized canonical rows of each run. */
  datatype Handler = Handler(requiredHeader: set<string>, refreshKeys: seq<string>, rows: map<string, seq<string>>)
  {
    function RowsOf(runId: string): seq<string> { if runId in rows then rows[runId] else [] }
  }

  datatype World = World(runs: map<string, Run>, handlers: map<string, Handler>)
  {
    /** The run is one its domain's handler promotes. */
    predicate Eligible(domain: string, runId: string) {
      && domain in handlers && runId in runs && runs[runId].passed
      && handlers[domain].requiredHeader <= set column | column in runs[runId].header
    }
  }

  /** Loaded rows carry the run they came from. */
  datatype Fact = Fact(runId: string, row: string)

  type Facts = map<string, seq<Fact>>

  /** Facts by domain; a mart is represented by the facts it was last computed from. */
  datatype Warehouse = Warehouse(facts: Facts, marts: map<string, Facts>)

  function FactsOf(facts: Facts, domain: string): seq<Fact> {
    if domain in facts then facts[domain] else []
  }

  function Tag(runId: string, rows: seq<string>): (r: seq<Fact>)
    ensures |r| == |rows|
  {
    seq(|rows|, i requires 0 <= i < |rows| => Fact(runId, rows[i]))
  }

  /** The rows loaded for a run, in order. */
  function LoadedFor(facts: seq<Fact>, runId: string): seq<string> {
    if facts == [] then []
    else
      LoadedFor(facts[..|facts| - 1], runId) +
      if facts[|facts| - 1].runId == runId then [facts[|facts| - 1].row] else []
  }

  /** Where the process dies: nowhere, before the load, or after the load and `refreshed` marts. */
  datatype Crash = Never | BeforeLoad | Refreshing(refreshed: nat)

  datatype Attempt = Attempt(domain: string, runId: string, crash: Crash)

  datatype Skip = NotPassed | HeaderMismatch | AlreadyPromoted

  datatype Outcome = UnknownRun | Crashed | Skipped(reason: Skip) | Promoted(factsLoaded: nat)

  // ------------------------------------------------------------------ specification

  function Load(world: World, w: Warehouse, domain: string, runId: string): Warehouse
    requires domain in world.handlers
  {
    if LoadedFor(FactsOf(w.facts, domain), runId) != [] then w
    else w.(facts := w.facts[domain := FactsOf(w.facts, domain) + Tag(runId, world.handlers[domain].RowsOf(runId))])
  }

  function Refresh(w: Warehouse, keys: seq<string>): Warehouse {
    w.(marts := map k | k in w.marts.Keys + (set key | key in keys) :: if k in keys then w.facts else w.marts[k])
  }

  lemma RefreshOneMore(w: Warehouse, keys: seq<string>, key: string)
    ensures Refresh(w, keys + [key]).marts == Refresh(w, keys).marts[key := w.facts]
  {
    assert (set k | k in keys + [key]) == (set k | k in keys) + {key};
  }

  function KeysReached(world: World, a: Attempt): seq<string>
    requires a.domain in world.handlers
  {
    var keys := world.handlers[a.domain].refreshKeys;
    if a.crash.Refreshing? && a.crash.refreshed < |keys| then keys[..a.crash.refreshed] else keys
  }

  predicate Reaches(world: World, a: Attempt) {
    world.Eligible(a.domain, a.runId) && !a.crash.BeforeLoad?
  }

  function After1(world: World, w: Warehouse, a: Attempt): Warehouse {
    if Reaches(world, a) then Refresh(Load(world, w, a.domain, a.runId), KeysReached(world, a)) else w
  }

  /** The warehouse after a whole history of attempts. */
  function After(world: World, history: seq<Attempt>): Warehouse {
    if history == [] then Warehouse(map[], map[])
    else After1(world, After(world, history[..|history| - 1]), history[|history| - 1])
  }

  predicate AlreadyLoaded(w: Warehouse, a: Attempt) {
    LoadedFor(FactsOf(w.facts, a.domain), a.runId) != []
  }

  /** The rows an attempt sends to the loader: those of its run, unless it does not get there or finds some loaded. */
  function Sent(world: World, w: Warehouse, a: Attempt): nat {
    if Reaches(world, a) && !AlreadyLoaded(w, a) then |world.handlers[a.domain].RowsOf(a.runId)| else 0
  }

  /** `facts_loaded` of the result: an attempt that died has none. */
  function Reports(world: World, w: Warehouse, a: Attempt): nat {
    if a.crash.Never? then Sent(world, w, a) else 0
  }

  predicate MatchesHeader(world: World, a: Attempt)
    requires a.domain in world.handlers && a.runId in world.runs
  {
    world.handlers[a.domain].requiredHeader <= set column | column in world.runs[a.runId].header
  }

  // ------------------------------------------------------------------ one attempt in plain terms

  function Held(w: Warehouse, domain: string): seq<Fact> {
    if domain in w.facts then w.facts[domain] else []
  }

  ghost predicate AlreadyIn(held: seq<Fact>, runId: string) {
    exists f :: f in held && f.runId == runId
  }

  /** `now` is what was held and behind it the rows, each with its run. */
  predicate Appended(held: seq<Fact>, runId: string, rows: seq<string>, now: seq<Fact>) {
    && |now| == |held| + |rows| && now[..|held|] == held
    && forall i :: 0 <= i < |rows| ==> now[|held| + i].runId == runId && now[|held| + i].row == rows[i]
  }

  /** The first `n` of the keys show the facts as they are now, every other mart is as it was. */
  predicate Refreshed(before: Warehouse, after: Warehouse, keys: seq<string>, n: nat)
    requires n <= |keys|
  {
    && (forall k :: k in keys[..n] ==> k in after.marts && after.marts[k] == after.facts)
    && (forall k :: k in after.marts && k !in keys[..n] ==> k in before.marts && after.marts[k] == before.marts[k])
    && (forall k :: k in before.marts ==> k in after.marts)
  }

  /** The load of a run's rows, unless some are there already, and the refresh as far as it got. */
  ghost predicate LoadedAndRefreshed(world: World, before: Warehouse, a: Attempt, after: Warehouse)
    requires a.domain in world.handlers
  {
    var handler := world.handlers[a.domain];
    var held, now := Held(before, a.domain), Held(after, a.domain);
    var rows := if a.runId in handler.rows then handler.rows[a.runId] else [];
    var keys := handler.refreshKeys;
    && (forall d :: d != a.domain ==> Held(after, d) == Held(before, d))
    && (if AlreadyIn(held, a.runId) then now == held else Appended(held, a.runId, rows, now))
    && Refreshed(before, after, keys,
         if a.crash.Refreshing? && a.crash.refreshed < |keys| then a.crash.refreshed else |keys|)
  }

  /** What an attempt answers and does, case by case. */
  ghost predicate Comes(world: World, before: Warehouse, a: Attempt, after: Warehouse, r: Outcome)
    requires a.domain in world.handlers
  {
    var handler := world.handlers[a.domain];
    if a.runId !in world.runs then r == UnknownRun && after == before
    else
      var run := world.runs[a.runId];
      if !run.passed then r == Skipped(NotPassed) && after == before
      else if exists c :: c in handler.requiredHeader && c !in run.header then
        r == Skipped(HeaderMismatch) && after == before
      else if a.crash.BeforeLoad? then r == Crashed && after == before
      else
        && LoadedAndRefreshed(world, before, a, after)
        && var again := AlreadyIn(Held(before, a.domain), a.runId);
           var rows := if a.runId in handler.rows then |handler.rows[a.runId]| else 0;
           r == if a.crash.Refreshing? then Crashed else if again then Skipped(AlreadyPromoted) else Promoted(rows)
  }

  lemma {:induction false} NothingLoadedExactlyWhen(facts: seq<Fact>, runId: string)
    ensures LoadedFor(facts, runId) != [] <==> AlreadyIn(facts, runId)
    decreases |facts|
  {
    if facts == [] {
    } else {
      var n := |facts| - 1;
      NothingLoadedExactlyWhen(facts[..n], runId);
      assert facts == facts[..n] + [facts[n]];
    }
  }

  lemma TaggedIsAppended(held: seq<Fact>, runId: string, rows: seq<string>)
    ensures Appended(held, runId, rows, held + Tag(runId, rows))
  {
  }

  lemma LoadingAppends(world: World, w: Warehouse, domain: string, runId: string)
    requires domain in world.handlers
    ensures var after := Load(world, w, domain, runId);
            var held, now := Held(w, domain), Held(after, domain);
            var handler := world.handlers[domain];
            && after.marts == w.marts && (forall d :: d != domain ==> Held(after, d) == Held(w, d))
            && (if AlreadyIn(held, runId) then now == held
                else Appended(held, runId, if runId in handler.rows then handler.rows[runId] else [], now))
    ensures LoadedFor(FactsOf(w.facts, domain), runId) != [] <==> AlreadyIn(Held(w, domain), runId)
  {
    var handler := world.handlers[domain];
    NothingLoadedExactlyWhen(Held(w, domain), runId);
    TaggedIsAppended(Held(w, domain), runId, if runId in handler.rows then handler.rows[runId] else []);
  }

  lemma RefreshingShows(w: Warehouse, keys: seq<string>, n: nat)
    requires n <= |keys|
    ensures Refreshed(w, Refresh(w, keys[..n]), keys, n) && Refresh(w, keys[..n]).facts == w.facts
  {
  }

  lemma ReachingLoadsAndRefreshes(world: World, w: Warehouse, a: Attempt)
    requires Reaches(world, a)
    ensures LoadedAndRefreshed(world, w, a, After1(world, w, a))
    ensures AlreadyLoaded(w, a) <==> AlreadyIn(Held(w, a.domain), a.runId)
  {
    var keys := world.handlers[a.domain].refreshKeys;
    LoadingAppends(world, w, a.domain, a.runId);
    var n := if a.crash.Refreshing? && a.crash.refreshed < |keys| then a.crash.refreshed else |keys|;
    RefreshingShows(Load(world, w, a.domain, a.runId), keys, n);
    assert keys[..n] == KeysReached(world, a);
  }

  // ------------------------------------------------------------------ the code

  class TransformationService {
    var facts: Facts
    var marts: map<string, Facts>

    function View(): Warehouse reads this { Warehouse(facts, marts) }

    method CountDomainRows(domain: string, runId: string) returns (n: nat)
      ensures n == |LoadedFor(FactsOf(facts, domain), runId)|
    {
      n := |LoadedFor(FactsOf(facts, domain), runId)|;
    }

    /** Appends the rows tagged with their run and returns how many. */
    method LoadDomainRows(domain: string, rows: seq<string>, runId: string) returns (n: nat)
      modifies this
      ensures n == |rows|
      ensures View() == old(View()).(facts := old(facts)[domain := FactsOf(old(facts), domain) + Tag(runId, rows)])
    {
      facts := facts[domain := FactsOf(facts, domain) + Tag(runId, rows)];
      n := |rows|;
    }

    /** Recomputes the marts one by one. */
    method RefreshPublications(keys: seq<string>)
      modifies this
      ensures View() == Refresh(old(View()), keys)
    {
      for n := 0 to |keys|
        invariant facts == old(facts)
        invariant marts == Refresh(old(View()), keys[..n]).marts
      {
        RefreshOneMore(old(View()), keys[..n], keys[n]);
        assert keys[..n + 1] == keys[..n] + [keys[n]];
        marts := marts[keys[n] := facts];
      }
      assert keys[..|keys|] == keys;
    }
  }

  method RunCanonicalPromotion(world: World, a: Attempt, service: TransformationService) returns (r: Outcome)
    requires a.domain in world.handlers
    modifies service
    ensures service.View() == After1(world, old(service.View()), a)
    ensures r.UnknownRun? <==> a.runId !in world.runs
    ensures r == Skipped(NotPassed) <==> a.runId in world.runs && !world.runs[a.runId].passed
    ensures r == Skipped(HeaderMismatch) <==>
            a.runId in world.runs && world.runs[a.runId].passed && !MatchesHeader(world, a)
    ensures r.Crashed? <==> world.Eligible(a.domain, a.runId) && !a.crash.Never?
    ensures r == Skipped(AlreadyPromoted) <==>
            world.Eligible(a.domain, a.runId) && a.crash.Never? && AlreadyLoaded(old(service.View()), a)
    ensures r.Promoted? <==>
            world.Eligible(a.domain, a.runId) && a.crash.Never? && !AlreadyLoaded(old(service.View()), a)
    ensures (if r.Promoted? then r.factsLoaded else 0) == Reports(world, old(service.View()), a)
    ensures Comes(world, old(service.View()), a, service.View(), r)
  {
    if Reaches(world, a) { ReachingLoadsAndRefreshes(world, service.View(), a); }
    if a.runId !in world.runs { return UnknownRun; }
    var run, handler := world.runs[a.runId], world.handlers[a.domain];
    if !run.passed { return Skipped(NotPassed); }
    if handler.requiredHeader != {} && !(handler.requiredHeader <= set column | column in run.header) {
      return Skipped(HeaderMismatch);
    }
    if a.crash.BeforeLoad? { return Crashed; }
    var existing := service.CountDomainRows(a.domain, a.runId);
    var loaded := 0;
    if existing == 0 {
      loaded := service.LoadDomainRows(a.domain, handler.RowsOf(a.runId), a.runId);
    }
    service.RefreshPublications(KeysReached(world, a));
    if !a.crash.Never? { return Crashed; }
    return if existing > 0 then Skipped(AlreadyPromoted) else Promoted(loaded);
  }

  // ------------------------------------------------------------------ exactly once

  /** The runs that reached the load of a domain, each once, in the order of their first time. */
  function FirstLoads(world: World, history: seq<Attempt>, domain: string): seq<string> {
    if history == [] then []
    else
      var before, a := FirstLoads(world, history[..|history| - 1], domain), history[|history| - 1];
      if a.domain == domain && Reaches(world, a) && a.runId !in before then before + [a.runId] else before
  }

  function AllTagged(handler: Handler, runIds: seq<string>): seq<Fact> {
    if runIds == [] then []
    else AllTagged(handler, runIds[..|runIds| - 1]) + Tag(runIds[|runIds| - 1], handler.RowsOf(runIds[|runIds| - 1]))
  }

  lemma {:induction false} LoadedForAppend(a: seq<Fact>, b: seq<Fact>, runId: string)
    ensures LoadedFor(a + b, runId) == LoadedFor(a, runId) + LoadedFor(b, runId)
    decreases |b|
  {
    if b == [] {
      assert a + b == a;
    } else {
      LoadedForAppend(a, b[..|b| - 1], runId);
      assert (a + b)[..|a + b| - 1] == a + b[..|b| - 1];
    }
  }

  lemma {:induction false} LoadedForTagged(tag: string, rows: seq<string>, runId: string)
    ensures LoadedFor(Tag(tag, rows), runId) == if tag == runId then rows else []
    decreases |rows|
  {
    if rows == [] {
    } else {
      LoadedForTagged(tag, rows[..|rows| - 1], runId);
      assert Tag(tag, rows)[..|rows| - 1] == Tag(tag, rows[..|rows| - 1]);
      assert rows == rows[..|rows| - 1] + [rows[|rows| - 1]];
    }
  }

  lemma DistinctFront(s: seq<string>, front: seq<string>, last: string)
    requires Distinct(s) && s == front + [last]
    ensures Distinct(front) && last !in front
  {
    forall i | 0 <= i < |front| ensures front[i] != last { assert s[i] != s[|front|]; }
    forall i, j | 0 <= i < j < |front| ensures front[i] != front[j] { assert s[i] != s[j]; }
  }

  lemma {:induction false} LoadedForAll(handler: Handler, runIds: seq<string>, runId: string)
    requires Distinct(runIds)
    ensures LoadedFor(AllTagged(handler, runIds), runId) == if runId in runIds then handler.RowsOf(runId) else []
    decreases |runIds|
  {
    if runIds == [] {
    } else {
      var front, last := runIds[..|runIds| - 1], runIds[|runIds| - 1];
      assert runIds == front + [last];
      DistinctFront(runIds, front, last);
      LoadedForAll(handler, front, runId);
      LoadedForOneMore(handler, front, last, runId);
    }
  }

  lemma LoadedForOneMore(handler: Handler, before: seq<string>, last: string, runId: string)
    ensures LoadedFor(AllTagged(handler, before + [last]), runId)
         == LoadedFor(AllTagged(handler, before), runId) + if last == runId then handler.RowsOf(runId) else []
  {
    assert (before + [last])[..|before|] == before;
    LoadedForAppend(AllTagged(handler, before), Tag(last, handler.RowsOf(last)), runId);
    LoadedForTagged(last, handler.RowsOf(last), runId);
  }

  lemma {:induction false} FirstLoadsAreDistinct(world: World, history: seq<Attempt>, domain: string)
    ensures Distinct(FirstLoads(world, history, domain))
    decreases |history|
  {
    if history == [] {
    } else {
      FirstLoadsAreDistinct(world, history[..|history| - 1], domain);
    }
  }

  /** The load of a run adds its block, once. */
  lemma LoadAddsItsBlock(world: World, w: Warehouse, loads: seq<string>, domain: string, runId: string)
    requires domain in world.handlers && Distinct(loads)
    requires FactsOf(w.facts, domain) == AllTagged(world.handlers[domain], loads)
    ensures FactsOf(Load(world, w, domain, runId).facts, domain) ==
              AllTagged(world.handlers[domain], if runId in loads then loads else loads + [runId])
  {
    var handler := world.handlers[domain];
    LoadedForAll(handler, loads, runId);
    if runId !in loads {
      assert (loads + [runId])[..|loads|] == loads;
    } else {
      assert AllTagged(handler, loads) + Tag(runId, []) == AllTagged(handler, loads);
    }
  }

  /** So does an attempt that gets there; any other leaves the domain as it is. */
  lemma AttemptAddsItsBlock(world: World, w: Warehouse, loads: seq<string>, domain: string, a: Attempt)
    requires domain in world.handlers && Distinct(loads)
    requires FactsOf(w.facts, domain) == AllTagged(world.handlers[domain], loads)
    ensures var first := a.domain == domain && Reaches(world, a) && a.runId !in loads;
            FactsOf(After1(world, w, a).facts, domain) ==
              AllTagged(world.handlers[domain], if first then loads + [a.runId] else loads)
  {
    if a.domain == domain && Reaches(world, a) { LoadAddsItsBlock(world, w, loads, domain, a.runId); }
  }

  lemma {:induction false} FactsAreBlocks(world: World, history: seq<Attempt>, domain: string)
    requires domain in world.handlers
    ensures FactsOf(After(world, history).facts, domain) ==
              AllTagged(world.handlers[domain], FirstLoads(world, history, domain))
    decreases |history|
  {
    if history == [] {
    } else {
      var before, a := history[..|history| - 1], history[|history| - 1];
      var loads := FirstLoads(world, before, domain);
      FactsAreBlocks(world, before, domain);
      FirstLoadsAreDistinct(world, before, domain);
      AttemptAddsItsBlock(world, After(world, before), loads, domain, a);
    }
  }

  /** A domain holds the rows of the runs that reached its load, each run's block once, and nothing else. */
  lemma FactsAreFirstLoads(world: World, history: seq<Attempt>, domain: string)
    requires domain in world.handlers
    ensures Distinct(FirstLoads(world, history, domain))
    ensures FactsOf(After(world, history).facts, domain) ==
              AllTagged(world.handlers[domain], FirstLoads(world, history, domain))
  {
    FirstLoadsAreDistinct(world, history, domain);
    FactsAreBlocks(world, history, domain);
  }

  lemma {:induction false} FirstLoadsReached(world: World, history: seq<Attempt>, domain: string, runId: string)
    ensures runId in FirstLoads(world, history, domain) <==>
            exists i :: 0 <= i < |history| && ReachesFor(world, history[i], domain, runId)
    decreases |history|
  {
    if history == [] {
    } else {
      var n := |history| - 1;
      FirstLoadsReached(world, history[..n], domain, runId);
      if i :| 0 <= i < n && ReachesFor(world, history[..n][i], domain, runId) {
        assert ReachesFor(world, history[i], domain, runId);
      }
    }
  }

  predicate ReachesFor(world: World, a: Attempt, domain: string, runId: string) {
    a.domain == domain && a.runId == runId && Reaches(world, a)
  }

  /**
   * Exactly once: whatever was retried or crashed, a run's rows are there once if some attempt of it got to the load.
   */
  lemma ExactlyOnce(world: World, history: seq<Attempt>, domain: string, runId: string)
    requires domain in world.handlers
    ensures LoadedFor(FactsOf(After(world, history).facts, domain), runId) ==
            if exists i :: 0 <= i < |history| && ReachesFor(world, history[i], domain, runId)
            then world.handlers[domain].RowsOf(runId) else []
  {
    FactsAreFirstLoads(world, history, domain);
    FirstLoadsReached(world, history, domain, runId);
    LoadedForAll(world.handlers[domain], FirstLoads(world, history, domain), runId);
  }

  // ------------------------------------------------------------------ conservation

  /** The sum of `facts_loaded` over a domain's attempts. */
  function Reported(world: World, history: seq<Attempt>, domain: string): nat {
    if history == [] then 0
    else
      var before, a := history[..|history| - 1], history[|history| - 1];
      Reported(world, before, domain) + if a.domain == domain then Reports(world, After(world, before), a) else 0
  }

  /** What attempts that died had sent to the loader. */
  function Unreported(world: World, history: seq<Attempt>, domain: string): nat {
    if history == [] then 0
    else
      var before, a := history[..|history| - 1], history[|history| - 1];
      Unreported(world, before, domain) +
      if a.domain == domain && !a.crash.Never? then Sent(world, After(world, before), a) else 0
  }

  function RowTotal(handler: Handler, runIds: seq<string>): nat {
    if runIds == [] then 0 else RowTotal(handler, runIds[..|runIds| - 1]) + |handler.RowsOf(runIds[|runIds| - 1])|
  }

  lemma {:induction false} TaggedTotal(handler: Handler, runIds: seq<string>)
    ensures |AllTagged(handler, runIds)| == RowTotal(handler, runIds)
    decreases |runIds|
  {
    if runIds == [] {
    } else {
      TaggedTotal(handler, runIds[..|runIds| - 1]);
    }
  }

  /** An attempt sends the rows of its run exactly when it is the first of the run to get to the load. */
  lemma {:induction false} FirstLoadIsSent(world: World, before: seq<Attempt>, a: Attempt)
    requires Reaches(world, a)
    ensures Sent(world, After(world, before), a) ==
            if a.runId in FirstLoads(world, before, a.domain) then 0 else |world.handlers[a.domain].RowsOf(a.runId)|
  {
    FactsAreFirstLoads(world, before, a.domain);
    LoadedForAll(world.handlers[a.domain], FirstLoads(world, before, a.domain), a.runId);
  }

  lemma {:induction false} TotalGrows(world: World, history: seq<Attempt>, domain: string)
    requires domain in world.handlers && history != []
    ensures var before, a := history[..|history| - 1], history[|history| - 1];
            RowTotal(world.handlers[domain], FirstLoads(world, history, domain)) ==
            RowTotal(world.handlers[domain], FirstLoads(world, before, domain)) +
              if a.domain == domain then Sent(world, After(world, before), a) else 0
  {
    var before, a := history[..|history| - 1], history[|history| - 1];
    var loads := FirstLoads(world, before, domain);
    if a.domain == domain && Reaches(world, a) {
      FirstLoadIsSent(world, before, a);
      assert (loads + [a.runId])[..|loads|] == loads;
    }
  }

  /**
   * What was reported and what attempts that died had sent add up to the rows of the runs that reached the
   * load, each run counted once; and so does the number of facts.
   */
  lemma {:induction false} FactsAreAccountedFor(world: World, history: seq<Attempt>, domain: string)
    requires domain in world.handlers
    ensures Reported(world, history, domain) + Unreported(world, history, domain) ==
            RowTotal(world.handlers[domain], FirstLoads(world, history, domain)) ==
            |FactsOf(After(world, history).facts, domain)|
  {
    EachRunIsSentOnce(world, history, domain);
    FactsAreFirstLoads(world, history, domain);
    TaggedTotal(world.handlers[domain], FirstLoads(world, history, domain));
  }

  lemma {:induction false} EachRunIsSentOnce(world: World, history: seq<Attempt>, domain: string)
    requires domain in world.handlers
    ensures Reported(world, history, domain) + Unreported(world, history, domain) ==
            RowTotal(world.handlers[domain], FirstLoads(world, history, domain))
    decreases |history|
  {
    if history == [] {
    } else {
      EachRunIsSentOnce(world, history[..|history| - 1], domain);
      TotalGrows(world, history, domain);
    }
  }

  /** Without deaths the reports alone add up to the number of facts. */
  lemma {:induction false} ReportsAddUp(world: World, history: seq<Attempt>, domain: string)
    requires domain in world.handlers
    requires forall i :: 0 <= i < |history| ==> history[i].crash.Never?
    ensures Reported(world, history, domain) == |FactsOf(After(world, history).facts, domain)|
  {
    FactsAreAccountedFor(world, history, domain);
    NothingUnreported(world, history, domain);
  }

  lemma {:induction false} NothingUnreported(world: World, history: seq<Attempt>, domain: string)
    requires forall i :: 0 <= i < |history| ==> history[i].crash.Never?
    ensures Unreported(world, history, domain) == 0
    decreases |history|
  {
    if history == [] {
    } else {
      NothingUnreported(world, history[..|history| - 1], domain);
    }
  }

  // ------------------------------------------------------------------ marts

  /** A handler's marts show its domain as it is now. */
  predicate MartsAreCurrent(world: World, w: Warehouse, domain: string)
    requires domain in world.handlers
  {
    forall k :: k in world.handlers[domain].refreshKeys ==>
      k in w.marts && FactsOf(w.marts[k], domain) == FactsOf(w.facts, domain)
  }

  predicate Diverges(a: Attempt) {
    a.crash.Refreshing?
  }

  /** Unless an attempt died while refreshing, loaded facts always show in the marts, whatever other domains do. */
  lemma {:induction false} MartsFollowFacts(world: World, history: seq<Attempt>, domain: string)
    requires domain in world.handlers
    requires forall i :: 0 <= i < |history| ==> !Diverges(history[i])
    ensures FirstLoads(world, history, domain) != [] ==> MartsAreCurrent(world, After(world, history), domain)
    ensures FirstLoads(world, history, domain) == [] ==> FactsOf(After(world, history).facts, domain) == []
    decreases |history|
  {
    if history == [] {
    } else {
      var n := |history| - 1;
      forall i | 0 <= i < n ensures !Diverges(history[..n][i]) { assert history[..n][i] == history[i]; }
      MartsFollowFacts(world, history[..n], domain);
      assert !Diverges(history[n]);
    }
  }

  /** A retry makes good for any crash: afterwards the warehouse is as if the crash had not happened. */
  lemma RetryMakesGood(world: World, w: Warehouse, crashed: Attempt, retry: Attempt)
    requires world.Eligible(retry.domain, retry.runId) && retry.crash.Never?
    requires crashed.domain == retry.domain && crashed.runId == retry.runId
    ensures After1(world, After1(world, w, crashed), retry) == After1(world, w, retry)
    ensures forall k :: k in world.handlers[retry.domain].refreshKeys ==>
              After1(world, w, retry).marts[k] == After1(world, w, retry).facts
  {
    if Reaches(world, crashed) {
      var once := Load(world, w, retry.domain, retry.runId);
      var middle := After1(world, w, crashed);
      var again := Load(world, middle, retry.domain, retry.runId);
      LoadingTwiceIsOnce(world, w, middle, retry.domain, retry.runId);
      RefreshingAgainOverwrites(once, KeysReached(world, crashed), world.handlers[retry.domain].refreshKeys, again);
    }
  }

  lemma LoadingTwiceIsOnce(world: World, w: Warehouse, middle: Warehouse, domain: string, runId: string)
    requires domain in world.handlers && middle.facts == Load(world, w, domain, runId).facts
    ensures Load(world, middle, domain, runId).facts == middle.facts
    ensures Load(world, middle, domain, runId).marts == middle.marts
  {
    var rows, facts := world.handlers[domain].RowsOf(runId), FactsOf(w.facts, domain);
    LoadedForAppend(facts, Tag(runId, rows), runId);
    LoadedForTagged(runId, rows, runId);
    if rows == [] { assert facts + Tag(runId, rows) == facts; }
  }

  lemma RefreshingAgainOverwrites(w: Warehouse, some: seq<string>, keys: seq<string>, again: Warehouse)
    requires forall k :: k in some ==> k in keys
    requires again == Refresh(w, some)
    ensures Refresh(again, keys) == Refresh(w, keys)
  {
  }
}
