/**
 * The sources that feed a publication (`packages/pipelines/publication_confidence_service.py`); an absent text is `""`.
 */
module ContributingSources {
  import opened Prelude

  datatype RunRecord = RunRecord(
    runId: string, passed: bool, status: string, rowCount: nat, issues: nat, sourceName: string, dataset: string,
    createdAt: int)
  {
    predicate Rejected() { status == "rejected" || status == "failed" }
    predicate Succeeded() { status in {"landed", "passed", "success", "completed"} }
  }

  /** Run metadata by run id; what is missing cannot be resolved. */
  type Lookup = map<string, RunRecord>

  datatype LandingRecord = LandingRecord(inputRunId: string, targetKind: string, targetName: string)

  datatype LineageRecord = LineageRecord(
    sourceRunId: string, inputRunId: string, sourceSystem: string, rowCount: Option<int>)

  datatype Source = Source(key: string, runId: string, rowCount: Option<int>, declared: bool, assetId: Option<string>)

  function Known(lookup: Lookup, runId: string): Option<RunRecord> {
    if runId in lookup then Some(lookup[runId]) else None
  }

  /** `_RunResolver`: a cache in front of the lookup, which keeps misses too. */
  class RunResolver {
    const lookup: Lookup
    var cache: map<string, Option<RunRecord>>

    ghost predicate Valid() reads this {
      forall id :: id in cache ==> cache[id] == Known(lookup, id)
    }

    constructor (lookup: Lookup)
      ensures Valid() && this.lookup == lookup
    {
      this.lookup := lookup;
      cache := map[];
    }

    method Get(runId: string) returns (r: Option<RunRecord>)
      requires Valid()
      modifies this
      ensures Valid() && r == Known(lookup, runId)
      ensures if runId in lookup then r == Some(lookup[runId]) else r == None
    {
      if runId !in cache { cache := cache[runId := Known(lookup, runId)]; }
      return cache[runId];
    }
  }

  /** `_RunAssetResolver.get`: the asset of the run's last landing record that names one. */
  function AssetOf(landing: seq<LandingRecord>, runId: string): Option<string> {
    if landing == [] then None
    else
      var last := landing[|landing| - 1];
      if last.inputRunId == runId && last.targetKind == "source_asset" && last.targetName != ""
        then Some(last.targetName)
      else AssetOf(landing[..|landing| - 1], runId)
  }

  datatype Attribution = Attribution(key: string, runId: string, declared: bool, assetId: Option<string>)

  function RunOf(record: LineageRecord): string {
    if record.sourceRunId != "" then record.sourceRunId else record.inputRunId
  }

  /** The source a lineage record speaks for: its run's asset, else the declared system, else the run's source name. */
  function Attribute(record: LineageRecord, landing: seq<LandingRecord>, lookup: Lookup): Option<Attribution> {
    var runId := RunOf(record);
    if runId == "" then None
    else
      var asset := AssetOf(landing, runId);
      if asset.Some? then Some(Attribution(asset.value, runId, false, asset))
      else if record.sourceSystem != "" then Some(Attribution(record.sourceSystem, runId, true, None))
      else if runId in lookup && lookup[runId].sourceName != ""
        then Some(Attribution(lookup[runId].sourceName, runId, false, None))
      else None
  }

  /** Landing record `i` is the last that names a source asset for the run. */
  predicate NamesLast(landing: seq<LandingRecord>, runId: string, i: nat) {
    && i < |landing| && NamesAsset(landing[i], runId)
    && forall j :: i < j < |landing| ==> !NamesAsset(landing[j], runId)
  }

  predicate NamesAsset(record: LandingRecord, runId: string) {
    record.inputRunId == runId && record.targetKind == "source_asset" && record.targetName != ""
  }

  lemma {:induction false} AssetIsLastNamed(landing: seq<LandingRecord>, runId: string, i: nat)
    requires NamesLast(landing, runId, i)
    ensures AssetOf(landing, runId) == Some(landing[i].targetName)
  {
    var last := |landing| - 1;
    if i < last {
      assert !NamesAsset(landing[last], runId);
      AssetIsLastNamed(landing[..last], runId, i);
    }
  }

  lemma {:induction false} NoAssetNamed(landing: seq<LandingRecord>, runId: string)
    requires forall i :: 0 <= i < |landing| ==> !NamesAsset(landing[i], runId)
    ensures AssetOf(landing, runId) == None
  {
    if landing != [] {
      var last := |landing| - 1;
      assert !NamesAsset(landing[last], runId);
      NoAssetNamed(landing[..last], runId);
    }
  }

  /**
   * A record speaks for the asset last named for its run, else for its declared system, else for the source name of
   * its run where that is known; a record without run id, or with none of these, speaks for nothing.
   */
  lemma {:induction false} AttributionMeans(record: LineageRecord, landing: seq<LandingRecord>, lookup: Lookup)
    ensures
      var runId := if record.sourceRunId == "" then record.inputRunId else record.sourceRunId;
      var told := Attribute(record, landing, lookup);
      && RunOf(record) == runId && (told.Some? ==> told.value.runId == runId)
      && (runId == "" ==> told == None)
      && (forall i: nat :: runId != "" && NamesLast(landing, runId, i) ==>
            told == Some(Attribution(landing[i].targetName, runId, false, Some(landing[i].targetName))))
      && (runId != "" && (forall i :: 0 <= i < |landing| ==> !NamesAsset(landing[i], runId)) ==>
            && (record.sourceSystem != "" ==> told == Some(Attribution(record.sourceSystem, runId, true, None)))
            && (record.sourceSystem == "" && runId in lookup && lookup[runId].sourceName != "" ==>
                  told == Some(Attribution(lookup[runId].sourceName, runId, false, None)))
            && (record.sourceSystem == "" && (runId in lookup ==> lookup[runId].sourceName == "") ==> told == None))
  {
    var runId := RunOf(record);
    forall i: nat | NamesLast(landing, runId, i)
      ensures AssetOf(landing, runId) == Some(landing[i].targetName)
    {
      AssetIsLastNamed(landing, runId, i);
    }
    if forall i :: 0 <= i < |landing| ==> !NamesAsset(landing[i], runId) { NoAssetNamed(landing, runId); }
  }

  /** Lineage of one publication, in recorded order, with what attributes it. */
  datatype Evidence = Evidence(records: seq<LineageRecord>, landing: seq<LandingRecord>, lookup: Lookup)
  {
    predicate Speaks(i: int, key: string) {
      0 <= i < |records| && Attribute(records[i], landing, lookup).Some?
        && Attribute(records[i], landing, lookup).value.key == key
    }

    predicate Declares(i: int, key: string) {
      Speaks(i, key) && Attribute(records[i], landing, lookup).value.declared
    }

    /** Record `i` is the last of the first `n` that speaks for its source. */
    predicate Latest(i: int, n: nat, source: Source) {
      && i < n && Speaks(i, source.key)
      && (forall j :: i < j < n ==> !Speaks(j, source.key))
      && source.runId == RunOf(records[i]) && source.rowCount == records[i].rowCount
      && source.assetId == Attribute(records[i], landing, lookup).value.assetId
    }

    /**
     * The first `n` records say that `source` contributes: the last run attributed to it, declared if ever declared.
     */
    ghost predicate Contributes(n: nat, source: Source) {
      && (exists i :: Latest(i, n, source))
      && (source.declared <==> exists i :: i < n && Declares(i, source.key))
    }

    /** Source `a` is first spoken for before `b` is. */
    ghost predicate SpeaksFirst(n: nat, a: string, b: string) {
      exists i :: i < n && Speaks(i, a) && forall j :: 0 <= j <= i ==> !Speaks(j, b)
    }

    /** A dictionary, as its values in order of first appearance, of exactly the contributing sources. */
    ghost predicate Resolves(n: nat, sources: seq<Source>) {
      && (forall p, q :: 0 <= p < q < |sources| ==> SpeaksFirst(n, sources[p].key, sources[q].key))
      && (forall p, q :: 0 <= p < q < |sources| ==> sources[p].key != sources[q].key)
      && (forall p :: 0 <= p < |sources| ==> Contributes(n, sources[p]))
      && (forall i :: i < n && 0 <= i < |records| && Attribute(records[i], landing, lookup).Some? ==>
            HasKey(sources, Attribute(records[i], landing, lookup).value.key))
    }
  }

  predicate HasKey(sources: seq<Source>, key: string) {
    exists p :: 0 <= p < |sources| && sources[p].key == key
  }

  method Position(sources: seq<Source>, key: string) returns (p: nat)
    ensures p <= |sources|
    ensures p < |sources| ==> sources[p].key == key
    ensures p == |sources| ==> !HasKey(sources, key)
  {
    p := 0;
    while p < |sources| && sources[p].key != key
      invariant p <= |sources| && forall q :: 0 <= q < p ==> sources[q].key != key
    {
      p := p + 1;
    }
  }

  lemma Unmoved(e: Evidence, n: nat, source: Source)
    requires n < |e.records| && e.Contributes(n, source) && !e.Speaks(n, source.key)
    ensures e.Contributes(n + 1, source)
  {
    var i :| e.Latest(i, n, source);
    assert e.Latest(i, n + 1, source);
    if j :| j < n + 1 && e.Declares(j, source.key) { assert j < n; }
  }

  lemma Replaced(e: Evidence, n: nat, source: Source, previous: bool)
    requires n < |e.records| && e.Speaks(n, source.key)
    requires source.runId == RunOf(e.records[n]) && source.rowCount == e.records[n].rowCount
    requires source.assetId == Attribute(e.records[n], e.landing, e.lookup).value.assetId
    requires previous <==> exists i :: i < n && e.Declares(i, source.key)
    requires source.declared == (Attribute(e.records[n], e.landing, e.lookup).value.declared || previous)
    ensures e.Contributes(n + 1, source)
  {
    assert e.Latest(n, n + 1, source);
    if source.declared {
      if previous {
        var j :| j < n && e.Declares(j, source.key);
        assert j < n + 1;
      } else {
        assert e.Declares(n, source.key);
      }
    }
  }

  /** One lineage record: ignored, or the new contributing run of its source. */
  method Note(e: Evidence, n: nat, sources: seq<Source>, resolver: RunResolver) returns (updated: seq<Source>)
    requires n < |e.records| && e.Resolves(n, sources)
    requires resolver.Valid() && resolver.lookup == e.lookup
    modifies resolver
    ensures resolver.Valid() && e.Resolves(n + 1, updated)
  {
    var record := e.records[n];
    var runId := RunOf(record);
    updated := sources;
    var asset := AssetOf(e.landing, runId);
    var key, declared := "", false;
    var attributed := false;
    if runId != "" {
      if asset.Some? {
        key, attributed := asset.value, true;
      } else if record.sourceSystem != "" {
        key, declared, attributed := record.sourceSystem, true, true;
      } else {
        var run := resolver.Get(runId);
        if run.Some? && run.value.sourceName != "" { key, attributed := run.value.sourceName, true; }
      }
    }
    if attributed {
      updated := Overwrite(e, n, sources, key, declared, asset);
    } else {
      forall p | 0 <= p < |sources| ensures e.Contributes(n + 1, sources[p]) { Unmoved(e, n, sources[p]); }
      OrderStays(e, n, sources);
    }
  }

  lemma OrderStays(e: Evidence, n: nat, sources: seq<Source>)
    requires e.Resolves(n, sources)
    ensures forall p, q :: 0 <= p < q < |sources| ==> e.SpeaksFirst(n + 1, sources[p].key, sources[q].key)
  {
    forall p, q | 0 <= p < q < |sources| ensures e.SpeaksFirst(n + 1, sources[p].key, sources[q].key) {
      var i :| i < n && e.Speaks(i, sources[p].key) && forall j :: 0 <= j <= i ==> !e.Speaks(j, sources[q].key);
      assert i < n + 1;
    }
  }

  /** A new source comes last. */
  lemma NewcomersComeLast(e: Evidence, n: nat, sources: seq<Source>, key: string, q: nat)
    requires n <= |e.records| && e.Resolves(n, sources) && !HasKey(sources, key) && q < |sources|
    ensures e.SpeaksFirst(n + 1, sources[q].key, key)
  {
    var i :| e.Latest(i, n, sources[q]);
    forall j | 0 <= j <= i ensures !e.Speaks(j, key) {}
    assert i < n + 1 && e.Speaks(i, sources[q].key);
  }

  method Overwrite(e: Evidence, n: nat, sources: seq<Source>, key: string, declared: bool, asset: Option<string>)
    returns (updated: seq<Source>)
    requires n < |e.records| && e.Resolves(n, sources)
    requires Attribute(e.records[n], e.landing, e.lookup) ==
               Some(Attribution(key, RunOf(e.records[n]), declared, asset))
    ensures e.Resolves(n + 1, updated)
  {
    var p := Position(sources, key);
    var previous := p < |sources| && sources[p].declared;
    var source := Source(key, RunOf(e.records[n]), e.records[n].rowCount, declared || previous, asset);
    updated := if p < |sources| then sources[p := source] else sources + [source];
    PreviouslyDeclared(e, n, sources, key, p);
    Replaced(e, n, source, previous);
    OthersUnmoved(e, n, sources, p, key);
    KeysGrow(e, n, sources, updated, source, p);
    KeysStayDifferent(sources, updated, source, p);
    OrderGrows(e, n, sources, updated, source, p);
    forall q | 0 <= q < |updated| ensures e.Contributes(n + 1, updated[q]) {
      assert updated[q] == if q == p then source else sources[q];
    }
  }

  lemma OrderGrows(e: Evidence, n: nat, sources: seq<Source>, updated: seq<Source>, source: Source, p: nat)
    requires n <= |e.records| && e.Resolves(n, sources)
    requires if p < |sources| then sources[p].key == source.key else p == |sources| && !HasKey(sources, source.key)
    requires updated == if p < |sources| then sources[p := source] else sources + [source]
    ensures forall a, b :: 0 <= a < b < |updated| ==> e.SpeaksFirst(n + 1, updated[a].key, updated[b].key)
  {
    OrderStays(e, n, sources);
    forall a, b | 0 <= a < b < |updated| ensures e.SpeaksFirst(n + 1, updated[a].key, updated[b].key) {
      if b == |sources| {
        NewcomersComeLast(e, n, sources, source.key, a);
      } else {
        assert updated[a].key == sources[a].key && updated[b].key == sources[b].key;
      }
    }
  }

  lemma KeysStayDifferent(sources: seq<Source>, updated: seq<Source>, source: Source, p: nat)
    requires forall a, b :: 0 <= a < b < |sources| ==> sources[a].key != sources[b].key
    requires if p < |sources| then sources[p].key == source.key else p == |sources| && !HasKey(sources, source.key)
    requires updated == if p < |sources| then sources[p := source] else sources + [source]
    ensures forall a, b :: 0 <= a < b < |updated| ==> updated[a].key != updated[b].key
  {
    forall a | 0 <= a < |sources| && a != p ensures sources[a].key != source.key {}
  }

  lemma OthersUnmoved(e: Evidence, n: nat, sources: seq<Source>, p: nat, key: string)
    requires n < |e.records| && e.Resolves(n, sources) && e.Speaks(n, key)
    requires if p < |sources| then sources[p].key == key else !HasKey(sources, key)
    ensures forall q :: 0 <= q < |sources| && q != p ==> e.Contributes(n + 1, sources[q])
  {
    forall q | 0 <= q < |sources| && q != p ensures e.Contributes(n + 1, sources[q]) {
      assert sources[q].key != key;
      Unmoved(e, n, sources[q]);
    }
  }

  lemma PreviouslyDeclared(e: Evidence, n: nat, sources: seq<Source>, key: string, p: nat)
    requires n < |e.records| && e.Resolves(n, sources)
    requires p < |sources| ==> sources[p].key == key
    requires p >= |sources| ==> !HasKey(sources, key)
    ensures (p < |sources| && sources[p].declared) <==> exists i :: i < n && e.Declares(i, key)
  {
    if p < |sources| {
      assert e.Contributes(n, sources[p]);
    } else {
      forall i | i < n ensures !e.Declares(i, key) {}
    }
  }

  lemma KeysGrow(e: Evidence, n: nat, sources: seq<Source>, updated: seq<Source>, source: Source, p: nat)
    requires n < |e.records| && e.Resolves(n, sources) && p <= |sources|
    requires e.Speaks(n, source.key)
    requires updated == if p < |sources| then sources[p := source] else sources + [source]
    requires p < |sources| ==> sources[p].key == source.key
    ensures forall i :: 0 <= i < n + 1 && Attribute(e.records[i], e.landing, e.lookup).Some? ==>
              HasKey(updated, Attribute(e.records[i], e.landing, e.lookup).value.key)
  {
    forall i | 0 <= i < n + 1 && Attribute(e.records[i], e.landing, e.lookup).Some?
      ensures HasKey(updated, Attribute(e.records[i], e.landing, e.lookup).value.key)
    {
      var k := Attribute(e.records[i], e.landing, e.lookup).value.key;
      if i < n { assert HasKey(sources, k); }
      KeyGrows(sources, updated, source, p, k);
    }
  }

  lemma KeyGrows(sources: seq<Source>, updated: seq<Source>, source: Source, p: nat, k: string)
    requires p <= |sources| && (p < |sources| ==> sources[p].key == source.key)
    requires updated == if p < |sources| then sources[p := source] else sources + [source]
    requires HasKey(sources, k) || k == source.key
    ensures HasKey(updated, k)
  {
    if k == source.key {
      assert updated[p].key == k;
    } else {
      var q :| 0 <= q < |sources| && sources[q].key == k;
      assert updated[q].key == k;
    }
  }

  /** `_resolve_contributing_sources`. */
  method ResolveContributingSources(e: Evidence, resolver: RunResolver) returns (sources: seq<Source>)
    requires resolver.Valid() && resolver.lookup == e.lookup
    modifies resolver
    ensures resolver.Valid() && e.Resolves(|e.records|, sources)
  {
    sources := [];
    for n := 0 to |e.records|
      invariant resolver.Valid() && e.Resolves(n, sources)
    {
      sources := Note(e, n, sources, resolver);
    }
  }

  lemma {:induction false} SameMembers(e: Evidence, n: nat, a: seq<Source>, b: seq<Source>, p: nat)
    requires n <= |e.records| && e.Resolves(n, a) && e.Resolves(n, b) && p < |a|
    ensures a[p] in b
  {
    var i :| e.Latest(i, n, a[p]);
    assert HasKey(b, a[p].key);
    var q :| 0 <= q < |b| && b[q].key == a[p].key;
    var j :| e.Latest(j, n, b[q]);
    assert e.Speaks(i, b[q].key) && e.Speaks(j, a[p].key);
    assert a[p] == b[q];
  }

  lemma SpeaksFirstIsAsymmetric(e: Evidence, n: nat, a: string, b: string)
    ensures !(e.SpeaksFirst(n, a, b) && e.SpeaksFirst(n, b, a))
  {
  }

  /** The evidence determines the dictionary, order included. */
  lemma {:induction false} ResolutionIsUnique(e: Evidence, n: nat, a: seq<Source>, b: seq<Source>)
    requires n <= |e.records| && e.Resolves(n, a) && e.Resolves(n, b)
    ensures a == b
  {
    if |a| <= |b| {
      ShorterIsSame(e, n, a, b);
    } else {
      ShorterIsSame(e, n, b, a);
    }
  }

  lemma {:induction false} ShorterIsSame(e: Evidence, n: nat, a: seq<Source>, b: seq<Source>)
    requires n <= |e.records| && e.Resolves(n, a) && e.Resolves(n, b) && |a| <= |b|
    ensures a == b
  {
    SamePrefix(e, n, a, b, |a|);
    assert a == a[..|a|] == b[..|a|];
    assert a <= b;
    NothingMissing(e, n, a, b);
  }

  lemma {:induction false} NothingMissing(e: Evidence, n: nat, a: seq<Source>, b: seq<Source>)
    requires n <= |e.records| && e.Resolves(n, a) && e.Resolves(n, b) && a <= b
    ensures a == b
  {
    if b != [] {
      var last := |b| - 1;
      SameMembers(e, n, b, a, last);
      var q :| 0 <= q < |a| && a[q] == b[last];
      assert b[q].key == b[last].key;
      assert q == last;
    }
  }

  lemma {:induction false} SamePrefix(e: Evidence, n: nat, a: seq<Source>, b: seq<Source>, p: nat)
    requires n <= |e.records| && e.Resolves(n, a) && e.Resolves(n, b) && p <= |a| <= |b|
    ensures a[..p] == b[..p]
    decreases p
  {
    if p == 0 {
    } else {
      SamePrefix(e, n, a, b, p - 1);
      SameAt(e, n, a, b, p - 1);
      assert a[..p] == a[..p - 1] + [a[p - 1]] && b[..p] == b[..p - 1] + [b[p - 1]];
    }
  }

  lemma {:induction false} SameAt(e: Evidence, n: nat, a: seq<Source>, b: seq<Source>, p: nat)
    requires n <= |e.records| && e.Resolves(n, a) && e.Resolves(n, b) && p < |a| <= |b| && a[..p] == b[..p]
    ensures a[p] == b[p]
  {
    SameMembers(e, n, a, b, p);
    SameMembers(e, n, b, a, p);
    var q :| 0 <= q < |b| && b[q] == a[p];
    var r :| 0 <= r < |a| && a[r] == b[p];
    NotAmongTheFirst(a, b, p, q);
    NotAmongTheFirst(b, a, p, r);
    if q > p { InOrder(e, n, b, p, q); }
    if r > p { InOrder(e, n, a, p, r); }
    SpeaksFirstIsAsymmetric(e, n, a[p].key, b[p].key);
  }

  lemma NotAmongTheFirst(a: seq<Source>, b: seq<Source>, p: nat, q: nat)
    requires forall i, j :: 0 <= i < j < |a| ==> a[i].key != a[j].key
    requires p < |a| && p <= |b| && a[..p] == b[..p] && q < |b| && b[q] == a[p]
    ensures q >= p
  {
    assert forall i :: 0 <= i < p ==> a[i] == a[..p][i] == b[..p][i] == b[i];
  }

  lemma InOrder(e: Evidence, n: nat, sources: seq<Source>, p: nat, q: nat)
    requires e.Resolves(n, sources) && p < q < |sources|
    ensures e.SpeaksFirst(n, sources[p].key, sources[q].key)
  {
  }

  /**
   * When every run has an asset or a declared system, hidden run metadata leaves the contributing sources as they are.
   */
  lemma AttributedLineageNeedsNoMetadata(e: Evidence, hidden: Lookup, n: nat, sources: seq<Source>)
    requires n <= |e.records|
    requires forall i :: 0 <= i < |e.records| ==>
               AssetOf(e.landing, RunOf(e.records[i])).Some? || e.records[i].sourceSystem != ""
    ensures e.Resolves(n, sources) <==> e.(lookup := hidden).Resolves(n, sources)
  {
    var h := e.(lookup := hidden);
    forall i | 0 <= i < |e.records|
      ensures Attribute(e.records[i], e.landing, e.lookup) == Attribute(e.records[i], e.landing, hidden) {}
    forall i, key ensures e.Speaks(i, key) == h.Speaks(i, key) && e.Declares(i, key) == h.Declares(i, key) {}
    forall p | 0 <= p < |sources| ensures e.Contributes(n, sources[p]) <==> h.Contributes(n, sources[p]) {
      assert forall i :: e.Latest(i, n, sources[p]) <==> h.Latest(i, n, sources[p]);
    }
  }
}
