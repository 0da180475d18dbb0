/** Trust-ranked entity aliases (`packages/adapters/entity_correlation.py`). */
module EntityCorrelation {
  import opened Prelude
  import opened Text
  import opened Sorting
  import opened AdapterContracts

  datatype CanonicalEntityId = CanonicalEntityId(entityClass: string, canonicalKey: string)

  type AliasKey = (string, string, string)

  datatype EntityAlias = EntityAlias(
    adapterKey: string, entityClass: string, sourceEntityId: string, canonicalKey: string, trust: TrustLevel)
  {
    function Key(): AliasKey { (adapterKey, entityClass, sourceEntityId) }

    function CanonicalId(): CanonicalEntityId { CanonicalEntityId(entityClass, canonicalKey) }
  }

  function Rank(trust: TrustLevel): nat {
    match trust case Local => 0 case Community => 1 case Verified => 2
  }

  type Aliases = map<AliasKey, EntityAlias>

  /** The alias that ends up stored when `alias` meets what is stored under its key. */
  function Winner(aliases: Aliases, alias: EntityAlias): EntityAlias {
    if alias.Key() in aliases && Rank(alias.trust) < Rank(aliases[alias.Key()].trust)
    then aliases[alias.Key()] else alias
  }

  function Replay(history: seq<EntityAlias>): Aliases {
    if history == [] then map[]
    else
      var before := Replay(history[..|history| - 1]);
      var last := history[|history| - 1];
      before[last.Key() := Winner(before, last)]
  }

  /** `i` is the last registration among those of greatest trust for `key`. */
  ghost predicate LastMostTrusted(history: seq<EntityAlias>, key: AliasKey, i: int) {
    && 0 <= i < |history| && history[i].Key() == key
    && (forall j :: 0 <= j < |history| && history[j].Key() == key ==> Rank(history[j].trust) <= Rank(history[i].trust))
    && (forall j :: i < j < |history| && history[j].Key() == key ==> Rank(history[j].trust) < Rank(history[i].trust))
  }

  /** After any registrations each key holds exactly the last one registered among the most trusted for it. */
  lemma {:induction false} StoredIsLastMostTrusted(history: seq<EntityAlias>, key: AliasKey, i: int)
    requires LastMostTrusted(history, key, i)
    ensures key in Replay(history) && Replay(history)[key] == history[i]
    decreases |history|
  {
    var n := |history| - 1;
    var before := history[..n];
    if i < n {
      StoredIsLastMostTrusted(before, key, i);
    } else if key in Replay(before) {
      var j := MostTrustedExists(before, key);
      StoredIsLastMostTrusted(before, key, j);
    }
  }

  /** A key is stored exactly when it was ever registered. */
  lemma {:induction false} StoredKeys(history: seq<EntityAlias>, key: AliasKey)
    ensures key in Replay(history) <==> exists i :: 0 <= i < |history| && history[i].Key() == key
    decreases |history|
  {
    if history == [] {
    } else {
      var n := |history| - 1;
      StoredKeys(history[..n], key);
      assert history[n].Key() == key || forall i :: 0 <= i < |history| && history[i].Key() == key ==> i < n;
    }
  }

  lemma {:induction false} MostTrustedExists(history: seq<EntityAlias>, key: AliasKey) returns (i: int)
    requires key in Replay(history)
    ensures LastMostTrusted(history, key, i)
    decreases |history|
  {
    var n := |history| - 1;
    var before := history[..n];
    var last := history[n];
    if key in Replay(before) {
      i := MostTrustedExists(before, key);
      if last.Key() == key && Rank(last.trust) >= Rank(history[i].trust) {
        i := n;
      }
    } else {
      i := n;
      StoredKeys(before, key);
      forall j | 0 <= j < n ensures history[j].Key() != key { assert before[j] == history[j]; }
    }
  }

  /** More registrations never lower the rank stored for a key. */
  lemma {:induction false} RankNeverFalls(history: seq<EntityAlias>, more: seq<EntityAlias>, key: AliasKey)
    requires key in Replay(history)
    ensures key in Replay(history + more)
    ensures Rank(Replay(history)[key].trust) <= Rank(Replay(history + more)[key].trust)
    decreases |more|
  {
    if more == [] {
      assert history + more == history;
    } else {
      var m := |more| - 1;
      RankNeverFalls(history, more[..m], key);
      assert (history + more)[..|history + more| - 1] == history + more[..m];
    }
  }

  function SortKeyLeq(): (EntityAlias, EntityAlias) -> bool {
    (a: EntityAlias, b: EntityAlias) =>
      Less(a.adapterKey, b.adapterKey) || (a.adapterKey == b.adapterKey && Leq(a.sourceEntityId, b.sourceEntityId))
  }

  lemma SortKeyIsTotalPreorder()
    ensures TotalPreorder(SortKeyLeq())
  {
    forall a: EntityAlias, b: EntityAlias ensures SortKeyLeq()(a, b) || SortKeyLeq()(b, a) {
      LessIsTotal(a.adapterKey, b.adapterKey);
      LessIsTotal(a.sourceEntityId, b.sourceEntityId);
    }
    forall a: EntityAlias, b: EntityAlias, c: EntityAlias | SortKeyLeq()(a, b) && SortKeyLeq()(b, c)
      ensures SortKeyLeq()(a, c)
    {
      if Less(a.adapterKey, b.adapterKey) {
        if Less(b.adapterKey, c.adapterKey) { LessIsTransitive(a.adapterKey, b.adapterKey, c.adapterKey); }
      } else if a.adapterKey == b.adapterKey == c.adapterKey
        && Less(a.sourceEntityId, b.sourceEntityId) && Less(b.sourceEntityId, c.sourceEntityId) {
        LessIsTransitive(a.sourceEntityId, b.sourceEntityId, c.sourceEntityId);
      }
    }
  }

  class EntityCorrelationRegistry {
    var aliases: Aliases

    /** Every registration so far; `Valid` ties the map to it. */
    ghost var history: seq<EntityAlias>

    ghost predicate Valid() reads this {
      && aliases == Replay(history)
      && forall k :: k in aliases ==> aliases[k].Key() == k
    }

    constructor ()
      ensures Valid() && history == [] && aliases == map[]
    {
      aliases, history := map[], [];
    }

    /** `register_alias`; returns what is stored under the key afterwards. */
    method RegisterAlias(alias: EntityAlias) returns (stored: EntityAlias)
      requires Valid()
      modifies this
      ensures Valid() && history == old(history) + [alias]
      ensures aliases == old(aliases)[alias.Key() := stored]
      ensures old(alias.Key() in aliases) ==>
                stored == if Rank(alias.trust) < Rank(old(aliases)[alias.Key()].trust)
                          then old(aliases)[alias.Key()] else alias
      ensures old(alias.Key() !in aliases) ==> stored == alias
    {
      var key := alias.Key();
      history := history + [alias];
      assert history[..|history| - 1] == old(history);
      if key in aliases && Rank(alias.trust) < Rank(aliases[key].trust) {
        assert aliases == aliases[key := aliases[key]];
        return aliases[key];
      }
      aliases := aliases[key := alias];
      return alias;
    }

    function Resolve(adapterKey: string, entityClass: string, sourceEntityId: string): Option<CanonicalEntityId>
      reads this
    {
      var key := (adapterKey, entityClass, sourceEntityId);
      if key in aliases then Some(aliases[key].CanonicalId()) else None
    }

    /**
     * `aliases_for` lists, once each and in (adapter, source id) order, exactly the stored aliases whose
     * key resolves to `id`: the two queries describe one relation.
     */
    method AliasesFor(id: CanonicalEntityId) returns (found: seq<EntityAlias>)
      requires Valid()
      ensures forall a :: a in found <==>
                a.Key() in aliases && aliases[a.Key()] == a
                && Resolve(a.adapterKey, a.entityClass, a.sourceEntityId) == Some(id)
      ensures Sorted(found, SortKeyLeq())
      ensures forall a :: a in found ==> multiset(found)[a] == 1
    {
      var picked: seq<EntityAlias> := [];
      var left := aliases.Keys;
      while left != {}
        invariant left <= aliases.Keys
        invariant forall a :: a in picked <==>
                    a.Key() in aliases && a.Key() !in left && aliases[a.Key()] == a && a.CanonicalId() == id
        invariant forall a :: a in picked ==> multiset(picked)[a] == 1
        decreases |left|
      {
        var key :| key in left;
        left := left - {key};
        if aliases[key].CanonicalId() == id {
          assert aliases[key] !in picked;
          picked := picked + [aliases[key]];
        }
      }
      found := Sort(picked, SortKeyLeq());
      SortKeyIsTotalPreorder();
      SortSorts(picked, SortKeyLeq());
      SortPermutes(picked, SortKeyLeq());
      SortKeepsMembers(picked, SortKeyLeq());
    }
  }
}
