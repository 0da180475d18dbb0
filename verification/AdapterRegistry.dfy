/** The in-memory pack registry (`packages/adapters/registry.py`). */
module AdapterRegistries {
  import opened Prelude
  import opened Text
  import opened SortedKeys
  import opened AdapterContracts

  datatype RegistryError = AlreadyRegistered(key: string) | NotRegistered(key: string)

  class AdapterRegistry {
    var packs: map<string, AdapterPack>
    var active: map<string, bool>

    /** Both maps always have the same keys, and each pack is filed under its own key. */
    ghost predicate Valid() reads this {
      packs.Keys == active.Keys && forall k :: k in packs ==> packs[k].packKey == k
    }

    constructor ()
      ensures Valid() && packs == map[] && active == map[]
    {
      packs, active := map[], map[];
    }

    method Register(pack: AdapterPack) returns (r: Result<(), RegistryError>)
      requires Valid()
      modifies this
      ensures Valid() && (r.Ok? <==> pack.packKey !in old(packs))
      ensures r.Ok? ==> packs == old(packs)[pack.packKey := pack] && active == old(active)[pack.packKey := false]
      ensures r.Err? ==> packs == old(packs) && active == old(active)
    {
      if pack.packKey in packs { return Err(AlreadyRegistered(pack.packKey)); }
      packs := packs[pack.packKey := pack];
      active := active[pack.packKey := false];
      return Ok(());
    }

    method Activate(key: string) returns (r: Result<(), RegistryError>)
      requires Valid()
      modifies this`active
      ensures Valid() && (r.Ok? <==> key in packs)
      ensures active == if r.Ok? then old(active)[key := true] else old(active)
    {
      if key !in packs { return Err(NotRegistered(key)); }
      active := active[key := true];
      return Ok(());
    }

    method Deactivate(key: string) returns (r: Result<(), RegistryError>)
      requires Valid()
      modifies this`active
      ensures Valid() && (r.Ok? <==> key in packs)
      ensures active == if r.Ok? then old(active)[key := false] else old(active)
    {
      if key !in packs { return Err(NotRegistered(key)); }
      active := active[key := false];
      return Ok(());
    }

    method Unregister(key: string) returns (r: Result<(), RegistryError>)
      requires Valid()
      modifies this
      ensures Valid() && (r.Ok? <==> key in old(packs))
      ensures r.Ok? ==> packs == old(packs) - {key} && active == old(active) - {key}
      ensures r.Err? ==> packs == old(packs) && active == old(active)
    {
      if key !in packs { return Err(NotRegistered(key)); }
      packs := packs - {key};
      active := active - {key};
      return Ok(());
    }

    function Get(key: string): (pack: Option<AdapterPack>)
      reads this
      ensures Valid() && pack.Some? ==> pack.value.packKey == key
    {
      if key in packs then Some(packs[key]) else None
    }

    predicate IsActive(key: string) reads this {
      key in active && active[key]
    }

    /** Exactly the registered (or only the active) packs, once each, by ascending key. */
    method ListPacks(activeOnly: bool) returns (listed: seq<AdapterPack>)
      requires Valid()
      ensures forall i, j :: 0 <= i < j < |listed| ==> Less(listed[i].packKey, listed[j].packKey)
      ensures forall i :: 0 <= i < |listed| ==>
                listed[i].packKey in packs && packs[listed[i].packKey] == listed[i]
                && (activeOnly ==> active[listed[i].packKey])
      ensures forall k :: k in packs && (activeOnly ==> active[k]) ==> packs[k] in listed
    {
      var keys := Ordered(set k | k in packs && (activeOnly ==> active[k]));
      forall i | 0 <= i < |keys|
        ensures keys[i] in packs && (activeOnly ==> active[keys[i]])
      {
        assert keys[i] in keys;
      }
      var filed := packs;
      listed := seq(|keys|, i requires 0 <= i < |keys| && keys[i] in filed => filed[keys[i]]);
      forall k | k in packs && (activeOnly ==> active[k]) ensures packs[k] in listed {
        assert k in keys;
        var m :| 0 <= m < |keys| && keys[m] == k;
        assert listed[m] == packs[k];
      }
    }
  }
}
