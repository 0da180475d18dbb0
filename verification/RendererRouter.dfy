/** Routing of publications to renderers of active packs (`packages/adapters/renderer_router.py`). */
module RendererRouters {
  import opened Prelude
  import opened Text
  import opened AdapterContracts
  import opened AdapterRegistries
  import opened RendererNegotiation

  /** A live renderer; `handle` tells two renderers with the same manifest apart. */
  datatype Renderer = Renderer(handle: nat, manifest: RendererManifest)

  datatype NegotiationFailure = NoAcceptableFormat | UnsupportedPublicationVersion | NoEligibleRenderer

  datatype NegotiationResult = NegotiationResult(
    renderers: seq<Renderer>, choice: Option<Choice>, failure: Option<NegotiationFailure>)

  predicate Declares(pack: AdapterPack, rendererKey: string) {
    exists i :: 0 <= i < |pack.renderers| && pack.renderers[i].rendererKey == rendererKey
  }

  /** `key` is the first pack, in key order, that declares the renderer. */
  ghost predicate FirstDeclaring(packs: map<string, AdapterPack>, rendererKey: string, key: string) {
    && key in packs && Declares(packs[key], rendererKey)
    && forall k :: k in packs && Less(k, key) ==> !Declares(packs[k], rendererKey)
  }

  ghost predicate Routable(registry: AdapterRegistry, rendererKey: string)
    requires registry.Valid()
    reads registry
  {
    exists k :: FirstDeclaring(registry.packs, rendererKey, k) && registry.active[k]
  }

  predicate Serves(m: RendererManifest, publicationKey: string, format: string) {
    && format in m.supportedFormats
    && (m.supportedPublicationKeys == [] || publicationKey in m.supportedPublicationKeys)
  }

  predicate ServesVersion(m: RendererManifest, version: Option<string>) {
    version.None? || m.supportedPublicationVersions == [] || version.value in m.supportedPublicationVersions
  }

  ghost predicate Provides(pack: AdapterPack, rendererKey: string) {
    exists m :: m in pack.renderers && m.rendererKey == rendererKey
  }

  /** The subsequence of `s` with the positions in `keep`. */
  ghost function Selected(s: seq<Renderer>, keep: set<nat>): seq<Renderer> {
    if s == [] then []
    else Selected(s[..|s| - 1], keep) + if |s| - 1 in keep then [s[|s| - 1]] else []
  }

  class RendererRouter {
    const registry: AdapterRegistry
    const renderers: seq<Renderer>

    constructor (registry: AdapterRegistry, renderers: seq<Renderer>)
      ensures this.registry == registry && this.renderers == renderers
    {
      this.registry, this.renderers := registry, renderers;
    }

    ghost predicate Eligible(r: Renderer, publicationKey: string, format: string)
      requires registry.Valid()
      reads registry
    {
      Routable(registry, r.manifest.rendererKey) && Serves(r.manifest, publicationKey, format)
    }

    /**
     * The renderer may render: the first pack, in key order, that has a manifest with its key is active, and
     * its own manifest names the format and, unless they name none at all, the publication and the version.
     */
    ghost predicate MayRender(r: Renderer, publicationKey: string, format: string, version: Option<string>)
      requires registry.Valid()
      reads registry
    {
      var m := r.manifest;
      && (exists k :: k in registry.packs && registry.active[k] && Provides(registry.packs[k], m.rendererKey)
            && forall l :: l in registry.packs && Less(l, k) ==> !Provides(registry.packs[l], m.rendererKey))
      && format in m.supportedFormats
      && (|m.supportedPublicationKeys| == 0 || publicationKey in m.supportedPublicationKeys)
      && (version.None? || |m.supportedPublicationVersions| == 0 || version.value in m.supportedPublicationVersions)
    }

    /** `listed` are the renderers that may render, in the order of the router. */
    ghost predicate ListsThem(
      publicationKey: string, format: string, version: Option<string>, listed: seq<Renderer>)
      requires registry.Valid()
      reads registry
    {
      exists positions: seq<nat> ::
        && |positions| == |listed| && (forall i, j :: 0 <= i < j < |positions| ==> positions[i] < positions[j])
        && (forall i :: 0 <= i < |positions| ==> positions[i] < |renderers| && listed[i] == renderers[positions[i]])
        && forall n: nat :: n < |renderers| ==>
             (n in positions <==> MayRender(renderers[n], publicationKey, format, version))
    }

    lemma EligibleExactlyWhen(n: nat, publicationKey: string, format: string, version: Option<string>)
      requires registry.Valid() && n < |renderers|
      ensures n in EligiblePositions(publicationKey, format, version) <==>
                MayRender(renderers[n], publicationKey, format, version)
    {
      var key := renderers[n].manifest.rendererKey;
      forall pack ensures Declares(pack, key) <==> Provides(pack, key) {
        if Declares(pack, key) {
          var i :| 0 <= i < |pack.renderers| && pack.renderers[i].rendererKey == key;
          assert pack.renderers[i] in pack.renderers;
        }
      }
      if k :| FirstDeclaring(registry.packs, key, k) && registry.active[k] {
        assert Provides(registry.packs[k], key);
      }
      if MayRender(renderers[n], publicationKey, format, version) {
        var k :| k in registry.packs && registry.active[k] && Provides(registry.packs[k], key)
          && forall l :: l in registry.packs && Less(l, k) ==> !Provides(registry.packs[l], key);
        assert FirstDeclaring(registry.packs, key, k);
      }
    }

    lemma SelectedAreListed(publicationKey: string, format: string, version: Option<string>)
      requires registry.Valid()
      ensures ListsThem(publicationKey, format, version,
                        Selected(renderers, EligiblePositions(publicationKey, format, version)))
    {
      var keep := EligiblePositions(publicationKey, format, version);
      var positions := SelectedPositions(renderers, keep);
      forall n: nat | n < |renderers|
        ensures n in positions <==> MayRender(renderers[n], publicationKey, format, version)
      {
        EligibleExactlyWhen(n, publicationKey, format, version);
      }
    }

    /** Positions of the renderers that may render this publication in this format and version. */
    ghost function EligiblePositions(publicationKey: string, format: string, version: Option<string>): set<nat>
      requires registry.Valid()
      reads registry
    {
      set i: nat | i < |renderers| && Eligible(renderers[i], publicationKey, format)
                   && ServesVersion(renderers[i].manifest, version)
    }

    /** The inner loop of `resolve`: look for the first pack that declares the renderer, then stop. */
    method PackIsActive(rendererKey: string) returns (isActive: bool)
      requires registry.Valid()
      ensures isActive <==> Routable(registry, rendererKey)
    {
      var packs := registry.ListPacks(false);
      for i := 0 to |packs|
        invariant forall j :: 0 <= j < i ==> !Declares(packs[j], rendererKey)
      {
        if Declares(packs[i], rendererKey) {
          FirstInListing(packs, rendererKey, i);
          return registry.IsActive(packs[i].packKey);
        }
      }
      forall k | k in registry.packs ensures !Declares(registry.packs[k], rendererKey) {
        var j :| 0 <= j < |packs| && packs[j] == registry.packs[k];
      }
      return false;
    }

    lemma FirstInListing(packs: seq<AdapterPack>, rendererKey: string, i: nat)
      requires registry.Valid() && i < |packs| && Declares(packs[i], rendererKey)
      requires forall a, b :: 0 <= a < b < |packs| ==> Less(packs[a].packKey, packs[b].packKey)
      requires forall a :: 0 <= a < |packs| ==>
                 packs[a].packKey in registry.packs && registry.packs[packs[a].packKey] == packs[a]
      requires forall k :: k in registry.packs ==> registry.packs[k] in packs
      requires forall j :: 0 <= j < i ==> !Declares(packs[j], rendererKey)
      ensures forall k :: FirstDeclaring(registry.packs, rendererKey, k) <==> k == packs[i].packKey
    {
      var key := packs[i].packKey;
      forall k | k in registry.packs && Less(k, key) ensures !Declares(registry.packs[k], rendererKey) {
        var j :| 0 <= j < |packs| && packs[j] == registry.packs[k];
        if j >= i {
          if j > i { LessIsAsymmetric(key, k); } else { LessIsIrreflexive(k); }
        }
      }
      forall k | FirstDeclaring(registry.packs, rendererKey, k) ensures k == key {
        LessIsTotal(k, key);
      }
    }

    /** `resolve`: the eligible renderers, each once, in the order given to the router. */
    method Resolve(publicationKey: string, format: string) returns (eligible: seq<Renderer>)
      requires registry.Valid()
      ensures eligible == Selected(renderers, EligiblePositions(publicationKey, format, None))
      ensures ListsThem(publicationKey, format, None, eligible)
    {
      SelectedAreListed(publicationKey, format, None);
      eligible := [];
      ghost var keep := EligiblePositions(publicationKey, format, None);
      for i := 0 to |renderers|
        invariant eligible == Selected(renderers[..i], keep)
      {
        assert renderers[..i + 1][..i] == renderers[..i];
        var manifest := renderers[i].manifest;
        var isActive := PackIsActive(manifest.rendererKey);
        if isActive && format in manifest.supportedFormats
          && (manifest.supportedPublicationKeys == [] || publicationKey in manifest.supportedPublicationKeys) {
          eligible := eligible + [renderers[i]];
        }
      }
      assert renderers[..|renderers|] == renderers;
    }

    /** The second half of `negotiate`: the renderers for a format that was chosen. */
    method NegotiateVersion(publicationKey: string, choice: Choice, version: Option<string>)
      returns (r: NegotiationResult)
      requires registry.Valid()
      ensures r.choice == Some(choice) && (r.failure.None? <==> r.renderers != [])
      ensures r.failure != Some(NoAcceptableFormat)
      ensures var anyVersion := Selected(renderers, EligiblePositions(publicationKey, choice.format, None));
              && (r.failure == Some(NoEligibleRenderer) <==> anyVersion == [])
              && (r.failure == Some(UnsupportedPublicationVersion) <==> anyVersion != [] && r.renderers == [])
      ensures r.renderers == Selected(renderers, EligiblePositions(publicationKey, choice.format, version))
      ensures ListsThem(publicationKey, choice.format, version, r.renderers)
    {
      var eligible := Resolve(publicationKey, choice.format);
      ghost var anyVersion := EligiblePositions(publicationKey, choice.format, None);
      ghost var keep := EligiblePositions(publicationKey, choice.format, version);
      SelectedShrinks(renderers, anyVersion, keep);
      SelectedAreListed(publicationKey, choice.format, version);
      if eligible == [] { return NegotiationResult([], Some(choice), Some(NoEligibleRenderer)); }
      if version.Some? {
        var suitable := ForVersion(eligible, version);
        SelectedTwice(renderers, anyVersion, keep, version);
        if suitable == [] { return NegotiationResult([], Some(choice), Some(UnsupportedPublicationVersion)); }
        eligible := suitable;
      } else {
        assert keep == anyVersion;
      }
      return NegotiationResult(eligible, Some(choice), None);
    }

    /**
     * `negotiate`. The result lists exactly the routable renderers that serve the chosen format, the
     * publication and the version, in router order; a failure is reported exactly when that list is
     * empty or no offered format is recognised.
     */
    method Negotiate(publicationKey: string, accept: string, version: Option<string>, floats: FloatParser)
      returns (r: Result<NegotiationResult, NegotiationError>)
      requires registry.Valid()
      ensures r.Err? <==> !Blank(accept) && SomeMalformed(Split(accept, ','))
      ensures r.Ok? ==>
                && (r.value.failure.None? <==> r.value.renderers != [])
                && (r.value.choice.None? <==> r.value.failure == Some(NoAcceptableFormat))
      ensures r.Ok? && r.value.choice.Some? ==>
                var format := r.value.choice.value.format;
                var anyVersion := Selected(renderers, EligiblePositions(publicationKey, format, None));
                && (r.value.failure == Some(NoEligibleRenderer) <==> anyVersion == [])
                && (r.value.failure == Some(UnsupportedPublicationVersion) <==>
                      anyVersion != [] && r.value.renderers == [])
                && r.value.renderers == Selected(renderers, EligiblePositions(publicationKey, format, version))
                && ListsThem(publicationKey, format, version, r.value.renderers)
      ensures r.Ok? && r.value.choice.Some? && !Blank(accept) ==>
                exists c :: BestOffer(Split(accept, ','), floats, c) &&
                  r.value.choice.value == Choice(FormatOf(c).value, c.mediaType)
      ensures r.Ok? && Blank(accept) ==> r.value.choice == Some(Choice("json", "application/json"))
      ensures r.Ok? && r.value.choice.None? ==>
                !Blank(accept) && forall c :: Offered(Split(accept, ','), floats, c) ==> FormatOf(c).None?
    {
      var resolved := ResolveFormat(accept, floats);
      if resolved.Err? { return Err(resolved.error); }
      if resolved.value.None? { return Ok(NegotiationResult([], None, Some(NoAcceptableFormat))); }
      var result := NegotiateVersion(publicationKey, resolved.value.value, version);
      return Ok(result);
    }
  }

  /** The comprehension that keeps the renderers supporting a version. */
  function ForVersion(s: seq<Renderer>, version: Option<string>): seq<Renderer> {
    if s == [] then []
    else ForVersion(s[..|s| - 1], version) + if ServesVersion(s[|s| - 1].manifest, version) then [s[|s| - 1]] else []
  }

  lemma {:induction false} SelectedTwice(s: seq<Renderer>, wide: set<nat>, narrow: set<nat>, version: Option<string>)
    requires forall i: nat :: i < |s| ==> (i in narrow <==> i in wide && ServesVersion(s[i].manifest, version))
    ensures ForVersion(Selected(s, wide), version) == Selected(s, narrow)
    decreases |s|
  {
    if s == [] {
    } else {
      var n := |s| - 1;
      SelectedTwice(s[..n], wide, narrow, version);
      var chosen := Selected(s, wide);
      if n in wide {
        assert chosen[..|chosen| - 1] == Selected(s[..n], wide) && chosen[|chosen| - 1] == s[n];
      } else {
        assert chosen == Selected(s[..n], wide);
      }
    }
  }

  /** Each position kept, once and in order. */
  lemma {:induction false} SelectedPositions(s: seq<Renderer>, keep: set<nat>) returns (positions: seq<nat>)
    ensures |positions| == |Selected(s, keep)|
    ensures forall i, j :: 0 <= i < j < |positions| ==> positions[i] < positions[j]
    ensures forall i :: 0 <= i < |positions| ==> positions[i] < |s| && Selected(s, keep)[i] == s[positions[i]]
    ensures forall n: nat :: n < |s| ==> (n in positions <==> n in keep)
    decreases |s|
  {
    if s == [] {
      positions := [];
    } else {
      var n := |s| - 1;
      positions := SelectedPositions(s[..n], keep);
      if n in keep { positions := positions + [n]; }
    }
  }

  lemma {:induction false} SelectedShrinks(s: seq<Renderer>, wide: set<nat>, narrow: set<nat>)
    requires narrow <= wide
    ensures Selected(s, wide) == [] ==> Selected(s, narrow) == []
    decreases |s|
  {
    if s == [] {
    } else {
      SelectedShrinks(s[..|s| - 1], wide, narrow);
    }
  }
}
