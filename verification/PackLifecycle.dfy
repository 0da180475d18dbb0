/** The pack lifecycle over the registry (`packages/adapters/lifecycle.py`), against a per-key machine. */
module PackLifecycles {
  import opened Prelude
  import opened AdapterContracts
  import opened AdapterRegistries
  import opened PackCompatibility

  // ------------------------------------------------------------------ the per-key machine

  datatype KeyState = Absent | Present(active: bool, current: AdapterPack, parked: Option<AdapterPack>)

  datatype Command =
    | Install(pack: AdapterPack)
    | Uninstall(key: string)
    | Activate(key: string)
    | Deactivate(key: string)
    | Upgrade(pack: AdapterPack, accepted: bool)
    | Rollback(key: string)

  function KeyOf(c: Command): string {
    match c
    case Install(pack) => pack.packKey
    case Upgrade(pack, _) => pack.packKey
    case Uninstall(key) => key
    case Activate(key) => key
    case Deactivate(key) => key
    case Rollback(key) => key
  }

  predicate Legal(s: KeyState, c: Command) {
    match c
    case Install(_) => s.Absent?
    case Uninstall(_) => s.Present? && !s.active
    case Activate(_) => s.Present? && !s.active
    case Deactivate(_) => s.Present? && s.active
    case Upgrade(_, _) => s.Present?
    case Rollback(_) => s.Present? && s.parked.Some?
  }

  /** Illegal commands and rejected upgrades change nothing. */
  function Next(s: KeyState, c: Command): KeyState {
    if !Legal(s, c) then s else
      match c
      case Install(pack) => Present(false, pack, None)
      case Uninstall(_) => Absent
      case Activate(_) => s.(active := true)
      case Deactivate(_) => s.(active := false)
      case Upgrade(pack, accepted) => if accepted then Present(s.active, pack, Some(s.current)) else s
      case Rollback(_) => Present(s.active, s.parked.value, Some(s.current))
  }

  type Packs = map<string, KeyState>

  function At(packs: Packs, key: string): KeyState {
    if key in packs then packs[key] else Absent
  }

  function Apply(packs: Packs, c: Command): Packs {
    var s := Next(At(packs, KeyOf(c)), c);
    if s.Absent? then packs - {KeyOf(c)} else packs[KeyOf(c) := s]
  }

  /** A command concerns its own key only. */
  lemma CommandsAreFramed(packs: Packs, c: Command, key: string)
    ensures At(Apply(packs, c), key) == if key == KeyOf(c) then Next(At(packs, key), c) else At(packs, key)
  {
  }

  function Run(packs: Packs, commands: seq<Command>): Packs
    decreases |commands|
  {
    if commands == [] then packs else Run(Apply(packs, commands[0]), commands[1..])
  }

  function RunKey(s: KeyState, commands: seq<Command>): KeyState
    decreases |commands|
  {
    if commands == [] then s else RunKey(Next(s, commands[0]), commands[1..])
  }

  function Concerning(commands: seq<Command>, key: string): seq<Command> {
    if commands == [] then []
    else (if KeyOf(commands[0]) == key then [commands[0]] else []) + Concerning(commands[1..], key)
  }

  /** In any command sequence a pack's fate depends on the commands for its own key alone. */
  lemma {:induction false} RunsDecomposeByKey(packs: Packs, commands: seq<Command>, key: string)
    ensures At(Run(packs, commands), key) == RunKey(At(packs, key), Concerning(commands, key))
    decreases |commands|
  {
    if commands == [] {
    } else {
      CommandsAreFramed(packs, commands[0], key);
      RunsDecomposeByKey(Apply(packs, commands[0]), commands[1..], key);
      if KeyOf(commands[0]) == key {
        assert Concerning(commands, key)[1..] == Concerning(commands[1..], key);
      } else {
        assert Concerning(commands, key) == Concerning(commands[1..], key);
      }
    }
  }

  // ------------------------------------------------------------------ rollback

  function Upgrades(s: KeyState, packs: seq<AdapterPack>): KeyState
    decreases |packs|
  {
    if packs == [] then s else Upgrades(Next(s, Upgrade(packs[0], true)), packs[1..])
  }

  function Rollbacks(s: KeyState, key: string, n: nat): KeyState
    decreases n
  {
    if n == 0 then s else Rollbacks(Next(s, Rollback(key)), key, n - 1)
  }

  /** After upgrades p1 .. pn the pack parked is the one just before pn. */
  lemma {:induction false} UpgradesParkThePredecessor(s: KeyState, packs: seq<AdapterPack>)
    requires s.Present? && packs != []
    ensures Upgrades(s, packs) ==
            Present(s.active, packs[|packs| - 1], Some(if |packs| == 1 then s.current else packs[|packs| - 2]))
    decreases |packs|
  {
    if |packs| == 1 {
    } else {
      UpgradesParkThePredecessor(Next(s, Upgrade(packs[0], true)), packs[1..]);
    }
  }

  /** Two rollbacks in a row change nothing at all, so every even number of them does. */
  lemma {:induction false} EvenRollbacksAreIdentity(s: KeyState, key: string, half: nat)
    requires Legal(s, Rollback(key))
    ensures Rollbacks(s, key, 2 * half) == s
    ensures Rollbacks(s, key, 2 * half + 1) == Present(s.active, s.parked.value, Some(s.current))
  {
    if half == 0 {
    } else {
      assert Next(Next(s, Rollback(key)), Rollback(key)) == s;
      EvenRollbacksAreIdentity(s, key, half - 1);
      assert Rollbacks(s, key, 2 * half) == Rollbacks(Next(s, Rollback(key)), key, 2 * half - 1);
      assert Rollbacks(Next(s, Rollback(key)), key, 2 * half - 1) == Rollbacks(s, key, 2 * (half - 1));
      assert Rollbacks(s, key, 2 * half + 1) == Rollbacks(Next(s, Rollback(key)), key, 2 * half);
      assert Rollbacks(Next(s, Rollback(key)), key, 2 * half) == Rollbacks(s, key, 2 * half - 1);
      assert 2 * half - 1 == 2 * (half - 1) + 1;
    }
  }

  /** On the whole state, two rollbacks of a pack in a row change nothing, whether legal or not. */
  lemma TwoRollbacksAreIdentity(packs: Packs, key: string)
    requires forall k :: k in packs ==> packs[k].Present?
    ensures Apply(Apply(packs, Rollback(key)), Rollback(key)) == packs
  {
    var once := Apply(packs, Rollback(key));
    forall k ensures At(Apply(once, Rollback(key)), k) == At(packs, k) {
      CommandsAreFramed(packs, Rollback(key), k);
      CommandsAreFramed(once, Rollback(key), k);
    }
  }

  /** After n >= 1 upgrades odd numbers of rollbacks give the pack before the last, even ones the last. */
  lemma RollbacksAfterUpgrades(s: KeyState, packs: seq<AdapterPack>, key: string, n: nat)
    requires s.Present? && packs != []
    ensures var r := Rollbacks(Upgrades(s, packs), key, n);
            && r.Present? && r.active == s.active
            && r.current == if n % 2 == 0 then packs[|packs| - 1]
                            else if |packs| == 1 then s.current else packs[|packs| - 2]
  {
    UpgradesParkThePredecessor(s, packs);
    EvenRollbacksAreIdentity(Upgrades(s, packs), key, n / 2);
    assert n == 2 * (n / 2) || n == 2 * (n / 2) + 1;
  }

  // ------------------------------------------------------------------ the implementation

  datatype UpgradeResult = UpgradeResult(
    upgraded: bool, check: Option<CompatibilityCheck>, previous: Option<AdapterPack>)

  datatype IllegalTransition = IllegalTransition(key: string)

  /** The two registry maps and the parked packs, seen as one state per key. */
  function KeyView(
    packs: map<string, AdapterPack>, active: map<string, bool>, previous: map<string, AdapterPack>): Packs
    requires packs.Keys == active.Keys
  {
    map k | k in packs :: Present(active[k], packs[k], if k in previous then Some(previous[k]) else None)
  }

  lemma ReplacedView(
    packs: map<string, AdapterPack>, active: map<string, bool>, previous: map<string, AdapterPack>, pack: AdapterPack)
    requires packs.Keys == active.Keys && pack.packKey in packs
    ensures var key := pack.packKey;
            KeyView(packs[key := pack], active, previous[key := packs[key]])
            == Apply(KeyView(packs, active, previous), Upgrade(pack, true))
  {
  }

  class PackLifecycle {
    const registry: AdapterRegistry
    var previous: map<string, AdapterPack>

    /** Parked keys are installed keys. */
    ghost predicate Valid() reads this, registry {
      && registry.Valid()
      && previous.Keys <= registry.packs.Keys
      && forall k :: k in previous ==> previous[k].packKey == k
    }

    ghost function View(): Packs
      requires Valid()
      reads this, registry
    {
      KeyView(registry.packs, registry.active, previous)
    }

    constructor (registry: AdapterRegistry)
      requires registry.Valid()
      ensures Valid() && this.registry == registry && previous == map[]
    {
      this.registry := registry;
      previous := map[];
    }

    ghost predicate Untouched(
      packs: map<string, AdapterPack>, active: map<string, bool>, parked: map<string, AdapterPack>)
      reads this, registry
    {
      registry.packs == packs && registry.active == active && previous == parked
    }

    /** `pack` has taken the place of the one with its key, which is parked, active or not as that one was. */
    ghost predicate Replaced(
      packs: map<string, AdapterPack>, active: map<string, bool>, parked: map<string, AdapterPack>, pack: AdapterPack)
      reads this, registry
    {
      && pack.packKey in packs
      && registry.packs == packs[pack.packKey := pack] && registry.active == active
      && previous == parked[pack.packKey := packs[pack.packKey]]
    }

    method InstallPack(pack: AdapterPack) returns (r: Result<(), IllegalTransition>)
      requires Valid()
      modifies this, registry
      ensures Valid() && View() == Apply(old(View()), Install(pack))
      ensures r.Ok? <==> Legal(At(old(View()), pack.packKey), Install(pack))
      ensures r.Ok? <==> pack.packKey !in old(registry.packs)
      ensures r.Ok? ==>
                && registry.packs == old(registry.packs)[pack.packKey := pack]
                && registry.active == old(registry.active)[pack.packKey := false] && previous == old(previous)
      ensures r.Err? ==> Untouched(old(registry.packs), old(registry.active), old(previous))
    {
      if registry.Get(pack.packKey).Some? { return Err(IllegalTransition(pack.packKey)); }
      var done := registry.Register(pack);
      assert done.Ok?;
      return Ok(());
    }

    method UninstallPack(key: string) returns (r: Result<(), IllegalTransition>)
      requires Valid()
      modifies this, registry
      ensures Valid() && View() == Apply(old(View()), Uninstall(key))
      ensures r.Ok? <==> Legal(At(old(View()), key), Uninstall(key))
      ensures r.Ok? <==> key in old(registry.packs) && !old(registry.active)[key]
      ensures r.Ok? ==>
                && registry.packs == old(registry.packs) - {key} && registry.active == old(registry.active) - {key}
                && previous == old(previous) - {key}
      ensures r.Err? ==> Untouched(old(registry.packs), old(registry.active), old(previous))
    {
      if registry.Get(key).None? || registry.IsActive(key) { return Err(IllegalTransition(key)); }
      var done := registry.Unregister(key);
      assert done.Ok?;
      previous := previous - {key};
      return Ok(());
    }

    method ActivatePack(key: string) returns (r: Result<(), IllegalTransition>)
      requires Valid()
      modifies this, registry
      ensures Valid() && View() == Apply(old(View()), Activate(key))
      ensures r.Ok? <==> Legal(At(old(View()), key), Activate(key))
      ensures r.Ok? <==> key in old(registry.packs) && !old(registry.active)[key]
      ensures r.Ok? ==>
                && registry.packs == old(registry.packs) && registry.active == old(registry.active)[key := true]
                && previous == old(previous)
      ensures r.Err? ==> Untouched(old(registry.packs), old(registry.active), old(previous))
    {
      if registry.Get(key).None? || registry.IsActive(key) { return Err(IllegalTransition(key)); }
      var done := registry.Activate(key);
      assert done.Ok?;
      return Ok(());
    }

    method DeactivatePack(key: string) returns (r: Result<(), IllegalTransition>)
      requires Valid()
      modifies this, registry
      ensures Valid() && View() == Apply(old(View()), Deactivate(key))
      ensures r.Ok? <==> Legal(At(old(View()), key), Deactivate(key))
      ensures r.Ok? <==> key in old(registry.packs) && old(registry.active)[key]
      ensures r.Ok? ==>
                && registry.packs == old(registry.packs) && registry.active == old(registry.active)[key := false]
                && previous == old(previous)
      ensures r.Err? ==> Untouched(old(registry.packs), old(registry.active), old(previous))
    {
      if registry.Get(key).None? || !registry.IsActive(key) { return Err(IllegalTransition(key)); }
      var done := registry.Deactivate(key);
      assert done.Ok?;
      return Ok(());
    }

    /** The check, when there is a checker, runs before anything is touched. */
    method UpgradePack(pack: AdapterPack, checker: Option<Checker>)
      returns (r: Result<UpgradeResult, IllegalTransition>)
      requires Valid()
      modifies this, registry
      ensures var accepted := checker.None? || checker.value.Compatible(pack);
              && Valid() && View() == Apply(old(View()), Upgrade(pack, accepted))
              && (r.Ok? <==> Legal(At(old(View()), pack.packKey), Upgrade(pack, accepted)))
              && (r.Ok? ==> r.value.upgraded == accepted && r.value.check.Some? == checker.Some?)
              && (r.Ok? && accepted ==> r.value.previous == Some(old(View())[pack.packKey].current))
      ensures r.Ok? <==> pack.packKey in old(registry.packs)
      ensures r.Ok? ==> (r.value.upgraded <==> r.value.check.Some? ==> r.value.check.value.isCompatible)
      ensures r.Ok? && r.value.upgraded ==>
                && Replaced(old(registry.packs), old(registry.active), old(previous), pack)
                && r.value.previous == Some(old(registry.packs)[pack.packKey])
      ensures r.Err? || !r.value.upgraded ==> Untouched(old(registry.packs), old(registry.active), old(previous))
    {
      var current := registry.Get(pack.packKey);
      if current.None? { return Err(IllegalTransition(pack.packKey)); }
      var check: Option<CompatibilityCheck> := None;
      if checker.Some? {
        var result := checker.value.Check(pack);
        check := Some(result);
        if !result.isCompatible { return Ok(UpgradeResult(false, check, None)); }
      }
      Replace(pack);
      return Ok(UpgradeResult(true, check, current));
    }

    /** Unregister, register, activate again when it was active. */
    method Reregister(pack: AdapterPack)
      requires registry.Valid() && pack.packKey in registry.packs
      modifies registry
      ensures registry.Valid()
      ensures registry.packs == old(registry.packs)[pack.packKey := pack] && registry.active == old(registry.active)
    {
      var key := pack.packKey;
      var wasActive := registry.IsActive(key);
      var done := registry.Unregister(key);
      assert done.Ok?;
      done := registry.Register(pack);
      assert done.Ok?;
      if wasActive {
        done := registry.Activate(key);
        assert done.Ok?;
      }
      assert registry.packs == (old(registry.packs) - {key})[key := pack];
      assert registry.active == (old(registry.active) - {key})[key := wasActive];
    }

    /** Put the pack in the place of the one with its key, and park that: what upgrade and rollback share. */
    method Replace(pack: AdapterPack)
      requires Valid() && pack.packKey in registry.packs
      modifies this, registry
      ensures Valid() && View() == Apply(old(View()), Upgrade(pack, true))
      ensures Replaced(old(registry.packs), old(registry.active), old(previous), pack)
    {
      var current := registry.packs[pack.packKey];
      ReplacedView(registry.packs, registry.active, previous, pack);
      Reregister(pack);
      previous := previous[pack.packKey := current];
    }

    method RollbackPack(key: string) returns (r: Result<AdapterPack, IllegalTransition>)
      requires Valid()
      modifies this, registry
      ensures Valid() && View() == Apply(old(View()), Rollback(key))
      ensures r.Ok? <==> Legal(At(old(View()), key), Rollback(key))
      ensures r.Ok? ==> Some(r.value) == old(View())[key].parked
      ensures r.Ok? <==> key in old(registry.packs) && key in old(previous)
      ensures r.Ok? ==>
                && r.value == old(previous)[key]
                && Replaced(old(registry.packs), old(registry.active), old(previous), r.value)
      ensures r.Err? ==> Untouched(old(registry.packs), old(registry.active), old(previous))
    {
      if registry.Get(key).None? || key !in previous { return Err(IllegalTransition(key)); }
      var restored := previous[key];
      Replace(restored);
      return Ok(restored);
    }
  }
}
