/** The static checks of `packages/pipelines/config_preflight.py`, and what a passing check guarantees at run time. */
module ConfigPreflight {
  import opened Prelude
  import opened CsvValidation
  import opened CsvMapping
  import opened ConfigCatalog

  /** What the checks consult besides the catalog; `handlers` maps a handler to the publications it supports. */
  datatype Registries = Registries(
    functions: FunctionRegistry, builtinKeys: set<string>, extensionKeys: set<string>,
    handlers: Option<map<string, set<string>>>)

  datatype Entity =
    | MappingEntity(id: string) | AssetEntity(id: string)
    | PublicationEntity(id: string) | DefinitionEntity(id: string)

  /** An issue's code, with what its message names. */
  datatype Problem =
    | MissingDatasetContract | MissingSourceSystem | MissingColumnMapping
    | MissingTransformationPackage | MissingSourceAsset
    | UnknownTargetColumn(column: string) | MissingRequiredMapping(column: string)
    | UnknownMappingFunction(column: string, key: string)
    | SourceSystemBindingMismatch | DatasetContractBindingMismatch
    | UnknownPublicationKey | UnsupportedPublicationKey
    | TransportMismatch | MissingSourcePath
    | MissingRequestUrl | MissingRequestMethod | MissingResponseFormat | MissingOutputFileName

  datatype Issue = Issue(entity: Entity, problem: Problem)

  datatype ScopeError = BothScopes | NoSuchAsset | NoSuchDefinition

  // ------------------------------------------------------------------ what each issue means

  function Targets(rules: seq<Rule>): (targets: set<string>)
    ensures forall t :: t in targets <==> exists rule :: rule in rules && rule.target == t
  {
    set rule | rule in rules :: rule.target
  }

  /** A rule the preflight faults: its key counts only when it is not empty. */
  predicate FaultyRule(functions: FunctionRegistry, rule: Rule) {
    rule.functionKey.Some? && rule.functionKey.value != "" && !UsableFunction(functions, rule.functionKey.value)
  }

  function FaultyRules(functions: FunctionRegistry, rules: seq<Rule>, column: string, key: string): nat {
    if rules == [] then 0
    else
      var last := rules[|rules| - 1];
      FaultyRules(functions, rules[..|rules| - 1], column, key) +
      if FaultyRule(functions, last) && last.target == column && last.functionKey.value == key then 1 else 0
  }

  predicate RequiredColumn(columns: seq<Column>, name: string) {
    Lookup(columns, name).Some? && Lookup(columns, name).value.required
  }

  function RuleFaults(columns: seq<Column>, functions: FunctionRegistry, rules: seq<Rule>, p: Problem): nat {
    match p
    case UnknownTargetColumn(t) => Once(t in Targets(rules) && Lookup(columns, t).None?)
    case MissingRequiredMapping(t) => Once(RequiredColumn(columns, t) && t !in Targets(rules))
    case UnknownMappingFunction(t, key) => FaultyRules(functions, rules, t, key)
    case _ => 0
  }

  function MappingFaults(cat: Catalog, functions: FunctionRegistry, m: MappingConfig, p: Problem): nat {
    if !cat.ListsContract(m.contractId) then Once(p == MissingDatasetContract)
    else
      Once(p == MissingSourceSystem && m.systemId !in cat.systems) +
      RuleFaults(cat.contracts[m.contractId].columns, functions, m.rules, p)
  }

  predicate ReferenceFault(cat: Catalog, a: SourceAsset, p: Problem) {
    || (p == MissingSourceSystem && a.systemId !in cat.systems)
    || (p == MissingDatasetContract && !cat.ListsContract(a.contractId))
    || (p == MissingColumnMapping && !cat.ListsMapping(a.mappingId))
    || (p == MissingTransformationPackage && a.packageId.Some? && !cat.ListsPackage(a.packageId.value))
  }

  predicate AssetFault(cat: Catalog, a: SourceAsset, p: Problem) {
    || ReferenceFault(cat, a, p)
    || (p == SourceSystemBindingMismatch && cat.ListsMapping(a.mappingId)
        && cat.mappings[a.mappingId].systemId != a.systemId)
    || (p == DatasetContractBindingMismatch && cat.ListsMapping(a.mappingId)
        && cat.mappings[a.mappingId].contractId != a.contractId)
  }

  predicate KnownPublicationKey(reg: Registries, key: string) {
    key in reg.builtinKeys || key in reg.extensionKeys
  }

  predicate SupportedPublication(reg: Registries, handlers: map<string, set<string>>, handlerKey: string, key: string) {
    && KnownPublicationKey(reg, key)
    && (key in reg.extensionKeys || (handlerKey in handlers && key in handlers[handlerKey]))
  }

  predicate PublicationFault(cat: Catalog, reg: Registries, d: PublicationDefinition, p: Problem) {
    || (p == MissingTransformationPackage && !cat.ListsPackage(d.packageId))
    || (p == UnknownPublicationKey && !KnownPublicationKey(reg, d.key))
    || (p == UnsupportedPublicationKey && cat.ListsPackage(d.packageId) && reg.handlers.Some?
        && !SupportedPublication(reg, reg.handlers.value, cat.packages[d.packageId].handlerKey, d.key))
  }

  predicate DefinitionFault(cat: Catalog, d: IngestionDefinition, p: Problem) {
    if !cat.ListsAsset(d.assetId) then p == MissingSourceAsset
    else
      var systemId := cat.assets[d.assetId].systemId;
      TransportFault(cat, systemId, d, p) || (d.transport == "http" && RequestFault(d, p))
  }

  predicate TransportFault(cat: Catalog, systemId: string, d: IngestionDefinition, p: Problem) {
    || (p == TransportMismatch && systemId in cat.systems && d.transport != cat.systems[systemId].transport)
    || (p == MissingSourcePath && d.transport == "filesystem" && d.sourcePath == "")
  }

  predicate RequestFault(d: IngestionDefinition, p: Problem) {
    || (p == MissingRequestUrl && d.requestUrl == "")
    || (p == MissingRequestMethod && d.requestMethod == "")
    || (p == MissingResponseFormat && d.responseFormat in {None, Some("")})
    || (p == MissingOutputFileName && d.outputFileName == "")
  }

  /** How often a listed entity has a problem. */
  function Faults(cat: Catalog, reg: Registries, e: Entity, p: Problem): nat {
    match e
    case MappingEntity(id) => if cat.ListsMapping(id) then MappingFaults(cat, reg.functions, cat.mappings[id], p) else 0
    case AssetEntity(id) => if cat.ListsAsset(id) then Once(AssetFault(cat, cat.assets[id], p)) else 0
    case PublicationEntity(id) =>
      if cat.ListsPublication(id) then Once(PublicationFault(cat, reg, cat.publications[id], p)) else 0
    case DefinitionEntity(id) =>
      if cat.ListsDefinition(id) then Once(DefinitionFault(cat, cat.definitions[id], p)) else 0
  }

  // ------------------------------------------------------------------ scoping

  predicate AssetInScope(cat: Catalog, asset: Option<string>, definition: Option<string>, id: string) {
    && cat.ListsAsset(id)
    && (asset.Some? ==> id == asset.value)
    && (asset.None? && definition.Some? ==>
      definition.value in cat.definitions && id == cat.definitions[definition.value].assetId)
  }

  predicate DefinitionInScope(cat: Catalog, asset: Option<string>, definition: Option<string>, id: string) {
    && cat.ListsDefinition(id)
    && (definition.Some? ==> id == definition.value)
    && (definition.None? && asset.Some? ==> cat.definitions[id].assetId == asset.value)
  }

  ghost predicate InScope(cat: Catalog, asset: Option<string>, definition: Option<string>, e: Entity) {
    match e
    case AssetEntity(id) => AssetInScope(cat, asset, definition, id)
    case DefinitionEntity(id) => DefinitionInScope(cat, asset, definition, id)
    case MappingEntity(id) =>
      cat.ListsMapping(id) &&
      ((asset.None? && definition.None?) ||
       exists a :: AssetInScope(cat, asset, definition, a) && cat.assets[a].mappingId == id)
    case PublicationEntity(id) =>
      cat.ListsPublication(id) &&
      ((asset.None? && definition.None?) ||
       exists a :: AssetInScope(cat, asset, definition, a)
         && cat.assets[a].packageId == Some(cat.publications[id].packageId))
  }

  /** The issues reported are exactly the problems of the entities in scope, each as often as it occurs. */
  ghost predicate Reports(
    cat: Catalog, reg: Registries, asset: Option<string>, definition: Option<string>, issues: seq<Issue>)
  {
    forall issue :: multiset(issues)[issue] ==
      if InScope(cat, asset, definition, issue.entity) then Faults(cat, reg, issue.entity, issue.problem) else 0
  }

  // ------------------------------------------------------------------ the checks

  /** One more check: its problem is added when it applies. */
  function Flagged(problems: seq<Problem>, b: bool, p: Problem): (all: seq<Problem>)
    ensures forall q :: multiset(all)[q] == multiset(problems)[q] + Once(b && q == p)
  {
    if b then problems + [p] else problems
  }

  method CheckMapping(cat: Catalog, functions: FunctionRegistry, m: MappingConfig) returns (problems: seq<Problem>)
    ensures forall p :: multiset(problems)[p] == MappingFaults(cat, functions, m, p)
  {
    if !cat.ListsContract(m.contractId) { return [MissingDatasetContract]; }
    var columns := cat.contracts[m.contractId].columns;
    problems := Flagged([], m.systemId !in cat.systems, MissingSourceSystem);
    var found := CheckRules(columns, functions, m.rules);
    problems := problems + found;
  }

  method CheckRules(columns: seq<Column>, functions: FunctionRegistry, rules: seq<Rule>)
    returns (problems: seq<Problem>)
    ensures forall p :: multiset(problems)[p] == RuleFaults(columns, functions, rules, p)
  {
    var targets := CheckTargets(columns, rules);
    var required := CheckRequired(columns, rules);
    var keys := CheckFunctions(functions, rules);
    problems := targets + required + keys;
  }

  method CheckTargets(columns: seq<Column>, rules: seq<Rule>) returns (problems: seq<Problem>)
    ensures forall p :: multiset(problems)[p] ==
              Once(p.UnknownTargetColumn? && p.column in Targets(rules) && Lookup(columns, p.column).None?)
  {
    problems := [];
    var left := Targets(rules);
    while left != {}
      invariant left <= Targets(rules)
      invariant forall p :: multiset(problems)[p] ==
                  Once(p.UnknownTargetColumn? && p.column in Targets(rules) - left && Lookup(columns, p.column).None?)
    {
      var t :| t in left;
      if Lookup(columns, t).None? { problems := problems + [UnknownTargetColumn(t)]; }
      left := left - {t};
    }
  }

  method CheckRequired(columns: seq<Column>, rules: seq<Rule>) returns (problems: seq<Problem>)
    ensures forall p :: multiset(problems)[p] ==
              Once(p.MissingRequiredMapping? && RequiredColumn(columns, p.column) && p.column !in Targets(rules))
  {
    problems := [];
    var left := set c | c in columns && RequiredColumn(columns, c.name) && c.name !in Targets(rules) :: c.name;
    ghost var all := left;
    while left != {}
      invariant left <= all
      invariant forall p :: multiset(problems)[p] == Once(p.MissingRequiredMapping? && p.column in all - left)
    {
      var t :| t in left;
      problems := problems + [MissingRequiredMapping(t)];
      left := left - {t};
    }
    forall t | RequiredColumn(columns, t) && t !in Targets(rules) ensures t in all { LookupFinds(columns, t); }
  }

  method CheckFunctions(functions: FunctionRegistry, rules: seq<Rule>) returns (problems: seq<Problem>)
    ensures forall p :: multiset(problems)[p] ==
              if p.UnknownMappingFunction? then FaultyRules(functions, rules, p.column, p.key) else 0
  {
    problems := [];
    for n := 0 to |rules|
      invariant forall p :: multiset(problems)[p] ==
                  if p.UnknownMappingFunction? then FaultyRules(functions, rules[..n], p.column, p.key) else 0
    {
      assert rules[..n + 1][..n] == rules[..n];
      if FaultyRule(functions, rules[n]) {
        problems := problems + [UnknownMappingFunction(rules[n].target, rules[n].functionKey.value)];
      }
    }
    assert rules[..|rules|] == rules;
  }

  method CheckAsset(cat: Catalog, a: SourceAsset) returns (problems: seq<Problem>)
    ensures forall p :: multiset(problems)[p] == Once(AssetFault(cat, a, p))
  {
    var references := CheckReferences(cat, a);
    problems := references;
    if cat.ListsMapping(a.mappingId) {
      var m := cat.mappings[a.mappingId];
      problems := Flagged(problems, m.systemId != a.systemId, SourceSystemBindingMismatch);
      problems := Flagged(problems, m.contractId != a.contractId, DatasetContractBindingMismatch);
    }
  }

  method CheckReferences(cat: Catalog, a: SourceAsset) returns (problems: seq<Problem>)
    ensures forall p :: multiset(problems)[p] == Once(ReferenceFault(cat, a, p))
  {
    problems := ReferenceProblems(
      a.systemId !in cat.systems, !cat.ListsContract(a.contractId), !cat.ListsMapping(a.mappingId),
      a.packageId.Some? && !cat.ListsPackage(a.packageId.value));
  }

  method ReferenceProblems(noSystem: bool, noContract: bool, noMapping: bool, noPackage: bool)
    returns (problems: seq<Problem>)
    ensures forall p :: multiset(problems)[p] ==
              Once(|| (noSystem && p == MissingSourceSystem) || (noContract && p == MissingDatasetContract)
                   || (noMapping && p == MissingColumnMapping) || (noPackage && p == MissingTransformationPackage))
  {
    problems := Flagged([], noSystem, MissingSourceSystem);
    problems := Flagged(problems, noContract, MissingDatasetContract);
    problems := Flagged(problems, noMapping, MissingColumnMapping);
    problems := Flagged(problems, noPackage, MissingTransformationPackage);
  }

  method CheckPublication(cat: Catalog, reg: Registries, d: PublicationDefinition) returns (problems: seq<Problem>)
    ensures forall p :: multiset(problems)[p] == Once(PublicationFault(cat, reg, d, p))
  {
    problems := Flagged([], !cat.ListsPackage(d.packageId), MissingTransformationPackage);
    problems := Flagged(problems, !KnownPublicationKey(reg, d.key), UnknownPublicationKey);
    if cat.ListsPackage(d.packageId) && reg.handlers.Some? {
      var handlerKey := cat.packages[d.packageId].handlerKey;
      problems :=
        Flagged(problems, !SupportedPublication(reg, reg.handlers.value, handlerKey, d.key), UnsupportedPublicationKey);
    }
  }

  method CheckDefinition(cat: Catalog, d: IngestionDefinition) returns (problems: seq<Problem>)
    ensures forall p :: multiset(problems)[p] == Once(DefinitionFault(cat, d, p))
  {
    if !cat.ListsAsset(d.assetId) { return [MissingSourceAsset]; }
    var systemId := cat.assets[d.assetId].systemId;
    problems := CheckTransport(cat, systemId, d);
    if d.transport == "http" {
      var request := CheckRequest(d);
      forall p ensures !(TransportFault(cat, systemId, d, p) && RequestFault(d, p)) {}
      problems := problems + request;
    }
  }

  method CheckTransport(cat: Catalog, systemId: string, d: IngestionDefinition) returns (problems: seq<Problem>)
    ensures forall p :: multiset(problems)[p] == Once(TransportFault(cat, systemId, d, p))
  {
    problems :=
      Flagged([], systemId in cat.systems && d.transport != cat.systems[systemId].transport, TransportMismatch);
    problems := Flagged(problems, d.transport == "filesystem" && d.sourcePath == "", MissingSourcePath);
  }

  method CheckRequest(d: IngestionDefinition) returns (problems: seq<Problem>)
    ensures forall p :: multiset(problems)[p] == Once(RequestFault(d, p))
  {
    problems := Flagged([], d.requestUrl == "", MissingRequestUrl);
    problems := Flagged(problems, d.requestMethod == "", MissingRequestMethod);
    problems := Flagged(problems, d.responseFormat in {None, Some("")}, MissingResponseFormat);
    problems := Flagged(problems, d.outputFileName == "", MissingOutputFileName);
  }

  method CheckEntity(cat: Catalog, reg: Registries, e: Entity) returns (problems: seq<Problem>)
    ensures forall p :: multiset(problems)[p] == Faults(cat, reg, e, p)
  {
    problems := [];
    match e {
      case MappingEntity(id) =>
        if cat.ListsMapping(id) { problems := CheckMapping(cat, reg.functions, cat.mappings[id]); }
      case AssetEntity(id) => if cat.ListsAsset(id) { problems := CheckAsset(cat, cat.assets[id]); }
      case PublicationEntity(id) =>
        if cat.ListsPublication(id) { problems := CheckPublication(cat, reg, cat.publications[id]); }
      case DefinitionEntity(id) => if cat.ListsDefinition(id) { problems := CheckDefinition(cat, cat.definitions[id]); }
    }
  }

  /** The four loops: the entities, in some order, each with its problems. */
  method CheckAll(cat: Catalog, reg: Registries, entities: set<Entity>) returns (issues: seq<Issue>)
    ensures forall issue :: multiset(issues)[issue] ==
              if issue.entity in entities then Faults(cat, reg, issue.entity, issue.problem) else 0
  {
    issues := [];
    var left := entities;
    while left != {}
      invariant left <= entities
      invariant forall issue :: multiset(issues)[issue] ==
                  if issue.entity in entities - left then Faults(cat, reg, issue.entity, issue.problem) else 0
    {
      var e :| e in left;
      var problems := CheckEntity(cat, reg, e);
      var found := About(e, problems);
      issues := issues + found;
      left := left - {e};
    }
  }

  method About(e: Entity, problems: seq<Problem>) returns (issues: seq<Issue>)
    ensures forall issue ::
              multiset(issues)[issue] == if issue.entity == e then multiset(problems)[issue.problem] else 0
  {
    issues := [];
    for n := 0 to |problems|
      invariant forall issue ::
                  multiset(issues)[issue] == if issue.entity == e then multiset(problems[..n])[issue.problem] else 0
    {
      assert problems[..n + 1] == problems[..n] + [problems[n]];
      issues := issues + [Issue(e, problems[n])];
    }
    assert problems[..|problems|] == problems;
  }

  /** `run_config_preflight`; the report passes when it has no issues. */
  method Run(cat: Catalog, reg: Registries, asset: Option<string>, definition: Option<string>)
    returns (r: Result<seq<Issue>, ScopeError>)
    ensures r == Err(BothScopes) <==> asset !in {None, Some("")} && definition !in {None, Some("")}
    ensures r == Err(NoSuchAsset) <==> r != Err(BothScopes) && asset.Some? && asset.value !in cat.assets
    ensures r == Err(NoSuchDefinition) <==>
            r != Err(BothScopes) && asset.None? && definition.Some? && definition.value !in cat.definitions
    ensures r.Ok? ==> Reports(cat, reg, asset, definition, r.value)
  {
    if asset !in {None, Some("")} && definition !in {None, Some("")} { return Err(BothScopes); }
    if asset.Some? && asset.value !in cat.assets { return Err(NoSuchAsset); }
    if asset.None? && definition.Some? && definition.value !in cat.definitions { return Err(NoSuchDefinition); }
    var entities := Scoped(cat, asset, definition);
    var issues := CheckAll(cat, reg, entities);
    return Ok(issues);
  }

  method Scoped(cat: Catalog, asset: Option<string>, definition: Option<string>) returns (entities: set<Entity>)
    ensures forall e :: e in entities <==> InScope(cat, asset, definition, e)
  {
    var assets := ScopedAssets(cat, asset, definition);
    var definitions := ScopedDefinitions(cat, asset, definition);
    var mappings := ScopedMappings(cat, asset, definition, assets);
    var publications := ScopedPublications(cat, asset, definition, assets);
    entities := (set id | id in mappings :: MappingEntity(id)) + (set id | id in assets :: AssetEntity(id))
      + (set id | id in publications :: PublicationEntity(id)) + (set id | id in definitions :: DefinitionEntity(id));
    forall e ensures e in entities <==> InScope(cat, asset, definition, e) {
      match e { case _ => }
    }
  }

  /** `_resolve_scoped_source_asset_ids`, of which those that are listed. */
  method ScopedAssets(cat: Catalog, asset: Option<string>, definition: Option<string>) returns (ids: set<string>)
    ensures forall id :: id in ids <==> AssetInScope(cat, asset, definition, id)
  {
    var listed := set id | id in cat.assets && cat.ListsAsset(id);
    if asset.Some? {
      ids := listed * {asset.value};
    } else if definition.Some? {
      ids := {};
      if definition.value in cat.definitions { ids := listed * {cat.definitions[definition.value].assetId}; }
    } else {
      ids := listed;
    }
  }

  /** `_resolve_scoped_ingestion_definitions`. */
  method ScopedDefinitions(cat: Catalog, asset: Option<string>, definition: Option<string>) returns (ids: set<string>)
    ensures forall id :: id in ids <==> DefinitionInScope(cat, asset, definition, id)
  {
    ids := set id | id in cat.definitions && cat.ListsDefinition(id);
    if definition.Some? {
      ids := ids * {definition.value};
    } else if asset.Some? {
      ids := set id | id in ids && cat.definitions[id].assetId == asset.value;
    }
  }

  method ScopedMappings(cat: Catalog, asset: Option<string>, definition: Option<string>, assets: set<string>)
    returns (ids: set<string>)
    requires forall a :: a in assets <==> AssetInScope(cat, asset, definition, a)
    ensures forall id :: id in ids <==> InScope(cat, asset, definition, MappingEntity(id))
  {
    ids := set id | id in cat.mappings && cat.ListsMapping(id);
    if !(asset.None? && definition.None?) {
      var bound := set a | a in assets :: cat.assets[a].mappingId;
      ids := ids * bound;
    }
  }

  method ScopedPublications(cat: Catalog, asset: Option<string>, definition: Option<string>, assets: set<string>)
    returns (ids: set<string>)
    requires forall a :: a in assets <==> AssetInScope(cat, asset, definition, a)
    ensures forall id :: id in ids <==> InScope(cat, asset, definition, PublicationEntity(id))
  {
    ids := set id | id in cat.publications && cat.ListsPublication(id);
    if !(asset.None? && definition.None?) {
      var packages := set a | a in assets && cat.assets[a].packageId.Some? :: cat.assets[a].packageId.value;
      ids := set id | id in ids && cat.publications[id].packageId in packages;
    }
  }

  // ------------------------------------------------------------------ what the scopes are

  /** Without a scope everything listed is checked. */
  lemma EverythingIsInTheFullScope(cat: Catalog, e: Entity)
    ensures InScope(cat, None, None, e) <==>
            match e
            case MappingEntity(id) => id in cat.mappings && !cat.mappings[id].archived
            case AssetEntity(id) => id in cat.assets && !cat.assets[id].archived
            case PublicationEntity(id) => id in cat.publications && !cat.publications[id].archived
            case DefinitionEntity(id) => id in cat.definitions && !cat.definitions[id].archived
  {
  }

  /** Of an asset: the asset, its mapping, the publications of its package and all its definitions. */
  predicate BelongsToAsset(cat: Catalog, id: string, e: Entity) {
    match e
    case AssetEntity(a) => a == id && id in cat.assets && !cat.assets[id].archived
    case MappingEntity(m) =>
      && id in cat.assets && !cat.assets[id].archived && cat.assets[id].mappingId == m
      && m in cat.mappings && !cat.mappings[m].archived
    case PublicationEntity(p) =>
      && id in cat.assets && !cat.assets[id].archived && p in cat.publications && !cat.publications[p].archived
      && cat.assets[id].packageId == Some(cat.publications[p].packageId)
    case DefinitionEntity(d) =>
      d in cat.definitions && !cat.definitions[d].archived && cat.definitions[d].assetId == id
  }

  lemma AssetScopeIs(cat: Catalog, id: string, e: Entity)
    ensures InScope(cat, Some(id), None, e) <==> BelongsToAsset(cat, id, e)
  {
    if InScope(cat, Some(id), None, e) && (e.MappingEntity? || e.PublicationEntity?) {
      var a :| AssetInScope(cat, Some(id), None, a);
    }
    if BelongsToAsset(cat, id, e) && (e.MappingEntity? || e.PublicationEntity?) {
      assert AssetInScope(cat, Some(id), None, id);
    }
  }

  /** Of a definition: that definition alone, and of its asset everything but the definitions. */
  lemma DefinitionScopeIs(cat: Catalog, id: string, e: Entity)
    requires id in cat.definitions
    ensures InScope(cat, None, Some(id), e) <==>
            if e.DefinitionEntity? then e.id == id && !cat.definitions[id].archived
            else BelongsToAsset(cat, cat.definitions[id].assetId, e)
  {
    var assetId := cat.definitions[id].assetId;
    if InScope(cat, None, Some(id), e) && (e.MappingEntity? || e.PublicationEntity?) {
      var a :| AssetInScope(cat, None, Some(id), a);
    }
    if BelongsToAsset(cat, assetId, e) && (e.MappingEntity? || e.PublicationEntity?) {
      assert AssetInScope(cat, None, Some(id), assetId);
    }
  }

  // ------------------------------------------------------------------ scopes compared

  /** A scoped report is the full report, cut down to the entities in scope; so a full pass is a pass in every scope. */
  lemma ScopingOnlyHides(
    cat: Catalog, reg: Registries, asset: Option<string>, definition: Option<string>, full: seq<Issue>,
    scoped: seq<Issue>)
    requires Reports(cat, reg, None, None, full) && Reports(cat, reg, asset, definition, scoped)
    ensures multiset(scoped) <= multiset(full)
    ensures forall issue: Issue :: InScope(cat, asset, definition, issue.entity) ==>
              multiset(scoped)[issue] == multiset(full)[issue]
    ensures full == [] ==> scoped == []
  {
    if full == [] && scoped != [] { assert multiset(scoped)[scoped[0]] > 0; }
  }

  // ------------------------------------------------------------------ soundness

  predicate NoFaults(cat: Catalog, reg: Registries, e: Entity, p: Problem) {
    Faults(cat, reg, e, p) == 0
  }

  ghost predicate Clean(cat: Catalog, reg: Registries, e: Entity) {
    forall p :: NoFaults(cat, reg, e, p)
  }

  lemma PassingIsClean(cat: Catalog, reg: Registries, asset: Option<string>, definition: Option<string>)
    ensures Reports(cat, reg, asset, definition, []) <==>
            forall e :: InScope(cat, asset, definition, e) ==> Clean(cat, reg, e)
  {
    if Reports(cat, reg, asset, definition, []) {
      forall e, p | InScope(cat, asset, definition, e) ensures NoFaults(cat, reg, e, p) {
        assert multiset([])[Issue(e, p)] == 0;
      }
    }
    if forall e :: InScope(cat, asset, definition, e) ==> Clean(cat, reg, e) {
      forall issue: Issue | InScope(cat, asset, definition, issue.entity)
        ensures Faults(cat, reg, issue.entity, issue.problem) == 0
      {
        assert NoFaults(cat, reg, issue.entity, issue.problem);
      }
    }
  }

  /**
   * A rule set the mapper can use with a contract: known targets, required columns covered, keys usable unless empty.
   */
  ghost predicate FitsContract(columns: seq<Column>, rules: seq<Rule>, functions: FunctionRegistry) {
    && TargetsKnown(columns, rules)
    && (forall name :: RequiredColumn(columns, name) ==> RuleFor(rules, name).Some?)
    && (forall rule :: rule in rules ==> !FaultyRule(functions, rule))
  }

  predicate HasFaultyRule(functions: FunctionRegistry, rules: seq<Rule>, column: string, key: string) {
    exists rule :: rule in rules && FaultyRule(functions, rule)
      && rule.target == column && rule.functionKey.value == key
  }

  lemma {:induction false} FaultyRulesAreCounted(
    functions: FunctionRegistry, rules: seq<Rule>, column: string, key: string)
    ensures FaultyRules(functions, rules, column, key) > 0 <==> HasFaultyRule(functions, rules, column, key)
    decreases |rules|
  {
    if rules == [] {
    } else {
      FaultyRulesAreCounted(functions, rules[..|rules| - 1], column, key);
      assert rules == rules[..|rules| - 1] + [rules[|rules| - 1]];
    }
  }

  /** A mapping has no issue exactly when its contract is listed, its system exists and its rules fit. */
  lemma CleanMappings(cat: Catalog, reg: Registries, id: string)
    requires cat.ListsMapping(id)
    ensures Clean(cat, reg, MappingEntity(id)) <==>
            var m := cat.mappings[id];
            cat.ListsContract(m.contractId) && m.systemId in cat.systems
            && FitsContract(cat.contracts[m.contractId].columns, m.rules, reg.functions)
  {
    var e, m := MappingEntity(id), cat.mappings[id];
    if !cat.ListsContract(m.contractId) {
      assert !NoFaults(cat, reg, e, MissingDatasetContract);
    } else {
      var columns := cat.contracts[m.contractId].columns;
      TargetsAndRules(columns, m.rules);
      forall t, key
        ensures FaultyRules(reg.functions, m.rules, t, key) > 0 <==> HasFaultyRule(reg.functions, m.rules, t, key)
      {
        FaultyRulesAreCounted(reg.functions, m.rules, t, key);
      }
      if Clean(cat, reg, e) {
        assert NoFaults(cat, reg, e, MissingSourceSystem);
        forall t | t in Targets(m.rules) ensures Lookup(columns, t).Some? {
          assert NoFaults(cat, reg, e, UnknownTargetColumn(t));
        }
        forall t | RequiredColumn(columns, t) ensures t in Targets(m.rules) {
          assert NoFaults(cat, reg, e, MissingRequiredMapping(t));
        }
        forall rule | rule in m.rules ensures !FaultyRule(reg.functions, rule) {
          if rule.functionKey.Some? {
            assert NoFaults(cat, reg, e, UnknownMappingFunction(rule.target, rule.functionKey.value));
          }
        }
      } else if FitsContract(columns, m.rules, reg.functions) {
        var p :| !NoFaults(cat, reg, e, p);
        assert MappingFaults(cat, reg.functions, m, p) > 0;
      }
    }
  }

  lemma LookupInNames(columns: seq<Column>, name: string)
    ensures Lookup(columns, name).Some? <==> name in Names(columns)
  {
    LookupFinds(columns, name);
    if name in Names(columns) {
      var i :| 0 <= i < |columns| && Names(columns)[i] == name;
      assert columns[i].name == name;
    }
    if Lookup(columns, name).Some? {
      var i :| 0 <= i < |columns| && columns[i].name == name;
      assert Names(columns)[i] == name;
    }
  }

  lemma TargetsAndRules(columns: seq<Column>, rules: seq<Rule>)
    ensures forall t :: t in Targets(rules) <==> RuleFor(rules, t).Some?
    ensures TargetsKnown(columns, rules) <==> forall t :: t in Targets(rules) ==> Lookup(columns, t).Some?
  {
    forall t ensures t in Targets(rules) <==> RuleFor(rules, t).Some? { RuleForFinds(rules, t); }
    forall t ensures Lookup(columns, t).Some? <==> t in Names(columns) { LookupInNames(columns, t); }
    if forall t :: t in Targets(rules) ==> Lookup(columns, t).Some? {
      forall i | 0 <= i < |rules| ensures rules[i].target in Names(columns) {
        assert rules[i] in rules;
        assert rules[i].target in Targets(rules);
      }
    }
  }

  /**
   * An asset and its mapping are free of issues exactly when the binding check can refuse them only for a
   * disabled system, the mapper knows every target and has a rule for every required column, and the
   * asset's package is listed.
   */
  lemma CleanAssets(cat: Catalog, reg: Registries, id: string)
    requires cat.ListsAsset(id)
    ensures var a := cat.assets[id];
            Clean(cat, reg, AssetEntity(id)) && Clean(cat, reg, MappingEntity(a.mappingId)) <==>
            && a.systemId in cat.systems && cat.ListsContract(a.contractId) && cat.ListsMapping(a.mappingId)
            && ResolveMapping(cat, a.systemId, a.contractId, a.mappingId) ==
                 (if cat.systems[a.systemId].enabled then Ok((cat.contracts[a.contractId], cat.mappings[a.mappingId]))
                  else Err(SystemDisabled))
            && cat.mappings[a.mappingId].systemId == a.systemId && cat.mappings[a.mappingId].contractId == a.contractId
            && FitsContract(cat.contracts[a.contractId].columns, cat.mappings[a.mappingId].rules, reg.functions)
            && (a.packageId.Some? ==> cat.ListsPackage(a.packageId.value))
  {
    var e, a := AssetEntity(id), cat.assets[id];
    if Clean(cat, reg, e) {
      assert NoFaults(cat, reg, e, MissingSourceSystem) && NoFaults(cat, reg, e, MissingDatasetContract);
      assert NoFaults(cat, reg, e, MissingColumnMapping) && NoFaults(cat, reg, e, MissingTransformationPackage);
      assert NoFaults(cat, reg, e, SourceSystemBindingMismatch)
        && NoFaults(cat, reg, e, DatasetContractBindingMismatch);
    }
    if cat.ListsMapping(a.mappingId) { CleanMappings(cat, reg, a.mappingId); }
  }

  predicate Has(cat: Catalog, reg: Registries, e: Entity, p: Problem) {
    Faults(cat, reg, e, p) > 0
  }

  /** Each refusal of the binding check is announced by the problem of its own kind. */
  lemma RefusalsAreAnnounced(cat: Catalog, reg: Registries, id: string)
    requires cat.ListsAsset(id)
    requires cat.assets[id].systemId in cat.systems ==> cat.systems[cat.assets[id].systemId].enabled
    ensures var a, e := cat.assets[id], AssetEntity(id);
            var r := ResolveMapping(cat, a.systemId, a.contractId, a.mappingId);
            && (Has(cat, reg, e, MissingSourceSystem) ==> r == Err(UnknownRecord))
            && (Has(cat, reg, e, MissingDatasetContract) && !Has(cat, reg, e, MissingSourceSystem) ==>
                  r == Err(if a.contractId in cat.contracts then ContractArchived else UnknownRecord))
            && (Has(cat, reg, e, MissingColumnMapping)
                && !Has(cat, reg, e, MissingSourceSystem) && !Has(cat, reg, e, MissingDatasetContract) ==>
                  r == Err(if a.mappingId in cat.mappings then MappingArchived else UnknownRecord))
            && (!Has(cat, reg, e, MissingSourceSystem) && !Has(cat, reg, e, MissingDatasetContract)
                && !Has(cat, reg, e, MissingColumnMapping) ==>
                  && (r == Err(SystemMismatch) <==> Has(cat, reg, e, SourceSystemBindingMismatch))
                  && (r == Err(ContractMismatch) <==>
                        && !Has(cat, reg, e, SourceSystemBindingMismatch)
                        && Has(cat, reg, e, DatasetContractBindingMismatch))
                  && (r.Ok? <==>
                        && !Has(cat, reg, e, SourceSystemBindingMismatch)
                        && !Has(cat, reg, e, DatasetContractBindingMismatch)))
  {
  }

  predicate CallsUnusable(functions: FunctionRegistry, rule: Rule, column: string, key: string) {
    rule.target == column && rule.functionKey == Some(key) && key != "" && !UsableFunction(functions, key)
  }

  /** A mapping's problems name what is wrong with its rules. */
  lemma MappingProblemsMean(cat: Catalog, reg: Registries, id: string, column: string, key: string)
    requires cat.ListsMapping(id) && cat.ListsContract(cat.mappings[id].contractId)
    ensures var m, e := cat.mappings[id], MappingEntity(id);
            var columns := cat.contracts[m.contractId].columns;
            && (Has(cat, reg, e, UnknownTargetColumn(column)) <==>
                  (exists rule :: rule in m.rules && rule.target == column) && column !in Names(columns))
            && (Has(cat, reg, e, MissingRequiredMapping(column)) <==>
                  RequiredColumn(columns, column) && RuleFor(m.rules, column).None?)
            && (Has(cat, reg, e, UnknownMappingFunction(column, key)) <==>
                  exists rule :: rule in m.rules && CallsUnusable(reg.functions, rule, column, key))
  {
    var m := cat.mappings[id];
    TargetsAndRules(cat.contracts[m.contractId].columns, m.rules);
    LookupInNames(cat.contracts[m.contractId].columns, column);
    FaultyRulesAreCounted(reg.functions, m.rules, column, key);
    if HasFaultyRule(reg.functions, m.rules, column, key) {
      var rule :| rule in m.rules && FaultyRule(reg.functions, rule)
        && rule.target == column && rule.functionKey.value == key;
      assert CallsUnusable(reg.functions, rule, column, key);
    }
    if rule :| rule in m.rules && CallsUnusable(reg.functions, rule, column, key) {
      assert FaultyRule(reg.functions, rule);
    }
  }

  /** A publication is clean exactly when its package is listed, and its key is known and supported. */
  lemma CleanPublications(cat: Catalog, reg: Registries, id: string)
    requires cat.ListsPublication(id)
    ensures var d := cat.publications[id];
            Clean(cat, reg, PublicationEntity(id)) <==>
            && d.packageId in cat.packages && !cat.packages[d.packageId].archived
            && (|| d.key in reg.extensionKeys
                || (&& d.key in reg.builtinKeys
                    && (reg.handlers.Some? ==>
                          var key := cat.packages[d.packageId].handlerKey;
                          key in reg.handlers.value && d.key in reg.handlers.value[key])))
  {
    var e := PublicationEntity(id);
    if Clean(cat, reg, e) {
      assert NoFaults(cat, reg, e, MissingTransformationPackage) && NoFaults(cat, reg, e, UnknownPublicationKey);
      assert NoFaults(cat, reg, e, UnsupportedPublicationKey);
    }
  }

  /** Which problems a publication has: an unknown key is unsupported too, an extension's key never is. */
  lemma PublicationProblemsMean(cat: Catalog, reg: Registries, id: string, p: Problem)
    requires cat.ListsPublication(id)
    ensures var d := cat.publications[id];
            var listed := d.packageId in cat.packages && !cat.packages[d.packageId].archived;
            var known := d.key in reg.builtinKeys + reg.extensionKeys;
            Has(cat, reg, PublicationEntity(id), p) <==>
            match p
            case MissingTransformationPackage => !listed
            case UnknownPublicationKey => !known
            case UnsupportedPublicationKey =>
              && listed && reg.handlers.Some? && d.key !in reg.extensionKeys
              && (var key := cat.packages[d.packageId].handlerKey;
                  known ==> key !in reg.handlers.value || d.key !in reg.handlers.value[key])
            case _ => false
  {
    assert Has(cat, reg, PublicationEntity(id), p) <==> PublicationFault(cat, reg, cat.publications[id], p);
  }

  /** Which problems a definition has: without a listed asset only that one. */
  lemma DefinitionProblemsMean(cat: Catalog, reg: Registries, id: string, p: Problem)
    requires cat.ListsDefinition(id)
    ensures var d := cat.definitions[id];
            var listed := d.assetId in cat.assets && !cat.assets[d.assetId].archived;
            Has(cat, reg, DefinitionEntity(id), p) <==>
            match p
            case MissingSourceAsset => !listed
            case TransportMismatch =>
              && listed && cat.assets[d.assetId].systemId in cat.systems
              && cat.systems[cat.assets[d.assetId].systemId].transport != d.transport
            case MissingSourcePath => listed && d.transport == "filesystem" && d.sourcePath == ""
            case MissingRequestUrl => listed && d.transport == "http" && d.requestUrl == ""
            case MissingRequestMethod => listed && d.transport == "http" && d.requestMethod == ""
            case MissingResponseFormat => listed && d.transport == "http" && d.responseFormat in {None, Some("")}
            case MissingOutputFileName => listed && d.transport == "http" && d.outputFileName == ""
            case _ => false
  {
    assert Has(cat, reg, DefinitionEntity(id), p) <==> DefinitionFault(cat, cat.definitions[id], p);
  }

  /**
   * With a fitting rule set the mapper can still meet an unusable function: exactly when the rule that
   * counts for some column has the empty key, which the preflight skips and the mapper does not.
   */
  lemma UnusableFunctionsExactlyWhenEmptyKey(
    columns: seq<Column>, rules: seq<Rule>, functions: FunctionRegistry, row: map<string, string>)
    requires FitsContract(columns, rules, functions)
    ensures (exists key :: FailsOn(columns, rules, functions, row, UnknownFunction(key))) <==>
            (!UsableFunction(functions, "") && exists i :: EmptyKeyAt(columns, rules, i))
  {
    if !UsableFunction(functions, "") && exists i :: EmptyKeyAt(columns, rules, i) {
      var i :| EmptyKeyAt(columns, rules, i);
      assert MappedValue(RuleFor(rules, columns[i].name), columns[i].name, row, functions) == Err(UnknownFunction(""));
      assert FailsOn(columns, rules, functions, row, UnknownFunction(""));
    }
    if key :| FailsOn(columns, rules, functions, row, UnknownFunction(key)) {
      var i :| 0 <= i < |columns| &&
        MappedValue(RuleFor(rules, columns[i].name), columns[i].name, row, functions) == Err(UnknownFunction(key));
      RuleForFinds(rules, columns[i].name);
      assert !FaultyRule(functions, RuleFor(rules, columns[i].name).value);
      assert EmptyKeyAt(columns, rules, i);
    }
  }

  /** Such a rule set: one column, filled by default through the empty key. */
  lemma EmptyKeyPassesAndFails(row: map<string, string>)
    ensures var columns, rules := [Column("c", StringType, true)], [Rule("c", None, Some("x"), Some(""))];
            FitsContract(columns, rules, map[]) && FailsOn(columns, rules, map[], row, UnknownFunction(""))
  {
    var columns, rules := [Column("c", StringType, true)], [Rule("c", None, Some("x"), Some(""))];
    assert RuleFor(rules, "c") == Some(rules[0]) && Names(columns)[0] == "c";
    forall name | RequiredColumn(columns, name) ensures RuleFor(rules, name).Some? { LookupFinds(columns, name); }
    assert MappedValue(RuleFor(rules, columns[0].name), columns[0].name, row, map[]) == Err(UnknownFunction(""));
  }

  predicate EmptyKeyAt(columns: seq<Column>, rules: seq<Rule>, i: int) {
    && 0 <= i < |columns|
    && RuleFor(rules, columns[i].name).Some? && RuleFor(rules, columns[i].name).value.functionKey == Some("")
  }

  /** Ingestion of an asset the preflight passed: only data, a raising function or the empty key can fail it. */
  method IngestChecked(
    cat: Catalog, reg: Registries, asset: Option<string>, definition: Option<string>, id: string, records: seq<Record>)
    returns (r: Result<seq<Record>, MapError>)
    requires Reports(cat, reg, asset, definition, [])
    requires AssetInScope(cat, asset, definition, id)
    requires cat.assets[id].systemId in cat.systems ==> cat.systems[cat.assets[id].systemId].enabled
    ensures cat.assets[id].mappingId in cat.mappings && cat.assets[id].contractId in cat.contracts
    ensures ResolveMapping(cat, cat.assets[id].systemId, cat.assets[id].contractId, cat.assets[id].mappingId) ==
            Ok((cat.contracts[cat.assets[id].contractId], cat.mappings[cat.assets[id].mappingId]))
    ensures FitsContract(
              cat.contracts[cat.assets[id].contractId].columns,
              cat.mappings[cat.assets[id].mappingId].rules, reg.functions)
    ensures r.Err? ==> r.error.RowTooWide? || r.error.HandlerFailed? || r.error == UnknownFunction("")
    ensures r == Err(UnknownFunction("")) ==>
              exists rule :: rule in cat.mappings[cat.assets[id].mappingId].rules && rule.functionKey == Some("")
    ensures r.Ok? ==> MappedShape(r.value, cat.contracts[cat.assets[id].contractId].columns)
  {
    PassingIsClean(cat, reg, asset, definition);
    assert InScope(cat, asset, definition, AssetEntity(id));
    var a := cat.assets[id];
    if cat.ListsMapping(a.mappingId) { assert InScope(cat, asset, definition, MappingEntity(a.mappingId)); }
    else { forall p ensures NoFaults(cat, reg, MappingEntity(a.mappingId), p) {} }
    CleanAssets(cat, reg, id);
    var bound := ResolveMapping(cat, a.systemId, a.contractId, a.mappingId);
    r := MapColumns(records, bound.value.0.columns, bound.value.1.rules, reg.functions);
  }

  /**
   * A definition without issues, all enabled, whose asset has none either: it starts exactly when its
   * transport is `filesystem`, or it asks for CSV over HTTP, or over HTTPS (which the preflight does not
   * check) with a URL. A response format of the preflight's liking may still be refused.
   */
  lemma CleanDefinitionsStartExactlyWhen(cat: Catalog, reg: Registries, id: string)
    requires cat.ListsDefinition(id) && cat.definitions[id].enabled
    requires Clean(cat, reg, DefinitionEntity(id)) && Clean(cat, reg, AssetEntity(cat.definitions[id].assetId))
    requires cat.definitions[id].assetId in cat.assets ==>
               var a := cat.assets[cat.definitions[id].assetId];
               a.enabled && (a.systemId in cat.systems ==> cat.systems[a.systemId].enabled)
    ensures var d := cat.definitions[id];
            StartDefinition(cat, id).Ok? <==>
            || d.transport == "filesystem"
            || (d.transport == "http" && d.responseFormat == Some("csv"))
            || (d.transport == "https" && d.requestUrl != "" && d.responseFormat in {None, Some("csv")})
    ensures cat.ListsAsset(cat.definitions[id].assetId)
    ensures cat.assets[cat.definitions[id].assetId].systemId in cat.systems
    ensures cat.systems[cat.assets[cat.definitions[id].assetId].systemId].transport == cat.definitions[id].transport
  {
    var e, d := DefinitionEntity(id), cat.definitions[id];
    assert NoFaults(cat, reg, e, MissingSourceAsset) && NoFaults(cat, reg, AssetEntity(d.assetId), MissingSourceSystem);
    assert NoFaults(cat, reg, e, TransportMismatch) && NoFaults(cat, reg, e, MissingRequestUrl);
    assert NoFaults(cat, reg, e, MissingResponseFormat);
  }

  /** So are the refusals at the start of a definition that the preflight checks for. */
  lemma StartRefusalsAreAnnounced(cat: Catalog, reg: Registries, id: string)
    requires cat.ListsDefinition(id) && cat.definitions[id].enabled
    requires cat.definitions[id].transport in {"filesystem", "http", "https"}
    requires var assetId := cat.definitions[id].assetId;
             cat.ListsAsset(assetId) ==>
               && cat.assets[assetId].enabled && cat.assets[assetId].systemId in cat.systems
               && cat.systems[cat.assets[assetId].systemId].enabled
    ensures var d, e, r := cat.definitions[id], DefinitionEntity(id), StartDefinition(cat, id);
            && (Has(cat, reg, e, MissingSourceAsset) <==> r in {Err(UnknownRecord), Err(AssetArchived)})
            && (Has(cat, reg, e, MissingRequestUrl) <==> d.transport == "http" && r == Err(NoRequestUrl))
            && (Has(cat, reg, e, TransportMismatch) <==>
                  && !Has(cat, reg, e, MissingSourceAsset)
                  && cat.systems[cat.assets[d.assetId].systemId].transport != d.transport)
  {
  }

  /** One such definition: JSON over HTTP passes the preflight and is refused when it starts. */
  lemma PassedDefinitionMayBeRefused(reg: Registries)
    ensures var asset := SourceAsset("s", "c", "m", None, true, false);
            var definition := IngestionDefinition("a", "http", "", "url", "GET", Some("json"), "file", true, false);
            var cat := Catalog(map["s" := SourceSystem("http", true)], map["c" := ContractConfig([], false)],
                               map["m" := MappingConfig("s", "c", [], false)], map["a" := asset], map[], map[],
                               map["d" := definition]);
            Reports(cat, reg, None, None, []) && StartDefinition(cat, "d") == Err(UnsupportedFormat)
  {
    var asset := SourceAsset("s", "c", "m", None, true, false);
    var definition := IngestionDefinition("a", "http", "", "url", "GET", Some("json"), "file", true, false);
    var cat := Catalog(map["s" := SourceSystem("http", true)], map["c" := ContractConfig([], false)],
                       map["m" := MappingConfig("s", "c", [], false)], map["a" := asset], map[], map[],
                       map["d" := definition]);
    forall e, p ensures NoFaults(cat, reg, e, p) {
      match e { case _ => }
    }
    PassingIsClean(cat, reg, None, None);
  }
}
