/**
 * The configuration catalog's records, and what its users at run time refuse: the binding check of CSV
 * ingestion (`configured_csv_ingestion.py`) and the guards before an ingestion definition starts
 * (`configured_ingestion_definition.py`). An optional text that is only tested for truth is a string, `""` for absent.
 */
module ConfigCatalog {
  import opened Prelude
  import opened CsvValidation
  import opened CsvMapping

  datatype SourceSystem = SourceSystem(transport: string, enabled: bool)

  datatype ContractConfig = ContractConfig(columns: seq<Column>, archived: bool)

  datatype MappingConfig = MappingConfig(systemId: string, contractId: string, rules: seq<Rule>, archived: bool)

  datatype SourceAsset = SourceAsset(
    systemId: string, contractId: string, mappingId: string, packageId: Option<string>, enabled: bool, archived: bool)

  datatype TransformationPackage = TransformationPackage(handlerKey: string, archived: bool)

  datatype PublicationDefinition = PublicationDefinition(packageId: string, key: string, archived: bool)

  datatype IngestionDefinition = IngestionDefinition(
    assetId: string, transport: string, sourcePath: string, requestUrl: string, requestMethod: string,
    responseFormat: Option<string>, outputFileName: string, enabled: bool, archived: bool)

  /** Each table by primary key; `list_*` leaves archived records out, `get_*` does not. */
  datatype Catalog = Catalog(
    systems: map<string, SourceSystem>,
    contracts: map<string, ContractConfig>,
    mappings: map<string, MappingConfig>,
    assets: map<string, SourceAsset>,
    packages: map<string, TransformationPackage>,
    publications: map<string, PublicationDefinition>,
    definitions: map<string, IngestionDefinition>)
  {
    predicate ListsContract(id: string) { id in contracts && !contracts[id].archived }
    predicate ListsMapping(id: string) { id in mappings && !mappings[id].archived }
    predicate ListsAsset(id: string) { id in assets && !assets[id].archived }
    predicate ListsPackage(id: string) { id in packages && !packages[id].archived }
    predicate ListsPublication(id: string) { id in publications && !publications[id].archived }
    predicate ListsDefinition(id: string) { id in definitions && !definitions[id].archived }
  }

  datatype Refusal =
    | UnknownRecord
    | SystemDisabled | ContractArchived | MappingArchived | SystemMismatch | ContractMismatch
    | DefinitionArchived | DefinitionDisabled | AssetArchived | AssetDisabled
    | NoRequestUrl | UnsupportedFormat | UnsupportedTransport

  /** `_resolve_mapping_config`. */
  function ResolveMapping(cat: Catalog, systemId: string, contractId: string, mappingId: string)
    : Result<(ContractConfig, MappingConfig), Refusal>
  {
    if systemId !in cat.systems then Err(UnknownRecord)
    else if !cat.systems[systemId].enabled then Err(SystemDisabled)
    else if contractId !in cat.contracts then Err(UnknownRecord)
    else if cat.contracts[contractId].archived then Err(ContractArchived)
    else if mappingId !in cat.mappings then Err(UnknownRecord)
    else if cat.mappings[mappingId].archived then Err(MappingArchived)
    else if cat.mappings[mappingId].systemId != systemId then Err(SystemMismatch)
    else if cat.mappings[mappingId].contractId != contractId then Err(ContractMismatch)
    else Ok((cat.contracts[contractId], cat.mappings[mappingId]))
  }

  /** The guards `process_ingestion_definition` passes before it reads a file or sends a request. */
  function StartDefinition(cat: Catalog, id: string): Result<SourceAsset, Refusal> {
    if id !in cat.definitions then Err(UnknownRecord)
    else
      var definition := cat.definitions[id];
      if definition.archived then Err(DefinitionArchived)
      else if !definition.enabled then Err(DefinitionDisabled)
      else if definition.transport !in {"filesystem", "http", "https"} then Err(UnsupportedTransport)
      else if definition.assetId !in cat.assets then Err(UnknownRecord)
      else
        var asset := cat.assets[definition.assetId];
        if asset.archived then Err(AssetArchived)
        else if !asset.enabled then Err(AssetDisabled)
        else if asset.systemId !in cat.systems then Err(UnknownRecord)
        else if !cat.systems[asset.systemId].enabled then Err(SystemDisabled)
        else if definition.transport != "filesystem" && definition.requestUrl == "" then Err(NoRequestUrl)
        else if definition.transport != "filesystem" && definition.responseFormat !in {None, Some("csv")}
          then Err(UnsupportedFormat)
        else Ok(asset)
  }
}
