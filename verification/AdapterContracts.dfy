/** The adapter-pack records of `packages/adapters/contracts.py`, without their purely descriptive fields. */
module AdapterContracts {

  datatype TrustLevel = Verified | Community | Local

  datatype RendererManifest = RendererManifest(
    rendererKey: string,
    supportedFormats: seq<string>,
    supportedPublicationKeys: seq<string>,
    supportedPublicationVersions: seq<string>)

  datatype AdapterPack = AdapterPack(
    packKey: string,
    version: string,
    renderers: seq<RendererManifest>,
    requiresPlatformVersion: string,
    dependencies: seq<string>,
    publicationRelations: seq<string>)

  datatype Issue =
    | PlatformMismatch(required: string, running: string)
    | MissingDependency(key: string)
    | UnsatisfiedDependency(key: string, version: string, constraint: string)

  datatype CompatibilityCheck = CompatibilityCheck(
    isCompatible: bool, issues: seq<Issue>, unknownPublications: seq<string>)
}
