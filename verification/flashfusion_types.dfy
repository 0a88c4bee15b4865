/** The content-studio records shared by the worker, the asset generator, the
    brand-kit validator and the pack exporter. Dates are millisecond timestamps;
    `Record<string, unknown>` fields are parsed values. */
module FlashFusionTypes {
  import opened Wrappers
  import opened JsValue

  datatype AssetType = Text | Image | Video | Music

  /** The string form of an asset type (`'text' | 'image' | 'video' | 'music'`). */
  function AssetTypeName(t: AssetType): (r: string)
    ensures r != ""
  {
    match t
    case Text => "text"
    case Image => "image"
    case Video => "video"
    case Music => "music"
  }

  datatype ProvenanceMetadata = ProvenanceMetadata(
    model: string,
    provider: string,
    promptHash: string,
    dataset: Option<string>,
    createdAt: int,
    parameters: Option<Json>)

  /** `string | Blob`: the pack exporter only distinguishes text from binary content. */
  datatype AssetContent = TextContent(text: string) | BlobContent

  datatype Asset = Asset(
    id: string,
    assetType: AssetType,
    name: string,
    content: AssetContent,
    url: Option<string>,
    orgId: string,
    provenance: ProvenanceMetadata,
    createdAt: int,
    updatedAt: int,
    tags: Option<seq<string>>,
    metadata: Option<Json>)

  datatype ColorUsage = Primary | Secondary | Accent | Neutral

  datatype BrandColor = BrandColor(name: string, hex: string, usage: ColorUsage)

  datatype BrandFont = BrandFont(name: string, family: string, weights: seq<int>, url: Option<string>)

  datatype BrandKit = BrandKit(
    id: string,
    name: string,
    orgId: string,
    colors: seq<BrandColor>,
    fonts: seq<BrandFont>,
    logo: Option<string>,
    guidelines: Option<string>,
    tone: Option<string>,
    createdAt: int,
    updatedAt: int)

  /** `Partial<BrandKit>`, restricted to the fields the validator and the exporter read. */
  datatype PartialBrandKit = PartialBrandKit(
    name: Option<string>,
    colors: Option<seq<BrandColor>>,
    fonts: Option<seq<BrandFont>>,
    logo: Option<string>,
    guidelines: Option<string>,
    tone: Option<string>)

  datatype Preset = Preset(
    id: string,
    name: string,
    description: Option<string>,
    assetType: AssetType,
    parameters: Json,
    thumbnail: Option<string>)
}
