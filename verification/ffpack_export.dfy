/** FFPack export, structural validation, the required-field check of the
    importer and the download filename (`exportFFPack`, `validateFFPack`,
    `parseFFPack`, `downloadFFPack`). Packs are handled as values: the JSON
    text and the browser download are not modelled. */
module FFPackExport {
  import opened Wrappers
  import opened JsString
  import opened JsValue
  import opened JsSet
  import opened FlashFusionTypes

  datatype PackAsset = PackAsset(
    assetType: AssetType,
    name: string,
    content: string,
    provenance: ProvenanceMetadata,
    metadata: Option<Json>)

  datatype PackMetadata = PackMetadata(totalAssets: nat, assetTypes: seq<AssetType>)

  datatype PackBrandKit = PackBrandKit(
    name: string,
    colors: seq<BrandColor>,
    fonts: seq<BrandFont>,
    logo: Option<string>,
    guidelines: Option<string>,
    tone: Option<string>)

  datatype FFPack = FFPack(
    version: string,
    name: string,
    description: Option<string>,
    exportedAt: int,
    assets: seq<PackAsset>,
    metadata: PackMetadata,
    brandKit: Option<PackBrandKit>,
    presets: Option<seq<Preset>>)

  const Version := "1.0.0"
  const BinaryPlaceholder := "[Binary Data]"

  // ---------------------------------------------------------------------------
  // exportFFPack
  // ---------------------------------------------------------------------------

  function PackAssetOf(asset: Asset): PackAsset
  {
    PackAsset(
      asset.assetType,
      asset.name,
      match asset.content
      case TextContent(text) => text
      case BlobContent => BinaryPlaceholder,
      asset.provenance,
      asset.metadata)
  }

  function AssetTypes(assets: seq<Asset>): (r: seq<AssetType>)
    ensures |r| == |assets|
    ensures forall i :: 0 <= i < |assets| ==> r[i] == assets[i].assetType
  {
    seq(|assets|, i requires 0 <= i < |assets| => assets[i].assetType)
  }

  /** `metadata`: the asset count and the distinct asset types
      (`[...new Set(assets.map(a => a.type))]`). */
  function PackMetadataOf(assets: seq<Asset>): (m: PackMetadata)
    ensures m.totalAssets == |assets|
    ensures Distinct(m.assetTypes)
    ensures forall t :: t in m.assetTypes <==> exists i :: 0 <= i < |assets| && assets[i].assetType == t
  {
    var types := AssetTypes(assets);
    var distinct := Dedup(types);
    assert forall t :: t in distinct <==> exists i :: 0 <= i < |assets| && assets[i].assetType == t by {
      forall t ensures t in distinct <==> exists i :: 0 <= i < |assets| && assets[i].assetType == t {
        if t in distinct {
          var k :| 0 <= k < |distinct| && distinct[k] == t;
          var i :| 0 <= i < |types| && types[i] == t;
        }
      }
    }
    PackMetadata(|assets|, distinct)
  }

  /** `exportFFPack(name, assets, brandKit, presets, description)` at time `now`.
      The optional `brandKit` and `presets` fields, which the source assigns on
      the fresh object afterwards, are set here in the same expression. */
  function ExportFFPack(
    name: string, assets: seq<Asset>, brandKit: Option<BrandKit>,
    presets: Option<seq<Preset>>, description: Option<string>, now: int): (r: FFPack)
    ensures r.version == Version && r.name == name && r.description == description
    ensures |r.assets| == |assets|
    ensures forall i :: 0 <= i < |assets| ==>
      && r.assets[i].assetType == assets[i].assetType
      && r.assets[i].name == assets[i].name
      && r.assets[i].provenance == assets[i].provenance
      && r.assets[i].metadata == assets[i].metadata
      && (assets[i].content.TextContent? ==> r.assets[i].content == assets[i].content.text)
      && (assets[i].content.BlobContent? ==> r.assets[i].content == BinaryPlaceholder)
    ensures r.metadata == PackMetadataOf(assets)
    ensures r.brandKit.Some? <==> brandKit.Some?
    ensures brandKit.Some? ==> r.brandKit.value == PackBrandKit(brandKit.value.name, brandKit.value.colors,
      brandKit.value.fonts, brandKit.value.logo, brandKit.value.guidelines, brandKit.value.tone)
    ensures r.presets.Some? <==> presets.Some? && |presets.value| > 0
    ensures r.presets.Some? ==> r.presets == presets
  {
    FFPack(
      Version,
      name,
      description,
      now,
      seq(|assets|, i requires 0 <= i < |assets| => PackAssetOf(assets[i])),
      PackMetadataOf(assets),
      match brandKit
      case Some(kit) => Some(PackBrandKit(kit.name, kit.colors, kit.fonts, kit.logo, kit.guidelines, kit.tone))
      case None => None,
      if presets.Some? && |presets.value| > 0 then presets else None)
  }

  /** `metadata.assetTypes` lists the types in the order they first occur among the assets. */
  lemma ExportedTypesInFirstOrder(
    name: string, assets: seq<Asset>, brandKit: Option<BrandKit>,
    presets: Option<seq<Preset>>, description: Option<string>, now: int)
    ensures var ts := ExportFFPack(name, assets, brandKit, presets, description, now).metadata.assetTypes;
      ts == Dedup(AssetTypes(assets))
      && forall i, j :: 0 <= i < j < |ts| ==>
        FirstIndex(AssetTypes(assets), ts[i]) < FirstIndex(AssetTypes(assets), ts[j])
  {
    DedupOrder(AssetTypes(assets));
  }

  // ---------------------------------------------------------------------------
  // The object as `validateFFPack` and `parseFFPack` see it
  // ---------------------------------------------------------------------------

  function OptStr(s: Option<string>): Json
  {
    if s.Some? then Str(s.value) else Undefined
  }

  function OptJson(v: Option<Json>): Json
  {
    if v.Some? then v.value else Undefined
  }

  function ColorUsageName(u: ColorUsage): string
  {
    match u
    case Primary => "primary"
    case Secondary => "secondary"
    case Accent => "accent"
    case Neutral => "neutral"
  }

  function ProvenanceJson(p: ProvenanceMetadata): Json
  {
    Obj([("model", Str(p.model)), ("provider", Str(p.provider)), ("promptHash", Str(p.promptHash)),
         ("dataset", OptStr(p.dataset)), ("createdAt", Num(p.createdAt)), ("parameters", OptJson(p.parameters))])
  }

  function PackAssetJson(a: PackAsset): Json
  {
    Obj([("type", Str(AssetTypeName(a.assetType))), ("name", Str(a.name)), ("content", Str(a.content)),
         ("provenance", ProvenanceJson(a.provenance)), ("metadata", OptJson(a.metadata))])
  }

  function ColorJson(c: BrandColor): Json
  {
    Obj([("name", Str(c.name)), ("hex", Str(c.hex)), ("usage", Str(ColorUsageName(c.usage)))])
  }

  function FontJson(f: BrandFont): Json
  {
    Obj([("name", Str(f.name)), ("family", Str(f.family)),
         ("weights", Arr(seq(|f.weights|, i requires 0 <= i < |f.weights| => Num(f.weights[i])))),
         ("url", OptStr(f.url))])
  }

  function BrandKitJson(k: PackBrandKit): Json
  {
    Obj([("name", Str(k.name)),
         ("colors", Arr(seq(|k.colors|, i requires 0 <= i < |k.colors| => ColorJson(k.colors[i])))),
         ("fonts", Arr(seq(|k.fonts|, i requires 0 <= i < |k.fonts| => FontJson(k.fonts[i])))),
         ("logo", OptStr(k.logo)), ("guidelines", OptStr(k.guidelines)), ("tone", OptStr(k.tone))])
  }

  function PresetJson(p: Preset): Json
  {
    Obj([("id", Str(p.id)), ("name", Str(p.name)), ("description", OptStr(p.description)),
         ("type", Str(AssetTypeName(p.assetType))), ("parameters", p.parameters),
         ("thumbnail", OptStr(p.thumbnail))])
  }

  function AssetsJson(assets: seq<PackAsset>): (r: seq<Json>)
    ensures |r| == |assets| && forall i :: 0 <= i < |assets| ==> r[i] == PackAssetJson(assets[i])
  {
    seq(|assets|, i requires 0 <= i < |assets| => PackAssetJson(assets[i]))
  }

  /** The pack as a plain object, with `exportedAt` as its timestamp. */
  function PackJson(p: FFPack): Json
  {
    Obj([("version", Str(p.version)), ("name", Str(p.name)), ("description", OptStr(p.description)),
         ("exportedAt", Num(p.exportedAt)),
         ("assets", Arr(AssetsJson(p.assets))),
         ("metadata", Obj([("totalAssets", Num(p.metadata.totalAssets)),
           ("assetTypes", Arr(seq(|p.metadata.assetTypes|, i requires 0 <= i < |p.metadata.assetTypes| =>
             Str(AssetTypeName(p.metadata.assetTypes[i])))))]))]
      + (if p.brandKit.Some? then [("brandKit", BrandKitJson(p.brandKit.value))] else [])
      + (if p.presets.Some? then [("presets", Arr(seq(|p.presets.value|, i requires 0 <= i < |p.presets.value| =>
           PresetJson(p.presets.value[i]))))] else []))
  }

  // ---------------------------------------------------------------------------
  // validateFFPack
  // ---------------------------------------------------------------------------

  datatype FFPackValidation = FFPackValidation(valid: bool, errors: seq<string>)

  /** `ffpack.assets`, read from a value that is not null or undefined. */
  function AssetsOf(v: Json): Json
  {
    if v.Obj? then Lookup(v.fields, "assets") else Undefined
  }

  function HeaderMessages(v: Json): seq<string>
  {
    (if !HasTruthy(v, "version") then ["Missing version field"] else [])
    + (if !HasTruthy(v, "name") then ["Missing name field"] else [])
  }

  /** What asset i adds; the field reads throw on a null or undefined asset. */
  function AssetMessages(i: nat, asset: Json): Result<seq<string>, JsError>
  {
    if IsNullish(asset) then Err(TypeError)
    else
      var prefix := "Asset " + NatToString(i, 10) + ": ";
      Ok((if !HasTruthy(asset, "type") then [prefix + "missing type"] else [])
         + (if !HasTruthy(asset, "name") then [prefix + "missing name"] else [])
         + (if !HasTruthy(asset, "provenance") then [prefix + "missing provenance"] else []))
  }

  /** The messages of the first n assets, or the error the first nullish one throws. */
  function AssetEach(items: seq<Json>, n: nat): Result<seq<string>, JsError>
    requires n <= |items|
  {
    if n == 0 then Ok([])
    else match AssetEach(items, n - 1)
      case Err(e) => Err(e)
      case Ok(es) =>
        match AssetMessages(n - 1, items[n - 1])
        case Err(e) => Err(e)
        case Ok(more) => Ok(es + more)
  }

  /** Every message `validateFFPack` collects, in order, or the error it throws. */
  function FFPackErrors(v: Json): Result<seq<string>, JsError>
  {
    if IsNullish(v) then Err(TypeError)
    else
      var assets := AssetsOf(v);
      if !Truthy(assets) || !assets.Arr? then Ok(HeaderMessages(v) + ["Missing or invalid assets field"])
      else match AssetEach(assets.items, |assets.items|)
        case Err(e) => Err(e)
        case Ok(es) => Ok(HeaderMessages(v) + es)
  }

  method ValidateFFPack(v: Json) returns (r: Result<FFPackValidation, JsError>)
    ensures r.Err? <==> FFPackErrors(v).Err?
    ensures r.Ok? ==> r.value.errors == FFPackErrors(v).value
    ensures r.Ok? ==> (r.value.valid <==> r.value.errors == [])
  {
    if IsNullish(v) {
      return Err(TypeError);
    }
    var errors: seq<string> := [];
    if !HasTruthy(v, "version") {
      errors := errors + ["Missing version field"];
    }
    if !HasTruthy(v, "name") {
      errors := errors + ["Missing name field"];
    }
    assert errors == HeaderMessages(v);
    var assets := AssetsOf(v);
    if !Truthy(assets) || !assets.Arr? {
      errors := errors + ["Missing or invalid assets field"];
    } else {
      var more := CheckAssets(assets.items);
      if more.Err? {
        return Err(more.error);
      }
      errors := errors + more.value;
    }
    r := Ok(FFPackValidation(|errors| == 0, errors));
  }

  /** The `forEach` over the assets: the messages of every asset in order, or
      the error of the first nullish one. */
  method CheckAssets(items: seq<Json>) returns (r: Result<seq<string>, JsError>)
    ensures r == AssetEach(items, |items|)
  {
    var errors: seq<string> := [];
    var i := 0;
    while i < |items|
      invariant 0 <= i <= |items|
      invariant AssetEach(items, i) == Ok(errors)
    {
      var more := AssetMessages(i, items[i]);
      if more.Err? {
        AssetEachStopsAtError(items, i + 1, |items|);
        return Err(more.error);
      }
      AssetEachStep(items, i + 1, errors, more.value);
      errors := errors + more.value;
      i := i + 1;
    }
    r := Ok(errors);
  }

  lemma AssetEachStep(items: seq<Json>, n: nat, es: seq<string>, more: seq<string>)
    requires 0 < n <= |items|
    requires AssetEach(items, n - 1) == Ok(es) && AssetMessages(n - 1, items[n - 1]) == Ok(more)
    ensures AssetEach(items, n) == Ok(es + more)
  {
  }

  /** Once an asset throws, the whole validation throws. */
  lemma {:induction false} AssetEachStopsAtError(items: seq<Json>, m: nat, n: nat)
    requires m <= n <= |items| && AssetEach(items, m).Err?
    ensures AssetEach(items, n) == AssetEach(items, m)
    decreases n - m
  {
    if m < n {
      AssetEachStopsAtError(items, m + 1, n);
    }
  }

  predicate AssetOk(asset: Json)
  {
    !IsNullish(asset) && HasTruthy(asset, "type") && HasTruthy(asset, "name") && HasTruthy(asset, "provenance")
  }

  lemma AssetMessagesEmpty(i: nat, asset: Json)
    requires !IsNullish(asset)
    ensures AssetMessages(i, asset) == Ok([]) <==> AssetOk(asset)
  {
  }

  lemma {:induction false} AssetEachEmpty(items: seq<Json>, n: nat)
    requires n <= |items|
    ensures AssetEach(items, n) == Ok([]) <==> forall i :: 0 <= i < n ==> AssetOk(items[i])
  {
    if AssetEach(items, n) == Ok([]) {
      AssetEachEmptyOk(items, n);
    } else {
      AssetEachNotEmpty(items, n);
    }
  }

  lemma {:induction false} AssetEachEmptyOk(items: seq<Json>, n: nat)
    requires n <= |items| && AssetEach(items, n) == Ok([])
    ensures forall i :: 0 <= i < n ==> AssetOk(items[i])
  {
    if n > 0 {
      var last := items[n - 1];
      var prev := AssetEach(items, n - 1);
      var more := AssetMessages(n - 1, last);
      assert prev.Ok? && more.Ok? && prev.value + more.value == [];
      assert prev.value == [] && more.value == [];
      AssetEachEmptyOk(items, n - 1);
      AssetMessagesEmpty(n - 1, last);
    }
  }

  lemma {:induction false} AssetEachNotEmpty(items: seq<Json>, n: nat)
    requires n <= |items| && AssetEach(items, n) != Ok([])
    ensures exists i :: 0 <= i < n && !AssetOk(items[i])
  {
    var prev := AssetEach(items, n - 1);
    var last := items[n - 1];
    if prev != Ok([]) {
      AssetEachNotEmpty(items, n - 1);
    } else if IsNullish(last) {
      assert !AssetOk(items[n - 1]);
    } else {
      AssetMessagesEmpty(n - 1, last);
      assert AssetEach(items, n) == Ok([] + AssetMessages(n - 1, last).value);
      assert !AssetOk(items[n - 1]);
    }
  }

  /** A pack is valid exactly when it has a truthy version and name, an
      `assets` array, and every asset has a truthy type, name and provenance. */
  lemma ValidIff(v: Json)
    ensures FFPackErrors(v) == Ok([]) <==>
      && !IsNullish(v) && HasTruthy(v, "version") && HasTruthy(v, "name") && AssetsOf(v).Arr?
      && forall i :: 0 <= i < |AssetsOf(v).items| ==> AssetOk(AssetsOf(v).items[i])
  {
    if !IsNullish(v) {
      var assets := AssetsOf(v);
      var h := HeaderMessages(v);
      assert h == [] <==> HasTruthy(v, "version") && HasTruthy(v, "name");
      if !Truthy(assets) || !assets.Arr? {
        assert |FFPackErrors(v).value| > 0;
      } else {
        AssetEachEmpty(assets.items, |assets.items|);
        var es := AssetEach(assets.items, |assets.items|);
        if es.Ok? {
          assert FFPackErrors(v).value == h + es.value;
        }
      }
    }
  }

  /** The entries of an exported asset that the validator reads. */
  lemma PackAssetJsonReads(a: PackAsset)
    ensures HasTruthy(PackAssetJson(a), "type")
    ensures HasTruthy(PackAssetJson(a), "name") <==> a.name != ""
    ensures ProvenanceOf(PackAssetJson(a)) == ProvenanceJson(a.provenance)
    ensures HasTruthy(PackAssetJson(a), "provenance")
  {
    var fs := PackAssetJson(a).fields;
    LookupAt(fs, "type", 0);
    LookupAt(fs, "name", 1);
    LookupAt(fs, "provenance", 3);
    assert AssetTypeName(a.assetType) != "";
  }

  lemma PackAssetOk(a: PackAsset)
    requires a.name != ""
    ensures AssetOk(PackAssetJson(a))
  {
    PackAssetJsonReads(a);
  }

  lemma ExportedAssetsOk(assets: seq<PackAsset>)
    requires forall i :: 0 <= i < |assets| ==> assets[i].name != ""
    ensures AssetEach(AssetsJson(assets), |assets|) == Ok([])
  {
    var items := AssetsJson(assets);
    forall a | a in assets ensures AssetOk(PackAssetJson(a)) {
      PackAssetOk(a);
    }
    assert forall i :: 0 <= i < |items| ==> items[i] == PackAssetJson(assets[i]);
    AssetEachEmpty(items, |items|);
  }

  /** The entries of an exported pack that the validator and the importer read. */
  lemma PackJsonReads(p: FFPack)
    ensures HasTruthy(PackJson(p), "version") <==> p.version != ""
    ensures HasTruthy(PackJson(p), "name") <==> p.name != ""
    ensures AssetsOf(PackJson(p)) == Arr(AssetsJson(p.assets))
    ensures HasTruthy(PackJson(p), "assets")
  {
    var fs := PackJson(p).fields;
    LookupAt(fs, "version", 0);
    LookupAt(fs, "name", 1);
    LookupAt(fs, "assets", 4);
  }

  /** What `exportFFPack` produces passes `validateFFPack` whenever the pack
      name and every asset name are non-empty. */
  lemma ExportPassesValidation(
    name: string, assets: seq<Asset>, brandKit: Option<BrandKit>,
    presets: Option<seq<Preset>>, description: Option<string>, now: int)
    requires name != ""
    requires forall i :: 0 <= i < |assets| ==> assets[i].name != ""
    ensures FFPackErrors(PackJson(ExportFFPack(name, assets, brandKit, presets, description, now))) == Ok([])
  {
    var p := ExportFFPack(name, assets, brandKit, presets, description, now);
    PackPassesValidation(p);
  }

  lemma PackPassesValidation(p: FFPack)
    requires p.version != "" && p.name != ""
    requires forall i :: 0 <= i < |p.assets| ==> p.assets[i].name != ""
    ensures FFPackErrors(PackJson(p)) == Ok([])
  {
    PackJsonReads(p);
    ExportedAssetsOk(p.assets);
    var v := PackJson(p);
    assert HeaderMessages(v) == [];
  }

  // ---------------------------------------------------------------------------
  // parseFFPack (after `JSON.parse`)
  // ---------------------------------------------------------------------------

  datatype ParseError = InvalidFormat | ParseTypeError

  /** A provenance value whose `createdAt` can be assigned in strict mode. */
  predicate IsObject(v: Json) { v.Obj? || v.Arr? }

  function ProvenanceOf(asset: Json): Json
  {
    if asset.Obj? then Lookup(asset.fields, "provenance") else Undefined
  }

  /** `parseFFPack` on the parsed value: the required-field check, then the
      date conversion, which throws on a non-array `assets` (no `forEach`), on
      a null or undefined asset and on a provenance that is not an object. The
      converted dates denote the same instants and are kept as they are. */
  function ParseFFPack(data: Json): (r: Result<Json, ParseError>)
    ensures r.Ok? ==> r.value == data
  {
    if IsNullish(data) then Err(ParseTypeError)
    else if !HasTruthy(data, "version") || !HasTruthy(data, "name") || !HasTruthy(data, "assets")
    then Err(InvalidFormat)
    else
      var assets := AssetsOf(data);
      if !assets.Arr? then Err(ParseTypeError)
      else if exists i :: 0 <= i < |assets.items| && (IsNullish(assets.items[i]) || !IsObject(ProvenanceOf(assets.items[i])))
      then Err(ParseTypeError)
      else Ok(data)
  }

  /** The importer refuses exactly the values whose version, name or assets is
      falsy with its own error, before any conversion. */
  lemma ParseRequiresFields(data: Json)
    requires !IsNullish(data)
    ensures ParseFFPack(data) == Err(InvalidFormat) <==>
      !HasTruthy(data, "version") || !HasTruthy(data, "name") || !HasTruthy(data, "assets")
  {
  }

  /** A value the importer accepts passes the header checks of the validator
      and has an assets array whose entries all have a provenance. */
  lemma ParsedPassesHeader(data: Json)
    requires ParseFFPack(data).Ok?
    ensures FFPackErrors(data).Ok?
    ensures HeaderMessages(data) == []
    ensures forall i :: 0 <= i < |AssetsOf(data).items| ==> HasTruthy(AssetsOf(data).items[i], "provenance")
  {
    var items := AssetsOf(data).items;
    AssetEachOk(items, |items|);
  }

  lemma {:induction false} AssetEachOk(items: seq<Json>, n: nat)
    requires n <= |items|
    requires forall i :: 0 <= i < |items| ==> !IsNullish(items[i])
    ensures AssetEach(items, n).Ok?
  {
    if n > 0 {
      AssetEachOk(items, n - 1);
    }
  }

  /** An exported pack (non-empty name) reads back unchanged. */
  lemma ExportParses(
    name: string, assets: seq<Asset>, brandKit: Option<BrandKit>,
    presets: Option<seq<Preset>>, description: Option<string>, now: int)
    requires name != ""
    ensures var v := PackJson(ExportFFPack(name, assets, brandKit, presets, description, now));
      ParseFFPack(v) == Ok(v)
  {
    PackParses(ExportFFPack(name, assets, brandKit, presets, description, now));
  }

  lemma PackParses(p: FFPack)
    requires p.version != "" && p.name != ""
    ensures ParseFFPack(PackJson(p)) == Ok(PackJson(p))
  {
    PackJsonReads(p);
    ExportedAssetsParse(p.assets);
  }

  lemma ExportedAssetsParse(assets: seq<PackAsset>)
    ensures forall i :: 0 <= i < |AssetsJson(assets)| ==>
      !IsNullish(AssetsJson(assets)[i]) && IsObject(ProvenanceOf(AssetsJson(assets)[i]))
  {
    forall a | a in assets ensures IsObject(ProvenanceOf(PackAssetJson(a))) {
      PackAssetJsonReads(a);
    }
  }

  // ---------------------------------------------------------------------------
  // The download filename
  // ---------------------------------------------------------------------------

  /** s without its leading white space. */
  function DropWhiteSpace(s: string): (r: string)
    ensures |r| <= |s| && r == s[|s| - |r|..]
    ensures r != [] ==> !IsWhiteSpace(r[0])
  {
    if s != [] && IsWhiteSpace(s[0]) then DropWhiteSpace(s[1..]) else s
  }

  /** `s.replace(/\s+/g, '-')`: each run of white space becomes one `-`. */
  function CollapseWhiteSpace(s: string): (r: string)
    ensures forall i :: 0 <= i < |r| ==> !IsWhiteSpace(r[i])
    ensures |r| <= |s|
    decreases |s|
  {
    if s == [] then []
    else if IsWhiteSpace(s[0]) then "-" + CollapseWhiteSpace(DropWhiteSpace(s[1..]))
    else [s[0]] + CollapseWhiteSpace(s[1..])
  }

  /** `${name.replace(/\s+/g, '-').toLowerCase()}` */
  function Slug(name: string): (r: string)
    ensures forall i :: 0 <= i < |r| ==> !IsWhiteSpace(r[i]) && !IsAsciiUpper(r[i])
  {
    ToLower(CollapseWhiteSpace(name))
  }

  function DownloadFileName(name: string): (r: string)
    ensures EndsWith(r, ".ffpack.json")
    ensures r[..|r| - 12] == Slug(name)
  {
    Slug(name) + ".ffpack.json"
  }

  lemma {:induction false} CollapseNoWhiteSpace(s: string)
    requires forall i :: 0 <= i < |s| ==> !IsWhiteSpace(s[i])
    ensures CollapseWhiteSpace(s) == s
  {
    if s != [] {
      CollapseNoWhiteSpace(s[1..]);
    }
  }

  lemma {:induction false} ToLowerIdempotent(s: string)
    requires forall i :: 0 <= i < |s| ==> !IsAsciiUpper(s[i])
    ensures ToLower(s) == s
  {
    var r := ToLower(s);
    assert forall i :: 0 <= i < |s| ==> r[i] == s[i];
  }

  /** A slug is its own slug: renaming a pack after its file changes nothing. */
  lemma SlugIdempotent(name: string)
    ensures Slug(Slug(name)) == Slug(name)
  {
    var s := Slug(name);
    CollapseNoWhiteSpace(s);
    ToLowerIdempotent(s);
  }
}
