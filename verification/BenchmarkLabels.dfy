/** The texts the benchmark writes, and the built-in type names, meet what the round trip asks of them. */
module BenchmarkLabels {
  import opened Wrappers
  import opened StringSpec
  import opened RecordSpec
  import opened Writer
  import opened MakeCatalog
  import opened CatalogKeys
  import opened RoundTrip

  /** The kinds of the type names that both back ends know without a registry. */
  function Builtin(name: string): Kind {
    match name
    case "mscorlib; System.Int32" => IntKind
    case "System.Int32" => IntKind
    case "mscorlib; System.Int64" => LongKind
    case "System.Int64" => LongKind
    case "mscorlib; System.Boolean" => BoolKind
    case "System.Boolean" => BoolKind
    case "mscorlib; System.String" => StringKind
    case "System.String" => StringKind
    case "UnityEngine.CoreModule; UnityEngine.Hash128" => HashKind
    case "Unity.ResourceManager; UnityEngine.ResourceManagement.ResourceProviders.AssetBundleRequestOptions" =>
      BundleKind
    case _ => UnsupportedKind
  }

  const LABELS := Labels(
    TypeLabel("mscorlib", "System.String"),
    TypeLabel("UnityEngine.CoreModule", "UnityEngine.Texture2D"),
    TypeLabel("UnityEngine.AssetBundleModule", "UnityEngine.AssetBundle"),
    TypeLabel("Unity.ResourceManager", "Example.Provider"),
    "UnityEngine.ResourceManagement." + "ResourceProviders." + "BundledAssetProvider", "provider", "shared.bundle",
    ["Assets", "Game", "Textures", "Environment"], "texture_", ".png", "guid_")

  lemma {:induction false} NoCommaStaysWhole(text: string, i: nat)
    requires i <= |text| && forall k :: 0 <= k < |text| ==> text[k] != ','
    ensures CommaFrom(text, i) == |text|
    decreases |text| - i
  {
    if i < |text| {
      NoCommaStaysWhole(text, i + 1);
    }
  }

  lemma TypeTextsAreAscii()
    ensures AsciiOnly("mscorlib") && AsciiOnly("System.String")
    ensures AsciiOnly("UnityEngine.CoreModule") && AsciiOnly("UnityEngine.Texture2D")
    ensures AsciiOnly("UnityEngine.AssetBundleModule") && AsciiOnly("UnityEngine.AssetBundle")
    ensures AsciiOnly("Unity.ResourceManager") && AsciiOnly("Example.Provider")
  {
  }

  lemma ProviderIsAscii()
    ensures AsciiOnly("UnityEngine.ResourceManagement." + "ResourceProviders." + "BundledAssetProvider")
  {
    assert AsciiOnly("UnityEngine.ResourceManagement.");
    assert AsciiOnly("ResourceProviders.");
    assert AsciiOnly("BundledAssetProvider");
  }

  lemma OtherTextsAreAscii()
    ensures AsciiOnly("provider") && AsciiOnly("shared.bundle") && AsciiOnly("texture_") && AsciiOnly(".png")
    ensures AsciiOnly("guid_")
    ensures AsciiOnly("Assets") && AsciiOnly("Game") && AsciiOnly("Textures") && AsciiOnly("Environment")
  {
  }

  lemma LabelsAreAscii()
    ensures LabelsAscii(LABELS)
  {
    hide AsciiOnly;
    TypeTextsAreAscii();
    ProviderIsAscii();
    OtherTextsAreAscii();
  }

  lemma StringTypeIsKnown(version: nat)
    requires 1 <= version <= 3
    ensures StringsKnown(LABELS, version, Builtin)
  {
    hide CommaFrom;
    NoCommaStaysWhole("mscorlib", 0);
    assert BeforeComma("mscorlib") == "mscorlib";
    assert MatchName(TypeOf(LABELS.stringType), version) == Ok("mscorlib" + "; " + "System.String");
    assert "mscorlib" + "; " + "System.String" == "mscorlib; System.String";
  }

  /** For these texts the round trip needs no condition but the size of the file. */
  lemma BenchmarkCatalogReadsBack(version: nat)
    requires 1 <= version <= 3
    ensures LabelsAscii(LABELS) && KeysApart(LABELS) && StringsKnown(LABELS, version, Builtin)
  {
    hide LabelsAscii, StringsKnown;
    LabelsAreAscii();
    StringTypeIsKnown(version);
  }
}
