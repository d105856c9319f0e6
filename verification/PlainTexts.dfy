/** The two round trips on plain texts: which text of a record ends up in which field. */
module PlainTexts {
  import opened Wrappers
  import opened Bytes
  import opened StringSpec
  import opened RecordSpec
  import opened Objects
  import opened Writer
  import opened References
  import opened TextForms
  import opened RecordForms
  import opened FullCatalog
  import opened CatalogFile
  import opened JsonBackends
  import Dicts
  import JsonSpec
  import JsonRoundTrip

  function Plainly(text: string): (p: Piece)
    requires AsciiOnly(text)
    ensures p.Narrow? && |p.raw| == |text|
  {
    Narrow(seq(|text|, i requires 0 <= i < |text| => (text[i] as int) as byte))
  }

  lemma PlainlyReads(utf16: Decoder, text: string)
    requires AsciiOnly(text)
    ensures PieceText(utf16, Plainly(text)) == Ok(Some(text))
  {
    var raw := Plainly(text).raw;
    assert seq(|raw|, i requires 0 <= i < |raw| => raw[i] as char) == text;
  }

  function Alone(text: string): Text
    requires AsciiOnly(text)
  {
    Single(Plainly(text))
  }

  /** A file in a folder, as the two linked parts that the version reads in that order. */
  function InFolder(version: nat, folder: string, name: string): Text
    requires AsciiOnly(folder) && AsciiOnly(name)
  {
    if version <= 1 then Linked(Plainly(folder), [Plainly(name)]) else Linked(Plainly(name), [Plainly(folder)])
  }

  lemma InFolderReads(utf16: Decoder, version: nat, folder: string, name: string)
    requires AsciiOnly(folder) && AsciiOnly(name)
    ensures Meant(utf16, '/' as byte, version, InFolder(version, folder, name)) == Ok(Some(folder + "/" + name))
    ensures TextSize(InFolder(version, folder, name)) == |folder| + |name| + 24
  {
    hide Plainly, AsciiOnly, PieceText;
    PlainlyReads(utf16, folder);
    PlainlyReads(utf16, name);
    var first, second := if version <= 1 then folder else name, if version <= 1 then name else folder;
    var both := [Plainly(first), Plainly(second)];
    assert both[1..] == [Plainly(second)] && both[1..][1..] == [];
    assert [Plainly(first)] + [Plainly(second)] == both;
    assert PathText(utf16, '/', version, both[1..]) == Ok(Some(second));
    assert ChainSize(both[1..]) == |second| + 12;
  }

  datatype Texts = Texts(
    key: string, folder: string, name: string, provider: string, assembly: string, typeName: string)

  predicate AllAscii(t: Texts) {
    && AsciiOnly(t.key) && AsciiOnly(t.folder) && AsciiOnly(t.name) && AsciiOnly(t.provider)
    && AsciiOnly(t.assembly) && AsciiOnly(t.typeName)
  }

  function TypesOf(t: Texts): TypeTexts
    requires AllAscii(t)
  {
    TypeTexts(Alone(t.assembly), Alone(t.typeName))
  }

  /** A location whose primary key, internal ID and provider are different texts, with bundle options. */
  function LocationOf(t: Texts, version: nat, hash: int, options: Options): LocationContent
    requires AllAscii(t)
  {
    LocationContent(Alone(t.key), InFolder(version, t.folder, t.name), Alone(t.provider), hash,
                    Typed(TypesOf(t), OptionsOf(options)), TypesOf(t))
  }

  function FileOf(t: Texts, version: nat, hash: int, options: Options): FileContent
    requires AllAscii(t)
  {
    var init := InitContent(Absent(false), TypesOf(t), Absent(true));
    FileContent(0, Absent(false), Absent(true), init, init, [], Nothing, LocationOf(t, version, hash, options))
  }

  function Size(t: Texts): nat {
    |t.key| + |t.folder| + |t.name| + |t.provider| + 4 * |t.assembly| + 4 * |t.typeName| + 256
  }

  lemma SizeIs(t: Texts, version: nat, hash: int, options: Options, utf16: Decoder)
    requires AllAscii(t) && OptionsFit(options) && options.name == Single(Absent(false))
    ensures FileSize(FileOf(t, version, hash, options)) == Size(t)
  {
    hide InFolder, Plainly, AsciiOnly;
    InFolderReads(utf16, version, t.folder, t.name);
    assert InitsSize([]) == 0;
  }

  lemma FileIsReadable(t: Texts, version: nat, hash: int, options: Options, utf16: Decoder, builtin: string -> Kind)
    requires AllAscii(t) && OptionsFit(options) && options.name == Single(Absent(false))
    requires -0x8000_0000 <= hash < 0x8000_0000 && forall name :: builtin(name) == BundleKind
    ensures Readable(utf16, version, builtin, FileOf(t, version, hash, options))
  {
    hide InFolder, Plainly, AsciiOnly, BeforeComma, OptionsFit;
    InFolderReads(utf16, version, t.folder, t.name);
    PlainlyReads(utf16, t.key);
    PlainlyReads(utf16, t.provider);
    PlainlyReads(utf16, t.assembly);
    PlainlyReads(utf16, t.typeName);
  }

  /** The one location of the catalog has each text in its own field, the signed hash and the bundle. */
  ghost predicate HasTexts(c: Catalog, t: Texts, hash: int, options: Options) {
    && |c.resources| == 1 && |c.resources[0].value.items| == 1 && c.resources[0].value.items[0].LocationEntry?
    && var a := c.resources[0].value.items[0].location.attributes;
       && a.primaryKey == Some(t.key) && a.internalId == Some(t.folder + "/" + t.name)
       && a.providerId == Some(t.provider) && a.dependencyHash == hash
       && a.data.Hit? && a.data.e.BundleEntry?
       && var b := a.data.e.bundle;
          Spells(b.hash, options.hash) && b.crc == options.crc && b.bundleSize == options.size
  }

  lemma TextsAre(t: Texts, version: nat, hash: int, options: Options, utf16: Decoder, c: Catalog)
    requires AllAscii(t) && OptionsFit(options)
    requires CatalogIs(utf16, version, c, FileOf(t, version, hash, options))
    ensures HasTexts(c, t, hash, options)
  {
    hide InFolder, Plainly, AsciiOnly, Spells, DataIs, TypeMeant, OptionsFit;
    InFolderReads(utf16, version, t.folder, t.name);
    PlainlyReads(utf16, t.key);
    PlainlyReads(utf16, t.provider);
  }

  /** Both back ends give each field the text behind its own word. */
  method TextsReadBack(t: Texts, version: nat, hash: int, options: Options, buffered: bool, utf16: Decoder)
    returns (python: Result<Catalog>, native: Result<Catalog>)
    requires 1 <= version <= 3 && -0x8000_0000 <= hash < 0x8000_0000
    requires AllAscii(t) && OptionsFit(options) && options.name == Single(Absent(false)) && Size(t) < 0x4000_0000
    ensures python.Ok? && HasTexts(python.value, t, hash, options)
    ensures native.Ok? && HasTexts(native.value, t, hash, options)
  {
    hide AllAscii, FileSize, OptionsFit, CatalogIs, Readable, HasTexts, Size;
    var builtin := (_: string) => BundleKind;
    SizeIs(t, version, hash, options, utf16);
    FileIsReadable(t, version, hash, options, utf16, builtin);
    python, native := WriteAndReadAll(version, FileOf(t, version, hash, options), buffered, 1, utf16, builtin);
    TextsAre(t, version, hash, options, utf16, python.value);
    TextsAre(t, version, hash, options, utf16, native.value);
  }

  // ----- The tables of a JSON catalog

  /** One key that lists the first and then the second location. */
  function TwoLocations(key: string, first: int, second: int): JsonRoundTrip.Content
    requires AsciiOnly(key)
  {
    JsonRoundTrip.Content(
      [JsonRoundTrip.KeyContent(JsonRoundTrip.NarrowText(Plainly(key).raw), [0, 1])],
      [JsonRoundTrip.LocationContent(0, 1, None, first, None, 0, 0),
       JsonRoundTrip.LocationContent(1, 0, Some(0), second, Some(JsonRoundTrip.SInt32(second)), 0, 1)])
  }

  lemma TwoLocationsFit(lib: JsonSpec.Library, lists: JsonSpec.Lists, key: string, first: int, second: int)
    requires AsciiOnly(key) && |key| < 0x7000_0000 && JsonRoundTrip.IsInt32(first) && JsonRoundTrip.IsInt32(second)
    requires |lists.internalIds| >= 2 && |lists.providers| >= 2 && |lists.types| >= 2 && lists.keys == None
    ensures JsonRoundTrip.Fits(TwoLocations(key, first, second), lists)
    ensures JsonRoundTrip.Readable(lib, TwoLocations(key, first, second))
    ensures forall l | l in TwoLocations(key, first, second).locations ::
              JsonRoundTrip.LocationFits(TwoLocations(key, first, second), lists, l)
    ensures JsonRoundTrip.KeyMeant(lib, TwoLocations(key, first, second), 0) == JsonSpec.Text(key)
  {
    hide Plainly, AsciiOnly, PieceText;
    PlainlyReads(lib.utf16, key);
    var c := TwoLocations(key, first, second);
    var chunks, extra := JsonRoundTrip.KeyChunks(c), JsonRoundTrip.ExtraChunks(c);
    assert |chunks[0]| == 5 + |key| && |extra[0]| == 0 && |extra[1]| == 5;
    assert |JsonRoundTrip.Chained(chunks, 1)| == |chunks[0]|;
    assert |JsonRoundTrip.Chained(extra, 1)| == 0 && |JsonRoundTrip.Chained(extra, 2)| == 5;
  }

  /** Both back ends give the key its two locations in order, and each location the fields of its own record. */
  method TwoLocationsReadBack(lib: JsonSpec.Library, lists: JsonSpec.Lists, key: string, first: int, second: int)
    returns (python: Result<JsonSpec.JsonMap>, native: Result<JsonSpec.JsonMap>)
    requires lib.bundleAssembly == BUNDLE_ASSEMBLY && lib.bundleClass == BUNDLE_CLASS
    requires AsciiOnly(key) && |key| < 0x7000_0000 && JsonRoundTrip.IsInt32(first) && JsonRoundTrip.IsInt32(second)
    requires |lists.internalIds| >= 2 && |lists.providers| >= 2 && |lists.types| >= 2 && lists.keys == None
    requires lists.prefixes == []
    ensures native == python && python.Ok?
    ensures python.value.resources == [Dicts.Slot(JsonSpec.Text(key), JsonSpec.Text(key), [0, 1])]
    ensures python.value.locations ==
            [JsonSpec.JsonLocation(lists.internalIds[0], lists.providers[1], None, None, first,
                                   lib.str(JsonSpec.Text(key)), lists.types[0], None),
             JsonSpec.JsonLocation(lists.internalIds[1], lists.providers[0], Some(JsonSpec.Text(key)),
                                   Some(JsonSpec.Number(second)), second, lib.str(JsonSpec.Text(key)),
                                   lists.types[1], None)]
  {
    hide JsonRoundTrip.Fits, JsonRoundTrip.Readable, JsonRoundTrip.KeyMeant, AsciiOnly, JsonRoundTrip.LocationFits,
      Plainly;
    var c := TwoLocations(key, first, second);
    TwoLocationsFit(lib, lists, key, first, second);
    python, native := JsonRoundTrip.WriteThenRead(lib, lists, c);
    ghost var slots := JsonRoundTrip.KeySlots(lib, c, 1);
    assert slots[..0] == [] && Dicts.Collect(slots[..0]) == [];
    assert c.locations[0] in c.locations && c.locations[1] in c.locations;
    assert JsonRoundTrip.LocationIs(lib, lists, c, python.value.locations[0], c.locations[0]);
    assert JsonRoundTrip.LocationIs(lib, lists, c, python.value.locations[1], c.locations[1]);
  }
}
