/** A written catalog, read by both back ends, gives back its keys and its shared objects. */
module WriteThenRead {
  import opened Wrappers
  import opened Bytes
  import opened StringSpec
  import opened RecordSpec
  import opened Graph
  import opened Objects
  import opened Dicts
  import opened ResourceMap
  import opened Frames
  import opened MapFrames
  import opened Writer
  import opened MakeCatalog
  import opened CatalogKeys
  import opened RoundTrip
  import opened CatalogRoles
  import opened Backends
  import opened CatalogFile

  /** Entry k: the path key of asset k / 2 if k is even, else its guid key, both with its location. */
  function ExpectedEntry(labels: Labels, version: nat, plan: Plan, k: nat): Slot<Data, seq<nat>>
    requires k / 2 < |plan.assets|
  {
    KeySlot(Made(TextValue(if k % 2 == 0 then PathOf(labels, version, k / 2) else GuidText(labels, k / 2))),
            [plan.assets[k / 2].location])
  }

  function Expected(labels: Labels, version: nat, plan: Plan, n: nat): (r: Index)
    requires n <= 2 * |plan.assets|
    ensures |r| == n
  {
    seq(n, k requires 0 <= k < n => ExpectedEntry(labels, version, plan, k))
  }

  lemma {:induction false} EntriesAre(img: Image, labels: Labels, plan: Plan, n: nat)
    requires Reads(img, labels, plan) && IndexWritten(plan.assets, plan.keys) && n <= 2 * |plan.assets|
    ensures EntriesOf(img, plan.keys, n) == Ok(Expected(labels, img.version, plan, n))
  {
    hide PathOf, GuidText, ObjectAt, ArrayAt, FieldsAt, DepsAt, BundleReads, AssetPoints;
    if n > 0 {
      EntriesAre(img, labels, plan, n - 1);
      KeyIndex(plan, n - 1);
      assert AssetReads(img, labels, plan.shared, (n - 1) / 2, plan.assets[(n - 1) / 2]);
      assert Expected(labels, img.version, plan, n) ==
             Expected(labels, img.version, plan, n - 1) + [ExpectedEntry(labels, img.version, plan, n - 1)];
    }
  }

  lemma ExpectedDistinct(labels: Labels, version: nat, plan: Plan)
    requires KeysApart(labels) && |plan.assets| < 0x4000_0000
    ensures DistinctKeys(Expected(labels, version, plan, 2 * |plan.assets|))
  {
    hide PathOf, GuidText, KeysApart;
    var d := Expected(labels, version, plan, 2 * |plan.assets|);
    forall i, j | 0 <= i < j < |d|
      ensures d[i].norm != d[j].norm
    {
      var a, b := i / 2, j / 2;
      if i % 2 == 0 && j % 2 == 0 && d[i].norm == d[j].norm {
        PathInjective(labels, version, a, b);
      } else if i % 2 == 1 && j % 2 == 1 && d[i].norm == d[j].norm {
        GuidInjective(labels, a, b);
      } else {
        PathIsNoGuid(labels, version, a, b);
        PathIsNoGuid(labels, version, b, a);
      }
    }
  }

  lemma AssetDecodes(img: Image, labels: Labels, plan: Plan, i: nat)
    requires Reads(img, labels, plan) && i < |plan.assets|
    ensures Decodable(Records(img), plan.assets[i].location, 2)
  {
    hide PathOf, GuidText, ObjectAt, ArrayAt, FieldsAt, DepsAt, AssetPoints;
    assert AssetReads(img, labels, plan.shared, i, plan.assets[i]);
    assert Decodable(Records(img), plan.shared.bundle, 1);
  }

  /** Recursion two records deep reads the whole index, whose keys are all different. */
  lemma CatalogParses(img: Image, labels: Labels, plan: Plan)
    requires Reads(img, labels, plan) && IndexWritten(plan.assets, plan.keys)
    requires KeysApart(labels) && |plan.assets| < 0x4000_0000
    ensures ParsesWithin(img, plan.keysOffset, 2)
    ensures Entries(img, plan.keysOffset) == Ok(Expected(labels, img.version, plan, 2 * |plan.assets|))
    ensures Collect(Entries(img, plan.keysOffset).value) == Expected(labels, img.version, plan, 2 * |plan.assets|)
  {
    hide PathOf, GuidText, ObjectAt, ArrayAt, FieldsAt, DepsAt, AssetPoints, AssetReads, BundleReads, KeysApart,
      Decodable, EntriesOf;
    var n := 2 * |plan.assets|;
    var entries := Expected(labels, img.version, plan, n);
    EntriesAre(img, labels, plan, n);
    assert PairsAt(img, plan.keysOffset) == Ok(plan.keys);
    assert Entries(img, plan.keysOffset) == Ok(entries);
    forall e | e in entries
      ensures forall o | o in e.value :: Decodable(Records(img), o, 2)
    {
      var k :| 0 <= k < n && entries[k] == e;
      AssetDecodes(img, labels, plan, k / 2);
    }
    ExpectedDistinct(labels, img.version, plan);
    CollectDistinctEntries(entries);
  }

  /** One asset's two positions in a result: both keys, and one location object with one dependency. */
  ghost predicate HoldsAsset(d: Resources, labels: Labels, version: nat, i: nat)
    requires 2 * i + 1 < |d|
  {
    var path := PathOf(labels, version, i);
    && d[2 * i].key == Made(TextValue(path))
    && d[2 * i + 1].key == Made(TextValue(GuidText(labels, i)))
    && |d[2 * i].value.items| == 1 && d[2 * i + 1].value.items == d[2 * i].value.items
    && ShowsAsset(d[2 * i].value.items[0], labels, path)
  }

  /** An asset's location object: its fields, and one dependency, the bundle. */
  ghost predicate ShowsAsset(e: Entry, labels: Labels, path: string) {
    && e.LocationEntry?
    && AsFields(e.location.attributes) == Some(FieldsOf(path, path, labels, 123, labels.assetType))
    && |e.location.dependencies| == 1
    && e.location.dependencies[0].LocationEntry?
    && var bundle := e.location.dependencies[0].location;
       && AsFields(bundle.attributes) == Some(FieldsOf(labels.bundleName, labels.bundleName, labels, 0,
                                                       labels.bundleType))
       && bundle.dependencies == []
  }

  /**
   * The whole map: every asset in order, locations all different, one bundle object below them all, and
   * a list object for each key.
   */
  ghost predicate IsCatalog(d: Resources, labels: Labels, version: nat, count: nat) {
    && |d| == 2 * count
    && (forall i :: 0 <= i < count ==> HoldsAsset(d, labels, version, i))
    && (forall i, j :: 0 <= i < j < count ==>
          && HoldsAsset(d, labels, version, i) && HoldsAsset(d, labels, version, j)
          && d[2 * i].value.items[0] != d[2 * j].value.items[0]
          && d[2 * i].value.items[0].location.dependencies == d[2 * j].value.items[0].location.dependencies)
    && (forall i, j :: 0 <= i < j < |d| ==> d[i].value != d[j].value)
  }

  /** The objects that draw an asset's two positions. */
  lemma AssetHeld(img: Image, labels: Labels, plan: Plan, objects: map<nat, ResourceLocation>, shape: Shape,
                  d: Resources, i: nat)
    requires Reads(img, labels, plan) && i < |plan.assets|
    requires shape.index == Expected(labels, img.version, plan, 2 * |plan.assets|)
    requires Depicts(shape, img, plan.keysOffset) && Draws(objects, shape, d)
    ensures HoldsAsset(d, labels, img.version, i)
    ensures plan.shared.bundle in objects && plan.assets[i].location in objects
    ensures d[2 * i].value.items[0] == LocationEntry(objects[plan.assets[i].location])
    ensures objects[plan.assets[i].location].dependencies == [LocationEntry(objects[plan.shared.bundle])]
  {
    hide PathOf, GuidText, ObjectAt, ArrayAt, FieldsAt, DepsAt, AssetPoints, Entries, Collect, AsFields;
    var index, o := shape.index, plan.assets[i].location;
    assert AssetReads(img, labels, plan.shared, i, plan.assets[i]);
    assert index[2 * i] == ExpectedEntry(labels, img.version, plan, 2 * i);
    assert index[2 * i + 1] == ExpectedEntry(labels, img.version, plan, 2 * i + 1);
    assert Placed(objects, d[2 * i].value.items, [o]) && Placed(objects, d[2 * i + 1].value.items, [o]);
    assert [o][0] in objects;
    assert d[2 * i].value.items == [LocationEntry(objects[[o][0]])] == d[2 * i + 1].value.items;
    assert Placed(objects, objects[o].dependencies, [plan.shared.bundle]);
    assert [plan.shared.bundle][0] in objects;
    assert objects[o].dependencies == [LocationEntry(objects[[plan.shared.bundle][0]])];
    assert Placed(objects, objects[plan.shared.bundle].dependencies, []);
  }

  /** Whatever draws the map of a written file is the catalog that was written. */
  lemma CatalogHeld(img: Image, labels: Labels, plan: Plan, objects: map<nat, ResourceLocation>, shape: Shape,
                    d: Resources)
    requires Reads(img, labels, plan) && Ordered(plan)
    requires shape.index == Expected(labels, img.version, plan, 2 * |plan.assets|)
    requires Depicts(shape, img, plan.keysOffset) && Draws(objects, shape, d)
    ensures IsCatalog(d, labels, img.version, |plan.assets|)
  {
    hide PathOf, GuidText, Reads, Depicts, Placed, Ordered, AsFields, ShowsAsset;
    assert |d| == 2 * |plan.assets|;
    forall i | 0 <= i < |plan.assets|
      ensures HoldsAsset(d, labels, img.version, i)
    {
      AssetHeld(img, labels, plan, objects, shape, d, i);
    }
    forall i, j | 0 <= i < j < |plan.assets|
      ensures HoldsAsset(d, labels, img.version, i) && HoldsAsset(d, labels, img.version, j)
      ensures d[2 * i].value.items[0].LocationEntry? && d[2 * j].value.items[0].LocationEntry?
      ensures d[2 * i].value.items[0] != d[2 * j].value.items[0]
      ensures d[2 * i].value.items[0].location.dependencies == d[2 * j].value.items[0].location.dependencies
    {
      AssetHeld(img, labels, plan, objects, shape, d, i);
      AssetHeld(img, labels, plan, objects, shape, d, j);
      LocationIsNoList(plan, i, j);
    }
  }

  function HeaderOf(version: nat, plan: Plan): Header {
    Header(version, plan.keysOffset, NULL, plan.shared.init, plan.shared.init, NULL, NULL)
  }

  lemma HeaderReads(d: seq<byte>, facts: Facts, labels: Labels, count: nat, version: nat, plan: Plan)
    requires Written(d, facts, labels, count, version, plan) && 1 <= version <= 3
    ensures ReadHeader(d) == Ok(HeaderOf(version, plan))
  {
    hide AllLaidOut, SharedWritten, ChainWritten, AssetsWritten, IndexWritten;
    var words := Words(d, 0, 8);
    assert U32(d, 4) == words[1] && U32(d, 8) == words[2] && U32(d, 12) == words[3] && U32(d, 16) == words[4];
    assert U32(d, 20) == words[5] && U32(d, 24) == words[6] && U32(d, 28) == words[7];
    assert plan.keysOffset > HEADER by {
      IndexBehindHeader(d, facts, labels, count, version, plan);
    }
  }

  /** No record lies in the header, so the index never starts right behind it. */
  lemma IndexBehindHeader(d: seq<byte>, facts: Facts, labels: Labels, count: nat, version: nat, plan: Plan)
    requires Written(d, facts, labels, count, version, plan)
    ensures plan.keysOffset > HEADER
  {
    hide SharedWritten, ChainWritten, AssetsWritten, IndexWritten, LaidOut;
    var f := (plan.keysOffset, Table(plan.keys));
    assert LaidOut(d, f.0, f.1);
    KeysBehindHeader(d, plan);
  }

  lemma KeysBehindHeader(d: seq<byte>, plan: Plan)
    requires LaidOut(d, plan.keysOffset, Table(plan.keys))
    ensures plan.keysOffset > HEADER
  {
  }

  /** What the generator writes besides the map. */
  function DataOf(labels: Labels, version: nat): CatalogData<SerializedType> {
    var provider := InitData(Some(labels.initId), TypeOf(labels.providerType), None);
    CatalogData(version, None, None, provider, provider, [])
  }

  lemma InitMeans(img: Image, facts: Facts, labels: Labels, s: Shared)
    requires Holding(img, facts) && SharedWritten(facts, labels, s)
    ensures InitAt(img, s.init) == Ok(InitData(Some(labels.initId), TypeOf(labels.providerType), None))
    ensures InitType(img, s.init) == Some(s.providerType.record)
  {
    hide AllLaidOut, LaidOut, Encoded, TypeAt, TypeWritten;
    RecordMeans(img, facts, s.init, [s.initId, s.providerType.record, NULL]);
    PlainMeans(img, facts, s.initId, labels.initId, 0);
    TypeMeans(img, facts, s.providerType, labels.providerType);
    NullMeans(img);
  }

  lemma NullMeans(img: Image)
    ensures Encoded(img, NULL, 0) == Ok(None) && ArrayAt(img, NULL) == Ok([])
  {
  }

  /** The header of a written file reads back, and it too uses each offset as one kind of record. */
  lemma DataMeans(img: Image, facts: Facts, labels: Labels, plan: Plan)
    requires Holding(img, facts) && SharedWritten(facts, labels, plan.shared) && Ordered(plan)
    ensures DataAt(img, HeaderOf(img.version, plan)) == Ok(DataOf(labels, img.version))
    ensures HeaderDisciplined(img, RolesOf(plan), HeaderOf(img.version, plan))
  {
    hide Holding, SharedWritten, Ordered, RolesOf, Encoded, InitAt, ArrayAt, InitType;
    InitMeans(img, facts, labels, plan.shared);
    NullMeans(img);
    RolesAre(plan, plan.shared.providerType.record);
  }

  /** The index takes sixteen bytes for each asset, so a small file has few. */
  lemma FewAssets(img: Image, facts: Facts, labels: Labels, count: nat, version: nat, plan: Plan)
    requires Written(img.data, facts, labels, count, version, plan) && |img.data| < 0x4000_0000
    ensures |plan.assets| < 0x4000_0000
  {
    hide AllLaidOut, SharedWritten, ChainWritten, AssetsWritten;
    Fact(img, facts, plan.keysOffset, Table(plan.keys));
  }

  /** What both decoders need to know about a written file. */
  lemma WrittenCatalog(img: Image, facts: Facts, labels: Labels, count: nat, plan: Plan)
    requires Written(img.data, facts, labels, count, img.version, plan) && |img.data| < 0x4000_0000
    requires KeysApart(labels) && StringsKnown(labels, img.version, img.builtin)
    ensures Reads(img, labels, plan) && Ordered(plan) && |plan.assets| == count
    ensures AllApart(img, HeaderOf(img.version, plan)) && RecordsApart(img, HeaderOf(img.version, plan))
    ensures DataAt(img, HeaderOf(img.version, plan)) == Ok(DataOf(labels, img.version))
    ensures ParsesWithin(img, plan.keysOffset, 2) && Parses(img, plan.keysOffset)
    ensures Entries(img, plan.keysOffset) == Ok(Expected(labels, img.version, plan, 2 * count))
    ensures Collect(Entries(img, plan.keysOffset).value) == Expected(labels, img.version, plan, 2 * count)
  {
    hide AllLaidOut, SharedWritten, ChainWritten, AssetsWritten, Reads, Ordered, RolesOf, Disciplined,
      IndexDisciplined, HeaderDisciplined, IndexApart, DataAt, ParsesWithin, Parses, Entries, Expected, KeysApart,
      StringsKnown;
    AllMeans(img, facts, labels, count, img.version, plan);
    PlanOrdered(img.data, facts, labels, count, img.version, plan);
    DataMeans(img, facts, labels, plan);
    FewAssets(img, facts, labels, count, img.version, plan);
    CatalogDisciplined(img, labels, plan);
    assert FileDisciplined(img, HeaderOf(img.version, plan), RolesOf(plan));
    CatalogParses(img, labels, plan);
    WithinParses(img, plan.keysOffset, 2);
  }

  /** A written map takes two frames, one for a location and one for the bundle below it; an empty map none. */
  lemma WrittenMapTakesTwo(img: Image, facts: Facts, labels: Labels, count: nat, plan: Plan)
    requires Written(img.data, facts, labels, count, img.version, plan) && |img.data| < 0x4000_0000
    requires KeysApart(labels) && StringsKnown(labels, img.version, img.builtin)
    ensures Parses(img, plan.keysOffset)
    ensures FramesNeeded(img, plan.keysOffset, iset{}) == if count == 0 then 0 else 2
  {
    hide Written, FileDisciplined, AllApart, RecordsApart, DataAt, ParsesWithin, KeysApart, StringsKnown, Ordered,
      Collect, FieldsAt, DepsAt, PathOf, GuidText, Parses;
    WrittenCatalog(img, facts, labels, count, plan);
    DeepStackIsEnough(img, plan.keysOffset, iset{}, 2);
    var entries := Entries(img, plan.keysOffset).value;
    if count == 0 {
      assert AllListed(entries) == [];
      NoFrames(img, plan.keysOffset);
    } else {
      assert entries[0] == ExpectedEntry(labels, img.version, plan, 0);
      FirstListed(entries);
      assert AssetReads(img, labels, plan.shared, 0, plan.assets[0]);
      NewDependencyNeedsTwo(img, plan.keysOffset, plan.assets[0].location);
    }
  }

  lemma {:induction false} FirstListed(entries: Index)
    requires entries != [] && entries[0].value != []
    ensures AllListed(entries) != [] && AllListed(entries)[0] == entries[0].value[0]
    decreases |entries|
  {
    if |entries| > 1 {
      FirstListed(entries[..|entries| - 1]);
    } else {
      assert entries[..0] == [];
    }
  }

  lemma NoFrames(img: Image, keysOffset: nat)
    requires Parses(img, keysOffset) && AllListed(Entries(img, keysOffset).value) == []
    ensures FramesNeeded(img, keysOffset, iset{}) == 0
  {
  }

  /**
   * For every count and version whose file stays below the flag bits of encoded strings: writing
   * succeeds, and parsing the bytes gives the catalog back, with the Rust back end always and with the
   * Python one exactly when it has the two frames that a location and its bundle take.
   */
  method WriteThenRead(count: nat, version: nat, labels: Labels, buffered: bool, stack: nat,
                       utf16: seq<byte> -> Option<string>, builtin: string -> Kind)
    returns (python: Result<Catalog>, native: Result<Catalog>)
    requires 1 <= version <= 3 && FileSize(labels, count) < 0x4000_0000
    requires LabelsAscii(labels) && KeysApart(labels) && StringsKnown(labels, version, builtin)
    ensures native.Ok? && AsData(native.value.data) == Some(DataOf(labels, version))
    ensures IsCatalog(native.value.resources, labels, version, count)
    ensures python.Ok? <==> count == 0 || stack >= 2
    ensures python.Ok? ==>
              && AsData(python.value.data) == Some(DataOf(labels, version))
              && IsCatalog(python.value.resources, labels, version, count)
  {
    hide Written, KeysApart, StringsKnown, FileSize, ReadHeader, Reads, Ordered, AllApart, RecordsApart, DataAt,
      ParsesWithin, Parses, Entries, Expected, LabelsAscii, IsCatalog, Draws, DataOf, FramesNeeded, AsData, SameMap;
    var file, facts, plan := MakeCatalog.MakeCatalog(count, version, labels);
    HeaderReads(file.value, facts, labels, count, version, plan);
    ghost var img := Image(file.value, version, utf16, builtin);
    WrittenCatalog(img, facts, labels, count, plan);
    WrittenMapTakesTwo(img, facts, labels, count, plan);
    ghost var shape, left, right;
    python, native, shape, left, right := ParseBinary(file.value, buffered, stack, utf16, builtin);
    CatalogHeld(img, labels, plan, right, shape, native.value.resources);
    if python.Ok? {
      CatalogHeld(img, labels, plan, left, shape, python.value.resources);
    }
  }
}
