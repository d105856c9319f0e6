/** Reading back what the writer wrote. */
module RoundTrip {
  import opened Wrappers
  import opened Bytes
  import opened StringSpec
  import opened RecordSpec
  import opened Graph
  import opened Objects
  import opened ResourceMap
  import opened Writer
  import opened MakeCatalog
  import opened CatalogKeys

  /** A file whose offsets all fit below the flag bits of encoded strings, with facts about it. */
  ghost predicate Holding(img: Image, facts: Facts) {
    |img.data| < 0x4000_0000 && AllLaidOut(img.data, facts)
  }

  lemma Fact(img: Image, facts: Facts, o: nat, item: Item)
    requires Holding(img, facts) && (o, item) in facts
    ensures LaidOut(img.data, o, item)
  {
    assert LaidOut(img.data, (o, item).0, (o, item).1);
  }

  lemma SmallOffset(o: nat)
    requires o < 0x4000_0000
    ensures Position(o) == o && !IsUnicode(o) && !Bit(o, 0x4000_0000) && !IsNullString(o)
    ensures AsPath(o) == o + 0x4000_0000 <= NULL
    ensures Position(AsPath(o)) == o && Bit(AsPath(o), 0x4000_0000) && !IsNullString(AsPath(o))
  {
  }

  lemma PlainMeans(img: Image, facts: Facts, o: nat, text: string, separator: nat)
    requires Holding(img, facts) && (o, Plain(text)) in facts && separator < 256
    ensures Part(img, o) == Ok(Some(text)) && Encoded(img, o, separator) == Ok(Some(text))
  {
    Fact(img, facts, o, Plain(text));
    SmallOffset(o);
  }

  lemma RecordMeans(img: Image, facts: Facts, o: nat, words: seq<nat>)
    requires Holding(img, facts) && (o, Record(words)) in facts
    ensures ReadU32s(img.data, o, |words|) == Ok(words) && HEADER <= o && o + 4 * |words| <= |img.data|
  {
    Fact(img, facts, o, Record(words));
  }

  lemma TableMeans(img: Image, facts: Facts, o: nat, entries: seq<nat>)
    requires Holding(img, facts) && (o, Table(entries)) in facts
    ensures ArrayAt(img, o) == Ok(entries) && HEADER <= o <= |img.data|
  {
    Fact(img, facts, o, Table(entries));
  }

  function TypeOf(named: TypeLabel): SerializedType {
    SerializedType(Some(named.assembly), Some(named.name))
  }

  lemma TypeMeans(img: Image, facts: Facts, spot: TypeSpot, named: TypeLabel)
    requires Holding(img, facts) && TypeWritten(facts, spot, named)
    ensures TypeAt(img, spot.record) == Ok(TypeOf(named))
  {
    hide AllLaidOut, LaidOut, Encoded, Part;
    RecordMeans(img, facts, spot.record, [spot.assembly, spot.name]);
    PlainMeans(img, facts, spot.assembly, named.assembly, '.' as int);
    PlainMeans(img, facts, spot.name, named.name, '.' as int);
  }

  /** From any of its part records on, a written chain reads as the remaining parts. */
  lemma {:induction false} ChainMeans(img: Image, facts: Facts, links: seq<LinkSpot>, parts: seq<string>, k: nat)
    requires Holding(img, facts) && ChainWritten(facts, links, parts) && k < |links|
    ensures ChainParts(img, links[k].record, |links| - k) == Ok(parts[k..])
    ensures links[k].record + 8 <= |img.data|
    decreases |links| - k
  {
    hide AllLaidOut, LaidOut, Part;
    var next := FirstRecord(links[k + 1..]);
    RecordMeans(img, facts, links[k].record, [links[k].text, next]);
    assert U32(img.data, links[k].record) == Words(img.data, links[k].record, 2)[0] == links[k].text;
    assert U32(img.data, links[k].record + 4) == Words(img.data, links[k].record, 2)[1] == next;
    PlainMeans(img, facts, links[k].text, parts[k], 0);
    if k + 1 < |links| {
      ChainMeans(img, facts, links, parts, k + 1);
      assert next == links[k + 1].record;
      assert parts[k..] == [parts[k]] + parts[k + 1..];
    } else {
      assert next == NULL && parts[k..] == [parts[k]];
    }
  }

  lemma PathMeans(img: Image, facts: Facts, links: seq<LinkSpot>, parts: seq<string>)
    requires Holding(img, facts) && ChainWritten(facts, links, parts) && links != []
    ensures Encoded(img, AsPath(links[0].record), '/' as int) == Ok(Some(Assemble(img, '/' as int, parts)))
    ensures AsPath(links[0].record) <= NULL
  {
    hide AllLaidOut, LaidOut, Part, ChainWritten, Assemble;
    ChainMeans(img, facts, links, parts, 0);
    SmallOffset(links[0].record);
    ChainIs(img, links[0].record, |links|);
    assert parts[0..] == parts;
  }

  /** String objects are recognised under the version of the file. */
  predicate StringsKnown(labels: Labels, version: nat, builtin: string -> Kind) {
    match MatchName(TypeOf(labels.stringType), version)
    case Fail => false
    case Ok(name) => builtin(name) == StringKind
  }

  lemma KeyMeans(img: Image, facts: Facts, labels: Labels, spot: TypeSpot, key: nat, payload: nat,
                 encoded: nat, separator: nat, text: string)
    requires Holding(img, facts) && StringsKnown(labels, img.version, img.builtin)
    requires TypeWritten(facts, spot, labels.stringType)
    requires (key, Record([spot.record, payload])) in facts && (payload, StringObject(encoded, separator)) in facts
    requires separator < 256 && Encoded(img, encoded, separator) == Ok(Some(text))
    ensures ObjectAt(img, key) == Ok((TextValue(text), Some(TypeOf(labels.stringType))))
    ensures KindAt(img, spot.record) == Ok(StringKind)
    ensures ReadU32s(img.data, key, 2) == Ok([spot.record, payload]) && key != NULL
  {
    hide AllLaidOut, Encoded, TypeAt, MatchName, TypeWritten;
    TypeMeans(img, facts, spot, labels.stringType);
    RecordMeans(img, facts, key, [spot.record, payload]);
    Fact(img, facts, payload, StringObject(encoded, separator));
    var raw := Slice(img.data, payload, 5).value;
    U32OfSlice(img.data, payload);
    assert raw[0..4] == img.data[payload..payload + 4];
    U32OfSlice(raw, 0);
  }

  function FieldsOf(internal: string, primary: string, labels: Labels, dependencyHash: int, named: TypeLabel): Fields {
    Fields(Some(internal), Some(labels.provider), NoneValue, dependencyHash, Some(primary), TypeOf(named), None)
  }

  lemma LocationMeans(img: Image, facts: Facts, labels: Labels, s: Shared, o: nat, encoded: nat, text: string,
                      dependencies: nat, dependencyHash: nat, spot: TypeSpot, named: TypeLabel)
    requires Holding(img, facts) && SharedWritten(facts, labels, s) && TypeWritten(facts, spot, named)
    requires (o, Record([encoded, encoded, s.provider, dependencies, dependencyHash, NULL, spot.record])) in facts
    requires Encoded(img, encoded, '/' as int) == Ok(Some(text)) && dependencyHash < 0x8000_0000
    ensures FieldsAt(img, o) == Ok(FieldsOf(text, text, labels, dependencyHash, named))
    ensures DepsAt(img, o) == ArrayAt(img, dependencies)
    ensures ReadU32s(img.data, o, 7) ==
            Ok([encoded, encoded, s.provider, dependencies, dependencyHash, NULL, spot.record])
  {
    hide AllLaidOut, LaidOut, Encoded, TypeAt, ArrayAt, MatchName, TypeWritten;
    RecordMeans(img, facts, o, [encoded, encoded, s.provider, dependencies, dependencyHash, NULL, spot.record]);
    PlainMeans(img, facts, s.provider, labels.provider, '.' as int);
    TypeMeans(img, facts, spot, named);
  }

  // ----- Each asset

  /** What one asset reads back as. */
  ghost predicate AssetReads(img: Image, labels: Labels, s: Shared, i: nat, a: AssetSpot) {
    var path := PathOf(labels, img.version, i);
    && FieldsAt(img, a.location) == Ok(FieldsOf(path, path, labels, 123, labels.assetType))
    && DepsAt(img, a.location) == Ok([s.bundle])
    && ArrayAt(img, a.list) == Ok([a.location])
    && ObjectAt(img, a.pathKey) == Ok((TextValue(path), Some(TypeOf(labels.stringType))))
    && ObjectAt(img, a.guidKey) == Ok((TextValue(GuidText(labels, i)), Some(TypeOf(labels.stringType))))
  }

  /** Where one asset's records point. */
  ghost predicate AssetPoints(img: Image, s: Shared, a: AssetSpot) {
    && ReadU32s(img.data, a.location, 7) ==
       Ok([AsPath(a.part), AsPath(a.part), s.provider, s.dependencies, 123, NULL, s.assetType.record])
    && ReadU32s(img.data, a.pathKey, 2) == Ok([s.stringType.record, a.pathPayload])
    && ReadU32s(img.data, a.guidKey, 2) == Ok([s.stringType.record, a.guidPayload])
    && KindAt(img, s.stringType.record) == Ok(StringKind)
  }

  lemma AssetMeans(img: Image, facts: Facts, labels: Labels, s: Shared, links: seq<LinkSpot>, i: nat, a: AssetSpot)
    requires Holding(img, facts) && StringsKnown(labels, img.version, img.builtin) && SharedWritten(facts, labels, s)
    requires ChainWritten(facts, links, Reverse(labels.folders))
    requires AssetWritten(facts, labels, s, FirstRecord(links), i, a)
    ensures AssetReads(img, labels, s, i, a) && AssetPoints(img, s, a)
  {
    hide AllLaidOut, LaidOut, Encoded, TypeAt, ObjectAt, FieldsAt, DepsAt, KindAt, ArrayAt, Assemble, ChainWritten,
      Reverse, HexText, DecimalText, PathOf;
    PathTextIsPath(img, labels, i);
    var parts := Reverse(labels.folders);
    var path := PathOf(labels, img.version, i);
    ChainGrows(facts, facts, links, LinkSpot(a.part, a.name), parts, AssetName(labels, i));
    PathMeans(img, facts, [LinkSpot(a.part, a.name)] + links, [AssetName(labels, i)] + parts);
    TableMeans(img, facts, s.dependencies, [s.bundle]);
    TableMeans(img, facts, a.list, [a.location]);
    LocationMeans(img, facts, labels, s, a.location, AsPath(a.part), path, s.dependencies, 123, s.assetType,
                  labels.assetType);
    KeyMeans(img, facts, labels, s.stringType, a.pathKey, a.pathPayload, AsPath(a.part), '/' as int, path);
    PlainMeans(img, facts, a.guid, GuidText(labels, i), 0);
    KeyMeans(img, facts, labels, s.stringType, a.guidKey, a.guidPayload, a.guid, 0, GuidText(labels, i));
  }

  /** What the shared bundle reads back as. */
  ghost predicate BundleReads(img: Image, labels: Labels, s: Shared) {
    && FieldsAt(img, s.bundle) == Ok(FieldsOf(labels.bundleName, labels.bundleName, labels, 0, labels.bundleType))
    && DepsAt(img, s.bundle) == Ok([])
    && ReadU32s(img.data, s.bundle, 7) ==
       Ok([s.bundleName, s.bundleName, s.provider, NULL, 0, NULL, s.bundleType.record])
  }

  lemma BundleMeans(img: Image, facts: Facts, labels: Labels, s: Shared)
    requires Holding(img, facts) && SharedWritten(facts, labels, s)
    ensures BundleReads(img, labels, s)
  {
    hide AllLaidOut, LaidOut, Encoded, FieldsAt, DepsAt;
    PlainMeans(img, facts, s.bundleName, labels.bundleName, '/' as int);
    LocationMeans(img, facts, labels, s, s.bundle, s.bundleName, labels.bundleName, NULL, 0, s.bundleType,
                  labels.bundleType);
  }

  /** Everything in the file reads back. */
  ghost predicate Reads(img: Image, labels: Labels, plan: Plan) {
    && BundleReads(img, labels, plan.shared)
    && ArrayAt(img, plan.shared.dependencies) == Ok([plan.shared.bundle])
    && ArrayAt(img, plan.keysOffset) == Ok(plan.keys)
    && forall i :: 0 <= i < |plan.assets| ==>
         && AssetReads(img, labels, plan.shared, i, plan.assets[i])
         && AssetPoints(img, plan.shared, plan.assets[i])
  }

  lemma AllMeans(img: Image, facts: Facts, labels: Labels, count: nat, version: nat, plan: Plan)
    requires Written(img.data, facts, labels, count, version, plan) && |img.data| < 0x4000_0000
    requires StringsKnown(labels, img.version, img.builtin)
    ensures Reads(img, labels, plan)
  {
    hide AllLaidOut, SharedWritten, ChainWritten, AssetWritten, BundleReads, AssetReads, AssetPoints, ArrayAt;
    BundleMeans(img, facts, labels, plan.shared);
    assert (plan.shared.dependencies, Table([plan.shared.bundle])) in facts by {
      SharedTable(facts, labels, plan.shared);
    }
    TableMeans(img, facts, plan.shared.dependencies, [plan.shared.bundle]);
    TableMeans(img, facts, plan.keysOffset, plan.keys);
    forall i | 0 <= i < |plan.assets|
      ensures AssetReads(img, labels, plan.shared, i, plan.assets[i]) && AssetPoints(img, plan.shared, plan.assets[i])
    {
      AssetMeans(img, facts, labels, plan.shared, plan.links, i, plan.assets[i]);
    }
  }

  lemma SharedTable(facts: Facts, labels: Labels, s: Shared)
    requires SharedWritten(facts, labels, s)
    ensures (s.dependencies, Table([s.bundle])) in facts
  {
  }
}
