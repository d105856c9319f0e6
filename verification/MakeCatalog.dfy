/** The synthetic catalog: unique assets that share a path tail, types and one bundle. */
module MakeCatalog {
  import opened Wrappers
  import opened Bytes
  import opened StringSpec
  import opened RecordSpec
  import opened Writer

  datatype TypeLabel = TypeLabel(assembly: string, name: string)

  /** The texts of a catalog; folders are in the order their part records are written. */
  datatype Labels = Labels(
    stringType: TypeLabel, assetType: TypeLabel, bundleType: TypeLabel, providerType: TypeLabel,
    provider: string, initId: string, bundleName: string, folders: seq<string>,
    namePrefix: string, nameSuffix: string, guidPrefix: string)

  function DecimalText(n: nat): (r: string)
    ensures r != ""
  {
    if n < 10 then [HexDigit(n)] else DecimalText(n / 10) + [HexDigit(n % 10)]
  }

  /** The last digits of n in hexadecimal, padded with zeros. */
  function HexText(n: nat, width: nat): string {
    if width == 0 then "" else HexText(n / 16, width - 1) + [HexDigit(n % 16)]
  }

  function AssetName(labels: Labels, i: nat): string {
    labels.namePrefix + DecimalText(i) + labels.nameSuffix
  }

  /** Thirty-two hexadecimal digits hold every index of a file that fits its offsets. */
  function GuidText(labels: Labels, i: nat): string {
    labels.guidPrefix + HexText(i, 32)
  }

  /** The flag that marks an encoded string as a linked path. */
  function AsPath(o: nat): nat {
    if Bit(o, 0x4000_0000) then o else o + 0x4000_0000
  }

  datatype TypeSpot = TypeSpot(record: nat, assembly: nat, name: nat)

  /** A part record and its string. */
  datatype LinkSpot = LinkSpot(record: nat, text: nat)

  datatype AssetSpot = AssetSpot(
    name: nat, part: nat, location: nat, list: nat, pathPayload: nat, pathKey: nat,
    guid: nat, guidPayload: nat, guidKey: nat)

  /** Where everything shared was written. */
  datatype Shared = Shared(
    stringType: TypeSpot, assetType: TypeSpot, bundleType: TypeSpot, providerType: TypeSpot, provider: nat,
    initId: nat, init: nat, bundleName: nat, bundle: nat, dependencies: nat)

  ghost predicate TypeWritten(facts: Facts, spot: TypeSpot, named: TypeLabel) {
    && (spot.assembly, Plain(named.assembly)) in facts
    && (spot.name, Plain(named.name)) in facts
    && (spot.record, Record([spot.assembly, spot.name])) in facts
  }

  function FirstRecord(links: seq<LinkSpot>): nat {
    if links == [] then NULL else links[0].record
  }

  /** A linked path: each part record names its string and the next part record. */
  ghost predicate ChainWritten(facts: Facts, links: seq<LinkSpot>, parts: seq<string>) {
    && |links| == |parts|
    && forall k :: 0 <= k < |links| ==>
         && (links[k].text, Plain(parts[k])) in facts
         && (links[k].record, Record([links[k].text, FirstRecord(links[k + 1..])])) in facts
  }

  ghost predicate SharedWritten(facts: Facts, labels: Labels, s: Shared) {
    && TypeWritten(facts, s.stringType, labels.stringType)
    && TypeWritten(facts, s.assetType, labels.assetType)
    && TypeWritten(facts, s.bundleType, labels.bundleType)
    && TypeWritten(facts, s.providerType, labels.providerType)
    && (s.provider, Plain(labels.provider)) in facts
    && (s.initId, Plain(labels.initId)) in facts
    && (s.init, Record([s.initId, s.providerType.record, NULL])) in facts
    && (s.bundleName, Plain(labels.bundleName)) in facts
    && (s.bundle, Record([s.bundleName, s.bundleName, s.provider, NULL, 0, NULL, s.bundleType.record])) in facts
    && (s.dependencies, Table([s.bundle])) in facts
    && s.stringType.record < s.assetType.record < s.bundleType.record < s.providerType.record < s.bundle
    && s.bundle < s.dependencies
  }

  ghost predicate AssetWritten(facts: Facts, labels: Labels, s: Shared, tail: nat, i: nat, a: AssetSpot) {
    && (a.name, Plain(AssetName(labels, i))) in facts
    && (a.part, Record([a.name, tail])) in facts
    && (a.location,
        Record([AsPath(a.part), AsPath(a.part), s.provider, s.dependencies, 123, NULL, s.assetType.record])) in facts
    && (a.list, Table([a.location])) in facts
    && (a.guid, Plain(GuidText(labels, i))) in facts
    && (a.pathPayload, StringObject(AsPath(a.part), '/' as int)) in facts
    && (a.pathKey, Record([s.stringType.record, a.pathPayload])) in facts
    && (a.guidPayload, StringObject(a.guid, 0)) in facts
    && (a.guidKey, Record([s.stringType.record, a.guidPayload])) in facts
    && s.dependencies < a.location < a.list
  }

  ghost predicate AssetsWritten(facts: Facts, labels: Labels, s: Shared, tail: nat, assets: seq<AssetSpot>) {
    && (forall i :: 0 <= i < |assets| ==> AssetWritten(facts, labels, s, tail, i, assets[i]))
    && (forall i, j :: 0 <= i < j < |assets| ==> assets[i].list < assets[j].location)
  }

  /** The key index: for each asset, its path key and its guid key, both with its list. */
  ghost predicate IndexWritten(assets: seq<AssetSpot>, keys: seq<nat>) {
    && |keys| == 4 * |assets|
    && forall i :: 0 <= i < |assets| ==>
         && keys[4 * i] == assets[i].pathKey && keys[4 * i + 1] == assets[i].list
         && keys[4 * i + 2] == assets[i].guidKey && keys[4 * i + 3] == assets[i].list
  }

  lemma AssetsKept(facts: Facts, more: Facts, labels: Labels, s: Shared, tail: nat, assets: seq<AssetSpot>)
    requires facts <= more && AssetsWritten(facts, labels, s, tail, assets)
    ensures AssetsWritten(more, labels, s, tail, assets)
  {
    forall i | 0 <= i < |assets|
      ensures AssetWritten(more, labels, s, tail, i, assets[i])
    {
      assert AssetWritten(facts, labels, s, tail, i, assets[i]);
    }
  }

  lemma NoAssets(facts: Facts, labels: Labels, s: Shared, tail: nat)
    ensures AssetsWritten(facts, labels, s, tail, []) && IndexWritten([], [])
  {
  }

  /** One more asset, written behind those before it, and its two pairs of the index. */
  lemma AssetAdded(facts: Facts, more: Facts, labels: Labels, s: Shared, tail: nat, assets: seq<AssetSpot>,
                   keys: seq<nat>, a: AssetSpot)
    requires facts <= more && AssetsWritten(facts, labels, s, tail, assets) && IndexWritten(assets, keys)
    requires AssetWritten(more, labels, s, tail, |assets|, a)
    requires forall b | b in assets :: b.list < a.location
    ensures AssetsWritten(more, labels, s, tail, assets + [a])
    ensures IndexWritten(assets + [a], keys + [a.pathKey, a.list, a.guidKey, a.list])
  {
    hide AssetWritten;
    AssetsKept(facts, more, labels, s, tail, assets);
  }

  // ----- Sizes

  predicate TypeAscii(named: TypeLabel) {
    AsciiOnly(named.assembly) && AsciiOnly(named.name)
  }

  predicate AllAscii(texts: seq<string>) {
    forall t | t in texts :: AsciiOnly(t)
  }

  predicate LabelsAscii(labels: Labels) {
    && TypeAscii(labels.stringType) && TypeAscii(labels.assetType)
    && TypeAscii(labels.bundleType) && TypeAscii(labels.providerType)
    && AsciiOnly(labels.provider) && AsciiOnly(labels.initId) && AsciiOnly(labels.bundleName)
    && AllAscii(labels.folders)
    && AsciiOnly(labels.namePrefix) && AsciiOnly(labels.nameSuffix) && AsciiOnly(labels.guidPrefix)
  }

  function TypeSize(named: TypeLabel): nat {
    |named.assembly| + |named.name| + 16
  }

  function TypesSize(labels: Labels): nat {
    TypeSize(labels.stringType) + TypeSize(labels.assetType)
    + TypeSize(labels.bundleType) + TypeSize(labels.providerType)
  }

  function SharedSize(labels: Labels): nat {
    TypesSize(labels) + |labels.provider| + |labels.initId| + |labels.bundleName| + 60
  }

  function TailSize(folders: seq<string>): nat {
    if folders == [] then 0 else TailSize(folders[..|folders| - 1]) + |folders[|folders| - 1]| + 12
  }

  function AssetSize(labels: Labels, i: nat): nat {
    |AssetName(labels, i)| + |GuidText(labels, i)| + 78
  }

  function AssetsSize(labels: Labels, count: nat): nat {
    if count == 0 then 0 else AssetsSize(labels, count - 1) + AssetSize(labels, count - 1)
  }

  /** The length of the file with the given number of assets. */
  function FileSize(labels: Labels, count: nat): nat {
    HEADER + SharedSize(labels) + TailSize(labels.folders) + AssetsSize(labels, count) + 4 + 16 * count
  }

  lemma {:induction false} DecimalAscii(n: nat)
    ensures AsciiOnly(DecimalText(n))
  {
    if n >= 10 {
      DecimalAscii(n / 10);
    }
  }

  lemma {:induction false} HexAscii(n: nat, width: nat)
    ensures AsciiOnly(HexText(n, width))
  {
    if width > 0 {
      HexAscii(n / 16, width - 1);
    }
  }

  lemma {:induction false} TailFits(folders: seq<string>, i: nat)
    requires i < |folders|
    ensures TailSize(folders[..i + 1]) == TailSize(folders[..i]) + |folders[i]| + 12 <= TailSize(folders)
    decreases |folders| - i
  {
    assert folders[..i + 1][..i] == folders[..i];
    if i + 1 < |folders| {
      TailFits(folders, i + 1);
    } else {
      assert folders[..i + 1] == folders;
    }
  }

  lemma {:induction false} AssetFits(labels: Labels, i: nat, count: nat)
    requires i < count
    ensures AssetsSize(labels, i) + AssetSize(labels, i) <= AssetsSize(labels, count)
    decreases count
  {
    if i + 1 < count {
      AssetFits(labels, i, count - 1);
    }
  }

  method PutType(w: CatalogWriter, named: TypeLabel) returns (r: Result<TypeSpot>)
    requires w.Valid()
    modifies w
    ensures w.Valid() && |old(w.data)| <= |w.data| && old(w.facts) <= w.facts
    ensures r.Ok? ==> TypeWritten(w.facts, r.value, named)
    ensures r.Ok? ==> |old(w.data)| <= r.value.record < |w.data| == |old(w.data)| + TypeSize(named)
    ensures TypeAscii(named) && |old(w.data)| + TypeSize(named) < 0x4000_0000 ==> r.Ok?
  {
    hide LaidOut;
    var assembly :- w.PutString(named.assembly);
    var name :- w.PutString(named.name);
    var record :- w.PutRecord([assembly, name], {});
    return Ok(TypeSpot(record, assembly, name));
  }

  /** The folder parts, each linked to the one before; the last one written is the head. */
  method PutTail(w: CatalogWriter, folders: seq<string>) returns (r: Result<nat>, ghost links: seq<LinkSpot>)
    requires w.Valid()
    modifies w
    ensures w.Valid() && |old(w.data)| <= |w.data| && old(w.facts) <= w.facts
    ensures r.Ok? ==> r.value == FirstRecord(links) && ChainWritten(w.facts, links, Reverse(folders))
    ensures r.Ok? ==> |w.data| == |old(w.data)| + TailSize(folders) && (r.value == NULL || r.value < |w.data|)
    ensures AllAscii(folders) && |old(w.data)| + TailSize(folders) < 0x4000_0000 ==> r.Ok?
  {
    hide LaidOut;
    links := [];
    var tail := NULL;
    for i := 0 to |folders|
      invariant w.Valid() && |old(w.data)| <= |w.data| && old(w.facts) <= w.facts
      invariant tail == FirstRecord(links) && ChainWritten(w.facts, links, Reverse(folders[..i]))
      invariant |w.data| == |old(w.data)| + TailSize(folders[..i]) && (tail == NULL || tail < |w.data|)
      invariant |w.data| <= |old(w.data)| + TailSize(folders)
    {
      TailFits(folders, i);
      ghost var before := w.facts;
      var text :- w.PutString(folders[i]);
      var record :- w.PutRecord([text, tail], {});
      tail := record;
      ghost var more := [LinkSpot(record, text)] + links;
      assert Reverse(folders[..i + 1]) == [folders[i]] + Reverse(folders[..i]);
      ChainGrows(before, w.facts, links, LinkSpot(record, text), Reverse(folders[..i]), folders[i]);
      links := more;
    }
    assert folders[..|folders|] == folders;
    return Ok(tail), links;
  }

  lemma ChainGrows(facts: Facts, more: Facts, links: seq<LinkSpot>, spot: LinkSpot, parts: seq<string>, part: string)
    requires ChainWritten(facts, links, parts) && facts <= more
    requires (spot.text, Plain(part)) in more && (spot.record, Record([spot.text, FirstRecord(links)])) in more
    ensures ChainWritten(more, [spot] + links, [part] + parts)
  {
    hide FirstRecord;
    var all := [spot] + links;
    forall k | 0 <= k < |all|
      ensures (all[k].text, Plain(([part] + parts)[k])) in more
      ensures (all[k].record, Record([all[k].text, FirstRecord(all[k + 1..])])) in more
    {
      if k == 0 {
        assert all[1..] == links;
      } else {
        assert all[k + 1..] == links[k..];
      }
    }
  }

  method PutTypes(w: CatalogWriter, labels: Labels) returns (r: Result<(TypeSpot, TypeSpot, TypeSpot, TypeSpot)>)
    requires w.Valid()
    modifies w
    ensures w.Valid() && |old(w.data)| <= |w.data| && old(w.facts) <= w.facts
    ensures r.Ok? ==>
              && TypeWritten(w.facts, r.value.0, labels.stringType)
              && TypeWritten(w.facts, r.value.1, labels.assetType)
              && TypeWritten(w.facts, r.value.2, labels.bundleType)
              && TypeWritten(w.facts, r.value.3, labels.providerType)
              && r.value.0.record < r.value.1.record < r.value.2.record < r.value.3.record
              && r.value.3.record < |w.data| == |old(w.data)| + TypesSize(labels)
    ensures LabelsAscii(labels) && |old(w.data)| + TypesSize(labels) < 0x4000_0000 ==> r.Ok?
  {
    hide LaidOut, AllLaidOut;
    var stringType :- PutType(w, labels.stringType);
    var assetType :- PutType(w, labels.assetType);
    var bundleType :- PutType(w, labels.bundleType);
    var providerType :- PutType(w, labels.providerType);
    return Ok((stringType, assetType, bundleType, providerType));
  }

  ghost predicate SharedBelow(s: Shared, end: nat) {
    s.stringType.record < end && s.assetType.record < end && s.provider < end && s.init < end && s.dependencies < end
  }

  /** The provider's name and the initialization record. */
  method PutInit(w: CatalogWriter, labels: Labels, providerType: nat) returns (r: Result<(nat, nat, nat)>)
    requires w.Valid() && providerType < |w.data|
    modifies w
    ensures w.Valid() && |old(w.data)| <= |w.data| && old(w.facts) <= w.facts
    ensures r.Ok? ==>
              && (r.value.0, Plain(labels.provider)) in w.facts
              && (r.value.1, Plain(labels.initId)) in w.facts
              && (r.value.2, Record([r.value.1, providerType, NULL])) in w.facts
              && r.value.0 <= |w.data| && r.value.2 < |w.data|
              && |w.data| == |old(w.data)| + |labels.provider| + |labels.initId| + 20
    ensures LabelsAscii(labels) && |old(w.data)| + |labels.provider| + |labels.initId| + 20 < 0x4000_0000 ==> r.Ok?
  {
    hide LaidOut, AllLaidOut, AsciiOnly;
    var provider :- w.PutString(labels.provider);
    var initId :- w.PutString(labels.initId);
    var init :- w.PutRecord([initId, providerType, NULL], {});
    return Ok((provider, initId, init));
  }

  /** Types, provider, init data, bundle and the dependency list that every asset shares. */
  method PutShared(w: CatalogWriter, labels: Labels) returns (r: Result<Shared>)
    requires w.Valid()
    modifies w
    ensures w.Valid() && |old(w.data)| <= |w.data| && old(w.facts) <= w.facts
    ensures r.Ok? ==> SharedWritten(w.facts, labels, r.value) && r.value.dependencies < |w.data|
    ensures r.Ok? ==> SharedBelow(r.value, |w.data|) && |w.data| == |old(w.data)| + SharedSize(labels)
    ensures LabelsAscii(labels) && |old(w.data)| + SharedSize(labels) < 0x4000_0000 ==> r.Ok?
  {
    hide LaidOut, AllLaidOut, AsciiOnly;
    var types :- PutTypes(w, labels);
    var (stringType, assetType, bundleType, providerType) := types;
    var inits :- PutInit(w, labels, providerType.record);
    var (provider, initId, init) := inits;
    var bundleName :- w.PutString(labels.bundleName);
    var bundle :- w.PutRecord([bundleName, bundleName, provider, NULL, 0, NULL, bundleType.record], {4});
    var dependencies :- w.PutOffsets([bundle]);
    return Ok(Shared(stringType, assetType, bundleType, providerType, provider, initId, init, bundleName, bundle,
                     dependencies));
  }

  /** A string object and the typed object that holds it. */
  method PutKey(w: CatalogWriter, typeOffset: nat, encoded: nat, separator: byte)
    returns (r: Result<nat>, ghost payload: nat)
    requires w.Valid()
    modifies w
    ensures w.Valid() && |old(w.data)| <= |w.data| && old(w.facts) <= w.facts
    ensures r.Ok? ==>
              && r.value < |w.data| == |old(w.data)| + 13
              && (payload, StringObject(encoded, separator as int)) in w.facts
              && (r.value, Record([typeOffset, payload])) in w.facts
    ensures encoded <= NULL && typeOffset <= NULL && |old(w.data)| <= NULL - 5 ==> r.Ok?
  {
    hide LaidOut, AllLaidOut;
    payload := 0;
    var o :- w.PutStringObject(encoded, separator);
    payload := o;
    var key :- w.PutRecord([typeOffset, o], {});
    return Ok(key), payload;
  }

  /** An asset's linked path, its location and its list. */
  method PutLocation(w: CatalogWriter, labels: Labels, s: Shared, tail: nat, i: nat)
    returns (r: Result<(nat, nat)>, ghost name: nat, ghost location: nat)
    requires w.Valid() && SharedBelow(s, |w.data|) && (tail == NULL || tail < |w.data|)
    modifies w
    ensures w.Valid() && |old(w.data)| <= |w.data| && old(w.facts) <= w.facts
    ensures r.Ok? ==>
              && (name, Plain(AssetName(labels, i))) in w.facts
              && (r.value.0, Record([name, tail])) in w.facts
              && (location, Record([AsPath(r.value.0), AsPath(r.value.0), s.provider, s.dependencies, 123, NULL,
                                    s.assetType.record])) in w.facts
              && (r.value.1, Table([location])) in w.facts
              && |old(w.data)| <= location < r.value.1 < |w.data| && r.value.0 < |w.data|
              && |w.data| == |old(w.data)| + |AssetName(labels, i)| + 48
    ensures AsciiOnly(AssetName(labels, i)) && |old(w.data)| + |AssetName(labels, i)| + 48 < 0x4000_0000 ==> r.Ok?
  {
    hide LaidOut, AllLaidOut, AssetName, AsciiOnly;
    name, location := 0, 0;
    var text :- w.PutString(AssetName(labels, i));
    var part :- w.PutRecord([text, tail], {});
    var path := AsPath(part);
    var o :- w.PutRecord([path, path, s.provider, s.dependencies, 123, NULL, s.assetType.record], {4});
    name, location := text, o;
    var list :- w.PutOffsets([o]);
    return Ok((part, list)), name, location;
  }

  /** One asset: its path, location and list, then a path key and a guid key. */
  method PutAsset(w: CatalogWriter, labels: Labels, s: Shared, tail: nat, i: nat)
    returns (r: Result<(nat, nat, nat)>, ghost a: AssetSpot)
    requires w.Valid() && SharedBelow(s, |w.data|) && (tail == NULL || tail < |w.data|)
    modifies w
    ensures w.Valid() && |old(w.data)| <= |w.data| && old(w.facts) <= w.facts
    ensures r.Ok? ==>
              && r.value == (a.list, a.pathKey, a.guidKey)
              && AssetWritten(w.facts, labels, s, tail, i, a)
              && |old(w.data)| <= a.location && a.list < |w.data| && a.pathKey < |w.data| && a.guidKey < |w.data|
              && |w.data| == |old(w.data)| + AssetSize(labels, i)
    ensures LabelsAscii(labels) && |old(w.data)| + AssetSize(labels, i) < 0x4000_0000 ==> r.Ok?
  {
    hide LaidOut, AllLaidOut, DecimalText, HexText, AsciiOnly;
    if LabelsAscii(labels) {
      AssetAscii(labels, i);
    }
    a := AssetSpot(0, 0, 0, 0, 0, 0, 0, 0, 0);
    var placed, name, location := PutLocation(w, labels, s, tail, i);
    var place :- placed;
    var guid :- w.PutString(GuidText(labels, i));
    var pathPut, pathPayload := PutKey(w, s.stringType.record, AsPath(place.0), 47);
    var pathKey :- pathPut;
    var guidPut, guidPayload := PutKey(w, s.stringType.record, guid, 0);
    var guidKey :- guidPut;
    a := AssetSpot(name, place.0, location, place.1, pathPayload, pathKey, guid, guidPayload, guidKey);
    return Ok((place.1, pathKey, guidKey)), a;
  }

  lemma AssetAscii(labels: Labels, i: nat)
    requires LabelsAscii(labels)
    ensures AsciiOnly(AssetName(labels, i)) && AsciiOnly(GuidText(labels, i))
  {
    hide DecimalText, HexText;
    DecimalAscii(i);
    HexAscii(i, 32);
  }

  /** Everything a finished file holds, at the given places. */
  datatype Plan = Plan(shared: Shared, links: seq<LinkSpot>, assets: seq<AssetSpot>, keys: seq<nat>, keysOffset: nat)

  ghost const NOTHING: Plan :=
    var none := TypeSpot(0, 0, 0);
    Plan(Shared(none, none, none, none, 0, 0, 0, 0, 0, 0), [], [], [], 0)

  ghost predicate Written(d: seq<byte>, facts: Facts, labels: Labels, count: nat, version: nat, plan: Plan) {
    && AllLaidOut(d, facts)
    && SharedWritten(facts, labels, plan.shared)
    && ChainWritten(facts, plan.links, Reverse(labels.folders))
    && AssetsWritten(facts, labels, plan.shared, FirstRecord(plan.links), plan.assets)
    && |plan.assets| == count
    && IndexWritten(plan.assets, plan.keys)
    && (plan.keysOffset, Table(plan.keys)) in facts
    && plan.shared.dependencies < plan.keysOffset
    && (forall a | a in plan.assets :: a.list < plan.keysOffset)
    && HEADER <= |d|
    && Words(d, 0, 8) == [0, version, plan.keysOffset, NULL, plan.shared.init, plan.shared.init, NULL, NULL]
  }

  method MakeCatalog(count: nat, version: nat, labels: Labels)
    returns (r: Result<seq<byte>>, ghost facts: Facts, ghost plan: Plan)
    ensures r.Ok? ==> Written(r.value, facts, labels, count, version, plan) && |r.value| == FileSize(labels, count)
    ensures LabelsAscii(labels) && version < 0x8000_0000 && FileSize(labels, count) < 0x4000_0000 ==> r.Ok?
  {
    hide LaidOut, AllLaidOut, SharedWritten, ChainWritten, AssetWritten, AssetsWritten, IndexWritten, AllAscii,
      AsciiOnly, SharedSize, TailSize, AssetSize;
    facts, plan := {}, NOTHING;
    var w := new CatalogWriter();
    var s :- PutShared(w, labels);
    ghost var sharedFacts := w.facts;
    var started, links := PutTail(w, labels.folders);
    var tail :- started;
    ghost var tailFacts := w.facts;
    var keys: seq<nat> := [];
    ghost var assets: seq<AssetSpot> := [];
    NoAssets(w.facts, labels, s, tail);
    for i := 0 to count
      invariant w.Valid() && tailFacts <= w.facts
      invariant |w.data| == HEADER + SharedSize(labels) + TailSize(labels.folders) + AssetsSize(labels, i)
      invariant SharedBelow(s, |w.data|) && (tail == NULL || tail < |w.data|)
      invariant AssetsWritten(w.facts, labels, s, tail, assets) && |assets| == i
      invariant forall a | a in assets :: a.list < |w.data|
      invariant IndexWritten(assets, keys) && |keys| == 4 * i
      invariant forall k :: 0 <= k < |keys| ==> keys[k] < |w.data|
    {
      AssetFits(labels, i, count);
      ghost var before := w.facts;
      var put, a := PutAsset(w, labels, s, tail, i);
      var offsets :- put;
      var (list, pathKey, guidKey) := offsets;
      AssetAdded(before, w.facts, labels, s, tail, assets, keys, a);
      assets := assets + [a];
      keys := keys + [pathKey, list, guidKey, list];
    }
    ghost var assetFacts := w.facts;
    var keysOffset :- w.PutOffsets(keys);
    var _ :- w.PatchHeader([0, version, keysOffset, NULL, s.init, s.init, NULL, NULL]);
    plan := Plan(s, links, assets, keys, keysOffset);
    facts := w.facts;
    WrittenKept(sharedFacts, tailFacts, assetFacts, facts, labels, plan);
    return Ok(w.data), facts, plan;
  }

  lemma WrittenKept(sharedFacts: Facts, tailFacts: Facts, assetFacts: Facts, facts: Facts, labels: Labels, plan: Plan)
    requires sharedFacts <= tailFacts <= assetFacts <= facts
    requires SharedWritten(sharedFacts, labels, plan.shared)
    requires ChainWritten(tailFacts, plan.links, Reverse(labels.folders))
    requires AssetsWritten(assetFacts, labels, plan.shared, FirstRecord(plan.links), plan.assets)
    ensures SharedWritten(facts, labels, plan.shared)
    ensures ChainWritten(facts, plan.links, Reverse(labels.folders))
    ensures AssetsWritten(facts, labels, plan.shared, FirstRecord(plan.links), plan.assets)
  {
    AssetsKept(assetFacts, facts, labels, plan.shared, FirstRecord(plan.links), plan.assets);
  }
}
