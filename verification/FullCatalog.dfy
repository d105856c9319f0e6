/** A whole catalog with something different in every field, written and read by both back ends. */
module FullCatalog {
  import opened Wrappers
  import opened Bytes
  import opened StringSpec
  import opened RecordSpec
  import opened Graph
  import opened Objects
  import opened Dicts
  import opened ResourceMap
  import opened MapFrames
  import opened Writer
  import opened RoundTrip
  import opened References
  import opened TextForms
  import opened RecordForms
  import opened Backends
  import opened CatalogFile

  /** An initialization record: strings that are no linked paths, and a type. */
  datatype InitContent = InitContent(id: Piece, t: TypeTexts, data: Piece)

  datatype LocationContent = LocationContent(
    primaryKey: Text, internalId: Text, provider: Text, dependencyHash: int, data: Content, resourceType: TypeTexts)

  datatype FileContent = FileContent(
    magic: nat, locatorId: Piece, buildHash: Piece, instance: InitContent, scene: InitContent,
    providers: seq<InitContent>, key: Content, location: LocationContent)

  // ----- What each part denotes

  predicate InitIs(utf16: Decoder, version: nat, i: InitData<Entry>, c: InitContent) {
    && PieceText(utf16, c.id) == Ok(i.id) && PieceText(utf16, c.data) == Ok(i.data)
    && TypeMeant(utf16, version, c.t).Ok? && i.objectType == TypeEntry(TypeMeant(utf16, version, c.t).value)
  }

  predicate DataIs(utf16: Decoder, version: nat, d: CatalogData<Entry>, c: FileContent) {
    && d.version == version
    && PieceText(utf16, c.locatorId) == Ok(d.locatorId) && PieceText(utf16, c.buildHash) == Ok(d.buildResultHash)
    && InitIs(utf16, version, d.instanceProvider, c.instance) && InitIs(utf16, version, d.sceneProvider, c.scene)
    && |d.resourceProviders| == |c.providers|
    && forall i :: 0 <= i < |c.providers| ==> InitIs(utf16, version, d.resourceProviders[i], c.providers[i])
  }

  ghost predicate AttributesAre(utf16: Decoder, version: nat, a: Attributes, c: LocationContent) {
    && Meant(utf16, '/' as byte, version, c.internalId) == Ok(a.internalId)
    && Meant(utf16, '/' as byte, version, c.primaryKey) == Ok(a.primaryKey)
    && Meant(utf16, '.' as byte, version, c.provider) == Ok(a.providerId)
    && a.dependencyHash == c.dependencyHash
    && TypeMeant(utf16, version, c.resourceType).Ok?
    && a.resourceType == TypeEntry(TypeMeant(utf16, version, c.resourceType).value)
    && IsObject(utf16, version, a.data, a.dataType, c.data)
  }

  /** The catalog that was written: one key with one location. */
  ghost predicate CatalogIs(utf16: Decoder, version: nat, catalog: Catalog, c: FileContent) {
    && DataIs(utf16, version, catalog.data, c)
    && |catalog.resources| == 1
    && catalog.resources[0].key.Made?
    && (c.key.Nothing? ==> catalog.resources[0].key == Made(NoneValue))
    && (c.key.Typed? ==> IsData(utf16, version, catalog.resources[0].key, c.key.payload))
    && |catalog.resources[0].value.items| == 1
    && catalog.resources[0].value.items[0].LocationEntry?
    && AttributesAre(utf16, version, catalog.resources[0].value.items[0].location.attributes, c.location)
    && catalog.resources[0].value.items[0].location.dependencies == []
  }

  // ----- Contents that can be decoded

  predicate InitReadable(utf16: Decoder, version: nat, c: InitContent) {
    PieceText(utf16, c.id).Ok? && PieceText(utf16, c.data).Ok? && TypeMeant(utf16, version, c.t).Ok?
  }

  predicate LocationReadable(utf16: Decoder, version: nat, builtin: string -> Kind, c: LocationContent) {
    && Meant(utf16, '/' as byte, version, c.internalId).Ok?
    && Meant(utf16, '/' as byte, version, c.primaryKey).Ok?
    && Meant(utf16, '.' as byte, version, c.provider).Ok?
    && TypeMeant(utf16, version, c.resourceType).Ok?
    && Known(utf16, version, builtin, c.data)
    && -0x8000_0000 <= c.dependencyHash < 0x8000_0000
  }

  predicate Readable(utf16: Decoder, version: nat, builtin: string -> Kind, c: FileContent) {
    && PieceText(utf16, c.locatorId).Ok? && PieceText(utf16, c.buildHash).Ok?
    && InitReadable(utf16, version, c.instance) && InitReadable(utf16, version, c.scene)
    && (forall i :: 0 <= i < |c.providers| ==> InitReadable(utf16, version, c.providers[i]))
    && Known(utf16, version, builtin, c.key) && LocationReadable(utf16, version, builtin, c.location)
  }

  // ----- Writing them

  ghost predicate InitStored(facts: Facts, c: InitContent, o: nat, mark: nat) {
    exists id: nat, t: nat, data: nat ::
      (o, Record([id, t, data])) in facts && t < mark
      && PieceWritten(facts, c.id, id) && TypeStored(facts, c.t, t) && PieceWritten(facts, c.data, data)
  }

  ghost predicate InitsStored(facts: Facts, cs: seq<InitContent>, os: seq<nat>, mark: nat) {
    |os| == |cs| && forall i :: 0 <= i < |cs| ==> InitStored(facts, cs[i], os[i], mark)
  }

  /** Where a location and what it refers to were written. */
  datatype LocationSpot = LocationSpot(
    primaryKey: nat, internalId: nat, provider: nat, data: Spot, resourceType: nat, record: nat)

  function HashWord(n: int): nat {
    n % 0x1_0000_0000
  }

  ghost predicate LocationStored(facts: Facts, c: LocationContent, s: LocationSpot) {
    && TextWritten(facts, c.primaryKey, s.primaryKey)
    && TextWritten(facts, c.internalId, s.internalId)
    && TextWritten(facts, c.provider, s.provider)
    && Stored(facts, c.data, s.data) && TypeStored(facts, c.resourceType, s.resourceType)
    && (s.record, Record([s.primaryKey, s.internalId, s.provider, NULL, HashWord(c.dependencyHash), s.data.record,
                          s.resourceType])) in facts
  }

  /** Where everything was written. Types lie below the mark and all other records above it. */
  datatype Spots = Spots(
    locatorId: nat, buildHash: nat, instance: nat, scene: nat, providers: seq<nat>, mark: nat, key: Spot,
    location: LocationSpot, providerList: nat, list: nat, index: nat)

  ghost predicate FileStored(facts: Facts, c: FileContent, s: Spots) {
    && PieceWritten(facts, c.locatorId, s.locatorId) && PieceWritten(facts, c.buildHash, s.buildHash)
    && InitStored(facts, c.instance, s.instance, s.mark) && InitStored(facts, c.scene, s.scene, s.mark)
    && InitsStored(facts, c.providers, s.providers, s.mark)
    && Stored(facts, c.key, s.key) && LocationStored(facts, c.location, s.location)
    && (s.providerList, Table(s.providers)) in facts
    && (s.list, Table([s.location.record])) in facts
    && (s.index, Table([s.key.record, s.list])) in facts
  }

  /** The order of the records, which keeps records of different kinds apart. */
  ghost predicate InOrder(c: FileContent, s: Spots) {
    && s.key.t < s.mark && s.location.data.t < s.mark && s.location.resourceType < s.mark
    && (c.location.data.Typed? && c.location.data.payload.OptionsOf? ==>
          s.mark <= s.location.data.common < s.location.data.payload < s.location.record)
    && HEADER < s.mark <= s.location.record < s.providerList < s.list < s.index
  }

  function InitSize(c: InitContent): nat {
    PieceSize(c.id) + TypeTextsSize(c.t) + PieceSize(c.data) + 12
  }

  function InitsSize(cs: seq<InitContent>): nat {
    if cs == [] then 0 else InitsSize(cs[..|cs| - 1]) + InitSize(cs[|cs| - 1])
  }

  function TypeSizeOf(c: Content): nat {
    if c.Nothing? then 0 else TypeTextsSize(c.t)
  }

  function LocationSize(c: LocationContent): nat {
    TextSize(c.primaryKey) + TextSize(c.internalId) + TextSize(c.provider) + ContentSize(c.data) + 28
  }

  function HeadSize(c: FileContent): nat {
    PieceSize(c.locatorId) + PieceSize(c.buildHash) + InitSize(c.instance) + InitSize(c.scene) + InitsSize(c.providers)
  }

  function TypesSize(c: FileContent): nat {
    TypeSizeOf(c.key) + TypeSizeOf(c.location.data) + TypeTextsSize(c.location.resourceType)
  }

  function FileSize(c: FileContent): nat {
    HEADER + HeadSize(c) + TypesSize(c) + ContentSize(c.key) + LocationSize(c.location) + 4 * |c.providers| + 24
  }

  lemma InitStays(facts: Facts, more: Facts, c: InitContent, o: nat, mark: nat, later: nat)
    requires facts <= more && InitStored(facts, c, o, mark) && mark <= later
    ensures InitStored(more, c, o, later)
  {
    hide TypeStored;
    TypesStay(facts, more);
    var id: nat, t: nat, data: nat :| (o, Record([id, t, data])) in facts && t < mark && PieceWritten(facts, c.id, id)
                       && TypeStored(facts, c.t, t) && PieceWritten(facts, c.data, data);
    assert PieceWritten(more, c.id, id) && PieceWritten(more, c.data, data);
  }

  lemma InitsStay(facts: Facts, more: Facts, cs: seq<InitContent>, os: seq<nat>, mark: nat, later: nat)
    requires facts <= more && InitsStored(facts, cs, os, mark) && mark <= later
    ensures InitsStored(more, cs, os, later)
  {
    hide InitStored;
    forall i | 0 <= i < |cs|
      ensures InitStored(more, cs[i], os[i], later)
    {
      InitStays(facts, more, cs[i], os[i], mark, later);
    }
  }

  lemma LocationStays(facts: Facts, more: Facts, c: LocationContent, s: LocationSpot)
    requires facts <= more && LocationStored(facts, c, s)
    ensures LocationStored(more, c, s)
  {
    hide TextWritten, Stored, TypeStored;
    TextsStay(facts, more);
    TypesStay(facts, more);
    StoredStays(facts, more);
  }

  method PutInit(w: CatalogWriter, c: InitContent) returns (r: Result<nat>)
    requires w.Valid()
    modifies w
    ensures w.Valid() && old(w.facts) <= w.facts && |old(w.data)| <= |w.data|
    ensures r.Ok? ==> InitStored(w.facts, c, r.value, |w.data|) && |w.data| == |old(w.data)| + InitSize(c)
    ensures r.Ok? && |w.data| < 0x4000_0000 ==> r.value <= NULL
    ensures |old(w.data)| + InitSize(c) < 0x4000_0000 ==> r.Ok?
  {
    hide LaidOut, AllLaidOut, TypeStored;
    var id :- PutPiece(w, c.id);
    var t :- PutTypeTexts(w, c.t);
    ghost var before := w.facts;
    var data :- PutPiece(w, c.data);
    r := w.PutRecord([id, t, data], {});
    TypesStay(before, w.facts);
  }

  method PutInits(w: CatalogWriter, cs: seq<InitContent>) returns (r: Result<seq<nat>>)
    requires w.Valid()
    modifies w
    ensures w.Valid() && old(w.facts) <= w.facts && |old(w.data)| <= |w.data|
    ensures r.Ok? ==> InitsStored(w.facts, cs, r.value, |w.data|) && |w.data| == |old(w.data)| + InitsSize(cs)
    ensures r.Ok? ==> |r.value| == |cs| && (|w.data| < 0x4000_0000 ==> Packable(r.value, {}))
    ensures |old(w.data)| + InitsSize(cs) < 0x4000_0000 ==> r.Ok?
  {
    hide LaidOut, AllLaidOut, InitStored;
    var os := [];
    for i := 0 to |cs|
      invariant w.Valid() && old(w.facts) <= w.facts && |old(w.data)| <= |w.data|
      invariant InitsStored(w.facts, cs[..i], os, |w.data|) && |w.data| == |old(w.data)| + InitsSize(cs[..i])
      invariant InitsSize(cs[..i]) <= InitsSize(cs)
      invariant |w.data| < 0x4000_0000 ==> Packable(os, {})
    {
      InitsFit(cs, i);
      ghost var before, mark := w.facts, |w.data|;
      var o :- PutInit(w, cs[i]);
      InitsStay(before, w.facts, cs[..i], os, mark, |w.data|);
      assert forall k :: 0 <= k < i ==> cs[..i][k] == cs[..i + 1][k];
      os := os + [o];
    }
    assert cs[..|cs|] == cs;
    return Ok(os);
  }

  lemma {:induction false} InitsFit(cs: seq<InitContent>, i: nat)
    requires i < |cs|
    ensures InitsSize(cs[..i + 1]) == InitsSize(cs[..i]) + InitSize(cs[i]) <= InitsSize(cs)
    decreases |cs| - i
  {
    assert cs[..i + 1][..i] == cs[..i];
    if i + 1 < |cs| {
      InitsFit(cs, i + 1);
    } else {
      assert cs[..i + 1] == cs;
    }
  }

  /** The header's strings and initialization records. */
  method PutHead(w: CatalogWriter, c: FileContent) returns (r: Result<(nat, nat, nat, nat, seq<nat>)>)
    requires w.Valid()
    modifies w
    ensures w.Valid() && old(w.facts) <= w.facts && |old(w.data)| <= |w.data|
    ensures r.Ok? ==>
              var (locatorId, buildHash, instance, scene, providers) := r.value;
              && PieceWritten(w.facts, c.locatorId, locatorId) && PieceWritten(w.facts, c.buildHash, buildHash)
              && InitStored(w.facts, c.instance, instance, |w.data|)
              && InitStored(w.facts, c.scene, scene, |w.data|)
              && InitsStored(w.facts, c.providers, providers, |w.data|)
              && |providers| == |c.providers| && |w.data| == |old(w.data)| + HeadSize(c)
              && (|w.data| < 0x4000_0000 ==>
                    && locatorId <= NULL && buildHash <= NULL && instance <= NULL && scene <= NULL
                    && Packable(providers, {}))
    ensures |old(w.data)| + HeadSize(c) < 0x4000_0000 ==> r.Ok?
  {
    hide LaidOut, AllLaidOut, InitStored, InitsStored, InitSize;
    var locatorId :- PutPiece(w, c.locatorId);
    var buildHash :- PutPiece(w, c.buildHash);
    var instance :- PutInit(w, c.instance);
    ghost var first, one := w.facts, |w.data|;
    var scene :- PutInit(w, c.scene);
    ghost var second, two := w.facts, |w.data|;
    var providers :- PutInits(w, c.providers);
    InitStays(first, w.facts, c.instance, instance, one, |w.data|);
    InitStays(second, w.facts, c.scene, scene, two, |w.data|);
    return Ok((locatorId, buildHash, instance, scene, providers));
  }

  method PutTypeOf(w: CatalogWriter, c: Content) returns (r: Result<nat>)
    requires w.Valid()
    modifies w
    ensures w.Valid() && old(w.facts) <= w.facts && |old(w.data)| <= |w.data|
    ensures r.Ok? ==> |w.data| == |old(w.data)| + TypeSizeOf(c) && r.value < |w.data|
    ensures r.Ok? && c.Typed? ==> TypeStored(w.facts, c.t, r.value)
    ensures |old(w.data)| + TypeSizeOf(c) < 0x4000_0000 ==> r.Ok?
  {
    if c.Nothing? {
      return Ok(0);
    }
    r := PutTypeTexts(w, c.t);
  }

  /** The types of key, data and location. */
  method PutTypes(w: CatalogWriter, c: FileContent) returns (r: Result<(nat, nat, nat)>)
    requires w.Valid()
    modifies w
    ensures w.Valid() && old(w.facts) <= w.facts && |old(w.data)| <= |w.data|
    ensures r.Ok? ==>
              && (c.key.Typed? ==> TypeStored(w.facts, c.key.t, r.value.0))
              && (c.location.data.Typed? ==> TypeStored(w.facts, c.location.data.t, r.value.1))
              && TypeStored(w.facts, c.location.resourceType, r.value.2)
              && r.value.0 < |w.data| && r.value.1 < |w.data| && |old(w.data)| <= r.value.2 < |w.data|
              && |w.data| == |old(w.data)| + TypesSize(c)
    ensures |old(w.data)| + TypesSize(c) < 0x4000_0000 ==> r.Ok?
  {
    hide LaidOut, AllLaidOut, TypeStored, TypeTextsSize;
    var key :- PutTypeOf(w, c.key);
    ghost var first := w.facts;
    var data :- PutTypeOf(w, c.location.data);
    ghost var second := w.facts;
    var t :- PutTypeTexts(w, c.location.resourceType);
    TypesStay(first, w.facts);
    TypesStay(second, w.facts);
    return Ok((key, data, t));
  }

  method PutLocation(w: CatalogWriter, c: LocationContent, dataType: nat, t: nat) returns (r: Result<LocationSpot>)
    requires w.Valid() && TypeStored(w.facts, c.resourceType, t) && dataType <= |w.data| && t <= |w.data|
    requires c.data.Typed? ==> PayloadFits(c.data.payload) && TypeStored(w.facts, c.data.t, dataType)
    modifies w
    ensures w.Valid() && old(w.facts) <= w.facts && |old(w.data)| <= |w.data|
    ensures r.Ok? ==> LocationStored(w.facts, c, r.value) && |w.data| == |old(w.data)| + LocationSize(c)
    ensures r.Ok? ==> r.value.data.t == dataType && r.value.resourceType == t
    ensures r.Ok? ==> |old(w.data)| <= r.value.record < |w.data|
    ensures r.Ok? && c.data.Typed? && c.data.payload.OptionsOf? ==>
              |old(w.data)| <= r.value.data.common < r.value.data.payload < r.value.record
    ensures |old(w.data)| + LocationSize(c) < 0x4000_0000 ==> r.Ok?
  {
    hide LaidOut, AllLaidOut, TypeStored, TextWritten, Stored, PayloadFits, TextSize, ContentSize;
    ghost var start := w.facts;
    var primaryKey :- PutText(w, c.primaryKey);
    ghost var first := w.facts;
    var internalId :- PutText(w, c.internalId);
    ghost var second := w.facts;
    var provider :- PutText(w, c.provider);
    ghost var third := w.facts;
    TypesStay(start, w.facts);
    var data :- PutContent(w, c.data, dataType);
    ghost var fourth := w.facts;
    var record :- w.PutRecord([primaryKey, internalId, provider, NULL, HashWord(c.dependencyHash), data.record, t],
                              {});
    TypesStay(start, w.facts);
    TextsStay(first, w.facts);
    TextsStay(second, w.facts);
    TextsStay(third, w.facts);
    StoredStays(fourth, w.facts);
    return Ok(LocationSpot(primaryKey, internalId, provider, data, t, record));
  }

  /** The array of providers, the one list of locations and the index. */
  method PutLists(w: CatalogWriter, providers: seq<nat>, location: nat, key: nat) returns (r: Result<(nat, nat, nat)>)
    requires w.Valid() && location < |w.data|
    modifies w
    ensures w.Valid() && old(w.facts) <= w.facts && |old(w.data)| <= |w.data|
    ensures r.Ok? ==>
              && (r.value.0, Table(providers)) in w.facts && (r.value.1, Table([location])) in w.facts
              && (r.value.2, Table([key, r.value.1])) in w.facts
              && |old(w.data)| < r.value.0 < r.value.1 < r.value.2 < |w.data|
              && |w.data| == |old(w.data)| + 4 * |providers| + 24
    ensures |old(w.data)| + 4 * |providers| + 24 < 0x4000_0000 && Packable(providers, {}) && key <= NULL ==> r.Ok?
  {
    hide LaidOut, AllLaidOut;
    var providerList :- w.PutOffsets(providers);
    var list :- w.PutOffsets([location]);
    var index :- w.PutOffsets([key, list]);
    return Ok((providerList, list, index));
  }

  method WriteFull(version: nat, c: FileContent) returns (r: Result<seq<byte>>, ghost facts: Facts, ghost s: Spots)
    requires c.key.Typed? ==> PayloadFits(c.key.payload)
    requires c.location.data.Typed? ==> PayloadFits(c.location.data.payload)
    ensures r.Ok? ==>
              && AllLaidOut(r.value, facts) && HEADER <= |r.value| == FileSize(c)
              && FileStored(facts, c, s) && InOrder(c, s)
              && Words(r.value, 0, 8) ==
                 [c.magic, version, s.index, s.locatorId, s.instance, s.scene, s.providerList, s.buildHash]
    ensures c.magic < 0x8000_0000 && version < 0x8000_0000 && FileSize(c) < 0x4000_0000 ==> r.Ok?
  {
    hide LaidOut, AllLaidOut, InitStored, InitsStored, TypeStored, Stored, LocationStored, PieceWritten, HeadSize,
      TypesSize, LocationSize, ContentSize, PayloadFits;
    facts, s := {}, Spots(0, 0, 0, 0, [], 0, Spot(0, 0, 0, 0), LocationSpot(0, 0, 0, Spot(0, 0, 0, 0), 0, 0), 0, 0, 0);
    var w := new CatalogWriter();
    var head :- PutHead(w, c);
    var (locatorId, buildHash, instance, scene, providers) := head;
    ghost var first, one := w.facts, |w.data|;
    var types :- PutTypes(w, c);
    ghost var second, mark := w.facts, |w.data|;
    var key :- PutContent(w, c.key, types.0);
    ghost var third := w.facts;
    TypesStay(second, w.facts);
    var location :- PutLocation(w, c.location, types.1, types.2);
    ghost var fourth := w.facts;
    var lists :- PutLists(w, providers, location.record, key.record);
    var (providerList, list, index) := lists;
    HeadStays(first, w.facts, c, locatorId, buildHash, instance, scene, providers, one, mark);
    StoredStays(third, w.facts);
    LocationStays(fourth, w.facts, c.location, location);
    var _ :- w.PatchHeader([c.magic, version, index, locatorId, instance, scene, providerList, buildHash]);
    s := Spots(locatorId, buildHash, instance, scene, providers, mark, key, location, providerList, list, index);
    return Ok(w.data), w.facts, s;
  }

  lemma HeadStays(facts: Facts, more: Facts, c: FileContent, locatorId: nat, buildHash: nat, instance: nat, scene: nat,
                  providers: seq<nat>, mark: nat, later: nat)
    requires facts <= more && mark <= later
    requires PieceWritten(facts, c.locatorId, locatorId) && PieceWritten(facts, c.buildHash, buildHash)
    requires InitStored(facts, c.instance, instance, mark) && InitStored(facts, c.scene, scene, mark)
    requires InitsStored(facts, c.providers, providers, mark)
    ensures PieceWritten(more, c.locatorId, locatorId) && PieceWritten(more, c.buildHash, buildHash)
    ensures InitStored(more, c.instance, instance, later) && InitStored(more, c.scene, scene, later)
    ensures InitsStored(more, c.providers, providers, later)
  {
    hide InitStored, InitsStored;
    InitStays(facts, more, c.instance, instance, mark, later);
    InitStays(facts, more, c.scene, scene, mark, later);
    InitsStay(facts, more, c.providers, providers, mark, later);
  }

  // ----- Reading them

  lemma InitReads(img: Image, facts: Facts, c: InitContent, o: nat, mark: nat, i: InitData<Entry>)
    requires Holding(img, facts) && InitStored(facts, c, o, mark) && InitReadable(img.utf16, img.version, c)
    ensures InitAt(img, o).Ok? && InitType(img, o).Some? && InitType(img, o).value < mark
    ensures AsInit(i) == Some(InitAt(img, o).value) ==> InitIs(img.utf16, img.version, i, c)
  {
    hide Holding, TypeStored, PieceWritten, TypeAt, TypeMeant, PieceText, Encoded;
    var id: nat, t: nat, data: nat :| (o, Record([id, t, data])) in facts && t < mark && PieceWritten(facts, c.id, id)
                       && TypeStored(facts, c.t, t) && PieceWritten(facts, c.data, data);
    RecordMeans(img, facts, o, [id, t, data]);
    PieceReads(img, facts, c.id, id, 0);
    PieceReads(img, facts, c.data, data, 0);
    TypeReads(img, facts, c.t, t);
  }

  lemma {:induction false} InitsRead(img: Image, facts: Facts, cs: seq<InitContent>, os: seq<nat>, mark: nat, n: nat,
                                     inits: seq<InitData<Entry>>)
    requires Holding(img, facts) && InitsStored(facts, cs, os, mark) && n <= |cs|
    requires forall k :: 0 <= k < |cs| ==> InitReadable(img.utf16, img.version, cs[k])
    ensures InitsAt(img, os, n).Ok?
    ensures AsInits(inits) == Some(InitsAt(img, os, n).value) ==>
              |inits| == n && forall k :: 0 <= k < n ==> InitIs(img.utf16, img.version, inits[k], cs[k])
  {
    hide Holding, InitStored, InitReadable, InitAt, InitType, InitIs, AsInit;
    if n == 0 {
      assert inits != [] && AsInits(inits).Some? ==> AsInits(inits).value != [];
    } else {
      assert InitReadable(img.utf16, img.version, cs[n - 1]);
      var last := if inits == [] then InitData(None, ArrayEntry([]), None) else inits[|inits| - 1];
      var before := if inits == [] then [] else inits[..|inits| - 1];
      InitReads(img, facts, cs[n - 1], os[n - 1], mark, last);
      InitsRead(img, facts, cs, os, mark, n - 1, before);
      if AsInits(inits) == Some(InitsAt(img, os, n).value) {
        var all := InitsAt(img, os, n).value;
        assert inits != [];
        assert all == AsInits(before).value + [AsInit(last).value]
            == InitsAt(img, os, n - 1).value + [InitAt(img, os[n - 1]).value];
        assert all[..|all| - 1] == AsInits(before).value == InitsAt(img, os, n - 1).value;
        assert all[|all| - 1] == AsInit(last).value == InitAt(img, os[n - 1]).value;
        assert forall k :: 0 <= k < n - 1 ==> inits[k] == before[k];
      }
    }
  }

  lemma LocationReads(img: Image, facts: Facts, c: LocationContent, s: LocationSpot, a: Attributes)
    requires Holding(img, facts) && LocationStored(facts, c, s)
    requires LocationReadable(img.utf16, img.version, img.builtin, c)
    ensures ReadU32s(img.data, s.record, 7) ==
            Ok([s.primaryKey, s.internalId, s.provider, NULL, HashWord(c.dependencyHash), s.data.record,
                s.resourceType])
    ensures FieldsAt(img, s.record).Ok? && DepsAt(img, s.record) == Ok([])
    ensures AsFields(a) == Some(FieldsAt(img, s.record).value) ==> AttributesAre(img.utf16, img.version, a, c)
  {
    hide Holding, TextWritten, Stored, TypeStored, Meant, TypeMeant, Encoded, TypeAt, ObjectAt, Known, IsObject,
      AsTyped;
    RecordMeans(img, facts, s.record,
                [s.primaryKey, s.internalId, s.provider, NULL, HashWord(c.dependencyHash), s.data.record,
                 s.resourceType]);
    TextReads(img, facts, c.primaryKey, s.primaryKey, '/' as byte);
    TextReads(img, facts, c.internalId, s.internalId, '/' as byte);
    TextReads(img, facts, c.provider, s.provider, '.' as byte);
    ObjectReads(img, facts, c.data, s.data, a.data, a.dataType);
    TypeReads(img, facts, c.resourceType, s.resourceType);
    NumbersRead(c.dependencyHash);
  }

  function HeaderOf(version: nat, s: Spots): Header {
    Header(version, s.index, s.locatorId, s.instance, s.scene, s.providerList, s.buildHash)
  }

  lemma HeaderReads(d: seq<byte>, version: nat, c: FileContent, s: Spots)
    requires |d| >= 32 && InOrder(c, s) && 1 <= version <= 3
    requires Words(d, 0, 8) ==
             [c.magic, version, s.index, s.locatorId, s.instance, s.scene, s.providerList, s.buildHash]
    ensures ReadHeader(d) == Ok(HeaderOf(version, s))
  {
    var words := Words(d, 0, 8);
    assert U32(d, 4) == words[1] && U32(d, 8) == words[2] && U32(d, 12) == words[3] && U32(d, 16) == words[4];
    assert U32(d, 20) == words[5] && U32(d, 24) == words[6] && U32(d, 28) == words[7];
  }

  /** The number in the word at place i of a header. */
  function HeaderWord(d: seq<byte>, i: nat): nat
    requires 4 * i + 4 <= |d|
  {
    LittleEndian(d[4 * i..4 * i + 4])
  }

  /** Which headers are read, and the one kind that ends before its last word. */
  lemma HeaderLaw(d: seq<byte>)
    requires |d| >= 28
    ensures var version, short := TwosComplement(d[4..8]), d[4..12] == [1, 0, 0, 0, 32, 0, 0, 0];
            && (ReadHeader(d).Ok? <==> 1 <= version <= 3 && (|d| >= 32 || short))
            && (ReadHeader(d).Ok? ==>
                  ReadHeader(d).value ==
                  Header(version, HeaderWord(d, 2), HeaderWord(d, 3), HeaderWord(d, 4), HeaderWord(d, 5),
                         HeaderWord(d, 6), if short then 0xFFFF_FFFF else HeaderWord(d, 7)))
  {
    hide LittleEndian, TwosComplement;
    U32Is(d, 4);
    U32Is(d, 8);
    U32Is(d, 12);
    U32Is(d, 16);
    U32Is(d, 20);
    U32Is(d, 24);
    if |d| >= 32 {
      U32Is(d, 28);
    }
    ShortHeader(d);
  }

  lemma ShortHeader(d: seq<byte>)
    requires |d| >= 28
    ensures d[4..12] == [1, 0, 0, 0, 32, 0, 0, 0] <==> U32(d, 4) == 1 && U32(d, 8) == 32
  {
    var s := d[4..12];
    assert s[0] == d[4] && s[1] == d[5] && s[2] == d[6] && s[3] == d[7];
    assert s[4] == d[8] && s[5] == d[9] && s[6] == d[10] && s[7] == d[11];
  }

  lemma DataReads(img: Image, facts: Facts, c: FileContent, s: Spots, d: CatalogData<Entry>)
    requires Holding(img, facts) && FileStored(facts, c, s) && Readable(img.utf16, img.version, img.builtin, c)
    ensures DataAt(img, HeaderOf(img.version, s)).Ok?
    ensures AsData(d) == Some(DataAt(img, HeaderOf(img.version, s)).value) ==> DataIs(img.utf16, img.version, d, c)
  {
    hide Holding, InitStored, InitsStored, Stored, LocationStored, LocationReadable, Known, PieceWritten, PieceText,
      InitReadable, InitAt, InitsAt, InitIs, AsInit, AsInits, Encoded, ArrayAt;
    ProvidersListed(img, facts, c, s);
    PieceReads(img, facts, c.locatorId, s.locatorId, 0);
    PieceReads(img, facts, c.buildHash, s.buildHash, 0);
    InitReads(img, facts, c.instance, s.instance, s.mark, d.instanceProvider);
    InitReads(img, facts, c.scene, s.scene, s.mark, d.sceneProvider);
    InitsRead(img, facts, c.providers, s.providers, s.mark, |c.providers|, d.resourceProviders);
  }

  lemma ProvidersListed(img: Image, facts: Facts, c: FileContent, s: Spots)
    requires Holding(img, facts) && FileStored(facts, c, s)
    ensures ArrayAt(img, s.providerList) == Ok(s.providers) && |s.providers| == |c.providers|
  {
    hide AllLaidOut, InitStored, Stored, LocationStored, PieceWritten, ArrayAt;
    TableMeans(img, facts, s.providerList, s.providers);
  }

  /** What the index and its one pair read as. */
  ghost predicate IndexReads(img: Image, s: Spots) {
    && PairsAt(img, s.index) == Ok([s.key.record, s.list])
    && ArrayAt(img, s.list) == Ok([s.location.record])
    && ObjectAt(img, s.key.record).Ok?
    && Entries(img, s.index) == Ok([KeySlot(Made(ObjectAt(img, s.key.record).value.0), [s.location.record])])
    && ParsesWithin(img, s.index, 1)
  }

  lemma IndexIs(img: Image, facts: Facts, c: FileContent, s: Spots)
    requires Holding(img, facts) && FileStored(facts, c, s) && Readable(img.utf16, img.version, img.builtin, c)
    requires c.key.Typed? ==> !c.key.payload.OptionsOf?
    ensures IndexReads(img, s)
  {
    hide Holding, InitStored, InitsStored, Stored, LocationStored, LocationReadable, Known, PieceWritten, PieceText,
      InitReadable, ObjectAt, ArrayAt, FieldsAt, DepsAt, AsTyped, AsFields, IsObject, AttributesAre;
    TableMeans(img, facts, s.list, [s.location.record]);
    TableMeans(img, facts, s.index, [s.key.record, s.list]);
    ObjectReads(img, facts, c.key, s.key, Made(NoneValue), None);
    LocationReads(img, facts, c.location, s.location,
                  Attributes(None, None, Made(NoneValue), 0, None, ArrayEntry([]), None));
    var pairs := [s.key.record, s.list];
    assert PairsAt(img, s.index) == Ok(pairs);
    assert Decodable(Records(img), s.location.record, 1);
    assert PairReads(img, s.key.record, s.list);
    PairAdds(img, pairs, 0, []);
    var entries := [KeySlot(Made(ObjectAt(img, s.key.record).value.0), [s.location.record])];
    assert [] + entries == entries && EntriesOf(img, pairs, 1) == Ok([] + entries);
    assert Entries(img, s.index) == Ok(entries);
  }

  // ----- Each offset is used as one kind of record

  ghost function RolesOf(c: FileContent, s: Spots): Roles {
    (map o | o in Below(s.mark) :: TypeRole)
    + (if c.location.data.Typed? && c.location.data.payload.OptionsOf?
       then map[s.location.data.common := CommonRole, s.location.data.payload := BundleRole] else map[])
    + map[s.location.record := LocationRole, s.providerList := ArrayRole, s.list := ArrayRole, s.index := ArrayRole]
  }

  lemma RolesAre(c: FileContent, s: Spots)
    requires InOrder(c, s)
    ensures forall o: nat | o < s.mark :: HasRole(RolesOf(c, s), o, TypeRole)
    ensures forall o: nat :: HasRole(RolesOf(c, s), o, LocationRole) <==> o == s.location.record
    ensures forall o: nat :: HasRole(RolesOf(c, s), o, BundleRole) <==>
              c.location.data.Typed? && c.location.data.payload.OptionsOf? && o == s.location.data.payload
    ensures c.location.data.Typed? && c.location.data.payload.OptionsOf? ==>
              HasRole(RolesOf(c, s), s.location.data.common, CommonRole)
    ensures HasRole(RolesOf(c, s), s.providerList, ArrayRole) && HasRole(RolesOf(c, s), s.list, ArrayRole)
    ensures HasRole(RolesOf(c, s), s.index, ArrayRole)
  {
  }

  lemma InitHasType(img: Image, facts: Facts, c: FileContent, s: Spots, content: InitContent, o: nat)
    requires Holding(img, facts) && InOrder(c, s)
    requires InitStored(facts, content, o, s.mark) && InitReadable(img.utf16, img.version, content)
    ensures InitDisciplined(img, RolesOf(c, s), o)
  {
    hide Holding, InitStored, InitReadable, InOrder, RolesOf, InitAt, InitType;
    RolesAre(c, s);
    InitReads(img, facts, content, o, s.mark, InitData(None, ArrayEntry([]), None));
  }

  lemma HeaderApart(img: Image, facts: Facts, c: FileContent, s: Spots)
    requires Holding(img, facts) && FileStored(facts, c, s) && InOrder(c, s)
    requires Readable(img.utf16, img.version, img.builtin, c)
    ensures HeaderDisciplined(img, RolesOf(c, s), HeaderOf(img.version, s))
  {
    hide Holding, InitStored, Stored, LocationStored, LocationReadable, Known, PieceWritten, PieceText, InitReadable,
      InOrder, RolesOf, ArrayAt, InitDisciplined;
    ProvidersListed(img, facts, c, s);
    RolesAre(c, s);
    InitHasType(img, facts, c, s, c.instance, s.instance);
    InitHasType(img, facts, c, s, c.scene, s.scene);
    forall o | o in s.providers
      ensures InitDisciplined(img, RolesOf(c, s), o)
    {
      var i :| 0 <= i < |s.providers| && s.providers[i] == o;
      InitHasType(img, facts, c, s, c.providers[i], o);
    }
  }

  /** A typed object whose type lies below the mark, and whose options, if it has any, have a role. */
  lemma ContentApart(img: Image, facts: Facts, c: FileContent, s: Spots, content: Content, spot: Spot)
    requires Holding(img, facts) && InOrder(c, s) && spot.t < s.mark
    requires Stored(facts, content, spot) && Known(img.utf16, img.version, img.builtin, content)
    requires content.Typed? && content.payload.OptionsOf? ==> HasRole(RolesOf(c, s), spot.payload, BundleRole)
    ensures ObjectDisciplined(img, RolesOf(c, s), spot.record)
  {
    hide Holding, InOrder, RolesOf, Known, KindAt, ObjectAt, TypeStored, PayloadFits;
    RolesAre(c, s);
    ObjectReads(img, facts, content, spot, Made(NoneValue), None);
    if content.Typed? {
      DefaultIsNull(facts, content.payload, spot);
    }
  }

  lemma DefaultIsNull(facts: Facts, p: Payload, spot: Spot)
    requires PayloadFits(p) && PayloadStored(facts, p, spot.payload, spot.common)
    ensures KindOf(p) == BundleKind && spot.payload != NULL ==> p.OptionsOf?
  {
  }

  lemma RecordsOfFileApart(img: Image, facts: Facts, c: FileContent, s: Spots)
    requires Holding(img, facts) && FileStored(facts, c, s) && InOrder(c, s)
    requires Readable(img.utf16, img.version, img.builtin, c)
    requires c.key.Typed? ==> !c.key.payload.OptionsOf?
    ensures Disciplined(img, RolesOf(c, s)) && IndexDisciplined(img, RolesOf(c, s), s.index)
    ensures IndexApart(img, RolesOf(c, s), s.index)
  {
    hide Holding, InitStored, InitsStored, LocationStored, LocationReadable, Stored, Known, PieceWritten, PieceText,
      InitReadable, RolesOf, ArrayAt, PairsAt, ObjectAt, ObjectDisciplined, FieldsAt, DepsAt, Entries, ParsesWithin;
    RolesAre(c, s);
    IndexIs(img, facts, c, s);
    ContentApart(img, facts, c, s, c.key, s.key);
    LocationApart(img, facts, c, s);
  }

  lemma LocationApart(img: Image, facts: Facts, c: FileContent, s: Spots)
    requires Holding(img, facts) && FileStored(facts, c, s) && InOrder(c, s)
    requires Readable(img.utf16, img.version, img.builtin, c)
    ensures Disciplined(img, RolesOf(c, s)) && ArraysApart(img, RolesOf(c, s))
  {
    hide Holding, InitStored, InitsStored, Stored, Known, PieceWritten, PieceText, InitReadable, RolesOf, ArrayAt,
      ObjectAt, ObjectDisciplined, FieldsAt, DepsAt, AsFields, AttributesAre, Meant, TypeMeant, TextWritten, TypeStored;
    RolesAre(c, s);
    ContentApart(img, facts, c, s, c.location.data, s.location.data);
    LocationReads(img, facts, c.location, s.location,
                  Attributes(None, None, Made(NoneValue), 0, None, ArrayEntry([]), None));
    if c.location.data.Typed? && c.location.data.payload.OptionsOf? {
      OptionsApart(img, facts, c, s);
    }
  }

  lemma OptionsApart(img: Image, facts: Facts, c: FileContent, s: Spots)
    requires Holding(img, facts) && FileStored(facts, c, s) && InOrder(c, s)
    requires c.location.data.Typed? && c.location.data.payload.OptionsOf?
    requires Readable(img.utf16, img.version, img.builtin, c)
    ensures BundleDisciplined(img, RolesOf(c, s), s.location.data.payload)
  {
    hide Holding, InitStored, InitsStored, PieceWritten, PieceText, InitReadable, RolesOf, BundleAt, Meant, TypeMeant,
      TextWritten, TypeStored, OptionsStored, MatchName, OptionsFit, AsBundle, IsBundle;
    RolesAre(c, s);
    OptionsRead(img, facts, c.location.data.payload.options, s.location.data.payload, s.location.data.common,
                Bundle("", 0, ArrayEntry([]), None, 0));
  }

  // ----- The theorem

  /** What draws the map of a written file shows its key and its location. */
  lemma CatalogHeld(img: Image, facts: Facts, c: FileContent, s: Spots, objects: map<nat, ResourceLocation>,
                    shape: Shape, catalog: Catalog)
    requires Holding(img, facts) && FileStored(facts, c, s) && Readable(img.utf16, img.version, img.builtin, c)
    requires c.key.Typed? ==> !c.key.payload.OptionsOf?
    requires DataAt(img, HeaderOf(img.version, s)).Ok? && Depicts(shape, img, s.index)
    requires AsData(catalog.data) == Some(DataAt(img, HeaderOf(img.version, s)).value)
    requires Draws(objects, shape, catalog.resources)
    ensures CatalogIs(img.utf16, img.version, catalog, c)
  {
    hide Holding, InitStored, InitsStored, Stored, LocationStored, LocationReadable, Known, PieceWritten, PieceText,
      InitReadable, ObjectAt, ArrayAt, PairsAt, ParsesWithin, FieldsAt, DepsAt, AsTyped, AsFields, AsData,
      AttributesAre, DataIs, DataAt, Entries, IsData, TypeMeant;
    DataReads(img, facts, c, s, catalog.data);
    IndexIs(img, facts, c, s);
    var o, d := s.location.record, catalog.resources;
    var key := ObjectAt(img, s.key.record).value;
    OneEntry(KeySlot(Made(key.0), [o]));
    assert shape.index == [KeySlot(Made(key.0), [o])];
    assert Placed(objects, d[0].value.items, [o]) && [o][0] in objects;
    assert d[0].value.items == [LocationEntry(objects[[o][0]])];
    LocationReads(img, facts, c.location, s.location, objects[o].attributes);
    assert Placed(objects, objects[o].dependencies, []);
    var t := if key.1.Some? then Some(TypeEntry(key.1.value)) else None;
    ObjectReads(img, facts, c.key, s.key, Made(key.0), t);
    KeyStands(key.0, key.1);
  }

  lemma OneEntry(e: Slot<Data, seq<nat>>)
    ensures Collect([e]) == [e]
  {
    assert [e][..0] == [];
  }

  lemma KeyStands(v: Value, t: Option<SerializedType>)
    requires !v.BundleValue?
    ensures AsTyped(Made(v), if t.Some? then Some(TypeEntry(t.value)) else None) == Some((v, t))
  {
  }

  /**
   * For every content that can be decoded and whose file stays below the flag bits of encoded strings:
   * writing it succeeds, and both back ends read back every field of it, the Python one if it has the
   * one frame that a location takes.
   */
  method WriteAndReadAll(version: nat, c: FileContent, buffered: bool, stack: nat, utf16: Decoder,
                       builtin: string -> Kind)
    returns (python: Result<Catalog>, native: Result<Catalog>)
    requires 1 <= version <= 3 && c.magic < 0x8000_0000 && FileSize(c) < 0x4000_0000
    requires Readable(utf16, version, builtin, c) && (c.key.Typed? ==> !c.key.payload.OptionsOf?)
    ensures native.Ok? && CatalogIs(utf16, version, native.value, c)
    ensures python.Ok? <==> stack > 0
    ensures python.Ok? ==> CatalogIs(utf16, version, python.value, c)
  {
    hide FileStored, InOrder, Readable, ReadHeader, RecordsApart, AllApart, DataAt, ParsesWithin, Parses, Depicts,
      Draws, FramesNeeded, AsData, CatalogIs, FileSize, SameMap;
    ReadableFits(utf16, version, builtin, c);
    var file, facts, s := WriteFull(version, c);
    HeaderReads(file.value, version, c, s);
    ghost var img := Image(file.value, version, utf16, builtin);
    FileReads(img, facts, c, s);
    ghost var shape, left, right;
    python, native, shape, left, right := ParseBinary(file.value, buffered, stack, utf16, builtin);
    CatalogHeld(img, facts, c, s, right, shape, native.value);
    if python.Ok? {
      CatalogHeld(img, facts, c, s, left, shape, python.value);
    }
  }

  lemma ReadableFits(utf16: Decoder, version: nat, builtin: string -> Kind, c: FileContent)
    requires Readable(utf16, version, builtin, c)
    ensures c.key.Typed? ==> PayloadFits(c.key.payload)
    ensures c.location.data.Typed? ==> PayloadFits(c.location.data.payload)
  {
  }

  lemma FileReads(img: Image, facts: Facts, c: FileContent, s: Spots)
    requires Holding(img, facts) && FileStored(facts, c, s) && InOrder(c, s)
    requires Readable(img.utf16, img.version, img.builtin, c) && (c.key.Typed? ==> !c.key.payload.OptionsOf?)
    ensures AllApart(img, HeaderOf(img.version, s)) && RecordsApart(img, HeaderOf(img.version, s))
    ensures DataAt(img, HeaderOf(img.version, s)).Ok?
    ensures Parses(img, s.index) && FramesNeeded(img, s.index, iset{}) == 1
  {
    hide Holding, FileStored, InOrder, Readable, RolesOf, Disciplined, IndexDisciplined, HeaderDisciplined, IndexApart,
      DataAt, Parses, ParsesWithin, FramesNeeded, PairsAt, ArrayAt, ObjectAt, Entries, AsData, DataIs;
    HeaderApart(img, facts, c, s);
    RecordsOfFileApart(img, facts, c, s);
    assert FileDisciplined(img, HeaderOf(img.version, s), RolesOf(c, s));
    var provider := InitData(None, ArrayEntry([]), None);
    DataReads(img, facts, c, s, CatalogData(0, None, None, provider, provider, []));
    IndexIs(img, facts, c, s);
    DeepStackIsEnough(img, s.index, iset{}, 1);
    var entries: Index := Entries(img, s.index).value;
    assert entries[..0] == [] && AllListed(entries) == AllListed(entries[..0]) + entries[0].value;
    ListedNeedsOne(img, s.index);
  }
}
