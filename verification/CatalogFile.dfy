/** A whole binary catalog: header, the records it names, then the map by either back end. */
module CatalogFile {
  import opened Wrappers
  import opened Bytes
  import opened StringSpec
  import opened RecordSpec
  import opened Objects
  import opened Dicts
  import opened ResourceMap
  import opened MapFrames
  import opened PythonReader
  import opened Backends
  import NativeParser

  datatype Header = Header(
    version: nat, keysOffset: nat, idOffset: nat, instanceOffset: nat, sceneOffset: nat, providersOffset: nat,
    hashOffset: nat)

  /** The magic number is not looked at; a short version 1 header has no build hash. */
  function ReadHeader(d: seq<byte>): (r: Result<Header>)
    ensures r.Ok? ==> r.value.idOffset <= NULL && r.value.hashOffset <= NULL
  {
    if |d| < 28 then Fail else
    var version, keysOffset := Signed32(U32(d, 4)), U32(d, 8);
    var short := version == 1 && keysOffset == 32;
    if !(1 <= version <= 3) || (!short && |d| < 32) then Fail
    else Ok(Header(version, keysOffset, U32(d, 12), U32(d, 16), U32(d, 20), U32(d, 24),
                   if short then NULL else U32(d, 28)))
  }

  /** An initialization record; T is the type it names, or the object taken for that type. */
  datatype InitData<+T> = InitData(id: Option<string>, objectType: T, data: Option<string>)

  datatype CatalogData<+T> = CatalogData(
    version: nat, locatorId: Option<string>, buildResultHash: Option<string>, instanceProvider: InitData<T>,
    sceneProvider: InitData<T>, resourceProviders: seq<InitData<T>>)

  // ----- What a catalog holds besides its map, with no cache

  ghost function InitAt(img: Image, o: nat): Result<InitData<SerializedType>> {
    var words :- ReadU32s(img.data, o, 3);
    var id :- Encoded(img, words[0], 0);
    var t :- TypeAt(img, words[1]);
    var data :- Encoded(img, words[2], 0);
    Ok(InitData(id, t, data))
  }

  /** The initialization records at the first n offsets. */
  ghost function InitsAt(img: Image, offsets: seq<nat>, n: nat): Result<seq<InitData<SerializedType>>>
    requires n <= |offsets|
  {
    if n == 0 then Ok([]) else
    var before :- InitsAt(img, offsets, n - 1);
    var last :- InitAt(img, offsets[n - 1]);
    Ok(before + [last])
  }

  ghost function DataAt(img: Image, h: Header): Result<CatalogData<SerializedType>> {
    var offsets :- ArrayAt(img, h.providersOffset);
    var locatorId :- Encoded(img, h.idOffset, 0);
    var hash :- Encoded(img, h.hashOffset, 0);
    var instance :- InitAt(img, h.instanceOffset);
    var scene :- InitAt(img, h.sceneOffset);
    var providers :- InitsAt(img, offsets, |offsets|);
    Ok(CatalogData(img.version, locatorId, hash, instance, scene, providers))
  }

  // ----- What the objects read stand for

  function AsInit(i: InitData<Entry>): Option<InitData<SerializedType>> {
    if i.objectType.TypeEntry? then Some(InitData(i.id, i.objectType.t, i.data)) else None
  }

  function AsInits(s: seq<InitData<Entry>>): Option<seq<InitData<SerializedType>>> {
    if s == [] then Some([]) else
    match AsInits(s[..|s| - 1])
    case None => None
    case Some(before) =>
      match AsInit(s[|s| - 1])
      case None => None
      case Some(last) => Some(before + [last])
  }

  function AsData(d: CatalogData<Entry>): Option<CatalogData<SerializedType>> {
    if AsInit(d.instanceProvider).Some? && AsInit(d.sceneProvider).Some? && AsInits(d.resourceProviders).Some?
    then Some(CatalogData(d.version, d.locatorId, d.buildResultHash, AsInit(d.instanceProvider).value,
                          AsInit(d.sceneProvider).value, AsInits(d.resourceProviders).value))
    else None
  }

  function InitView(r: Result<InitData<Entry>>): Option<InitData<SerializedType>> {
    if r.Ok? then AsInit(r.value) else None
  }

  function CatalogView(r: Result<CatalogData<Entry>>): Option<CatalogData<SerializedType>> {
    if r.Ok? then AsData(r.value) else None
  }

  // ----- Discipline of the header

  function InitType(img: Image, o: nat): Option<nat> {
    match ReadU32s(img.data, o, 3)
    case Fail => None
    case Ok(words) => Some(words[1])
  }

  ghost predicate InitDisciplined(img: Image, roles: Roles, o: nat) {
    InitType(img, o).Some? ==> HasRole(roles, InitType(img, o).value, TypeRole)
  }

  /** The header uses each offset as one kind of record. */
  ghost predicate HeaderDisciplined(img: Image, roles: Roles, h: Header) {
    && ArrayDisciplined(roles, h.providersOffset)
    && InitDisciplined(img, roles, h.instanceOffset)
    && InitDisciplined(img, roles, h.sceneOffset)
    && (ArrayAt(img, h.providersOffset).Ok? ==>
          forall o | o in ArrayAt(img, h.providersOffset).value :: InitDisciplined(img, roles, o))
  }

  ghost predicate FileDisciplined(img: Image, h: Header, roles: Roles) {
    Disciplined(img, roles) && HeaderDisciplined(img, roles, h) && IndexDisciplined(img, roles, h.keysOffset)
  }

  /** Apart from arrays of the map, each offset that parsing uses is used as one kind of record. */
  ghost predicate RecordsApart(img: Image, h: Header) {
    exists roles :: FileDisciplined(img, h, roles)
  }

  /** Each offset that parsing uses, arrays included, is used as one kind of record. */
  ghost predicate AllApart(img: Image, h: Header) {
    exists roles :: FileDisciplined(img, h, roles) && IndexApart(img, roles, h.keysOffset)
  }

  lemma {:induction false} InitsPrefix(img: Image, offsets: seq<nat>, m: nat, n: nat)
    requires m <= n <= |offsets| && InitsAt(img, offsets, n).Ok?
    ensures InitsAt(img, offsets, m).Ok?
    decreases n
  {
    hide InitAt;
    if m < n {
      InitsPrefix(img, offsets, m, n - 1);
    }
  }

  lemma AsInitsAdds(s: seq<InitData<Entry>>, i: InitData<Entry>)
    ensures AsInits(s + [i]) ==
            if AsInits(s).Some? && AsInit(i).Some? then Some(AsInits(s).value + [AsInit(i).value]) else None
  {
    assert (s + [i])[..|s|] == s;
  }

  // ----- The header phase

  /** The initialization records that the header names. */
  ghost predicate IsInit(img: Image, h: Header, o: nat) {
    || o == h.instanceOffset || o == h.sceneOffset
    || (ArrayAt(img, h.providersOffset).Ok? && o in ArrayAt(img, h.providersOffset).value)
  }

  /** What the header phase may leave in the cache. */
  ghost predicate HeaderEntry(img: Image, h: Header, o: nat, e: Entry) {
    || (e.ArrayEntry? && o == h.providersOffset != NULL)
    || (e.TypeEntry? && exists i :: IsInit(img, h, i) && InitType(img, i) == Some(o))
  }

  lemma InitsOf(img: Image, h: Header)
    ensures IsInit(img, h, h.instanceOffset) && IsInit(img, h, h.sceneOffset)
    ensures ArrayAt(img, h.providersOffset).Ok? ==>
              forall o | o in ArrayAt(img, h.providersOffset).value :: IsInit(img, h, o)
  {
  }

  lemma ArrayEntered(img: Image, h: Header, cache: Cache)
    requires forall k | k in cache :: k == h.providersOffset && k != NULL && cache[k].ArrayEntry?
    ensures forall k | k in cache :: HeaderEntry(img, h, k, cache[k])
  {
  }

  lemma TypeEntered(img: Image, h: Header, o: nat, before: Cache, after: Cache)
    requires forall k | k in before :: HeaderEntry(img, h, k, before[k])
    requires Grows(before, after) && IsInit(img, h, o)
    requires forall k | k in after && k !in before :: InitType(img, o) == Some(k) && after[k].TypeEntry?
    ensures forall k | k in after :: HeaderEntry(img, h, k, after[k])
  {
    hide IsInit, InitType;
    forall k | k in after
      ensures HeaderEntry(img, h, k, after[k])
    {
      if k in before {
        assert HeaderEntry(img, h, k, before[k]);
      }
    }
  }

  method ReadInit(reader: CatalogReader, o: nat) returns (r: Result<InitData<Entry>>)
    requires reader.Valid() && (reader.roles.Some? ==> InitDisciplined(reader.img, reader.roles.value, o))
    modifies reader
    ensures reader.Valid() && KeptLocations(reader.roles, old(reader.objectCache), reader.objectCache)
    ensures reader.typeNameCache == old(reader.typeNameCache)
    ensures Grows(old(reader.objectCache), reader.objectCache)
    ensures forall k | k in reader.objectCache && k !in old(reader.objectCache) ::
        InitType(reader.img, o) == Some(k) && reader.objectCache[k].TypeEntry?
    ensures Right(reader.roles, r.Ok?, InitView(r), InitAt(reader.img, o))
  {
    hide StringsOk, TailsOk, TypeNamesOk, CacheState, Encoded, TypeAt, UntypedIn;
    var words :- reader.ReadWordsFrom(o, 3);
    var id :- reader.ReadEncodedString(words[0], 0);
    var t :- reader.ReadSerializedType(words[1]);
    var data :- reader.ReadEncodedString(words[2], 0);
    return Ok(InitData(id, t, data));
  }

  /** The header phase of a parse, on a reader that has read nothing. */
  method ReadData(reader: CatalogReader, h: Header) returns (r: Result<CatalogData<Entry>>)
    requires reader.Valid() && reader.objectCache == map[] && reader.typeNameCache == map[]
    requires reader.roles.Some? ==> HeaderDisciplined(reader.img, reader.roles.value, h)
    requires h.idOffset <= NULL && h.hashOffset <= NULL
    modifies reader
    ensures reader.Valid() && reader.typeNameCache == map[]
    ensures r.Ok? ==> forall k | k in reader.objectCache :: HeaderEntry(reader.img, h, k, reader.objectCache[k])
    ensures Right(reader.roles, r.Ok?, CatalogView(r), DataAt(reader.img, h))
  {
    hide StringsOk, TailsOk, TypeNamesOk, CacheState, Encoded, InitAt, ArrayAt, InitDisciplined, UntypedIn, InitType,
      AsInits, HeaderEntry, IsInit;
    NoInits(reader.img);
    var offsets :- reader.ReadOffsetArray(h.providersOffset);
    ArrayEntered(reader.img, h, reader.objectCache);
    var locatorId :- reader.ReadEncodedString(h.idOffset, 0);
    var hash :- reader.ReadEncodedString(h.hashOffset, 0);
    InitsOf(reader.img, h);
    ghost var before := reader.objectCache;
    var instance :- ReadInit(reader, h.instanceOffset);
    TypeEntered(reader.img, h, h.instanceOffset, before, reader.objectCache);
    before := reader.objectCache;
    var scene :- ReadInit(reader, h.sceneOffset);
    TypeEntered(reader.img, h, h.sceneOffset, before, reader.objectCache);
    var providers := [];
    for i := 0 to |offsets|
      invariant reader.Valid() && reader.typeNameCache == map[]
      invariant forall k | k in reader.objectCache :: HeaderEntry(reader.img, h, k, reader.objectCache[k])
      invariant AsInits(providers).Some? ==> InitsAt(reader.img, offsets, i) == Ok(AsInits(providers).value)
      invariant reader.roles.Some? ==> AsInits(providers).Some?
    {
      assert offsets[i] in offsets;
      if InitsAt(reader.img, offsets, |offsets|).Ok? {
        InitsPrefix(reader.img, offsets, i + 1, |offsets|);
      }
      before := reader.objectCache;
      var provider :- ReadInit(reader, offsets[i]);
      TypeEntered(reader.img, h, offsets[i], before, reader.objectCache);
      AsInitsAdds(providers, provider);
      providers := providers + [provider];
    }
    return Ok(CatalogData(reader.img.version, locatorId, hash, instance, scene, providers));
  }

  lemma NoInits(img: Image)
    ensures AsInits([]) == Some([]) && InitsAt(img, [], 0) == Ok([])
  {
  }

  /** Where header and records use each offset as one kind, the header phase leaves a cache in order. */
  lemma HeaderCacheOk(img: Image, h: Header, roles: Roles, cache: Cache)
    requires CacheTrue(img, cache) && FileDisciplined(img, h, roles)
    requires forall k | k in cache :: HeaderEntry(img, h, k, cache[k])
    ensures CacheState(img, Some(roles), cache)
  {
    hide Disciplined, IndexDisciplined, TypeAt, ArrayAt, InitType;
    forall k | k in cache
      ensures EntryOk(img, roles, cache, k)
    {
      assert EntryTrue(img, k, cache[k]) && HeaderEntry(img, h, k, cache[k]);
    }
    forall a: nat, b: nat
      ensures OwnObject(cache, a, b)
    {
      assert a in cache ==> HeaderEntry(img, h, a, cache[a]);
    }
  }

  // ----- Parsing with either back end

  datatype Catalog = Catalog(data: CatalogData<Entry>, resources: Resources)

  /** A parse as it is, on every file: the map of the raw entries, with true objects. */
  ghost predicate ParsedAs(img: Image, h: Header, c: Catalog, raw: Index) {
    && PairsAt(img, h.keysOffset).Ok? && 2 * |raw| == |PairsAt(img, h.keysOffset).value|
    && ReadAs(img, PairsAt(img, h.keysOffset).value, raw)
    && Carries(img, c.resources, Collect(raw))
    && (AsData(c.data).Some? ==> DataAt(img, h) == Ok(AsData(c.data).value))
  }

  /** A parse where each offset is used as one kind of record: the objects of an orderly cache. */
  ghost predicate ParsedFrom(img: Image, h: Header, c: Catalog, raw: Index, roles: Roles, cache: Cache) {
    && CacheOk(img, roles, cache)
    && Entries(img, h.keysOffset) == Ok(raw) && Matches(cache, c.resources, Collect(raw))
    && AsData(c.data).Some?
  }

  /** The Python back end, from header to map. */
  method ParsePython(img: Image, h: Header, buffered: bool, stack: nat)
    returns (r: Result<Catalog>, ghost raw: Index, ghost roles: Option<Roles>, ghost cache: Cache)
    requires h.idOffset <= NULL && h.hashOffset <= NULL
    ensures r.Ok? ==> ParsedAs(img, h, r.value, raw)
    ensures AllApart(img, h) <==> roles.Some?
    ensures AllApart(img, h) ==>
              (r.Ok? <==> DataAt(img, h).Ok? && MapFits(img, h.keysOffset, iset{}, stack))
    ensures AllApart(img, h) && r.Ok? ==> ParsedFrom(img, h, r.value, raw, roles.value, cache)
    ensures HeaderMisses(img, h) && FirstPairClashes(img, h.keysOffset, map[], map[]) ==> r.Fail?
  {
    hide Disciplined, HeaderDisciplined, IndexDisciplined, IndexApart, DataAt, MapFits, CacheTrue, CacheOk, Entries,
      ReadAs, Carries, Matches, StringsOk, TailsOk, TypeNamesOk, Collect, AsData, PairsAt, FirstPairClashes,
      HeaderMisses, HeaderEntry;
    raw, roles, cache := [], None, map[];
    if AllApart(img, h) {
      ghost var apart :| FileDisciplined(img, h, apart) && IndexApart(img, apart, h.keysOffset);
      roles := Some(apart);
    }
    var reader := new CatalogReader(img, buffered, roles);
    var read := ReadData(reader, h);
    if read.Fail? {
      return Fail, raw, roles, cache;
    }
    NothingSeen(img, h, reader.objectCache);
    ClashStaysAhead(img, h, reader.objectCache);
    var resources;
    resources, raw := reader.DecodeResources(h.keysOffset, stack);
    cache := reader.objectCache;
    r := if resources.Ok? then Ok(Catalog(read.value, resources.value)) else Fail;
  }

  /** The Rust back end, from header to map. */
  method ParseNative(img: Image, h: Header)
    returns (r: Result<Catalog>, ghost raw: Index, ghost roles: Option<Roles>, ghost cache: Cache)
    requires h.idOffset <= NULL && h.hashOffset <= NULL
    ensures r.Ok? ==> ParsedAs(img, h, r.value, raw)
    ensures RecordsApart(img, h) <==> roles.Some?
    ensures RecordsApart(img, h) ==> (r.Ok? <==> DataAt(img, h).Ok? && Parses(img, h.keysOffset))
    ensures RecordsApart(img, h) && r.Ok? ==> ParsedFrom(img, h, r.value, raw, roles.value, cache)
  {
    hide Disciplined, HeaderDisciplined, IndexDisciplined, DataAt, Parses, CacheTrue, CacheOk, Entries, ReadAs,
      Carries, Matches, StringsOk, TailsOk, TypeNamesOk, Collect, AsData, PairsAt, HeaderEntry;
    raw, roles, cache := [], None, map[];
    if RecordsApart(img, h) {
      ghost var apart :| FileDisciplined(img, h, apart);
      roles := Some(apart);
    }
    var reader := new CatalogReader(img, true, roles);
    var read := ReadData(reader, h);
    if read.Fail? {
      return Fail, raw, roles, cache;
    }
    var parser := new NativeParser.Parser(img, reader.objectCache, roles);
    var resources;
    resources, raw := parser.Resources(h.keysOffset);
    cache := parser.objects;
    r := if resources.Ok? then Ok(Catalog(read.value, resources.value)) else Fail;
  }

  /** Before the map no location is cached. */
  lemma NothingSeen(img: Image, h: Header, cache: Cache)
    requires forall k | k in cache :: HeaderEntry(img, h, k, cache[k])
    ensures SeenIn(cache) == iset{}
  {
    forall k | k in cache
      ensures !cache[k].LocationEntry?
    {
      assert HeaderEntry(img, h, k, cache[k]);
    }
  }

  /** The first listed location is neither the array nor a type that the header names. */
  ghost predicate HeaderMisses(img: Image, h: Header) {
    PairsAt(img, h.keysOffset).Ok? && |PairsAt(img, h.keysOffset).value| >= 2
    && ArrayAt(img, PairsAt(img, h.keysOffset).value[1]).Ok?
    && forall o | o in ArrayAt(img, PairsAt(img, h.keysOffset).value[1]).value ::
         o != h.providersOffset && forall i | IsInit(img, h, i) :: InitType(img, i) != Some(o)
  }

  lemma ClashStaysAhead(img: Image, h: Header, cache: Cache)
    requires forall k | k in cache :: HeaderEntry(img, h, k, cache[k])
    ensures HeaderMisses(img, h) && FirstPairClashes(img, h.keysOffset, map[], map[]) ==>
              FirstPairClashes(img, h.keysOffset, cache, map[])
  {
    hide ArrayAt, Clashes, ArrayOffset, IsInit, InitType;
    if HeaderMisses(img, h) && FirstPairClashes(img, h.keysOffset, map[], map[]) {
      var o := ArrayAt(img, PairsAt(img, h.keysOffset).value[1]).value[0];
      assert o in ArrayAt(img, PairsAt(img, h.keysOffset).value[1]).value;
      assert o in cache ==> HeaderEntry(img, h, o, cache[o]);
    }
  }

  /** Every object of a catalog has the kind its place calls for. */
  ghost predicate CatalogClean(c: Catalog) {
    AsData(c.data).Some? && Clean(c.resources)
  }

  /** The same data and the same map. */
  ghost predicate SameCatalog(a: Catalog, b: Catalog) {
    AsData(a.data).Some? && AsData(a.data) == AsData(b.data) && SameMap(a.resources, b.resources)
  }

  /**
   * Parsing any bytes with both back ends.
   *
   * Always: both end, and two results in which every object has a right kind are the same catalog.
   * Where each record offset is used as one kind of record, the Rust back end succeeds exactly when
   * header, records and map can be read; where arrays have offsets of their own as well, the Python
   * back end succeeds exactly when the map also fits its stack, and the results are isomorphic.
   */
  method ParseBinary(d: seq<byte>, buffered: bool, stack: nat, utf16: seq<byte> -> Option<string>,
                     builtin: string -> Kind)
    returns (python: Result<Catalog>, native: Result<Catalog>,
             ghost shape: Shape, ghost left: map<nat, ResourceLocation>, ghost right: map<nat, ResourceLocation>)
    ensures ReadHeader(d).Fail? ==> python == native == Fail
    ensures python.Ok? && native.Ok? && CatalogClean(python.value) && CatalogClean(native.value) ==>
              SameCatalog(python.value, native.value)
    ensures ReadHeader(d).Ok? ==>
              var h := ReadHeader(d).value;
              var img := Image(d, h.version, utf16, builtin);
              && (RecordsApart(img, h) ==> (native.Ok? <==> DataAt(img, h).Ok? && Parses(img, h.keysOffset)))
              && (AllApart(img, h) ==>
                    (python.Ok? <==> native.Ok? && FramesNeeded(img, h.keysOffset, iset{}) <= stack))
              && (RecordsApart(img, h) && native.Ok? ==>
                    && AsData(native.value.data) == Some(DataAt(img, h).value)
                    && Depicts(shape, img, h.keysOffset) && Draws(right, shape, native.value.resources))
              && (AllApart(img, h) && python.Ok? ==>
                    SameCatalog(python.value, native.value) && Draws(left, shape, python.value.resources))
              && (HeaderMisses(img, h) && FirstPairClashes(img, h.keysOffset, map[], map[]) ==> python.Fail?)
  {
    hide RecordsApart, AllApart, DataAt, Parses, MapFits, FramesNeeded, Draws, Depicts, ReadHeader, ParsedAs,
      ParsedFrom, AsData, SameMap, Clean, HeaderMisses, FirstPairClashes;
    shape, left, right := Shape(map[], map[], []), map[], map[];
    if ReadHeader(d).Fail? {
      return Fail, Fail, shape, left, right;
    }
    var h := ReadHeader(d).value;
    var img := Image(d, h.version, utf16, builtin);
    ghost var first, firstRoles, firstCache, second, secondRoles, secondCache;
    python, first, firstRoles, firstCache := ParsePython(img, h, buffered, stack);
    native, second, secondRoles, secondCache := ParseNative(img, h);
    MapFitsExactly(img, h.keysOffset, iset{}, stack);
    AllApartMeansRecords(img, h);
    if python.Ok? && native.Ok? {
      CleanCatalogsAgree(img, h, first, second, python.value, native.value);
    }
    if RecordsApart(img, h) && native.Ok? {
      shape, right := OrderlyCatalog(img, h, secondRoles.value, secondCache, second, native.value);
    }
    if AllApart(img, h) && python.Ok? {
      shape, left, right := OrderlyCatalogsAgree(img, h, firstRoles.value, secondRoles.value, firstCache, secondCache,
                                                 first, second, python.value, native.value);
    }
  }

  lemma AllApartMeansRecords(img: Image, h: Header)
    ensures AllApart(img, h) ==> RecordsApart(img, h)
  {
  }

  lemma CleanCatalogsAgree(img: Image, h: Header, first: Index, second: Index, a: Catalog, b: Catalog)
    requires ParsedAs(img, h, a, first) && ParsedAs(img, h, b, second)
    ensures CatalogClean(a) && CatalogClean(b) ==> SameCatalog(a, b)
  {
    hide DataAt, PairsAt, ReadAs, Carries, Clean, SameMap, AsData, Collect;
    if CatalogClean(a) && CatalogClean(b) {
      CleanResultsAgree(img, h.keysOffset, first, second, a.resources, b.resources);
    }
  }

  lemma OrderlyCatalog(img: Image, h: Header, roles: Roles, cache: Cache, raw: Index, c: Catalog)
    returns (shape: Shape, objects: map<nat, ResourceLocation>)
    requires ParsedAs(img, h, c, raw) && ParsedFrom(img, h, c, raw, roles, cache)
    ensures DataAt(img, h).Ok? && AsData(c.data) == Some(DataAt(img, h).value)
    ensures Depicts(shape, img, h.keysOffset) && Draws(objects, shape, c.resources)
  {
    hide DataAt, PairsAt, ReadAs, Carries, AsData, Collect, CacheOk, Matches, Draws, Entries;
    shape, objects := OwnShape(img, roles, cache, c.resources, Collect(raw));
  }

  lemma OrderlyCatalogsAgree(img: Image, h: Header, roles: Roles, other: Roles, one: Cache, two: Cache,
                             first: Index, second: Index, a: Catalog, b: Catalog)
    returns (shape: Shape, left: map<nat, ResourceLocation>, right: map<nat, ResourceLocation>)
    requires ParsedAs(img, h, a, first) && ParsedFrom(img, h, a, first, roles, one)
    requires ParsedAs(img, h, b, second) && ParsedFrom(img, h, b, second, other, two)
    ensures DataAt(img, h).Ok? && AsData(a.data) == Some(DataAt(img, h).value)
    ensures SameCatalog(a, b) && Depicts(shape, img, h.keysOffset)
    ensures Draws(left, shape, a.resources) && Draws(right, shape, b.resources)
  {
    hide DataAt, PairsAt, ReadAs, Carries, SameMap, AsData, Collect, CacheOk, Matches, Draws, Entries;
    SameIndexSameMap(img, roles, other, one, two, a.resources, b.resources, Collect(first));
    shape, left, right := SameIndexSameShape(img, roles, other, one, two, a.resources, b.resources, Collect(first));
  }
}
