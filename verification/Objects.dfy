/** The offset-keyed object cache that both back ends fill. */
module Objects {
  import opened Wrappers
  import opened Bytes
  import opened StringSpec
  import opened RecordSpec
  import opened Graph

  /** An object in the cache; what a reader takes it for is another matter. */
  datatype Entry =
    | TypeEntry(t: SerializedType)
    | CommonEntry(common: CommonInfo)
    | BundleEntry(bundle: Bundle)
    | LocationEntry(location: ResourceLocation)
    | ArrayEntry(offsets: seq<nat>)

  /** Bundle options, with whatever object was taken for their transfer options. */
  datatype Bundle = Bundle(hash: string, crc: nat, common: Entry, bundleName: Option<string>, bundleSize: nat)

  /** A decoded typed object: a new value, or an object from the cache. */
  datatype Data = Made(v: Value) | Hit(e: Entry)

  datatype Attributes = Attributes(
    internalId: Option<string>, providerId: Option<string>, data: Data, dependencyHash: int,
    primaryKey: Option<string>, resourceType: Entry, dataType: Option<Entry>)

  /** A decoded location object. Two locations are shared when they are the same object. */
  class ResourceLocation {
    const attributes: Attributes
    const dependencies: seq<Entry>

    constructor (attributes: Attributes, dependencies: seq<Entry>)
      ensures this.attributes == attributes && this.dependencies == dependencies
    {
      this.attributes, this.dependencies := attributes, dependencies;
    }
  }

  // ----- What objects stand for, when each has the kind its place calls for

  function AsType(e: Entry): Option<SerializedType> {
    if e.TypeEntry? then Some(e.t) else None
  }

  function AsBundle(b: Bundle): Option<BundleOptions> {
    if b.common.CommonEntry?
    then Some(BundleOptions(b.hash, b.crc, b.common.common, b.bundleName, b.bundleSize)) else None
  }

  function AsValue(d: Data): Option<Value> {
    match d
    case Made(v) => if v.BundleValue? then None else Some(v)
    case Hit(e) =>
      if e.BundleEntry? && AsBundle(e.bundle).Some? then Some(BundleValue(AsBundle(e.bundle).value)) else None
  }

  function AsTyped(d: Data, t: Option<Entry>): Option<(Value, Option<SerializedType>)> {
    match AsValue(d)
    case None => None
    case Some(v) =>
      match t
      case None => Some((v, None))
      case Some(e) => if e.TypeEntry? then Some((v, Some(e.t))) else None
  }

  function AsFields(a: Attributes): Option<Fields> {
    match AsTyped(a.data, a.dataType)
    case None => None
    case Some(typed) =>
      if a.resourceType.TypeEntry?
      then Some(Fields(a.internalId, a.providerId, typed.0, a.dependencyHash, a.primaryKey, a.resourceType.t, typed.1))
      else None
  }

  /** The location records of a file. */
  ghost function Records(img: Image): Graph<Fields> {
    Graph((o: nat) => FieldsAt(img, o), (o: nat) => DepsAt(img, o))
  }

  type Cache = map<nat, Entry>

  datatype Role = TypeRole | CommonRole | BundleRole | LocationRole | ArrayRole

  /** The kind of record that each offset in use is used as. */
  type Roles = map<nat, Role>

  predicate HasRole(roles: Roles, o: nat, role: Role) {
    o in roles && roles[o] == role
  }

  predicate ArrayDisciplined(roles: Roles, o: nat) {
    o == NULL || HasRole(roles, o, ArrayRole)
  }

  ghost predicate ObjectDisciplined(img: Image, roles: Roles, o: nat) {
    var words := ReadU32s(img.data, o, 2);
    o != NULL && words.Ok? ==>
      && HasRole(roles, words.value[0], TypeRole)
      && (KindAt(img, words.value[0]) == Ok(BundleKind) && words.value[1] != NULL ==>
            HasRole(roles, words.value[1], BundleRole))
  }

  ghost predicate LocationDisciplined(img: Image, roles: Roles, o: nat) {
    var words := ReadU32s(img.data, o, 7);
    words.Ok? ==>
      && (DepsAt(img, o).Ok? ==>
            forall i :: 0 <= i < |DepsAt(img, o).value| ==> HasRole(roles, DepsAt(img, o).value[i], LocationRole))
      && ObjectDisciplined(img, roles, words.value[5])
      && HasRole(roles, words.value[6], TypeRole)
  }

  ghost predicate BundleDisciplined(img: Image, roles: Roles, o: nat) {
    var words := ReadU32s(img.data, o, 5);
    words.Ok? ==> HasRole(roles, words.value[4], CommonRole)
  }

  /** Types, options, bundles and locations: each offset is used as one kind of record. */
  ghost predicate Disciplined(img: Image, roles: Roles) {
    && (forall o: nat :: HasRole(roles, o, LocationRole) ==> LocationDisciplined(img, roles, o))
    && (forall o: nat :: HasRole(roles, o, BundleRole) ==> BundleDisciplined(img, roles, o))
  }

  ghost predicate DependenciesApart(img: Image, roles: Roles, o: nat) {
    var words := ReadU32s(img.data, o, 7);
    words.Ok? ==> ArrayDisciplined(roles, words.value[3])
  }

  /** Dependency arrays, too, are used as nothing else. */
  ghost predicate ArraysApart(img: Image, roles: Roles) {
    forall o: nat :: HasRole(roles, o, LocationRole) ==> DependenciesApart(img, roles, o)
  }

  // ----- What is true of cached objects on every file

  /** Following object references from l gives exactly the location v, every object of the right kind. */
  ghost predicate Shows(l: ResourceLocation, v: Location<Fields>)
    decreases v
  {
    && AsFields(l.attributes) == Some(v.fields)
    && |l.dependencies| == |v.dependencies|
    && forall i :: 0 <= i < |v.dependencies| ==>
         l.dependencies[i].LocationEntry? && Shows(l.dependencies[i].location, v.dependencies[i])
  }

  ghost predicate Means(img: Image, o: nat, v: Location<Fields>) {
    Decodes(Records(img), o) && Meaning(Records(img), o) == v
  }

  /**
   * An object made for the record at an offset is right for its own kind. A location made from
   * objects of wrong kinds shows nothing; one that shows a location shows the record's.
   */
  ghost predicate EntryTrue(img: Image, o: nat, e: Entry) {
    match e
    case TypeEntry(t) => TypeAt(img, o) == Ok(t)
    case CommonEntry(c) => CommonAt(img, o) == Ok(c)
    case BundleEntry(b) => AsBundle(b).Some? ==> BundleAt(img, o) == Ok(AsBundle(b).value)
    case ArrayEntry(offsets) => ArrayAt(img, o) == Ok(offsets)
    case LocationEntry(l) => forall v | Shows(l, v) :: Means(img, o, v)
  }

  ghost predicate CacheTrue(img: Image, cache: Cache) {
    forall o {:trigger EntryTrue(img, o, cache[o])} | o in cache :: EntryTrue(img, o, cache[o])
  }

  /** A list whose objects are true at the given offsets. */
  ghost predicate ListTrue(img: Image, items: seq<Entry>, offsets: seq<nat>) {
    |items| == |offsets| && forall j :: 0 <= j < |items| ==> EntryTrue(img, offsets[j], items[j])
  }

  // ----- What else is true where each offset is used as one kind of record

  /** The dependency list holds, in order, the cached objects of the dependency offsets. */
  ghost predicate Linked(img: Image, cache: Cache, o: nat, l: ResourceLocation) {
    && DepsAt(img, o).Ok?
    && Holds(cache, l.dependencies, DepsAt(img, o).value)
  }

  /** A list of location objects, each the one cached at the offset in its place. */
  ghost predicate Holds(cache: Cache, items: seq<Entry>, offsets: seq<nat>) {
    && |items| == |offsets|
    && forall i :: 0 <= i < |offsets| ==>
         offsets[i] in cache && cache[offsets[i]] == items[i] && items[i].LocationEntry?
  }

  /** A cached entry equals the uncached decode at its offset, and has the kind the offset is used as. */
  ghost predicate EntryOk(img: Image, roles: Roles, cache: Cache, o: nat)
    requires o in cache
  {
    match cache[o]
    case TypeEntry(t) => HasRole(roles, o, TypeRole) && TypeAt(img, o) == Ok(t)
    case CommonEntry(c) => HasRole(roles, o, CommonRole) && CommonAt(img, o) == Ok(c)
    case BundleEntry(b) =>
      HasRole(roles, o, BundleRole) && AsBundle(b).Some? && BundleAt(img, o) == Ok(AsBundle(b).value)
    case ArrayEntry(offsets) => HasRole(roles, o, ArrayRole) && ArrayAt(img, o) == Ok(offsets)
    case LocationEntry(l) =>
      && HasRole(roles, o, LocationRole)
      && Decodes(Records(img), o)
      && AsFields(l.attributes).Some?
      && FieldsAt(img, o) == Ok(AsFields(l.attributes).value)
      && Linked(img, cache, o, l)
  }

  /** One object at two offsets means one offset. */
  ghost predicate OwnObject(cache: Cache, a: nat, b: nat) {
    a in cache && cache[a].LocationEntry? && b in cache && cache[b] == cache[a] ==> a == b
  }

  ghost predicate CacheOk(img: Image, roles: Roles, cache: Cache) {
    && (forall o {:trigger EntryOk(img, roles, cache, o)} | o in cache :: EntryOk(img, roles, cache, o))
    && (forall a, b {:trigger OwnObject(cache, a, b)} :: OwnObject(cache, a, b))
  }

  /**
   * The state of a cache. With roles, each offset is used as one kind of record; without, the file may
   * be any file.
   */
  ghost predicate CacheState(img: Image, roles: Option<Roles>, cache: Cache) {
    CacheTrue(img, cache) && (roles.Some? ==> Disciplined(img, roles.value) && CacheOk(img, roles.value, cache))
  }

  /** If roles are given, this offset has the role. */
  predicate UsedAs(roles: Option<Roles>, o: nat, role: Role) {
    roles.Some? ==> HasRole(roles.value, o, role)
  }

  /**
   * What reading a record promises. Something read that has the right kinds is what the record denotes;
   * and where each offset is used as one kind of record, reading never fails on a record that has a
   * value and gives nothing of a wrong kind.
   */
  predicate Right<T(==)>(roles: Option<Roles>, ok: bool, view: Option<T>, spec: Result<T>) {
    && (ok && view.Some? ==> spec == Ok(view.value))
    && (roles.Some? ==> (ok <==> spec.Ok?) && (ok ==> view.Some?))
  }

  function TypeView(r: Result<Entry>): Option<SerializedType> {
    if r.Ok? then AsType(r.value) else None
  }

  function CommonView(r: Result<Entry>): Option<CommonInfo> {
    if r.Ok? && r.value.CommonEntry? then Some(r.value.common) else None
  }

  function BundleView(r: Result<Entry>): Option<BundleOptions> {
    if r.Ok? && r.value.BundleEntry? then AsBundle(r.value.bundle) else None
  }

  function DataView(r: Result<Data>): Option<Value> {
    if r.Ok? then AsValue(r.value) else None
  }

  function TypedView(r: Result<(Data, Option<Entry>)>): Option<(Value, Option<SerializedType>)> {
    if r.Ok? then AsTyped(r.value.0, r.value.1) else None
  }

  function FieldsView(r: Result<Attributes>): Option<Fields> {
    if r.Ok? then AsFields(r.value) else None
  }

  /** The attributes of a location made from the head of its record, its data and its type. */
  function AttributesOf(head: Head, data: (Data, Option<Entry>), t: Entry): Attributes
    requires |head.words| == 7
  {
    Attributes(head.internalId, head.providerId, data.0, Signed32(head.words[4]), head.primaryKey, t, data.1)
  }

  lemma AttributesAreRight(img: Image, roles: Option<Roles>, o: nat, head: Head, data: (Data, Option<Entry>), t: Entry)
    requires HeadAt(img, o) == Ok(head)
    requires Right(roles, true, AsTyped(data.0, data.1), ObjectAt(img, head.words[5]))
    requires Right(roles, true, AsType(t), TypeAt(img, head.words[6]))
    ensures Right(roles, true, AsFields(AttributesOf(head, data, t)), FieldsAt(img, o))
  {
    hide HeadAt, ObjectAt, TypeAt, AsTyped;
  }

  /** A location's fields need its head, its data and its type. */
  lemma FieldsNeed(img: Image, o: nat)
    requires FieldsAt(img, o).Ok?
    ensures HeadAt(img, o).Ok?
    ensures ObjectAt(img, HeadAt(img, o).value.words[5]).Ok? && TypeAt(img, HeadAt(img, o).value.words[6]).Ok?
  {
    hide HeadAt, ObjectAt, TypeAt;
  }

  /** The record offsets whose locations are cached. */
  ghost function SeenIn(cache: Cache): iset<nat> {
    iset o: nat | o in cache && cache[o].LocationEntry?
  }

  lemma SeenStays(before: Cache, after: Cache)
    requires SameLocations(before, after)
    ensures SeenIn(after) == SeenIn(before)
  {
  }

  lemma SeenAdds(cache: Cache, o: nat, l: ResourceLocation)
    ensures SeenIn(cache[o := LocationEntry(l)]) == SeenIn(cache) + iset{o}
  {
  }

  /** Nothing cached is ever replaced. */
  ghost predicate Grows(before: Cache, after: Cache) {
    forall o | o in before :: o in after && after[o] == before[o]
  }

  ghost predicate SameLocations(before: Cache, after: Cache) {
    && Grows(before, after)
    && forall o | o in after && o !in before :: !after[o].LocationEntry?
  }

  /** No offset leaves the cache; with roles, no entry is replaced either. */
  ghost predicate Kept(roles: Option<Roles>, before: Cache, after: Cache) {
    before.Keys <= after.Keys && (roles.Some? ==> Grows(before, after))
  }

  /** Likewise, and with roles no location is added. */
  ghost predicate KeptLocations(roles: Option<Roles>, before: Cache, after: Cache) {
    before.Keys <= after.Keys && (roles.Some? ==> SameLocations(before, after))
  }

  lemma CacheAdd(img: Image, roles: Option<Roles>, cache: Cache, o: nat, e: Entry)
    requires CacheState(img, roles, cache) && EntryTrue(img, o, e)
    requires roles.Some? ==> o !in cache && EntryOk(img, roles.value, cache[o := e], o)
    requires roles.Some? && e.LocationEntry? ==> e !in cache.Values
    ensures CacheState(img, roles, cache[o := e]) && Kept(roles, cache, cache[o := e])
  {
    var after := cache[o := e];
    forall k | k in after
      ensures EntryTrue(img, k, after[k])
    {
      assert k != o ==> EntryTrue(img, k, cache[k]);
    }
    if roles.Some? {
      forall k | k in after
        ensures EntryOk(img, roles.value, after, k)
      {
        if k != o {
          assert EntryOk(img, roles.value, cache, k);
        }
      }
      forall a: nat, b: nat
        ensures OwnObject(after, a, b)
      {
        assert OwnObject(cache, a, b);
      }
    }
  }

  /** A location built from a readable record and from true objects is true. */
  lemma BuiltIsTrue(img: Image, o: nat, l: ResourceLocation)
    requires DepsAt(img, o).Ok? && ListTrue(img, l.dependencies, DepsAt(img, o).value)
    requires AsFields(l.attributes).Some? ==> FieldsAt(img, o) == Ok(AsFields(l.attributes).value)
    ensures EntryTrue(img, o, LocationEntry(l))
  {
    var deps := DepsAt(img, o).value;
    forall v | Shows(l, v)
      ensures Means(img, o, v)
    {
      forall i | 0 <= i < |deps|
        ensures Means(img, deps[i], v.dependencies[i])
      {
        assert EntryTrue(img, deps[i], l.dependencies[i]) && Shows(l.dependencies[i].location, v.dependencies[i]);
      }
      MeaningStep(Records(img), o);
      assert Meaning(Records(img), o).dependencies == v.dependencies;
    }
  }

  /** Where each offset is used as one kind of record, it is linked to cached locations, and so it decodes. */
  lemma BuiltIsRight(img: Image, roles: Option<Roles>, cache: Cache, o: nat, l: ResourceLocation)
    requires CacheState(img, roles, cache)
    requires DepsAt(img, o).Ok? && ListTrue(img, l.dependencies, DepsAt(img, o).value)
    requires AsFields(l.attributes).Some? ==> FieldsAt(img, o) == Ok(AsFields(l.attributes).value)
    requires roles.Some? ==> AsFields(l.attributes).Some? && Holds(cache, l.dependencies, DepsAt(img, o).value)
    ensures EntryTrue(img, o, LocationEntry(l))
    ensures roles.Some? ==> Decodes(Records(img), o) && Linked(img, cache, o, l)
  {
    hide EntryTrue, AsFields, FieldsAt, DepsAt, Decodes;
    BuiltIsTrue(img, o, l);
    if roles.Some? {
      forall i | 0 <= i < |DepsAt(img, o).value|
        ensures Decodes(Records(img), DepsAt(img, o).value[i])
      {
        assert EntryOk(img, roles.value, cache, DepsAt(img, o).value[i]);
      }
      DecodesStep(Records(img), o);
    }
  }

  lemma HoldsGrows(before: Cache, after: Cache, items: seq<Entry>, offsets: seq<nat>)
    requires Holds(before, items, offsets) && Grows(before, after)
    ensures Holds(after, items, offsets)
  {
  }

  lemma CacheAddLocation(img: Image, roles: Option<Roles>, cache: Cache, o: nat, l: ResourceLocation)
    requires CacheState(img, roles, cache) && EntryTrue(img, o, LocationEntry(l))
    requires roles.Some? ==>
               && o !in cache && HasRole(roles.value, o, LocationRole) && Decodes(Records(img), o)
               && AsFields(l.attributes).Some? && FieldsAt(img, o) == Ok(AsFields(l.attributes).value)
               && Linked(img, cache, o, l) && LocationEntry(l) !in cache.Values
    ensures CacheState(img, roles, cache[o := LocationEntry(l)])
    ensures Kept(roles, cache, cache[o := LocationEntry(l)])
  {
    if roles.Some? {
      assert Linked(img, cache[o := LocationEntry(l)], o, l);
    }
    CacheAdd(img, roles, cache, o, LocationEntry(l));
  }

  /** What the head of a location record settles about it. */
  lemma HeadSettles(img: Image, o: nat)
    ensures HeadAt(img, o).Fail? ==> FieldsAt(img, o).Fail?
    ensures HeadAt(img, o).Ok? ==>
              && ReadU32s(img.data, o, 7) == Ok(HeadAt(img, o).value.words)
              && DepsAt(img, o) == ArrayAt(img, HeadAt(img, o).value.words[3])
  {
  }

  /** The dependency offsets of a location record are themselves used as location records. */
  lemma DependencyRoles(img: Image, roles: Roles, o: nat, offsets: seq<nat>)
    requires Disciplined(img, roles) && HasRole(roles, o, LocationRole) && DepsAt(img, o) == Ok(offsets)
    ensures forall i :: 0 <= i < |offsets| ==> HasRole(roles, offsets[i], LocationRole)
  {
    assert LocationDisciplined(img, roles, o);
  }

  /** The dependencies of a record are those its array lists. */
  lemma ListedDependencies(img: Image, o: nat, offsets: seq<nat>)
    requires DepsAt(img, o) == Ok(offsets)
    ensures forall i :: 0 <= i < |offsets| ==> DependsOn(Records(img), o, offsets[i])
    ensures forall d | DependsOn(Records(img), o, d) :: d in offsets
  {
  }

  /** A cached entry has the kind its offset is used as, and its value is the uncached decode. */
  lemma CachedIs(img: Image, roles: Roles, cache: Cache, o: nat)
    requires CacheOk(img, roles, cache) && o in cache
    ensures HasRole(roles, o, TypeRole) ==> cache[o].TypeEntry? && TypeAt(img, o) == Ok(cache[o].t)
    ensures HasRole(roles, o, CommonRole) ==> cache[o].CommonEntry? && CommonAt(img, o) == Ok(cache[o].common)
    ensures HasRole(roles, o, BundleRole) ==>
              && cache[o].BundleEntry? && AsBundle(cache[o].bundle).Some?
              && BundleAt(img, o) == Ok(AsBundle(cache[o].bundle).value)
    ensures HasRole(roles, o, ArrayRole) ==> cache[o].ArrayEntry? && ArrayAt(img, o) == Ok(cache[o].offsets)
  {
    assert EntryOk(img, roles, cache, o);
  }

  /** A hit is true for its own kind, and with roles it is right for the kind its offset is used as. */
  lemma CacheHit(img: Image, roles: Option<Roles>, cache: Cache, o: nat)
    requires CacheState(img, roles, cache) && o in cache
    ensures EntryTrue(img, o, cache[o])
    ensures roles.Some? && HasRole(roles.value, o, TypeRole) ==> cache[o].TypeEntry?
    ensures roles.Some? && HasRole(roles.value, o, CommonRole) ==> cache[o].CommonEntry?
    ensures roles.Some? && HasRole(roles.value, o, BundleRole) ==>
              cache[o].BundleEntry? && AsBundle(cache[o].bundle).Some?
    ensures roles.Some? && HasRole(roles.value, o, ArrayRole) ==> cache[o].ArrayEntry?
  {
    assert EntryTrue(img, o, cache[o]);
    if roles.Some? {
      CachedIs(img, roles.value, cache, o);
    }
  }

  lemma CachedLocation(img: Image, roles: Roles, cache: Cache, o: nat)
    requires CacheOk(img, roles, cache) && HasRole(roles, o, LocationRole) && o in cache
    ensures cache[o].LocationEntry? && Decodes(Records(img), o)
  {
    assert EntryOk(img, roles, cache, o);
  }

  /** The cached locations are closed under dependencies. */
  lemma CacheClosed(img: Image, roles: Roles, cache: Cache, a: nat, b: nat)
    requires CacheOk(img, roles, cache)
    requires a in cache && cache[a].LocationEntry? && DependsOn(Records(img), a, b)
    ensures b in cache && cache[b].LocationEntry?
  {
    assert EntryOk(img, roles, cache, a);
    var i :| 0 <= i < |DepsAt(img, a).value| && DepsAt(img, a).value[i] == b;
    assert cache[DepsAt(img, a).value[i]] == cache[a].location.dependencies[i];
  }

  /** So is everything below a cached location. */
  lemma {:induction false} CacheClosedBelow(img: Image, roles: Roles, cache: Cache, p: seq<nat>)
    requires CacheOk(img, roles, cache) && IsPath(Records(img), p) && p[0] in SeenIn(cache)
    ensures p[|p| - 1] in SeenIn(cache)
    decreases |p|
  {
    hide Records, CacheOk;
    if |p| > 1 {
      assert DependsOn(Records(img), p[0], p[0 + 1]);
      CacheClosed(img, roles, cache, p[0], p[1]);
      SubPath(Records(img), p, 1, |p|);
      CacheClosedBelow(img, roles, cache, p[1..|p|]);
    }
  }

  lemma EntryIsOk(img: Image, roles: Roles, cache: Cache, o: nat)
    requires CacheOk(img, roles, cache) && o in cache
    ensures EntryOk(img, roles, cache, o)
  {
  }

  lemma {:induction false} CachedObjectShows(img: Image, roles: Roles, cache: Cache, o: nat, n: nat)
    requires CacheOk(img, roles, cache) && o in cache && cache[o].LocationEntry?
    requires Decodable(Records(img), o, n)
    ensures Shows(cache[o].location, Build(Records(img), o, n))
    decreases n
  {
    hide FieldsAt, DepsAt, CacheOk, Decodes, HasRole;
    EntryIsOk(img, roles, cache, o);
    var deps := DepsAt(img, o).value;
    forall i | 0 <= i < |deps|
      ensures cache[o].location.dependencies[i].LocationEntry?
      ensures Shows(cache[o].location.dependencies[i].location, Build(Records(img), deps[i], n - 1))
    {
      assert cache[deps[i]] == cache[o].location.dependencies[i];
      CachedObjectShows(img, roles, cache, deps[i], n - 1);
    }
  }

  /** The object graph below a cached location is the location its record denotes. */
  lemma CachedObjectShowsMeaning(img: Image, roles: Roles, cache: Cache, o: nat)
    requires CacheOk(img, roles, cache) && o in cache && cache[o].LocationEntry?
    ensures Decodes(Records(img), o) && Shows(cache[o].location, Meaning(Records(img), o))
  {
    assert EntryOk(img, roles, cache, o);
    var n: nat :| Decodable(Records(img), o, n);
    MeaningIs(Records(img), o, n);
    CachedObjectShows(img, roles, cache, o, n);
  }
}
