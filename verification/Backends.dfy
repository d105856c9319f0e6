/** Both back ends on one file: when they succeed, and when their results agree. */
module Backends {
  import opened Wrappers
  import opened Bytes
  import opened StringSpec
  import opened RecordSpec
  import opened Graph
  import opened Objects
  import opened Dicts
  import opened ResourceMap
  import opened MapFrames
  import PythonReader
  import NativeParser

  /** Two location objects with equal fields and, all the way down, equal dependencies. */
  ghost predicate SameGraph(a: Entry, b: Entry) {
    a.LocationEntry? && b.LocationEntry? && exists v :: Shows(a.location, v) && Shows(b.location, v)
  }

  /** The same keys in the same order, each with lists of the same location graphs. */
  ghost predicate SameMap(a: Resources, b: Resources) {
    && |a| == |b|
    && forall i :: 0 <= i < |a| ==>
         && a[i].key == b[i].key
         && |a[i].value.items| == |b[i].value.items|
         && forall j :: 0 <= j < |a[i].value.items| ==> SameGraph(a[i].value.items[j], b[i].value.items[j])
  }

  /**
   * On every file: if both back ends succeed and each result holds only objects of right kinds, the
   * results are the same map.
   */
  lemma CleanResultsAgree(img: Image, keysOffset: nat, left: Index, right: Index, a: Resources, b: Resources)
    requires PairsAt(img, keysOffset).Ok?
    requires 2 * |left| == 2 * |right| == |PairsAt(img, keysOffset).value|
    requires ReadAs(img, PairsAt(img, keysOffset).value, left) && Carries(img, a, Collect(left)) && Clean(a)
    requires ReadAs(img, PairsAt(img, keysOffset).value, right) && Carries(img, b, Collect(right)) && Clean(b)
    ensures left == right && SameMap(a, b)
  {
    hide PairsAt, ReadAs, Clean, Entries, Collect, ShowsRecord, EntryTrue, SameGraph;
    CleanResultIsRight(img, keysOffset, left, a);
    CleanResultIsRight(img, keysOffset, right, b);
    forall i, j | 0 <= i < |a| && 0 <= j < |a[i].value.items|
      ensures |a[i].value.items| == |b[i].value.items| && SameGraph(a[i].value.items[j], b[i].value.items[j])
    {
      assert ListTrue(img, a[i].value.items, Collect(left)[i].value);
      assert ListTrue(img, b[i].value.items, Collect(left)[i].value);
      SameRecordSameGraph(img, Collect(left)[i].value[j], a[i].value.items[j], b[i].value.items[j]);
    }
    forall i | 0 <= i < |a|
      ensures |a[i].value.items| == |b[i].value.items|
    {
      assert ListTrue(img, a[i].value.items, Collect(left)[i].value);
      assert ListTrue(img, b[i].value.items, Collect(left)[i].value);
    }
  }

  lemma SameRecordSameGraph(img: Image, o: nat, a: Entry, b: Entry)
    requires ShowsRecord(img, o, a) && ShowsRecord(img, o, b)
    ensures SameGraph(a, b)
  {
  }

  /** Results of two caches filled from one index denote the same map. */
  lemma SameIndexSameMap(img: Image, roles: Roles, other: Roles, first: Cache, second: Cache,
                         a: Resources, b: Resources, index: Index)
    requires CacheOk(img, roles, first) && Matches(first, a, index)
    requires CacheOk(img, other, second) && Matches(second, b, index)
    ensures SameMap(a, b)
  {
    hide CacheOk, ShowsRecord, SameGraph;
    forall i, j | 0 <= i < |a| && 0 <= j < |a[i].value.items|
      ensures |a[i].value.items| == |b[i].value.items| && SameGraph(a[i].value.items[j], b[i].value.items[j])
    {
      assert Holds(first, a[i].value.items, index[i].value) && Holds(second, b[i].value.items, index[i].value);
      ResultShowsMeaning(img, roles, first, a, index, i, j);
      ResultShowsMeaning(img, other, second, b, index, i, j);
      SameRecordSameGraph(img, index[i].value[j], a[i].value.items[j], b[i].value.items[j]);
    }
    forall i | 0 <= i < |a|
      ensures a[i].key == b[i].key && |a[i].value.items| == |b[i].value.items|
    {
      assert Holds(first, a[i].value.items, index[i].value) && Holds(second, b[i].value.items, index[i].value);
    }
  }

  /** A map of location records, with records as numbers and no objects. */
  datatype Shape = Shape(fields: map<nat, Fields>, links: map<nat, seq<nat>>, index: Index)

  /** Each record of the shape is the one in the file. */
  ghost predicate InFile(shape: Shape, img: Image) {
    && shape.fields.Keys == shape.links.Keys
    && forall o | o in shape.fields :: FieldsAt(img, o) == Ok(shape.fields[o]) && DepsAt(img, o) == Ok(shape.links[o])
  }

  /** The shape of the map at an index: each record of the shape is the one in the file. */
  ghost predicate Depicts(shape: Shape, img: Image, keysOffset: nat) {
    && Entries(img, keysOffset).Ok?
    && shape.index == Collect(Entries(img, keysOffset).value)
    && InFile(shape, img)
  }

  ghost predicate Placed(objects: map<nat, ResourceLocation>, list: seq<Entry>, numbers: seq<nat>) {
    && |list| == |numbers|
    && forall i :: 0 <= i < |numbers| ==> numbers[i] in objects && list[i] == LocationEntry(objects[numbers[i]])
  }

  /**
   * The result is the shape with one object for each record: all keys and lists, and at every depth
   * all fields and dependencies, with the same object exactly where the shape has the same number.
   * No two keys share a list object.
   */
  ghost predicate Draws(objects: map<nat, ResourceLocation>, shape: Shape, d: Resources) {
    && objects.Keys == shape.fields.Keys == shape.links.Keys
    && (forall a, b | a in objects && b in objects :: objects[a] == objects[b] ==> a == b)
    && (forall o | o in objects ::
          AsFields(objects[o].attributes) == Some(shape.fields[o])
          && Placed(objects, objects[o].dependencies, shape.links[o]))
    && |d| == |shape.index|
    && (forall i :: 0 <= i < |d| ==>
          d[i].key == shape.index[i].key && Placed(objects, d[i].value.items, shape.index[i].value))
    && forall i, j :: 0 <= i < j < |d| ==> d[i].value != d[j].value
  }

  /** The shape that the records at the given offsets make. */
  ghost function ShapeOf(img: Image, offsets: set<nat>, index: Index): (shape: Shape)
    requires forall o | o in offsets :: FieldsAt(img, o).Ok? && DepsAt(img, o).Ok?
    ensures shape.index == index && shape.fields.Keys == shape.links.Keys == offsets
    ensures forall o | o in offsets :: FieldsAt(img, o) == Ok(shape.fields[o]) && DepsAt(img, o) == Ok(shape.links[o])
  {
    Shape(map o | o in offsets :: FieldsAt(img, o).value, map o | o in offsets :: DepsAt(img, o).value, index)
  }

  ghost function CachedLocations(cache: Cache): set<nat> {
    set o | o in cache && cache[o].LocationEntry?
  }

  ghost function ObjectsAt(cache: Cache, offsets: set<nat>): map<nat, ResourceLocation>
    requires offsets <= CachedLocations(cache)
  {
    map o | o in offsets :: cache[o].location
  }

  lemma LocationReads(img: Image, roles: Roles, cache: Cache, o: nat)
    requires CacheOk(img, roles, cache) && o in CachedLocations(cache)
    ensures AsFields(cache[o].location.attributes).Some?
    ensures FieldsAt(img, o) == Ok(AsFields(cache[o].location.attributes).value) && DepsAt(img, o).Ok?
    ensures Linked(img, cache, o, cache[o].location)
    ensures forall d | d in DepsAt(img, o).value :: d in CachedLocations(cache)
  {
    assert EntryOk(img, roles, cache, o);
  }

  lemma ListedAreCached(cache: Cache, d: Resources, index: Index, i: nat)
    requires Matches(cache, d, index) && i < |d|
    ensures forall o | o in index[i].value :: o in CachedLocations(cache)
  {
    assert Holds(cache, d[i].value.items, index[i].value);
  }

  /** A cache draws the shape of any of its locations that are closed under dependencies. */
  lemma CacheDraws(img: Image, roles: Roles, cache: Cache, offsets: set<nat>, d: Resources, index: Index)
    requires CacheOk(img, roles, cache) && Matches(cache, d, index) && offsets <= CachedLocations(cache)
    requires forall i, j :: 0 <= i < j < |d| ==> d[i].value != d[j].value
    requires forall o | o in offsets :: FieldsAt(img, o).Ok? && DepsAt(img, o).Ok?
    requires forall o | o in offsets :: forall e | e in DepsAt(img, o).value :: e in offsets
    requires forall i :: 0 <= i < |index| ==> forall o | o in index[i].value :: o in offsets
    ensures Draws(ObjectsAt(cache, offsets), ShapeOf(img, offsets, index), d)
  {
    hide FieldsAt, DepsAt, EntryOk, HasRole, AsFields;
    var objects, shape := ObjectsAt(cache, offsets), ShapeOf(img, offsets, index);
    forall a, b | a in objects && b in objects
      ensures objects[a] == objects[b] ==> a == b
    {
      assert OwnObject(cache, a, b);
    }
    forall o | o in objects
      ensures AsFields(objects[o].attributes) == Some(shape.fields[o])
      ensures Placed(objects, objects[o].dependencies, shape.links[o])
    {
      LocationReads(img, roles, cache, o);
    }
    forall i | 0 <= i < |d|
      ensures d[i].key == shape.index[i].key && Placed(objects, d[i].value.items, shape.index[i].value)
    {
      assert Holds(cache, d[i].value.items, index[i].value);
    }
  }

  /** Both results draw one shape, so the object graphs are isomorphic, sharing included. */
  lemma SameIndexSameShape(img: Image, roles: Roles, other: Roles, first: Cache, second: Cache,
                           a: Resources, b: Resources, index: Index)
    returns (shape: Shape, left: map<nat, ResourceLocation>, right: map<nat, ResourceLocation>)
    requires CacheOk(img, roles, first) && Matches(first, a, index) && Carries(img, a, index)
    requires CacheOk(img, other, second) && Matches(second, b, index) && Carries(img, b, index)
    ensures Draws(left, shape, a) && Draws(right, shape, b)
    ensures shape.index == index && InFile(shape, img)
  {
    hide FieldsAt, DepsAt, CacheOk, Matches, Draws, Linked, ListTrue, AsFields;
    var both := CachedLocations(first) * CachedLocations(second);
    forall o | o in both
      ensures FieldsAt(img, o).Ok? && DepsAt(img, o).Ok?
      ensures forall e | e in DepsAt(img, o).value :: e in both
    {
      LocationReads(img, roles, first, o);
      LocationReads(img, other, second, o);
    }
    forall i | 0 <= i < |index|
      ensures forall o | o in index[i].value :: o in both
    {
      ListedAreCached(first, a, index, i);
      ListedAreCached(second, b, index, i);
    }
    shape, left, right := ShapeOf(img, both, index), ObjectsAt(first, both), ObjectsAt(second, both);
    CacheDraws(img, roles, first, both, a, index);
    CacheDraws(img, other, second, both, b, index);
  }

  /** One result by itself draws the shape of its cache. */
  lemma OwnShape(img: Image, roles: Roles, cache: Cache, d: Resources, index: Index)
    returns (shape: Shape, objects: map<nat, ResourceLocation>)
    requires CacheOk(img, roles, cache) && Matches(cache, d, index) && Carries(img, d, index)
    ensures Draws(objects, shape, d)
    ensures shape.index == index && InFile(shape, img)
  {
    hide FieldsAt, DepsAt, CacheOk, Matches, Draws, Linked, ListTrue, AsFields;
    var same;
    shape, objects, same := SameIndexSameShape(img, roles, roles, cache, cache, d, d, index);
  }

  /** A map that parses within some stack parses. */
  lemma WithinParses(img: Image, keysOffset: nat, stack: nat)
    requires ParsesWithin(img, keysOffset, stack)
    ensures Parses(img, keysOffset)
  {
    hide Entries, Decodable;
    forall e | e in Entries(img, keysOffset).value
      ensures forall o | o in e.value :: Decodes(Records(img), o)
    {
      forall o | o in e.value
        ensures Decodes(Records(img), o)
      {
        assert Decodable(Records(img), o, stack);
      }
    }
  }

  /** A map that parses does so within some stack, so recursion is complete up to its depth limit. */
  lemma ParsesWithinSome(img: Image, keysOffset: nat) returns (stack: nat)
    requires Parses(img, keysOffset)
    ensures ParsesWithin(img, keysOffset, stack)
  {
    hide Entries, Decodable, Decodes;
    var entries := Entries(img, keysOffset).value;
    stack := 0;
    for i := 0 to |entries|
      invariant forall k :: 0 <= k < i ==> forall o | o in entries[k].value :: Decodable(Records(img), o, stack)
    {
      assert entries[i] in entries;
      forall j | 0 <= j < |entries[i].value|
        ensures Decodes(Records(img), entries[i].value[j])
      {
        assert entries[i].value[j] in entries[i].value;
      }
      var n := CommonDepth(Records(img), entries[i].value);
      var more := if n < stack then stack else n;
      forall k | 0 <= k <= i
        ensures forall o | o in entries[k].value :: Decodable(Records(img), o, more)
      {
        forall o | o in entries[k].value
          ensures Decodable(Records(img), o, more)
        {
          if k < i {
            DecodableMonotone(Records(img), o, stack, more);
          } else {
            DecodableMonotone(Records(img), o, n, more);
          }
        }
      }
      stack := more;
    }
  }

  /**
   * Decoding one file with both back ends, after any earlier reads whose object cache both start from.
   * On every file, two results of right kinds are the same map. Where each offset is used as one kind
   * of record, the stack parser succeeds exactly when the map parses, the recursive reader exactly when
   * it also has the frames the map takes, and their results are isomorphic.
   */
  method DecodeAfter(reader: PythonReader.CatalogReader, keysOffset: nat, stack: nat)
    returns (python: Result<Resources>, native: Result<Resources>,
             ghost shape: Shape, ghost left: map<nat, ResourceLocation>, ghost right: map<nat, ResourceLocation>)
    requires reader.Valid()
    requires reader.roles.Some? ==>
               && IndexDisciplined(reader.img, reader.roles.value, keysOffset)
               && IndexApart(reader.img, reader.roles.value, keysOffset)
    modifies reader
    ensures reader.Valid()
    ensures python.Ok? && native.Ok? && Clean(python.value) && Clean(native.value) ==>
              SameMap(python.value, native.value)
    ensures reader.roles.Some? ==>
              && (native.Ok? <==> Parses(reader.img, keysOffset))
              && (python.Ok? <==>
                    native.Ok? && FramesNeeded(reader.img, keysOffset, old(reader.Seen())) <= stack)
    ensures reader.roles.Some? && native.Ok? ==>
              Depicts(shape, reader.img, keysOffset) && Draws(right, shape, native.value)
    ensures reader.roles.Some? && python.Ok? ==> SameMap(python.value, native.value) && Draws(left, shape, python.value)
  {
    hide CacheOk, IndexDisciplined, IndexApart, Matches, SameMap, Entries, Decodes, Draws, CacheTrue, ReadAs, Carries,
      Clean, PythonReader.StringsOk, PythonReader.TailsOk, PythonReader.TypeNamesOk, Parses, MapFits, FramesNeeded;
    var img := reader.img;
    ghost var roles := reader.roles;
    shape, left, right := Shape(map[], map[], []), map[], map[];
    var parser := new NativeParser.Parser(img, reader.objectCache, roles);
    MapFitsExactly(img, keysOffset, reader.Seen(), stack);
    ghost var first, second;
    python, first := reader.DecodeResources(keysOffset, stack);
    native, second := parser.Resources(keysOffset);
    if python.Ok? && native.Ok? && Clean(python.value) && Clean(native.value) {
      CleanResultsAgree(img, keysOffset, first, second, python.value, native.value);
    }
    if roles.Some? && native.Ok? && python.Fail? {
      shape, right := OwnShape(img, roles.value, parser.objects, native.value, Collect(second));
    }
    if roles.Some? && python.Ok? {
      ghost var index := Collect(first);
      SameIndexSameMap(img, roles.value, roles.value, reader.objectCache, parser.objects, python.value, native.value,
                       index);
      shape, left, right := SameIndexSameShape(img, roles.value, roles.value, reader.objectCache, parser.objects,
                                               python.value, native.value, index);
    }
  }

  /** The same from a fresh start. */
  method DecodeBoth(img: Image, buffered: bool, keysOffset: nat, stack: nat, ghost roles: Option<Roles>)
    returns (python: Result<Resources>, native: Result<Resources>,
             ghost shape: Shape, ghost left: map<nat, ResourceLocation>, ghost right: map<nat, ResourceLocation>)
    requires roles.Some? ==>
               && Disciplined(img, roles.value) && IndexDisciplined(img, roles.value, keysOffset)
               && IndexApart(img, roles.value, keysOffset)
    ensures python.Ok? && native.Ok? && Clean(python.value) && Clean(native.value) ==>
              SameMap(python.value, native.value)
    ensures roles.Some? ==>
              && (native.Ok? <==> Parses(img, keysOffset))
              && (python.Ok? <==> native.Ok? && FramesNeeded(img, keysOffset, iset{}) <= stack)
    ensures roles.Some? && native.Ok? ==> Depicts(shape, img, keysOffset) && Draws(right, shape, native.value)
    ensures roles.Some? && python.Ok? ==> SameMap(python.value, native.value) && Draws(left, shape, python.value)
  {
    hide Disciplined, IndexDisciplined, IndexApart, Parses, SameMap, Draws, Depicts, Clean, FramesNeeded;
    var reader := new PythonReader.CatalogReader(img, buffered, roles);
    assert reader.Seen() == iset{};
    python, native, shape, left, right := DecodeAfter(reader, keysOffset, stack);
  }

  // ----- Hits that the Python reader does not check, on every file

  /** A hit taken for a type is the type at its offset exactly when the cached object is a type. */
  lemma TypeHitIsRight(img: Image, cache: Cache, o: nat)
    requires CacheTrue(img, cache) && o in cache
    ensures cache[o].TypeEntry? <==> TypeAt(img, o).Ok? && cache[o] == TypeEntry(TypeAt(img, o).value)
  {
    assert EntryTrue(img, o, cache[o]);
  }

  /** Likewise for transfer options. */
  lemma CommonHitIsRight(img: Image, cache: Cache, o: nat)
    requires CacheTrue(img, cache) && o in cache
    ensures cache[o].CommonEntry? <==> CommonAt(img, o).Ok? && cache[o] == CommonEntry(CommonAt(img, o).value)
  {
    assert EntryTrue(img, o, cache[o]);
  }

  /** A hit taken for bundle options is right exactly when it is a bundle whose transfer options are such. */
  lemma BundleHitIsRight(img: Image, cache: Cache, o: nat)
    requires CacheTrue(img, cache) && o in cache
    ensures cache[o].BundleEntry? && cache[o].bundle.common.CommonEntry? <==>
            && BundleAt(img, o).Ok? && cache[o].BundleEntry?
            && AsBundle(cache[o].bundle) == Some(BundleAt(img, o).value)
  {
    assert EntryTrue(img, o, cache[o]);
  }

  /**
   * A hit taken for a location shows the location its record denotes exactly when it is a location and
   * every object it is made of has the kind its place calls for.
   */
  lemma LocationHitIsRight(img: Image, cache: Cache, o: nat)
    requires CacheTrue(img, cache) && o in cache
    ensures ItemClean(cache[o]) <==> ShowsRecord(img, o, cache[o])
  {
    assert EntryTrue(img, o, cache[o]);
  }
}
