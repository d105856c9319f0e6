/** The Rust table decoders: byte ranges for buckets, and one index check per field. */
module JsonNative {
  import opened Wrappers
  import opened Bytes
  import opened Dicts
  import opened JsonSpec
  import IdPrefix

  /** A bucket keeps its entries as a range of the bucket bytes. */
  datatype Range = Range(key: nat, lo: nat, hi: nat)

  predicate RangeOf(d: seq<byte>, r: Range, b: Bucket) {
    && r.lo <= r.hi <= |d|
    && (r.hi - r.lo) % 4 == 0
    && b == Bucket(r.key, Ints(d, r.lo, (r.hi - r.lo) / 4))
  }

  ghost predicate Ranged(d: seq<byte>, ranges: seq<Range>, buckets: seq<Bucket>) {
    |ranges| == |buckets| && forall i :: 0 <= i < |ranges| ==> RangeOf(d, ranges[i], buckets[i])
  }

  method BucketRange(d: seq<byte>, start: nat) returns (r: Result<Range>)
    ensures r.Ok? <==> BucketAt(d, start).Ok?
    ensures r.Ok? ==> RangeOf(d, r.value, BucketAt(d, start).value)
    ensures r.Ok? ==> r.value.hi == start + 8 + 4 * |BucketAt(d, start).value.entries|
  {
    if start + 8 > |d| {
      return Fail;
    }
    var key, entries := S32(d, start), S32(d, start + 4);
    if key < 0 || entries < 0 {
      return Fail;
    }
    var cursor, size := start + 8, 4 * entries;
    if cursor + size > |d| {
      return Fail;
    }
    return Ok(Range(key, cursor, cursor + size));
  }

  /** A count that could not fit is refused before anything is reserved for it. */
  method BucketRanges(d: seq<byte>) returns (r: Result<seq<Range>>)
    ensures r.Ok? <==> BucketTable(d).Ok?
    ensures r.Ok? ==> Ranged(d, r.value, BucketTable(d).value)
  {
    hide BucketAt, U32, RangeOf;
    if |d| < 4 {
      return Fail;
    }
    var count := S32(d, 0);
    if count < 0 {
      return Fail;
    }
    if count > (|d| - 4) / 8 {
      LargeCountFails(d, count);
      return Fail;
    }
    var buckets: seq<Range>, cursor := [], 4;
    for i := 0 to count
      invariant Buckets(d, i).Ok? && cursor == Buckets(d, i).value.1
      invariant Ranged(d, buckets, Buckets(d, i).value.0)
    {
      if Buckets(d, count).Ok? {
        BucketsPrefix(d, i + 1, count);
      }
      var bucket :- BucketRange(d, cursor);
      buckets := buckets + [bucket];
      cursor := bucket.hi;
    }
    return Ok(buckets);
  }

  function Key(lib: Library, d: seq<byte>, o: nat): (r: Result<JsonValue>)
    ensures r == match ObjectAt(lib, d, o) case Fail => Fail case Ok(v) => Ok(v.0)
  {
    if o + 1 > |d| then Fail
    else if d[o] == 0 || d[o] == 1 then
      if o + 5 > |d| then Fail else
      var size := S32(d, o + 1);
      if size < 0 || o + 5 + size > |d| then Fail else
      var text :- TextOf(lib, d[o + 5..o + 5 + size], d[o] == 1);
      Ok(Text(text))
    else
      var decoded :- ObjectAt(lib, d, o);
      Ok(decoded.0)
  }

  method Keys(lib: Library, d: seq<byte>, ranges: seq<Range>, ghost buckets: seq<Bucket>)
    returns (r: Result<seq<JsonValue>>)
    requires |ranges| == |buckets| && forall i :: 0 <= i < |ranges| ==> ranges[i].key == buckets[i].key
    ensures r == KeyTable(lib, d, buckets)
  {
    hide ObjectAt, Key;
    if |d| < 4 {
      return Fail;
    }
    var count := S32(d, 0);
    if count < 0 || count != |ranges| {
      return Fail;
    }
    var keys := [];
    for i := 0 to |ranges|
      invariant KeysOf(lib, d, buckets, i) == Ok(keys)
    {
      if KeysOf(lib, d, buckets, |buckets|).Ok? {
        KeysPrefix(lib, d, buckets, i + 1, |buckets|);
      }
      var key :- Key(lib, d, ranges[i].key);
      keys := keys + [key];
    }
    return Ok(keys);
  }

  /** Every ID is replaced in place when the catalog has prefixes. */
  method Expand(lib: Library, lists: Lists) returns (ids: seq<string>)
    ensures ids == ExpandedIds(lib, lists)
  {
    ids := lists.internalIds;
    if lists.prefixes != [] {
      for i := 0 to |ids|
        invariant |ids| == |lists.internalIds|
        invariant forall j :: 0 <= j < i ==> ids[j] == ExpandedIds(lib, lists)[j]
        invariant forall j :: i <= j < |ids| ==> ids[j] == lists.internalIds[j]
      {
        IdPrefix.ExpansionsAgree(lib.otherInt, ids[i], lists.prefixes);
        ids := ids[i := IdPrefix.NativeExpand(lib.otherInt, ids[i], lists.prefixes)];
      }
    }
  }

  function Index(index: int, count: nat): Result<nat> {
    if index < 0 || index >= count then Fail else Ok(index)
  }

  function Location(lib: Library, lists: Lists, ids: seq<string>, keys: seq<JsonValue>, extra: seq<byte>, w: seq<int>)
      : (r: Result<JsonLocation>)
    requires |w| == 7 && ids == ExpandedIds(lib, lists)
    ensures r == LocationOf(lib, lists, keys, extra, w)
  {
    var id :- Index(w[0], |ids|);
    var provider :- Index(w[1], |lists.providers|);
    var dependencyKey :- if w[2] < 0 then Ok(None) else
      match Index(w[2], |keys|) case Fail => Fail case Ok(k) => Ok(Some(keys[k]));
    var primary :- Index(w[5], if lists.keys.None? then |keys| else |lists.keys.value|);
    var t :- Index(w[6], |lists.types|);
    var text := if lists.keys.None? then lib.str(keys[primary]) else lists.keys.value[primary];
    if w[4] < 0 then
      Ok(JsonLocation(ids[id], lists.providers[provider], dependencyKey, None, w[3], text, lists.types[t], None))
    else
      var data :- ObjectAt(lib, extra, w[4]);
      Ok(JsonLocation(ids[id], lists.providers[provider], dependencyKey, Some(data.0), w[3], text, lists.types[t],
                      data.1))
  }

  method Locations(lib: Library, lists: Lists, keys: seq<JsonValue>, d: seq<byte>, extra: seq<byte>)
    returns (r: Result<seq<JsonLocation>>)
    ensures r == LocationTable(lib, lists, keys, d, extra)
  {
    hide ObjectAt, ExpandedIds, LocationOf, Location;
    if |d| < 4 {
      return Fail;
    }
    var count := S32(d, 0);
    if count < 0 || 4 + 28 * count > |d| {
      return Fail;
    }
    var ids := Expand(lib, lists);
    var locations := [];
    for i := 0 to count
      invariant LocationsOf(lib, lists, keys, d, extra, i) == Ok(locations)
    {
      if LocationsOf(lib, lists, keys, d, extra, count).Ok? {
        LocationsPrefix(lib, lists, keys, d, extra, i + 1, count);
      }
      var location :- Location(lib, lists, ids, keys, extra, Ints(d, 4 + 28 * i, 7));
      locations := locations + [location];
    }
    return Ok(locations);
  }

  /** Every entry of a bucket is checked before any location is looked up. */
  method PickRange(locations: seq<JsonLocation>, d: seq<byte>, range: Range, ghost bucket: Bucket)
    returns (r: Result<seq<nat>>)
    requires RangeOf(d, range, bucket)
    ensures r == Pick(|locations|, bucket.entries)
  {
    var entries := Ints(d, range.lo, (range.hi - range.lo) / 4);
    for i := 0 to |entries|
      invariant InRange(entries[..i], |locations|)
    {
      var _ :- Index(entries[i], |locations|);
      assert entries[..i + 1] == entries[..i] + [entries[i]];
    }
    assert entries[..|entries|] == entries;
    var values: seq<nat> := seq(|entries|, i requires 0 <= i < |entries| => entries[i]);
    assert values == Pick(|locations|, entries).value;
    return Ok(values);
  }

  method Resources(lib: Library, lists: Lists, tables: Tables) returns (r: Result<JsonMap>)
    ensures r == ResourcesOf(lib, lists, tables)
  {
    hide Buckets, KeyTable, LocationTable, Pick;
    var ranges :- BucketRanges(tables.buckets);
    ghost var buckets := BucketTable(tables.buckets).value;
    var keys :- Keys(lib, tables.keys, ranges, buckets);
    var locations :- Locations(lib, lists, keys, tables.entries, tables.extra);
    var result: JsonResources := [];
    for i := 0 to |keys|
      invariant MapOf(keys, buckets, |locations|, i) == Ok(result)
    {
      if MapOf(keys, buckets, |locations|, |buckets|).Ok? {
        MapPrefix(keys, buckets, |locations|, i + 1, |buckets|);
      }
      var values :- PickRange(locations, tables.buckets, ranges[i], buckets[i]);
      if keys[i].Options? {
        return Fail;
      }
      result := Assign(result, Slot(keys[i], keys[i], values));
    }
    return Ok(JsonMap(locations, result));
  }
}
