/** The Python table decoders: streamed objects and bulk index checks with slow paths. */
module JsonPython {
  import opened Wrappers
  import opened Bytes
  import opened Dicts
  import opened JsonSpec
  import RecordSpec

  /** A byte stream with a cursor. */
  class BinaryReader {
    const data: seq<byte>
    var pos: nat

    constructor (data: seq<byte>)
      ensures this.data == data && pos == 0
    {
      this.data, pos := data, 0;
    }

    method ReadExact(count: int) returns (r: Result<seq<byte>>)
      modifies this
      ensures count < 0 ==> r == Fail
      ensures count >= 0 && old(pos) <= |data| ==> r == Slice(data, old(pos), count)
      ensures count > 0 && old(pos) > |data| ==> r == Fail
      ensures r.Ok? ==> pos == old(pos) + count && |r.value| == count
    {
      if count < 0 {
        return Fail;
      }
      var end := if pos + count <= |data| then pos + count else |data|;
      var raw := if pos <= end then data[pos..end] else [];
      pos := pos + |raw|;
      if |raw| != count {
        return Fail;
      }
      return Ok(raw);
    }

    method ReadInt32() returns (r: Result<int>)
      modifies this
      ensures r == if old(pos) + 4 <= |data| then Ok(S32(data, old(pos))) else Fail
      ensures r.Ok? ==> pos == old(pos) + 4
    {
      var raw :- ReadExact(4);
      U32OfSlice(data, old(pos));
      return Ok(Signed32(U32(raw, 0)));
    }

    method ReadString1(lib: Library) returns (r: Result<string>)
      modifies this
      ensures r == match ShortText(lib, data, old(pos)) case Fail => Fail case Ok(text) => Ok(text.0)
      ensures r.Ok? ==> ShortText(lib, data, old(pos)) == Ok((r.value, pos))
    {
      var length :- ReadExact(1);
      var raw :- ReadExact(length[0]);
      r := TextOf(lib, raw, false);
    }

    method ReadString4(lib: Library, unicode: bool) returns (r: Result<string>)
      modifies this
      ensures r == LongText(lib, data, old(pos), unicode)
    {
      var length :- ReadInt32();
      var raw :- ReadExact(length);
      return TextOf(lib, raw, unicode);
    }

    /** Class objects are recognised as bundle options by their joined match name. */
    method DecodeClassObject(lib: Library) returns (r: Result<(JsonValue, Option<SerializedType>)>)
      requires NoSemicolon(lib.bundleAssembly) && NoSemicolon(lib.bundleClass)
      modifies this
      ensures r == ClassObjectAt(lib, data, old(pos))
    {
      var assembly :- ReadString1(lib);
      var name :- ReadString1(lib);
      var json :- ReadString4(lib, true);
      var t := RecordSpec.SerializedType(Some(assembly), Some(name));
      var matchName := RecordSpec.MatchName(t, 1).value;
      JoinedNameSplits(lib.bundleAssembly, lib.bundleClass, RecordSpec.BeforeComma(assembly), name);
      if matchName == lib.bundleAssembly + "; " + lib.bundleClass {
        var options :- lib.readOptions(json);
        return Ok((options, Some(t)));
      }
      return Ok((ClassObject(t, json), Some(t)));
    }

    method DecodeV1(lib: Library) returns (r: Result<(JsonValue, Option<SerializedType>)>)
      requires NoSemicolon(lib.bundleAssembly) && NoSemicolon(lib.bundleClass)
      modifies this
      ensures r == ObjectAt(lib, data, old(pos))
    {
      hide ClassObjectAt, ShortText, LongText;
      var kind :- ReadExact(1);
      if kind[0] == 0 || kind[0] == 1 {
        var text :- ReadString4(lib, kind[0] == 1);
        return Ok((Text(text), None));
      } else if kind[0] == 2 {
        var raw :- ReadExact(2);
        return Ok((Number(U16(raw, 0)), None));
      } else if kind[0] == 3 {
        var raw :- ReadExact(4);
        U32OfSlice(data, old(pos) + 1);
        return Ok((Number(U32(raw, 0)), None));
      } else if kind[0] == 4 {
        var n :- ReadInt32();
        return Ok((Number(n), None));
      } else if kind[0] == 5 {
        var text :- ReadString1(lib);
        return Ok((HashText(text), None));
      } else if kind[0] == 6 {
        var text :- ReadString1(lib);
        return Ok((TypeText(text), None));
      } else if kind[0] == 7 {
        r := DecodeClassObject(lib);
        return r;
      }
      return Fail;
    }
  }

  method ReadBucket(d: seq<byte>, start: nat) returns (r: Result<(nat, seq<int>)>)
    ensures r == match BucketAt(d, start) case Fail => Fail case Ok(b) => Ok((b.key, b.entries))
  {
    var cursor := start;
    if cursor + 8 > |d| {
      return Fail;
    }
    var offset, size := S32(d, cursor), S32(d, cursor + 4);
    cursor := cursor + 8;
    if offset < 0 || size < 0 {
      return Fail;
    }
    if cursor + 4 * size > |d| {
      return Fail;
    }
    return Ok((offset, Ints(d, cursor, size)));
  }

  method ReadBuckets(d: seq<byte>) returns (r: Result<(seq<nat>, seq<seq<int>>)>)
    ensures r.Ok? <==> BucketTable(d).Ok?
    ensures r.Ok? ==> Zipped(r.value.0, r.value.1, BucketTable(d).value)
  {
    hide BucketAt, U32;
    if |d| < 4 {
      return Fail;
    }
    var count := S32(d, 0);
    if count < 0 {
      return Fail;
    }
    var offsets: seq<nat>, entries: seq<seq<int>>, cursor := [], [], 4;
    for i := 0 to count
      invariant Buckets(d, i).Ok? && cursor == Buckets(d, i).value.1
      invariant Zipped(offsets, entries, Buckets(d, i).value.0)
    {
      if Buckets(d, count).Ok? {
        BucketsPrefix(d, i + 1, count);
      }
      var bucket :- ReadBucket(d, cursor);
      offsets, entries := offsets + [bucket.0], entries + [bucket.1];
      cursor := cursor + 8 + 4 * |bucket.1|;
    }
    return Ok((offsets, entries));
  }

  /** The parallel lists of key offsets and entries. */
  ghost predicate Zipped(offsets: seq<nat>, entries: seq<seq<int>>, buckets: seq<Bucket>) {
    && |offsets| == |entries| == |buckets|
    && forall i :: 0 <= i < |buckets| ==> buckets[i] == Bucket(offsets[i], entries[i])
  }

  /** String keys are decoded in place, other keys through a stream. */
  method ReadKey(lib: Library, reader: BinaryReader, o: nat) returns (r: Result<JsonValue>)
    requires NoSemicolon(lib.bundleAssembly) && NoSemicolon(lib.bundleClass)
    modifies reader
    ensures r == match ObjectAt(lib, reader.data, o) case Fail => Fail case Ok(v) => Ok(v.0)
  {
    hide ClassObjectAt, ShortText, U32;
    var d := reader.data;
    if o >= |d| {
      return Fail;
    }
    if d[o] <= 1 {
      if o + 5 > |d| {
        return Fail;
      }
      var length := S32(d, o + 1);
      if length < 0 || o + 5 + length > |d| {
        return Fail;
      }
      var text :- TextOf(lib, d[o + 5..o + 5 + length], d[o] != 0);
      return Ok(Text(text));
    }
    reader.pos := o;
    var key :- reader.DecodeV1(lib);
    return Ok(key.0);
  }

  method ReadKeys(lib: Library, d: seq<byte>, offsets: seq<nat>, ghost buckets: seq<Bucket>)
    returns (r: Result<seq<JsonValue>>)
    requires NoSemicolon(lib.bundleAssembly) && NoSemicolon(lib.bundleClass)
    requires |offsets| == |buckets| && forall i :: 0 <= i < |buckets| ==> buckets[i].key == offsets[i]
    ensures r == KeyTable(lib, d, buckets)
  {
    hide ObjectAt, U32;
    var reader := new BinaryReader(d);
    var count :- reader.ReadInt32();
    if count < 0 || count != |offsets| {
      return Fail;
    }
    var keys := [];
    for i := 0 to |offsets|
      invariant KeysOf(lib, d, buckets, i) == Ok(keys)
    {
      if KeysOf(lib, d, buckets, |buckets|).Ok? {
        KeysPrefix(lib, d, buckets, i + 1, |buckets|);
      }
      var key :- ReadKey(lib, reader, offsets[i]);
      keys := keys + [key];
    }
    return Ok(keys);
  }

  /** The combined check of a record's indices. */
  predicate AllInRange(w: seq<int>, ids: nat, providers: nat, keys: nat, primaries: nat, types: nat)
    requires |w| == 7
  {
    0 <= w[0] < ids && 0 <= w[1] < providers && w[2] < keys && 0 <= w[5] < primaries && 0 <= w[6] < types
  }

  /** The slow path looks each index up in turn; it fails exactly when the combined check does. */
  method CheckEach(w: seq<int>, ids: nat, providers: nat, keys: nat, primaries: nat, types: nat) returns (ok: bool)
    requires |w| == 7
    ensures ok == AllInRange(w, ids, providers, keys, primaries, types)
  {
    if !(0 <= w[0] < ids) {
      return false;
    }
    if !(0 <= w[1] < providers) {
      return false;
    }
    if w[2] >= 0 {
      if !(w[2] < keys) {
        return false;
      }
    }
    if !(0 <= w[5] < primaries) {
      return false;
    }
    if !(0 <= w[6] < types) {
      return false;
    }
    return true;
  }

  method ReadLocation(lib: Library, lists: Lists, ids: seq<string>, keys: seq<JsonValue>, extra: BinaryReader,
                      w: seq<int>)
    returns (r: Result<JsonLocation>)
    requires NoSemicolon(lib.bundleAssembly) && NoSemicolon(lib.bundleClass)
    requires |w| == 7 && ids == ExpandedIds(lib, lists)
    modifies extra
    ensures r == LocationOf(lib, lists, keys, extra.data, w)
  {
    hide ObjectAt, ExpandedIds;
    var primaryCount := if lists.keys.None? then |keys| else |lists.keys.value|;
    if !AllInRange(w, |ids|, |lists.providers|, |keys|, primaryCount, |lists.types|) {
      var ok := CheckEach(w, |ids|, |lists.providers|, |keys|, primaryCount, |lists.types|);
      if !ok {
        return Fail;
      }
    }
    var id, provider := ids[w[0]], lists.providers[w[1]];
    var dependencyKey := if w[2] >= 0 then Some(keys[w[2]]) else None;
    var data, dataType := None, None;
    if w[4] >= 0 {
      extra.pos := w[4];
      var decoded :- extra.DecodeV1(lib);
      data, dataType := Some(decoded.0), decoded.1;
    }
    var primary := if lists.keys.None? then lib.str(keys[w[5]]) else lists.keys.value[w[5]];
    return Ok(JsonLocation(id, provider, dependencyKey, data, w[3], primary, lists.types[w[6]], dataType));
  }

  method ReadLocations(lib: Library, lists: Lists, keys: seq<JsonValue>, d: seq<byte>, extra: seq<byte>)
    returns (r: Result<seq<JsonLocation>>)
    requires NoSemicolon(lib.bundleAssembly) && NoSemicolon(lib.bundleClass)
    ensures r == LocationTable(lib, lists, keys, d, extra)
  {
    hide ObjectAt, ExpandedIds, LocationOf;
    var reader := new BinaryReader(extra);
    if |d| < 4 {
      return Fail;
    }
    var count := S32(d, 0);
    if count < 0 || |d| < 4 + 28 * count {
      return Fail;
    }
    var ids := ExpandedIds(lib, lists);
    var locations := [];
    for i := 0 to count
      invariant LocationsOf(lib, lists, keys, d, extra, i) == Ok(locations)
    {
      if LocationsOf(lib, lists, keys, d, extra, count).Ok? {
        LocationsPrefix(lib, lists, keys, d, extra, i + 1, count);
      }
      var location :- ReadLocation(lib, lists, ids, keys, reader, Ints(d, 4 + 28 * i, 7));
      locations := locations + [location];
    }
    return Ok(locations);
  }

  function Smallest(entries: seq<int>, n: nat): (m: int)
    requires 0 < n <= |entries|
    ensures forall i :: 0 <= i < n ==> m <= entries[i]
    ensures exists i :: 0 <= i < n && m == entries[i]
  {
    if n == 1 then entries[0]
    else if entries[n - 1] < Smallest(entries, n - 1) then entries[n - 1] else Smallest(entries, n - 1)
  }

  function Largest(entries: seq<int>, n: nat): (m: int)
    requires 0 < n <= |entries|
    ensures forall i :: 0 <= i < n ==> entries[i] <= m
    ensures exists i :: 0 <= i < n && m == entries[i]
  {
    if n == 1 then entries[0]
    else if entries[n - 1] > Largest(entries, n - 1) then entries[n - 1] else Largest(entries, n - 1)
  }

  /** One bucket's locations: a direct check for one entry, the smallest and largest for more. */
  method PickLocations(locations: seq<JsonLocation>, entries: seq<int>) returns (r: Result<seq<nat>>)
    ensures r == Pick(|locations|, entries)
  {
    if |entries| == 1 {
      var entry := entries[0];
      if !(0 <= entry < |locations|) {
        return Fail;
      }
      assert [entry] == Pick(|locations|, entries).value;
      return Ok([entry]);
    }
    if entries != [] && (Smallest(entries, |entries|) < 0 || Largest(entries, |entries|) >= |locations|) {
      for i := 0 to |entries|
        invariant forall k :: 0 <= k < i ==> 0 <= entries[k] < |locations|
      {
        if ItemAt(locations, entries[i]).Fail? {
          return Fail;
        }
      }
    }
    var picked: seq<nat> := seq(|entries|, i requires 0 <= i < |entries| => entries[i]);
    assert picked == Pick(|locations|, entries).value;
    return Ok(picked);
  }

  method DecodeResources(lib: Library, lists: Lists, tables: Tables) returns (r: Result<JsonMap>)
    requires NoSemicolon(lib.bundleAssembly) && NoSemicolon(lib.bundleClass)
    ensures r == ResourcesOf(lib, lists, tables)
  {
    hide Buckets, KeyTable, LocationTable, Pick;
    var read :- ReadBuckets(tables.buckets);
    var (offsets, entries) := read;
    ghost var buckets := BucketTable(tables.buckets).value;
    var keys :- ReadKeys(lib, tables.keys, offsets, buckets);
    var locations :- ReadLocations(lib, lists, keys, tables.entries, tables.extra);
    var resources: JsonResources := [];
    for i := 0 to |keys|
      invariant MapOf(keys, buckets, |locations|, i) == Ok(resources)
    {
      if MapOf(keys, buckets, |locations|, |buckets|).Ok? {
        MapPrefix(keys, buckets, |locations|, i + 1, |buckets|);
      }
      var listed :- PickLocations(locations, entries[i]);
      if keys[i].Options? {
        return Fail;
      }
      resources := Assign(resources, Slot(keys[i], keys[i], listed));
    }
    return Ok(JsonMap(locations, resources));
  }
}
