/** What the embedded tables of a JSON catalog denote, as functions of their bytes. */
module JsonSpec {
  import opened Wrappers
  import opened Bytes
  import StringSpec
  import RecordSpec
  import IdPrefix
  import opened Dicts

  type SerializedType = RecordSpec.SerializedType

  datatype JsonValue =
    | Text(text: string)
    | Number(n: int)
    | HashText(hash: string)
    | TypeText(clsid: string)
    | ClassObject(t: SerializedType, json: string)
    | Options(options: RecordSpec.BundleOptions)

  /** Library code both back ends call, and the two halves of the bundle options' type name. */
  datatype Library = Library(
    utf16: seq<byte> -> Option<string>, readOptions: string -> Result<JsonValue>, str: JsonValue -> string,
    otherInt: string -> Option<int>, bundleAssembly: string, bundleClass: string)

  /** The header lists of a catalog that its locations index. */
  datatype Lists = Lists(
    internalIds: seq<string>, prefixes: seq<string>, providers: seq<string>, types: seq<SerializedType>,
    keys: Option<seq<string>>)

  function S32(d: seq<byte>, o: nat): int
    requires o + 4 <= |d|
  {
    Signed32(U32(d, o))
  }

  function Ints(d: seq<byte>, o: nat, n: nat): (r: seq<int>)
    requires o + 4 * n <= |d|
    ensures |r| == n
  {
    seq(n, i requires 0 <= i < n => S32(d, o + 4 * i))
  }

  function TextOf(lib: Library, raw: seq<byte>, unicode: bool): Result<string> {
    match if unicode then lib.utf16(raw) else StringSpec.Ascii(raw)
    case None => Fail
    case Some(text) => Ok(text)
  }

  // ----- Buckets

  datatype Bucket = Bucket(key: nat, entries: seq<int>)

  function BucketAt(d: seq<byte>, o: nat): (r: Result<Bucket>)
    ensures r.Ok? ==> o + 8 + 4 * |r.value.entries| <= |d|
  {
    if o + 8 > |d| then Fail else
    var key, count := S32(d, o), S32(d, o + 4);
    if key < 0 || count < 0 || o + 8 + 4 * count > |d| then Fail
    else Ok(Bucket(key, Ints(d, o + 8, count)))
  }

  /** The first n buckets and the position behind them. */
  function Buckets(d: seq<byte>, n: nat): (r: Result<(seq<Bucket>, nat)>)
    ensures r.Ok? ==> |r.value.0| == n && 4 + 8 * n <= r.value.1
  {
    if n == 0 then Ok(([], 4)) else
    var before :- Buckets(d, n - 1);
    var b :- BucketAt(d, before.1);
    Ok((before.0 + [b], before.1 + 8 + 4 * |b.entries|))
  }

  function BucketTable(d: seq<byte>): Result<seq<Bucket>> {
    if |d| < 4 || S32(d, 0) < 0 then Fail else
    var all :- Buckets(d, S32(d, 0));
    Ok(all.0)
  }

  lemma {:induction false} BucketsPrefix(d: seq<byte>, m: nat, n: nat)
    requires m <= n && Buckets(d, n).Ok?
    ensures Buckets(d, m).Ok? && Buckets(d, m).value.1 <= Buckets(d, n).value.1
    decreases n
  {
    if m < n {
      BucketsPrefix(d, m, n - 1);
    }
  }

  lemma BucketsFit(d: seq<byte>, n: nat)
    requires n > 0 && Buckets(d, n).Ok?
    ensures Buckets(d, n).value.1 <= |d|
  {
    var before := Buckets(d, n - 1).value;
    assert before.1 + 8 + 4 * |BucketAt(d, before.1).value.entries| <= |d|;
  }

  /** A table of n buckets is at least 4 + 8n bytes long, so a larger count can be refused at once. */
  lemma LargeCountFails(d: seq<byte>, n: nat)
    requires |d| >= 4 && n > (|d| - 4) / 8
    ensures Buckets(d, n).Fail?
  {
    if Buckets(d, n).Ok? {
      BucketsFit(d, n);
    }
  }

  // ----- Serialized objects

  function ShortText(lib: Library, d: seq<byte>, o: nat): Result<(string, nat)> {
    if o >= |d| || o + 1 + d[o] as int > |d| then Fail else
    var text :- TextOf(lib, d[o + 1..o + 1 + d[o] as int], false);
    Ok((text, o + 1 + d[o] as int))
  }

  function LongText(lib: Library, d: seq<byte>, o: nat, unicode: bool): Result<string> {
    if o + 4 > |d| then Fail else
    var size := S32(d, o);
    if size < 0 || o + 4 + size > |d| then Fail else TextOf(lib, d[o + 4..o + 4 + size], unicode)
  }

  /** The type of a class object whose text holds bundle options. */
  predicate IsBundleOptions(lib: Library, assembly: string, name: string) {
    RecordSpec.BeforeComma(assembly) == lib.bundleAssembly && name == lib.bundleClass
  }

  function ClassObjectAt(lib: Library, d: seq<byte>, o: nat): Result<(JsonValue, Option<SerializedType>)> {
    var assembly :- ShortText(lib, d, o);
    var name :- ShortText(lib, d, assembly.1);
    var json :- LongText(lib, d, name.1, true);
    var t := RecordSpec.SerializedType(Some(assembly.0), Some(name.0));
    if IsBundleOptions(lib, assembly.0, name.0) then
      var options :- lib.readOptions(json);
      Ok((options, Some(t)))
    else Ok((ClassObject(t, json), Some(t)))
  }

  function ObjectAt(lib: Library, d: seq<byte>, o: nat): Result<(JsonValue, Option<SerializedType>)> {
    if o >= |d| then Fail
    else if d[o] == 0 || d[o] == 1 then
      var text :- LongText(lib, d, o + 1, d[o] == 1);
      Ok((Text(text), None))
    else if d[o] == 2 then
      if o + 3 > |d| then Fail else Ok((Number(U16(d, o + 1)), None))
    else if d[o] == 3 then
      if o + 5 > |d| then Fail else Ok((Number(U32(d, o + 1)), None))
    else if d[o] == 4 then
      if o + 5 > |d| then Fail else Ok((Number(S32(d, o + 1)), None))
    else if d[o] == 5 then
      var text :- ShortText(lib, d, o + 1);
      Ok((HashText(text.0), None))
    else if d[o] == 6 then
      var text :- ShortText(lib, d, o + 1);
      Ok((TypeText(text.0), None))
    else if d[o] == 7 then ClassObjectAt(lib, d, o + 1)
    else Fail
  }

  /** The keys at the offsets of the first n buckets. */
  function KeysOf(lib: Library, d: seq<byte>, buckets: seq<Bucket>, n: nat): (r: Result<seq<JsonValue>>)
    requires n <= |buckets|
    ensures r.Ok? ==> |r.value| == n
  {
    if n == 0 then Ok([]) else
    var before :- KeysOf(lib, d, buckets, n - 1);
    var key :- ObjectAt(lib, d, buckets[n - 1].key);
    Ok(before + [key.0])
  }

  function KeyTable(lib: Library, d: seq<byte>, buckets: seq<Bucket>): (r: Result<seq<JsonValue>>)
    ensures r.Ok? ==> |r.value| == |buckets|
  {
    if |d| < 4 || S32(d, 0) != |buckets| then Fail else KeysOf(lib, d, buckets, |buckets|)
  }

  // ----- Locations

  datatype JsonLocation = JsonLocation(
    internalId: string, providerId: string, dependencyKey: Option<JsonValue>, data: Option<JsonValue>,
    dependencyHash: int, primaryKey: string, resourceType: SerializedType, dataType: Option<SerializedType>)

  function ItemAt<T>(values: seq<T>, index: int): Result<T> {
    if 0 <= index < |values| then Ok(values[index]) else Fail
  }

  function ExpandedIds(lib: Library, lists: Lists): seq<string> {
    var ids := lists.internalIds;
    if lists.prefixes == [] then ids else
    seq(|ids|, i requires 0 <= i < |ids| => IdPrefix.PythonExpand(lib.otherInt, ids[i], lists.prefixes))
  }

  function PrimaryKey(lib: Library, lists: Lists, keys: seq<JsonValue>, index: int): Result<string> {
    match lists.keys
    case Some(texts) => ItemAt(texts, index)
    case None =>
      var key :- ItemAt(keys, index);
      Ok(lib.str(key))
  }

  /** The location that seven words denote, with its data read from the extra bytes. */
  function LocationOf(lib: Library, lists: Lists, keys: seq<JsonValue>, extra: seq<byte>, w: seq<int>)
      : Result<JsonLocation>
    requires |w| == 7
  {
    var id :- ItemAt(ExpandedIds(lib, lists), w[0]);
    var provider :- ItemAt(lists.providers, w[1]);
    var dependencyKey :- if w[2] < 0 then Ok(None) else
      match ItemAt(keys, w[2]) case Fail => Fail case Ok(k) => Ok(Some(k));
    var primary :- PrimaryKey(lib, lists, keys, w[5]);
    var t :- ItemAt(lists.types, w[6]);
    if w[4] < 0 then Ok(JsonLocation(id, provider, dependencyKey, None, w[3], primary, t, None)) else
    var data :- ObjectAt(lib, extra, w[4]);
    Ok(JsonLocation(id, provider, dependencyKey, Some(data.0), w[3], primary, t, data.1))
  }

  function LocationsOf(lib: Library, lists: Lists, keys: seq<JsonValue>, d: seq<byte>, extra: seq<byte>, n: nat)
      : (r: Result<seq<JsonLocation>>)
    requires 4 + 28 * n <= |d|
    ensures r.Ok? ==> |r.value| == n
  {
    if n == 0 then Ok([]) else
    var before :- LocationsOf(lib, lists, keys, d, extra, n - 1);
    var location :- LocationOf(lib, lists, keys, extra, Ints(d, 4 + 28 * (n - 1), 7));
    Ok(before + [location])
  }

  function LocationTable(lib: Library, lists: Lists, keys: seq<JsonValue>, d: seq<byte>, extra: seq<byte>)
      : Result<seq<JsonLocation>>
  {
    if |d| < 4 || S32(d, 0) < 0 || 4 + 28 * S32(d, 0) > |d| then Fail
    else LocationsOf(lib, lists, keys, d, extra, S32(d, 0))
  }

  // ----- The resource map

  predicate InRange(entries: seq<int>, count: nat) {
    forall i :: 0 <= i < |entries| ==> 0 <= entries[i] < count
  }

  /** The places in the location table that a bucket lists. */
  function Pick(count: nat, entries: seq<int>): Result<seq<nat>> {
    if InRange(entries, count)
    then Ok(seq(|entries|, i requires 0 <= i < |entries| => entries[i])) else Fail
  }

  /** Location objects are numbered by their place in the table: the same number is the same object. */
  type JsonResources = Dict<JsonValue, seq<nat>>

  datatype JsonMap = JsonMap(locations: seq<JsonLocation>, resources: JsonResources)

  /** The dictionary after the first n buckets; option records cannot be keys. */
  function MapOf(keys: seq<JsonValue>, buckets: seq<Bucket>, count: nat, n: nat): Result<JsonResources>
    requires n <= |keys| == |buckets|
  {
    if n == 0 then Ok([]) else
    var before :- MapOf(keys, buckets, count, n - 1);
    var listed :- Pick(count, buckets[n - 1].entries);
    if keys[n - 1].Options? then Fail else Ok(Assign(before, Slot(keys[n - 1], keys[n - 1], listed)))
  }

  /** The four embedded tables. */
  datatype Tables = Tables(buckets: seq<byte>, keys: seq<byte>, entries: seq<byte>, extra: seq<byte>)

  function ResourcesOf(lib: Library, lists: Lists, tables: Tables): Result<JsonMap> {
    var buckets :- BucketTable(tables.buckets);
    var keys :- KeyTable(lib, tables.keys, buckets);
    var locations :- LocationTable(lib, lists, keys, tables.entries, tables.extra);
    var resources :- MapOf(keys, buckets, |locations|, |buckets|);
    Ok(JsonMap(locations, resources))
  }

  /** The entries that the first n buckets assign. */
  function BucketEntries(keys: seq<JsonValue>, buckets: seq<Bucket>, count: nat, n: nat): JsonResources
    requires n <= |keys| == |buckets|
    requires forall i :: 0 <= i < n ==> InRange(buckets[i].entries, count)
  {
    seq(n, i requires 0 <= i < n => Slot(keys[i], keys[i], Pick(count, buckets[i].entries).value))
  }

  /** The dictionary is the buckets' entries assigned in order, so the last bucket of a key wins. */
  lemma {:induction false} MapCollects(keys: seq<JsonValue>, buckets: seq<Bucket>, count: nat, n: nat)
    requires n <= |keys| == |buckets| && MapOf(keys, buckets, count, n).Ok?
    ensures forall i :: 0 <= i < n ==> InRange(buckets[i].entries, count) && !keys[i].Options?
    ensures MapOf(keys, buckets, count, n).value == Collect(BucketEntries(keys, buckets, count, n))
  {
    if n > 0 {
      MapCollects(keys, buckets, count, n - 1);
      assert BucketEntries(keys, buckets, count, n)[..n - 1] == BucketEntries(keys, buckets, count, n - 1);
    }
  }

  lemma {:induction false} KeysPrefix(lib: Library, d: seq<byte>, buckets: seq<Bucket>, m: nat, n: nat)
    requires m <= n <= |buckets| && KeysOf(lib, d, buckets, n).Ok?
    ensures KeysOf(lib, d, buckets, m).Ok?
    decreases n
  {
    if m < n {
      KeysPrefix(lib, d, buckets, m, n - 1);
    }
  }

  lemma {:induction false} LocationsPrefix(lib: Library, lists: Lists, keys: seq<JsonValue>, d: seq<byte>,
                                           extra: seq<byte>, m: nat, n: nat)
    requires m <= n && 4 + 28 * n <= |d| && LocationsOf(lib, lists, keys, d, extra, n).Ok?
    ensures LocationsOf(lib, lists, keys, d, extra, m).Ok?
    decreases n
  {
    hide LocationOf, Ints;
    if m < n {
      LocationsPrefix(lib, lists, keys, d, extra, m, n - 1);
    }
  }

  lemma {:induction false} MapPrefix(keys: seq<JsonValue>, buckets: seq<Bucket>, count: nat, m: nat, n: nat)
    requires m <= n <= |keys| == |buckets| && MapOf(keys, buckets, count, n).Ok?
    ensures MapOf(keys, buckets, count, m).Ok?
    decreases n
  {
    if m < n {
      MapPrefix(keys, buckets, count, m, n - 1);
    }
  }

  predicate NoSemicolon(s: string) {
    forall i :: 0 <= i < |s| ==> s[i] != ';'
  }

  /** Comparing a joined type name is comparing its halves, when neither wanted half has a semicolon. */
  lemma JoinedNameSplits(a: string, b: string, s: string, c: string)
    requires NoSemicolon(a) && NoSemicolon(b)
    ensures s + "; " + c == a + "; " + b <==> s == a && c == b
  {
    var x, y := s + "; " + c, a + "; " + b;
    if x == y {
      assert x[|s|] == ';';
      assert forall i :: 0 <= i < |y| && i != |a| ==> y[i] != ';';
      assert s == x[..|s|] == y[..|a|] == a;
      assert c == x[|s| + 2..] == y[|a| + 2..] == b;
    }
  }
}
