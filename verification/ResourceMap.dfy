/** The resource map: keys in insertion order, each with a list of its own. */
module ResourceMap {
  import opened Wrappers
  import opened Bytes
  import opened StringSpec
  import opened RecordSpec
  import opened Graph
  import opened Objects
  import opened Dicts

  /** A list object; lists of two keys are never the same object. */
  class LocationList {
    const items: seq<Entry>

    constructor (items: seq<Entry>)
      ensures this.items == items
    {
      this.items := items;
    }
  }

  type Resources = Dict<Data, LocationList>

  type Index = Dict<Data, seq<nat>>

  /** Dictionary keys compare as numbers across booleans and integers. */
  function KeyClass(key: Data): Data {
    match key
    case Made(BoolValue(b)) => Made(IntValue(if b then 1 else 0))
    case _ => key
  }

  /** Mutable objects cannot be keys; types are immutable. */
  predicate Hashable(key: Data) {
    match key
    case Made(v) => !v.BundleValue?
    case Hit(e) => e.TypeEntry?
  }

  function KeySlot<V>(key: Data, v: V): Slot<Data, V> {
    Slot(key, KeyClass(key), v)
  }

  // ----- What the index denotes, with no cache

  /** The pairs of object and list offsets in the top-level index. */
  function PairsAt(img: Image, keysOffset: nat): (r: Result<seq<nat>>)
    ensures r.Ok? ==> |r.value| % 2 == 0 && forall i :: 0 <= i < |r.value| ==> r.value[i] <= NULL
  {
    var words :- ArrayAt(img, keysOffset);
    if |words| % 2 != 0 then Fail else Ok(words)
  }

  /** The keys of the first n pairs, each with its list of location offsets. */
  ghost function EntriesOf(img: Image, pairs: seq<nat>, n: nat): (r: Result<Index>)
    requires 2 * n <= |pairs|
    ensures r.Ok? ==> |r.value| == n
  {
    if n == 0 then Ok([]) else
    var before :- EntriesOf(img, pairs, n - 1);
    var key :- ObjectAt(img, pairs[2 * n - 2]);
    var offsets :- ArrayAt(img, pairs[2 * n - 1]);
    if Hashable(Made(key.0)) then Ok(before + [KeySlot(Made(key.0), offsets)]) else Fail
  }

  lemma {:induction false} EntriesPrefix(img: Image, pairs: seq<nat>, m: nat, n: nat)
    requires m <= n && 2 * n <= |pairs| && EntriesOf(img, pairs, n).Ok?
    ensures EntriesOf(img, pairs, m).Ok? && EntriesOf(img, pairs, m).value == EntriesOf(img, pairs, n).value[..m]
    decreases n
  {
    hide ObjectAt, ArrayAt;
    if m < n {
      EntriesPrefix(img, pairs, m, n - 1);
    }
  }

  ghost function Entries(img: Image, keysOffset: nat): Result<Index> {
    var pairs :- PairsAt(img, keysOffset);
    EntriesOf(img, pairs, |pairs| / 2)
  }

  /** The index can be read and every listed location decodes. */
  ghost predicate Parses(img: Image, keysOffset: nat) {
    && Entries(img, keysOffset).Ok?
    && forall e | e in Entries(img, keysOffset).value :: forall o | o in e.value :: Decodes(Records(img), o)
  }

  /** As Parses, with every location decodable by recursion at most stack records deep. */
  ghost predicate ParsesWithin(img: Image, keysOffset: nat, stack: nat) {
    && Entries(img, keysOffset).Ok?
    && forall e | e in Entries(img, keysOffset).value :: forall o | o in e.value :: Decodable(Records(img), o, stack)
  }

  /** One pair of the index can be read and each listed location decodes. */
  ghost predicate PairReads(img: Image, keyOffset: nat, list: nat) {
    && ObjectAt(img, keyOffset).Ok?
    && Hashable(Made(ObjectAt(img, keyOffset).value.0))
    && ArrayAt(img, list).Ok?
    && forall o | o in ArrayAt(img, list).value :: Decodes(Records(img), o)
  }

  lemma NoEntries(img: Image, pairs: seq<nat>)
    ensures EntriesOf(img, pairs, 0) == Ok([]) && Collect<Data, seq<nat>>([]) == []
  {
  }

  /** Assigning one more entry is collecting one more. */
  lemma CollectAdds(entries: Index, e: Slot<Data, seq<nat>>)
    ensures Collect(entries + [e]) == Assign(Collect(entries), e)
  {
    assert (entries + [e])[..|entries|] == entries;
  }

  /** Reading one more pair adds its entry. */
  lemma PairAdds(img: Image, pairs: seq<nat>, i: nat, entries: Index)
    requires 2 * i + 1 < |pairs| && EntriesOf(img, pairs, i) == Ok(entries)
    requires PairReads(img, pairs[2 * i], pairs[2 * i + 1])
    ensures EntriesOf(img, pairs, i + 1) ==
            Ok(entries + [KeySlot(Made(ObjectAt(img, pairs[2 * i]).value.0), ArrayAt(img, pairs[2 * i + 1]).value)])
    ensures forall o | o in ArrayAt(img, pairs[2 * i + 1]).value :: Decodes(Records(img), o)
  {
    hide ObjectAt, ArrayAt, Decodes;
  }

  /** Each pair of a map that parses can itself be read. */
  lemma ParsedPairReads(img: Image, keysOffset: nat, i: nat)
    requires Parses(img, keysOffset) && 2 * i + 1 < |PairsAt(img, keysOffset).value|
    ensures var pairs := PairsAt(img, keysOffset).value; PairReads(img, pairs[2 * i], pairs[2 * i + 1])
  {
    hide ObjectAt, ArrayAt, PairsAt, Decodes;
    var pairs := PairsAt(img, keysOffset).value;
    EntriesPrefix(img, pairs, i + 1, |pairs| / 2);
    var entries := Entries(img, keysOffset).value;
    assert entries[i] == entries[..i + 1][i] && entries[i] in entries;
  }

  // ----- Discipline of the index

  ghost predicate PairDisciplined(img: Image, roles: Roles, keyOffset: nat, list: nat) {
    && ObjectDisciplined(img, roles, keyOffset)
    && (ArrayAt(img, list).Ok? ==>
          forall i :: 0 <= i < |ArrayAt(img, list).value| ==> HasRole(roles, ArrayAt(img, list).value[i], LocationRole))
  }

  /** The top-level index uses each offset as one kind of record. */
  ghost predicate IndexDisciplined(img: Image, roles: Roles, keysOffset: nat) {
    PairsAt(img, keysOffset).Ok? ==>
      var pairs := PairsAt(img, keysOffset).value;
      forall k :: 0 <= k < |pairs| / 2 ==> PairDisciplined(img, roles, pairs[2 * k], pairs[2 * k + 1])
  }

  /** The arrays of the index, too, are used as nothing else. */
  ghost predicate IndexApart(img: Image, roles: Roles, keysOffset: nat) {
    && ArraysApart(img, roles)
    && ArrayDisciplined(roles, keysOffset)
    && (PairsAt(img, keysOffset).Ok? ==>
          var pairs := PairsAt(img, keysOffset).value;
          forall k :: 0 <= k < |pairs| / 2 ==> ArrayDisciplined(roles, pairs[2 * k + 1]))
  }

  // ----- What keys are, apart from how they are compared

  /** The number that a key compares as. */
  function Number(key: Data): Option<int> {
    match key
    case Made(BoolValue(b)) => Some(if b then 1 else 0)
    case Made(IntValue(i)) => Some(i)
    case _ => None
  }

  /** Two keys share a binding exactly when they are the same value or the same number. */
  lemma KeysShareBinding<V>(a: Data, b: Data, v: V, w: V)
    ensures Collect([KeySlot(a, v), KeySlot(b, w)]) ==
            if a == b || (Number(a).Some? && Number(a) == Number(b))
            then [KeySlot(a, w)] else [KeySlot(a, v), KeySlot(b, w)]
  {
    var one := [KeySlot(a, v)];
    assert [KeySlot(a, v), KeySlot(b, w)][..1] == one && one[..0] == [];
    assert Collect(one[..0]) == [];
    assert Collect(one) == one;
  }

  /** A map with a bundle for a key cannot be built; any other value can be a key. */
  lemma BundleKeyFails(img: Image, pairs: seq<nat>, k: nat, n: nat)
    requires k < n && 2 * n <= |pairs| && ObjectAt(img, pairs[2 * k]).Ok?
    requires ObjectAt(img, pairs[2 * k]).value.0.BundleValue?
    ensures EntriesOf(img, pairs, n).Fail?
  {
    hide ObjectAt, ArrayAt;
    if EntriesOf(img, pairs, n).Ok? {
      EntriesPrefix(img, pairs, k + 1, n);
    }
  }

  // ----- Results on every file

  /** The entries as they were read: lists from the file, and each key right if it is of a right kind. */
  ghost predicate ReadAs(img: Image, pairs: seq<nat>, raw: Index) {
    && 2 * |raw| <= |pairs|
    && forall k :: 0 <= k < |raw| ==> PairReadAs(img, pairs[2 * k], pairs[2 * k + 1], raw[k])
  }

  ghost predicate PairReadAs(img: Image, keyOffset: nat, list: nat, e: Slot<Data, seq<nat>>) {
    && e.norm == KeyClass(e.key) && Hashable(e.key)
    && ArrayAt(img, list) == Ok(e.value)
    && (AsValue(e.key).Some? ==> ObjectAt(img, keyOffset).Ok? && e.key == Made(ObjectAt(img, keyOffset).value.0))
  }

  /** The result is the dictionary of the raw entries with lists of true objects, no two lists the same object. */
  ghost predicate Carries(img: Image, d: Resources, index: Index) {
    && |d| == |index|
    && (forall i :: 0 <= i < |d| ==>
          && d[i].key == index[i].key && d[i].norm == index[i].norm
          && ListTrue(img, d[i].value.items, index[i].value))
    && (forall i, j :: 0 <= i < j < |d| ==> d[i].value != d[j].value)
  }

  lemma CarriesAssign(img: Image, d: Resources, index: Index, key: Data, list: LocationList, offsets: seq<nat>)
    requires Carries(img, d, index) && ListTrue(img, list.items, offsets)
    requires forall i :: 0 <= i < |d| ==> d[i].value != list
    ensures Carries(img, Assign(d, KeySlot(key, list)), Assign(index, KeySlot(key, offsets)))
  {
    FindTogether(d, index, KeyClass(key), 0);
  }

  /** The object is a location that shows the whole location graph the record at o denotes. */
  ghost predicate ShowsRecord(img: Image, o: nat, e: Entry) {
    e.LocationEntry? && Decodes(Records(img), o) && Shows(e.location, Meaning(Records(img), o))
  }

  /** The object has the kind its place calls for, all the way down. */
  ghost predicate ItemClean(e: Entry) {
    e.LocationEntry? && exists v :: Shows(e.location, v)
  }

  ghost predicate Clean(d: Resources) {
    forall i :: 0 <= i < |d| ==>
      AsValue(d[i].key).Some? && forall j :: 0 <= j < |d[i].value.items| ==> ItemClean(d[i].value.items[j])
  }

  /** Raw entries whose keys are all of a right kind are the entries of the index. */
  lemma {:induction false} CleanKeysAreRight(img: Image, pairs: seq<nat>, raw: Index, n: nat)
    requires ReadAs(img, pairs, raw) && n <= |raw|
    requires forall k :: 0 <= k < n ==> AsValue(raw[k].key).Some?
    ensures EntriesOf(img, pairs, n) == Ok(raw[..n])
  {
    hide ObjectAt, ArrayAt;
    if n > 0 {
      CleanKeysAreRight(img, pairs, raw, n - 1);
      assert PairReadAs(img, pairs[2 * (n - 1)], pairs[2 * (n - 1) + 1], raw[n - 1]);
      assert raw[..n] == raw[..n - 1] + [raw[n - 1]];
    }
  }

  /** If every key of a result is of a right kind, so is every key that was read. */
  lemma RawKeyIsClean(img: Image, pairs: seq<nat>, raw: Index, d: Resources, k: nat)
    requires ReadAs(img, pairs, raw) && Carries(img, d, Collect(raw)) && Clean(d) && k < |raw|
    ensures AsValue(raw[k].key).Some?
  {
    hide ObjectAt, ArrayAt, ListTrue, Collect, ItemClean;
    KeysStay(raw, k);
    var i :| 0 <= i < |Collect(raw)| && Collect(raw)[i].norm == raw[k].norm;
    assert raw[..|raw|] == raw;
    NormsAgree(img, pairs, raw, |raw|, i);
    assert d[i].key == Collect(raw)[i].key && AsValue(d[i].key).Some?;
    assert PairReadAs(img, pairs[2 * k], pairs[2 * k + 1], raw[k]);
  }

  /**
   * On every file: a result in which every object has a right kind is right. Its keys and lists are
   * those of the index, and each object shows the location its record denotes.
   */
  lemma CleanResultIsRight(img: Image, keysOffset: nat, raw: Index, d: Resources)
    requires PairsAt(img, keysOffset).Ok? && 2 * |raw| == |PairsAt(img, keysOffset).value|
    requires ReadAs(img, PairsAt(img, keysOffset).value, raw) && Carries(img, d, Collect(raw)) && Clean(d)
    ensures Entries(img, keysOffset) == Ok(raw)
    ensures forall i, j :: 0 <= i < |d| && 0 <= j < |d[i].value.items| ==>
              ShowsRecord(img, Collect(raw)[i].value[j], d[i].value.items[j])
  {
    hide ObjectAt, ArrayAt, PairsAt, Decodes, Meaning, Records, EntryTrue, Collect, EntriesOf, ShowsRecord, ItemClean,
      ReadAs;
    var pairs := PairsAt(img, keysOffset).value;
    forall k | 0 <= k < |raw|
      ensures AsValue(raw[k].key).Some?
    {
      RawKeyIsClean(img, pairs, raw, d, k);
    }
    CleanKeysAreRight(img, pairs, raw, |raw|);
    assert raw[..|raw|] == raw;
    forall i, j | 0 <= i < |d| && 0 <= j < |d[i].value.items|
      ensures ShowsRecord(img, Collect(raw)[i].value[j], d[i].value.items[j])
    {
      assert ListTrue(img, d[i].value.items, Collect(raw)[i].value);
      CleanItemIsRight(img, Collect(raw)[i].value[j], d[i].value.items[j]);
    }
  }

  lemma CleanItemIsRight(img: Image, o: nat, e: Entry)
    requires EntryTrue(img, o, e) && ItemClean(e)
    ensures ShowsRecord(img, o, e)
  {
  }

  /** The key kept in a slot stands in the same class as every key bound there. */
  lemma {:induction false} NormsAgree(img: Image, pairs: seq<nat>, raw: Index, n: nat, i: nat)
    requires ReadAs(img, pairs, raw) && n <= |raw| && i < |Collect(raw[..n])|
    ensures Collect(raw[..n])[i].norm == KeyClass(Collect(raw[..n])[i].key)
    ensures Hashable(Collect(raw[..n])[i].key)
  {
    hide ObjectAt, ArrayAt;
    if n > 0 {
      assert raw[..n][..n - 1] == raw[..n - 1];
      assert PairReadAs(img, pairs[2 * (n - 1)], pairs[2 * (n - 1) + 1], raw[n - 1]);
      if i < |Collect(raw[..n - 1])| {
        NormsAgree(img, pairs, raw, n - 1, i);
      }
    }
  }

  // ----- Results where each offset is used as one kind of record

  ghost predicate Matches(cache: Cache, d: Resources, index: Index) {
    && |d| == |index|
    && forall i :: 0 <= i < |d| ==>
         && d[i].key == index[i].key && d[i].norm == index[i].norm
         && Holds(cache, d[i].value.items, index[i].value)
  }

  lemma MatchesGrows(before: Cache, after: Cache, d: Resources, index: Index)
    requires Matches(before, d, index) && Grows(before, after)
    ensures Matches(after, d, index)
  {
    forall i | 0 <= i < |d|
      ensures Holds(after, d[i].value.items, index[i].value)
    {
      assert Holds(before, d[i].value.items, index[i].value);
    }
  }

  lemma MatchesAssign(cache: Cache, d: Resources, index: Index, key: Data, list: LocationList, offsets: seq<nat>)
    requires Matches(cache, d, index) && Holds(cache, list.items, offsets)
    ensures Matches(cache, Assign(d, KeySlot(key, list)), Assign(index, KeySlot(key, offsets)))
  {
    FindTogether(d, index, KeyClass(key), 0);
  }

  /** Two positions of a result hold one object exactly when they come from one record offset. */
  lemma SharingIsExact(img: Image, roles: Roles, cache: Cache, d: Resources, index: Index, i: nat, j: nat, k: nat,
                       m: nat)
    requires CacheOk(img, roles, cache) && Matches(cache, d, index)
    requires i < |d| && j < |d[i].value.items| && k < |d| && m < |d[k].value.items|
    ensures j < |index[i].value| && m < |index[k].value|
    ensures d[i].value.items[j] == d[k].value.items[m] <==> index[i].value[j] == index[k].value[m]
  {
    assert Holds(cache, d[i].value.items, index[i].value) && Holds(cache, d[k].value.items, index[k].value);
    assert OwnObject(cache, index[i].value[j], index[k].value[m]);
  }

  /** Every object in a result shows the whole location graph that its record denotes. */
  lemma ResultShowsMeaning(img: Image, roles: Roles, cache: Cache, d: Resources, index: Index, i: nat, j: nat)
    requires CacheOk(img, roles, cache) && Matches(cache, d, index)
    requires i < |d| && j < |d[i].value.items|
    ensures j < |index[i].value| && ShowsRecord(img, index[i].value[j], d[i].value.items[j])
  {
    assert Holds(cache, d[i].value.items, index[i].value);
    CachedObjectShowsMeaning(img, roles, cache, index[i].value[j]);
  }
}
