/** A catalog on which the back ends differ: an empty dependency array starts where a type does. */
module KindClash {
  import opened Wrappers
  import opened Bytes
  import opened StringSpec
  import opened RecordSpec
  import opened Graph
  import opened Objects
  import opened Dicts
  import opened ResourceMap
  import opened PythonReader
  import opened Writer
  import opened MakeCatalog
  import opened RoundTrip
  import opened CatalogFile

  /** Where everything was written; the array of the location's dependencies starts at its type. */
  datatype Places = Places(assembly: nat, name: nat, shared: nat, data: nat, init: nat, location: nat, list: nat,
                           keys: nat)

  ghost predicate ClashWritten(d: seq<byte>, facts: Facts, named: TypeLabel, version: nat, p: Places) {
    && AllLaidOut(d, facts) && 32 <= |d|
    && TypeWritten(facts, TypeSpot(p.shared, p.assembly, p.name), named)
    && (p.shared, Table([])) in facts
    && (p.data, Record([p.shared, NULL])) in facts
    && (p.init, Record([NULL, p.shared, NULL])) in facts
    && (p.location, Record([NULL, NULL, NULL, p.shared, 0, p.data, p.shared])) in facts
    && (p.list, Table([p.location])) in facts
    && (p.keys, Table([NULL, p.list])) in facts
    && HEADER < p.shared < p.data < p.init < p.location < p.list < p.keys <= |d|
    && Words(d, 0, 8) == [0, version, p.keys, NULL, p.init, p.init, NULL, NULL]
  }

  const NOWHERE := Places(0, 0, 0, 0, 0, 0, 0, 0)

  /** A type record right behind the size of an empty array, so that the array starts where it does. */
  method PutClash(w: CatalogWriter, named: TypeLabel) returns (r: Result<nat>, ghost spot: TypeSpot)
    requires w.Valid()
    modifies w
    ensures w.Valid() && old(w.facts) <= w.facts
    ensures r.Ok? ==>
              && spot.record == r.value && TypeWritten(w.facts, spot, named) && (r.value, Table([])) in w.facts
              && |old(w.data)| < r.value < |w.data| == |old(w.data)| + TypeSize(named) + 4
    ensures TypeAscii(named) && |old(w.data)| + TypeSize(named) + 4 < 0x4000_0000 ==> r.Ok?
  {
    hide LaidOut, AllLaidOut, AsciiOnly;
    spot := TypeSpot(0, 0, 0);
    var assembly :- w.PutString(named.assembly);
    var name :- w.PutString(named.name);
    var none := w.PutOffsets([]);
    var shared :- w.PutRecord([assembly, name], {});
    assert none == Ok(shared);
    spot := TypeSpot(shared, assembly, name);
    return Ok(shared), spot;
  }

  /** A null-keyed location whose dependency array and whose types all start there. */
  method PutClashLocation(w: CatalogWriter, shared: nat) returns (r: Result<(nat, nat)>, ghost data: nat,
                                                                  ghost location: nat)
    requires w.Valid() && shared < |w.data|
    modifies w
    ensures w.Valid() && old(w.facts) <= w.facts
    ensures r.Ok? ==>
              && (data, Record([shared, NULL])) in w.facts
              && (r.value.0, Record([NULL, shared, NULL])) in w.facts
              && (location, Record([NULL, NULL, NULL, shared, 0, data, shared])) in w.facts
              && (r.value.1, Table([location])) in w.facts
              && shared < data < r.value.0 < location < r.value.1 < |w.data| == |old(w.data)| + 56
    ensures |old(w.data)| + 56 < 0x4000_0000 ==> r.Ok?
  {
    hide LaidOut, AllLaidOut;
    data, location := 0, 0;
    var o :- w.PutRecord([shared, NULL], {});
    data := o;
    var init :- w.PutRecord([NULL, shared, NULL], {});
    var l :- w.PutRecord([NULL, NULL, NULL, shared, 0, o, shared], {4});
    location := l;
    var list :- w.PutOffsets([l]);
    return Ok((init, list)), data, location;
  }

  method WriteClash(version: nat, named: TypeLabel) returns (r: Result<seq<byte>>, ghost facts: Facts, ghost p: Places)
    ensures r.Ok? ==> ClashWritten(r.value, facts, named, version, p) && |r.value| == TypeSize(named) + 104
    ensures version < 0x8000_0000 && TypeAscii(named) && TypeSize(named) + 104 < 0x4000_0000 ==> r.Ok?
  {
    hide LaidOut, AllLaidOut, AsciiOnly, TypeAscii;
    facts, p := {}, NOWHERE;
    var w := new CatalogWriter();
    var clashed, spot := PutClash(w, named);
    var shared :- clashed;
    var put, data, location := PutClashLocation(w, shared);
    var placed :- put;
    var (init, list) := placed;
    var keys :- w.PutOffsets([NULL, list]);
    var _ :- w.PatchHeader([0, version, keys, NULL, init, init, NULL, NULL]);
    p := Places(spot.assembly, spot.name, shared, data, init, location, list, keys);
    return Ok(w.data), w.facts, p;
  }

  /** The type is of a kind that a null payload gives a default. */
  predicate KindKnown(named: TypeLabel, version: nat, builtin: string -> Kind) {
    match MatchName(TypeOf(named), version)
    case Fail => false
    case Ok(name) => builtin(name) != CustomKind && builtin(name) != UnsupportedKind
  }

  function HeaderOf(version: nat, p: Places): Header {
    Header(version, p.keys, NULL, p.init, p.init, NULL, NULL)
  }

  lemma ClashHeader(d: seq<byte>, facts: Facts, named: TypeLabel, version: nat, p: Places)
    requires ClashWritten(d, facts, named, version, p) && 1 <= version <= 3
    ensures ReadHeader(d) == Ok(HeaderOf(version, p))
  {
    hide AllLaidOut, TypeWritten;
    var words := Words(d, 0, 8);
    assert U32(d, 4) == words[1] && U32(d, 8) == words[2] && U32(d, 12) == words[3] && U32(d, 16) == words[4];
    assert U32(d, 20) == words[5] && U32(d, 24) == words[6] && U32(d, 28) == words[7];
  }

  /** What the records of the file read as, with no cache. */
  ghost predicate ClashReads(img: Image, p: Places) {
    && TypeAt(img, p.shared).Ok? && KindAt(img, p.shared).Ok?
    && ReadU32s(img.data, p.data, 2) == Ok([p.shared, NULL])
    && ObjectAt(img, p.data).Ok?
    && ReadU32s(img.data, p.location, 7) == Ok([NULL, NULL, NULL, p.shared, 0, p.data, p.shared])
    && FieldsAt(img, p.location).Ok? && DepsAt(img, p.location) == Ok([])
    && ArrayAt(img, p.list) == Ok([p.location])
    && ArrayAt(img, p.keys) == Ok([NULL, p.list])
    && InitAt(img, p.init).Ok? && InitType(img, p.init) == Some(p.shared)
    && HEADER < p.shared < p.data < p.init < p.location < p.list < p.keys < NULL
  }

  lemma NullStrings(img: Image)
    ensures Encoded(img, NULL, 0) == Encoded(img, NULL, '/' as int) == Encoded(img, NULL, '.' as int) == Ok(None)
    ensures ArrayAt(img, NULL) == Ok([]) && ObjectAt(img, NULL) == Ok((NoneValue, None))
  {
  }

  lemma DefaultObject(img: Image, o: nat, t: nat)
    requires ReadU32s(img.data, o, 2) == Ok([t, NULL]) && o != NULL
    requires KindAt(img, t).Ok? && KindAt(img, t).value != CustomKind && KindAt(img, t).value != UnsupportedKind
    ensures ObjectAt(img, o).Ok?
  {
    hide TypeAt, MatchName;
  }

  lemma ClashMeans(img: Image, facts: Facts, named: TypeLabel, p: Places)
    requires ClashWritten(img.data, facts, named, img.version, p) && |img.data| < 0x4000_0000
    requires KindKnown(named, img.version, img.builtin)
    ensures ClashReads(img, p)
  {
    hide AllLaidOut, LaidOut, Encoded, TypeAt, MatchName, ObjectAt, ArrayAt, TypeWritten;
    NullStrings(img);
    TypeMeans(img, facts, TypeSpot(p.shared, p.assembly, p.name), named);
    RecordMeans(img, facts, p.data, [p.shared, NULL]);
    RecordMeans(img, facts, p.init, [NULL, p.shared, NULL]);
    RecordMeans(img, facts, p.location, [NULL, NULL, NULL, p.shared, 0, p.data, p.shared]);
    TableMeans(img, facts, p.shared, []);
    TableMeans(img, facts, p.list, [p.location]);
    TableMeans(img, facts, p.keys, [NULL, p.list]);
    DefaultObject(img, p.data, p.shared);
  }

  /** The Rust back end sees no clash, since it caches no arrays. */
  lemma ClashIsApart(img: Image, p: Places)
    requires ClashReads(img, p)
    ensures RecordsApart(img, HeaderOf(img.version, p))
    ensures DataAt(img, HeaderOf(img.version, p)).Ok? && Parses(img, p.keys)
  {
    hide TypeAt, ObjectAt, FieldsAt, DepsAt, ArrayAt, InitAt, KindAt, Encoded, InitType;
    NullStrings(img);
    var roles: Roles := map[p.shared := TypeRole, p.location := LocationRole];
    assert LocationDisciplined(img, roles, p.location);
    assert Disciplined(img, roles);
    assert PairsAt(img, p.keys) == Ok([NULL, p.list]);
    assert PairDisciplined(img, roles, NULL, p.list);
    assert FileDisciplined(img, HeaderOf(img.version, p), roles);
    ClashParses(img, p);
  }

  lemma ClashParses(img: Image, p: Places)
    requires ClashReads(img, p)
    ensures Parses(img, p.keys)
  {
    hide TypeAt, ObjectAt, FieldsAt, DepsAt, ArrayAt, InitAt, KindAt, InitType;
    NullStrings(img);
    var pairs := [NULL, p.list];
    assert PairsAt(img, p.keys) == Ok(pairs);
    assert Decodable(Records(img), p.location, 1);
    assert PairReads(img, NULL, p.list);
    PairAdds(img, pairs, 0, []);
    var entries := Entries(img, p.keys).value;
    assert entries == [KeySlot(Made(NoneValue), [p.location])];
  }

  /** The Python back end reads the array and then takes it for the type. */
  lemma ClashIsAhead(img: Image, p: Places)
    requires ClashReads(img, p)
    ensures HeaderMisses(img, HeaderOf(img.version, p)) && FirstPairClashes(img, p.keys, map[], map[])
  {
    hide TypeAt, ObjectAt, FieldsAt, DepsAt, ArrayAt, InitAt, KindAt;
    NullStrings(img);
    assert PairsAt(img, p.keys) == Ok([NULL, p.list]);
    assert Clashes(img, p.location);
  }

  /**
   * On this file the Rust back end succeeds and the Python one fails, however deep its stack. In the
   * header phase both read the type; then the array replaces it in the Python reader's cache.
   */
  method BackEndsDiffer(version: nat, named: TypeLabel, buffered: bool, stack: nat,
                        utf16: seq<byte> -> Option<string>, builtin: string -> Kind)
    returns (python: Result<Catalog>, native: Result<Catalog>)
    requires 1 <= version <= 3 && TypeAscii(named) && TypeSize(named) + 104 < 0x4000_0000
    requires KindKnown(named, version, builtin)
    ensures python.Fail? && native.Ok?
  {
    hide ClashWritten, ClashReads, KindKnown, ReadHeader, DataAt, Parses, HeaderMisses, FirstPairClashes,
      RecordsApart, AllApart, TypeAscii;
    var file, facts, p := WriteClash(version, named);
    ClashHeader(file.value, facts, named, version, p);
    ghost var img := Image(file.value, version, utf16, builtin);
    ClashMeans(img, facts, named, p);
    ClashIsApart(img, p);
    ClashIsAhead(img, p);
    ghost var shape, left, right;
    python, native, shape, left, right := ParseBinary(file.value, buffered, stack, utf16, builtin);
  }
}
