/** The reference reader: cursor, string caches, shared object cache, memoised recursion. */
module PythonReader {
  import opened Wrappers
  import opened Bytes
  import opened StringSpec
  import opened ChainWalk
  import opened RecordSpec
  import opened Graph
  import opened Objects
  import opened Dicts
  import opened ResourceMap
  import opened Frames
  import opened MapFrames

  datatype StringKey = PlainKey(encoded: nat) | DynamicKey(encoded: nat, separator: nat)

  ghost predicate StringsOk(img: Image, cache: map<StringKey, string>) {
    forall k | k in cache ::
      match k
      case PlainKey(e) => Basic(img, e) == Ok(cache[k])
      case DynamicKey(e, s) =>
        0 < s < 256 && IsDynamic(e, s) && !IsNullString(e) && Encoded(img, e, s) == Ok(Some(cache[k]))
  }

  function KeyOf(encoded: nat, separator: nat): StringKey {
    if IsDynamic(encoded, separator) then DynamicKey(encoded, separator) else PlainKey(encoded)
  }

  /** Every cached tail is the full part list of a chain that ends. */
  ghost predicate TailsOk(img: Image, cache: map<nat, seq<string>>) {
    forall o | o in cache :: Chain(img, o) == Ok(cache[o])
  }

  datatype TypeName = TypeName(version: nat, t: SerializedType, name: string)

  ghost predicate TypeNamesOk(img: Image, cache: map<nat, TypeName>) {
    forall o | o in cache ::
      cache[o].version == img.version ==>
        TypeAt(img, o) == Ok(cache[o].t) && MatchName(cache[o].t, img.version) == Ok(cache[o].name)
  }

  /** The offsets that, since something else is cached there, can no longer be read as a type. */
  ghost function UntypedIn(cache: Cache, names: map<nat, TypeName>): iset<nat> {
    iset o: nat | o in cache && !cache[o].TypeEntry? && o !in names
  }

  /** The type offset of a typed object. */
  function TypeOffset(img: Image, o: nat): Option<nat> {
    if o == NULL then None else
    match ReadU32s(img.data, o, 2)
    case Fail => None
    case Ok(words) => Some(words[0])
  }

  /** The offset of a location's dependency array. */
  function ArrayOffset(img: Image, o: nat): nat {
    match ReadU32s(img.data, o, 7)
    case Fail => NULL
    case Ok(words) => words[3]
  }

  /** A location whose dependency array starts where the type of its data does. */
  predicate Clashes(img: Image, o: nat) {
    match ReadU32s(img.data, o, 7)
    case Fail => false
    case Ok(words) => words[3] != NULL && TypeOffset(img, words[5]) == Some(words[3])
  }

  /** A location that clashes and was not decoded before, nor its type read. */
  predicate ClashAhead(img: Image, o: nat, cache: Cache, names: map<nat, TypeName>) {
    Clashes(img, o) && o !in cache && ArrayOffset(img, o) !in names
  }

  lemma NullArray(img: Image)
    ensures ArrayAt(img, NULL) == Ok([])
  {
  }

  class CatalogReader {
    const img: Image
    /** Whether the reader was given the buffer behind its stream. */
    const buffered: bool
    /** The kind of record that each offset is used as, if each is used as one. */
    ghost const roles: Option<Roles>
    var pos: nat
    var objectCache: Cache
    var stringCache: map<StringKey, string>
    var tailCache: map<nat, seq<string>>
    var typeNameCache: map<nat, TypeName>

    ghost predicate StringsValid()
      reads this
    {
      StringsOk(img, stringCache) && TailsOk(img, tailCache)
    }

    ghost predicate Valid()
      reads this
    {
      && StringsValid()
      && TypeNamesOk(img, typeNameCache)
      && CacheState(img, roles, objectCache)
    }

    /** The record offsets whose locations are cached. */
    ghost function Seen(): iset<nat>
      reads this
    {
      SeenIn(objectCache)
    }

    ghost function Untyped(): iset<nat>
      reads this
    {
      UntypedIn(objectCache, typeNameCache)
    }

    constructor (img: Image, buffered: bool, ghost roles: Option<Roles>)
      requires roles.Some? ==> Disciplined(img, roles.value)
      ensures Valid() && this.img == img && this.buffered == buffered && this.roles == roles
      ensures objectCache == map[] && stringCache == map[] && tailCache == map[] && typeNameCache == map[]
    {
      this.img, this.buffered, this.roles := img, buffered, roles;
      pos := 0;
      objectCache, stringCache, tailCache, typeNameCache := map[], map[], map[], map[];
    }

    // ----- Stream and buffer access

    method Seek(position: int) returns (r: Result<()>)
      modifies `pos
      ensures r.Ok? <==> position >= 0
      ensures pos == if position >= 0 then position else old(pos)
    {
      if position < 0 {
        return Fail;
      }
      pos := position;
      return Ok(());
    }

    method ReadExact(count: int) returns (r: Result<seq<byte>>)
      modifies `pos
      ensures r == if count < 0 then Fail else if count == 0 then Ok([]) else Slice(img.data, old(pos), count)
      ensures r.Ok? ==> pos == old(pos) + count
    {
      if count < 0 {
        return Fail;
      }
      var end := if pos + count <= |img.data| then pos + count else |img.data|;
      var data := if pos <= end then img.data[pos..end] else [];
      pos := pos + |data|;
      if |data| != count {
        return Fail;
      }
      return Ok(data);
    }

    /** Reads a structure at an absolute position; the stream cursor comes back even on failure. */
    method ReadStructAt(position: int, size: nat) returns (r: Result<seq<byte>>)
      requires size > 0
      modifies `pos
      ensures pos == old(pos)
      ensures r == Slice(img.data, position, size)
    {
      if !buffered {
        var current := pos;
        var _ :- Seek(position);
        r := ReadExact(size);
        var _ := Seek(current);
        return r;
      }
      if position < 0 || position + size > |img.data| {
        return Fail;
      }
      return Ok(img.data[position..position + size]);
    }

    method ReadStructFrom(position: int, size: nat) returns (r: Result<seq<byte>>)
      requires size > 0
      modifies `pos
      ensures r == Slice(img.data, position, size)
    {
      if !buffered {
        var _ :- Seek(position);
        r := ReadExact(size);
        return r;
      }
      if position < 0 || position + size > |img.data| {
        return Fail;
      }
      return Ok(img.data[position..position + size]);
    }

    /** Bytes at a position. Only an empty read past the end tells a stream from a buffer. */
    method ReadBytesAt(position: int, count: int) returns (r: Result<seq<byte>>)
      modifies `pos
      ensures pos == old(pos)
      ensures count < 0 ==> r == Fail
      ensures count >= 0 && !(count == 0 && position > |img.data|) ==> r == Slice(img.data, position, count)
      ensures count == 0 && position > |img.data| ==> r == if buffered then Fail else Ok([])
    {
      if count < 0 {
        return Fail;
      }
      if !buffered {
        var current := pos;
        var _ :- Seek(position);
        assert count == 0 && position <= |img.data| ==> img.data[position..position] == [];
        r := ReadExact(count);
        var _ := Seek(current);
        return r;
      }
      if position < 0 || position + count > |img.data| {
        return Fail;
      }
      return Ok(img.data[position..position + count]);
    }

    method ReadWordsFrom(position: int, n: nat) returns (r: Result<seq<nat>>)
      requires n > 0
      modifies `pos
      ensures r == ReadU32s(img.data, position, n)
    {
      var raw :- ReadStructFrom(position, 4 * n);
      WordsOfSlice(img.data, position, n);
      return Ok(Words(raw, 0, n));
    }

    /** The length prefix of a string or array, with the cursor left behind it on a stream. */
    method ReadPrefix(o: nat) returns (r: Result<int>)
      modifies `pos
      ensures r == if o < 4 || o > |img.data| then Fail else Ok(Signed32(U32(img.data, o - 4)))
      ensures r.Ok? && !buffered ==> pos == o
    {
      if !buffered {
        var _ :- Seek(o - 4);
        var raw :- ReadExact(4);
        U32OfSlice(img.data, o - 4);
        return Ok(Signed32(U32(raw, 0)));
      }
      if o < 4 || o > |img.data| {
        return Fail;
      }
      return Ok(Signed32(U32(img.data, o - 4)));
    }

    // ----- Strings

    method ReadBasicString(o: nat, unicode: bool) returns (r: Result<string>)
      modifies `pos
      ensures r == BasicAt(img, o, unicode)
    {
      var length :- ReadPrefix(o);
      if length < 0 {
        return Fail;
      }
      var data;
      if !buffered {
        data :- ReadExact(length);
        assert data == img.data[o..o + length];
      } else {
        if o + length > |img.data| {
          return Fail;
        }
        data := img.data[o..o + length];
      }
      return DecodeText(img, data, unicode);
    }

    /** One part record: its string and the offset of the next record. */
    method ReadPartRecord(o: nat) returns (r: Result<Option<string>>, next: nat)
      requires StringsValid()
      modifies `pos, `stringCache, `tailCache
      ensures StringsValid()
      ensures r.Fail? ==> Chain(img, o).Fail?
      ensures r.Ok? ==>
                && o + 8 <= |img.data|
                && Part(img, U32(img.data, o)) == r
                && next == U32(img.data, o + 4)
      decreases 1
    {
      ChainUnfold(img, o);
      next := NULL;
      var record :- ReadWordsFrom(o, 2);
      assert record[0] == U32(img.data, o) && record[1] == U32(img.data, o + 4);
      var part :- ReadEncodedString(record[0], 0);
      return Ok(part), record[1];
    }

    /** All parts of a chain of two or more records, remembering its first tail in wire order. */
    method ReadParts(o: nat, first: Option<string>, second: nat) returns (r: Result<seq<string>>)
      requires StringsValid() && second != NULL
      requires o + 8 <= |img.data| && Part(img, U32(img.data, o)) == Ok(first) && U32(img.data, o + 4) == second
      modifies `pos, `stringCache, `tailCache
      ensures StringsValid()
      ensures r == Chain(img, o)
      ensures r.Ok? ==> second in tailCache
      decreases 2
    {
      hide Chain, Part, StringsOk, Walk.Ok, Walk.PartsOk, Walk.TrailOk;
      var parts := Listed(first);
      var next := second;
      var visited := {o};
      var tailStart := |parts|;
      ghost var w := Walk(o, second, |parts|, parts, [o], next);
      WalkStarts(img, o, first);
      while next != NULL
        invariant StringsValid() && tailStart <= |parts|
        invariant w.Ok(img) && w == Walk(o, second, tailStart, parts, w.trail, next)
        invariant forall p :: p in visited <==> p in w.trail
        decreases Below(|img.data|) - visited
      {
        if next in tailCache {
          WalkFinishes(img, w, tailCache[next]);
          parts := parts + tailCache[next];
          break;
        }
        if next in visited {
          WalkRevisits(img, w);
          return Fail;
        }
        visited := visited + {next};
        var part, after := ReadPartRecord(next);
        if part.Fail? {
          WalkBreaks(img, w);
          return Fail;
        }
        WalkContinues(img, w, part.value);
        w := w.(parts := w.parts + Listed(part.value), trail := w.trail + [w.next], next := after);
        parts := parts + Listed(part.value);
        next := after;
      }
      assert Chain(img, o) == Ok(parts) && Chain(img, second) == Ok(parts[tailStart..]) by {
        if next == NULL {
          WalkFinishes(img, w, []);
          assert parts + [] == parts;
        }
      }
      if second !in tailCache {
        tailCache := tailCache[second := parts[tailStart..]];
      }
      return Ok(parts);
    }

    method ReadDynamicString(o: nat, separator: nat) returns (r: Result<string>)
      requires StringsValid() && 0 < separator < 256
      modifies `pos, `stringCache, `tailCache
      ensures StringsValid()
      ensures r == match Chain(img, o) case Fail => Fail case Ok(parts) => Ok(Assemble(img, separator, parts))
      decreases 3
    {
      var first, next :- ReadPartRecord(o);
      if next == NULL {
        ChainUnfold(img, o);
        assert Listed(first) + [] == Listed(first);
        return Ok(if first.None? then "" else first.value);
      }
      var parts :- ReadParts(o, first, next);
      if |parts| == 1 {
        assert Reverse(parts) == parts;
        return Ok(parts[0]);
      }
      return Ok(Join(separator as char, if img.version > 1 then Reverse(parts) else parts));
    }

    /** Whatever was read before, and whether or not it failed, the caches change no answer. */
    method ReadEncodedString(encoded: nat, separator: nat) returns (r: Result<Option<string>>)
      requires StringsValid() && separator < 256 && encoded <= NULL
      modifies `pos, `stringCache, `tailCache
      ensures StringsValid()
      ensures r == Encoded(img, encoded, separator)
      ensures r.Ok? && r.value.Some? ==> KeyOf(encoded, separator) in stringCache
      decreases if separator == 0 then 0 else 4
    {
      if IsNullString(encoded) {
        return Ok(None);
      }
      var isDynamic := IsDynamic(encoded, separator);
      var key := KeyOf(encoded, separator);
      if key in stringCache {
        return Ok(Some(stringCache[key]));
      }
      var result;
      if isDynamic {
        result :- ReadDynamicString(Position(encoded), separator);
      } else {
        result :- ReadBasicString(Position(encoded), IsUnicode(encoded));
      }
      stringCache := stringCache[key := result];
      return Ok(Some(result));
    }

    // ----- Cached records

    /** Only a list is accepted from the cache, and a cached list is always right. */
    method ReadOffsetArray(o: nat) returns (r: Result<seq<nat>>)
      requires Valid() && (roles.Some? ==> ArrayDisciplined(roles.value, o))
      modifies `pos, `objectCache
      ensures Valid() && KeptLocations(roles, old(objectCache), objectCache) && old(Untyped()) <= Untyped()
      ensures forall k | k in objectCache && k !in old(objectCache) ::
          k == o && o != NULL && objectCache[k].ArrayEntry?
      ensures r == ArrayAt(img, o)
      ensures r.Ok? && o != NULL ==> o in objectCache && objectCache[o] == ArrayEntry(r.value)
    {
      hide StringsOk, TailsOk, TypeNamesOk, ArrayAt;
      if o == NULL {
        NullArray(img);
        return Ok([]);
      }
      if o in objectCache {
        CacheHit(img, roles, objectCache, o);
        if objectCache[o].ArrayEntry? {
          return Ok(objectCache[o].offsets);
        }
      }
      var offsets :- ReadArray(o);
      CacheAdd(img, roles, objectCache, o, ArrayEntry(offsets));
      objectCache := objectCache[o := ArrayEntry(offsets)];
      return Ok(offsets);
    }

    /** The array at an offset, from stream or buffer. */
    method ReadArray(o: nat) returns (r: Result<seq<nat>>)
      modifies `pos
      ensures r == ArrayAt(img, o)
    {
      if o == NULL {
        return Ok([]);
      }
      var size :- ReadPrefix(o);
      if size < 0 || size % 4 != 0 {
        return Fail;
      }
      if buffered {
        return ReadU32s(img.data, o, size / 4);
      }
      var raw :- ReadExact(size);
      WordsOfSlice(img.data, o, size / 4);
      assert raw == img.data[o..o + size];
      return Ok(Words(raw, 0, size / 4));
    }

    /** Any object cached at the offset is accepted, whatever its kind. */
    method ReadSerializedType(o: nat) returns (r: Result<Entry>)
      requires Valid() && UsedAs(roles, o, TypeRole)
      modifies `pos, `objectCache, `stringCache, `tailCache
      ensures Valid() && KeptLocations(roles, old(objectCache), objectCache) && old(Untyped()) <= Untyped()
      ensures Grows(old(objectCache), objectCache)
      ensures forall k | k in objectCache && k !in old(objectCache) :: k == o && objectCache[k].TypeEntry?
      ensures o in old(objectCache) ==> r == Ok(old(objectCache)[o])
      ensures r.Ok? ==> o in objectCache && objectCache[o] == r.value
      ensures Right(roles, r.Ok?, TypeView(r), TypeAt(img, o))
    {
      hide KeyOf, StringsOk, TailsOk, TypeNamesOk, Encoded;
      if o in objectCache {
        CacheHit(img, roles, objectCache, o);
        return Ok(objectCache[o]);
      }
      var words :- ReadWordsFrom(o, 2);
      var assembly :- ReadEncodedString(words[0], '.' as int);
      var name :- ReadEncodedString(words[1], '.' as int);
      var t := SerializedType(assembly, name);
      CacheAdd(img, roles, objectCache, o, TypeEntry(t));
      objectCache := objectCache[o := TypeEntry(t)];
      return Ok(TypeEntry(t));
    }

    /** The flag word is read as signed here; masking it gives the same five options. */
    method DecodeCommon(o: nat) returns (r: Result<CommonInfo>)
      modifies `pos
      ensures r == match CommonAt(img, o) case Fail => Fail case Ok(c) => Ok(c.(version := 0))
    {
      var raw :- ReadStructFrom(o, 8);
      assert U16(raw, 0) == U16(img.data, o);
      WordsOfSlice(img.data, o, 2);
      assert Words(raw, 0, 2)[1] == Words(img.data, o, 2)[1];
      var flags := Signed32(U32(raw, 4));
      SignedBits(U32(raw, 4));
      return Ok(CommonInfo(Signed16(U16(raw, 0)), raw[2], raw[3],
                           Bit(flags, 1), Bit(flags, 2), Bit(flags, 4), Bit(flags, 8), Bit(flags, 16), 0));
    }

    /** The cached transfer options at an offset, marked as version 3; no other object can be marked. */
    method CommonOptions(o: nat) returns (r: Result<CommonInfo>)
      requires Valid() && UsedAs(roles, o, CommonRole)
      modifies `pos, `objectCache
      ensures Valid() && KeptLocations(roles, old(objectCache), objectCache) && old(Untyped()) <= Untyped()
      ensures forall k | k in objectCache && k !in old(objectCache) :: k == o
      ensures r.Ok? ==> r == CommonAt(img, o)
      ensures r.Ok? <==> if o in old(objectCache) then old(objectCache)[o].CommonEntry? else CommonAt(img, o).Ok?
      ensures roles.Some? ==> r == CommonAt(img, o)
    {
      hide CommonAt, StringsOk, TailsOk, TypeNamesOk;
      if o in objectCache {
        CacheHit(img, roles, objectCache, o);
        if !objectCache[o].CommonEntry? {
          return Fail;
        }
        return Ok(objectCache[o].common);
      }
      var common :- DecodeCommon(o);
      CommonVersion(img, o);
      common := common.(version := 3);
      CacheAdd(img, roles, objectCache, o, CommonEntry(common));
      objectCache := objectCache[o := CommonEntry(common)];
      return Ok(common);
    }

    lemma CommonVersion(img: Image, o: nat)
      requires CommonAt(img, o).Ok?
      ensures CommonAt(img, o).value.version == 3
    {
    }

    method DecodeBundle(o: nat) returns (r: Result<Bundle>)
      requires Valid() && UsedAs(roles, o, BundleRole)
      modifies `pos, `objectCache, `stringCache, `tailCache
      ensures Valid() && KeptLocations(roles, old(objectCache), objectCache) && old(Untyped()) <= Untyped()
      ensures roles.Some? && o !in old(objectCache) ==> o !in objectCache
      ensures r.Ok? ==> AsBundle(r.value).Some? && BundleAt(img, o) == Ok(AsBundle(r.value).value)
      ensures roles.Some? ==> (r.Ok? <==> BundleAt(img, o).Ok?)
    {
      if roles.Some? {
        assert BundleDisciplined(img, roles.value, o);
      }
      hide KeyOf, StringsOk, TailsOk, TypeNamesOk, CacheState, UntypedIn, CommonAt, Encoded;
      var words :- ReadWordsFrom(o, 5);
      var raw :- ReadStructFrom(words[0], 16);
      var common :- CommonOptions(words[4]);
      var name :- ReadEncodedString(words[1], '_' as int);
      return Ok(Bundle(Hex(raw), words[2], CommonEntry(common), name, words[3]));
    }

    method DecodePayload(kind: Kind, o: nat) returns (r: Result<Data>)
      requires Valid() && (kind == BundleKind && o != NULL ==> UsedAs(roles, o, BundleRole))
      modifies `pos, `objectCache, `stringCache, `tailCache
      ensures Valid() && KeptLocations(roles, old(objectCache), objectCache) && old(Untyped()) <= Untyped()
      ensures Right(roles, r.Ok?, DataView(r), PayloadAt(img, kind, o))
    {
      hide KeyOf, StringsOk, TailsOk, TypeNamesOk, CacheState, UntypedIn, BundleAt;
      match kind {
        case IntKind =>
          if o == NULL {
            return Ok(Made(IntValue(0)));
          }
          var words :- ReadWordsFrom(o, 1);
          return Ok(Made(IntValue(Signed32(words[0]))));
        case LongKind =>
          if o == NULL {
            return Ok(Made(IntValue(0)));
          }
          var words :- ReadWordsFrom(o, 2);
          return Ok(Made(IntValue(Signed64(words[0], words[1]))));
        case BoolKind =>
          if o == NULL {
            return Ok(Made(BoolValue(false)));
          }
          var raw :- ReadStructFrom(o, 1);
          return Ok(Made(BoolValue(raw[0] != 0)));
        case StringKind =>
          if o == NULL {
            return Ok(Made(NoneValue));
          }
          var raw :- ReadStructFrom(o, 5);
          var text :- ReadEncodedString(U32(raw, 0), raw[4]);
          return Ok(Made(TextOrNone(text)));
        case HashKind =>
          if o == NULL {
            return Ok(Made(NoneValue));
          }
          var words :- ReadWordsFrom(o, 4);
          PackOfWords(img.data, o, 4);
          return Ok(Made(HashValue(Hex(Pack(words)))));
        case BundleKind =>
          if o == NULL {
            return Ok(Made(NoneValue));
          }
          var options :- BundleOptionsAt(o);
          return Ok(Hit(options));
        case CustomKind =>
          return Fail;
        case UnsupportedKind =>
          return Fail;
      }
    }

    /** The bundle options cached at an offset, or whatever else is cached there. */
    method BundleOptionsAt(o: nat) returns (r: Result<Entry>)
      requires Valid() && UsedAs(roles, o, BundleRole)
      modifies `pos, `objectCache, `stringCache, `tailCache
      ensures Valid() && KeptLocations(roles, old(objectCache), objectCache) && old(Untyped()) <= Untyped()
      ensures o in old(objectCache) ==> r == Ok(old(objectCache)[o])
      ensures Right(roles, r.Ok?, BundleView(r), BundleAt(img, o))
    {
      hide KeyOf, StringsOk, TailsOk, TypeNamesOk, BundleAt;
      if o in objectCache {
        CacheHit(img, roles, objectCache, o);
        return Ok(objectCache[o]);
      }
      var options :- DecodeBundle(o);
      CacheAdd(img, roles, objectCache, o, BundleEntry(options));
      objectCache := objectCache[o := BundleEntry(options)];
      return Ok(BundleEntry(options));
    }

    /** The type of an object and its match name, cached by type offset and version; only a type has one. */
    method ReadTypeName(o: nat) returns (r: Result<TypeName>)
      requires Valid() && UsedAs(roles, o, TypeRole)
      modifies this
      ensures Valid() && KeptLocations(roles, old(objectCache), objectCache) && old(Untyped()) <= Untyped()
      ensures r.Ok? ==> TypeAt(img, o) == Ok(r.value.t) && MatchName(r.value.t, img.version) == Ok(r.value.name)
      ensures roles.Some? && r.Fail? ==> KindAt(img, o).Fail?
      ensures o in old(Untyped()) ==> r.Fail?
    {
      hide KeyOf, StringsOk, TailsOk, CacheState, TypeAt, MatchName;
      if o !in typeNameCache || typeNameCache[o].version != img.version {
        var entry :- ReadSerializedType(o);
        if !entry.TypeEntry? {
          return Fail;
        }
        var name :- MatchName(entry.t, img.version);
        typeNameCache := typeNameCache[o := TypeName(img.version, entry.t, name)];
      }
      return Ok(typeNameCache[o]);
    }

    method DecodeObject(o: nat) returns (r: Result<(Data, Option<Entry>)>)
      requires Valid() && (roles.Some? ==> ObjectDisciplined(img, roles.value, o))
      modifies this
      ensures Valid() && KeptLocations(roles, old(objectCache), objectCache) && old(Untyped()) <= Untyped()
      ensures Right(roles, r.Ok?, TypedView(r), ObjectAt(img, o))
      ensures r.Ok? && AsValue(r.value.0).Some? ==>
                ObjectAt(img, o).Ok? && ObjectAt(img, o).value.0 == AsValue(r.value.0).value
      ensures o == NULL ==> objectCache == old(objectCache) && typeNameCache == old(typeNameCache)
      ensures TypeOffset(img, o).Some? && TypeOffset(img, o).value in old(Untyped()) ==> r.Fail?
    {
      hide StringsOk, TailsOk, TypeNamesOk, CacheState, TypeAt, MatchName, PayloadAt, UntypedIn;
      if o == NULL {
        return Ok((Made(NoneValue), None));
      }
      var words :- ReadWordsFrom(o, 2);
      var typeName :- ReadTypeName(words[0]);
      var value :- DecodePayload(img.builtin(typeName.name), words[1]);
      return Ok((value, Some(TypeEntry(typeName.t))));
    }

    // ----- Locations

    method ReadHead(o: nat) returns (r: Result<Head>)
      requires StringsValid()
      modifies `pos, `stringCache, `tailCache
      ensures StringsValid()
      ensures r == HeadAt(img, o)
    {
      hide KeyOf, StringsOk, TailsOk, Encoded;
      var words :- ReadWordsFrom(o, 7);
      var primary :- ReadEncodedString(words[0], '/' as int);
      var internal :- ReadEncodedString(words[1], '/' as int);
      var provider :- ReadEncodedString(words[2], '.' as int);
      return Ok(Head(words, primary, internal, provider));
    }

    method ReadFields(o: nat, head: Head) returns (r: Result<Attributes>)
      requires Valid() && UsedAs(roles, o, LocationRole) && HeadAt(img, o) == Ok(head)
      modifies this
      ensures Valid() && KeptLocations(roles, old(objectCache), objectCache) && old(Untyped()) <= Untyped()
      ensures Right(roles, r.Ok?, FieldsView(r), FieldsAt(img, o))
      ensures TypeOffset(img, head.words[5]).Some? && TypeOffset(img, head.words[5]).value in old(Untyped()) ==> r.Fail?
    {
      if roles.Some? {
        assert LocationDisciplined(img, roles.value, o);
      }
      hide StringsOk, TailsOk, TypeNamesOk, CacheState, TypeAt, ObjectAt, FieldsAt, HeadAt, AsFields, AsTyped,
        UntypedIn, TypeOffset, ObjectDisciplined;
      if FieldsAt(img, o).Ok? {
        FieldsNeed(img, o);
      }
      var data :- DecodeObject(head.words[5]);
      var resourceType :- ReadSerializedType(head.words[6]);
      AttributesAreRight(img, roles, o, head, data, resourceType);
      return Ok(AttributesOf(head, data, resourceType));
    }

    /** Decodes each record in turn, with the given number of frames left for each. */
    method DecodeEach(offsets: seq<nat>, stack: nat) returns (r: Result<seq<Entry>>)
      requires Valid() && (roles.Some? ==> ArraysApart(img, roles.value))
      requires forall i :: 0 <= i < |offsets| ==> UsedAs(roles, offsets[i], LocationRole)
      modifies this
      ensures Valid() && Kept(roles, old(objectCache), objectCache) && old(Untyped()) <= Untyped()
      ensures r.Ok? ==> ListTrue(img, r.value, offsets)
      ensures roles.Some? ==> (r.Ok? <==> Fits(Records(img), offsets, |offsets|, old(Seen()), stack))
      ensures roles.Some? && r.Ok? ==>
                && Holds(objectCache, r.value, offsets)
                && Seen() == SeenAfter(Records(img), offsets, |offsets|, old(Seen()))
      ensures offsets != [] && ClashAhead(img, offsets[0], old(objectCache), old(typeNameCache)) ==> r.Fail?
      decreases stack, 1
    {
      hide FieldsAt, DepsAt, Records, EntryTrue, EntryOk, StringsOk, TailsOk, TypeNamesOk, Disciplined, CacheOk,
        ArraysApart, Fits, FitsOne, SeenAfter, SeenIn, UntypedIn, UsedAs, ClashAhead;
      var items := [];
      ghost var seen := Seen();
      NoneFit(Records(img), offsets, seen, stack);
      for i := 0 to |offsets|
        invariant Valid() && Kept(roles, old(objectCache), objectCache) && old(Untyped()) <= Untyped()
        invariant i == 0 ==> objectCache == old(objectCache) && typeNameCache == old(typeNameCache)
        invariant ListTrue(img, items, offsets[..i])
        invariant roles.Some? ==> Holds(objectCache, items, offsets[..i])
        invariant roles.Some? ==>
            Fits(Records(img), offsets, i, seen, stack) && Seen() == SeenAfter(Records(img), offsets, i, seen)
        invariant i > 0 ==> !ClashAhead(img, offsets[0], old(objectCache), old(typeNameCache))
      {
        if roles.Some? && Fits(Records(img), offsets, |offsets|, seen, stack) {
          FitsPrefix(Records(img), offsets, i + 1, |offsets|, seen, stack);
        }
        FitsNext(Records(img), offsets, i, seen, stack);
        var item :- LocationFromBinary(offsets[i], stack);
        assert EntryTrue(img, offsets[i], objectCache[offsets[i]]);
        items := items + [item];
        assert offsets[..i + 1] == offsets[..i] + [offsets[i]];
      }
      assert offsets[..|offsets|] == offsets;
      return Ok(items);
    }

    /**
     * Memoised recursion with no cycle check; stack is the number of frames left before the
     * interpreter's recursion limit. Where each offset is used as one kind of record, it succeeds
     * exactly when the location decodes in the frames that are left.
     */
    method LocationFromBinary(o: nat, stack: nat) returns (r: Result<Entry>)
      requires Valid() && UsedAs(roles, o, LocationRole) && (roles.Some? ==> ArraysApart(img, roles.value))
      modifies this
      ensures Valid() && Kept(roles, old(objectCache), objectCache) && old(Untyped()) <= Untyped()
      ensures r.Ok? ==> o in objectCache && objectCache[o] == r.value
      ensures stack > 0 && o in old(objectCache) ==> r == Ok(old(objectCache)[o])
      ensures roles.Some? ==> (r.Ok? <==> FitsOne(Records(img), o, old(Seen()), stack))
      ensures roles.Some? && r.Ok? ==> r.value.LocationEntry? && Seen() == old(Seen()) + Downward(Records(img), o)
      ensures ClashAhead(img, o, old(objectCache), old(typeNameCache)) ==> r.Fail?
      decreases stack, 0
    {
      hide FieldsAt, HeadAt, DepsAt, ArrayAt, EntryTrue, EntryOk, CacheOk, Disciplined, StringsOk, TailsOk,
        TypeNamesOk, AsFields, Fits, FitsOne, SeenAfter, SeenIn, Downward, UntypedIn, Linked, Holds, ArraysApart,
        TypeOffset, Records, Decodes, ListTrue;
      HeadSettles(img, o);
      FitsStep(Records(img), o, Seen(), stack);
      if stack == 0 {
        return Fail;
      }
      if o in objectCache {
        SeenIsClosed(o);
        return Ok(objectCache[o]);
      }
      NotSeen(o);
      RecordParts(o);
      var head :- ReadHead(o);
      HeadRoles(o, head.words);
      ghost var first := objectCache;
      var offsets :- ReadOffsetArray(head.words[3]);
      ArrayIsUntyped(head.words[3]);
      DependencyOffsets(o, offsets);
      if roles.Some? {
        SeenStays(first, objectCache);
      }
      var dependencies :- DecodeEach(offsets, stack - 1);
      ghost var third := objectCache;
      var fields :- ReadFields(o, head);
      var location := new ResourceLocation(fields, dependencies);
      if roles.Some? {
        SeenStays(third, objectCache);
        HoldsGrows(third, objectCache, dependencies, offsets);
        NotCachedByDependency(o, offsets, first, stack - 1);
        DownwardStep(Records(img), o, SeenIn(first));
      }
      BuiltIsRight(img, roles, objectCache, o, location);
      CacheAddLocation(img, roles, objectCache, o, location);
      SeenAdds(objectCache, o, location);
      UntypedStays(objectCache, typeNameCache, o, LocationEntry(location));
      objectCache := objectCache[o := LocationEntry(location)];
      return Ok(LocationEntry(location));
    }

    /** What is cached at a location offset is a location, with everything below it cached as well. */
    lemma SeenIsClosed(o: nat)
      requires Valid() && UsedAs(roles, o, LocationRole) && o in objectCache
      ensures roles.Some? ==>
                && objectCache[o].LocationEntry? && Decodes(Records(img), o)
                && o in Seen() && Seen() == Seen() + Downward(Records(img), o)
    {
      if roles.Some? {
        CachedLocation(img, roles.value, objectCache, o);
        forall k: nat | Reaches(Records(img), o, k)
          ensures k in Seen()
        {
          var p :| IsPath(Records(img), p) && p[0] == o && p[|p| - 1] == k;
          CacheClosedBelow(img, roles.value, objectCache, p);
        }
      }
    }

    lemma NotSeen(o: nat)
      requires o !in objectCache
      ensures o !in Seen()
    {
    }

    /** The graph of location records in terms of the file. */
    lemma RecordParts(o: nat)
      ensures Records(img).fields(o) == FieldsAt(img, o) && Records(img).deps(o) == DepsAt(img, o)
    {
    }

    lemma HeadRoles(o: nat, words: seq<nat>)
      requires ReadU32s(img.data, o, 7) == Ok(words) && UsedAs(roles, o, LocationRole)
      requires roles.Some? ==> ArraysApart(img, roles.value)
      ensures roles.Some? ==> ArrayDisciplined(roles.value, words[3])
    {
      if roles.Some? {
        assert DependenciesApart(img, roles.value, o);
      }
    }

    /** Reading an array leaves its offset unreadable as a type, unless its type name is already known. */
    lemma ArrayIsUntyped(o: nat)
      requires o != NULL ==> o in objectCache && objectCache[o].ArrayEntry?
      ensures o != NULL && o !in typeNameCache ==> o in Untyped()
    {
    }

    lemma DependencyOffsets(o: nat, offsets: seq<nat>)
      requires Valid() && UsedAs(roles, o, LocationRole) && DepsAt(img, o) == Ok(offsets)
      ensures forall i :: 0 <= i < |offsets| ==> UsedAs(roles, offsets[i], LocationRole)
    {
      if roles.Some? {
        DependencyRoles(img, roles.value, o, offsets);
      }
    }

    /** Dependencies that decode never lead back to the record that needs them. */
    lemma NotCachedByDependency(o: nat, offsets: seq<nat>, before: Cache, stack: nat)
      requires Valid() && roles.Some? && HasRole(roles.value, o, LocationRole)
      requires DepsAt(img, o) == Ok(offsets) && o !in before
      requires Fits(Records(img), offsets, |offsets|, SeenIn(before), stack)
      requires Seen() == SeenAfter(Records(img), offsets, |offsets|, SeenIn(before))
      ensures o !in objectCache
    {
      if o in objectCache {
        CachedLocation(img, roles.value, objectCache, o);
        SeenAfterIs(Records(img), offsets, |offsets|, SeenIn(before), o);
        var i :| 0 <= i < |offsets| && Reaches(Records(img), offsets[i], o);
        NotBelowItself(Records(img), o, offsets[i]);
        assert false;
      }
    }

    // ----- The resource map

    /** The top-level index: through the array cache, or straight from the buffer. */
    method ReadPairs(keysOffset: nat) returns (r: Result<seq<nat>>)
      requires Valid() && (roles.Some? ==> ArrayDisciplined(roles.value, keysOffset))
      modifies `pos, `objectCache
      ensures Valid() && KeptLocations(roles, old(objectCache), objectCache) && old(Untyped()) <= Untyped()
      ensures forall k | k in objectCache && k !in old(objectCache) :: k == keysOffset
      ensures r == PairsAt(img, keysOffset)
    {
      hide StringsOk, TailsOk, TypeNamesOk, CacheState, UntypedIn;
      if !buffered || keysOffset == NULL {
        var words :- ReadOffsetArray(keysOffset);
        if |words| % 2 != 0 {
          return Fail;
        }
        return Ok(words);
      }
      var size :- ReadSizeAt(keysOffset);
      if size < 0 || size % 4 != 0 || size % 8 != 0 {
        if size >= 0 && size % 4 == 0 {
          PairsOfWords(size);
        }
        return Fail;
      }
      PairsOfWords(size);
      if keysOffset + size > |img.data| {
        return Fail;
      }
      return Ok(Words(img.data, keysOffset, size / 4));
    }

    /** The length prefix before o, read without moving the cursor. */
    method ReadSizeAt(o: nat) returns (r: Result<int>)
      modifies `pos
      ensures pos == old(pos)
      ensures r == if o < 4 || o > |img.data| then Fail else Ok(Signed32(U32(img.data, o - 4)))
    {
      var raw :- ReadStructAt(o - 4, 4);
      U32OfSlice(img.data, o - 4);
      return Ok(Signed32(U32(raw, 0)));
    }

    /** One key and a list object of its own. */
    method DecodePair(keyOffset: nat, list: nat, stack: nat) returns (r: Result<(Data, LocationList)>)
      requires Valid()
      requires roles.Some? ==>
                 && PairDisciplined(img, roles.value, keyOffset, list) && ArrayDisciplined(roles.value, list)
                 && ArraysApart(img, roles.value)
      modifies this
      ensures Valid() && Kept(roles, old(objectCache), objectCache) && old(Untyped()) <= Untyped()
      ensures r.Ok? ==>
                && fresh(r.value.1)
                && ArrayAt(img, list).Ok?
                && PairReadAs(img, keyOffset, list, KeySlot(r.value.0, ArrayAt(img, list).value))
                && ListTrue(img, r.value.1.items, ArrayAt(img, list).value)
      ensures roles.Some? ==> (r.Ok? <==> PairFits(img, keyOffset, list, old(Seen()), stack))
      ensures roles.Some? && r.Ok? ==>
                && r.value.0 == Made(ObjectAt(img, keyOffset).value.0)
                && Holds(objectCache, r.value.1.items, ArrayAt(img, list).value)
                && Seen() == SeenAfter(Records(img), ArrayAt(img, list).value, |ArrayAt(img, list).value|, old(Seen()))
      ensures PairClashes(img, keyOffset, list, old(objectCache), old(typeNameCache)) ==> r.Fail?
    {
      hide ObjectAt, ArrayAt, Decodes, EntryTrue, CacheState, StringsOk, TailsOk, TypeNamesOk, Fits, SeenAfter,
        SeenIn, UntypedIn, Clashes, ArrayOffset, Records, TypeOffset, ArraysApart;
      ghost var first := objectCache;
      var key :- DecodeObject(keyOffset);
      var offsets :- ReadOffsetArray(list);
      if roles.Some? {
        SeenStays(first, objectCache);
      }
      var locations :- DecodeEach(offsets, stack);
      if !Hashable(key.0) {
        return Fail;
      }
      var values := new LocationList(locations);
      return Ok((key.0, values));
    }

    /** Decodes the whole resource map. */
    method DecodeResources(keysOffset: nat, stack: nat) returns (r: Result<Resources>, ghost raw: Index)
      requires Valid()
      requires roles.Some? ==>
                 IndexDisciplined(img, roles.value, keysOffset) && IndexApart(img, roles.value, keysOffset)
      modifies this
      ensures Valid() && Kept(roles, old(objectCache), objectCache)
      ensures r.Ok? ==>
                && PairsAt(img, keysOffset).Ok? && 2 * |raw| == |PairsAt(img, keysOffset).value|
                && ReadAs(img, PairsAt(img, keysOffset).value, raw)
                && Carries(img, r.value, Collect(raw))
      ensures roles.Some? ==> (r.Ok? <==> MapFits(img, keysOffset, old(Seen()), stack))
      ensures roles.Some? && r.Ok? ==>
                Entries(img, keysOffset) == Ok(raw) && Matches(objectCache, r.value, Collect(raw))
      ensures FirstPairClashes(img, keysOffset, old(objectCache), old(typeNameCache)) ==> r.Fail?
    {
      hide ObjectAt, ArrayAt, Decodes, CacheState, StringsOk, TailsOk, TypeNamesOk, PairsAt, EntriesOf, Collect,
        Holds, Assign, PairReadAs, ListTrue, Fits, SeenAfter, SeenIn, UntypedIn, AllListed, Records, PairFits,
        MapFits, PairClashes, FirstPairClashes;
      raw := [];
      ghost var seen := Seen();
      ghost var first := objectCache;
      NoPairsFit(img, keysOffset, seen, stack);
      var pairs :- ReadPairs(keysOffset);
      FirstPair(img, keysOffset, first, objectCache, typeNameCache);
      if roles.Some? {
        SeenStays(first, objectCache);
      }
      var resources: Resources := [];
      NoEntries(img, pairs);
      NoneFit(Records(img), AllListed(raw), seen, stack);
      ListedNone();
      for i := 0 to |pairs| / 2
        invariant Valid() && Kept(roles, old(objectCache), objectCache)
        invariant |raw| == i && ReadAs(img, pairs, raw) && Carries(img, resources, Collect(raw))
        invariant roles.Some? ==> EntriesOf(img, pairs, i) == Ok(raw) && Matches(objectCache, resources, Collect(raw))
        invariant roles.Some? ==>
            && Fits(Records(img), AllListed(raw), |AllListed(raw)|, seen, stack)
            && Seen() == SeenAfter(Records(img), AllListed(raw), |AllListed(raw)|, seen)
        invariant FirstPairClashes(img, keysOffset, old(objectCache), old(typeNameCache)) ==>
            |pairs| >= 2 && i == 0 && PairClashes(img, pairs[0], pairs[1], objectCache, typeNameCache)
      {
        ghost var before := objectCache;
        if roles.Some? && MapFits(img, keysOffset, seen, stack) {
          MapFitsNext(img, keysOffset, raw, seen, stack);
        }
        var pair :- DecodePair(pairs[2 * i], pairs[2 * i + 1], stack);
        var (key, list) := pair;
        ghost var offsets := ArrayAt(img, pairs[2 * i + 1]).value;
        CollectAdds(raw, KeySlot(key, offsets));
        CarriesAssign(img, resources, Collect(raw), key, list, offsets);
        if roles.Some? {
          PairFitted(img, pairs, raw, seen, stack);
          MatchesGrows(before, objectCache, resources, Collect(raw));
          MatchesAssign(objectCache, resources, Collect(raw), key, list, offsets);
        }
        raw := raw + [KeySlot(key, offsets)];
        resources := Assign(resources, KeySlot(key, list));
      }
      if roles.Some? {
        MapFitsAll(img, keysOffset, raw, seen, stack);
      }
      return Ok(resources), raw;
    }
  }

  lemma UntypedStays(cache: Cache, names: map<nat, TypeName>, o: nat, e: Entry)
    requires e.TypeEntry? ==> o !in cache
    ensures UntypedIn(cache, names) <= UntypedIn(cache[o := e], names)
  {
  }

  // ----- A map whose first location clashes

  /** A null key with a list whose first location clashes, before that location or its type was read. */
  predicate PairClashes(img: Image, keyOffset: nat, list: nat, cache: Cache, names: map<nat, TypeName>) {
    && keyOffset == NULL
    && ArrayAt(img, list).Ok? && ArrayAt(img, list).value != []
    && var o := ArrayAt(img, list).value[0];
       o != list && ClashAhead(img, o, cache, names)
  }

  predicate FirstPairClashes(img: Image, keysOffset: nat, cache: Cache, names: map<nat, TypeName>) {
    && PairsAt(img, keysOffset).Ok? && PairsAt(img, keysOffset).value != []
    && var pairs := PairsAt(img, keysOffset).value;
       PairClashes(img, pairs[0], pairs[1], cache, names) && keysOffset != ArrayAt(img, pairs[1]).value[0]
  }

  lemma FirstPair(img: Image, keysOffset: nat, before: Cache, after: Cache, names: map<nat, TypeName>)
    requires forall k | k in after && k !in before :: k == keysOffset
    ensures FirstPairClashes(img, keysOffset, before, names) ==>
              && PairsAt(img, keysOffset).Ok? && |PairsAt(img, keysOffset).value| >= 2
              && var pairs := PairsAt(img, keysOffset).value;
                 PairClashes(img, pairs[0], pairs[1], after, names)
  {
  }
}
