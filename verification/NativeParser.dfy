/** The accelerated parser: whole strings cached, dispatch cached, graphs decoded with a stack. */
module NativeParser {
  import opened Wrappers
  import opened Bytes
  import opened StringSpec
  import opened ChainWalk
  import opened RecordSpec
  import opened Graph
  import opened Objects
  import opened Dicts
  import opened ResourceMap
  import opened PendingStack

  /** Plain strings are cached once, whatever the separator. */
  function TextKey(encoded: nat, separator: nat): (nat, nat) {
    (encoded, if IsDynamic(encoded, separator) then separator else 0)
  }

  ghost predicate TextsOk(img: Image, cache: map<(nat, nat), string>) {
    forall k | k in cache :: k.1 < 256 && Encoded(img, k.0, k.1) == Ok(Some(cache[k]))
  }

  ghost predicate KindsOk(img: Image, cache: map<nat, Kind>) {
    forall o | o in cache :: KindAt(img, o) == Ok(cache[o])
  }

  class Parser {
    const img: Image
    /** The kind of record that each offset is used as, if each is used as one. */
    ghost const roles: Option<Roles>
    var objects: Cache
    var strings: map<(nat, nat), string>
    var kinds: map<nat, Kind>

    ghost predicate TextsValid()
      reads this
    {
      TextsOk(img, strings)
    }

    ghost predicate Valid()
      reads this
    {
      TextsValid() && KindsOk(img, kinds) && CacheState(img, roles, objects)
    }

    /** The object cache starts with what the header phase decoded. */
    constructor (img: Image, cached: Cache, ghost roles: Option<Roles>)
      requires CacheState(img, roles, cached)
      ensures Valid() && this.img == img && this.roles == roles
      ensures objects == cached && strings == map[] && kinds == map[]
    {
      this.img, this.roles := img, roles;
      objects, strings, kinds := cached, map[], map[];
    }

    // ----- Fields of the immutable buffer

    function Length(o: nat): Result<nat> {
      if o < 4 || o > |img.data| then Fail else
      var size := Signed32(U32(img.data, o - 4));
      if size < 0 then Fail else Ok(size)
    }

    function Array(o: nat): (r: Result<seq<nat>>)
      ensures r == ArrayAt(img, o)
    {
      if o == NULL then Ok([]) else
      var size :- Length(o);
      if size % 4 != 0 then Fail else ReadU32s(img.data, o, size / 4)
    }

    // ----- Strings

    /** The loop over a chain of part records, with a visited set and no tail cache. */
    method Parts(o: nat) returns (r: Result<seq<string>>)
      requires TextsValid() && o < NULL
      modifies `strings
      ensures TextsValid()
      ensures r == Chain(img, o)
      decreases 2
    {
      hide Chain, Part, TextsOk, Encoded, Walk.Ok, Walk.PartsOk, Walk.TrailOk;
      var next, visited, parts := o, {}, [];
      ghost var w := Walk(o, o, 0, [], [], o);
      WalkIsNew(img, o);
      while true
        invariant TextsValid()
        invariant next != NULL && w.Ok(img) && w == Walk(o, o, 0, parts, w.trail, next)
        invariant forall p :: p in visited <==> p in w.trail
        decreases Below(|img.data|) - visited
      {
        if next in visited {
          WalkRevisits(img, w);
          return Fail;
        }
        visited := visited + {next};
        var part, after := PartRecord(next);
        if part.Fail? {
          WalkBreaks(img, w);
          return Fail;
        }
        WalkContinues(img, w, part.value);
        w := w.(parts := w.parts + Listed(part.value), trail := w.trail + [w.next], next := after);
        parts := parts + Listed(part.value);
        next := after;
        if next == NULL {
          WalkFinishes(img, w, []);
          assert parts + [] == parts;
          return Ok(parts);
        }
      }
    }

    method PartRecord(o: nat) returns (r: Result<Option<string>>, next: nat)
      requires TextsValid()
      modifies `strings
      ensures TextsValid()
      ensures r.Fail? ==> Chain(img, o).Fail?
      ensures r.Ok? ==>
                && o + 8 <= |img.data|
                && Part(img, U32(img.data, o)) == r
                && next == U32(img.data, o + 4)
      decreases 1
    {
      hide TextsOk, Part;
      ChainUnfold(img, o);
      next := NULL;
      if o + 8 > |img.data| {
        return Fail, NULL;
      }
      r := String(U32(img.data, o), 0);
      PlainIsPart(img, U32(img.data, o));
      next := U32(img.data, o + 4);
    }

    lemma PlainIsPart(img: Image, encoded: nat)
      ensures Encoded(img, encoded, 0) == Part(img, encoded)
    {
    }

    method String(encoded: nat, separator: nat) returns (r: Result<Option<string>>)
      requires TextsValid() && separator < 256 && encoded <= NULL
      modifies `strings
      ensures TextsValid()
      ensures r == Encoded(img, encoded, separator)
      ensures r.Ok? && r.value.Some? ==> TextKey(encoded, separator) in strings
      decreases if separator == 0 then 0 else 3
    {
      if IsNullString(encoded) {
        return Ok(None);
      }
      var dynamic := IsDynamic(encoded, separator);
      var key := TextKey(encoded, separator);
      if key in strings {
        return Ok(Some(strings[key]));
      }
      var o := Position(encoded);
      var value;
      if dynamic {
        if o + 8 > |img.data| {
          ChainUnfold(img, o);
          return Fail;
        }
        if U32(img.data, o + 4) == NULL {
          var first := String(U32(img.data, o), 0);
          SingleRecord(img, encoded, separator);
          if first.Fail? {
            return Fail;
          }
          value := if first.value.None? then "" else first.value.value;
        } else {
          var parts :- Parts(o);
          value := Join(separator as char, if img.version > 1 then Reverse(parts) else parts);
        }
      } else {
        value :- BasicAt(img, o, IsUnicode(encoded));
      }
      strings := strings[key := value];
      return Ok(Some(value));
    }

    /** A chain of one record needs no joining. */
    lemma SingleRecord(img: Image, encoded: nat, separator: nat)
      requires 0 < separator < 256 && IsDynamic(encoded, separator) && !IsNullString(encoded)
      requires Position(encoded) + 8 <= |img.data| && U32(img.data, Position(encoded) + 4) == NULL
      ensures var first := Encoded(img, U32(img.data, Position(encoded)), 0);
              Encoded(img, encoded, separator) ==
              match first
              case Fail => Fail
              case Ok(None) => Ok(Some(""))
              case Ok(Some(text)) => Ok(Some(text))
    {
      var o := Position(encoded);
      ChainUnfold(img, o);
      PlainIsPart(img, U32(img.data, o));
      var part := Part(img, U32(img.data, o));
      if part.Ok? {
        assert Listed(part.value) + [] == Listed(part.value);
        assert Reverse(Listed(part.value)) == Listed(part.value);
      }
    }

    // ----- Cached records

    /** Any object cached at the offset is accepted, whatever its kind. */
    method SerializedTypeAt(o: nat) returns (r: Result<Entry>)
      requires Valid() && UsedAs(roles, o, TypeRole)
      modifies this
      ensures Valid() && KeptLocations(roles, old(objects), objects)
      ensures o in old(objects) ==> r == Ok(old(objects)[o])
      ensures r.Ok? ==> o in objects && objects[o] == r.value
      ensures Right(roles, r.Ok?, TypeView(r), TypeAt(img, o))
    {
      hide Encoded, TextsOk, TextKey, KindsOk;
      if o in objects {
        assert EntryTrue(img, o, objects[o]);
        if roles.Some? {
          CachedIs(img, roles.value, objects, o);
        }
        return Ok(objects[o]);
      }
      var words :- ReadU32s(img.data, o, 2);
      var assembly :- String(words[0], '.' as int);
      var name :- String(words[1], '.' as int);
      var t := SerializedType(assembly, name);
      CacheAdd(img, roles, objects, o, TypeEntry(t));
      objects := objects[o := TypeEntry(t)];
      return Ok(TypeEntry(t));
    }

    method Common(o: nat) returns (r: Result<Entry>)
      requires Valid() && UsedAs(roles, o, CommonRole)
      modifies this
      ensures Valid() && KeptLocations(roles, old(objects), objects)
      ensures o in old(objects) ==> r == Ok(old(objects)[o])
      ensures r.Ok? ==> o in objects && objects[o] == r.value
      ensures Right(roles, r.Ok?, CommonView(r), CommonAt(img, o))
      ensures forall k | k in objects && k !in old(objects) :: k == o
    {
      hide TextsOk, KindsOk, Bit, U16, U32;
      if o in objects {
        assert EntryTrue(img, o, objects[o]);
        if roles.Some? {
          CachedIs(img, roles.value, objects, o);
        }
        return Ok(objects[o]);
      }
      if o + 8 > |img.data| {
        return Fail;
      }
      var flags := U32(img.data, o + 4);
      var value := CommonInfo(Signed16(U16(img.data, o)), img.data[o + 2], img.data[o + 3],
                              Bit(flags, 1), Bit(flags, 2), Bit(flags, 4), Bit(flags, 8), Bit(flags, 16), 3);
      CacheAdd(img, roles, objects, o, CommonEntry(value));
      objects := objects[o := CommonEntry(value)];
      return Ok(CommonEntry(value));
    }

    /** The options of a bundle take whatever object is cached where their record should be. */
    method Bundle(o: nat) returns (r: Result<Entry>)
      requires Valid() && UsedAs(roles, o, BundleRole)
      modifies this
      ensures Valid() && KeptLocations(roles, old(objects), objects)
      ensures o in old(objects) ==> r == Ok(old(objects)[o])
      ensures r.Ok? ==> o in objects && objects[o] == r.value
      ensures Right(roles, r.Ok?, BundleView(r), BundleAt(img, o))
    {
      if roles.Some? {
        assert BundleDisciplined(img, roles.value, o);
      }
      hide TextsOk, TextKey, KindsOk, CommonAt, Encoded, CacheState, CacheOk, Disciplined;
      if o in objects {
        CacheHit(img, roles, objects, o);
        return Ok(objects[o]);
      }
      var words :- ReadU32s(img.data, o, 5);
      var raw :- Slice(img.data, words[0], 16);
      var common :- Common(words[4]);
      var name :- String(words[1], '_' as int);
      var value := Objects.Bundle(Hex(raw), words[2], common, name, words[3]);
      CacheAdd(img, roles, objects, o, BundleEntry(value));
      objects := objects[o := BundleEntry(value)];
      return Ok(BundleEntry(value));
    }

    method Payload(kind: Kind, o: nat) returns (r: Result<Data>)
      requires Valid() && (kind == BundleKind && o != NULL ==> UsedAs(roles, o, BundleRole))
      modifies this
      ensures Valid() && KeptLocations(roles, old(objects), objects)
      ensures Right(roles, r.Ok?, DataView(r), PayloadAt(img, kind, o))
    {
      hide TextsOk, TextKey, KindsOk, CacheState, BundleAt;
      match kind {
        case IntKind =>
          if o == NULL {
            return Ok(Made(IntValue(0)));
          }
          var words :- ReadU32s(img.data, o, 1);
          return Ok(Made(IntValue(Signed32(words[0]))));
        case LongKind =>
          if o == NULL {
            return Ok(Made(IntValue(0)));
          }
          var words :- ReadU32s(img.data, o, 2);
          return Ok(Made(IntValue(Signed64(words[0], words[1]))));
        case BoolKind =>
          if o == NULL {
            return Ok(Made(BoolValue(false)));
          }
          var raw :- Slice(img.data, o, 1);
          return Ok(Made(BoolValue(raw[0] != 0)));
        case StringKind =>
          if o == NULL {
            return Ok(Made(NoneValue));
          }
          var raw :- Slice(img.data, o, 5);
          var text :- String(U32(raw, 0), raw[4]);
          return Ok(Made(TextOrNone(text)));
        case HashKind =>
          if o == NULL {
            return Ok(Made(NoneValue));
          }
          var raw :- Slice(img.data, o, 16);
          return Ok(Made(HashValue(Hex(raw))));
        case BundleKind =>
          if o == NULL {
            return Ok(Made(NoneValue));
          }
          var options :- Bundle(o);
          return Ok(Hit(options));
        case CustomKind =>
          return Fail;
        case UnsupportedKind =>
          return Fail;
      }
    }

    /** The type of an object and the kind its payload is read as, cached by type offset. */
    method Dispatch(o: nat) returns (r: Result<Entry>)
      requires Valid() && UsedAs(roles, o, TypeRole)
      modifies this
      ensures Valid() && KeptLocations(roles, old(objects), objects)
      ensures r.Ok? ==> o in kinds && KindAt(img, o) == Ok(kinds[o])
      ensures r.Ok? && r.value.TypeEntry? ==> TypeAt(img, o) == Ok(r.value.t)
      ensures roles.Some? ==> (r.Ok? <==> KindAt(img, o).Ok?) && (r.Ok? ==> r.value.TypeEntry?)
    {
      hide TextsOk, CacheState, TypeAt, MatchName;
      var t :- SerializedTypeAt(o);
      if o !in kinds {
        if !t.TypeEntry? {
          return Fail;
        }
        var name :- MatchName(t.t, img.version);
        kinds := kinds[o := img.builtin(name)];
      }
      return Ok(t);
    }

    method Object(o: nat) returns (r: Result<(Data, Option<Entry>)>)
      requires Valid() && (roles.Some? ==> ObjectDisciplined(img, roles.value, o))
      modifies this
      ensures Valid() && KeptLocations(roles, old(objects), objects)
      ensures Right(roles, r.Ok?, TypedView(r), ObjectAt(img, o))
      ensures r.Ok? && AsValue(r.value.0).Some? ==>
                ObjectAt(img, o).Ok? && ObjectAt(img, o).value.0 == AsValue(r.value.0).value
    {
      hide TextsOk, KindsOk, CacheState, TypeAt, MatchName, PayloadAt;
      if o == NULL {
        return Ok((Made(NoneValue), None));
      }
      var words :- ReadU32s(img.data, o, 2);
      var t :- Dispatch(words[0]);
      var value :- Payload(kinds[words[0]], words[1]);
      return Ok((value, Some(t)));
    }

    // ----- Locations

    method ReadHead(o: nat, words: seq<nat>) returns (r: Result<Head>)
      requires TextsValid() && ReadU32s(img.data, o, 7) == Ok(words)
      modifies `strings
      ensures TextsValid() && r == HeadAt(img, o)
      ensures r.Ok? ==> r.value.words == words
    {
      hide TextsOk, TextKey, Encoded;
      var primary :- String(words[0], '/' as int);
      var internal :- String(words[1], '/' as int);
      var provider :- String(words[2], '.' as int);
      return Ok(Head(words, primary, internal, provider));
    }

    method ReadFields(o: nat, words: seq<nat>) returns (r: Result<Attributes>)
      requires Valid() && UsedAs(roles, o, LocationRole) && ReadU32s(img.data, o, 7) == Ok(words)
      modifies this
      ensures Valid() && KeptLocations(roles, old(objects), objects)
      ensures Right(roles, r.Ok?, FieldsView(r), FieldsAt(img, o))
    {
      if roles.Some? {
        assert LocationDisciplined(img, roles.value, o);
      }
      hide TextsOk, TextKey, KindsOk, CacheState, TypeAt, ObjectAt, FieldsAt, HeadAt, AsFields, AsTyped,
        ObjectDisciplined;
      if FieldsAt(img, o).Ok? {
        FieldsNeed(img, o);
      }
      var head :- ReadHead(o, words);
      var data :- Object(words[5]);
      var resourceType :- SerializedTypeAt(words[6]);
      AttributesAreRight(img, roles, o, head, data, resourceType);
      return Ok(AttributesOf(head, data, resourceType));
    }

    /** The cached objects of the dependency offsets; the direct lookup never misses. */
    method DependencyList(offsets: seq<nat>) returns (dependencies: seq<Entry>)
      requires forall i :: 0 <= i < |offsets| ==> offsets[i] in objects
      ensures |dependencies| == |offsets|
      ensures forall i :: 0 <= i < |offsets| ==> dependencies[i] == objects[offsets[i]]
    {
      dependencies := [];
      for i := 0 to |offsets|
        invariant |dependencies| == i
        invariant forall j :: 0 <= j < i ==> dependencies[j] == objects[offsets[j]]
      {
        dependencies := dependencies + [objects[offsets[i]]];
      }
    }

    /** What is cached at the dependency offsets is true there, and with roles it is their locations. */
    lemma DependenciesCached(o: nat, offsets: seq<nat>, dependencies: seq<Entry>)
      requires CacheState(img, roles, objects) && DepsAt(img, o) == Ok(offsets) && UsedAs(roles, o, LocationRole)
      requires |dependencies| == |offsets|
      requires forall i :: 0 <= i < |offsets| ==> offsets[i] in objects && dependencies[i] == objects[offsets[i]]
      ensures ListTrue(img, dependencies, offsets)
      ensures roles.Some? ==> Holds(objects, dependencies, offsets)
    {
      hide EntryTrue, DepsAt, EntryOk;
      forall i | 0 <= i < |offsets|
        ensures EntryTrue(img, offsets[i], dependencies[i])
      {
        assert EntryTrue(img, offsets[i], objects[offsets[i]]);
      }
      if roles.Some? {
        DependencyRoles(img, roles.value, o, offsets);
        forall i | 0 <= i < |offsets|
          ensures dependencies[i].LocationEntry?
        {
          CachedLocation(img, roles.value, objects, offsets[i]);
        }
      }
    }

    /** Runs only when every dependency is cached, as whatever kind. */
    method BuildLocation(o: nat) returns (r: Result<Entry>)
      requires Valid() && DepsAt(img, o).Ok? && (forall d | DependsOn(Records(img), o, d) :: d in objects)
      requires UsedAs(roles, o, LocationRole) && (roles.Some? ==> o !in objects)
      modifies this
      ensures Valid() && Kept(roles, old(objects), objects)
      ensures r.Ok? ==> o in objects && objects[o] == r.value && r.value.LocationEntry?
      ensures roles.Some? ==>
                && (r.Ok? <==> Decodes(Records(img), o))
                && (r.Fail? ==> FieldsAt(img, o).Fail?)
                && (forall k | k in objects && k !in old(objects) && objects[k].LocationEntry? :: k == o)
    {
      var words := ReadU32s(img.data, o, 7).value;
      var offsets := Array(words[3]).value;
      ListedDependencies(img, o, offsets);
      hide FieldsAt, DepsAt, EntryTrue, EntryOk, CacheOk, Disciplined, TextsOk, KindsOk, Decodes, Decodable,
        DependsOn, Array, ArrayAt, AsFields;
      DecodesStep(Records(img), o);
      var fields := ReadFields(o, words);
      if fields.Fail? {
        return Fail;
      }
      var dependencies := DependencyList(offsets);
      DependenciesCached(o, offsets, dependencies);
      var location := new ResourceLocation(fields.value, dependencies);
      BuiltIsRight(img, roles, objects, o, location);
      if roles.Some? && o in objects {
        CachedLocation(img, roles.value, objects, o);
        assert false;
      }
      CacheAddLocation(img, roles, objects, o, location);
      objects := objects[o := LocationEntry(location)];
      return Ok(LocationEntry(location));
    }

    /** The expanded entries are a dependency path; the active set covers it and otherwise only cached offsets. */
    ghost predicate PendingOk(root: nat, pending: Pending, path: seq<nat>, active: set<nat>)
      reads this
    {
      && StackOk(Records(img), root, pending, path, objects.Keys)
      && PathOk(Records(img), root, path)
      && (forall p | p in path :: p in active)
      && (forall p | p in active :: p in path || p in objects)
      && (forall e | e in pending :: UsedAs(roles, e.0, LocationRole))
      && (pending == [] ==> root in objects)
    }

    /** Pushes the uncached offsets so that the first of them ends on top. */
    method PushUncached(ghost root: nat, bottom: Pending, offsets: seq<nat>, ghost path: seq<nat>)
      returns (pending: Pending)
      requires bottom != [] && path != []
      requires StackOk(Records(img), root, bottom, path, objects.Keys + Elements(offsets))
      requires forall i :: 0 <= i < |offsets| ==>
          UsedAs(roles, offsets[i], LocationRole) && DependsOn(Records(img), Top(path), offsets[i])
      requires forall e | e in bottom :: UsedAs(roles, e.0, LocationRole)
      ensures pending != [] && StackOk(Records(img), root, pending, path, objects.Keys)
      ensures forall e | e in pending :: UsedAs(roles, e.0, LocationRole)
      ensures pending == bottom + PushedFrom(offsets, 0, objects.Keys)
    {
      hide Records, DepsAt, DependsOn, StackOk, UsedAs;
      pending := bottom;
      var i := |offsets|;
      assert offsets[..i] == offsets;
      while i > 0
        invariant 0 <= i <= |offsets| && pending != []
        invariant pending == bottom + PushedFrom(offsets, i, objects.Keys)
        invariant StackOk(Records(img), root, pending, path, objects.Keys + Elements(offsets[..i]))
        invariant forall e | e in pending :: UsedAs(roles, e.0, LocationRole)
      {
        i := i - 1;
        var child := offsets[i];
        ghost var have := objects.Keys + Elements(offsets[..i]);
        assert offsets[..i + 1] == offsets[..i] + [child];
        assert objects.Keys + Elements(offsets[..i + 1]) == have + {child};
        if child !in objects {
          Push(Records(img), root, pending, path, have, child);
          pending := pending + [(child, false)];
        } else {
          assert have + {child} == have;
        }
      }
      assert objects.Keys + Elements(offsets[..0]) == objects.Keys;
    }

    /** Expands the record on top of the stack: itself, then its uncached dependencies in order. */
    method ExpandTop(root: nat, popped: Pending, o: nat, offsets: seq<nat>, ghost path: seq<nat>,
                     ghost active: set<nat>)
      returns (pending: Pending)
      requires PendingOk(root, popped + [(o, false)], path, active)
      requires DepsAt(img, o) == Ok(offsets) && o !in active
      requires forall d | d in offsets :: UsedAs(roles, d, LocationRole)
      ensures PendingOk(root, pending, path + [o], active + {o}) && pending != []
      ensures pending == popped + [(o, true)] + PushedFrom(offsets, 0, objects.Keys)
    {
      hide PushedFrom, DepsAt, StackOk, PathOk, Records, DependsOn, UsedAs;
      ListedDependencies(img, o, offsets);
      assert (o, false) in popped + [(o, false)];
      Expand(Records(img), root, popped, o, path, objects.Keys, offsets);
      pending := PushUncached(root, popped + [(o, true)], offsets, path + [o]);
    }

    /** Skips a cached entry, which may have been cached as another kind after it was expanded. */
    lemma SkipTop(root: nat, pending: Pending, path: seq<nat>, active: set<nat>)
      requires PendingOk(root, pending, path, active) && pending != [] && Top(pending).0 in objects
      ensures Top(pending).1 ==> path != []
      ensures PendingOk(root, Pop(pending), if Top(pending).1 then Pop(path) else path, active)
    {
      hide Records, PathOk, StackOk, UsedAs;
      if Top(pending).1 {
        SkipExpanded(Records(img), root, pending, path, objects.Keys);
        assert path == Pop(path) + [Top(path)];
        Finish(Records(img), root, pending, path, objects.Keys);
      } else {
        Skip(Records(img), root, pending, path, objects.Keys);
        NothingPending(Records(img), root, Pop(pending), path, objects.Keys);
      }
    }

    /** After the top record was built. */
    lemma FinishTop(root: nat, pending: Pending, path: seq<nat>, active: set<nat>, before: Cache)
      requires pending != [] && Top(pending).1
      requires StackOk(Records(img), root, pending, path, before.Keys) && PathOk(Records(img), root, path)
      requires forall p | p in path :: p in active
      requires forall p | p in active :: p in path || p in before
      requires forall e | e in pending :: UsedAs(roles, e.0, LocationRole)
      requires before.Keys <= objects.Keys && Top(pending).0 in objects
      ensures path != [] && PendingOk(root, Pop(pending), Pop(path), active - {Top(pending).0})
    {
      hide Records, StackOk, PathOk, UsedAs;
      var o := Top(pending).0;
      Finish(Records(img), root, pending, path, before.Keys);
      StackMore(Records(img), root, Pop(pending), Pop(path), before.Keys + {o}, objects.Keys);
      assert path == Pop(path) + [o];
    }

    method AllCached(offsets: seq<nat>) returns (ready: bool)
      ensures ready <==> forall i :: 0 <= i < |offsets| ==> offsets[i] in objects
    {
      for i := 0 to |offsets|
        invariant forall j :: 0 <= j < i ==> offsets[j] in objects
      {
        if offsets[i] !in objects {
          return false;
        }
      }
      return true;
    }

    /**
     * Decodes a location with an explicit stack. On every file the loop ends, each build finds all its
     * dependencies cached, and a reported cycle is a real dependency path that comes back. Where each
     * offset is used as one kind of record, it succeeds exactly when the location decodes, and a failure
     * without a cycle means that some record below cannot be read.
     */
    method Location(root: nat) returns (r: Result<Entry>, cycle: Option<nat>)
      requires Valid() && UsedAs(roles, root, LocationRole)
      modifies this
      ensures Valid() && Kept(roles, old(objects), objects)
      ensures root in old(objects) ==> r == Ok(old(objects)[root])
      ensures r.Ok? ==> root in objects && objects[root] == r.value
      ensures cycle.Some? ==> r.Fail? && IsCycleFrom(Records(img), root, cycle.value)
      ensures roles.Some? ==> (r.Ok? <==> Decodes(Records(img), root)) && (r.Ok? ==> r.value.LocationEntry?)
      ensures roles.Some? && r.Fail? && cycle.None? ==> BrokenBelow(Records(img), root)
    {
      hide Records, FieldsAt, DepsAt, TextsOk, KindsOk, CacheState, UsedAs, Decodes, StackOk, PathOk, DependsOn,
        Array, ArrayAt, IsCycleFrom, Reaches, BrokenBelow, PushedFrom;
      cycle := None;
      if root in objects {
        TameHit(root);
        return Ok(objects[root]), None;
      }
      RecordSettles(root);
      var record := ReadU32s(img.data, root, 7);
      if record.Fail? {
        return Fail, None;
      }
      var first := Array(record.value[3]);
      if first.Fail? {
        return Fail, None;
      }
      ListedDependencies(img, root, first.value);
      var ready := AllCached(first.value);
      if ready {
        r := BuildLocation(root);
        return r, None;
      }
      var pending: Pending, active := [(root, false)], {};
      ghost var path: seq<nat> := [];
      StartPending(root);
      while pending != []
        invariant Valid() && Kept(roles, old(objects), objects)
        invariant PendingOk(root, pending, path, active)
        decreases Below(|img.data|) - objects.Keys - active, |pending|
      {
        var (o, expanded) := Top(pending);
        ghost var left := Below(|img.data|) - objects.Keys - active;
        assert Top(pending) in pending;
        if o in objects {
          SkipTop(root, pending, path, active);
          path := if expanded then Pop(path) else path;
          pending := Pop(pending);
          continue;
        }
        RecordSettles(o);
        var words := ReadU32s(img.data, o, 7);
        if words.Fail? {
          UnreadableTop(root, pending, path, objects.Keys);
          return Fail, None;
        }
        var dependencies := Array(words.value[3]);
        if dependencies.Fail? {
          UnreadableTop(root, pending, path, objects.Keys);
          return Fail, None;
        }
        if !expanded {
          if o in active {
            ActiveAgain(Records(img), root, pending, path, objects.Keys);
            return Fail, Some(o);
          }
          assert pending == Pop(pending) + [(o, false)];
          RolesOfDependencies(o, dependencies.value);
          pending := ExpandTop(root, Pop(pending), o, dependencies.value, path, active);
          active := active + {o};
          path := path + [o];
          assert Below(|img.data|) - objects.Keys - active == left - {o} && o in left;
          continue;
        }
        Finish(Records(img), root, pending, path, objects.Keys);
        ghost var before := objects;
        var built := BuildLocation(o);
        if built.Fail? {
          if roles.Some? {
            UnreadableTop(root, pending, path, before.Keys);
          }
          return Fail, None;
        }
        FinishTop(root, pending, path, active, before);
        active := active - {o};
        path := Pop(path);
        pending := Pop(pending);
        assert Below(|img.data|) - objects.Keys - active <= left;
      }
      TameHit(root);
      return Ok(objects[root]), None;
    }

    /** With roles, what is cached at a location offset is a location that decodes. */
    lemma TameHit(o: nat)
      requires Valid() && UsedAs(roles, o, LocationRole) && o in objects
      ensures roles.Some? ==> objects[o].LocationEntry? && Decodes(Records(img), o)
    {
      if roles.Some? {
        CachedLocation(img, roles.value, objects, o);
      }
    }

    lemma RolesOfDependencies(o: nat, offsets: seq<nat>)
      requires Valid() && UsedAs(roles, o, LocationRole) && DepsAt(img, o) == Ok(offsets)
      ensures forall d | d in offsets :: UsedAs(roles, d, LocationRole)
    {
      if roles.Some? {
        DependencyRoles(img, roles.value, o, offsets);
      }
    }

    /** An unreadable record cannot be decoded, nor can a root above it. */
    lemma UnreadableTop(root: nat, pending: Pending, path: seq<nat>, have: set<nat>)
      requires StackOk(Records(img), root, pending, path, have) && PathOk(Records(img), root, path) && pending != []
      requires FieldsAt(img, Top(pending).0).Fail? || DepsAt(img, Top(pending).0).Fail?
      ensures !Decodes(Records(img), root) && BrokenBelow(Records(img), root)
    {
      hide Decodes, StackOk, PathOk, FieldsAt, DepsAt, BrokenBelow;
      DecodesStep(Records(img), Top(pending).0);
      TopBreaksRoot(Records(img), root, pending, path, have);
      BrokenTop(Records(img), root, pending, path, have);
    }

    lemma StartPending(root: nat)
      requires UsedAs(roles, root, LocationRole)
      ensures PendingOk(root, [(root, false)], [], {})
    {
      hide Records;
      var pending: Pending, path: seq<nat> := [(root, false)], [];
      assert Pop(pending) == [] && Top(pending) == (root, false);
      assert StackOk(Records(img), root, Pop(pending), path, objects.Keys + {root});
    }

    /** What a record's words and array settle about it. */
    lemma RecordSettles(o: nat)
      ensures var words := ReadU32s(img.data, o, 7);
              DepsAt(img, o) == if words.Fail? then Fail else ArrayAt(img, words.value[3])
      ensures DepsAt(img, o).Ok? ==> o < |img.data|
      ensures DepsAt(img, o).Fail? ==> !Decodes(Records(img), o)
      ensures DepsAt(img, o).Fail? || FieldsAt(img, o).Fail? ==> BrokenBelow(Records(img), o)
    {
      hide FieldsAt, ArrayAt;
      DecodesStep(Records(img), o);
      ReachesSelf(Records(img), o);
    }

    // ----- The resource map

    /** The objects for each listed offset, in order. */
    method Locations(offsets: seq<nat>) returns (r: Result<seq<Entry>>)
      requires Valid() && forall i :: 0 <= i < |offsets| ==> UsedAs(roles, offsets[i], LocationRole)
      modifies this
      ensures Valid() && Kept(roles, old(objects), objects)
      ensures r.Ok? ==> ListTrue(img, r.value, offsets)
      ensures roles.Some? && r.Ok? ==> Holds(objects, r.value, offsets)
      ensures roles.Some? ==> (r.Ok? <==> forall o | o in offsets :: Decodes(Records(img), o))
    {
      hide FieldsAt, DepsAt, EntryTrue, EntryOk, CacheOk, Disciplined, TextsOk, KindsOk, Linked, Records;
      var locations := [];
      for i := 0 to |offsets|
        invariant Valid() && Kept(roles, old(objects), objects)
        invariant ListTrue(img, locations, offsets[..i])
        invariant roles.Some? ==> Holds(objects, locations, offsets[..i])
        invariant roles.Some? ==> forall o | o in offsets[..i] :: Decodes(Records(img), o)
      {
        var location, _ := Location(offsets[i]);
        if location.Fail? {
          assert offsets[i] in offsets;
          return Fail;
        }
        assert EntryTrue(img, offsets[i], objects[offsets[i]]);
        locations := locations + [location.value];
        assert offsets[..i + 1] == offsets[..i] + [offsets[i]];
      }
      assert offsets[..|offsets|] == offsets;
      return Ok(locations);
    }

    /** One key and a list object of its own. */
    method Pair(keyOffset: nat, list: nat) returns (r: Result<(Data, LocationList)>)
      requires Valid() && (roles.Some? ==> PairDisciplined(img, roles.value, keyOffset, list))
      modifies this
      ensures Valid() && Kept(roles, old(objects), objects)
      ensures r.Ok? ==>
                && fresh(r.value.1)
                && ArrayAt(img, list).Ok?
                && PairReadAs(img, keyOffset, list, KeySlot(r.value.0, ArrayAt(img, list).value))
                && ListTrue(img, r.value.1.items, ArrayAt(img, list).value)
      ensures roles.Some? ==> (r.Ok? <==> PairReads(img, keyOffset, list))
      ensures roles.Some? && r.Ok? ==>
                && r.value.0 == Made(ObjectAt(img, keyOffset).value.0)
                && Holds(objects, r.value.1.items, ArrayAt(img, list).value)
    {
      hide ObjectAt, ArrayAt, Decodes, EntryTrue, CacheState, TextsOk, KindsOk;
      var key :- Object(keyOffset);
      var offsets :- Array(list);
      var locations :- Locations(offsets);
      if !Hashable(key.0) {
        return Fail;
      }
      var values := new LocationList(locations);
      return Ok((key.0, values));
    }

    /** Decodes the whole resource map. */
    method Resources(keysOffset: nat) returns (r: Result<ResourceMap.Resources>, ghost raw: Index)
      requires Valid() && (roles.Some? ==> IndexDisciplined(img, roles.value, keysOffset))
      modifies this
      ensures Valid() && Kept(roles, old(objects), objects)
      ensures r.Ok? ==>
                && PairsAt(img, keysOffset).Ok? && 2 * |raw| == |PairsAt(img, keysOffset).value|
                && ReadAs(img, PairsAt(img, keysOffset).value, raw)
                && Carries(img, r.value, Collect(raw))
      ensures roles.Some? ==> (r.Ok? <==> Parses(img, keysOffset))
      ensures roles.Some? && r.Ok? ==>
                Entries(img, keysOffset) == Ok(raw) && Matches(objects, r.value, Collect(raw))
    {
      hide ObjectAt, ArrayAt, Decodes, CacheState, TextsOk, KindsOk, EntriesOf, PairReads, Collect, Holds, Assign,
        PairReadAs, ListTrue;
      raw := [];
      var pairs :- Array(keysOffset);
      if |pairs| % 2 != 0 {
        return Fail, raw;
      }
      assert PairsAt(img, keysOffset) == Ok(pairs);
      hide PairsAt;
      var result: ResourceMap.Resources := [];
      NoEntries(img, pairs);
      for i := 0 to |pairs| / 2
        invariant Valid() && Kept(roles, old(objects), objects)
        invariant |raw| == i && ReadAs(img, pairs, raw) && Carries(img, result, Collect(raw))
        invariant roles.Some? ==> EntriesOf(img, pairs, i) == Ok(raw) && Matches(objects, result, Collect(raw))
        invariant roles.Some? ==> forall e | e in raw :: forall o | o in e.value :: Decodes(Records(img), o)
      {
        ghost var before := objects;
        var pair := Pair(pairs[2 * i], pairs[2 * i + 1]);
        if pair.Fail? {
          if roles.Some? && Parses(img, keysOffset) {
            ParsedPairReads(img, keysOffset, i);
          }
          return Fail, raw;
        }
        var (key, list) := pair.value;
        ghost var offsets := ArrayAt(img, pairs[2 * i + 1]).value;
        CollectAdds(raw, KeySlot(key, offsets));
        CarriesAssign(img, result, Collect(raw), key, list, offsets);
        if roles.Some? {
          PairAdds(img, pairs, i, raw);
          MatchesGrows(before, objects, result, Collect(raw));
          MatchesAssign(objects, result, Collect(raw), key, list, offsets);
        }
        raw := raw + [KeySlot(key, offsets)];
        result := Assign(result, KeySlot(key, list));
      }
      return Ok(result), raw;
    }
  }

  /**
   * A location of any file, whatever its offsets are used as: the loop ends, a reported cycle is a real
   * dependency path from the root that comes back, so that the root has no value, and a result in which
   * every object has a right kind is the location that the record denotes.
   */
  method DecodeAnyLocation(img: Image, root: nat) returns (r: Result<Entry>, cycle: Option<nat>)
    ensures cycle.Some? ==> r.Fail? && IsCycleFrom(Records(img), root, cycle.value) && !Decodes(Records(img), root)
    ensures r.Ok? && ItemClean(r.value) ==> ShowsRecord(img, root, r.value)
  {
    hide IsCycleFrom, Decodes, TextsOk, KindsOk;
    var parser := new Parser(img, map[], None);
    r, cycle := parser.Location(root);
    if cycle.Some? {
      CycleFromNeverDecodes(Records(img), root, cycle.value);
    }
    if r.Ok? {
      assert EntryTrue(img, root, parser.objects[root]);
    }
  }
}
