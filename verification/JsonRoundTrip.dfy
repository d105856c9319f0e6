/** The tables of a JSON catalog, packed field by field and read back by both back ends. */
module JsonRoundTrip {
  import opened Wrappers
  import opened Bytes
  import opened Dicts
  import opened JsonSpec
  import opened JsonBackends
  import RecordSpec
  import IdPrefix
  import TextForms
  import RecordForms

  // ----- Bytes

  function Int32(n: int): (raw: seq<byte>)
    ensures |raw| == 4
  {
    LE32(n % 0x1_0000_0000)
  }

  predicate IsInt32(n: int) {
    -0x8000_0000 <= n < 0x8000_0000
  }

  /** The first n chunks, one behind the other. */
  function Chained(chunks: seq<seq<byte>>, n: nat): seq<byte>
    requires n <= |chunks|
  {
    if n == 0 then [] else Chained(chunks, n - 1) + chunks[n - 1]
  }

  /** A count and then the chunks. */
  function Table(chunks: seq<seq<byte>>): seq<byte> {
    Int32(|chunks|) + Chained(chunks, |chunks|)
  }

  function IntBytes(ns: seq<int>): seq<byte> {
    Chained(seq(|ns|, i requires 0 <= i < |ns| => Int32(ns[i])), |ns|)
  }

  /** The bytes d hold the chunk at o. */
  predicate HoldsAt(d: seq<byte>, o: nat, chunk: seq<byte>) {
    o + |chunk| <= |d| && d[o..o + |chunk|] == chunk
  }

  lemma HoldsParts(d: seq<byte>, o: nat, a: seq<byte>, b: seq<byte>)
    requires HoldsAt(d, o, a + b)
    ensures HoldsAt(d, o, a) && HoldsAt(d, o + |a|, b)
  {
    var all := d[o..o + |a + b|];
    assert d[o..o + |a|] == all[..|a|] == a;
    assert d[o + |a|..o + |a| + |b|] == all[|a|..] == b;
  }

  lemma {:induction false} ChainedHolds(d: seq<byte>, o: nat, chunks: seq<seq<byte>>, n: nat, i: nat)
    requires i < n <= |chunks| && HoldsAt(d, o, Chained(chunks, n))
    ensures HoldsAt(d, o + |Chained(chunks, i)|, chunks[i])
    decreases n
  {
    HoldsParts(d, o, Chained(chunks, n - 1), chunks[n - 1]);
    if i < n - 1 {
      ChainedHolds(d, o, chunks, n - 1, i);
    }
  }

  lemma TableHolds(chunks: seq<seq<byte>>, i: nat)
    requires i < |chunks|
    ensures HoldsAt(Table(chunks), 4 + |Chained(chunks, i)|, chunks[i])
  {
    hide Chained, Int32;
    var d, all := Table(chunks), Chained(chunks, |chunks|);
    assert d[0..0 + |d|] == d == Int32(|chunks|) + all;
    HoldsParts(d, 0, Int32(|chunks|), all);
    ChainedHolds(d, 4, chunks, |chunks|, i);
  }

  lemma IntReads(d: seq<byte>, o: nat, n: int)
    requires HoldsAt(d, o, Int32(n))
    ensures U32(d, o) == n % 0x1_0000_0000
    ensures IsInt32(n) ==> S32(d, o) == n
  {
    U32OfSlice(d, o);
    RecordForms.NumbersRead(n);
  }

  lemma CountReads(chunks: seq<seq<byte>>)
    requires |chunks| < 0x8000_0000
    ensures |Table(chunks)| >= 4 && S32(Table(chunks), 0) == |chunks|
  {
    assert Table(chunks)[0..4] == Int32(|chunks|);
    IntReads(Table(chunks), 0, |chunks|);
  }

  lemma {:induction false} ChainedLength(chunks: seq<seq<byte>>, n: nat, size: nat)
    requires n <= |chunks| && forall i :: 0 <= i < n ==> |chunks[i]| == size
    ensures |Chained(chunks, n)| == size * n
  {
    if n > 0 {
      ChainedLength(chunks, n - 1, size);
    }
  }

  lemma IntBytesLength(ns: seq<int>)
    ensures |IntBytes(ns)| == 4 * |ns|
  {
    ChainedLength(seq(|ns|, i requires 0 <= i < |ns| => Int32(ns[i])), |ns|, 4);
  }

  /** Integers in a row read back in their order. */
  lemma IntsRead(d: seq<byte>, o: nat, ns: seq<int>)
    requires HoldsAt(d, o, IntBytes(ns)) && forall i :: 0 <= i < |ns| ==> IsInt32(ns[i])
    ensures o + 4 * |ns| <= |d| && Ints(d, o, |ns|) == ns
  {
    IntBytesLength(ns);
    var chunks := seq(|ns|, i requires 0 <= i < |ns| => Int32(ns[i]));
    forall i | 0 <= i < |ns|
      ensures S32(d, o + 4 * i) == ns[i]
    {
      ChainedLength(chunks, i, 4);
      ChainedHolds(d, o, chunks, |ns|, i);
      IntReads(d, o + 4 * i, ns[i]);
    }
  }

  // ----- Objects

  /** An object of each kind, its strings as bytes. */
  datatype Item =
    | NarrowText(raw: seq<byte>)
    | WideText(raw: seq<byte>)
    | UInt16(n: nat)
    | UInt32(n: nat)
    | SInt32(i: int)
    | HashItem(raw: seq<byte>)
    | TypeItem(raw: seq<byte>)
    | ClassItem(assembly: seq<byte>, name: seq<byte>, json: seq<byte>)

  predicate ItemFits(item: Item) {
    match item
    case NarrowText(raw) => |raw| < 0x8000_0000
    case WideText(raw) => |raw| < 0x8000_0000
    case UInt16(n) => n < 0x1_0000
    case UInt32(n) => n < 0x1_0000_0000
    case SInt32(i) => IsInt32(i)
    case HashItem(raw) => |raw| < 256
    case TypeItem(raw) => |raw| < 256
    case ClassItem(assembly, name, json) => |assembly| < 256 && |name| < 256 && |json| < 0x8000_0000
  }

  function Half(n: nat): (raw: seq<byte>)
    requires n < 0x1_0000
    ensures |raw| == 2
  {
    [n % 0x100, n / 0x100]
  }

  function Short(raw: seq<byte>): seq<byte>
    requires |raw| < 256
  {
    [|raw| as byte] + raw
  }

  function Long(raw: seq<byte>): seq<byte> {
    Int32(|raw|) + raw
  }

  function ItemBytes(item: Item): (raw: seq<byte>)
    requires ItemFits(item)
    ensures raw != []
  {
    match item
    case NarrowText(raw) => [0] + Long(raw)
    case WideText(raw) => [1] + Long(raw)
    case UInt16(n) => [2] + Half(n)
    case UInt32(n) => [3] + Int32(n)
    case SInt32(i) => [4] + Int32(i)
    case HashItem(raw) => [5] + Short(raw)
    case TypeItem(raw) => [6] + Short(raw)
    case ClassItem(assembly, name, json) => [7] + (Short(assembly) + (Short(name) + Long(json)))
  }

  function NarrowMeant(lib: Library, raw: seq<byte>): Result<string> {
    match TextForms.PieceText(lib.utf16, TextForms.Narrow(raw))
    case Fail => Fail
    case Ok(text) => if text.None? then Fail else Ok(text.value)
  }

  function WideMeant(lib: Library, raw: seq<byte>): Result<string> {
    if lib.utf16(raw).None? then Fail else Ok(lib.utf16(raw).value)
  }

  /** The name alone, or the name and more behind a comma. */
  predicate ShortNamed(assembly: string, short: string) {
    assembly == short || short + "," <= assembly
  }

  /** What an object denotes, and the type that comes with it. */
  function ItemMeant(lib: Library, item: Item): Result<(JsonValue, Option<SerializedType>)> {
    match item
    case NarrowText(raw) =>
      var text :- NarrowMeant(lib, raw);
      Ok((Text(text), None))
    case WideText(raw) =>
      var text :- WideMeant(lib, raw);
      Ok((Text(text), None))
    case UInt16(n) => Ok((Number(n), None))
    case UInt32(n) => Ok((Number(n), None))
    case SInt32(i) => Ok((Number(i), None))
    case HashItem(raw) =>
      var text :- NarrowMeant(lib, raw);
      Ok((HashText(text), None))
    case TypeItem(raw) =>
      var text :- NarrowMeant(lib, raw);
      Ok((TypeText(text), None))
    case ClassItem(assembly, name, json) =>
      var a :- NarrowMeant(lib, assembly);
      var n :- NarrowMeant(lib, name);
      var text :- WideMeant(lib, json);
      var t := RecordSpec.SerializedType(Some(a), Some(n));
      if ShortNamed(a, BUNDLE_ASSEMBLY) && n == BUNDLE_CLASS then
        var options :- lib.readOptions(text);
        Ok((options, Some(t)))
      else Ok((ClassObject(t, text), Some(t)))
  }

  lemma TextIs(lib: Library, raw: seq<byte>)
    ensures TextOf(lib, raw, false) == NarrowMeant(lib, raw) && TextOf(lib, raw, true) == WideMeant(lib, raw)
  {
  }

  lemma ShortReads(lib: Library, d: seq<byte>, o: nat, raw: seq<byte>)
    requires |raw| < 256 && HoldsAt(d, o, Short(raw))
    ensures ShortText(lib, d, o) ==
            match NarrowMeant(lib, raw) case Fail => Fail case Ok(text) => Ok((text, o + 1 + |raw|))
  {
    hide NarrowMeant, TextOf;
    HoldsParts(d, o, [|raw| as byte], raw);
    assert d[o] == d[o..o + 1][0];
    TextIs(lib, raw);
  }

  lemma LongReads(lib: Library, d: seq<byte>, o: nat, raw: seq<byte>, unicode: bool)
    requires |raw| < 0x8000_0000 && HoldsAt(d, o, Long(raw))
    ensures LongText(lib, d, o, unicode) == if unicode then WideMeant(lib, raw) else NarrowMeant(lib, raw)
  {
    hide NarrowMeant, WideMeant, TextOf;
    HoldsParts(d, o, Int32(|raw|), raw);
    IntReads(d, o, |raw|);
    TextIs(lib, raw);
  }

  lemma CommaCuts(assembly: string, short: string)
    requires ',' !in short
    ensures RecordSpec.BeforeComma(assembly) == short <==> ShortNamed(assembly, short)
  {
    var n := RecordSpec.CommaFrom(assembly, 0);
    CommaFound(assembly, 0);
    if ShortNamed(assembly, short) {
      assert forall k :: 0 <= k < |short| ==> assembly[k] == short[k];
      if assembly != short {
        assert assembly[|short|] == (short + ",")[|short|] == ',';
      }
      RecordSpec.CommaIs(assembly, |short|, 0);
      assert assembly[..|short|] == short;
    }
    if RecordSpec.BeforeComma(assembly) == short && n < |assembly| {
      assert assembly[..n + 1] == short + ",";
    }
  }

  lemma {:induction false} CommaFound(text: string, i: nat)
    requires i <= |text|
    ensures var n := RecordSpec.CommaFrom(text, i); n < |text| ==> text[n] == ','
    ensures RecordSpec.CommaFrom(text, i) == |text| || i <= RecordSpec.CommaFrom(text, i) < |text|
    decreases |text| - i
  {
    if i < |text| && text[i] != ',' {
      CommaFound(text, i + 1);
    }
  }

  lemma BundleNameHasNoComma()
    ensures ',' !in BUNDLE_ASSEMBLY
  {
  }

  lemma ClassReads(lib: Library, d: seq<byte>, o: nat, assembly: seq<byte>, name: seq<byte>, json: seq<byte>)
    requires lib.bundleAssembly == BUNDLE_ASSEMBLY && lib.bundleClass == BUNDLE_CLASS
    requires ItemFits(ClassItem(assembly, name, json))
    requires HoldsAt(d, o, Short(assembly) + (Short(name) + Long(json)))
    ensures ClassObjectAt(lib, d, o) == ItemMeant(lib, ClassItem(assembly, name, json))
  {
    hide NarrowMeant, WideMeant, ShortText, LongText, RecordSpec.BeforeComma, ShortNamed, Short, Long;
    HoldsParts(d, o, Short(assembly), Short(name) + Long(json));
    ShortLength(assembly);
    ShortLength(name);
    HoldsParts(d, o + |Short(assembly)|, Short(name), Long(json));
    ShortReads(lib, d, o, assembly);
    ShortReads(lib, d, o + |Short(assembly)|, name);
    LongReads(lib, d, o + |Short(assembly)| + |Short(name)|, json, true);
    BundleNameHasNoComma();
    if NarrowMeant(lib, assembly).Ok? {
      CommaCuts(NarrowMeant(lib, assembly).value, BUNDLE_ASSEMBLY);
    }
  }

  lemma ShortLength(raw: seq<byte>)
    requires |raw| < 256
    ensures |Short(raw)| == 1 + |raw|
  {
  }

  /** An object of any kind reads back as what it denotes, and fails exactly when it denotes nothing. */
  lemma ItemReads(lib: Library, d: seq<byte>, o: nat, item: Item)
    requires lib.bundleAssembly == BUNDLE_ASSEMBLY && lib.bundleClass == BUNDLE_CLASS
    requires ItemFits(item) && HoldsAt(d, o, ItemBytes(item))
    ensures ObjectAt(lib, d, o) == ItemMeant(lib, item)
  {
    hide NarrowMeant, WideMeant, ShortText, LongText, ClassObjectAt, Short, Long, Int32, U16, U32, S32;
    hide ItemBytes, HoldsAt, Half;
    TagReads(d, o, ItemBytes(item));
    RestIs(item);
    match item {
      case NarrowText(raw) =>
        LongReads(lib, d, o + 1, raw, false);
      case WideText(raw) =>
        LongReads(lib, d, o + 1, raw, true);
      case UInt16(n) =>
        HalfReads(d, o + 1, n);
      case UInt32(n) =>
        IntReads(d, o + 1, n);
      case SInt32(i) =>
        IntReads(d, o + 1, i);
      case HashItem(raw) =>
        ShortReads(lib, d, o + 1, raw);
      case TypeItem(raw) =>
        ShortReads(lib, d, o + 1, raw);
      case ClassItem(assembly, name, json) =>
        ClassReads(lib, d, o + 1, assembly, name, json);
    }
  }

  lemma TagReads(d: seq<byte>, o: nat, raw: seq<byte>)
    requires raw != [] && HoldsAt(d, o, raw)
    ensures o < |d| && d[o] == raw[0] && HoldsAt(d, o + 1, raw[1..])
    ensures o + |raw| <= |d|
  {
    assert raw == [raw[0]] + raw[1..];
    HoldsParts(d, o, [raw[0]], raw[1..]);
    assert d[o] == d[o..o + 1][0];
  }

  lemma HalfReads(d: seq<byte>, o: nat, n: nat)
    requires n < 0x1_0000 && HoldsAt(d, o, Half(n))
    ensures U16(d, o) == n
  {
    assert d[o] == d[o..o + 2][0] && d[o + 1] == d[o..o + 2][1];
  }

  /** The number of each kind, and what follows it. */
  lemma RestIs(item: Item)
    requires ItemFits(item)
    ensures var tag, rest := ItemBytes(item)[0], ItemBytes(item)[1..];
            match item
            case NarrowText(raw) => tag == 0 && rest == Long(raw)
            case WideText(raw) => tag == 1 && rest == Long(raw)
            case UInt16(n) => tag == 2 && rest == Half(n)
            case UInt32(n) => tag == 3 && rest == Int32(n)
            case SInt32(i) => tag == 4 && rest == Int32(i)
            case HashItem(raw) => tag == 5 && rest == Short(raw)
            case TypeItem(raw) => tag == 6 && rest == Short(raw)
            case ClassItem(assembly, name, json) => tag == 7 && rest == Short(assembly) + (Short(name) + Long(json))
  {
    hide Short, Long, Int32, Half;
  }

  // ----- The four tables

  /** A key and the places in the location table that its bucket lists. */
  datatype KeyContent = KeyContent(item: Item, entries: seq<nat>)

  datatype LocationContent = LocationContent(
    id: nat, provider: nat, dependencyKey: Option<nat>, dependencyHash: int, data: Option<Item>, primaryKey: nat,
    resourceType: nat)

  datatype Content = Content(keys: seq<KeyContent>, locations: seq<LocationContent>)

  predicate ItemsFit(c: Content) {
    && (forall i :: 0 <= i < |c.keys| ==> ItemFits(c.keys[i].item))
    && (forall i :: 0 <= i < |c.locations| && c.locations[i].data.Some? ==> ItemFits(c.locations[i].data.value))
  }

  function KeyChunks(c: Content): (chunks: seq<seq<byte>>)
    requires ItemsFit(c)
    ensures |chunks| == |c.keys|
  {
    seq(|c.keys|, i requires 0 <= i < |c.keys| => ItemBytes(c.keys[i].item))
  }

  /** The data objects, one behind the other; a location without data adds nothing. */
  function ExtraChunks(c: Content): (chunks: seq<seq<byte>>)
    requires ItemsFit(c)
    ensures |chunks| == |c.locations|
  {
    seq(|c.locations|, i requires 0 <= i < |c.locations| =>
      if c.locations[i].data.Some? then ItemBytes(c.locations[i].data.value) else [])
  }

  function KeyOffset(c: Content, i: nat): nat
    requires ItemsFit(c) && i < |c.keys|
  {
    4 + |Chained(KeyChunks(c), i)|
  }

  function DataOffset(c: Content, i: nat): int
    requires ItemsFit(c) && i < |c.locations|
  {
    if c.locations[i].data.Some? then |Chained(ExtraChunks(c), i)| else -1
  }

  function BucketBytes(offset: nat, entries: seq<nat>): seq<byte> {
    Int32(offset) + (Int32(|entries|) + IntBytes(entries))
  }

  function BucketChunks(c: Content): (chunks: seq<seq<byte>>)
    requires ItemsFit(c)
    ensures |chunks| == |c.keys|
  {
    seq(|c.keys|, i requires 0 <= i < |c.keys| => BucketBytes(KeyOffset(c, i), c.keys[i].entries))
  }

  function LocationInts(l: LocationContent, dataOffset: int): (ns: seq<int>)
    ensures |ns| == 7
  {
    [l.id, l.provider, if l.dependencyKey.Some? then l.dependencyKey.value else -1, l.dependencyHash, dataOffset,
     l.primaryKey, l.resourceType]
  }

  function LocationChunks(c: Content): (chunks: seq<seq<byte>>)
    requires ItemsFit(c)
    ensures |chunks| == |c.locations|
  {
    seq(|c.locations|, i requires 0 <= i < |c.locations| => IntBytes(LocationInts(c.locations[i], DataOffset(c, i))))
  }

  function TablesOf(c: Content): Tables
    requires ItemsFit(c)
  {
    Tables(Table(BucketChunks(c)), Table(KeyChunks(c)), Table(LocationChunks(c)),
           Chained(ExtraChunks(c), |c.locations|))
  }

  /** Every number fits its field, and every index is in range. */
  predicate Fits(c: Content, lists: Lists) {
    && ItemsFit(c)
    && |c.keys| < 0x8000_0000 && |c.locations| < 0x8000_0000
    && |Table(KeyChunks(c))| < 0x8000_0000 && |Chained(ExtraChunks(c), |c.locations|)| < 0x8000_0000
    && (forall i :: 0 <= i < |c.keys| ==> EntriesFit(c, c.keys[i].entries))
    && (forall i :: 0 <= i < |c.locations| ==> LocationFits(c, lists, c.locations[i]))
  }

  predicate EntriesFit(c: Content, entries: seq<nat>) {
    |entries| < 0x8000_0000 && forall k :: 0 <= k < |entries| ==> entries[k] < |c.locations|
  }

  predicate LocationFits(c: Content, lists: Lists, l: LocationContent) {
    && l.id < |lists.internalIds| && l.provider < |lists.providers| && l.resourceType < |lists.types|
    && l.id < 0x8000_0000 && l.provider < 0x8000_0000 && l.resourceType < 0x8000_0000 && l.primaryKey < 0x8000_0000
    && IsInt32(l.dependencyHash)
    && (l.dependencyKey.Some? ==> l.dependencyKey.value < |c.keys|)
    && (if lists.keys.Some? then l.primaryKey < |lists.keys.value| else l.primaryKey < |c.keys|)
  }

  /** Every object denotes something, and no key is an options record. */
  predicate Readable(lib: Library, c: Content) {
    && (forall i :: 0 <= i < |c.keys| ==>
          ItemMeant(lib, c.keys[i].item).Ok? && !ItemMeant(lib, c.keys[i].item).value.0.Options?)
    && (forall i :: 0 <= i < |c.locations| && c.locations[i].data.Some? ==>
          ItemMeant(lib, c.locations[i].data.value).Ok?)
  }

  // ----- What they denote

  function KeyMeant(lib: Library, c: Content, i: nat): JsonValue
    requires i < |c.keys| && Readable(lib, c)
  {
    ItemMeant(lib, c.keys[i].item).value.0
  }

  function IdMeant(lib: Library, lists: Lists, i: nat): string
    requires i < |lists.internalIds|
  {
    if lists.prefixes == [] then lists.internalIds[i]
    else IdPrefix.PythonExpand(lib.otherInt, lists.internalIds[i], lists.prefixes)
  }

  /** A location whose every field is the one at its written index. */
  predicate LocationIs(lib: Library, lists: Lists, c: Content, l: JsonLocation, written: LocationContent)
    requires Readable(lib, c) && LocationFits(c, lists, written)
    requires written.data.Some? ==> ItemMeant(lib, written.data.value).Ok?
  {
    && l.internalId == IdMeant(lib, lists, written.id)
    && l.providerId == lists.providers[written.provider]
    && l.dependencyKey == (if written.dependencyKey.Some? then Some(KeyMeant(lib, c, written.dependencyKey.value))
                           else None)
    && l.dependencyHash == written.dependencyHash
    && l.primaryKey == (if lists.keys.Some? then lists.keys.value[written.primaryKey]
                        else lib.str(KeyMeant(lib, c, written.primaryKey)))
    && l.resourceType == lists.types[written.resourceType]
    && (written.data.None? ==> l.data == None && l.dataType == None)
    && (written.data.Some? ==>
          && l.data == Some(ItemMeant(lib, written.data.value).value.0)
          && l.dataType == ItemMeant(lib, written.data.value).value.1)
  }

  /** The table of locations, and the keys assigned in order, each with the places written for it. */
  predicate MapIs(lib: Library, lists: Lists, c: Content, m: JsonMap)
    requires Fits(c, lists) && Readable(lib, c)
  {
    && |m.locations| == |c.locations|
    && (forall i :: 0 <= i < |c.locations| ==> LocationIs(lib, lists, c, m.locations[i], c.locations[i]))
    && m.resources == Collect(KeySlots(lib, c, |c.keys|))
  }

  function KeySlots(lib: Library, c: Content, n: nat): seq<Slot<JsonValue, seq<nat>>>
    requires n <= |c.keys| && Readable(lib, c)
  {
    seq(n, i requires 0 <= i < n => Slot(KeyMeant(lib, c, i), KeyMeant(lib, c, i), c.keys[i].entries))
  }

  // ----- Reading them

  lemma {:induction false} ChainedGrows(chunks: seq<seq<byte>>, i: nat, n: nat)
    requires i <= n <= |chunks|
    ensures |Chained(chunks, i)| <= |Chained(chunks, n)|
    decreases n
  {
    if i < n {
      ChainedGrows(chunks, i, n - 1);
    }
  }

  function BucketMeant(c: Content, i: nat): Bucket
    requires ItemsFit(c) && i < |c.keys|
  {
    Bucket(KeyOffset(c, i), c.keys[i].entries)
  }

  lemma BucketReads(d: seq<byte>, o: nat, offset: nat, entries: seq<nat>)
    requires HoldsAt(d, o, BucketBytes(offset, entries)) && offset < 0x8000_0000 && |entries| < 0x8000_0000
    requires forall k :: 0 <= k < |entries| ==> entries[k] < 0x8000_0000
    ensures BucketAt(d, o) == Ok(Bucket(offset, entries))
    ensures |BucketBytes(offset, entries)| == 8 + 4 * |entries|
  {
    hide IntBytes, Int32, Ints;
    HoldsParts(d, o, Int32(offset), Int32(|entries|) + IntBytes(entries));
    HoldsParts(d, o + 4, Int32(|entries|), IntBytes(entries));
    IntReads(d, o, offset);
    IntReads(d, o + 4, |entries|);
    IntsRead(d, o + 8, entries);
    IntBytesLength(entries);
  }

  function BucketsMeant(c: Content, n: nat): (buckets: seq<Bucket>)
    requires ItemsFit(c) && n <= |c.keys|
    ensures |buckets| == n
  {
    seq(n, i requires 0 <= i < n => BucketMeant(c, i))
  }

  function KeysMeant(lib: Library, c: Content, n: nat): (keys: seq<JsonValue>)
    requires Readable(lib, c) && n <= |c.keys|
    ensures |keys| == n
  {
    seq(n, i requires 0 <= i < n => KeyMeant(lib, c, i))
  }

  lemma CountsFit(c: Content, lists: Lists)
    requires Fits(c, lists)
    ensures |c.keys| < 0x8000_0000 && |c.locations| < 0x8000_0000 && ItemsFit(c)
  {
  }

  lemma OffsetFits(c: Content, lists: Lists, i: nat)
    requires Fits(c, lists) && i < |c.keys|
    ensures KeyOffset(c, i) < 0x8000_0000
  {
    hide EntriesFit, LocationFits, ItemsFit;
    ChainedGrows(KeyChunks(c), i, |c.keys|);
  }

  lemma BucketThere(c: Content, lists: Lists, i: nat)
    requires Fits(c, lists) && i < |c.keys|
    ensures BucketAt(Table(BucketChunks(c)), 4 + |Chained(BucketChunks(c), i)|) == Ok(BucketMeant(c, i))
    ensures |BucketChunks(c)[i]| == 8 + 4 * |c.keys[i].entries|
  {
    hide BucketAt, BucketBytes, LocationFits, Table, ItemsFit, Chained, ItemBytes;
    TableHolds(BucketChunks(c), i);
    OffsetFits(c, lists, i);
    assert EntriesFit(c, c.keys[i].entries);
    BucketReads(Table(BucketChunks(c)), 4 + |Chained(BucketChunks(c), i)|, KeyOffset(c, i), c.keys[i].entries);
  }

  lemma {:induction false} BucketsRead(c: Content, lists: Lists, n: nat)
    requires Fits(c, lists) && n <= |c.keys|
    ensures Buckets(Table(BucketChunks(c)), n) == Ok((BucketsMeant(c, n), 4 + |Chained(BucketChunks(c), n)|))
  {
    hide BucketAt, BucketBytes, Table, Fits, ItemsFit, BucketMeant, KeyOffset;
    CountsFit(c, lists);
    if n == 0 {
      assert BucketsMeant(c, 0) == [];
    } else {
      BucketsRead(c, lists, n - 1);
      BucketThere(c, lists, n - 1);
      assert BucketMeant(c, n - 1).entries == c.keys[n - 1].entries by {
        BucketEntriesAre(c, n - 1);
      }
      assert BucketsMeant(c, n) == BucketsMeant(c, n - 1) + [BucketMeant(c, n - 1)];
    }
  }

  lemma BucketEntriesAre(c: Content, i: nat)
    requires ItemsFit(c) && i < |c.keys|
    ensures BucketMeant(c, i).entries == c.keys[i].entries
  {
  }

  lemma BucketTableReads(c: Content, lists: Lists)
    requires Fits(c, lists)
    ensures BucketTable(Table(BucketChunks(c))) == Ok(BucketsMeant(c, |c.keys|))
  {
    hide Table, Buckets, Fits, Chained, BucketsMeant, BucketChunks;
    CountsFit(c, lists);
    CountReads(BucketChunks(c));
    BucketsRead(c, lists, |c.keys|);
  }

  lemma KeyThere(lib: Library, c: Content, i: nat)
    requires lib.bundleAssembly == BUNDLE_ASSEMBLY && lib.bundleClass == BUNDLE_CLASS
    requires ItemsFit(c) && Readable(lib, c) && i < |c.keys|
    ensures ObjectAt(lib, Table(KeyChunks(c)), KeyOffset(c, i)).Ok?
    ensures ObjectAt(lib, Table(KeyChunks(c)), KeyOffset(c, i)).value.0 == KeyMeant(lib, c, i)
  {
    hide ObjectAt, ItemMeant, ItemBytes, Table, Chained;
    TableHolds(KeyChunks(c), i);
    ItemReads(lib, Table(KeyChunks(c)), KeyOffset(c, i), c.keys[i].item);
  }

  lemma {:induction false} KeysRead(lib: Library, c: Content, n: nat)
    requires lib.bundleAssembly == BUNDLE_ASSEMBLY && lib.bundleClass == BUNDLE_CLASS
    requires ItemsFit(c) && Readable(lib, c) && n <= |c.keys|
    ensures KeysOf(lib, Table(KeyChunks(c)), BucketsMeant(c, |c.keys|), n) == Ok(KeysMeant(lib, c, n))
  {
    hide ObjectAt, ItemMeant, ItemBytes, Table, Readable, ItemsFit, KeyMeant, KeyOffset;
    if n == 0 {
      assert KeysMeant(lib, c, 0) == [];
    } else {
      KeysRead(lib, c, n - 1);
      KeyThere(lib, c, n - 1);
      assert KeysMeant(lib, c, n) == KeysMeant(lib, c, n - 1) + [KeyMeant(lib, c, n - 1)];
    }
  }

  lemma KeyTableReads(lib: Library, c: Content, lists: Lists)
    requires lib.bundleAssembly == BUNDLE_ASSEMBLY && lib.bundleClass == BUNDLE_CLASS
    requires Fits(c, lists) && Readable(lib, c)
    ensures KeyTable(lib, Table(KeyChunks(c)), BucketsMeant(c, |c.keys|)) == Ok(KeysMeant(lib, c, |c.keys|))
  {
    hide Table, Fits, Readable, ItemMeant, ItemBytes, KeysOf, KeysMeant, Chained, KeyChunks;
    CountsFit(c, lists);
    CountReads(KeyChunks(c));
    KeysRead(lib, c, |c.keys|);
  }

  // ----- Locations

  lemma LocationIntsFit(c: Content, lists: Lists, i: nat)
    requires Fits(c, lists) && i < |c.locations|
    ensures forall k :: 0 <= k < 7 ==> IsInt32(LocationInts(c.locations[i], DataOffset(c, i))[k])
    ensures LocationFits(c, lists, c.locations[i])
  {
    hide EntriesFit, ItemsFit, ExtraChunks;
    assert LocationFits(c, lists, c.locations[i]);
    ChainedGrows(ExtraChunks(c), i, |c.locations|);
  }

  /** The seven integers of a location, at its place in the table. */
  lemma LocationThere(c: Content, lists: Lists, i: nat)
    requires Fits(c, lists) && i < |c.locations|
    ensures 4 + 28 * (i + 1) <= |Table(LocationChunks(c))|
    ensures Ints(Table(LocationChunks(c)), 4 + 28 * i, 7) == LocationInts(c.locations[i], DataOffset(c, i))
  {
    hide Table, Fits, ItemsFit, IntBytes, DataOffset, LocationInts, Ints, Chained;
    CountsFit(c, lists);
    var ns := LocationInts(c.locations[i], DataOffset(c, i));
    forall k | 0 <= k < |c.locations|
      ensures |LocationChunks(c)[k]| == 28
    {
      IntBytesLength(LocationInts(c.locations[k], DataOffset(c, k)));
    }
    ChainedLength(LocationChunks(c), i, 28);
    TableHolds(LocationChunks(c), i);
    LocationIntsFit(c, lists, i);
    IntsRead(Table(LocationChunks(c)), 4 + 28 * i, ns);
  }

  lemma DataThere(lib: Library, c: Content, i: nat)
    requires lib.bundleAssembly == BUNDLE_ASSEMBLY && lib.bundleClass == BUNDLE_CLASS
    requires ItemsFit(c) && i < |c.locations| && c.locations[i].data.Some?
    ensures ObjectAt(lib, Chained(ExtraChunks(c), |c.locations|), DataOffset(c, i)) ==
            ItemMeant(lib, c.locations[i].data.value)
  {
    hide ObjectAt, ItemMeant, ItemBytes, Chained;
    var d := Chained(ExtraChunks(c), |c.locations|);
    assert d[0..0 + |d|] == d;
    ChainedHolds(d, 0, ExtraChunks(c), |c.locations|, i);
    ItemReads(lib, d, DataOffset(c, i), c.locations[i].data.value);
  }

  /** Each location reads back with every field from the index that was written for it. */
  lemma LocationReads(lib: Library, c: Content, lists: Lists, i: nat)
    requires lib.bundleAssembly == BUNDLE_ASSEMBLY && lib.bundleClass == BUNDLE_CLASS
    requires Fits(c, lists) && Readable(lib, c) && i < |c.locations| && LocationFits(c, lists, c.locations[i])
    ensures c.locations[i].data.Some? ==> ItemMeant(lib, c.locations[i].data.value).Ok?
    ensures var r := LocationOf(lib, lists, KeysMeant(lib, c, |c.keys|), Chained(ExtraChunks(c), |c.locations|),
                                LocationInts(c.locations[i], DataOffset(c, i)));
            r.Ok? && LocationIs(lib, lists, c, r.value, c.locations[i])
  {
    hide Fits, ItemMeant, ItemBytes, Chained, ObjectAt, KeyMeant, IdPrefix.PythonExpand, ExtraChunks;
    CountsFit(c, lists);
    LocationIntsFit(c, lists, i);
    if c.locations[i].data.Some? {
      DataThere(lib, c, i);
    }
  }

  /** The first n locations. */
  predicate LocationsAre(lib: Library, lists: Lists, c: Content, ls: seq<JsonLocation>, n: nat)
    requires Readable(lib, c) && n <= |c.locations|
  {
    && |ls| == n
    && forall i :: 0 <= i < n ==>
         && LocationFits(c, lists, c.locations[i])
         && LocationIs(lib, lists, c, ls[i], c.locations[i])
  }

  lemma {:induction false} LocationsRead(lib: Library, c: Content, lists: Lists, n: nat)
    requires lib.bundleAssembly == BUNDLE_ASSEMBLY && lib.bundleClass == BUNDLE_CLASS
    requires Fits(c, lists) && Readable(lib, c) && n <= |c.locations| && 4 + 28 * n <= |Table(LocationChunks(c))|
    ensures var r := LocationsOf(lib, lists, KeysMeant(lib, c, |c.keys|), Table(LocationChunks(c)),
                                 Chained(ExtraChunks(c), |c.locations|), n);
            r.Ok? && LocationsAre(lib, lists, c, r.value, n)
  {
    hide Fits, Readable, LocationIs, LocationFits, LocationOf, KeysMeant, Chained, Table, Ints, LocationInts,
      DataOffset, LocationChunks, ExtraChunks;
    if n > 0 {
      LocationsRead(lib, c, lists, n - 1);
      LocationThere(c, lists, n - 1);
      LocationIntsFit(c, lists, n - 1);
      LocationReads(lib, c, lists, n - 1);
    }
  }

  lemma LocationTableReads(lib: Library, c: Content, lists: Lists)
    requires lib.bundleAssembly == BUNDLE_ASSEMBLY && lib.bundleClass == BUNDLE_CLASS
    requires Fits(c, lists) && Readable(lib, c)
    ensures var r := LocationTable(lib, lists, KeysMeant(lib, c, |c.keys|), Table(LocationChunks(c)),
                                   Chained(ExtraChunks(c), |c.locations|));
            r.Ok? && |r.value| == |c.locations| && LocationsAre(lib, lists, c, r.value, |c.locations|)
  {
    hide Fits, Readable, LocationIs, LocationsOf, LocationFits, KeysMeant, Chained, Table, Ints, LocationInts,
      DataOffset, LocationChunks, ExtraChunks;
    CountsFit(c, lists);
    CountReads(LocationChunks(c));
    if |c.locations| > 0 {
      LocationThere(c, lists, |c.locations| - 1);
    }
    LocationsRead(lib, c, lists, |c.locations|);
  }

  // ----- The map

  lemma {:induction false} MapReads(lib: Library, c: Content, lists: Lists, n: nat)
    requires Fits(c, lists) && Readable(lib, c) && n <= |c.keys|
    ensures MapOf(KeysMeant(lib, c, |c.keys|), BucketsMeant(c, |c.keys|), |c.locations|, n) ==
            Ok(Collect(KeySlots(lib, c, n)))
  {
    hide ItemMeant, ItemsFit, KeyOffset, LocationFits;
    if n > 0 {
      MapReads(lib, c, lists, n - 1);
      var entries := c.keys[n - 1].entries;
      assert EntriesFit(c, entries);
      assert Pick(|c.locations|, entries).value == entries;
      assert KeySlots(lib, c, n)[..n - 1] == KeySlots(lib, c, n - 1);
    }
  }

  /**
   * For every content whose numbers fit their fields and whose objects denote something: both back ends
   * give every location with the fields at its written indices, and every key with its written places.
   */
  method WriteThenRead(lib: Library, lists: Lists, c: Content)
    returns (python: Result<JsonMap>, native: Result<JsonMap>)
    requires lib.bundleAssembly == BUNDLE_ASSEMBLY && lib.bundleClass == BUNDLE_CLASS
    requires Fits(c, lists) && Readable(lib, c)
    ensures python.Ok? && native.Ok? && python.value == native.value
    ensures MapIs(lib, lists, c, python.value)
  {
    hide Fits, Readable, LocationsAre, LocationTable, LocationFits, KeysMeant, Chained, Table, LocationChunks,
      ExtraChunks, BucketChunks, KeyChunks, BucketTable, KeyTable, MapOf, KeySlots;
    CountsFit(c, lists);
    BucketTableReads(c, lists);
    KeyTableReads(lib, c, lists);
    LocationTableReads(lib, c, lists);
    MapReads(lib, c, lists, |c.keys|);
    python, native := DecodeBoth(lib, lists, TablesOf(c));
    assert LocationsAre(lib, lists, c, python.value.locations, |c.locations|);
    AllAre(lib, lists, c, python.value);
  }

  lemma AllAre(lib: Library, lists: Lists, c: Content, m: JsonMap)
    requires Fits(c, lists) && Readable(lib, c) && LocationsAre(lib, lists, c, m.locations, |c.locations|)
    requires m.resources == Collect(KeySlots(lib, c, |c.keys|))
    ensures MapIs(lib, lists, c, m)
  {
    hide LocationIs, ItemsFit, EntriesFit, ItemMeant;
  }
}
