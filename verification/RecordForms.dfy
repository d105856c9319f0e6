/** Typed objects of every kind: how each is stored, and what is read back. */
module RecordForms {
  import opened Wrappers
  import opened Bytes
  import opened StringSpec
  import opened RecordSpec
  import opened Objects
  import opened Writer
  import opened RoundTrip
  import opened References
  import opened TextForms

  type Decoder = seq<byte> -> Option<string>

  datatype TypeTexts = TypeTexts(assembly: Text, name: Text)

  /** The content of a bundle's options record; the flag word has room for more than its five flags. */
  datatype Options = Options(
    hash: seq<byte>, name: Text, crc: nat, size: nat, timeout: int, redirectLimit: byte, retryCount: byte,
    allPackedAssets: bool, chunkedTransfer: bool, useCrc: bool, useWebRequest: bool, clearOthers: bool, unused: nat)

  datatype Payload =
    | Default(kind: Kind)
    | IntOf(n: int)
    | LongOf(n: int)
    | BoolOf(b: byte)
    | StringOf(text: Text, separator: byte)
    | HashOf(raw: seq<byte>)
    | OptionsOf(options: Options)

  datatype Content = Nothing | Typed(t: TypeTexts, payload: Payload)

  // ----- Contents that fit their fields

  predicate OptionsFit(o: Options) {
    && |o.hash| == 16 && o.crc <= NULL && o.size <= NULL && -0x8000 <= o.timeout < 0x8000
    && o.unused < 0x800_0000
  }

  predicate PayloadFits(p: Payload) {
    match p
    case Default(kind) => kind != CustomKind && kind != UnsupportedKind
    case IntOf(n) => -0x8000_0000 <= n < 0x8000_0000
    case LongOf(n) => -0x8000_0000_0000_0000 <= n < 0x8000_0000_0000_0000
    case BoolOf(_) => true
    case StringOf(text, separator) => text.Linked? ==> separator != 0
    case HashOf(raw) => |raw| == 16
    case OptionsOf(options) => OptionsFit(options)
  }

  function KindOf(p: Payload): Kind {
    match p
    case Default(kind) => kind
    case IntOf(_) => IntKind
    case LongOf(_) => LongKind
    case BoolOf(_) => BoolKind
    case StringOf(_, _) => StringKind
    case HashOf(_) => HashKind
    case OptionsOf(_) => BundleKind
  }

  // ----- What they denote

  function TypeMeant(utf16: Decoder, version: nat, t: TypeTexts): Result<SerializedType> {
    var assembly :- Meant(utf16, '.' as byte, version, t.assembly);
    var name :- Meant(utf16, '.' as byte, version, t.name);
    Ok(SerializedType(assembly, name))
  }

  /** The options that were written, each field where it belongs. */
  ghost predicate IsBundle(utf16: Decoder, version: nat, b: Bundle, o: Options) {
    && Spells(b.hash, o.hash) && b.crc == o.crc && b.bundleSize == o.size
    && Meant(utf16, '_' as byte, version, o.name) == Ok(b.bundleName)
    && b.common.CommonEntry?
    && var c := b.common.common;
       && c.timeout == o.timeout && c.redirectLimit == o.redirectLimit as int && c.retryCount == o.retryCount as int
       && c.allPackedAssets == o.allPackedAssets && c.chunkedTransfer == o.chunkedTransfer
       && c.useCrcForCachedBundle == o.useCrc && c.useUnityWebRequest == o.useWebRequest
       && c.clearOtherVersions == o.clearOthers && c.version == 3
  }

  /** The value that was written, or the default of its kind where none was. */
  ghost predicate IsData(utf16: Decoder, version: nat, d: Data, p: Payload) {
    match p
    case Default(kind) =>
      d == Made(if kind == IntKind || kind == LongKind then IntValue(0)
                else if kind == BoolKind then BoolValue(false) else NoneValue)
    case IntOf(n) => d == Made(IntValue(n))
    case LongOf(n) => d == Made(IntValue(n))
    case BoolOf(b) => d == Made(BoolValue(b != 0))
    case StringOf(text, separator) =>
      var meant := Meant(utf16, separator, version, text);
      meant.Ok? && d == Made(if meant.value.Some? then TextValue(meant.value.value) else NoneValue)
    case HashOf(raw) => d.Made? && d.v.HashValue? && Spells(d.v.hex, raw)
    case OptionsOf(o) => d.Hit? && d.e.BundleEntry? && IsBundle(utf16, version, d.e.bundle, o)
  }

  /** Every string of it can be decoded. */
  predicate PayloadReadable(utf16: Decoder, version: nat, p: Payload) {
    match p
    case StringOf(text, separator) => Meant(utf16, separator, version, text).Ok?
    case OptionsOf(o) => Meant(utf16, '_' as byte, version, o.name).Ok?
    case _ => true
  }

  /** The type is known as one of the kind of the payload. */
  predicate Known(utf16: Decoder, version: nat, builtin: string -> Kind, c: Content) {
    c.Typed? ==>
      && PayloadFits(c.payload) && PayloadReadable(utf16, version, c.payload)
      && TypeMeant(utf16, version, c.t).Ok?
      && MatchName(TypeMeant(utf16, version, c.t).value, version).Ok?
      && builtin(MatchName(TypeMeant(utf16, version, c.t).value, version).value) == KindOf(c.payload)
  }

  // ----- Writing them

  ghost predicate TypeStored(facts: Facts, t: TypeTexts, o: nat) {
    exists assembly, name ::
      (o, Record([assembly, name])) in facts
      && TextWritten(facts, t.assembly, assembly) && TextWritten(facts, t.name, name)
  }

  function Flag(b: bool, power: nat): nat {
    if b then power else 0
  }

  function FlagWord(o: Options): (w: nat)
    requires OptionsFit(o)
    ensures w <= NULL
  {
    Flag(o.allPackedAssets, 1) + Flag(o.chunkedTransfer, 2) + Flag(o.useCrc, 4) + Flag(o.useWebRequest, 8)
    + Flag(o.clearOthers, 16) + 32 * o.unused
  }

  function TransferBytes(o: Options): (raw: seq<byte>)
    requires OptionsFit(o)
    ensures |raw| == 8
  {
    var t := o.timeout % 0x1_0000;
    [t % 0x100, t / 0x100, o.redirectLimit, o.retryCount] + LE32(FlagWord(o))
  }

  ghost predicate OptionsStored(facts: Facts, o: Options, record: nat, common: nat)
    requires OptionsFit(o)
  {
    && (common, Block(TransferBytes(o))) in facts
    && exists hash, name ::
         (record, Record([hash, name, o.crc, o.size, common])) in facts
         && (hash, Block(o.hash)) in facts && TextWritten(facts, o.name, name)
  }

  ghost predicate PayloadStored(facts: Facts, p: Payload, o: nat, common: nat)
    requires PayloadFits(p)
  {
    match p
    case Default(_) => o == NULL
    case IntOf(n) => (o, Record([n % 0x1_0000_0000])) in facts
    case LongOf(n) =>
      (o, Record([n % 0x1_0000_0000, n / 0x1_0000_0000 % 0x1_0000_0000])) in facts
    case BoolOf(b) => (o, Block([b])) in facts
    case StringOf(text, separator) =>
      exists encoded :: (o, StringObject(encoded, separator as int)) in facts && TextWritten(facts, text, encoded)
    case HashOf(raw) => (o, Block(raw)) in facts
    case OptionsOf(options) => OptionsStored(facts, options, o, common)
  }

  /** Where a typed object, its type and its payload were written. */
  datatype Spot = Spot(record: nat, t: nat, payload: nat, common: nat)

  ghost predicate Stored(facts: Facts, c: Content, s: Spot) {
    match c
    case Nothing => s.record == NULL
    case Typed(t, p) =>
      && PayloadFits(p) && PayloadStored(facts, p, s.payload, s.common)
      && TypeStored(facts, t, s.t) && (s.record, Record([s.t, s.payload])) in facts
  }

  function TypeTextsSize(t: TypeTexts): nat {
    TextSize(t.assembly) + TextSize(t.name) + 8
  }

  function PayloadSize(p: Payload): nat {
    match p
    case Default(_) => 0
    case IntOf(_) => 4
    case LongOf(_) => 8
    case BoolOf(_) => 1
    case StringOf(text, _) => TextSize(text) + 5
    case HashOf(raw) => |raw|
    case OptionsOf(o) => TextSize(o.name) + |o.hash| + 28
  }

  function ContentSize(c: Content): nat {
    if c.Nothing? then 0 else PayloadSize(c.payload) + 8
  }

  lemma TypesStay(facts: Facts, more: Facts)
    requires facts <= more
    ensures forall t, o: nat :: TypeStored(facts, t, o) ==> TypeStored(more, t, o)
  {
    hide TextWritten;
    TextsStay(facts, more);
  }

  lemma PayloadStays(facts: Facts, more: Facts, p: Payload, o: nat, common: nat)
    requires facts <= more && PayloadFits(p) && PayloadStored(facts, p, o, common)
    ensures PayloadStored(more, p, o, common)
  {
    hide TextWritten, TransferBytes;
    TextsStay(facts, more);
  }

  lemma StoredStays(facts: Facts, more: Facts)
    requires facts <= more
    ensures forall c, s :: Stored(facts, c, s) ==> Stored(more, c, s)
  {
    hide TypeStored, PayloadStored, PayloadFits;
    TypesStay(facts, more);
    forall c, s | Stored(facts, c, s)
      ensures Stored(more, c, s)
    {
      if c.Typed? {
        PayloadStays(facts, more, c.payload, s.payload, s.common);
      }
    }
  }

  method PutTypeTexts(w: CatalogWriter, t: TypeTexts) returns (r: Result<nat>)
    requires w.Valid()
    modifies w
    ensures w.Valid() && old(w.facts) <= w.facts && |old(w.data)| <= |w.data|
    ensures r.Ok? ==> TypeStored(w.facts, t, r.value) && |w.data| == |old(w.data)| + TypeTextsSize(t)
    ensures r.Ok? ==> |old(w.data)| <= r.value < |w.data|
    ensures |old(w.data)| + TypeTextsSize(t) < 0x4000_0000 ==> r.Ok?
  {
    hide LaidOut, AllLaidOut, TextWritten;
    var assembly :- PutText(w, t.assembly);
    ghost var before := w.facts;
    var name :- PutText(w, t.name);
    ghost var between := w.facts;
    r := w.PutRecord([assembly, name], {});
    TextsStay(before, w.facts);
    TextsStay(between, w.facts);
  }

  method PutOptions(w: CatalogWriter, o: Options) returns (r: Result<nat>, common: nat)
    requires w.Valid() && OptionsFit(o)
    modifies w
    ensures w.Valid() && old(w.facts) <= w.facts && |old(w.data)| <= |w.data|
    ensures r.Ok? ==> OptionsStored(w.facts, o, r.value, common)
    ensures r.Ok? ==> |w.data| == |old(w.data)| + TextSize(o.name) + |o.hash| + 28
    ensures r.Ok? ==> |old(w.data)| <= common < r.value < |w.data|
    ensures |old(w.data)| + TextSize(o.name) + |o.hash| + 28 < 0x4000_0000 ==> r.Ok?
  {
    hide LaidOut, AllLaidOut, TextWritten, TransferBytes;
    common := 0;
    var name :- PutText(w, o.name);
    ghost var before := w.facts;
    var hash := w.PutBlock(o.hash);
    common := w.PutBlock(TransferBytes(o));
    r := w.PutRecord([hash, name, o.crc, o.size, common], {});
    TextsStay(before, w.facts);
  }

  method PutPayload(w: CatalogWriter, p: Payload) returns (r: Result<nat>, common: nat)
    requires w.Valid() && PayloadFits(p)
    modifies w
    ensures w.Valid() && old(w.facts) <= w.facts && |old(w.data)| <= |w.data|
    ensures r.Ok? ==> PayloadStored(w.facts, p, r.value, common) && |w.data| == |old(w.data)| + PayloadSize(p)
    ensures r.Ok? && p.OptionsOf? ==> |old(w.data)| <= common < r.value < |w.data|
    ensures r.Ok? && |w.data| < 0x4000_0000 ==> r.value <= NULL
    ensures |old(w.data)| + PayloadSize(p) < 0x4000_0000 ==> r.Ok?
  {
    hide LaidOut, AllLaidOut, TextWritten, OptionsStored;
    common := 0;
    match p {
      case Default(_) =>
        r := Ok(NULL);
      case IntOf(n) =>
        r := w.PutRecord([n % 0x1_0000_0000], {});
      case LongOf(n) =>
        r := w.PutRecord([n % 0x1_0000_0000, n / 0x1_0000_0000 % 0x1_0000_0000], {});
      case BoolOf(b) =>
        var o := w.PutBlock([b]);
        r := Ok(o);
      case StringOf(text, separator) =>
        var encoded :- PutText(w, text);
        ghost var before := w.facts;
        r := w.PutStringObject(encoded, separator);
        TextsStay(before, w.facts);
      case HashOf(raw) =>
        var o := w.PutBlock(raw);
        r := Ok(o);
      case OptionsOf(options) =>
        r, common := PutOptions(w, options);
    }
  }

  /** The payload and the object record, of a type that is written already. */
  method PutContent(w: CatalogWriter, c: Content, t: nat) returns (r: Result<Spot>)
    requires w.Valid() && (c.Typed? ==> PayloadFits(c.payload) && TypeStored(w.facts, c.t, t))
    requires t <= |w.data|
    modifies w
    ensures w.Valid() && old(w.facts) <= w.facts && |old(w.data)| <= |w.data|
    ensures r.Ok? ==> Stored(w.facts, c, r.value) && |w.data| == |old(w.data)| + ContentSize(c)
    ensures r.Ok? ==> r.value.t == t
    ensures r.Ok? && |w.data| < 0x4000_0000 ==> r.value.record <= NULL
    ensures r.Ok? && c.Typed? && c.payload.OptionsOf? ==>
              |old(w.data)| <= r.value.common < r.value.payload < |w.data|
    ensures |old(w.data)| + ContentSize(c) < 0x4000_0000 ==> r.Ok?
  {
    hide LaidOut, AllLaidOut, TypeStored, PayloadStored, PayloadFits;
    if c.Nothing? {
      return Ok(Spot(NULL, t, 0, 0));
    }
    ghost var first := w.facts;
    var put, common := PutPayload(w, c.payload);
    var payload :- put;
    ghost var before := w.facts;
    var record :- w.PutRecord([t, payload], {});
    TypesStay(first, w.facts);
    PayloadStays(before, w.facts, c.payload, payload, common);
    return Ok(Spot(record, t, payload, common));
  }

  // ----- Reading them

  lemma TypeReads(img: Image, facts: Facts, t: TypeTexts, o: nat)
    requires Holding(img, facts) && TypeStored(facts, t, o)
    ensures TypeAt(img, o) == TypeMeant(img.utf16, img.version, t)
  {
    hide Holding, TextWritten, Encoded, Meant;
    var assembly, name :| (o, Record([assembly, name])) in facts
                          && TextWritten(facts, t.assembly, assembly) && TextWritten(facts, t.name, name);
    RecordMeans(img, facts, o, [assembly, name]);
    TextReads(img, facts, t.assembly, assembly, '.' as byte);
    TextReads(img, facts, t.name, name, '.' as byte);
  }

  lemma BlockIs(img: Image, facts: Facts, o: nat, raw: seq<byte>)
    requires Holding(img, facts) && (o, Block(raw)) in facts
    ensures HEADER <= o && o + |raw| <= |img.data| < 0x4000_0000 && img.data[o..o + |raw|] == raw
  {
    Fact(img, facts, o, Block(raw));
  }

  lemma LowBit(w: nat, b: bool, rest: nat)
    requires w == Flag(b, 1) + 2 * rest
    ensures w % 2 == 1 <==> b
    ensures w / 2 == rest
  {
  }

  lemma FlagsRead(o: Options)
    requires OptionsFit(o)
    ensures var w := FlagWord(o);
            Bit(w, 1) == o.allPackedAssets && Bit(w, 2) == o.chunkedTransfer && Bit(w, 4) == o.useCrc
            && Bit(w, 8) == o.useWebRequest && Bit(w, 16) == o.clearOthers
  {
    var w := FlagWord(o);
    var w16 := Flag(o.clearOthers, 1) + 2 * o.unused;
    var w8 := Flag(o.useWebRequest, 1) + 2 * w16;
    var w4 := Flag(o.useCrc, 1) + 2 * w8;
    var w2 := Flag(o.chunkedTransfer, 1) + 2 * w4;
    FlagsNest(o, w2, w4, w8, w16);
    hide FlagWord, Flag;
    LowBit(w, o.allPackedAssets, w2);
    LowBit(w2, o.chunkedTransfer, w4);
    LowBit(w4, o.useCrc, w8);
    LowBit(w8, o.useWebRequest, w16);
    LowBit(w16, o.clearOthers, o.unused);
    assert w / 4 == w / 2 / 2 && w / 8 == w / 4 / 2 && w / 16 == w / 8 / 2;
  }

  lemma FlagsNest(o: Options, w2: nat, w4: nat, w8: nat, w16: nat)
    requires OptionsFit(o)
    requires w16 == Flag(o.clearOthers, 1) + 2 * o.unused && w8 == Flag(o.useWebRequest, 1) + 2 * w16
    requires w4 == Flag(o.useCrc, 1) + 2 * w8 && w2 == Flag(o.chunkedTransfer, 1) + 2 * w4
    ensures FlagWord(o) == Flag(o.allPackedAssets, 1) + 2 * w2
  {
  }

  /** Transfer options: the signed timeout, the two counts and the five flags, whatever is above them. */
  lemma TransferReads(img: Image, facts: Facts, o: Options, common: nat)
    requires Holding(img, facts) && OptionsFit(o) && (common, Block(TransferBytes(o))) in facts
    ensures CommonAt(img, common) ==
            Ok(CommonInfo(o.timeout, o.redirectLimit as int, o.retryCount as int, o.allPackedAssets,
                          o.chunkedTransfer, o.useCrc, o.useWebRequest, o.clearOthers, 3))
  {
    hide Holding, FlagWord, Bit;
    var raw := TransferBytes(o);
    BlockIs(img, facts, common, raw);
    var d := img.data;
    assert raw[0] == d[common] && raw[1] == d[common + 1] && raw[2] == d[common + 2] && raw[3] == d[common + 3];
    assert raw[4..8] == LE32(FlagWord(o));
    U32OfSlice(d, common + 4);
    assert d[common + 4..common + 8] == raw[4..8];
    FlagsRead(o);
  }

  lemma OptionsRead(img: Image, facts: Facts, o: Options, record: nat, common: nat, b: Bundle)
    requires Holding(img, facts) && OptionsFit(o) && OptionsStored(facts, o, record, common)
    requires Meant(img.utf16, '_' as byte, img.version, o.name).Ok?
    ensures ReadU32s(img.data, record, 5).Ok? && ReadU32s(img.data, record, 5).value[4] == common
    ensures BundleAt(img, record).Ok?
    ensures AsBundle(b) == Some(BundleAt(img, record).value) ==> IsBundle(img.utf16, img.version, b, o)
  {
    hide Holding, TextWritten, Encoded, Meant, CommonAt, TransferBytes, Hex, Spells;
    var hash, name :| (record, Record([hash, name, o.crc, o.size, common])) in facts
                      && (hash, Block(o.hash)) in facts && TextWritten(facts, o.name, name);
    RecordMeans(img, facts, record, [hash, name, o.crc, o.size, common]);
    BlockIs(img, facts, hash, o.hash);
    HexSpells(o.hash);
    TextReads(img, facts, o.name, name, '_' as byte);
    TransferReads(img, facts, o, common);
  }

  lemma NumbersRead(n: int)
    ensures -0x8000_0000 <= n < 0x8000_0000 ==> Signed32(n % 0x1_0000_0000) == n
    ensures -0x8000_0000_0000_0000 <= n < 0x8000_0000_0000_0000 ==>
              Signed64(n % 0x1_0000_0000, n / 0x1_0000_0000 % 0x1_0000_0000) == n
  {
    var high := n / 0x1_0000_0000;
    assert n == n % 0x1_0000_0000 + 0x1_0000_0000 * high;
  }

  lemma HoldingSmall(img: Image, facts: Facts)
    requires Holding(img, facts)
    ensures |img.data| < 0x4000_0000
  {
  }

  /** What a stored payload reads as; d is any object that stands for the value read. */
  lemma PayloadReads(img: Image, facts: Facts, p: Payload, o: nat, common: nat, d: Data)
    requires Holding(img, facts) && PayloadFits(p) && PayloadStored(facts, p, o, common)
    requires PayloadReadable(img.utf16, img.version, p)
    ensures PayloadAt(img, KindOf(p), o).Ok?
    ensures AsValue(d) == Some(PayloadAt(img, KindOf(p), o).value) ==> IsData(img.utf16, img.version, d, p)
    ensures PayloadAt(img, KindOf(p), o).value.BundleValue? <==> p.OptionsOf?
  {
    hide Holding, TextWritten, Encoded, Meant, BundleAt, OptionsStored, Hex, Spells, Signed32, Signed64, IsBundle,
      AsBundle;
    HoldingSmall(img, facts);
    match p {
      case Default(_) =>
      case IntOf(n) =>
        RecordMeans(img, facts, o, [n % 0x1_0000_0000]);
        NumbersRead(n);
      case LongOf(n) =>
        RecordMeans(img, facts, o, [n % 0x1_0000_0000, n / 0x1_0000_0000 % 0x1_0000_0000]);
        NumbersRead(n);
      case BoolOf(b) =>
        BlockIs(img, facts, o, [b]);
      case StringOf(text, separator) =>
        StringReads(img, facts, text, separator, o);
      case HashOf(raw) =>
        BlockIs(img, facts, o, raw);
        HexSpells(raw);
      case OptionsOf(options) =>
        BundleReads(img, facts, options, o, common, d);
    }
  }

  lemma StringReads(img: Image, facts: Facts, text: Text, separator: byte, o: nat)
    requires Holding(img, facts) && (text.Linked? ==> separator != 0)
    requires PayloadStored(facts, StringOf(text, separator), o, 0)
    ensures var meant := Meant(img.utf16, separator, img.version, text);
            PayloadAt(img, StringKind, o) == if meant.Fail? then Fail else Ok(TextOrNone(meant.value))
  {
    hide Holding, TextWritten, Encoded, Meant;
    var encoded :| (o, StringObject(encoded, separator as int)) in facts && TextWritten(facts, text, encoded);
    TextReads(img, facts, text, encoded, separator);
    StringObjectIs(img, facts, o, encoded, separator as int);
  }

  lemma StringObjectIs(img: Image, facts: Facts, o: nat, encoded: nat, separator: nat)
    requires Holding(img, facts) && (o, StringObject(encoded, separator)) in facts
    ensures o != NULL && Slice(img.data, o, 5).Ok?
    ensures U32(Slice(img.data, o, 5).value, 0) == encoded && Slice(img.data, o, 5).value[4] == separator
  {
    hide AllLaidOut;
    Fact(img, facts, o, StringObject(encoded, separator));
    var raw := Slice(img.data, o, 5).value;
    U32OfSlice(img.data, o);
    assert raw[0..4] == img.data[o..o + 4];
    U32OfSlice(raw, 0);
  }

  lemma BundleReads(img: Image, facts: Facts, options: Options, o: nat, common: nat, d: Data)
    requires Holding(img, facts) && OptionsFit(options) && OptionsStored(facts, options, o, common)
    requires Meant(img.utf16, '_' as byte, img.version, options.name).Ok?
    ensures o != NULL && BundleAt(img, o).Ok?
    ensures AsValue(d) == Some(BundleValue(BundleAt(img, o).value)) ==>
              d.Hit? && d.e.BundleEntry? && IsBundle(img.utf16, img.version, d.e.bundle, options)
  {
    hide Holding, OptionsStored, BundleAt, IsBundle, AsBundle, Meant;
    BundleSmall(img, facts, options, o, common);
    var b := if d.Hit? && d.e.BundleEntry? then d.e.bundle else Bundle("", 0, ArrayEntry([]), None, 0);
    OptionsRead(img, facts, options, o, common, b);
  }

  lemma BundleSmall(img: Image, facts: Facts, options: Options, o: nat, common: nat)
    requires Holding(img, facts) && OptionsFit(options) && OptionsStored(facts, options, o, common)
    ensures o < 0x4000_0000
  {
    hide TextWritten, AllLaidOut;
    var hash, name :| (o, Record([hash, name, options.crc, options.size, common])) in facts
                      && (hash, Block(options.hash)) in facts && TextWritten(facts, options.name, name);
    RecordMeans(img, facts, o, [hash, name, options.crc, options.size, common]);
  }

  /** The object and the type recorded with it; d and t are any objects that stand for them. */
  ghost predicate IsObject(utf16: Decoder, version: nat, d: Data, t: Option<Entry>, c: Content) {
    match c
    case Nothing => d == Made(NoneValue) && t == None
    case Typed(named, p) =>
      && IsData(utf16, version, d, p)
      && TypeMeant(utf16, version, named).Ok? && t == Some(TypeEntry(TypeMeant(utf16, version, named).value))
  }

  lemma ObjectReads(img: Image, facts: Facts, c: Content, s: Spot, d: Data, t: Option<Entry>)
    requires Holding(img, facts) && Stored(facts, c, s) && Known(img.utf16, img.version, img.builtin, c)
    ensures c.Typed? ==>
              && ReadU32s(img.data, s.record, 2) == Ok([s.t, s.payload]) && s.record != NULL
              && KindAt(img, s.t) == Ok(KindOf(c.payload))
    ensures ObjectAt(img, s.record).Ok?
    ensures AsTyped(d, t) == Some(ObjectAt(img, s.record).value) ==> IsObject(img.utf16, img.version, d, t, c)
    ensures ObjectAt(img, s.record).value.0.BundleValue? <==> c.Typed? && c.payload.OptionsOf?
  {
    hide Holding, TypeStored, PayloadStored, PayloadFits, PayloadReadable, TypeAt, TypeMeant, MatchName, PayloadAt,
      IsData, AsValue;
    if c.Typed? {
      RecordMeans(img, facts, s.record, [s.t, s.payload]);
      assert s.record < NULL by {
        HoldingSmall(img, facts);
      }
      TypeReads(img, facts, c.t, s.t);
      PayloadReads(img, facts, c.payload, s.payload, s.common, d);
    } else {
      NoneIs(d);
    }
  }

  lemma NoneIs(d: Data)
    ensures AsValue(d) == Some(NoneValue) ==> d == Made(NoneValue)
  {
  }
}
