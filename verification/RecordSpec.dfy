/** What the fixed-size records of a binary catalog denote, with no cache. */
module RecordSpec {
  import opened Wrappers
  import opened Bytes
  import opened StringSpec

  datatype SerializedType = SerializedType(assemblyName: Option<string>, className: Option<string>)

  datatype CommonInfo = CommonInfo(
    timeout: int, redirectLimit: nat, retryCount: nat, allPackedAssets: bool, chunkedTransfer: bool,
    useCrcForCachedBundle: bool, useUnityWebRequest: bool, clearOtherVersions: bool, version: nat)

  datatype BundleOptions = BundleOptions(
    hash: string, crc: nat, commonInfo: CommonInfo, bundleName: Option<string>, bundleSize: nat)

  /** Decoded objects. A string object may itself decode to null. */
  datatype Value =
    | NoneValue
    | IntValue(i: int)
    | BoolValue(b: bool)
    | TextValue(text: string)
    | HashValue(hex: string)
    | BundleValue(options: BundleOptions)

  /** The position of the first comma at or after i, or the length of the text. */
  function CommaFrom(text: string, i: nat): (r: nat)
    requires i <= |text|
    ensures i <= r <= |text|
    decreases |text| - i
  {
    if i == |text| || text[i] == ',' then i else CommaFrom(text, i + 1)
  }

  function BeforeComma(text: string): string {
    text[..CommaFrom(text, 0)]
  }

  function MatchName(t: SerializedType, version: nat): Result<string> {
    match t.className
    case None => Fail
    case Some(name) =>
      match t.assemblyName
      case None => if version >= 3 then Ok(name) else Fail
      case Some(assembly) => Ok((if version <= 2 then BeforeComma(assembly) else assembly) + "; " + name)
  }

  function HexDigit(n: nat): char
    requires n < 16
  {
    ((if n < 10 then '0' as int + n else 'a' as int + (n - 10)) as char)
  }

  function HexFirst(raw: seq<byte>, n: nat): string
    requires n <= |raw|
  {
    if n == 0 then ""
    else HexFirst(raw, n - 1) + [HexDigit(raw[n - 1] as int / 16), HexDigit(raw[n - 1] as int % 16)]
  }

  function Hex(raw: seq<byte>): string {
    HexFirst(raw, |raw|)
  }

  /** A length-prefixed array of offsets; the null offset is the empty array. */
  function ArrayAt(img: Image, o: nat): (r: Result<seq<nat>>)
    ensures r.Ok? ==> forall i :: 0 <= i < |r.value| ==> r.value[i] <= NULL
  {
    if o == NULL then Ok([])
    else if o < 4 || o > |img.data| then Fail
    else
      var size := Signed32(U32(img.data, o - 4));
      if size < 0 || size % 4 != 0 then Fail else ReadU32s(img.data, o, size / 4)
  }

  ghost function TypeAt(img: Image, o: nat): Result<SerializedType> {
    var words :- ReadU32s(img.data, o, 2);
    var assembly :- Encoded(img, words[0], '.' as int);
    var name :- Encoded(img, words[1], '.' as int);
    Ok(SerializedType(assembly, name))
  }

  /** Transfer options: the five booleans are the low bits of the flag word. */
  function CommonAt(img: Image, o: nat): Result<CommonInfo> {
    if o + 8 > |img.data| then Fail else
    var flags := U32(img.data, o + 4);
    Ok(CommonInfo(Signed16(U16(img.data, o)), img.data[o + 2], img.data[o + 3],
                  Bit(flags, 1), Bit(flags, 2), Bit(flags, 4), Bit(flags, 8), Bit(flags, 16), 3))
  }

  ghost function BundleAt(img: Image, o: nat): Result<BundleOptions> {
    var words :- ReadU32s(img.data, o, 5);
    var hash :- Slice(img.data, words[0], 16);
    var common :- CommonAt(img, words[4]);
    var name :- Encoded(img, words[1], '_' as int);
    Ok(BundleOptions(Hex(hash), words[2], common, name, words[3]))
  }

  function TextOrNone(text: Option<string>): Value {
    match text
    case None => NoneValue
    case Some(t) => TextValue(t)
  }

  ghost function PayloadAt(img: Image, kind: Kind, o: nat): Result<Value> {
    match kind
    case IntKind =>
      if o == NULL then Ok(IntValue(0)) else
      var words :- ReadU32s(img.data, o, 1);
      Ok(IntValue(Signed32(words[0])))
    case LongKind =>
      if o == NULL then Ok(IntValue(0)) else
      var words :- ReadU32s(img.data, o, 2);
      Ok(IntValue(Signed64(words[0], words[1])))
    case BoolKind =>
      if o == NULL then Ok(BoolValue(false)) else
      var raw :- Slice(img.data, o, 1);
      Ok(BoolValue(raw[0] != 0))
    case StringKind =>
      if o == NULL then Ok(NoneValue) else
      var raw :- Slice(img.data, o, 5);
      var text :- Encoded(img, U32(raw, 0), raw[4]);
      Ok(TextOrNone(text))
    case HashKind =>
      if o == NULL then Ok(NoneValue) else
      var raw :- Slice(img.data, o, 16);
      Ok(HashValue(Hex(raw)))
    case BundleKind =>
      if o == NULL then Ok(NoneValue) else
      var options :- BundleAt(img, o);
      Ok(BundleValue(options))
    case CustomKind => Fail
    case UnsupportedKind => Fail
  }

  /** The kind that objects of the type recorded at an offset have. */
  ghost function KindAt(img: Image, typeOffset: nat): Result<Kind> {
    var t :- TypeAt(img, typeOffset);
    var name :- MatchName(t, img.version);
    Ok(img.builtin(name))
  }

  /** A typed object and the type recorded with it. */
  ghost function ObjectAt(img: Image, o: nat): Result<(Value, Option<SerializedType>)> {
    if o == NULL then Ok((NoneValue, None)) else
    var words :- ReadU32s(img.data, o, 2);
    var t :- TypeAt(img, words[0]);
    var name :- MatchName(t, img.version);
    var v :- PayloadAt(img, img.builtin(name), words[1]);
    Ok((v, Some(t)))
  }

  /** Everything a location record holds besides its dependencies. */
  datatype Fields = Fields(
    internalId: Option<string>, providerId: Option<string>, data: Value, dependencyHash: int,
    primaryKey: Option<string>, resourceType: SerializedType, dataType: Option<SerializedType>)

  ghost function DepsAt(img: Image, o: nat): (r: Result<seq<nat>>)
    ensures r.Ok? ==> forall i :: 0 <= i < |r.value| ==> r.value[i] <= NULL
  {
    var words :- ReadU32s(img.data, o, 7);
    ArrayAt(img, words[3])
  }

  /** The words of a location record and its three strings. */
  datatype Head = Head(
    words: seq<nat>, primaryKey: Option<string>, internalId: Option<string>, providerId: Option<string>)

  ghost function HeadAt(img: Image, o: nat): (r: Result<Head>)
    ensures r.Ok? ==> |r.value.words| == 7
  {
    var words :- ReadU32s(img.data, o, 7);
    var primary :- Encoded(img, words[0], '/' as int);
    var internal :- Encoded(img, words[1], '/' as int);
    var provider :- Encoded(img, words[2], '.' as int);
    Ok(Head(words, primary, internal, provider))
  }

  function WithData(h: Head, typed: (Value, Option<SerializedType>), resourceType: SerializedType): Fields
    requires |h.words| == 7
  {
    Fields(h.internalId, h.providerId, typed.0, Signed32(h.words[4]), h.primaryKey, resourceType, typed.1)
  }

  ghost function FieldsAt(img: Image, o: nat): Result<Fields> {
    var head :- HeadAt(img, o);
    var typed :- ObjectAt(img, head.words[5]);
    var resourceType :- TypeAt(img, head.words[6]);
    Ok(WithData(head, typed, resourceType))
  }

  // ----- What a match name is, apart from how it is cut

  lemma {:induction false} CommaIs(text: string, n: nat, i: nat)
    requires i <= n <= |text| && (forall k :: i <= k < n ==> text[k] != ',') && (n < |text| ==> text[n] == ',')
    ensures CommaFrom(text, i) == n
    decreases n - i
  {
    if i < n {
      CommaIs(text, n, i + 1);
    }
  }

  /**
   * Up to version 2 only the assembly's short name counts, whether or not something follows behind a
   * comma; from version 3 on the whole name does, and a type may have none.
   */
  lemma MatchNames(short: string, rest: string, name: string, version: nat)
    requires ',' !in short
    ensures version <= 2 ==>
              && MatchName(SerializedType(Some(short), Some(name)), version) == Ok(short + "; " + name)
              && MatchName(SerializedType(Some(short + "," + rest), Some(name)), version) == Ok(short + "; " + name)
              && MatchName(SerializedType(None, Some(name)), version) == Fail
    ensures version >= 3 ==>
              && MatchName(SerializedType(Some(rest), Some(name)), version) == Ok(rest + "; " + name)
              && MatchName(SerializedType(None, Some(name)), version) == Ok(name)
    ensures MatchName(SerializedType(Some(short), None), version) == Fail
  {
    var long := short + "," + rest;
    assert long[|short|] == ',';
    CommaIs(short, |short|, 0);
    CommaIs(long, |short|, 0);
    assert long[..|short|] == short && short[..|short|] == short;
  }
}
