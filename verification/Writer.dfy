/** Writing a synthetic catalog: append-only records, then the header patched in place. */
module Writer {
  import opened Wrappers
  import opened Bytes
  import opened StringSpec
  import opened Objects

  /** What the writer put at an offset. */
  datatype Item =
    | Plain(text: string)
    | Record(words: seq<nat>)
    | Table(entries: seq<nat>)
    | StringObject(encoded: nat, separator: nat)
    | Sized(raw: seq<byte>)
    | Block(raw: seq<byte>)

  type Facts = set<(nat, Item)>

  const HEADER: nat := 32

  predicate LaidOut(d: seq<byte>, o: nat, item: Item) {
    match item
    case Plain(text) =>
      && HEADER + 4 <= o && o + |text| <= |d|
      && Signed32(U32(d, o - 4)) == |text|
      && Ascii(d[o..o + |text|]) == Some(text)
    case Record(words) => HEADER <= o && ReadU32s(d, o, |words|) == Ok(words)
    case Table(entries) =>
      && HEADER + 4 <= o && o <= |d|
      && Signed32(U32(d, o - 4)) == 4 * |entries|
      && ReadU32s(d, o, |entries|) == Ok(entries)
    case StringObject(encoded, separator) =>
      HEADER <= o && o + 5 <= |d| && U32(d, o) == encoded && d[o + 4] == separator
    case Sized(raw) =>
      HEADER + 4 <= o && o + |raw| <= |d| && Signed32(U32(d, o - 4)) == |raw| && d[o..o + |raw|] == raw
    case Block(raw) => HEADER <= o && o + |raw| <= |d| && d[o..o + |raw|] == raw
  }

  ghost predicate AllLaidOut(d: seq<byte>, facts: Facts) {
    forall f {:trigger LaidOut(d, f.0, f.1)} | f in facts :: LaidOut(d, f.0, f.1)
  }

  /** The two files agree from the end of the header to the end of the first. */
  predicate Extends(d: seq<byte>, e: seq<byte>) {
    |d| <= |e| && forall i :: HEADER <= i < |d| ==> e[i] == d[i]
  }

  lemma WordsKept(d: seq<byte>, e: seq<byte>, o: nat, n: nat)
    requires Extends(d, e) && HEADER <= o && o + 4 * n <= |d|
    ensures Words(e, o, n) == Words(d, o, n)
  {
    forall i | 0 <= i < n
      ensures U32(e, o + 4 * i) == U32(d, o + 4 * i)
    {
    }
  }

  /** Nothing laid out is disturbed by appending or by patching the header. */
  lemma ItemKept(d: seq<byte>, e: seq<byte>, o: nat, item: Item)
    requires Extends(d, e) && LaidOut(d, o, item)
    ensures LaidOut(e, o, item)
  {
    match item {
      case Plain(text) =>
        assert e[o..o + |text|] == d[o..o + |text|];
      case Record(words) =>
        WordsKept(d, e, o, |words|);
      case Table(entries) =>
        WordsKept(d, e, o, |entries|);
      case StringObject(encoded, separator) =>
      case Sized(raw) =>
        assert e[o..o + |raw|] == d[o..o + |raw|];
      case Block(raw) =>
        assert e[o..o + |raw|] == d[o..o + |raw|];
    }
  }

  lemma FactsKept(d: seq<byte>, e: seq<byte>, facts: Facts)
    requires Extends(d, e) && AllLaidOut(d, facts)
    ensures AllLaidOut(e, facts)
  {
    forall f | f in facts
      ensures LaidOut(e, f.0, f.1)
    {
      ItemKept(d, e, f.0, f.1);
    }
  }

  predicate AsciiOnly(text: string) {
    forall i :: 0 <= i < |text| ==> text[i] as int < 128
  }

  /** Values that pack into four bytes each, where the fields at the given places are signed. */
  predicate Packable(words: seq<nat>, signed: set<nat>) {
    forall i :: 0 <= i < |words| ==> words[i] <= NULL && (i in signed ==> words[i] < 0x8000_0000)
  }

  function Encode(text: string): Result<seq<byte>> {
    if AsciiOnly(text) then Ok(seq(|text|, i requires 0 <= i < |text| => (text[i] as int) as byte)) else Fail
  }

  lemma EncodeThenDecode(text: string)
    requires Encode(text).Ok?
    ensures |Encode(text).value| == |text| && Ascii(Encode(text).value) == Some(text)
  {
    assert Ascii(Encode(text).value).value == text;
  }

  /** The growing file of the benchmark's catalog generator. */
  class CatalogWriter {
    var data: seq<byte>
    /** Everything written so far. */
    ghost var facts: Facts

    ghost predicate Valid()
      reads this
    {
      |data| >= HEADER && AllLaidOut(data, facts)
    }

    constructor ()
      ensures Valid() && |data| == HEADER && facts == {}
    {
      data := seq(HEADER, _ => 0);
      facts := {};
    }

    ghost method Note(before: seq<byte>, o: nat, item: Item)
      requires AllLaidOut(before, facts) && Extends(before, data) && |data| >= HEADER && LaidOut(data, o, item)
      modifies `facts
      ensures Valid() && facts == old(facts) + {(o, item)}
    {
      FactsKept(before, data, facts);
      facts := facts + {(o, item)};
    }

    method PutInt(n: nat) returns (r: Result<()>)
      requires Valid()
      modifies `data
      ensures Valid() && Extends(old(data), data)
      ensures r.Ok? <==> n < 0x8000_0000
      ensures r.Ok? ==> |data| == |old(data)| + 4 && Signed32(U32(data, |data| - 4)) == n
    {
      if n >= 0x8000_0000 {
        return Fail;
      }
      ghost var before := data;
      data := data + LE32(n);
      U32OfSlice(data, |data| - 4);
      assert data[|data| - 4..|data|] == LE32(n);
      FactsKept(before, data, facts);
      return Ok(());
    }

    /** Packs four-byte fields, some of them signed; a value past its field cannot be packed. */
    method PutRecord(words: seq<nat>, signed: set<nat>) returns (r: Result<nat>)
      requires Valid()
      modifies this
      ensures Valid() && Extends(old(data), data) && old(facts) <= facts
      ensures r.Ok? ==>
                && r.value == |old(data)| && |data| == |old(data)| + 4 * |words|
                && facts == old(facts) + {(r.value, Record(words))}
      ensures r.Ok? <==> Packable(words, signed)
    {
      if !Packable(words, signed) {
        return Fail;
      }
      ghost var before := data;
      var o := |data|;
      data := data + Pack(words);
      PackedReads(data, o, words);
      Note(before, o, Record(words));
      return Ok(o);
    }

    method PutString(text: string) returns (r: Result<nat>)
      requires Valid()
      modifies this
      ensures Valid() && Extends(old(data), data) && old(facts) <= facts
      ensures r.Ok? ==>
                && r.value == |old(data)| + 4 && |data| == r.value + |text|
                && facts == old(facts) + {(r.value, Plain(text))}
      ensures r.Ok? <==> AsciiOnly(text) && |text| < 0x8000_0000
    {
      var raw :- Encode(text);
      EncodeThenDecode(text);
      var _ :- PutInt(|raw|);
      ghost var before := data;
      var o := |data|;
      data := data + raw;
      assert data[o..o + |text|] == raw;
      Note(before, o, Plain(text));
      return Ok(o);
    }

    /** Bytes behind their number, in any encoding. */
    method PutSized(raw: seq<byte>) returns (r: Result<nat>)
      requires Valid()
      modifies this
      ensures Valid() && Extends(old(data), data) && old(facts) <= facts
      ensures r.Ok? ==>
                && r.value == |old(data)| + 4 && |data| == r.value + |raw|
                && facts == old(facts) + {(r.value, Sized(raw))}
      ensures r.Ok? <==> |raw| < 0x8000_0000
    {
      var _ :- PutInt(|raw|);
      ghost var before := data;
      var o := |data|;
      data := data + raw;
      assert data[o..o + |raw|] == raw;
      Note(before, o, Sized(raw));
      return Ok(o);
    }

    method PutBlock(raw: seq<byte>) returns (o: nat)
      requires Valid()
      modifies this
      ensures Valid() && Extends(old(data), data) && old(facts) <= facts
      ensures o == |old(data)| && |data| == o + |raw| && facts == old(facts) + {(o, Block(raw))}
    {
      ghost var before := data;
      o := |data|;
      data := data + raw;
      assert data[o..o + |raw|] == raw;
      Note(before, o, Block(raw));
    }

    method PutOffsets(values: seq<nat>) returns (r: Result<nat>)
      requires Valid()
      modifies this
      ensures Valid() && Extends(old(data), data) && old(facts) <= facts
      ensures r.Ok? ==>
                && r.value == |old(data)| + 4 && |data| == r.value + 4 * |values|
                && facts == old(facts) + {(r.value, Table(values))}
      ensures r.Ok? <==> 4 * |values| < 0x8000_0000 && Packable(values, {})
    {
      var _ :- PutInt(4 * |values|);
      if !Packable(values, {}) {
        return Fail;
      }
      ghost var before := data;
      var o := |data|;
      data := data + Pack(values);
      PackedReads(data, o, values);
      Note(before, o, Table(values));
      return Ok(o);
    }

    method PutStringObject(encoded: nat, separator: byte) returns (r: Result<nat>)
      requires Valid()
      modifies this
      ensures Valid() && Extends(old(data), data) && old(facts) <= facts
      ensures r.Ok? ==>
                && r.value == |old(data)| && |data| == |old(data)| + 5
                && facts == old(facts) + {(r.value, StringObject(encoded, separator as int))}
      ensures r.Ok? <==> encoded <= NULL
    {
      if encoded > NULL {
        return Fail;
      }
      ghost var before := data;
      var o := |data|;
      data := data + LE32(encoded) + [separator];
      U32OfSlice(data, o);
      assert data[o..o + 4] == LE32(encoded);
      Note(before, o, StringObject(encoded, separator as int));
      return Ok(o);
    }

    /** Patches the header, whose magic and version are signed; nothing behind it moves. */
    method PatchHeader(words: seq<nat>) returns (r: Result<()>)
      requires Valid() && |words| == 8
      modifies this
      ensures Valid() && Extends(old(data), data) && |data| == |old(data)| && facts == old(facts)
      ensures r.Ok? ==> Words(data, 0, 8) == words
      ensures r.Ok? <==> Packable(words, {0, 1})
    {
      if !Packable(words, {0, 1}) {
        return Fail;
      }
      ghost var before := data;
      var header := Pack(words);
      data := header + data[HEADER..];
      FactsKept(before, data, facts);
      assert data[0..32] == header;
      WordsOfPack(words);
      WordsOfSlice(data, 0, 8);
      return Ok(());
    }
  }

  lemma PackedReads(d: seq<byte>, o: nat, words: seq<nat>)
    requires Packable(words, {}) && o + 4 * |words| == |d| && d[o..] == Pack(words)
    ensures ReadU32s(d, o, |words|) == Ok(words)
  {
    hide Pack, Words;
    WordsOfPack(words);
    assert d[o..o + 4 * |words|] == d[o..];
    WordsOfSlice(d, o, |words|);
  }
}
