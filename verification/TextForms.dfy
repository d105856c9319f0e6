/** Strings in every form a catalog stores them: what each denotes, and that both readers read it. */
module TextForms {
  import opened Wrappers
  import opened Bytes
  import opened StringSpec
  import opened Objects
  import opened Writer
  import opened RoundTrip
  import CatalogKeys
  import PythonReader
  import NativeParser

  /** A string without links: one of the two nulls, or bytes with one or with two bytes a character. */
  datatype Piece =
    | Absent(second: bool)
    | Narrow(raw: seq<byte>)
    | Wide(raw: seq<byte>)

  /** A string on its own, or a linked path, its parts in the order of their records. */
  datatype Text =
    | Single(piece: Piece)
    | Linked(first: Piece, rest: seq<Piece>)

  // ----- What a stored string denotes, apart from how it is encoded

  function PieceText(utf16: seq<byte> -> Option<string>, p: Piece): Result<Option<string>> {
    match p
    case Absent(_) => Ok(None)
    case Narrow(raw) =>
      if exists i :: 0 <= i < |raw| && raw[i] > 127 then Fail
      else Ok(Some(seq(|raw|, i requires 0 <= i < |raw| => raw[i] as char)))
    case Wide(raw) => if utf16(raw).None? then Fail else Ok(utf16(raw))
  }

  /** Folders come last in version 1 and first in later versions; null parts are left out. */
  function PathText(utf16: seq<byte> -> Option<string>, separator: char, version: nat, pieces: seq<Piece>)
      : Result<Option<string>>
  {
    if pieces == [] then Ok(None) else
    var rest :- PathText(utf16, separator, version, pieces[1..]);
    var first :- PieceText(utf16, pieces[0]);
    if first.None? then Ok(rest)
    else if rest.None? then Ok(first)
    else if version <= 1 then Ok(Some(first.value + [separator] + rest.value))
    else Ok(Some(rest.value + [separator] + first.value))
  }

  function Meant(utf16: seq<byte> -> Option<string>, separator: byte, version: nat, t: Text): Result<Option<string>> {
    match t
    case Single(p) => PieceText(utf16, p)
    case Linked(first, rest) =>
      var joined :- PathText(utf16, separator as char, version, [first] + rest);
      Ok(Some(if joined.None? then "" else joined.value))
  }

  // ----- Writing them

  ghost predicate PieceWritten(facts: Facts, p: Piece, encoded: nat) {
    match p
    case Absent(second) => encoded == if second then 0xFFFF_FFFE else 0xFFFF_FFFF
    case Narrow(raw) => (encoded, Sized(raw)) in facts
    case Wide(raw) => encoded >= 0x8000_0000 && (encoded - 0x8000_0000, Sized(raw)) in facts
  }

  /** Each part record names its string and the next part record. */
  ghost predicate ChainWritten(facts: Facts, pieces: seq<Piece>, o: nat) {
    if pieces == [] then o == 0xFFFF_FFFF
    else exists text, next ::
           (o, Record([text, next])) in facts
           && PieceWritten(facts, pieces[0], text) && ChainWritten(facts, pieces[1..], next)
  }

  ghost predicate TextWritten(facts: Facts, t: Text, encoded: nat) {
    match t
    case Single(p) => PieceWritten(facts, p, encoded)
    case Linked(first, rest) => encoded >= 0x4000_0000 && ChainWritten(facts, [first] + rest, encoded - 0x4000_0000)
  }

  lemma {:induction false} ChainStays(facts: Facts, more: Facts, pieces: seq<Piece>, o: nat)
    requires facts <= more && ChainWritten(facts, pieces, o)
    ensures ChainWritten(more, pieces, o)
    decreases |pieces|
  {
    if pieces != [] {
      var text, next :| (o, Record([text, next])) in facts
                        && PieceWritten(facts, pieces[0], text) && ChainWritten(facts, pieces[1..], next);
      ChainStays(facts, more, pieces[1..], next);
      assert PieceWritten(more, pieces[0], text);
    }
  }

  /** What is written stays written. */
  lemma TextsStay(facts: Facts, more: Facts)
    requires facts <= more
    ensures forall t, encoded: nat :: TextWritten(facts, t, encoded) ==> TextWritten(more, t, encoded)
  {
    hide ChainWritten;
    forall t, encoded: nat | TextWritten(facts, t, encoded)
      ensures TextWritten(more, t, encoded)
    {
      if t.Linked? {
        ChainStays(facts, more, [t.first] + t.rest, encoded - 0x4000_0000);
      }
    }
  }

  function PieceSize(p: Piece): nat {
    if p.Absent? then 0 else 4 + |p.raw|
  }

  function ChainSize(pieces: seq<Piece>): nat {
    if pieces == [] then 0 else ChainSize(pieces[1..]) + PieceSize(pieces[0]) + 8
  }

  function TextSize(t: Text): nat {
    match t
    case Single(p) => PieceSize(p)
    case Linked(first, rest) => ChainSize([first] + rest)
  }

  method PutPiece(w: CatalogWriter, p: Piece) returns (r: Result<nat>)
    requires w.Valid()
    modifies w
    ensures w.Valid() && old(w.facts) <= w.facts && |old(w.data)| <= |w.data|
    ensures r.Ok? ==> PieceWritten(w.facts, p, r.value) && |w.data| == |old(w.data)| + PieceSize(p)
    ensures r.Ok? && |w.data| < 0x4000_0000 ==> r.value <= NULL
    ensures PieceSize(p) < 0x8000_0000 ==> r.Ok?
  {
    match p {
      case Absent(second) =>
        return Ok(if second then 0xFFFF_FFFE else 0xFFFF_FFFF);
      case Narrow(raw) =>
        r := w.PutSized(raw);
      case Wide(raw) =>
        var o :- w.PutSized(raw);
        return Ok(o + 0x8000_0000);
    }
  }

  /** The parts from last to first, each linked to the one behind it. */
  method PutChain(w: CatalogWriter, pieces: seq<Piece>) returns (r: Result<nat>)
    requires w.Valid()
    modifies w
    ensures w.Valid() && old(w.facts) <= w.facts && |old(w.data)| <= |w.data|
    ensures r.Ok? ==> ChainWritten(w.facts, pieces, r.value) && |w.data| == |old(w.data)| + ChainSize(pieces)
    ensures r.Ok? && pieces != [] ==> r.value < |w.data|
    ensures |old(w.data)| + ChainSize(pieces) < 0x4000_0000 ==> r.Ok?
  {
    hide LaidOut, AllLaidOut;
    var next: nat, i: nat := 0xFFFF_FFFF, |pieces|;
    assert ChainWritten(w.facts, pieces[i..], next);
    while i > 0
      invariant i <= |pieces|
      invariant w.Valid() && old(w.facts) <= w.facts
      invariant ChainWritten(w.facts, pieces[i..], next)
      invariant |w.data| == |old(w.data)| + ChainSize(pieces[i..]) && ChainSize(pieces[i..]) <= ChainSize(pieces)
      invariant next == 0xFFFF_FFFF || next < |w.data|
      invariant i < |pieces| ==> next < |w.data|
    {
      ChainShrinks(pieces, i - 1);
      ghost var before := w.facts;
      var text :- PutPiece(w, pieces[i - 1]);
      var record :- w.PutRecord([text, next], {});
      ChainStays(before, w.facts, pieces[i..], next);
      assert pieces[i - 1..][1..] == pieces[i..];
      assert PieceWritten(w.facts, pieces[i - 1..][0], text);
      next, i := record, i - 1;
    }
    assert pieces[0..] == pieces;
    return Ok(next);
  }

  lemma {:induction false} ChainShrinks(pieces: seq<Piece>, i: nat)
    requires i < |pieces|
    ensures ChainSize(pieces[i..]) == ChainSize(pieces[i + 1..]) + PieceSize(pieces[i]) + 8 <= ChainSize(pieces)
  {
    assert pieces[i..][1..] == pieces[i + 1..];
    if i > 0 {
      ChainShrinks(pieces, i - 1);
    } else {
      assert pieces[0..] == pieces;
    }
  }

  method PutText(w: CatalogWriter, t: Text) returns (r: Result<nat>)
    requires w.Valid()
    modifies w
    ensures w.Valid() && old(w.facts) <= w.facts && |old(w.data)| <= |w.data|
    ensures r.Ok? ==> TextWritten(w.facts, t, r.value) && |w.data| == |old(w.data)| + TextSize(t)
    ensures r.Ok? && |w.data| < 0x4000_0000 ==> r.value <= NULL
    ensures |old(w.data)| + TextSize(t) < 0x4000_0000 ==> r.Ok?
  {
    match t {
      case Single(p) =>
        r := PutPiece(w, p);
      case Linked(first, rest) =>
        var o :- PutChain(w, [first] + rest);
        return Ok(o + 0x4000_0000);
    }
  }

  // ----- Reading them

  lemma SizedReads(img: Image, facts: Facts, raw: seq<byte>, o: nat)
    requires Holding(img, facts) && (o, Sized(raw)) in facts
    ensures o < 0x4000_0000
    ensures BasicAt(img, o, false) == (if Ascii(raw).None? then Fail else Ok(Ascii(raw).value))
    ensures BasicAt(img, o, true) == (if img.utf16(raw).None? then Fail else Ok(img.utf16(raw).value))
  {
    hide AllLaidOut, Ascii;
    Fact(img, facts, o, Sized(raw));
    assert img.data[o..o + |raw|] == raw;
  }

  lemma FlagsAbove(o: nat)
    requires o < 0x4000_0000
    ensures Position(o) == o == Position(o + 0x8000_0000)
    ensures !IsUnicode(o) && IsUnicode(o + 0x8000_0000)
    ensures !Bit(o, 0x4000_0000) && !Bit(o + 0x8000_0000, 0x4000_0000)
    ensures !IsNullString(o) && !IsNullString(o + 0x8000_0000)
  {
  }

  lemma NarrowIs(utf16: seq<byte> -> Option<string>, raw: seq<byte>)
    ensures Ascii(raw).None? <==> PieceText(utf16, Narrow(raw)).Fail?
    ensures Ascii(raw).Some? ==> PieceText(utf16, Narrow(raw)) == Ok(Ascii(raw))
  {
    if Ascii(raw).Some? {
      assert forall i :: 0 <= i < |raw| ==> raw[i] < 128;
    }
  }

  lemma PieceReads(img: Image, facts: Facts, p: Piece, encoded: nat, separator: nat)
    requires Holding(img, facts) && PieceWritten(facts, p, encoded) && separator < 256
    ensures encoded <= NULL && Part(img, encoded) == PieceText(img.utf16, p)
    ensures IsNullString(encoded) || !Bit(encoded, 0x4000_0000)
    ensures Encoded(img, encoded, separator) == PieceText(img.utf16, p)
  {
    hide Holding, BasicAt, Ascii, Bit, Chain;
    if !p.Absent? {
      hide IsNullString, Position;
      var o := if p.Wide? then encoded - 0x8000_0000 else encoded;
      SizedReads(img, facts, p.raw, o);
      FlagsAbove(o);
      NarrowIs(img.utf16, p.raw);
    }
  }

  /** The texts of parts that are not null, in the order of their records. */
  function Texts(utf16: seq<byte> -> Option<string>, pieces: seq<Piece>): Result<seq<string>> {
    if pieces == [] then Ok([]) else
    var rest :- Texts(utf16, pieces[1..]);
    var first :- PieceText(utf16, pieces[0]);
    Ok(if first.None? then rest else [first.value] + rest)
  }

  /** A written chain has the texts of its parts, and none if one of them cannot be decoded. */
  lemma {:induction false} ChainReads(img: Image, facts: Facts, pieces: seq<Piece>, o: nat)
    requires Holding(img, facts) && pieces != [] && ChainWritten(facts, pieces, o)
    ensures Chain(img, o) == Texts(img.utf16, pieces) && o < 0x4000_0000
    decreases |pieces|
  {
    hide Holding, Chain, Part, PieceText;
    var text, next :| (o, Record([text, next])) in facts
                      && PieceWritten(facts, pieces[0], text) && ChainWritten(facts, pieces[1..], next);
    ChainLink(img, facts, o, text, next);
    PieceReads(img, facts, pieces[0], text, 0);
    ChainUnfold(img, o);
    if pieces[1..] != [] {
      ChainReads(img, facts, pieces[1..], next);
    }
    var rest := Texts(img.utf16, pieces[1..]);
    assert Rest(img, next) == rest;
    if rest.Ok? {
      assert [] + rest.value == rest.value;
    }
  }

  lemma ChainLink(img: Image, facts: Facts, o: nat, text: nat, next: nat)
    requires Holding(img, facts) && (o, Record([text, next])) in facts
    ensures o + 8 <= |img.data| < 0x4000_0000 && U32(img.data, o) == text && U32(img.data, o + 4) == next
  {
    hide AllLaidOut;
    RecordMeans(img, facts, o, [text, next]);
    var words := Words(img.data, o, 2);
    assert U32(img.data, o) == words[0] && U32(img.data, o + 4) == words[1];
  }

  /** Joining from the front: what the parts of a path give, and in which order. */
  lemma {:induction false} JoinedIs(utf16: seq<byte> -> Option<string>, separator: char, version: nat,
                                    pieces: seq<Piece>)
    ensures Texts(utf16, pieces).Fail? <==> PathText(utf16, separator, version, pieces).Fail?
    ensures Texts(utf16, pieces).Ok? ==>
              var texts := Texts(utf16, pieces).value;
              PathText(utf16, separator, version, pieces) ==
              Ok(if texts == [] then None
                 else Some(Join(separator, if version > 1 then Reverse(texts) else texts)))
  {
    hide PieceText, Join, Reverse;
    if pieces != [] {
      JoinedIs(utf16, separator, version, pieces[1..]);
      if Texts(utf16, pieces).Ok? && PieceText(utf16, pieces[0]).value.Some? {
        JoinAdds(separator, PieceText(utf16, pieces[0]).value.value, Texts(utf16, pieces[1..]).value);
      }
    }
  }

  lemma JoinAdds(separator: char, first: string, rest: seq<string>)
    ensures var all := [first] + rest;
            && Join(separator, all) == (if rest == [] then first else first + [separator] + Join(separator, rest))
            && Join(separator, Reverse(all)) ==
               (if rest == [] then first else Join(separator, Reverse(rest)) + [separator] + first)
  {
    var all, n := [first] + rest, |rest|;
    CatalogKeys.JoinHead(separator, first, rest, n);
    assert Reverse(all)[..n] == Reverse(rest)[..n];
    CatalogKeys.JoinAgrees(separator, Reverse(all), Reverse(rest), n);
    if n > 0 {
      var tail := Join(separator, rest);
      assert first + ([separator] + tail) == first + [separator] + tail;
    }
  }

  /** Every stored string denotes what was written: nulls, one- and two-byte characters, and linked paths. */
  lemma TextReads(img: Image, facts: Facts, t: Text, encoded: nat, separator: byte)
    requires Holding(img, facts) && TextWritten(facts, t, encoded) && (t.Linked? ==> separator != 0)
    ensures encoded <= NULL && Encoded(img, encoded, separator as int) == Meant(img.utf16, separator, img.version, t)
  {
    hide Holding, Chain, Part, PieceText, PathText, Texts, Join, Reverse, PieceWritten, ChainWritten;
    match t {
      case Single(p) =>
        PieceReads(img, facts, p, encoded, separator as int);
      case Linked(first, rest) =>
        var o := encoded - 0x4000_0000;
        ChainReads(img, facts, [first] + rest, o);
        JoinedIs(img.utf16, separator as char, img.version, [first] + rest);
        SmallOffset(o);
        JoinNone(separator as char);
    }
  }

  lemma JoinNone(separator: char)
    ensures Join(separator, []) == "" && Reverse([]) == []
  {
  }

  /** The same bytes, read with one and with two bytes a character. */
  lemma TwoReadings(img: Image, facts: Facts, raw: seq<byte>, o: nat, separator: byte)
    requires Holding(img, facts) && (o, Sized(raw)) in facts
    ensures Encoded(img, o, separator as int) == PieceText(img.utf16, Narrow(raw))
    ensures Encoded(img, o + 0x8000_0000, separator as int) == PieceText(img.utf16, Wide(raw))
  {
    PieceReads(img, facts, Narrow(raw), o, separator as int);
    PieceReads(img, facts, Wide(raw), o + 0x8000_0000, separator as int);
  }

  /**
   * The two flags above an offset, on every file. Without a separator the path flag is not looked at;
   * on a path the flag for two bytes a character is not; and a string that is no path needs no separator.
   */
  lemma FlagLaws(img: Image, o: nat, separator: byte)
    requires o < 0x4000_0000
    ensures Encoded(img, o, separator as int) == Encoded(img, o, 0) == Encoded(img, o + 0x4000_0000, 0)
    ensures Encoded(img, o + 0x8000_0000, separator as int) == Encoded(img, o + 0x8000_0000, 0)
    ensures o + 0xC000_0000 < 0xFFFF_FFFE ==> Encoded(img, o + 0xC000_0000, 0) == Encoded(img, o + 0x8000_0000, 0)
    ensures o + 0xC000_0000 < 0xFFFF_FFFE && separator != 0 ==>
              Encoded(img, o + 0xC000_0000, separator as int) == Encoded(img, o + 0x4000_0000, separator as int)
  {
    hide BasicAt, Chain;
  }

  /** Two words and no others denote the null string, on every file. */
  lemma OnlyNulls(img: Image, encoded: nat, separator: byte)
    requires encoded <= 0xFFFF_FFFF
    ensures Encoded(img, encoded, separator as int) == Ok(None) <==> encoded == 0xFFFF_FFFE || encoded == 0xFFFF_FFFF
  {
    hide BasicAt, Chain;
  }

  /**
   * For every string that fits a file: after writing it, both readers give what it denotes, and fail
   * exactly when it denotes nothing.
   */
  method StoreAndRead(t: Text, separator: byte, version: nat, buffered: bool, utf16: seq<byte> -> Option<string>,
                      builtin: string -> Kind)
    returns (python: Result<Option<string>>, native: Result<Option<string>>)
    requires (t.Linked? ==> separator != 0) && HEADER + TextSize(t) < 0x4000_0000
    ensures python == native == Meant(utf16, separator, version, t)
  {
    hide TextWritten, Encoded, Meant;
    var w := new CatalogWriter();
    var written := PutText(w, t);
    var encoded := written.value;
    var img := Image(w.data, version, utf16, builtin);
    TextReads(img, w.facts, t, encoded, separator);
    var reader := new PythonReader.CatalogReader(img, buffered, None);
    python := reader.ReadEncodedString(encoded, separator as int);
    assert CacheState(img, None, map[]);
    var parser := new NativeParser.Parser(img, map[], None);
    native := parser.String(encoded, separator as int);
  }
}
