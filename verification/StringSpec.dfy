/** What an encoded string offset denotes, with no cache and no visited set. */
module StringSpec {
  import opened Wrappers
  import opened Bytes
  import opened Orbits

  /** How a typed object's payload is read. */
  datatype Kind =
    | IntKind | LongKind | BoolKind | StringKind | HashKind | BundleKind | CustomKind | UnsupportedKind

  /**
   * A catalog file with its header version, and what both back ends share: the UTF-16-LE decoder
   * and the table of built-in type names.
   */
  datatype Image = Image(
    data: seq<byte>, version: nat, utf16: seq<byte> -> Option<string>, builtin: string -> Kind)

  predicate IsNullString(encoded: nat) {
    encoded == NULL || encoded == NULL_STRING
  }

  predicate IsDynamic(encoded: nat, separator: nat) {
    Bit(encoded, 0x4000_0000) && separator != 0
  }

  function Position(encoded: nat): nat {
    encoded % 0x4000_0000
  }

  function Ascii(raw: seq<byte>): Option<string> {
    if forall i :: 0 <= i < |raw| ==> raw[i] < 128
    then Some(seq(|raw|, i requires 0 <= i < |raw| => raw[i] as char))
    else None
  }

  /** Bytes preceded by a signed length, decoded as ASCII or UTF-16-LE. */
  function BasicAt(img: Image, o: nat, unicode: bool): Result<string> {
    if o < 4 || o > |img.data| then Fail else
    var size := Signed32(U32(img.data, o - 4));
    if size < 0 || o + size > |img.data| then Fail else
    DecodeText(img, img.data[o..o + size], unicode)
  }

  function DecodeText(img: Image, raw: seq<byte>, unicode: bool): Result<string> {
    match if unicode then img.utf16(raw) else Ascii(raw)
    case None => Fail
    case Some(text) => Ok(text)
  }

  predicate IsUnicode(encoded: nat) {
    Bit(encoded, 0x8000_0000)
  }

  function Basic(img: Image, encoded: nat): Result<string> {
    BasicAt(img, Position(encoded), IsUnicode(encoded))
  }

  function Part(img: Image, encoded: nat): Result<Option<string>> {
    if IsNullString(encoded) then Ok(None) else
    var text :- Basic(img, encoded);
    Ok(Some(text))
  }

  function Listed(part: Option<string>): seq<string> {
    match part
    case None => []
    case Some(text) => [text]
  }

  function Prepend(parts: seq<string>, rest: Result<seq<string>>): Result<seq<string>> {
    var tail :- rest;
    Ok(parts + tail)
  }

  function Reverse(parts: seq<string>): (r: seq<string>)
    ensures |r| == |parts|
  {
    seq(|parts|, i requires 0 <= i < |parts| => parts[|parts| - 1 - i])
  }

  function JoinFirst(separator: char, parts: seq<string>, n: nat): string
    requires n <= |parts|
  {
    if n == 0 then ""
    else if n == 1 then parts[0]
    else JoinFirst(separator, parts, n - 1) + [separator] + parts[n - 1]
  }

  function Join(separator: char, parts: seq<string>): string {
    JoinFirst(separator, parts, |parts|)
  }

  /** The record that a part record links to, if it can be read and is not the last. */
  function Link(img: Image): nat -> Option<nat> {
    (o: nat) =>
      if o + 8 <= |img.data| && U32(img.data, o + 4) != NULL
      then Some(U32(img.data, o + 4)) else None
  }

  /** The parts of a chain of at most n records, in wire order. */
  function ChainParts(img: Image, o: nat, n: nat): Result<seq<string>>
    decreases n
  {
    if n == 0 || o + 8 > |img.data| then Fail else
    var part :- Part(img, U32(img.data, o));
    var next := U32(img.data, o + 4);
    if next == NULL then Ok(Listed(part)) else Prepend(Listed(part), ChainParts(img, next, n - 1))
  }

  ghost predicate ChainEnds(img: Image, o: nat) {
    exists n: nat :: ChainParts(img, o, n).Ok?
  }

  /** All parts of a chain that ends; a chain that is cyclic or unreadable has none. */
  ghost function Chain(img: Image, o: nat): Result<seq<string>> {
    if ChainEnds(img, o) then
      var n: nat :| ChainParts(img, o, n).Ok?;
      ChainParts(img, o, n)
    else Fail
  }

  ghost function Rest(img: Image, next: nat): Result<seq<string>> {
    if next == NULL then Ok([]) else Chain(img, next)
  }

  function Assemble(img: Image, separator: nat, parts: seq<string>): string
    requires separator < 256
  {
    Join(separator as char, if img.version > 1 then Reverse(parts) else parts)
  }

  /** The meaning of an encoded string: null, a plain string, or a linked path. */
  ghost function Encoded(img: Image, encoded: nat, separator: nat): Result<Option<string>>
    requires separator < 256
  {
    if IsNullString(encoded) then Ok(None)
    else if !IsDynamic(encoded, separator) then Part(img, encoded)
    else
      var parts :- Chain(img, Position(encoded));
      Ok(Some(Assemble(img, separator, parts)))
  }

  lemma {:induction false} ChainStable(img: Image, o: nat, m: nat, n: nat)
    requires m <= n && ChainParts(img, o, m).Ok?
    ensures ChainParts(img, o, n) == ChainParts(img, o, m)
    decreases m
  {
    var next := U32(img.data, o + 4);
    if next != NULL {
      ChainStable(img, next, m - 1, n - 1);
    }
  }

  lemma ChainIs(img: Image, o: nat, n: nat)
    requires ChainParts(img, o, n).Ok?
    ensures Chain(img, o) == ChainParts(img, o, n)
  {
    var k: nat :| ChainParts(img, o, k).Ok? && Chain(img, o) == ChainParts(img, o, k);
    if k <= n {
      ChainStable(img, o, k, n);
    } else {
      ChainStable(img, o, n, k);
    }
  }

  /** One step of a chain, whatever its length: the equation each walk below follows. */
  lemma ChainUnfold(img: Image, o: nat)
    ensures o + 8 > |img.data| ==> Chain(img, o).Fail?
    ensures o + 8 <= |img.data| && Part(img, U32(img.data, o)).Fail? ==> Chain(img, o).Fail?
    ensures o + 8 <= |img.data| && Part(img, U32(img.data, o)).Ok? ==>
              Chain(img, o) == Prepend(Listed(Part(img, U32(img.data, o)).value), Rest(img, U32(img.data, o + 4)))
  {
    if o + 8 <= |img.data| && Part(img, U32(img.data, o)).Ok? {
      var next := U32(img.data, o + 4);
      if next == NULL {
        ChainIs(img, o, 1);
        assert Listed(Part(img, U32(img.data, o)).value) + [] == Listed(Part(img, U32(img.data, o)).value);
      } else if ChainEnds(img, next) {
        var n: nat :| ChainParts(img, next, n).Ok?;
        ChainIs(img, next, n);
        ChainIs(img, o, n + 1);
      } else {
        forall n: nat
          ensures ChainParts(img, o, n).Fail?
        {
          assert n > 0 ==> ChainParts(img, next, n - 1).Fail?;
        }
      }
    }
  }

  lemma {:induction false} EndedChainStops(img: Image, o: nat, n: nat)
    requires ChainParts(img, o, n).Ok?
    ensures Iterate(Link(img), o, n).None?
    decreases n
  {
    var next := U32(img.data, o + 4);
    if next != NULL {
      EndedChainStops(img, next, n - 1);
    }
  }

  /** A chain that meets one record twice has no value. */
  lemma RevisitedChainFails(img: Image, o: nat, i: nat, j: nat)
    requires i < j && Iterate(Link(img), o, i).Some?
    requires Iterate(Link(img), o, j) == Iterate(Link(img), o, i)
    ensures Chain(img, o).Fail?
  {
    if ChainEnds(img, o) {
      var n: nat :| ChainParts(img, o, n).Ok?;
      EndedChainStops(img, o, n);
      RevisitNeverEnds(Link(img), o, i, j, n);
      assert false;
    }
  }

  /** A chain that ends shares no record with the walk that led to it. */
  lemma EndedTailMeetsNoEarlierRecord(img: Image, root: nat, i: nat, k: nat, tail: nat, j: nat)
    requires i < k && Iterate(Link(img), root, k) == Some(tail)
    requires Chain(img, tail).Ok?
    ensures Iterate(Link(img), tail, j) != Iterate(Link(img), root, i)
  {
    if Iterate(Link(img), tail, j) == Iterate(Link(img), root, i) {
      IterateStays(Link(img), root, i, k);
      IterateAdd(Link(img), root, i, k - i);
      IterateAdd(Link(img), tail, j, k - i);
      RevisitedChainFails(img, tail, 0, j + (k - i));
      assert false;
    }
  }
}
