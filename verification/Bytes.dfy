/** Little-endian fields of an immutable byte buffer. */
module Bytes {
  import opened Wrappers

  type byte = b: int | 0 <= b < 256

  const NULL: nat := 0xFFFF_FFFF
  const NULL_STRING: nat := 0xFFFF_FFFE

  /** The positions in a buffer of n bytes. */
  ghost function Below(n: nat): (s: set<nat>)
    ensures forall p: nat :: p in s <==> p < n
  {
    if n == 0 then {} else Below(n - 1) + {n - 1}
  }

  function U16(d: seq<byte>, o: nat): nat
    requires o + 2 <= |d|
  {
    d[o] as int + 0x100 * d[o + 1] as int
  }

  function U32(d: seq<byte>, o: nat): (w: nat)
    requires o + 4 <= |d|
    ensures w <= NULL
  {
    d[o] as int + 0x100 * d[o + 1] as int + 0x1_0000 * d[o + 2] as int + 0x100_0000 * d[o + 3] as int
  }

  function Signed32(w: nat): int {
    if w < 0x8000_0000 then w else w - 0x1_0000_0000
  }

  function Signed16(w: nat): int {
    if w < 0x8000 then w else w - 0x1_0000
  }

  function Signed64(low: nat, high: nat): int {
    low + 0x1_0000_0000 * Signed32(high)
  }

  function Slice(d: seq<byte>, o: int, n: nat): Result<seq<byte>> {
    if 0 <= o && o + n <= |d| then Ok(d[o..o + n]) else Fail
  }

  function Words(d: seq<byte>, o: nat, n: nat): (ws: seq<nat>)
    requires o + 4 * n <= |d|
    ensures |ws| == n
    ensures forall i :: 0 <= i < n ==> ws[i] <= NULL
  {
    seq(n, i requires 0 <= i < n => U32(d, o + 4 * i))
  }

  function ReadU32s(d: seq<byte>, o: int, n: nat): (r: Result<seq<nat>>)
    ensures r.Ok? ==> |r.value| == n && forall i :: 0 <= i < n ==> r.value[i] <= NULL
  {
    if 0 <= o && o + 4 * n <= |d| then Ok(Words(d, o, n)) else Fail
  }

  lemma WordsOfSlice(d: seq<byte>, o: nat, n: nat)
    requires o + 4 * n <= |d|
    ensures Words(d[o..o + 4 * n], 0, n) == Words(d, o, n)
  {
    var s := d[o..o + 4 * n];
    forall i | 0 <= i < n
      ensures U32(s, 4 * i) == U32(d, o + 4 * i)
    {
      assert s[4 * i] == d[o + 4 * i] && s[4 * i + 1] == d[o + 4 * i + 1];
      assert s[4 * i + 2] == d[o + 4 * i + 2] && s[4 * i + 3] == d[o + 4 * i + 3];
    }
  }

  lemma U32OfSlice(d: seq<byte>, o: nat)
    requires o + 4 <= |d|
    ensures U32(d[o..o + 4], 0) == U32(d, o)
  {
  }

  lemma PairsOfWords(size: nat)
    requires size % 4 == 0
    ensures size / 4 % 2 == 0 <==> size % 8 == 0
  {
  }

  /** Bit k of a Python integer: the sign extends to the left without end. */
  predicate Bit(x: int, power: int)
    requires power > 0
  {
    x / power % 2 == 1
  }

  /** The five low option bits read the same from a signed and an unsigned flag word. */
  lemma SignedBits(w: nat)
    requires w <= NULL
    ensures Bit(Signed32(w), 1) == Bit(w, 1)
    ensures Bit(Signed32(w), 2) == Bit(w, 2)
    ensures Bit(Signed32(w), 4) == Bit(w, 4)
    ensures Bit(Signed32(w), 8) == Bit(w, 8)
    ensures Bit(Signed32(w), 16) == Bit(w, 16)
  {
    Wrap2(w);
    Wrap4(w);
    Wrap8(w);
    Wrap16(w);
  }

  lemma Wrap2(w: nat)
    ensures Bit(w - 0x1_0000_0000, 2) == Bit(w, 2)
  {
    assert (w - 0x1_0000_0000) / 2 == w / 2 - 0x8000_0000;
  }

  lemma Wrap4(w: nat)
    ensures Bit(w - 0x1_0000_0000, 4) == Bit(w, 4)
  {
    assert (w - 0x1_0000_0000) / 4 == w / 4 - 0x4000_0000;
  }

  lemma Wrap8(w: nat)
    ensures Bit(w - 0x1_0000_0000, 8) == Bit(w, 8)
  {
    assert (w - 0x1_0000_0000) / 8 == w / 8 - 0x2000_0000;
  }

  lemma Wrap16(w: nat)
    ensures Bit(w - 0x1_0000_0000, 16) == Bit(w, 16)
  {
    assert (w - 0x1_0000_0000) / 16 == w / 16 - 0x1000_0000;
  }

  function LE32(w: nat): (bytes: seq<byte>)
    requires w <= NULL
    ensures |bytes| == 4
    ensures U32(bytes, 0) == w
  {
    var w1 := w / 0x100;
    var w2 := w1 / 0x100;
    [w % 0x100, w1 % 0x100, w2 % 0x100, w2 / 0x100]
  }

  function Pack(ws: seq<nat>): (bytes: seq<byte>)
    requires forall i :: 0 <= i < |ws| ==> ws[i] <= NULL
    ensures |bytes| == 4 * |ws|
  {
    if ws == [] then [] else Pack(ws[..|ws| - 1]) + LE32(ws[|ws| - 1])
  }

  lemma LE32OfU32(d: seq<byte>, o: nat)
    requires o + 4 <= |d|
    ensures LE32(U32(d, o)) == d[o..o + 4]
  {
    var a, b, c, e := d[o] as int, d[o + 1] as int, d[o + 2] as int, d[o + 3] as int;
    var w := U32(d, o);
    var w1 := b + 0x100 * c + 0x1_0000 * e;
    assert w == a + 0x100 * w1 && w / 0x100 == w1;
    var w2 := c + 0x100 * e;
    assert w1 == b + 0x100 * w2 && w1 / 0x100 == w2;
  }

  /** Unpacking little-endian words and packing them again is the identity on bytes. */
  lemma {:induction false} PackOfWords(d: seq<byte>, o: nat, n: nat)
    requires o + 4 * n <= |d|
    ensures Pack(Words(d, o, n)) == d[o..o + 4 * n]
    decreases n
  {
    if n > 0 {
      PackOfWords(d, o, n - 1);
      LE32OfU32(d, o + 4 * (n - 1));
      assert Words(d, o, n)[..n - 1] == Words(d, o, n - 1);
    }
  }

  /** Packing words and reading them back is the identity on words. */
  lemma {:induction false} WordsOfPack(ws: seq<nat>)
    requires forall i :: 0 <= i < |ws| ==> ws[i] <= NULL
    ensures Words(Pack(ws), 0, |ws|) == ws
  {
    if ws != [] {
      var n := |ws| - 1;
      WordsOfPack(ws[..n]);
      var bytes := Pack(ws);
      assert bytes[..4 * n] == Pack(ws[..n]);
      WordsOfSlice(bytes, 0, n);
      assert Words(bytes, 0, n) == ws[..n];
      forall i | 0 <= i < n
        ensures U32(bytes, 4 * i) == ws[i]
      {
        assert Words(bytes, 0, n)[i] == ws[..n][i];
      }
      assert U32(Pack(ws), 4 * n) == U32(LE32(ws[n]), 0);
    }
  }
}
