/** What numbers, hexadecimal texts and joined paths mean, apart from how any decoder reads them. */
module References {
  import opened Bytes
  import StringSpec
  import RecordSpec
  import IdPrefix
  import MakeCatalog

  // ----- Numbers

  /** The number that bytes denote, least significant first. */
  function LittleEndian(raw: seq<byte>): (n: nat)
    ensures n < Pow256(|raw|)
  {
    if raw == [] then 0 else raw[0] as int + 0x100 * LittleEndian(raw[1..])
  }

  function Pow256(n: nat): (p: nat)
    ensures p > 0
  {
    if n == 0 then 1 else 0x100 * Pow256(n - 1)
  }

  /** The same bytes as a signed number: the top bit of the last byte stands for a negative power. */
  function TwosComplement(raw: seq<byte>): int {
    if raw != [] && raw[|raw| - 1] >= 0x80 then LittleEndian(raw) - Pow256(|raw|) else LittleEndian(raw)
  }

  lemma TwoBytes(raw: seq<byte>)
    requires |raw| == 2
    ensures LittleEndian(raw) == raw[0] as int + 0x100 * raw[1] as int && Pow256(2) == 0x1_0000
  {
    assert raw[1..][1..] == [];
  }

  lemma FourBytes(raw: seq<byte>)
    requires |raw| == 4
    ensures LittleEndian(raw) ==
            raw[0] as int + 0x100 * raw[1] as int + 0x1_0000 * raw[2] as int + 0x100_0000 * raw[3] as int
    ensures Pow256(4) == 0x1_0000_0000
  {
    TwoBytes(raw[2..]);
    assert raw[1..][1..] == raw[2..];
    assert LittleEndian(raw[1..]) == raw[1] as int + 0x100 * LittleEndian(raw[2..]);
    assert Pow256(3) == 0x100 * Pow256(2);
  }

  lemma U16Is(d: seq<byte>, o: nat)
    requires o + 2 <= |d|
    ensures U16(d, o) == LittleEndian(d[o..o + 2])
    ensures Signed16(U16(d, o)) == TwosComplement(d[o..o + 2])
  {
    TwoBytes(d[o..o + 2]);
  }

  lemma U32Is(d: seq<byte>, o: nat)
    requires o + 4 <= |d|
    ensures U32(d, o) == LittleEndian(d[o..o + 4])
    ensures Signed32(U32(d, o)) == TwosComplement(d[o..o + 4])
  {
    FourBytes(d[o..o + 4]);
  }

  lemma {:induction false} LittleEndianSplits(a: seq<byte>, b: seq<byte>)
    ensures LittleEndian(a + b) == LittleEndian(a) + Pow256(|a|) * LittleEndian(b)
    ensures Pow256(|a| + |b|) == Pow256(|a|) * Pow256(|b|)
  {
    if a == [] {
      assert a + b == b;
    } else {
      LittleEndianSplits(a[1..], b);
      assert (a + b)[1..] == a[1..] + b;
      assert |(a + b)[1..]| == |a| - 1 + |b|;
      Distributes(Pow256(|a| - 1), LittleEndian(b), Pow256(|b|));
    }
  }

  lemma Distributes(p: nat, x: nat, q: nat)
    ensures 0x100 * (p * x) == (0x100 * p) * x && 0x100 * (p * q) == (0x100 * p) * q
  {
  }

  /** Two words, the low one first, are the eight bytes as one signed number. */
  lemma Signed64Is(d: seq<byte>, o: nat)
    requires o + 8 <= |d|
    ensures Signed64(U32(d, o), U32(d, o + 4)) == TwosComplement(d[o..o + 8])
  {
    var low, high := d[o..o + 4], d[o + 4..o + 8];
    assert d[o..o + 8] == low + high;
    LittleEndianSplits(low, high);
    FourBytes(low);
    FourBytes(high);
  }

  // ----- Hexadecimal

  predicate IsHexDigit(c: char) {
    '0' <= c <= '9' || 'a' <= c <= 'f'
  }

  function DigitValue(c: char): nat
    requires IsHexDigit(c)
  {
    if c <= '9' then c as int - '0' as int else 10 + (c as int - 'a' as int)
  }

  predicate AllHexDigits(text: string) {
    forall i :: 0 <= i < |text| ==> IsHexDigit(text[i])
  }

  /** The number that a hexadecimal text denotes, most significant digit first. */
  function HexNumber(text: string): nat
    requires AllHexDigits(text)
  {
    if text == "" then 0 else 16 * HexNumber(text[..|text| - 1]) + DigitValue(text[|text| - 1])
  }

  /** Two lower-case digits for each byte, in order, each pair the number of its byte. */
  ghost predicate Spells(text: string, raw: seq<byte>) {
    && |text| == 2 * |raw| && AllHexDigits(text)
    && forall i :: 0 <= i < |raw| ==> HexNumber(text[2 * i..2 * i + 2]) == raw[i]
  }

  lemma PairNumber(a: char, b: char)
    requires IsHexDigit(a) && IsHexDigit(b)
    ensures HexNumber([a, b]) == 16 * DigitValue(a) + DigitValue(b)
  {
    assert [a][..0] == "" && HexNumber([a]) == DigitValue(a);
    assert [a, b][..1] == [a];
  }

  lemma {:induction false} HexFirstSpells(raw: seq<byte>, n: nat)
    requires n <= |raw|
    ensures Spells(RecordSpec.HexFirst(raw, n), raw[..n])
  {
    if n > 0 {
      HexFirstSpells(raw, n - 1);
      var before, text := RecordSpec.HexFirst(raw, n - 1), RecordSpec.HexFirst(raw, n);
      var a, b := RecordSpec.HexDigit(raw[n - 1] / 16), RecordSpec.HexDigit(raw[n - 1] % 16);
      PairNumber(a, b);
      assert text == before + [a, b];
      forall i | 0 <= i < n
        ensures HexNumber(text[2 * i..2 * i + 2]) == raw[..n][i]
      {
        if i < n - 1 {
          assert text[2 * i..2 * i + 2] == before[2 * i..2 * i + 2];
          assert raw[..n][i] == raw[..n - 1][i];
        } else {
          assert text[2 * i..2 * i + 2] == [a, b];
        }
      }
    }
  }

  /** A decoded hash is the text of its bytes. */
  lemma HexSpells(raw: seq<byte>)
    ensures Spells(RecordSpec.Hex(raw), raw)
  {
    HexFirstSpells(raw, |raw|);
    assert raw[..|raw|] == raw;
  }

  // ----- Numbers in texts of the generator

  /** A decimal text denotes its number. */
  lemma {:induction false} DecimalTextDenotes(n: nat)
    ensures IdPrefix.AllDigits(MakeCatalog.DecimalText(n)) && IdPrefix.Decimal(MakeCatalog.DecimalText(n)) == n
  {
    var text := MakeCatalog.DecimalText(n);
    if n >= 10 {
      DecimalTextDenotes(n / 10);
      DecimalPrefix(MakeCatalog.DecimalText(n / 10), text, |text| - 1);
    } else {
      assert IdPrefix.DecimalFirst(text, 0) == 0;
    }
  }

  lemma {:induction false} DecimalPrefix(a: string, b: string, n: nat)
    requires n <= |a| && n <= |b| && a[..n] == b[..n] && IdPrefix.AllDigits(a) && IdPrefix.AllDigits(b)
    ensures IdPrefix.DecimalFirst(a, n) == IdPrefix.DecimalFirst(b, n)
  {
    if n > 0 {
      assert a[n - 1] == a[..n][n - 1] == b[..n][n - 1] == b[n - 1];
      assert a[..n - 1] == a[..n][..n - 1] == b[..n][..n - 1] == b[..n - 1];
      DecimalPrefix(a, b, n - 1);
    }
  }

  function Pow16(n: nat): (p: nat)
    ensures p > 0
  {
    if n == 0 then 1 else 16 * Pow16(n - 1)
  }

  /** A padded hexadecimal text denotes its number, if the number has no more digits than that. */
  lemma {:induction false} HexTextDenotes(n: nat, width: nat)
    requires n < Pow16(width)
    ensures |MakeCatalog.HexText(n, width)| == width && AllHexDigits(MakeCatalog.HexText(n, width))
    ensures HexNumber(MakeCatalog.HexText(n, width)) == n
  {
    if width > 0 {
      HexTextDenotes(n / 16, width - 1);
      var text := MakeCatalog.HexText(n, width);
      assert text[..|text| - 1] == MakeCatalog.HexText(n / 16, width - 1);
    }
  }

  // ----- Joined paths

  /** The parts of the first n characters, cut at each separator. */
  function SplitFirst(separator: char, text: string, n: nat): (parts: seq<string>)
    requires n <= |text|
    ensures parts != []
  {
    if n == 0 then [""]
    else
      var before := SplitFirst(separator, text, n - 1);
      if text[n - 1] == separator then before + [""]
      else before[..|before| - 1] + [before[|before| - 1] + [text[n - 1]]]
  }

  function Split(separator: char, text: string): seq<string> {
    SplitFirst(separator, text, |text|)
  }

  lemma {:induction false} SplitPrefix(separator: char, a: string, b: string, n: nat)
    requires n <= |a|
    ensures SplitFirst(separator, a + b, n) == SplitFirst(separator, a, n)
  {
    if n > 0 {
      SplitPrefix(separator, a, b, n - 1);
    }
  }

  lemma {:induction false} SplitPart(separator: char, a: string, b: string, k: nat)
    requires k <= |b| && separator !in b
    ensures var parts := Split(separator, a);
            SplitFirst(separator, a + b, |a| + k) == parts[..|parts| - 1] + [parts[|parts| - 1] + b[..k]]
  {
    var parts := Split(separator, a);
    if k == 0 {
      SplitPrefix(separator, a, b, |a|);
      assert parts[|parts| - 1] + b[..0] == parts[|parts| - 1];
    } else {
      SplitPart(separator, a, b, k - 1);
      assert (a + b)[|a| + k - 1] == b[k - 1];
      assert b[..k - 1] + [b[k - 1]] == b[..k];
      assert parts[|parts| - 1] + b[..k - 1] + [b[k - 1]] == parts[|parts| - 1] + b[..k];
    }
  }

  /** One more part behind a separator is one more piece. */
  lemma SplitAdds(separator: char, before: string, last: string)
    requires separator !in last
    ensures Split(separator, before + [separator] + last) == Split(separator, before) + [last]
  {
    hide SplitFirst;
    var cut := before + [separator];
    SplitPrefix(separator, before, [separator], |before|);
    SplitAtEnd(separator, before);
    SplitPart(separator, cut, last, |last|);
    assert last[..|last|] == last && "" + last == last;
  }

  lemma SplitAtEnd(separator: char, before: string)
    ensures Split(separator, before + [separator]) == Split(separator, before) + [""]
  {
    SplitPrefix(separator, before, [separator], |before|);
  }

  lemma SplitWhole(separator: char, part: string)
    requires separator !in part
    ensures Split(separator, part) == [part]
  {
    SplitPart(separator, "", part, |part|);
    assert "" + part == part && part[..|part|] == part;
  }

  lemma {:induction false} SplitJoinFirst(separator: char, parts: seq<string>, n: nat)
    requires 0 < n <= |parts| && forall i :: 0 <= i < n ==> separator !in parts[i]
    ensures Split(separator, StringSpec.JoinFirst(separator, parts, n)) == parts[..n]
  {
    hide Split;
    if n == 1 {
      SplitWhole(separator, parts[0]);
      assert parts[..1] == [parts[0]];
    } else {
      SplitJoinFirst(separator, parts, n - 1);
      SplitAdds(separator, StringSpec.JoinFirst(separator, parts, n - 1), parts[n - 1]);
      assert parts[..n] == parts[..n - 1] + [parts[n - 1]];
    }
  }

  /** Cutting a joined path at its separators gives its parts back. */
  lemma SplitJoin(separator: char, parts: seq<string>)
    requires parts != [] && forall i :: 0 <= i < |parts| ==> separator !in parts[i]
    ensures Split(separator, StringSpec.Join(separator, parts)) == parts
  {
    SplitJoinFirst(separator, parts, |parts|);
    assert parts[..|parts|] == parts;
  }
}
