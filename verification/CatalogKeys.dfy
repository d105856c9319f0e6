/** The keys of a written catalog are all different. */
module CatalogKeys {
  import opened StringSpec
  import opened RecordSpec
  import opened MakeCatalog

  /** The joined path of an asset: wire order in version 1, folders first in later versions. */
  function PathOf(labels: Labels, version: nat, i: nat): string {
    Join('/', if version <= 1 then [AssetName(labels, i)] + Reverse(labels.folders)
              else labels.folders + [AssetName(labels, i)])
  }

  lemma AffixesCancel(before: string, a: string, b: string, after: string)
    requires before + a + after == before + b + after
    ensures a == b
  {
    var x, y := before + a + after, before + b + after;
    assert |a| == |b|;
    assert a == x[|before|..|before| + |a|] == y[|before|..|before| + |b|] == b;
  }

  lemma LastCancels(a: string, b: string, c: char, d: char)
    requires a + [c] == b + [d]
    ensures a == b && c == d
  {
    var x, y := a + [c], b + [d];
    assert x[|a|] == c && y[|b|] == d;
    assert "" + a == a && "" + b == b;
    AffixesCancel("", a, b, [c]);
  }

  lemma {:induction false} DecimalInjective(a: nat, b: nat)
    requires DecimalText(a) == DecimalText(b)
    ensures a == b
  {
    if a >= 10 && b >= 10 {
      LastCancels(DecimalText(a / 10), DecimalText(b / 10), HexDigit(a % 10), HexDigit(b % 10));
      DecimalInjective(a / 10, b / 10);
    }
  }

  /** n has at most the given number of hexadecimal digits. */
  predicate FitsHex(n: nat, width: nat) {
    n == 0 || (width > 0 && FitsHex(n / 16, width - 1))
  }

  lemma {:induction false} HexInjective(a: nat, b: nat, width: nat)
    requires FitsHex(a, width) && FitsHex(b, width) && HexText(a, width) == HexText(b, width)
    ensures a == b
  {
    if width > 0 {
      LastCancels(HexText(a / 16, width - 1), HexText(b / 16, width - 1), HexDigit(a % 16), HexDigit(b % 16));
      HexInjective(a / 16, b / 16, width - 1);
    }
  }

  lemma IndexFits(i: nat)
    requires i < 0x4000_0000
    ensures FitsHex(i, 32)
  {
    var a := i / 0x1_0000;
    assert a < 0x4000 && FitsHex(a / 16 / 16 / 16 / 16, 24);
    assert FitsHex(a / 16 / 16, 26);
    assert FitsHex(a, 28);
    assert i / 16 / 16 / 16 / 16 == a;
    assert FitsHex(i / 16 / 16, 30);
  }

  lemma {:induction false} JoinAgrees(separator: char, a: seq<string>, b: seq<string>, n: nat)
    requires n <= |a| && n <= |b| && a[..n] == b[..n]
    ensures JoinFirst(separator, a, n) == JoinFirst(separator, b, n)
  {
    if n > 0 {
      assert a[n - 1] == a[..n][n - 1] == b[..n][n - 1] == b[n - 1];
      assert a[..n - 1] == a[..n][..n - 1] == b[..n][..n - 1] == b[..n - 1];
      JoinAgrees(separator, a, b, n - 1);
    }
  }

  function Following(separator: char, parts: seq<string>, n: nat): string
    requires n <= |parts|
  {
    if n == 0 then "" else [separator] + JoinFirst(separator, parts, n)
  }

  /** A joined path starts with its first part, and what follows does not depend on it. */
  lemma {:induction false} JoinHead(separator: char, first: string, rest: seq<string>, n: nat)
    requires n <= |rest|
    ensures JoinFirst(separator, [first] + rest, n + 1) == first + Following(separator, rest, n)
  {
    if n == 1 {
      assert JoinFirst(separator, [first] + rest, 1) == first;
      Regroup(first, [separator], "", rest[0]);
    } else if n > 1 {
      JoinHead(separator, first, rest, n - 1);
      Regroup(first, [separator] + JoinFirst(separator, rest, n - 1), [separator], rest[n - 1]);
      Regroup([separator], JoinFirst(separator, rest, n - 1), [separator], rest[n - 1]);
    } else {
      assert first + "" == first;
    }
  }

  lemma Regroup(a: string, b: string, c: string, d: string)
    ensures a + b + c + d == a + (b + c + d) && a + (b + c) == a + b + c && b + "" + d == b + d
  {
  }

  /** Names in one folder give different paths. */
  lemma PathInjective(labels: Labels, version: nat, i: nat, j: nat)
    requires PathOf(labels, version, i) == PathOf(labels, version, j)
    ensures i == j
  {
    var a, b, folders := AssetName(labels, i), AssetName(labels, j), labels.folders;
    var n := |folders|;
    if version <= 1 {
      JoinHead('/', a, Reverse(folders), n);
      JoinHead('/', b, Reverse(folders), n);
      assert "" + a == a && "" + b == b;
      AffixesCancel("", a, b, Following('/', Reverse(folders), n));
    } else if n == 0 {
      assert folders + [a] == [a] && folders + [b] == [b];
    } else {
      JoinAgrees('/', folders + [a], folders + [b], n);
      AffixesCancel(JoinFirst('/', folders + [a], n) + ['/'], a, b, "");
    }
    assert a == b;
    AffixesCancel(labels.namePrefix, DecimalText(i), DecimalText(j), labels.nameSuffix);
    DecimalInjective(i, j);
  }

  lemma GuidInjective(labels: Labels, i: nat, j: nat)
    requires i < 0x4000_0000 && j < 0x4000_0000 && GuidText(labels, i) == GuidText(labels, j)
    ensures i == j
  {
    hide HexText, FitsHex;
    AffixesCancel(labels.guidPrefix, HexText(i, 32), HexText(j, 32), "");
    IndexFits(i);
    IndexFits(j);
    HexInjective(i, j, 32);
  }

  /** No path starts like a guid key. */
  predicate KeysApart(labels: Labels) {
    && labels.guidPrefix != "" && labels.namePrefix != "" && labels.namePrefix[0] != labels.guidPrefix[0]
    && (labels.folders != [] ==> labels.folders[0] != "" && labels.folders[0][0] != labels.guidPrefix[0])
  }

  lemma PathIsNoGuid(labels: Labels, version: nat, i: nat, j: nat)
    requires KeysApart(labels)
    ensures PathOf(labels, version, i) != GuidText(labels, j)
  {
    hide HexText, DecimalText;
    var a, folders := AssetName(labels, i), labels.folders;
    var n := |folders|;
    if version <= 1 {
      JoinHead('/', a, Reverse(folders), n);
    } else if n == 0 {
      assert folders + [a] == [a];
    } else {
      assert folders + [a] == [folders[0]] + (folders[1..] + [a]);
      JoinHead('/', folders[0], folders[1..] + [a], n);
      assert PathOf(labels, version, i) == folders[0] + Following('/', folders[1..] + [a], n);
    }
    assert GuidText(labels, j)[0] == labels.guidPrefix[0];
  }

  lemma PathTextIsPath(img: Image, labels: Labels, i: nat)
    ensures Assemble(img, '/' as int, [AssetName(labels, i)] + Reverse(labels.folders)) == PathOf(labels,
                                                                                                  img.version, i)
  {
    var wire := [AssetName(labels, i)] + Reverse(labels.folders);
    assert Reverse(wire) == labels.folders + [AssetName(labels, i)];
  }
}
