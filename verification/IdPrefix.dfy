/** Expanding the numbered prefixes of internal IDs, in Python and by the digit fast path. */
module IdPrefix {
  import opened Wrappers

  function HashFrom(text: string, i: nat): (r: nat)
    requires i <= |text|
    ensures i <= r <= |text|
    ensures r < |text| ==> text[r] == '#'
    ensures forall j :: i <= j < r ==> text[j] != '#'
    decreases |text| - i
  {
    if i == |text| || text[i] == '#' then i else HashFrom(text, i + 1)
  }

  predicate AllDigits(s: string) {
    forall i :: 0 <= i < |s| ==> '0' <= s[i] <= '9'
  }

  function DecimalFirst(s: string, n: nat): nat
    requires n <= |s| && AllDigits(s)
  {
    if n == 0 then 0 else 10 * DecimalFirst(s, n - 1) + (s[n - 1] as int - '0' as int)
  }

  function Decimal(s: string): nat
    requires AllDigits(s)
  {
    DecimalFirst(s, |s|)
  }

  /**
   * int() on a string. A run of ASCII digits within the interpreter's limit is read as a decimal
   * number; signs, spaces, underscores and other digits are the business of the given function.
   */
  function PythonInt(other: string -> Option<int>, s: string): Option<int> {
    if s != "" && AllDigits(s) && |s| <= 4300 then Some(Decimal(s)) else other(s)
  }

  function PythonExpand(other: string -> Option<int>, id: string, prefixes: seq<string>): string {
    var split := HashFrom(id, 0);
    if split == |id| then id else
    match PythonInt(other, id[..split])
    case None => id
    case Some(index) => if 0 <= index < |prefixes| then prefixes[index] + id[split + 1..] else id
  }

  /** parse::<usize>() on ASCII digits: fails only past 64 bits. */
  function ParseUsize(s: string): Option<nat>
    requires AllDigits(s)
  {
    if Decimal(s) < 0x1_0000_0000_0000_0000 then Some(Decimal(s)) else None
  }

  function NativeExpand(other: string -> Option<int>, id: string, prefixes: seq<string>): string {
    var split := HashFrom(id, 0);
    if split == |id| then id else
    var index := id[..split];
    if index != "" && |index| <= 19 && AllDigits(index) then
      match ParseUsize(index)
      case None => PythonExpand(other, id, prefixes)
      case Some(n) => if n >= |prefixes| then id else prefixes[n] + id[split + 1..]
    else PythonExpand(other, id, prefixes)
  }

  function Pow10(n: nat): nat {
    if n == 0 then 1 else 10 * Pow10(n - 1)
  }

  lemma {:induction false} DecimalBound(s: string, n: nat)
    requires n <= |s| && AllDigits(s)
    ensures DecimalFirst(s, n) < Pow10(n)
  {
    if n > 0 {
      DecimalBound(s, n - 1);
    }
  }

  lemma {:induction false} PowMonotone(m: nat, n: nat)
    requires m <= n
    ensures Pow10(m) <= Pow10(n)
    decreases n
  {
    if m < n {
      PowMonotone(m, n - 1);
    }
  }

  lemma FivePowers(n: nat)
    ensures Pow10(n + 5) == 100_000 * Pow10(n)
  {
    assert Pow10(n + 2) == 100 * Pow10(n);
    assert Pow10(n + 4) == 100 * Pow10(n + 2);
  }

  /** At most 19 digits never overflow 64 bits, so the fast path always gets their decimal value. */
  lemma NineteenDigitsFit(s: string)
    requires AllDigits(s) && |s| <= 19
    ensures ParseUsize(s) == Some(Decimal(s))
  {
    DecimalBound(s, |s|);
    PowMonotone(|s|, 19);
    FivePowers(0);
    FivePowers(5);
    FivePowers(10);
    FivePowers(15);
    assert Pow10(20) == 10 * Pow10(19);
  }

  /** Both back ends make the same bounds decision and splice on every ID. */
  lemma ExpansionsAgree(other: string -> Option<int>, id: string, prefixes: seq<string>)
    ensures NativeExpand(other, id, prefixes) == PythonExpand(other, id, prefixes)
  {
    var split := HashFrom(id, 0);
    if split < |id| && AllDigits(id[..split]) && |id[..split]| <= 19 {
      NineteenDigitsFit(id[..split]);
    }
  }

  /** A numbered prefix is replaced by the prefix at its number, with the rest behind the hash sign kept. */
  lemma NumberedPrefix(other: string -> Option<int>, digits: string, rest: string, prefixes: seq<string>)
    requires digits != "" && AllDigits(digits) && |digits| <= 4300
    ensures var id := digits + "#" + rest;
            PythonExpand(other, id, prefixes) ==
            if Decimal(digits) < |prefixes| then prefixes[Decimal(digits)] + rest else id
  {
    var id := digits + "#" + rest;
    var split := HashFrom(id, 0);
    assert id[|digits|] == '#';
    assert split == |digits| && id[..split] == digits && id[split + 1..] == rest;
  }

  /**
   * An ID with no hash sign stays as it is. What stands before the first, if it is no run of digits or
   * one past the limit, is read by the given function, and counts only within the prefixes.
   */
  lemma OtherIds(other: string -> Option<int>, before: string, rest: string, prefixes: seq<string>)
    requires '#' !in before
    ensures PythonExpand(other, before, prefixes) == before
    ensures before == "" || !AllDigits(before) || |before| > 4300 ==>
              var id := before + "#" + rest;
              PythonExpand(other, id, prefixes) ==
              if other(before).Some? && 0 <= other(before).value < |prefixes|
              then prefixes[other(before).value] + rest else id
  {
    var id := before + "#" + rest;
    assert HashFrom(before, 0) == |before|;
    assert id[|before|] == '#' && HashFrom(id, 0) == |before| && id[..|before|] == before;
    assert id[|before| + 1..] == rest;
  }
}
