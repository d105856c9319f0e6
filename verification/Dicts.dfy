/** Insertion-ordered dictionaries. */
module Dicts {
  import opened Wrappers

  /** A key as it was first given, the one value that stands for all keys equal to it, and what it is bound to. */
  datatype Slot<+K, +V> = Slot(key: K, norm: K, value: V)

  type Dict<+K, +V> = seq<Slot<K, V>>

  function FindFrom<K(==), V>(d: Dict<K, V>, norm: K, i: nat): (r: nat)
    requires i <= |d|
    ensures i <= r <= |d|
    ensures r < |d| ==> d[r].norm == norm
    ensures forall j :: i <= j < r ==> d[j].norm != norm
    decreases |d| - i
  {
    if i == |d| || d[i].norm == norm then i else FindFrom(d, norm, i + 1)
  }

  /** Assignment keeps the first key object and its position, and replaces the value. */
  function Assign<K(==), V>(d: Dict<K, V>, s: Slot<K, V>): Dict<K, V> {
    var i := FindFrom(d, s.norm, 0);
    if i < |d| then d[i := d[i].(value := s.value)] else d + [s]
  }

  function Lookup<K(==), V>(d: Dict<K, V>, norm: K): Option<V> {
    var i := FindFrom(d, norm, 0);
    if i < |d| then Some(d[i].value) else None
  }

  predicate DistinctKeys<K(==), V>(d: Dict<K, V>) {
    forall i, j :: 0 <= i < j < |d| ==> d[i].norm != d[j].norm
  }

  lemma AssignThenLookup<K, V>(d: Dict<K, V>, s: Slot<K, V>, q: K)
    requires DistinctKeys(d)
    ensures DistinctKeys(Assign(d, s))
    ensures Lookup(Assign(d, s), q) == if q == s.norm then Some(s.value) else Lookup(d, q)
  {
    var e := Assign(d, s);
    var i, j, k := FindFrom(d, s.norm, 0), FindFrom(e, q, 0), FindFrom(d, q, 0);
    if q == s.norm {
      assert e[i].norm == q;
      assert j == i;
    } else if k < |d| {
      assert e[k] == d[k];
      assert j == k;
    } else {
      assert j == |e|;
    }
  }

  /** The dictionary built by assigning each entry in turn. */
  function Collect<K(==), V>(entries: seq<Slot<K, V>>): Dict<K, V> {
    if entries == [] then [] else
    var n := |entries| - 1;
    Assign(Collect(entries[..n]), entries[n])
  }

  lemma {:induction false} CollectDistinct<K, V>(entries: seq<Slot<K, V>>)
    ensures DistinctKeys(Collect(entries))
  {
    if entries != [] {
      var n := |entries| - 1;
      CollectDistinct(entries[..n]);
      AssignThenLookup(Collect(entries[..n]), entries[n], entries[n].norm);
    }
  }

  /** A key is bound to the value of the last entry that carries an equal key. */
  lemma {:induction false} LastEntryWins<K, V>(entries: seq<Slot<K, V>>, m: nat)
    requires m < |entries| && forall k :: m < k < |entries| ==> entries[k].norm != entries[m].norm
    ensures Lookup(Collect(entries), entries[m].norm) == Some(entries[m].value)
    decreases |entries|
  {
    var n := |entries| - 1;
    CollectDistinct(entries[..n]);
    AssignThenLookup(Collect(entries[..n]), entries[n], entries[m].norm);
    if m < n {
      LastEntryWins(entries[..n], m);
    }
  }

  /** A key that no entry carries is not bound. */
  lemma {:induction false} NoEntryNoBinding<K, V>(entries: seq<Slot<K, V>>, q: K)
    requires forall k :: 0 <= k < |entries| ==> entries[k].norm != q
    ensures Lookup(Collect(entries), q) == None
    decreases |entries|
  {
    if entries != [] {
      var n := |entries| - 1;
      CollectDistinct(entries[..n]);
      AssignThenLookup(Collect(entries[..n]), entries[n], q);
      NoEntryNoBinding(entries[..n], q);
    }
  }

  /** Entries with different keys are all kept, in order. */
  lemma {:induction false} CollectDistinctEntries<K, V>(entries: seq<Slot<K, V>>)
    requires DistinctKeys(entries)
    ensures Collect(entries) == entries
    decreases |entries|
  {
    if entries != [] {
      var n := |entries| - 1;
      CollectDistinctEntries(entries[..n]);
      assert FindFrom(entries[..n], entries[n].norm, 0) == n;
      assert entries == entries[..n] + [entries[n]];
    }
  }

  /** The key of every entry is in the dictionary. */
  lemma {:induction false} KeysStay<K, V>(entries: seq<Slot<K, V>>, m: nat)
    requires m < |entries|
    ensures exists i :: 0 <= i < |Collect(entries)| && Collect(entries)[i].norm == entries[m].norm
    decreases |entries|
  {
    var n := |entries| - 1;
    var before := Collect(entries[..n]);
    var at := FindFrom(before, entries[n].norm, 0);
    if m == n {
      assert Collect(entries)[at].norm == entries[n].norm;
    } else {
      KeysStay(entries[..n], m);
      var i :| 0 <= i < |before| && before[i].norm == entries[m].norm;
      assert Collect(entries)[i].norm == entries[m].norm;
    }
  }

  /** Dictionaries with the same keys find a key at the same position. */
  lemma {:induction false} FindTogether<K, V, W>(a: Dict<K, V>, b: Dict<K, W>, norm: K, i: nat)
    requires |a| == |b| && i <= |a| && forall j :: 0 <= j < |a| ==> a[j].norm == b[j].norm
    ensures FindFrom(a, norm, i) == FindFrom(b, norm, i)
    decreases |a| - i
  {
    if i < |a| {
      FindTogether(a, b, norm, i + 1);
    }
  }
}
