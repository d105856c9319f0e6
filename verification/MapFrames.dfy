/** What decoding the resource map by recursion needs of the stack. */
module MapFrames {
  import opened Wrappers
  import opened Bytes
  import opened StringSpec
  import opened RecordSpec
  import opened Graph
  import opened Objects
  import opened Dicts
  import opened ResourceMap
  import opened Frames

  /** One pair of the index can be read with the frames that are left. */
  ghost predicate PairFits(img: Image, keyOffset: nat, list: nat, seen: iset<nat>, stack: nat) {
    && ObjectAt(img, keyOffset).Ok?
    && Hashable(Made(ObjectAt(img, keyOffset).value.0))
    && ArrayAt(img, list).Ok?
    && Fits(Records(img), ArrayAt(img, list).value, |ArrayAt(img, list).value|, seen, stack)
  }

  /** All location offsets that the entries list, in order. */
  function AllListed(entries: Index): seq<nat> {
    if entries == [] then [] else AllListed(entries[..|entries| - 1]) + entries[|entries| - 1].value
  }

  /** The index can be read, and its locations decode one after another with the given number of frames. */
  ghost predicate MapFits(img: Image, keysOffset: nat, seen: iset<nat>, stack: nat) {
    && Entries(img, keysOffset).Ok?
    && var offsets := AllListed(Entries(img, keysOffset).value);
       Fits(Records(img), offsets, |offsets|, seen, stack)
  }

  lemma ListedNone()
    ensures AllListed([]) == []
  {
  }

  lemma NoPairsFit(img: Image, keysOffset: nat, seen: iset<nat>, stack: nat)
    ensures PairsAt(img, keysOffset).Fail? ==> !MapFits(img, keysOffset, seen, stack)
  {
  }

  lemma ListedNext(entries: Index, e: Slot<Data, seq<nat>>)
    ensures AllListed(entries + [e]) == AllListed(entries) + e.value
  {
    assert (entries + [e])[..|entries|] == entries;
  }

  lemma {:induction false} ListedPrefix(entries: Index, k: nat)
    requires k <= |entries|
    ensures AllListed(entries[..k]) <= AllListed(entries)
    decreases |entries|
  {
    if k < |entries| {
      ListedPrefix(entries[..|entries| - 1], k);
      assert entries[..|entries| - 1][..k] == entries[..k];
    } else {
      assert entries[..k] == entries;
    }
  }

  /** If the whole map fits, so does what its first pairs list. */
  lemma FirstPairsFit(img: Image, keysOffset: nat, k: nat, seen: iset<nat>, stack: nat)
    requires MapFits(img, keysOffset, seen, stack) && k <= |Entries(img, keysOffset).value|
    ensures var listed := AllListed(Entries(img, keysOffset).value[..k]);
            Fits(Records(img), listed, |listed|, seen, stack)
  {
    hide Fits, Records, Entries;
    var entries := Entries(img, keysOffset).value;
    var all, listed := AllListed(entries), AllListed(entries[..k]);
    ListedPrefix(entries, k);
    FitsPrefix(Records(img), all, |listed|, |all|, seen, stack);
    SameFirst(Records(img), listed, all, |listed|, seen, stack);
  }

  /** After some pairs were read, the next one fits if and only if what they list together does. */
  lemma PairFitsNext(img: Image, pairs: seq<nat>, raw: Index, seen: iset<nat>, stack: nat)
    requires 2 * |raw| + 1 < |pairs| && EntriesOf(img, pairs, |raw|) == Ok(raw)
    requires Fits(Records(img), AllListed(raw), |AllListed(raw)|, seen, stack)
    ensures var after := SeenAfter(Records(img), AllListed(raw), |AllListed(raw)|, seen);
            PairFits(img, pairs[2 * |raw|], pairs[2 * |raw| + 1], after, stack) <==>
            && EntriesOf(img, pairs, |raw| + 1).Ok?
            && var listed := AllListed(EntriesOf(img, pairs, |raw| + 1).value);
               Fits(Records(img), listed, |listed|, seen, stack)
  {
    hide ObjectAt, ArrayAt, Fits, Records, SeenAfter;
    if EntriesOf(img, pairs, |raw| + 1).Ok? {
      var offsets := ArrayAt(img, pairs[2 * |raw| + 1]).value;
      ListedNext(raw, EntriesOf(img, pairs, |raw| + 1).value[|raw|]);
      FitsBoth(Records(img), AllListed(raw), offsets, |offsets|, seen, stack);
    }
  }

  /** Reading one more pair takes the listed records further. */
  lemma PairFitted(img: Image, pairs: seq<nat>, raw: Index, seen: iset<nat>, stack: nat)
    requires 2 * |raw| + 1 < |pairs| && EntriesOf(img, pairs, |raw|) == Ok(raw)
    requires Fits(Records(img), AllListed(raw), |AllListed(raw)|, seen, stack)
    requires PairFits(img, pairs[2 * |raw|], pairs[2 * |raw| + 1],
                      SeenAfter(Records(img), AllListed(raw), |AllListed(raw)|, seen), stack)
    ensures var offsets := ArrayAt(img, pairs[2 * |raw| + 1]).value;
            var more := raw + [KeySlot(Made(ObjectAt(img, pairs[2 * |raw|]).value.0), offsets)];
            && EntriesOf(img, pairs, |more|) == Ok(more)
            && Fits(Records(img), AllListed(more), |AllListed(more)|, seen, stack)
            && SeenAfter(Records(img), AllListed(more), |AllListed(more)|, seen) ==
               SeenAfter(Records(img), offsets, |offsets|,
                         SeenAfter(Records(img), AllListed(raw), |AllListed(raw)|, seen))
  {
    hide ObjectAt, ArrayAt, Fits, Records, SeenAfter;
    var offsets := ArrayAt(img, pairs[2 * |raw| + 1]).value;
    ListedNext(raw, KeySlot(Made(ObjectAt(img, pairs[2 * |raw|]).value.0), offsets));
    FitsBoth(Records(img), AllListed(raw), offsets, |offsets|, seen, stack);
  }

  lemma MapFitsNext(img: Image, keysOffset: nat, raw: Index, seen: iset<nat>, stack: nat)
    requires PairsAt(img, keysOffset).Ok? && 2 * |raw| + 1 < |PairsAt(img, keysOffset).value|
    requires EntriesOf(img, PairsAt(img, keysOffset).value, |raw|) == Ok(raw)
    requires Fits(Records(img), AllListed(raw), |AllListed(raw)|, seen, stack)
    requires MapFits(img, keysOffset, seen, stack)
    ensures var pairs := PairsAt(img, keysOffset).value;
            var after := SeenAfter(Records(img), AllListed(raw), |AllListed(raw)|, seen);
            PairFits(img, pairs[2 * |raw|], pairs[2 * |raw| + 1], after, stack)
  {
    hide ObjectAt, ArrayAt, PairsAt, EntriesOf, PairFits, Fits, Records, SeenAfter;
    var pairs := PairsAt(img, keysOffset).value;
    EntriesPrefix(img, pairs, |raw| + 1, |pairs| / 2);
    FirstPairsFit(img, keysOffset, |raw| + 1, seen, stack);
    PairFitsNext(img, pairs, raw, seen, stack);
  }

  lemma MapFitsAll(img: Image, keysOffset: nat, raw: Index, seen: iset<nat>, stack: nat)
    requires PairsAt(img, keysOffset).Ok? && 2 * |raw| == |PairsAt(img, keysOffset).value|
    requires EntriesOf(img, PairsAt(img, keysOffset).value, |raw|) == Ok(raw)
    requires Fits(Records(img), AllListed(raw), |AllListed(raw)|, seen, stack)
    ensures Entries(img, keysOffset) == Ok(raw) && MapFits(img, keysOffset, seen, stack)
  {
    hide PairsAt, EntriesOf, Fits;
  }

  lemma {:induction false} ListedIs(entries: Index, o: nat)
    ensures o in AllListed(entries) <==> exists e :: e in entries && o in e.value
    decreases |entries|
  {
    if entries != [] {
      var n := |entries| - 1;
      ListedIs(entries[..n], o);
      assert entries == entries[..n] + [entries[n]];
    }
  }

  lemma ListedDecode(img: Image, entries: Index)
    ensures (forall e | e in entries :: forall o | o in e.value :: Decodes(Records(img), o)) <==>
            forall i :: 0 <= i < |AllListed(entries)| ==> Decodes(Records(img), AllListed(entries)[i])
  {
    hide Decodes, Records, AllListed;
    forall o: nat
      ensures o in AllListed(entries) <==> exists e :: e in entries && o in e.value
    {
      ListedIs(entries, o);
    }
    if forall i :: 0 <= i < |AllListed(entries)| ==> Decodes(Records(img), AllListed(entries)[i]) {
      forall e | e in entries
        ensures forall o | o in e.value :: Decodes(Records(img), o)
      {
        forall o | o in e.value
          ensures Decodes(Records(img), o)
        {
          assert o in AllListed(entries);
        }
      }
    }
    if forall e | e in entries :: forall o | o in e.value :: Decodes(Records(img), o) {
      forall i | 0 <= i < |AllListed(entries)|
        ensures Decodes(Records(img), AllListed(entries)[i])
      {
        var o := AllListed(entries)[i];
        assert o in AllListed(entries);
        var e :| e in entries && o in e.value;
      }
    }
  }

  /** The frames that decoding the whole map takes. */
  ghost function FramesNeeded(img: Image, keysOffset: nat, seen: iset<nat>): nat
    requires Parses(img, keysOffset)
  {
    var entries := Entries(img, keysOffset).value;
    assert forall i :: 0 <= i < |AllListed(entries)| ==> Decodes(Records(img), AllListed(entries)[i]) by {
      ListedDecode(img, entries);
    }
    FramesForAll(Records(img), AllListed(entries), |AllListed(entries)|, seen)
  }

  /** The map fits if and only if it parses and takes no more frames than there are. */
  lemma MapFitsExactly(img: Image, keysOffset: nat, seen: iset<nat>, stack: nat)
    ensures MapFits(img, keysOffset, seen, stack) <==>
            Parses(img, keysOffset) && FramesNeeded(img, keysOffset, seen) <= stack
  {
    hide Decodes, Records, FramesForAll, Entries;
    if Entries(img, keysOffset).Ok? {
      ListedDecode(img, Entries(img, keysOffset).value);
    }
  }

  /** A stack as deep as the dependency graphs of the listed records is enough. */
  lemma DeepStackIsEnough(img: Image, keysOffset: nat, seen: iset<nat>, stack: nat)
    requires ParsesWithin(img, keysOffset, stack)
    ensures Parses(img, keysOffset) && FramesNeeded(img, keysOffset, seen) <= stack
  {
    hide Records, Entries, Decodable;
    var entries := Entries(img, keysOffset).value;
    var all := AllListed(entries);
    forall e | e in entries
      ensures forall o | o in e.value :: Decodes(Records(img), o)
    {
      forall o | o in e.value
        ensures Decodes(Records(img), o)
      {
        assert Decodable(Records(img), o, stack);
      }
    }
    ListedWithin(img, entries, stack);
    FramesForAllIs(Records(img), all, |all|, stack, seen);
    WidestWithinDepth(Records(img), all, |all|, stack, seen);
  }

  lemma {:induction false} ListedWithin(img: Image, entries: Index, n: nat)
    requires forall e | e in entries :: forall o | o in e.value :: Decodable(Records(img), o, n)
    ensures forall i :: 0 <= i < |AllListed(entries)| ==> Decodable(Records(img), AllListed(entries)[i], n)
    decreases |entries|
  {
    hide Decodable, Records;
    if entries != [] {
      ListedWithin(img, entries[..|entries| - 1], n);
    }
  }

  /** A map whose first listed record and its dependency are both new takes at least two frames. */
  lemma NewDependencyNeedsTwo(img: Image, keysOffset: nat, o: nat)
    requires Parses(img, keysOffset) && AllListed(Entries(img, keysOffset).value) != []
    requires AllListed(Entries(img, keysOffset).value)[0] == o
    requires DepsAt(img, o).Ok? && DepsAt(img, o).value != []
    ensures FramesNeeded(img, keysOffset, iset{}) >= 2
  {
    hide Entries, FieldsAt, DepsAt, Decodes, FramesFor;
    var all := AllListed(Entries(img, keysOffset).value);
    ListedDecode(img, Entries(img, keysOffset).value);
    var p := [o, DepsAt(img, o).value[0]];
    FirstChainNeedsFrames(Records(img), p, iset{});
    FirstOfAll(Records(img), all, |all|, iset{});
  }

  /** A map that lists any location takes at least one frame. */
  lemma ListedNeedsOne(img: Image, keysOffset: nat)
    requires Parses(img, keysOffset) && AllListed(Entries(img, keysOffset).value) != []
    ensures FramesNeeded(img, keysOffset, iset{}) >= 1
  {
    hide Entries, FieldsAt, DepsAt, Decodes, FramesFor;
    var all := AllListed(Entries(img, keysOffset).value);
    ListedDecode(img, Entries(img, keysOffset).value);
    FirstChainNeedsFrames(Records(img), [all[0]], iset{});
    FirstOfAll(Records(img), all, |all|, iset{});
  }
}
