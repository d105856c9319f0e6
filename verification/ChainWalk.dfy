/** The invariant that walking a chain of part records keeps, in either back end. */
module ChainWalk {
  import opened Wrappers
  import opened Bytes
  import opened Orbits
  import opened StringSpec

  /**
   * A walk along the chain at o that is about to visit next. trail lists the records met so far;
   * parts holds their strings, and from start on those of the chain that begins at tail.
   */
  datatype Walk = Walk(o: nat, tail: nat, start: nat, parts: seq<string>, trail: seq<nat>, next: nat) {
    ghost predicate PartsOk(img: Image) {
      && start <= |parts|
      && Chain(img, o) == Prepend(parts, Rest(img, next))
      && Chain(img, tail) == Prepend(parts[start..], Rest(img, next))
    }

    ghost predicate TrailOk(img: Image) {
      && (forall i :: 0 <= i < |trail| ==> Iterate(Link(img), o, i) == Some(trail[i]))
      && (next != NULL ==> Iterate(Link(img), o, |trail|) == Some(next))
    }

    ghost predicate Ok(img: Image) {
      PartsOk(img) && TrailOk(img)
    }
  }

  lemma TrailContinues(img: Image, w: Walk, parts: seq<string>, next: nat)
    requires w.TrailOk(img) && w.next != NULL && w.next + 8 <= |img.data| && next == U32(img.data, w.next + 4)
    ensures w.(parts := parts, trail := w.trail + [w.next], next := next).TrailOk(img)
  {
    if next != NULL {
      assert Iterate(Link(img), next, 0) == Some(next);
      assert Iterate(Link(img), w.next, 1) == Some(next);
      IterateAdd(Link(img), w.o, |w.trail|, 1);
    }
  }

  lemma PrependTwice(a: seq<string>, b: seq<string>, rest: Result<seq<string>>)
    ensures Prepend(a, Prepend(b, rest)) == Prepend(a + b, rest)
  {
    if rest.Ok? {
      assert a + (b + rest.value) == a + b + rest.value;
    }
  }

  lemma PartsContinue(img: Image, w: Walk, part: Option<string>, trail: seq<nat>, next: nat)
    requires w.PartsOk(img) && w.next != NULL
    requires Chain(img, w.next) == Prepend(Listed(part), Rest(img, next))
    ensures w.(parts := w.parts + Listed(part), trail := trail, next := next).PartsOk(img)
  {
    PrependTwice(w.parts, Listed(part), Rest(img, next));
    PrependTwice(w.parts[w.start..], Listed(part), Rest(img, next));
    assert (w.parts + Listed(part))[w.start..] == w.parts[w.start..] + Listed(part);
  }

  lemma WalkStarts(img: Image, o: nat, part: Option<string>)
    requires o + 8 <= |img.data| && Part(img, U32(img.data, o)) == Result.Ok(part) && U32(img.data, o + 4) != NULL
    ensures var next := U32(img.data, o + 4); Walk(o, next, |Listed(part)|, Listed(part), [o], next).Ok(img)
  {
    ChainUnfold(img, o);
    var next := U32(img.data, o + 4);
    assert Iterate(Link(img), next, 0) == Some(next);
    assert Iterate(Link(img), o, 1) == Some(next);
    assert Listed(part)[|Listed(part)|..] == [];
    if Rest(img, next).Ok? {
      assert [] + Rest(img, next).value == Rest(img, next).value;
    }
  }

  lemma WalkContinues(img: Image, w: Walk, part: Option<string>)
    requires w.Ok(img) && w.next != NULL && w.next + 8 <= |img.data|
    requires Part(img, U32(img.data, w.next)) == Result.Ok(part)
    ensures w.(parts := w.parts + Listed(part), trail := w.trail + [w.next], next := U32(img.data, w.next + 4)).Ok(img)
  {
    var next := U32(img.data, w.next + 4);
    ChainUnfold(img, w.next);
    TrailContinues(img, w, w.parts + Listed(part), next);
    PartsContinue(img, w, part, w.trail + [w.next], next);
  }

  lemma WalkFinishes(img: Image, w: Walk, more: seq<string>)
    requires w.Ok(img) && Rest(img, w.next) == Result.Ok(more)
    ensures Chain(img, w.o) == Result.Ok(w.parts + more)
    ensures Chain(img, w.tail) == Result.Ok((w.parts + more)[w.start..])
  {
    assert (w.parts + more)[w.start..] == w.parts[w.start..] + more;
  }

  lemma WalkBreaks(img: Image, w: Walk)
    requires w.Ok(img) && w.next != NULL && Chain(img, w.next).Fail?
    ensures Chain(img, w.o).Fail?
  {
  }

  lemma WalkRevisits(img: Image, w: Walk)
    requires w.Ok(img) && w.next != NULL && w.next in w.trail
    ensures Chain(img, w.o).Fail?
  {
    var i :| 0 <= i < |w.trail| && w.trail[i] == w.next;
    RevisitedChainFails(img, w.o, i, |w.trail|);
  }

  /** A walk that has visited nothing yet. */
  lemma WalkIsNew(img: Image, o: nat)
    requires o != NULL
    ensures Walk(o, o, 0, [], [], o).Ok(img)
  {
    assert Iterate(Link(img), o, 0) == Some(o);
    if Chain(img, o).Ok? {
      assert [] + Chain(img, o).value == Chain(img, o).value;
    }
  }
}
