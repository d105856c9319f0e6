/** Decoder registration, alias chains, and dispatch decisions cached by registry revision. */
module Registry {
  import opened Wrappers
  import opened Orbits
  import opened StringSpec

  /** What a registry holds: decoders by name, here as callback identities, and aliases. */
  datatype Table = Table(decoders: map<string, nat>, aliases: map<string, string>)

  function NextAlias(aliases: map<string, string>): string -> Option<string> {
    (name: string) => if name in aliases then Some(aliases[name]) else None
  }

  /** Following aliases from name for some number of steps leaves the alias table at end. */
  ghost predicate LeavesAt(aliases: map<string, string>, name: string, end: string) {
    end !in aliases && exists n: nat :: Iterate(NextAlias(aliases), name, n) == Some(end)
  }

  /** No number of alias steps leaves the alias table. */
  ghost predicate NeverLeaves(aliases: map<string, string>, name: string) {
    forall n: nat :: Iterate(NextAlias(aliases), name, n).Some?
  }

  ghost function Resolved(aliases: map<string, string>, name: string): Result<string> {
    if exists end :: LeavesAt(aliases, name, end) then
      var end :| LeavesAt(aliases, name, end);
      Ok(end)
    else Fail
  }

  lemma OneStepPastEnd(aliases: map<string, string>, name: string, n: nat)
    requires Iterate(NextAlias(aliases), name, n).Some?
    ensures Iterate(NextAlias(aliases), name, n + 1) ==
            NextAlias(aliases)(Iterate(NextAlias(aliases), name, n).value)
  {
    var next := NextAlias(aliases);
    var end := Iterate(next, name, n).value;
    IterateAdd(next, name, n, 1);
    if next(end).Some? {
      assert Iterate(next, next(end).value, 0) == next(end);
    }
  }

  /** An alias chain has at most one end, and it has one exactly when it leaves the table. */
  lemma ResolvedExactly(aliases: map<string, string>, name: string, end: string)
    ensures Resolved(aliases, name) == Ok(end) <==> LeavesAt(aliases, name, end)
    ensures Resolved(aliases, name) == Fail <==> NeverLeaves(aliases, name)
  {
    var next := NextAlias(aliases);
    forall a, b | LeavesAt(aliases, name, a) && LeavesAt(aliases, name, b)
      ensures a == b
    {
      var m: nat :| Iterate(next, name, m) == Some(a);
      var n: nat :| Iterate(next, name, n) == Some(b);
      OneStepPastEnd(aliases, name, m);
      OneStepPastEnd(aliases, name, n);
      EndIsUnique(next, name, m, n);
    }
    forall a | LeavesAt(aliases, name, a)
      ensures !NeverLeaves(aliases, name)
    {
      var m: nat :| Iterate(next, name, m) == Some(a);
      OneStepPastEnd(aliases, name, m);
      assert Iterate(next, name, m + 1).None?;
    }
    if Resolved(aliases, name) == Fail {
      StaysWhileUnresolved(aliases, name);
    }
  }

  lemma {:induction false} StaysWhileUnresolved(aliases: map<string, string>, name: string)
    requires forall end :: !LeavesAt(aliases, name, end)
    ensures NeverLeaves(aliases, name)
  {
    forall n: nat
      ensures Iterate(NextAlias(aliases), name, n).Some?
    {
      StaysFor(aliases, name, n);
    }
  }

  lemma {:induction false} StaysFor(aliases: map<string, string>, name: string, n: nat)
    requires forall end :: !LeavesAt(aliases, name, end)
    ensures Iterate(NextAlias(aliases), name, n).Some?
  {
    if n > 0 {
      StaysFor(aliases, name, n - 1);
      var at := Iterate(NextAlias(aliases), name, n - 1).value;
      assert !LeavesAt(aliases, name, at);
      OneStepPastEnd(aliases, name, n - 1);
    }
  }

  /** The dispatch decision for a type name, resolved afresh. */
  ghost function FreshKind(table: Table, builtin: string -> Kind, name: Result<string>): Result<Kind> {
    var given :- name;
    var resolved :- Resolved(table.aliases, given);
    Ok(if resolved in table.decoders then CustomKind else builtin(resolved))
  }

  class DecoderRegistry {
    var decoders: map<string, nat>
    var aliases: map<string, string>
    var revision: nat

    constructor ()
      ensures decoders == map[] && aliases == map[] && revision == 0
    {
      decoders, aliases, revision := map[], map[], 0;
    }

    ghost function Contents(): Table
      reads this
    {
      Table(decoders, aliases)
    }

    method Register(name: string, decoder: nat)
      modifies this
      ensures Contents() == old(Contents()).(decoders := old(decoders)[name := decoder])
      ensures revision == old(revision) + 1
    {
      decoders := decoders[name := decoder];
      revision := revision + 1;
    }

    method Alias(name: string, target: string)
      modifies this
      ensures Contents() == old(Contents()).(aliases := old(aliases)[name := target])
      ensures revision == old(revision) + 1
    {
      aliases := aliases[name := target];
      revision := revision + 1;
    }

    /** Always terminates; fails exactly on names whose alias chain never ends. */
    method Resolve(name: string) returns (r: Result<string>)
      ensures r == Resolved(aliases, name)
    {
      var resolved := name;
      var visited: set<string> := {};
      ghost var trail: seq<string> := [];
      ghost var next := NextAlias(aliases);
      while resolved in aliases
        invariant forall s :: s in visited <==> s in trail
        invariant forall i :: 0 <= i < |trail| ==> Iterate(next, name, i) == Some(trail[i])
        invariant Iterate(next, name, |trail|) == Some(resolved)
        decreases aliases.Keys - visited
      {
        if resolved in visited {
          ghost var i :| 0 <= i < |trail| && trail[i] == resolved;
          forall n: nat
            ensures Iterate(next, name, n).Some?
          {
            RevisitNeverEnds(next, name, i, |trail|, n);
          }
          ResolvedExactly(aliases, name, resolved);
          return Fail;
        }
        visited := visited + {resolved};
        OneStepPastEnd(aliases, name, |trail|);
        trail := trail + [resolved];
        resolved := aliases[resolved];
      }
      assert LeavesAt(aliases, name, resolved);
      ResolvedExactly(aliases, name, resolved);
      return Ok(resolved);
    }

    function Get(name: string): Option<nat>
      reads this
    {
      if name in decoders then Some(decoders[name]) else None
    }
  }

  /** One step of a parse that callbacks may interleave with registry changes. */
  datatype Event =
    | Registers(name: string, decoder: nat)
    | Aliases(name: string, target: string)
    | Reads(typeOffset: nat)

  function Step(table: Table, e: Event): Table {
    match e
    case Registers(name, decoder) => table.(decoders := table.decoders[name := decoder])
    case Aliases(name, target) => table.(aliases := table.aliases[name := target])
    case Reads(_) => table
  }

  function TableAfter(table: Table, events: seq<Event>, n: nat): Table
    requires n <= |events|
  {
    if n == 0 then table else Step(TableAfter(table, events, n - 1), events[n - 1])
  }

  /** The decisions that resolving afresh makes at each of the first n events' reads. */
  ghost function FreshAnswers(table: Table, builtin: string -> Kind, names: nat -> Result<string>,
                              events: seq<Event>, n: nat): seq<Result<Kind>>
    requires n <= |events|
  {
    if n == 0 then []
    else
      var before := FreshAnswers(table, builtin, names, events, n - 1);
      if events[n - 1].Reads?
      then before + [FreshKind(TableAfter(table, events, n - 1), builtin, names(events[n - 1].typeOffset))]
      else before
  }

  /** Dispatch decisions by type offset, kept for as long as the registry's revision stands still. */
  class Dispatcher {
    const registry: DecoderRegistry
    /** Kinds of built-in names, and the match name recorded at each type offset of the file. */
    const builtin: string -> Kind
    const names: nat -> Result<string>
    var kinds: map<nat, Kind>
    var revision: nat

    ghost predicate Valid()
      reads this, registry
    {
      && revision <= registry.revision
      && (revision == registry.revision ==>
            forall o | o in kinds :: FreshKind(registry.Contents(), builtin, names(o)) == Ok(kinds[o]))
    }

    constructor (registry: DecoderRegistry, builtin: string -> Kind, names: nat -> Result<string>)
      ensures Valid() && this.registry == registry && this.builtin == builtin && this.names == names
    {
      this.registry, this.builtin, this.names := registry, builtin, names;
      kinds, revision := map[], 0;
    }

    /** The cached decision is the one that resolving afresh would make at this moment. */
    method Dispatch(typeOffset: nat) returns (r: Result<Kind>)
      requires Valid()
      modifies this
      ensures Valid()
      ensures r == FreshKind(registry.Contents(), builtin, names(typeOffset))
    {
      if revision != registry.revision {
        kinds := map[];
        revision := registry.revision;
      }
      if typeOffset !in kinds {
        var name :- names(typeOffset);
        var resolved :- registry.Resolve(name);
        var custom := registry.Get(resolved).Some?;
        kinds := kinds[typeOffset := if custom then CustomKind else builtin(resolved)];
      }
      return Ok(kinds[typeOffset]);
    }

    /** Under every interleaving, the cached decisions are the fresh ones, read by read. */
    method Run(events: seq<Event>) returns (answers: seq<Result<Kind>>)
      requires Valid()
      modifies this, registry
      ensures Valid() && registry.Contents() == TableAfter(old(registry.Contents()), events, |events|)
      ensures answers == FreshAnswers(old(registry.Contents()), builtin, names, events, |events|)
    {
      answers := [];
      for i := 0 to |events|
        invariant Valid() && registry.Contents() == TableAfter(old(registry.Contents()), events, i)
        invariant answers == FreshAnswers(old(registry.Contents()), builtin, names, events, i)
      {
        match events[i] {
          case Registers(name, decoder) =>
            registry.Register(name, decoder);
          case Aliases(name, target) =>
            registry.Alias(name, target);
          case Reads(typeOffset) =>
            var kind := Dispatch(typeOffset);
            answers := answers + [kind];
        }
      }
    }
  }

  // ----- What a dispatch decision is, apart from how it is made

  /** A type is dispatched as the end of its alias chain: a decoder registered there, else the built-in kind. */
  lemma AliasedAsTarget(table: Table, builtin: string -> Kind, name: string, end: string)
    requires LeavesAt(table.aliases, name, end)
    ensures FreshKind(table, builtin, Ok(name)) == FreshKind(table, builtin, Ok(end))
    ensures FreshKind(table, builtin, Ok(name)) == Ok(if end in table.decoders then CustomKind else builtin(end))
  {
    ResolvedExactly(table.aliases, name, end);
    assert Iterate(NextAlias(table.aliases), end, 0) == Some(end);
    ResolvedExactly(table.aliases, end, end);
  }

  /** A type whose alias chain never ends, or with no name, is dispatched as nothing. */
  lemma EndlessIsUndecided(table: Table, builtin: string -> Kind, name: string)
    requires NeverLeaves(table.aliases, name)
    ensures FreshKind(table, builtin, Ok(name)) == Fail && FreshKind(table, builtin, Fail) == Fail
  {
    ResolvedExactly(table.aliases, name, name);
  }

  /** How many of the first n events are reads. */
  function ReadsBefore(events: seq<Event>, n: nat): nat
    requires n <= |events|
  {
    if n == 0 then 0 else ReadsBefore(events, n - 1) + if events[n - 1].Reads? then 1 else 0
  }

  /** Each read is answered from the table as it stands at that moment. */
  lemma {:induction false} AnswerAt(table: Table, builtin: string -> Kind, names: nat -> Result<string>,
                                    events: seq<Event>, i: nat, n: nat)
    requires i < n <= |events| && events[i].Reads?
    ensures ReadsBefore(events, i) < |FreshAnswers(table, builtin, names, events, n)| == ReadsBefore(events, n)
    ensures FreshAnswers(table, builtin, names, events, n)[ReadsBefore(events, i)] ==
            FreshKind(TableAfter(table, events, i), builtin, names(events[i].typeOffset))
    decreases n
  {
    hide FreshKind, TableAfter;
    AnswerCount(table, builtin, names, events, n);
    AnswerCount(table, builtin, names, events, n - 1);
    if i < n - 1 {
      AnswerAt(table, builtin, names, events, i, n - 1);
    }
  }

  lemma {:induction false} AnswerCount(table: Table, builtin: string -> Kind, names: nat -> Result<string>,
                                       events: seq<Event>, n: nat)
    requires n <= |events|
    ensures |FreshAnswers(table, builtin, names, events, n)| == ReadsBefore(events, n)
  {
    hide FreshKind, TableAfter;
    if n > 0 {
      AnswerCount(table, builtin, names, events, n - 1);
    }
  }

  /** An alias keeps standing until it is set again. */
  lemma {:induction false} AliasStands(table: Table, events: seq<Event>, k: nat, n: nat, a: string, b: string)
    requires k < n <= |events| && events[k] == Aliases(a, b)
    requires forall m :: k < m < n && events[m].Aliases? ==> events[m].name != a && events[m].name != b
    requires b !in TableAfter(table, events, k).aliases && a != b
    ensures LeavesAt(TableAfter(table, events, n).aliases, a, b) && LeavesAt(TableAfter(table, events, n).aliases, b, b)
    decreases n
  {
    AliasKept(table, events, k, n, a, b);
    var next := NextAlias(TableAfter(table, events, n).aliases);
    assert Iterate(next, b, 0) == Some(b);
    assert Iterate(next, a, 1) == Some(b);
  }

  lemma {:induction false} AliasKept(table: Table, events: seq<Event>, k: nat, n: nat, a: string, b: string)
    requires k < n <= |events| && events[k] == Aliases(a, b)
    requires forall m :: k < m < n && events[m].Aliases? ==> events[m].name != a && events[m].name != b
    requires b !in TableAfter(table, events, k).aliases && a != b
    ensures var aliases := TableAfter(table, events, n).aliases; a in aliases && aliases[a] == b && b !in aliases
    decreases n
  {
    if k < n - 1 {
      AliasKept(table, events, k, n - 1, a, b);
    }
  }

  /** A decoder keeps standing once it is registered. */
  lemma {:induction false} DecoderKept(table: Table, events: seq<Event>, k: nat, n: nat)
    requires k < n <= |events| && events[k].Registers?
    ensures events[k].name in TableAfter(table, events, n).decoders
    decreases n
  {
    if k < n - 1 {
      DecoderKept(table, events, k, n - 1);
    }
  }

  /**
   * In any run, after an alias from a to b with b no alias, a read of a type named a gives what a read of a
   * type named b gives at the same table: CustomKind if a decoder for b was registered before, and
   * otherwise, if there was none, the built-in kind of b.
   */
  method RunAliased(d: Dispatcher, events: seq<Event>, k: nat, i: nat, j: nat, a: string, b: string)
    returns (answers: seq<Result<Kind>>)
    requires d.Valid() && k < i < j < |events| && events[k] == Aliases(a, b) && a != b
    requires events[i].Reads? && d.names(events[i].typeOffset) == Ok(a)
    requires events[j].Reads? && d.names(events[j].typeOffset) == Ok(b)
    requires b !in TableAfter(d.registry.Contents(), events, k).aliases
    requires forall m :: k < m < j && events[m].Aliases? ==> events[m].name != a && events[m].name != b
    requires forall m :: i < m < j ==> !events[m].Registers?
    modifies d, d.registry
    ensures ReadsBefore(events, i) < |answers| && ReadsBefore(events, j) < |answers|
    ensures answers[ReadsBefore(events, i)] == answers[ReadsBefore(events, j)]
    ensures answers[ReadsBefore(events, i)] ==
            Ok(if b in old(TableAfter(d.registry.Contents(), events, i)).decoders then CustomKind else d.builtin(b))
    ensures (exists m :: 0 <= m < i && events[m].Registers? && events[m].name == b) ==>
              answers[ReadsBefore(events, i)] == Ok(CustomKind)
  {
    hide TableAfter, FreshKind, LeavesAt;
    ghost var table := d.registry.Contents();
    AliasStands(table, events, k, i, a, b);
    AliasStands(table, events, k, j, a, b);
    AliasedAsTarget(TableAfter(table, events, i), d.builtin, a, b);
    AliasedAsTarget(TableAfter(table, events, j), d.builtin, b, b);
    AnswerAt(table, d.builtin, d.names, events, i, |events|);
    AnswerAt(table, d.builtin, d.names, events, j, |events|);
    DecodersUntouched(table, events, i, j);
    if exists m :: 0 <= m < i && events[m].Registers? && events[m].name == b {
      ghost var m :| 0 <= m < i && events[m].Registers? && events[m].name == b;
      DecoderKept(table, events, m, i);
    }
    answers := d.Run(events);
  }

  lemma {:induction false} DecodersUntouched(table: Table, events: seq<Event>, i: nat, j: nat)
    requires i <= j <= |events| && forall m :: i <= m < j ==> !events[m].Registers?
    ensures TableAfter(table, events, j).decoders == TableAfter(table, events, i).decoders
    decreases j
  {
    if i < j {
      DecodersUntouched(table, events, i, j - 1);
    }
  }
}
