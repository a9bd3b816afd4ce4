/**
`resolveSchemaData` of `packages/server-config-kit/src/source/resolve.ts`: lazy, memoised resolution
with cycle detection.

The value being resolved is written in place: `container[key]` is the cell at the section names
followed by the key. A resolver reads a fixed list of paths
and combines what they finally hold with its own merged value.
*/
module Resolve {
  import opened Basics
  import opened ConfigSchema

  type Cells = Config

  /** One entry, and the cell its result belongs in. */
  datatype Slot = Slot(resolve: Option<Resolver>, loc: Location)

  type Registry = map<string, Slot>

  datatype Failure = NotInRegistry(path: string) | Cycle(chain: seq<string>)

  // ---------- the registry as a graph ----------

  function InputsOf(slot: Slot): seq<string> {
    match slot.resolve
    case Some(resolver) => resolver.inputs
    case None => []
  }

  ghost predicate Reads(registry: Registry, p: string, q: string) {
    p in registry && q in InputsOf(registry[p])
  }

  /** Every path some resolver reads is part of the registry. */
  ghost predicate Closed(registry: Registry) {
    forall p, q | Reads(registry, p, q) :: q in registry
  }

  ghost predicate IsChain(registry: Registry, c: seq<string>) {
    forall i | 0 <= i < |c| - 1 :: Reads(registry, c[i], c[i + 1])
  }

  ghost predicate IsCycle(registry: Registry, c: seq<string>) {
    |c| >= 2 && c[0] == c[|c| - 1] && IsChain(registry, c)
  }

  ghost predicate Acyclic(registry: Registry) {
    forall c :: !IsCycle(registry, c)
  }

  /** Different paths are different cells. */
  ghost predicate SeparateCells(registry: Registry) {
    && (forall p | p in registry :: registry[p].loc != [])
    && (forall p, q | p in registry && q in registry && p != q :: registry[p].loc != registry[q].loc)
  }

  // ---------- what resolution has to produce ----------

  function ValuesAt(registry: Registry, cells: Cells, paths: seq<string>): (values: seq<Option<Value>>)
    requires forall p | p in paths :: p in registry
    ensures |values| == |paths|
    ensures forall i | 0 <= i < |paths| :: values[i] == Lookup(cells, registry[paths[i]].loc)
  {
    seq(|paths|, i requires 0 <= i < |paths| => Lookup(cells, registry[paths[i]].loc))
  }

  /** A resolver applied to the merged value of its key and to the final values of the keys it reads. */
  function Applied(registry: Registry, merged: Cells, cells: Cells, p: string): Option<Value>
    requires p in registry && forall q | q in InputsOf(registry[p]) :: q in registry
  {
    var own := Lookup(merged, registry[p].loc);
    match registry[p].resolve
    case None => own
    case Some(resolver) => resolver.combine(own, ValuesAt(registry, cells, resolver.inputs))
  }

  ghost predicate Settled(registry: Registry, merged: Cells, cells: Cells, p: string) {
    && p in registry && (forall q | q in InputsOf(registry[p]) :: q in registry)
    && Lookup(cells, registry[p].loc) == Applied(registry, merged, cells, p)
  }

  /** Every slot holds its resolver applied to FINAL values, and nothing but slots was written. */
  ghost predicate IsResolution(registry: Registry, merged: Cells, cells: Cells) {
    && (forall p | p in registry :: Settled(registry, merged, cells, p))
    && (forall loc | (forall p | p in registry :: registry[p].loc != loc) :: Lookup(cells, loc) == Lookup(merged, loc))
  }

  /** The order resolvers finished in: each once, and each after everything it reads. */
  ghost predicate RunsInOrder(registry: Registry, order: seq<string>) {
    && (forall i, j | 0 <= i < j < |order| :: order[i] != order[j])
    && (forall i | 0 <= i < |order| :: ReadsAreBefore(registry, order, i))
  }

  ghost predicate ReadsAreBefore(registry: Registry, order: seq<string>, i: nat)
    requires i < |order|
  {
    order[i] in registry && forall q | q in InputsOf(registry[order[i]]) :: q in order[..i]
  }

  // ---------- what a partial resolution keeps ----------

  ghost predicate SettledOrMerged(registry: Registry, merged: Cells, cells: Cells, order: seq<string>, p: string) {
    p in registry ==>
      if p in order then Settled(registry, merged, cells, p)
      else Lookup(cells, registry[p].loc) == Lookup(merged, registry[p].loc)
  }

  /** A cell that belongs to no slot is as it was merged. */
  ghost predicate Untouched(registry: Registry, merged: Cells, cells: Cells, loc: Location) {
    (forall p | p in registry :: registry[p].loc != loc) ==> Lookup(cells, loc) == Lookup(merged, loc)
  }

  /** The finished slots, in the order they finished, hold final values; every other cell is as it was merged. */
  ghost predicate Sound(registry: Registry, merged: Cells, cells: Cells, order: seq<string>) {
    && SeparateCells(registry)
    && RunsInOrder(registry, order)
    && (forall p :: SettledOrMerged(registry, merged, cells, order, p))
    && (forall loc :: Untouched(registry, merged, cells, loc))
  }

  lemma FinishedIsSlot(registry: Registry, order: seq<string>, p: string)
    requires RunsInOrder(registry, order) && p in order
    ensures p in registry && forall q | q in InputsOf(registry[p]) :: q in order
  {
    var i :| 0 <= i < |order| && order[i] == p;
    assert ReadsAreBefore(registry, order, i);
    forall q | q in InputsOf(registry[p]) ensures q in order {
      assert q in order[..i];
    }
  }

  /** The keys being resolved: each read by the one before it, none twice, none finished. */
  ghost predicate OnTheWay(registry: Registry, visiting: seq<string>, order: seq<string>) {
    && IsChain(registry, visiting)
    && (forall i | 0 <= i < |visiting| :: visiting[i] in registry && visiting[i] !in order)
    && (forall i, j | 0 <= i < j < |visiting| :: visiting[i] != visiting[j])
  }

  lemma Pushed(registry: Registry, visiting: seq<string>, order: seq<string>, path: string)
    requires OnTheWay(registry, visiting, order) && path in registry && path !in order && path !in visiting
    requires visiting != [] ==> Reads(registry, visiting[|visiting| - 1], path)
    ensures OnTheWay(registry, visiting + [path], order) && (visiting + [path])[..|visiting|] == visiting
    ensures registry.Keys - (set p | p in visiting + [path]) < registry.Keys - (set p | p in visiting)
  {
    SmallerWithout(registry.Keys, visiting, path);
  }

  lemma Popped(registry: Registry, visiting: seq<string>, order: seq<string>, path: string)
    requires OnTheWay(registry, visiting, order) && visiting != [] && visiting[|visiting| - 1] == path
    ensures OnTheWay(registry, visiting[..|visiting| - 1], order)
    ensures OnTheWay(registry, visiting[..|visiting| - 1], order + [path])
    ensures (set p | p in order + [path]) == (set p | p in order) + {path}
  {
  }

  lemma SmallerWithout(keys: set<string>, chain: seq<string>, q: string)
    requires q in keys && q !in chain
    ensures keys - (set p | p in chain + [q]) < keys - (set p | p in chain)
  {
    assert (set p | p in chain + [q]) == (set p | p in chain) + {q};
    assert q in keys - (set p | p in chain);
  }

  ghost predicate KeptAt(registry: Registry, cells: Cells, order: seq<string>, cells': Cells, p: string) {
    p in order && p in registry ==> Lookup(cells', registry[p].loc) == Lookup(cells, registry[p].loc)
  }

  /** Nothing finished is undone or recomputed. */
  ghost predicate Keeps(registry: Registry, cells: Cells, order: seq<string>, cells': Cells, order': seq<string>) {
    order <= order' && forall p :: KeptAt(registry, cells, order, cells', p)
  }

  lemma StillFinished(order: seq<string>, order': seq<string>, p: string)
    requires order <= order' && p in order
    ensures p in order'
  {
    var i :| 0 <= i < |order| && order[i] == p;
    assert order'[i] == p;
  }

  lemma KeepsTransitive(registry: Registry, c0: Cells, o0: seq<string>, c1: Cells, o1: seq<string>,
                        c2: Cells, o2: seq<string>)
    requires Keeps(registry, c0, o0, c1, o1) && Keeps(registry, c1, o1, c2, o2)
    ensures Keeps(registry, c0, o0, c2, o2)
  {
    forall p ensures KeptAt(registry, c0, o0, c2, p) {
      if p in o0 { StillFinished(o0, o1, p); }
      assert KeptAt(registry, c0, o0, c1, p) && KeptAt(registry, c1, o1, c2, p);
    }
  }

  /** One more slot is finished: its cell holds its resolver's value, its reads are finished, no other cell changed. */
  ghost predicate Finishes(registry: Registry, merged: Cells, cells: Cells, cells': Cells, order: seq<string>,
                           path: string)
  {
    && path in registry && path !in order
    && (forall q | q in InputsOf(registry[path]) :: q in order && q in registry)
    && Lookup(cells', registry[path].loc) == Applied(registry, merged, cells, path)
    && forall loc :: SameUnless(cells, cells', registry[path].loc, loc)
  }

  ghost predicate SameUnless(cells: Cells, cells': Cells, changed: Location, loc: Location) {
    loc != changed ==> Lookup(cells', loc) == Lookup(cells, loc)
  }

  lemma OneMoreInOrder(registry: Registry, order: seq<string>, path: string)
    requires RunsInOrder(registry, order) && path in registry && path !in order
    requires forall q | q in InputsOf(registry[path]) :: q in order
    ensures RunsInOrder(registry, order + [path])
  {
    var order' := order + [path];
    forall i | 0 <= i < |order'| ensures ReadsAreBefore(registry, order', i) {
      if i < |order| {
        assert ReadsAreBefore(registry, order, i) && order'[..i] == order[..i];
      } else {
        assert order'[..i] == order;
      }
    }
  }

  lemma FinishOne(registry: Registry, merged: Cells, cells: Cells, cells': Cells, order: seq<string>, path: string)
    requires Sound(registry, merged, cells, order) && Finishes(registry, merged, cells, cells', order, path)
    ensures Sound(registry, merged, cells', order + [path])
    ensures Keeps(registry, cells, order, cells', order + [path])
  {
    OneMoreInOrder(registry, order, path);
    forall p ensures SettledOrMerged(registry, merged, cells', order + [path], p) {
      SettledStays(registry, merged, cells, cells', order, path, p);
    }
    forall loc ensures Untouched(registry, merged, cells', loc) {
      assert Untouched(registry, merged, cells, loc) && SameUnless(cells, cells', registry[path].loc, loc);
    }
    forall p ensures KeptAt(registry, cells, order, cells', p) {
      if p in registry { assert SameUnless(cells, cells', registry[path].loc, registry[p].loc); }
    }
  }

  lemma FinishAndPop(registry: Registry, merged: Cells, c0: Cells, o0: seq<string>, c1: Cells, o1: seq<string>,
                     c2: Cells, visiting: seq<string>, path: string)
    requires Sound(registry, merged, c1, o1) && Keeps(registry, c0, o0, c1, o1)
    requires Finishes(registry, merged, c1, c2, o1, path)
    requires OnTheWay(registry, visiting, o1) && visiting != [] && visiting[|visiting| - 1] == path
    ensures Sound(registry, merged, c2, o1 + [path]) && Keeps(registry, c0, o0, c2, o1 + [path])
    ensures OnTheWay(registry, visiting[..|visiting| - 1], o1 + [path])
    ensures (set p | p in o1 + [path]) == (set p | p in o1) + {path}
  {
    FinishOne(registry, merged, c1, c2, o1, path);
    KeepsTransitive(registry, c0, o0, c1, o1, c2, o1 + [path]);
    Popped(registry, visiting, o1, path);
  }

  lemma NothingToResolve(registry: Registry, merged: Cells, cells: Cells, order: seq<string>, path: string)
    requires Sound(registry, merged, cells, order) && path in registry && path !in order
    requires registry[path].resolve.None?
    ensures Finishes(registry, merged, cells, cells, order, path)
  {
    assert SettledOrMerged(registry, merged, cells, order, path);
  }

  lemma FinishByWriting(registry: Registry, merged: Cells, cells: Cells, order: seq<string>, path: string,
                        value: Option<Value>)
    requires Sound(registry, merged, cells, order) && path in registry && path !in order
    requires forall q | q in InputsOf(registry[path]) :: q in order && q in registry
    requires value == Applied(registry, merged, cells, path)
    ensures Finishes(registry, merged, cells, Put(cells, registry[path].loc, value), order, path)
  {
    var loc := registry[path].loc;
    PutLookup(cells, loc, value, loc);
    forall other ensures SameUnless(cells, Put(cells, loc, value), loc, other) {
      PutLookup(cells, loc, value, other);
    }
  }

  lemma SettledStays(registry: Registry, merged: Cells, cells: Cells, cells': Cells, order: seq<string>, path: string,
                     p: string)
    requires Sound(registry, merged, cells, order) && Finishes(registry, merged, cells, cells', order, path)
    ensures SettledOrMerged(registry, merged, cells', order + [path], p)
  {
    assert SettledOrMerged(registry, merged, cells, order, p);
    if p in registry {
      assert SameUnless(cells, cells', registry[path].loc, registry[p].loc);
      if p in order || p == path {
        if p in order { FinishedIsSlot(registry, order, p); }
        InputsStay(registry, cells, cells', order, path, p);
      }
    }
  }

  /** What a slot reads is finished, so writing one that is not changes none of it. */
  lemma InputsStay(registry: Registry, cells: Cells, cells': Cells, order: seq<string>, path: string, p: string)
    requires SeparateCells(registry) && p in registry && path in registry && path !in order
    requires forall q | q in InputsOf(registry[p]) :: q in order && q in registry
    requires forall loc :: SameUnless(cells, cells', registry[path].loc, loc)
    ensures ValuesAt(registry, cells', InputsOf(registry[p])) == ValuesAt(registry, cells, InputsOf(registry[p]))
  {
    var inputs := InputsOf(registry[p]);
    forall i | 0 <= i < |inputs|
      ensures Lookup(cells', registry[inputs[i]].loc) == Lookup(cells, registry[inputs[i]].loc)
    {
      assert SameUnless(cells, cells', registry[path].loc, registry[inputs[i]].loc);
    }
  }

  /** The inputs read so far, each with the value it finally holds. */
  ghost predicate Collected(registry: Registry, cells: Cells, order: seq<string>, inputs: seq<string>,
                            values: seq<Option<Value>>)
  {
    && |values| <= |inputs|
    && forall j | 0 <= j < |values| ::
      inputs[j] in order && inputs[j] in registry && values[j] == Lookup(cells, registry[inputs[j]].loc)
  }

  lemma CollectOne(registry: Registry, c0: Cells, o0: seq<string>, c1: Cells, o1: seq<string>,
                   c2: Cells, o2: seq<string>, inputs: seq<string>, values: seq<Option<Value>>)
    requires Keeps(registry, c0, o0, c1, o1) && Keeps(registry, c1, o1, c2, o2)
    requires Collected(registry, c1, o1, inputs, values) && |values| < |inputs|
    ensures Keeps(registry, c0, o0, c2, o2)
    ensures var q := inputs[|values|];
      q in o2 && q in registry ==> Collected(registry, c2, o2, inputs, values + [Lookup(c2, registry[q].loc)])
  {
    KeepsTransitive(registry, c0, o0, c1, o1, c2, o2);
    forall j | 0 <= j < |values| ensures inputs[j] in o2 && values[j] == Lookup(c2, registry[inputs[j]].loc) {
      StillFinished(o1, o2, inputs[j]);
      assert KeptAt(registry, c1, o1, c2, inputs[j]);
    }
  }

  lemma CollectedAll(registry: Registry, merged: Cells, cells: Cells, order: seq<string>, path: string,
                     values: seq<Option<Value>>)
    requires path in registry && registry[path].resolve.Some?
    requires var inputs := registry[path].resolve.value.inputs;
      Collected(registry, cells, order, inputs, values) && |values| == |inputs|
    requires SettledOrMerged(registry, merged, cells, order, path) && path !in order
    ensures forall q | q in InputsOf(registry[path]) :: q in order && q in registry
    ensures registry[path].resolve.value.combine(Lookup(cells, registry[path].loc), values) ==
      Applied(registry, merged, cells, path)
  {
    var inputs := registry[path].resolve.value.inputs;
    forall q | q in inputs ensures q in order && q in registry {
      var j :| 0 <= j < |inputs| && inputs[j] == q;
      assert values[j] == Lookup(cells, registry[inputs[j]].loc);
    }
    assert values == ValuesAt(registry, cells, inputs);
  }

  // ---------- the evaluator ----------

  class Resolution {
    const slots: Registry
    ghost const merged: Cells
    var cells: Cells
    var resolved: set<string>
    var visiting: seq<string>
    ghost var order: seq<string>

    ghost predicate Valid()
      reads this
    {
      && resolved == (set p | p in order)
      && Sound(slots, merged, cells, order)
      && OnTheWay(slots, visiting, order)
    }

    constructor (slots: Registry, data: Cells)
      requires SeparateCells(slots)
      ensures Valid() && this.slots == slots && merged == data
      ensures cells == data && resolved == {} && visiting == [] && order == []
    {
      this.slots, merged, cells := slots, data, data;
      resolved, visiting, order := {}, [], [];
    }

    method Get(path: string) returns (r: Result<Option<Value>, Failure>)
      requires Valid()
      requires visiting != [] ==> Reads(slots, visiting[|visiting| - 1], path)
      modifies this
      ensures Valid() && visiting == old(visiting)
      ensures Keeps(slots, old(cells), old(order), cells, order)
      ensures r.Ok? ==> path in order && path in slots && r.value == Lookup(cells, slots[path].loc)
      ensures r.Err? ==> Justified(slots, r.error) || r.error == NotInRegistry(path)
      ensures r.Err? && r.error.NotInRegistry? ==> r.error.path !in slots
      decreases slots.Keys - (set p | p in visiting), 1
    {
      if path !in slots {
        return Err(NotInRegistry(path));
      }
      if path in resolved {
        return Ok(Lookup(cells, slots[path].loc));
      }
      if path in visiting {
        CycleFound(slots, visiting, path);
        return Err(Cycle(visiting + [path]));
      }
      Pushed(slots, visiting, order, path);
      visiting := visiting + [path];
      var answer := Run(path);
      visiting := visiting[..|visiting| - 1];
      return answer;
    }

    /** The body of the visit: resolve the key if it resolves, and mark it. */
    method Run(path: string) returns (r: Result<Option<Value>, Failure>)
      requires Valid() && visiting != [] && visiting[|visiting| - 1] == path && path in slots
      modifies this
      ensures resolved == (set p | p in order) && Sound(slots, merged, cells, order)
      ensures visiting == old(visiting) && OnTheWay(slots, visiting[..|visiting| - 1], order)
      ensures Keeps(slots, old(cells), old(order), cells, order)
      ensures r.Ok? ==> path in order && r.value == Lookup(cells, slots[path].loc)
      ensures r.Err? ==> Justified(slots, r.error)
      decreases slots.Keys - (set p | p in visiting), 3
    {
      ghost var cells0, order0, cells1 := cells, order, cells;
      if slots[path].resolve.Some? {
        var answer := Resolve(path, slots[path].resolve.value);
        if answer.Err? {
          Popped(slots, visiting, order, path);
          return answer;
        }
        FinishByWriting(slots, merged, cells, order, path, answer.value);
        cells1 := cells;
        cells := Put(cells, slots[path].loc, answer.value);
      } else {
        NothingToResolve(slots, merged, cells, order, path);
      }
      FinishAndPop(slots, merged, cells0, order0, cells1, order, cells, visiting, path);
      resolved := resolved + {path};
      order := order + [path];
      return Ok(Lookup(cells, slots[path].loc));
    }

    /** One resolver's run: it gets what it reads, one path after the other, and combines. */
    method Resolve(path: string, resolver: Resolver) returns (r: Result<Option<Value>, Failure>)
      requires Valid() && visiting != [] && visiting[|visiting| - 1] == path
      requires path in slots && slots[path].resolve == Some(resolver)
      modifies this
      ensures Valid() && visiting == old(visiting)
      ensures Keeps(slots, old(cells), old(order), cells, order)
      ensures r.Ok? ==> forall q | q in resolver.inputs :: q in order && q in slots
      ensures r.Ok? ==> r.value == Applied(slots, merged, cells, path)
      ensures r.Err? ==> Justified(slots, r.error)
      decreases slots.Keys - (set p | p in visiting), 2
    {
      var values := [];
      for i := 0 to |resolver.inputs|
        invariant Valid() && visiting == old(visiting)
        invariant Keeps(slots, old(cells), old(order), cells, order)
        invariant |values| == i && Collected(slots, cells, order, resolver.inputs, values)
      {
        ghost var cells0, order0 := cells, order;
        assert Reads(slots, path, resolver.inputs[i]);
        var answer := Get(resolver.inputs[i]);
        CollectOne(slots, old(cells), old(order), cells0, order0, cells, order, resolver.inputs, values);
        if answer.Err? {
          return Err(answer.error);
        }
        values := values + [answer.value];
      }
      assert SettledOrMerged(slots, merged, cells, order, path);
      CollectedAll(slots, merged, cells, order, path, values);
      return Ok(resolver.combine(Lookup(cells, slots[path].loc), values));
    }
  }

  /** A failure names a real fault of the registry. */
  ghost predicate Justified(registry: Registry, failure: Failure) {
    match failure
    case NotInRegistry(path) => path !in registry && exists p :: Reads(registry, p, path)
    case Cycle(chain) => exists k :: 0 <= k < |chain| && IsCycle(registry, chain[k..])
  }

  lemma CycleFound(registry: Registry, visiting: seq<string>, path: string)
    requires IsChain(registry, visiting) && path in visiting
    requires Reads(registry, visiting[|visiting| - 1], path)
    ensures Justified(registry, Cycle(visiting + [path]))
  {
    var chain := visiting + [path];
    var k :| 0 <= k < |visiting| && visiting[k] == path;
    forall i | 0 <= i < |chain[k..]| - 1 ensures Reads(registry, chain[k..][i], chain[k..][i + 1]) {
      assert chain[k..][i] == visiting[k + i];
      assert i + 1 < |chain[k..]| - 1 ==> chain[k..][i + 1] == visiting[k + i + 1];
    }
    assert IsCycle(registry, chain[k..]);
  }

  // ---------- the whole pass ----------

  method ResolveAll(registry: Registry, declared: seq<string>, merged: Cells)
    returns (r: Result<Cells, Failure>, ghost order: seq<string>)
    requires SeparateCells(registry)
    requires forall p :: p in declared <==> p in registry
    ensures r.Ok? <==> Closed(registry) && Acyclic(registry)
    ensures r.Ok? ==> IsResolution(registry, merged, r.value)
    ensures r.Ok? ==> RunsInOrder(registry, order) && (set p | p in order) == registry.Keys
    ensures r.Err? ==> Justified(registry, r.error)
  {
    var resolution := new Resolution(registry, merged);
    for i := 0 to |declared|
      invariant resolution.Valid() && resolution.visiting == []
      invariant resolution.slots == registry && resolution.merged == merged
      invariant forall j | 0 <= j < i :: declared[j] in resolution.order
    {
      ghost var before := resolution.order;
      var answer := resolution.Get(declared[i]);
      if answer.Err? {
        FaultRefutes(registry, answer.error);
        return Err(answer.error), resolution.order;
      }
      assert before <= resolution.order;
    }
    order := resolution.order;
    r := Ok(resolution.cells);
    forall p | p in registry ensures p in order {
      assert p in declared;
    }
    SoundIsResolution(registry, merged, resolution.cells, order);
    FinishedIsClosedAndAcyclic(registry, order);
  }

  lemma SoundIsResolution(registry: Registry, merged: Cells, cells: Cells, order: seq<string>)
    requires Sound(registry, merged, cells, order) && forall p | p in registry :: p in order
    ensures IsResolution(registry, merged, cells)
    ensures (set p | p in order) == registry.Keys
  {
    forall p | p in registry ensures Settled(registry, merged, cells, p) {
      assert SettledOrMerged(registry, merged, cells, order, p);
    }
    forall loc | (forall p | p in registry :: registry[p].loc != loc)
      ensures Lookup(cells, loc) == Lookup(merged, loc)
    {
      assert Untouched(registry, merged, cells, loc);
    }
    forall p | p in order ensures p in registry {
      FinishedIsSlot(registry, order, p);
    }
  }

  lemma FaultRefutes(registry: Registry, failure: Failure)
    requires Justified(registry, failure)
    ensures !(Closed(registry) && Acyclic(registry))
  {
  }

  lemma FinishedIsClosedAndAcyclic(registry: Registry, order: seq<string>)
    requires RunsInOrder(registry, order) && forall p | p in registry :: p in order
    ensures Closed(registry) && Acyclic(registry)
  {
    forall p, q | Reads(registry, p, q) ensures q in registry {
      var i := FinishedEarlier(registry, order, p, q);
      assert ReadsAreBefore(registry, order, i);
    }
    forall c | IsCycle(registry, c) ensures false {
      var first := ChainFinishesBackwards(registry, order, c, |c| - 1);
    }
  }

  lemma FinishedEarlier(registry: Registry, order: seq<string>, p: string, q: string) returns (i: nat)
    requires RunsInOrder(registry, order) && (forall k | k in registry :: k in order) && Reads(registry, p, q)
    ensures i < |order| && order[i] == q
    ensures forall j | 0 <= j < |order| && order[j] == p :: i < j
  {
    var j :| 0 <= j < |order| && order[j] == p;
    assert ReadsAreBefore(registry, order, j);
    i :| 0 <= i < j && order[..j][i] == q;
  }

  /** Along a chain of reads the finishing position only goes down. */
  lemma {:induction false} ChainFinishesBackwards(registry: Registry, order: seq<string>, c: seq<string>, n: nat)
    returns (i: nat)
    requires RunsInOrder(registry, order) && (forall k | k in registry :: k in order)
    requires IsChain(registry, c) && 1 <= n < |c|
    ensures i < |order| && order[i] == c[n]
    ensures forall j | 0 <= j < |order| && order[j] == c[0] :: i < j
    decreases n
  {
    i := FinishedEarlier(registry, order, c[n - 1], c[n]);
    if n > 1 {
      var k := ChainFinishesBackwards(registry, order, c, n - 1);
      assert i < k;
    }
  }

  // ---------- the result is determined ----------

  /** A registry over merged values, and a resolution of it. */
  datatype Outcome = Outcome(registry: Registry, merged: Cells, cells: Cells) {
    ghost predicate Valid() {
      IsResolution(registry, merged, cells)
    }

    ghost function Final(p: string): Option<Value>
      requires p in registry
    {
      Lookup(cells, registry[p].loc)
    }

    /** What the document says about a key, wherever the registry keeps its value. */
    ghost predicate Declares(p: string, resolve: Option<Resolver>, own: Option<Value>) {
      p in registry && registry[p].resolve == resolve && Lookup(merged, registry[p].loc) == own
    }
  }

  /** The same keys with the same resolvers over the same merged values, in any order and any nesting of sections. */
  ghost predicate SameDocument(a: Outcome, b: Outcome) {
    && a.registry.Keys == b.registry.Keys
    && forall p | p in a.registry :: b.Declares(p, a.registry[p].resolve, Lookup(a.merged, a.registry[p].loc))
  }

  ghost predicate Disagree(a: Outcome, b: Outcome, p: string) {
    p in a.registry && p in b.registry && a.Final(p) != b.Final(p)
  }

  lemma AgreeingInputsAgree(a: Outcome, b: Outcome, p: string)
    requires Settled(a.registry, a.merged, a.cells, p) && Settled(b.registry, b.merged, b.cells, p)
    requires b.Declares(p, a.registry[p].resolve, Lookup(a.merged, a.registry[p].loc))
    requires forall q | q in InputsOf(a.registry[p]) :: !Disagree(a, b, q)
    ensures a.Final(p) == b.Final(p)
  {
    var inputs := InputsOf(a.registry[p]);
    var x, y := ValuesAt(a.registry, a.cells, inputs), ValuesAt(b.registry, b.cells, inputs);
    forall i | 0 <= i < |inputs| ensures x[i] == y[i] {
      assert !Disagree(a, b, inputs[i]);
    }
    assert x == y;
  }

  /** A chain of reads along which two resolutions disagree can always be continued by a new key. */
  ghost predicate DisagreeingChain(a: Outcome, b: Outcome, chain: seq<string>) {
    chain != [] && IsChain(a.registry, chain) && forall p | p in chain :: Disagree(a, b, p)
  }

  lemma NextDisagreement(a: Outcome, b: Outcome, chain: seq<string>) returns (q: string)
    requires SameDocument(a, b) && a.Valid() && b.Valid() && Acyclic(a.registry) && DisagreeingChain(a, b, chain)
    ensures q in a.registry && q !in chain && DisagreeingChain(a, b, chain + [q])
  {
    q := DisagreementHasACause(a, b, chain[|chain| - 1]);
    ExtendChain(a.registry, chain, q);
  }

  lemma {:induction false} DisagreementNeverEnds(a: Outcome, b: Outcome, chain: seq<string>)
    requires SameDocument(a, b) && a.Valid() && b.Valid() && Acyclic(a.registry)
    ensures !DisagreeingChain(a, b, chain)
    decreases a.registry.Keys - (set p | p in chain)
  {
    if DisagreeingChain(a, b, chain) {
      var q := NextDisagreement(a, b, chain);
      SmallerWithout(a.registry.Keys, chain, q);
      DisagreementNeverEnds(a, b, chain + [q]);
    }
  }

  lemma DisagreementHasACause(a: Outcome, b: Outcome, p: string) returns (q: string)
    requires SameDocument(a, b) && a.Valid() && b.Valid() && Disagree(a, b, p)
    ensures Reads(a.registry, p, q) && Disagree(a, b, q)
  {
    assert Settled(a.registry, a.merged, a.cells, p) && Settled(b.registry, b.merged, b.cells, p);
    if forall k | k in InputsOf(a.registry[p]) :: !Disagree(a, b, k) {
      AgreeingInputsAgree(a, b, p);
    }
    q :| q in InputsOf(a.registry[p]) && Disagree(a, b, q);
  }

  lemma ExtendChain(registry: Registry, chain: seq<string>, q: string)
    requires chain != [] && IsChain(registry, chain) && Reads(registry, chain[|chain| - 1], q) && Acyclic(registry)
    ensures IsChain(registry, chain + [q]) && q !in chain
  {
    if q in chain {
      CycleFound(registry, chain, q);
    }
  }

  lemma KeyAgrees(a: Outcome, b: Outcome, p: string)
    requires SameDocument(a, b) && a.Valid() && b.Valid() && Acyclic(a.registry)
    ensures !Disagree(a, b, p)
  {
    DisagreementNeverEnds(a, b, [p]);
    assert IsChain(a.registry, [p]);
  }

  /**
   The final assignment is unique, and depends neither on the order of declaration nor on how keys are
   nested into sections: any two resolutions of the same document agree on every key.
   */
  lemma ResolutionIsUnique(a: Outcome, b: Outcome)
    requires SameDocument(a, b) && a.Valid() && b.Valid() && Acyclic(a.registry)
    ensures forall p | p in a.registry :: a.Final(p) == b.Final(p)
  {
    forall p | p in a.registry ensures a.Final(p) == b.Final(p) {
      KeyAgrees(a, b, p);
    }
  }
}
