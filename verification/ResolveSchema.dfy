/**
The index `resolveSchemaData` works on: every entry of a schema under the absolute path it reads from
(`indexByPath`, `packages/server-config-kit/src/source/resolve.ts`), and the whole pass over a schema.
*/
module ResolveSchema {
  import opened Basics
  import opened ConfigSchema
  import opened Resolve

  /** Entries in declaration order, a later one taking over the path of an earlier one. */
  function IndexFrom(s: Schema, i: nat, at: Location, slots: Registry): Registry
    requires WellFormed(s) && i <= |s.keys|
    decreases s, |s.keys| - i
  {
    if i == |s.keys| then slots
    else
      var key := s.keys[i];
      assert key in s.items;
      IndexFrom(s, i + 1, at,
        match s.items[key]
        case Leaf(entry) => slots[PathOf(key, entry) := Slot(entry.resolve, at + [key])]
        case Sub(sub) => IndexFrom(sub, 0, at + [key], slots))
  }

  method IndexByPath(s: Schema, at: Location, slots: Registry, paths: seq<string>)
    returns (slots': Registry, paths': seq<string>)
    requires WellFormed(s)
    requires forall p :: p in paths <==> p in slots
    ensures slots' == IndexFrom(s, 0, at, slots)
    ensures forall p :: p in paths' <==> p in slots'
    decreases s
  {
    slots', paths' := slots, paths;
    for n := 0 to |s.keys|
      invariant IndexFrom(s, 0, at, slots) == IndexFrom(s, n, at, slots')
      invariant forall p :: p in paths' <==> p in slots'
    {
      var key := s.keys[n];
      assert key in s.items;
      match s.items[key] {
        case Leaf(entry) =>
          var path := PathOf(key, entry);
          if path !in slots' {
            paths' := paths' + [path];
          }
          slots' := slots'[path := Slot(entry.resolve, at + [key])];
        case Sub(sub) =>
          slots', paths' := IndexByPath(sub, at + [key], slots', paths');
      }
    }
  }

  function RegistryOf(s: Schema): Registry
    requires WellFormed(s)
  {
    IndexFrom(s, 0, [], map[])
  }

  // ---------- what the index holds ----------

  ghost predicate EntryHasPath(s: Schema, loc: Location, path: string) {
    EntryAt(s, loc).Some? && PathOf(loc[|loc| - 1], EntryAt(s, loc).value) == path
  }

  /** A slot is an entry of the schema, at the location of that entry, under that entry's path. */
  ghost predicate IsEntrySlot(s: Schema, at: Location, path: string, slot: Slot) {
    && at <= slot.loc && EntryHasPath(s, slot.loc[|at|..], path)
    && EntryAt(s, slot.loc[|at|..]).value.resolve == slot.resolve
  }

  lemma {:induction false} IndexedAreEntries(s: Schema, i: nat, at: Location, slots: Registry, path: string)
    requires WellFormed(s) && i <= |s.keys| && path in IndexFrom(s, i, at, slots)
    ensures IsEntrySlot(s, at, path, IndexFrom(s, i, at, slots)[path])
      || (path in slots && IndexFrom(s, i, at, slots)[path] == slots[path])
    decreases s, |s.keys| - i
  {
    if i < |s.keys| {
      var key := s.keys[i];
      assert key in s.items;
      match s.items[key] {
        case Leaf(entry) =>
          var next := slots[PathOf(key, entry) := Slot(entry.resolve, at + [key])];
          IndexedAreEntries(s, i + 1, at, next, path);
          assert (at + [key])[|at|..] == [key];
          assert EntryAt(s, [key]) == Some(entry);
        case Sub(sub) =>
          var next := IndexFrom(sub, 0, at + [key], slots);
          IndexedAreEntries(s, i + 1, at, next, path);
          if path in next {
            IndexedAreEntries(sub, 0, at + [key], slots, path);
            if IsEntrySlot(sub, at + [key], path, next[path]) {
              SlotOfSection(s, sub, key, at, path, next[path]);
            }
          }
      }
    }
  }

  lemma SlotOfSection(s: Schema, sub: Schema, key: string, at: Location, path: string, slot: Slot)
    requires key in s.items && s.items[key] == Sub(sub) && IsEntrySlot(sub, at + [key], path, slot)
    ensures IsEntrySlot(s, at, path, slot)
  {
    var below := slot.loc[|at| + 1..];
    assert slot.loc[|at|..] == [key] + below;
    assert ([key] + below)[1..] == below;
  }

  /** An entry under the path, at or after the key at `i`. */
  ghost predicate DeclaredFrom(s: Schema, i: nat, loc: Location, path: string) {
    EntryHasPath(s, loc, path) && exists j :: i <= j < |s.keys| && s.keys[j] == loc[0]
  }

  ghost predicate HasEntryFrom(s: Schema, i: nat, path: string) {
    exists loc :: DeclaredFrom(s, i, loc, path)
  }

  /** The key at `i` declares the entry, or its section does, or it comes later. */
  lemma EntryIsHereOrLater(s: Schema, i: nat, path: string)
    requires WellFormed(s) && i < |s.keys| && HasEntryFrom(s, i, path)
    ensures s.keys[i] in s.items
    ensures var item := s.items[s.keys[i]];
      || HasEntryFrom(s, i + 1, path)
      || (if item.Leaf? then PathOf(s.keys[i], item.entry) == path else HasEntryFrom(item.schema, 0, path))
  {
    var loc :| DeclaredFrom(s, i, loc, path);
    var j :| i <= j < |s.keys| && s.keys[j] == loc[0];
    if j > i {
      assert DeclaredFrom(s, i + 1, loc, path);
    } else if s.items[loc[0]].Sub? {
      var sub, rest := s.items[loc[0]].schema, loc[1..];
      assert EntryAt(s, loc) == EntryAt(sub, rest) && rest[|rest| - 1] == loc[|loc| - 1];
      assert rest[0] in sub.keys;
      assert DeclaredFrom(sub, 0, rest, path);
    }
  }

  lemma {:induction false} EntriesAreIndexed(s: Schema, i: nat, at: Location, slots: Registry, path: string)
    requires WellFormed(s) && i <= |s.keys|
    requires path in slots || HasEntryFrom(s, i, path)
    ensures path in IndexFrom(s, i, at, slots)
    decreases s, |s.keys| - i
  {
    if i < |s.keys| {
      var key := s.keys[i];
      assert key in s.items;
      if path !in slots { EntryIsHereOrLater(s, i, path); }
      match s.items[key] {
        case Leaf(entry) =>
          EntriesAreIndexed(s, i + 1, at, slots[PathOf(key, entry) := Slot(entry.resolve, at + [key])], path);
        case Sub(sub) =>
          if path in slots || HasEntryFrom(sub, 0, path) { EntriesAreIndexed(sub, 0, at + [key], slots, path); }
          EntriesAreIndexed(s, i + 1, at, IndexFrom(sub, 0, at + [key], slots), path);
      }
    }
  }

  lemma RegistryHoldsTheEntries(s: Schema)
    requires WellFormed(s)
    ensures forall path | path in RegistryOf(s) :: IsEntrySlot(s, [], path, RegistryOf(s)[path])
    ensures forall loc, path | EntryHasPath(s, loc, path) :: path in RegistryOf(s)
    ensures SeparateCells(RegistryOf(s))
  {
    var registry := RegistryOf(s);
    forall path | path in registry ensures IsEntrySlot(s, [], path, registry[path]) {
      IndexedAreEntries(s, 0, [], map[], path);
    }
    forall loc, path | EntryHasPath(s, loc, path) ensures path in registry {
      var j :| 0 <= j < |s.keys| && s.keys[j] == loc[0];
      assert DeclaredFrom(s, 0, loc, path);
      EntriesAreIndexed(s, 0, [], map[], path);
    }
  }

  // ---------- the pass ----------

  method ResolveSchemaData(s: Schema, data: Config) returns (r: Result<Config, Failure>)
    requires WellFormed(s)
    ensures r.Ok? <==> Closed(RegistryOf(s)) && Acyclic(RegistryOf(s))
    ensures r.Ok? ==> IsResolution(RegistryOf(s), data, r.value)
    ensures r.Err? ==> Justified(RegistryOf(s), r.error)
  {
    var slots, paths := IndexByPath(s, [], map[], []);
    RegistryHoldsTheEntries(s);
    var cells, _ := ResolveAll(slots, paths, data);
    return cells;
  }

  /** No two entries share a path. */
  ghost predicate OneEntryPerPath(s: Schema) {
    forall a, b, path | EntryHasPath(s, a, path) && EntryHasPath(s, b, path) :: a == b
  }

  /** The entry at `loc` of one schema and the entry at the same path of another are declared alike and merged alike. */
  ghost predicate DeclaredAlike(s: Schema, data: Config, loc: Location, s': Schema, data': Config) {
    && EntryAt(s, loc).Some?
    && exists loc' ::
      && EntryHasPath(s', loc', PathOf(loc[|loc| - 1], EntryAt(s, loc).value))
      && EntryAt(s', loc').value.resolve == EntryAt(s, loc).value.resolve
      && Lookup(data', loc') == Lookup(data, loc)
  }

  ghost predicate AllDeclaredAlike(s: Schema, data: Config, s': Schema, data': Config) {
    forall loc | EntryAt(s, loc).Some? :: DeclaredAlike(s, data, loc, s', data')
  }

  lemma SameEntriesSameDocument(s: Schema, data: Config, out: Config, s': Schema, data': Config, out': Config)
    requires WellFormed(s) && WellFormed(s') && OneEntryPerPath(s) && OneEntryPerPath(s')
    requires AllDeclaredAlike(s, data, s', data') && AllDeclaredAlike(s', data', s, data)
    ensures SameDocument(Outcome(RegistryOf(s), data, out), Outcome(RegistryOf(s'), data', out'))
  {
    var a, b := Outcome(RegistryOf(s), data, out), Outcome(RegistryOf(s'), data', out');
    forall p | p in a.registry
      ensures p in b.registry && b.Declares(p, a.registry[p].resolve, Lookup(data, a.registry[p].loc))
    {
      SlotsAlike(s, data, s', data', p);
    }
    forall p | p in b.registry ensures p in a.registry {
      SlotsAlike(s', data', s, data, p);
    }
  }

  lemma SlotIsTheEntry(s: Schema, loc: Location, path: string)
    requires WellFormed(s) && OneEntryPerPath(s) && EntryHasPath(s, loc, path)
    ensures path in RegistryOf(s) && RegistryOf(s)[path].loc == loc
  {
    RegistryHoldsTheEntries(s);
    var slot := RegistryOf(s)[path];
    assert IsEntrySlot(s, [], path, slot) && slot.loc[0..] == slot.loc;
  }

  /** Declaration order and nesting never matter: the same entries at the same paths resolve to the same values. */
  lemma NestingDoesNotMatter(s: Schema, data: Config, out: Config, s': Schema, data': Config, out': Config,
                             loc: Location, loc': Location, path: string)
    requires WellFormed(s) && WellFormed(s') && OneEntryPerPath(s) && OneEntryPerPath(s')
    requires AllDeclaredAlike(s, data, s', data') && AllDeclaredAlike(s', data', s, data)
    requires Acyclic(RegistryOf(s))
    requires IsResolution(RegistryOf(s), data, out) && IsResolution(RegistryOf(s'), data', out')
    requires EntryHasPath(s, loc, path) && EntryHasPath(s', loc', path)
    ensures Lookup(out, loc) == Lookup(out', loc')
  {
    SameEntriesSameDocument(s, data, out, s', data', out');
    SlotIsTheEntry(s, loc, path);
    SlotIsTheEntry(s', loc', path);
    KeyAgrees(Outcome(RegistryOf(s), data, out), Outcome(RegistryOf(s'), data', out'), path);
  }

  lemma SlotsAlike(s: Schema, data: Config, s': Schema, data': Config, path: string)
    requires WellFormed(s) && WellFormed(s') && OneEntryPerPath(s')
    requires AllDeclaredAlike(s, data, s', data')
    requires path in RegistryOf(s)
    ensures path in RegistryOf(s')
    ensures RegistryOf(s')[path].resolve == RegistryOf(s)[path].resolve
    ensures Lookup(data', RegistryOf(s')[path].loc) == Lookup(data, RegistryOf(s)[path].loc)
  {
    RegistryHoldsTheEntries(s);
    var slot := RegistryOf(s)[path];
    assert IsEntrySlot(s, [], path, slot) && slot.loc[0..] == slot.loc;
    assert DeclaredAlike(s, data, slot.loc, s', data');
    var loc' :| EntryHasPath(s', loc', path) && EntryAt(s', loc').value.resolve == slot.resolve
      && Lookup(data', loc') == Lookup(data, slot.loc);
    SlotIsTheEntry(s', loc', path);
    RegistryHoldsTheEntries(s');
    assert IsEntrySlot(s', [], path, RegistryOf(s')[path]) && loc'[0..] == loc';
  }
}
