/**
`buildSchemaJSONSchema` of `packages/server-config-kit/src/json-schema/module.ts`: every entry of a
registry placed at its dotted path in one tree of properties.

The nested `properties` records are one map from locations: `container` is the location reached so far,
and writing `container[segment]` writes the location one segment longer. What a property says (its
description, default and variable) is the entry itself. The code's own checks are on spellings.
*/
module JsonSchema {
  import opened Basics
  import opened ConfigSchema
  import opened DottedPaths
  import FileTree

  /** An entry with its key and the segments of its path. */
  datatype Declaration = Declaration(key: string, segments: seq<string>, entry: SchemaEntry)

  type Declared = d: Declaration | d.segments != []
    witness Declaration("", [""], SchemaEntry("", None, None, _ => None, None))

  function Declare(key: string, entry: SchemaEntry): Declared {
    Declaration(key, Split(PathOf(key, entry)), entry)
  }

  datatype Node = Intermediate | Property(entry: SchemaEntry)

  type Tree = map<seq<string>, Node>

  /** The two refusals name the key; the third is the TypeError of stepping into an object that is not there. */
  datatype Refusal = AlreadyHoldsAValue(key: string) | AlreadyTaken(key: string) | NoSuchObject

  // ---------- collecting the entries ----------

  function Entries(s: Schema, i: nat): seq<Declared>
    requires WellFormed(s) && i <= |s.keys|
    decreases s, |s.keys| - i
  {
    if i == |s.keys| then []
    else
      assert s.keys[i] in s.items;
      (match s.items[s.keys[i]]
       case Leaf(entry) => [Declare(s.keys[i], entry)]
       case Sub(sub) => Entries(sub, 0)) + Entries(s, i + 1)
  }

  method CollectSchemaEntries(s: Schema, sofar: seq<Declared>) returns (entries: seq<Declared>)
    requires WellFormed(s)
    ensures entries == sofar + Entries(s, 0)
    decreases s
  {
    entries := sofar;
    for n := 0 to |s.keys|
      invariant entries + Entries(s, n) == sofar + Entries(s, 0)
    {
      EntriesStep(s, n, entries);
      match s.items[s.keys[n]] {
        case Leaf(entry) => entries := entries + [Declare(s.keys[n], entry)];
        case Sub(sub) => entries := CollectSchemaEntries(sub, entries);
      }
    }
  }

  lemma EntriesStep(s: Schema, n: nat, before: seq<Declared>)
    requires WellFormed(s) && n < |s.keys|
    ensures s.keys[n] in s.items
    ensures before + Entries(s, n) ==
      if s.items[s.keys[n]].Leaf? then before + [Declare(s.keys[n], s.items[s.keys[n]].entry)] + Entries(s, n + 1)
      else before + Entries(s.items[s.keys[n]].schema, 0) + Entries(s, n + 1)
  {
    var key := s.keys[n];
    assert key in s.items;
    var here := if s.items[key].Leaf? then [Declare(key, s.items[key].entry)] else Entries(s.items[key].schema, 0);
    Associates(before, here, Entries(s, n + 1));
  }

  lemma Associates(a: seq<Declared>, b: seq<Declared>, c: seq<Declared>)
    ensures a + (b + c) == a + b + c
  {
  }

  // ---------- when entries have a place ----------

  /** The location is the entry's own, or on the way to it. */
  ghost predicate LeadsTo(loc: seq<string>, d: Declared) {
    loc != [] && loc <= d.segments
  }

  ghost predicate Reaches(entries: seq<Declared>, loc: seq<string>) {
    exists d :: d in entries && LeadsTo(loc, d)
  }

  ghost predicate PassesThrough(entries: seq<Declared>, loc: seq<string>) {
    exists d :: d in entries && LeadsTo(loc, d) && loc != d.segments
  }

  ghost predicate Clash(entries: seq<Declared>, i: int, j: int) {
    0 <= i < |entries| && 0 <= j < |entries| && i != j && LeadsTo(entries[i].segments, entries[j])
  }

  /** No location is at or above another one: distinct paths, none a prefix of another. */
  ghost predicate PrefixFree(entries: seq<Declared>) {
    forall i, j :: !Clash(entries, i, j)
  }

  /** How the code spells a location, and compares it. */
  ghost function Spelling(loc: seq<string>): string {
    FileTree.DisplayOf("", loc)
  }

  ghost predicate SpelledAlike(entries: seq<Declared>, a: seq<string>, b: seq<string>) {
    Reaches(entries, a) && Reaches(entries, b) && Spelling(a) == Spelling(b)
  }

  /** No two locations at or on the way to entries are spelled alike. */
  ghost predicate SpelledInjectively(entries: seq<Declared>) {
    forall a, b | SpelledAlike(entries, a, b) :: a == b
  }

  /** What a registry's author can check before the document is built. */
  ghost predicate Placeable(entries: seq<Declared>) {
    PrefixFree(entries) && SpelledInjectively(entries)
  }

  // ---------- what a placement is ----------

  ghost predicate Holds(tree: Tree, d: Declared) {
    d.segments in tree && tree[d.segments] == Property(d.entry)
  }

  ghost predicate IsObject(tree: Tree, loc: seq<string>) {
    loc in tree && tree[loc] == Intermediate
  }

  ghost predicate IsNodeOf(tree: Tree, entries: seq<Declared>, loc: seq<string>) {
    && (loc in tree <==> Reaches(entries, loc))
    && (PassesThrough(entries, loc) ==> IsObject(tree, loc))
  }

  /** One property at each entry's location, plain objects in between, and nothing else. */
  ghost predicate IsTreeOf(tree: Tree, entries: seq<Declared>) {
    && (forall loc :: IsNodeOf(tree, entries, loc))
    && (forall d | d in entries :: Holds(tree, d))
  }

  /** The tree being filled, with the spellings of its plain objects and of its values. */
  datatype Placement = Placement(tree: Tree, intermediates: set<string>, leaves: set<string>)

  ghost predicate Spells(tree: Tree, loc: seq<string>, spelling: string) {
    loc in tree && Spelling(loc) == spelling
  }

  ghost predicate IsSpelled(tree: Tree, spelling: string) {
    exists loc :: Spells(tree, loc, spelling)
  }

  ghost predicate IsMarked(p: Placement, loc: seq<string>) {
    loc in p.tree ==> loc != [] && Spelling(loc) in (if p.tree[loc] == Intermediate then p.intermediates else p.leaves)
  }

  ghost predicate IsBehind(p: Placement, spelling: string) {
    spelling in p.intermediates || spelling in p.leaves ==> IsSpelled(p.tree, spelling)
  }

  ghost predicate Alike(tree: Tree, a: seq<string>, b: seq<string>) {
    a in tree && b in tree && Spelling(a) == Spelling(b)
  }

  /** The tree is what the two sets of spellings say: one object behind each of the one, one value behind each other. */
  ghost predicate Mirrors(p: Placement) {
    && p.intermediates !! p.leaves
    && (forall loc :: IsMarked(p, loc))
    && (forall t :: IsBehind(p, t))
    && (forall a, b | Alike(p.tree, a, b) :: a == b)
  }

  ghost predicate Placed(p: Placement, done: seq<Declared>) {
    Mirrors(p) && IsTreeOf(p.tree, done) && PrefixFree(done)
  }

  lemma {:induction false} DisplayOneMore(prefix: string, loc: seq<string>, name: string)
    ensures FileTree.DisplayOf(prefix, loc + [name]) == FileTree.Display(FileTree.DisplayOf(prefix, loc), name)
    decreases |loc|
  {
    if loc == [] {
      assert (loc + [name])[1..] == [];
    } else {
      assert (loc + [name])[1..] == loc[1..] + [name];
      DisplayOneMore(FileTree.Display(prefix, loc[0]), loc[1..], name);
    }
  }

  function WithObject(p: Placement, loc: seq<string>, spelling: string): Placement {
    p.(tree := p.tree[loc := Intermediate], intermediates := p.intermediates + {spelling})
  }

  function WithValue(p: Placement, d: Declared, spelling: string): Placement {
    p.(tree := p.tree[d.segments := Property(d.entry)], leaves := p.leaves + {spelling})
  }

  lemma MirrorAdds(p: Placement, q: Placement, loc: seq<string>, node: Node)
    requires Mirrors(p) && loc != [] && Spelling(loc) !in p.intermediates && Spelling(loc) !in p.leaves
    requires q.tree == p.tree[loc := node]
    requires q.intermediates == if node == Intermediate then p.intermediates + {Spelling(loc)} else p.intermediates
    requires q.leaves == if node == Intermediate then p.leaves else p.leaves + {Spelling(loc)}
    ensures loc !in p.tree && Mirrors(q)
  {
    var t := Spelling(loc);
    assert IsMarked(p, loc);
    assert Spells(q.tree, loc, t);
    forall s ensures IsBehind(q, s) {
      assert IsBehind(p, s);
      if IsSpelled(p.tree, s) {
        var other :| Spells(p.tree, other, s);
        assert Spells(q.tree, other, s);
      }
    }
    forall other ensures IsMarked(q, other) && (other in p.tree ==> Spelling(other) != t) {
      assert IsMarked(p, other);
    }
    forall a, b | Alike(q.tree, a, b) ensures a == b {
      assert a != loc && b != loc ==> Alike(p.tree, a, b);
    }
  }

  // ---------- the walk to one entry ----------

  /** One of the first `n` objects on the way to an entry. */
  ghost predicate OnTheWay(d: Declared, n: nat, loc: seq<string>) {
    LeadsTo(loc, d) && |loc| <= n
  }

  ghost predicate KeptOrOnTheWay(tree: Tree, d: Declared, n: nat, now: Tree, loc: seq<string>) {
    && (loc in now <==> loc in tree || OnTheWay(d, n, loc))
    && (loc in tree ==> loc in now && now[loc] == tree[loc])
    && (OnTheWay(d, n, loc) ==> IsObject(now, loc))
  }

  /** The walk of an entry so far: its first `n` objects are there, and nothing placed before was touched. */
  ghost predicate Midway(p: Placement, d: Declared, n: nat, now: Placement) {
    && n < |d.segments| && now.leaves == p.leaves
    && Mirrors(now)
    && forall loc :: KeptOrOnTheWay(p.tree, d, n, now.tree, loc)
  }

  lemma MidwayStart(p: Placement, d: Declared)
    requires Mirrors(p)
    ensures Midway(p, d, 0, p)
  {
    forall loc ensures KeptOrOnTheWay(p.tree, d, 0, p.tree, loc) {
    }
  }

  lemma LastOnTheWay(d: Declared, n: nat, loc: seq<string>)
    requires n < |d.segments|
    ensures OnTheWay(d, n + 1, loc) <==> OnTheWay(d, n, loc) || loc == d.segments[..n + 1]
  {
    if LeadsTo(loc, d) && |loc| == n + 1 {
      assert loc == d.segments[..n + 1];
    }
  }

  lemma NewObject(p: Placement, d: Declared, n: nat, now: Placement)
    requires Midway(p, d, n, now) && n + 1 < |d.segments|
    requires var t := Spelling(d.segments[..n + 1]); t !in now.intermediates && t !in p.leaves
    ensures var loc := d.segments[..n + 1]; Midway(p, d, n + 1, WithObject(now, loc, Spelling(loc)))
  {
    var loc := d.segments[..n + 1];
    var next := WithObject(now, loc, Spelling(loc));
    MirrorAdds(now, next, loc, Intermediate);
    var more: nat := n + 1;
    forall other ensures KeptOrOnTheWay(p.tree, d, more, next.tree, other) {
      LastOnTheWay(d, n, other);
      assert KeptOrOnTheWay(p.tree, d, n, now.tree, other);
    }
  }

  lemma KnownObject(p: Placement, d: Declared, n: nat, now: Placement)
    requires Midway(p, d, n, now) && n + 1 < |d.segments| && IsObject(now.tree, d.segments[..n + 1])
    ensures Midway(p, d, n + 1, now)
  {
    var more: nat := n + 1;
    forall other ensures KeptOrOnTheWay(p.tree, d, more, now.tree, other) {
      LastOnTheWay(d, n, other);
      assert KeptOrOnTheWay(p.tree, d, n, now.tree, other);
    }
  }

  // ---------- why a refusal is justified ----------

  lemma ReachesMore(done: seq<Declared>, d: Declared, loc: seq<string>)
    ensures Reaches(done + [d], loc) <==> Reaches(done, loc) || LeadsTo(loc, d)
    ensures PassesThrough(done + [d], loc) <==> PassesThrough(done, loc) || (LeadsTo(loc, d) && loc != d.segments)
  {
    var all := done + [d];
    assert d in all;
    assert forall e :: e in all <==> e in done || e == d;
  }

  lemma EntriesClash(done: seq<Declared>, d: Declared, e: Declared)
    requires e in done && (LeadsTo(e.segments, d) || LeadsTo(d.segments, e))
    ensures !PrefixFree(done + [d])
  {
    var all := done + [d];
    var i :| 0 <= i < |done| && done[i] == e;
    assert all[i] == e && all[|done|] == d;
    assert Clash(all, i, |done|) || Clash(all, |done|, i);
  }

  lemma NodeIsReached(p: Placement, d: Declared, done: seq<Declared>, n: nat, now: Placement, loc: seq<string>)
    requires IsTreeOf(p.tree, done) && Midway(p, d, n, now) && loc in now.tree
    ensures Reaches(done + [d], loc)
  {
    ReachesMore(done, d, loc);
    assert KeptOrOnTheWay(p.tree, d, n, now.tree, loc) && IsNodeOf(p.tree, done, loc);
  }

  /** What is in the tree and no object is the location of an entry. */
  lemma ValueIsAnEntry(p: Placement, d: Declared, done: seq<Declared>, n: nat, now: Placement, loc: seq<string>)
    returns (e: Declared)
    requires IsTreeOf(p.tree, done) && Midway(p, d, n, now)
    requires loc in now.tree && !IsObject(now.tree, loc)
    ensures e in done && e.segments == loc
  {
    assert KeptOrOnTheWay(p.tree, d, n, now.tree, loc) && IsNodeOf(p.tree, done, loc);
    e :| e in done && LeadsTo(loc, e);
    assert loc != e.segments ==> PassesThrough(done, loc);
  }

  /** A marked spelling of a location that is not in the tree belongs to another location. */
  lemma SpellingIsTaken(p: Placement, d: Declared, done: seq<Declared>, n: nat, now: Placement, loc: seq<string>)
    requires IsTreeOf(p.tree, done) && Midway(p, d, n, now)
    requires LeadsTo(loc, d) && loc !in now.tree
    requires Spelling(loc) in now.intermediates || Spelling(loc) in now.leaves
    ensures !SpelledInjectively(done + [d])
  {
    assert IsBehind(now, Spelling(loc));
    var other :| Spells(now.tree, other, Spelling(loc));
    NodeIsReached(p, d, done, n, now, other);
    ReachesMore(done, d, loc);
    assert SpelledAlike(done + [d], other, loc);
  }

  /** The walk stops at a value, or at a spelling whose object is elsewhere. */
  lemma WalkRefused(p: Placement, d: Declared, done: seq<Declared>, n: nat, now: Placement)
    requires IsTreeOf(p.tree, done) && Midway(p, d, n, now)
    requires var loc := d.segments[..n + 1];
      Spelling(loc) in p.leaves || (Spelling(loc) in now.intermediates && !IsObject(now.tree, loc))
    ensures !Placeable(done + [d])
  {
    var loc := d.segments[..n + 1];
    assert IsMarked(now, loc);
    if loc in now.tree {
      var e := ValueIsAnEntry(p, d, done, n, now, loc);
      EntriesClash(done, d, e);
    } else {
      SpellingIsTaken(p, d, done, n, now, loc);
    }
  }

  lemma LocationRefused(p: Placement, d: Declared, done: seq<Declared>, now: Placement)
    requires IsTreeOf(p.tree, done) && Midway(p, d, |d.segments| - 1, now)
    requires Spelling(d.segments) in now.intermediates || Spelling(d.segments) in now.leaves
    ensures !Placeable(done + [d])
  {
    if d.segments in now.tree {
      assert KeptOrOnTheWay(p.tree, d, |d.segments| - 1, now.tree, d.segments);
      assert IsNodeOf(p.tree, done, d.segments);
      var e :| e in done && LeadsTo(d.segments, e);
      EntriesClash(done, d, e);
    } else {
      SpellingIsTaken(p, d, done, |d.segments| - 1, now, d.segments);
    }
  }

  // ---------- why a success is one ----------

  lemma PlacedOneMore(p: Placement, d: Declared, done: seq<Declared>, now: Placement)
    requires Placed(p, done) && Midway(p, d, |d.segments| - 1, now)
    requires Spelling(d.segments) !in now.intermediates && Spelling(d.segments) !in now.leaves
    ensures Placed(WithValue(now, d, Spelling(d.segments)), done + [d])
  {
    var next := WithValue(now, d, Spelling(d.segments));
    MirrorAdds(now, next, d.segments, Property(d.entry));
    assert PrefixFree(done + [d]) by { StillPrefixFree(p, d, done, now); }
    forall loc ensures IsNodeOf(next.tree, done + [d], loc) {
      NodeOneMore(p, d, done, now, loc);
    }
    forall e | e in done + [d] ensures Holds(next.tree, e) {
      if e != d {
        assert e in done && Holds(p.tree, e);
        assert KeptOrOnTheWay(p.tree, d, |d.segments| - 1, now.tree, e.segments);
      } else {
        assert e.segments == d.segments;
      }
    }
  }

  lemma NodeOneMore(p: Placement, d: Declared, done: seq<Declared>, now: Placement, loc: seq<string>)
    requires IsTreeOf(p.tree, done) && Midway(p, d, |d.segments| - 1, now) && d.segments !in now.tree
    ensures IsNodeOf(now.tree[d.segments := Property(d.entry)], done + [d], loc)
  {
    ReachesMore(done, d, loc);
    ReachesMore(done, d, d.segments);
    assert KeptOrOnTheWay(p.tree, d, |d.segments| - 1, now.tree, loc) && IsNodeOf(p.tree, done, loc);
    assert KeptOrOnTheWay(p.tree, d, |d.segments| - 1, now.tree, d.segments) && IsNodeOf(p.tree, done, d.segments);
    assert PassesThrough(done, loc) ==> Reaches(done, loc);
    assert LeadsTo(loc, d) && |loc| == |d.segments| ==> loc == d.segments;
  }

  lemma ApartFromDone(p: Placement, d: Declared, done: seq<Declared>, now: Placement, e: Declared)
    requires IsTreeOf(p.tree, done) && Midway(p, d, |d.segments| - 1, now) && d.segments !in now.tree && e in done
    ensures !LeadsTo(e.segments, d) && !LeadsTo(d.segments, e)
  {
    assert Holds(p.tree, e);
    assert KeptOrOnTheWay(p.tree, d, |d.segments| - 1, now.tree, e.segments);
    assert KeptOrOnTheWay(p.tree, d, |d.segments| - 1, now.tree, d.segments);
    assert IsNodeOf(p.tree, done, d.segments);
    assert LeadsTo(e.segments, d) && |e.segments| == |d.segments| ==> e.segments == d.segments;
  }

  lemma StillPrefixFree(p: Placement, d: Declared, done: seq<Declared>, now: Placement)
    requires Placed(p, done) && Midway(p, d, |d.segments| - 1, now) && d.segments !in now.tree
    ensures PrefixFree(done + [d])
  {
    var all, n := done + [d], |done|;
    forall i, j ensures !Clash(all, i, j) {
      assert !Clash(done, i, j);
      if Clash(all, i, j) {
        assert i < n || j < n;
        ApartFromDone(p, d, done, now, all[if i < n then i else j]);
      }
    }
  }

  lemma PlacedIsPlaceable(p: Placement, entries: seq<Declared>)
    requires Placed(p, entries)
    ensures Placeable(entries)
  {
    forall a, b | SpelledAlike(entries, a, b) ensures a == b {
      assert IsNodeOf(p.tree, entries, a) && IsNodeOf(p.tree, entries, b);
      assert Alike(p.tree, a, b);
    }
  }

  lemma PartIsPlaceable(entries: seq<Declared>, n: nat)
    requires n <= |entries| && Placeable(entries)
    ensures Placeable(entries[..n])
  {
    forall i, j ensures !Clash(entries[..n], i, j) {
      assert !Clash(entries, i, j);
    }
    forall a, b | SpelledAlike(entries[..n], a, b) ensures a == b {
      PartReaches(entries, n, a);
      PartReaches(entries, n, b);
      assert SpelledAlike(entries, a, b);
    }
  }

  lemma PartReaches(entries: seq<Declared>, n: nat, loc: seq<string>)
    requires n <= |entries| && Reaches(entries[..n], loc)
    ensures Reaches(entries, loc)
  {
    var d :| d in entries[..n] && LeadsTo(loc, d);
    assert d in entries;
  }

  // ---------- placing ----------

  /** One entry, after the entries `done` are placed. */
  method Place(p: Placement, d: Declared, ghost done: seq<Declared>) returns (r: Result<Placement, Refusal>)
    requires Placed(p, done)
    ensures r.Ok? ==> Placed(r.value, done + [d])
    ensures r.Err? ==> !Placeable(done + [d])
    ensures r.Err? && !r.error.NoSuchObject? ==> r.error.key == d.key
  {
    var last := |d.segments| - 1;
    var now, walked := p, "";
    MidwayStart(p, d);
    for i := 0 to last
      invariant walked == Spelling(d.segments[..i])
      invariant Midway(p, d, i, now)
    {
      var loc := d.segments[..i + 1];
      assert loc == d.segments[..i] + [d.segments[i]];
      DisplayOneMore("", d.segments[..i], d.segments[i]);
      walked := FileTree.Display(walked, d.segments[i]);
      if walked in now.leaves {
        WalkRefused(p, d, done, i, now);
        return Err(AlreadyHoldsAValue(d.key));
      }
      if walked !in now.intermediates {
        NewObject(p, d, i, now);
        now := WithObject(now, loc, walked);
      } else if loc in now.tree && now.tree[loc] == Intermediate {
        KnownObject(p, d, i, now);
      } else {
        WalkRefused(p, d, done, i, now);
        return Err(NoSuchObject);
      }
    }
    assert d.segments == d.segments[..last] + [d.segments[last]];
    DisplayOneMore("", d.segments[..last], d.segments[last]);
    var leaf := FileTree.Display(walked, d.segments[last]);
    if leaf in now.intermediates || leaf in now.leaves {
      LocationRefused(p, d, done, now);
      return Err(AlreadyTaken(d.key));
    }
    PlacedOneMore(p, d, done, now);
    return Ok(WithValue(now, d, leaf));
  }

  /** It succeeds exactly when the entries have a place, and then places each of them. */
  method PlaceAll(entries: seq<Declared>) returns (r: Result<Tree, Refusal>)
    ensures r.Ok? <==> Placeable(entries)
    ensures r.Ok? ==> IsTreeOf(r.value, entries)
  {
    var p := Placement(map[], {}, {});
    for n := 0 to |entries|
      invariant Placed(p, entries[..n])
    {
      assert entries[..n + 1] == entries[..n] + [entries[n]];
      var placed := Place(p, entries[n], entries[..n]);
      if placed.Err? {
        if Placeable(entries) { PartIsPlaceable(entries, n + 1); }
        return Err(placed.error);
      }
      p := placed.value;
    }
    assert entries[..|entries|] == entries;
    PlacedIsPlaceable(p, entries);
    return Ok(p.tree);
  }

  lemma {:induction false} EntryIsListed(s: Schema, loc: Location, i: nat)
    requires WellFormed(s) && EntryAt(s, loc).Some? && i < |s.keys| && s.keys[i] == loc[0]
    ensures forall j | 0 <= j <= i :: Declare(loc[|loc| - 1], EntryAt(s, loc).value) in Entries(s, j)
    decreases s, i
  {
    var d := Declare(loc[|loc| - 1], EntryAt(s, loc).value);
    match s.items[loc[0]] {
      case Leaf(_) => assert d in [d];
      case Sub(inner) =>
        var k :| 0 <= k < |inner.keys| && inner.keys[k] == loc[1];
        EntryIsListed(inner, loc[1..], k);
        assert loc[1..][|loc[1..]| - 1] == loc[|loc| - 1];
        assert d in Entries(inner, 0);
    }
    assert d in Entries(s, i);
    ListedEarlier(s, i, d);
  }

  lemma {:induction false} ListedEarlier(s: Schema, i: nat, d: Declared)
    requires WellFormed(s) && i <= |s.keys| && d in Entries(s, i)
    ensures forall j | 0 <= j <= i :: d in Entries(s, j)
    decreases i
  {
    if i > 0 { ListedEarlier(s, i - 1, d); }
  }

  /** The property of an entry, at the path it declares, or at its key if it declares none. */
  ghost predicate Publishes(tree: Tree, key: string, entry: SchemaEntry) {
    var loc := Split(if entry.path == "" then key else entry.path);
    loc in tree && tree[loc] == Property(entry)
  }

  lemma EveryEntryIsPublished(s: Schema, tree: Tree, loc: Location)
    requires WellFormed(s) && IsTreeOf(tree, Entries(s, 0)) && EntryAt(s, loc).Some?
    ensures Publishes(tree, loc[|loc| - 1], EntryAt(s, loc).value)
  {
    var i :| 0 <= i < |s.keys| && s.keys[i] == loc[0];
    EntryIsListed(s, loc, i);
    assert Holds(tree, Declare(loc[|loc| - 1], EntryAt(s, loc).value));
  }

  method BuildSchemaJSONSchema(s: Schema) returns (r: Result<Tree, Refusal>)
    requires WellFormed(s)
    ensures r.Ok? <==> Placeable(Entries(s, 0))
    ensures r.Ok? ==> IsTreeOf(r.value, Entries(s, 0))
    ensures r.Ok? ==> forall loc | EntryAt(s, loc).Some? :: Publishes(r.value, loc[|loc| - 1], EntryAt(s, loc).value)
  {
    var entries := CollectSchemaEntries(s, []);
    assert entries == Entries(s, 0);
    r := PlaceAll(entries);
    if r.Ok? {
      forall loc | EntryAt(s, loc).Some? ensures Publishes(r.value, loc[|loc| - 1], EntryAt(s, loc).value) {
        EveryEntryIsPublished(s, r.value, loc);
      }
    }
  }

  // ---------- the order of the entries ----------

  lemma {:induction false} Repeats(entries: seq<Declared>, d: Declared)
    ensures multiset(entries)[d] >= 2 <==> exists i, j :: 0 <= i < j < |entries| && entries[i] == entries[j] == d
  {
    if entries != [] {
      var n := |entries| - 1;
      var init := entries[..n];
      assert entries == init + [entries[n]];
      Repeats(init, d);
      assert forall i | 0 <= i < n :: init[i] == entries[i];
      assert multiset(init)[d] >= 1 <==> d in init;
    }
  }

  /** Two entries that stand apart, or one that stands there twice. */
  ghost predicate Pair(entries: seq<Declared>, d: Declared, e: Declared) {
    d in entries && e in entries && (d == e ==> multiset(entries)[d] >= 2)
  }

  lemma PairIsTwoPlaces(entries: seq<Declared>, d: Declared, e: Declared)
    ensures Pair(entries, d, e) <==>
      exists i, j :: 0 <= i < |entries| && 0 <= j < |entries| && i != j && entries[i] == d && entries[j] == e
  {
    Repeats(entries, d);
    if Pair(entries, d, e) && d != e {
      var i :| 0 <= i < |entries| && entries[i] == d;
      var j :| 0 <= j < |entries| && entries[j] == e;
      assert i != j;
    }
  }

  lemma SamePairs(a: seq<Declared>, b: seq<Declared>, d: Declared, e: Declared)
    requires multiset(a) == multiset(b)
    ensures Pair(a, d, e) <==> Pair(b, d, e)
  {
    assert d in a <==> d in multiset(a);
    assert e in a <==> e in multiset(a);
    assert d in b <==> d in multiset(b);
    assert e in b <==> e in multiset(b);
  }

  lemma SameReach(a: seq<Declared>, b: seq<Declared>, loc: seq<string>)
    requires multiset(a) == multiset(b)
    ensures Reaches(a, loc) <==> Reaches(b, loc)
    ensures PassesThrough(a, loc) <==> PassesThrough(b, loc)
  {
    assert forall d :: d in a <==> d in multiset(a);
    assert forall d :: d in b <==> d in multiset(b);
  }

  lemma SameClash(a: seq<Declared>, b: seq<Declared>, i: int, j: int) returns (k: int, l: int)
    requires multiset(a) == multiset(b) && Clash(b, i, j)
    ensures Clash(a, k, l)
  {
    PairIsTwoPlaces(b, b[i], b[j]);
    SamePairs(a, b, b[i], b[j]);
    PairIsTwoPlaces(a, b[i], b[j]);
    k, l :| 0 <= k < |a| && 0 <= l < |a| && k != l && a[k] == b[i] && a[l] == b[j];
  }

  lemma SamePlaceable(a: seq<Declared>, b: seq<Declared>)
    requires multiset(a) == multiset(b) && Placeable(a)
    ensures Placeable(b)
  {
    forall i, j ensures !Clash(b, i, j) {
      if Clash(b, i, j) {
        var k, l := SameClash(a, b, i, j);
      }
    }
    forall x, y | SpelledAlike(b, x, y) ensures x == y {
      SameReach(a, b, x);
      SameReach(a, b, y);
      assert SpelledAlike(a, x, y);
    }
  }

  lemma SameNode(a: seq<Declared>, b: seq<Declared>, ta: Tree, tb: Tree, loc: seq<string>)
    requires multiset(a) == multiset(b) && IsTreeOf(ta, a) && IsTreeOf(tb, b)
    ensures loc in ta <==> loc in tb
    ensures loc in ta && loc in tb ==> ta[loc] == tb[loc]
  {
    SameReach(a, b, loc);
    assert IsNodeOf(ta, a, loc) && IsNodeOf(tb, b, loc);
    if loc in ta && !PassesThrough(a, loc) {
      var d :| d in a && LeadsTo(loc, d);
      assert d in multiset(a) && d in b;
      assert Holds(ta, d) && Holds(tb, d);
    }
  }

  /** Whether it succeeds, and with which tree, does not depend on the order the entries come in. */
  lemma OrderDoesNotMatter(a: seq<Declared>, b: seq<Declared>, ta: Tree, tb: Tree)
    requires multiset(a) == multiset(b)
    ensures Placeable(a) <==> Placeable(b)
    ensures IsTreeOf(ta, a) && IsTreeOf(tb, b) ==> ta == tb
  {
    if Placeable(a) { SamePlaceable(a, b); }
    if Placeable(b) { SamePlaceable(b, a); }
    if IsTreeOf(ta, a) && IsTreeOf(tb, b) {
      forall loc ensures (loc in ta <==> loc in tb) && (loc in ta && loc in tb ==> ta[loc] == tb[loc]) {
        SameNode(a, b, ta, tb, loc);
      }
    }
  }

  // ---------- which registries have a place ----------

  ghost predicate Rooted(d: Declared) {
    |d.segments| == 1 || d.segments[0] != ""
  }

  lemma RootedSpelling(d: Declared, loc: seq<string>)
    requires Rooted(d) && DotFree(d.segments) && LeadsTo(loc, d)
    ensures Spelling(loc) == Join(loc) && DotFree(loc)
  {
    var first := loc[0];
    assert first == d.segments[0];
    assert FileTree.Display("", first) == first == Join([first]);
    assert Spelling(loc) == FileTree.DisplayOf(first, loc[1..]);
    if |loc| > 1 {
      FileTree.DisplayBelow([first], loc[1..]);
      assert [first] + loc[1..] == loc;
    } else {
      assert loc == [first] && loc[1..] == [];
    }
    forall t | t in loc ensures t in d.segments {
      var i :| 0 <= i < |loc| && loc[i] == t;
      assert d.segments[i] == t;
    }
  }

  /** Where no path but a single segment begins with a dot, distinct and prefix-free paths are all it takes. */
  lemma DotsInsideSpellInjectively(entries: seq<Declared>)
    requires forall d | d in entries :: Rooted(d) && DotFree(d.segments)
    ensures SpelledInjectively(entries)
    ensures Placeable(entries) <==> PrefixFree(entries)
  {
    forall a, b | SpelledAlike(entries, a, b) ensures a == b {
      var d :| d in entries && LeadsTo(a, d);
      var e :| e in entries && LeadsTo(b, e);
      RootedSpelling(d, a);
      RootedSpelling(e, b);
      JoinInjective(a, b);
    }
  }

  /** A leading dot's empty segment is lost in the spelling: `.name` and `name` are apart, yet never placed together. */
  lemma LeadingDotCollides(name: string, a: SchemaEntry, b: SchemaEntry)
    requires name != "" && '.' !in name && a.path == "." + name && b.path == name
    ensures PrefixFree([Declare(name, a), Declare(name, b)])
    ensures !SpelledInjectively([Declare(name, a), Declare(name, b)])
  {
    var x, y := Declare(name, a), Declare(name, b);
    var entries := [x, y];
    SplitPlain(name);
    assert "" + "." + name == "." + name;
    SplitDotted("", name);
    assert x.segments == ["", name] && y.segments == [name];
    assert [name][1..] == [] && ["", name][1..] == [name];
    assert FileTree.Display("", "") == "" && FileTree.Display("", name) == name;
    assert [name][0] != ["", name][0] && x in entries && y in entries;
    assert LeadsTo(["", name], x) && LeadsTo([name], y);
    assert SpelledAlike(entries, ["", name], [name]);
  }

  /** Two leading dots fail alone: the second empty segment is spelled like the first. */
  lemma TwoLeadingDotsHaveNoPlace(name: string, entry: SchemaEntry)
    requires '.' !in name && entry.path == ".." + name
    ensures PrefixFree([Declare(name, entry)]) && !Placeable([Declare(name, entry)])
  {
    var d := Declare(name, entry);
    assert "" + "." + name == "." + name && "" + "." + ("." + name) == ".." + name;
    SplitPlain(name);
    SplitDotted("", name);
    SplitDotted("", "." + name);
    EmptySegmentsAreAlike(d);
  }

  lemma EmptySegmentsAreAlike(d: Declared)
    requires |d.segments| >= 2 && d.segments[0] == d.segments[1] == ""
    ensures !SpelledInjectively([d])
  {
    assert [""][1..] == [] && ["", ""][1..] == [""];
    assert FileTree.Display("", "") == "";
    assert d in [d] && LeadsTo([""], d) && LeadsTo(["", ""], d);
    assert SpelledAlike([d], [""], ["", ""]);
  }
}
