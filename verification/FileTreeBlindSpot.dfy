/**
The other half of the file-tree theorems: a registry with a blind spot (a path that begins with `.`,
and no entry at the empty path) breaks both properties, and one that reads behind an extension key breaks
the first, so their conditions are exact.
*/
module FileTreeBlindSpot {
  import opened Basics
  import opened ConfigSchema
  import opened DottedPaths
  import opened FileTree
  import opened FileTreeTheorems

  // ---------- a leaf nobody accounts for ----------

  function Longest(paths: seq<string>): (n: nat)
    ensures forall p | p in paths :: |p| <= n
  {
    if paths == [] then 0
    else
      var n := Longest(paths[1..]);
      assert forall p | p in paths :: p == paths[0] || p in paths[1..];
      if |paths[0]| > n then |paths[0]| else n
  }

  function Zs(n: nat): (s: string)
    ensures |s| == n && forall i | 0 <= i < n :: s[i] == 'z'
  {
    seq(n, i => 'z')
  }

  function Lone(name: string): Value {
    Record(map["" := Record(map[name := Scalar("")])])
  }

  lemma LoneAt(name: string, loc: seq<string>)
    requires At(Lone(name), loc).Some?
    ensures loc == [] || loc == [""] || loc == ["", name]
  {
    if |loc| > 1 {
      var inner := Lone(name).fields[""];
      assert inner == Record(map[name := Scalar("")]);
      assert loc[1..][0] == name;
      assert At(inner.fields[name], loc[1..][1..]).Some?;
      assert loc[1..][1..] == [];
    }
  }

  lemma BlindSpotLosesALeaf(s: Schema)
    requires WellFormed(s) && BlindSpot(ScopeOf(SchemaPaths(s)))
    ensures exists tree :: DotFreeNames(tree) && !AccountsFor(tree, s)
  {
    var scope := ScopeOf(SchemaPaths(s));
    var name := Zs(Longest(SchemaPaths(s)) + 1);
    var tree, loc := Lone(name), ["", name];
    forall at | At(tree, at).Some? ensures DotFree(at) {
      LoneAt(name, at);
    }
    assert loc[1..] == [name] && loc[..1] == [""] && loc[..2] == loc;
    assert At(tree, loc) == At(tree.fields[""], [name]) == At(Scalar(""), [name][1..]);
    assert IsLeaf(tree, loc);
    assert Join(loc) == "." + name;
    forall k | 1 <= k <= |loc| ensures Join(loc[..k]) !in scope.claimed && !ExtensionAt(scope, loc, k) {
      assert k == 1 || k == 2;
    }
    forall k | 1 <= k <= |loc| ensures !Reports(tree, s, loc[..k]) {
      LoneReportsItsNameOnly(s, name, loc[..k]);
    }
    assert !AtOrBelowClaim(scope, loc) && !AtOrBelowExtension(scope, loc) && !AtOrBelowReport(tree, s, loc);
    assert !HasOneFate(tree, s, loc) && !AccountsFor(tree, s);
  }

  /** The one report spells the bare name, which is not where the leaf is. */
  lemma LoneReportsItsNameOnly(s: Schema, name: string, top: seq<string>)
    requires WellFormed(s) && BlindSpot(ScopeOf(SchemaPaths(s)))
    requires name != "" && '.' !in name && (top == [""] || top == ["", name])
    ensures !Reports(Lone(name), s, top)
  {
    var scope := ScopeOf(SchemaPaths(s));
    forall path, loc | Reported(Lone(name), "", scope, loc) && path == DisplayOf("", loc) ensures Split(path) != top {
      ReportedIsThere(Lone(name), "", scope, loc);
      LoneAt(name, loc);
      assert Display("", "") == "" && Display("", name) == name;
      assert loc[0] == "" && Lone(name).fields[""].Record?;
      assert Reported(Lone(name).fields[""], "", scope, loc[1..]);
      assert loc[1..] == [name] && [name][1..] == [];
      assert path == DisplayOf("", [name]) == name;
      SplitPlain(name);
    }
  }

  // ---------- a leaf that is read and passed over ----------

  function Nest(segments: seq<string>): Value {
    if segments == [] then Scalar("") else Record(map[segments[0] := Nest(segments[1..])])
  }

  lemma {:induction false} NestHolds(segments: seq<string>)
    ensures At(Nest(segments), segments) == Some(Scalar(""))
    ensures DotFree(segments) ==> DotFreeNames(Nest(segments))
  {
    if segments != [] {
      NestHolds(segments[1..]);
      var v := Nest(segments);
      if DotFree(segments) {
        assert segments[0] in segments && DotFree(segments[1..]);
        forall loc | At(v, loc).Some? ensures DotFree(loc) {
          if loc != [] {
            assert loc[0] == segments[0] && DotFree(loc[1..]);
          }
        }
      }
    }
  }

  lemma BehindExtensionIsTwice(s: Schema)
    requires WellFormed(s) && ReadsBehindExtension(SchemaPaths(s))
    ensures exists tree :: DotFreeNames(tree) && !AccountsFor(tree, s)
  {
    var paths, scope := SchemaPaths(s), ScopeOf(SchemaPaths(s));
    var path, k :| PassesExtension(paths, path, k);
    var loc := Split(path);
    var tree := Nest(loc);
    NestHolds(loc);
    JoinSplit(path);
    assert loc[..|loc|] == loc;
    assert AtOrBelowClaim(scope, loc);
    forall j | 1 <= j < k ensures Join(loc[..j]) in scope.traversed {
      assert Join(loc[..j]) in PrefixesOf(path);
    }
    assert ExtensionAt(scope, loc, k);
    assert IsLeaf(tree, loc) && !HasOneFate(tree, s, loc);
  }

  /** One entry such as `x-foo.bar` is enough: the leaf is read there, and lies below the extension key `x-foo`. */
  lemma OnePathBehindExtension(name: string, last: string)
    requires '.' !in name && '.' !in last
    ensures ReadsBehindExtension(["x-" + name + "." + last])
  {
    var first := "x-" + name;
    var path := first + "." + last;
    assert "x-"[0] == 'x' && "x-"[1] == '-' && '.' !in first;
    SplitDotted(first, last);
    SplitPlain(last);
    assert Split(path)[..1] == [first] && |first| < |path|;
    assert PassesExtension([path], path, 1);
  }

  // ---------- a reading the deletion takes away ----------

  /** Holds a value at `segments`, and a plain value under a run of empty names beside it. */
  function Trap(segments: seq<string>): Value
    requires segments != []
  {
    if segments[0] != "" then Record(map["" := Scalar("")][segments[0] := Nest(segments[1..])])
    else if |segments| == 1 then Record(map["" := Scalar("")])
    else Record(map["" := Trap(segments[1..])])
  }

  lemma {:induction false} TrapHolds(segments: seq<string>)
    requires segments != [] && DotFree(segments)
    ensures Trap(segments).Record? && At(Trap(segments), segments).Some? && DotFreeNames(Trap(segments))
  {
    var v := Trap(segments);
    assert segments[0] in segments && DotFree(segments[1..]);
    NestHolds(segments[1..]);
    if segments[0] == "" && |segments| > 1 { TrapHolds(segments[1..]); }
    assert |segments| == 1 ==> segments[1..] == [];
    forall loc | At(v, loc).Some? ensures DotFree(loc) {
      if loc != [] {
        var inner := v.fields[loc[0]];
        assert At(inner, loc[1..]).Some?;
        if loc[0] == segments[0] {
          assert inner.Scalar? ==> loc[1..] == [];
          assert DotFree(loc[1..]);
        } else {
          assert loc[0] == "" && loc[1..] == [];
        }
      }
    }
  }

  lemma {:induction false} TrapIsSprung(segments: seq<string>, scope: Scope) returns (loc: seq<string>)
    requires segments != [] && BlindSpot(scope)
    ensures Reported(Trap(segments), "", scope, loc) && DisplayOf("", loc) == ""
    decreases |segments|
  {
    if segments[0] == "" && |segments| > 1 {
      var below := TrapIsSprung(segments[1..], scope);
      loc := [""] + below;
      assert loc[1..] == below;
    } else {
      loc := [""];
      assert loc[1..] == [];
    }
  }

  lemma EntryBelow(s: Schema, key: string, below: Location)
    requires key in s.items && s.items[key].Sub? && EntryAt(s.items[key].schema, below).Some?
    ensures EntryAt(s, [key] + below) == EntryAt(s.items[key].schema, below)
    ensures ([key] + below)[|below|] == below[|below| - 1]
  {
    assert ([key] + below)[1..] == below;
  }

  lemma {:induction false} PathHasEntry(s: Schema, i: nat, path: string) returns (loc: Location)
    requires WellFormed(s) && i <= |s.keys| && path in PathsFrom(s, i)
    ensures EntryAt(s, loc).Some? && PathOf(loc[|loc| - 1], EntryAt(s, loc).value) == path
    decreases s, |s.keys| - i
  {
    var key := s.keys[i];
    assert key in s.items;
    if path in PathsFrom(s, i + 1) {
      loc := PathHasEntry(s, i + 1, path);
    } else {
      match s.items[key] {
        case Leaf(entry) =>
          assert path in [PathOf(key, entry)];
          loc := [key];
        case Sub(inner) =>
          assert path in PathsFrom(inner, 0);
          var below := PathHasEntry(inner, 0, path);
          loc := [key] + below;
          EntryBelow(s, key, below);
      }
    }
  }

  lemma BlindSpotDeletesAReading(s: Schema)
    requires WellFormed(s) && BlindSpot(ScopeOf(SchemaPaths(s)))
    ensures exists tree :: DotFreeNames(tree) && !DeletionIsHarmless(tree, s)
  {
    var scope := ScopeOf(SchemaPaths(s));
    var path :| path in SchemaPaths(s) && "" in PrefixesOf(path);
    var segments := Split(path);
    EmptyPrefix(path);
    var tree, gone := Trap(segments), ReportedLocations(Trap(segments), s);
    TrapHolds(segments);
    var trapped := TrapIsSprung(segments, scope);
    SplitPlain("");
    assert IsUnknown(tree, s, "");
    assert [""] in gone;
    PrunedAt(tree, [], gone, segments);
    assert [] + segments[..1] == [""];
    assert At(Prune(tree, [], gone), segments).None?;
    var loc := PathHasEntry(s, 0, path);
    PassLookup(s, FileReading(tree), false, loc);
    PassLookup(s, FileReading(Prune(tree, [], gone)), false, loc);
    assert Lookup(FileData(tree, s), loc) != Lookup(FileData(Prune(tree, [], gone), s), loc);
  }

  lemma EmptyPrefix(path: string)
    requires "" in PrefixesOf(path)
    ensures Split(path)[0] == ""
  {
    var segments := Split(path);
    var i :| 1 <= i < |segments| && Join(segments[..i]) == "";
    assert segments[..i][0] == segments[0];
  }

  // ---------- the conditions are exact ----------

  lemma {:induction false} FirstSegment(path: string)
    ensures Split(path)[0] == "" <==> path == "" || path[0] == '.'
    ensures |Split(path)| == 1 <==> '.' !in path
  {
    if path != "" {
      FirstSegment(path[1..]);
      assert path == [path[0]] + path[1..];
    }
  }

  /** What a registry's author can check: some path begins with `.`, and no entry sits at the empty path. */
  lemma BlindSpotIsALeadingDot(paths: seq<string>)
    ensures BlindSpot(ScopeOf(paths)) <==> (exists p :: p in paths && p != "" && p[0] == '.') && "" !in paths
  {
    forall p | p in paths ensures "" in PrefixesOf(p) <==> p != "" && p[0] == '.' {
      FirstSegment(p);
      if "" in PrefixesOf(p) { EmptyPrefix(p); }
      if p != "" && p[0] == '.' {
        assert Split(p)[..1] == [""];
        assert Join(Split(p)[..1]) in PrefixesOf(p);
      }
    }
  }

  lemma AccountingHoldsExactly(s: Schema)
    requires WellFormed(s)
    ensures (forall tree | DotFreeNames(tree) :: AccountsFor(tree, s)) <==>
      !BlindSpot(ScopeOf(SchemaPaths(s))) && !ReadsBehindExtension(SchemaPaths(s))
  {
    if BlindSpot(ScopeOf(SchemaPaths(s))) {
      BlindSpotLosesALeaf(s);
    } else if ReadsBehindExtension(SchemaPaths(s)) {
      BehindExtensionIsTwice(s);
    } else {
      forall tree | DotFreeNames(tree) ensures AccountsFor(tree, s) {
        WalkAccountsForEveryLeaf(tree, s);
      }
    }
  }

  lemma DeletionHarmlessExactlyWithoutBlindSpot(s: Schema)
    requires WellFormed(s)
    ensures (forall tree | DotFreeNames(tree) :: DeletionIsHarmless(tree, s)) <==> !BlindSpot(ScopeOf(SchemaPaths(s)))
  {
    if BlindSpot(ScopeOf(SchemaPaths(s))) {
      BlindSpotDeletesAReading(s);
    } else {
      forall tree | DotFreeNames(tree) ensures DeletionIsHarmless(tree, s) {
        DeletingReportsChangesNoReading(tree, s);
      }
    }
  }
}
