/**
What `findUnknownSchemaPaths` is for: every part of a document is exactly one of read, an extension, or
reported, and what is reported can be deleted without changing what is read.

A path that begins with `.` has an empty first segment, which the walk cannot tell from having no
prefix at all; and a path behind an `x-` segment is read although the walk passes it over as an extension.
*/
module FileTreeTheorems {
  import opened Basics
  import opened ConfigSchema
  import opened DottedPaths
  import opened FileTree

  /** The walk would descend into a key with the empty name, and then lose the prefix. */
  ghost predicate BlindSpot(scope: Scope) {
    "" in scope.traversed && "" !in scope.claimed
  }

  ghost predicate DotFreeNames(tree: Value) {
    forall loc :: At(tree, loc).Some? ==> DotFree(loc)
  }

  ghost predicate IsLeaf(tree: Value, loc: seq<string>) {
    loc != [] && At(tree, loc).Some? && !At(tree, loc).value.Record?
  }

  /** A claimed path lies at or above the location. */
  ghost predicate AtOrBelowClaim(scope: Scope, loc: seq<string>) {
    exists k :: 1 <= k <= |loc| && Join(loc[..k]) in scope.claimed
  }

  /** The walk reaches the location or one above it as an extension key that nothing at or above it claims. */
  ghost predicate AtOrBelowExtension(scope: Scope, loc: seq<string>) {
    exists k :: ExtensionAt(scope, loc, k)
  }

  ghost predicate ExtensionAt(scope: Scope, loc: seq<string>, k: int) {
    1 <= k <= |loc| && IsExtension(loc[k - 1]) && WalkedThrough(scope, loc, k) && Unclaimed(scope, loc, k)
  }

  ghost predicate Unclaimed(scope: Scope, loc: seq<string>, k: nat)
    requires k <= |loc|
  {
    forall j | 1 <= j <= k :: Join(loc[..j]) !in scope.claimed
  }

  ghost predicate WalkedThrough(scope: Scope, loc: seq<string>, k: nat)
    requires k <= |loc| + 1
  {
    forall j | 1 <= j < k :: Join(loc[..j]) in scope.traversed
  }

  /** A reported path names the location or one above it. */
  ghost predicate AtOrBelowReport(tree: Value, s: Schema, loc: seq<string>)
    requires WellFormed(s)
  {
    exists k :: 1 <= k <= |loc| && Reports(tree, s, loc[..k])
  }

  ghost predicate Reports(tree: Value, s: Schema, loc: seq<string>)
    requires WellFormed(s)
  {
    exists path :: IsUnknown(tree, s, path) && Split(path) == loc
  }

  // ---------- what a report names ----------

  /** Without a blind spot a reported path spells its location. */
  lemma ReportSpellsLocation(tree: Value, scope: Scope, loc: seq<string>)
    requires Reported(tree, "", scope, loc) && !BlindSpot(scope)
    ensures DisplayOf("", loc) == Join(loc)
  {
    if |loc| > 1 {
      assert Join([loc[0]]) == loc[0];
      DisplayBelow([loc[0]], loc[1..]);
      assert [loc[0]] + loc[1..] == loc;
    } else {
      assert loc[1..] == [];
    }
  }

  lemma {:induction false} ReportedIsThere(node: Value, prefix: string, scope: Scope, loc: seq<string>)
    requires Reported(node, prefix, scope, loc)
    ensures At(node, loc).Some?
    decreases |loc|
  {
    if |loc| > 1 {
      ReportedIsThere(node.fields[loc[0]], Display(prefix, loc[0]), scope, loc[1..]);
    } else {
      assert loc[1..] == [];
    }
  }

  ghost predicate Passes(scope: Scope, at: seq<string>, loc: seq<string>, k: int)
    requires 1 <= k <= |loc|
  {
    Join(at + loc[..k]) !in scope.claimed && !IsExtension(loc[k - 1])
  }

  /** Where the walk below a spelled prefix `at` stops with a report, in terms of the spelled paths alone. */
  ghost predicate StopsBelow(node: Value, at: seq<string>, scope: Scope, loc: seq<string>)
  {
    && loc != [] && At(node, loc).Some?
    && (forall k | 1 <= k < |loc| :: Join(at + loc[..k]) in scope.traversed)
    && (forall k | 1 <= k <= |loc| :: Passes(scope, at, loc, k))
    && !(Join(at + loc) in scope.traversed && At(node, loc).value.Record?)
  }

  lemma {:induction false} ReportedIffStops(node: Value, at: seq<string>, scope: Scope, loc: seq<string>)
    requires !BlindSpot(scope) && (at == [] || Join(at) != "")
    ensures Reported(node, if at == [] then "" else Join(at), scope, loc) <==> StopsBelow(node, at, scope, loc)
    decreases |loc|
  {
    var prefix := if at == [] then "" else Join(at);
    if loc != [] && node.Record? && loc[0] in node.fields {
      var path, value, rest := Display(prefix, loc[0]), node.fields[loc[0]], loc[1..];
      var below := at + [loc[0]];
      if at != [] { JoinAppend(at, loc[0]); } else { assert below == [loc[0]]; }
      assert path == Join(below);
      assert loc[..1] == [loc[0]] && At(value, []) == Some(value);
      if |loc| == 1 {
        assert rest == [] && loc == [loc[0]] && at + loc == below && at + loc[..1] == below;
        assert At(node, loc) == Some(value);
        assert Passes(scope, at, loc, 1) <==> path !in scope.claimed && !IsExtension(loc[0]);
        assert StopsBelow(node, at, scope, loc) <==>
          Passes(scope, at, loc, 1) && !(Join(at + loc) in scope.traversed && value.Record?);
      } else {
        forall k | 1 <= k <= |rest| ensures below + rest[..k] == at + loc[..k + 1] && rest[k - 1] == loc[k] {
        }
        assert below + rest == at + loc;
        StepDown(node, at, scope, loc);
        if path in scope.traversed && path !in scope.claimed {
          ReportedIffStops(value, below, scope, rest);
        }
      }
    }
  }

  lemma StepDown(node: Value, at: seq<string>, scope: Scope, loc: seq<string>)
    requires |loc| > 1 && node.Record? && loc[0] in node.fields
    ensures StopsBelow(node, at, scope, loc) <==> DescendsTo(node, at, scope, loc)
  {
    var below, value, rest := at + [loc[0]], node.fields[loc[0]], loc[1..];
    assert below == at + loc[..1] && below + rest == at + loc;
    assert At(node, loc) == At(value, rest);
    forall k | 1 <= k <= |rest| ensures below + rest[..k] == at + loc[..k + 1] && rest[k - 1] == loc[k] {
    }
    if StopsBelow(node, at, scope, loc) {
      assert Passes(scope, at, loc, 1) && Join(at + loc[..1]) in scope.traversed;
      forall k | 1 <= k <= |rest| ensures Passes(scope, below, rest, k) {
        assert Passes(scope, at, loc, k + 1);
      }
      forall k | 1 <= k < |rest| ensures Join(below + rest[..k]) in scope.traversed {
        assert Join(at + loc[..k + 1]) in scope.traversed;
      }
    }
    if DescendsTo(node, at, scope, loc) {
      forall k | 1 <= k <= |loc| ensures Passes(scope, at, loc, k) {
        assert k > 1 ==> Passes(scope, below, rest, k - 1) && below + rest[..k - 1] == at + loc[..k];
      }
      forall k | 1 <= k < |loc| ensures Join(at + loc[..k]) in scope.traversed {
        assert k > 1 ==> Join(below + rest[..k - 1]) in scope.traversed && below + rest[..k - 1] == at + loc[..k];
      }
    }
  }

  ghost predicate DescendsTo(node: Value, at: seq<string>, scope: Scope, loc: seq<string>)
    requires loc != [] && node.Record? && loc[0] in node.fields
  {
    var below, value := at + [loc[0]], node.fields[loc[0]];
    && Join(below) in scope.traversed && Join(below) !in scope.claimed && !IsExtension(loc[0])
    && value.Record? && StopsBelow(value, below, scope, loc[1..])
  }

  /** The same at the root of a document. */
  lemma ReportedAtRoot(tree: Value, scope: Scope, loc: seq<string>)
    requires !BlindSpot(scope)
    ensures Reported(tree, "", scope, loc) <==> StopsBelow(tree, [], scope, loc)
  {
    ReportedIffStops(tree, [], scope, loc);
  }

  /** Without a blind spot, in a document of dot-free names, reports and reported locations are the same thing. */
  lemma ReportsAreLocations(tree: Value, s: Schema, loc: seq<string>)
    requires WellFormed(s) && !BlindSpot(ScopeOf(SchemaPaths(s))) && DotFreeNames(tree)
    ensures Reports(tree, s, loc) <==> StopsBelow(tree, [], ScopeOf(SchemaPaths(s)), loc)
  {
    var scope := ScopeOf(SchemaPaths(s));
    if Reports(tree, s, loc) {
      var path :| IsUnknown(tree, s, path) && Split(path) == loc;
      var at :| Reported(tree, "", scope, at) && path == DisplayOf("", at);
      ReportSpellsLocation(tree, scope, at);
      ReportedIsThere(tree, "", scope, at);
      SplitJoin(at);
      ReportedAtRoot(tree, scope, loc);
    }
    if StopsBelow(tree, [], scope, loc) {
      ReportedAtRoot(tree, scope, loc);
      ReportSpellsLocation(tree, scope, loc);
      SplitJoin(loc);
      assert IsUnknown(tree, s, Join(loc));
    }
  }

  // ---------- a key at the top of a document ----------

  lemma ExtensionIsPrefix(name: string)
    ensures IsExtension(name) <==> "x-" <= name
  {
    if |name| >= 2 { assert name[..2] == [name[0], name[1]]; }
  }

  lemma DisplayHasDot(prefix: string, name: string)
    ensures '.' in Display(prefix, name) <==> prefix != "" || '.' in name
  {
    if prefix != "" { assert Display(prefix, name)[|prefix|] == '.'; }
  }

  /** A printed path without a dot is its last name. */
  lemma {:induction false} PlainIsLastName(prefix: string, loc: seq<string>)
    requires loc != [] && '.' !in DisplayOf(prefix, loc)
    ensures DisplayOf(prefix, loc) == loc[|loc| - 1]
    decreases |loc|
  {
    var path := Display(prefix, loc[0]);
    if |loc| == 1 {
      assert loc[1..] == [] && DisplayOf(path, []) == path;
      DisplayHasDot(prefix, loc[0]);
    } else {
      PlainIsLastName(path, loc[1..]);
    }
  }

  lemma {:induction false} ReportedIsNoExtension(node: Value, prefix: string, scope: Scope, loc: seq<string>)
    requires Reported(node, prefix, scope, loc)
    ensures !("x-" <= loc[|loc| - 1])
    decreases |loc|
  {
    if |loc| > 1 {
      ReportedIsNoExtension(node.fields[loc[0]], Display(prefix, loc[0]), scope, loc[1..]);
    } else {
      ExtensionIsPrefix(loc[0]);
    }
  }

  /** No entry reads the key, nor anything below it. */
  ghost predicate IsForeign(paths: seq<string>, name: string) {
    forall p | p in paths :: p != name && !(name + "." <= p)
  }

  lemma ForeignIsNotWalked(paths: seq<string>, name: string)
    requires IsForeign(paths, name)
    ensures name !in ScopeOf(paths).claimed && name !in ScopeOf(paths).traversed
  {
    forall p | p in paths ensures name !in PrefixesOf(p) {
      var segments := Split(p);
      forall i | 1 <= i < |segments| ensures Join(segments[..i]) != name {
        JoinSplit(p);
        JoinConcat(segments[..i], segments[i..]);
        assert segments[..i] + segments[i..] == segments;
      }
    }
  }

  /** A key at the top that no entry has to do with is reported, exactly if it does not begin with `x-`. */
  lemma ForeignKeyIsReported(tree: Value, s: Schema, name: string)
    requires WellFormed(s) && tree.Record? && name in tree.fields && '.' !in name
    requires IsForeign(SchemaPaths(s), name)
    ensures IsUnknown(tree, s, name) <==> !("x-" <= name)
  {
    var scope := ScopeOf(SchemaPaths(s));
    ForeignIsNotWalked(SchemaPaths(s), name);
    if IsUnknown(tree, s, name) {
      var loc :| Reported(tree, "", scope, loc) && name == DisplayOf("", loc);
      PlainIsLastName("", loc);
      ReportedIsNoExtension(tree, "", scope, loc);
    }
    if !("x-" <= name) {
      ExtensionIsPrefix(name);
      assert [name][1..] == [] && DisplayOf("", [name]) == name;
      assert Reported(tree, "", scope, [name]);
    }
  }

  // ---------- every part of a document is accounted for ----------

  /** Every leaf lies at or below exactly one of a claimed path, an unclaimed extension key and a reported path. */
  ghost predicate AccountsFor(tree: Value, s: Schema)
    requires WellFormed(s)
  {
    forall loc | IsLeaf(tree, loc) :: HasOneFate(tree, s, loc)
  }

  ghost predicate HasOneFate(tree: Value, s: Schema, loc: seq<string>)
    requires WellFormed(s)
  {
    var scope := ScopeOf(SchemaPaths(s));
    && (AtOrBelowReport(tree, s, loc) <==> !AtOrBelowClaim(scope, loc) && !AtOrBelowExtension(scope, loc))
    && !(AtOrBelowClaim(scope, loc) && AtOrBelowExtension(scope, loc))
  }

  /** A registry reads behind an extension key: a path passes through an `x-` segment with no claim at or above it. */
  ghost predicate ReadsBehindExtension(paths: seq<string>) {
    exists path, k :: PassesExtension(paths, path, k)
  }

  ghost predicate PassesExtension(paths: seq<string>, path: string, k: int) {
    && path in paths && 1 <= k < |Split(path)| && IsExtension(Split(path)[k - 1])
    && Unclaimed(ScopeOf(paths), Split(path), k)
  }

  lemma {:induction false} PrefixIsRecord(node: Value, loc: seq<string>, k: nat)
    requires At(node, loc).Some? && k < |loc|
    ensures At(node, loc[..k]).Some? && At(node, loc[..k]).value.Record?
    decreases k
  {
    if k > 0 {
      assert loc[..k][1..] == loc[1..][..k - 1];
      PrefixIsRecord(node.fields[loc[0]], loc[1..], k - 1);
    }
  }

  /** Once the walk has stopped above a leaf, nothing above it was claimed or an extension, and it goes no further. */
  lemma StoppedAbove(tree: Value, scope: Scope, loc: seq<string>, n: nat)
    requires IsLeaf(tree, loc) && 1 <= n <= |loc| && StopsBelow(tree, [], scope, loc[..n])
    ensures n < |loc| ==> Join(loc[..n]) !in scope.traversed
    ensures forall k | 1 <= k <= n :: Join(loc[..k]) !in scope.claimed
    ensures !AtOrBelowExtension(scope, loc)
  {
    var top := loc[..n];
    assert [] + top == top;
    if n < |loc| {
      PrefixIsRecord(tree, loc, n);
    }
    forall k | 1 <= k <= n ensures Join(loc[..k]) !in scope.claimed && !IsExtension(loc[k - 1]) {
      assert Passes(scope, [], top, k) && [] + top[..k] == loc[..k] && top[k - 1] == loc[k - 1];
    }
    forall k ensures !ExtensionAt(scope, loc, k) {
      if 1 <= k <= n {
        assert Passes(scope, [], top, k) && top[k - 1] == loc[k - 1];
      } else if n < k <= |loc| {
        assert Join(loc[..n]) !in scope.traversed && !WalkedThrough(scope, loc, k);
      }
    }
  }

  lemma ReportedLeafIsNothingElse(tree: Value, s: Schema, loc: seq<string>)
    requires WellFormed(s) && !BlindSpot(ScopeOf(SchemaPaths(s))) && DotFreeNames(tree)
    requires IsLeaf(tree, loc) && AtOrBelowReport(tree, s, loc)
    ensures !AtOrBelowClaim(ScopeOf(SchemaPaths(s)), loc) && !AtOrBelowExtension(ScopeOf(SchemaPaths(s)), loc)
  {
    var scope := ScopeOf(SchemaPaths(s));
    var n :| 1 <= n <= |loc| && Reports(tree, s, loc[..n]);
    ReportsAreLocations(tree, s, loc[..n]);
    StoppedAbove(tree, scope, loc, n);
    forall k | n < k <= |loc| ensures Join(loc[..k]) !in scope.claimed {
      if Join(loc[..k]) in scope.claimed {
        assert loc[..k][..n] == loc[..n];
        ClaimIsWalkedTo(s, loc[..k], n, tree, loc);
      }
    }
  }

  /** Every proper prefix of a claimed path is walked through. */
  lemma ClaimIsWalkedTo(s: Schema, claim: seq<string>, n: nat, tree: Value, loc: seq<string>)
    requires WellFormed(s) && DotFreeNames(tree) && At(tree, loc).Some? && claim <= loc
    requires 1 <= n < |claim| && Join(claim) in ScopeOf(SchemaPaths(s)).claimed
    ensures Join(claim[..n]) in ScopeOf(SchemaPaths(s)).traversed
  {
    assert DotFree(loc);
    forall segment | segment in claim ensures segment in loc {
      var i :| 0 <= i < |claim| && claim[i] == segment;
      assert loc[i] == segment;
    }
    SplitJoin(claim);
    assert Join(claim[..n]) in PrefixesOf(Join(claim));
  }

  lemma {:induction false} UnclaimedLeafIsReported(tree: Value, s: Schema, loc: seq<string>, k: nat)
    requires WellFormed(s) && !BlindSpot(ScopeOf(SchemaPaths(s))) && DotFreeNames(tree) && IsLeaf(tree, loc)
    requires !AtOrBelowClaim(ScopeOf(SchemaPaths(s)), loc) && !AtOrBelowExtension(ScopeOf(SchemaPaths(s)), loc)
    requires 1 <= k <= |loc| && WalkedThrough(ScopeOf(SchemaPaths(s)), loc, k)
    ensures AtOrBelowReport(tree, s, loc)
    decreases |loc| - k
  {
    var scope := ScopeOf(SchemaPaths(s));
    if Join(loc[..k]) in scope.traversed && k < |loc| {
      UnclaimedLeafIsReported(tree, s, loc, k + 1);
    } else {
      StopsHere(tree, scope, loc, k);
      ReportsAreLocations(tree, s, loc[..k]);
    }
  }

  lemma StopsHere(tree: Value, scope: Scope, loc: seq<string>, k: nat)
    requires IsLeaf(tree, loc) && !AtOrBelowClaim(scope, loc) && !AtOrBelowExtension(scope, loc)
    requires 1 <= k <= |loc| && WalkedThrough(scope, loc, k)
    requires Join(loc[..k]) !in scope.traversed || k == |loc|
    ensures StopsBelow(tree, [], scope, loc[..k])
  {
    var top := loc[..k];
    assert [] + top == top;
    forall j | 1 <= j <= k ensures Passes(scope, [], top, j) {
      assert [] + top[..j] == loc[..j] && top[j - 1] == loc[j - 1];
      assert Unclaimed(scope, loc, j) && WalkedThrough(scope, loc, j) && !ExtensionAt(scope, loc, j);
    }
    forall j | 1 <= j < k ensures Join([] + top[..j]) in scope.traversed {
      assert [] + top[..j] == loc[..j];
    }
    if k < |loc| { PrefixIsRecord(tree, loc, k); } else { assert top == loc; }
  }

  lemma ReportedIffNothingElse(tree: Value, s: Schema, loc: seq<string>)
    requires WellFormed(s) && !BlindSpot(ScopeOf(SchemaPaths(s))) && DotFreeNames(tree) && IsLeaf(tree, loc)
    ensures var scope := ScopeOf(SchemaPaths(s));
      AtOrBelowReport(tree, s, loc) <==> !AtOrBelowClaim(scope, loc) && !AtOrBelowExtension(scope, loc)
  {
    var scope := ScopeOf(SchemaPaths(s));
    if AtOrBelowReport(tree, s, loc) {
      ReportedLeafIsNothingElse(tree, s, loc);
    }
    if !AtOrBelowClaim(scope, loc) && !AtOrBelowExtension(scope, loc) {
      UnclaimedLeafIsReported(tree, s, loc, 1);
    }
  }

  /** A claim below an extension key that the walk reaches is a path that reads behind it. */
  lemma ClaimBehindExtension(paths: seq<string>, loc: seq<string>)
    requires DotFree(loc) && AtOrBelowClaim(ScopeOf(paths), loc) && AtOrBelowExtension(ScopeOf(paths), loc)
    ensures ReadsBehindExtension(paths)
  {
    var scope := ScopeOf(paths);
    var m :| 1 <= m <= |loc| && Join(loc[..m]) in scope.claimed;
    var k :| ExtensionAt(scope, loc, k);
    var claim, path := loc[..m], Join(loc[..m]);
    assert DotFree(claim) by {
      forall segment | segment in claim ensures segment in loc { }
    }
    SplitJoin(claim);
    assert k < m;
    forall j | 1 <= j <= k ensures claim[..j] == loc[..j] { }
    assert PassesExtension(paths, path, k);
  }

  lemma WalkAccountsForEveryLeaf(tree: Value, s: Schema)
    requires WellFormed(s) && DotFreeNames(tree)
    requires !BlindSpot(ScopeOf(SchemaPaths(s))) && !ReadsBehindExtension(SchemaPaths(s))
    ensures AccountsFor(tree, s)
  {
    var scope := ScopeOf(SchemaPaths(s));
    forall loc | IsLeaf(tree, loc) ensures HasOneFate(tree, s, loc) {
      ReportedIffNothingElse(tree, s, loc);
      if AtOrBelowClaim(scope, loc) && AtOrBelowExtension(scope, loc) {
        ClaimBehindExtension(SchemaPaths(s), loc);
      }
    }
  }

  // ---------- what is reported can be deleted ----------

  /** The locations the reported paths name. */
  ghost function ReportedLocations(tree: Value, s: Schema): iset<seq<string>>
    requires WellFormed(s)
  {
    iset loc | Reports(tree, s, loc)
  }

  ghost function Prune(node: Value, at: seq<string>, gone: iset<seq<string>>): Value
    decreases node
  {
    if node.Record?
    then Record(map n | n in node.fields && at + [n] !in gone :: Prune(node.fields[n], at + [n], gone))
    else node
  }

  lemma {:induction false} PrunedAt(node: Value, at: seq<string>, gone: iset<seq<string>>, loc: seq<string>)
    ensures At(Prune(node, at, gone), loc) ==
      if (exists k :: 1 <= k <= |loc| && at + loc[..k] in gone) || At(node, loc).None? then None
      else Some(Prune(At(node, loc).value, at + loc, gone))
    decreases |loc|
  {
    if loc == [] {
      assert at + loc == at;
    } else {
      assert loc[..1] == [loc[0]];
      var below, rest := at + [loc[0]], loc[1..];
      if node.Record? && loc[0] in node.fields && below !in gone {
        PrunedAt(node.fields[loc[0]], below, gone, rest);
        assert below + rest == at + loc;
        forall k | 2 <= k <= |loc| ensures at + loc[..k] == below + rest[..k - 1] {
        }
        if k :| 1 <= k <= |rest| && below + rest[..k] in gone {
          assert below + rest[..k] == at + loc[..k + 1];
        }
      }
    }
  }

  lemma {:induction false} PruneNothing(node: Value, at: seq<string>, gone: iset<seq<string>>)
    requires forall below | below != [] :: at + below !in gone
    ensures Prune(node, at, gone) == node
    decreases node
  {
    if node.Record? {
      forall n | n in node.fields ensures at + [n] !in gone && Prune(node.fields[n], at + [n], gone) == node.fields[n] {
        forall below | below != [] ensures at + [n] + below !in gone {
          assert at + [n] + below == at + ([n] + below);
        }
        PruneNothing(node.fields[n], at + [n], gone);
      }
    }
  }

  lemma ClaimedReadingSurvives(tree: Value, s: Schema, path: string)
    requires WellFormed(s) && !BlindSpot(ScopeOf(SchemaPaths(s))) && DotFreeNames(tree)
    requires path in SchemaPaths(s)
    ensures At(Prune(tree, [], ReportedLocations(tree, s)), Split(path)) == At(tree, Split(path))
  {
    JoinSplit(path);
    forall j | 1 <= j < |Split(path)| ensures Join(Split(path)[..j]) in PrefixesOf(path) {
    }
    ClaimedLocationSurvives(tree, s, Split(path));
  }

  /** A claimed location, with every location above it walked through. */
  ghost predicate IsClaimed(scope: Scope, loc: seq<string>) {
    loc != [] && Join(loc) in scope.claimed && forall j | 1 <= j < |loc| :: Join(loc[..j]) in scope.traversed
  }

  lemma ClaimedLocationSurvives(tree: Value, s: Schema, loc: seq<string>)
    requires WellFormed(s) && !BlindSpot(ScopeOf(SchemaPaths(s))) && DotFreeNames(tree)
    requires IsClaimed(ScopeOf(SchemaPaths(s)), loc)
    ensures At(Prune(tree, [], ReportedLocations(tree, s)), loc) == At(tree, loc)
  {
    var gone := ReportedLocations(tree, s);
    PrunedAt(tree, [], gone, loc);
    assert [] + loc == loc;
    if At(tree, loc).Some? {
      forall k | 1 <= k <= |loc| ensures [] + loc[..k] !in gone {
        NoReportOnTheWay(tree, s, loc, k);
        assert [] + loc[..k] == loc[..k];
      }
      forall below: seq<string> | below != [] ensures loc + below !in gone {
        NoReportBelow(tree, s, loc, below);
      }
      PruneNothing(At(tree, loc).value, loc, gone);
    }
  }

  /** A report on the way to a claimed location would name something that holds nothing there. */
  lemma NoReportOnTheWay(tree: Value, s: Schema, loc: seq<string>, k: nat)
    requires WellFormed(s) && !BlindSpot(ScopeOf(SchemaPaths(s))) && DotFreeNames(tree)
    requires IsClaimed(ScopeOf(SchemaPaths(s)), loc) && 1 <= k <= |loc| && At(tree, loc).Some?
    ensures !Reports(tree, s, loc[..k])
  {
    var scope, top := ScopeOf(SchemaPaths(s)), loc[..k];
    ReportsAreLocations(tree, s, top);
    assert [] + top == top && top[..k] == top;
    if k < |loc| {
      PrefixIsRecord(tree, loc, k);
      assert Join(top) in scope.traversed;
    } else {
      assert top == loc && !Passes(scope, [], top, k);
    }
  }

  lemma NoReportBelow(tree: Value, s: Schema, loc: seq<string>, below: seq<string>)
    requires WellFormed(s) && !BlindSpot(ScopeOf(SchemaPaths(s))) && DotFreeNames(tree)
    requires IsClaimed(ScopeOf(SchemaPaths(s)), loc) && below != []
    ensures !Reports(tree, s, loc + below)
  {
    ReportsAreLocations(tree, s, loc + below);
    assert [] + (loc + below)[..|loc|] == loc;
    assert !Passes(ScopeOf(SchemaPaths(s)), [], loc + below, |loc|);
  }

  lemma {:induction false} EntryPathIsCollected(s: Schema, loc: Location, i: nat)
    requires WellFormed(s) && EntryAt(s, loc).Some?
    requires i < |s.keys| && s.keys[i] == loc[0]
    ensures forall j | 0 <= j <= i :: PathOf(loc[|loc| - 1], EntryAt(s, loc).value) in PathsFrom(s, j)
    decreases s, i
  {
    var path := PathOf(loc[|loc| - 1], EntryAt(s, loc).value);
    match s.items[loc[0]] {
      case Leaf(_) =>
      case Sub(inner) =>
        var k :| 0 <= k < |inner.keys| && inner.keys[k] == loc[1];
        EntryPathIsCollected(inner, loc[1..], k);
        assert loc[1..][|loc[1..]| - 1] == loc[|loc| - 1];
        assert path in PathsFrom(inner, 0);
        assert path in SchemaPaths(inner);
        assert path in SchemaPaths(inner) + PathsFrom(s, i + 1);
    }
    CollectedEarlier(s, i, path);
  }

  lemma {:induction false} CollectedEarlier(s: Schema, i: nat, path: string)
    requires WellFormed(s) && i <= |s.keys| && path in PathsFrom(s, i)
    ensures forall j | 0 <= j <= i :: path in PathsFrom(s, j)
    decreases i
  {
    if i > 0 { CollectedEarlier(s, i - 1, path); }
  }

  lemma {:induction false} SameReadingsSamePass(s: Schema, a: Reading, b: Reading)
    requires forall loc: Location | EntryAt(s, loc).Some? :: SameReading(s, a, b, loc)
    ensures Pass(s, a, false) == Pass(s, b, false)
    decreases s
  {
    forall k | k in s.items && s.items[k].Leaf? ensures a(k, s.items[k].entry) == b(k, s.items[k].entry) {
      assert EntryAt(s, [k]).Some? && SameReading(s, a, b, [k]);
    }
    forall k | k in s.items && s.items[k].Sub?
      ensures Pass(s.items[k].schema, a, false) == Pass(s.items[k].schema, b, false)
    {
      var inner := s.items[k].schema;
      forall loc: Location | EntryAt(inner, loc).Some? ensures SameReading(inner, a, b, loc) {
        var longer := [k] + loc;
        assert longer[1..] == loc && SameReading(s, a, b, longer);
      }
      SameReadingsSamePass(inner, a, b);
    }
  }

  ghost predicate SameReading(s: Schema, a: Reading, b: Reading, loc: Location)
    requires EntryAt(s, loc).Some?
  {
    a(loc[|loc| - 1], EntryAt(s, loc).value) == b(loc[|loc| - 1], EntryAt(s, loc).value)
  }

  ghost predicate DeletionIsHarmless(tree: Value, s: Schema)
    requires WellFormed(s)
  {
    FileData(Prune(tree, [], ReportedLocations(tree, s)), s) == FileData(tree, s)
  }

  lemma DeletingReportsChangesNoReading(tree: Value, s: Schema)
    requires WellFormed(s) && !BlindSpot(ScopeOf(SchemaPaths(s))) && DotFreeNames(tree)
    ensures DeletionIsHarmless(tree, s)
  {
    var pruned := Prune(tree, [], ReportedLocations(tree, s));
    forall loc: Location | EntryAt(s, loc).Some? ensures SameReading(s, FileReading(pruned), FileReading(tree), loc) {
      var i :| 0 <= i < |s.keys| && s.keys[i] == loc[0];
      EntryPathIsCollected(s, loc, i);
      ClaimedReadingSurvives(tree, s, PathOf(loc[|loc| - 1], EntryAt(s, loc).value));
    }
    SameReadingsSamePass(s, FileReading(pruned), FileReading(tree));
  }
}
