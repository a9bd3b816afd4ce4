/**
The file passes of `packages/server-config-kit/src/source/file.ts`: reading a document at the paths a
registry declares, and reporting the paths of a document no entry claims.

A document is a `Value`; names of a record are its own properties, so no path leads onto a prototype.
*/
module FileTree {
  import opened Basics
  import opened ConfigSchema
  import opened DottedPaths

  // ---------- reading ----------

  function At(node: Value, segments: seq<string>): Option<Value>
    decreases |segments|
  {
    if segments == [] then Some(node)
    else if node.Record? && segments[0] in node.fields then At(node.fields[segments[0]], segments[1..])
    else None
  }

  method ReadTreePath(tree: Value, path: string) returns (r: Option<Value>)
    ensures r == At(tree, Split(path))
  {
    var node, segments := tree, Split(path);
    assert segments[0..] == segments;
    for i := 0 to |segments|
      invariant At(tree, segments) == At(node, segments[i..])
    {
      if !node.Record? || segments[i] !in node.fields {
        return None;
      }
      node := node.fields[segments[i]];
      assert segments[i..][1..] == segments[i + 1..];
    }
    return Some(node);
  }

  function FileReading(tree: Value): Reading {
    (key, entry) => At(tree, Split(PathOf(key, entry)))
  }

  function FileData(tree: Value, s: Schema): Config {
    if tree.Record? then Pass(s, FileReading(tree), false) else EMPTY_CONFIG
  }

  method ReadSchemaFromFileTree(tree: Value, s: Schema) returns (data: Config)
    requires WellFormed(s)
    ensures data == FileData(tree, s)
    decreases s
  {
    if !tree.Record? {
      return EMPTY_CONFIG;
    }
    var read := FileReading(tree);
    data := EMPTY_CONFIG;
    ghost var done: set<string> := {};
    for n := 0 to |s.keys|
      invariant done == set i | 0 <= i < n :: s.keys[i]
      invariant done <= s.items.Keys && data == PassOf(s, read, false, done)
    {
      var key := s.keys[n];
      assert key in s.items && key !in done;
      PassOneMore(s, read, false, done, key);
      done := done + {key};
      match s.items[key] {
        case Leaf(entry) =>
          var value := ReadTreePath(tree, PathOf(key, entry));
          if value.Some? {
            data := data.(values := data.values[key := value.value]);
          }
        case Sub(sub) =>
          var value := ReadSchemaFromFileTree(tree, sub);
          if value != EMPTY_CONFIG {
            data := data.(sections := data.sections[key := value]);
          }
      }
    }
    assert done == s.items.Keys;
  }

  // ---------- collecting what the schema reads ----------

  /** The path of every entry, sections included, in declaration order. */
  function SchemaPaths(s: Schema): seq<string>
    requires WellFormed(s)
    decreases s, |s.keys| + 1
  {
    PathsFrom(s, 0)
  }

  function PathsFrom(s: Schema, i: nat): seq<string>
    requires WellFormed(s) && i <= |s.keys|
    decreases s, |s.keys| - i
  {
    if i == |s.keys| then []
    else
      assert s.keys[i] in s.items;
      (match s.items[s.keys[i]]
       case Leaf(entry) => [PathOf(s.keys[i], entry)]
       case Sub(sub) => SchemaPaths(sub)) + PathsFrom(s, i + 1)
  }

  datatype Scope = Scope(claimed: set<string>, traversed: set<string>)

  /** The locations walked through on the way to a path. */
  function PrefixesOf(path: string): set<string> {
    set i | 1 <= i < |Split(path)| :: Join(Split(path)[..i])
  }

  function ScopeOf(paths: seq<string>): Scope {
    Scope(set p | p in paths, set p, t | p in paths && t in PrefixesOf(p) :: t)
  }

  method CollectPrefixes(path: string) returns (walked: set<string>)
    ensures walked == PrefixesOf(path)
  {
    var segments := Split(path);
    walked := {};
    for i := 1 to |segments|
      invariant walked == set j | 1 <= j < i :: Join(segments[..j])
    {
      walked := walked + {Join(segments[..i])};
    }
  }

  /** What the keys from one on add to the two sets. */
  function ScopeFrom(s: Schema, i: nat): Scope
    requires WellFormed(s) && i <= |s.keys|
    decreases s, |s.keys| - i
  {
    if i == |s.keys| then Scope({}, {})
    else
      assert s.keys[i] in s.items;
      Both(match s.items[s.keys[i]]
           case Leaf(entry) => Scope({PathOf(s.keys[i], entry)}, PrefixesOf(PathOf(s.keys[i], entry)))
           case Sub(sub) => ScopeFrom(sub, 0),
           ScopeFrom(s, i + 1))
  }

  function Both(a: Scope, b: Scope): Scope {
    Scope(a.claimed + b.claimed, a.traversed + b.traversed)
  }

  method CollectSchemaPaths(s: Schema, claimed: set<string>, traversed: set<string>)
    returns (claimed': set<string>, traversed': set<string>)
    requires WellFormed(s)
    ensures claimed' == claimed + ScopeOf(SchemaPaths(s)).claimed
    ensures traversed' == traversed + ScopeOf(SchemaPaths(s)).traversed
    decreases s
  {
    ScopeFromIsScopeOf(s, 0);
    claimed', traversed' := claimed, traversed;
    ghost var all := Both(Scope(claimed, traversed), ScopeFrom(s, 0));
    for n := 0 to |s.keys|
      invariant Both(Scope(claimed', traversed'), ScopeFrom(s, n)) == all
    {
      var key := s.keys[n];
      assert key in s.items;
      ghost var before := Scope(claimed', traversed');
      match s.items[key] {
        case Leaf(entry) =>
          var path := PathOf(key, entry);
          var walked := CollectPrefixes(path);
          claimed', traversed' := claimed' + {path}, traversed' + walked;
          BothAssociates(before, Scope({path}, walked), ScopeFrom(s, n + 1));
        case Sub(sub) =>
          ScopeFromIsScopeOf(sub, 0);
          claimed', traversed' := CollectSchemaPaths(sub, claimed', traversed');
          BothAssociates(before, ScopeFrom(sub, 0), ScopeFrom(s, n + 1));
      }
    }
  }

  lemma BothAssociates(a: Scope, b: Scope, c: Scope)
    ensures Both(Both(a, b), c) == Both(a, Both(b, c))
  {
  }

  lemma {:induction false} ScopeFromIsScopeOf(s: Schema, i: nat)
    requires WellFormed(s) && i <= |s.keys|
    ensures ScopeFrom(s, i) == ScopeOf(PathsFrom(s, i))
    decreases s, |s.keys| - i
  {
    if i < |s.keys| {
      var key := s.keys[i];
      assert key in s.items;
      ScopeFromIsScopeOf(s, i + 1);
      match s.items[key] {
        case Leaf(entry) =>
          ScopeOfOne(PathOf(key, entry));
          ScopeOfConcat([PathOf(key, entry)], PathsFrom(s, i + 1));
        case Sub(sub) =>
          ScopeFromIsScopeOf(sub, 0);
          ScopeOfConcat(SchemaPaths(sub), PathsFrom(s, i + 1));
      }
    }
  }

  lemma ScopeOfOne(path: string)
    ensures ScopeOf([path]) == Scope({path}, PrefixesOf(path))
  {
  }

  lemma ScopeOfConcat(a: seq<string>, b: seq<string>)
    ensures ScopeOf(a + b) == Both(ScopeOf(a), ScopeOf(b))
  {
  }

  // ---------- the walk ----------

  predicate IsExtension(name: string) {
    |name| >= 2 && name[0] == 'x' && name[1] == '-'
  }

  function Display(prefix: string, name: string): string {
    if prefix != "" then prefix + "." + name else name
  }

  ghost function DisplayOf(prefix: string, loc: seq<string>): string
    decreases |loc|
  {
    if loc == [] then prefix else DisplayOf(Display(prefix, loc[0]), loc[1..])
  }

  /** The printed path below `at`, once the prefix is not empty. */
  lemma {:induction false} DisplayBelow(at: seq<string>, loc: seq<string>)
    requires at != [] && Join(at) != ""
    ensures DisplayOf(Join(at), loc) == Join(at + loc)
    decreases |loc|
  {
    if loc == [] {
      assert at + loc == at;
    } else {
      JoinAppend(at, loc[0]);
      DisplayBelow(at + [loc[0]], loc[1..]);
      assert at + [loc[0]] + loc[1..] == at + loc;
    }
  }

  /** The walk descends to the place `loc` of `node` and reports it there. */
  ghost predicate Reported(node: Value, prefix: string, scope: Scope, loc: seq<string>)
    decreases |loc|
  {
    && node.Record? && loc != [] && loc[0] in node.fields
    && var path, value := Display(prefix, loc[0]), node.fields[loc[0]];
       && path !in scope.claimed && !IsExtension(loc[0])
       && if path in scope.traversed && value.Record? then Reported(value, path, scope, loc[1..]) else |loc| == 1
  }

  ghost predicate ReportsBelow(node: Value, prefix: string, scope: Scope, names: set<string>, path: string) {
    exists loc :: Reported(node, prefix, scope, loc) && loc[0] in names && path == DisplayOf(prefix, loc)
  }

  method Walk(node: Value, prefix: string, scope: Scope) returns (unknown: seq<string>)
    requires node.Record?
    ensures forall path :: path in unknown <==> ReportsBelow(node, prefix, scope, node.fields.Keys, path)
    decreases node
  {
    unknown := [];
    var todo := node.fields.Keys;
    while todo != {}
      invariant todo <= node.fields.Keys
      invariant forall path :: path in unknown <==> ReportsBelow(node, prefix, scope, node.fields.Keys - todo, path)
    {
      var name :| name in todo;
      ghost var done := node.fields.Keys - todo;
      ghost var before := unknown;
      var path, value := Display(prefix, name), node.fields[name];
      todo := todo - {name};
      assert node.fields.Keys - todo == done + {name};
      if path in scope.claimed || IsExtension(name) {
      } else if path in scope.traversed && value.Record? {
        var nested := Walk(value, path, scope);
        unknown := unknown + nested;
      } else {
        unknown := unknown + [path];
      }
      forall p ensures p in unknown <==> ReportsBelow(node, prefix, scope, done + {name}, p) {
        OneMoreName(node, prefix, scope, done, name, p);
      }
    }
  }

  lemma OneMoreName(node: Value, prefix: string, scope: Scope, done: set<string>, name: string, p: string)
    requires node.Record? && name in node.fields && name !in done
    ensures var path, value := Display(prefix, name), node.fields[name];
      ReportsBelow(node, prefix, scope, done + {name}, p) <==>
      || ReportsBelow(node, prefix, scope, done, p)
      || (path !in scope.claimed && !IsExtension(name) &&
          if path in scope.traversed && value.Record? then ReportsBelow(value, path, scope, value.fields.Keys, p)
          else p == path)
  {
    var path, value := Display(prefix, name), node.fields[name];
    if ReportsBelow(node, prefix, scope, done + {name}, p) {
      var loc :| Reported(node, prefix, scope, loc) && loc[0] in done + {name} && p == DisplayOf(prefix, loc);
      if loc[0] == name {
        assert DisplayOf(prefix, loc) == DisplayOf(path, loc[1..]);
        if path in scope.traversed && value.Record? {
          assert Reported(value, path, scope, loc[1..]);
        }
      }
    }
    if path !in scope.claimed && !IsExtension(name) {
      if path in scope.traversed && value.Record? {
        forall loc | Reported(value, path, scope, loc) && p == DisplayOf(path, loc)
          ensures ReportsBelow(node, prefix, scope, done + {name}, p)
        {
          var longer := [name] + loc;
          assert longer[1..] == loc;
          assert Reported(node, prefix, scope, longer);
        }
      } else if p == path {
        assert Reported(node, prefix, scope, [name]) && DisplayOf(prefix, [name]) == path;
      }
    }
  }

  ghost predicate IsUnknown(tree: Value, s: Schema, path: string)
    requires WellFormed(s)
  {
    exists loc :: Reported(tree, "", ScopeOf(SchemaPaths(s)), loc) && path == DisplayOf("", loc)
  }

  method FindUnknownSchemaPaths(tree: Value, s: Schema) returns (unknown: seq<string>)
    requires WellFormed(s)
    ensures forall path :: path in unknown <==> IsUnknown(tree, s, path)
  {
    if !tree.Record? {
      return [];
    }
    var claimed, traversed := CollectSchemaPaths(s, {}, {});
    var scope := Scope(claimed, traversed);
    assert scope == ScopeOf(SchemaPaths(s));
    unknown := Walk(tree, "", scope);
    forall path ensures ReportsBelow(tree, "", scope, tree.fields.Keys, path) <==> IsUnknown(tree, s, path) {
    }
  }
}
