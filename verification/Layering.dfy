/**
The passes that produce and layer configuration values: `source/defaults.ts`, `source/env.ts`
and `source/merge.ts` of `packages/server-config-kit/src`. Each pass is a loop over the keys
of a registry that fills one record; the functions say what that record holds.
*/
module Layering {
  import opened Basics
  import opened ConfigSchema

  // ---------- the merge ----------

  function LastDefined(sources: seq<Config>, name: string): Option<Value> {
    if sources == [] then None
    else var last := sources[|sources| - 1];
         if name in last.values then Some(last.values[name]) else LastDefined(sources[..|sources| - 1], name)
  }

  function SectionOf(source: Config, name: string): seq<Config> {
    if name in source.sections then [source.sections[name]] else []
  }

  function SectionsOf(sources: seq<Config>, name: string): seq<Config> {
    if sources == [] then [] else SectionOf(sources[0], name) + SectionsOf(sources[1..], name)
  }

  function MergedValues(s: Schema, sources: seq<Config>, names: set<string>): map<string, Value>
    requires names <= s.items.Keys
  {
    map k | k in names && s.items[k].Leaf? && LastDefined(sources, k).Some? :: LastDefined(sources, k).value
  }

  function MergedSections(s: Schema, sources: seq<Config>, names: set<string>): map<string, Config>
    requires names <= s.items.Keys
    decreases s, 0
  {
    map k | k in names && s.items[k].Sub? :: Merge(s.items[k].schema, SectionsOf(sources, k))
  }

  /** What layering leaves for the keys `names` of a schema. */
  function MergeOf(s: Schema, sources: seq<Config>, names: set<string>): Config
    requires names <= s.items.Keys
  {
    Config(MergedValues(s, sources, names), MergedSections(s, sources, names))
  }

  function Merge(s: Schema, sources: seq<Config>): Config
    decreases s, 1
  {
    Config(MergedValues(s, sources, s.items.Keys), MergedSections(s, sources, s.items.Keys))
  }

  method LastValue(sources: seq<Config>, name: string) returns (value: Option<Value>)
    ensures value == LastDefined(sources, name)
  {
    assert sources[..|sources|] == sources;
    var i := |sources| - 1;
    while i >= 0
      invariant -1 <= i < |sources|
      invariant LastDefined(sources, name) == LastDefined(sources[..i + 1], name)
    {
      assert sources[..i + 1][..i] == sources[..i];
      if name in sources[i].values {
        return Some(sources[i].values[name]);
      }
      i := i - 1;
    }
    return None;
  }

  lemma SectionsFrom(sources: seq<Config>, j: nat, name: string, sections: seq<Config>)
    requires j < |sources|
    ensures sections + SectionsOf(sources[j..], name) ==
      (sections + SectionOf(sources[j], name)) + SectionsOf(sources[j + 1..], name)
  {
    assert sources[j..][1..] == sources[j + 1..];
    assert sources[j..][0] == sources[j];
  }

  method DefinedSections(sources: seq<Config>, name: string) returns (sections: seq<Config>)
    ensures sections == SectionsOf(sources, name)
  {
    sections := [];
    assert sources[0..] == sources;
    for j := 0 to |sources|
      invariant sections + SectionsOf(sources[j..], name) == SectionsOf(sources, name)
    {
      SectionsFrom(sources, j, name, sections);
      if name in sources[j].sections {
        sections := sections + [sources[j].sections[name]];
      } else {
        assert sections + [] == sections;
      }
    }
    assert sources[|sources|..] == [] && SectionsOf([], name) == [];
  }

  lemma ValuesOneMore(s: Schema, sources: seq<Config>, names: set<string>, name: string)
    requires names <= s.items.Keys && name in s.items
    ensures var before, value := MergedValues(s, sources, names), LastDefined(sources, name);
      MergedValues(s, sources, names + {name}) ==
        if s.items[name].Leaf? && value.Some? then before[name := value.value] else before
  {
  }

  lemma SectionsOneMore(s: Schema, sources: seq<Config>, names: set<string>, name: string)
    requires names <= s.items.Keys && name in s.items
    ensures var before, item := MergedSections(s, sources, names), s.items[name];
      MergedSections(s, sources, names + {name}) ==
        if item.Sub? then before[name := Merge(item.schema, SectionsOf(sources, name))] else before
  {
  }

  lemma MergeOneMore(s: Schema, sources: seq<Config>, names: set<string>, name: string)
    requires names <= s.items.Keys && name in s.items && name !in names
    ensures var before, after := MergeOf(s, sources, names), MergeOf(s, sources, names + {name});
      match s.items[name]
      case Sub(sub) => after == before.(sections := before.sections[name := Merge(sub, SectionsOf(sources, name))])
      case Leaf(_) =>
        match LastDefined(sources, name)
        case Some(v) => after == before.(values := before.values[name := v])
        case None => after == before
  {
    ValuesOneMore(s, sources, names, name);
    SectionsOneMore(s, sources, names, name);
  }

  method MergeSchemaData(s: Schema, sources: seq<Config>) returns (output: Config)
    requires WellFormed(s)
    ensures output == Merge(s, sources)
    decreases s
  {
    output := EMPTY_CONFIG;
    ghost var done: set<string> := {};
    for n := 0 to |s.keys|
      invariant done == set i | 0 <= i < n :: s.keys[i]
      invariant done <= s.items.Keys && output == MergeOf(s, sources, done)
    {
      var name := s.keys[n];
      assert name in s.items && name !in done;
      MergeOneMore(s, sources, done, name);
      done := done + {name};
      match s.items[name] {
        case Sub(sub) =>
          var sections := DefinedSections(sources, name);
          var merged := MergeSchemaData(sub, sections);
          output := output.(sections := output.sections[name := merged]);
        case Leaf(_) =>
          var value := LastValue(sources, name);
          if value.Some? {
            output := output.(values := output.values[name := value.value]);
          }
      }
    }
    assert done == s.items.Keys;
  }

  // ---------- the passes below it ----------

  function DefaultOf(key: string, entry: SchemaEntry): Option<Value> {
    entry.fallback
  }

  method BuildSchemaDefaults(s: Schema) returns (defaults: Config)
    requires WellFormed(s)
    ensures defaults == Pass(s, DefaultOf, true)
    decreases s
  {
    defaults := EMPTY_CONFIG;
    ghost var done: set<string> := {};
    for n := 0 to |s.keys|
      invariant done == set i | 0 <= i < n :: s.keys[i]
      invariant done <= s.items.Keys && defaults == PassOf(s, DefaultOf, true, done)
    {
      var key := s.keys[n];
      assert key in s.items && key !in done;
      PassOneMore(s, DefaultOf, true, done, key);
      done := done + {key};
      match s.items[key] {
        case Leaf(entry) =>
          if entry.fallback.Some? {
            defaults := defaults.(values := defaults.values[key := entry.fallback.value]);
          }
        case Sub(sub) =>
          var nested := BuildSchemaDefaults(sub);
          defaults := defaults.(sections := defaults.sections[key := nested]);
      }
    }
    assert done == s.items.Keys;
  }

  type Environment = map<string, string>

  /** One entry's variable: unset, unnamed and blank (the reader's own undefined) all read as nothing. */
  function ReadSchemaEntryFromEnv(entry: SchemaEntry, environment: Environment): Option<Value> {
    if entry.env.None? || entry.env.value == "" || entry.env.value !in environment then None
    else entry.readEnv(environment[entry.env.value])
  }

  function EnvReading(environment: Environment): Reading {
    (key, entry) => ReadSchemaEntryFromEnv(entry, environment)
  }

  method ReadSchemaFromEnv(s: Schema, environment: Environment) returns (options: Config)
    requires WellFormed(s)
    ensures options == Pass(s, EnvReading(environment), true)
    decreases s
  {
    var read := EnvReading(environment);
    options := EMPTY_CONFIG;
    ghost var done: set<string> := {};
    for n := 0 to |s.keys|
      invariant done == set i | 0 <= i < n :: s.keys[i]
      invariant done <= s.items.Keys && options == PassOf(s, read, true, done)
    {
      var key := s.keys[n];
      assert key in s.items && key !in done;
      PassOneMore(s, read, true, done, key);
      done := done + {key};
      match s.items[key] {
        case Leaf(entry) =>
          var value := ReadSchemaEntryFromEnv(entry, environment);
          if value.Some? {
            options := options.(values := options.values[key := value.value]);
          }
        case Sub(sub) =>
          var nested := ReadSchemaFromEnv(sub, environment);
          options := options.(sections := options.sections[key := nested]);
      }
    }
    assert done == s.items.Keys;
  }

  // ---------- what layering means ----------

  /** The value the last source that defines a location gives it. */
  ghost function LastAt(sources: seq<Config>, loc: Location): Option<Value> {
    if sources == [] then None
    else var last := Lookup(sources[|sources| - 1], loc);
         if last.Some? then last else LastAt(sources[..|sources| - 1], loc)
  }

  lemma {:induction false} SectionsOfConcat(a: seq<Config>, b: seq<Config>, name: string)
    ensures SectionsOf(a + b, name) == SectionsOf(a, name) + SectionsOf(b, name)
  {
    if a == [] {
      assert a + b == b;
    } else {
      assert (a + b)[1..] == a[1..] + b;
      SectionsOfConcat(a[1..], b, name);
      var x, y, z := SectionOf(a[0], name), SectionsOf(a[1..], name), SectionsOf(b, name);
      assert x + (y + z) == (x + y) + z;
    }
  }

  lemma {:induction false} LastAtOfSections(sources: seq<Config>, loc: Location)
    requires |loc| > 1
    ensures LastAt(SectionsOf(sources, loc[0]), loc[1..]) == LastAt(sources, loc)
  {
    if sources != [] {
      var n := |sources| - 1;
      var last := SectionsOf([sources[n]], loc[0]);
      assert sources == sources[..n] + [sources[n]];
      SectionsOfConcat(sources[..n], [sources[n]], loc[0]);
      LastAtOfSections(sources[..n], loc);
      var all, init := SectionsOf(sources, loc[0]), SectionsOf(sources[..n], loc[0]);
      assert all == init + last;
      if last == [] {
        assert all == init;
      } else {
        assert all[|all| - 1] == sources[n].sections[loc[0]] && all[..|all| - 1] == init;
      }
    }
  }

  lemma {:induction false} LastAtOfKey(sources: seq<Config>, loc: Location)
    requires |loc| == 1
    ensures LastAt(sources, loc) == LastDefined(sources, loc[0])
  {
    if sources != [] { LastAtOfKey(sources[..|sources| - 1], loc); }
  }

  /** Layering is per key at every depth: a source carrying one key of a section takes no other key with it. */
  lemma {:induction false} MergeLookup(s: Schema, sources: seq<Config>, loc: Location)
    ensures Lookup(Merge(s, sources), loc) == if EntryAt(s, loc).Some? then LastAt(sources, loc) else None
    decreases |loc|
  {
    if |loc| == 1 {
      LastAtOfKey(sources, loc);
    } else if |loc| > 1 && loc[0] in s.items && s.items[loc[0]].Sub? {
      MergeLookup(s.items[loc[0]].schema, SectionsOf(sources, loc[0]), loc[1..]);
      LastAtOfSections(sources, loc);
    }
  }

  lemma {:induction false} LastDefinedConcat(a: seq<Config>, b: seq<Config>, name: string)
    ensures LastDefined(a + b, name) ==
      if LastDefined(b, name).Some? then LastDefined(b, name) else LastDefined(a, name)
  {
    if b == [] {
      assert a + b == a;
    } else {
      assert (a + b)[..|a + b| - 1] == a + b[..|b| - 1];
      LastDefinedConcat(a, b[..|b| - 1], name);
    }
  }

  lemma FewSources(x: Config, y: Config, name: string)
    ensures LastDefined([x], name) == if name in x.values then Some(x.values[name]) else None
    ensures LastDefined([x, y], name) == if name in y.values then Some(y.values[name]) else LastDefined([x], name)
    ensures SectionsOf([x], name) == SectionOf(x, name)
    ensures SectionsOf([x, y], name) == SectionOf(x, name) + SectionOf(y, name)
  {
    assert [x][..0] == [] && [x][1..] == [] && [x, y][..1] == [x] && [x, y][1..] == [y];
    assert SectionsOf([y], name) == SectionOf(y, name) + SectionsOf([y][1..], name);
    assert LastDefined([x], name) == if name in x.values then Some(x.values[name]) else LastDefined([x][..0], name);
  }

  lemma MergedKey(s: Schema, sources: seq<Config>, k: string)
    requires k in s.items
    ensures var m := Merge(s, sources);
      if s.items[k].Leaf?
      then (if k in m.values then Some(m.values[k]) else None) == LastDefined(sources, k)
      else SectionOf(m, k) == [Merge(s.items[k].schema, SectionsOf(sources, k))]
  {
  }

  lemma ValuesInGroups(s: Schema, a: seq<Config>, b: seq<Config>)
    ensures MergedValues(s, a + b, s.items.Keys) == MergedValues(s, [Merge(s, a), Merge(s, b)], s.items.Keys)
  {
    forall k | k in s.items && s.items[k].Leaf?
      ensures LastDefined(a + b, k) == LastDefined([Merge(s, a), Merge(s, b)], k)
    {
      LastDefinedConcat(a, b, k);
      MergedKey(s, a, k);
      MergedKey(s, b, k);
      FewSources(Merge(s, a), Merge(s, b), k);
    }
  }

  lemma SectionsInGroups(s: Schema, a: seq<Config>, b: seq<Config>, k: string)
    requires k in s.items && s.items[k].Sub?
    ensures SectionsOf([Merge(s, a), Merge(s, b)], k) ==
      [Merge(s.items[k].schema, SectionsOf(a, k)), Merge(s.items[k].schema, SectionsOf(b, k))]
  {
    MergedKey(s, a, k);
    MergedKey(s, b, k);
    FewSources(Merge(s, a), Merge(s, b), k);
  }

  /** Sources may be merged in groups, any way round the order is kept. */
  lemma {:induction false} MergeInGroups(s: Schema, a: seq<Config>, b: seq<Config>)
    ensures Merge(s, a + b) == Merge(s, [Merge(s, a), Merge(s, b)])
    decreases s
  {
    ValuesInGroups(s, a, b);
    forall k | k in s.items && s.items[k].Sub?
      ensures Merge(s.items[k].schema, SectionsOf(a + b, k)) ==
        Merge(s.items[k].schema, SectionsOf([Merge(s, a), Merge(s, b)], k))
    {
      SectionsOfConcat(a, b, k);
      SectionsInGroups(s, a, b, k);
      MergeInGroups(s.items[k].schema, SectionsOf(a, k), SectionsOf(b, k));
    }
  }

  lemma {:induction false} MergeOfMerged(s: Schema, sources: seq<Config>)
    ensures Merge(s, [Merge(s, sources)]) == Merge(s, sources)
    decreases s
  {
    var m := [Merge(s, sources)];
    forall k | k in s.items && s.items[k].Leaf? ensures LastDefined(m, k) == LastDefined(sources, k) {
      MergedKey(s, sources, k);
      FewSources(m[0], m[0], k);
    }
    forall k | k in s.items && s.items[k].Sub?
      ensures Merge(s.items[k].schema, SectionsOf(m, k)) == Merge(s.items[k].schema, SectionsOf(sources, k))
    {
      MergedKey(s, sources, k);
      FewSources(m[0], m[0], k);
      MergeOfMerged(s.items[k].schema, SectionsOf(sources, k));
    }
  }

  /** Folding pairwise from the left, and from the right. */
  ghost function MergeLeft(s: Schema, first: Config, rest: seq<Config>): Config
    decreases |rest|
  {
    if rest == [] then first else MergeLeft(s, Merge(s, [first, rest[0]]), rest[1..])
  }

  ghost function MergeRight(s: Schema, sources: seq<Config>): Config {
    if sources == [] then Merge(s, []) else Merge(s, [sources[0], MergeRight(s, sources[1..])])
  }

  lemma PairwiseIsMerge(s: Schema, a: seq<Config>, x: Config)
    ensures Merge(s, [Merge(s, a), x]) == Merge(s, a + [x])
    ensures Merge(s, [x, Merge(s, a)]) == Merge(s, [x] + a)
  {
    var m := Merge(s, a);
    MergeOfMerged(s, a);
    MergeInGroups(s, a, [x]);
    MergeInGroups(s, [x], a);
    MergeInGroups(s, [m], [x]);
    MergeInGroups(s, [x], [m]);
    assert [m] + [x] == [m, x] && [x] + [m] == [x, m];
  }

  lemma {:induction false} MergeLeftIsMerge(s: Schema, a: seq<Config>, rest: seq<Config>)
    ensures MergeLeft(s, Merge(s, a), rest) == Merge(s, a + rest)
    decreases |rest|
  {
    if rest == [] {
      assert a + rest == a;
    } else {
      PairwiseIsMerge(s, a, rest[0]);
      MergeLeftIsMerge(s, a + [rest[0]], rest[1..]);
      assert a + [rest[0]] + rest[1..] == a + rest;
    }
  }

  lemma {:induction false} MergeRightIsMerge(s: Schema, sources: seq<Config>)
    ensures MergeRight(s, sources) == Merge(s, sources)
  {
    if sources != [] {
      MergeRightIsMerge(s, sources[1..]);
      PairwiseIsMerge(s, sources[1..], sources[0]);
      assert [sources[0]] + sources[1..] == sources;
    }
  }
}
