/**
The layers put together: defaults, then the configuration file, then the environment.

What a key ends up with is stated on the fields of its entry: its variable and reader, its path, and its default.
*/
module Precedence {
  import opened Basics
  import opened ConfigSchema
  import opened DottedPaths
  import opened FileTree
  import opened Layering

  /** The layers, from the bottom up. */
  function Layers(s: Schema, tree: Value, environment: Environment): seq<Config> {
    [Pass(s, DefaultOf, true), FileData(tree, s), Pass(s, EnvReading(environment), true)]
  }

  function Layered(s: Schema, tree: Value, environment: Environment): Config {
    Merge(s, Layers(s, tree, environment))
  }

  // ---------- the three sources of one key ----------

  /** The entry's variable is set, and its reader answers the value. */
  ghost predicate EnvSays(entry: SchemaEntry, environment: Environment, value: Value) {
    exists n :: n != "" && entry.env == Some(n) && n in environment && entry.readEnv(environment[n]) == Some(value)
  }

  ghost predicate EnvIsSilent(entry: SchemaEntry, environment: Environment) {
    forall value :: !EnvSays(entry, environment, value)
  }

  /** The document holds the value at the entry's path, or at its key if it declares none. */
  ghost predicate FileSays(tree: Value, key: string, entry: SchemaEntry, value: Value) {
    tree.Record? && At(tree, Split(if entry.path == "" then key else entry.path)) == Some(value)
  }

  ghost predicate FileIsSilent(tree: Value, key: string, entry: SchemaEntry) {
    forall value :: !FileSays(tree, key, entry, value)
  }

  ghost predicate IsEntry(s: Schema, loc: Location, entry: SchemaEntry) {
    loc != [] && EntryAt(s, loc) == Some(entry)
  }

  // ---------- what each layer holds ----------

  lemma LastOfThree(a: Config, b: Config, c: Config, loc: Location)
    ensures LastAt([a, b, c], loc) ==
      if Lookup(c, loc).Some? then Lookup(c, loc) else if Lookup(b, loc).Some? then Lookup(b, loc) else Lookup(a, loc)
  {
    assert [a, b, c][..2] == [a, b] && [a, b][..1] == [a] && [a][..0] == [];
    assert LastAt([a], loc) == if Lookup(a, loc).Some? then Lookup(a, loc) else LastAt([], loc);
    assert LastAt([a, b], loc) == if Lookup(b, loc).Some? then Lookup(b, loc) else LastAt([a], loc);
  }

  lemma LayeredLookup(s: Schema, tree: Value, environment: Environment, loc: Location, entry: SchemaEntry)
    requires IsEntry(s, loc, entry)
    ensures var env, file := Lookup(Pass(s, EnvReading(environment), true), loc), Lookup(FileData(tree, s), loc);
      Lookup(Layered(s, tree, environment), loc) ==
        if env.Some? then env else if file.Some? then file else entry.fallback
  {
    MergeLookup(s, Layers(s, tree, environment), loc);
    LastOfThree(Pass(s, DefaultOf, true), FileData(tree, s), Pass(s, EnvReading(environment), true), loc);
    PassLookup(s, DefaultOf, true, loc);
  }

  lemma EnvLookup(s: Schema, environment: Environment, loc: Location, entry: SchemaEntry)
    requires IsEntry(s, loc, entry)
    ensures var env := Lookup(Pass(s, EnvReading(environment), true), loc);
      && (env.Some? ==> EnvSays(entry, environment, env.value))
      && (env.None? ==> EnvIsSilent(entry, environment))
  {
    PassLookup(s, EnvReading(environment), true, loc);
  }

  lemma FileLookup(s: Schema, tree: Value, loc: Location, entry: SchemaEntry)
    requires IsEntry(s, loc, entry)
    ensures var file := Lookup(FileData(tree, s), loc);
      && (file.Some? ==> FileSays(tree, loc[|loc| - 1], entry, file.value))
      && (file.None? ==> FileIsSilent(tree, loc[|loc| - 1], entry))
  {
    PassLookup(s, FileReading(tree), false, loc);
    NothingInEmpty(loc);
  }

  // ---------- the precedence ----------

  /** What layering gives one key: the environment if it says something, else the file, else the default. */
  ghost predicate HasPrecedence(merged: Config, tree: Value, environment: Environment, loc: Location,
                                entry: SchemaEntry)
    requires loc != []
  {
    var key := loc[|loc| - 1];
    && (forall value | EnvSays(entry, environment, value) :: Lookup(merged, loc) == Some(value))
    && (forall value | EnvIsSilent(entry, environment) && FileSays(tree, key, entry, value) ::
          Lookup(merged, loc) == Some(value))
    && (EnvIsSilent(entry, environment) && FileIsSilent(tree, key, entry) ==> Lookup(merged, loc) == entry.fallback)
  }

  lemma PrecedencePerKey(s: Schema, tree: Value, environment: Environment, loc: Location, entry: SchemaEntry)
    requires IsEntry(s, loc, entry)
    ensures HasPrecedence(Layered(s, tree, environment), tree, environment, loc, entry)
  {
    LayeredLookup(s, tree, environment, loc, entry);
    EnvLookup(s, environment, loc, entry);
    FileLookup(s, tree, loc, entry);
  }

  /** A variable that says something decides its key, whatever file and default say. */
  lemma VariableDecides(s: Schema, tree: Value, environment: Environment, loc: Location, entry: SchemaEntry, n: string,
                        value: Value)
    requires EntryAt(s, loc) == Some(entry) && entry.env == Some(n) && n != ""
    requires n in environment && entry.readEnv(environment[n]) == Some(value)
    ensures Lookup(Layered(s, tree, environment), loc) == Some(value)
  {
    assert EnvSays(entry, environment, value);
    PrecedencePerKey(s, tree, environment, loc, entry);
  }

  lemma OnlyKeysOfTheSchema(s: Schema, tree: Value, environment: Environment, loc: Location)
    requires EntryAt(s, loc).None?
    ensures Lookup(Layered(s, tree, environment), loc).None?
  {
    MergeLookup(s, Layers(s, tree, environment), loc);
  }

  /** The three passes and the merge, one after the other: every key of every section has its precedence. */
  method LayerConfiguration(s: Schema, tree: Value, environment: Environment) returns (merged: Config)
    requires WellFormed(s)
    ensures forall loc, entry | IsEntry(s, loc, entry) :: HasPrecedence(merged, tree, environment, loc, entry)
    ensures forall loc | EntryAt(s, loc).None? :: Lookup(merged, loc).None?
  {
    var defaults := BuildSchemaDefaults(s);
    var file := ReadSchemaFromFileTree(tree, s);
    var env := ReadSchemaFromEnv(s, environment);
    merged := MergeSchemaData(s, [defaults, file, env]);
    forall loc, entry | IsEntry(s, loc, entry) ensures HasPrecedence(merged, tree, environment, loc, entry) {
      PrecedencePerKey(s, tree, environment, loc, entry);
    }
    forall loc | EntryAt(s, loc).None? ensures Lookup(merged, loc).None? {
      OnlyKeysOfTheSchema(s, tree, environment, loc);
    }
  }

  // ---------- a variable touches its own keys only ----------

  /** A key is decided by its own variable alone: two environments that agree on it give the key the same value. */
  lemma OwnVariableOnly(s: Schema, tree: Value, a: Environment, b: Environment, loc: Location, entry: SchemaEntry)
    requires IsEntry(s, loc, entry)
    requires entry.env.Some? ==> (entry.env.value in a <==> entry.env.value in b)
    requires entry.env.Some? && entry.env.value in a ==> a[entry.env.value] == b[entry.env.value]
    ensures Lookup(Layered(s, tree, a), loc) == Lookup(Layered(s, tree, b), loc)
  {
    LayeredLookup(s, tree, a, loc, entry);
    LayeredLookup(s, tree, b, loc, entry);
    PassLookup(s, EnvReading(a), true, loc);
    PassLookup(s, EnvReading(b), true, loc);
  }

  /** A key whose variable says nothing is decided as if there were no environment. */
  lemma SilentEnvironmentChangesNothing(s: Schema, tree: Value, environment: Environment, loc: Location,
                                        entry: SchemaEntry)
    requires IsEntry(s, loc, entry) && EnvIsSilent(entry, environment)
    ensures Lookup(Layered(s, tree, environment), loc) == Lookup(Layered(s, tree, map[]), loc)
  {
    LayeredLookup(s, tree, environment, loc, entry);
    LayeredLookup(s, tree, map[], loc, entry);
    EnvLookup(s, environment, loc, entry);
    EnvLookup(s, map[], loc, entry);
  }

  /** A variable no entry declares changes no key. */
  lemma UndeclaredVariableChangesNothing(s: Schema, tree: Value, environment: Environment, n: string, text: string,
                                         loc: Location)
    requires forall at | EntryAt(s, at).Some? :: EntryAt(s, at).value.env != Some(n)
    ensures Lookup(Layered(s, tree, environment[n := text]), loc) == Lookup(Layered(s, tree, environment), loc)
  {
    match EntryAt(s, loc) {
      case Some(entry) => OwnVariableOnly(s, tree, environment[n := text], environment, loc, entry);
      case None =>
        OnlyKeysOfTheSchema(s, tree, environment, loc);
        OnlyKeysOfTheSchema(s, tree, environment[n := text], loc);
    }
  }
}
