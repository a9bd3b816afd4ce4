/**
What the passes of `packages/server-config-kit` share: a registry (schema), the values a
configuration document holds, and the value shaped like the registry that a pass builds.
*/
module ConfigSchema {
  import opened Basics

  /** A document value; `undefined` is absence. */
  datatype Value = Null | Scalar(text: string) | List(items: seq<Value>) | Record(fields: map<string, Value>)

  /** A resolver reads other keys by path and combines what they finally hold with its own merged value. */
  datatype Resolver = Resolver(inputs: seq<string>, combine: (Option<Value>, seq<Option<Value>>) -> Option<Value>)

  /** One key's declaration; an absent path is the empty string, as `entry.path || key` reads it. */
  datatype SchemaEntry = SchemaEntry(
    path: string,
    fallback: Option<Value>,
    env: Option<string>,
    readEnv: string -> Option<Value>,
    resolve: Option<Resolver>)

  datatype Item = Leaf(entry: SchemaEntry) | Sub(schema: Schema)

  /** `keys` is the declaration order, `items` what each key declares. */
  datatype Schema = Schema(keys: seq<string>, items: map<string, Item>)

  /** A schema is an object: every key once, and nothing but entries and sections behind them. */
  ghost predicate WellFormed(s: Schema)
    decreases s
  {
    && (forall i, j | 0 <= i < j < |s.keys| :: s.keys[i] != s.keys[j])
    && (forall k :: k in s.keys <==> k in s.items)
    && (forall k | k in s.items && s.items[k].Sub? :: WellFormed(s.items[k].schema))
  }

  function PathOf(key: string, entry: SchemaEntry): string {
    if entry.path != "" then entry.path else key
  }

  /** A value shaped like a schema: one value per defined key, one nested value per section present. */
  datatype Config = Config(values: map<string, Value>, sections: map<string, Config>)

  const EMPTY_CONFIG := Config(map[], map[])

  /** The place of a key in such a value: its section names, then its own name. */
  type Location = seq<string>

  function EntryAt(s: Schema, loc: Location): (entry: Option<SchemaEntry>)
    ensures entry.Some? ==> loc != []
    decreases s
  {
    if loc == [] || loc[0] !in s.items then None
    else match s.items[loc[0]]
      case Leaf(entry) => if |loc| == 1 then Some(entry) else None
      case Sub(sub) => EntryAt(sub, loc[1..])
  }

  function Lookup(c: Config, loc: Location): Option<Value>
    decreases |loc|
  {
    if loc == [] then None
    else if |loc| == 1 then (if loc[0] in c.values then Some(c.values[loc[0]]) else None)
    else if loc[0] in c.sections then Lookup(c.sections[loc[0]], loc[1..])
    else None
  }

  /** Writing one location in place; a section that is not there yet is created on the way. */
  function Put(c: Config, loc: Location, value: Option<Value>): Config
    decreases |loc|
  {
    if loc == [] then c
    else if |loc| == 1 then
      match value
      case Some(v) => c.(values := c.values[loc[0] := v])
      case None => c.(values := c.values - {loc[0]})
    else
      var section := if loc[0] in c.sections then c.sections[loc[0]] else EMPTY_CONFIG;
      c.(sections := c.sections[loc[0] := Put(section, loc[1..], value)])
  }

  lemma {:induction false} PutLookup(c: Config, loc: Location, value: Option<Value>, other: Location)
    requires loc != []
    ensures Lookup(Put(c, loc, value), other) == if other == loc then value else Lookup(c, other)
    decreases |loc|
  {
    if |loc| > 1 && |other| > 1 && other[0] == loc[0] {
      var section := if loc[0] in c.sections then c.sections[loc[0]] else EMPTY_CONFIG;
      PutLookup(section, loc[1..], value, other[1..]);
      if loc[0] !in c.sections { NothingInEmpty(other[1..]); }
      assert other == [other[0]] + other[1..] && loc == [loc[0]] + loc[1..];
    }
  }

  lemma NothingInEmpty(loc: Location)
    ensures Lookup(EMPTY_CONFIG, loc) == None
  {
  }

  // ---------- what one reading pass yields ----------

  /** How a pass reads one key. */
  type Reading = (string, SchemaEntry) -> Option<Value>

  function ValuesRead(s: Schema, read: Reading, names: set<string>): map<string, Value>
    requires names <= s.items.Keys
  {
    map k | k in names && s.items[k].Leaf? && read(k, s.items[k].entry).Some? :: read(k, s.items[k].entry).value
  }

  function SectionsRead(s: Schema, read: Reading, keepEmpty: bool, names: set<string>): map<string, Config>
    requires names <= s.items.Keys
    decreases s, 0
  {
    map k | k in names && s.items[k].Sub? && (keepEmpty || Pass(s.items[k].schema, read, keepEmpty) != EMPTY_CONFIG)
      :: Pass(s.items[k].schema, read, keepEmpty)
  }

  function PassOf(s: Schema, read: Reading, keepEmpty: bool, names: set<string>): Config
    requires names <= s.items.Keys
  {
    Config(ValuesRead(s, read, names), SectionsRead(s, read, keepEmpty, names))
  }

  /** Every key read on its own; a section that yields nothing is kept or dropped as the pass decides. */
  function Pass(s: Schema, read: Reading, keepEmpty: bool): Config
    decreases s, 1
  {
    Config(ValuesRead(s, read, s.items.Keys), SectionsRead(s, read, keepEmpty, s.items.Keys))
  }

  lemma ValuesOneMore(s: Schema, read: Reading, names: set<string>, name: string)
    requires names <= s.items.Keys && name in s.items
    ensures var before, item := ValuesRead(s, read, names), s.items[name];
      ValuesRead(s, read, names + {name}) ==
        if item.Leaf? && read(name, item.entry).Some? then before[name := read(name, item.entry).value] else before
  {
  }

  lemma SectionsOneMore(s: Schema, read: Reading, keepEmpty: bool, names: set<string>, name: string)
    requires names <= s.items.Keys && name in s.items
    ensures var before, item := SectionsRead(s, read, keepEmpty, names), s.items[name];
      SectionsRead(s, read, keepEmpty, names + {name}) ==
        if item.Sub? && (keepEmpty || Pass(item.schema, read, keepEmpty) != EMPTY_CONFIG)
        then before[name := Pass(item.schema, read, keepEmpty)] else before
  {
  }

  lemma PassOneMore(s: Schema, read: Reading, keepEmpty: bool, names: set<string>, name: string)
    requires names <= s.items.Keys && name in s.items && name !in names
    ensures var before, after := PassOf(s, read, keepEmpty, names), PassOf(s, read, keepEmpty, names + {name});
      after ==
        if s.items[name].Sub? then
          (if keepEmpty || Pass(s.items[name].schema, read, keepEmpty) != EMPTY_CONFIG
           then before.(sections := before.sections[name := Pass(s.items[name].schema, read, keepEmpty)]) else before)
        else if read(name, s.items[name].entry).Some?
        then before.(values := before.values[name := read(name, s.items[name].entry).value]) else before
  {
    ValuesOneMore(s, read, names, name);
    SectionsOneMore(s, read, keepEmpty, names, name);
  }

  /** A pass holds, at every location of the schema however deep, what reading that key yields, nothing elsewhere. */
  lemma {:induction false} PassLookup(s: Schema, read: Reading, keepEmpty: bool, loc: Location)
    ensures Lookup(Pass(s, read, keepEmpty), loc) ==
      match EntryAt(s, loc)
      case None => None
      case Some(entry) => read(loc[|loc| - 1], entry)
    decreases |loc|
  {
    if |loc| > 1 && loc[0] in s.items && s.items[loc[0]].Sub? {
      var sub := s.items[loc[0]].schema;
      PassLookup(sub, read, keepEmpty, loc[1..]);
      assert loc[1..][|loc[1..]| - 1] == loc[|loc| - 1];
      if Pass(sub, read, keepEmpty) == EMPTY_CONFIG {
        NothingInEmpty(loc[1..]);
      }
    } else if |loc| > 1 {
      assert loc[0] !in Pass(s, read, keepEmpty).sections;
    }
  }
}
