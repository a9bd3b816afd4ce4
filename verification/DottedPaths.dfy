/**
Dotted paths: `split('.')`, `join('.')`, and when the two undo each other.

A path is split wherever a dot stands, at either end too, so there is one segment at least, and an empty one at each
end that is a dot and between two dots in a row. Joining always undoes splitting. Splitting undoes joining where no
segment carries a dot itself, and two different lists of such segments are never spelled alike.
A name with a dot in it is never one segment.
*/
module DottedPaths {

  function Split(path: string): (segments: seq<string>)
    ensures segments != []
    ensures forall segment | segment in segments :: '.' !in segment
  {
    if path == "" then [""]
    else
      var rest := Split(path[1..]);
      if path[0] == '.' then [""] + rest
      else
        assert forall segment | segment in rest[1..] :: segment in rest;
        [[path[0]] + rest[0]] + rest[1..]
  }

  function Join(segments: seq<string>): string
    requires segments != []
  {
    if |segments| == 1 then segments[0] else segments[0] + "." + Join(segments[1..])
  }

  ghost predicate DotFree(segments: seq<string>) {
    forall segment | segment in segments :: '.' !in segment
  }

  lemma {:induction false} JoinSplit(path: string)
    ensures Join(Split(path)) == path
  {
    if path != "" {
      JoinSplit(path[1..]);
      var rest := Split(path[1..]);
      if path[0] == '.' {
        assert ([""] + rest)[1..] == rest;
        assert path == "" + "." + Join(rest);
      } else {
        var all := [[path[0]] + rest[0]] + rest[1..];
        assert |rest| > 1 ==> all[1..] == rest[1..];
        assert path == [path[0]] + Join(rest);
      }
    }
  }

  lemma {:induction false} SplitPlain(segment: string)
    requires '.' !in segment
    ensures Split(segment) == [segment]
  {
    if segment != "" {
      assert segment[0] in segment;
      SplitPlain(segment[1..]);
      assert [segment[0]] + segment[1..] == segment;
    }
  }

  lemma {:induction false} SplitDotted(segment: string, rest: string)
    requires '.' !in segment
    ensures Split(segment + "." + rest) == [segment] + Split(rest)
  {
    var path := segment + "." + rest;
    if segment == "" {
      assert path == "." + rest && path[1..] == rest;
    } else {
      assert segment[0] in segment;
      assert path[1..] == segment[1..] + "." + rest;
      SplitDotted(segment[1..], rest);
      assert ([segment[1..]] + Split(rest))[1..] == Split(rest);
      assert [segment[0]] + segment[1..] == segment;
    }
  }

  lemma {:induction false} SplitJoin(segments: seq<string>)
    requires segments != [] && DotFree(segments)
    ensures Split(Join(segments)) == segments
    decreases |segments|
  {
    assert segments[0] in segments;
    if |segments| == 1 {
      SplitPlain(segments[0]);
    } else {
      SplitJoin(segments[1..]);
      SplitDotted(segments[0], Join(segments[1..]));
    }
  }

  lemma {:induction false} JoinAppend(segments: seq<string>, name: string)
    requires segments != []
    ensures Join(segments + [name]) == Join(segments) + "." + name
    decreases |segments|
  {
    var all := segments + [name];
    if |segments| == 1 {
      assert all[1..] == [name];
    } else {
      assert all[1..] == segments[1..] + [name];
      JoinAppend(segments[1..], name);
      var x, y, z := segments[0] + ".", Join(segments[1..]), "." + name;
      assert (x + y) + z == x + (y + z);
    }
  }

  lemma {:induction false} JoinConcat(a: seq<string>, b: seq<string>)
    requires a != [] && b != []
    ensures Join(a + b) == Join(a) + "." + Join(b)
    decreases |a|
  {
    if |a| == 1 {
      assert (a + b)[1..] == b;
    } else {
      assert (a + b)[1..] == a[1..] + b;
      JoinConcat(a[1..], b);
      var x, y, z := a[0] + ".", Join(a[1..]), "." + Join(b);
      assert (x + y) + z == x + (y + z);
    }
  }

  lemma JoinInjective(a: seq<string>, b: seq<string>)
    requires a != [] && b != [] && DotFree(a) && DotFree(b) && Join(a) == Join(b)
    ensures a == b
  {
    SplitJoin(a);
    SplitJoin(b);
  }
}
