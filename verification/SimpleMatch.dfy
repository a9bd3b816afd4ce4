/**
The one-pass glob matcher of `packages/kit/src/is-simple-match.ts`.

`Glob` is the contract as a plain recursive search (the reference the repository's own
tests compare against); `IsSimpleMatch` is the loop that walks both sides on two indices
and only ever backtracks into the LAST `*`. The commitment lemma below is why forgetting
the earlier stars loses no match.
*/
module SimpleMatch {

  // ---------- the reference semantics ----------

  predicate StarsAt(p: string, i: nat) {
    i + 1 < |p| && p[i] == '*' && p[i + 1] == '*'
  }

  /** `*`: any run without `/`; `**`: the rest; `/` before a wildcard: optional at the end of the value. */
  predicate Glob(v: string, p: string)
    decreases |v| + |p|
  {
    if p == "" then v == ""
    else if StarsAt(p, 0) then true
    else if p[0] == '*' then
      Glob(v, p[1..]) || (v != "" && v[0] != '/' && Glob(v[1..], p))
    else if v == "" && p[0] == '/' && |p| > 1 && p[1] == '*' then Glob(v, p[1..])
    else v != "" && v[0] == p[0] && Glob(v[1..], p[1..])
  }

  // ---------- what a literal stretch of a pattern matches ----------

  /** `l` has been read off the front of `v`, and `q` has to match what is left. */
  ghost predicate FullWalk(v: string, l: string, q: string) {
    |l| <= |v| && v[..|l|] == l && Glob(v[|l|..], q)
  }

  /** `v` ended one short of `l`: the missing `/` stood in front of a wildcard, so it was optional. */
  ghost predicate ShortWalk(v: string, l: string, q: string) {
    |l| == |v| + 1 && v == l[..|v|] && l[|v|] == '/' && q != "" && q[0] == '*' && Glob("", q)
  }

  lemma {:induction false} LiteralWalk(v: string, l: string, q: string)
    requires '*' !in l
    ensures Glob(v, l + q) <==> FullWalk(v, l, q) || ShortWalk(v, l, q)
    decreases |l|
  {
    if l == "" {
      assert l + q == q && v[0..] == v;
    } else {
      assert l[0] in l;
      assert (l + q)[1..] == l[1..] + q;
      if v == "" {
        if |l| > 1 {
          assert l[1] in l;
        } else {
          assert (l + q)[1..] == q;
        }
      } else if v[0] == l[0] {
        LiteralWalk(v[1..], l[1..], q);
        assert |l| <= |v| ==> v[..|l|] == [v[0]] + v[1..][..|l| - 1] && l == [l[0]] + l[1..];
        assert |l| <= |v| ==> v[|l|..] == v[1..][|l| - 1..];
        assert |l| == |v| + 1 ==> l[..|v|] == [l[0]] + l[1..][..|v| - 1] && v == [v[0]] + v[1..];
      }
    }
  }

  /** A single `*` reaches whatever lies behind a run without `/`. */
  lemma {:induction false} StarReaches(v: string, k: nat, p: string)
    requires k <= |v| && '/' !in v[..k]
    requires p != "" && p[0] == '*' && Glob(v[k..], p)
    ensures Glob(v, p)
    decreases k
  {
    if k == 0 {
      assert v[0..] == v;
    } else {
      assert v[0] in v[..k];
      assert v[1..][k - 1..] == v[k..] && v[..k][1..] == v[1..][..k - 1];
      StarReaches(v[1..], k - 1, p);
    }
  }

  /** A single `*` matches exactly when its tail matches behind some run without `/`. */
  lemma {:induction false} StarChoice(v: string, p: string) returns (k: nat)
    requires p != "" && p[0] == '*' && !StarsAt(p, 0) && Glob(v, p)
    ensures k <= |v| && '/' !in v[..k] && Glob(v[k..], p[1..])
    decreases |v|
  {
    if Glob(v, p[1..]) {
      k := 0;
      assert v[0..] == v;
    } else {
      var j := StarChoice(v[1..], p);
      k := j + 1;
      assert v[..k] == [v[0]] + v[1..][..j];
      assert v[k..] == v[1..][j..];
    }
  }

  lemma WildcardFreeIsEquality(v: string, p: string)
    requires '*' !in p
    ensures Glob(v, p) <==> v == p
  {
    LiteralWalk(v, p, "");
    assert p + "" == p;
  }

  // ---------- the commitment lemma ----------

  /** A literal read at 0 and again (as far as the value goes) at k > 0, with no `/` before k, holds no `/` at all. */
  lemma {:induction false} ShiftedLiteralHasNoSlash(v: string, k: nat, l: string, s: nat)
    requires 0 < k <= |v| && '/' !in v[..k]
    requires |l| <= |v| && v[..|l|] == l
    requires forall t | 0 <= t < |l| && k + t < |v| :: l[t] == v[..][k + t]
    requires s < |l|
    ensures l[s] != '/'
    decreases s
  {
    assert l[s] == v[s] by { assert v[..|l|][s] == l[s]; }
    if s < k {
      assert v[s] in v[..k];
    } else {
      ShiftedLiteralHasNoSlash(v, k, l, s - k);
      assert v[..][k + (s - k)] == l[s - k];
    }
  }

  /**
   Behind the last `*` the literal `l` has just been read off the front of `v`. Then the choice is
   final: whatever a longer run of that star could still reach is reached from here as well,
   when the pattern goes on with another `*` or the value is exhausted.
   */
  lemma {:induction false} CommitToLastStar(v: string, l: string, q: string)
    requires '*' !in l && |l| <= |v| && v[..|l|] == l
    requires !StarsAt("*" + l + q, 0)
    requires (q != "" && q[0] == '*') || |l| == |v|
    ensures Glob(v, "*" + l + q) <==> Glob(v[|l|..], q)
  {
    var p := "*" + l + q;
    assert p[1..] == l + q;
    LiteralWalk(v, l, q);
    if Glob(v, p) {
      var k := StarChoice(v, p);
      if k == 0 {
        assert v[0..] == v;
      } else {
        LiteralWalk(v[k..], l, q);
        forall t | 0 <= t < |l| && k + t < |v|
          ensures l[t] == v[..][k + t]
        {
          if FullWalk(v[k..], l, q) {
            assert v[k..][..|l|][t] == v[k + t];
          } else {
            assert v[k..][t] == l[..|v[k..]|][t];
          }
        }
        forall s: nat | s < |l| ensures l[s] != '/' {
          ShiftedLiteralHasNoSlash(v, k, l, s);
        }
        if FullWalk(v[k..], l, q) {
          LaterRunReachesFromHere(v, k, l, q);
        }
      }
    }
  }

  /** The swallowed stretch between the two readings of a `/`-free literal holds no `/` either. */
  lemma LaterRunReachesFromHere(v: string, k: nat, l: string, q: string)
    requires 0 < k <= |v| && '/' !in v[..k]
    requires '/' !in l && FullWalk(v[k..], l, q)
    requires q != "" && q[0] == '*'
    ensures Glob(v[|l|..], q)
  {
    var rest := v[|l|..];
    forall t | 0 <= t < k ensures rest[t] != '/' {
      var a := |l| + t;
      if a < k {
        assert v[a] in v[..k];
      } else {
        assert v[k..][..|l|][a - k] == v[a];
      }
    }
    assert rest[k..] == v[k..][|l|..];
    StarReaches(rest, k, q);
  }

  // ---------- the loop ----------

  /** The last `*` stands at `gp`, its run was cut at `gv`, and the literal behind it has been read up to `vi`/`pi`. */
  ghost predicate LastStar(v: string, p: string, vi: int, pi: int, gv: int, gp: int) {
    && 0 <= gv <= vi <= |v| && 0 <= gp < pi <= |p|
    && p[gp] == '*' && !StarsAt(p, gp)
    && '*' !in p[gp + 1..pi] && v[gv..vi] == p[gp + 1..pi]
  }

  lemma SplitAtLastStar(v: string, p: string, vi: int, pi: int, gv: int, gp: int)
    requires LastStar(v, p, vi, pi, gv, gp)
    ensures var w, l, q := v[gv..], p[gp + 1..pi], p[pi..];
      && |l| <= |w| && w[..|l|] == l && w[|l|..] == v[vi..]
      && p[gp..] == "*" + l + q && p[gp..][1..] == p[gp + 1..] == l + q && !StarsAt(p[gp..], 0)
  {
    assert |v[gv..vi]| == |p[gp + 1..pi]|;
    assert v[gv..][..vi - gv] == v[gv..vi];
  }

  lemma Commit(v: string, p: string, vi: int, pi: int, gv: int, gp: int)
    requires LastStar(v, p, vi, pi, gv, gp)
    requires vi == |v| || (pi < |p| && p[pi] == '*')
    ensures Glob(v[gv..], p[gp..]) == Glob(v[vi..], p[pi..])
  {
    SplitAtLastStar(v, p, vi, pi, gv, gp);
    CommitToLastStar(v[gv..], p[gp + 1..pi], p[pi..]);
  }

  lemma Backtrack(v: string, p: string, vi: int, pi: int, gv: int, gp: int)
    requires LastStar(v, p, vi, pi, gv, gp) && vi < |v|
    requires pi < |p| ==> p[pi] != '*' && p[pi] != v[vi]
    ensures Glob(v[gv..], p[gp..]) <==> v[gv] != '/' && Glob(v[gv + 1..], p[gp..])
  {
    SplitAtLastStar(v, p, vi, pi, gv, gp);
    LiteralWalk(v[gv..], p[gp + 1..pi], p[pi..]);
    assert !Glob(v[vi..], p[pi..]);
    assert v[gv..][1..] == v[gv + 1..];
  }

  lemma EqualMatches(v: string)
    ensures Glob(v, v)
  {
    if v != "" { EqualMatches(v[1..]); }
  }

  /** Turns paid for by the runs tried so far: one pattern width per character a star has swallowed. */
  ghost function Budget(gv: int, width: nat): nat {
    if gv <= 0 then 0 else Budget(gv - 1, width) + width
  }

  lemma BudgetGrows(a: int, b: int, width: nat)
    requires a <= b
    ensures Budget(a, width) <= Budget(b, width)
    ensures 0 <= a < b ==> Budget(a, width) + width <= Budget(b, width)
    decreases b - a
  {
    if a < b { BudgetGrows(a, b - 1, width); }
  }

  /** One pattern width for each character of the value, and one more. */
  ghost function TurnLimit(v: string, p: string): nat {
    Budget(|v|, |p| + 1) + |p| + 1
  }

  lemma {:induction false} BudgetTotal(gv: nat, width: nat)
    ensures Budget(gv, width) == gv * width
    decreases gv
  {
    if gv > 0 {
      BudgetTotal(gv - 1, width);
      assert gv * width == (gv - 1) * width + width;
    }
  }

  lemma TurnLimitIsProduct(v: string, p: string)
    ensures TurnLimit(v, p) == (|v| + 1) * (|p| + 1)
  {
    BudgetTotal(|v|, |p| + 1);
    assert (|v| + 1) * (|p| + 1) == |v| * (|p| + 1) + (|p| + 1);
  }

  /** What the search from the last `*` finds, or from here when there is none. */
  ghost predicate Scanning(v: string, p: string, vi: int, pi: int, gv: int, gp: int, verdict: bool) {
    && InRange(v, p, vi, pi, gv, gp)
    && if gp == -1 then verdict == Glob(v[vi..], p[pi..])
       else LastStar(v, p, vi, pi, gv, gp) && verdict == Glob(v[gv..], p[gp..])
  }

  predicate InRange(v: string, p: string, vi: int, pi: int, gv: int, gp: int) {
    0 <= vi <= |v| && 0 <= pi <= |p| && if gp == -1 then gv == -1 else 0 <= gv <= vi && 0 <= gp < pi
  }

  lemma OpenStar(v: string, p: string, vi: int, pi: int, gv: int, gp: int, verdict: bool)
    requires Scanning(v, p, vi, pi, gv, gp, verdict) && pi < |p| && p[pi] == '*'
    ensures StarsAt(p, pi) ==> verdict
    ensures !StarsAt(p, pi) ==> Scanning(v, p, vi, pi + 1, vi, pi, verdict)
  {
    if gp != -1 { Commit(v, p, vi, pi, gv, gp); }
    assert StarsAt(p, pi) ==> StarsAt(p[pi..], 0);
    assert v[vi..vi] == p[pi + 1..pi + 1];
  }

  lemma ReadLiteral(v: string, p: string, vi: int, pi: int, gv: int, gp: int, verdict: bool)
    requires Scanning(v, p, vi, pi, gv, gp, verdict) && pi < |p| && vi < |v| && p[pi] != '*' && p[pi] == v[vi]
    ensures Scanning(v, p, vi + 1, pi + 1, gv, gp, verdict)
  {
    if gp == -1 {
      assert v[vi..][1..] == v[vi + 1..] && p[pi..][1..] == p[pi + 1..];
    } else {
      assert v[gv..vi + 1] == v[gv..vi] + [v[vi]] && p[gp + 1..pi + 1] == p[gp + 1..pi] + [p[pi]];
    }
  }

  lemma Mismatch(v: string, p: string, vi: int, pi: int, gv: int, gp: int, verdict: bool)
    requires Scanning(v, p, vi, pi, gv, gp, verdict) && vi < |v|
    requires pi < |p| ==> p[pi] != '*' && p[pi] != v[vi]
    ensures gp == -1 ==> !verdict
    ensures gp != -1 && v[gv] == '/' ==> !verdict
    ensures gp != -1 && v[gv] != '/' ==> Scanning(v, p, gv + 1, gp + 1, gv + 1, gp, verdict)
  {
    if gp != -1 {
      Backtrack(v, p, vi, pi, gv, gp);
      assert v[gv + 1..gv + 1] == p[gp + 1..gp + 1];
    }
  }

  lemma Exhausted(v: string, p: string, pi: int, gv: int, gp: int, verdict: bool)
    requires Scanning(v, p, |v|, pi, gv, gp, verdict)
    ensures verdict == Glob("", p[pi..])
  {
    if gp != -1 { Commit(v, p, |v|, pi, gv, gp); }
    assert v[|v|..] == "";
  }

  /** The turns of the loop from a cursor on: only the last `*` is ever gone back to. */
  ghost predicate Turns(v: string, p: string, vi: int, pi: int, gv: int, gp: int)
    requires InRange(v, p, vi, pi, gv, gp)
    decreases |v| - gv, |p| - pi
  {
    if vi == |v| then Glob("", p[pi..])
    else if pi < |p| && p[pi] == '*' then StarsAt(p, pi) || Turns(v, p, vi, pi + 1, vi, pi)
    else if pi < |p| && p[pi] == v[vi] then Turns(v, p, vi + 1, pi + 1, gv, gp)
    else gp != -1 && v[gv] != '/' && Turns(v, p, gv + 1, gp + 1, gv + 1, gp)
  }

  /** They find what the search finds. */
  lemma {:induction false} TurnsAreTheSearch(v: string, p: string, vi: int, pi: int, gv: int, gp: int, verdict: bool)
    requires Scanning(v, p, vi, pi, gv, gp, verdict)
    ensures Turns(v, p, vi, pi, gv, gp) == verdict
    decreases |v| - gv, |p| - pi
  {
    if vi == |v| {
      Exhausted(v, p, pi, gv, gp, verdict);
    } else if pi < |p| && p[pi] == '*' {
      OpenStar(v, p, vi, pi, gv, gp, verdict);
      if !StarsAt(p, pi) { TurnsAreTheSearch(v, p, vi, pi + 1, vi, pi, verdict); }
    } else if pi < |p| && p[pi] == v[vi] {
      ReadLiteral(v, p, vi, pi, gv, gp, verdict);
      TurnsAreTheSearch(v, p, vi + 1, pi + 1, gv, gp, verdict);
    } else {
      Mismatch(v, p, vi, pi, gv, gp, verdict);
      if gp != -1 && v[gv] != '/' { TurnsAreTheSearch(v, p, gv + 1, gp + 1, gv + 1, gp, verdict); }
    }
  }

  lemma LastStarDecides(v: string, p: string)
    ensures Turns(v, p, 0, 0, -1, -1) == Glob(v, p)
  {
    assert v[0..] == v && p[0..] == p;
    TurnsAreTheSearch(v, p, 0, 0, -1, -1, Glob(v, p));
  }

  /** The scan of the rest of a pattern against the exhausted value. */
  method MatchesEmpty(pattern: string, index: nat) returns (r: bool)
    requires index <= |pattern|
    ensures r == Glob("", pattern[index..])
  {
    var i := index;
    while i < |pattern|
      invariant index <= i <= |pattern|
      invariant Glob("", pattern[index..]) == Glob("", pattern[i..])
    {
      assert pattern[i..][1..] == pattern[i + 1..];
      if pattern[i] == '/' && i + 1 < |pattern| && pattern[i + 1] == '*' {
        i := i + 1;
        continue;
      }
      if pattern[i] != '*' {
        return false;
      }
      if i + 1 < |pattern| && pattern[i + 1] == '*' {
        return true;
      }
      i := i + 1;
    }
    return true;
  }

  /** The loop. */
  method Scan(value: string, pattern: string) returns (r: bool, ghost steps: nat)
    ensures r == Turns(value, pattern, 0, 0, -1, -1)
    ensures steps <= TurnLimit(value, pattern)
  {
    steps := 0;
    var valueIndex, patternIndex := 0, 0;
    var globValueIndex, globPatternIndex := -1, -1;
    ghost var verdict := Turns(value, pattern, 0, 0, -1, -1);
    ghost var width := |pattern| + 1;
    while valueIndex < |value|
      invariant InRange(value, pattern, valueIndex, patternIndex, globValueIndex, globPatternIndex)
      invariant verdict == Turns(value, pattern, valueIndex, patternIndex, globValueIndex, globPatternIndex)
      invariant steps <= Budget(globValueIndex, width) + patternIndex
      decreases |value| - globValueIndex, |pattern| - patternIndex
    {
      BudgetGrows(globValueIndex, |value|, width);
      if patternIndex < |pattern| && pattern[patternIndex] == '*' {
        if patternIndex + 1 < |pattern| && pattern[patternIndex + 1] == '*' {
          return true, steps + 1;
        }
        BudgetGrows(globValueIndex, valueIndex, width);
        globPatternIndex := patternIndex;
        globValueIndex := valueIndex;
        patternIndex := patternIndex + 1;
      } else if patternIndex < |pattern| && pattern[patternIndex] == value[valueIndex] {
        patternIndex := patternIndex + 1;
        valueIndex := valueIndex + 1;
      } else {
        if globPatternIndex == -1 || value[globValueIndex] == '/' {
          return false, steps + 1;
        }
        BudgetGrows(globValueIndex, globValueIndex + 1, width);
        globValueIndex := globValueIndex + 1;
        valueIndex := globValueIndex;
        patternIndex := globPatternIndex + 1;
      }
      steps := steps + 1;
    }
    BudgetGrows(globValueIndex, |value|, width);
    r := MatchesEmpty(pattern, patternIndex);
  }

  /**
   One pattern. `steps` counts the turns of the loop: the matcher decides the exponential-looking
   reference in at most (|value| + 1) * (|pattern| + 1) turns.
   */
  method IsSimpleMatch(value: string, pattern: string) returns (r: bool, ghost steps: nat)
    ensures r == Glob(value, pattern)
    ensures steps <= (|value| + 1) * (|pattern| + 1)
  {
    if value == pattern {
      EqualMatches(value);
      return true, 0;
    }
    TurnLimitIsProduct(value, pattern);
    LastStarDecides(value, pattern);
    r, steps := Scan(value, pattern);
  }

  /** A list of patterns matches when one of them does. */
  method IsSimpleMatchAny(value: string, patterns: seq<string>) returns (r: bool)
    ensures r <==> exists i :: 0 <= i < |patterns| && Glob(value, patterns[i])
  {
    for i := 0 to |patterns|
      invariant forall j :: 0 <= j < i ==> !Glob(value, patterns[j])
    {
      var matched, _ := IsSimpleMatch(value, patterns[i]);
      if matched {
        return true;
      }
    }
    return false;
  }
}
