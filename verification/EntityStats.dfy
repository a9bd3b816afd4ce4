/**
`useEntityStats` of `apps/client-admin-console/src/composables/entity-stats.ts`: one statistics read, reloaded when
its scope changes, where a reply that lands after a newer request is dropped.

A scope is the encoded query. A read is started by one step and answered, or failed, by a later one,
in any order; a scope change and the read it starts are one step. `After` says what each step makes of the state, as a
value, and `Run` what a whole script of them does.
*/
module EntityStats {
  import opened Basics

  type Scope = string

  /** What the server counted, with the scope it was asked for. */
  datatype Answer = Answer(to: Scope, body: string)

  // ---------- the state, step by step ----------

  /** The refs and counters, with the scopes asked for so far, by generation from 1 on, and which reads have settled. */
  datatype State = State(
    response: Option<Answer>, busy: bool, forbidden: bool, errors: nat,
    answered: Option<Scope>, requested: Option<Scope>, asked: seq<Scope>, settled: set<nat>)

  datatype Event =
    | Load(scope: Scope)
    | Watch(scope: Scope, paused: bool)
    | Reply(read: nat, body: string)
    | Fail(read: nat, status: int)

  /** A read settles once. */
  predicate InFlight(s: State, read: nat) {
    1 <= read <= |s.asked| && read !in s.settled
  }

  function Loaded(s: State, scope: Scope): State {
    s.(asked := s.asked + [scope], requested := Some(scope), busy := true)
  }

  function Replied(s: State, read: nat, body: string): State
    requires InFlight(s, read)
  {
    var settled := s.(settled := s.settled + {read});
    var scope := s.asked[read - 1];
    if read != |s.asked| then settled
    else settled.(response := Some(Answer(scope, body)), answered := Some(scope), forbidden := false, busy := false)
  }

  /** A failure takes down an answer of another scope; a 403 is noted, anything else is reported. */
  function Failed(s: State, read: nat, status: int): State
    requires InFlight(s, read)
  {
    var settled := s.(settled := s.settled + {read});
    if read != |s.asked| then settled
    else
      var kept := s.answered == Some(s.asked[read - 1]);
      settled.(
        response := if kept then s.response else None, answered := if kept then s.answered else None, busy := false,
        forbidden := s.forbidden || status == 403, errors := if status == 403 then s.errors else s.errors + 1)
  }

  /** A reply to no read in flight is skipped. */
  function After(s: State, e: Event): State {
    match e
    case Load(scope) => Loaded(s, scope)
    case Watch(scope, paused) => if paused || Some(scope) == s.requested then s else Loaded(s, scope)
    case Reply(read, body) => if InFlight(s, read) then Replied(s, read, body) else s
    case Fail(read, status) => if InFlight(s, read) then Failed(s, read, status) else s
  }

  const INITIAL := State(None, false, false, 0, None, None, [], {})

  function Run(script: seq<Event>): State {
    if script == [] then INITIAL else After(Run(script[..|script| - 1]), script[|script| - 1])
  }

  // ---------- what holds of every order of replies ----------

  ghost predicate Sound(s: State) {
    && (forall g | g in s.settled :: 1 <= g <= |s.asked|)
    // what is shown belongs to the scope it is held under, which was asked for
    && s.answered == (if s.response.Some? then Some(s.response.value.to) else None)
    && (s.response.Some? ==> s.response.value.to in s.asked)
    && s.requested == (if s.asked == [] then None else Some(s.asked[|s.asked| - 1]))
    // idle exactly when the newest read has been settled
    && (s.busy <==> s.asked != [] && |s.asked| !in s.settled)
    && (!s.busy ==> s.response.None? || s.answered == s.requested)
  }

  lemma ReadIsSound(s: State, scope: Scope)
    requires Sound(s)
    ensures Sound(Loaded(s, scope))
  {
    assert s.response.Some? ==> s.response.value.to in s.asked + [scope];
  }

  lemma SettlementIsSound(s: State, e: Event)
    requires Sound(s) && (e.Reply? || e.Fail?) && InFlight(s, e.read)
    ensures Sound(After(s, e))
  {
    assert s.asked[e.read - 1] in s.asked;
  }

  lemma {:induction false} RunIsSound(script: seq<Event>)
    ensures Sound(Run(script))
  {
    if script != [] {
      var s, e := Run(script[..|script| - 1]), script[|script| - 1];
      RunIsSound(script[..|script| - 1]);
      if e.Load? || e.Watch? {
        ReadIsSound(s, e.scope);
      } else if InFlight(s, e.read) {
        SettlementIsSound(s, e);
      }
    }
  }

  /** With no read in flight nothing is shown, or an answer of the scope requested last. */
  lemma ShownIsAnswered(script: seq<Event>)
    requires !Run(script).busy && Run(script).response.Some?
    ensures Run(script).requested == Some(Run(script).response.value.to)
  {
    RunIsSound(script);
  }

  /** The newest read is answered. */
  ghost predicate Answers(s: State, e: Event) {
    e.Reply? && InFlight(s, e.read) && e.read == |s.asked|
  }

  lemma ShownStaysOrIsReplied(s: State, e: Event)
    requires After(s, e).response.Some?
    ensures if Answers(s, e) then After(s, e).response == Some(Answer(s.asked[e.read - 1], e.body))
            else After(s, e).response == s.response
  {
  }

  /** What is shown was given by one reply of the script, to the newest read, which was of just that scope. */
  lemma {:induction false} ShownWasReplied(script: seq<Event>) returns (k: nat)
    requires Run(script).response.Some?
    ensures k < |script| && Answers(Run(script[..k]), script[k])
    ensures Run(script).response == Some(Answer(Run(script[..k]).asked[script[k].read - 1], script[k].body))
  {
    var n := |script| - 1;
    ShownStaysOrIsReplied(Run(script[..n]), script[n]);
    if Answers(Run(script[..n]), script[n]) {
      k := n;
    } else {
      k := ShownWasReplied(script[..n]);
      assert script[..n][..k] == script[..k];
    }
  }

  /** A superseded reply or failure changes neither what is shown nor any flag. */
  lemma SupersededChangesNothing(s: State, e: Event)
    requires e.Reply? || e.Fail?
    requires e.read != |s.asked|
    ensures After(s, e).(settled := s.settled) == s
  {
  }

  /** A 403 takes down no answer of its own scope: loaded, answered, loaded again and refused, it is still shown. */
  lemma RefusedAnswerStays(scope: Scope, body: string)
    ensures var s := Run([Load(scope), Reply(1, body), Load(scope), Fail(2, 403)]);
      s.response == Some(Answer(scope, body)) && s.forbidden && !s.busy
  {
    var script := [Load(scope), Reply(1, body), Load(scope), Fail(2, 403)];
    assert script[..3] == [Load(scope), Reply(1, body), Load(scope)];
    assert script[..3][..2] == [Load(scope), Reply(1, body)];
    assert script[..3][..2][..1] == [Load(scope)] && script[..3][..2][..1][..0] == [];
    var s1 := After(INITIAL, Load(scope));
    var s2 := After(s1, Reply(1, body));
    var s3 := After(s2, Load(scope));
    assert Run(script[..3][..2][..1]) == s1;
    assert Run(script[..3][..2]) == s2;
    assert Run(script[..3]) == s3;
  }

  // ---------- the composable ----------

  class Stats {
    var response: Option<Answer>
    var busy: bool
    var forbidden: bool
    var generation: nat
    var answered: Option<Scope>
    var requested: Option<Scope>

    var asked: seq<Scope>
    var settled: set<nat>
    var errors: nat

    constructor ()
      ensures Valid() && View() == INITIAL
    {
      response, busy, forbidden, generation := None, false, false, 0;
      answered, requested, asked, settled, errors := None, None, [], {}, 0;
    }

    ghost predicate Valid()
      reads this
    {
      generation == |asked|
    }

    function View(): State
      reads this
    {
      State(response, busy, forbidden, errors, answered, requested, asked, settled)
    }

    /** Start a read of the scope. The previous answer stays up meanwhile. */
    method Load(scope: Scope)
      requires Valid()
      modifies this
      ensures Valid() && View() == After(old(View()), Event.Load(scope))
      ensures busy && requested == Some(scope) && response == old(response)
    {
      generation := generation + 1;
      asked := asked + [scope];
      requested := Some(scope);
      busy := true;
    }

    /** The watcher: a paused scope waits, a scope asked for last is not asked for again. */
    method Watch(scope: Scope, paused: bool)
      requires Valid()
      modifies this
      ensures Valid() && View() == After(old(View()), Event.Watch(scope, paused))
      ensures asked == if paused || old(requested) == Some(scope) then old(asked) else old(asked) + [scope]
      ensures !paused ==> requested == Some(scope)
    {
      if paused || Some(scope) == requested {
        return;
      }
      Load(scope);
    }

    /** The read of generation `current` is answered. */
    method Reply(current: nat, body: string)
      requires Valid() && InFlight(View(), current)
      modifies this
      ensures Valid() && View() == After(old(View()), Event.Reply(current, body))
      ensures current == |asked| ==>
        response == Some(Answer(asked[current - 1], body)) && !busy && !forbidden && errors == old(errors)
    {
      settled := settled + {current};
      if current == generation {
        response := Some(Answer(asked[current - 1], body));
        answered := Some(asked[current - 1]);
        forbidden := false;
        busy := false;
      }
    }

    /** The read of generation `current` fails. */
    method Fail(current: nat, status: int)
      requires Valid() && InFlight(View(), current)
      modifies this
      ensures Valid() && View() == After(old(View()), Event.Fail(current, status))
      ensures current == |asked| ==>
        && !busy && forbidden == (status == 403 || old(forbidden))
        && errors == (if status == 403 then old(errors) else old(errors) + 1)
        // also for a 403: an answer held for the same scope stays
        && response == (if old(answered) == Some(asked[current - 1]) then old(response) else None)
    {
      settled := settled + {current};
      var scope := asked[current - 1];
      if current != generation {
        return;
      }
      busy := false;
      if answered != Some(scope) {
        response := None;
        answered := None;
      }
      if status == 403 {
        forbidden := true;
        return;
      }
      errors := errors + 1;
    }
  }

  /** Any order of scope changes, loads, replies and failures does what `Run` says. */
  method Interleave(script: seq<Event>) returns (s: State)
    ensures s == Run(script)
  {
    var stats := new Stats();
    assert script[..0] == [];
    for k := 0 to |script|
      invariant stats.Valid() && stats.View() == Run(script[..k])
    {
      assert script[..k + 1][..k] == script[..k];
      match script[k] {
        case Load(scope) => stats.Load(scope);
        case Watch(scope, paused) => stats.Watch(scope, paused);
        case Reply(g, body) =>
          if InFlight(stats.View(), g) { stats.Reply(g, body); }
        case Fail(g, status) =>
          if InFlight(stats.View(), g) { stats.Fail(g, status); }
      }
    }
    assert script[..|script|] == script;
    return stats.View();
  }
}
