/**
`createIntrospectionAuthorization` of `packages/server-adapter-kit/src/verifier/module.ts`: the client token
remote introspection is asked with, minted once, shared, and re-minted when it was answered 401.
*/
module Introspection {
  import opened Basics

  // The class is the closure. A mint is a promise; its settlement and each callback chained on it are separate steps,
  // so anything may run in between. `After` says what each step makes of the closure's state, as a value, and `Run`
  // what a whole script of them does.

  const REMINT_REUSE_MS := 5000

  datatype Status = Running | Granted | Failed

  /** One call of the token creator: when it started, whether as a re-mint, and which callbacks have still to run. */
  datatype Mint = Mint(startedAt: int, remint: bool, status: Status, stamped: bool, cleared: bool)

  /** A re-mint that has not run its last callback. */
  predicate Open(m: Mint) {
    m.remint && !m.cleared
  }

  /** Callbacks run after settlement, in order, and nothing starts in the future. */
  predicate InOrder(m: Mint, remintedAt: int, clock: int) {
    && m.startedAt <= clock
    && (m.stamped ==> m.status.Granted? && m.startedAt <= remintedAt)
    && (m.remint && m.cleared ==> m.status.Failed? || m.stamped)
  }

  // ---------- the state, step by step ----------

  datatype State = State(pending: Option<nat>, reminting: Option<nat>, remintedAt: int, mints: seq<Mint>, clock: int)

  datatype Event =
    | Ask(retry: bool, at: int)
    | Settle(i: nat, ok: bool, at: int)
    | Forget(i: nat, at: int)
    | Stamp(i: nat, at: int)
    | Clear(i: nat, at: int)

  /** The clock never goes back; a promise settles once, and a callback runs once, after what it waits for. */
  predicate Enabled(s: State, e: Event) {
    && e.at >= s.clock
    && match e
       case Ask(_, _) => true
       case Settle(i, _, _) => i < |s.mints| && s.mints[i].status.Running?
       case Forget(i, _) => i < |s.mints| && s.mints[i].status.Failed?
       case Stamp(i, _) => i < |s.mints| && s.mints[i].remint && s.mints[i].status.Granted? && !s.mints[i].stamped
       case Clear(i, _) => i < |s.mints| && Open(s.mints[i]) && (s.mints[i].status.Failed? || s.mints[i].stamped)
  }

  /** Whether an ask starts a mint of its own. */
  predicate Mints(s: State, retry: bool, at: int) {
    if retry then s.reminting.None? && !(s.pending.Some? && at - s.remintedAt < REMINT_REUSE_MS)
    else s.pending.None?
  }

  function Created(s: State, retry: bool, at: int): State {
    var current := |s.mints|;
    s.(mints := s.mints + [Mint(at, retry, Running, false, false)], pending := Some(current),
       reminting := if retry then Some(current) else s.reminting)
  }

  function Updated(s: State, i: nat, m: Mint): State
    requires i < |s.mints|
  {
    s.(mints := s.mints[i := m])
  }

  function Step(s: State, e: Event): State
    requires Enabled(s, e)
  {
    var now := s.(clock := e.at);
    match e
    case Ask(retry, at) => if Mints(s, retry, at) then Created(now, retry, at) else now
    case Settle(i, ok, _) => Updated(now, i, s.mints[i].(status := if ok then Granted else Failed))
    case Forget(i, _) => if s.pending == Some(i) then now.(pending := None) else now
    case Stamp(i, at) => Updated(now.(remintedAt := at), i, s.mints[i].(stamped := true))
    case Clear(i, _) =>
      Updated(if s.reminting == Some(i) then now.(reminting := None) else now, i, s.mints[i].(cleared := true))
  }

  /** A step whose time has not come is skipped. */
  function After(s: State, e: Event): State {
    if Enabled(s, e) then Step(s, e) else s
  }

  function Run(start: int, script: seq<Event>): State {
    if script == [] then State(None, None, 0, [], start)
    else After(Run(start, script[..|script| - 1]), script[|script| - 1])
  }

  // ---------- what every step keeps ----------

  /** One first mint, and re-mints at least the reuse time apart. */
  ghost predicate Sparing(mints: seq<Mint>) {
    && (forall i | 0 <= i < |mints| && !mints[i].remint :: i == 0)
    && (forall i, j | 0 <= i < j < |mints| && mints[i].remint && mints[j].remint ::
          mints[i].startedAt + REMINT_REUSE_MS <= mints[j].startedAt)
  }

  ghost predicate NoneFailed(mints: seq<Mint>) {
    forall i | 0 <= i < |mints| :: !mints[i].status.Failed?
  }

  ghost predicate Sound(s: State) {
    && (s.pending.Some? ==> s.pending.value < |s.mints|)
    && (s.reminting.Some? ==> s.reminting.value < |s.mints|)
    // a re-mint is there to join until its last callback has run, so there is one at a time
    && (forall i | 0 <= i < |s.mints| && Open(s.mints[i]) :: s.reminting == Some(i))
    && (forall i | 0 <= i < |s.mints| :: InOrder(s.mints[i], s.remintedAt, s.clock))
    && (NoneFailed(s.mints) ==> Sparing(s.mints) && (s.mints != [] ==> s.pending.Some?))
  }

  /** A settlement or a callback changes neither when a mint started nor why, and undoes no failure. */
  lemma ProgressIsSparing(mints: seq<Mint>, i: nat, m: Mint)
    requires i < |mints| && m.startedAt == mints[i].startedAt && m.remint == mints[i].remint
    requires mints[i].status.Failed? ==> m.status.Failed?
    ensures NoneFailed(mints[i := m]) ==> NoneFailed(mints)
    ensures Sparing(mints) ==> Sparing(mints[i := m])
  {
    var after := mints[i := m];
    if NoneFailed(after) {
      forall j | 0 <= j < |mints| ensures !mints[j].status.Failed? {
        assert !after[j].status.Failed?;
      }
    }
  }

  lemma StartIsSparing(mints: seq<Mint>, m: Mint)
    requires m.status.Running?
    requires NoneFailed(mints) && !m.remint ==> mints == []
    requires forall i | 0 <= i < |mints| && NoneFailed(mints) && m.remint && mints[i].remint ::
      mints[i].startedAt + REMINT_REUSE_MS <= m.startedAt
    ensures NoneFailed(mints + [m]) ==> NoneFailed(mints)
    ensures NoneFailed(mints) && Sparing(mints) ==> Sparing(mints + [m])
  {
    var after := mints + [m];
    if NoneFailed(after) {
      forall j | 0 <= j < |mints| ensures !mints[j].status.Failed? {
        assert !after[j].status.Failed?;
      }
    }
  }

  lemma AskIsSound(s: State, retry: bool, at: int)
    requires Sound(s) && Enabled(s, Ask(retry, at))
    ensures Sound(Step(s, Ask(retry, at)))
  {
    if Mints(s, retry, at) {
      forall i | 0 <= i < |s.mints| && NoneFailed(s.mints) && retry && s.mints[i].remint
        ensures s.mints[i].startedAt + REMINT_REUSE_MS <= at
      {
        assert !Open(s.mints[i]) && InOrder(s.mints[i], s.remintedAt, s.clock);
      }
      StartIsSparing(s.mints, Mint(at, retry, Running, false, false));
    }
  }

  lemma ProgressIsSound(s: State, e: Event)
    requires Sound(s) && Enabled(s, e) && !e.Ask?
    ensures Sound(Step(s, e))
  {
    if !e.Forget? { ProgressIsSparing(s.mints, e.i, Step(s, e).mints[e.i]); }
  }

  lemma {:induction false} RunIsSound(start: int, script: seq<Event>)
    ensures Sound(Run(start, script))
  {
    if script != [] {
      var n := |script| - 1;
      RunIsSound(start, script[..n]);
      var s, e := Run(start, script[..n]), script[n];
      if Enabled(s, e) {
        if e.Ask? { AskIsSound(s, e.retry, e.at); } else { ProgressIsSound(s, e); }
      }
    }
  }

  // ---------- what holds of every interleaving ----------

  predicate Runs(m: Mint) {
    m.remint && m.status.Running?
  }

  /** At most one re-mint is running, however many requests are answered 401. */
  lemma OneRemintRuns(start: int, script: seq<Event>, i: nat, j: nat)
    requires i < j < |Run(start, script).mints|
    ensures !(Runs(Run(start, script).mints[i]) && Runs(Run(start, script).mints[j]))
  {
    var s := Run(start, script);
    RunIsSound(start, script);
    assert InOrder(s.mints[i], s.remintedAt, s.clock) && InOrder(s.mints[j], s.remintedAt, s.clock);
    assert Runs(s.mints[i]) ==> Open(s.mints[i]);
    assert Runs(s.mints[j]) ==> Open(s.mints[j]);
  }

  /** While no mint fails there is one first mint, and re-mints start at least the reuse time apart. */
  lemma MintsAreSpared(start: int, script: seq<Event>, i: nat, j: nat)
    requires i < j < |Run(start, script).mints| && NoneFailed(Run(start, script).mints)
    ensures var mints := Run(start, script).mints;
      && mints[j].remint
      && (mints[i].remint ==> mints[j].startedAt - mints[i].startedAt >= REMINT_REUSE_MS)
  {
    RunIsSound(start, script);
  }

  // ---------- a mint's whole life ----------

  lemma RunNext(start: int, script: seq<Event>, e: Event)
    ensures Run(start, script + [e]) == After(Run(start, script), e)
  {
    assert (script + [e])[..|script + [e]| - 1] == script;
  }

  lemma RunThree(start: int, script: seq<Event>, a: Event, b: Event, c: Event)
    ensures Run(start, script + [a, b, c]) == After(After(After(Run(start, script), a), b), c)
  {
    var s1, s2 := script + [a], script + [a] + [b];
    RunNext(start, script, a);
    RunNext(start, s1, b);
    RunNext(start, s2, c);
    assert script + [a, b, c] == s2 + [c];
  }

  /** A failed mint is not handed out again: once it is forgotten, the next plain ask starts another. */
  lemma FailedMintIsReplaced(start: int, script: seq<Event>, failed: int, forgotten: int, asked: int)
    requires var s := Run(start, script);
      s.pending.Some? && s.pending.value < |s.mints| && s.mints[s.pending.value].status == Running && s.clock <= failed
    requires failed <= forgotten <= asked
    ensures var s := Run(start, script); var i := s.pending.value;
      var end := Run(start, script + [Settle(i, false, failed), Forget(i, forgotten), Ask(false, asked)]);
      && |end.mints| == |s.mints| + 1 && end.pending == Some(|s.mints|)
      && end.mints[|s.mints|] == Mint(asked, false, Running, false, false)
      && end.mints[..|s.mints|] == s.mints[i := s.mints[i].(status := Failed)]
  {
    var i := Run(start, script).pending.value;
    RunThree(start, script, Settle(i, false, failed), Forget(i, forgotten), Ask(false, asked));
  }

  /** The re-mint of a retry, from its start to its last callback: granted and stamped, or failed and forgotten. */
  ghost function Remint(i: nat, ok: bool, started: int, settled: int, caught: int, cleared: int): seq<Event> {
    [Ask(true, started)] +
    [Settle(i, ok, settled), if ok then Stamp(i, caught) else Forget(i, caught), Clear(i, cleared)]
  }

  lemma RemintSteps(s: State, i: nat, ok: bool, settled: int, caught: int, cleared: int)
    requires |s.mints| == i + 1 && s.mints[i].remint && s.mints[i].status.Running? && !s.mints[i].stamped
    requires s.pending == s.reminting == Some(i) && !s.mints[i].cleared && s.clock <= settled <= caught <= cleared
    ensures var called := After(After(s, Settle(i, ok, settled)), if ok then Stamp(i, caught) else Forget(i, caught));
      var end := After(called, Clear(i, cleared));
      && end.mints == s.mints[..i] + [Mint(s.mints[i].startedAt, true, if ok then Granted else Failed, ok, true)]
      && end.pending == (if ok then Some(i) else None) && end.reminting == None && end.clock == cleared
      && end.remintedAt == if ok then caught else s.remintedAt
  {
  }

  /** The state after a re-mint that nothing else came between. */
  lemma RemintEnds(start: int, script: seq<Event>, ok: bool, started: int, settled: int, caught: int, cleared: int)
    requires var s := Run(start, script);
      s.reminting.None? && (s.pending.None? || started - s.remintedAt >= 5000) && s.clock <= started
    requires started <= settled <= caught <= cleared
    ensures var s := Run(start, script); var i := |s.mints|;
      var end := Run(start, script + Remint(i, ok, started, settled, caught, cleared));
      && end.mints == s.mints + [Mint(started, true, if ok then Granted else Failed, ok, true)]
      && end.pending == (if ok then Some(i) else None) && end.reminting == None && end.clock == cleared
      && (ok ==> end.remintedAt == caught)
  {
    var s := Run(start, script);
    var all := Remint(|s.mints|, ok, started, settled, caught, cleared);
    RunNext(start, script, all[0]);
    RemintSteps(After(s, all[0]), |s.mints|, ok, settled, caught, cleared);
    RunThree(start, script + [all[0]], all[1], all[2], all[3]);
    assert script + all == script + [all[0]] + [all[1], all[2], all[3]];
  }

  /**
   A retry within five seconds of a granted re-mint reuses it, and a later one starts another; after a failed one
   the very next retry does.
   */
  lemma RemintIsReused(start: int, script: seq<Event>, ok: bool, started: int, settled: int, caught: int, cleared: int,
                       retried: int)
    requires var s := Run(start, script);
      s.reminting.None? && (s.pending.None? || started - s.remintedAt >= 5000) && s.clock <= started
    requires started <= settled <= caught <= cleared <= retried
    ensures var s := Run(start, script); var i := |s.mints|;
      var end := Run(start, script + Remint(i, ok, started, settled, caught, cleared) + [Ask(true, retried)]);
      if ok && retried - caught < 5000 then |end.mints| == i + 1 && end.pending == Some(i) && end.reminting == None
      else
        |end.mints| == i + 2 && end.mints[i + 1] == Mint(retried, true, Running, false, false)
        && end.pending == end.reminting == Some(i + 1)
  {
    var i := |Run(start, script).mints|;
    RemintEnds(start, script, ok, started, settled, caught, cleared);
    RunNext(start, script + Remint(i, ok, started, settled, caught, cleared), Ask(true, retried));
  }

  // ---------- the closure ----------

  class IntrospectionAuthorization {
    var pending: Option<nat>
    var reminting: Option<nat>
    var remintedAt: int

    /** The promises, numbered in the order they were made, and the clock at the last step. */
    var mints: seq<Mint>
    var clock: int

    constructor (now: int)
      ensures View() == Run(now, [])
    {
      pending, reminting, remintedAt, mints, clock := None, None, 0, [], now;
    }

    function View(): State
      reads this
    {
      State(pending, reminting, remintedAt, mints, clock)
    }

    method Create(now: int, remint: bool) returns (current: nat)
      modifies this
      ensures current == |old(mints)|
      ensures mints == old(mints) + [Mint(now, remint, Running, false, false)]
      ensures pending == Some(current) && clock == now
      ensures reminting == old(reminting) && remintedAt == old(remintedAt)
    {
      current := |mints|;
      mints := mints + [Mint(now, remint, Running, false, false)];
      pending := Some(current);
      clock := now;
    }

    /** One ask. The answer is the promise handed out. */
    method Ask(retry: bool, now: int) returns (answer: nat)
      requires Sound(View()) && Enabled(View(), Event.Ask(retry, now))
      modifies this
      ensures View() == After(old(View()), Event.Ask(retry, now)) && answer < |mints|
      ensures !retry && old(pending).Some? ==> mints == old(mints) && answer == old(pending).value
      ensures !retry && old(pending).None? ==> answer == |old(mints)|
      ensures retry && old(reminting).Some? ==> mints == old(mints) && answer == old(reminting).value
      ensures retry && old(reminting).None? && old(pending).Some? && now - old(remintedAt) < REMINT_REUSE_MS ==>
        mints == old(mints) && answer == old(pending).value
      ensures retry && old(reminting).None? && !(old(pending).Some? && now - old(remintedAt) < REMINT_REUSE_MS) ==>
        answer == |old(mints)|
    {
      clock := now;
      if retry {
        if reminting.Some? {
          return reminting.value;
        }
        if pending.Some? && now - remintedAt < REMINT_REUSE_MS {
          return pending.value;
        }
        answer := Create(now, true);
        reminting := Some(answer);
        return answer;
      }
      if pending.Some? {
        return pending.value;
      }
      answer := Create(now, false);
    }

    /** The creator answered, or failed; callbacks run later. */
    method Settle(i: nat, ok: bool, now: int)
      requires Enabled(View(), Event.Settle(i, ok, now))
      modifies this
      ensures View() == After(old(View()), Event.Settle(i, ok, now))
    {
      clock := now;
      mints := mints[i := mints[i].(status := if ok then Granted else Failed)];
    }

    /** The catch of a failed mint: it is forgotten, unless a later one has taken its place. */
    method Forget(i: nat, now: int)
      requires Enabled(View(), Event.Forget(i, now))
      modifies this
      ensures View() == After(old(View()), Event.Forget(i, now))
    {
      clock := now;
      if pending == Some(i) {
        pending := None;
      }
    }

    /** The then of a granted re-mint: when it finished. */
    method Stamp(i: nat, now: int)
      requires Enabled(View(), Event.Stamp(i, now))
      modifies this
      ensures View() == After(old(View()), Event.Stamp(i, now))
    {
      clock := now;
      remintedAt := now;
      mints := mints[i := mints[i].(stamped := true)];
    }

    /** The finally of a re-mint: it is no longer the one to join. */
    method Clear(i: nat, now: int)
      requires Enabled(View(), Event.Clear(i, now))
      modifies this
      ensures View() == After(old(View()), Event.Clear(i, now))
    {
      clock := now;
      if reminting == Some(i) {
        reminting := None;
      }
      mints := mints[i := mints[i].(cleared := true)];
    }
  }

  /** Any interleaving of asks, retries, settlements and callbacks does what `Run` says. */
  method Interleave(start: int, script: seq<Event>) returns (s: State)
    ensures s == Run(start, script)
  {
    var a := new IntrospectionAuthorization(start);
    assert script[..0] == [];
    for k := 0 to |script|
      invariant a.View() == Run(start, script[..k])
    {
      assert script[..k + 1][..k] == script[..k];
      if Enabled(a.View(), script[k]) {
        RunIsSound(start, script[..k]);
        match script[k] {
          case Ask(retry, at) => var _ := a.Ask(retry, at);
          case Settle(i, ok, at) => a.Settle(i, ok, at);
          case Forget(i, at) => a.Forget(i, at);
          case Stamp(i, at) => a.Stamp(i, at);
          case Clear(i, at) => a.Clear(i, at);
        }
      }
    }
    assert script[..|script|] == script;
    return a.View();
  }
}
