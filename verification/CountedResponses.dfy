/**
The responses behind the refusals of `ForwardingGuard`: what renders send and receive, read the way the API counts it
(`apps/server-auth-console/src/session.ts:16-29`), and the guard driven through it.
*/
module CountedResponses {
  import opened Basics
  import opened ForwardingGuard

  /** What renders do: forward a bearer if there is room, receive an error from the API, finish. */
  datatype Move = Forward(time: int) | Receive(id: nat, err: ResponseError, time: int) | Finish(id: nat)

  /** The times of the responses the API counts: a 401 whose code says neither expired nor inactive. */
  function CountedByApi(script: seq<Move>): seq<int> {
    if script == [] then []
    else
      var rest := CountedByApi(script[1..]);
      match script[0]
      case Receive(_, Response(status, code), time) =>
        if status == 401 && code != Some(JwtExpired) && code != Some(JwtInactive) then [time] + rest else rest
      case _ => rest
  }

  /** The event a move is to the guard; a response the API does not count is none, nor is a second finish. */
  function EventsOf(w: World, m: Move): seq<Event> {
    match m
    case Forward(time) => [Reserve(time)]
    case Receive(id, _, time) => if CountedByApi([m]) != [] then [Refuse(id, time)] else []
    case Finish(id) => if id < |w.renders| && w.renders[id].Held? then [Release(id)] else []
  }

  /** The clock of a script never goes back, and a render's counted responses come while it runs, so many at most. */
  predicate CanPlay(w: World, s: Setting, script: seq<Move>)
    decreases |script|
  {
    script == [] || (IsRun(w, s, EventsOf(w, script[0])) && CanPlay(Next(w, s, script[0]), s, script[1..]))
  }

  function Next(w: World, s: Setting, m: Move): World
    requires IsRun(w, s, EventsOf(w, m))
  {
    After(w, s, EventsOf(w, m))
  }

  /** The events of a script, one for each move that is one. */
  function Events(w: World, s: Setting, script: seq<Move>): seq<Event>
    requires CanPlay(w, s, script)
    decreases |script|
  {
    if script == [] then [] else EventsOf(w, script[0]) + Events(Next(w, s, script[0]), s, script[1..])
  }

  function Play(w: World, s: Setting, script: seq<Move>): World
    requires CanPlay(w, s, script)
    decreases |script|
  {
    if script == [] then w else Play(Next(w, s, script[0]), s, script[1..])
  }

  lemma CountedFirst(script: seq<Move>)
    requires script != []
    ensures CountedByApi(script) == CountedByApi([script[0]]) + CountedByApi(script[1..])
  {
    assert [script[0]][1..] == [];
  }

  lemma TimesOfMove(w: World, m: Move)
    ensures RefusalTimes(EventsOf(w, m)) == CountedByApi([m])
  {
    assert [m][1..] == [];
    if EventsOf(w, m) != [] { assert [EventsOf(w, m)[0]][1..] == []; }
  }

  /** The refusals of the run a script makes are the responses the API counts, in order. */
  lemma {:induction false} EventsAreCounted(w: World, s: Setting, script: seq<Move>)
    requires CanPlay(w, s, script)
    ensures IsRun(w, s, Events(w, s, script)) && After(w, s, Events(w, s, script)) == Play(w, s, script)
    ensures RefusalTimes(Events(w, s, script)) == CountedByApi(script)
    decreases |script|
  {
    if script != [] {
      var next := Next(w, s, script[0]);
      EventsAreCounted(next, s, script[1..]);
      TimesOfMove(w, script[0]);
      CountedFirst(script);
      TimesConcat(EventsOf(w, script[0]), Events(next, s, script[1..]));
      RunConcat(w, s, EventsOf(w, script[0]), Events(next, s, script[1..]));
    }
  }

  /** No refusal counted in the first window came before the window opened. */
  ghost predicate FromTheStart(w: World) {
    w.clock >= 0 && w.epochs != [] && w.epochs[0].start == 0 && forall t | t in w.epochs[0].refusals :: 0 <= t
  }

  lemma {:induction false} RunFromTheStart(w: World, s: Setting, events: seq<Event>)
    requires FromTheStart(w) && IsRun(w, s, events)
    ensures FromTheStart(After(w, s, events))
    decreases |events|
  {
    if events != [] {
      RunFromTheStart(Step(w, s, events[0]), s, events[1..]);
    }
  }

  lemma {:induction false} AllOrNone(times: seq<int>, from: int, length: nat)
    ensures (forall t | t in times :: from <= t < from + length) ==> CountIn(times, from, length) == |times|
    ensures (forall t | t in times :: t < from) ==> CountIn(times, from, length) == 0
  {
    if times != [] {
      AllOrNone(times[1..], from, length);
      assert times[0] in times && forall t | t in times[1..] :: t in times;
    }
  }

  lemma {:induction false} EarlierWindowsAreOver(epochs: seq<Epoch>, cap: nat, window: nat, n: nat, from: int)
    requires InOrder(epochs, cap, window) && window > 0 && n < |epochs| && epochs[n].start <= from
    ensures RefusalsIn(epochs[..n], from, window) == 0
    decreases n
  {
    if n > 0 {
      assert EpochInOrder(epochs, cap, window, n) && EpochInOrder(epochs, cap, window, n - 1);
      EarlierWindowsAreOver(epochs, cap, window, n - 1, from);
      assert epochs[..n][..n - 1] == epochs[..n - 1];
      AllOrNone(epochs[n - 1].refusals, from, window);
    }
  }

  lemma WindowHoldsItsCount(w: World, s: Setting)
    requires Inv(w, s) && FromTheStart(w) && s.limits.window > 0
    ensures RefusalsIn(w.epochs, w.guard.windowStart, s.limits.window) == w.guard.rejected
  {
    var n := |w.epochs| - 1;
    EarlierWindowsAreOver(w.epochs, s.Cap(), s.limits.window, n, w.guard.windowStart);
    assert EpochInOrder(w.epochs, s.Cap(), s.limits.window, n);
    AllOrNone(w.epochs[n].refusals, w.guard.windowStart, s.limits.window);
  }

  /** The guard's count is the responses of its window that the API counts. */
  lemma GuardCountsWhatTheApiCounts(s: Setting, clock: nat, script: seq<Move>)
    requires s.limits.window > 0 && CanPlay(Start(clock), s, script)
    ensures var g := Play(Start(clock), s, script).guard;
      g.rejected == CountIn(CountedByApi(script), g.windowStart, s.limits.window)
  {
    var start := Start(clock);
    var events := Events(start, s, script);
    EventsAreCounted(start, s, script);
    RunKeepsInv(start, s, events);
    RunFromTheStart(start, s, events);
    RunCounts(start, s, events, After(start, s, events).guard.windowStart, s.limits.window);
    assert start.epochs[..0] == [];
    WindowHoldsItsCount(After(start, s, events), s);
  }

  /** No interval of a window's length holds more responses the API counts than twice the limit for each of a render. */
  lemma CountedResponsesAreBounded(s: Setting, clock: int, script: seq<Move>, from: int)
    requires CanPlay(Start(clock), s, script)
    ensures CountIn(CountedByApi(script), from, s.limits.window) <= 2 * s.Cap()
  {
    EventsAreCounted(Start(clock), s, script);
    RefusalsAreBounded(s, clock, Events(Start(clock), s, script), from);
  }

  /** The reservations are the renders', one each, and end with them. */
  ghost predicate Reserves(reservations: seq<Reservation>, renders: seq<Render>)
    reads reservations
  {
    && |reservations| == |renders|
    && (forall i, j | 0 <= i < j < |reservations| :: reservations[i] != reservations[j])
    && forall i | 0 <= i < |reservations| :: reservations[i].released <==> renders[i].Ended?
  }

  /** What a move makes of the guard and of the renders. */
  ghost predicate Moves(w: World, s: Setting, m: Move, next: World) {
    match m
    case Forward(time) =>
      && next.guard == Reserved(w.guard, s.limits, time)
      && var hasRoom := HasRoom(Roll(w.guard, s.limits, time), s.limits);
      next.renders == w.renders + if hasRoom then [Held(s.perRender)] else []
    case Receive(_, _, time) =>
      && next.guard == (if CountedByApi([m]) != [] then Refused(w.guard, s.limits, time) else w.guard)
      && |next.renders| == |w.renders| && forall i | 0 <= i < |w.renders| :: next.renders[i].Held? == w.renders[i].Held?
    case Finish(id) =>
      && next.guard == (if id < |w.renders| && w.renders[id].Held? then Released(w.guard) else w.guard)
      && next.renders == if id < |w.renders| then w.renders[id := Ended] else w.renders
  }

  lemma NextMoves(w: World, s: Setting, m: Move)
    requires IsRun(w, s, EventsOf(w, m))
    ensures Moves(w, s, m, Next(w, s, m))
  {
    if EventsOf(w, m) != [] { RunOne(w, s, EventsOf(w, m)[0]); }
  }

  lemma CountsOne(m: Move)
    requires m.Receive?
    ensures CountedByApi([m]) != [] <==>
      m.err.Response? && m.err.status == 401 && m.err.code !in {Some(JwtExpired), Some(JwtInactive)}
  {
    assert [m][1..] == [];
  }

  /** One move, on the guard itself and the reservations it has handed out. */
  method MakeMove(guard: SessionForwardingGuard, reservations: seq<Reservation>, ghost w: World, s: Setting, m: Move)
    returns (held: seq<Reservation>)
    requires guard.limits == s.limits && guard.State() == w.guard && Reserves(reservations, w.renders)
    requires IsRun(w, s, EventsOf(w, m))
    modifies guard, reservations
    ensures guard.State() == Next(w, s, m).guard && Reserves(held, Next(w, s, m).renders)
    ensures reservations <= held && forall i | |reservations| <= i < |held| :: fresh(held[i])
  {
    NextMoves(w, s, m);
    held := reservations;
    match m {
      case Forward(time) =>
        var r := guard.Reserve(time);
        if r != null { held := held + [r]; }
      case Receive(_, err, time) =>
        CountsOne(m);
        guard.OnResponseError(err, time);
      case Finish(id) =>
        if id < |reservations| { guard.Release(reservations[id]); }
    }
  }

  /**
   Any script, on the guard itself. What it counts at the end is the responses of its window that the API counts,
   and no interval of a window's length holds more of those than twice the limit for each a render may receive.
   */
  method Drive(s: Setting, clock: int, script: seq<Move>) returns (end: Guard)
    requires CanPlay(Start(clock), s, script)
    ensures end == Play(Start(clock), s, script).guard
    ensures clock >= 0 && s.limits.window > 0 ==>
      end.rejected == CountIn(CountedByApi(script), end.windowStart, s.limits.window)
    ensures forall from :: CountIn(CountedByApi(script), from, s.limits.window) <= 2 * s.Cap()
  {
    var guard := new SessionForwardingGuard(s.limits);
    var reservations: seq<Reservation> := [];
    ghost var w := Start(clock);
    for k := 0 to |script|
      invariant fresh(guard) && guard.limits == s.limits && guard.State() == w.guard
      invariant forall i | 0 <= i < |reservations| :: fresh(reservations[i])
      invariant Reserves(reservations, w.renders)
      invariant CanPlay(w, s, script[k..]) && Play(w, s, script[k..]) == Play(Start(clock), s, script)
    {
      assert script[k..][1..] == script[k + 1..];
      reservations := MakeMove(guard, reservations, w, s, script[k]);
      w := Next(w, s, script[k]);
    }
    end := guard.State();
    if clock >= 0 && s.limits.window > 0 { GuardCountsWhatTheApiCounts(s, clock, script); }
    forall from ensures CountIn(CountedByApi(script), from, s.limits.window) <= 2 * s.Cap() {
      CountedResponsesAreBounded(s, clock, script, from);
    }
  }
}
