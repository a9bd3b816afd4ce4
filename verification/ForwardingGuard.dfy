/**
The session forwarding guard of `apps/server-auth-console/src/session.ts`: how many forwarded bearers the
API may refuse per window, counted together with the renders still waiting for an answer.
*/
module ForwardingGuard {
  import opened Basics

  // ---------- the guard's state, operation by operation ----------

  // `Guard` is the closure's state as a value with what each operation makes of it; the class is the closure.
  // Runs are sequences of operations under a clock that does not go back, of renders that are refused a limited
  // number of times each, while they hold their reservation.

  datatype Limits = Limits(max: nat, window: nat)

  datatype Guard = Guard(windowStart: int, rejected: nat, inflight: int)

  const FRESH := Guard(0, 0, 0)

  function Roll(g: Guard, limits: Limits, time: int): Guard {
    if time - g.windowStart >= limits.window then g.(windowStart := time, rejected := 0) else g
  }

  predicate HasRoom(g: Guard, limits: Limits) {
    g.rejected + g.inflight < limits.max
  }

  function Reserved(g: Guard, limits: Limits, time: int): Guard {
    var rolled := Roll(g, limits, time);
    if HasRoom(rolled, limits) then rolled.(inflight := rolled.inflight + 1) else rolled
  }

  function Refused(g: Guard, limits: Limits, time: int): Guard {
    var rolled := Roll(g, limits, time);
    rolled.(rejected := rolled.rejected + 1)
  }

  function Released(g: Guard): Guard {
    g.(inflight := g.inflight - 1)
  }

  /** A refused credential nobody issued: a 401 that is neither an expired nor an inactive token. */
  datatype ErrorCode = JwtExpired | JwtInactive | OtherCode

  datatype ResponseError = NoResponse | Response(status: int, code: Option<ErrorCode>)

  predicate IsRejectedBearer(err: ResponseError) {
    err.Response? && err.status == 401 && err.code != Some(JwtExpired) && err.code != Some(JwtInactive)
  }

  // ---------- the closure ----------

  /** What `reserve` hands out: ending it a second time does nothing. */
  class Reservation {
    var released: bool

    constructor ()
      ensures !released
    {
      released := false;
    }
  }

  class SessionForwardingGuard {
    const limits: Limits
    var windowStart: int
    var rejected: nat
    var inflight: int

    constructor (limits: Limits)
      ensures this.limits == limits && State() == FRESH
    {
      this.limits := limits;
      windowStart, rejected, inflight := 0, 0, 0;
    }

    function State(): Guard
      reads this
    {
      Guard(windowStart, rejected, inflight)
    }

    method RollWindow(time: int)
      modifies this
      ensures State() == Roll(old(State()), limits, time)
    {
      if !(time - windowStart >= limits.window) {
        return;
      }
      windowStart := time;
      rejected := 0;
    }

    method Reserve(time: int) returns (r: Reservation?)
      modifies this
      ensures State() == Reserved(old(State()), limits, time)
      ensures r != null <==> HasRoom(Roll(old(State()), limits, time), limits)
      ensures r != null ==> fresh(r) && !r.released
    {
      RollWindow(time);
      if rejected + inflight >= limits.max {
        return null;
      }
      inflight := inflight + 1;
      r := new Reservation();
    }

    method Release(r: Reservation)
      modifies this, r
      ensures r.released
      ensures State() == if old(r.released) then old(State()) else Released(old(State()))
    {
      if r.released {
        return;
      }
      r.released := true;
      inflight := inflight - 1;
    }

    /** The error hook of an observed client: a 401 counts, unless the token was issued and has expired or ended. */
    method OnResponseError(err: ResponseError, time: int)
      modifies this
      ensures err.Response? && err.status == 401 && err.code !in {Some(JwtExpired), Some(JwtInactive)} ==>
        State() == Refused(old(State()), limits, time)
      ensures err.NoResponse? || err.status != 401 || err.code in {Some(JwtExpired), Some(JwtInactive)} ==>
        State() == old(State())
    {
      if IsRejectedBearer(err) {
        RollWindow(time);
        rejected := rejected + 1;
      }
    }
  }

  // ---------- runs ----------

  /** The guard's limits, and how often one render may be refused. */
  datatype Setting = Setting(limits: Limits, perRender: nat) {
    function Cap(): nat {
      perRender * limits.max
    }
  }

  /** A render between its reservation and its end, with the refusals it may still meet; or over. */
  datatype Render = Held(left: nat) | Ended

  /** One window of the guard, with the times of the refusals it counted. */
  datatype Epoch = Epoch(start: int, refusals: seq<int>)

  /** The guard among its renders, numbered as they reserved, the clock, and what was counted so far. */
  datatype World = World(guard: Guard, renders: seq<Render>, clock: int, epochs: seq<Epoch>)

  datatype Event = Reserve(time: int) | Refuse(id: nat, time: int) | Release(id: nat)

  /** The clock never goes back, and a render is refused while it holds its reservation, so many times at most. */
  predicate Enabled(w: World, e: Event) {
    match e
    case Reserve(time) => time >= w.clock
    case Refuse(id, time) => time >= w.clock && id < |w.renders| && w.renders[id].Held? && w.renders[id].left > 0
    case Release(id) => id < |w.renders| && w.renders[id].Held?
  }

  /** The epochs after rolling: a new one exactly when the guard starts a new window. */
  function RollEpochs(g: Guard, epochs: seq<Epoch>, limits: Limits, time: int): seq<Epoch> {
    if time - g.windowStart >= limits.window then epochs + [Epoch(time, [])] else epochs
  }

  function CountRefusal(epochs: seq<Epoch>, time: int): seq<Epoch> {
    if epochs == [] then epochs
    else
      var last := epochs[|epochs| - 1];
      epochs[..|epochs| - 1] + [Epoch(last.start, last.refusals + [time])]
  }

  function Step(w: World, s: Setting, e: Event): World
    requires Enabled(w, e)
  {
    match e
    case Reserve(time) =>
      var epochs := RollEpochs(w.guard, w.epochs, s.limits, time);
      var more := if HasRoom(Roll(w.guard, s.limits, time), s.limits) then [Held(s.perRender)] else [];
      World(Reserved(w.guard, s.limits, time), w.renders + more, time, epochs)
    case Refuse(id, time) =>
      var epochs := CountRefusal(RollEpochs(w.guard, w.epochs, s.limits, time), time);
      World(Refused(w.guard, s.limits, time), w.renders[id := Held(w.renders[id].left - 1)], time, epochs)
    case Release(id) =>
      w.(guard := Released(w.guard), renders := w.renders[id := Ended])
  }

  function Start(clock: int): World {
    World(FRESH, [], clock, [Epoch(0, [])])
  }

  predicate IsRun(w: World, s: Setting, events: seq<Event>)
    decreases |events|
  {
    events == [] || (Enabled(w, events[0]) && IsRun(Step(w, s, events[0]), s, events[1..]))
  }

  function After(w: World, s: Setting, events: seq<Event>): World
    requires IsRun(w, s, events)
    decreases |events|
  {
    if events == [] then w else After(Step(w, s, events[0]), s, events[1..])
  }

  // ---------- what the renders may still do ----------

  function HeldCount(renders: seq<Render>): nat {
    if renders == [] then 0
    else (if renders[|renders| - 1].Held? then 1 else 0) + HeldCount(renders[..|renders| - 1])
  }

  function Left(r: Render): nat {
    if r.Held? then r.left else 0
  }

  function LeftSum(renders: seq<Render>): nat {
    if renders == [] then 0 else Left(renders[|renders| - 1]) + LeftSum(renders[..|renders| - 1])
  }

  lemma OneMoreRender(renders: seq<Render>, r: Render)
    ensures HeldCount(renders + [r]) == HeldCount(renders) + if r.Held? then 1 else 0
    ensures LeftSum(renders + [r]) == LeftSum(renders) + Left(r)
  {
    assert (renders + [r])[..|renders|] == renders;
  }

  lemma {:induction false} OneRenderChanges(renders: seq<Render>, id: nat, r: Render)
    requires id < |renders| && renders[id].Held?
    ensures HeldCount(renders[id := r]) == HeldCount(renders) - if r.Held? then 0 else 1
    ensures LeftSum(renders[id := r]) == LeftSum(renders) - renders[id].left + Left(r)
    decreases |renders|
  {
    var n := |renders| - 1;
    if id < n {
      OneRenderChanges(renders[..n], id, r);
      assert renders[id := r][..n] == renders[..n][id := r];
    } else {
      assert renders[id := r][..n] == renders[..n];
    }
  }

  ghost predicate AtMostEach(renders: seq<Render>, perRender: nat) {
    forall i | 0 <= i < |renders| :: Left(renders[i]) <= perRender
  }

  lemma {:induction false} AtMostTogether(renders: seq<Render>, perRender: nat)
    requires AtMostEach(renders, perRender)
    ensures LeftSum(renders) <= perRender * HeldCount(renders)
    decreases |renders|
  {
    if renders != [] {
      var n := |renders| - 1;
      AtMostTogether(renders[..n], perRender);
      if renders[n].Held? { OneMoreFactor(perRender, HeldCount(renders[..n])); }
    }
  }

  lemma OneMoreFactor(m: nat, n: nat)
    ensures m * (n + 1) == m * n + m
  {
  }

  /** Room for one more render is room for all it may be refused. */
  lemma RoomForOneMore(rejected: nat, held: nat, left: nat, s: Setting)
    requires rejected + held < s.limits.max && left <= s.perRender * held && rejected + left <= s.Cap()
    ensures rejected + left + s.perRender <= s.Cap()
  {
    var m := s.perRender;
    if m > 0 {
      assert m * (rejected + held + 1) <= m * s.limits.max;
      assert m * (rejected + held + 1) == m * rejected + m * held + m;
      assert rejected <= m * rejected;
    }
  }

  // ---------- the invariant ----------

  /** A refusal falls into its window; only the first has no lower bound, as it opens at 0 whatever the clock says. */
  ghost predicate InEpoch(epoch: Epoch, window: nat, t: int, bounded: bool) {
    && (window > 0 ==> t < epoch.start + window)
    && (bounded ==> epoch.start <= t)
  }

  ghost predicate EpochInOrder(epochs: seq<Epoch>, cap: nat, window: nat, i: nat)
    requires i < |epochs|
  {
    && |epochs[i].refusals| <= cap
    && (forall t | t in epochs[i].refusals :: InEpoch(epochs[i], window, t, i > 0))
    && (i > 0 ==> epochs[i - 1].start + window <= epochs[i].start)
  }

  ghost predicate InOrder(epochs: seq<Epoch>, cap: nat, window: nat) {
    forall i | 0 <= i < |epochs| :: EpochInOrder(epochs, cap, window, i)
  }

  /** The current epoch is the guard's window, with the refusals the guard counts. */
  ghost predicate Mirrors(g: Guard, epochs: seq<Epoch>) {
    && epochs != []
    && epochs[|epochs| - 1].start == g.windowStart && |epochs[|epochs| - 1].refusals| == g.rejected
  }

  /** Refusals of the current window plus those still to come never exceed the cap; windows start a window apart. */
  ghost predicate Inv(w: World, s: Setting) {
    && w.guard.inflight == HeldCount(w.renders) && AtMostEach(w.renders, s.perRender)
    && w.guard.rejected + LeftSum(w.renders) <= s.Cap()
    && Mirrors(w.guard, w.epochs) && InOrder(w.epochs, s.Cap(), s.limits.window)
    && (|w.epochs| > 1 ==> w.guard.windowStart <= w.clock)
  }

  /** The world once the guard has looked at the clock. */
  function Rolled(w: World, s: Setting, time: int): World {
    World(Roll(w.guard, s.limits, time), w.renders, time, RollEpochs(w.guard, w.epochs, s.limits, time))
  }

  lemma RollKeepsOrder(epochs: seq<Epoch>, cap: nat, window: nat, time: int)
    requires epochs != [] && InOrder(epochs, cap, window) && epochs[|epochs| - 1].start + window <= time
    ensures InOrder(epochs + [Epoch(time, [])], cap, window)
  {
    var rolled := epochs + [Epoch(time, [])];
    forall i | 0 <= i < |rolled| ensures EpochInOrder(rolled, cap, window, i) {
      if i < |epochs| { assert EpochInOrder(epochs, cap, window, i); }
    }
  }

  lemma RollKeepsInv(w: World, s: Setting, time: int)
    requires Inv(w, s) && time >= w.clock
    ensures var r := Rolled(w, s, time);
      Inv(r, s) && InEpoch(r.epochs[|r.epochs| - 1], s.limits.window, time, |r.epochs| > 1)
  {
    if time - w.guard.windowStart >= s.limits.window {
      RollKeepsOrder(w.epochs, s.Cap(), s.limits.window, time);
    }
  }

  lemma CountKeepsOrder(epochs: seq<Epoch>, cap: nat, window: nat, time: int)
    requires epochs != [] && InOrder(epochs, cap, window)
    requires InEpoch(epochs[|epochs| - 1], window, time, |epochs| > 1) && |epochs[|epochs| - 1].refusals| < cap
    ensures InOrder(CountRefusal(epochs, time), cap, window)
  {
    var counted := CountRefusal(epochs, time);
    forall i | 0 <= i < |counted| ensures EpochInOrder(counted, cap, window, i) {
      assert EpochInOrder(epochs, cap, window, i);
    }
  }

  lemma RenderKeepsInv(w: World, s: Setting)
    requires Inv(w, s) && HasRoom(w.guard, s.limits)
    ensures Inv(w.(guard := w.guard.(inflight := w.guard.inflight + 1), renders := w.renders + [Held(s.perRender)]), s)
  {
    AtMostTogether(w.renders, s.perRender);
    RoomForOneMore(w.guard.rejected, HeldCount(w.renders), LeftSum(w.renders), s);
    OneMoreRender(w.renders, Held(s.perRender));
  }

  lemma ReserveKeepsInv(w: World, s: Setting, time: int)
    requires Inv(w, s) && Enabled(w, Reserve(time))
    ensures Inv(Step(w, s, Reserve(time)), s)
  {
    var rolled := Rolled(w, s, time);
    RollKeepsInv(w, s, time);
    if HasRoom(rolled.guard, s.limits) {
      RenderKeepsInv(rolled, s);
    } else {
      assert w.renders + [] == w.renders;
    }
  }

  lemma RefusalKeepsInv(w: World, s: Setting, id: nat)
    requires Inv(w, s) && Enabled(w, Refuse(id, w.clock))
    requires InEpoch(w.epochs[|w.epochs| - 1], s.limits.window, w.clock, |w.epochs| > 1)
    ensures Inv(World(w.guard.(rejected := w.guard.rejected + 1), w.renders[id := Held(w.renders[id].left - 1)],
                      w.clock, CountRefusal(w.epochs, w.clock)), s)
  {
    OneRenderChanges(w.renders, id, Held(w.renders[id].left - 1));
    CountKeepsOrder(w.epochs, s.Cap(), s.limits.window, w.clock);
  }

  lemma RefuseKeepsInv(w: World, s: Setting, id: nat, time: int)
    requires Inv(w, s) && Enabled(w, Refuse(id, time))
    ensures Inv(Step(w, s, Refuse(id, time)), s)
  {
    RollKeepsInv(w, s, time);
    RefusalKeepsInv(Rolled(w, s, time), s, id);
  }

  lemma ReleaseKeepsInv(w: World, s: Setting, id: nat)
    requires Inv(w, s) && Enabled(w, Release(id))
    ensures Inv(Step(w, s, Release(id)), s)
  {
    OneRenderChanges(w.renders, id, Ended);
  }

  lemma StepKeepsInv(w: World, s: Setting, e: Event)
    requires Inv(w, s) && Enabled(w, e)
    ensures Inv(Step(w, s, e), s)
  {
    match e {
      case Reserve(time) => ReserveKeepsInv(w, s, time);
      case Refuse(id, time) => RefuseKeepsInv(w, s, id, time);
      case Release(id) => ReleaseKeepsInv(w, s, id);
    }
  }

  lemma {:induction false} RunKeepsInv(w: World, s: Setting, events: seq<Event>)
    requires Inv(w, s) && IsRun(w, s, events)
    ensures Inv(After(w, s, events), s)
    decreases |events|
  {
    if events != [] {
      StepKeepsInv(w, s, events[0]);
      RunKeepsInv(Step(w, s, events[0]), s, events[1..]);
    }
  }

  // ---------- the bound across unaligned windows ----------

  /** How many of the times fall into the half-open interval that begins at `from`. */
  function CountIn(times: seq<int>, from: int, length: nat): (n: nat)
    ensures n <= |times|
  {
    if times == [] then 0
    else (if from <= times[0] < from + length then 1 else 0) + CountIn(times[1..], from, length)
  }

  function RefusalsIn(epochs: seq<Epoch>, from: int, length: nat): nat {
    if epochs == [] then 0
    else RefusalsIn(epochs[..|epochs| - 1], from, length) + CountIn(epochs[|epochs| - 1].refusals, from, length)
  }

  lemma {:induction false} SomeCounted(times: seq<int>, from: int, length: nat) returns (t: int)
    requires CountIn(times, from, length) > 0
    ensures t in times && from <= t < from + length
  {
    if from <= times[0] < from + length {
      t := times[0];
    } else {
      t := SomeCounted(times[1..], from, length);
    }
  }

  lemma {:induction false} StartsApart(epochs: seq<Epoch>, cap: nat, window: nat, i: nat, j: nat)
    requires i < j < |epochs| && InOrder(epochs, cap, window)
    ensures epochs[i].start + window <= epochs[j].start
    decreases j
  {
    assert EpochInOrder(epochs, cap, window, j);
    if i < j - 1 { StartsApart(epochs, cap, window, i, j - 1); }
  }

  /** An interval as long as a window that reaches into one window has left every window but the one before. */
  lemma {:induction false} EarlierAreOut(epochs: seq<Epoch>, cap: nat, window: nat, n: nat, from: int, b: int)
    requires n + 1 < |epochs| && InOrder(epochs, cap, window)
    requires b in epochs[|epochs| - 1].refusals && from <= b < from + window
    ensures RefusalsIn(epochs[..n], from, window) == 0
    decreases n
  {
    if n > 0 {
      var last := |epochs| - 1;
      EarlierAreOut(epochs, cap, window, n - 1, from, b);
      assert epochs[..n][..n - 1] == epochs[..n - 1];
      if CountIn(epochs[n - 1].refusals, from, window) > 0 {
        var a := SomeCounted(epochs[n - 1].refusals, from, window);
        assert EpochInOrder(epochs, cap, window, n - 1) && EpochInOrder(epochs, cap, window, n);
        assert EpochInOrder(epochs, cap, window, last);
        StartsApart(epochs, cap, window, n, last);
      }
    }
  }

  lemma {:induction false} AtMostTwoWindows(epochs: seq<Epoch>, cap: nat, window: nat, from: int)
    requires InOrder(epochs, cap, window)
    ensures RefusalsIn(epochs, from, window) <= 2 * cap
    decreases |epochs|
  {
    if epochs != [] {
      var n := |epochs| - 1;
      var init := epochs[..n];
      forall k | 0 <= k < n ensures EpochInOrder(init, cap, window, k) {
        assert EpochInOrder(epochs, cap, window, k);
      }
      assert EpochInOrder(epochs, cap, window, n);
      if CountIn(epochs[n].refusals, from, window) == 0 {
        AtMostTwoWindows(init, cap, window, from);
      } else if n > 0 {
        var b := SomeCounted(epochs[n].refusals, from, window);
        EarlierAreOut(epochs, cap, window, n - 1, from, b);
        assert init[..n - 1] == epochs[..n - 1];
        assert EpochInOrder(epochs, cap, window, n - 1);
      }
    }
  }

  // ---------- every refusal is counted ----------

  /** The times of the refusals of a run, in order. */
  function RefusalTimes(events: seq<Event>): seq<int> {
    if events == [] then []
    else (if events[0].Refuse? then [events[0].time] else []) + RefusalTimes(events[1..])
  }

  lemma {:induction false} CountInConcat(a: seq<int>, b: seq<int>, from: int, length: nat)
    ensures CountIn(a + b, from, length) == CountIn(a, from, length) + CountIn(b, from, length)
  {
    if a == [] {
      assert a + b == b;
    } else {
      assert (a + b)[1..] == a[1..] + b;
      CountInConcat(a[1..], b, from, length);
    }
  }

  lemma StepCounts(w: World, s: Setting, e: Event, from: int, length: nat)
    requires w.epochs != [] && Enabled(w, e)
    ensures Step(w, s, e).epochs != []
    ensures RefusalsIn(Step(w, s, e).epochs, from, length) ==
      RefusalsIn(w.epochs, from, length) + if e.Refuse? then CountIn([e.time], from, length) else 0
  {
    if !e.Release? {
      var epochs := RollEpochs(w.guard, w.epochs, s.limits, e.time);
      assert epochs != w.epochs ==> epochs[..|epochs| - 1] == w.epochs;
      assert RefusalsIn(epochs, from, length) == RefusalsIn(w.epochs, from, length);
      if e.Refuse? {
        var n := |epochs| - 1;
        var counted := CountRefusal(epochs, e.time);
        assert counted[..n] == epochs[..n] && |counted| == n + 1;
        CountInConcat(epochs[n].refusals, [e.time], from, length);
      }
    }
  }

  lemma {:induction false} RunCounts(w: World, s: Setting, events: seq<Event>, from: int, length: nat)
    requires w.epochs != [] && IsRun(w, s, events)
    ensures RefusalsIn(After(w, s, events).epochs, from, length) ==
      RefusalsIn(w.epochs, from, length) + CountIn(RefusalTimes(events), from, length)
    decreases |events|
  {
    if events != [] {
      var e := events[0];
      StepCounts(w, s, e, from, length);
      RunCounts(Step(w, s, e), s, events[1..], from, length);
      CountInConcat(if e.Refuse? then [e.time] else [], RefusalTimes(events[1..]), from, length);
    }
  }

  /**
   Every run, every interval of the window's length wherever it begins: at most twice the limit is refused, times
   the number of refusals one render may meet.
   */
  lemma RefusalsAreBounded(s: Setting, clock: int, events: seq<Event>, from: int)
    requires IsRun(Start(clock), s, events)
    ensures CountIn(RefusalTimes(events), from, s.limits.window) <= 2 * s.Cap()
  {
    var start := Start(clock);
    RunKeepsInv(start, s, events);
    AtMostTwoWindows(After(start, s, events).epochs, s.Cap(), s.limits.window, from);
    RunCounts(start, s, events, from, s.limits.window);
    assert start.epochs[..0] == [];
  }

  // ---------- the bound is reached ----------

  lemma {:induction false} TimesConcat(a: seq<Event>, b: seq<Event>)
    ensures RefusalTimes(a + b) == RefusalTimes(a) + RefusalTimes(b)
  {
    if a == [] {
      assert a + b == b;
    } else {
      assert (a + b)[1..] == a[1..] + b && (a + b)[0] == a[0];
      TimesConcat(a[1..], b);
    }
  }

  lemma {:induction false} RunConcat(w: World, s: Setting, a: seq<Event>, b: seq<Event>)
    requires IsRun(w, s, a) && IsRun(After(w, s, a), s, b)
    ensures IsRun(w, s, a + b) && After(w, s, a + b) == After(After(w, s, a), s, b)
    decreases |a|
  {
    if a == [] {
      assert a + b == b;
    } else {
      var all, next := a + b, Step(w, s, a[0]);
      assert all[0] == a[0] && all[1..] == a[1..] + b;
      RunConcat(next, s, a[1..], b);
    }
  }

  lemma RunOne(w: World, s: Setting, e: Event)
    requires Enabled(w, e)
    ensures IsRun(w, s, [e]) && After(w, s, [e]) == Step(w, s, e)
    ensures RefusalTimes([e]) == if e.Refuse? then [e.time] else []
  {
    assert [e][1..] == [];
  }

  /** A run from one world to another, with so many refusals in an interval. */
  ghost predicate Leads(w: World, s: Setting, events: seq<Event>, w': World, from: int, count: nat) {
    && IsRun(w, s, events) && After(w, s, events) == w'
    && CountIn(RefusalTimes(events), from, s.limits.window) == count
  }

  lemma LeadsOn(w: World, s: Setting, a: seq<Event>, w1: World, b: seq<Event>, w2: World, from: int, m: nat, n: nat)
    requires Leads(w, s, a, w1, from, m) && Leads(w1, s, b, w2, from, n)
    ensures Leads(w, s, a + b, w2, from, m + n)
  {
    RunConcat(w, s, a, b);
    TimesConcat(a, b);
    CountInConcat(RefusalTimes(a), RefusalTimes(b), from, s.limits.window);
  }

  lemma LeadsByOne(w: World, s: Setting, e: Event, from: int)
    requires Enabled(w, e)
    ensures Leads(w, s, [e], Step(w, s, e), from,
                  if e.Refuse? && from <= e.time < from + s.limits.window then 1 else 0)
  {
    RunOne(w, s, e);
    if e.Refuse? { assert [e.time][1..] == []; }
  }

  /** The guard's window is open at the moment. */
  ghost predicate Open(w: World, s: Setting, time: int) {
    w.clock <= time && time - w.guard.windowStart < s.limits.window
  }

  /** As many renders as there is room for reserve at one moment. */
  lemma {:induction false} ReserveAll(w: World, s: Setting, n: nat, time: int, from: int)
    returns (events: seq<Event>, w': World)
    requires Open(w, s, time) && w.guard.rejected == 0 && w.guard.inflight + n <= s.limits.max
    ensures Leads(w, s, events, w', from, 0) && Open(w', s, time)
    ensures w'.guard == w.guard.(inflight := w.guard.inflight + n)
    ensures w.renders <= w'.renders && |w'.renders| == |w.renders| + n
    ensures UnrefusedFrom(w'.renders, s.perRender, |w.renders|)
    decreases n
  {
    if n == 0 {
      events, w' := [], w;
    } else {
      var e := Reserve(time);
      var w1 := Step(w, s, e);
      LeadsByOne(w, s, e, from);
      var rest;
      rest, w' := ReserveAll(w1, s, n - 1, time, from);
      events := [e] + rest;
      LeadsOn(w, s, [e], w1, rest, w', from, 0, 0);
      assert w1.renders[|w.renders|] == w'.renders[|w.renders|];
    }
  }

  ghost predicate SameExcept(a: seq<Render>, b: seq<Render>, id: nat) {
    |a| == |b| && forall j | 0 <= j < |a| && j != id :: b[j] == a[j]
  }

  lemma RefuseOnce(w: World, s: Setting, id: nat, time: int, from: int) returns (w': World)
    requires Open(w, s, time) && from <= time < from + s.limits.window
    requires id < |w.renders| && w.renders[id].Held? && w.renders[id].left > 0
    ensures Leads(w, s, [Refuse(id, time)], w', from, 1) && Open(w', s, time)
    ensures w'.guard == w.guard.(rejected := w.guard.rejected + 1)
    ensures SameExcept(w.renders, w'.renders, id) && w'.renders[id] == Held(w.renders[id].left - 1)
  {
    LeadsByOne(w, s, Refuse(id, time), from);
    w' := Step(w, s, Refuse(id, time));
  }

  /** One render is refused again and again, at one moment. */
  lemma {:induction false} RefuseMany(w: World, s: Setting, id: nat, n: nat, time: int, from: int)
    returns (events: seq<Event>, w': World)
    requires Open(w, s, time) && from <= time < from + s.limits.window
    requires id < |w.renders| && w.renders[id].Held? && w.renders[id].left >= n
    ensures Leads(w, s, events, w', from, n) && Open(w', s, time)
    ensures w'.guard == w.guard.(rejected := w.guard.rejected + n)
    ensures SameExcept(w.renders, w'.renders, id) && w'.renders[id].Held?
    decreases n
  {
    if n == 0 {
      events, w' := [], w;
    } else {
      var w1 := RefuseOnce(w, s, id, time, from);
      var rest;
      rest, w' := RefuseMany(w1, s, id, n - 1, time, from);
      events := [Refuse(id, time)] + rest;
      LeadsOn(w, s, [Refuse(id, time)], w1, rest, w', from, 1, n - 1);
    }
  }

  ghost predicate SameUpTo(a: seq<Render>, b: seq<Render>, i: nat) {
    |a| == |b| && forall j | 0 <= j < i && j < |a| :: b[j] == a[j]
  }

  ghost predicate HeldFrom(renders: seq<Render>, i: nat) {
    forall j | i <= j < |renders| :: renders[j].Held?
  }

  ghost predicate UnrefusedFrom(renders: seq<Render>, perRender: nat, i: nat) {
    forall j | i <= j < |renders| :: renders[j] == Held(perRender)
  }

  ghost function Times(m: nat, n: nat): nat {
    if n == 0 then 0 else m + Times(m, n - 1)
  }

  lemma {:induction false} TimesIsProduct(m: nat, n: nat)
    ensures Times(m, n) == m * n
  {
    if n > 0 {
      TimesIsProduct(m, n - 1);
      OneMoreFactor(m, n - 1);
    }
  }

  /** Every render from `i` on is refused as often as it can be. */
  lemma {:induction false} RefuseAll(w: World, s: Setting, i: nat, time: int, from: int)
    returns (events: seq<Event>, w': World)
    requires Open(w, s, time) && from <= time < from + s.limits.window && i <= |w.renders|
    requires UnrefusedFrom(w.renders, s.perRender, i)
    ensures var n := Times(s.perRender, |w.renders| - i);
      Leads(w, s, events, w', from, n) && w'.guard == w.guard.(rejected := w.guard.rejected + n)
    ensures Open(w', s, time)
    ensures SameUpTo(w.renders, w'.renders, i) && HeldFrom(w'.renders, i)
    decreases |w.renders| - i
  {
    if i == |w.renders| {
      events, w' := [], w;
    } else {
      var first, w1 := RefuseMany(w, s, i, s.perRender, time, from);
      var rest;
      rest, w' := RefuseAll(w1, s, i + 1, time, from);
      events := first + rest;
      LeadsOn(w, s, first, w1, rest, w', from, s.perRender, Times(s.perRender, |w.renders| - i - 1));
      KeptBelow(w.renders, w1.renders, w'.renders, i);
    }
  }

  lemma KeptBelow(a: seq<Render>, b: seq<Render>, c: seq<Render>, i: nat)
    requires i < |a| && SameExcept(a, b, i) && b[i].Held? && SameUpTo(b, c, i + 1) && HeldFrom(c, i + 1)
    ensures SameUpTo(a, c, i) && HeldFrom(c, i)
  {
  }

  /** Every render from `i` on ends. */
  lemma {:induction false} ReleaseAll(w: World, s: Setting, i: nat, time: int, from: int)
    returns (events: seq<Event>, w': World)
    requires Open(w, s, time) && i <= |w.renders|
    requires HeldFrom(w.renders, i)
    ensures Leads(w, s, events, w', from, 0) && Open(w', s, time)
    ensures w'.guard == w.guard.(inflight := w.guard.inflight - (|w.renders| - i))
    decreases |w.renders| - i
  {
    if i == |w.renders| {
      events, w' := [], w;
    } else {
      var w1 := Step(w, s, Release(i));
      LeadsByOne(w, s, Release(i), from);
      var rest;
      rest, w' := ReleaseAll(w1, s, i + 1, time, from);
      events := [Release(i)] + rest;
      LeadsOn(w, s, [Release(i)], w1, rest, w', from, 0, 0);
    }
  }

  /** In one open window without refusals, with nobody else around, the whole cap can be refused at one moment. */
  lemma Wave(w: World, s: Setting, time: int, from: int) returns (events: seq<Event>, w': World)
    requires Open(w, s, time) && w.guard.rejected == 0 && w.guard.inflight == 0
    requires from <= time < from + s.limits.window
    ensures Leads(w, s, events, w', from, s.Cap()) && Open(w', s, time)
    ensures w'.guard.inflight == 0 && w'.guard.windowStart == w.guard.windowStart
  {
    var a, w1 := ReserveAll(w, s, s.limits.max, time, from);
    var b, w2 := RefuseAll(w1, s, |w.renders|, time, from);
    var c, w3 := ReleaseAll(w2, s, |w.renders|, time, from);
    TimesIsProduct(s.perRender, s.limits.max);
    LeadsOn(w, s, a, w1, b, w2, from, 0, s.Cap());
    LeadsOn(w, s, a + b, w2, c, w3, from, s.Cap(), 0);
    events, w' := a + b + c, w3;
  }

  /** A render that comes when the window is over opens the next. */
  lemma NextWindow(w: World, s: Setting, time: int, from: int) returns (events: seq<Event>, w': World)
    requires w.clock <= time && time - w.guard.windowStart >= s.limits.window > 0
    requires w.guard.inflight == 0 && s.limits.max > 0
    ensures Leads(w, s, events, w', from, 0) && Open(w', s, time)
    ensures w'.guard.rejected == 0 && w'.guard.inflight == 0
  {
    var w1 := Step(w, s, Reserve(time));
    LeadsByOne(w, s, Reserve(time), from);
    var release := Release(|w.renders|);
    w' := Step(w1, s, release);
    LeadsByOne(w1, s, release, from);
    LeadsOn(w, s, [Reserve(time)], w1, [release], w', from, 0, 0);
    events := [Reserve(time)] + [release];
  }

  /** The bound is exact: in every setting with a window of at least two units some run has 2 * cap refusals in one. */
  lemma BoundIsReached(s: Setting)
    requires s.limits.window >= 2
    ensures exists events, from ::
      IsRun(Start(0), s, events) && CountIn(RefusalTimes(events), from, s.limits.window) == 2 * s.Cap()
  {
    var late, next := s.limits.window - 1, s.limits.window as int;
    var start := Start(0);
    if s.limits.max == 0 {
      assert IsRun(start, s, []) && CountIn(RefusalTimes([]), late, s.limits.window) == 2 * s.Cap();
    } else {
      var a, w1 := Wave(start, s, late, late);
      var b, w2 := NextWindow(w1, s, next, late);
      var c, w3 := Wave(w2, s, next, late);
      var events := ThreeParts(start, s, a, w1, b, w2, c, w3, late, s.Cap());
      assert IsRun(start, s, events) && CountIn(RefusalTimes(events), late, s.limits.window) == 2 * s.Cap();
    }
  }

  lemma ThreeParts(w: World, s: Setting, a: seq<Event>, w1: World, b: seq<Event>, w2: World, c: seq<Event>, w3: World,
                   from: int, n: nat)
    returns (events: seq<Event>)
    requires Leads(w, s, a, w1, from, n) && Leads(w1, s, b, w2, from, 0) && Leads(w2, s, c, w3, from, n)
    ensures Leads(w, s, events, w3, from, n + n)
  {
    LeadsOn(w, s, a, w1, b, w2, from, n, 0);
    LeadsOn(w, s, a + b, w2, c, w3, from, n, n);
    events := a + b + c;
  }

  // ---------- what the console promises ----------

  /** The limits the console ships with, and how many failed sign-ins a minute the API tolerates of one address. */
  const SHIPPED := Limits(100, 60 * 1000)
  const API_LIMIT := 300

  ghost predicate StaysBelow(s: Setting, limit: nat, clock: int, events: seq<Event>, from: int) {
    IsRun(Start(clock), s, events) ==> CountIn(RefusalTimes(events), from, s.limits.window) < limit
  }

  /**
   No minute of any run, wherever it begins, brings the console's address to the API's limit, exactly if no render
   is refused more than once.
   */
  lemma ConsoleStaysBelowTheApiLimit(perRender: nat)
    ensures (forall clock, events, from :: StaysBelow(Setting(SHIPPED, perRender), API_LIMIT, clock, events, from)) <==>
      perRender <= 1
  {
    var s := Setting(SHIPPED, perRender);
    if perRender <= 1 {
      forall clock, events, from ensures StaysBelow(s, API_LIMIT, clock, events, from) {
        if IsRun(Start(clock), s, events) { RefusalsAreBounded(s, clock, events, from); }
      }
    } else {
      BoundIsReached(s);
      var events, from :|
        IsRun(Start(0), s, events) && CountIn(RefusalTimes(events), from, SHIPPED.window) == 2 * s.Cap();
      assert !StaysBelow(s, API_LIMIT, 0, events, from);
    }
  }

  // ---------- a refusal after its reservation ----------

  /** The operations a caller could make; nothing here ties a refusal to a reservation still held. */
  function Bypass(g: Guard, limits: Limits, n: nat, time: int): Guard
    decreases n
  {
    if n == 0 then g else Bypass(Released(Reserved(g, limits, time)), limits, n - 1, time)
  }

  function Late(g: Guard, limits: Limits, n: nat, time: int): Guard
    decreases n
  {
    if n == 0 then g else Late(Refused(g, limits, time), limits, n - 1, time)
  }

  /**
   Why a refusal has to come while its reservation is held: with a limit of one or more, any number of renders
   can reserve and release, each within the limit, and be refused afterwards, all inside one window.
   */
  lemma LateRefusalsEscapeTheLimit(limits: Limits, n: nat)
    requires limits.max >= 1 && limits.window >= 1
    ensures Bypass(FRESH, limits, n, 0) == FRESH && HasRoom(Roll(FRESH, limits, 0), limits)
    ensures Late(Bypass(FRESH, limits, n, 0), limits, n, 0).rejected == n
  {
    BypassReturns(limits, n);
    LateCounts(FRESH, limits, n);
  }

  lemma {:induction false} BypassReturns(limits: Limits, n: nat)
    requires limits.max >= 1 && limits.window >= 1
    ensures Bypass(FRESH, limits, n, 0) == FRESH
  {
    if n > 0 { BypassReturns(limits, n - 1); }
  }

  lemma {:induction false} LateCounts(g: Guard, limits: Limits, n: nat)
    requires g.windowStart == 0 && limits.window >= 1
    ensures Late(g, limits, n, 0).rejected == g.rejected + n
    decreases n
  {
    if n > 0 { LateCounts(Refused(g, limits, 0), limits, n - 1); }
  }
}
