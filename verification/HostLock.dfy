/**
Many CLI processes over one hosts directory: `apps/authup/src/host/lock.ts` and the rotation of
`apps/authup/src/host/client.ts`, with the write `apps/authup/src/commands/login.ts` makes under the same lock.

One event is one step of one process, of the clock, or of the authorization server. The server rotates
strictly: a refresh token it has already redeemed is answered as a replay.
*/
module HostLock {
  import opened Basics

  const HOSTS_LOCK_STALE_MS := 30000
  const HOSTS_LOCK_WAIT_MS := 10000

  /** A pair, known by its access token; a grant may carry no refresh token. */
  datatype Tokens = Tokens(access: nat, refresh: Option<nat>)

  /** The lock file on disk, told apart by who created it and when in the order of creations. */
  datatype LockFile = LockFile(id: nat, creator: nat, mtime: int)

  datatype Purpose = Refresh | Login(pair: Tokens)
  {
    function Carried(): Option<Tokens> {
      if Login? then Some(pair) else None
    }
  }

  /** Where a process stands; from `Holding` to `Releasing` it is between its successful open and its rm. */
  datatype Phase =
    | Off
    | Ready
    | Acquiring(purpose: Purpose, deadline: int)
    | Busy(purpose: Purpose, deadline: int)
    | Stealing(purpose: Purpose, deadline: int)
    | Holding(purpose: Purpose, file: nat)
    | Requesting(file: nat)
    | Granted(file: nat, pair: Tokens)
    | Cleared(file: nat, pair: Tokens)
    | Releasing(file: nat)
  {
    predicate HoldsLock() {
      Holding? || Requesting? || Granted? || Cleared? || Releasing?
    }

    /** A pair the server has granted and the storage does not hold yet. */
    function Carried(): Option<Tokens> {
      match this
      case Acquiring(purpose, _) => purpose.Carried()
      case Busy(purpose, _) => purpose.Carried()
      case Stealing(purpose, _) => purpose.Carried()
      case Holding(purpose, _) => purpose.Carried()
      case Granted(_, pair) => Some(pair)
      case Cleared(_, pair) => Some(pair)
      case _ => None
    }
  }

  /** A process and the pair it keeps in memory (`Off` keeps none). */
  datatype Process = Process(phase: Phase, tokens: Tokens)

  datatype World = World(
    clock: int,
    lockFile: Option<LockFile>, files: nat,
    stored: Option<Tokens>,
    issued: map<nat, Tokens>, live: set<nat>, presented: seq<nat>, replayed: bool,
    procs: seq<Process>)

  datatype Event =
    | Tick(time: int)
    | Open(p: nat)
    | BeginRefresh(p: nat)
    | BeginLogin(p: nat, withRefresh: bool)
    | TryCreate(p: nat)
    | Stat(p: nat)
    | Steal(p: nat)
    | Read(p: nat)
    | Present(p: nat, withRefresh: bool)
    | RequestFails(p: nat)
    | AnswerLost(p: nat, withRefresh: bool)
    | Store(p: nat)
    | StoreFails(p: nat)
    | WriteEntry(p: nat, clears: bool)
    | WriteTokens(p: nat)
    | Release(p: nat)

  predicate Enabled(w: World, e: Event) {
    match e
    case Tick(time) => time >= w.clock
    case Open(p) => p < |w.procs| && w.procs[p].phase.Off?
    case BeginRefresh(p) => p < |w.procs| && w.procs[p].phase.Ready?
    case BeginLogin(p, _) => p < |w.procs| && w.procs[p].phase.Off?
    case TryCreate(p) => p < |w.procs| && w.procs[p].phase.Acquiring?
    case Stat(p) => p < |w.procs| && w.procs[p].phase.Busy?
    case Steal(p) => p < |w.procs| && w.procs[p].phase.Stealing?
    case Read(p) => p < |w.procs| && w.procs[p].phase.Holding? && w.procs[p].phase.purpose.Refresh?
    case Present(p, _) => p < |w.procs| && w.procs[p].phase.Requesting? && w.procs[p].tokens.refresh.Some?
    case RequestFails(p) => p < |w.procs| && w.procs[p].phase.Requesting?
    case AnswerLost(p, _) =>
      && p < |w.procs| && w.procs[p].phase.Requesting? && w.procs[p].tokens.refresh.Some?
      && w.procs[p].tokens.refresh.value in w.live
    case Store(p) => p < |w.procs| && w.procs[p].phase.Granted?
    case StoreFails(p) => p < |w.procs| && w.procs[p].phase.Granted?
    case WriteEntry(p, _) => p < |w.procs| && w.procs[p].phase.Holding? && w.procs[p].phase.purpose.Login?
    case WriteTokens(p) => p < |w.procs| && w.procs[p].phase.Cleared?
    case Release(p) => p < |w.procs| && w.procs[p].phase.Releasing?
  }

  function At(w: World, p: nat, phase: Phase): World
    requires p < |w.procs|
  {
    w.(procs := w.procs[p := w.procs[p].(phase := phase)])
  }

  function With(w: World, p: nat, phase: Phase, tokens: Tokens): World
    requires p < |w.procs|
  {
    w.(procs := w.procs[p := Process(phase, tokens)])
  }

  /** The server's next pair; pairs are numbered in the order they are issued. */
  function NewPair(w: World, withRefresh: bool): Tokens {
    Tokens(|w.issued|, if withRefresh then Some(|w.issued|) else None)
  }

  function Issue(w: World, withRefresh: bool): World {
    var pair := NewPair(w, withRefresh);
    w.(issued := w.issued[pair.access := pair], live := w.live + (if withRefresh then {pair.access} else {}))
  }

  function Step(w: World, e: Event): World
    requires Enabled(w, e)
  {
    match e
    case Tick(time) => w.(clock := time)
    case Open(p) =>
      // a command starts with what the storage holds, read without the lock
      if w.stored.Some? then With(w, p, Ready, w.stored.value) else w
    case BeginRefresh(p) => At(w, p, Acquiring(Refresh, w.clock + HOSTS_LOCK_WAIT_MS))
    case BeginLogin(p, withRefresh) =>
      // the device grant is obtained before the lock is asked for
      var pair := NewPair(w, withRefresh);
      With(Issue(w, withRefresh), p, Acquiring(Login(pair), w.clock + HOSTS_LOCK_WAIT_MS), pair)
    case TryCreate(p) =>
      var phase := w.procs[p].phase;
      if w.lockFile.None? then
        var created := w.(lockFile := Some(LockFile(w.files, p, w.clock)), files := w.files + 1);
        At(created, p, Holding(phase.purpose, w.files))
      else At(w, p, Busy(phase.purpose, phase.deadline))
    case Stat(p) =>
      var phase := w.procs[p].phase;
      if w.lockFile.Some? && w.clock - w.lockFile.value.mtime > HOSTS_LOCK_STALE_MS then
        At(w, p, Stealing(phase.purpose, phase.deadline))
      else if w.clock >= phase.deadline then At(w, p, if phase.purpose.Login? then Off else Ready)
      else At(w, p, Acquiring(phase.purpose, phase.deadline))
    case Steal(p) =>
      var phase := w.procs[p].phase;
      At(w.(lockFile := None), p, Acquiring(phase.purpose, phase.deadline))
    case Read(p) =>
      var process := w.procs[p];
      if w.stored.Some? && w.stored.value.access != process.tokens.access then
        With(w, p, Releasing(process.phase.file), w.stored.value)
      else if process.tokens.refresh.None? then At(w, p, Releasing(process.phase.file))
      else At(w, p, Requesting(process.phase.file))
    case Present(p, withRefresh) =>
      var process := w.procs[p];
      var token := process.tokens.refresh.value;
      var seen := w.(presented := w.presented + [token]);
      if token in w.live then
        var granted := Issue(seen.(live := seen.live - {token}), withRefresh);
        At(granted, p, Granted(process.phase.file, NewPair(seen, withRefresh)))
      else At(seen.(replayed := true), p, Releasing(process.phase.file))
    case RequestFails(p) =>
      // refused, or never redeemed
      At(w, p, Releasing(w.procs[p].phase.file))
    case AnswerLost(p, withRefresh) =>
      // redeemed, but the grant never arrives
      var token := w.procs[p].tokens.refresh.value;
      var seen := w.(presented := w.presented + [token], live := w.live - {token});
      At(Issue(seen, withRefresh), p, Releasing(w.procs[p].phase.file))
    case Store(p) =>
      var phase := w.procs[p].phase;
      With(w.(stored := Some(phase.pair)), p, Releasing(phase.file), phase.pair)
    case StoreFails(p) =>
      var phase := w.procs[p].phase;
      With(w, p, Releasing(phase.file), phase.pair)
    case WriteEntry(p, clears) =>
      // the entry replaces a pair kept in the hosts file, not one kept in the keychain
      var phase := w.procs[p].phase;
      At(w.(stored := if clears then None else w.stored), p, Cleared(phase.file, phase.purpose.pair))
    case WriteTokens(p) =>
      var phase := w.procs[p].phase;
      With(w.(stored := Some(phase.pair)), p, Releasing(phase.file), phase.pair)
    case Release(p) => At(w.(lockFile := None), p, Ready)
  }

  // ---------- runs ----------

  /** The lock file has not reached the stale age. */
  predicate LockIsFresh(w: World) {
    w.lockFile.Some? ==> w.clock - w.lockFile.value.mtime <= HOSTS_LOCK_STALE_MS
  }

  /** No grant the server has made gets lost before it is stored. */
  predicate LosesNoGrant(e: Event) {
    !e.StoreFails? && !e.AnswerLost?
  }

  predicate IsRun(w: World, events: seq<Event>)
    decreases |events|
  {
    events == [] || (Enabled(w, events[0]) && IsRun(Step(w, events[0]), events[1..]))
  }

  predicate StaysFresh(w: World, events: seq<Event>)
    requires IsRun(w, events)
    decreases |events|
  {
    events == [] || (LockIsFresh(w) && StaysFresh(Step(w, events[0]), events[1..]))
  }

  predicate NoGrantLost(events: seq<Event>) {
    forall i | 0 <= i < |events| :: LosesNoGrant(events[i])
  }

  function After(w: World, events: seq<Event>): World
    requires IsRun(w, events)
    decreases |events|
  {
    if events == [] then w else After(Step(w, events[0]), events[1..])
  }

  /** `n` processes over a storage that holds a signed-in pair. */
  function Start(n: nat, clock: int, withRefresh: bool): World {
    var pair := Tokens(0, if withRefresh then Some(0) else None);
    World(clock, None, 0, Some(pair), map[0 := pair], if withRefresh then {0} else {}, [], false,
          seq(n, _ => Process(Off, pair)))
  }

  // ---------- the invariant ----------

  /** Every pair anyone has was issued, under its own number. */
  ghost predicate Known(w: World, pair: Tokens) {
    && pair.access in w.issued && w.issued[pair.access] == pair
    && (pair.refresh == None || pair.refresh == Some(pair.access))
  }

  ghost predicate Redeemable(w: World, pair: Tokens) {
    pair.refresh.Some? ==> pair.refresh.value in w.live
  }

  /** The lock file exists exactly while a process is between its open and its rm, which created it. */
  ghost predicate Exclusion(w: World) {
    && (w.lockFile.Some? ==>
          w.lockFile.value.creator < |w.procs| && w.procs[w.lockFile.value.creator].phase.HoldsLock())
    && (forall p | 0 <= p < |w.procs| :: HoldsOnlyIts(w, p))
  }

  ghost predicate HoldsOnlyIts(w: World, p: nat)
    requires p < |w.procs|
  {
    && !w.procs[p].phase.Stealing?
    && (w.procs[p].phase.HoldsLock() ==>
          w.lockFile.Some? && w.lockFile.value.creator == p && w.lockFile.value.id == w.procs[p].phase.file)
  }

  /** The server has redeemed each token it was shown, once. */
  ghost predicate Ledger(w: World) {
    && !w.replayed
    && (forall i, j | 0 <= i < j < |w.presented| :: w.presented[i] != w.presented[j])
    && (forall t | t in w.presented :: t !in w.live && t in w.issued)
    && (forall t | t in w.live :: t in w.issued)
    && (forall t | t in w.issued :: t < |w.issued|)
  }

  /** A pair on its way into the storage is still redeemable, and neither stored nor carried by anyone else. */
  ghost predicate OnItsWay(w: World, p: nat, pair: Tokens) {
    && Known(w, pair) && Redeemable(w, pair)
    && (w.stored.Some? ==> w.stored.value.access != pair.access)
    && forall q | 0 <= q < |w.procs| && q != p && w.procs[q].phase.Carried().Some? ::
         w.procs[q].phase.Carried().value.access != pair.access
  }

  /** The storage is being rewritten: between a grant and its write, or inside a login's write. */
  ghost predicate Rewriting(w: World) {
    && w.lockFile.Some? && w.lockFile.value.creator < |w.procs|
    && var phase := w.procs[w.lockFile.value.creator].phase; phase.Granted? || phase.Cleared?
  }

  ghost predicate InCustody(w: World, p: nat)
    requires p < |w.procs|
  {
    && Known(w, w.procs[p].tokens)
    && (w.procs[p].phase.Carried().Some? ==> OnItsWay(w, p, w.procs[p].phase.Carried().value))
    && (w.procs[p].phase.Requesting? ==> w.stored == Some(w.procs[p].tokens))
  }

  /** The stored pair is the current one unless it is being replaced; whoever is about to ask holds the stored pair. */
  ghost predicate Custody(w: World) {
    && (w.stored.Some? ==> Known(w, w.stored.value))
    && (!Rewriting(w) ==> w.stored.Some? && Redeemable(w, w.stored.value))
    && forall p | 0 <= p < |w.procs| :: InCustody(w, p)
  }

  ghost predicate Inv(w: World) {
    Exclusion(w) && Ledger(w) && Custody(w)
  }

  // ---------- exclusion ----------

  /** A step that leaves the lock file alone, and the process as it stood towards it. */
  lemma SameStandingKeepsExclusion(w: World, w': World, p: nat)
    requires Exclusion(w) && p < |w.procs| == |w'.procs| && w'.lockFile == w.lockFile
    requires forall q | 0 <= q < |w.procs| && q != p :: w'.procs[q] == w.procs[q]
    requires !w'.procs[p].phase.Stealing? && w'.procs[p].phase.HoldsLock() == w.procs[p].phase.HoldsLock()
    requires w.procs[p].phase.HoldsLock() ==> w'.procs[p].phase.file == w.procs[p].phase.file
    ensures Exclusion(w')
  {
    forall q | 0 <= q < |w'.procs| ensures HoldsOnlyIts(w', q) {
      assert HoldsOnlyIts(w, q);
    }
  }

  lemma CreateKeepsExclusion(w: World, p: nat)
    requires Exclusion(w) && Enabled(w, TryCreate(p))
    ensures Exclusion(Step(w, TryCreate(p)))
  {
    var w' := Step(w, TryCreate(p));
    if w.lockFile.Some? {
      SameStandingKeepsExclusion(w, w', p);
    } else {
      forall q | 0 <= q < |w'.procs| ensures HoldsOnlyIts(w', q) {
        assert HoldsOnlyIts(w, q);
      }
    }
  }

  lemma ReleaseKeepsExclusion(w: World, p: nat)
    requires Exclusion(w) && Enabled(w, Release(p))
    ensures Exclusion(Step(w, Release(p)))
  {
    var w' := Step(w, Release(p));
    assert HoldsOnlyIts(w, p);
    forall q | 0 <= q < |w'.procs| ensures HoldsOnlyIts(w', q) {
      assert HoldsOnlyIts(w, q);
    }
  }

  /** Nobody is about to take the lock over. */
  lemma NobodySteals(w: World, p: nat)
    requires Exclusion(w) && p < |w.procs|
    ensures !w.procs[p].phase.Stealing?
  {
    assert HoldsOnlyIts(w, p);
  }

  /** Steps at which a process neither opens nor removes the lock file. */
  predicate LeavesTheLock(e: Event) {
    !e.Tick? && !e.TryCreate? && !e.Release? && !e.Steal?
  }

  predicate IsOutside(e: Event) {
    e.Open? || e.BeginRefresh? || e.BeginLogin? || e.Stat?
  }

  lemma OutsideKeepsExclusion(w: World, e: Event)
    requires Exclusion(w) && Enabled(w, e) && LockIsFresh(w) && IsOutside(e)
    ensures Exclusion(Step(w, e))
  {
    SameStandingKeepsExclusion(w, Step(w, e), e.p);
  }

  predicate AsksUnderLock(e: Event) {
    e.Read? || e.Present? || e.RequestFails? || e.AnswerLost?
  }

  lemma AskingKeepsExclusion(w: World, e: Event)
    requires Exclusion(w) && Enabled(w, e) && AsksUnderLock(e)
    ensures Exclusion(Step(w, e))
  {
    SameStandingKeepsExclusion(w, Step(w, e), e.p);
  }

  lemma StoringKeepsExclusion(w: World, e: Event)
    requires Exclusion(w) && Enabled(w, e) && LeavesTheLock(e) && !IsOutside(e) && !AsksUnderLock(e)
    ensures Exclusion(Step(w, e))
  {
    SameStandingKeepsExclusion(w, Step(w, e), e.p);
  }

  lemma ExclusionKept(w: World, e: Event)
    requires Exclusion(w) && Enabled(w, e) && LockIsFresh(w)
    ensures Exclusion(Step(w, e))
  {
    if IsOutside(e) {
      OutsideKeepsExclusion(w, e);
    } else if AsksUnderLock(e) {
      AskingKeepsExclusion(w, e);
    } else if LeavesTheLock(e) {
      StoringKeepsExclusion(w, e);
    } else {
      match e {
        case Tick(_) => TickKeepsExclusion(w, e);
        case TryCreate(p) => CreateKeepsExclusion(w, p);
        case Release(p) => ReleaseKeepsExclusion(w, p);
        case Steal(p) => NobodySteals(w, p);
      }
    }
  }

  lemma TickKeepsExclusion(w: World, e: Event)
    requires Exclusion(w) && Enabled(w, e) && e.Tick?
    ensures Exclusion(Step(w, e))
  {
    forall q | 0 <= q < |w.procs| ensures HoldsOnlyIts(Step(w, e), q) {
      assert HoldsOnlyIts(w, q);
    }
  }

  // ---------- the server's ledger ----------

  lemma SameLedger(w: World, w': World)
    requires Ledger(w) && w'.replayed == w.replayed && w'.presented == w.presented
    requires w'.live == w.live && w'.issued == w.issued
    ensures Ledger(w')
  {
  }

  lemma LoginKeepsLedger(w: World, p: nat, withRefresh: bool)
    requires Ledger(w) && Enabled(w, BeginLogin(p, withRefresh))
    ensures Ledger(Step(w, BeginLogin(p, withRefresh)))
  {
  }

  lemma PresentKeepsLedger(w: World, p: nat, withRefresh: bool)
    requires Inv(w) && Enabled(w, Present(p, withRefresh))
    ensures Ledger(Step(w, Present(p, withRefresh)))
  {
    assert HoldsOnlyIts(w, p) && InCustody(w, p);
  }

  predicate AsksTheServer(e: Event) {
    e.BeginLogin? || e.Present? || e.AnswerLost?
  }

  lemma LedgerKept(w: World, e: Event)
    requires Inv(w) && Enabled(w, e) && LosesNoGrant(e)
    ensures Ledger(Step(w, e))
  {
    if AsksTheServer(e) {
      match e {
        case BeginLogin(p, withRefresh) => LoginKeepsLedger(w, p, withRefresh);
        case Present(p, withRefresh) => PresentKeepsLedger(w, p, withRefresh);
      }
    } else {
      SameLedger(w, Step(w, e));
    }
  }

  // ---------- the custody of pairs ----------

  /** The storage and the server are as before, and the process carries nothing it did not carry. */
  ghost predicate Undisturbed(w: World, w': World, p: nat)
    requires p < |w.procs| == |w'.procs|
  {
    && w'.stored == w.stored && w'.issued == w.issued && w'.live == w.live
    && (w'.procs[p].phase.Carried().None? || w'.procs[p].phase.Carried() == w.procs[p].phase.Carried())
  }

  lemma OnItsWayStays(w: World, w': World, p: nat, q: nat, pair: Tokens)
    requires p < |w.procs| == |w'.procs| && q < |w.procs| && Undisturbed(w, w', p)
    requires forall r | 0 <= r < |w.procs| && r != p :: w'.procs[r] == w.procs[r]
    requires OnItsWay(w, q, pair)
    ensures OnItsWay(w', q, pair)
  {
    forall r | 0 <= r < |w'.procs| && r != q && w'.procs[r].phase.Carried().Some?
      ensures w'.procs[r].phase.Carried().value.access != pair.access
    {
      assert w.procs[r].phase.Carried() == w'.procs[r].phase.Carried();
    }
  }

  lemma UndisturbedKeepsCustody(w: World, w': World, p: nat)
    requires Custody(w) && p < |w.procs| == |w'.procs| && Undisturbed(w, w', p)
    requires forall q | 0 <= q < |w.procs| && q != p :: w'.procs[q] == w.procs[q]
    requires Known(w, w'.procs[p].tokens) && (Rewriting(w) ==> Rewriting(w'))
    requires w'.procs[p].phase.Requesting? ==> w'.stored == Some(w'.procs[p].tokens)
    ensures Custody(w')
  {
    forall q | 0 <= q < |w'.procs| ensures InCustody(w', q) {
      assert InCustody(w, q);
      if w'.procs[q].phase.Carried().Some? {
        OnItsWayStays(w, w', p, q, w'.procs[q].phase.Carried().value);
      }
    }
  }

  /** Steps that change neither the storage nor the server. */
  predicate IsQuiet(e: Event) {
    e.Open? || e.BeginRefresh? || e.TryCreate? || e.Stat? || e.Read? || e.RequestFails? || e.Release?
  }

  lemma QuietKeepsCustody(w: World, e: Event)
    requires Inv(w) && Enabled(w, e) && LockIsFresh(w) && IsQuiet(e)
    ensures Custody(Step(w, e))
  {
    assert HoldsOnlyIts(w, e.p) && InCustody(w, e.p);
    UndisturbedKeepsCustody(w, Step(w, e), e.p);
  }

  lemma TickKeepsCustody(w: World, time: int)
    requires Custody(w) && Enabled(w, Tick(time))
    ensures Custody(Step(w, Tick(time)))
  {
    var w' := Step(w, Tick(time));
    forall q | 0 <= q < |w'.procs| ensures InCustody(w', q) {
      assert InCustody(w, q);
      if w.procs[q].phase.Carried().Some? {
        assert OnItsWay(w, q, w.procs[q].phase.Carried().value);
      }
    }
  }

  /** The pair a process carries lands in the storage, or the storage is cleared for it. */
  lemma WritingKeepsCustody(w: World, e: Event)
    requires Inv(w) && Enabled(w, e) && (e.Store? || e.WriteEntry? || e.WriteTokens?)
    ensures Custody(Step(w, e))
  {
    var w' := Step(w, e);
    assert HoldsOnlyIts(w, e.p) && InCustody(w, e.p);
    forall q | 0 <= q < |w'.procs| ensures InCustody(w', q) {
      assert HoldsOnlyIts(w, q) && InCustody(w, q);
    }
  }

  /** What a process keeps and carries stays known, and stays redeemable while the one token shown is not its own. */
  lemma CarriedStays(w: World, w': World, p: nat, q: nat, pair: Tokens)
    requires Ledger(w) && Custody(w) && p < |w.procs| == |w'.procs| && q < |w.procs| && q != p
    requires w'.procs[q] == w.procs[q] && w'.stored == w.stored
    requires forall r | 0 <= r < |w.procs| && r != p :: w'.procs[r] == w.procs[r]
    requires w'.issued == w.issued[|w.issued| := pair]
    requires forall t | t in w.live && !(w.stored.Some? && t == w.stored.value.access) :: t in w'.live
    requires w'.procs[p].phase.Carried().Some? ==> w'.procs[p].phase.Carried().value.access == |w.issued|
    ensures Known(w', w'.procs[q].tokens)
    ensures w'.procs[q].phase.Carried().Some? ==> OnItsWay(w', q, w'.procs[q].phase.Carried().value)
  {
    assert InCustody(w, q);
    if w.procs[q].phase.Carried().Some? {
      var own := w.procs[q].phase.Carried().value;
      assert OnItsWay(w, q, own);
      forall r | 0 <= r < |w'.procs| && r != q && w'.procs[r].phase.Carried().Some?
        ensures w'.procs[r].phase.Carried().value.access != own.access
      {
        assert r != p ==> w.procs[r].phase.Carried() == w'.procs[r].phase.Carried();
      }
    }
  }

  lemma NewPairIsNobodys(w: World)
    requires Ledger(w) && Custody(w)
    ensures w.stored.Some? ==> w.stored.value.access < |w.issued|
    ensures forall r | 0 <= r < |w.procs| && w.procs[r].phase.Carried().Some? ::
      w.procs[r].phase.Carried().value.access < |w.issued|
  {
    forall r | 0 <= r < |w.procs| && w.procs[r].phase.Carried().Some?
      ensures w.procs[r].phase.Carried().value.access < |w.issued|
    {
      assert InCustody(w, r);
    }
  }

  lemma BeginLoginKeepsCustody(w: World, p: nat, withRefresh: bool)
    requires Inv(w) && Enabled(w, BeginLogin(p, withRefresh))
    ensures Custody(Step(w, BeginLogin(p, withRefresh)))
  {
    var w' := Step(w, BeginLogin(p, withRefresh));
    assert HoldsOnlyIts(w, p) && InCustody(w, p);
    forall q | 0 <= q < |w'.procs| ensures InCustody(w', q) {
      assert HoldsOnlyIts(w, q) && InCustody(w, q);
      if q != p {
        CarriedStays(w, w', p, q, NewPair(w, withRefresh));
      } else {
        NewPairIsNobodys(w);
      }
    }
  }

  lemma PresentKeepsCustody(w: World, p: nat, withRefresh: bool)
    requires Inv(w) && Enabled(w, Present(p, withRefresh))
    ensures Custody(Step(w, Present(p, withRefresh)))
  {
    var w' := Step(w, Present(p, withRefresh));
    assert HoldsOnlyIts(w, p) && InCustody(w, p);
    forall q | 0 <= q < |w'.procs| ensures InCustody(w', q) {
      assert HoldsOnlyIts(w, q) && InCustody(w, q);
      if q != p {
        CarriedStays(w, w', p, q, NewPair(w, withRefresh));
      } else {
        NewPairIsNobodys(w);
      }
    }
  }

  lemma CustodyKept(w: World, e: Event)
    requires Inv(w) && Enabled(w, e) && LockIsFresh(w) && LosesNoGrant(e)
    ensures Custody(Step(w, e))
  {
    match e {
      case Tick(time) => TickKeepsCustody(w, time);
      case BeginLogin(p, withRefresh) => BeginLoginKeepsCustody(w, p, withRefresh);
      case Present(p, withRefresh) => PresentKeepsCustody(w, p, withRefresh);
      case Steal(p) => NobodySteals(w, p);
      case _ => if IsQuiet(e) { QuietKeepsCustody(w, e); } else { WritingKeepsCustody(w, e); }
    }
  }

  lemma StepKeepsInv(w: World, e: Event)
    requires Inv(w) && Enabled(w, e) && LockIsFresh(w) && LosesNoGrant(e)
    ensures Inv(Step(w, e))
  {
    ExclusionKept(w, e);
    LedgerKept(w, e);
    CustodyKept(w, e);
  }

  lemma {:induction false} RunKeepsExclusion(w: World, events: seq<Event>)
    requires Exclusion(w) && IsRun(w, events) && StaysFresh(w, events)
    ensures Exclusion(After(w, events))
    decreases |events|
  {
    if events != [] {
      ExclusionKept(w, events[0]);
      RunKeepsExclusion(Step(w, events[0]), events[1..]);
    }
  }

  lemma {:induction false} RunKeepsInv(w: World, events: seq<Event>)
    requires Inv(w) && IsRun(w, events) && StaysFresh(w, events) && NoGrantLost(events)
    ensures Inv(After(w, events))
    decreases |events|
  {
    if events != [] {
      StepKeepsInv(w, events[0]);
      RunKeepsInv(Step(w, events[0]), events[1..]);
    }
  }

  lemma StartIsFine(n: nat, clock: int, withRefresh: bool)
    ensures Inv(Start(n, clock, withRefresh))
  {
    var w := Start(n, clock, withRefresh);
    forall p | 0 <= p < n ensures HoldsOnlyIts(w, p) && InCustody(w, p) {
    }
  }

  // ---------- the theorems ----------

  /**
   In every run of any number of processes in which no lock file gets stale, whatever else goes wrong, at most one
   process is between its open and its rm, and its lock file is there.
   */
  lemma LockExcludes(n: nat, clock: int, withRefresh: bool, events: seq<Event>)
    requires IsRun(Start(n, clock, withRefresh), events) && StaysFresh(Start(n, clock, withRefresh), events)
    ensures var w := After(Start(n, clock, withRefresh), events);
      && (forall p, q | 0 <= p < |w.procs| && 0 <= q < |w.procs| &&
            w.procs[p].phase.HoldsLock() && w.procs[q].phase.HoldsLock() :: p == q)
      && (w.lockFile.Some? <==> exists p :: 0 <= p < |w.procs| && w.procs[p].phase.HoldsLock())
      && (forall p | 0 <= p < |w.procs| && w.procs[p].phase.Releasing? ::
            w.lockFile.Some? && w.lockFile.value.creator == p && w.lockFile.value.id == w.procs[p].phase.file)
  {
    StartIsFine(n, clock, withRefresh);
    RunKeepsExclusion(Start(n, clock, withRefresh), events);
    var w := After(Start(n, clock, withRefresh), events);
    forall p | 0 <= p < |w.procs| && w.procs[p].phase.HoldsLock()
      ensures w.lockFile.Some? && w.lockFile.value.creator == p && w.lockFile.value.id == w.procs[p].phase.file
    {
      assert HoldsOnlyIts(w, p);
    }
  }

  /** If no grant gets lost either, no token is presented twice, and whoever presents one presents the stored one. */
  lemma NoTokenIsReplayed(n: nat, clock: int, withRefresh: bool, events: seq<Event>)
    requires IsRun(Start(n, clock, withRefresh), events) && StaysFresh(Start(n, clock, withRefresh), events)
    requires NoGrantLost(events)
    ensures var w := After(Start(n, clock, withRefresh), events);
      && !w.replayed
      && (forall i, j | 0 <= i < j < |w.presented| :: w.presented[i] != w.presented[j])
      && (forall p | 0 <= p < |w.procs| && w.procs[p].phase.Requesting? ::
            w.stored == Some(w.procs[p].tokens) && Redeemable(w, w.procs[p].tokens))
  {
    StartIsFine(n, clock, withRefresh);
    RunKeepsInv(Start(n, clock, withRefresh), events);
    var w := After(Start(n, clock, withRefresh), events);
    forall p | 0 <= p < |w.procs| && w.procs[p].phase.Requesting?
      ensures w.stored == Some(w.procs[p].tokens) && Redeemable(w, w.procs[p].tokens)
    {
      assert HoldsOnlyIts(w, p) && InCustody(w, p);
    }
  }

  /** Under the lock a process ends up with the stored pair, and asks the server only if it had that pair already. */
  lemma StoredPairIsAdopted(w: World, p: nat)
    requires Inv(w) && Enabled(w, Read(p))
    ensures var w' := Step(w, Read(p));
      && w.stored == Some(w'.procs[p].tokens) && Redeemable(w, w'.procs[p].tokens)
      && w'.presented == w.presented && w'.stored == w.stored && w'.live == w.live
      && (w'.procs[p].phase.Requesting? <==> w'.procs[p].tokens == w.procs[p].tokens && w.procs[p].tokens.refresh.Some?)
      && (!w'.procs[p].phase.Requesting? ==> w'.procs[p].phase.Releasing?)
  {
    assert HoldsOnlyIts(w, p) && InCustody(w, p);
  }

  /** The end of a refresh: the token is presented, the answer stored, the lock released. */
  ghost function Rotated(w: World, p: nat, withRefresh: bool): World
    requires Enabled(w, Present(p, withRefresh)) && w.procs[p].tokens.refresh.value in w.live
  {
    var granted := Step(w, Present(p, withRefresh));
    var stored := Step(granted, Store(p));
    Step(stored, Release(p))
  }

  /** The process and the storage hold one pair, new and redeemable; the presented token is spent. */
  ghost predicate IsRotated(w: World, end: World, p: nat, token: nat, withRefresh: bool)
    requires p < |w.procs|
  {
    && |end.procs| == |w.procs| && end.stored == Some(end.procs[p].tokens)
    && var pair := end.procs[p].tokens;
    && pair.access !in w.issued && end.issued == w.issued[pair.access := pair]
    && pair.refresh == (if withRefresh then Some(pair.access) else None) && Redeemable(end, pair)
    && end.presented == w.presented + [token] && token !in end.live && !end.replayed
    && end.lockFile == None && end.procs[p].phase == Ready
    && forall q | 0 <= q < |w.procs| && q != p :: end.procs[q] == w.procs[q]
  }

  lemma RotationSteps(w: World, p: nat, withRefresh: bool)
    requires Ledger(w) && Enabled(w, Present(p, withRefresh)) && w.procs[p].tokens.refresh.value in w.live
    ensures IsRotated(w, Rotated(w, p, withRefresh), p, w.procs[p].tokens.refresh.value, withRefresh)
  {
    var granted := Step(w, Present(p, withRefresh));
    var pair := granted.procs[p].phase.pair;
    assert granted.issued == w.issued[pair.access := pair] && pair.access !in w.issued;
    var stored := Step(granted, Store(p));
    assert stored.issued == granted.issued && stored.live == granted.live;
  }

  /** A refresh under the lock rotates: what `IsRotated` says holds after it, in every run without stale locks. */
  lemma RefreshRotates(n: nat, clock: int, startRefresh: bool, events: seq<Event>, p: nat, withRefresh: bool)
    requires IsRun(Start(n, clock, startRefresh), events) && StaysFresh(Start(n, clock, startRefresh), events)
    requires NoGrantLost(events) && Enabled(After(Start(n, clock, startRefresh), events), Present(p, withRefresh))
    ensures var w := After(Start(n, clock, startRefresh), events);
      var token := w.procs[p].tokens.refresh.value;
      token in w.live && IsRotated(w, Rotated(w, p, withRefresh), p, token, withRefresh)
  {
    StartIsFine(n, clock, startRefresh);
    RunKeepsInv(Start(n, clock, startRefresh), events);
    var w := After(Start(n, clock, startRefresh), events);
    assert HoldsOnlyIts(w, p) && InCustody(w, p);
    RotationSteps(w, p, withRefresh);
  }

  /** A login that finds the lock free, up to its first write. */
  ghost function Entered(w: World, p: nat, withRefresh: bool, clears: bool): World
    requires Enabled(w, BeginLogin(p, withRefresh)) && w.lockFile.None?
  {
    var begun := Step(w, BeginLogin(p, withRefresh));
    var created := Step(begun, TryCreate(p));
    Step(created, WriteEntry(p, clears))
  }

  /** A new pair on its way into the storage, by a process that has the lock; nobody else has moved. */
  ghost predicate BringsNewPair(w: World, entered: World, p: nat, pair: Tokens, withRefresh: bool)
    requires p < |w.procs|
  {
    && |entered.procs| == |w.procs| && entered.procs[p].phase == Cleared(w.files, pair)
    && pair.access !in w.issued && pair.refresh == (if withRefresh then Some(pair.access) else None)
    && Redeemable(entered, pair) && forall q | 0 <= q < |w.procs| && q != p :: entered.procs[q] == w.procs[q]
  }

  /** A login that finds the lock free brings a new pair; its first write may clear the storage. */
  lemma LoginBringsItsPair(w: World, p: nat, withRefresh: bool, clears: bool)
    requires Ledger(w) && Enabled(w, BeginLogin(p, withRefresh)) && w.lockFile.None?
    ensures var entered := Entered(w, p, withRefresh, clears);
      && BringsNewPair(w, entered, p, NewPair(w, withRefresh), withRefresh)
      && entered.stored == if clears then None else w.stored
  {
  }

  /** Its second write leaves that pair in the storage and in memory, still redeemable, and the lock free. */
  lemma LoginIsStored(w: World, entered: World, p: nat, pair: Tokens, withRefresh: bool)
    requires p < |w.procs| && BringsNewPair(w, entered, p, pair, withRefresh)
    ensures var end := Step(Step(entered, WriteTokens(p)), Release(p));
      && end.stored == Some(pair) && end.procs[p] == Process(Ready, pair) && Redeemable(end, pair)
      && end.lockFile == None && forall q | 0 <= q < |w.procs| && q != p :: end.procs[q] == w.procs[q]
  {
  }

  /** A command starts with the pair the storage holds. */
  lemma CommandStartsWithTheStoredPair(w: World, p: nat)
    requires Enabled(w, Open(p)) && w.stored.Some?
    ensures Step(w, Open(p)).procs[p] == Process(Ready, w.stored.value)
  {
  }

  /**
   A command that finds the lock taken looks again until ten seconds have passed, and then gives up with nothing
   changed; a lock file older than thirty seconds it takes away.
   */
  lemma WaitIsBounded(w: World, p: nat, later: int)
    requires Enabled(w, BeginRefresh(p)) && w.lockFile.Some? && later >= w.clock
    ensures var seen := Step(Step(Step(w, BeginRefresh(p)), TryCreate(p)), Tick(later));
      var end := Step(seen, Stat(p));
      && seen.lockFile == end.lockFile == w.lockFile && end.stored == w.stored && end.presented == w.presented
      && end.procs[p].tokens == w.procs[p].tokens
      && if later - w.lockFile.value.mtime > 30000 then
           end.procs[p].phase == Stealing(Refresh, w.clock + 10000) && Step(end, Steal(p)).lockFile == None
         else end.procs[p].phase == if later - w.clock >= 10000 then Ready else Acquiring(Refresh, w.clock + 10000)
  {
  }

  /** A login gives up as late, and ends without having written. */
  lemma LoginGivesUp(w: World, p: nat, withRefresh: bool, later: int)
    requires Enabled(w, BeginLogin(p, withRefresh)) && later >= w.clock
    requires w.lockFile.Some? && later - w.lockFile.value.mtime <= 30000
    ensures var seen := Step(Step(Step(w, BeginLogin(p, withRefresh)), TryCreate(p)), Tick(later));
      var end := Step(seen, Stat(p));
      && end.lockFile == w.lockFile && end.stored == w.stored && end.presented == w.presented
      && end.procs[p].phase ==
           if later - w.clock >= 10000 then Off else Acquiring(Login(NewPair(w, withRefresh)), w.clock + 10000)
  {
  }

  // ---------- both assumptions are needed ----------

  ghost predicate Reaches(w: World, w': World) {
    exists events :: IsRun(w, events) && After(w, events) == w'
  }

  lemma {:induction false} RunOneMore(w: World, events: seq<Event>, e: Event)
    requires IsRun(w, events) && Enabled(After(w, events), e)
    ensures IsRun(w, events + [e]) && After(w, events + [e]) == Step(After(w, events), e)
    decreases |events|
  {
    if events == [] {
      assert events + [e] == [e] && [e][1..] == [];
    } else {
      assert (events + [e])[1..] == events[1..] + [e];
      RunOneMore(Step(w, events[0]), events[1..], e);
    }
  }

  lemma ReachOneMore(w: World, w': World, e: Event)
    requires Reaches(w, w') && Enabled(w', e)
    ensures Reaches(w, Step(w', e))
  {
    var events :| IsRun(w, events) && After(w, events) == w';
    RunOneMore(w, events, e);
  }

  /** The pair the storage holds at the start. */
  const FIRST_PAIR := Tokens(0, Some(0))

  const WAITING := Process(Busy(Refresh, HOSTS_LOCK_WAIT_MS), FIRST_PAIR)

  /** Two processes started on one pair; the first has opened the lock, the second is waiting for it. */
  lemma Contended() returns (w: World)
    ensures Reaches(Start(2, 0, true), w)
    ensures w.procs == [Process(Holding(Refresh, 0), FIRST_PAIR), WAITING]
    ensures w.clock == 0 && w.lockFile == Some(LockFile(0, 0, 0)) && w.stored == Some(FIRST_PAIR)
    ensures w.live == {0} && w.issued == map[0 := FIRST_PAIR] && w.files == 1
  {
    var start := Start(2, 0, true);
    assert IsRun(start, []);
    assert Reaches(start, start) by { assert After(start, []) == start; }
    w := start;
    assert w.procs == [Process(Off, FIRST_PAIR), Process(Off, FIRST_PAIR)];
    ReachOneMore(start, w, Open(0)); w := Step(w, Open(0));
    ReachOneMore(start, w, Open(1)); w := Step(w, Open(1));
    ReachOneMore(start, w, BeginRefresh(0)); w := Step(w, BeginRefresh(0));
    ReachOneMore(start, w, BeginRefresh(1)); w := Step(w, BeginRefresh(1));
    ReachOneMore(start, w, TryCreate(0)); w := Step(w, TryCreate(0));
    ReachOneMore(start, w, TryCreate(1)); w := Step(w, TryCreate(1));
  }

  /** A lock file older than the stale cut is taken over while its holder lives: two holders. */
  lemma StaleLockIsShared() returns (w: World)
    ensures Reaches(Start(2, 0, true), w)
    ensures w.procs == [Process(Holding(Refresh, 0), FIRST_PAIR), Process(Holding(Refresh, 1), FIRST_PAIR)]
    ensures w.lockFile == Some(LockFile(1, 1, 30001)) && w.stored == Some(FIRST_PAIR)
    ensures w.live == {0} && w.issued == map[0 := FIRST_PAIR]
  {
    var start := Start(2, 0, true);
    w := Contended();
    ReachOneMore(start, w, Tick(30001)); w := Step(w, Tick(30001));
    ReachOneMore(start, w, Stat(1)); w := Step(w, Stat(1));
    ReachOneMore(start, w, Steal(1)); w := Step(w, Steal(1));
    ReachOneMore(start, w, TryCreate(1)); w := Step(w, TryCreate(1));
  }

  /** And then both present one token. */
  lemma StaleLockReplays() returns (w: World)
    ensures Reaches(Start(2, 0, true), w) && w.replayed
  {
    var start := Start(2, 0, true);
    w := StaleLockIsShared();
    ReachOneMore(start, w, Read(0)); w := Step(w, Read(0));
    ReachOneMore(start, w, Read(1)); w := Step(w, Read(1));
    ReachOneMore(start, w, Present(0, true)); w := Step(w, Present(0, true));
    ReachOneMore(start, w, Present(1, true)); w := Step(w, Present(1, true));
  }

  /** The release of the first holder deletes the lock file of the second. */
  lemma StaleHolderDeletesItsSuccessorsLock() returns (w: World)
    ensures Reaches(Start(2, 0, true), w) && |w.procs| == 2 && w.procs[1].phase.HoldsLock() && w.lockFile.None?
  {
    var start := Start(2, 0, true);
    w := StaleLockIsShared();
    ReachOneMore(start, w, Read(0)); w := Step(w, Read(0));
    ReachOneMore(start, w, RequestFails(0)); w := Step(w, RequestFails(0));
    ReachOneMore(start, w, Release(0)); w := Step(w, Release(0));
  }

  /** The first process is about to present the stored token, under the lock. */
  lemma AboutToAsk() returns (w: World)
    ensures Reaches(Start(2, 0, true), w)
    ensures w.procs == [Process(Requesting(0), FIRST_PAIR), WAITING]
    ensures w.clock == 0 && w.lockFile == Some(LockFile(0, 0, 0)) && w.stored == Some(FIRST_PAIR)
    ensures w.live == {0} && w.issued == map[0 := FIRST_PAIR] && w.files == 1
  {
    var start := Start(2, 0, true);
    w := Contended();
    ReachOneMore(start, w, Read(0)); w := Step(w, Read(0));
  }

  /** The lock is free again, the redeemed token still stored, and the second process still waiting with it. */
  ghost predicate RedeemedIsStored(w: World) {
    && |w.procs| == 2 && w.procs[1] == WAITING
    && w.clock == 0 && w.lockFile == None && w.stored == Some(FIRST_PAIR) && w.live == {1}
  }

  lemma RedeemedIsReplayed(w: World) returns (w': World)
    requires Reaches(Start(2, 0, true), w) && RedeemedIsStored(w)
    ensures Reaches(Start(2, 0, true), w') && w'.replayed
  {
    var start := Start(2, 0, true);
    w' := w;
    ReachOneMore(start, w', Stat(1)); w' := Step(w', Stat(1));
    ReachOneMore(start, w', TryCreate(1)); w' := Step(w', TryCreate(1));
    ReachOneMore(start, w', Read(1)); w' := Step(w', Read(1));
    ReachOneMore(start, w', Present(1, true)); w' := Step(w', Present(1, true));
  }

  /** A grant that is never stored leaves the redeemed token behind for the next process. */
  lemma UnstoredGrantReplays() returns (w: World)
    ensures Reaches(Start(2, 0, true), w) && w.replayed
  {
    var start := Start(2, 0, true);
    w := UnstoredGrantIsHeld();
    ReachOneMore(start, w, Release(0)); w := Step(w, Release(0));
    w := RedeemedIsReplayed(w);
  }

  /** The process that was granted it has it in memory. */
  lemma UnstoredGrantIsHeld() returns (w: World)
    ensures Reaches(Start(2, 0, true), w) && w.procs == [Process(Releasing(0), Tokens(1, Some(1))), WAITING]
    ensures w.clock == 0 && w.lockFile == Some(LockFile(0, 0, 0)) && w.stored == Some(FIRST_PAIR) && w.files == 1
    ensures w.live == {1}
  {
    var start := Start(2, 0, true);
    w := AboutToAsk();
    ReachOneMore(start, w, Present(0, true)); w := Step(w, Present(0, true));
    ReachOneMore(start, w, StoreFails(0)); w := Step(w, StoreFails(0));
  }

  /** But it drops it at its next refresh, for the redeemed pair in the storage. */
  lemma UnstoredGrantIsDropped() returns (w: World)
    ensures Reaches(Start(2, 0, true), w) && w.procs == [Process(Releasing(1), FIRST_PAIR), WAITING]
    ensures w.live == {1}
  {
    var start := Start(2, 0, true);
    w := UnstoredGrantIsHeld();
    ReachOneMore(start, w, Release(0)); w := Step(w, Release(0));
    ReachOneMore(start, w, BeginRefresh(0)); w := Step(w, BeginRefresh(0));
    ReachOneMore(start, w, TryCreate(0)); w := Step(w, TryCreate(0));
    ReachOneMore(start, w, Read(0)); w := Step(w, Read(0));
  }

  /** So does a grant that is lost on its way from the server. */
  lemma LostAnswerReplays() returns (w: World)
    ensures Reaches(Start(2, 0, true), w) && w.replayed
  {
    var start := Start(2, 0, true);
    w := AboutToAsk();
    ReachOneMore(start, w, AnswerLost(0, true)); w := Step(w, AnswerLost(0, true));
    ReachOneMore(start, w, Release(0)); w := Step(w, Release(0));
    w := RedeemedIsReplayed(w);
  }
}
