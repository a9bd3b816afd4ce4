/**
`ClientAuthenticationHook` of `packages/core-http-kit/src/hook/module.ts` and the retry counter of `hook/utils.ts`.

A token creation is a promise: its settlement, the hook's own continuation and each waiting request's
continuation are separate steps. Subscribers do not throw. `After` says what each step makes of the hook, its clients
and the requests, as values, and `Run` what a whole script of them does; the classes do what these say.
*/
module AuthHook {
  import opened Basics

  // ---------- requests ----------

  datatype Phase = New | InFlight | Waiting(creation: nat) | Done

  /** A request object. `retry` is the state kept on it; `dispatched` and `asked` count what happened to it. */
  datatype Req = Req(
    retry: Option<nat>, hasHeaders: bool, authorization: Option<string>, phase: Phase, dispatched: nat, asked: nat)
  {
    function RetryCount(): nat {
      match retry case Some(n) => n case None => 0
    }

    function WithToken(value: Option<string>): Req {
      if hasHeaders then this.(authorization := value) else this
    }

    /** The caller gets the error; the replay of a refreshed request loses its token on the way. */
    function Rejected(): Req {
      (if dispatched == 2 then WithToken(None) else this).(phase := Done)
    }
  }

  /** What the hook reads off a response error. */
  datatype ResponseError = ResponseError(status: Option<int>, oauth2TokenError: bool, jwkError: bool, jwtError: bool)

  /** Which errors a refresh may cure; an empty header is none. */
  predicate AsksForRefresh(err: ResponseError, hasHeaders: bool, authorization: Option<string>) {
    || err.jwtError || err.status == Some(401)
    || (err.status == Some(403) && hasHeaders && (authorization == None || authorization == Some("")))
  }

  // ---------- the hook ----------

  datatype Grant = Grant(accessToken: string, expiresIn: int)

  datatype Creation = Running | Answered(grant: Grant) | Refused

  /** The hook, the token creations started so far, and the timers that are armed. */
  datatype Hook = Hook(
    useTimer: bool, isActive: bool, header: Option<string>, refresh: Option<nat>, creations: seq<Creation>,
    timer: Option<nat>, armed: set<nat>, timers: nat)

  function Bearer(grant: Grant): string {
    "Bearer " + grant.accessToken
  }

  /** Join the refresh under way, or start one. */
  function Joined(h: Hook): (h': Hook)
    ensures h'.refresh.Some?
  {
    if h.refresh.Some? then h else h.(creations := h.creations + [Running], refresh := Some(|h.creations|))
  }

  /** The previous timer is disarmed; another one is armed for a token that lives longer than a minute. */
  function Rearmed(h: Hook, expiresIn: int): Hook {
    if !h.useTimer then h
    else
      var cleared := h.(armed := if h.timer.Some? then h.armed - {h.timer.value} else h.armed);
      if (expiresIn - 60) * 1000 > 0
      then cleared.(timer := Some(h.timers), armed := cleared.armed + {h.timers}, timers := h.timers + 1)
      else cleared
  }

  predicate IsSettled(h: Hook, creation: nat) {
    creation < |h.creations| && !h.creations[creation].Running?
  }

  predicate CanFinish(h: Hook) {
    h.refresh.Some? && IsSettled(h, h.refresh.value)
  }

  /** The hook's own continuation of the refresh it started. */
  function Finished(h: Hook): Hook
    requires CanFinish(h)
  {
    match h.creations[h.refresh.value]
    case Answered(grant) => Rearmed(h, grant.expiresIn).(refresh := None, header := Some(Bearer(grant)))
    case _ => h.(refresh := None, header := None)
  }

  /** What an error of a request in flight does to the hook. */
  datatype Effect = Ignored | TokenDropped | RefreshAsked

  function EffectOf(isActive: bool, r: Req, err: ResponseError): Effect {
    if !isActive || r.RetryCount() > 0 || err.oauth2TokenError then Ignored
    else if err.jwkError then TokenDropped
    else if AsksForRefresh(err, r.hasHeaders, r.authorization) then RefreshAsked
    else Ignored
  }

  /** What it does to the request. */
  function Failed(h: Hook, r: Req, err: ResponseError): Req {
    if !h.isActive then r.Rejected()
    else if r.RetryCount() > 0 || err.oauth2TokenError then r.(retry := Some(r.RetryCount())).Rejected()
    else
      var counted := r.(retry := Some(r.RetryCount() + 1));
      match EffectOf(h.isActive, r, err)
      case TokenDropped => counted.WithToken(None).Rejected()
      case RefreshAsked => counted.(phase := Waiting(Joined(h).refresh.value), asked := r.asked + 1)
      case Ignored => counted.Rejected()
  }

  predicate CanResume(h: Hook, r: Req) {
    r.phase.Waiting? && IsSettled(h, r.phase.creation)
  }

  /** A waiting request's continuation: replayed with the new token, or rejected without one. */
  function Resumed(h: Hook, r: Req): Req
    requires CanResume(h, r)
  {
    match h.creations[r.phase.creation]
    case Answered(grant) => r.WithToken(Some(Bearer(grant))).(phase := InFlight, dispatched := r.dispatched + 1)
    case _ => r.WithToken(None).(phase := Done)
  }

  // ---------- hook, clients and requests together ----------

  /** A client as the hook sees it: its default header, and whether the hook listens to its errors. */
  datatype Peer = Peer(header: Option<string>, attached: bool)

  datatype Course = Course(hook: Hook, peers: seq<Peer>, listed: set<nat>, requests: seq<Req>)

  datatype Event =
    | Attach(c: nat)
    | Detach(c: nat)
    | SetHeader(value: string)
    | UnsetHeader
    | Enable
    | Disable
    | AskRefresh
    | TimerFires(t: nat)
    | Send(r: nat)
    | Fail(r: nat, err: ResponseError)
    | Settle(creation: nat, answer: Creation)
    | Finish
    | Resume(r: nat)

  /** The hook takes on a header, and every listed client with it. */
  function Pushed(c: Course, h: Hook): Course {
    c.(hook := h,
       peers := seq(|c.peers|, i requires 0 <= i < |c.peers| =>
         if i in c.listed then c.peers[i].(header := h.header) else c.peers[i]))
  }

  function AfterFailure(c: Course, r: nat, err: ResponseError): Course
    requires r < |c.requests|
  {
    var failed := c.(requests := c.requests[r := Failed(c.hook, c.requests[r], err)]);
    match EffectOf(c.hook.isActive, c.requests[r], err)
    case Ignored => failed
    case TokenDropped => Pushed(failed, c.hook.(header := None))
    case RefreshAsked => failed.(hook := Joined(c.hook))
  }

  /** An event that cannot happen is skipped. */
  function After(c: Course, e: Event): Course {
    match e
    case Attach(i) =>
      if i < |c.peers| then c.(peers := c.peers[i := Peer(c.hook.header, true)], listed := c.listed + {i}) else c
    case Detach(i) =>
      if i < |c.peers| then c.(peers := c.peers[i := Peer(None, false)], listed := c.listed - {i}) else c
    case SetHeader(value) => Pushed(c, c.hook.(header := Some(value)))
    case UnsetHeader => Pushed(c, c.hook.(header := None))
    case Enable => c.(hook := c.hook.(isActive := true))
    case Disable => c.(hook := c.hook.(isActive := false))
    case AskRefresh => c.(hook := Joined(c.hook))
    case TimerFires(t) =>
      if t in c.hook.armed then c.(hook := Joined(c.hook.(armed := c.hook.armed - {t}))) else c
    case Send(r) =>
      if r < |c.requests| && c.requests[r].phase.New?
      then c.(requests := c.requests[r := c.requests[r].(phase := InFlight, dispatched := 1)]) else c
    case Fail(r, err) =>
      if r < |c.requests| && c.requests[r].phase.InFlight? then AfterFailure(c, r, err) else c
    case Settle(creation, answer) =>
      if creation < |c.hook.creations| && c.hook.creations[creation].Running? && !answer.Running?
      then c.(hook := c.hook.(creations := c.hook.creations[creation := answer])) else c
    case Finish => if CanFinish(c.hook) then Pushed(c, Finished(c.hook)) else c
    case Resume(r) =>
      if r < |c.requests| && CanResume(c.hook, c.requests[r])
      then c.(requests := c.requests[r := Resumed(c.hook, c.requests[r])]) else c
  }

  /** How a request object looks when its caller sends it. */
  datatype Sent = Sent(retry: Option<nat>, hasHeaders: bool, authorization: Option<string>)

  function Unsent(sent: Sent): Req {
    Req(sent.retry, sent.hasHeaders, sent.authorization, New, 0, 0)
  }

  /** A hook, `n` clients and the requests, before anything happens. */
  function Start(useTimer: bool, n: nat, sent: seq<Sent>): Course {
    Course(Hook(useTimer, true, None, None, [], None, {}, 0), seq(n, _ => Peer(None, false)), {},
           seq(|sent|, i requires 0 <= i < |sent| => Unsent(sent[i])))
  }

  function Run(start: Course, script: seq<Event>): Course {
    if script == [] then start else After(Run(start, script[..|script| - 1]), script[|script| - 1])
  }

  // ---------- what every step keeps ----------

  /** A creation is the hook's refresh until its continuation has run, so one is outstanding at most; so with timers. */
  ghost predicate HookSound(h: Hook) {
    && (h.refresh.Some? ==> h.refresh.value < |h.creations|)
    && (forall i | 0 <= i < |h.creations| && h.creations[i].Running? :: h.refresh == Some(i))
    && (forall t | t in h.armed :: h.timer == Some(t))
    && (h.timer.Some? ==> h.timer.value < h.timers)
  }

  /** One dispatch and no refresh before the first error; one of each at most after it. */
  ghost predicate ReqSound(r: Req) {
    match r.phase
    case New => r.dispatched == 0 && r.asked == 0
    case InFlight =>
      if r.RetryCount() == 0 then r.dispatched == 1 && r.asked == 0 else 1 <= r.dispatched <= 2 && r.asked <= 1
    case Waiting(_) => r.RetryCount() > 0 && r.dispatched == 1 && r.asked == 1
    case Done => r.dispatched <= 2 && r.asked <= 1
  }

  ghost predicate Carries(c: Course, i: nat) {
    i < |c.peers| && c.peers[i].header == c.hook.header && c.peers[i].attached
  }

  ghost predicate Sound(c: Course) {
    && HookSound(c.hook)
    && (forall i | i in c.listed :: Carries(c, i))
    && (forall i | 0 <= i < |c.requests| :: ReqSound(c.requests[i]))
  }

  lemma FinishIsSound(h: Hook)
    requires HookSound(h) && CanFinish(h)
    ensures HookSound(Finished(h))
  {
  }

  lemma PushIsSound(c: Course, h: Hook)
    requires Sound(c) && HookSound(h)
    ensures Sound(Pushed(c, h))
  {
    forall i | i in c.listed ensures Carries(Pushed(c, h), i) {
      assert Carries(c, i);
    }
  }

  lemma FailureIsSound(c: Course, r: nat, err: ResponseError)
    requires Sound(c) && r < |c.requests| && c.requests[r].phase.InFlight?
    ensures Sound(AfterFailure(c, r, err))
  {
    var failed := c.(requests := c.requests[r := Failed(c.hook, c.requests[r], err)]);
    assert ReqSound(c.requests[r]);
    assert Sound(failed) by {
      forall i | i in c.listed ensures Carries(failed, i) { assert Carries(c, i); }
    }
    match EffectOf(c.hook.isActive, c.requests[r], err) {
      case Ignored =>
      case TokenDropped => PushIsSound(failed, c.hook.(header := None));
      case RefreshAsked =>
        forall i | i in c.listed ensures Carries(failed.(hook := Joined(c.hook)), i) { assert Carries(failed, i); }
    }
  }

  predicate IsListing(e: Event) {
    e.Attach? || e.Detach?
  }

  lemma ListingIsSound(c: Course, e: Event)
    requires Sound(c) && IsListing(e)
    ensures Sound(After(c, e))
  {
    forall i | i in After(c, e).listed ensures Carries(After(c, e), i) {
      assert i in c.listed ==> Carries(c, i);
    }
  }

  /** Steps of the hook that push no header. */
  predicate IsQuiet(e: Event) {
    e.Enable? || e.Disable? || e.AskRefresh? || e.TimerFires? || e.Settle?
  }

  lemma QuietIsSound(c: Course, e: Event)
    requires Sound(c) && IsQuiet(e)
    ensures Sound(After(c, e))
  {
    forall i | i in c.listed ensures Carries(After(c, e), i) {
      assert Carries(c, i);
    }
  }

  lemma RequestIsSound(c: Course, e: Event)
    requires Sound(c) && (e.Send? || e.Resume?)
    ensures Sound(After(c, e))
  {
    forall i | i in c.listed ensures Carries(After(c, e), i) {
      assert Carries(c, i);
    }
  }

  lemma StepIsSound(c: Course, e: Event)
    requires Sound(c)
    ensures Sound(After(c, e))
  {
    if IsListing(e) {
      ListingIsSound(c, e);
    } else if IsQuiet(e) {
      QuietIsSound(c, e);
    } else if e.Send? || e.Resume? {
      RequestIsSound(c, e);
    } else if e.Fail? {
      if e.r < |c.requests| && c.requests[e.r].phase.InFlight? { FailureIsSound(c, e.r, e.err); }
    } else if e.Finish? {
      if CanFinish(c.hook) {
        FinishIsSound(c.hook);
        PushIsSound(c, Finished(c.hook));
      }
    } else {
      PushIsSound(c, After(c, e).hook);
    }
  }

  lemma {:induction false} RunIsSound(start: Course, script: seq<Event>)
    requires Sound(start)
    ensures Sound(Run(start, script))
  {
    if script != [] {
      RunIsSound(start, script[..|script| - 1]);
      StepIsSound(Run(start, script[..|script| - 1]), script[|script| - 1]);
    }
  }

  // ---------- what holds of every interleaving ----------

  /** No two token creations are outstanding, and no two timers armed. */
  lemma OneRefreshAtATime(useTimer: bool, n: nat, sent: seq<Sent>, script: seq<Event>)
    ensures var h := Run(Start(useTimer, n, sent), script).hook;
      && (forall i, j | 0 <= i < j < |h.creations| :: !(h.creations[i].Running? && h.creations[j].Running?))
      && (forall s, t | s in h.armed && t in h.armed :: s == t)
  {
    RunIsSound(Start(useTimer, n, sent), script);
  }

  /** Every listed client listens and carries the hook's header. */
  lemma ListedCarryTheHeader(useTimer: bool, n: nat, sent: seq<Sent>, script: seq<Event>, i: nat)
    requires i in Run(Start(useTimer, n, sent), script).listed
    ensures Carries(Run(Start(useTimer, n, sent), script), i)
  {
    RunIsSound(Start(useTimer, n, sent), script);
  }

  lemma {:induction false} SameRequests(start: Course, script: seq<Event>)
    ensures |Run(start, script).requests| == |start.requests|
  {
    if script != [] { SameRequests(start, script[..|script| - 1]); }
  }

  /** Every request was dispatched at most twice and caused at most one refresh, and none if it was never sent. */
  lemma RequestsAreSpared(useTimer: bool, n: nat, sent: seq<Sent>, script: seq<Event>, i: nat)
    requires i < |sent|
    ensures |Run(Start(useTimer, n, sent), script).requests| == |sent|
    ensures var r := Run(Start(useTimer, n, sent), script).requests[i];
      && r.dispatched <= 2 && r.asked <= 1
      && (Send(i) !in script ==> r == Unsent(sent[i]))
  {
    SameRequests(Start(useTimer, n, sent), script);
    RunIsSound(Start(useTimer, n, sent), script);
    if Send(i) !in script { UnsentStays(Start(useTimer, n, sent), script, i); }
  }

  lemma {:induction false} UnsentStays(start: Course, script: seq<Event>, i: nat)
    requires i < |start.requests| && start.requests[i].phase.New? && Send(i) !in script
    ensures i < |Run(start, script).requests| && Run(start, script).requests[i] == start.requests[i]
  {
    SameRequests(start, script);
    if script != [] {
      var n := |script| - 1;
      assert script[n] in script && forall e | e in script[..n] :: e in script;
      UnsentStays(start, script[..n], i);
    }
  }

  // ---------- the objects ----------

  class Client {
    var header: Option<string>
    var attached: bool

    constructor ()
      ensures State() == Peer(None, false)
    {
      header, attached := None, false;
    }

    function State(): Peer
      reads this
    {
      Peer(header, attached)
    }
  }

  class Request {
    var retry: Option<nat>
    var hasHeaders: bool
    var authorization: Option<string>
    var phase: Phase
    var dispatched: nat
    var asked: nat

    constructor (sent: Sent)
      ensures State() == Unsent(sent)
    {
      retry, hasHeaders, authorization := sent.retry, sent.hasHeaders, sent.authorization;
      phase, dispatched, asked := New, 0, 0;
    }

    function State(): Req
      reads this
    {
      Req(retry, hasHeaders, authorization, phase, dispatched, asked)
    }

    /** `getClientRequestRetryState`: the count is there afterwards, and what it was. */
    method NormalizeRetryState() returns (retryCount: nat)
      modifies this`retry
      ensures retryCount == old(State()).RetryCount() && State() == old(State()).(retry := Some(retryCount))
    {
      retryCount := if retry.Some? then retry.value else 0;
      retry := Some(retryCount);
    }

    method SetHeader(value: Option<string>)
      modifies this`authorization
      ensures State() == old(State()).WithToken(value)
    {
      if hasHeaders {
        authorization := value;
      }
    }

    method Reject()
      modifies this`phase, this`authorization
      ensures State() == old(State()).Rejected()
    {
      if dispatched == 2 {
        SetHeader(None);
      }
      phase := Done;
    }

    /** The caller's own dispatch. */
    method Dispatch()
      requires phase.New?
      modifies this`phase, this`dispatched
      ensures State() == old(State()).(phase := InFlight, dispatched := 1)
    {
      phase, dispatched := InFlight, 1;
    }
  }

  class ClientAuthenticationHook {
    const useTimer: bool
    var isActive: bool
    var authorizationHeader: Option<string>
    var clients: seq<Client>
    var timer: Option<nat>
    var refreshPromise: Option<nat>

    var creations: seq<Creation>
    var armed: set<nat>
    var timers: nat

    constructor (useTimer: bool)
      ensures Valid() && clients == [] && State() == Start(useTimer, 0, []).hook
    {
      this.useTimer := useTimer;
      isActive, authorizationHeader, clients, timer, refreshPromise := true, None, [], None, None;
      creations, armed, timers := [], {}, 0;
    }

    function State(): Hook
      reads this
    {
      Hook(useTimer, isActive, authorizationHeader, refreshPromise, creations, timer, armed, timers)
    }

    /** Every client in the list listens and carries the hook's header, and is in it once. */
    ghost predicate Valid()
      reads this, clients
    {
      && (forall c | c in clients :: c.header == authorizationHeader && c.attached)
      && (forall i, j | 0 <= i < j < |clients| :: clients[i] != clients[j])
    }

    method PushHeader(value: Option<string>)
      modifies clients
      ensures forall c | c in clients :: c.header == value && c.attached == old(c.attached)
    {
      for i := 0 to |clients|
        invariant forall j | 0 <= j < i :: clients[j].header == value
        invariant forall c | c in clients :: c.attached == old(c.attached)
      {
        clients[i].header := value;
      }
    }

    method SetAuthorizationHeader(value: string)
      requires Valid()
      modifies this`authorizationHeader, clients
      ensures Valid() && State() == old(State()).(header := Some(value))
    {
      authorizationHeader := Some(value);
      PushHeader(authorizationHeader);
    }

    method UnsetAuthorizationHeader()
      requires Valid()
      modifies this`authorizationHeader, clients
      ensures Valid() && State() == old(State()).(header := None)
    {
      authorizationHeader := None;
      PushHeader(None);
    }

    method Attach(client: Client)
      requires Valid()
      modifies this`clients, client
      ensures Valid() && client.State() == Peer(authorizationHeader, true)
      ensures clients == if client in old(clients) then old(clients) else old(clients) + [client]
    {
      client.header := authorizationHeader;
      if client !in clients {
        clients := clients + [client];
      }
      client.attached := true;
    }

    method Detach(client: Client)
      requires Valid()
      modifies this`clients, client
      ensures Valid() && client.State() == Peer(None, false)
      ensures forall c :: c in clients <==> c in old(clients) && c != client
    {
      if client in clients {
        var index :| 0 <= index < |clients| && clients[index] == client;
        clients := clients[..index] + clients[index + 1..];
      }
      client.header := None;
      client.attached := false;
    }

    method ClearTimer()
      modifies this`armed
      ensures armed == if timer.Some? then old(armed) - {timer.value} else old(armed)
    {
      if timer.Some? {
        armed := armed - {timer.value};
      }
    }

    /** One timer at most stays armed, a minute before the token expires. */
    method SetTimer(expiresIn: int)
      modifies this`timer, this`armed, this`timers
      ensures State() == Rearmed(old(State()), expiresIn)
      ensures HookSound(old(State())) ==>
        armed == if !useTimer then old(armed) else if expiresIn > 60 then {old(timers)} else {}
    {
      if !useTimer {
        return;
      }
      ClearTimer();
      if (expiresIn - 60) * 1000 > 0 {
        timer := Some(timers);
        armed := armed + {timers};
        timers := timers + 1;
      }
    }

    /** Join the refresh under way, or start one. */
    method Refresh() returns (creation: nat)
      modifies this`refreshPromise, this`creations
      ensures State() == Joined(old(State())) && refreshPromise == Some(creation)
      ensures old(refreshPromise).Some? ==> creation == old(refreshPromise).value && creations == old(creations)
      ensures old(refreshPromise).None? ==> creation == |old(creations)| && creations == old(creations) + [Running]
    {
      if refreshPromise.Some? {
        return refreshPromise.value;
      }
      creation := |creations|;
      creations := creations + [Running];
      refreshPromise := Some(creation);
    }

    /** The creator's promise settles. */
    method Settle(creation: nat, answer: Creation)
      requires creation < |creations| && creations[creation].Running? && !answer.Running?
      modifies this`creations
      ensures State() == old(State()).(creations := old(creations)[creation := answer])
    {
      creations := creations[creation := answer];
    }

    /** The hook's own continuation of the refresh it started. */
    method Finish()
      requires Valid() && CanFinish(State())
      modifies this`timer, this`armed, this`timers, this`refreshPromise, this`authorizationHeader, clients
      ensures Valid() && State() == Finished(old(State()))
    {
      match creations[refreshPromise.value] {
        case Answered(grant) =>
          SetTimer(grant.expiresIn);
          refreshPromise := None;
          SetAuthorizationHeader(Bearer(grant));
        case Refused =>
          refreshPromise := None;
          UnsetAuthorizationHeader();
      }
    }

    /** A request waits for the refresh under way, or for the one it starts. */
    method RefreshFor(request: Request) returns (creation: nat)
      modifies this`refreshPromise, this`creations, request`phase, request`asked
      ensures State() == Joined(old(State())) && refreshPromise == Some(creation)
      ensures request.State() == old(request.State()).(phase := Waiting(creation), asked := old(request.asked) + 1)
    {
      creation := Refresh();
      request.phase, request.asked := Waiting(creation), request.asked + 1;
    }

    /** A token whose signing key is gone is dropped everywhere, and the request is refused. */
    method DropToken(request: Request)
      requires Valid()
      modifies this`authorizationHeader, clients, request`phase, request`authorization
      ensures Valid() && State() == old(State()).(header := None)
      ensures request.State() == old(request.State()).WithToken(None).Rejected()
    {
      UnsetAuthorizationHeader();
      request.SetHeader(None);
      request.Reject();
    }

    /** The error listener of an attached client, for an error of a request in flight. */
    method OnResponseError(request: Request, err: ResponseError) returns (effect: Effect)
      requires Valid()
      modifies this`authorizationHeader, this`refreshPromise, this`creations, clients, request
      ensures Valid() && effect == EffectOf(isActive, old(request.State()), err)
      ensures request.State() == Failed(old(State()), old(request.State()), err)
      ensures State() ==
        match effect
        case Ignored => old(State())
        case TokenDropped => old(State()).(header := None)
        case RefreshAsked => Joined(old(State()))
      ensures request.phase == (if effect.RefreshAsked? then Waiting(refreshPromise.value) else Done)
      ensures effect.RefreshAsked? <==>
        && isActive && old(request.retry) in {None, Some(0)} && !err.oauth2TokenError && !err.jwkError
        && (|| err.jwtError || err.status == Some(401)
            || (err.status == Some(403) && request.hasHeaders && old(request.authorization) in {None, Some("")}))
    {
      if !isActive {
        request.Reject();
        return Ignored;
      }
      var retryCount := request.NormalizeRetryState();
      if retryCount > 0 || err.oauth2TokenError {
        request.Reject();
        return Ignored;
      }
      request.retry := Some(retryCount + 1);
      if err.jwkError {
        DropToken(request);
        return TokenDropped;
      }
      if AsksForRefresh(err, request.hasHeaders, request.authorization) {
        var _ := RefreshFor(request);
        return RefreshAsked;
      }
      request.Reject();
      return Ignored;
    }

    /** A waiting request's continuation: replayed with the new token, or rejected. */
    method Resume(request: Request)
      requires CanResume(State(), request.State())
      modifies request
      ensures request.State() == Resumed(State(), old(request.State()))
    {
      match creations[request.phase.creation] {
        case Answered(grant) =>
          request.SetHeader(Some(Bearer(grant)));
          request.phase, request.dispatched := InFlight, request.dispatched + 1;
        case Refused =>
          request.SetHeader(None);
          request.phase := Done;
      }
    }
  }

  // ---------- the objects do what the course says ----------

  ghost predicate Apart(clients: seq<Client>, requests: seq<Request>) {
    && (forall i, j | 0 <= i < j < |clients| :: clients[i] != clients[j])
    && (forall i, j | 0 <= i < j < |requests| :: requests[i] != requests[j])
  }

  ghost predicate ClientMatches(hook: ClientAuthenticationHook, client: Client, c: Course, i: nat)
    reads hook, client
  {
    i < |c.peers| && client.State() == c.peers[i] && (client in hook.clients <==> i in c.listed)
  }

  ghost predicate Matches(hook: ClientAuthenticationHook, clients: seq<Client>, requests: seq<Request>, c: Course)
    reads hook, clients, requests
  {
    && Apart(clients, requests) && hook.State() == c.hook
    && |clients| == |c.peers| && (forall i | 0 <= i < |clients| :: ClientMatches(hook, clients[i], c, i))
    && (forall x | x in hook.clients :: x in clients) && (forall i | i in c.listed :: i < |clients|)
    && |requests| == |c.requests| && (forall i | 0 <= i < |requests| :: requests[i].State() == c.requests[i])
  }

  /** A client enters the list. */
  method HappenToAttach(hook: ClientAuthenticationHook, clients: seq<Client>, requests: seq<Request>, e: Event,
                        ghost c: Course)
    requires hook.Valid() && Matches(hook, clients, requests, c) && e.Attach?
    modifies hook`clients, clients
    ensures hook.Valid() && Matches(hook, clients, requests, After(c, e))
  {
    if e.c < |clients| {
      hook.Attach(clients[e.c]);
    }
  }

  /** A client leaves the list. */
  method HappenToDetach(hook: ClientAuthenticationHook, clients: seq<Client>, requests: seq<Request>, e: Event,
                        ghost c: Course)
    requires hook.Valid() && Matches(hook, clients, requests, c) && e.Detach?
    modifies hook`clients, clients
    ensures hook.Valid() && Matches(hook, clients, requests, After(c, e))
  {
    if e.c < |clients| {
      hook.Detach(clients[e.c]);
    }
  }

  /** A header is pushed to every listed client. */
  method HappenToHeader(hook: ClientAuthenticationHook, clients: seq<Client>, requests: seq<Request>, e: Event,
                        ghost c: Course)
    requires hook.Valid() && Matches(hook, clients, requests, c) && (e.SetHeader? || e.UnsetHeader? || e.Finish?)
    modifies hook`timer, hook`armed, hook`timers, hook`refreshPromise, hook`authorizationHeader, clients
    ensures hook.Valid() && Matches(hook, clients, requests, After(c, e))
  {
    assert forall i | 0 <= i < |hook.clients| :: hook.clients[i] in clients;
    match e {
      case SetHeader(value) => hook.SetAuthorizationHeader(value);
      case UnsetHeader => hook.UnsetAuthorizationHeader();
      case Finish => if CanFinish(hook.State()) { hook.Finish(); }
    }
  }

  /** The hook moves, and pushes nothing. */
  method HappenQuietly(hook: ClientAuthenticationHook, clients: seq<Client>, requests: seq<Request>, e: Event,
                       ghost c: Course)
    requires hook.Valid() && Matches(hook, clients, requests, c) && IsQuiet(e)
    modifies hook`isActive, hook`armed, hook`refreshPromise, hook`creations
    ensures hook.Valid() && Matches(hook, clients, requests, After(c, e))
  {
    match e {
      case Enable => hook.isActive := true;
      case Disable => hook.isActive := false;
      case AskRefresh => var _ := hook.Refresh();
      case TimerFires(t) =>
        if t in hook.armed {
          hook.armed := hook.armed - {t};
          var _ := hook.Refresh();
        }
      case Settle(creation, answer) =>
        if creation < |hook.creations| && hook.creations[creation].Running? && !answer.Running? {
          hook.Settle(creation, answer);
        }
    }
  }

  /** A request is sent, or its refresh is over. */
  method HappenToRequest(hook: ClientAuthenticationHook, clients: seq<Client>, requests: seq<Request>, e: Event,
                         ghost c: Course)
    requires hook.Valid() && Matches(hook, clients, requests, c) && (e.Send? || e.Resume?)
    modifies requests
    ensures hook.Valid() && Matches(hook, clients, requests, After(c, e))
  {
    if e.r < |requests| {
      var request := requests[e.r];
      if e.Send? {
        if request.phase.New? { request.Dispatch(); }
      } else if CanResume(hook.State(), request.State()) {
        hook.Resume(request);
      }
    }
  }

  /** A request in flight fails. */
  method HappenToFail(hook: ClientAuthenticationHook, clients: seq<Client>, requests: seq<Request>, e: Event,
                      ghost c: Course)
    requires hook.Valid() && Matches(hook, clients, requests, c) && e.Fail?
    modifies hook`authorizationHeader, hook`refreshPromise, hook`creations, clients, requests
    ensures hook.Valid() && Matches(hook, clients, requests, After(c, e))
  {
    assert forall i | 0 <= i < |hook.clients| :: hook.clients[i] in clients;
    if e.r < |requests| && requests[e.r].phase.InFlight? {
      var _ := hook.OnResponseError(requests[e.r], e.err);
    }
  }

  method Happen(hook: ClientAuthenticationHook, clients: seq<Client>, requests: seq<Request>, e: Event,
                ghost c: Course)
    requires hook.Valid() && Matches(hook, clients, requests, c)
    modifies hook, clients, requests
    ensures hook.Valid() && Matches(hook, clients, requests, After(c, e))
  {
    if e.Attach? {
      HappenToAttach(hook, clients, requests, e, c);
    } else if e.Detach? {
      HappenToDetach(hook, clients, requests, e, c);
    } else if IsQuiet(e) {
      HappenQuietly(hook, clients, requests, e, c);
    } else if e.Send? || e.Resume? {
      HappenToRequest(hook, clients, requests, e, c);
    } else if e.Fail? {
      HappenToFail(hook, clients, requests, e, c);
    } else {
      HappenToHeader(hook, clients, requests, e, c);
    }
  }

  method MakeClients(n: nat) returns (clients: seq<Client>)
    ensures |clients| == n && (forall i | 0 <= i < n :: fresh(clients[i]) && clients[i].State() == Peer(None, false))
    ensures forall i, j | 0 <= i < j < n :: clients[i] != clients[j]
  {
    clients := [];
    for k := 0 to n
      invariant |clients| == k
      invariant forall i | 0 <= i < k :: fresh(clients[i]) && clients[i].State() == Peer(None, false)
      invariant forall i, j | 0 <= i < j < k :: clients[i] != clients[j]
    {
      var client := new Client();
      clients := clients + [client];
    }
  }

  method MakeRequests(sent: seq<Sent>) returns (requests: seq<Request>)
    ensures |requests| == |sent|
    ensures forall i | 0 <= i < |sent| :: fresh(requests[i]) && requests[i].State() == Unsent(sent[i])
    ensures forall i, j | 0 <= i < j < |sent| :: requests[i] != requests[j]
  {
    requests := [];
    for k := 0 to |sent|
      invariant |requests| == k
      invariant forall i | 0 <= i < k :: fresh(requests[i]) && requests[i].State() == Unsent(sent[i])
      invariant forall i, j | 0 <= i < j < k :: requests[i] != requests[j]
    {
      var request := new Request(sent[k]);
      requests := requests + [request];
    }
  }

  method ReadClients(hook: ClientAuthenticationHook, clients: seq<Client>)
    returns (peers: seq<Peer>, listed: set<nat>)
    ensures |peers| == |clients| && forall i | 0 <= i < |clients| :: peers[i] == clients[i].State()
    ensures forall i: nat :: i in listed <==> i < |clients| && clients[i] in hook.clients
  {
    peers, listed := [], {};
    for k := 0 to |clients|
      invariant |peers| == k && forall i | 0 <= i < k :: peers[i] == clients[i].State()
      invariant forall i: nat :: i in listed <==> i < k && clients[i] in hook.clients
    {
      peers := peers + [clients[k].State()];
      if clients[k] in hook.clients {
        listed := listed + {k};
      }
    }
  }

  method ReadRequests(requests: seq<Request>) returns (states: seq<Req>)
    ensures |states| == |requests| && forall i | 0 <= i < |requests| :: states[i] == requests[i].State()
  {
    states := [];
    for k := 0 to |requests|
      invariant |states| == k && forall i | 0 <= i < k :: states[i] == requests[i].State()
    {
      states := states + [requests[k].State()];
    }
  }

  /** Any interleaving over any clients and any requests does what `Run` says. */
  method Interleave(useTimer: bool, n: nat, sent: seq<Sent>, script: seq<Event>) returns (c: Course)
    ensures c == Run(Start(useTimer, n, sent), script)
  {
    var hook := new ClientAuthenticationHook(useTimer);
    var clients := MakeClients(n);
    var requests := MakeRequests(sent);
    ghost var start := Start(useTimer, n, sent);
    assert script[..0] == [];
    for k := 0 to |script|
      invariant hook.Valid() && Matches(hook, clients, requests, Run(start, script[..k]))
    {
      assert script[..k + 1][..k] == script[..k];
      Happen(hook, clients, requests, script[k], Run(start, script[..k]));
    }
    assert script[..|script|] == script;
    ghost var end := Run(start, script);
    var peers, listed := ReadClients(hook, clients);
    var states := ReadRequests(requests);
    forall i | 0 <= i < |clients| ensures peers[i] == end.peers[i] && (i in listed <==> i in end.listed) {
      assert ClientMatches(hook, clients[i], end, i);
    }
    assert peers == end.peers && states == end.requests && listed == end.listed;
    return Course(hook.State(), peers, listed, states);
  }
}
