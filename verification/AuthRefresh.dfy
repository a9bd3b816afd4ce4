/**
What `ClientAuthenticationHook` of `packages/core-http-kit/src/hook/module.ts` promises a request that is refused:
which errors make it wait for a new token, that it is sent again with that token, and who else carries it then.

All of it is about the end of any script of events, from the start of any hook, and in terms of the error's and the
request's own fields.
*/
module AuthRefresh {
  import opened Basics
  import opened AuthHook

  lemma RunNext(start: Course, script: seq<Event>, e: Event)
    ensures Run(start, script + [e]) == After(Run(start, script), e)
  {
    var all := script + [e];
    assert all[..|all| - 1] == script;
  }

  /** The state at the end of a script, for any hook, clients and requests. */
  ghost function End(useTimer: bool, n: nat, sent: seq<Sent>, script: seq<Event>): Course {
    Run(Start(useTimer, n, sent), script)
  }

  ghost predicate IsInFlight(c: Course, r: nat) {
    r < |c.requests| && c.requests[r].phase == InFlight
  }

  /** The hook is on, the request has not failed before, and a new token may help. */
  ghost predicate MayBeCured(c: Course, r: nat, err: ResponseError)
    requires r < |c.requests|
  {
    var request := c.requests[r];
    && c.hook.isActive && request.retry in {None, Some(0)} && !err.oauth2TokenError && !err.jwkError
    && (|| err.jwtError || err.status == Some(401)
        || (err.status == Some(403) && request.hasHeaders && request.authorization in {None, Some("")}))
  }

  /** The refresh under way is joined; without one, a creation is started. */
  ghost predicate JoinsOrStarts(before: Hook, after: Hook) {
    if before.refresh.Some? then after == before
    else after == before.(creations := before.creations + [Running], refresh := Some(|before.creations|))
  }

  /** What the error of a request in flight leads to. */
  ghost predicate WaitsOrEnds(before: Course, after: Course, r: nat, err: ResponseError)
    requires r < |before.requests| == |after.requests|
  {
    if MayBeCured(before, r, err) then
      JoinsOrStarts(before.hook, after.hook) && after.hook.refresh.value < |after.hook.creations|
      && after.requests[r].phase == Waiting(after.hook.refresh.value)
    else
      after.hook.creations == before.hook.creations && after.hook.refresh == before.hook.refresh
      && after.requests[r].phase == Done
  }

  lemma FailureStep(c: Course, r: nat, err: ResponseError)
    requires HookSound(c.hook) && IsInFlight(c, r)
    ensures var after := After(c, Fail(r, err));
      && |after.requests| == |c.requests| && WaitsOrEnds(c, after, r, err)
      && after.requests[r].dispatched == c.requests[r].dispatched
      && after.requests[r].hasHeaders == c.requests[r].hasHeaders
  {
  }

  /**
   An error that a new token may cure leaves the request waiting for the hook's refresh, and only such an error does.
   Any other ends the request and starts nothing; a key error, on its first, drops the token everywhere.
   */
  lemma FirstErrorWaitsForARefresh(useTimer: bool, n: nat, sent: seq<Sent>, script: seq<Event>, r: nat,
                                   err: ResponseError)
    requires IsInFlight(End(useTimer, n, sent, script), r)
    ensures var before, after := End(useTimer, n, sent, script), End(useTimer, n, sent, script + [Fail(r, err)]);
      |after.requests| == |before.requests| && WaitsOrEnds(before, after, r, err)
  {
    RunNext(Start(useTimer, n, sent), script, Fail(r, err));
    RunIsSound(Start(useTimer, n, sent), script);
    FailureStep(End(useTimer, n, sent, script), r, err);
  }

  ghost predicate CarryAll(c: Course, header: Option<string>) {
    c.hook.header == header && forall i | i in c.listed :: i < |c.peers| && c.peers[i].header == header
  }

  lemma KeyErrorDropsTheToken(useTimer: bool, n: nat, sent: seq<Sent>, script: seq<Event>, r: nat, err: ResponseError)
    requires IsInFlight(End(useTimer, n, sent, script), r)
    requires var before := End(useTimer, n, sent, script);
      before.hook.isActive && before.requests[r].retry in {None, Some(0)} && !err.oauth2TokenError && err.jwkError
    ensures var after := End(useTimer, n, sent, script + [Fail(r, err)]);
      && CarryAll(after, None) && |after.requests| > r
      && (after.requests[r].hasHeaders ==> after.requests[r].authorization == None)
  {
    RunNext(Start(useTimer, n, sent), script, Fail(r, err));
    RunIsSound(Start(useTimer, n, sent), script);
    RunIsSound(Start(useTimer, n, sent), script + [Fail(r, err)]);
    ListedCarry(End(useTimer, n, sent, script + [Fail(r, err)]));
  }

  lemma ListedCarry(c: Course)
    requires Sound(c)
    ensures CarryAll(c, c.hook.header)
  {
    forall i | i in c.listed ensures i < |c.peers| && c.peers[i].header == c.hook.header {
      assert Carries(c, i);
    }
  }

  /** The events that start a creation, if none is under way. */
  ghost predicate Starts(c: Course, e: Event) {
    match e
    case AskRefresh => true
    case TimerFires(t) => t in c.hook.armed
    case Fail(r, err) => IsInFlight(c, r) && MayBeCured(c, r, err)
    case _ => false
  }

  lemma CreationStep(c: Course, e: Event)
    requires HookSound(c.hook)
    ensures After(c, e).hook.creations ==
      if e.Settle? then After(c, e).hook.creations
      else if c.hook.refresh.None? && Starts(c, e) then c.hook.creations + [Running] else c.hook.creations
    ensures e.Settle? ==> |After(c, e).hook.creations| == |c.hook.creations|
  {
    if e.Fail? && IsInFlight(c, e.r) {
      FailureStep(c, e.r, e.err);
    }
  }

  /** A creation starts when the hook is asked, a timer fires, or an error may be cured, if none is under way. */
  lemma OnlyTheseStartACreation(useTimer: bool, n: nat, sent: seq<Sent>, script: seq<Event>, e: Event)
    ensures var before, after := End(useTimer, n, sent, script), End(useTimer, n, sent, script + [e]);
      |after.hook.creations| != |before.hook.creations| <==> before.hook.refresh.None? && Starts(before, e)
  {
    RunNext(Start(useTimer, n, sent), script, e);
    RunIsSound(Start(useTimer, n, sent), script);
    CreationStep(End(useTimer, n, sent, script), e);
  }

  // ---------- once the creation is settled ----------

  lemma WaitingStep(c: Course, e: Event, r: nat)
    requires r < |c.requests| && c.requests[r].phase.Waiting? && e != Resume(r)
    ensures r < |After(c, e).requests| && After(c, e).requests[r] == c.requests[r]
  {
  }

  ghost predicate IsAt(c: Course, r: nat, was: Req) {
    r < |c.requests| && c.requests[r] == was
  }

  lemma WaitingRun(start: Course, script: seq<Event>, e: Event, r: nat, was: Req)
    requires IsAt(Run(start, script), r, was) && was.phase.Waiting? && e != Resume(r)
    ensures IsAt(Run(start, script + [e]), r, was)
  {
    RunNext(start, script, e);
    WaitingStep(Run(start, script), e, r);
  }

  lemma OneMore(script: seq<Event>, init: seq<Event>, last: Event)
    ensures script + (init + [last]) == (script + init) + [last]
  {
  }

  /** A request keeps waiting, for the same creation, until its own continuation runs. */
  lemma {:induction false} WaitsUntilResumed(start: Course, script: seq<Event>, more: seq<Event>, r: nat, was: Req)
    requires IsAt(Run(start, script), r, was) && was.phase.Waiting? && Resume(r) !in more
    ensures IsAt(Run(start, script + more), r, was)
    decreases |more|
  {
    if more == [] {
      assert script + [] == script;
    } else {
      var init, last := more[..|more| - 1], more[|more| - 1];
      assert last in more && forall e | e in init :: e in more;
      WaitsUntilResumed(start, script, init, r, was);
      WaitingRun(start, script + init, last, r, was);
      OneMore(script, init, last);
      assert init + [last] == more;
    }
  }

  /** The refresh settles, the hook's continuation runs, and then the request's. */
  ghost function Refreshed(r: nat, err: ResponseError, creation: nat, answer: Creation): seq<Event> {
    [Fail(r, err), Settle(creation, answer), Finish, Resume(r)]
  }

  lemma RunFour(start: Course, script: seq<Event>, a: Event, b: Event, c: Event, d: Event)
    ensures Run(start, script + [a, b, c, d]) == After(After(After(Run(start, script + [a]), b), c), d)
  {
    var s1, s2, s3 := script + [a], script + [a] + [b], script + [a] + [b] + [c];
    RunNext(start, s1, b);
    RunNext(start, s2, c);
    RunNext(start, s3, d);
    assert script + [a, b, c, d] == s3 + [d];
  }

  /** The creation a request that fails now will wait for, if it is not settled yet. */
  ghost predicate IsAwaited(h: Hook, creation: nat) {
    match h.refresh
    case None => creation == |h.creations|
    case Some(k) => creation == k < |h.creations| && h.creations[k] == Running
  }

  ghost predicate WaitsFor(c: Course, r: nat, creation: nat, answer: Creation) {
    && r < |c.requests| && c.requests[r].phase == Waiting(creation)
    && creation < |c.hook.creations| && c.hook.creations[creation] == answer
  }

  /** The header an answered creation leaves behind. */
  ghost function HeaderOf(answer: Creation): Option<string> {
    match answer
    case Answered(g) => Some("Bearer " + g.accessToken)
    case _ => None
  }

  lemma SettleStep(c: Course, r: nat, creation: nat, answer: Creation)
    requires WaitsFor(c, r, creation, Running) && !answer.Running?
    ensures var after := After(c, Settle(creation, answer));
      WaitsFor(after, r, creation, answer) && after.hook.refresh == c.hook.refresh && after.requests == c.requests
      && after.hook.useTimer == c.hook.useTimer
  {
  }

  lemma FinishStep(c: Course, r: nat, creation: nat, answer: Creation)
    requires WaitsFor(c, r, creation, answer) && !answer.Running? && c.hook.refresh == Some(creation)
    ensures var after := After(c, Finish);
      && WaitsFor(after, r, creation, answer) && after.requests == c.requests
      && after.hook.refresh == None && after.hook.header == HeaderOf(answer)
      && (c.hook.useTimer && answer.Answered? && answer.grant.expiresIn > 60 ==> after.hook.armed != {})
  {
    if c.hook.useTimer && answer.Answered? && answer.grant.expiresIn > 60 {
      assert c.hook.timers in After(c, Finish).hook.armed;
    }
  }

  lemma ResumeStep(c: Course, r: nat, creation: nat, answer: Creation)
    requires WaitsFor(c, r, creation, answer) && !answer.Running?
    ensures var after, was := After(c, Resume(r)), c.requests[r];
      && after.hook == c.hook && |after.requests| == |c.requests|
      && after.requests[r].phase == (if answer.Answered? then InFlight else Done)
      && after.requests[r].dispatched == was.dispatched + (if answer.Answered? then 1 else 0)
      && after.requests[r].hasHeaders == was.hasHeaders
      && (was.hasHeaders ==> after.requests[r].authorization == HeaderOf(answer))
  {
  }

  /**
   Whatever happens while a request waits: once its creation is settled and its own continuation runs, it is
   dispatched a second time with the new token, or ended without one.
   */
  lemma WaitingRequestIsReplayed(useTimer: bool, n: nat, sent: seq<Sent>, script: seq<Event>, more: seq<Event>, r: nat,
                                 creation: nat, answer: Creation)
    requires var c := End(useTimer, n, sent, script); r < |c.requests| && c.requests[r].phase == Waiting(creation)
    requires Resume(r) !in more && !answer.Running?
    requires var h := End(useTimer, n, sent, script + more).hook;
      creation < |h.creations| && h.creations[creation] == answer
    ensures var end := End(useTimer, n, sent, script + more + [Resume(r)]);
      && r < |end.requests| && end.requests[r].phase == (if answer.Answered? then InFlight else Done)
      && end.requests[r].dispatched == (if answer.Answered? then 2 else 1)
      && (end.requests[r].hasHeaders ==> end.requests[r].authorization == HeaderOf(answer))
  {
    var start := Start(useTimer, n, sent);
    var was := Run(start, script).requests[r];
    RunIsSound(start, script);
    assert ReqSound(was);
    WaitsUntilResumed(start, script, more, r, was);
    RunNext(start, script + more, Resume(r));
    ResumeStep(Run(start, script + more), r, creation, answer);
  }

  /** The four steps together. */
  lemma RefreshSteps(c: Course, r: nat, err: ResponseError, creation: nat, answer: Creation)
    requires Sound(c) && IsInFlight(c, r) && MayBeCured(c, r, err) && IsAwaited(c.hook, creation) && !answer.Running?
    ensures var failed := After(c, Fail(r, err));
      var finished := After(After(failed, Settle(creation, answer)), Finish);
      var end := After(finished, Resume(r));
      && end.hook == finished.hook && end.hook.refresh == None && end.hook.header == HeaderOf(answer)
      && |end.requests| == |c.requests| && end.requests[r].phase == (if answer.Answered? then InFlight else Done)
      && end.requests[r].dispatched == (if answer.Answered? then 2 else 1)
      && (end.requests[r].hasHeaders ==> end.requests[r].authorization == HeaderOf(answer))
      && (c.hook.useTimer && answer.Answered? && answer.grant.expiresIn > 60 ==> end.hook.armed != {})
  {
    assert ReqSound(c.requests[r]);
    var failed := After(c, Fail(r, err));
    FailureStep(c, r, err);
    assert WaitsFor(failed, r, creation, Running);
    SettleStep(failed, r, creation, answer);
    var settled := After(failed, Settle(creation, answer));
    FinishStep(settled, r, creation, answer);
    ResumeStep(After(settled, Finish), r, creation, answer);
  }

  /** The four steps at the end of a script. */
  lemma RefreshedEnd(useTimer: bool, n: nat, sent: seq<Sent>, script: seq<Event>, r: nat, err: ResponseError,
                     creation: nat, answer: Creation)
    returns (end: Course)
    requires var c := End(useTimer, n, sent, script);
      IsInFlight(c, r) && MayBeCured(c, r, err) && IsAwaited(c.hook, creation) && !answer.Running?
    ensures end == End(useTimer, n, sent, script + Refreshed(r, err, creation, answer))
    ensures end.hook.refresh == None && CarryAll(end, HeaderOf(answer))
    ensures r < |end.requests| && end.requests[r].phase == (if answer.Answered? then InFlight else Done)
    ensures end.requests[r].dispatched == if answer.Answered? then 2 else 1
    ensures end.requests[r].hasHeaders ==> end.requests[r].authorization == HeaderOf(answer)
    ensures useTimer && answer.Answered? && answer.grant.expiresIn > 60 ==> end.hook.armed != {}
  {
    var start, all := Start(useTimer, n, sent), Refreshed(r, err, creation, answer);
    RunIsSound(start, script);
    TimerOptionStays(start, script);
    RefreshSteps(Run(start, script), r, err, creation, answer);
    RunNext(start, script, all[0]);
    RunFour(start, script, all[0], all[1], all[2], all[3]);
    end := Run(start, script + all);
    RunIsSound(start, script + all);
    ListedCarry(end);
  }

  lemma TimerOptionStep(c: Course, e: Event)
    ensures After(c, e).hook.useTimer == c.hook.useTimer
  {
  }

  lemma {:induction false} TimerOptionStays(start: Course, script: seq<Event>)
    ensures Run(start, script).hook.useTimer == start.hook.useTimer
  {
    if script != [] {
      TimerOptionStays(start, script[..|script| - 1]);
      TimerOptionStep(Run(start, script[..|script| - 1]), script[|script| - 1]);
    }
  }

  /**
   An error a new token may cure, and the token is granted: the request is dispatched a second time, with the new
   token, and the hook and all its clients carry it. With the timer on, a token for longer than a minute arms one.
   */
  lemma RefusedRequestIsSentAgain(useTimer: bool, n: nat, sent: seq<Sent>, script: seq<Event>, r: nat,
                                  err: ResponseError, creation: nat, g: Grant)
    requires IsInFlight(End(useTimer, n, sent, script), r) && MayBeCured(End(useTimer, n, sent, script), r, err)
    requires IsAwaited(End(useTimer, n, sent, script).hook, creation)
    ensures var end := End(useTimer, n, sent, script + Refreshed(r, err, creation, Answered(g)));
      && IsInFlight(end, r) && end.requests[r].dispatched == 2
      && (end.requests[r].hasHeaders ==> end.requests[r].authorization == Some("Bearer " + g.accessToken))
      && CarryAll(end, Some("Bearer " + g.accessToken)) && end.hook.refresh == None
      && (useTimer && g.expiresIn > 60 ==> end.hook.armed != {})
  {
    var _ := RefreshedEnd(useTimer, n, sent, script, r, err, creation, Answered(g));
  }

  /** The token is not granted: the request is rejected, and nobody carries one. */
  lemma RefusedRefreshRejects(useTimer: bool, n: nat, sent: seq<Sent>, script: seq<Event>, r: nat,
                              err: ResponseError, creation: nat)
    requires IsInFlight(End(useTimer, n, sent, script), r) && MayBeCured(End(useTimer, n, sent, script), r, err)
    requires IsAwaited(End(useTimer, n, sent, script).hook, creation)
    ensures var end := End(useTimer, n, sent, script + Refreshed(r, err, creation, Refused));
      && r < |end.requests| && end.requests[r].phase == Done && end.requests[r].dispatched == 1
      && (end.requests[r].hasHeaders ==> end.requests[r].authorization == None)
      && CarryAll(end, None) && end.hook.refresh == None
  {
    var _ := RefreshedEnd(useTimer, n, sent, script, r, err, creation, Refused);
  }
}
