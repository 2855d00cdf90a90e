/** What a worker left to itself does with each answer, from its claim to its return. */
module SchedulerRules {
  import opened Outcomes
  import opened EvidenceTables
  import opened EvidenceRules
  import opened Scheduler

  /** A worker's moves when nothing else happens, one for each choice. */
  function Turns(policy: Policy, t: Tables, w: Worker, choices: seq<Choice>): (Tables, Worker)
    decreases |choices|
  {
    if choices == [] then (t, w)
    else
      var moved := Move(policy, t, w, choices[0]);
      Turns(policy, moved.0, moved.1, choices[1..])
  }

  lemma OneTurn(policy: Policy, t: Tables, w: Worker, a: Choice)
    ensures Turns(policy, t, w, [a]) == Move(policy, t, w, a)
  {
    var moved := Move(policy, t, w, a);
    assert Turns(policy, moved.0, moved.1, []) == moved;
    hide Move;
  }

  lemma TwoTurns(policy: Policy, t: Tables, w: Worker, a: Choice, b: Choice)
    ensures var moved := Move(policy, t, w, a);
            Turns(policy, t, w, [a, b]) == Move(policy, moved.0, moved.1, b)
  {
    var moved := Move(policy, t, w, a);
    OneTurn(policy, moved.0, moved.1, b);
    assert [a, b][1..] == [b];
    hide Move;
  }

  lemma ThreeTurns(policy: Policy, t: Tables, w: Worker, a: Choice, b: Choice, c: Choice)
    ensures var half := Turns(policy, t, w, [a, b]);
            Turns(policy, t, w, [a, b, c]) == Move(policy, half.0, half.1, c)
  {
    TwoTurns(policy, t, w, a, b);
    var moved := Move(policy, t, w, a);
    assert [a, b, c][1..] == [b, c];
    TwoTurns(policy, moved.0, moved.1, b, c);
    hide Move;
  }

  lemma FourTurns(policy: Policy, t: Tables, w: Worker, a: Choice, b: Choice, c: Choice, d: Choice)
    ensures var half := Turns(policy, t, w, [a, b]);
            Turns(policy, t, w, [a, b, c, d]) == Turns(policy, half.0, half.1, [c, d])
  {
    TwoTurns(policy, t, w, a, b);
    var moved := Move(policy, t, w, a);
    assert [a, b, c, d][1..] == [b, c, d] && [b, c, d][1..] == [c, d];
    assert Turns(policy, t, w, [a, b, c, d]) == Turns(policy, moved.0, moved.1, [b, c, d]);
    hide Move;
  }

  /** The worker is about to ask the provider, under the running claim of a current part and a fresh number. */
  ghost predicate Asking(t: Tables, w: Worker, route: string, attempt: nat, routeAttempt: nat) {
    && w.phase == Working(route, attempt, routeAttempt)
    && RunsUnder(t, w.token) && BelongsToday(t, w.token.partId)
    && attempt >= 1 && (w.token.partId, attempt) !in t.attempts
  }

  /** The attempt is recorded under the claim, and the worker has returned what was recorded. */
  ghost predicate ReturnsRecorded(t: Tables, w: Worker, end: (Tables, Worker), number: nat, attempt: Attempt,
                                  next: Option<int>) {
    AttemptRecorded(t, Some(end.0), w.token, number, attempt, next) && end.1 == w.(phase := Returned(attempt.outcome))
  }

  /** A failure that can be retried fails the part only when the route has had all its attempts. */
  lemma LastRetryFails(policy: Policy, t: Tables, w: Worker, route: string, attempt: nat, routeAttempt: nat,
                       code: string, b: Choice)
    requires Asking(t, w, route, attempt, routeAttempt) && routeAttempt >= policy.maxAttempts
    ensures ReturnsRecorded(t, w, Turns(policy, t, w, [Retryable(code), b]), attempt,
                            Attempt(route, Failed, Some(code)), None)
  {
    TwoTurns(policy, t, w, Retryable(code), b);
  }

  /** A failure that cannot be retried leaves the part waiting, to be taken up by a later run. */
  lemma UnretryableWaits(policy: Policy, t: Tables, w: Worker, route: string, attempt: nat, routeAttempt: nat,
                         code: string, b: Choice)
    requires Asking(t, w, route, attempt, routeAttempt)
    ensures ReturnsRecorded(t, w, Turns(policy, t, w, [Unretryable(code), b]), attempt,
                            Attempt(route, RetryWait, Some(code)), Some(policy.now))
  {
    TwoTurns(policy, t, w, Unretryable(code), b);
  }

  /** Evidence that does not pass the validation fails the part. */
  lemma InvalidFails(policy: Policy, t: Tables, w: Worker, route: string, attempt: nat, routeAttempt: nat, b: Choice)
    requires Asking(t, w, route, attempt, routeAttempt)
    ensures ReturnsRecorded(t, w, Turns(policy, t, w, [Invalid, b]), attempt,
                            Attempt(route, Failed, Some("evidence_validation_failed")), None)
  {
    TwoTurns(policy, t, w, Invalid, b);
  }

  /** The claim is paused if it is still held, and the worker has returned that its part waits. */
  ghost predicate ReturnsPaused(policy: Policy, t: Tables, w: Worker, end: (Tables, Worker)) {
    && (ClaimPaused(t, Some(end.0), w.token, policy.now) || (ClaimPaused(t, None, w.token, policy.now) && end.0 == t))
    && end.1 == w.(phase := Returned(RetryWait))
  }

  lemma PauseReturns(policy: Policy, t: Tables, w: Worker, a: Choice)
    ensures ReturnsPaused(policy, t, w, Move(policy, t, w.(phase := Pausing), a))
  {}

  /** Asked to stop, or refused by the authorization, the worker gives its claim back before it asks the provider. */
  lemma StopPauses(policy: Policy, t: Tables, w: Worker, a: Choice, b: Choice)
    requires (w.phase == Starting && (a == Stop || a == Fail)) || (w.phase.Working? && (a == Stop || a == Fail))
    ensures ReturnsPaused(policy, t, w, Turns(policy, t, w, [a, b]))
  {
    TwoTurns(policy, t, w, a, b);
    PauseReturns(policy, t, w, b);
  }

  /** A failure that can be retried is recorded as waiting until now; the claim waits with it. */
  lemma RetryIsRecorded(policy: Policy, t: Tables, w: Worker, route: string, attempt: nat, routeAttempt: nat,
                        code: string, b: Choice)
    requires Asking(t, w, route, attempt, routeAttempt) && routeAttempt < policy.maxAttempts
    ensures var half := Turns(policy, t, w, [Retryable(code), b]);
            && AttemptRecorded(t, Some(half.0), w.token, attempt, Attempt(route, RetryWait, Some(code)),
                               Some(policy.now))
            && half.1 == w.(phase := Waiting(route, attempt, routeAttempt))
  {
    TwoTurns(policy, t, w, Retryable(code), b);
  }

  /** A retry that is not gone through with leaves the part waiting. */
  lemma RetryGivenUp(policy: Policy, t: Tables, w: Worker, route: string, attempt: nat, routeAttempt: nat,
                     code: string, b: Choice, c: Choice)
    requires Asking(t, w, route, attempt, routeAttempt) && routeAttempt < policy.maxAttempts && c != GoOn
    ensures ReturnsRecorded(t, w, Turns(policy, t, w, [Retryable(code), b, c]), attempt,
                            Attempt(route, RetryWait, Some(code)), Some(policy.now))
  {
    ThreeTurns(policy, t, w, Retryable(code), b, c);
    RetryIsRecorded(policy, t, w, route, attempt, routeAttempt, code, b);
  }

  /** A retry asks again under a new token, one attempt further on. */
  lemma RetryAsksAgain(policy: Policy, t: Tables, w: Worker, route: string, attempt: nat, routeAttempt: nat,
                       code: string, b: Choice, d: Choice)
    requires Asking(t, w, route, attempt, routeAttempt) && routeAttempt < policy.maxAttempts
    requires (w.token.partId, attempt + 1) !in t.attempts && t.parts[w.token.partId].plan.partId == w.token.partId
    ensures var half := Turns(policy, t, w, [Retryable(code), b]);
            var end := Turns(policy, t, w, [Retryable(code), b, GoOn, d]);
            && ClaimResumed(half.0, Some(end.0), w.token, attempt + 1)
            && end.1 == Worker(w.plan, Token(w.token.partId, w.token.planGeneration, w.token.claimGeneration + 1),
                               Working(route, attempt + 1, routeAttempt + 1))
            && Asking(end.0, end.1, route, attempt + 1, routeAttempt + 1)
  {
    FourTurns(policy, t, w, Retryable(code), b, GoOn, d);
    RetryIsRecorded(policy, t, w, route, attempt, routeAttempt, code, b);
    var half := Turns(policy, t, w, [Retryable(code), b]);
    RecordedWaits(t, half.0, w.token, attempt, Attempt(route, RetryWait, Some(code)), policy.now);
    hide Asking, AttemptRecorded, ClaimResumed, Move, BelongsToday;
    ResumedAsks(policy, half.0, half.1, route, attempt, routeAttempt, d);
  }

  /** The row of a recorded retry. */
  lemma RecordedWaits(t: Tables, next: Tables, token: Token, number: nat, attempt: Attempt, at: int)
    requires AttemptRecorded(t, Some(next), token, number, attempt, Some(at)) && attempt.outcome == RetryWait
    ensures BelongsToday(next, token.partId) && next.parts[token.partId].state == RetryWait
    ensures next.parts[token.partId].plan == t.parts[token.partId].plan
    ensures next.parts[token.partId].planGeneration == token.planGeneration
    ensures next.parts[token.partId].claimGeneration == token.claimGeneration
    ensures (token.partId, number + 1) in next.attempts <==> (token.partId, number + 1) in t.attempts
  {}

  lemma ResumedAsks(policy: Policy, t: Tables, w: Worker, route: string, attempt: nat, routeAttempt: nat, d: Choice)
    requires w.phase == Waiting(route, attempt, routeAttempt) && BelongsToday(t, w.token.partId)
    requires t.parts[w.token.partId].state == RetryWait && t.parts[w.token.partId].plan.partId == w.token.partId
    requires t.parts[w.token.partId].planGeneration == w.token.planGeneration
    requires t.parts[w.token.partId].claimGeneration == w.token.claimGeneration
    requires (w.token.partId, attempt + 1) !in t.attempts
    ensures var end := Turns(policy, t, w, [GoOn, d]);
            && ClaimResumed(t, Some(end.0), w.token, attempt + 1)
            && end.1 == Worker(w.plan, Token(w.token.partId, w.token.planGeneration, w.token.claimGeneration + 1),
                               Working(route, attempt + 1, routeAttempt + 1))
            && Asking(end.0, end.1, route, attempt + 1, routeAttempt + 1)
  {
    TwoTurns(policy, t, w, GoOn, d);
  }

  lemma PublishingTurns(policy: Policy, t: Tables, w: Worker, route: string, attempt: nat, routeAttempt: nat,
                        unit: Unit, b: Choice)
    requires w.phase == Working(route, attempt, routeAttempt)
    ensures var asked := Move(policy, t, w, Evidence(unit));
            var next := OnPublish(t, policy.setup.contains, w.token, unit, policy.keyOf(w.plan, route));
            Move(policy, asked.0, asked.1, b) ==
              if next.Some? then (next.value, w.(phase := Returned(Processed))) else (t, w.(phase := Pausing))
  {
    hide OnPublish;
  }

  /** Validated evidence is published under the key of the plan and the route; a refusal gives the claim back. */
  lemma EvidenceIsPublished(policy: Policy, t: Tables, w: Worker, route: string, attempt: nat, routeAttempt: nat,
                            unit: Unit, b: Choice, c: Choice)
    requires Asking(t, w, route, attempt, routeAttempt)
    ensures var end := Turns(policy, t, w, [Evidence(unit), b]);
            var key := policy.keyOf(w.plan, route);
            || (EvidencePublished(policy.setup, t, Some(end.0), w.token, unit, key)
                && end.1 == w.(phase := Returned(Processed)))
            || (EvidencePublished(policy.setup, t, None, w.token, unit, key)
                && ReturnsPaused(policy, t, w, Turns(policy, t, w, [Evidence(unit), b, c])))
  {
    hide EvidencePublished, OnPublish, ReturnsPaused, OnPause, RouteCount;
    TwoTurns(policy, t, w, Evidence(unit), b);
    ThreeTurns(policy, t, w, Evidence(unit), b, c);
    PublishFollows(policy.setup, t, w.token, unit, policy.keyOf(w.plan, route));
    PauseReturns(policy, t, w, c);
    PublishingTurns(policy, t, w, route, attempt, routeAttempt, unit, b);
    hide Move;
  }

  /** Without a route the part waits, with an attempt recorded on none. */
  lemma MissingRouteWaits(policy: Policy, t: Tables, w: Worker, code: string, b: Choice, c: Choice)
    requires w.phase == Starting && RunsUnder(t, w.token) && BelongsToday(t, w.token.partId)
    requires (w.token.partId, t.parts[w.token.partId].attemptCount + 1) !in t.attempts
    ensures ReturnsRecorded(t, w, Turns(policy, t, w, [RouteMissing(code), b, c]),
                            t.parts[w.token.partId].attemptCount + 1,
                            Attempt("provider:route-unavailable", RetryWait, Some(code)), Some(policy.now))
  {
    ThreeTurns(policy, t, w, RouteMissing(code), b, c);
    TwoTurns(policy, t, w, RouteMissing(code), b);
  }

  /** With a route the cache is asked first, for the key of the plan and the route. */
  lemma CacheIsAskedFirst(policy: Policy, t: Tables, w: Worker, route: string, b: Choice, c: Choice)
    requires w.phase == Starting && route != UNAVAILABLE && b != Fail
    ensures var end := Turns(policy, t, w, [RouteFound(route), b]);
            var key := policy.keyOf(w.plan, route);
            || (EvidenceReused(policy.setup, t, Some(end.0), w.token, key)
                && end.1 == w.(phase := if end.0 == t then Counting(route) else Returned(Processed)))
            || (EvidenceReused(policy.setup, t, None, w.token, key)
                && ReturnsPaused(policy, t, w, Turns(policy, t, w, [RouteFound(route), b, c])))
  {
    TwoTurns(policy, t, w, RouteFound(route), b);
    ThreeTurns(policy, t, w, RouteFound(route), b, c);
    ReuseFollows(policy.setup, t, w.token, policy.keyOf(w.plan, route));
    PauseReturns(policy, t, w, c);
    hide EvidenceReused, OnReuse, ReturnsPaused;
  }

  /** After a miss the provider is asked with the next numbers, unless the route has had all its attempts. */
  lemma MissAsksOrFails(policy: Policy, t: Tables, w: Worker, route: string, a: Choice, b: Choice, c: Choice)
    requires w.phase == Counting(route) && RunsUnder(t, w.token) && BelongsToday(t, w.token.partId)
    requires (w.token.partId, t.parts[w.token.partId].attemptCount + 1) !in t.attempts
    ensures var used := |set k | k in t.attempts && k.0 == w.token.partId && t.attempts[k].route == route|;
            if used < policy.maxAttempts then
              var end := Turns(policy, t, w, [a, b]);
              end.0 == t && Asking(t, end.1, route, t.parts[w.token.partId].attemptCount + 1, used + 1)
              && end.1 == w.(phase := end.1.phase)
            else
              var end := Turns(policy, t, w, [a, b, c]);
              ExhaustedFailed(t, Some(end.0), w.token) && end.1 == w.(phase := Returned(Failed))
  {
    TwoTurns(policy, t, w, a, b);
    ThreeTurns(policy, t, w, a, b, c);
    assert AttemptsOn(t.attempts, w.token.partId, route)
        == set k | k in t.attempts && k.0 == w.token.partId && t.attempts[k].route == route;
  }

  /** A call that is refused leaves the tables alone, and the worker gives its claim back if it still has it. */
  lemma RefusedCallPauses(policy: Policy, t: Tables, w: Worker, a: Choice, b: Choice)
    requires CallOf(policy, w).Some? && Attempted(policy.setup, t, CallOf(policy, w).value).None?
    requires w.phase != Pausing
    ensures ReturnsPaused(policy, t, w, Turns(policy, t, w, [a, b]))
  {
    TwoTurns(policy, t, w, a, b);
    PauseReturns(policy, t, w, b);
    hide CallOf, Attempted, ReturnsPaused;
  }
}
