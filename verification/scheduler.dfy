/**
 The scheduler's workers, interleaved in any order with one another and with everything else the store does.

 A worker reads counts outside the transactions that record them; what it may rely on is that its token is
 the only one that matches its part.
 */
module Scheduler {
  import opened Outcomes
  import opened EvidenceTables
  import opened EvidenceInvariant
  import opened EvidenceFacts

  /** The route recorded when no route could be had at all. */
  const UNAVAILABLE := "provider:route-unavailable"

  /** Where a worker is between two of its accesses to the store. */
  datatype Phase =
    | Starting
    | NoRoute(code: string)
    | Caching(route: string)
    | Counting(route: string)
    | CountingRoute(route: string, attempt: nat)
    | Exhausting
    | Working(route: string, attempt: nat, routeAttempt: nat)
    | Publishing(route: string, attempt: nat, routeAttempt: nat, unit: Unit)
    | Recording(route: string, attempt: nat, routeAttempt: nat, outcome: PartState, code: string, again: bool)
    | Waiting(route: string, attempt: nat, routeAttempt: nat)
    | Resuming(route: string, attempt: nat, routeAttempt: nat)
    | Pausing
    | Returned(result: PartState)

  datatype Worker = Worker(plan: Plan, token: Token, phase: Phase)

  /** What the clock, the stop flag, the provider, the validator and the authorization do next. */
  datatype Choice =
    | Stop
    | Fail
    | RouteFound(route: string)
    | RouteMissing(code: string)
    | Evidence(unit: Unit)
    | Retryable(code: string)
    | Unretryable(code: string)
    | Invalid
    | GoOn

  /** The policy's bound, how cache keys are made, and the time that goes into the tables, any time at every move. */
  datatype Policy = Policy(setup: Setup, maxAttempts: nat, keyOf: (Plan, string) -> string, now: int)

  function AttemptsOn(attempts: map<(string, nat), Attempt>, part: string, route: string): set<(string, nat)> {
    set k | k in attempts && k.0 == part && attempts[k].route == route
  }

  function RouteCount(attempts: map<(string, nat), Attempt>, part: string, route: string): nat {
    |AttemptsOn(attempts, part, route)|
  }

  /** A worker that has looked at the clock, the provider or a count moves on without changing a table. */
  function Look(policy: Policy, t: Tables, w: Worker, choice: Choice): Phase {
    var part := w.token.partId;
    match w.phase
    case Starting =>
      (match choice
       case RouteFound(route) => if route == UNAVAILABLE then Pausing else Caching(route)
       case RouteMissing(code) => NoRoute(code)
       case _ => Pausing)
    case NoRoute(code) =>
      if part !in t.parts then Pausing
      else Recording(UNAVAILABLE, t.parts[part].attemptCount + 1, 0, RetryWait, code, false)
    case Counting(route) =>
      if part !in t.parts then Pausing else CountingRoute(route, t.parts[part].attemptCount + 1)
    case CountingRoute(route, attempt) =>
      var routeAttempt := RouteCount(t.attempts, part, route) + 1;
      if routeAttempt > policy.maxAttempts then Exhausting else Working(route, attempt, routeAttempt)
    case Working(route, attempt, routeAttempt) =>
      (match choice
       case Evidence(unit) => Publishing(route, attempt, routeAttempt, unit)
       case Retryable(code) =>
         if routeAttempt < policy.maxAttempts
         then Recording(route, attempt, routeAttempt, RetryWait, code, true)
         else Recording(route, attempt, routeAttempt, Failed, code, false)
       case Unretryable(code) => Recording(route, attempt, routeAttempt, RetryWait, code, false)
       case Invalid => Recording(route, attempt, routeAttempt, Failed, "evidence_validation_failed", false)
       case _ => Pausing)
    case Waiting(route, attempt, routeAttempt) =>
      if choice.GoOn? then Resuming(route, attempt + 1, routeAttempt + 1) else Returned(RetryWait)
    case _ => w.phase
  }

  /** The store call a worker is about to make, if it is about to make one. */
  function CallOf(policy: Policy, w: Worker): Option<Operation> {
    match w.phase
    case Caching(route) => Some(Reuse(w.token, policy.keyOf(w.plan, route)))
    case Exhausting => Some(FailExhausted(w.token))
    case Publishing(route, _, _, unit) => Some(Publish(w.token, unit, policy.keyOf(w.plan, route)))
    case Recording(route, attempt, _, outcome, code, _) =>
      Some(RecordAttempt(w.token, attempt, Attempt(route, outcome, Some(code)),
                         if outcome == RetryWait then Some(policy.now) else None))
    case Resuming(_, attempt, _) => Some(Resume(w.token, attempt))
    case Pausing => Some(Pause(w.token, policy.now))
    case _ => None
  }

  /** Where a worker goes when its call has returned, or raised. */
  function AfterCall(t: Tables, next: Option<Tables>, w: Worker): Worker {
    if w.phase.Pausing? then w.(phase := Returned(RetryWait))
    else if next.None? then w.(phase := Pausing)
    else
      match w.phase
      case Caching(route) => w.(phase := if next.value == t then Counting(route) else Returned(Processed))
      case Exhausting => w.(phase := Returned(Failed))
      case Publishing(_, _, _, _) => w.(phase := Returned(Processed))
      case Recording(route, attempt, routeAttempt, outcome, _, again) =>
        w.(phase := if again then Waiting(route, attempt, routeAttempt) else Returned(outcome))
      case Resuming(route, attempt, routeAttempt) =>
        if w.token.partId in next.value.parts
        then w.(token := TokenOf(next.value.parts[w.token.partId]), phase := Working(route, attempt, routeAttempt))
        else w.(phase := Pausing)
      case _ => w
  }

  /** One worker's next move: a look or a call. */
  function Move(policy: Policy, t: Tables, w: Worker, choice: Choice): (Tables, Worker) {
    var call := CallOf(policy, w);
    if call.None? then (t, w.(phase := Look(policy, t, w, choice)))
    else if choice.Fail? && w.phase.Caching? then (t, w.(phase := Pausing))
    else (Step(policy.setup, t, call.value), AfterCall(t, Attempted(policy.setup, t, call.value), w))
  }

  // ---------------------------------------------------------------- the system

  /** The tables and the workers of all frontiers that have not returned, by the claim each started from. */
  datatype System = System(tables: Tables, workers: map<Token, Worker>)

  datatype Event =
    | Claims(workspaceId: string, revisionId: string, now: int, chosen: set<string>)
    | Moves(claim: Token, choice: Choice, now: int)
    | Collects(claim: Token)
    | Other(op: Operation)
    | Crash

  function NewWorkers(t: Tables, chosen: set<string>): map<Token, Worker> {
    map p | p in chosen && p in t.parts :: TokenAt(t, p) := Worker(t.parts[p].plan, TokenAt(t, p), Starting)
  }

  function TokenAt(t: Tables, p: string): Token
    requires p in t.parts
  {
    Token(p, t.parts[p].planGeneration, t.parts[p].claimGeneration)
  }

  function Happens(policy: Policy, s: System, e: Event): System {
    match e
    case Claims(w, r, now, chosen) =>
      var t := Step(policy.setup, s.tables, Claim(w, r, now, chosen));
      if Attempted(policy.setup, s.tables, Claim(w, r, now, chosen)).Some? && Current(s.tables, w, r)
      then System(t, s.workers + NewWorkers(t, chosen)) else s
    case Moves(claim, choice, now) =>
      if claim !in s.workers then s
      else
        var moved := Move(policy.(now := now), s.tables, s.workers[claim], choice);
        System(moved.0, s.workers[claim := moved.1])
    case Collects(claim) =>
      if claim in s.workers && s.workers[claim].phase.Returned? then s.(workers := s.workers - {claim}) else s
    case Other(op) => s.(tables := Step(policy.setup, s.tables, op))
    case Crash => s.(workers := map[])
  }

  /** Calls made by others take no worker's token, and leave the rows of parts under way in place. */
  predicate Allowed(policy: Policy, s: System, e: Event) {
    e.Other? ==>
      && InUse(e.op) && TokenFor(e.op).None? && !e.op.Claim?
      && forall k | k in s.workers && k.partId in s.tables.parts :: k.partId in Step(policy.setup, s.tables, e.op).parts
  }

  function Runs(policy: Policy, s: System, events: seq<Event>): System {
    if events == [] then s else Happens(policy, Runs(policy, s, events[..|events| - 1]), events[|events| - 1])
  }

  predicate AllAllowed(policy: Policy, s: System, events: seq<Event>) {
    events != [] ==>
      && AllAllowed(policy, s, events[..|events| - 1])
      && Allowed(policy, Runs(policy, s, events[..|events| - 1]), events[|events| - 1])
  }

  // ---------------------------------------------------------------- the invariant

  /** Every attempt recorded for the part has a smaller number. */
  predicate Below(attempts: map<(string, nat), Attempt>, part: string, attempt: nat) {
    forall k | k in attempts && k.0 == part :: k.1 < attempt
  }

  /** What the worker whose token matches knows of its part's attempts. */
  predicate PhaseFits(attempts: map<(string, nat), Attempt>, maxAttempts: nat, part: string, phase: Phase) {
    match phase
    case CountingRoute(route, attempt) => route != UNAVAILABLE && attempt >= 1 && Below(attempts, part, attempt)
    case Working(route, attempt, routeAttempt) =>
      Numbered(attempts, maxAttempts, part, route, attempt, routeAttempt)
    case Publishing(route, attempt, routeAttempt, _) =>
      Numbered(attempts, maxAttempts, part, route, attempt, routeAttempt)
    case Recording(route, attempt, routeAttempt, outcome, _, again) =>
      && attempt >= 1 && Below(attempts, part, attempt) && outcome in {RetryWait, Failed}
      && (route == UNAVAILABLE ==> !again)
      && (route != UNAVAILABLE ==> Numbered(attempts, maxAttempts, part, route, attempt, routeAttempt))
      && (again ==> routeAttempt < maxAttempts && outcome == RetryWait)
    case Waiting(route, attempt, routeAttempt) =>
      && route != UNAVAILABLE && Below(attempts, part, attempt + 1)
      && RouteCount(attempts, part, route) == routeAttempt < maxAttempts
    case Resuming(route, attempt, routeAttempt) =>
      Numbered(attempts, maxAttempts, part, route, attempt, routeAttempt)
    case Caching(route) => route != UNAVAILABLE
    case Counting(route) => route != UNAVAILABLE
    case _ => true
  }

  /** The next attempt has a fresh number and is within the route's bound. */
  predicate Numbered(attempts: map<(string, nat), Attempt>, maxAttempts: nat, part: string, route: string,
                     attempt: nat, routeAttempt: nat)
  {
    && route != UNAVAILABLE && attempt >= 1 && Below(attempts, part, attempt)
    && routeAttempt == RouteCount(attempts, part, route) + 1 && routeAttempt <= maxAttempts
  }

  predicate WorkerFits(t: Tables, maxAttempts: nat, w: Worker) {
    && Issued(t, w.token)
    && (Matches(t, w.token) ==> PhaseFits(t.attempts, maxAttempts, w.token.partId, w.phase))
    && (w.phase.Returned? || w.phase.Waiting? ==> !Held(t, w.token))
  }

  predicate WorkersFit(t: Tables, maxAttempts: nat, workers: map<Token, Worker>) {
    && (forall k | k in workers ::
          k.partId == workers[k].token.partId && Issued(t, k) && WorkerFits(t, maxAttempts, workers[k]))
    && forall j, k | j in workers && k in workers && j != k :: workers[j].token != workers[k].token
  }

  /** No real route has more recorded attempts on a part than the policy allows. */
  ghost predicate RoutesBounded(attempts: map<(string, nat), Attempt>, maxAttempts: nat) {
    forall part, route | route != UNAVAILABLE :: RouteCount(attempts, part, route) <= maxAttempts
  }

  ghost predicate SystemInv(policy: Policy, s: System) {
    && Inv(s.tables) && RoutesBounded(s.tables.attempts, policy.maxAttempts)
    && WorkersFit(s.tables, policy.maxAttempts, s.workers)
  }

  // ---------------------------------------------------------------- what a call does to the attempts

  predicate SameAttempts(before: map<(string, nat), Attempt>, after: map<(string, nat), Attempt>, part: string) {
    && (forall k | k in before && k.0 == part :: k in after && after[k] == before[k])
    && forall k | k in after && k.0 == part :: k in before
  }

  predicate NoNewAttempts(before: map<(string, nat), Attempt>, after: map<(string, nat), Attempt>) {
    forall k | k in after :: k in before && before[k] == after[k]
  }

  /** Apart from recording one, a call adds no attempt, and drops a part's attempts only with its plan or row. */
  predicate AttemptsKept(t: Tables, next: Tables) {
    && NoNewAttempts(t.attempts, next.attempts)
    && forall p | p in t.parts && p in next.parts && next.parts[p].planGeneration == t.parts[p].planGeneration ::
         SameAttempts(t.attempts, next.attempts, p)
  }

  lemma StrippedShape(t: Tables, id: string)
    requires id in t.parts
    ensures Stripped(t, id).parts == t.parts
    ensures Stripped(t, id).attempts == map k | k in t.attempts && k.0 != id :: t.attempts[k]
  {
    hide SnapshotsUsing, UnitsOf;
  }

  lemma UpsertOneKeepsAttempts(t: Tables, plan: Plan)
    ensures AttemptsKept(t, UpsertOne(t, plan))
    ensures forall p | p in t.parts :: p in UpsertOne(t, plan).parts
    ensures forall p | p in t.parts :: t.parts[p].planGeneration <= UpsertOne(t, plan).parts[p].planGeneration
  {
    if plan.partId in t.parts {
      StrippedShape(t, plan.partId);
    }
    hide Stripped;
  }

  lemma {:induction false} UpsertAllKeepsAttempts(t: Tables, plans: seq<Plan>)
    ensures AttemptsKept(t, UpsertAll(t, plans))
    ensures forall p | p in t.parts :: p in UpsertAll(t, plans).parts
    ensures forall p | p in t.parts :: t.parts[p].planGeneration <= UpsertAll(t, plans).parts[p].planGeneration
    decreases |plans|
  {
    hide UpsertOne;
    if plans != [] {
      var mid := UpsertAll(t, plans[..|plans| - 1]);
      UpsertAllKeepsAttempts(t, plans[..|plans| - 1]);
      UpsertOneKeepsAttempts(mid, plans[|plans| - 1]);
    }
  }

  lemma StepKeepsAttempts(setup: Setup, t: Tables, op: Operation)
    requires !op.RecordAttempt?
    ensures AttemptsKept(t, Step(setup, t, op))
  {
    hide SnapshotsUsing, UnitsOf, UpsertAll, Revisions, CacheFits, Readdressed, CitationsInside, CachedUnit,
         DependenciesFit;
    if op.Upsert? {
      if Revisions(op.plans).Some? {
        UpsertAllKeepsAttempts(t.(current := t.current + Revisions(op.plans).value), op.plans);
      }
    } else if op.DeleteInvalidated? || op.RetryFailed? || op.DeleteWorkspace? {
      DeletionKeepsAttempts(setup, t, op);
    }
  }

  lemma DeletionKeepsAttempts(setup: Setup, t: Tables, op: Operation)
    requires op.DeleteInvalidated? || op.RetryFailed? || op.DeleteWorkspace?
    ensures AttemptsKept(t, Step(setup, t, op))
  {
    hide AttemptsKept, EntryParts, WorkspaceParts, WorkspaceSnapshots, DeleteParts;
    var next := Step(setup, t, op);
    if next != t {
      match op
      case DeleteInvalidated(w, r, e) => AttemptsGoWithParts(t, EntryParts(t, w, r, e), next);
      case RetryFailed(w, r) =>
        AttemptsGoWithParts(t, (set p | p in FailedParts(t, w, r) && t.parts[p].attemptCount == 0), next);
      case DeleteWorkspace(w) =>
        AttemptsGoWithParts(DeleteSnapshots(t, WorkspaceSnapshots(t, w)), WorkspaceParts(t, w), next);
        AttemptsOfSame(DeleteSnapshots(t, WorkspaceSnapshots(t, w)), t, next);
    } else {
      AttemptsStay(t);
    }
  }

  lemma AttemptsGoWithParts(t: Tables, gone: set<string>, next: Tables)
    requires next.parts.Keys == DeleteParts(t, gone).parts.Keys && next.attempts == DeleteParts(t, gone).attempts
    ensures AttemptsKept(t, next)
  {
    hide UnitsOf;
  }

  lemma AttemptsOfSame(t: Tables, same: Tables, next: Tables)
    requires AttemptsKept(t, next) && same.parts == t.parts && same.attempts == t.attempts
    ensures AttemptsKept(same, next)
  {}

  lemma AttemptsStay(t: Tables)
    ensures AttemptsKept(t, t)
  {}

  lemma RouteCountSame(before: map<(string, nat), Attempt>, after: map<(string, nat), Attempt>, part: string,
                       route: string)
    requires SameAttempts(before, after, part)
    ensures RouteCount(after, part, route) == RouteCount(before, part, route)
  {
    assert AttemptsOn(after, part, route) == AttemptsOn(before, part, route);
  }

  lemma SubsetSize<T>(a: set<T>, b: set<T>)
    requires a <= b
    ensures |a| <= |b|
  {
    assert b == a + (b - a);
  }

  lemma FewerAttempts(before: map<(string, nat), Attempt>, after: map<(string, nat), Attempt>, maxAttempts: nat)
    requires NoNewAttempts(before, after) && RoutesBounded(before, maxAttempts)
    ensures RoutesBounded(after, maxAttempts)
  {
    forall part, route | route != UNAVAILABLE
      ensures RouteCount(after, part, route) <= maxAttempts
    {
      SubsetSize(AttemptsOn(after, part, route), AttemptsOn(before, part, route));
      assert RouteCount(before, part, route) <= maxAttempts;
    }
  }

  lemma OneMoreAttempt(attempts: map<(string, nat), Attempt>, part: string, n: nat, attempt: Attempt, p: string,
                       route: string)
    requires (part, n) !in attempts
    ensures RouteCount(attempts[(part, n) := attempt], p, route)
            == RouteCount(attempts, p, route) + if p == part && route == attempt.route then 1 else 0
  {
    var after := attempts[(part, n) := attempt];
    if p == part && route == attempt.route {
      assert AttemptsOn(after, p, route) == AttemptsOn(attempts, p, route) + {(part, n)};
    } else {
      assert AttemptsOn(after, p, route) == AttemptsOn(attempts, p, route);
    }
  }

  // ---------------------------------------------------------------- workers that are not moving

  lemma PhaseStays(before: map<(string, nat), Attempt>, after: map<(string, nat), Attempt>, maxAttempts: nat,
                   part: string, phase: Phase)
    requires SameAttempts(before, after, part) && PhaseFits(before, maxAttempts, part, phase)
    ensures PhaseFits(after, maxAttempts, part, phase)
  {
    forall route ensures RouteCount(after, part, route) == RouteCount(before, part, route) {
      RouteCountSame(before, after, part, route);
    }
    hide RouteCount;
    assert forall n :: Below(before, part, n) ==> Below(after, part, n);
  }

  /** A worker keeps what it knows while others act: either its token is dead, or its attempts are untouched. */
  lemma WorkerStays(t: Tables, next: Tables, maxAttempts: nat, w: Worker)
    requires WorkerFits(t, maxAttempts, w) && RowsAdvance(t, next)
    requires w.token.partId in next.parts
    requires (&& Matches(t, w.token)
              && next.parts[w.token.partId].planGeneration == t.parts[w.token.partId].planGeneration) ==>
               SameAttempts(t.attempts, next.attempts, w.token.partId)
    ensures WorkerFits(next, maxAttempts, w)
  {
    hide PhaseFits, SameAttempts;
    assert RowAdvances(t.parts[w.token.partId], next.parts[w.token.partId]);
    if Matches(next, w.token) {
      assert Matches(t, w.token);
      PhaseStays(t.attempts, next.attempts, maxAttempts, w.token.partId, w.phase);
    }
  }

  lemma OthersStay(t: Tables, next: Tables, maxAttempts: nat, workers: map<Token, Worker>)
    requires WorkersFit(t, maxAttempts, workers) && RowsAdvance(t, next) && AttemptsKept(t, next)
    requires forall k | k in workers :: k.partId in next.parts
    ensures WorkersFit(next, maxAttempts, workers)
  {
    hide WorkerFits, SameAttempts, RowAdvances;
    forall k | k in workers
      ensures Issued(next, k) && WorkerFits(next, maxAttempts, workers[k])
    {
      IssuedStays(t, next, k);
      assert WorkerFits(t, maxAttempts, workers[k]);
      WorkerIssued(t, maxAttempts, workers[k]);
      WorkerStays(t, next, maxAttempts, workers[k]);
    }
  }

  lemma WorkerIssued(t: Tables, maxAttempts: nat, w: Worker)
    requires WorkerFits(t, maxAttempts, w)
    ensures w.token.partId in t.parts
  {}

  lemma IssuedStays(t: Tables, next: Tables, token: Token)
    requires Issued(t, token) && RowsAdvance(t, next) && token.partId in next.parts
    ensures Issued(next, token)
  {
    assert RowAdvances(t.parts[token.partId], next.parts[token.partId]);
  }

  // ---------------------------------------------------------------- the worker that moves

  /** The worker's move keeps its own knowledge true and the routes bounded. */
  ghost predicate GoodMove(policy: Policy, t: Tables, w: Worker, next: Tables, moved: Worker) {
    && Inv(next) && RoutesBounded(next.attempts, policy.maxAttempts) && RowsAdvance(t, next)
    && moved.token.partId == w.token.partId && WorkerFits(next, policy.maxAttempts, moved)
    && (moved.token == w.token || !Issued(t, moved.token))
  }

  lemma LookFits(policy: Policy, t: Tables, w: Worker, choice: Choice)
    requires Inv(t) && WorkerFits(t, policy.maxAttempts, w) && CallOf(policy, w).None?
    ensures WorkerFits(t, policy.maxAttempts, w.(phase := Look(policy, t, w, choice)))
  {
    var part := w.token.partId;
    CountIsAbove(t, part);
    hide Inv, InvBut, RouteCount, Issued, Matches, Held;
  }

  /** The number after a part's count is above all its attempts. */
  lemma CountIsAbove(t: Tables, part: string)
    requires Inv(t) && part in t.parts
    ensures Below(t.attempts, part, t.parts[part].attemptCount + 1)
  {
    hide PartsFiled, UnitsFiled, OneUnitEach, ProcessedHaveUnits, CacheBound, DependenciesListed, SnapshotsGrounded;
  }

  lemma CallIsInUse(policy: Policy, t: Tables, w: Worker)
    requires WorkerFits(t, policy.maxAttempts, w) && CallOf(policy, w).Some?
    requires Attempted(policy.setup, t, CallOf(policy, w).value).Some?
    ensures InUse(CallOf(policy, w).value)
  {
    if w.phase.Recording? {
      RecordingIsHeld(policy, t, w);
    }
  }

  lemma RecordingIsHeld(policy: Policy, t: Tables, w: Worker)
    requires w.phase.Recording? && CallOf(policy, w).Some?
    requires Attempted(policy.setup, t, CallOf(policy, w).value).Some?
    ensures Held(t, w.token)
  {
    hide RouteCount;
  }

  lemma CallKeepsTables(policy: Policy, t: Tables, w: Worker)
    requires Inv(t) && WorkerFits(t, policy.maxAttempts, w) && CallOf(policy, w).Some?
    ensures Inv(Step(policy.setup, t, CallOf(policy, w).value))
    ensures RowsAdvance(t, Step(policy.setup, t, CallOf(policy, w).value))
    ensures Step(policy.setup, t, CallOf(policy, w).value).parts.Keys == t.parts.Keys
  {
    var op := CallOf(policy, w).value;
    if Attempted(policy.setup, t, op).Some? {
      CallIsInUse(policy, t, w);
      StepKeepsInv(policy.setup, t, op);
    }
    StepAdvances(policy.setup, t, op);
    TokenCallKeepsRows(policy.setup, t, op);
    CallHasToken(policy, w);
  }

  lemma CallHasToken(policy: Policy, w: Worker)
    requires CallOf(policy, w).Some?
    ensures TokenFor(CallOf(policy, w).value) == Some(w.token)
  {}

  lemma TokenCallKeepsRows(setup: Setup, t: Tables, op: Operation)
    ensures TokenFor(op).Some? ==> Step(setup, t, op).parts.Keys == t.parts.Keys
  {
    hide CacheFits, Readdressed, CitationsInside, CachedUnit, AlreadyPublished, UpsertAll;
  }

  /** A call that records nothing leaves the attempts as they are. */
  lemma TokenCallKeepsAttempts(setup: Setup, t: Tables, op: Operation)
    requires TokenFor(op).Some? && !op.RecordAttempt?
    ensures Step(setup, t, op).attempts == t.attempts
  {
    hide CacheFits, Readdressed, CitationsInside, CachedUnit, AlreadyPublished;
  }

  /** What a successful call leaves its part in. */
  lemma CallEnds(setup: Setup, t: Tables, op: Operation)
    requires TokenFor(op).Some? && Attempted(setup, t, op).Some?
    ensures var token, next := TokenFor(op).value, Step(setup, t, op);
            && Matches(t, token) && token.partId in next.parts
            && (op.Pause? || op.FailExhausted? || op.Publish? ==> !Held(next, token))
            && (op.Reuse? && next != t ==> !Held(next, token))
            && (op.RecordAttempt? ==> !Held(next, token))
            && (op.Resume? ==> Outdated(next, token))
  {
    hide CacheFits, Readdressed, CitationsInside, CachedUnit, AlreadyPublished;
  }

  lemma RaisedPauseIsNotHeld(setup: Setup, t: Tables, token: Token, now: int)
    requires Attempted(setup, t, Pause(token, now)).None?
    ensures !Held(t, token)
  {}

  lemma IssuedAfter(t: Tables, next: Tables, token: Token)
    requires Issued(t, token) && RowsAdvance(t, next) && next.parts.Keys == t.parts.Keys
    ensures Issued(next, token)
  {
    IssuedStays(t, next, token);
  }

  lemma FitsIsIssued(t: Tables, maxAttempts: nat, w: Worker)
    requires WorkerFits(t, maxAttempts, w)
    ensures Issued(t, w.token)
    ensures Matches(t, w.token) ==> PhaseFits(t.attempts, maxAttempts, w.token.partId, w.phase)
  {}

  lemma ReturnedFits(t: Tables, maxAttempts: nat, w: Worker)
    requires Issued(t, w.token) && (w.phase.Returned? ==> !Held(t, w.token))
    requires w.phase.Returned? || w.phase.Pausing?
    ensures WorkerFits(t, maxAttempts, w)
  {}

  lemma CountingFits(t: Tables, maxAttempts: nat, w: Worker, route: string)
    requires WorkerFits(t, maxAttempts, w) && w.phase == Caching(route) && Matches(t, w.token)
    ensures WorkerFits(t, maxAttempts, w.(phase := Counting(route)))
  {}

  lemma RefusedChangesNothing(setup: Setup, t: Tables, op: Operation)
    requires Attempted(setup, t, op).None?
    ensures Step(setup, t, op) == t
  {}

  lemma GrantedIsTheStep(setup: Setup, t: Tables, op: Operation)
    requires Attempted(setup, t, op).Some?
    ensures Attempted(setup, t, op) == Some(Step(setup, t, op))
  {}

  lemma CallShape(policy: Policy, w: Worker)
    requires || w.phase.Caching? || w.phase.Exhausting? || w.phase.Publishing?
             || w.phase.Pausing? || w.phase.Resuming? || w.phase.Recording?
    ensures var call := CallOf(policy, w);
            && call.Some?
            && (call.value.Reuse? <==> w.phase.Caching?) && (call.value.FailExhausted? <==> w.phase.Exhausting?)
            && (call.value.Publish? <==> w.phase.Publishing?) && (call.value.Resume? <==> w.phase.Resuming?)
            && (call.value.RecordAttempt? <==> w.phase.Recording?)
            && (w.phase.Pausing? ==> call == Some(Pause(w.token, policy.now)))
            && (call.value.Pause? <==> w.phase.Pausing?)
  {}

  lemma PlainCallFits(policy: Policy, t: Tables, w: Worker)
    requires Inv(t) && RoutesBounded(t.attempts, policy.maxAttempts) && WorkerFits(t, policy.maxAttempts, w)
    requires w.phase.Caching? || w.phase.Exhausting? || w.phase.Publishing? || w.phase.Pausing?
    ensures CallOf(policy, w).Some?
    ensures var op := CallOf(policy, w).value;
            GoodMove(policy, t, w, Step(policy.setup, t, op), AfterCall(t, Attempted(policy.setup, t, op), w))
  {
    hide Inv, RoutesBounded, WorkerFits, CallOf, RowsAdvance, Attempted, Step, Issued, Held, Matches, PhaseFits, InUse;
    hide Outdated, TokenFor;
    CallShape(policy, w);
    var op := CallOf(policy, w).value;
    var next := Step(policy.setup, t, op);
    CallKeepsTables(policy, t, w);
    CallHasToken(policy, w);
    TokenCallKeepsAttempts(policy.setup, t, op);
    FitsIsIssued(t, policy.maxAttempts, w);
    IssuedAfter(t, next, w.token);
    var moved := AfterCall(t, Attempted(policy.setup, t, op), w);
    if Attempted(policy.setup, t, op).Some? {
      GrantedIsTheStep(policy.setup, t, op);
      CallEnds(policy.setup, t, op);
      if w.phase.Caching? && next == t {
        CountingFits(t, policy.maxAttempts, w, w.phase.route);
      } else {
        ReturnedFits(next, policy.maxAttempts, moved);
      }
    } else {
      RefusedChangesNothing(policy.setup, t, op);
      if w.phase.Pausing? {
        RaisedPauseIsNotHeld(policy.setup, t, w.token, policy.now);
      }
      ReturnedFits(t, policy.maxAttempts, moved);
    }
  }

  lemma ResumeFits(policy: Policy, t: Tables, w: Worker)
    requires Inv(t) && RoutesBounded(t.attempts, policy.maxAttempts) && WorkerFits(t, policy.maxAttempts, w)
    requires w.phase.Resuming?
    ensures CallOf(policy, w).Some?
    ensures var op := CallOf(policy, w).value;
            GoodMove(policy, t, w, Step(policy.setup, t, op), AfterCall(t, Attempted(policy.setup, t, op), w))
  {
    hide Inv, RoutesBounded, WorkerFits, CallOf, RowsAdvance, Attempted, Step, Issued, Held, Matches, PhaseFits, InUse;
    hide Outdated, TokenFor, TokenOf;
    CallShape(policy, w);
    var op := CallOf(policy, w).value;
    var next := Step(policy.setup, t, op);
    CallKeepsTables(policy, t, w);
    CallHasToken(policy, w);
    TokenCallKeepsAttempts(policy.setup, t, op);
    FitsIsIssued(t, policy.maxAttempts, w);
    IssuedAfter(t, next, w.token);
    if Attempted(policy.setup, t, op).Some? {
      GrantedIsTheStep(policy.setup, t, op);
      CallEnds(policy.setup, t, op);
      ResumedFits(policy, t, w, next);
    } else {
      RefusedChangesNothing(policy.setup, t, op);
      ReturnedFits(t, policy.maxAttempts, w.(phase := Pausing));
    }
  }

  /** The resumed claim's new token has never been issued, and its worker knows what it knew. */
  lemma ResumedFits(policy: Policy, t: Tables, w: Worker, next: Tables)
    requires Inv(t) && w.phase.Resuming? && CallOf(policy, w).Some?
    requires Attempted(policy.setup, t, CallOf(policy, w).value) == Some(next)
    requires PhaseFits(t.attempts, policy.maxAttempts, w.token.partId, w.phase)
    ensures w.token.partId in next.parts
    ensures var token := TokenOf(next.parts[w.token.partId]);
            && token.partId == w.token.partId && !Issued(t, token)
            && WorkerFits(next, policy.maxAttempts,
                          w.(token := token, phase := Working(w.phase.route, w.phase.attempt, w.phase.routeAttempt)))
  {
    assert w.token.partId in t.parts;
    FiledParts(t, w.token.partId);
    hide Inv, InvBut, Numbered;
  }

  lemma FiledParts(t: Tables, part: string)
    requires Inv(t) && part in t.parts
    ensures t.parts[part].plan.partId == part
  {
    InvParts(t);
  }

  lemma RecordFits(policy: Policy, t: Tables, w: Worker)
    requires Inv(t) && RoutesBounded(t.attempts, policy.maxAttempts) && WorkerFits(t, policy.maxAttempts, w)
    requires w.phase.Recording?
    ensures CallOf(policy, w).Some?
    ensures var op := CallOf(policy, w).value;
            GoodMove(policy, t, w, Step(policy.setup, t, op), AfterCall(t, Attempted(policy.setup, t, op), w))
  {
    hide Inv, RoutesBounded, WorkerFits, CallOf, RowsAdvance, Attempted, Step, Issued, Held, Matches, PhaseFits, InUse;
    hide Outdated, TokenFor, TokenOf;
    CallShape(policy, w);
    var op := CallOf(policy, w).value;
    var next := Step(policy.setup, t, op);
    CallKeepsTables(policy, t, w);
    CallHasToken(policy, w);
    FitsIsIssued(t, policy.maxAttempts, w);
    IssuedAfter(t, next, w.token);
    if Attempted(policy.setup, t, op).Some? {
      GrantedIsTheStep(policy.setup, t, op);
      CallEnds(policy.setup, t, op);
      RecordedAttempts(policy, t, w);
      if w.phase.again {
        WaitingFits(next, policy.maxAttempts,
                    w.(phase := Waiting(w.phase.route, w.phase.attempt, w.phase.routeAttempt)));
      } else {
        ReturnedFits(next, policy.maxAttempts, w.(phase := Returned(w.phase.outcome)));
      }
    } else {
      RefusedChangesNothing(policy.setup, t, op);
      ReturnedFits(t, policy.maxAttempts, w.(phase := Pausing));
    }
  }

  lemma WaitingFits(t: Tables, maxAttempts: nat, w: Worker)
    requires Issued(t, w.token) && !Held(t, w.token) && w.phase.Waiting?
    requires PhaseFits(t.attempts, maxAttempts, w.token.partId, w.phase)
    ensures WorkerFits(t, maxAttempts, w)
  {}

  /** Recording an attempt keeps its route bounded, and its number stays the highest. */
  lemma RecordedAttempts(policy: Policy, t: Tables, w: Worker)
    requires RoutesBounded(t.attempts, policy.maxAttempts) && w.phase.Recording? && Matches(t, w.token)
    requires PhaseFits(t.attempts, policy.maxAttempts, w.token.partId, w.phase)
    requires Attempted(policy.setup, t, CallOf(policy, w).value).Some?
    ensures var after := Step(policy.setup, t, CallOf(policy, w).value).attempts;
            && RoutesBounded(after, policy.maxAttempts)
            && (w.phase.again ==> PhaseFits(after, policy.maxAttempts, w.token.partId,
                                            Waiting(w.phase.route, w.phase.attempt, w.phase.routeAttempt)))
  {
    var part, n := w.token.partId, w.phase.attempt;
    var attempt := Attempt(w.phase.route, w.phase.outcome, Some(w.phase.code));
    var after := t.attempts[(part, n) := attempt];
    RecordAddsOne(policy, t, w);
    hide RouteCount, Attempted, Step, CallOf;
    forall p, route | route != UNAVAILABLE
      ensures RouteCount(after, p, route) <= policy.maxAttempts
    {
      OneMoreAttempt(t.attempts, part, n, attempt, p, route);
      assert RouteCount(t.attempts, p, route) <= policy.maxAttempts;
    }
    OneMoreAttempt(t.attempts, part, n, attempt, part, w.phase.route);
  }

  lemma RecordAddsOne(policy: Policy, t: Tables, w: Worker)
    requires w.phase.Recording? && Attempted(policy.setup, t, CallOf(policy, w).value).Some?
    ensures var attempt := Attempt(w.phase.route, w.phase.outcome, Some(w.phase.code));
            && (w.token.partId, w.phase.attempt) !in t.attempts
            && Step(policy.setup, t, CallOf(policy, w).value).attempts
               == t.attempts[(w.token.partId, w.phase.attempt) := attempt]
  {}

  lemma MoveFits(policy: Policy, t: Tables, w: Worker, choice: Choice)
    requires Inv(t) && RoutesBounded(t.attempts, policy.maxAttempts) && WorkerFits(t, policy.maxAttempts, w)
    ensures var moved := Move(policy, t, w, choice); GoodMove(policy, t, w, moved.0, moved.1)
  {
    hide Inv, RoutesBounded, WorkerFits, CallOf, RowsAdvance, Attempted, Step, AfterCall, Look, Issued;
    if CallOf(policy, w).None? {
      LookFits(policy, t, w, choice);
      NothingAdvances(t);
    } else if choice.Fail? && w.phase.Caching? {
      FitsIsIssued(t, policy.maxAttempts, w);
      ReturnedFits(t, policy.maxAttempts, w.(phase := Pausing));
      NothingAdvances(t);
    } else if w.phase.Recording? {
      RecordFits(policy, t, w);
    } else if w.phase.Resuming? {
      ResumeFits(policy, t, w);
    } else {
      OnlyCalls(policy, w);
      PlainCallFits(policy, t, w);
    }
  }

  lemma OnlyCalls(policy: Policy, w: Worker)
    requires CallOf(policy, w).Some?
    ensures || w.phase.Caching? || w.phase.Exhausting? || w.phase.Publishing? || w.phase.Pausing?
            || w.phase.Resuming? || w.phase.Recording?
  {}

  lemma NothingAdvances(t: Tables)
    ensures RowsAdvance(t, t)
  {}

  // ---------------------------------------------------------------- all workers together

  /** A move changes the attempts of the mover's part only, and those only under a token that matches. */
  predicate OwnAttempts(t: Tables, next: Tables, token: Token) {
    && next.parts.Keys == t.parts.Keys
    && (next.attempts == t.attempts || Matches(t, token))
    && forall k | k in t.attempts.Keys + next.attempts.Keys :: k.0 != token.partId ==>
         k in t.attempts && k in next.attempts && t.attempts[k] == next.attempts[k]
  }

  lemma MoveIsOwn(policy: Policy, t: Tables, w: Worker, choice: Choice)
    ensures OwnAttempts(t, Move(policy, t, w, choice).0, w.token)
  {
    var call := CallOf(policy, w);
    hide Look, AfterCall;
    if call.Some? {
      CallHasToken(policy, w);
      TokenCallIsOwn(policy.setup, t, call.value, w.token);
    }
    hide Step, CallOf;
  }

  lemma TokenCallIsOwn(setup: Setup, t: Tables, op: Operation, token: Token)
    requires TokenFor(op) == Some(token)
    ensures OwnAttempts(t, Step(setup, t, op), token)
  {
    TokenCallKeepsRows(setup, t, op);
    if !op.RecordAttempt? {
      TokenCallKeepsAttempts(setup, t, op);
      hide Step;
    }
  }

  /** The workers that are not moving keep what they know. */
  lemma OthersWatch(policy: Policy, t: Tables, next: Tables, w: Worker, other: Worker)
    requires WorkerFits(t, policy.maxAttempts, other) && RowsAdvance(t, next) && OwnAttempts(t, next, w.token)
    requires other.token != w.token
    ensures WorkerFits(next, policy.maxAttempts, other)
  {
    WorkerIssued(t, policy.maxAttempts, other);
    hide WorkerFits, RowsAdvance;
    if Matches(t, other.token) && next.attempts != t.attempts {
      assert other.token.partId == w.token.partId ==> other.token == w.token;
      assert SameAttempts(t.attempts, next.attempts, other.token.partId);
    }
    WorkerStays(t, next, policy.maxAttempts, other);
  }

  lemma MovesKeepInv(policy: Policy, s: System, claim: Token, choice: Choice, now: int)
    requires SystemInv(policy, s) && claim in s.workers
    ensures SystemInv(policy, Happens(policy, s, Moves(claim, choice, now)))
  {
    var at := policy.(now := now);
    hide Inv, RoutesBounded, WorkerFits, Move, RowsAdvance, OwnAttempts, Issued;
    var t, w := s.tables, s.workers[claim];
    var moved := Move(at, t, w, choice);
    MoveFits(at, t, w, choice);
    MoveIsOwn(at, t, w, choice);
    var next := Happens(policy, s, Moves(claim, choice, now));
    forall k | k in next.workers
      ensures k.partId == next.workers[k].token.partId && Issued(moved.0, k)
      ensures WorkerFits(moved.0, policy.maxAttempts, next.workers[k])
    {
      OwnKeepsIssued(t, moved.0, w.token, k);
      if k != claim {
        OthersWatch(policy, t, moved.0, w, s.workers[k]);
      }
    }
    forall j | j in s.workers && j != claim
      ensures s.workers[j].token != moved.1.token
    {
      FitsIsIssued(t, policy.maxAttempts, s.workers[j]);
    }
  }

  lemma OwnKeepsIssued(t: Tables, next: Tables, token: Token, k: Token)
    requires Issued(t, k) && RowsAdvance(t, next) && OwnAttempts(t, next, token)
    ensures Issued(next, k)
  {
    IssuedAfter(t, next, k);
  }

  lemma ClaimsKeepInv(policy: Policy, s: System, e: Event)
    requires SystemInv(policy, s) && e.Claims?
    ensures SystemInv(policy, Happens(policy, s, e))
  {
    var op := Claim(e.workspaceId, e.revisionId, e.now, e.chosen);
    var t, next := s.tables, Step(policy.setup, s.tables, op);
    var granted := Attempted(policy.setup, t, op).Some? && Current(t, e.workspaceId, e.revisionId);
    StepKeepsInv(policy.setup, t, op);
    StepAdvances(policy.setup, t, op);
    StepKeepsAttempts(policy.setup, t, op);
    FewerAttempts(t.attempts, next.attempts, policy.maxAttempts);
    ClaimKeepsRows(policy.setup, t, op);
    assert forall k | k in s.workers :: k.partId in next.parts by {
      forall k | k in s.workers ensures k.partId in next.parts { WorkerIssued(t, policy.maxAttempts, s.workers[k]); }
    }
    OthersStay(t, next, policy.maxAttempts, s.workers);
    if granted {
      NewWorkersFit(policy, t, next, e.chosen, s.workers);
    }
    hide Inv, RoutesBounded, WorkersFit, Step, Attempted, NewWorkers;
  }

  lemma ClaimKeepsRows(setup: Setup, t: Tables, op: Operation)
    requires op.Claim?
    ensures Step(setup, t, op).parts.Keys == t.parts.Keys
    ensures Attempted(setup, t, op).Some? && Current(t, op.workspaceId, op.revisionId) ==>
              forall p | p in op.chosen :: p in t.parts &&
                Step(setup, t, op).parts[p].claimGeneration == t.parts[p].claimGeneration + 1
  {}

  lemma NewWorkersFit(policy: Policy, t: Tables, next: Tables, chosen: set<string>, workers: map<Token, Worker>)
    requires WorkersFit(t, policy.maxAttempts, workers) && WorkersFit(next, policy.maxAttempts, workers)
    requires next.parts.Keys == t.parts.Keys
    requires forall p | p in chosen :: p in t.parts && next.parts[p].claimGeneration == t.parts[p].claimGeneration + 1
    ensures WorkersFit(next, policy.maxAttempts, workers + NewWorkers(next, chosen))
  {
    hide WorkerFits, WorkersFit, NewWorkers;
    NewNames(next, chosen);
    var started := NewWorkers(next, chosen);
    forall k | k in workers
      ensures forall p | p in chosen :: k != TokenAt(next, p) && workers[k].token != TokenAt(next, p)
    {
      OldTokensDiffer(policy.maxAttempts, t, next, chosen, workers, k);
    }
    forall k | k in started
      ensures Issued(next, k) && WorkerFits(next, policy.maxAttempts, started[k])
    {
      StartingFits(next, policy.maxAttempts, started[k].plan, k.partId);
    }
    TwoCrewsFit(policy.maxAttempts, next, workers, started);
  }

  /** Each new worker is filed under the token its part has now. */
  lemma NewNames(t: Tables, chosen: set<string>)
    requires forall p | p in chosen :: p in t.parts
    ensures var started := NewWorkers(t, chosen);
            forall k | k in started ::
              && k.partId in chosen && k == TokenAt(t, k.partId) && started[k].token == k
              && started[k] == Worker(t.parts[k.partId].plan, k, Starting)
  {}

  lemma OldTokensDiffer(maxAttempts: nat, t: Tables, next: Tables, chosen: set<string>, workers: map<Token, Worker>,
                        k: Token)
    requires WorkersFit(t, maxAttempts, workers) && k in workers && next.parts.Keys == t.parts.Keys
    requires forall p | p in chosen :: p in t.parts && next.parts[p].claimGeneration == t.parts[p].claimGeneration + 1
    ensures forall p | p in chosen :: k != TokenAt(next, p) && workers[k].token != TokenAt(next, p)
  {
    hide WorkerFits;
    FitsIsIssued(t, maxAttempts, workers[k]);
  }

  lemma TwoCrewsFit(maxAttempts: nat, t: Tables, a: map<Token, Worker>, b: map<Token, Worker>)
    requires WorkersFit(t, maxAttempts, a)
    requires forall k | k in b :: b[k].token == k && Issued(t, k) && WorkerFits(t, maxAttempts, b[k])
    requires forall j, k | j in a && k in b :: j != k && a[j].token != k
    ensures WorkersFit(t, maxAttempts, a + b)
  {
    hide WorkerFits, Issued;
  }

  lemma StartingFits(t: Tables, maxAttempts: nat, plan: Plan, p: string)
    requires p in t.parts
    ensures WorkerFits(t, maxAttempts, Worker(plan, TokenAt(t, p), Starting)) && Issued(t, TokenAt(t, p))
  {}

  lemma OtherKeepsInv(policy: Policy, s: System, op: Operation)
    requires SystemInv(policy, s) && Allowed(policy, s, Other(op))
    ensures SystemInv(policy, Happens(policy, s, Other(op)))
  {
    var t, next := s.tables, Step(policy.setup, s.tables, op);
    assert !op.RecordAttempt? by { assert TokenFor(op).None?; }
    StepKeepsInv(policy.setup, t, op);
    StepAdvances(policy.setup, t, op);
    StepKeepsAttempts(policy.setup, t, op);
    FewerAttempts(t.attempts, next.attempts, policy.maxAttempts);
    forall k | k in s.workers ensures k.partId in next.parts { WorkerIssued(t, policy.maxAttempts, s.workers[k]); }
    OthersStay(t, next, policy.maxAttempts, s.workers);
    hide Inv, RoutesBounded, WorkersFit, Step;
  }

  lemma EventKeepsInv(policy: Policy, s: System, e: Event)
    requires SystemInv(policy, s) && Allowed(policy, s, e)
    ensures SystemInv(policy, Happens(policy, s, e))
  {
    match e
    case Claims(_, _, _, _) => ClaimsKeepInv(policy, s, e);
    case Moves(claim, choice, now) => if claim in s.workers { MovesKeepInv(policy, s, claim, choice, now); }
    case Collects(claim) => FewerWorkersFit(policy, s, claim);
    case Other(op) => OtherKeepsInv(policy, s, op);
    case Crash => hide Inv, RoutesBounded, WorkerFits;
  }

  lemma FewerWorkersFit(policy: Policy, s: System, claim: Token)
    requires SystemInv(policy, s)
    ensures SystemInv(policy, s.(workers := s.workers - {claim})) && SystemInv(policy, s)
  {
    hide Inv, RoutesBounded, WorkerFits;
  }

  function StartOf(t: Tables): System {
    System(t, map[])
  }

  /** Whatever happens in whatever order, the invariant holds. */
  lemma {:induction false} RunsKeepInv(policy: Policy, t: Tables, events: seq<Event>)
    requires Inv(t) && RoutesBounded(t.attempts, policy.maxAttempts) && AllAllowed(policy, StartOf(t), events)
    ensures SystemInv(policy, Runs(policy, StartOf(t), events))
    decreases |events|
  {
    hide Inv, RoutesBounded, WorkerFits, Happens, Allowed;
    if events != [] {
      RunsKeepInv(policy, t, events[..|events| - 1]);
      hide SystemInv;
      EventKeepsInv(policy, Runs(policy, StartOf(t), events[..|events| - 1]), events[|events| - 1]);
    }
  }

  // ---------------------------------------------------------------- what follows

  /** A real route never has more attempts than the policy allows, under any interleaving. */
  lemma AttemptsPerRouteAreBounded(policy: Policy, t: Tables, events: seq<Event>, part: string, route: string)
    requires Inv(t) && t.attempts == map[] && AllAllowed(policy, StartOf(t), events) && route != UNAVAILABLE
    ensures RouteCount(Runs(policy, StartOf(t), events).tables.attempts, part, route) <= policy.maxAttempts
  {
    hide Inv, WorkerFits, Runs, AllAllowed, WorkersFit;
    assert RoutesBounded(t.attempts, policy.maxAttempts) by {
      forall p, r ensures RouteCount(t.attempts, p, r) == 0 { assert AttemptsOn(t.attempts, p, r) == {}; }
    }
    RunsKeepInv(policy, t, events);
  }

  /** An attempt about to be recorded under the running claim has a number above all recorded ones. */
  lemma AttemptNumbersAreFresh(policy: Policy, s: System, claim: Token)
    requires SystemInv(policy, s) && claim in s.workers && s.workers[claim].phase.Recording?
    requires Held(s.tables, s.workers[claim].token)
    ensures var w := s.workers[claim];
            && Below(s.tables.attempts, w.token.partId, w.phase.attempt)
            && (w.token.partId, w.phase.attempt) !in s.tables.attempts
  {
    hide Inv, RoutesBounded, RouteCount;
    var w := s.workers[claim];
    assert WorkerFits(s.tables, policy.maxAttempts, w);
  }

  /** A recording is refused only when the claim is lost or the revision is no longer current. */
  lemma RecordingFailsOnlyByFencing(policy: Policy, s: System, claim: Token)
    requires SystemInv(policy, s) && claim in s.workers && s.workers[claim].phase.Recording?
    requires Attempted(policy.setup, s.tables, CallOf(policy, s.workers[claim]).value).None?
    ensures var token := s.workers[claim].token;
            !Held(s.tables, token) || !PartIsCurrent(s.tables, token.partId)
  {
    if Held(s.tables, s.workers[claim].token) {
      AttemptNumbersAreFresh(policy, s, claim);
      assert WorkerFits(s.tables, policy.maxAttempts, s.workers[claim]);
      hide SystemInv, RouteCount;
    }
  }

  /** A worker that has returned leaves no part running under its claim. */
  lemma NothingIsStranded(policy: Policy, s: System, claim: Token)
    requires SystemInv(policy, s) && claim in s.workers && s.workers[claim].phase.Returned?
    ensures !Held(s.tables, s.workers[claim].token)
  {
    hide Inv, RoutesBounded;
    assert WorkerFits(s.tables, policy.maxAttempts, s.workers[claim]);
  }

  /** How far along a phase is within one attempt. */
  function PhaseRank(phase: Phase): nat {
    match phase
    case Starting => 9
    case NoRoute(_) => 8
    case Caching(_) => 8
    case Counting(_) => 7
    case CountingRoute(_, _) => 6
    case Working(_, _, _) => 5
    case Publishing(_, _, _, _) => 4
    case Recording(_, _, _, _, _, _) => 4
    case Waiting(_, _, _) => 3
    case Resuming(_, _, _) => 6
    case Exhausting => 4
    case Pausing => 1
    case Returned(_) => 0
  }

  /** The attempts a worker may still make on its route, counting the one it is at. */
  function AttemptsLeft(maxAttempts: nat, phase: Phase): nat {
    match phase
    case Working(_, _, n) => if n <= maxAttempts then maxAttempts + 1 - n else 0
    case Publishing(_, _, n, _) => if n <= maxAttempts then maxAttempts + 1 - n else 0
    case Recording(_, _, n, _, _, _) => if n <= maxAttempts then maxAttempts + 1 - n else 0
    case Waiting(_, _, n) => if n <= maxAttempts then maxAttempts + 1 - n else 0
    case Resuming(_, _, n) => if n <= maxAttempts then maxAttempts + 1 - n else 0
    case Pausing => 0
    case Returned(_) => 0
    case Exhausting => 0
    case _ => maxAttempts + 1
  }

  function WorkLeft(maxAttempts: nat, w: Worker): nat {
    10 * AttemptsLeft(maxAttempts, w.phase) + PhaseRank(w.phase)
  }

  /** The retry loop's own bound, which needs no token: it is kept by the loop's guard. */
  predicate WithinBound(maxAttempts: nat, phase: Phase) {
    match phase
    case Working(_, _, n) => n <= maxAttempts
    case Publishing(_, _, n, _) => n <= maxAttempts
    case Recording(route, _, n, _, _, again) => n <= maxAttempts && (again ==> n < maxAttempts)
    case Waiting(_, _, n) => n < maxAttempts
    case Resuming(_, _, n) => n <= maxAttempts
    case _ => true
  }

  /** Every worker returns: each of its moves, whatever the others do and the provider says, leaves it less to do. */
  lemma EveryMoveIsProgress(policy: Policy, t: Tables, w: Worker, choice: Choice)
    requires WithinBound(policy.maxAttempts, w.phase)
    ensures var moved := Move(policy, t, w, choice).1;
            && WithinBound(policy.maxAttempts, moved.phase)
            && (!w.phase.Returned? ==> WorkLeft(policy.maxAttempts, moved) < WorkLeft(policy.maxAttempts, w))
            && (w.phase.Returned? ==> moved == w)
  {
    hide Step, Attempted, RouteCount, TokenOf;
    if CallOf(policy, w).None? {
      LookIsProgress(policy, t, w, choice);
    } else {
      CallIsProgress(policy, t, w, Attempted(policy.setup, t, CallOf(policy, w).value));
    }
    hide Look, AfterCall, WorkLeft, CallOf, WithinBound;
    if w.phase.Caching? {
      PausingIsProgress(policy.maxAttempts, w);
    }
  }

  lemma LookIsProgress(policy: Policy, t: Tables, w: Worker, choice: Choice)
    requires WithinBound(policy.maxAttempts, w.phase) && CallOf(policy, w).None?
    ensures var moved := w.(phase := Look(policy, t, w, choice));
            && WithinBound(policy.maxAttempts, moved.phase)
            && (!w.phase.Returned? ==> WorkLeft(policy.maxAttempts, moved) < WorkLeft(policy.maxAttempts, w))
            && (w.phase.Returned? ==> moved == w)
  {
    hide RouteCount;
  }

  lemma CallIsProgress(policy: Policy, t: Tables, w: Worker, next: Option<Tables>)
    requires WithinBound(policy.maxAttempts, w.phase) && CallOf(policy, w).Some?
    ensures var moved := AfterCall(t, next, w);
            && !w.phase.Returned? && WithinBound(policy.maxAttempts, moved.phase)
            && WorkLeft(policy.maxAttempts, moved) < WorkLeft(policy.maxAttempts, w)
  {
    hide TokenOf;
  }

  lemma PausingIsProgress(maxAttempts: nat, w: Worker)
    requires w.phase.Caching?
    ensures WithinBound(maxAttempts, Pausing) && WorkLeft(maxAttempts, w.(phase := Pausing)) < WorkLeft(maxAttempts, w)
  {}
}
