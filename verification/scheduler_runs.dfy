/** One frontier of workers run to its end in any interleaving, and frontiers run until nothing is pending. */
module SchedulerRuns {
  import opened Outcomes
  import opened EvidenceTables
  import opened EvidenceInvariant
  import opened EvidenceFacts
  import opened EvidenceRules
  import opened EvidenceStore
  import opened Scheduler

  datatype Status = Complete | Paused

  datatype Outcome = Outcome(status: Status, processed: seq<string>, failed: seq<string>, pending: nat)

  predicate Terminal(state: PartState) {
    state == Processed || state == Failed || state == Invalidated
  }

  /** The revision's parts that are not done with. */
  function PendingParts(t: Tables, workspaceId: string, revisionId: string): set<string> {
    set p | p in t.parts
      && t.parts[p].plan.workspaceId == workspaceId && t.parts[p].plan.revisionId == revisionId
      && !Terminal(t.parts[p].state)
  }

  // ---------------------------------------------------------------- a frontier with nobody else about

  /** The state a worker's part is in, by what the worker does next; in the end it is the one reported. */
  predicate PhaseHolds(phase: Phase, state: PartState) {
    match phase
    case Returned(result) => state == result
    case Waiting(_, _, _) => state == RetryWait
    case Resuming(_, _, _) => state == RetryWait
    case Pausing => state == Running || state == RetryWait
    case _ => state == Running
  }

  /** Two tables that differ in one part's row only, and not in its plan. */
  predicate OneRowDiffers(t: Tables, next: Tables, part: string) {
    && part in t.parts && part in next.parts && next.parts == t.parts[part := next.parts[part]]
    && next.parts[part].plan == t.parts[part].plan
  }

  lemma AloneCall(setup: Setup, t: Tables, op: Operation, token: Token)
    requires TokenFor(op) == Some(token) && Matches(t, token)
    ensures var next := Step(setup, t, op);
            && OneRowDiffers(t, next, token.partId)
            && (!op.Resume? ==> Matches(next, token))
            && (op.Reuse? && next != t ==> next.parts[token.partId].state == Processed)
            && (op.Publish? && Attempted(setup, t, op).Some? ==> next.parts[token.partId].state == Processed)
            && (op.FailExhausted? && Attempted(setup, t, op).Some? ==> next.parts[token.partId].state == Failed)
            && (op.RecordAttempt? && Attempted(setup, t, op).Some? ==>
                next.parts[token.partId].state == op.attempt.outcome)
            && (op.Resume? && Attempted(setup, t, op).Some? ==> next.parts[token.partId].state == Running)
            && (op.Pause? && Attempted(setup, t, op).Some? ==> next.parts[token.partId].state == RetryWait)
            && (op.Pause? && Attempted(setup, t, op).None? ==> t.parts[token.partId].state != Running)
            && (Attempted(setup, t, op).None? ==> next == t)
  {
    hide CacheFits, Readdressed, CitationsInside, CachedUnit, AlreadyPublished;
  }

  lemma LookHolds(policy: Policy, t: Tables, w: Worker, choice: Choice)
    requires CallOf(policy, w).None? && w.token.partId in t.parts
    requires PhaseHolds(w.phase, t.parts[w.token.partId].state)
    ensures PhaseHolds(Look(policy, t, w, choice), t.parts[w.token.partId].state)
  {
    hide RouteCount;
  }

  /** What a worker makes of the end of its call. */
  lemma AfterCallShape(policy: Policy, t: Tables, next: Option<Tables>, w: Worker, before: PartState, after: PartState)
    requires CallOf(policy, w).Some? && PhaseHolds(w.phase, before)
    requires w.phase.Resuming? && next.Some? ==> w.token.partId in next.value.parts
    requires next.None? ==> after == before && (w.phase.Pausing? ==> before != Running)
    requires next.Some? ==>
               match w.phase
               case Caching(_) => after == if next.value == t then before else Processed
               case Exhausting => after == Failed
               case Publishing(_, _, _, _) => after == Processed
               case Recording(_, _, _, outcome, _, again) => after == outcome && (again ==> outcome == RetryWait)
               case Resuming(_, _, _) => after == Running
               case _ => after == RetryWait
    ensures var moved := AfterCall(t, next, w);
            && moved.token == (if w.phase.Resuming? && next.Some? then TokenOf(next.value.parts[w.token.partId])
                               else w.token)
            && PhaseHolds(moved.phase, after)
  {
    OnlyCalls(policy, w);
    hide CallOf;
  }

  lemma SameRows(t: Tables, part: string)
    requires part in t.parts
    ensures OneRowDiffers(t, t, part)
  {}

  lemma AloneCallMove(policy: Policy, t: Tables, w: Worker, op: Operation)
    requires Inv(t) && Matches(t, w.token) && ResultKnown(w.phase) && CallOf(policy, w) == Some(op)
    requires PhaseHolds(w.phase, t.parts[w.token.partId].state)
    ensures var next, moved := Step(policy.setup, t, op), AfterCall(t, Attempted(policy.setup, t, op), w);
            && OneRowDiffers(t, next, w.token.partId)
            && Matches(next, moved.token) && moved.token.partId == w.token.partId
            && PhaseHolds(moved.phase, next.parts[w.token.partId].state)
  {
    FiledPart(t, w.token.partId);
    RecordsItsOutcome(policy, w);
    hide Inv, Step, Attempted, CallOf, AfterCall, TokenFor, PhaseHolds;
    OnlyCalls(policy, w);
    CallShape(policy, w);
    CallHasToken(policy, w);
    AloneCall(policy.setup, t, op, w.token);
    if Attempted(policy.setup, t, op).Some? {
      GrantedIsTheStep(policy.setup, t, op);
    }
    AfterCallShape(policy, t, Attempted(policy.setup, t, op), w, t.parts[w.token.partId].state,
                   Step(policy.setup, t, op).parts[w.token.partId].state);
  }

  lemma RecordsItsOutcome(policy: Policy, w: Worker)
    ensures w.phase.Recording? ==>
              && CallOf(policy, w).Some? && CallOf(policy, w).value.RecordAttempt?
              && CallOf(policy, w).value.attempt.outcome == w.phase.outcome
  {}

  /** A worker whose token matches changes no row but its part's, and its token goes on matching. */
  lemma AloneMove(policy: Policy, t: Tables, w: Worker, choice: Choice)
    requires Inv(t) && Matches(t, w.token) && ResultKnown(w.phase)
    requires PhaseHolds(w.phase, t.parts[w.token.partId].state)
    ensures var moved := Move(policy, t, w, choice);
            && OneRowDiffers(t, moved.0, w.token.partId)
            && Matches(moved.0, moved.1.token) && moved.1.token.partId == w.token.partId
            && PhaseHolds(moved.1.phase, moved.0.parts[w.token.partId].state)
  {
    SameRows(t, w.token.partId);
    hide Inv, Step, Attempted, CallOf, AfterCall, Look, ResultKnown, OneRowDiffers;
    var call := CallOf(policy, w);
    if call.Some? {
      AloneCallMove(policy, t, w, call.value);
    } else {
      LookHolds(policy, t, w, choice);
    }
  }

  /** The workers are those of the claims, one a part. */
  ghost predicate Manned(workers: map<Token, Worker>, claims: seq<Token>) {
    && (forall c | c in claims :: c in workers) && (forall c | c in workers :: c in claims)
    && forall i, j | 0 <= i < j < |claims| :: claims[i].partId != claims[j].partId
  }

  /** Only claimed parts' rows changed, and no plan. */
  predicate OnlyClaimedChange(start: map<string, PartRow>, parts: map<string, PartRow>, claims: seq<Token>) {
    && parts.Keys == start.Keys
    && (forall p | p in start :: parts[p].plan == start[p].plan)
    && forall p | p in start && (forall c | c in claims :: c.partId != p) :: parts[p] == start[p]
  }

  /** Each worker's token matches, and what it reports of its part is so. */
  predicate WorkersAlone(t: Tables, workers: map<Token, Worker>) {
    forall c | c in workers ::
      && Matches(t, workers[c].token) && c.partId == workers[c].token.partId && c.partId in t.parts
      && PhaseHolds(workers[c].phase, t.parts[c.partId].state)
  }

  /** The workers of one frontier, in the order of their claims. */
  ghost predicate Frontier(start: Tables, t: Tables, workers: map<Token, Worker>, claims: seq<Token>) {
    Manned(workers, claims) && OnlyClaimedChange(start.parts, t.parts, claims) && WorkersAlone(t, workers)
  }

  /** The results a worker can return. */
  predicate ResultKnown(phase: Phase) {
    && (phase.Returned? ==> phase.result in {Processed, Failed, RetryWait})
    && (phase.Recording? ==>
          phase.outcome == RetryWait || (phase.outcome == Failed && !phase.again))
  }

  lemma MoveKeepsFrontier(policy: Policy, start: Tables, s: System, claims: seq<Token>, claim: Token, choice: Choice,
                          now: int)
    requires SystemInv(policy, s) && Frontier(start, s.tables, s.workers, claims) && claim in s.workers
    requires !s.workers[claim].phase.Returned? && ResultKnown(s.workers[claim].phase)
    ensures var next := Happens(policy, s, Moves(claim, choice, now));
            && Frontier(start, next.tables, next.workers, claims)
            && claim in next.workers && next.workers == s.workers[claim := next.workers[claim]]
            && next.workers[claim] == Move(policy.(now := now), s.tables, s.workers[claim], choice).1
  {
    hide Inv, RoutesBounded, WorkersFit, Move, Matches, Manned, OnlyClaimedChange;
    AloneMove(policy.(now := now), s.tables, s.workers[claim], choice);
    var moved := Move(policy.(now := now), s.tables, s.workers[claim], choice);
    WorkersStayAlone(s.tables, moved.0, s.workers, claims, claim, moved.1);
    StillManned(s.workers, claims, claim, moved.1);
    ChangeStaysClaimed(start.parts, s.tables.parts, moved.0.parts, claims, claim, s.workers);
  }

  lemma WorkersStayAlone(t: Tables, next: Tables, workers: map<Token, Worker>, claims: seq<Token>, claim: Token,
                         w: Worker)
    requires WorkersAlone(t, workers) && Manned(workers, claims) && claim in workers
    requires OneRowDiffers(t, next, claim.partId) && Matches(next, w.token) && w.token.partId == claim.partId
    requires PhaseHolds(w.phase, next.parts[claim.partId].state)
    ensures WorkersAlone(next, workers[claim := w])
  {
    forall c | c in workers && c != claim
      ensures c.partId != claim.partId
    {
      var i :| 0 <= i < |claims| && claims[i] == c;
      var j :| 0 <= j < |claims| && claims[j] == claim;
    }
  }

  lemma StillManned(workers: map<Token, Worker>, claims: seq<Token>, claim: Token, w: Worker)
    requires Manned(workers, claims) && claim in workers
    ensures Manned(workers[claim := w], claims)
  {}

  lemma ChangeStaysClaimed(start: map<string, PartRow>, parts: map<string, PartRow>, next: map<string, PartRow>,
                           claims: seq<Token>, claim: Token, workers: map<Token, Worker>)
    requires OnlyClaimedChange(start, parts, claims) && Manned(workers, claims) && claim in workers
    requires claim.partId in parts && claim.partId in next && next == parts[claim.partId := next[claim.partId]]
    requires next[claim.partId].plan == parts[claim.partId].plan
    ensures OnlyClaimedChange(start, next, claims)
  {}

  lemma MoveKeepsResultKnown(policy: Policy, t: Tables, w: Worker, choice: Choice)
    requires ResultKnown(w.phase)
    ensures ResultKnown(Move(policy, t, w, choice).1.phase)
  {
    hide Step, Attempted, RouteCount;
  }

  // ---------------------------------------------------------------- rows deleted under their workers

  /** Calls made by others take no worker's token; they may delete the rows of parts under way. */
  predicate Lenient(e: Event) {
    e.Other? ==> InUse(e.op) && TokenFor(e.op).None? && !e.op.Claim?
  }

  /** What holds whether rows are deleted under their workers or not. */
  predicate Survives(maxAttempts: nat, s: System) {
    && Inv(s.tables)
    && forall k | k in s.workers :: ResultKnown(s.workers[k].phase) && WithinBound(maxAttempts, s.workers[k].phase)
  }

  lemma LenientEventSurvives(policy: Policy, s: System, e: Event)
    requires Survives(policy.maxAttempts, s) && Lenient(e)
    ensures Survives(policy.maxAttempts, Happens(policy, s, e))
  {
    hide Inv, InUse, Step, Attempted, ResultKnown, WithinBound;
    match e
    case Claims(w, r, now, chosen) =>
      AnyClaimIsInUse(w, r, now, chosen);
      StepKeepsInv(policy.setup, s.tables, Claim(w, r, now, chosen));
      NewWorkersKnown(policy.maxAttempts, Step(policy.setup, s.tables, Claim(w, r, now, chosen)), chosen);
      hide NewWorkers;
    case Moves(claim, choice, now) =>
      if claim in s.workers {
        var at, w := policy.(now := now), s.workers[claim];
        KnownMoveKeepsInv(at, s.tables, w, choice);
        MoveKeepsResultKnown(at, s.tables, w, choice);
        EveryMoveIsProgress(at, s.tables, w, choice);
        hide Move;
      }
    case Other(op) => StepKeepsInv(policy.setup, s.tables, op);
    case Collects(_) =>
    case Crash =>
  }

  lemma AnyClaimIsInUse(workspaceId: string, revisionId: string, now: int, chosen: set<string>)
    ensures InUse(Claim(workspaceId, revisionId, now, chosen))
  {}

  lemma NewWorkersKnown(maxAttempts: nat, t: Tables, chosen: set<string>)
    ensures forall k | k in NewWorkers(t, chosen) ::
              ResultKnown(NewWorkers(t, chosen)[k].phase) && WithinBound(maxAttempts, NewWorkers(t, chosen)[k].phase)
  {}

  lemma KnownMoveKeepsInv(policy: Policy, t: Tables, w: Worker, choice: Choice)
    requires Inv(t) && ResultKnown(w.phase)
    ensures Inv(Move(policy, t, w, choice).0)
  {
    hide Inv, Step, Attempted;
    if CallOf(policy, w).Some? {
      StepKeepsInv(policy.setup, t, CallOf(policy, w).value);
    }
  }

  predicate AllLenient(events: seq<Event>) {
    forall i | 0 <= i < |events| :: Lenient(events[i])
  }

  /**
   Even if rows are deleted under their workers, which ends the fencing of their claims, the tables stay consistent
   and every worker stays within its bounds, so that each of its moves still leaves it less to do.
   */
  lemma {:induction false} RunsSurvive(policy: Policy, t: Tables, events: seq<Event>)
    requires Inv(t) && AllLenient(events)
    ensures Survives(policy.maxAttempts, Runs(policy, StartOf(t), events))
    decreases |events|
  {
    hide Inv, Happens, Lenient;
    if events != [] {
      RunsSurvive(policy, t, events[..|events| - 1]);
      hide Survives;
      LenientEventSurvives(policy, Runs(policy, StartOf(t), events[..|events| - 1]), events[|events| - 1]);
    }
  }

  // ---------------------------------------------------------------- the work of a frontier

  function TotalLeft(maxAttempts: nat, workers: map<Token, Worker>, claims: seq<Token>): nat
    requires forall c | c in claims :: c in workers
  {
    if claims == [] then 0
    else TotalLeft(maxAttempts, workers, claims[..|claims| - 1]) + WorkLeft(maxAttempts, workers[claims[|claims| - 1]])
  }

  lemma {:induction false} OthersCountTheSame(maxAttempts: nat, workers: map<Token, Worker>, claims: seq<Token>,
                                              claim: Token, w: Worker)
    requires forall c | c in claims :: c in workers
    requires claim !in claims
    ensures TotalLeft(maxAttempts, workers[claim := w], claims) == TotalLeft(maxAttempts, workers, claims)
    decreases |claims|
  {
    hide WorkLeft;
    if claims != [] {
      assert claims[|claims| - 1] in claims;
      OthersCountTheSame(maxAttempts, workers, claims[..|claims| - 1], claim, w);
    }
  }

  lemma {:induction false} ProgressCounts(maxAttempts: nat, workers: map<Token, Worker>, claims: seq<Token>,
                                          i: nat, w: Worker)
    requires (forall c | c in claims :: c in workers) && i < |claims|
    requires forall j, k | 0 <= j < k < |claims| :: claims[j] != claims[k]
    requires WorkLeft(maxAttempts, w) < WorkLeft(maxAttempts, workers[claims[i]])
    ensures TotalLeft(maxAttempts, workers[claims[i] := w], claims) < TotalLeft(maxAttempts, workers, claims)
    decreases |claims|
  {
    hide WorkLeft;
    var front := claims[..|claims| - 1];
    if i == |claims| - 1 {
      OthersCountTheSame(maxAttempts, workers, front, claims[i], w);
    } else {
      assert front[i] == claims[i];
      ProgressCounts(maxAttempts, workers, front, i, w);
    }
  }

  /** When every claimed part was processed, exactly those parts are no longer pending. */
  lemma ProcessedAreNotPending(start: Tables, t: Tables, workers: map<Token, Worker>, claims: seq<Token>,
                               workspaceId: string, revisionId: string)
    requires Frontier(start, t, workers, claims)
    requires forall c | c in workers :: workers[c].phase == Returned(Processed)
    ensures var claimed := set c | c in claims :: c.partId;
            PendingParts(t, workspaceId, revisionId) == PendingParts(start, workspaceId, revisionId) - claimed
  {
    hide Matches;
    var claimed := set c | c in claims :: c.partId;
    forall p | p in start.parts
      ensures p in PendingParts(t, workspaceId, revisionId)
              <==> p in PendingParts(start, workspaceId, revisionId) - claimed
    {
      if c :| c in claims && c.partId == p {
        assert p in claimed && t.parts[p].state == Processed;
      }
    }
  }

  /** The parts the claims are on. */
  function PartIds(claims: seq<Token>): (ids: seq<string>)
    ensures |ids| == |claims| && forall i | 0 <= i < |claims| :: ids[i] == claims[i].partId
  {
    seq(|claims|, i requires 0 <= i < |claims| => claims[i].partId)
  }

  lemma PartIdsAre(claims: seq<Token>)
    ensures Ids(PartIds(claims)) == set c | c in claims :: c.partId
  {
    forall c | c in claims
      ensures c.partId in PartIds(claims)
    {
      var i :| 0 <= i < |claims| && claims[i] == c;
      assert PartIds(claims)[i] == c.partId;
    }
  }

  class EvidenceScheduler {
    const policy: Policy
    const limit: nat
    var system: System

    constructor (policy: Policy, limit: nat, tables: Tables)
      ensures this.policy == policy && this.limit == limit && system == StartOf(tables)
    {
      this.policy, this.limit, system := policy, limit, StartOf(tables);
    }

    /** Claims a frontier, whatever the time is, and starts its workers. */
    method Claimed(workspaceId: string, revisionId: string) returns (claims: seq<Token>, now: int)
      requires SystemInv(policy, system) && system.workers == map[]
      modifies this
      ensures SystemInv(policy, system) && Frontier(old(system.tables), system.tables, system.workers, claims)
      ensures forall c | c in system.workers :: system.workers[c].phase == Starting
      ensures forall c | c in claims :: c.partId in PendingParts(old(system.tables), workspaceId, revisionId)
      ensures PartsClaimed(old(system.tables), system.tables, workspaceId, revisionId, limit, now, PartIds(claims))
      ensures claims == [] ==> system == old(system)
    {
      hide Inv, RoutesBounded, WorkersFit, Eligible, Before, Happens, PartsClaimed;
      InvParts(system.tables);
      claims, now := [], *;
      if !Current(system.tables, workspaceId, revisionId) || limit == 0 {
        EmptyFrontier(system.tables, system.workers);
        EmptyClaim(system.tables, workspaceId, revisionId, limit, now);
        return;
      }
      var taken := Store.SelectParts(system.tables, workspaceId, revisionId, limit, now);
      ghost var t := system.tables;
      TakingFirstIsClaiming(t, workspaceId, revisionId, limit, now, taken);
      if taken == [] {
        EmptyFrontier(system.tables, system.workers);
        NothingStarts(t);
        return;
      }
      var event := Claims(workspaceId, revisionId, now, Ids(taken));
      EventKeepsInv(policy, system, event);
      SelectionGives(t, workspaceId, revisionId, now, taken);
      ClaimStartsFrontier(policy, system, workspaceId, revisionId, now, taken);
      system := Happens(policy, system, event);
      claims := TokensIn(system.tables.parts, taken);
      assert PartIds(claims) == taken;
    }

    /** Runs one frontier to its end, its workers taking turns in any order; a complete one processed all it claimed. */
    method RunFrontier(workspaceId: string, revisionId: string)
      returns (outcome: Outcome, ghost claimed: seq<string>, ghost stopped: bool)
      requires SystemInv(policy, system) && system.workers == map[]
      modifies this
      ensures SystemInv(policy, system) && system.workers == map[]
      ensures system.tables.parts.Keys == old(system.tables.parts).Keys
      ensures forall p | p in system.tables.parts && system.tables.parts[p].state == Running ::
                old(system.tables.parts)[p].state == Running
      ensures forall p | p in old(system.tables.parts) && old(system.tables.parts)[p].state == Processed ::
                system.tables.parts[p] == old(system.tables.parts)[p]
      ensures forall p | p in old(system.tables.parts) && p !in claimed ::
                system.tables.parts[p] == old(system.tables.parts)[p]
      ensures outcome.pending == |PendingParts(system.tables, workspaceId, revisionId)|
      ensures outcome.status == Complete || claimed != [] ==>
                exists t, now :: PartsClaimed(old(system.tables), t, workspaceId, revisionId, limit, now, claimed)
      ensures forall p | p in claimed :: p in PendingParts(old(system.tables), workspaceId, revisionId)
      ensures forall p | p in claimed ::
                p in system.tables.parts && system.tables.parts[p].state in {Processed, Failed, RetryWait}
      ensures ListsThose(outcome.processed, claimed, system.tables.parts, Processed)
      ensures ListsThose(outcome.failed, claimed, system.tables.parts, Failed)
      ensures forall p | p in claimed && system.tables.parts[p].state == RetryWait ::
                p in PendingParts(system.tables, workspaceId, revisionId)
      ensures outcome.status == Complete <==>
                !stopped && if claimed == [] then outcome.pending == 0
                            else forall p | p in claimed :: system.tables.parts[p].state == Processed
      ensures outcome.status == Complete ==>
                && outcome.processed == claimed && outcome.failed == []
                && PendingParts(system.tables, workspaceId, revisionId)
                   == PendingParts(old(system.tables), workspaceId, revisionId) - Ids(claimed)
    {
      hide *;
      claimed := [];
      NoIds();
      ListsNone(system.tables.parts);
      var stop: bool := *;
      stopped := stop;
      if stop {
        outcome := Outcome(Paused, [], [], |PendingParts(system.tables, workspaceId, revisionId)|);
        return;
      }
      ghost var start := system.tables;
      var claims, now := Claimed(workspaceId, revisionId);
      ghost var t := system.tables;
      assert PartsClaimed(start, t, workspaceId, revisionId, limit, now, PartIds(claims));
      if claims == [] {
        var pending := |PendingParts(system.tables, workspaceId, revisionId)|;
        outcome := Outcome(if pending == 0 then Complete else Paused, [], [], pending);
        assert PartIds(claims) == [];
        return;
      }
      StartingWorkers(policy.maxAttempts, system.workers);
      FrontierNames(start, system.tables, system.workers, claims);
      while exists c | c in system.workers :: !system.workers[c].phase.Returned?
        invariant SystemInv(policy, system) && Frontier(start, system.tables, system.workers, claims)
        invariant forall c | c in claims :: c in system.workers
        invariant forall c | c in system.workers ::
                    WithinBound(policy.maxAttempts, system.workers[c].phase) && ResultKnown(system.workers[c].phase)
        decreases TotalLeft(policy.maxAttempts, system.workers, claims)
      {
        var claim :| claim in system.workers && !system.workers[claim].phase.Returned?;
        var choice: Choice, time: int := *, *;
        ghost var s := system;
        TurnIsProgress(policy, start, s, claims, claim, choice, time);
        system := Happens(policy, system, Moves(claim, choice, time));
      }
      claimed := PartIds(claims);
      outcome, stopped := Results(workspaceId, revisionId, claims, start);
    }

    /** The results of the returned workers, in the order of their claims. */
    method Report(claims: seq<Token>) returns (processed: seq<string>, failed: seq<string>, retrying: bool)
      requires forall c | c in claims ::
                 && c in system.workers && c.partId in system.tables.parts
                 && system.workers[c].phase == Returned(system.tables.parts[c.partId].state)
      ensures ListsThose(processed, PartIds(claims), system.tables.parts, Processed)
      ensures ListsThose(failed, PartIds(claims), system.tables.parts, Failed)
      ensures retrying <==> exists c | c in claims :: system.workers[c].phase == Returned(RetryWait)
    {
      hide ListsThose;
      processed, failed, retrying := [], [], false;
      ghost var ids, parts := PartIds(claims), system.tables.parts;
      ListsNone(parts);
      for i := 0 to |claims|
        invariant ListsThose(processed, ids[..i], parts, Processed) && ListsThose(failed, ids[..i], parts, Failed)
        invariant retrying <==> exists c | c in claims[..i] :: system.workers[c].phase == Returned(RetryWait)
      {
        var claim := claims[i];
        assert ids[..i + 1] == ids[..i] + [claim.partId] && claims[..i + 1] == claims[..i] + [claim];
        ListsOneMore(processed, ids[..i], parts, Processed, claim.partId);
        ListsOneMore(failed, ids[..i], parts, Failed, claim.partId);
        var result := system.workers[claim].phase.result;
        if result == Processed { processed := processed + [claim.partId]; }
        if result == Failed { failed := failed + [claim.partId]; }
        if result == RetryWait { retrying := true; }
      }
      assert claims[..|claims|] == claims && ids[..|claims|] == ids;
    }

    /** What the returned workers report, once their frontier is over. */
    method Results(workspaceId: string, revisionId: string, claims: seq<Token>, ghost start: Tables)
      returns (outcome: Outcome, ghost stopped: bool)
      requires SystemInv(policy, system) && Frontier(start, system.tables, system.workers, claims)
      requires forall c | c in system.workers ::
                 system.workers[c].phase.Returned? && ResultKnown(system.workers[c].phase)
      requires claims != [] && forall c | c in claims :: c.partId in PendingParts(start, workspaceId, revisionId)
      modifies this
      ensures SystemInv(policy, system) && system.workers == map[] && system.tables == old(system.tables)
      ensures system.tables.parts.Keys == start.parts.Keys
      ensures forall p | p in system.tables.parts && system.tables.parts[p].state == Running ::
                start.parts[p].state == Running
      ensures forall p | p in start.parts && start.parts[p].state == Processed ::
                system.tables.parts[p] == start.parts[p]
      ensures outcome.pending == |PendingParts(system.tables, workspaceId, revisionId)|
      ensures forall p | p in start.parts && p !in PartIds(claims) :: system.tables.parts[p] == start.parts[p]
      ensures forall p | p in PartIds(claims) ::
                p in system.tables.parts && system.tables.parts[p].state in {Processed, Failed, RetryWait}
      ensures ListsThose(outcome.processed, PartIds(claims), system.tables.parts, Processed)
      ensures ListsThose(outcome.failed, PartIds(claims), system.tables.parts, Failed)
      ensures forall p | p in PartIds(claims) :: p in PendingParts(start, workspaceId, revisionId)
      ensures forall p | p in PartIds(claims) && system.tables.parts[p].state == RetryWait ::
                p in PendingParts(system.tables, workspaceId, revisionId)
      ensures outcome.status == Complete <==>
                !stopped && forall p | p in PartIds(claims) :: system.tables.parts[p].state == Processed
      ensures outcome.status == Complete ==>
                && outcome.processed == PartIds(claims) && outcome.failed == []
                && PendingParts(system.tables, workspaceId, revisionId)
                   == PendingParts(start, workspaceId, revisionId) - Ids(PartIds(claims))
    {
      hide *;
      FrontierNames(start, system.tables, system.workers, claims);
      ReportedStates(start, system.tables, system.workers, claims);
      FrontierRows(start, system.tables, system.workers, claims);
      PartIdsAre(claims);
      FrontierResults(start, system.tables, system.workers, claims);
      var processed, failed, retrying := Report(claims);
      var stop: bool := *;
      stopped := stop;
      StatusTells(system.tables.parts, system.workers, claims, failed, retrying);
      WaitingStaysPending(start, system.tables, system.workers, claims, workspaceId, revisionId);
      var pending := |PendingParts(system.tables, workspaceId, revisionId)|;
      outcome := Outcome(if stop || failed != [] || retrying then Paused else Complete, processed, failed, pending);
      if failed == [] && !retrying {
        AllProcessed(system.tables, system.workers, claims, processed);
        ProcessedAreNotPending(start, system.tables, system.workers, claims, workspaceId, revisionId);
      }
      NoneIsRunning(policy, start, system, claims);
      PendingIsNotProcessed(start, workspaceId, revisionId, claims);
      NoWorkersFit(policy, system);
      system := system.(workers := map[]);
    }

    /** Runs frontiers until one pauses or nothing is pending; every other frontier processed all it claimed. */
    method RunToCompletion(workspaceId: string, revisionId: string)
      returns (outcome: Outcome, ghost stopped: bool)
      requires SystemInv(policy, system) && system.workers == map[]
      modifies this
      ensures SystemInv(policy, system) && system.workers == map[]
      ensures outcome.pending == |PendingParts(system.tables, workspaceId, revisionId)|
      ensures outcome.status == Complete <==>
                !stopped && PendingParts(system.tables, workspaceId, revisionId) == {} && outcome.failed == []
      ensures DoneStays(old(system.tables.parts), system.tables.parts)
      ensures Newly(outcome.processed, old(system.tables.parts), system.tables.parts, Processed)
      ensures Newly(outcome.failed, old(system.tables.parts), system.tables.parts, Failed)
      ensures forall p | p in system.tables.parts && system.tables.parts[p].state == Running ::
                p in old(system.tables.parts) && old(system.tables.parts)[p].state == Running
    {
      hide *;
      var processed: seq<string>, failed: seq<string> := [], [];
      NothingNewly(system.tables.parts);
      while true
        invariant SystemInv(policy, system) && system.workers == map[] && failed == []
        invariant DoneStays(old(system.tables.parts), system.tables.parts)
        invariant Newly(processed, old(system.tables.parts), system.tables.parts, Processed)
        invariant Newly(failed, old(system.tables.parts), system.tables.parts, Failed)
        invariant system.tables.parts.Keys == old(system.tables.parts).Keys
        invariant forall p | p in system.tables.parts && system.tables.parts[p].state == Running ::
                    old(system.tables.parts)[p].state == Running
        decreases PendingParts(system.tables, workspaceId, revisionId)
      {
        ghost var before := PendingParts(system.tables, workspaceId, revisionId);
        ghost var claimed: seq<string>, start := [], system.tables;
        outcome, claimed, stopped := RunFrontier(workspaceId, revisionId);
        ClaimsShrink(before, claimed);
        PendingAreOpen(start, workspaceId, revisionId, claimed);
        FrontierAddsNewly(old(system.tables.parts), start.parts, system.tables.parts, claimed, processed,
                          outcome.processed, Processed);
        FrontierAddsNewly(old(system.tables.parts), start.parts, system.tables.parts, claimed, failed,
                          outcome.failed, Failed);
        processed, failed := processed + outcome.processed, failed + outcome.failed;
        if outcome.status == Paused || outcome.pending == 0 {
          NoneOpen(system.tables, workspaceId, revisionId, claimed, outcome, stopped);
          return Outcome(outcome.status, processed, failed, outcome.pending), stopped;
        }
      }
    }
  }

  // ---------------------------------------------------------------- small steps of the runs

  /** The one sequence is the other with some of its members left out. */
  ghost predicate Subsequence(some: seq<string>, all: seq<string>) {
    || some == []
    || (all != []
        && (Subsequence(some, all[..|all| - 1])
            || (some[|some| - 1] == all[|all| - 1] && Subsequence(some[..|some| - 1], all[..|all| - 1]))))
  }

  /** Exactly those of the claimed parts that are in the state, in the order they were claimed. */
  ghost predicate ListsThose(listed: seq<string>, claimed: seq<string>, parts: map<string, PartRow>, state: PartState) {
    Subsequence(listed, claimed) && forall p :: p in listed <==> p in claimed && p in parts && parts[p].state == state
  }

  lemma ListsNone(parts: map<string, PartRow>)
    ensures ListsThose([], [], parts, Processed) && ListsThose([], [], parts, Failed)
  {}

  lemma ListsOneMore(listed: seq<string>, claimed: seq<string>, parts: map<string, PartRow>, state: PartState,
                     p: string)
    requires ListsThose(listed, claimed, parts, state) && p in parts
    ensures ListsThose(if parts[p].state == state then listed + [p] else listed, claimed + [p], parts, state)
  {
    assert (claimed + [p])[..|claimed|] == claimed && (listed + [p])[..|listed|] == listed;
  }

  lemma ClaimsShrink(pending: set<string>, claimed: seq<string>)
    requires forall p | p in claimed :: p in pending
    ensures claimed != [] ==> pending - Ids(claimed) < pending
  {
    if claimed != [] {
      assert claimed[0] in claimed && claimed[0] in pending && claimed[0] in Ids(claimed);
    }
  }

  /** What an unfinished frontier has left over, if it was not stopped. */
  lemma NoneOpen(t: Tables, workspaceId: string, revisionId: string, claimed: seq<string>, outcome: Outcome,
                 stopped: bool)
    requires outcome.pending == |PendingParts(t, workspaceId, revisionId)|
    requires forall p | p in claimed :: p in t.parts && t.parts[p].state in {Processed, Failed, RetryWait}
    requires forall p | p in claimed && t.parts[p].state == RetryWait :: p in PendingParts(t, workspaceId, revisionId)
    requires ListsThose(outcome.failed, claimed, t.parts, Failed)
    requires outcome.status == Complete <==>
               !stopped && if claimed == [] then outcome.pending == 0
                           else forall p | p in claimed :: t.parts[p].state == Processed
    ensures outcome.status == Paused ==>
              stopped || PendingParts(t, workspaceId, revisionId) != {} || outcome.failed != []
  {
    hide Subsequence;
    if outcome.status == Paused && !stopped && claimed != [] {
      var p :| p in claimed && t.parts[p].state != Processed;
      assert t.parts[p].state == Failed ==> p in outcome.failed;
    }
  }

  lemma PendingAreOpen(t: Tables, workspaceId: string, revisionId: string, claimed: seq<string>)
    requires forall p | p in claimed :: p in PendingParts(t, workspaceId, revisionId)
    ensures forall p | p in claimed :: p in t.parts && !Terminal(t.parts[p].state)
    ensures Terminal(Processed) && Terminal(Failed)
  {}

  lemma NoIds()
    ensures Ids([]) == {} && forall s: set<string> :: s - Ids([]) == s
  {}

  lemma ReportedStates(start: Tables, t: Tables, workers: map<Token, Worker>, claims: seq<Token>)
    requires Frontier(start, t, workers, claims)
    ensures forall c | c in workers :: c.partId in t.parts && PhaseHolds(workers[c].phase, t.parts[c.partId].state)
  {
    hide Matches, PhaseHolds, Manned, OnlyClaimedChange;
  }

  lemma FrontierResults(start: Tables, t: Tables, workers: map<Token, Worker>, claims: seq<Token>)
    requires Frontier(start, t, workers, claims)
    requires forall c | c in workers :: workers[c].phase.Returned? && ResultKnown(workers[c].phase)
    ensures forall p | p in PartIds(claims) :: p in t.parts && t.parts[p].state in {Processed, Failed, RetryWait}
    ensures forall c | c in claims ::
              c in workers && c.partId in t.parts && workers[c].phase == Returned(t.parts[c.partId].state)
    ensures forall i, j | 0 <= i < j < |claims| :: PartIds(claims)[i] != PartIds(claims)[j]
  {
    hide Matches, OnlyClaimedChange;
  }

  lemma StatusTells(parts: map<string, PartRow>, workers: map<Token, Worker>, claims: seq<Token>, failed: seq<string>,
                    retrying: bool)
    requires forall c | c in claims ::
               c in workers && c.partId in parts && workers[c].phase == Returned(parts[c.partId].state)
    requires forall p | p in PartIds(claims) :: p in parts && parts[p].state in {Processed, Failed, RetryWait}
    requires ListsThose(failed, PartIds(claims), parts, Failed)
    requires retrying <==> exists c | c in claims :: workers[c].phase == Returned(RetryWait)
    ensures failed == [] && !retrying <==> forall p | p in PartIds(claims) :: parts[p].state == Processed
  {
    hide Subsequence;
    assert failed == [] || failed[0] in failed;
    if forall p | p in PartIds(claims) :: parts[p].state == Processed {
      forall i | 0 <= i < |claims|
        ensures parts[claims[i].partId].state == Processed
      {
        assert PartIds(claims)[i] == claims[i].partId;
      }
    } else {
      var p :| p in PartIds(claims) && parts[p].state != Processed;
      var i :| 0 <= i < |claims| && PartIds(claims)[i] == p;
      assert claims[i] in claims;
      assert parts[p].state == Failed ==> p in failed;
    }
  }

  lemma WaitingStaysPending(start: Tables, t: Tables, workers: map<Token, Worker>, claims: seq<Token>,
                            workspaceId: string, revisionId: string)
    requires Frontier(start, t, workers, claims)
    requires forall c | c in claims :: c.partId in PendingParts(start, workspaceId, revisionId)
    ensures forall p | p in PartIds(claims) && p in t.parts && t.parts[p].state == RetryWait ::
              p in PendingParts(t, workspaceId, revisionId)
  {
    hide Manned, WorkersAlone;
  }

  lemma {:induction false} NoneLeftOut(some: seq<string>, all: seq<string>)
    requires Subsequence(some, all) && (forall p | p in all :: p in some)
    requires forall i, j | 0 <= i < j < |all| :: all[i] != all[j]
    ensures some == all
    decreases |all|
  {
    if all != [] {
      var front, last := all[..|all| - 1], all[|all| - 1];
      assert last in some;
      if Subsequence(some, front) {
        SubsequenceMembers(some, front);
        assert false;
      }
      forall p | p in front
        ensures p in some[..|some| - 1]
      {
        assert p in all && p in some && some == some[..|some| - 1] + [last];
      }
      NoneLeftOut(some[..|some| - 1], front);
    }
  }

  lemma {:induction false} SubsequenceMembers(some: seq<string>, all: seq<string>)
    requires Subsequence(some, all)
    ensures forall p | p in some :: p in all
    decreases |all|
  {
    if some != [] {
      var front := all[..|all| - 1];
      if Subsequence(some, front) {
        SubsequenceMembers(some, front);
      } else {
        SubsequenceMembers(some[..|some| - 1], front);
        assert some == some[..|some| - 1] + [all[|all| - 1]];
      }
    }
  }

  /** With nothing failed and nothing left to retry, every worker has returned with its part processed. */
  lemma AllProcessed(t: Tables, workers: map<Token, Worker>, claims: seq<Token>, processed: seq<string>)
    requires (forall c | c in claims :: c in workers) && forall c | c in workers :: c in claims
    requires forall p | p in PartIds(claims) :: p in t.parts && t.parts[p].state in {Processed, Failed, RetryWait}
    requires forall i, j | 0 <= i < j < |claims| :: PartIds(claims)[i] != PartIds(claims)[j]
    requires ListsThose(processed, PartIds(claims), t.parts, Processed)
    requires ListsThose([], PartIds(claims), t.parts, Failed)
    requires forall c | c in claims :: c.partId in t.parts && workers[c].phase == Returned(t.parts[c.partId].state)
    requires forall c | c in claims :: workers[c].phase != Returned(RetryWait)
    ensures processed == PartIds(claims) && forall c | c in workers :: workers[c].phase == Returned(Processed)
  {
    forall p | p in PartIds(claims)
      ensures t.parts[p].state == Processed
    {
      assert p !in [];
      var i :| 0 <= i < |claims| && PartIds(claims)[i] == p;
      assert claims[i] in claims;
    }
    NoneLeftOut(processed, PartIds(claims));
    forall c | c in workers
      ensures workers[c].phase == Returned(Processed)
    {
      var i :| 0 <= i < |claims| && claims[i] == c;
      assert PartIds(claims)[i] == c.partId;
    }
  }

  /** Exactly the parts that were not in the state before and are now. */
  ghost predicate Newly(listed: seq<string>, before: map<string, PartRow>, now: map<string, PartRow>,
                        state: PartState) {
    forall p :: p in listed <==> p in before && p in now && before[p].state != state && now[p].state == state
  }

  /** What is done with stays as it is. */
  ghost predicate DoneStays(before: map<string, PartRow>, now: map<string, PartRow>) {
    now.Keys == before.Keys && forall p | p in before && Terminal(before[p].state) :: now[p] == before[p]
  }

  lemma NothingNewly(parts: map<string, PartRow>)
    ensures DoneStays(parts, parts) && Newly([], parts, parts, Processed) && Newly([], parts, parts, Failed)
  {}

  lemma FrontierAddsNewly(start: map<string, PartRow>, before: map<string, PartRow>, now: map<string, PartRow>,
                          claimed: seq<string>, listed: seq<string>, more: seq<string>, state: PartState)
    requires DoneStays(start, before) && now.Keys == before.Keys
    requires Terminal(state) && Newly(listed, start, before, state) && ListsThose(more, claimed, now, state)
    requires forall p | p in claimed :: p in before && !Terminal(before[p].state)
    requires forall p | p in before && p !in claimed :: now[p] == before[p]
    ensures DoneStays(start, now) && Newly(listed + more, start, now, state)
  {
    hide Subsequence;
  }

  lemma FrontierRows(start: Tables, t: Tables, workers: map<Token, Worker>, claims: seq<Token>)
    requires Frontier(start, t, workers, claims)
    ensures t.parts.Keys == start.parts.Keys
    ensures forall p | p in start.parts :: p in t.parts && (p !in PartIds(claims) ==> t.parts[p] == start.parts[p])
  {
    hide WorkersAlone;
    forall p, c | p in start.parts && p !in PartIds(claims) && c in claims
      ensures c.partId != p
    {
      var i :| 0 <= i < |claims| && claims[i] == c;
      assert PartIds(claims)[i] == c.partId;
    }
  }

  lemma EmptyClaim(t: Tables, workspaceId: string, revisionId: string, limit: nat, now: int)
    requires !Current(t, workspaceId, revisionId) || limit == 0
    ensures PartsClaimed(t, t, workspaceId, revisionId, limit, now, PartIds([]))
  {
    if Current(t, workspaceId, revisionId) {
      TakingFirstIsClaiming(t, workspaceId, revisionId, limit, now, []);
      NothingStarts(t);
      hide PartsClaimed;
    }
  }

  lemma NothingStarts(t: Tables)
    ensures ClaimAll(t, Ids([])) == t && PartIds([]) == []
  {
    assert ClaimAll(t, Ids([])).parts == t.parts;
  }

  lemma EmptyFrontier(t: Tables, workers: map<Token, Worker>)
    requires workers == map[]
    ensures Frontier(t, t, workers, [])
  {}

  lemma SelectionGives(t: Tables, workspaceId: string, revisionId: string, now: int, taken: seq<string>)
    requires TakesFirst(t.parts, EligibleParts(t, workspaceId, revisionId, now), taken)
    ensures forall i | 0 <= i < |taken| :: Eligible(t, workspaceId, revisionId, now, taken[i])
    ensures forall i, j | 0 <= i < j < |taken| :: taken[i] != taken[j]
    ensures forall p | p in taken :: p in PendingParts(t, workspaceId, revisionId)
  {
    forall i, j | 0 <= i < j < |taken|
      ensures taken[i] != taken[j]
    {
      assert Before(t.parts, taken[i], taken[j]);
      NotBeforeItself(t.parts, taken[i]);
    }
    hide Before;
  }

  lemma NotBeforeItself(parts: map<string, PartRow>, p: string)
    requires p in parts
    ensures !Before(parts, p, p)
  {
    NoKeyPrecedesItself(ClaimKey(parts[p].plan));
  }

  lemma {:induction false} NoKeyPrecedesItself(key: seq<int>)
    ensures !Precedes(key, key)
    decreases |key|
  {
    if key != [] {
      NoKeyPrecedesItself(key[1..]);
    }
  }

  lemma ClaimStartsFrontier(policy: Policy, s: System, workspaceId: string, revisionId: string, now: int,
                            taken: seq<string>)
    requires s.workers == map[] && Current(s.tables, workspaceId, revisionId)
    requires forall i | 0 <= i < |taken| :: Eligible(s.tables, workspaceId, revisionId, now, taken[i])
    requires forall i, j | 0 <= i < j < |taken| :: taken[i] != taken[j]
    ensures var next := Happens(policy, s, Claims(workspaceId, revisionId, now, Ids(taken)));
            && (forall p | p in taken :: p in next.tables.parts)
            && next.tables == ClaimAll(s.tables, Ids(taken))
            && Frontier(s.tables, next.tables, next.workers, TokensIn(next.tables.parts, taken))
            && forall c | c in next.workers :: next.workers[c].phase == Starting
  {
    ClaimHappens(policy, s, workspaceId, revisionId, now, taken);
    hide Happens, Eligible, NewWorkers, ClaimAll, Manned, OnlyClaimedChange, WorkersAlone, TokensIn;
    var t := ClaimAll(s.tables, Ids(taken));
    ClaimedRows(s.tables, taken);
    StartedWorkers(t, taken);
  }

  lemma ClaimHappens(policy: Policy, s: System, workspaceId: string, revisionId: string, now: int,
                     taken: seq<string>)
    requires s.workers == map[] && Current(s.tables, workspaceId, revisionId)
    requires forall i | 0 <= i < |taken| :: Eligible(s.tables, workspaceId, revisionId, now, taken[i])
    ensures var t := ClaimAll(s.tables, Ids(taken));
            && (forall p | p in taken :: p in s.tables.parts && p in t.parts && t.parts[p].state == Running)
            && Happens(policy, s, Claims(workspaceId, revisionId, now, Ids(taken)))
               == System(t, NewWorkers(t, Ids(taken)))
  {
    hide NewWorkers;
    AllEligible(policy.setup, s.tables, workspaceId, revisionId, now, taken);
    var t := ClaimAll(s.tables, Ids(taken));
    assert map[] + NewWorkers(t, Ids(taken)) == NewWorkers(t, Ids(taken));
  }

  lemma ClaimedRows(t: Tables, taken: seq<string>)
    requires forall p | p in taken :: p in t.parts && p in ClaimAll(t, Ids(taken)).parts
    ensures var next := ClaimAll(t, Ids(taken)); OnlyClaimedChange(t.parts, next.parts, TokensIn(next.parts, taken))
  {
    var next := ClaimAll(t, Ids(taken));
    var claims := TokensIn(next.parts, taken);
    forall p | p in t.parts && (forall c | c in claims :: c.partId != p)
      ensures p !in taken
    {
      forall i | 0 <= i < |taken| ensures taken[i] != p { assert claims[i] in claims; }
    }
  }

  lemma StartedWorkers(t: Tables, taken: seq<string>)
    requires forall p | p in taken :: p in t.parts && t.parts[p].state == Running
    requires forall i, j | 0 <= i < j < |taken| :: taken[i] != taken[j]
    ensures var workers, claims := NewWorkers(t, Ids(taken)), TokensIn(t.parts, taken);
            && Manned(workers, claims) && WorkersAlone(t, workers)
            && forall c | c in workers :: workers[c].phase == Starting
  {
    var workers, claims := NewWorkers(t, Ids(taken)), TokensIn(t.parts, taken);
    forall c
      ensures c in claims <==> c in workers
    {
      if c in claims {
        var i :| 0 <= i < |claims| && claims[i] == c;
        assert taken[i] in Ids(taken);
      }
      if c in workers {
        var i :| 0 <= i < |taken| && taken[i] == c.partId;
        assert claims[i] == c;
      }
    }
  }

  lemma StartingWorkers(maxAttempts: nat, workers: map<Token, Worker>)
    requires forall c | c in workers :: workers[c].phase == Starting
    ensures forall c | c in workers :: WithinBound(maxAttempts, workers[c].phase) && ResultKnown(workers[c].phase)
  {}

  lemma FrontierNames(start: Tables, t: Tables, workers: map<Token, Worker>, claims: seq<Token>)
    requires Frontier(start, t, workers, claims)
    ensures (forall c | c in claims :: c in workers) && forall c | c in workers :: c in claims
    ensures forall i, j | 0 <= i < j < |claims| :: claims[i] != claims[j]
  {}

  /** One turn of one worker: the frontier stays what it is, and there is less left to do. */
  lemma TurnIsProgress(policy: Policy, start: Tables, s: System, claims: seq<Token>, claim: Token, choice: Choice,
                       now: int)
    requires SystemInv(policy, s) && Frontier(start, s.tables, s.workers, claims)
    requires claim in s.workers && !s.workers[claim].phase.Returned?
    requires forall c | c in claims :: c in s.workers
    requires forall c | c in s.workers ::
               WithinBound(policy.maxAttempts, s.workers[c].phase) && ResultKnown(s.workers[c].phase)
    ensures var next := Happens(policy, s, Moves(claim, choice, now));
            && SystemInv(policy, next) && Frontier(start, next.tables, next.workers, claims)
            && (forall c | c in claims :: c in next.workers)
            && (forall c | c in next.workers ::
                  WithinBound(policy.maxAttempts, next.workers[c].phase) && ResultKnown(next.workers[c].phase))
            && TotalLeft(policy.maxAttempts, next.workers, claims) < TotalLeft(policy.maxAttempts, s.workers, claims)
  {
    hide SystemInv, Frontier, Move, Happens, WithinBound, ResultKnown, WorkLeft, TotalLeft;
    var w := s.workers[claim];
    FrontierNames(start, s.tables, s.workers, claims);
    var at := policy.(now := now);
    MovesKeepInv(policy, s, claim, choice, now);
    MoveKeepsFrontier(policy, start, s, claims, claim, choice, now);
    EveryMoveIsProgress(at, s.tables, w, choice);
    MoveKeepsResultKnown(at, s.tables, w, choice);
    var i :| 0 <= i < |claims| && claims[i] == claim;
    ProgressCounts(policy.maxAttempts, s.workers, claims, i, Move(at, s.tables, w, choice).1);
  }

  /** After the last worker has returned, no claimed part is running. */
  lemma NoneIsRunning(policy: Policy, start: Tables, s: System, claims: seq<Token>)
    requires SystemInv(policy, s) && Frontier(start, s.tables, s.workers, claims)
    requires forall c | c in s.workers :: s.workers[c].phase.Returned?
    ensures forall p | p in s.tables.parts && s.tables.parts[p].state == Running ::
              p in start.parts && start.parts[p].state == Running
  {
    hide SystemInv;
    forall p | p in s.tables.parts && s.tables.parts[p].state == Running
      ensures p in start.parts && start.parts[p].state == Running
    {
      forall c | c in claims
        ensures c.partId != p
      {
        NothingIsStranded(policy, s, c);
      }
    }
  }

  lemma PendingIsNotProcessed(start: Tables, workspaceId: string, revisionId: string, claims: seq<Token>)
    requires forall c | c in claims :: c.partId in PendingParts(start, workspaceId, revisionId)
    ensures forall c | c in claims :: c.partId in start.parts && start.parts[c.partId].state != Processed
    ensures forall p | p in PartIds(claims) ::
              p in PendingParts(start, workspaceId, revisionId) && p in start.parts && start.parts[p].state != Processed
  {}

  lemma NoWorkersFit(policy: Policy, s: System)
    requires SystemInv(policy, s)
    ensures SystemInv(policy, s.(workers := map[]))
  {
    hide Inv, RoutesBounded, WorkerFits;
  }
}
