/** What the evidence tables promise: fenced claims, usable snapshots, and a cache that agrees with publication. */
module EvidenceFacts {
  import opened Outcomes
  import opened EvidenceTables
  import opened EvidenceInvariant

  // ---------------------------------------------------------------- claims are fenced

  /** The part has moved on since the token was issued. */
  predicate Outdated(t: Tables, token: Token) {
    && token.partId in t.parts
    && (token.planGeneration < t.parts[token.partId].planGeneration
        || token.claimGeneration < t.parts[token.partId].claimGeneration)
  }

  /** The token was issued at some time for the part's present row. */
  predicate Issued(t: Tables, token: Token) {
    && token.partId in t.parts
    && token.planGeneration <= t.parts[token.partId].planGeneration
    && token.claimGeneration <= t.parts[token.partId].claimGeneration
  }

  /** What a transaction may do to the row of a part that stays. */
  predicate RowAdvances(row: PartRow, next: PartRow) {
    && row.planGeneration <= next.planGeneration && row.claimGeneration <= next.claimGeneration
    && (next.state == Running && row.state != Running ==> row.claimGeneration < next.claimGeneration)
    && (next.plan != row.plan ==> row.planGeneration < next.planGeneration)
  }

  predicate RowsAdvance(t: Tables, next: Tables) {
    forall p | p in t.parts && p in next.parts :: RowAdvances(t.parts[p], next.parts[p])
  }

  lemma UpsertOneAdvances(t: Tables, plan: Plan)
    requires plan.state != Running
    ensures RowsAdvance(t, UpsertOne(t, plan)) && forall p | p in t.parts :: p in UpsertOne(t, plan).parts
  {
    hide SnapshotsUsing, UnitsOf;
  }

  lemma {:induction false} UpsertAllAdvances(t: Tables, plans: seq<Plan>)
    requires Revisions(plans).Some?
    ensures RowsAdvance(t, UpsertAll(t, plans)) && forall p | p in t.parts :: p in UpsertAll(t, plans).parts
    decreases |plans|
  {
    if plans != [] {
      hide UpsertOne;
      UpsertAllAdvances(t, plans[..|plans| - 1]);
      UpsertOneAdvances(UpsertAll(t, plans[..|plans| - 1]), plans[|plans| - 1]);
      AdvancesChain(t, UpsertAll(t, plans[..|plans| - 1]), UpsertAll(t, plans));
    }
  }

  lemma AdvancesChain(t: Tables, mid: Tables, next: Tables)
    requires RowsAdvance(t, mid) && RowsAdvance(mid, next) && forall p | p in t.parts :: p in mid.parts
    ensures RowsAdvance(t, next)
  {}

  /** Generations only grow, and a part starts running only under a new claim. */
  lemma StepAdvances(setup: Setup, t: Tables, op: Operation)
    ensures RowsAdvance(t, Step(setup, t, op))
  {
    hide SnapshotsUsing, UnitsOf, UpsertAll, Revisions, CacheFits, Readdressed, CitationsInside, CachedUnit;
    if op.Upsert? {
      if Revisions(op.plans).Some? {
        UpsertAllAdvances(t.(current := t.current + Revisions(op.plans).value), op.plans);
      }
    } else if op.RetryFailed? {
      RetryAdvances(t, op.workspaceId, op.revisionId);
    } else if op.InvalidateEntry? || op.DeleteInvalidated? || op.DeleteWorkspace? || op.DeleteSnapshot? {
      RemovalAdvances(setup, t, op);
    }
  }

  lemma RemovalAdvances(setup: Setup, t: Tables, op: Operation)
    requires op.InvalidateEntry? || op.DeleteInvalidated? || op.DeleteWorkspace? || op.DeleteSnapshot?
    ensures RowsAdvance(t, Step(setup, t, op))
  {
    hide SnapshotsUsing, UnitsOf, EntryParts, WorkspaceParts, WorkspaceSnapshots;
  }

  lemma RetryAdvances(t: Tables, workspaceId: string, revisionId: string)
    ensures RowsAdvance(t, OnRetryFailed(t, workspaceId, revisionId))
  {
    hide UnitsOf, FailedParts;
  }

  /** The row is there before, between and after the calls. */
  predicate RowLives(setup: Setup, t: Tables, ops: seq<Operation>, part: string) {
    && part in Run(setup, t, ops).parts
    && (ops != [] ==> RowLives(setup, t, ops[..|ops| - 1], part))
  }

  /** While its part's row lives, an outdated token stays outdated whatever is called. */
  lemma {:induction false} OutdatedForGood(setup: Setup, t: Tables, ops: seq<Operation>, token: Token)
    requires Outdated(t, token) && RowLives(setup, t, ops, token.partId)
    ensures Outdated(Run(setup, t, ops), token)
    decreases |ops|
  {
    hide Step;
    if ops != [] {
      OutdatedForGood(setup, t, ops[..|ops| - 1], token);
      StepAdvances(setup, Run(setup, t, ops[..|ops| - 1]), ops[|ops| - 1]);
      assert RowAdvances(Run(setup, t, ops[..|ops| - 1]).parts[token.partId], Run(setup, t, ops).parts[token.partId]);
    }
  }

  /** The claim a call is made under. */
  function TokenFor(op: Operation): Option<Token> {
    match op
    case RecordAttempt(token, _, _, _) => Some(token)
    case Resume(token, _) => Some(token)
    case FailExhausted(token) => Some(token)
    case Pause(token, _) => Some(token)
    case Reuse(token, _) => Some(token)
    case Publish(token, _, _) => Some(token)
    case _ => None
  }

  /** A call under an outdated token raises and changes no table. */
  lemma OutdatedTokenIsInert(setup: Setup, t: Tables, op: Operation, token: Token)
    requires TokenFor(op) == Some(token) && !Matches(t, token)
    ensures Attempted(setup, t, op).None? && Step(setup, t, op) == t
    ensures Outdated(t, token) ==> !Matches(t, token)
  {}

  /** The calls that start a new claim or a new plan of the part, and do take effect. */
  predicate Renews(setup: Setup, t: Tables, op: Operation, part: string) {
    && part in t.parts && Attempted(setup, t, op).Some?
    && match op
       case Claim(w, r, _, chosen) => part in chosen && Current(t, w, r)
       case Resume(token, _) => token.partId == part
       case Upsert(plans) => exists plan | plan in plans :: plan.partId == part && plan != t.parts[part].plan
       case _ => false
  }

  /** A batch that plans the part anew raises its plan generation, wherever in the batch it does so. */
  lemma {:induction false} UpsertAllRenews(t: Tables, plans: seq<Plan>, plan: Plan)
    requires Revisions(plans).Some? && plan in plans && plan.partId in t.parts && plan != t.parts[plan.partId].plan
    ensures var next := UpsertAll(t, plans);
            plan.partId in next.parts && t.parts[plan.partId].planGeneration < next.parts[plan.partId].planGeneration
    decreases |plans|
  {
    hide UpsertOne;
    var front, last := plans[..|plans| - 1], plans[|plans| - 1];
    var mid := UpsertAll(t, front);
    UpsertAllAdvances(t, front);
    UpsertOneAdvances(mid, last);
    assert RowAdvances(mid.parts[plan.partId], UpsertAll(t, plans).parts[plan.partId]);
    if plan in front {
      UpsertAllRenews(t, front, plan);
    } else {
      assert RowAdvances(t.parts[plan.partId], mid.parts[plan.partId]);
      if mid.parts[plan.partId].plan == t.parts[plan.partId].plan {
        UpsertOneRenews(mid, last);
      }
    }
  }

  lemma UpsertOneRenews(t: Tables, plan: Plan)
    requires plan.partId in t.parts && plan != t.parts[plan.partId].plan
    ensures plan.partId in UpsertOne(t, plan).parts
    ensures t.parts[plan.partId].planGeneration < UpsertOne(t, plan).parts[plan.partId].planGeneration
  {
    hide Stripped;
  }

  /** Every claim, resumption and changed plan outdates all tokens issued before, and at most one is valid after. */
  lemma RenewalOutdates(setup: Setup, t: Tables, op: Operation, part: string, token: Token)
    requires PartsFiled(t.parts) && Renews(setup, t, op, part) && token.partId == part && Issued(t, token)
    ensures part in Step(setup, t, op).parts && Outdated(Step(setup, t, op), token)
    ensures !op.Upsert? ==> Held(Step(setup, t, op), TokenOf(Step(setup, t, op).parts[part]))
  {
    hide SnapshotsUsing, UnitsOf, DeleteUnits, UpsertAll, Revisions;
    if op.Upsert? {
      var plan :| plan in op.plans && plan.partId == part && plan != t.parts[part].plan;
      UpsertAllRenews(t.(current := t.current + Revisions(op.plans).value), op.plans, plan);
    }
  }

  // ---------------------------------------------------------------- the end of the guarantee

  function SomePlan(): Plan {
    Plan("p", "w", "r", "e", "s", "h", "f", "page 1", 0, 0, 0, Prepared)
  }

  function RevivingRun(): seq<Operation> {
    [Upsert([SomePlan()]), Claim("w", "r", 0, {"p"}), FailExhausted(Token("p", 1, 1)), RetryFailed("w", "r"),
     Upsert([SomePlan()]), Claim("w", "r", 0, {"p"})]
  }

  function OnlyPart(row: PartRow): Tables {
    NoTables().(parts := map["p" := row], current := map["w" := "r"])
  }

  lemma FirstUpsert(setup: Setup, t: Tables)
    requires t == NoTables() || t == NoTables().(current := map["w" := "r"])
    ensures Step(setup, t, Upsert([SomePlan()])) == OnlyPart(PartRow(SomePlan(), Prepared, 0, None, 1, 0))
  {
    var plans := [SomePlan()];
    assert plans[..0] == [];
    assert Revisions([]) == Some(map[]);
    assert Revisions(plans) == Some(map["w" := "r"]);
    assert t.current + map["w" := "r"] == map["w" := "r"];
    assert UpsertAll(t.(current := map["w" := "r"]), []) == t.(current := map["w" := "r"]);
  }

  lemma OnlyClaim(setup: Setup)
    ensures Step(setup, OnlyPart(PartRow(SomePlan(), Prepared, 0, None, 1, 0)), Claim("w", "r", 0, {"p"}))
            == OnlyPart(PartRow(SomePlan(), Running, 0, None, 1, 1))
  {
    var t := OnlyPart(PartRow(SomePlan(), Prepared, 0, None, 1, 0));
    assert ClaimAll(t, {"p"}).parts == map["p" := PartRow(SomePlan(), Running, 0, None, 1, 1)];
  }

  lemma OnlyFailure(setup: Setup)
    ensures Step(setup, OnlyPart(PartRow(SomePlan(), Running, 0, None, 1, 1)), FailExhausted(Token("p", 1, 1)))
            == OnlyPart(PartRow(SomePlan(), Failed, 0, None, 1, 1))
  {
    var row := PartRow(SomePlan(), Failed, 0, None, 1, 1);
    assert map["p" := PartRow(SomePlan(), Running, 0, None, 1, 1)]["p" := row] == map["p" := row];
  }

  lemma OnlyRetry(setup: Setup)
    ensures Step(setup, OnlyPart(PartRow(SomePlan(), Failed, 0, None, 1, 1)), RetryFailed("w", "r"))
            == NoTables().(current := map["w" := "r"])
  {
    var t := OnlyPart(PartRow(SomePlan(), Failed, 0, None, 1, 1));
    assert FailedParts(t, "w", "r") == {"p"};
    assert (set p | p in FailedParts(t, "w", "r") && t.parts[p].attemptCount == 0) == {"p"};
    assert UnitsOf(t.units, {"p"}) == {};
    assert DeleteParts(t, {"p"}) == NoTables().(current := map["w" := "r"]);
  }

  /**
   A deleted row takes its generations with it: a token whose part failed without an attempt, was dropped and
   was planned again is valid once more.
   */
  lemma RowDeletionRevivesTokens(setup: Setup)
    ensures var token, ops := Token("p", 1, 1), RevivingRun();
            && Held(Run(setup, NoTables(), ops[..2]), token)
            && !Matches(Run(setup, NoTables(), ops[..5]), token)
            && Held(Run(setup, NoTables(), ops), token)
  {
    var ops := RevivingRun();
    hide Step;
    FirstUpsert(setup, NoTables());
    FirstUpsert(setup, NoTables().(current := map["w" := "r"]));
    OnlyClaim(setup);
    OnlyFailure(setup);
    OnlyRetry(setup);
    RunUnfolds(setup, ops, 1);
    RunUnfolds(setup, ops, 2);
    RunUnfolds(setup, ops, 3);
    RunUnfolds(setup, ops, 4);
    RunUnfolds(setup, ops, 5);
    RunUnfolds(setup, ops, 6);
    assert ops[..0] == [] && ops[..6] == ops;
  }

  lemma RunUnfolds(setup: Setup, ops: seq<Operation>, n: nat)
    requires 0 < n <= |ops|
    ensures Run(setup, NoTables(), ops[..n]) == Step(setup, Run(setup, NoTables(), ops[..n - 1]), ops[n - 1])
  {
    hide Step;
    assert ops[..n][..n - 1] == ops[..n - 1];
  }

  // ---------------------------------------------------------------- parts, units and snapshots

  /** A part is processed exactly when it has a unit, and then it has only that one. */
  lemma ProcessedMeansOneUnit(t: Tables, part: string)
    requires Inv(t) && part in t.parts
    ensures t.parts[part].state == Processed <==> exists u :: UnitsOf(t.units, {part}) == {u}
    ensures t.parts[part].state != Processed <==> UnitsOf(t.units, {part}) == {}
  {
    hide AttemptsCounted, CacheBound, DependenciesListed, SnapshotsGrounded, NoDuplicates;
    if t.parts[part].state == Processed {
      assert HasUnit(t.units, part);
      var u :| u in t.units && t.units[u].partId == part;
      assert UnitsOf(t.units, {part}) == {u};
    } else {
      assert UnitsOf(t.units, {part}) == {};
    }
  }

  /** Every stored snapshot could be saved again: all it depends on is there, processed, current and latest. */
  lemma StoredSnapshotsFit(t: Tables, s: string)
    requires Inv(t) && s in t.snapshots
    ensures DependenciesFit(t, t.snapshots[s])
  {
    hide AttemptsCounted, CacheBound, HasUnit, ProcessedHaveUnits;
    forall u | u in t.snapshots[s].unitIds
      ensures DependencyFits(t, t.snapshots[s].workspaceId, t.snapshots[s].revisionId, u)
    {
      assert UsesUnit(t.parts, t.units, t.snapshots[s], u);
    }
  }

  // ---------------------------------------------------------------- the cache

  /** Two citations say the same, under whatever names. */
  predicate SameCitation(a: Citation, b: Citation) {
    a.relativePath == b.relativePath && a.locator == b.locator
  }

  predicate SameEvidence(a: Unit, b: Unit) {
    && a.content == b.content && |a.citations| == |b.citations|
    && forall i | 0 <= i < |a.citations| :: SameCitation(a.citations[i], b.citations[i])
  }

  lemma OnlyNewUnit(t: Tables, part: string, unit: Unit)
    requires UnitsOf(t.units, {part}) == {}
    ensures UnitsOf(AddUnit(t, part, unit).units, {part}) == {unit.unitId}
  {
    var next := AddUnit(t, part, unit);
    forall u | u in t.units
      ensures t.units[u].partId != part
    {
      assert u !in UnitsOf(t.units, {part});
    }
    assert next.units[unit.unitId].partId == part;
  }

  lemma ReuseHits(setup: Setup, t: Tables, token: Token, key: string)
    requires Attempted(setup, t, Reuse(token, key)).Some? && Step(setup, t, Reuse(token, key)) != t
    ensures token.partId in t.parts && t.parts[token.partId].state == Running
    ensures CacheFits(t, setup.contains, token.partId, key)
    ensures Step(setup, t, Reuse(token, key)) == Finish(AddUnit(t, token.partId,
              Readdressed(setup.naming, CachedUnit(t, key).value, token.partId, key)), token.partId)
  {
    hide CacheFits, CachedUnit, Readdressed;
  }

  lemma ReaddressingKeepsEvidence(naming: Naming, unit: Unit, part: string, key: string)
    ensures var reused := Readdressed(naming, unit, part, key);
            SameEvidence(reused, unit) && Addressed(reused, part) && reused.unitId == naming.unitId(part, key)
  {}

  lemma InsideAlike(contains: Containment, plan: Plan, a: Unit, b: Unit)
    requires SameEvidence(a, b) && CitationsInside(contains, plan, b.citations)
    ensures CitationsInside(contains, plan, a.citations)
  {}

  /** A cache hit gives the part the bound unit again, re-addressed, inside the part, for the same source. */
  lemma ReuseAgrees(setup: Setup, t: Tables, token: Token, key: string)
    requires Inv(t) && Attempted(setup, t, Reuse(token, key)).Some? && Step(setup, t, Reuse(token, key)) != t
    ensures key in t.cache && token.partId in t.parts
    ensures var bound, next := t.cache[key], Step(setup, t, Reuse(token, key));
            var id := setup.naming.unitId(token.partId, key);
            && UnitsOf(next.units, {token.partId}) == {id} && Addressed(next.units[id].unit, token.partId)
            && SameEvidence(next.units[id].unit, bound.unit) && t.units[bound.unitId].unit == bound.unit
            && bound.sourceSha256 == t.parts[token.partId].plan.sourceSha256
            && CitationsInside(setup.contains, t.parts[token.partId].plan, next.units[id].unit.citations)
            && next.parts[token.partId].state == Processed && next.cache == t.cache
  {
    var part := token.partId;
    ReuseHits(setup, t, token, key);
    NoUnitsOf(t, {part});
    hide Attempted, Step, UnitsOf, Readdressed, SameEvidence, Addressed, CitationsInside;
    hide PartsFiled, UnitsFiled, OneUnitEach, ProcessedHaveUnits, HasUnit, AttemptsCounted, DependenciesListed,
         SnapshotsGrounded;
    var unit := CachedUnit(t, key).value;
    ReaddressingKeepsEvidence(setup.naming, unit, part, key);
    InsideAlike(setup.contains, t.parts[part].plan, Readdressed(setup.naming, unit, part, key), unit);
    OnlyNewUnit(t, part, Readdressed(setup.naming, unit, part, key));
  }

  /** A key keeps its unit as long as the unit is stored. */
  lemma KeyIsNotRebound(setup: Setup, t: Tables, op: Operation, key: string)
    requires Inv(t) && InUse(op) && key in t.cache
    requires t.cache[key].unitId in Step(setup, t, op).units
    ensures key in Step(setup, t, op).cache && Step(setup, t, op).cache[key] == t.cache[key]
  {
    hide Inv, SnapshotsUsing, UpsertAll, InUse, CitationsInside, DependenciesFit, Readdressed, UnitsOf, Addressed;
    hide PartIsCurrent, Held, Matches, CacheFits, AlreadyPublished, Eligible, EntryParts, FailedParts, Revisions;
    if op.Upsert? {
      if Revisions(op.plans).Some? {
        UpsertAllKeepsKey(t.(current := t.current + Revisions(op.plans).value), op.plans, key);
      }
    }
  }

  /** What stripping a part leaves of the cache. */
  lemma StrippedCache(t: Tables, id: string)
    requires id in t.parts
    ensures Stripped(t, id).units == t.units - UnitsOf(t.units, {id})
    ensures Stripped(t, id).cache == map k | k in t.cache && t.cache[k].unitId !in UnitsOf(t.units, {id}) :: t.cache[k]
  {
    hide SnapshotsUsing, UnitsOf;
  }

  lemma UpsertOneKeepsKey(t: Tables, plan: Plan, key: string)
    ensures UpsertOne(t, plan).units.Keys <= t.units.Keys
    ensures (&& key in t.cache && t.cache[key].unitId in UpsertOne(t, plan).units) ==>
              key in UpsertOne(t, plan).cache && UpsertOne(t, plan).cache[key] == t.cache[key]
  {
    if plan.partId in t.parts {
      StrippedCache(t, plan.partId);
    }
    hide Stripped, UnitsOf;
  }

  lemma {:induction false} UpsertAllKeepsKey(t: Tables, plans: seq<Plan>, key: string)
    ensures UpsertAll(t, plans).units.Keys <= t.units.Keys
    ensures (&& key in t.cache && t.cache[key].unitId in UpsertAll(t, plans).units) ==>
              key in UpsertAll(t, plans).cache && UpsertAll(t, plans).cache[key] == t.cache[key]
    decreases |plans|
  {
    hide UpsertOne;
    if plans != [] {
      UpsertAllKeepsKey(t, plans[..|plans| - 1], key);
      UpsertOneKeepsKey(UpsertAll(t, plans[..|plans| - 1]), plans[|plans| - 1], key);
    }
  }

  /** The key is bound to a stored unit of the part. */
  predicate BoundTo(t: Tables, key: string, part: string) {
    key in t.cache && t.cache[key].unitId in t.units && t.units[t.cache[key].unitId].partId == part
  }

  lemma UpsertOneWithdraws(t: Tables, plan: Plan, part: string, key: string)
    requires part in t.parts && BoundTo(t, key, part)
    ensures var next := UpsertOne(t, plan);
            && part in next.parts
            && (key in next.cache ==> BoundTo(next, key, part) && next.parts[part].plan == t.parts[part].plan
                                      && (plan.partId == part ==> plan == t.parts[part].plan))
  {
    if plan.partId in t.parts {
      StrippedCache(t, plan.partId);
      StrippedParts(t, plan.partId);
    }
    hide Stripped;
  }

  lemma StrippedParts(t: Tables, id: string)
    requires id in t.parts
    ensures Stripped(t, id).parts == t.parts
  {
    hide SnapshotsUsing, UnitsOf;
  }

  /** After a batch the part's keys are gone, or no plan of the batch changed the part. */
  lemma {:induction false} UpsertAllWithdraws(t: Tables, plans: seq<Plan>, part: string, key: string)
    requires part in t.parts && BoundTo(t, key, part)
    ensures var next := UpsertAll(t, plans);
            && part in next.parts
            && (key in next.cache ==> BoundTo(next, key, part) && next.parts[part].plan == t.parts[part].plan
                                      && forall p | p in plans && p.partId == part :: p == t.parts[part].plan)
    decreases |plans|
  {
    hide UpsertOne;
    if plans != [] {
      var front, last := plans[..|plans| - 1], plans[|plans| - 1];
      var mid := UpsertAll(t, front);
      UpsertAllWithdraws(t, front, part, key);
      UpsertOneAddsNoKey(mid, last, key);
      UpsertOneKeepsParts(mid, last, part);
      if key in mid.cache {
        UpsertOneWithdraws(mid, last, part, key);
      }
    }
  }

  lemma UpsertOneKeepsParts(t: Tables, plan: Plan, part: string)
    requires part in t.parts
    ensures part in UpsertOne(t, plan).parts
  {
    if plan.partId in t.parts {
      StrippedParts(t, plan.partId);
    }
    hide Stripped;
  }

  /** Invalidating a part's entry, or planning the part anew, makes every lookup of its evidence miss. */
  lemma WithdrawnEvidenceIsNotReused(setup: Setup, t: Tables, op: Operation, part: string, key: string)
    requires Inv(t) && part in t.parts && key in t.cache && t.units[t.cache[key].unitId].partId == part
    requires || op == InvalidateEntry(t.parts[part].plan.workspaceId, t.parts[part].plan.revisionId,
                                      t.parts[part].plan.entryId)
             || (op.Upsert? && Revisions(op.plans).Some?
                 && exists plan | plan in op.plans :: plan.partId == part && plan != t.parts[part].plan)
    ensures CachedUnit(Step(setup, t, op), key).None? && key !in Step(setup, t, op).cache
  {
    hide PartsFiled, UnitsFiled, OneUnitEach, ProcessedHaveUnits, HasUnit, AttemptsCounted, DependenciesListed;
    hide SnapshotsGrounded, SnapshotsUsing, UpsertAll, Revisions;
    if op.Upsert? {
      UpsertAllWithdraws(t.(current := t.current + Revisions(op.plans).value), op.plans, part, key);
    } else {
      assert part in EntryParts(t, op.workspaceId, op.revisionId, op.entryId);
    }
  }

  /** The n-th call of the run published the bound unit under the key, for the source the key is bound to. */
  predicate PublishedBy(setup: Setup, ops: seq<Operation>, n: nat, key: string, bound: CacheRow)
    requires n < |ops|
  {
    && ops[n].Publish? && ops[n].cacheKey == key && ops[n].unit == bound.unit && bound.unitId == bound.unit.unitId
    && var t := Run(setup, NoTables(), ops[..n]);
       && Attempted(setup, t, ops[n]).Some? && ops[n].token.partId in t.parts
       && t.parts[ops[n].token.partId].plan.sourceSha256 == bound.sourceSha256
  }

  /** Every bound key goes back to a publication under that key. */
  lemma {:induction false} KeysComeFromPublications(setup: Setup, ops: seq<Operation>, key: string)
    requires key in Run(setup, NoTables(), ops).cache
    ensures exists n | 0 <= n < |ops| :: PublishedBy(setup, ops, n, key, Run(setup, NoTables(), ops).cache[key])
    decreases |ops|
  {
    hide Step, Attempted;
    if ops != [] {
      var front, last := ops[..|ops| - 1], ops[|ops| - 1];
      var t := Run(setup, NoTables(), front);
      if key in t.cache && t.cache[key] == Step(setup, t, last).cache[key] {
        KeysComeFromPublications(setup, front, key);
        var n :| 0 <= n < |front| && PublishedBy(setup, front, n, key, t.cache[key]);
        assert front[..n] == ops[..n];
        assert PublishedBy(setup, ops, n, key, t.cache[key]);
      } else {
        NewKeysArePublished(setup, t, last, key);
        assert PublishedBy(setup, ops, |ops| - 1, key, Step(setup, t, last).cache[key]);
      }
    }
  }

  lemma NewKeysArePublished(setup: Setup, t: Tables, op: Operation, key: string)
    requires key in Step(setup, t, op).cache
    requires !(key in t.cache && t.cache[key] == Step(setup, t, op).cache[key])
    ensures op.Publish? && op.cacheKey == key && Attempted(setup, t, op).Some? && op.token.partId in t.parts
    ensures var bound := Step(setup, t, op).cache[key];
            && op.unit == bound.unit && bound.unitId == bound.unit.unitId
            && t.parts[op.token.partId].plan.sourceSha256 == bound.sourceSha256
  {
    hide SnapshotsUsing, UpsertAll, CitationsInside, DependenciesFit, Readdressed, UnitsOf;
    if op.Upsert? && Revisions(op.plans).Some? {
      UpsertAllAddsNoKey(t.(current := t.current + Revisions(op.plans).value), op.plans, key);
    }
  }

  lemma UpsertOneAddsNoKey(t: Tables, plan: Plan, key: string)
    ensures key in UpsertOne(t, plan).cache ==> key in t.cache && t.cache[key] == UpsertOne(t, plan).cache[key]
  {
    if plan.partId in t.parts {
      StrippedCache(t, plan.partId);
    }
    hide Stripped, UnitsOf;
  }

  lemma {:induction false} UpsertAllAddsNoKey(t: Tables, plans: seq<Plan>, key: string)
    ensures key in UpsertAll(t, plans).cache ==> key in t.cache && t.cache[key] == UpsertAll(t, plans).cache[key]
    decreases |plans|
  {
    hide UpsertOne;
    if plans != [] {
      UpsertAllAddsNoKey(t, plans[..|plans| - 1], key);
      UpsertOneAddsNoKey(UpsertAll(t, plans[..|plans| - 1]), plans[|plans| - 1], key);
    }
  }
}
