/** What every transaction of the evidence store keeps true of the tables. */
module EvidenceInvariant {
  import opened Outcomes
  import opened EvidenceTables

  predicate PartsFiled(parts: map<string, PartRow>) {
    forall p | p in parts :: parts[p].plan.partId == p && parts[p].planGeneration >= 1
  }

  predicate HasUnit(units: map<string, UnitRow>, part: string) {
    exists u | u in units :: units[u].partId == part
  }

  /** A unit is filed under its id and belongs to a processed part that is not one of the open ones. */
  predicate UnitsFiled(parts: map<string, PartRow>, units: map<string, UnitRow>, open: set<string>) {
    forall u | u in units ::
      && units[u].unit.unitId == u && units[u].unit.partId == units[u].partId
      && units[u].partId in parts && units[u].partId !in open && parts[units[u].partId].state == Processed
  }

  predicate OneUnitEach(units: map<string, UnitRow>) {
    forall u, v | u in units && v in units :: units[u].partId == units[v].partId ==> u == v
  }

  predicate ProcessedHaveUnits(parts: map<string, PartRow>, units: map<string, UnitRow>, open: set<string>) {
    forall p | p in parts && p !in open :: parts[p].state == Processed ==> HasUnit(units, p)
  }

  /** Attempts belong to live parts and are numbered from one to the part's count. */
  predicate AttemptsCounted(parts: map<string, PartRow>, attempts: map<(string, nat), Attempt>) {
    forall k | k in attempts :: k.0 in parts && 1 <= k.1 <= parts[k.0].attemptCount
  }

  predicate CacheBound(units: map<string, UnitRow>, cache: map<string, CacheRow>) {
    forall k | k in cache :: cache[k].unitId in units && units[cache[k].unitId].unit == cache[k].unit
  }

  /** The unit exists and its part is in the snapshot's workspace and revision. */
  predicate UsesUnit(parts: map<string, PartRow>, units: map<string, UnitRow>, snapshot: Snapshot, u: string) {
    && u in units && units[u].partId in parts
    && parts[units[u].partId].plan.workspaceId == snapshot.workspaceId
    && parts[units[u].partId].plan.revisionId == snapshot.revisionId
  }

  predicate DependenciesListed(snapshots: map<string, Snapshot>, dependencies: set<(string, string)>) {
    && (forall d | d in dependencies :: d.0 in snapshots && d.1 in snapshots[d.0].unitIds)
    && (forall s | s in snapshots ::
          && snapshots[s].snapshotId == s && NoDuplicates(snapshots[s].unitIds)
          && forall u | u in snapshots[s].unitIds :: (s, u) in dependencies)
  }

  predicate SnapshotsGrounded(parts: map<string, PartRow>, units: map<string, UnitRow>,
                              snapshots: map<string, Snapshot>) {
    forall s | s in snapshots :: forall u | u in snapshots[s].unitIds :: UsesUnit(parts, units, snapshots[s], u)
  }

  /** The invariant, save that the open parts, which have no units, may be in any state. */
  predicate InvBut(t: Tables, open: set<string>) {
    && PartsFiled(t.parts) && UnitsFiled(t.parts, t.units, open) && OneUnitEach(t.units)
    && ProcessedHaveUnits(t.parts, t.units, open) && AttemptsCounted(t.parts, t.attempts)
    && CacheBound(t.units, t.cache) && DependenciesListed(t.snapshots, t.dependencies)
    && SnapshotsGrounded(t.parts, t.units, t.snapshots)
  }

  predicate Inv(t: Tables) {
    InvBut(t, {})
  }

  // ---------------------------------------------------------------- building blocks

  /** Parts change their rows, but not their plans, nor whether they are processed. */
  ghost predicate SameStanding(parts: map<string, PartRow>, next: map<string, PartRow>, open: set<string>) {
    && next.Keys == parts.Keys
    && forall p | p in parts ::
         && next[p].planGeneration >= 1 && next[p].attemptCount >= parts[p].attemptCount
         && next[p].plan == parts[p].plan
         && if p in open then next[p].state != Processed
            else (next[p].state == Processed <==> parts[p].state == Processed)
  }

  lemma PartsChange(t: Tables, next: map<string, PartRow>, open: set<string>)
    requires InvBut(t, open) && SameStanding(t.parts, next, open)
    ensures Inv(t.(parts := next))
  {
    hide HasUnit, NoDuplicates;
  }

  lemma OnePartChanges(t: Tables, id: string, row: PartRow)
    requires Inv(t) && id in t.parts
    requires row.plan == t.parts[id].plan && row.planGeneration >= 1 && row.attemptCount >= t.parts[id].attemptCount
    requires row.state != Processed && t.parts[id].state != Processed
    ensures Inv(WithPart(t, id, row))
  {
    hide InvBut;
    assert PartsFiled(t.parts) by { InvParts(t); }
    PartsChange(t, t.parts[id := row], {});
  }

  lemma InvParts(t: Tables)
    requires Inv(t)
    ensures PartsFiled(t.parts)
  {}

  lemma SnapshotsGo(t: Tables, gone: set<string>, open: set<string>)
    requires InvBut(t, open)
    ensures InvBut(DeleteSnapshots(t, gone), open)
  {
    hide HasUnit, NoDuplicates, PartsFiled, UnitsFiled, OneUnitEach, ProcessedHaveUnits, AttemptsCounted, CacheBound;
  }

  /** No snapshot uses any of the units. */
  predicate Unused(snapshots: map<string, Snapshot>, units: set<string>) {
    forall s | s in snapshots :: forall u | u in snapshots[s].unitIds :: u !in units
  }

  lemma UnitsGo(t: Tables, parts: set<string>)
    requires Inv(t) && Unused(t.snapshots, UnitsOf(t.units, parts))
    ensures InvBut(DeleteUnits(t, UnitsOf(t.units, parts)), parts)
  {
    var next := DeleteUnits(t, UnitsOf(t.units, parts));
    UnitsLeft(t.parts, t.units, next.units, parts);
    hide UnitsFiled, OneUnitEach, ProcessedHaveUnits, HasUnit, NoDuplicates, PartsFiled, AttemptsCounted;
  }

  lemma UnitsLeft(parts: map<string, PartRow>, units: map<string, UnitRow>, next: map<string, UnitRow>,
                  open: set<string>)
    requires UnitsFiled(parts, units, {}) && OneUnitEach(units) && ProcessedHaveUnits(parts, units, {})
    requires next == units - UnitsOf(units, open)
    ensures UnitsFiled(parts, next, open) && OneUnitEach(next) && ProcessedHaveUnits(parts, next, open)
  {
    forall p | p in parts && p !in open && parts[p].state == Processed
      ensures HasUnit(next, p)
    {
      var u :| u in units && units[u].partId == p;
      assert u in next && next[u].partId == p;
    }
  }

  /** The snapshots that depend on a part's units are all in the part's own revision. */
  lemma UsersAreLocal(t: Tables, parts: set<string>, workspaceId: string, revisionId: string)
    requires Inv(t)
    requires forall p | p in parts && p in t.parts ::
               t.parts[p].plan.workspaceId == workspaceId && t.parts[p].plan.revisionId == revisionId
    ensures var units := UnitsOf(t.units, parts);
            Unused(DeleteSnapshots(t, SnapshotsUsing(t, workspaceId, revisionId, units)).snapshots, units)
  {
    hide PartsFiled, OneUnitEach, ProcessedHaveUnits, AttemptsCounted, CacheBound, HasUnit, NoDuplicates;
    var units := UnitsOf(t.units, parts);
    forall s, u | s in t.snapshots && u in t.snapshots[s].unitIds && u in units
      ensures s in SnapshotsUsing(t, workspaceId, revisionId, units)
    {
      assert UsesUnit(t.parts, t.units, t.snapshots[s], u);
      assert (s, u) in t.dependencies;
    }
  }

  /** Parts lose their units and every snapshot that used them. */
  lemma PartsReset(t: Tables, parts: set<string>, workspaceId: string, revisionId: string)
    requires Inv(t)
    requires forall p | p in parts && p in t.parts ::
               t.parts[p].plan.workspaceId == workspaceId && t.parts[p].plan.revisionId == revisionId
    ensures var units := UnitsOf(t.units, parts);
            var stale := SnapshotsUsing(t, workspaceId, revisionId, units);
            InvBut(DeleteUnits(DeleteSnapshots(t, stale), units), parts)
  {
    hide InvBut, Unused;
    UsersAreLocal(t, parts, workspaceId, revisionId);
    SnapshotsGo(t, SnapshotsUsing(t, workspaceId, revisionId, UnitsOf(t.units, parts)), {});
    UnitsGo(DeleteSnapshots(t, SnapshotsUsing(t, workspaceId, revisionId, UnitsOf(t.units, parts))), parts);
  }

  lemma AttemptsGo(t: Tables, parts: set<string>, open: set<string>)
    requires InvBut(t, open)
    ensures InvBut(DeleteAttempts(t, parts), open)
    ensures forall k | k in DeleteAttempts(t, parts).attempts :: k.0 !in parts
  {
    hide PartsFiled, UnitsFiled, OneUnitEach, ProcessedHaveUnits, CacheBound, DependenciesListed, SnapshotsGrounded;
  }

  lemma OpenPartsGo(t: Tables, open: set<string>)
    requires InvBut(t, open) && forall k | k in t.attempts :: k.0 !in open
    ensures Inv(t.(parts := t.parts - open))
  {
    hide HasUnit, NoDuplicates, OneUnitEach, CacheBound, DependenciesListed;
  }

  lemma PartsGo(t: Tables, parts: set<string>)
    requires Inv(t) && Unused(t.snapshots, UnitsOf(t.units, parts))
    ensures Inv(DeleteParts(t, parts))
  {
    hide InvBut, Unused;
    UnitsGo(t, parts);
    var rest := DeleteUnits(t, UnitsOf(t.units, parts));
    AttemptsGo(rest, parts, parts);
    OpenPartsGo(DeleteAttempts(rest, parts), parts);
  }

  /** A part that is not processed has no units. */
  lemma NoUnitsOf(t: Tables, parts: set<string>)
    requires Inv(t) && forall p | p in parts && p in t.parts :: t.parts[p].state != Processed
    ensures UnitsOf(t.units, parts) == {} && Unused(t.snapshots, UnitsOf(t.units, parts))
  {
    hide HasUnit, NoDuplicates, OneUnitEach, CacheBound, DependenciesListed, SnapshotsGrounded, AttemptsCounted;
    forall u | u in t.units
      ensures u !in UnitsOf(t.units, parts)
    {
    }
  }

  // ---------------------------------------------------------------- the transactions

  /** A part's new plan, once nothing of the old one is left. */
  lemma PlanStored(t: Tables, id: string, row: PartRow, open: set<string>)
    requires InvBut(t, open) && open == {id} && row.plan.partId == id
    requires row.planGeneration >= 1 && row.state != Processed
    requires forall k | k in t.attempts :: k.0 != id
    ensures Inv(WithPart(t, id, row))
  {
    hide HasUnit, NoDuplicates, OneUnitEach, CacheBound, DependenciesListed;
  }

  lemma PlanAdded(t: Tables, id: string, row: PartRow)
    requires Inv(t) && id !in t.parts && row.plan.partId == id && row.planGeneration >= 1 && row.state != Processed
    ensures Inv(WithPart(t, id, row))
  {
    hide HasUnit, NoDuplicates, OneUnitEach, CacheBound, DependenciesListed;
  }

  lemma StrippedIsOpen(t: Tables, id: string)
    requires Inv(t) && id in t.parts
    ensures InvBut(Stripped(t, id), {id})
    ensures forall k | k in Stripped(t, id).attempts :: k.0 != id
  {
    hide InvBut, UnitsOf, SnapshotsUsing, DeleteUnits, DeleteSnapshots, DeleteAttempts;
    var plan := t.parts[id].plan;
    PartsReset(t, {id}, plan.workspaceId, plan.revisionId);
    var units := UnitsOf(t.units, {id});
    var stale := SnapshotsUsing(t, plan.workspaceId, plan.revisionId, units);
    AttemptsGo(DeleteUnits(DeleteSnapshots(t, stale), units), {id}, {id});
  }

  lemma UpsertOneKeepsInv(t: Tables, plan: Plan)
    requires Inv(t) && plan.state != Processed
    ensures Inv(UpsertOne(t, plan))
  {
    var id := plan.partId;
    if id in t.parts {
      StrippedIsOpen(t, id);
      FiledPart(t, id);
    }
    hide Inv, InvBut, Stripped;
    if id !in t.parts {
      PlanAdded(t, id, PartRow(plan, plan.state, 0, None, 1, 0));
    } else if t.parts[id].plan != plan {
      PlanStored(Stripped(t, id), id, Replanned(t.parts[id], plan), {id});
    }
  }

  lemma {:induction false} UpsertAllKeepsInv(t: Tables, plans: seq<Plan>)
    requires Inv(t) && forall i | 0 <= i < |plans| :: plans[i].state != Processed
    ensures Inv(UpsertAll(t, plans))
    decreases |plans|
  {
    hide Inv;
    if plans != [] {
      UpsertAllKeepsInv(t, plans[..|plans| - 1]);
      UpsertOneKeepsInv(UpsertAll(t, plans[..|plans| - 1]), plans[|plans| - 1]);
    }
  }

  lemma ClaimKeepsInv(t: Tables, chosen: set<string>)
    requires Inv(t) && forall p | p in chosen :: p in t.parts && t.parts[p].state != Processed
    ensures Inv(ClaimAll(t, chosen))
  {
    InvParts(t);
    hide InvBut;
    PartsChange(t, ClaimAll(t, chosen).parts, {});
  }

  lemma RecordKeepsInv(t: Tables, token: Token, number: nat, attempt: Attempt, next: Option<int>)
    requires Inv(t) && attempt.outcome != Processed && OnRecordAttempt(t, token, number, attempt, next).Some?
    ensures Inv(OnRecordAttempt(t, token, number, attempt, next).value)
  {
    InvParts(t);
    hide InvBut;
    var row := t.parts[token.partId].(state := attempt.outcome,
                                      attemptCount := Max(t.parts[token.partId].attemptCount, number),
                                      nextAttemptAt := next);
    OnePartChanges(t, token.partId, row);
    AttemptAdded(WithPart(t, token.partId, row), token.partId, number, attempt);
  }

  lemma AttemptAdded(t: Tables, id: string, number: nat, attempt: Attempt)
    requires Inv(t) && id in t.parts && 1 <= number <= t.parts[id].attemptCount
    ensures Inv(t.(attempts := t.attempts[(id, number) := attempt]))
  {
    hide HasUnit, NoDuplicates, OneUnitEach, CacheBound, DependenciesListed, SnapshotsGrounded, ProcessedHaveUnits;
  }

  lemma UnitAdded(t: Tables, id: string, unit: Unit)
    requires Inv(t) && id in t.parts && t.parts[id].state != Processed && unit.partId == id && unit.unitId !in t.units
    ensures Inv(Finish(AddUnit(t, id, unit), id))
  {
    hide UnitsFiled, OneUnitEach, ProcessedHaveUnits, HasUnit, NoDuplicates, DependenciesListed, SnapshotsGrounded;
    hide PartsFiled, AttemptsCounted, CacheBound;
    var next := Finish(AddUnit(t, id, unit), id);
    hide AddUnit, Finish;
    FinishedShape(t, id, unit);
    NewUnitFiled(t.parts, t.units, next.parts, next.units, id, unit.unitId);
    UnitStaysUsed(t, next);
    OtherRowsStay(t, next, id);
  }

  lemma FinishedShape(t: Tables, id: string, unit: Unit)
    requires id in t.parts && unit.unitId !in t.units
    ensures var next := Finish(AddUnit(t, id, unit), id);
            && next.parts == t.parts[id := t.parts[id].(state := Processed, nextAttemptAt := None)]
            && next.units == t.units[unit.unitId := UnitRow(id, unit, t.nextRow)]
            && next.attempts == t.attempts && next.cache == t.cache
            && next.snapshots == t.snapshots && next.dependencies == t.dependencies
  {}

  lemma OtherRowsStay(t: Tables, next: Tables, id: string)
    requires PartsFiled(t.parts) && AttemptsCounted(t.parts, t.attempts) && CacheBound(t.units, t.cache)
    requires forall u | u in t.units :: u in next.units && next.units[u] == t.units[u]
    requires id in t.parts && id in next.parts && next.parts == t.parts[id := next.parts[id]]
    requires next.parts[id].plan == t.parts[id].plan && next.parts[id].attemptCount == t.parts[id].attemptCount
    requires next.parts[id].planGeneration == t.parts[id].planGeneration
    ensures PartsFiled(next.parts) && AttemptsCounted(next.parts, t.attempts) && CacheBound(next.units, t.cache)
  {}

  lemma NewUnitFiled(parts: map<string, PartRow>, units: map<string, UnitRow>, newParts: map<string, PartRow>,
                     newUnits: map<string, UnitRow>, id: string, u: string)
    requires UnitsFiled(parts, units, {}) && OneUnitEach(units) && ProcessedHaveUnits(parts, units, {})
    requires id in parts && parts[id].state != Processed && u !in units
    requires id in newParts && newParts == parts[id := newParts[id]] && newParts[id].state == Processed
    requires u in newUnits && newUnits == units[u := newUnits[u]]
    requires newUnits[u].partId == id && newUnits[u].unit.unitId == u && newUnits[u].unit.partId == id
    ensures UnitsFiled(newParts, newUnits, {}) && OneUnitEach(newUnits) && ProcessedHaveUnits(newParts, newUnits, {})
  {
    forall p | p in newParts && newParts[p].state == Processed
      ensures HasUnit(newUnits, p)
    {
      if p == id {
        assert newUnits[u].partId == p;
      } else {
        var v :| v in units && units[v].partId == p;
        assert newUnits[v].partId == p;
      }
    }
  }

  lemma UnitStaysUsed(t: Tables, next: Tables)
    requires SnapshotsGrounded(t.parts, t.units, t.snapshots) && next.snapshots == t.snapshots
    requires forall u | u in t.units :: u in next.units && next.units[u] == t.units[u]
    requires forall p | p in t.parts :: p in next.parts && next.parts[p].plan == t.parts[p].plan
    ensures SnapshotsGrounded(next.parts, next.units, next.snapshots)
  {}

  lemma CacheAdded(t: Tables, key: string, row: CacheRow)
    requires Inv(t) && row.unitId in t.units && t.units[row.unitId].unit == row.unit
    ensures Inv(t.(cache := t.cache[key := row]))
  {
    hide HasUnit, NoDuplicates, OneUnitEach, DependenciesListed, SnapshotsGrounded, ProcessedHaveUnits, AttemptsCounted;
  }

  lemma PublishKeepsInv(setup: Setup, t: Tables, token: Token, unit: Unit, key: string)
    requires Inv(t) && OnPublish(t, setup.contains, token, unit, key).Some?
    ensures Inv(OnPublish(t, setup.contains, token, unit, key).value)
  {
    var id := token.partId;
    hide InvBut, CitationsInside, CachedUnit;
    if t.parts[id].state == Running {
      NoUnitsOf(t, {id});
      assert unit.unitId in t.units ==> unit.unitId in UnitsOf(t.units, {id});
      UnitAdded(t, id, unit);
      var row := t.parts[id];
      CacheAdded(Finish(AddUnit(t, id, unit), id), key,
                 CacheRow(unit.unitId, unit, row.plan.sourceSha256, row.planGeneration, row.claimGeneration));
    }
  }

  lemma ReuseKeepsInv(setup: Setup, t: Tables, token: Token, key: string)
    requires Inv(t) && OnReuse(t, setup.contains, setup.naming, token, key).Some?
    ensures Inv(OnReuse(t, setup.contains, setup.naming, token, key).value)
  {
    hide InvBut, CitationsInside;
    var id := token.partId;
    if CacheFits(t, setup.contains, id, key) {
      UnitAdded(t, id, Readdressed(setup.naming, CachedUnit(t, key).value, id, key));
    }
  }

  lemma SnapshotKeepsInv(t: Tables, snapshot: Snapshot)
    requires Inv(t) && OnSaveSnapshot(t, snapshot).Some?
    ensures Inv(OnSaveSnapshot(t, snapshot).value)
  {
    hide PartsFiled, UnitsFiled, OneUnitEach, ProcessedHaveUnits, AttemptsCounted, CacheBound, Latest;
  }

  lemma InvalidateKeepsInv(t: Tables, workspaceId: string, revisionId: string, entryId: string)
    requires Inv(t)
    ensures Inv(OnInvalidateEntry(t, workspaceId, revisionId, entryId))
  {
    var parts := EntryParts(t, workspaceId, revisionId, entryId);
    var units := UnitsOf(t.units, parts);
    var stale := SnapshotsUsing(t, workspaceId, revisionId, units);
    PartsReset(t, parts, workspaceId, revisionId);
    RevocationsDoNotMatter(DeleteUnits(DeleteSnapshots(t, stale), units),
                           Revoke(t, workspaceId, stale).revocations, parts);
    InvParts(t);
    hide InvBut;
    var rest := DeleteUnits(DeleteSnapshots(Revoke(t, workspaceId, stale), stale), units);
    PartsChange(rest, MarkInvalidated(rest, parts).parts, parts);
  }

  lemma RevocationsDoNotMatter(t: Tables, revocations: map<string, string>, open: set<string>)
    requires InvBut(t, open)
    ensures InvBut(t.(revocations := revocations), open)
  {}

  lemma CurrentDoesNotMatter(t: Tables, current: map<string, string>)
    requires Inv(t)
    ensures Inv(t.(current := current))
  {}

  lemma RetryKeepsInv(t: Tables, workspaceId: string, revisionId: string)
    requires Inv(t)
    ensures Inv(OnRetryFailed(t, workspaceId, revisionId))
  {
    hide InvBut, Unused;
    if Current(t, workspaceId, revisionId) {
      var failed := FailedParts(t, workspaceId, revisionId);
      var dropped := set p | p in failed && t.parts[p].attemptCount == 0;
      NoUnitsOf(t, dropped);
      PartsGo(t, dropped);
      KeptParts(t, dropped);
      hide DeleteParts, Requeue;
      RequeueKeepsInv(DeleteParts(t, dropped), failed);
    }
  }

  lemma KeptParts(t: Tables, gone: set<string>)
    ensures DeleteParts(t, gone).parts == t.parts - gone
  {
    hide UnitsOf;
  }

  lemma RequeueKeepsInv(t: Tables, parts: set<string>)
    requires Inv(t) && forall p | p in parts && p in t.parts :: t.parts[p].state == Failed
    ensures Inv(Requeue(t, parts))
  {
    InvParts(t);
    hide InvBut;
    PartsChange(t, Requeue(t, parts).parts, {});
  }

  lemma RecoverKeepsInv(t: Tables, now: int)
    requires Inv(t)
    ensures Inv(OnRecover(t, now))
  {
    InvParts(t);
    hide InvBut;
    PartsChange(t, OnRecover(t, now).parts, {});
  }

  lemma DeleteWorkspaceKeepsInv(t: Tables, workspaceId: string)
    requires Inv(t)
    ensures Inv(OnDeleteWorkspace(t, workspaceId))
  {
    var snapshots, parts := WorkspaceSnapshots(t, workspaceId), WorkspaceParts(t, workspaceId);
    var first := DeleteSnapshots(t, snapshots);
    OtherWorkspacesDoNotUse(t, workspaceId);
    SnapshotsGo(t, snapshots, {});
    assert first.units == t.units;
    hide InvBut, Unused, UnitsOf, DeleteSnapshots, DeleteParts, WorkspaceSnapshots, WorkspaceParts, ForgetRevision;
    PartsGo(first, parts);
    RevisionForgotten(DeleteParts(first, parts), workspaceId);
  }

  lemma RevisionForgotten(t: Tables, workspaceId: string)
    requires Inv(t)
    ensures Inv(ForgetRevision(t, workspaceId))
  {}

  lemma OtherWorkspacesDoNotUse(t: Tables, workspaceId: string)
    requires Inv(t)
    ensures var snapshots, parts := WorkspaceSnapshots(t, workspaceId), WorkspaceParts(t, workspaceId);
            Unused(DeleteSnapshots(t, snapshots).snapshots, UnitsOf(t.units, parts))
  {
    hide PartsFiled, UnitsFiled, OneUnitEach, ProcessedHaveUnits, AttemptsCounted, CacheBound, DependenciesListed;
  }

  /** The calls the scheduler and the service make: none of them writes the state `processed` itself. */
  predicate InUse(op: Operation) {
    match op
    case Upsert(plans) => forall i | 0 <= i < |plans| :: plans[i].state != Processed
    case RecordAttempt(_, _, attempt, _) => attempt.outcome != Processed
    case _ => true
  }

  lemma StepKeepsInv(setup: Setup, t: Tables, op: Operation)
    requires Inv(t) && InUse(op)
    ensures Inv(Step(setup, t, op))
  {
    hide InvBut, Inv, UpsertAll, Revisions, OnRecordAttempt, OnReuse, OnPublish, OnSaveSnapshot, OnInvalidateEntry;
    hide OnRetryFailed, OnRecover, OnDeleteWorkspace, UnitsOf;
    match op
    case Upsert(plans) =>
      if Revisions(plans).Some? {
        CurrentDoesNotMatter(t, t.current + Revisions(plans).value);
        UpsertAllKeepsInv(t.(current := t.current + Revisions(plans).value), plans);
      }
    case Claim(w, r, now, chosen) =>
      if OnClaim(t, w, r, now, chosen) == Some(ClaimAll(t, chosen)) && OnClaim(t, w, r, now, chosen) != Some(t) {
        ClaimKeepsInv(t, chosen);
      }
    case RecordAttempt(token, number, attempt, next) =>
      if Attempted(setup, t, op).Some? { RecordKeepsInv(t, token, number, attempt, next); }
    case Resume(token, number) =>
      if Attempted(setup, t, op).Some? {
        FiledPart(t, token.partId);
        OnePartChanges(t, token.partId, OnResume(t, token, number).value.parts[token.partId]);
      }
    case FailExhausted(token) =>
      if Attempted(setup, t, op).Some? {
        FiledPart(t, token.partId);
        OnePartChanges(t, token.partId, OnFailExhausted(t, token).value.parts[token.partId]);
      }
    case Pause(token, pausedAt) =>
      if Attempted(setup, t, op).Some? {
        FiledPart(t, token.partId);
        OnePartChanges(t, token.partId, OnPause(t, token, pausedAt).value.parts[token.partId]);
      }
    case Reuse(token, key) => if Attempted(setup, t, op).Some? { ReuseKeepsInv(setup, t, token, key); }
    case Publish(token, unit, key) => if Attempted(setup, t, op).Some? { PublishKeepsInv(setup, t, token, unit, key); }
    case SaveSnapshot(snapshot) => if Attempted(setup, t, op).Some? { SnapshotKeepsInv(t, snapshot); }
    case DeleteSnapshot(id) => DeletedSnapshot(t, id);
    case InvalidateEntry(w, r, e) => InvalidateKeepsInv(t, w, r, e);
    case DeleteInvalidated(w, r, e) =>
      if Attempted(setup, t, op).Some? { DeletedEntry(t, EntryParts(t, w, r, e)); }
    case RetryFailed(w, r) => RetryKeepsInv(t, w, r);
    case Recover(now) => RecoverKeepsInv(t, now);
    case DeleteWorkspace(w) => DeleteWorkspaceKeepsInv(t, w);
  }

  lemma FiledPart(t: Tables, id: string)
    requires Inv(t) && id in t.parts
    ensures t.parts[id].plan.partId == id && t.parts[id].planGeneration >= 1
  {
    InvParts(t);
  }

  lemma DeletedSnapshot(t: Tables, id: string)
    requires Inv(t)
    ensures Inv(DeleteSnapshots(t, {id}))
  {
    SnapshotsGo(t, {id}, {});
  }

  lemma DeletedEntry(t: Tables, parts: set<string>)
    requires Inv(t) && forall p | p in parts :: p in t.parts && t.parts[p].state == Invalidated
    ensures Inv(DeleteParts(t, parts))
  {
    NoUnitsOf(t, parts);
    PartsGo(t, parts);
  }

  /** From empty tables, the calls the program makes keep the tables consistent. */
  lemma {:induction false} RunKeepsInv(setup: Setup, ops: seq<Operation>)
    requires forall i | 0 <= i < |ops| :: InUse(ops[i])
    ensures Inv(Run(setup, NoTables(), ops))
    decreases |ops|
  {
    if ops != [] {
      RunKeepsInv(setup, ops[..|ops| - 1]);
      hide Inv, InUse, Step;
      StepKeepsInv(setup, Run(setup, NoTables(), ops[..|ops| - 1]), ops[|ops| - 1]);
    }
  }
}
