/** Which transactions take a stored snapshot's row away, and which of them record that they did. */
module SnapshotRows {
  import opened Outcomes
  import opened EvidenceTables
  import opened EvidenceInvariant
  import opened EvidenceFacts

  // ---------------------------------------------------------------- ids name workspaces

  /** A snapshot's id is a digest over its workspace among others: it gives the workspace away. */
  type Home = string -> string

  /** The snapshots that are saved carry ids of their own workspace. */
  predicate SavesAtHome(home: Home, op: Operation) {
    op.SaveSnapshot? ==> home(op.snapshot.snapshotId) == op.snapshot.workspaceId
  }

  predicate RowsAtHome(home: Home, t: Tables) {
    && (forall s | s in t.snapshots :: t.snapshots[s].workspaceId == home(s))
    && forall s | s in t.revocations :: t.revocations[s] == home(s)
  }

  lemma StepKeepsHome(home: Home, setup: Setup, t: Tables, op: Operation)
    requires RowsAtHome(home, t) && SavesAtHome(home, op)
    ensures RowsAtHome(home, Step(setup, t, op))
  {
    SnapshotRowsMove(setup, t, op);
    hide Step;
  }

  /** After any calls every snapshot and every revocation is under the workspace its id names. */
  lemma {:induction false} RunKeepsHome(home: Home, setup: Setup, ops: seq<Operation>)
    requires forall i | 0 <= i < |ops| :: SavesAtHome(home, ops[i])
    ensures RowsAtHome(home, Run(setup, NoTables(), ops))
    decreases |ops|
  {
    hide Step, SavesAtHome;
    if ops != [] {
      RunKeepsHome(home, setup, ops[..|ops| - 1]);
      StepKeepsHome(home, setup, Run(setup, NoTables(), ops[..|ops| - 1]), ops[|ops| - 1]);
    }
  }

  // ---------------------------------------------------------------- what a call does to rows and revocations

  /** The snapshots an invalidation withdraws. */
  function Withdrawn(t: Tables, workspaceId: string, revisionId: string, entryId: string): set<string> {
    SnapshotsUsing(t, workspaceId, revisionId, UnitsOf(t.units, EntryParts(t, workspaceId, revisionId, entryId)))
  }

  /** A row that is stored after a call was stored before or is the saved one; a revocation is old or a withdrawal. */
  predicate RowsMove(t: Tables, op: Operation, next: Tables) {
    && (forall s | s in next.snapshots ::
          || (s in t.snapshots && next.snapshots[s] == t.snapshots[s])
          || (op.SaveSnapshot? && s == op.snapshot.snapshotId && next.snapshots[s] == op.snapshot))
    && (forall s | s in next.revocations ::
          || (s in t.revocations && next.revocations[s] == t.revocations[s])
          || (op.InvalidateEntry? && next.revocations[s] == op.workspaceId && s in t.snapshots
              && t.snapshots[s].workspaceId == op.workspaceId))
  }

  lemma SnapshotRowsMove(setup: Setup, t: Tables, op: Operation)
    ensures RowsMove(t, op, Step(setup, t, op))
  {
    hide Step;
    match op
    case Upsert(plans) => UpsertedRowsMove(setup, t, plans); hide RowsMove;
    case InvalidateEntry(w, r, e) => InvalidatedRowsMove(setup, t, w, r, e); hide RowsMove;
    case RetryFailed(_, _) | DeleteInvalidated(_, _, _) => DeletionRows(setup, t, op);
    case DeleteWorkspace(w) => DeletedRowsMove(setup, t, w); hide RowsMove;
    case DeleteSnapshot(_) => DeletedRowMoves(setup, t, op); hide RowsMove;
    case SaveSnapshot(snapshot) => SavedRowsMove(setup, t, snapshot); hide RowsMove;
    case _ => SnapshotsUntouched(setup, t, op);
  }

  lemma InvalidatedRowsMove(setup: Setup, t: Tables, workspaceId: string, revisionId: string, entryId: string)
    ensures var op := InvalidateEntry(workspaceId, revisionId, entryId); RowsMove(t, op, Step(setup, t, op))
  {
    InvalidationRows(t, workspaceId, revisionId, entryId);
    hide OnInvalidateEntry, Withdrawn;
  }

  lemma DeletedRowsMove(setup: Setup, t: Tables, workspaceId: string)
    ensures RowsMove(t, DeleteWorkspace(workspaceId), Step(setup, t, DeleteWorkspace(workspaceId)))
  {
    WorkspaceRows(t, workspaceId);
    hide OnDeleteWorkspace;
  }

  lemma DeletedRowMoves(setup: Setup, t: Tables, op: Operation)
    requires op.DeleteSnapshot?
    ensures RowsMove(t, op, Step(setup, t, op))
  {}

  lemma UpsertedRowsMove(setup: Setup, t: Tables, plans: seq<Plan>)
    ensures RowsMove(t, Upsert(plans), Step(setup, t, Upsert(plans)))
  {
    UpsertRowsMove(t, plans);
    hide OnUpsert;
  }

  lemma SavedRowsMove(setup: Setup, t: Tables, snapshot: Snapshot)
    ensures RowsMove(t, SaveSnapshot(snapshot), Step(setup, t, SaveSnapshot(snapshot)))
  {
    hide DependenciesFit;
  }

  lemma UpsertRowsMove(t: Tables, plans: seq<Plan>)
    ensures OnUpsert(t, plans).Some? ==>
              var next := OnUpsert(t, plans).value;
              && next.revocations == t.revocations
              && forall s | s in next.snapshots :: s in t.snapshots && next.snapshots[s] == t.snapshots[s]
  {
    hide Revisions, UpsertAll;
    if Revisions(plans).Some? {
      UpsertAllRows(t.(current := t.current + Revisions(plans).value), plans);
    }
  }

  lemma {:induction false} UpsertAllRows(t: Tables, plans: seq<Plan>)
    ensures UpsertAll(t, plans).revocations == t.revocations
    ensures forall s | s in UpsertAll(t, plans).snapshots ::
              s in t.snapshots && UpsertAll(t, plans).snapshots[s] == t.snapshots[s]
    decreases |plans|
  {
    hide UpsertOne;
    if plans != [] {
      UpsertAllRows(t, plans[..|plans| - 1]);
      UpsertOneRows(UpsertAll(t, plans[..|plans| - 1]), plans[|plans| - 1]);
    }
  }

  /** What stripping a part does to the snapshots. */
  lemma StrippedRows(t: Tables, id: string)
    requires id in t.parts
    ensures var stale := SnapshotsUsing(t, t.parts[id].plan.workspaceId, t.parts[id].plan.revisionId,
                                        UnitsOf(t.units, {id}));
            var next := Stripped(t, id);
            && next.snapshots == t.snapshots - stale && next.units == t.units - UnitsOf(t.units, {id})
            && next.dependencies == (set d | d in t.dependencies && d.0 !in stale && d.1 !in UnitsOf(t.units, {id}))
            && next.parts == t.parts && next.revocations == t.revocations
  {
    hide SnapshotsUsing, UnitsOf;
  }

  lemma UpsertOneRows(t: Tables, plan: Plan)
    ensures UpsertOne(t, plan).revocations == t.revocations
    ensures forall s | s in UpsertOne(t, plan).snapshots ::
              s in t.snapshots && UpsertOne(t, plan).snapshots[s] == t.snapshots[s]
  {
    if plan.partId in t.parts {
      StrippedRows(t, plan.partId);
    }
    hide Stripped, SnapshotsUsing, UnitsOf;
  }

  lemma InvalidationRows(t: Tables, workspaceId: string, revisionId: string, entryId: string)
    ensures var next, gone := OnInvalidateEntry(t, workspaceId, revisionId, entryId),
                              Withdrawn(t, workspaceId, revisionId, entryId);
            && next.snapshots == t.snapshots - gone
            && (forall s :: s in next.revocations <==> s in t.revocations || s in gone)
            && (forall s | s in t.revocations :: next.revocations[s] == t.revocations[s])
            && (forall s | s in next.revocations && s !in t.revocations :: next.revocations[s] == workspaceId)
            && forall s | s in gone :: s in t.snapshots && t.snapshots[s].workspaceId == workspaceId
  {
    hide UnitsOf, EntryParts, DependsOn;
  }

  lemma PartsDeletionRows(t: Tables, gone: set<string>)
    ensures DeleteParts(t, gone).snapshots == t.snapshots && DeleteParts(t, gone).revocations == t.revocations
  {
    hide UnitsOf;
  }

  lemma DeletionRows(setup: Setup, t: Tables, op: Operation)
    requires op.RetryFailed? || op.DeleteInvalidated?
    ensures Step(setup, t, op).snapshots == t.snapshots && Step(setup, t, op).revocations == t.revocations
  {
    hide DeleteParts, EntryParts;
    match op
    case RetryFailed(w, r) =>
      PartsDeletionRows(t, set p | (p in FailedParts(t, w, r) && t.parts[p].attemptCount == 0));
    case DeleteInvalidated(w, r, e) => PartsDeletionRows(t, EntryParts(t, w, r, e));
  }

  lemma WorkspaceRows(t: Tables, workspaceId: string)
    ensures var next := OnDeleteWorkspace(t, workspaceId);
            && next.snapshots == t.snapshots - WorkspaceSnapshots(t, workspaceId)
            && next.revocations == map s | s in t.revocations && t.revocations[s] != workspaceId :: t.revocations[s]
  {
    var rest := DeleteSnapshots(t, WorkspaceSnapshots(t, workspaceId));
    PartsDeletionRows(rest, WorkspaceParts(t, workspaceId));
    hide DeleteParts, WorkspaceParts, WorkspaceSnapshots;
  }

  // ---------------------------------------------------------------- rows lost without a record

  /** The batch changes the stored plan of the part. */
  predicate Replans(t: Tables, plans: seq<Plan>, part: string) {
    part in t.parts && exists plan | plan in plans :: plan.partId == part && plan != t.parts[part].plan
  }

  /** The snapshot depends on a unit of the part. */
  predicate UsesPart(t: Tables, snapshot: string, part: string) {
    && part in t.parts
    && snapshot in SnapshotsUsing(t, t.parts[part].plan.workspaceId, t.parts[part].plan.revisionId,
                                  UnitsOf(t.units, {part}))
  }

  predicate LosesEvidence(t: Tables, plans: seq<Plan>, snapshot: string) {
    exists part | part in t.parts :: Replans(t, plans, part) && UsesPart(t, snapshot, part)
  }

  /** What a batch has made of the tables as far as snapshots go. */
  ghost predicate Trimmed(t: Tables, plans: seq<Plan>, next: Tables) {
    RowsTrimmed(t, plans, next) && PartsTrimmed(t, plans, next) && LinksTrimmed(t, next)
  }

  ghost predicate RowsTrimmed(t: Tables, plans: seq<Plan>, next: Tables) {
    && (forall s :: s in next.snapshots <==> s in t.snapshots && !LosesEvidence(t, plans, s))
    && (forall s | s in next.snapshots :: next.snapshots[s] == t.snapshots[s])
    && next.revocations == t.revocations
  }

  ghost predicate PartsTrimmed(t: Tables, plans: seq<Plan>, next: Tables) {
    && (forall p | p in t.parts :: p in next.parts && PartTrimmed(t, plans, next, p))
    && forall p | p !in t.parts :: UnitsOf(next.units, {p}) == {}
  }

  ghost predicate LinksTrimmed(t: Tables, next: Tables) {
    forall d :: d in next.dependencies <==> d in t.dependencies && d.0 in next.snapshots && d.1 in next.units
  }

  predicate PartTrimmed(t: Tables, plans: seq<Plan>, next: Tables, part: string)
    requires part in t.parts && part in next.parts
  {
    if Replans(t, plans, part) then UnitsOf(next.units, {part}) == {}
    else next.parts[part].plan == t.parts[part].plan && UnitsOf(next.units, {part}) == UnitsOf(t.units, {part})
  }

  lemma NothingTrimmed(t: Tables)
    requires Inv(t)
    ensures Trimmed(t, [], t)
  {
    hide PartsFiled, OneUnitEach, ProcessedHaveUnits, AttemptsCounted, CacheBound, NoDuplicates;
    forall d | d in t.dependencies
      ensures d.0 in t.snapshots && d.1 in t.units
    {
      assert UsesUnit(t.parts, t.units, t.snapshots[d.0], d.1);
    }
    forall p | p !in t.parts
      ensures UnitsOf(t.units, {p}) == {}
    {
      assert forall u | u in t.units :: t.units[u].partId in t.parts;
    }
  }

  /** The batch changes a part it did not change before; its stored plan is then still the one from before. */
  lemma ReplansGrow(t: Tables, plans: seq<Plan>, part: string)
    requires plans != []
    ensures var front, last := plans[..|plans| - 1], plans[|plans| - 1];
            Replans(t, plans, part) <==>
              Replans(t, front, part) || (part in t.parts && last.partId == part && last != t.parts[part].plan)
  {
    var front, last := plans[..|plans| - 1], plans[|plans| - 1];
    assert plans == front + [last];
  }

  lemma {:induction false} UpsertAllTrims(t: Tables, plans: seq<Plan>)
    requires Inv(t)
    ensures Trimmed(t, plans, UpsertAll(t, plans))
    decreases |plans|
  {
    hide Inv, Trimmed, UpsertOne;
    if plans == [] {
      NothingTrimmed(t);
    } else {
      UpsertAllTrims(t, plans[..|plans| - 1]);
      UpsertOneTrims(t, plans, UpsertAll(t, plans[..|plans| - 1]));
    }
  }

  /** A change that replans no further part and touches no snapshot leaves the trimming as it is. */
  lemma SameTrim(t: Tables, front: seq<Plan>, plans: seq<Plan>, mid: Tables, next: Tables)
    requires Trimmed(t, front, mid) && forall p :: Replans(t, plans, p) <==> Replans(t, front, p)
    requires next.snapshots == mid.snapshots && next.units == mid.units && next.dependencies == mid.dependencies
    requires next.revocations == mid.revocations
    requires forall p | p in mid.parts ::
               p in next.parts && (!Replans(t, front, p) && p in t.parts ==> next.parts[p].plan == mid.parts[p].plan)
    ensures Trimmed(t, plans, next)
  {
    hide Replans, UsesPart, UnitsOf;
    forall s
      ensures LosesEvidence(t, plans, s) <==> LosesEvidence(t, front, s)
    {
    }
  }

  /** Before and after a trimming the same of the remaining snapshots depend on remaining units. */
  lemma UsersAlike(t: Tables, mid: Tables, workspaceId: string, revisionId: string, units: set<string>)
    requires forall s | s in mid.snapshots :: s in t.snapshots && mid.snapshots[s] == t.snapshots[s]
    requires forall d :: d in mid.dependencies <==> d in t.dependencies && d.0 in mid.snapshots && d.1 in mid.units
    requires units <= mid.units.Keys
    ensures forall s | s in mid.snapshots ::
              s in SnapshotsUsing(mid, workspaceId, revisionId, units)
              <==> s in SnapshotsUsing(t, workspaceId, revisionId, units)
  {
    forall s | s in mid.snapshots
      ensures DependsOn(mid.dependencies, s, units) <==> DependsOn(t.dependencies, s, units)
    {
      if DependsOn(t.dependencies, s, units) {
        var d :| d in t.dependencies && d.0 == s && d.1 in units;
        assert d in mid.dependencies;
      }
    }
  }

  /** The part's strip, as far as snapshots go. */
  predicate StrippedOf(mid: Tables, next: Tables, id: string)
    requires id in mid.parts
  {
    var rest := Stripped(mid, id);
    && next.snapshots == rest.snapshots && next.units == rest.units
    && next.dependencies == rest.dependencies && next.revocations == rest.revocations
    && next.parts.Keys == mid.parts.Keys && forall p | p in mid.parts && p != id :: next.parts[p] == mid.parts[p]
  }

  /** A part the batch changes for the first time loses its units and the snapshots that use them. */
  lemma PartIsTrimmed(t: Tables, front: seq<Plan>, plans: seq<Plan>, mid: Tables, next: Tables, id: string)
    requires Trimmed(t, front, mid) && id in t.parts && id in mid.parts && !Replans(t, front, id)
    requires forall p :: Replans(t, plans, p) <==> Replans(t, front, p) || p == id
    requires StrippedOf(mid, next, id)
    ensures Trimmed(t, plans, next)
  {
    hide Replans, RowsTrimmed, PartsTrimmed, LinksTrimmed, StrippedOf;
    StrippedRowsTrimmed(t, front, plans, mid, next, id);
    StrippedPartsTrimmed(t, front, plans, mid, next, id);
    StrippedLinksTrimmed(t, mid, next, id);
  }

  lemma StrippedRowsTrimmed(t: Tables, front: seq<Plan>, plans: seq<Plan>, mid: Tables, next: Tables, id: string)
    requires Trimmed(t, front, mid) && id in t.parts && id in mid.parts && !Replans(t, front, id)
    requires forall p :: Replans(t, plans, p) <==> Replans(t, front, p) || p == id
    requires StrippedOf(mid, next, id)
    ensures RowsTrimmed(t, plans, next)
  {
    StrippedRows(mid, id);
    var plan := t.parts[id].plan;
    var units := UnitsOf(t.units, {id});
    TrimmedPart(t, front, mid, id);
    UsersAlike(t, mid, plan.workspaceId, plan.revisionId, units);
    hide Stripped, Replans, SnapshotsUsing, PartsTrimmed, LinksTrimmed, LosesEvidence, UnitsOf;
    forall s
      ensures LosesEvidence(t, plans, s) <==> LosesEvidence(t, front, s) || UsesPart(t, s, id)
    {
      LosesOneMore(t, front, plans, id, s);
    }
  }

  lemma StrippedPartsTrimmed(t: Tables, front: seq<Plan>, plans: seq<Plan>, mid: Tables, next: Tables, id: string)
    requires Trimmed(t, front, mid) && id in t.parts && id in mid.parts
    requires forall p :: Replans(t, plans, p) <==> Replans(t, front, p) || p == id
    requires StrippedOf(mid, next, id)
    ensures PartsTrimmed(t, plans, next)
  {
    StrippedRows(mid, id);
    OtherUnits(mid.units, next.units, id);
    hide Stripped, Replans, SnapshotsUsing, RowsTrimmed, LinksTrimmed, UnitsOf;
  }

  lemma StrippedLinksTrimmed(t: Tables, mid: Tables, next: Tables, id: string)
    requires LinksTrimmed(t, mid) && id in mid.parts && StrippedOf(mid, next, id)
    ensures LinksTrimmed(t, next)
  {
    StrippedRows(mid, id);
    hide Stripped, SnapshotsUsing, UnitsOf;
  }

  lemma LosesOneMore(t: Tables, front: seq<Plan>, plans: seq<Plan>, id: string, s: string)
    requires id in t.parts && forall p :: Replans(t, plans, p) <==> Replans(t, front, p) || p == id
    ensures LosesEvidence(t, plans, s) <==> LosesEvidence(t, front, s) || UsesPart(t, s, id)
  {
    hide Replans, UsesPart;
    assert Replans(t, plans, id);
  }

  lemma OtherUnits(units: map<string, UnitRow>, rest: map<string, UnitRow>, id: string)
    requires rest == units - UnitsOf(units, {id})
    ensures UnitsOf(rest, {id}) == {} && forall p | p != id :: UnitsOf(rest, {p}) == UnitsOf(units, {p})
  {}

  lemma UpsertOneTrims(t: Tables, plans: seq<Plan>, mid: Tables)
    requires plans != [] && Trimmed(t, plans[..|plans| - 1], mid)
    ensures Trimmed(t, plans, UpsertOne(mid, plans[|plans| - 1]))
  {
    var front, last := plans[..|plans| - 1], plans[|plans| - 1];
    var id, next := last.partId, UpsertOne(mid, last);
    forall p
      ensures Replans(t, plans, p) <==>
                Replans(t, front, p) || (p in t.parts && last.partId == p && last != t.parts[p].plan)
    {
      ReplansGrow(t, plans, p);
    }
    TrimmedPart(t, front, mid, id);
    UpsertOneShape(mid, last);
    hide Replans, Trimmed, UpsertOne, StrippedOf;
    if id in mid.parts && mid.parts[id].plan != last {
      if id in t.parts && !Replans(t, front, id) {
        PartIsTrimmed(t, front, plans, mid, next, id);
      } else {
        NothingToStrip(mid, next, id);
        SameTrim(t, front, plans, mid, next);
      }
    } else {
      SameTrim(t, front, plans, mid, next);
    }
  }

  /** A batch's plan strips its part if it changes it, and leaves every snapshot alone if not. */
  lemma UpsertOneShape(t: Tables, plan: Plan)
    ensures var id, next := plan.partId, UpsertOne(t, plan);
            if id in t.parts && t.parts[id].plan != plan then StrippedOf(t, next, id)
            else
              && next.snapshots == t.snapshots && next.units == t.units && next.dependencies == t.dependencies
              && next.revocations == t.revocations
              && forall p | p in t.parts :: p in next.parts && next.parts[p] == t.parts[p]
  {
    if plan.partId in t.parts {
      StrippedRows(t, plan.partId);
    }
    hide Stripped;
  }

  /** Stripping a part without units touches no snapshot. */
  lemma NothingToStrip(t: Tables, next: Tables, id: string)
    requires id in t.parts && StrippedOf(t, next, id) && UnitsOf(t.units, {id}) == {}
    ensures next.snapshots == t.snapshots && next.units == t.units && next.dependencies == t.dependencies
    ensures next.revocations == t.revocations && next.parts.Keys == t.parts.Keys
    ensures forall p | p in t.parts && p != id :: next.parts[p] == t.parts[p]
  {
    StrippedRows(t, id);
    UnusedUnits(t, t.parts[id].plan.workspaceId, t.parts[id].plan.revisionId);
    hide Stripped, SnapshotsUsing, UnitsOf;
    assert next.dependencies == t.dependencies;
  }

  lemma TrimmedPart(t: Tables, plans: seq<Plan>, next: Tables, id: string)
    requires Trimmed(t, plans, next)
    ensures id in t.parts ==> id in next.parts && PartTrimmed(t, plans, next, id)
    ensures id !in t.parts ==> UnitsOf(next.units, {id}) == {}
    ensures forall p | p in t.parts :: p in next.parts
  {
    hide UnitsOf, Replans, LosesEvidence;
  }

  lemma UnusedUnits(t: Tables, workspaceId: string, revisionId: string)
    ensures SnapshotsUsing(t, workspaceId, revisionId, {}) == {}
  {}

  // ---------------------------------------------------------------- which calls leave a document unaccounted for

  /** The tables still know of the snapshot, as stored or as revoked. */
  predicate Known(t: Tables, snapshot: string) {
    snapshot in t.snapshots || snapshot in t.revocations
  }

  /** The calls that make the tables forget the snapshot. */
  predicate Forgets(t: Tables, op: Operation, snapshot: string) {
    match op
    case Upsert(plans) =>
      && snapshot in t.snapshots && snapshot !in t.revocations
      && Revisions(plans).Some? && LosesEvidence(t, plans, snapshot)
    case DeleteSnapshot(id) => snapshot == id && snapshot !in t.revocations
    case DeleteWorkspace(w) =>
      && (snapshot in t.snapshots ==> t.snapshots[snapshot].workspaceId == w)
      && (snapshot in t.revocations ==> t.revocations[snapshot] == w)
    case _ => false
  }

  /** A snapshot the tables know of stays known unless the call is one of those. */
  lemma ForgettingIsExact(setup: Setup, t: Tables, op: Operation, snapshot: string)
    requires Inv(t) && Known(t, snapshot)
    ensures Known(Step(setup, t, op), snapshot) <==> !Forgets(t, op, snapshot)
  {
    hide Step;
    match op
    case Upsert(plans) => BatchForgets(setup, t, plans, snapshot); hide Known, Forgets;
    case InvalidateEntry(w, r, e) => InvalidationForgetsNone(setup, t, w, r, e, snapshot); hide Known;
    case RetryFailed(_, _) | DeleteInvalidated(_, _, _) => DeletionRows(setup, t, op);
    case DeleteWorkspace(w) => WorkspaceForgets(setup, t, w, snapshot); hide Known, Forgets;
    case DeleteSnapshot(id) => DeletionForgets(setup, t, id, snapshot); hide Known, Forgets;
    case SaveSnapshot(s) => SavingForgetsNone(setup, t, s, snapshot); hide Known;
    case _ => SnapshotsUntouched(setup, t, op);
  }

  lemma InvalidationForgetsNone(setup: Setup, t: Tables, workspaceId: string, revisionId: string, entryId: string,
                                snapshot: string)
    requires Known(t, snapshot)
    ensures Known(Step(setup, t, InvalidateEntry(workspaceId, revisionId, entryId)), snapshot)
  {
    InvalidationRows(t, workspaceId, revisionId, entryId);
    hide OnInvalidateEntry, Withdrawn;
  }

  lemma WorkspaceForgets(setup: Setup, t: Tables, workspaceId: string, snapshot: string)
    requires Known(t, snapshot)
    ensures Known(Step(setup, t, DeleteWorkspace(workspaceId)), snapshot)
            <==> !Forgets(t, DeleteWorkspace(workspaceId), snapshot)
  {
    WorkspaceRows(t, workspaceId);
    hide OnDeleteWorkspace;
  }

  lemma DeletionForgets(setup: Setup, t: Tables, id: string, snapshot: string)
    requires Known(t, snapshot)
    ensures Known(Step(setup, t, DeleteSnapshot(id)), snapshot) <==> !Forgets(t, DeleteSnapshot(id), snapshot)
  {}

  lemma SavingForgetsNone(setup: Setup, t: Tables, saved: Snapshot, snapshot: string)
    requires Known(t, snapshot)
    ensures Known(Step(setup, t, SaveSnapshot(saved)), snapshot)
  {
    hide DependenciesFit;
  }

  lemma SnapshotsUntouched(setup: Setup, t: Tables, op: Operation)
    requires !op.Upsert? && !op.InvalidateEntry? && !op.RetryFailed? && !op.DeleteInvalidated? && !op.DeleteWorkspace?
    requires !op.DeleteSnapshot? && !op.SaveSnapshot?
    ensures Step(setup, t, op).snapshots == t.snapshots && Step(setup, t, op).revocations == t.revocations
  {
    hide CitationsInside, Readdressed, Addressed, PartIsCurrent, Held, Matches, AlreadyPublished, CachedUnit, CacheFits;
    hide Eligible;
  }

  lemma BatchForgets(setup: Setup, t: Tables, plans: seq<Plan>, snapshot: string)
    requires Inv(t) && Known(t, snapshot)
    ensures Known(Step(setup, t, Upsert(plans)), snapshot) <==> !Forgets(t, Upsert(plans), snapshot)
  {
    if Revisions(plans).Some? {
      var s := t.(current := t.current + Revisions(plans).value);
      CurrentDoesNotMatter(t, s.current);
      UpsertAllTrims(s, plans);
      hide Inv, UpsertAll, PartsTrimmed, LinksTrimmed, RowsTrimmed, LosesEvidence, Revisions;
      LossIsTheSame(t, s.current, plans, snapshot);
      TrimmedKnows(s, plans, UpsertAll(s, plans), snapshot);
    }
  }

  lemma TrimmedKnows(t: Tables, plans: seq<Plan>, next: Tables, snapshot: string)
    requires RowsTrimmed(t, plans, next) && Known(t, snapshot)
    ensures Known(next, snapshot) <==>
            snapshot in t.revocations || (snapshot in t.snapshots && !LosesEvidence(t, plans, snapshot))
  {
    hide LosesEvidence;
  }

  lemma LossIsTheSame(t: Tables, current: map<string, string>, plans: seq<Plan>, snapshot: string)
    ensures LosesEvidence(t.(current := current), plans, snapshot) <==> LosesEvidence(t, plans, snapshot)
  {
    var s := t.(current := current);
    forall p
      ensures Replans(s, plans, p) == Replans(t, plans, p) && UsesPart(s, snapshot, p) == UsesPart(t, snapshot, p)
    {
      CurrentIsNotRead(t, current, plans, snapshot, p);
    }
    hide Replans, UsesPart;
  }

  lemma CurrentIsNotRead(t: Tables, current: map<string, string>, plans: seq<Plan>, snapshot: string, part: string)
    ensures Replans(t.(current := current), plans, part) == Replans(t, plans, part)
    ensures UsesPart(t.(current := current), snapshot, part) == UsesPart(t, snapshot, part)
  {}

  /** Every changed plan of a part makes the tables forget the snapshots that use its evidence and are not revoked. */
  lemma ReplanForgets(setup: Setup, t: Tables, plans: seq<Plan>, plan: Plan, snapshot: string, unit: string)
    requires Inv(t) && snapshot in t.snapshots && snapshot !in t.revocations && unit in t.snapshots[snapshot].unitIds
    requires unit in t.units && plan.partId == t.units[unit].partId && plan.partId in t.parts
    requires Revisions(plans).Some? && plan in plans && plan != t.parts[plan.partId].plan
    ensures !Known(Step(setup, t, Upsert(plans)), snapshot)
  {
    hide PartsFiled, UnitsFiled, OneUnitEach, ProcessedHaveUnits, AttemptsCounted, CacheBound, NoDuplicates, HasUnit;
    assert UsesUnit(t.parts, t.units, t.snapshots[snapshot], unit);
    assert (snapshot, unit) in t.dependencies;
    assert UsesPart(t, snapshot, plan.partId);
    assert Replans(t, plans, plan.partId);
    assert LosesEvidence(t, plans, snapshot);
    BatchForgets(setup, t, plans, snapshot);
  }

  /** No call of the run forgets the snapshot. */
  predicate NeverForgotten(setup: Setup, ops: seq<Operation>, from: nat, snapshot: string) {
    forall n | from <= n < |ops| :: !Forgets(Run(setup, NoTables(), ops[..n]), ops[n], snapshot)
  }

  /** Over whole runs: once saved, a snapshot stays stored or revoked as long as no call forgets it. */
  lemma {:induction false} KnownForGood(setup: Setup, ops: seq<Operation>, from: nat, snapshot: string)
    requires from <= |ops| && (forall i | 0 <= i < |ops| :: InUse(ops[i]))
    requires Known(Run(setup, NoTables(), ops[..from]), snapshot) && NeverForgotten(setup, ops, from, snapshot)
    ensures Known(Run(setup, NoTables(), ops), snapshot)
    decreases |ops|
  {
    hide Step, Known, Forgets, Inv, InUse;
    if from == |ops| {
      assert ops[..from] == ops;
    } else {
      var front, last := ops[..|ops| - 1], ops[|ops| - 1];
      assert front[..from] == ops[..from];
      forall n | from <= n < |front|
        ensures !Forgets(Run(setup, NoTables(), front[..n]), front[n], snapshot)
      {
        assert front[..n] == ops[..n];
      }
      KnownForGood(setup, front, from, snapshot);
      RunKeepsInv(setup, front);
      ForgettingIsExact(setup, Run(setup, NoTables(), front), last, snapshot);
    }
  }
}
