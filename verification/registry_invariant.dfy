/** The registry's inductive invariant, and what it gives over every run of the mutators. */
module RegistryInvariant {
  import opened Outcomes
  import opened Registry

  /** The journal has the kind, the artifact id and the names that its announcing intent was checked for. */
  predicate JournalRouted(journal: PublishJournal) {
    && ValidName(journal.temporaryName) && ValidName(journal.backupName)
    && journal.newClaim.kind == KindOf(journal.newClaim.collection)
    && Some(journal.newClaim.artifactId) == ArtifactIdFor(journal.newClaim.collection, journal.targetName)
  }

  /** A publication over a revoked snapshot can only publish the tombstone again. */
  predicate PublishKeepsRevocation(s: Space) {
    && (s.intent.Some? ==>
          !Unrevokes(s.intent.value.oldClaim, s.intent.value.collection, s.intent.value.expectedSha256))
    && (s.journal.Some? ==>
          !Unrevokes(s.journal.value.oldClaim, s.journal.value.newClaim.collection, s.journal.value.newClaim.sha256))
  }

  /** The check on one workspace's rows, strengthened to what every mutator keeps. */
  predicate SpaceInv(id: string, s: Space) {
    && SpaceValid(id, s)
    && (s.journal.Some? ==> JournalRouted(s.journal.value))
    && PublishKeepsRevocation(s)
  }

  predicate Inv(s: State) {
    forall id | id in s :: SpaceInv(id, s[id])
  }

  /** What a caller must respect for the state check to accept the change: every other mutator needs nothing. */
  predicate WellFormed(op: Operation) {
    match op
    case ReserveWorkspace(id, _) => ValidName(id)
    case ReservePublish(intent) => IntentRouted(intent)
    case PlanQuarantine(_, _, quarantineName, _) => ValidName(quarantineName)
    case AdvanceDelete(_, _, _, _, _, quarantineName) => ValidName(quarantineName)
    case _ => true
  }

  predicate StepIsExact(id: string, t: Space, op: Operation) {
    && (SpaceValid(id, t) <==> WellFormed(op))
    && (WellFormed(op) ==> SpaceInv(id, t))
  }

  lemma WorkspaceStep(id: string, s: Space, op: Operation)
    requires SpaceInv(id, s) && Decide(s, op).Changed? && id == WorkspaceOf(op)
    requires op.ReserveWorkspace? || op.RetireReserved? || op.FinalizeWorkspace? || op.ClearDeleted?
    ensures StepIsExact(id, Decide(s, op).next, op)
  {}

  lemma IntentStep(id: string, s: Space, op: Operation)
    requires SpaceInv(id, s) && Decide(s, op).Changed? && id == WorkspaceOf(op)
    requires op.ReservePublish? || op.ClaimTemporary? || op.ClearIntent?
    ensures StepIsExact(id, Decide(s, op).next, op)
  {}

  lemma PrepareStep(id: string, s: Space, op: Operation)
    requires SpaceInv(id, s) && Decide(s, op).Changed? && id == WorkspaceOf(op)
    requires op.PreparePublish?
    ensures StepIsExact(id, Decide(s, op).next, op)
  {}

  lemma JournalStep(id: string, s: Space, op: Operation)
    requires SpaceInv(id, s) && Decide(s, op).Changed? && id == WorkspaceOf(op)
    requires op.AdvancePublish? || op.ClearPublish? || op.AbortPublish?
    ensures StepIsExact(id, Decide(s, op).next, op)
  {
    hide ValidName, ValidClaim, ValidGeneration, ClaimRouteValid, ThreeNames, ArtifactIdFor, KindOf, Unrevokes;
  }

  lemma CommitStep(id: string, s: Space, op: Operation)
    requires SpaceInv(id, s) && Decide(s, op).Changed? && id == WorkspaceOf(op)
    requires op.CommitPublish?
    ensures StepIsExact(id, Decide(s, op).next, op)
  {
    AfterSlashOfPath(op.claim.collection, s.journal.value.targetName);
  }

  lemma BeginDeleteStep(id: string, s: Space, op: Operation)
    requires SpaceInv(id, s) && Decide(s, op).Changed? && id == WorkspaceOf(op)
    requires op.BeginDelete?
    ensures StepIsExact(id, Decide(s, op).next, op)
  {
    hide ValidName, ValidClaim, ClaimRouteValid, ValidIntent, ValidJournal;
  }

  lemma PlanQuarantineStep(id: string, s: Space, op: Operation)
    requires SpaceInv(id, s) && Decide(s, op).Changed? && id == WorkspaceOf(op)
    requires op.PlanQuarantine?
    ensures StepIsExact(id, Decide(s, op).next, op)
  {
    hide ValidName, ValidClaim, DeleteItemsValid, ArtifactsValid, WorkspaceValid, CollectionsValid;
    ItemIsValid(id, s, op.slot);
    var item := s.deleteItems[op.slot].(quarantineName := Some(op.quarantineName));
    DeleteItemUpdate(id, s, op.slot, item);
    OtherChecksIgnoreItems(id, s, op.slot, item);
  }

  lemma AdvanceDeleteStep(id: string, s: Space, op: Operation)
    requires SpaceInv(id, s) && Decide(s, op).Changed? && id == WorkspaceOf(op)
    requires op.AdvanceDelete?
    ensures StepIsExact(id, Decide(s, op).next, op)
  {
    hide ValidName, ValidClaim, DeleteItemsValid, ArtifactsValid, WorkspaceValid, CollectionsValid;
    ItemIsValid(id, s, op.slot);
    var item := s.deleteItems[op.slot].(phase := op.toItem, quarantineName := Some(op.quarantineName));
    DeleteItemUpdate(id, s, op.slot, item);
    OtherChecksIgnoreItems(id, s, op.slot, item);
  }

  lemma ItemIsValid(id: string, s: Space, slot: string)
    requires SpaceInv(id, s) && slot in s.deleteItems
    ensures DeleteItemValid(id, s, slot, s.deleteItems[slot])
  {}

  /** Replacing one delete item keeps every other item's check. */
  lemma DeleteItemUpdate(id: string, s: Space, slot: string, item: DeleteItem)
    requires DeleteItemsValid(id, s) && slot in s.deleteItems
    ensures var t := s.(deleteItems := s.deleteItems[slot := item]);
            DeleteItemsValid(id, t) <==> DeleteItemValid(id, s, slot, item)
  {
    var t := s.(deleteItems := s.deleteItems[slot := item]);
    assert t.deleteItems[slot] == item;
    forall k | k in t.deleteItems && k != slot
      ensures DeleteItemValid(id, t, k, t.deleteItems[k])
    {
      assert t.deleteItems[k] == s.deleteItems[k];
    }
  }

  lemma OtherChecksIgnoreItems(id: string, s: Space, slot: string, item: DeleteItem)
    requires SpaceInv(id, s) && slot in s.deleteItems
    ensures var t := s.(deleteItems := s.deleteItems[slot := item]);
            && WorkspaceValid(id, t) && CollectionsValid(t) && ArtifactsValid(id, t)
            && t.intent.None? && t.journal.None?
  {
    var t := s.(deleteItems := s.deleteItems[slot := item]);
    assert t.deleteItems.Keys == s.deleteItems.Keys;
    assert DeleteItemValid(id, s, slot, s.deleteItems[slot]);
  }

  lemma SpaceStep(id: string, s: Space, op: Operation)
    requires SpaceInv(id, s) && Decide(s, op).Changed? && id == WorkspaceOf(op)
    ensures StepIsExact(id, Decide(s, op).next, op)
  {
    match op
    case ReserveWorkspace(_, _) | RetireReserved(_, _) | FinalizeWorkspace(_, _, _, _, _) | ClearDeleted(_, _) =>
      WorkspaceStep(id, s, op);
    case ReservePublish(_) | ClaimTemporary(_, _, _, _) | ClearIntent(_, _, _) => IntentStep(id, s, op);
    case PreparePublish(_) => PrepareStep(id, s, op);
    case AdvancePublish(_, _, _, _, _) | ClearPublish(_, _, _) | AbortPublish(_, _, _, _) => JournalStep(id, s, op);
    case CommitPublish(_, _, _, _) => CommitStep(id, s, op);
    case BeginDelete(_, _) => BeginDeleteStep(id, s, op);
    case PlanQuarantine(_, _, _, _) => PlanQuarantineStep(id, s, op);
    case AdvanceDelete(_, _, _, _, _, _) => AdvanceDeleteStep(id, s, op);
  }

  // ---------------------------------------------------------------- every reachable state

  /** The check after a mutator rejects exactly the ill-formed requests, and the rest keep the invariant. */
  lemma PostCheckIsExact(s: State, op: Operation)
    requires Inv(s) && Decide(SpaceOf(s, WorkspaceOf(op)), op).Changed?
    ensures Accepts(s, op) <==> WellFormed(op)
    ensures WellFormed(op) ==> Inv(Candidate(s, op))
  {
    var id := WorkspaceOf(op);
    SpaceStep(id, SpaceOf(s, id), op);
    ReplacingOneSpace(s, id, Decide(SpaceOf(s, id), op).next);
  }

  lemma ReplacingOneSpace(s: State, id: string, space: Space)
    requires Inv(s)
    ensures ValidState(WithSpace(s, id, space)) <==> SpaceValid(id, space)
    ensures SpaceInv(id, space) ==> Inv(WithSpace(s, id, space))
  {
    var t := WithSpace(s, id, space);
    forall k | k in t && k != id
      ensures SpaceInv(k, t[k])
    {
      assert t[k] == s[k];
    }
    if space != EMPTY {
      assert id in t && t[id] == space;
    }
  }

  lemma MutateKeepsInv(s: State, op: Operation)
    requires Inv(s)
    ensures Inv(Mutate(s, op))
  {
    if Decide(SpaceOf(s, WorkspaceOf(op)), op).Changed? {
      PostCheckIsExact(s, op);
    }
  }

  /** From a valid registry no sequence of calls, whatever their arguments, leaves the invariant. */
  lemma {:induction false} RunKeepsInv(s: State, ops: seq<Operation>)
    requires Inv(s)
    ensures Inv(Run(s, ops))
    decreases |ops|
  {
    if ops != [] {
      MutateKeepsInv(s, ops[0]);
      RunKeepsInv(Mutate(s, ops[0]), ops[1..]);
    }
  }

  /** Well-formed calls are never rejected by the check in any state reachable from an empty registry. */
  lemma ReachablePostCheckNeverRejects(ops: seq<Operation>, op: Operation)
    requires WellFormed(op)
    ensures var s := Run(map[], ops);
            Decide(SpaceOf(s, WorkspaceOf(op)), op).Changed? ==> Accepts(s, op)
  {
    RunKeepsInv(map[], ops);
    var s := Run(map[], ops);
    if Decide(SpaceOf(s, WorkspaceOf(op)), op).Changed? {
      PostCheckIsExact(s, op);
    }
  }

  /** An empty workspace's whole life: each call does its part, and at the end nothing is left. */
  lemma EmptyLifeLeavesNothing(id: string, g: string, workspace: Identity, evidence: Identity,
                               identities: map<Collection, Identity>)
    requires ValidName(id) && ValidGeneration(g) && identities.Keys == ALL_COLLECTIONS
    ensures var reserve, finalize := ReserveWorkspace(id, g), FinalizeWorkspace(id, g, workspace, evidence, identities);
            var claim := WorkspaceClaim(id, Active, g, Some(workspace), Some(evidence));
            && SpaceOf(Run(map[], [reserve]), id) ==
                EMPTY.(workspace := Some(WorkspaceClaim(id, Reserved, g, None, None)))
            && Run(map[], [reserve, RetireReserved(id, g)]) == map[]
            && SpaceOf(Run(map[], [reserve, finalize]), id) ==
                Space(Some(claim), Some(identities), map[], None, None, map[])
            && Run(map[], [reserve, finalize, BeginDelete(id, g), ClearDeleted(id, g)]) == map[]
  {
    var reserve, finalize := ReserveWorkspace(id, g), FinalizeWorkspace(id, g, workspace, evidence, identities);
    var claim := WorkspaceClaim(id, Active, g, Some(workspace), Some(evidence));
    var reserved := EMPTY.(workspace := Some(WorkspaceClaim(id, Reserved, g, None, None)));
    var active := Space(Some(claim), Some(identities), map[], None, None, map[]);
    var doomed := active.(workspace := Some(claim.(phase := Deleting)));
    LifeDecides(id, g, workspace, evidence, identities);
    hide ValidName, ValidGeneration, Decide, SpaceValid, SpaceInv;
    var s0: State, s1: State, s2: State, s3: State := map[], map[id := reserved], map[id := active], map[id := doomed];
    LifeStep(s0, reserve, s1);
    LifeStep(s1, RetireReserved(id, g), s0);
    LifeStep(s1, finalize, s2);
    LifeStep(s2, BeginDelete(id, g), s3);
    LifeStep(s3, ClearDeleted(id, g), s0);
    hide Mutate;
    RunOfOne(s0, reserve);
    RunOfTwo(s0, reserve, RetireReserved(id, g));
    RunOfTwo(s0, reserve, finalize);
    RunOfTwo(s2, BeginDelete(id, g), ClearDeleted(id, g));
    assert [reserve, finalize, BeginDelete(id, g), ClearDeleted(id, g)][1..][1..] ==
           [BeginDelete(id, g), ClearDeleted(id, g)];
  }

  lemma RunOfOne(s: State, a: Operation)
    ensures Run(s, [a]) == Mutate(s, a)
  {
    hide Mutate;
    assert [a][1..] == [];
  }

  lemma RunOfTwo(s: State, a: Operation, b: Operation)
    ensures Run(s, [a, b]) == Mutate(Mutate(s, a), b)
  {
    hide Mutate;
    assert [a, b][1..] == [b];
    RunOfOne(Mutate(s, a), b);
  }

  /** A decided, well-formed call on a registry of one workspace at most does what it decided. */
  lemma LifeStep(s: State, op: Operation, t: State)
    requires Inv(s) && WellFormed(op) && Decide(SpaceOf(s, WorkspaceOf(op)), op).Changed?
    requires t == WithSpace(s, WorkspaceOf(op), Decide(SpaceOf(s, WorkspaceOf(op)), op).next)
    ensures Mutate(s, op) == t && Inv(t)
  {
    PostCheckIsExact(s, op);
    hide Inv, Decide, WellFormed, ValidState, WorkspaceOf;
  }

  lemma LifeDecides(id: string, g: string, workspace: Identity, evidence: Identity,
                    identities: map<Collection, Identity>)
    requires ValidName(id) && ValidGeneration(g) && identities.Keys == ALL_COLLECTIONS
    ensures var claim := WorkspaceClaim(id, Active, g, Some(workspace), Some(evidence));
            var reserved := EMPTY.(workspace := Some(WorkspaceClaim(id, Reserved, g, None, None)));
            var active := Space(Some(claim), Some(identities), map[], None, None, map[]);
            var doomed := active.(workspace := Some(claim.(phase := Deleting)));
            && Decide(EMPTY, ReserveWorkspace(id, g)) == Changed(reserved)
            && Decide(reserved, RetireReserved(id, g)) == Changed(EMPTY)
            && Decide(reserved, FinalizeWorkspace(id, g, workspace, evidence, identities)) == Changed(active)
            && Decide(active, BeginDelete(id, g)) == Changed(doomed)
            && Decide(doomed, ClearDeleted(id, g)) == Changed(EMPTY)
  {
    hide ValidName, ValidGeneration;
    var active := Space(Some(WorkspaceClaim(id, Active, g, Some(workspace), Some(evidence))), Some(identities), map[],
                        None, None, map[]);
    assert active.deleteItems + PlannedItems(active, id, g) == map[];
  }

  function Zeros(n: nat): (text: string)
    ensures IsHex(text, n)
  {
    seq(n, i => '0')
  }

  /** An installed journal whose new claim is filed under the wrong kind. */
  function Misrouted(): Space {
    var g := Zeros(32);
    var claim := ArtifactClaim("w", "parts/p", Parts, Unit, "p", Identity(1, 1), Zeros(64), 0, g);
    Space(Some(WorkspaceClaim("w", Active, g, Some(Identity(1, 2)), Some(Identity(1, 3)))),
          Some(map[Parts := Identity(1, 4), Units := Identity(1, 5), Snapshots := Identity(1, 6)]),
          map[], None,
          Some(PublishJournal("w", "parts/p", Installed, "p", "t", "b", claim, None, g)),
          map[])
  }

  function MisroutedState(): State {
    map["w" := Misrouted()]
  }

  /** The commit of that journal. */
  function MisroutedCommit(): Operation {
    CommitPublish("w", Misrouted().journal.value.newClaim, Zeros(32), "t")
  }

  lemma MisroutedPassesTheCheck()
    ensures ValidState(MisroutedState()) && SpaceOf(MisroutedState(), "w") == Misrouted()
  {
    hide Misrouted, SpaceValid;
    MisroutedRowsAreValid();
  }

  lemma MisroutedRowsAreValid()
    ensures SpaceValid("w", Misrouted())
  {
    AfterSlashOfPath(Parts, "p");
    assert Path(Parts, "p") == "parts/p";
    assert Misrouted().collections.value.Keys == ALL_COLLECTIONS;
  }

  lemma MisroutedCommitFailsTheCheck()
    ensures var op := MisroutedCommit();
            && op.CommitPublish? && WorkspaceOf(op) == "w"
            && Decide(Misrouted(), op).Changed? && Decide(Misrouted(), op).next != EMPTY
            && !SpaceValid("w", Decide(Misrouted(), op).next)
  {
    var op := MisroutedCommit();
    var t := Decide(Misrouted(), op).next;
    assert "parts/p" in t.artifacts && !ClaimRouteValid(t.artifacts["parts/p"]);
  }

  lemma FailingRowsFailTheCheck(s: State, op: Operation)
    requires Decide(SpaceOf(s, WorkspaceOf(op)), op).Changed? && Decide(SpaceOf(s, WorkspaceOf(op)), op).next != EMPTY
    requires !SpaceValid(WorkspaceOf(op), Decide(SpaceOf(s, WorkspaceOf(op)), op).next)
    ensures !Accepts(s, op)
  {
    hide SpaceValid, Decide, WorkspaceOf;
    var id := WorkspaceOf(op);
    assert id in Candidate(s, op) && Candidate(s, op)[id] == Decide(SpaceOf(s, id), op).next;
  }

  /** The state check by itself is not inductive: it can accept a state and then reject its commit. */
  lemma StateCheckAloneIsNotInductive()
    ensures exists s: State, op: Operation ::
      ValidState(s) && op.CommitPublish? && Decide(SpaceOf(s, WorkspaceOf(op)), op).Changed? && !Accepts(s, op)
  {
    hide *;
    var s, op := MisroutedState(), MisroutedCommit();
    MisroutedPassesTheCheck();
    MisroutedCommitFailsTheCheck();
    FailingRowsFailTheCheck(s, op);
    assert ValidState(s) && !Accepts(s, op);
  }

  // ---------------------------------------------------------------- generation fencing

  function CurrentGeneration(s: State, id: string): Option<string> {
    var space := SpaceOf(s, id);
    if space.workspace.Some? then Some(space.workspace.value.generation) else None
  }

  /** The generation a call was made for. */
  function GenerationOf(op: Operation): string {
    match op
    case ReservePublish(intent) => intent.generation
    case PreparePublish(journal) => journal.generation
    case _ => op.generation
  }

  /** Every row of a workspace carries the workspace's current generation. */
  lemma RowsCarryCurrentGeneration(s: State, id: string)
    requires Inv(s)
    ensures var space := SpaceOf(s, id);
            var current := CurrentGeneration(s, id);
            && (space.intent.Some? ==> Some(space.intent.value.generation) == current)
            && (space.journal.Some? ==>
                  && Some(space.journal.value.generation) == current
                  && space.journal.value.newClaim.generation == space.journal.value.generation)
            && (forall slot | slot in space.artifacts :: Some(space.artifacts[slot].generation) == current)
            && (forall slot | slot in space.deleteItems ::
                  && Some(space.deleteItems[slot].generation) == current
                  && space.deleteItems[slot].claim.generation == space.deleteItems[slot].generation)
  {
    if id in s {
      assert SpaceInv(id, s[id]);
    }
  }

  /** A call made for a generation that is not current changes nothing. */
  lemma StaleGenerationIsInert(s: State, op: Operation)
    requires Inv(s) && !op.ReserveWorkspace?
    requires CurrentGeneration(s, WorkspaceOf(op)) != Some(GenerationOf(op))
    ensures Mutate(s, op) == s
  {
    hide Inv, SpaceOf, ValidState;
    StaleCallIsRefused(s, op);
  }

  lemma StaleCallIsRefused(s: State, op: Operation)
    requires Inv(s) && !op.ReserveWorkspace?
    requires CurrentGeneration(s, WorkspaceOf(op)) != Some(GenerationOf(op))
    ensures !Decide(SpaceOf(s, WorkspaceOf(op)), op).Changed?
  {
    RowsCarryCurrentGeneration(s, WorkspaceOf(op));
    hide SpaceOf, Inv, Decide;
    StaleRowsRefuse(SpaceOf(s, WorkspaceOf(op)), op);
  }

  lemma StaleRowsRefuse(s: Space, op: Operation)
    requires !op.ReserveWorkspace? && (s.workspace.Some? ==> s.workspace.value.generation != GenerationOf(op))
    requires s.workspace.None? ==> s.intent.None? && s.journal.None? && s.deleteItems == map[]
    requires s.intent.Some? ==> s.intent.value.generation != GenerationOf(op)
    requires s.journal.Some? ==> s.journal.value.generation != GenerationOf(op)
    requires forall slot | slot in s.deleteItems :: s.deleteItems[slot].generation != GenerationOf(op)
    ensures !Decide(s, op).Changed?
  {
    hide ValidName, ValidGeneration, ValidToken, ValidIntent, ValidJournal, ValidClaim, Unrevokes, ThreeNames;
  }

  /** No call of the run reserves the workspace under the generation `g`. */
  predicate NeverReserves(ops: seq<Operation>, id: string, g: string) {
    forall i | 0 <= i < |ops| :: ops[i] != ReserveWorkspace(id, g)
  }

  lemma GenerationStep(s: State, op: Operation, id: string)
    requires Inv(s)
    ensures var after := CurrentGeneration(Mutate(s, op), id);
            after == CurrentGeneration(s, id) || after == None || op == ReserveWorkspace(id, after.value)
  {
    if Accepts(s, op) && WorkspaceOf(op) == id {
      SpaceGenerationStep(SpaceOf(s, id), op);
    }
  }

  lemma SpaceGenerationStep(s: Space, op: Operation)
    requires Decide(s, op).Changed?
    ensures var t := Decide(s, op).next;
            || t.workspace.None?
            || (s.workspace.Some? && t.workspace.value.generation == s.workspace.value.generation)
            || op == ReserveWorkspace(WorkspaceOf(op), t.workspace.value.generation)
  {}

  /** Once a generation has ended it never comes back, and every later call made for it changes nothing. */
  lemma {:induction false} EndedGenerationStaysDead(s: State, ops: seq<Operation>, id: string, g: string,
                                                    late: Operation)
    requires Inv(s) && NeverReserves(ops, id, g)
    requires CurrentGeneration(s, id) != Some(g)
    requires WorkspaceOf(late) == id && GenerationOf(late) == g && !late.ReserveWorkspace?
    ensures CurrentGeneration(Run(s, ops), id) != Some(g)
    ensures Mutate(Run(s, ops), late) == Run(s, ops)
    decreases |ops|
  {
    if ops == [] {
      StaleGenerationIsInert(s, late);
    } else {
      GenerationStep(s, ops[0], id);
      MutateKeepsInv(s, ops[0]);
      EndedGenerationStaysDead(Mutate(s, ops[0]), ops[1..], id, g, late);
    }
  }

  // ---------------------------------------------------------------- revocation is permanent

  /** The slot holds the tombstone of a snapshot. */
  predicate IsRevoked(claims: map<string, ArtifactClaim>, slot: string) {
    slot in claims && claims[slot].collection == Snapshots && claims[slot].sha256 == REVOKED_SHA256
  }

  /** The snapshot slot's committed claim is the tombstone. */
  predicate Revoked(s: State, id: string, slot: string) {
    IsRevoked(SpaceOf(s, id).artifacts, slot)
  }

  lemma RevocationStep(s: State, op: Operation, id: string, slot: string)
    requires Inv(s) && Revoked(s, id, slot)
    ensures Revoked(Mutate(s, op), id, slot) || CurrentGeneration(Mutate(s, op), id) == None
  {
    if Accepts(s, op) && WorkspaceOf(op) == id {
      SpaceRevocationStep(id, s[id], op, slot);
    }
  }

  lemma SpaceRevocationStep(id: string, s: Space, op: Operation, slot: string)
    requires SpaceInv(id, s) && IsRevoked(s.artifacts, slot) && Decide(s, op).Changed?
    ensures IsRevoked(Decide(s, op).next.artifacts, slot) || Decide(s, op).next.workspace.None?
  {
    hide SpaceInv, IsRevoked;
    if op.CommitPublish? {
      CommitStepKeepsRevocation(id, s, op, slot);
    } else {
      OnlyCommitsChangeArtifacts(s, op);
      EmptyHasNoWorkspace();
    }
  }

  lemma CommitStepKeepsRevocation(id: string, s: Space, op: Operation, slot: string)
    requires SpaceInv(id, s) && IsRevoked(s.artifacts, slot) && op.CommitPublish? && Decide(s, op).Changed?
    ensures IsRevoked(Decide(s, op).next.artifacts, slot)
  {
    if op.claim.slot == slot {
      CommitKeepsRevocation(id, s, op, slot);
    }
    hide SpaceInv;
  }

  lemma EmptyHasNoWorkspace()
    ensures EMPTY.workspace.None?
  {}

  /** Every other call leaves the committed claims as they are or clears the workspace. */
  lemma OnlyCommitsChangeArtifacts(s: Space, op: Operation)
    requires !op.CommitPublish? && Decide(s, op).Changed?
    ensures Decide(s, op).next.artifacts == s.artifacts || Decide(s, op).next == EMPTY
  {
    hide ValidName, ValidGeneration, ValidToken, ValidIntent, ValidJournal, Unrevokes, ThreeNames, IntentRouted;
    hide IntentForJournal, PlannedItems, ItemMatches, IntentMatches, JournalMatches;
  }

  lemma CommitKeepsRevocation(id: string, s: Space, op: Operation, slot: string)
    requires SpaceInv(id, s) && op.CommitPublish? && Decide(s, op).Changed? && op.claim.slot == slot
    requires IsRevoked(s.artifacts, slot)
    ensures op.claim.collection == Snapshots && op.claim.sha256 == REVOKED_SHA256
  {
    var journal := s.journal.value;
    var current := s.artifacts[slot];
    assert ArtifactValid(id, s, slot, current);
    assert journal.oldClaim == Some(current);
    PathInjective(current.collection, AfterSlash(slot), op.claim.collection, AfterSlash(slot));
  }

  /** Once a snapshot slot holds the tombstone it keeps it for as long as its workspace generation lives. */
  lemma {:induction false} RevocationIsPermanent(s: State, ops: seq<Operation>, id: string, slot: string, g: string)
    requires Inv(s) && Revoked(s, id, slot) && NeverReserves(ops, id, g)
    requires CurrentGeneration(s, id) == Some(g) == CurrentGeneration(Run(s, ops), id)
    ensures Revoked(Run(s, ops), id, slot)
    decreases |ops|
  {
    if ops != [] {
      var t := Mutate(s, ops[0]);
      MutateKeepsInv(s, ops[0]);
      RevocationStep(s, ops[0], id, slot);
      if CurrentGeneration(t, id) != Some(g) {
        EndedGenerationStaysDead(t, ops[1..], id, g, RetireReserved(id, g));
      }
      RevocationIsPermanent(t, ops[1..], id, slot, g);
    }
  }
}
