/** When each of the registry's mutators changes a workspace's rows, which of them it changes, and to what. */
module RegistryRules {
  import opened Outcomes
  import opened Registry
  import opened RegistryInvariant

  // ---------------------------------------------------------------- the life of a workspace

  /** A workspace is reserved once, retired only while reserved, and finalized only by its own reservation. */
  lemma ReservationRules(id: string, s: Space, g: string, workspace: Identity, evidence: Identity,
                         identities: map<Collection, Identity>)
    requires SpaceInv(id, s)
    ensures var d := Decide(s, ReserveWorkspace(id, g));
            && (d.Changed? <==> IsHex(g, 32) && s == EMPTY)
            && (d.Unchanged? <==> IsHex(g, 32) && s.workspace.Some?)
            && (d.Changed? ==>
                  d.next == Space(Some(WorkspaceClaim(id, Reserved, g, None, None)), None, map[], None, None, map[]))
    ensures var d := Decide(s, RetireReserved(id, g));
            && (d.Changed? <==>
                  s.workspace.Some? && s.workspace.value.phase == Reserved && s.workspace.value.generation == g)
            && (d.Unchanged? <==> IsHex(g, 32) && s.workspace.None?)
            && (d.Changed? ==> d.next == Space(None, None, map[], None, None, map[]))
    ensures var d := Decide(s, FinalizeWorkspace(id, g, workspace, evidence, identities));
            && (d.Changed? <==>
                  && s.workspace.Some? && s.workspace.value.phase == Reserved && s.workspace.value.generation == g
                  && identities.Keys == {Parts, Units, Snapshots})
            && !d.Unchanged?
            && (d.Changed? ==>
                  d.next == Space(Some(WorkspaceClaim(id, Active, g, Some(workspace), Some(evidence))),
                                  Some(identities), map[], None, None, map[]))
  {
    NoRowsWithoutWorkspace(id, s);
    hide ValidName, IsHex, ArtifactsValid, DeleteItemsValid;
  }

  /** Without a workspace there are no rows at all. */
  lemma NoRowsWithoutWorkspace(id: string, s: Space)
    requires SpaceInv(id, s)
    ensures s.workspace.None? ==> s == EMPTY
  {
    if s.workspace.None? {
      assert forall slot :: slot !in s.artifacts;
      assert forall slot :: slot !in s.deleteItems;
    }
  }

  /** A deletion begins only with nothing under way, and its rows go only when every item is removed. */
  lemma DeletionRules(id: string, s: Space, g: string)
    requires SpaceInv(id, s)
    ensures var d := Decide(s, BeginDelete(id, g));
            && (d.Changed? <==>
                  && s.workspace.Some? && s.workspace.value.phase == Active && s.workspace.value.generation == g
                  && s.intent.None? && s.journal.None?)
            && (d.Unchanged? <==>
                  && IsHex(g, 32)
                  && (s.workspace.None?
                      || (s.workspace.value.generation == g && s.workspace.value.phase == Deleting)))
            && (d == Refused(Pending) <==>
                  && s.workspace.Some? && s.workspace.value.phase == Active && s.workspace.value.generation == g
                  && (s.intent.Some? || s.journal.Some?))
            && (d.Changed? ==>
                  && d.next == s.(workspace := d.next.workspace, deleteItems := d.next.deleteItems)
                  && d.next.workspace == Some(s.workspace.value.(phase := Deleting))
                  && d.next.deleteItems.Keys == s.artifacts.Keys
                  && forall slot | slot in s.artifacts ::
                       d.next.deleteItems[slot] == DeleteItem(id, slot, Planned, None, s.artifacts[slot], g))
    ensures var d := Decide(s, ClearDeleted(id, g));
            && (d.Changed? <==>
                  && s.workspace.Some? && s.workspace.value.phase == Deleting && s.workspace.value.generation == g
                  && forall slot | slot in s.deleteItems :: s.deleteItems[slot].phase == Removed)
            && (d.Unchanged? <==> IsHex(g, 32) && s.workspace.None?)
            && (d.Changed? ==> d.next == Space(None, None, map[], None, None, map[]))
  {
    hide ValidName, IsHex, ArtifactsValid, DeleteItemsValid, IntentValid, JournalValid;
  }

  /** A quarantine name is planned once, for an item that is still in its slot. */
  lemma PlanRule(id: string, s: Space, slot: string, g: string, name: string)
    requires SpaceInv(id, s)
    ensures var d := Decide(s, PlanQuarantine(id, slot, name, g));
            && (d.Changed? <==>
                  && slot in s.deleteItems && s.deleteItems[slot].generation == g
                  && s.deleteItems[slot].phase == Planned && s.deleteItems[slot].quarantineName in {None, Some(name)})
            && !d.Unchanged?
            && (d.Changed? ==>
                  d.next == s.(deleteItems := s.deleteItems[slot := DeleteItem(id, slot, Planned, Some(name),
                                                                               s.deleteItems[slot].claim, g)]))
  {
    if slot in s.deleteItems {
      ItemFacts(id, s, slot);
    }
    hide SpaceInv, ValidGeneration;
  }

  /** A delete item goes from planned over quarantined to removed under one name, and touches no other item. */
  lemma DeleteItemRule(id: string, s: Space, slot: string, g: string, from: DeletePhase, to: DeletePhase,
                       name: string)
    requires SpaceInv(id, s)
    ensures var d := Decide(s, AdvanceDelete(id, slot, g, from, to, name));
            && (d.Changed? <==>
                  && ((from == Planned && to == Quarantined) || (from == Quarantined && to == Removed))
                  && slot in s.deleteItems && s.deleteItems[slot].generation == g
                  && s.deleteItems[slot].phase == from && s.deleteItems[slot].quarantineName in {None, Some(name)})
            && !d.Unchanged?
            && (d.Changed? ==>
                  d.next == s.(deleteItems := s.deleteItems[slot := DeleteItem(id, slot, to, Some(name),
                                                                               s.deleteItems[slot].claim, g)]))
  {
    if slot in s.deleteItems {
      ItemFacts(id, s, slot);
    }
    hide SpaceInv, ValidGeneration;
  }

  lemma ItemFacts(id: string, s: Space, slot: string)
    requires SpaceInv(id, s) && slot in s.deleteItems
    ensures var item := s.deleteItems[slot];
            item.workspaceId == id && item.slot == slot && ValidGeneration(item.generation)
  {
    assert DeleteItemValid(id, s, slot, s.deleteItems[slot]);
    hide ValidName, IsHex, ArtifactsValid, DeleteItemsValid, IntentValid, JournalValid, ValidClaim;
  }

  // ---------------------------------------------------------------- the life of a publication

  /**
   A publication is announced only with nothing under way, for the claim the slot has now, and never over a tombstone
   with anything else; its temporary identity is recorded once.
   */
  lemma IntentRules(id: string, s: Space, i: PublishIntent, identity: Identity, g: string, name: string)
    requires SpaceInv(id, s)
    ensures var d := Decide(s, ReservePublish(i));
            var revoking := i.slot in s.artifacts && i.collection == Snapshots && i.expectedSha256 != REVOKED_SHA256
                            && s.artifacts[i.slot].sha256 == REVOKED_SHA256;
            && (d.Changed? <==>
                  && ValidIntent(i)
                  && s.workspace.Some? && s.workspace.value.phase == Active
                  && s.workspace.value.generation == i.generation
                  && s.intent.None? && s.journal.None? && !revoking
                  && i.oldClaim == if i.slot in s.artifacts then Some(s.artifacts[i.slot]) else None)
            && (d == Refused(SlotRevoked) <==>
                  && ValidIntent(i) && revoking
                  && s.workspace.Some? && s.workspace.value.phase == Active
                  && s.workspace.value.generation == i.generation)
            && !d.Unchanged? && (d.Changed? ==> d.next == s.(intent := Some(i)))
    ensures var d := Decide(s, ClaimTemporary(id, identity, g, name));
            && (d.Changed? <==>
                  && s.intent.Some? && s.intent.value.generation == g && s.intent.value.temporaryName == name
                  && s.intent.value.temporaryIdentity.None?)
            && !d.Unchanged?
            && (d.Changed? ==> d.next == s.(intent := Some(s.intent.value.(temporaryIdentity := Some(identity)))))
    ensures var d := Decide(s, ClearIntent(id, g, name));
            && (d.Changed? <==>
                  s.intent.Some? && s.intent.value.generation == g && s.intent.value.temporaryName == name)
            && !d.Unchanged? && (d.Changed? ==> d.next == s.(intent := None))
  {
    hide ValidName, IsHex, ArtifactsValid, DeleteItemsValid, JournalValid, ValidClaim, CollectionsValid, IntentRouted;
  }

  /** The journal replaces the announcement it agrees with in everything, whose identity it may supply. */
  lemma PrepareRule(id: string, s: Space, j: PublishJournal)
    requires SpaceInv(id, s)
    ensures var d := Decide(s, PreparePublish(j));
            && (d.Changed? <==>
                  && j.phase == Prepared && ValidJournal(j) && s.intent.Some?
                  && var i := s.intent.value;
                     && i.temporaryIdentity in {None, Some(j.newClaim.identity)}
                     && (i.workspaceId, i.slot, i.targetName, i.temporaryName, i.backupName)
                        == (j.workspaceId, j.slot, j.targetName, j.temporaryName, j.backupName)
                     && (i.collection, i.kind, i.artifactId)
                        == (j.newClaim.collection, j.newClaim.kind, j.newClaim.artifactId)
                     && (i.expectedSha256, i.expectedSize) == (j.newClaim.sha256, j.newClaim.size)
                     && i.oldClaim == j.oldClaim && i.generation == j.generation)
            && !d.Unchanged? && (d.Changed? ==> d.next == s.(intent := None, journal := Some(j)))
  {
    hide ValidName, IsHex, ArtifactsValid, DeleteItemsValid, JournalValid, ValidClaim, CollectionsValid, IntentRouted;
    hide ValidJournal, ValidIntent;
  }

  /**
   A journal advances phase by phase under its own token. It is committed only when installed, and then its new
   claim takes the slot.
   */
  lemma JournalRules(id: string, s: Space, g: string, name: string, from: PublishPhase, to: PublishPhase,
                     claim: ArtifactClaim)
    requires SpaceInv(id, s)
    ensures var own := s.journal.Some? && s.journal.value.generation == g && s.journal.value.temporaryName == name;
            var d := Decide(s, AdvancePublish(id, g, name, from, to));
            && (d.Changed? <==>
                  && own && s.journal.value.phase == from
                  && ((from == Prepared && to == Backup) || (from == Backup && to == Installed)))
            && !d.Unchanged? && (d.Changed? ==> d.next == s.(journal := Some(s.journal.value.(phase := to))))
    ensures var own := s.journal.Some? && s.journal.value.generation == g && s.journal.value.temporaryName == name;
            var d := Decide(s, CommitPublish(id, claim, g, name));
            && (d.Changed? <==> own && s.journal.value.phase == Installed && s.journal.value.newClaim == claim)
            && !d.Unchanged?
            && (d.Changed? ==>
                  d.next == s.(artifacts := s.artifacts[s.journal.value.slot := claim],
                               journal := Some(s.journal.value.(phase := Committed))))
  {
    hide ValidName, IsHex, ArtifactsValid, DeleteItemsValid, IntentValid, ValidClaim, CollectionsValid, OldClaimFits;
  }

  /** A journal is cleared only when committed, and given up only before `installed`. */
  lemma JournalEndRules(id: string, s: Space, g: string, name: string, phases: set<PublishPhase>)
    requires SpaceInv(id, s)
    ensures var own := s.journal.Some? && s.journal.value.generation == g && s.journal.value.temporaryName == name;
            var d := Decide(s, ClearPublish(id, g, name));
            && (d.Changed? <==> own && s.journal.value.phase == Committed)
            && !d.Unchanged? && (d.Changed? ==> d.next == s.(journal := None))
    ensures var own := s.journal.Some? && s.journal.value.generation == g && s.journal.value.temporaryName == name;
            var d := Decide(s, AbortPublish(id, g, name, phases));
            && (d.Changed? <==>
                  && own && s.journal.value.phase in phases
                  && forall phase | phase in phases :: phase == Prepared || phase == Backup)
            && !d.Unchanged? && (d.Changed? ==> d.next == s.(journal := None))
  {
    hide ValidName, IsHex, ArtifactsValid, DeleteItemsValid, IntentValid, ValidClaim, CollectionsValid, OldClaimFits;
  }

  // ---------------------------------------------------------------- what every row is like

  /** The slot is the path of a file of this name in the collection's own directory. */
  predicate InDirectory(slot: string, collection: Collection, name: string) {
    match collection
    case Parts => slot == "parts/" + name
    case Units => slot == "units/" + name
    case Snapshots => slot == "snapshots/" + name
  }

  /** The names of a publication are those of three different files in one directory. */
  predicate NamesFit(collection: Collection, slot: string, target: string, temporary: string, backup: string) {
    && InDirectory(slot, collection, target)
    && target != temporary && target != backup && temporary != backup
    && (forall name | name in {target, temporary, backup} ::
          name != "" && name != "." && name != ".." && '/' !in name && '\\' !in name && ':' !in name && '\0' !in name)
  }

  /** The claim is one of the workspace's generation, for a file of its collection's kind. */
  predicate ClaimFits(s: Space, id: string, slot: string, claim: ArtifactClaim)
    requires s.workspace.Some?
  {
    && claim.workspaceId == id && claim.slot == slot && claim.generation == s.workspace.value.generation
    && IsHex(claim.sha256, 64)
    && match claim.collection
       case Parts => claim.kind == Part && InDirectory(slot, Parts, claim.artifactId)
       case Units => claim.kind == Unit && InDirectory(slot, Units, claim.artifactId + ".json")
       case Snapshots => claim.kind == Snapshot && InDirectory(slot, Snapshots, claim.artifactId + ".json")
  }

  /** Whatever calls were made, a publication under way names its own files and is of the current generation. */
  lemma PublicationIsWellFormed(id: string, s: Space)
    requires SpaceInv(id, s) && s.workspace.Some?
    ensures s.workspace.value.workspaceId == id && IsHex(s.workspace.value.generation, 32)
    ensures s.intent.Some? ==>
              var i := s.intent.value;
              && s.journal.None? && s.workspace.value.phase == Active
              && i.workspaceId == id && i.generation == s.workspace.value.generation
              && NamesFit(i.collection, i.slot, i.targetName, i.temporaryName, i.backupName)
              && IsHex(i.expectedSha256, 64) && i.oldClaim == Lookup(s.artifacts, i.slot)
              && (i.collection == Parts ==> i.kind == Part && i.targetName == i.artifactId)
              && (i.collection == Units ==> i.kind == Unit && i.targetName == i.artifactId + ".json")
              && (i.collection == Snapshots ==> i.kind == Snapshot && i.targetName == i.artifactId + ".json")
    ensures s.journal.Some? ==>
              var j := s.journal.value;
              && s.intent.None? && s.workspace.value.phase == Active
              && j.workspaceId == id && j.generation == s.workspace.value.generation
              && NamesFit(j.newClaim.collection, j.slot, j.targetName, j.temporaryName, j.backupName)
              && ClaimFits(s, id, j.slot, j.newClaim)
              && Lookup(s.artifacts, j.slot) == (if j.phase == Committed then Some(j.newClaim) else j.oldClaim)
  {
    hide ArtifactsValid, DeleteItemsValid, AfterSlash, ArtifactIdFor;
    if s.intent.Some? {
      var i := s.intent.value;
      TargetNamesArtifact(i.collection, i.targetName, i.artifactId);
    }
    if s.journal.Some? {
      var j := s.journal.value;
      AfterSlashOfPath(j.newClaim.collection, j.targetName);
      TargetNamesArtifact(j.newClaim.collection, j.targetName, j.newClaim.artifactId);
    }
    hide IsHex;
  }

  /** Every claim is filed in its own directory under the current generation, and every item is one of a claim. */
  lemma ClaimsAreWellFormed(id: string, s: Space)
    requires SpaceInv(id, s) && s.workspace.Some?
    ensures forall slot | slot in s.artifacts ::
              s.workspace.value.phase != Reserved && ClaimFits(s, id, slot, s.artifacts[slot])
    ensures forall slot | slot in s.deleteItems ::
              var item := s.deleteItems[slot];
              && s.workspace.value.phase == Deleting && item.workspaceId == id && item.slot == slot
              && item.generation == s.workspace.value.generation
              && slot in s.artifacts && item.claim == s.artifacts[slot]
              && (item.phase != Planned ==> item.quarantineName.Some?)
  {
    hide IntentValid, JournalValid, AfterSlash, IsHex, ArtifactIdFor;
    forall slot | slot in s.artifacts
      ensures s.workspace.value.phase != Reserved && ClaimFits(s, id, slot, s.artifacts[slot])
    {
      assert ArtifactValid(id, s, slot, s.artifacts[slot]);
      TargetNamesArtifact(s.artifacts[slot].collection, AfterSlash(slot), s.artifacts[slot].artifactId);
    }
    forall slot | slot in s.deleteItems
      ensures DeleteItemValid(id, s, slot, s.deleteItems[slot])
    {
    }
  }

  lemma TargetNamesArtifact(collection: Collection, target: string, artifactId: string)
    ensures Some(artifactId) == ArtifactIdFor(collection, target) <==>
              target == if collection == Parts then artifactId else artifactId + ".json"
  {
    if EndsWithJson(target) {
      assert target == target[..|target| - 5] + target[|target| - 5..];
    }
    if target == artifactId + ".json" {
      assert target[|target| - 5..] == ".json" && target[..|target| - 5] == artifactId;
    }
  }

  // ---------------------------------------------------------------- over the whole registry

  /** While a workspace has rows, every call whatever keeps its generation or ends it. */
  lemma GenerationIsKept(s: State, op: Operation, id: string, g: string)
    requires Inv(s) && CurrentGeneration(s, id) == Some(g)
    ensures CurrentGeneration(Mutate(s, op), id) in {Some(g), None}
  {
    if Accepts(s, op) && WorkspaceOf(op) == id {
      KeptOrEnded(id, SpaceOf(s, id), op);
    }
    hide Inv, Decide, ValidState;
  }

  lemma KeptOrEnded(id: string, s: Space, op: Operation)
    requires SpaceInv(id, s) && s.workspace.Some? && Decide(s, op).Changed?
    ensures var t := Decide(s, op).next;
            t.workspace.Some? ==> t.workspace.value.generation == s.workspace.value.generation
  {
    hide SpaceInv, ValidName, ValidGeneration, ValidToken, ValidIntent, ValidJournal, IntentForJournal, PlannedItems;
  }

  /** A workspace that has rows cannot be reserved: the call returns and changes nothing anywhere. */
  lemma SecondReservationIsInert(s: State, id: string, g: string)
    requires Inv(s) && CurrentGeneration(s, id).Some?
    ensures Mutate(s, ReserveWorkspace(id, g)) == s
    ensures IsHex(g, 32) ==> Decide(SpaceOf(s, id), ReserveWorkspace(id, g)).Unchanged?
  {
    hide Inv, ValidState;
  }
}
