/**
 The study-map builder's side of revocation: what the evidence tables withdraw, the artifact store must not keep
 alive. One builder works on one workspace.
 */
module SnapshotRevocation {
  import opened Outcomes
  import opened ArtifactLayout
  import opened EvidenceTables
  import opened SnapshotRows
  import Registry
  import RegistryInvariant
  import ArtifactStore
  import EvidenceStore

  /** Two random tokens for each publication: for the temporary and for the backup name. */
  type Tokens = map<string, (string, string)>

  predicate TokensFor(ids: set<string>, tokens: Tokens) {
    forall s | s in ids :: s in tokens && Registry.IsHex(tokens[s].0, 32) && Registry.IsHex(tokens[s].1, 32)
  }

  /** The artifact slot of a snapshot's document. */
  function SlotOf(snapshotId: string): string {
    Registry.Path(Registry.Snapshots, ArtifactStore.TargetName(Registry.Snapshots, snapshotId))
  }

  /** What is decided for the snapshot's slot is the tombstone. */
  predicate Buried(rows: Registry.Space, snapshotId: string) {
    RegistryInvariant.IsRevoked(Decisions(rows), SlotOf(snapshotId))
  }

  /** The snapshots of the workspace that the evidence tables record as revoked. */
  function RevokedIn(t: Tables, workspaceId: string): set<string> {
    set s | s in t.revocations && t.revocations[s] == workspaceId
  }

  /** No id is revoked for another workspace than it is stored for. */
  predicate IdsNameWorkspaces(t: Tables) {
    forall s | s in t.snapshots && s in t.revocations :: t.revocations[s] == t.snapshots[s].workspaceId
  }

  /** As ids are digests over the workspace among others, that holds after any calls. */
  lemma IdsAlwaysNameWorkspaces(home: Home, setup: Setup, ops: seq<Operation>)
    requires forall i | 0 <= i < |ops| :: SavesAtHome(home, ops[i])
    ensures IdsNameWorkspaces(Run(setup, NoTables(), ops))
  {
    RunKeepsHome(home, setup, ops);
    hide Run;
  }

  /** How the two steps of a publication on the artifact store went, and what each of them decided. */
  datatype Trail = Trail(ensured: Option<Progress>, published: bool, revocation: Option<Progress>, buried: bool)

  /** The document of this publication, and no other, is what the slot has been decided to hold since. */
  ghost predicate Published(workspaceId: string, before: map<string, Registry.ArtifactClaim>, rows: Registry.Space,
                            snapshotId: string, sha256: string, size: nat)
  {
    && Decisions(rows) != before
    && ArtifactStore.PublishesAt(workspaceId, before, Decisions(rows), SlotOf(snapshotId), Registry.Snapshots,
                                 snapshotId, sha256, size)
  }

  /** The tables a publication goes on with once it has saved the snapshot, others having come in between. */
  function Staged(setup: Setup, t: Tables, snapshot: Snapshot, others: seq<Operation>): Tables {
    Run(setup, Step(setup, t, SaveSnapshot(snapshot)), others)
  }

  class Builder {
    const evidence: EvidenceStore.Store
    const artifacts: ArtifactStore.Store
    /** The revocations marked as completed. */
    var completed: set<string>

    constructor (evidence: EvidenceStore.Store, artifacts: ArtifactStore.Store)
      ensures this.evidence == evidence && this.artifacts == artifacts && completed == {}
    {
      this.evidence, this.artifacts, completed := evidence, artifacts, {};
    }

    /** The artifact store is recoverable, and every revocation marked as completed has its tombstone in place. */
    ghost predicate Valid()
      reads this, artifacts
    {
      && Recoverable(artifacts.id, artifacts.sha, artifacts.rows, artifacts.files)
      && (forall bytes :: Registry.IsHex(artifacts.sha(bytes), 64))
      && artifacts.sha(ArtifactStore.TOMBSTONE) == Registry.REVOKED_SHA256
      && forall s | s in completed :: Buried(artifacts.rows, s)
    }

    /** What was buried stays so. */
    twostate predicate BuriedStay()
      reads artifacts
    {
      forall s :: old(Buried(artifacts.rows, s)) ==> Buried(artifacts.rows, s)
    }

    /** The slots of all but these snapshots are decided as they were. */
    twostate predicate OthersStay(snapshots: set<string>)
      reads artifacts
    {
      forall slot | (forall s | s in snapshots :: SlotOf(s) != slot) ::
        Lookup(Decisions(artifacts.rows), slot) == Lookup(old(Decisions(artifacts.rows)), slot)
    }

    /** Puts the tombstone in one snapshot's place. */
    method Bury(snapshotId: string, tokens: Tokens, quiet: bool) returns (p: Progress)
      requires Valid() && TokensFor({snapshotId}, tokens)
      modifies artifacts
      ensures Valid() && BuriedStay()
      ensures p == Done ==> Buried(artifacts.rows, snapshotId) && !Stuck(artifacts.rows, artifacts.files)
      ensures Decisions(artifacts.rows) == old(Decisions(artifacts.rows)) || Buried(artifacts.rows, snapshotId)
      ensures forall slot | slot != SlotOf(snapshotId) ::
                Lookup(Decisions(artifacts.rows), slot) == Lookup(old(Decisions(artifacts.rows)), slot)
      ensures (&& quiet && !old(Stuck(artifacts.rows, artifacts.files))
               && ArtifactStore.ValidIdentifier(snapshotId)) ==> p == Done
    {
      hide Recoverable, Decisions, RegistryInvariant.IsRevoked, ArtifactStore.ValidIdentifier, Registry.IsHex;
      assert snapshotId in tokens;
      ArtifactStore.WhatIdentifies(snapshotId);
      p := artifacts.RevokeSnapshot(snapshotId, tokens[snapshotId].0, tokens[snapshotId].1, quiet);
    }

    /**
     Buries every snapshot the tables record as revoked, marking each revocation as completed once its tombstone is
     in place; cut short anywhere, every mark is true, and the next run goes over all of them again.
     */
    method RecoverRevocations(tokens: Tokens, quiet: bool) returns (p: Progress)
      requires Valid() && TokensFor(RevokedIn(evidence.tables, artifacts.id), tokens)
      modifies this, artifacts
      ensures Valid() && BuriedStay() && old(completed) <= completed
      ensures p == Done ==>
                forall s | s in evidence.tables.revocations && evidence.tables.revocations[s] == artifacts.id ::
                  s in completed && Buried(artifacts.rows, s)
      ensures OthersStay(set s | s in evidence.tables.revocations && evidence.tables.revocations[s] == artifacts.id)
      ensures (&& quiet && !old(Stuck(artifacts.rows, artifacts.files))
               && forall s | s in RevokedIn(evidence.tables, artifacts.id) :: ArtifactStore.ValidIdentifier(s)) ==>
                p == Done
    {
      hide Recoverable, Decisions, Stuck, Buried, ArtifactStore.ValidIdentifier, Registry.IsHex, SlotOf;
      var left := RevokedIn(evidence.tables, artifacts.id);
      ghost var revoked := left;
      p := Done;
      while left != {}
        invariant p == Done && Valid() && BuriedStay() && left <= revoked && OthersStay(revoked)
        invariant revoked - left <= completed && old(completed) <= completed
        invariant !old(Stuck(artifacts.rows, artifacts.files)) ==> !Stuck(artifacts.rows, artifacts.files)
      {
        var s :| s in left;
        p := Bury(s, tokens, quiet);
        if p != Done { return; }
        var fault := ChooseFault(quiet);
        if fault == CrashesBefore { return Crashed; }
        if fault == FailsBefore { return Raised; }
        completed := completed + {s};
        if fault == FailsAfter { return Raised; }
        left := left - {s};
      }
    }

    /** Withdraws an entry's evidence; if it returns, no document of a snapshot that used it is left. */
    method InvalidateEntry(revisionId: string, entryId: string, tokens: Tokens, quiet: bool)
      returns (p: Progress, ghost withdrawn: set<string>)
      requires Valid() && IdsNameWorkspaces(evidence.tables)
      requires forall s | s in evidence.tables.snapshots || s in evidence.tables.revocations :: TokensFor({s}, tokens)
      modifies this, evidence, artifacts
      ensures Valid() && BuriedStay()
      ensures withdrawn == SnapshotsUsing(old(evidence.tables), artifacts.id, revisionId,
                UnitsOf(old(evidence.tables).units,
                        EntryParts(old(evidence.tables), artifacts.id, revisionId, entryId)))
      ensures forall s | s in withdrawn :: s !in evidence.tables.snapshots
      ensures withdrawn <= RevokedIn(evidence.tables, artifacts.id)
      ensures p == Done ==> forall s | s in withdrawn :: Buried(artifacts.rows, s)
      ensures (&& quiet && !old(Stuck(artifacts.rows, artifacts.files))
               && forall s | s in old(evidence.tables.snapshots) || s in old(evidence.tables.revocations) ::
                    ArtifactStore.ValidIdentifier(s)) ==> p == Done
    {
      hide Recoverable, Decisions, Stuck, Buried, UnitsOf, EntryParts, Registry.IsHex, ArtifactStore.ValidIdentifier;
      ghost var t := evidence.tables;
      var parts, revoked := evidence.InvalidateEntry(artifacts.id, revisionId, entryId);
      withdrawn := revoked;
      WithdrawnAreRevoked(evidence.setup, t, artifacts.id, revisionId, entryId);
      p := RecoverRevocations(tokens, quiet);
    }

    /**
     Stores a snapshot and publishes its document; other transactions may come in between. A call that raises has
     taken its row back, and the document is left without it exactly if it was decided and the burial was not. A
     call that crashes leaves the row.
     */
    method PublishSnapshot(snapshot: Snapshot, document: Bytes, expectedSha256: string, publishing: Tokens,
                           revoking: Tokens, between: seq<Operation>, others: seq<Operation>, quiet: bool,
                           quietRevocation: bool)
      returns (p: Progress, saved: bool, ghost trail: Trail)
      requires Valid() && snapshot.workspaceId == artifacts.id && ArtifactStore.ValidIdentifier(snapshot.snapshotId)
      requires TokensFor({snapshot.snapshotId}, publishing) && TokensFor({snapshot.snapshotId}, revoking)
      modifies evidence, artifacts
      ensures Valid() && BuriedStay()
      ensures p == Done ==>
                && snapshot.snapshotId in evidence.tables.snapshots
                && Current(evidence.tables, snapshot.workspaceId, snapshot.revisionId)
                && SlotOf(snapshot.snapshotId) in artifacts.rows.artifacts
                && artifacts.rows.artifacts[SlotOf(snapshot.snapshotId)].sha256 == expectedSha256
                && Settled(artifacts.sha, artifacts.rows, artifacts.files)
      ensures saved ==> snapshot.snapshotId !in old(evidence.tables).snapshots
      ensures trail.ensured == None <==>
                || Attempted(evidence.setup, old(evidence.tables), SaveSnapshot(snapshot)).None?
                || (snapshot.snapshotId in old(evidence.tables).snapshots
                    && snapshot.snapshotId
                       !in Staged(evidence.setup, old(evidence.tables), snapshot, between).snapshots)
      ensures old(Buried(artifacts.rows, snapshot.snapshotId)) && expectedSha256 != Registry.REVOKED_SHA256 ==>
                trail.ensured != Some(Done)
      ensures trail.ensured == None ==>
                && p == Raised && !saved
                && (|| evidence.tables == old(evidence.tables)
                    || evidence.tables == Staged(evidence.setup, old(evidence.tables), snapshot, between))
                && Decisions(artifacts.rows) == old(Decisions(artifacts.rows))
      ensures p == Raised && saved && quietRevocation ==>
                && snapshot.snapshotId !in evidence.tables.snapshots
                && (Buried(artifacts.rows, snapshot.snapshotId)
                    || Decisions(artifacts.rows) == old(Decisions(artifacts.rows)))
      ensures trail.ensured == Some(Raised) && p == Raised && saved ==>
                snapshot.snapshotId !in evidence.tables.snapshots
      ensures (&& trail.ensured == Some(Raised) && p == Raised && saved
               && expectedSha256 != Registry.REVOKED_SHA256) ==>
                (trail.published && !trail.buried <==>
                 Published(artifacts.id, old(Decisions(artifacts.rows)), artifacts.rows, snapshot.snapshotId,
                           expectedSha256, |document|))
      ensures trail.ensured == Some(Raised) && p == Raised && !saved ==>
                evidence.tables == Staged(evidence.setup, old(evidence.tables), snapshot, between)
      ensures trail.ensured == Some(Done) && p == Raised ==>
                if trail.revocation == Some(Done)
                then snapshot.snapshotId !in evidence.tables.snapshots && Buried(artifacts.rows, snapshot.snapshotId)
                else evidence.tables == Staged(evidence.setup, old(evidence.tables), snapshot, between + others)
      ensures trail.ensured == Some(Crashed) ==> p == Crashed
      ensures p == Crashed ==>
                || evidence.tables == Staged(evidence.setup, old(evidence.tables), snapshot, between)
                || evidence.tables == Staged(evidence.setup, old(evidence.tables), snapshot, between + others)
      ensures (trail.ensured == Some(Done) || saved) && trail.published && quietRevocation && p == Raised ==>
                trail.buried
      ensures expectedSha256 != Registry.REVOKED_SHA256 ==>
                (Buried(artifacts.rows, snapshot.snapshotId)
                 <==> trail.buried || old(Buried(artifacts.rows, snapshot.snapshotId)))
      ensures p != Done && !trail.buried && !trail.published ==>
                Decisions(artifacts.rows) == old(Decisions(artifacts.rows))
      ensures (&& quiet && !old(Stuck(artifacts.rows, artifacts.files)) && artifacts.sha(document) == expectedSha256
               && Attempted(evidence.setup, old(evidence.tables), SaveSnapshot(snapshot)).Some?
               && snapshot.snapshotId !in RevokedIn(old(evidence.tables), artifacts.id)
               && expectedSha256 != Registry.REVOKED_SHA256 && between == [] && others == []) ==>
                (p == Done <==> !old(Buried(artifacts.rows, snapshot.snapshotId)))
    {
      hide Recoverable, Decisions, Settled, Stuck, Buried, Run, Step, Attempted, Registry.IsHex;
      hide ArtifactStore.ValidIdentifier, SlotOf, ArtifactStore.PublishesAt, Current, RevokedIn, OnSaveSnapshot;
      var id := snapshot.snapshotId;
      ghost var rows, before := artifacts.rows, Decisions(artifacts.rows);
      ghost var t := evidence.tables;
      trail := Trail(None, false, None, false);
      var raised;
      raised, saved := Stage(snapshot, between);
      if raised { return Raised, false, trail; }
      RunJoins(evidence.setup, Step(evidence.setup, t, SaveSnapshot(snapshot)), between, others);
      if id !in RevokedIn(t, artifacts.id) && between == [] {
        NotRevokedStill(t, evidence.tables, artifacts.id, id);
      }
      NothingRuns(evidence.setup, evidence.tables);
      p := EnsureArtifact(id, document, expectedSha256, publishing, quiet);
      trail := Trail(Some(p), Decisions(artifacts.rows) != before, None, false);
      SameDecisionsBury(rows, artifacts.rows, id);
      PublishedIsNotBuried(artifacts.id, before, artifacts.rows, id, expectedSha256, |document|);
      if p == Crashed { return; }
      NoIntentIsNotStuck(artifacts.rows, artifacts.files);
      if p == Raised {
        if saved {
          ghost var revocation;
          p, revocation := TakeBack(id, revoking, true, quietRevocation);
          trail := trail.(revocation := Some(revocation), buried := Buried(artifacts.rows, id));
          PublishedIsNotBuried(artifacts.id, before, artifacts.rows, id, expectedSha256, |document|);
        }
        return;
      }
      Interfere(others);
      if !Current(evidence.tables, snapshot.workspaceId, snapshot.revisionId) || id !in evidence.tables.snapshots {
        ghost var revocation;
        p, revocation := TakeBack(id, revoking, false, quietRevocation);
        trail := trail.(revocation := Some(revocation), buried := Buried(artifacts.rows, id));
      }
    }

    /** Saves the snapshot, others coming in behind; it raises if the save does or if a row stored before has gone. */
    method Stage(snapshot: Snapshot, others: seq<Operation>) returns (raised: bool, saved: bool)
      modifies evidence
      ensures raised ==> !saved
      ensures raised && others == [] ==>
                Attempted(evidence.setup, old(evidence.tables), SaveSnapshot(snapshot)).None?
      ensures raised <==>
                || Attempted(evidence.setup, old(evidence.tables), SaveSnapshot(snapshot)).None?
                || (snapshot.snapshotId in old(evidence.tables).snapshots
                    && snapshot.snapshotId
                       !in Staged(evidence.setup, old(evidence.tables), snapshot, others).snapshots)
      ensures saved ==> snapshot.snapshotId !in old(evidence.tables).snapshots
      ensures || evidence.tables == Staged(evidence.setup, old(evidence.tables), snapshot, others)
              || (raised && evidence.tables == old(evidence.tables))
      ensures !raised && others == [] ==>
                && snapshot.snapshotId in evidence.tables.snapshots
                && evidence.tables.revocations == old(evidence.tables).revocations
                && Current(evidence.tables, snapshot.workspaceId, snapshot.revisionId)
    {
      hide Run, Step, Attempted, Current;
      SaveLeaves(evidence.setup, evidence.tables, snapshot);
      raised, saved := evidence.SaveSnapshot(snapshot);
      if raised { return true, false; }
      Interfere(others);
      if !saved && snapshot.snapshotId !in evidence.tables.snapshots { return true, false; }
    }

    /** Buries a snapshot and takes its row back, if need be even when the burial raised. */
    method TakeBack(id: string, tokens: Tokens, always: bool, quiet: bool)
      returns (p: Progress, ghost revocation: Progress)
      requires Valid() && ArtifactStore.ValidIdentifier(id) && TokensFor({id}, tokens)
      modifies evidence, artifacts
      ensures Valid() && BuriedStay()
      ensures p != Done && (p == Crashed ==> evidence.tables == old(evidence.tables))
      ensures p == Raised ==>
                if always || revocation == Done then id !in evidence.tables.snapshots
                else evidence.tables == old(evidence.tables)
      ensures revocation == Done ==> Buried(artifacts.rows, id)
      ensures Decisions(artifacts.rows) == old(Decisions(artifacts.rows)) || Buried(artifacts.rows, id)
      ensures quiet && !old(Stuck(artifacts.rows, artifacts.files)) ==> p == Raised && revocation == Done
    {
      hide Recoverable, Decisions, Stuck, Buried, ArtifactStore.ValidIdentifier, Registry.IsHex, SlotOf;
      hide DeleteSnapshots;
      p := Bury(id, tokens, quiet);
      revocation := p;
      if p == Crashed || (p == Raised && !always) { return; }
      var fault := ChooseFault(quiet);
      if fault == CrashesBefore { return Crashed, revocation; }
      Delete(id);
      p := Raised;
    }

    /**
     A publication cut short by a crash and then repeated undisturbed: row and document agree again, unless the crash
     fell between the burial and the row's deletion. Then the row stays with a tombstone and is never published.
     */
    method PublishAgain(snapshot: Snapshot, document: Bytes, expectedSha256: string, first: Tokens, second: Tokens)
      returns (crashed: bool, ghost stuck: bool, p: Progress, ghost trail: Trail)
      requires Valid() && snapshot.workspaceId == artifacts.id && ArtifactStore.ValidIdentifier(snapshot.snapshotId)
      requires TokensFor({snapshot.snapshotId}, first) && TokensFor({snapshot.snapshotId}, second)
      requires artifacts.sha(document) == expectedSha256 != Registry.REVOKED_SHA256
      requires Attempted(evidence.setup, evidence.tables, SaveSnapshot(snapshot)).Some?
      requires snapshot.snapshotId !in RevokedIn(evidence.tables, artifacts.id)
      requires !Buried(artifacts.rows, snapshot.snapshotId)
      modifies evidence, artifacts
      ensures Valid() && BuriedStay()
      ensures crashed && !stuck ==> snapshot.snapshotId in evidence.tables.snapshots
      ensures crashed && !stuck ==>
                if trail.buried then p != Done && Buried(artifacts.rows, snapshot.snapshotId)
                else
                  && p == Done && SlotOf(snapshot.snapshotId) in artifacts.rows.artifacts
                  && artifacts.rows.artifacts[SlotOf(snapshot.snapshotId)].sha256 == expectedSha256
    {
      hide Recoverable, Decisions, Settled, Stuck, Buried, Run, Step, Attempted, Staged, Registry.IsHex, SlotOf;
      hide ArtifactStore.ValidIdentifier, RevokedIn, Published, Current;
      ghost var t := evidence.tables;
      SaveLeaves(evidence.setup, t, snapshot);
      SavedAgain(evidence.setup, t, snapshot);
      var saved;
      p, saved, trail := PublishSnapshot(snapshot, document, expectedSha256, first, first, [], [], false, false);
      crashed, stuck := p == Crashed, Stuck(artifacts.rows, artifacts.files);
      if crashed {
        NoOthers(evidence.setup, t, snapshot);
        SaveLeaves(evidence.setup, evidence.tables, snapshot);
        NotRevokedStill(t, evidence.tables, artifacts.id, snapshot.snapshotId);
        ghost var again;
        p, saved, again := PublishSnapshot(snapshot, document, expectedSha256, second, second, [], [], true, true);
        NoOthers(evidence.setup, Step(evidence.setup, t, SaveSnapshot(snapshot)), snapshot);
        assert again.ensured == Some(Done) || again.ensured == Some(Raised) || again.ensured == Some(Crashed) by {
          match again.ensured.value case Done => case Raised => case Crashed =>
        }
      }
    }

    /** Publishes a snapshot's document unless the snapshot is revoked. */
    method EnsureArtifact(id: string, document: Bytes, expectedSha256: string, tokens: Tokens, quiet: bool)
      returns (p: Progress)
      requires Valid() && ArtifactStore.ValidIdentifier(id) && TokensFor({id}, tokens)
      modifies artifacts
      ensures Valid() && BuriedStay()
      ensures Decisions(artifacts.rows) == old(Decisions(artifacts.rows)) || artifacts.rows.intent.None?
      ensures || Decisions(artifacts.rows) == old(Decisions(artifacts.rows))
              || Published(artifacts.id, old(Decisions(artifacts.rows)), artifacts.rows, id, expectedSha256, |document|)
      ensures p == Done ==>
                && artifacts.rows.intent.None? && SlotOf(id) in artifacts.rows.artifacts
                && artifacts.rows.artifacts[SlotOf(id)].sha256 == expectedSha256
                && Settled(artifacts.sha, artifacts.rows, artifacts.files)
      ensures id in evidence.tables.revocations && evidence.tables.revocations[id] == artifacts.id ==>
                p == Raised && artifacts.rows == old(artifacts.rows) && artifacts.files == old(artifacts.files)
      ensures old(Buried(artifacts.rows, id)) && expectedSha256 != Registry.REVOKED_SHA256 ==>
                p != Done && Decisions(artifacts.rows) == old(Decisions(artifacts.rows))
      ensures (&& quiet && !old(Stuck(artifacts.rows, artifacts.files)) && artifacts.sha(document) == expectedSha256
               && id !in RevokedIn(evidence.tables, artifacts.id) && !old(Buried(artifacts.rows, id))) ==> p == Done
    {
      hide Recoverable, Decisions, Settled, Stuck, ArtifactStore.ValidIdentifier, Registry.IsHex, Registry.Path;
      if id in RevokedIn(evidence.tables, artifacts.id) { return Raised; }
      assert id in tokens;
      TombstoneIsBuried(artifacts.id, artifacts.sha, artifacts.rows, artifacts.files, id);
      ArtifactStore.WhatIdentifies(id);
      p := artifacts.Publish(Registry.Snapshots, id, document, expectedSha256, tokens[id].0, tokens[id].1, quiet);
      if p == Done {
        artifacts.SettledIsQuiet();
        artifacts.NothingUnderWay();
      }
    }

    method Delete(id: string)
      modifies evidence
      ensures evidence.tables == DeleteSnapshots(old(evidence.tables), {id})
      ensures id !in evidence.tables.snapshots
    {
      var raised := evidence.Transact(DeleteSnapshot(id));
    }

    /** Other threads' transactions. */
    method Interfere(others: seq<Operation>)
      modifies evidence
      ensures evidence.tables == Run(evidence.setup, old(evidence.tables), others)
    {
      hide Step;
      for i := 0 to |others|
        invariant evidence.tables == Run(evidence.setup, old(evidence.tables), others[..i])
      {
        assert others[..i + 1][..i] == others[..i];
        var raised := evidence.Transact(others[i]);
      }
      assert others[..|others|] == others;
    }
  }

  /** A snapshot slot whose decided claim has the tombstone's digest is buried: no other collection has that slot. */
  lemma TombstoneIsBuried(id: string, sha: Digest, rows: Registry.Space, files: Files, snapshotId: string)
    requires Recoverable(id, sha, rows, files)
    ensures var decided := Lookup(Decisions(rows), SlotOf(snapshotId));
            Buried(rows, snapshotId) <==> decided.Some? && decided.value.sha256 == Registry.REVOKED_SHA256
  {
    var slot := SlotOf(snapshotId);
    if slot in Decisions(rows) {
      DecidedIsRouted(id, rows, slot);
      var claim := Decisions(rows)[slot];
      Registry.PathInjective(claim.collection, Registry.AfterSlash(slot), Registry.Snapshots,
                             ArtifactStore.TargetName(Registry.Snapshots, snapshotId));
    }
  }

  lemma DecidedIsRouted(id: string, rows: Registry.Space, slot: string)
    requires RegistryInvariant.SpaceInv(id, rows) && slot in Decisions(rows)
    ensures slot == Registry.Path(Decisions(rows)[slot].collection, Registry.AfterSlash(slot))
  {
    if slot in rows.artifacts {
      assert Registry.ArtifactValid(id, rows, slot, rows.artifacts[slot]);
    }
  }

  lemma SameDecisionsBury(rows: Registry.Space, next: Registry.Space, snapshotId: string)
    ensures Decisions(rows) == Decisions(next) ==> (Buried(rows, snapshotId) <==> Buried(next, snapshotId))
  {}

  lemma PublishedIsNotBuried(id: string, before: map<string, Registry.ArtifactClaim>, rows: Registry.Space,
                             snapshotId: string, sha256: string, size: nat)
    ensures sha256 != Registry.REVOKED_SHA256 && Published(id, before, rows, snapshotId, sha256, size) ==>
              !Buried(rows, snapshotId)
  {}

  /** A snapshot that has been saved is accepted again. */
  lemma SavedAgain(setup: Setup, t: Tables, snapshot: Snapshot)
    requires Attempted(setup, t, SaveSnapshot(snapshot)).Some?
    ensures var next := Step(setup, t, SaveSnapshot(snapshot));
            && Attempted(setup, next, SaveSnapshot(snapshot)) == Some(next)
            && Step(setup, next, SaveSnapshot(snapshot)) == next
  {
    hide NoDuplicates;
    var next := Step(setup, t, SaveSnapshot(snapshot));
    assert forall u :: DependencyFits(next, snapshot.workspaceId, snapshot.revisionId, u)
                       == DependencyFits(t, snapshot.workspaceId, snapshot.revisionId, u);
  }

  /** A save that is accepted leaves the snapshot stored and its revision current. */
  lemma SaveLeaves(setup: Setup, t: Tables, snapshot: Snapshot)
    ensures var next := Step(setup, t, SaveSnapshot(snapshot));
            && next.revocations == t.revocations
            && (Attempted(setup, t, SaveSnapshot(snapshot)).None? ==> next == t)
            && (Attempted(setup, t, SaveSnapshot(snapshot)).Some? ==>
                  snapshot.snapshotId in next.snapshots && Current(next, snapshot.workspaceId, snapshot.revisionId))
    ensures Run(setup, Step(setup, t, SaveSnapshot(snapshot)), []) == Step(setup, t, SaveSnapshot(snapshot))
  {
    hide DependenciesFit;
  }

  lemma NoOthers(setup: Setup, t: Tables, snapshot: Snapshot)
    ensures Staged(setup, t, snapshot, []) == Step(setup, t, SaveSnapshot(snapshot))
    ensures var none: seq<Operation> := []; none + none == none
  {
    hide Step;
  }

  lemma NothingRuns(setup: Setup, t: Tables)
    ensures Run(setup, t, []) == t
  {}

  lemma NotRevokedStill(t: Tables, next: Tables, workspaceId: string, snapshotId: string)
    requires snapshotId !in RevokedIn(t, workspaceId) && next.revocations == t.revocations
    ensures snapshotId !in RevokedIn(next, workspaceId)
  {}

  lemma {:induction false} RunJoins(setup: Setup, t: Tables, first: seq<Operation>, second: seq<Operation>)
    ensures Run(setup, Run(setup, t, first), second) == Run(setup, t, first + second)
    decreases |second|
  {
    hide Step;
    if second == [] {
      assert first + second == first;
    } else {
      RunJoins(setup, t, first, second[..|second| - 1]);
      assert (first + second)[..|first + second| - 1] == first + second[..|second| - 1];
    }
  }

  lemma NoIntentIsNotStuck(rows: Registry.Space, files: Files)
    ensures rows.intent.None? ==> !Stuck(rows, files)
  {}

  lemma WithdrawnAreRevoked(setup: Setup, t: Tables, workspaceId: string, revisionId: string, entryId: string)
    requires IdsNameWorkspaces(t)
    ensures var next := Step(setup, t, InvalidateEntry(workspaceId, revisionId, entryId));
            var gone := SnapshotsUsing(t, workspaceId, revisionId,
                                       UnitsOf(t.units, EntryParts(t, workspaceId, revisionId, entryId)));
            && gone <= RevokedIn(next, workspaceId)
            && forall s | s in next.revocations :: s in t.revocations || s in t.snapshots
  {
    hide UnitsOf, EntryParts;
  }
}
