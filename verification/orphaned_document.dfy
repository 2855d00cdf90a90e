/**
 The one way a failed publication leaves a document without its row: the publication records `installed` and then
 raises, and the burial that follows raises before it has done anything.
 */
module OrphanedDocument {
  import opened Outcomes
  import opened Registry
  import opened RegistryInvariant
  import opened ArtifactLayout
  import opened ArtifactSteps
  import opened ArtifactStore
  import SnapshotRevocation
  import T = EvidenceTables

  /** The rows after registry calls that are all accepted. */
  function RowsAfter(id: string, s: Space, ops: seq<Operation>): Option<Space>
    decreases |ops|
  {
    if ops == [] then Some(s)
    else if RowsAccept(id, s, ops[0]) then RowsAfter(id, Decide(s, ops[0]).next, ops[1..])
    else None
  }

  /** A workspace that has just been finalized. */
  function Finalized(id: string, g: string, workspace: Identity, evidence: Identity,
                     identities: map<Collection, Identity>): Space
  {
    Space(Some(WorkspaceClaim(id, Active, g, Some(workspace), Some(evidence))), Some(identities), map[], None, None,
          map[])
  }

  /** The announcement of a snapshot's document in it. */
  function Announcement(id: string, g: string, snapshotId: string, sha256: string, size: nat, temporaryToken: string,
                        backupToken: string): PublishIntent
  {
    var target := TargetName(Snapshots, snapshotId);
    PublishIntent(id, Path(Snapshots, target), target, TemporaryName(temporaryToken), BackupName(backupToken),
                  Snapshots, KindOf(Snapshots), snapshotId, sha256, size, None, None, g)
  }

  /** The registry's part of a publication up to the record `installed`. */
  function PublicationCalls(i: PublishIntent, identity: Identity): seq<Operation> {
    var journal := JournalFor(i, identity);
    [ReservePublish(i), ClaimOp(i, identity), PreparePublish(journal), AdvanceOp(journal, Backup),
     AdvanceOp(journal.(phase := Backup), Installed)]
  }

  lemma RowsAfterStep(id: string, s: Space, ops: seq<Operation>, t: Space)
    requires ops != [] && RowsAccept(id, s, ops[0]) && Decide(s, ops[0]).next == t
    ensures RowsAfter(id, s, ops) == RowsAfter(id, t, ops[1..])
  {
    hide RowsAccept, Decide;
  }

  /** From a settled workspace without the slot, the announced publication can be recorded up to `installed`. */
  lemma InstalledIsReachable(id: string, sha: Digest, s: Space, i: PublishIntent, identity: Identity, document: Bytes)
    requires Recoverable(id, sha, s, map[]) && s.intent.None? && s.journal.None? && s.artifacts == map[]
    requires Announceable(id, s, i) && i.oldClaim.None?
    requires sha(document) == i.expectedSha256 && |document| == i.expectedSize
    ensures var t := s.(journal := Some(JournalFor(i, identity).(phase := Installed)));
            && RowsAfter(id, s, PublicationCalls(i, identity)) == Some(t)
            && Recoverable(id, sha, t, map[i.slot := File(identity, document)])
  {
    hide Recoverable, RowsAccept, Decide, RowsAfter, SpaceInv, Path, ValidIntent, IntentRouted;
    var ops := PublicationCalls(i, identity);
    var path := TemporaryPath(i);
    RecordIntent(id, sha, s, map[], i);
    var s1 := s.(intent := Some(i));
    RowsAfterStep(id, s, ops, s1);
    var created: Files := map[path := File(identity, [])];
    IntentPaths(id, sha, s1, map[]);
    IntentFilesStep(id, sha, s1, map[], created);
    RecordTemporary(id, sha, s1, created, identity);
    var s2 := s.(intent := Some(i.(temporaryIdentity := Some(identity))));
    RowsAfterStep(id, s1, ops[1..], s2);
    var written: Files := map[path := File(identity, document)];
    IntentFilesStep(id, sha, s2, created, written);
    RecordPrepared(id, sha, s2, written);
    PreparedAlike(i, identity);
    var journal := JournalFor(i, identity);
    var s3 := s.(journal := Some(journal));
    RowsAfterStep(id, s2, ops[2..], s3);
    RecordBackup(id, sha, s3, written);
    var s4 := s.(journal := Some(journal.(phase := Backup)));
    RowsAfterStep(id, s3, ops[3..], s4);
    var moved: Files := map[i.slot := File(identity, document)];
    JournalFilesStep(id, sha, s4, written, moved);
    RecordInstalled(id, sha, s4, moved);
    var s5 := s.(journal := Some(journal.(phase := Installed)));
    RowsAfterStep(id, s4, ops[4..], s5);
    NoMoreCalls(id, s5);
    assert ops[4..][1..] == [];
  }

  lemma NoMoreCalls(id: string, s: Space)
    ensures RowsAfter(id, s, []) == Some(s)
  {}

  lemma IntentPaths(id: string, sha: Digest, s: Space, files: Files)
    requires Recoverable(id, sha, s, files) && s.intent.Some?
    ensures var i := s.intent.value;
            TemporaryPath(i) != BackupPath(i) && i.slot != TemporaryPath(i) && i.slot != BackupPath(i)
  {
    IntentFacts(id, s);
    JournalPathsDiffer(s.intent.value);
  }

  lemma PreparedAlike(i: PublishIntent, identity: Identity)
    ensures JournalFor(i.(temporaryIdentity := Some(identity)), identity) == JournalFor(i, identity)
  {}

  /**
   A concrete failure, for any snapshot the evidence store accepts and any document: the row is stored and deleted
   again, nobody has recorded a revocation, and the document is what the slot is decided to hold.
   */
  lemma OrphanIsReachable(setup: T.Setup, t: T.Tables, snapshot: T.Snapshot, sha: Digest, g: string,
                          workspace: Identity, evidence: Identity, identities: map<Collection, Identity>,
                          temporaryToken: string, backupToken: string, identity: Identity, document: Bytes)
    requires T.Attempted(setup, t, T.SaveSnapshot(snapshot)).Some? && snapshot.snapshotId !in t.revocations
    requires ValidName(snapshot.workspaceId) && ValidGeneration(g) && identities.Keys == ALL_COLLECTIONS
    requires ValidIdentifier(snapshot.snapshotId) && IsHex(temporaryToken, 32) && IsHex(backupToken, 32)
    requires IsHex(sha(document), 64) && sha(document) != REVOKED_SHA256
    ensures var id := snapshot.workspaceId;
            var start := Finalized(id, g, workspace, evidence, identities);
            var i := Announcement(id, g, snapshot.snapshotId, sha(document), |document|, temporaryToken, backupToken);
            var end := start.(journal := Some(JournalFor(i, identity).(phase := Installed)));
            var tables := T.Run(setup, t, [T.SaveSnapshot(snapshot), T.DeleteSnapshot(snapshot.snapshotId)]);
            && RowsAfter(id, start, PublicationCalls(i, identity)) == Some(end)
            && Recoverable(id, sha, end, map[i.slot := File(identity, document)])
            && SnapshotRevocation.Published(id, map[], end, snapshot.snapshotId, sha(document), |document|)
            && !SnapshotRevocation.Buried(end, snapshot.snapshotId)
            && snapshot.snapshotId !in tables.snapshots && snapshot.snapshotId !in tables.revocations
  {
    var id := snapshot.workspaceId;
    var start := Finalized(id, g, workspace, evidence, identities);
    var i := Announcement(id, g, snapshot.snapshotId, sha(document), |document|, temporaryToken, backupToken);
    var end := start.(journal := Some(JournalFor(i, identity).(phase := Installed)));
    SavedThenDeleted(setup, t, snapshot);
    hide T.Run, T.Attempted;
    NewWorkspaceIsRecoverable(id, sha, g, workspace, evidence, identities);
    hide Recoverable, Settled, Stuck, Path, ValidIdentifier, IsHex, ValidName, TargetName;
    AnnouncementFits(id, sha, start, map[], i, Snapshots, snapshot.snapshotId, temporaryToken, backupToken);
    InstalledIsReachable(id, sha, start, i, identity, document);
    DocumentIsDecided(id, end, snapshot.snapshotId, i, identity);
  }

  lemma DocumentIsDecided(id: string, s: Space, snapshotId: string, i: PublishIntent, identity: Identity)
    requires s.artifacts == map[] && s.journal == Some(JournalFor(i, identity).(phase := Installed))
    requires i.workspaceId == id && i.collection == Snapshots && i.kind == KindOf(Snapshots)
    requires i.artifactId == snapshotId && i.slot == Path(Snapshots, TargetName(Snapshots, snapshotId))
    requires i.expectedSha256 != REVOKED_SHA256
    ensures SnapshotRevocation.Published(id, map[], s, snapshotId, i.expectedSha256, i.expectedSize)
    ensures !SnapshotRevocation.Buried(s, snapshotId)
  {
    hide Path, TargetName;
    assert i.slot in Decisions(s);
  }

  lemma SavedThenDeleted(setup: T.Setup, t: T.Tables, snapshot: T.Snapshot)
    requires T.Attempted(setup, t, T.SaveSnapshot(snapshot)).Some?
    ensures var tables := T.Run(setup, t, [T.SaveSnapshot(snapshot), T.DeleteSnapshot(snapshot.snapshotId)]);
            snapshot.snapshotId !in tables.snapshots && tables.revocations == t.revocations
  {
    hide T.DependenciesFit;
    var ops := [T.SaveSnapshot(snapshot), T.DeleteSnapshot(snapshot.snapshotId)];
    assert ops[..1] == [T.SaveSnapshot(snapshot)] && [T.SaveSnapshot(snapshot)][..0] == [];
    assert T.Run(setup, t, ops[..1]) == T.Step(setup, t, T.SaveSnapshot(snapshot));
  }
}
