/** Each durable step of a publication or a recovery, and the layout it leads from and to. */
module ArtifactSteps {
  import opened Outcomes
  import opened Registry
  import opened RegistryInvariant
  import opened ArtifactLayout

  /** The directory after a rename that replaces nothing. */
  function Moved(files: Files, source: string, destination: string): Files {
    if source in files then (files - {source})[destination := files[source]] else files
  }

  ghost predicate SameElsewhere(files: Files, next: Files, busy: set<string>) {
    && (forall path | path in files :: path in busy || (path in next && next[path] == files[path]))
    && (forall path | path in next :: path in busy || path in files)
  }

  /** Steps on busy paths leave every other file as claimed. */
  lemma OthersStay(sha: Digest, s: Space, files: Files, next: Files, busy: set<string>)
    requires OthersHold(sha, s, files, busy) && SameElsewhere(files, next, busy)
    ensures OthersHold(sha, s, next, busy)
  {}

  /** What a recoverable state with a journal gives a recovery to work with. */
  lemma JournalFacts(id: string, sha: Digest, s: Space, files: Files)
    requires Recoverable(id, sha, s, files) && s.journal.Some?
    ensures s.intent.None?
    ensures MoveFits(s, MoveOf(s.journal.value))
    ensures PhaseLayout(sha, files, MoveOf(s.journal.value), s.journal.value.phase)
  {}

  /** A step on the three names of the journal keeps the state recoverable if it ends in a layout of the phase. */
  lemma JournalFilesStep(id: string, sha: Digest, s: Space, files: Files, next: Files)
    requires Recoverable(id, sha, s, files) && s.journal.Some?
    requires var m := MoveOf(s.journal.value);
             && SameElsewhere(files, next, {m.target, m.temporary, m.backup})
             && PhaseLayout(sha, next, m, s.journal.value.phase)
    ensures Recoverable(id, sha, s, next)
  {
    hide SpaceInv;
    var m := MoveOf(s.journal.value);
    OthersStay(sha, s, files, next, {m.target, m.temporary, m.backup});
  }

  function AdvanceOp(journal: PublishJournal, to: PublishPhase): Operation {
    AdvancePublish(journal.workspaceId, journal.generation, journal.temporaryName, journal.phase, to)
  }

  function CommitOp(journal: PublishJournal): Operation {
    CommitPublish(journal.workspaceId, journal.newClaim, journal.generation, journal.temporaryName)
  }

  function ClearOp(journal: PublishJournal): Operation {
    ClearPublish(journal.workspaceId, journal.generation, journal.temporaryName)
  }

  function AbortOp(journal: PublishJournal): Operation {
    AbortPublish(journal.workspaceId, journal.generation, journal.temporaryName, {Prepared, Backup})
  }

  /** The rows after a journal call, and that the registry accepts it. */
  lemma JournalCalls(id: string, s: Space)
    requires SpaceInv(id, s) && s.journal.Some?
    ensures var journal := s.journal.value;
            && id == journal.workspaceId
            && (journal.phase == Prepared ==>
                  Decide(s, AdvanceOp(journal, Backup)) == Changed(s.(journal := Some(journal.(phase := Backup)))))
            && (journal.phase == Backup ==>
                  Decide(s, AdvanceOp(journal, Installed)) ==
                     Changed(s.(journal := Some(journal.(phase := Installed)))))
            && (journal.phase == Installed ==>
                  Decide(s, CommitOp(journal)) == Changed(s.(artifacts := s.artifacts[journal.slot := journal.newClaim],
                                                             journal := Some(journal.(phase := Committed)))))
            && (journal.phase == Committed ==> Decide(s, ClearOp(journal)) == Changed(s.(journal := None)))
            && (!Forward(journal.phase) ==> Decide(s, AbortOp(journal)) == Changed(s.(journal := None)))
  {}

  /** A decided call with no argument to get wrong is accepted and keeps the invariant. */
  lemma Accepted(id: string, s: Space, op: Operation)
    requires SpaceInv(id, s) && Decide(s, op).Changed? && id == WorkspaceOf(op) && WellFormed(op)
    ensures RowsAccept(id, s, op) && SpaceInv(id, Decide(s, op).next)
  {
    SpaceStep(id, s, op);
  }

  lemma RecordBackup(id: string, sha: Digest, s: Space, files: Files)
    requires Recoverable(id, sha, s, files) && s.journal.Some? && s.journal.value.phase == Prepared
    ensures var op, t := AdvanceOp(s.journal.value, Backup), s.(journal := Some(s.journal.value.(phase := Backup)));
            && RowsAccept(id, s, op) && Decide(s, op).next == t
            && Recoverable(id, sha, t, files) && Decisions(t) == Decisions(s)
  {
    hide SpaceInv, SpaceValid, Decide;
    JournalCalls(id, s);
    Accepted(id, s, AdvanceOp(s.journal.value, Backup));
  }

  lemma RecordInstalled(id: string, sha: Digest, s: Space, files: Files)
    requires Recoverable(id, sha, s, files) && s.journal.Some? && s.journal.value.phase == Backup
    requires MovedIn(sha, files, MoveOf(s.journal.value))
    ensures var j := s.journal.value;
            var op, t := AdvanceOp(j, Installed), s.(journal := Some(j.(phase := Installed)));
            && RowsAccept(id, s, op) && Decide(s, op).next == t
            && Recoverable(id, sha, t, files) && Decisions(t) == Decisions(s)[j.slot := j.newClaim]
  {
    hide SpaceInv, SpaceValid, Decide;
    JournalCalls(id, s);
    Accepted(id, s, AdvanceOp(s.journal.value, Installed));
  }

  lemma RecordCommit(id: string, sha: Digest, s: Space, files: Files)
    requires Recoverable(id, sha, s, files) && s.journal.Some? && s.journal.value.phase == Installed
    ensures var j := s.journal.value;
            var op := CommitOp(j);
            var t := s.(artifacts := s.artifacts[j.slot := j.newClaim], journal := Some(j.(phase := Committed)));
            && RowsAccept(id, s, op) && Decide(s, op).next == t
            && Recoverable(id, sha, t, files) && Decisions(t) == Decisions(s)
  {
    hide SpaceInv, SpaceValid, Decide;
    JournalCalls(id, s);
    Accepted(id, s, CommitOp(s.journal.value));
  }

  lemma JournalClaims(id: string, s: Space)
    requires SpaceInv(id, s) && s.journal.Some?
    ensures var j := s.journal.value;
            && Lookup(s.artifacts, j.slot) == (if j.phase == Committed then Some(j.newClaim) else j.oldClaim)
  {}

  lemma RecordClear(id: string, sha: Digest, s: Space, files: Files)
    requires Recoverable(id, sha, s, files) && s.journal.Some? && s.journal.value.phase == Committed
    requires CleanedUp(sha, files, MoveOf(s.journal.value))
    ensures var op, t := ClearOp(s.journal.value), s.(journal := None);
            && RowsAccept(id, s, op) && Decide(s, op).next == t
            && Recoverable(id, sha, t, files) && t.intent.None? && Decisions(t) == Decisions(s)
  {
    hide SpaceInv, SpaceValid, Decide;
    JournalCalls(id, s);
    JournalClaims(id, s);
    JournalFacts(id, sha, s, files);
    Accepted(id, s, ClearOp(s.journal.value));
  }

  lemma RecordAbort(id: string, sha: Digest, s: Space, files: Files)
    requires Recoverable(id, sha, s, files) && s.journal.Some? && !Forward(s.journal.value.phase)
    requires BeforeMove(sha, files, MoveOf(s.journal.value)) && MoveOf(s.journal.value).temporary !in files
    ensures var op, t := AbortOp(s.journal.value), s.(journal := None);
            && RowsAccept(id, s, op) && Decide(s, op).next == t
            && Recoverable(id, sha, t, files) && t.intent.None? && Decisions(t) == Decisions(s)
  {
    hide SpaceInv, SpaceValid, Decide;
    JournalCalls(id, s);
    JournalClaims(id, s);
    JournalFacts(id, sha, s, files);
    Accepted(id, s, AbortOp(s.journal.value));
  }

  // ---------------------------------------------------------------- the announced publication

  function ClaimOp(intent: PublishIntent, identity: Identity): Operation {
    ClaimTemporary(intent.workspaceId, identity, intent.generation, intent.temporaryName)
  }

  function ClearIntentOp(intent: PublishIntent): Operation {
    ClearIntent(intent.workspaceId, intent.generation, intent.temporaryName)
  }

  /** The journal that follows an announced publication whose temporary file has this identity. */
  function JournalFor(intent: PublishIntent, identity: Identity): PublishJournal {
    var claim := ArtifactClaim(intent.workspaceId, intent.slot, intent.collection, intent.kind, intent.artifactId,
                               identity, intent.expectedSha256, intent.expectedSize, intent.generation);
    PublishJournal(intent.workspaceId, intent.slot, Prepared, intent.targetName, intent.temporaryName,
                   intent.backupName, claim, intent.oldClaim, intent.generation)
  }

  lemma IntentFacts(id: string, s: Space)
    requires SpaceInv(id, s) && s.intent.Some?
    ensures var i := s.intent.value;
            && s.journal.None? && id == i.workspaceId
            && Lookup(s.artifacts, i.slot) == i.oldClaim
            && i.slot == Path(i.collection, i.targetName)
            && ThreeNames(i.targetName, i.temporaryName, i.backupName)
  {}

  lemma IntentCalls(id: string, s: Space, identity: Identity)
    requires SpaceInv(id, s) && s.intent.Some?
    ensures var i := s.intent.value;
            && Decide(s, ClearIntentOp(i)) == Changed(s.(intent := None))
            && (i.temporaryIdentity.None? ==>
                  Decide(s, ClaimOp(i, identity)) ==
                     Changed(s.(intent := Some(i.(temporaryIdentity := Some(identity))))))
  {}

  lemma PrepareCall(id: string, s: Space)
    requires SpaceInv(id, s) && s.intent.Some? && s.intent.value.temporaryIdentity.Some?
    ensures var journal := JournalFor(s.intent.value, s.intent.value.temporaryIdentity.value);
            Decide(s, PreparePublish(journal)) == Changed(s.(intent := None, journal := Some(journal)))
  {
    var i := s.intent.value;
    AfterSlashOfPath(i.collection, i.targetName);
    if i.oldClaim.Some? {
      assert ArtifactValid(id, s, i.slot, i.oldClaim.value);
    }
  }

  /** A step on the two hidden names of the announcement keeps the state recoverable. */
  lemma IntentFilesStep(id: string, sha: Digest, s: Space, files: Files, next: Files)
    requires Recoverable(id, sha, s, files) && s.intent.Some?
    requires var i := s.intent.value;
             && SameElsewhere(files, next, {TemporaryPath(i), BackupPath(i)})
             && if i.temporaryIdentity.None? then BackupPath(i) !in next
                else
                  && (TemporaryPath(i) in next ==>
                        next[TemporaryPath(i)].identity == i.temporaryIdentity.value && BackupPath(i) !in next)
                  && (BackupPath(i) in next ==> next[BackupPath(i)].identity == i.temporaryIdentity.value)
    ensures Recoverable(id, sha, s, next)
  {
    IntentFacts(id, s);
    hide SpaceInv;
    OthersStay(sha, s, files, next, {TemporaryPath(s.intent.value), BackupPath(s.intent.value)});
  }

  lemma RecordIntent(id: string, sha: Digest, s: Space, files: Files, i: PublishIntent)
    requires Recoverable(id, sha, s, files) && s.intent.None? && s.journal.None?
    requires i.workspaceId == id && IntentRouted(i) && ValidIntent(i) && i.temporaryIdentity.None?
    requires i.generation == s.workspace.value.generation && i.oldClaim == Lookup(s.artifacts, i.slot)
    requires !Unrevokes(i.oldClaim, i.collection, i.expectedSha256) && PlainName(AfterSlash(i.slot))
    requires TemporaryPath(i) !in s.artifacts && BackupPath(i) !in s.artifacts
    ensures var op, t := ReservePublish(i), s.(intent := Some(i));
            && RowsAccept(id, s, op) && Decide(s, op).next == t
            && Recoverable(id, sha, t, files) && Decisions(t) == Decisions(s)
            && TemporaryPath(i) !in files && BackupPath(i) !in files
  {
    hide SpaceInv, SpaceValid, ValidIntent, IntentRouted;
    Accepted(id, s, ReservePublish(i));
  }

  lemma RecordTemporary(id: string, sha: Digest, s: Space, files: Files, identity: Identity)
    requires Recoverable(id, sha, s, files) && s.intent.Some? && s.intent.value.temporaryIdentity.None?
    requires TemporaryPath(s.intent.value) in files && files[TemporaryPath(s.intent.value)].identity == identity
    ensures var i := s.intent.value;
            var op, t := ClaimOp(i, identity), s.(intent := Some(i.(temporaryIdentity := Some(identity))));
            && RowsAccept(id, s, op) && Decide(s, op).next == t
            && Recoverable(id, sha, t, files) && Decisions(t) == Decisions(s) && BackupPath(i) !in files
  {
    IntentFacts(id, s);
    hide SpaceInv, SpaceValid, Decide;
    IntentCalls(id, s, identity);
    Accepted(id, s, ClaimOp(s.intent.value, identity));
  }

  lemma RecordIntentCleared(id: string, sha: Digest, s: Space, files: Files)
    requires Recoverable(id, sha, s, files) && s.intent.Some?
    requires TemporaryPath(s.intent.value) !in files && BackupPath(s.intent.value) !in files
    ensures var op, t := ClearIntentOp(s.intent.value), s.(intent := None);
            && RowsAccept(id, s, op) && Decide(s, op).next == t
            && Recoverable(id, sha, t, files) && t.journal.None? && Decisions(t) == Decisions(s)
  {
    hide SpaceInv, SpaceValid, Decide, PlainName, AfterSlash, Holds, Path, ThreeNames;
    IntentFacts(id, s);
    IntentCalls(id, s, Identity(0, 0));
    Accepted(id, s, ClearIntentOp(s.intent.value));
  }

  lemma JournalPathsDiffer(i: PublishIntent)
    requires i.slot == Path(i.collection, i.targetName) && ThreeNames(i.targetName, i.temporaryName, i.backupName)
    ensures i.slot != TemporaryPath(i) && i.slot != BackupPath(i) && TemporaryPath(i) != BackupPath(i)
  {
    AfterSlashOfPath(i.collection, i.targetName);
    AfterSlashOfPath(i.collection, i.temporaryName);
    AfterSlashOfPath(i.collection, i.backupName);
  }

  lemma RecordPrepared(id: string, sha: Digest, s: Space, files: Files)
    requires Recoverable(id, sha, s, files) && s.intent.Some? && s.intent.value.temporaryIdentity.Some?
    requires var i := s.intent.value;
             && Holds(sha, files, TemporaryPath(i), JournalFor(i, i.temporaryIdentity.value).newClaim)
             && (i.oldClaim.Some? ==> i.oldClaim.value.identity != i.temporaryIdentity.value)
    ensures var i := s.intent.value;
            var journal := JournalFor(i, i.temporaryIdentity.value);
            var op, t := PreparePublish(journal), s.(intent := None, journal := Some(journal));
            && RowsAccept(id, s, op) && Decide(s, op).next == t
            && Recoverable(id, sha, t, files) && Decisions(t) == Decisions(s)
            && BeforeMove(sha, files, MoveOf(journal))
  {
    hide SpaceInv, SpaceValid, Decide, AfterSlash, DirectoryOf, PlainName;
    var i := s.intent.value;
    IntentFacts(id, s);
    PrepareCall(id, s);
    JournalPathsDiffer(i);
    Accepted(id, s, PreparePublish(JournalFor(i, i.temporaryIdentity.value)));
  }

  lemma IntentLayoutFacts(id: string, sha: Digest, s: Space, files: Files)
    requires Recoverable(id, sha, s, files) && s.intent.Some?
    ensures var i := s.intent.value;
            && s.journal.None? && TemporaryPath(i) != BackupPath(i)
            && if i.temporaryIdentity.None? then BackupPath(i) !in files
               else
                 && (TemporaryPath(i) in files ==>
                       files[TemporaryPath(i)].identity == i.temporaryIdentity.value && BackupPath(i) !in files)
                 && (BackupPath(i) in files ==> files[BackupPath(i)].identity == i.temporaryIdentity.value)
  {
    IntentFacts(id, s);
    JournalPathsDiffer(s.intent.value);
  }

  lemma JournalTemporaryDiscarded(id: string, sha: Digest, s: Space, files: Files)
    requires Recoverable(id, sha, s, files) && s.journal.Some?
    ensures Recoverable(id, sha, s, files - {MoveOf(s.journal.value).temporary})
  {
    hide SpaceInv, Recoverable, JournalLayout, OthersHold, Path, DirectoryOf;
    JournalFacts(id, sha, s, files);
    JournalFilesStep(id, sha, s, files, files - {MoveOf(s.journal.value).temporary});
  }

  /** Discarding the temporary file leaves a recoverable state, whatever was recorded about it. */
  lemma TemporaryDiscarded(id: string, sha: Digest, s: Space, files: Files, path: string)
    requires Recoverable(id, sha, s, files)
    requires || (s.intent.Some? && path == TemporaryPath(s.intent.value))
             || (s.journal.Some? && path == MoveOf(s.journal.value).temporary)
    ensures Recoverable(id, sha, s, files - {path})
  {
    hide SpaceInv, Recoverable;
    if s.journal.Some? && path == MoveOf(s.journal.value).temporary {
      JournalTemporaryDiscarded(id, sha, s, files);
    } else {
      IntentLayoutFacts(id, sha, s, files);
      IntentFilesStep(id, sha, s, files, files - {path});
    }
  }
}
