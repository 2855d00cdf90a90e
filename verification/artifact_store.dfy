/**
 The artifact store's publication and its recovery, run against one workspace's registry rows and files.

 Every durable step can go right, fail before or after taking effect, or be the last one before a crash. A
 caller that passes `quiet` gets a run in which no step fails or crashes.
 */
module ArtifactStore {
  import opened Outcomes
  import opened Registry
  import opened RegistryInvariant
  import opened ArtifactLayout
  import opened ArtifactSteps

  predicate ValidIdentifier(text: string) {
    && 16 <= |text| <= 128
    && forall i | 0 <= i < |text| ::
         'A' <= text[i] <= 'Z' || 'a' <= text[i] <= 'z' || '0' <= text[i] <= '9' || text[i] == '_' || text[i] == '-'
  }

  function TargetName(collection: Collection, artifactId: string): string {
    if collection == Parts then artifactId else artifactId + ".json"
  }

  function TemporaryName(token: string): string {
    ".artifact-" + token + ".tmp"
  }

  function BackupName(token: string): string {
    ".artifact-" + token + ".backup"
  }

  /** The journal is still recorded, at most further on, or has been cleared. */
  predicate SameButPhase(s: Space, journal: PublishJournal) {
    s.intent.None? && (s.journal.Some? ==> s.journal.value.(phase := journal.phase) == journal)
  }

  /** What a name turned out to hold. */
  datatype Found = Absent | Match(claim: ArtifactClaim) | Foreign

  /** The first claim whose identity the named file has, if its content is the claimed one as well. */
  function Classify(sha: Digest, files: Files, path: string, claims: seq<ArtifactClaim>): (found: Found)
    ensures found.Absent? <==> path !in files
    ensures found.Match? ==> Holds(sha, files, path, found.claim) && found.claim in claims
  {
    if path !in files then Absent
    else if claims == [] then Foreign
    else if files[path].identity == claims[0].identity then
      if Holds(sha, files, path, claims[0]) then Match(claims[0]) else Foreign
    else Classify(sha, files, path, claims[1..])
  }

  /** The first claim with the file's identity decides: its content is the claimed one, or the file is refused. */
  lemma {:induction false} FirstIdentityDecides(sha: Digest, files: Files, path: string, claims: seq<ArtifactClaim>,
                                                k: nat)
    requires path in files && k <= |claims|
    requires forall j | 0 <= j < k :: files[path].identity != claims[j].identity
    requires k < |claims| ==> files[path].identity == claims[k].identity
    ensures Classify(sha, files, path, claims)
            == (if k < |claims| && sha(files[path].content) == claims[k].sha256
                   && |files[path].content| == claims[k].size then Match(claims[k]) else Foreign)
    decreases k
  {
    if k > 0 {
      FirstIdentityDecides(sha, files, path, claims[1..], k - 1);
    }
  }

  function Listed(claim: Option<ArtifactClaim>): seq<ArtifactClaim> {
    if claim.Some? then [claim.value] else []
  }

  class Store {
    const id: string
    const sha: Digest
    var rows: Space
    var files: Files

    constructor (id: string, sha: Digest, rows: Space, files: Files)
      ensures this.id == id && this.sha == sha && this.rows == rows && this.files == files
    {
      this.id, this.sha, this.rows, this.files := id, sha, rows, files;
    }

    // -------------------------------------------------------------- durable steps

    /** One registry call, appended to the log as one record. */
    method Record(op: Operation, quiet: bool) returns (p: Progress)
      modifies this`rows
      ensures rows == old(rows) || (RowsAccept(id, old(rows), op) && rows == Decide(old(rows), op).next)
      ensures p == Done ==> RowsAccept(id, old(rows), op) && rows == Decide(old(rows), op).next
      ensures quiet && RowsAccept(id, old(rows), op) ==> p == Done
    {
      hide Decide, SpaceValid;
      var fault := ChooseFault(quiet);
      if fault == CrashesBefore { return Crashed; }
      if fault == FailsBefore || !RowsAccept(id, rows, op) { return Raised; }
      rows := Decide(rows, op).next;
      p := if fault == FailsAfter then Raised else Done;
    }

    /** One change of the directory, made only when the file it is about is the expected one. */
    method Change(next: Files, expected: bool, quiet: bool) returns (p: Progress)
      modifies this`files
      ensures files == old(files) || (expected && files == next)
      ensures p == Done ==> expected && files == next
      ensures quiet && expected ==> p == Done
    {
      var fault := ChooseFault(quiet);
      if fault == CrashesBefore { return Crashed; }
      if fault == FailsBefore || !expected { return Raised; }
      files := next;
      p := if fault == FailsAfter then Raised else Done;
    }

    // -------------------------------------------------------------- publication

    /** Moves the old file aside, moves the new one in, and records each step before taking the next. */
    method Install(journal: PublishJournal, quiet: bool) returns (p: Progress)
      requires Recoverable(id, sha, rows, files)
      requires rows.journal == Some(journal) && journal.phase == Prepared
      requires BeforeMove(sha, files, MoveOf(journal)) && MoveOf(journal).temporary in files
      modifies this
      ensures Recoverable(id, sha, rows, files)
      ensures || Decisions(rows) == old(Decisions(rows))
              || Decisions(rows) == old(Decisions(rows))[journal.slot := journal.newClaim]
      ensures p == Done ==> Decisions(rows) == old(Decisions(rows))[journal.slot := journal.newClaim]
      ensures SameButPhase(rows, journal) && (p == Done ==> rows.journal.None?)
      ensures quiet ==> p == Done
    {
      hide Recoverable, RowsAccept, Decide, Decisions, SpaceInv;
      var m := MoveOf(journal);
      JournalFacts(id, sha, rows, files);
      if m.prior.Some? {
        ghost var before := files;
        p := Change(Moved(files, m.target, m.backup), Holds(sha, files, m.target, m.prior.value) && m.backup !in files,
                    quiet);
        JournalFilesStep(id, sha, rows, before, files);
        if p != Done { return; }
      }
      assert m.target !in files && HoldsIf(sha, files, m.backup, m.prior) && Holds(sha, files, m.temporary, m.newer);
      RecordBackup(id, sha, rows, files);
      p := Record(AdvanceOp(journal, Backup), quiet);
      if p != Done { return; }
      ghost var before := files;
      p := Change(Moved(files, m.temporary, m.target), Holds(sha, files, m.temporary, m.newer) && m.target !in files,
                  quiet);
      JournalFilesStep(id, sha, rows, before, files);
      if p != Done { return; }
      if !Holds(sha, files, m.target, m.newer) { return Raised; }
      p := RecordNewFile(quiet);
    }

    /** From the new file in place: records it, commits it, removes the backup and clears the journal. */
    method RecordNewFile(quiet: bool) returns (p: Progress)
      requires Recoverable(id, sha, rows, files)
      requires rows.journal.Some? && rows.journal.value.phase == Backup
      requires MovedIn(sha, files, MoveOf(rows.journal.value))
      modifies this
      ensures Recoverable(id, sha, rows, files)
      ensures var journal := old(rows.journal.value);
              || Decisions(rows) == old(Decisions(rows))
              || Decisions(rows) == old(Decisions(rows))[journal.slot := journal.newClaim]
      ensures p == Done ==>
                var journal := old(rows.journal.value);
                Decisions(rows) == old(Decisions(rows))[journal.slot := journal.newClaim]
      ensures SameButPhase(rows, old(rows.journal.value)) && (p == Done ==> rows.journal.None?)
      ensures quiet ==> p == Done
    {
      hide Recoverable, RowsAccept, Decide, Decisions, SpaceInv;
      var journal := rows.journal.value;
      JournalFacts(id, sha, rows, files);
      RecordInstalled(id, sha, rows, files);
      p := Record(AdvanceOp(journal, Installed), quiet);
      if p != Done { return; }
      RecordCommit(id, sha, rows, files);
      p := Record(CommitOp(rows.journal.value), quiet);
      if p != Done { return; }
      p := FinishCommitted(quiet);
    }

    /** Removes what a committed publication leaves behind and clears its journal. */
    method FinishCommitted(quiet: bool) returns (p: Progress)
      requires Recoverable(id, sha, rows, files)
      requires rows.journal.Some? && rows.journal.value.phase == Committed
      modifies this
      ensures Recoverable(id, sha, rows, files)
      ensures Decisions(rows) == old(Decisions(rows))
      ensures SameButPhase(rows, old(rows.journal.value)) && (p == Done ==> rows.journal.None?)
      ensures quiet ==> p == Done
    {
      hide Recoverable, RowsAccept, Decide, Decisions, SpaceInv;
      var journal := rows.journal.value;
      var m := MoveOf(journal);
      JournalFacts(id, sha, rows, files);
      if m.prior.Some? && m.backup in files {
        ghost var before := files;
        p := Change(files - {m.backup}, Holds(sha, files, m.backup, m.prior.value), quiet);
        JournalFilesStep(id, sha, rows, before, files);
        if p != Done { return; }
      }
      RecordClear(id, sha, rows, files);
      p := Record(ClearOp(journal), quiet);
    }

    // -------------------------------------------------------------- recovery

    /** Removes the new file from the target or from the temporary name, before `installed` is recorded. */
    method DiscardNewer(path: string, quiet: bool) returns (p: Progress)
      requires Recoverable(id, sha, rows, files)
      requires rows.journal.Some? && !Forward(rows.journal.value.phase)
      requires var m := MoveOf(rows.journal.value);
               && (path == m.temporary || (path == m.target && MovedIn(sha, files, m)))
               && Holds(sha, files, path, m.newer)
      modifies this`files
      ensures Recoverable(id, sha, rows, files)
      ensures files == old(files) || files == old(files) - {path}
      ensures p == Done ==> files == old(files) - {path}
      ensures quiet ==> p == Done
    {
      hide Recoverable, SpaceInv;
      JournalFacts(id, sha, rows, files);
      ghost var before := files;
      p := Change(files - {path}, Holds(sha, files, path, MoveOf(rows.journal.value).newer), quiet);
      JournalFilesStep(id, sha, rows, before, files);
    }

    /** Puts the old file back, or nothing where there was nothing. */
    method Rollback(quiet: bool) returns (p: Progress)
      requires Recoverable(id, sha, rows, files)
      requires rows.journal.Some? && !Forward(rows.journal.value.phase)
      modifies this`files
      ensures Recoverable(id, sha, rows, files)
      ensures p == Done ==>
                var m := MoveOf(rows.journal.value); BeforeMove(sha, files, m) && m.temporary !in files
      ensures quiet ==> p == Done
    {
      hide Recoverable, SpaceInv;
      var m := MoveOf(rows.journal.value);
      JournalFacts(id, sha, rows, files);
      var target := Classify(sha, files, m.target, Listed(m.prior) + [m.newer]);
      var temporary := Classify(sha, files, m.temporary, [m.newer]);
      var backup := Classify(sha, files, m.backup, Listed(m.prior));
      RollbackClassified(sha, files, m);
      if target.Foreign? || temporary.Foreign? || backup.Foreign? { return Raised; }
      if target == Match(m.newer) {
        p := DiscardNewer(m.target, quiet);
        if p != Done { return; }
      }
      if temporary == Match(m.newer) {
        p := DiscardNewer(m.temporary, quiet);
        if p != Done { return; }
      }
      JournalFacts(id, sha, rows, files);
      if m.prior.None? {
        return if backup != Absent then Raised else Done;
      }
      if target == Match(m.prior.value) {
        return if backup != Absent then Raised else Done;
      }
      if backup != Match(m.prior.value) { return Raised; }
      ghost var before := files;
      p := Change(Moved(files, m.backup, m.target), Holds(sha, files, m.backup, m.prior.value) && m.target !in files,
                  quiet);
      JournalFilesStep(id, sha, rows, before, files);
    }

    /** Rolls an unfinished publication back, or forward once `installed` is recorded. */
    method RecoverPublish(quiet: bool) returns (p: Progress)
      requires Recoverable(id, sha, rows, files)
      modifies this
      ensures Recoverable(id, sha, rows, files)
      ensures Decisions(rows) == old(Decisions(rows))
      ensures p == Done ==> rows.journal.None? && rows.intent == old(rows.intent)
      ensures rows.intent.None? || (rows == old(rows) && files == old(files))
      ensures quiet ==> p == Done
    {
      hide Recoverable, RowsAccept, Decide, Decisions, SpaceInv;
      if rows.journal.None? { return Done; }
      var journal := rows.journal.value;
      var m := MoveOf(journal);
      JournalFacts(id, sha, rows, files);
      if !Forward(journal.phase) {
        p := Rollback(quiet);
        if p != Done { return; }
        RecordAbort(id, sha, rows, files);
        p := Record(AbortOp(journal), quiet);
        return;
      }
      if Classify(sha, files, m.target, [m.newer]) != Match(m.newer) { return Raised; }
      if journal.phase == Installed {
        if m.prior.None? && m.backup in files { return Raised; }
        if m.prior.Some? && Classify(sha, files, m.backup, [m.prior.value]) != Match(m.prior.value) { return Raised; }
        RecordCommit(id, sha, rows, files);
        p := Record(CommitOp(journal), quiet);
        if p != Done { return; }
      }
      JournalFacts(id, sha, rows, files);
      if m.prior.None? && m.backup in files { return Raised; }
      p := FinishCommitted(quiet);
    }

    /** Removes an announced publication's temporary file by way of its backup name, then the announcement. */
    method RecoverIntent(quiet: bool) returns (p: Progress)
      requires Recoverable(id, sha, rows, files)
      modifies this
      ensures Recoverable(id, sha, rows, files)
      ensures Decisions(rows) == old(Decisions(rows))
      ensures p == Done ==> rows.intent.None? && rows.journal == old(rows.journal)
      ensures rows.intent == old(rows.intent) || (rows.intent.None? && rows.journal.None?)
      ensures old(Stuck(rows, files)) ==> p != Done && rows == old(rows) && files == old(files)
      ensures !old(Stuck(rows, files)) ==> !Stuck(rows, files)
      ensures quiet && !old(Stuck(rows, files)) ==> p == Done
    {
      hide Recoverable, RowsAccept, Decide, Decisions, SpaceInv, TemporaryPath, BackupPath;
      if rows.intent.None? { return Done; }
      var intent := rows.intent.value;
      var temporary, backup := TemporaryPath(intent), BackupPath(intent);
      IntentLayoutFacts(id, sha, rows, files);
      if intent.temporaryIdentity.None? {
        if temporary in files || backup in files { return Raised; }
      } else {
        var identity := intent.temporaryIdentity.value;
        if temporary in files && files[temporary].identity != identity { return Raised; }
        if backup in files && files[backup].identity != identity { return Raised; }
        if temporary in files && backup in files { return Raised; }
        if temporary in files {
          ghost var before := files;
          p := Change(Moved(files, temporary, backup), backup !in files, quiet);
          IntentFilesStep(id, sha, rows, before, files);
          if p != Done { return; }
        }
        if backup in files {
          ghost var before := files;
          p := Change(files - {backup}, files[backup].identity == identity, quiet);
          IntentFilesStep(id, sha, rows, before, files);
          if p != Done { return; }
        }
      }
      RecordIntentCleared(id, sha, rows, files);
      p := Record(ClearIntentOp(intent), quiet);
    }

    /** Recovers whatever is under way; from any cut it ends, if nothing fails, with nothing under way. */
    method Recover(quiet: bool) returns (p: Progress)
      requires Recoverable(id, sha, rows, files)
      modifies this
      ensures Recoverable(id, sha, rows, files)
      ensures Decisions(rows) == old(Decisions(rows))
      ensures p == Done ==> Settled(sha, rows, files) && rows.artifacts == old(Decisions(rows))
      ensures p == Done ==> rows.intent.None? && rows.journal.None?
      ensures old(Stuck(rows, files)) ==> p != Done && rows == old(rows) && files == old(files)
      ensures !old(Stuck(rows, files)) ==> !Stuck(rows, files)
      ensures quiet && !old(Stuck(rows, files)) ==> p == Done
    {
      hide Recoverable, Decisions, Settled;
      p := RecoverIntent(quiet);
      if p != Done { return; }
      p := RecoverPublish(quiet);
      if p == Done {
        NothingUnderWay();
      }
    }

    lemma NothingUnderWay()
      requires Recoverable(id, sha, rows, files) && rows.intent.None? && rows.journal.None?
      ensures Settled(sha, rows, files) && Decisions(rows) == rows.artifacts && rows.workspace.Some?
    {
      QuietLayoutIsSettled(id, sha, rows, files);
    }

    // -------------------------------------------------------------- a whole publication

    /** The operating system hands out an identity no live file has. */
    method ChooseIdentity() returns (identity: Identity)
      ensures forall path | path in files :: files[path].identity != identity
    {
      var inodes := set path | path in files :: files[path].identity.inode;
      var n: nat := 0;
      var left := inodes;
      while n in left
        invariant left <= inodes
        invariant forall i | i in inodes :: i in left || i < n
        decreases |left|
      {
        left := left - {n};
        n := n + 1;
      }
      identity := *;
      if exists path | path in files :: files[path].identity == identity {
        identity := Identity(0, n);
      }
    }

    method CreateTemporary(path: string, quiet: bool) returns (p: Progress, identity: Identity)
      modifies this`files
      ensures SameElsewhere(old(files), files, {path})
      ensures files == old(files) || path !in old(files)
      ensures p == Done ==> path in files && files[path].identity == identity
      ensures p == Done ==> forall other | other in old(files) :: old(files)[other].identity != identity
      ensures quiet && path !in old(files) ==> p == Done
    {
      identity := ChooseIdentity();
      p := Change(files[path := File(identity, [])], path !in files, quiet);
    }

    method WriteTemporary(path: string, content: Bytes, quiet: bool) returns (p: Progress)
      requires path in files
      modifies this`files
      ensures SameElsewhere(old(files), files, {path})
      ensures path in files && files[path].identity == old(files)[path].identity
      ensures p == Done ==> files[path].content == content
      ensures quiet ==> p == Done
    {
      var identity := files[path].identity;
      var partial: Bytes := *;
      p := Change(files[path := File(identity, content)], true, quiet);
      if p != Done {
        files := files[path := File(identity, partial)];
      }
    }

    /** Creates, claims, fills and checks the temporary file, then records the journal. */
    method Stage(content: Bytes, quiet: bool) returns (p: Progress)
      requires Recoverable(id, sha, rows, files)
      requires rows.intent.Some? && rows.intent.value.temporaryIdentity.None?
      requires TemporaryPath(rows.intent.value) !in files && BackupPath(rows.intent.value) !in files
      requires sha(content) == rows.intent.value.expectedSha256 && |content| == rows.intent.value.expectedSize
      modifies this
      ensures Recoverable(id, sha, rows, files) && Decisions(rows) == old(Decisions(rows))
      ensures UnderWay(old(rows.intent.value))
      ensures p == Done ==> rows.journal.Some? && Announced(rows.journal.value, old(rows.intent.value))
      ensures p == Done ==>
                && rows.journal.value.phase == Prepared
                && BeforeMove(sha, files, MoveOf(rows.journal.value)) && MoveOf(rows.journal.value).temporary in files
      ensures quiet ==> p == Done
    {
      hide Recoverable, RowsAccept, Decide, Decisions, SpaceInv, Path;
      var intent := rows.intent.value;
      var path := TemporaryPath(intent);
      TargetIsLive(id, sha, rows, files);
      var identity;
      ghost var before := files;
      IntentLayoutFacts(id, sha, rows, files);
      p, identity := CreateTemporary(path, quiet);
      IntentFilesStep(id, sha, rows, before, files);
      if p != Done { return; }
      RecordTemporary(id, sha, rows, files, identity);
      p := Record(ClaimOp(intent, identity), quiet);
      if p != Done { return; }
      before := files;
      p := WriteTemporary(path, content, quiet);
      IntentFilesStep(id, sha, rows, before, files);
      if p != Done { return; }
      if sha(files[path].content) != intent.expectedSha256 || |files[path].content| != intent.expectedSize {
        return Raised;
      }
      RecordPrepared(id, sha, rows, files);
      p := Record(PreparePublish(JournalFor(rows.intent.value, identity)), quiet);
    }

    /** The announced publication is still recorded, as the intent or as the journal it became. */
    predicate UnderWay(intent: PublishIntent)
      reads this`rows
    {
      || (rows.intent.Some? && TemporaryPath(rows.intent.value) == TemporaryPath(intent))
      || (rows.journal.Some? && Announced(rows.journal.value, intent))
    }

    /** What an exception leads to: the temporary file is discarded and a recovery is attempted. */
    method Abandon(intent: PublishIntent) returns (p: Progress)
      requires Recoverable(id, sha, rows, files) && (UnderWay(intent) || (rows.intent.None? && rows.journal.None?))
      modifies this
      ensures Recoverable(id, sha, rows, files)
      ensures Decisions(rows) == old(Decisions(rows))
      ensures old(rows.intent.None?) ==> rows.intent.None?
      ensures p != Done
    {
      hide Recoverable, Decisions, SpaceInv;
      if UnderWay(intent) {
        var path := TemporaryPath(intent);
        TemporaryDiscarded(id, sha, rows, files, path);
        p := Change(files - {path}, path in files, false);
        if p == Crashed { return; }
      }
      p := RecoverIntent(false);
      if p == Crashed { return; }
      p := RecoverPublish(false);
      if p == Done { p := Raised; }
    }

    /** The announcement a publication of this content starts with. */
    function IntentFor(collection: Collection, artifactId: string, expectedSha256: string, size: nat,
                       temporaryToken: string, backupToken: string): PublishIntent
      requires rows.workspace.Some?
      reads this`rows
    {
      var target := TargetName(collection, artifactId);
      var slot := Path(collection, target);
      PublishIntent(id, slot, target, TemporaryName(temporaryToken), BackupName(backupToken), collection,
                    KindOf(collection), artifactId, expectedSha256, size, Lookup(rows.artifacts, slot), None,
                    rows.workspace.value.generation)
    }

    /** From a settled workspace: announces, stages and installs, and cleans up after an exception. */
    method PublishSettled(intent: PublishIntent, content: Bytes, quiet: bool) returns (p: Progress)
      requires Recoverable(id, sha, rows, files) && rows.intent.None? && rows.journal.None?
      requires Announceable(id, rows, intent)
      requires sha(content) == intent.expectedSha256 && |content| == intent.expectedSize
      modifies this
      ensures Recoverable(id, sha, rows, files)
      ensures Decisions(rows) == old(Decisions(rows)) || Publishes(old(Decisions(rows)), Decisions(rows), intent)
      ensures Decisions(rows) == old(Decisions(rows)) || rows.intent.None?
      ensures p == Done ==>
                rows.intent.None? && rows.journal.None? && Publishes(old(Decisions(rows)), Decisions(rows), intent)
      ensures Unrevokes(intent.oldClaim, intent.collection, intent.expectedSha256) ==>
                p != Done && rows == old(rows) && files == old(files)
      ensures quiet && !Unrevokes(intent.oldClaim, intent.collection, intent.expectedSha256) ==> p == Done
    {
      hide Recoverable, RowsAccept, Decide, Decisions, SpaceInv, Path, ValidIntent;
      SettledTarget(id, sha, rows, files, intent);
      if intent.oldClaim.None? && intent.slot in files { return Raised; }
      if intent.oldClaim.Some? && !Holds(sha, files, intent.slot, intent.oldClaim.value) { return Raised; }
      if Unrevokes(intent.oldClaim, intent.collection, intent.expectedSha256) {
        UnrevokingIsRefused(id, rows, intent);
        p := Record(ReservePublish(intent), quiet);
        return;
      }
      RecordIntent(id, sha, rows, files, intent);
      p := Record(ReservePublish(intent), quiet);
      if p != Done { return; }
      p := Stage(content, quiet);
      if p == Done {
        p := Install(rows.journal.value, quiet);
      }
      if p == Raised {
        p := Abandon(intent);
      }
    }

    /** Publishes one artifact: recovers what is under way, then announces, stages, installs and commits. */
    method Publish(collection: Collection, artifactId: string, content: Bytes, expectedSha256: string,
                   temporaryToken: string, backupToken: string, quiet: bool) returns (p: Progress)
      requires Recoverable(id, sha, rows, files)
      requires IsHex(temporaryToken, 32) && IsHex(backupToken, 32)
      requires forall bytes :: IsHex(sha(bytes), 64)
      modifies this
      ensures Recoverable(id, sha, rows, files)
      ensures var slot := Path(collection, TargetName(collection, artifactId));
              || Decisions(rows) == old(Decisions(rows))
              || PublishesAt(id, old(Decisions(rows)), Decisions(rows), slot, collection, artifactId, expectedSha256,
                              |content|)
      ensures Decisions(rows) == old(Decisions(rows)) || rows.intent.None?
      ensures var slot := Path(collection, TargetName(collection, artifactId));
              p == Done ==>
                && Settled(sha, rows, files)
                && PublishesAt(id, old(Decisions(rows)), rows.artifacts, slot, collection, artifactId, expectedSha256,
                                |content|)
                && slot in files && sha(files[slot].content) == sha(content)
                && (Unmistakable(sha, content) ==> files[slot].content == content)
      ensures !Identifies(artifactId) || sha(content) != expectedSha256 ==>
                p == Raised && rows == old(rows) && files == old(files)
      ensures var slot := Path(collection, TargetName(collection, artifactId));
              Unrevokes(Lookup(old(Decisions(rows)), slot), collection, expectedSha256) ==>
                p != Done && Decisions(rows) == old(Decisions(rows))
      ensures old(Stuck(rows, files)) ==> p != Done && rows == old(rows) && files == old(files)
      ensures var slot := Path(collection, TargetName(collection, artifactId));
              (&& quiet && !old(Stuck(rows, files)) && Identifies(artifactId) && sha(content) == expectedSha256
               && !Unrevokes(Lookup(old(Decisions(rows)), slot), collection, expectedSha256)) ==> p == Done
    {
      hide Recoverable, Decisions, SpaceInv, Path, Announceable, ValidIdentifier, Identifies, Settled, IsHex, Stuck;
      hide Unrevokes;
      WhatIdentifies(artifactId);
      if !ValidIdentifier(artifactId) || sha(content) != expectedSha256 { return Raised; }
      p := Recover(quiet);
      if p != Done { return; }
      NothingUnderWay();
      var intent := IntentFor(collection, artifactId, expectedSha256, |content|, temporaryToken, backupToken);
      AnnouncementFits(id, sha, rows, files, intent, collection, artifactId, temporaryToken, backupToken);
      p := PublishSettled(intent, content, quiet);
      if p == Done {
        NothingUnderWay();
        PublishedFileHolds(sha, rows, files, intent.slot);
      }
    }

    /** Replaces a snapshot by the tombstone, which no later publication replaces. */
    method RevokeSnapshot(artifactId: string, temporaryToken: string, backupToken: string, quiet: bool)
      returns (p: Progress)
      requires Recoverable(id, sha, rows, files)
      requires IsHex(temporaryToken, 32) && IsHex(backupToken, 32)
      requires (forall bytes :: IsHex(sha(bytes), 64)) && sha(TOMBSTONE) == REVOKED_SHA256
      modifies this
      ensures Recoverable(id, sha, rows, files)
      ensures var slot := Path(Snapshots, TargetName(Snapshots, artifactId));
              && (p == Done ==>
                    && Settled(sha, rows, files) && Decisions(rows) == rows.artifacts
                    && rows.intent.None? && IsRevoked(rows.artifacts, slot))
              && (Decisions(rows) == old(Decisions(rows))
                  || (slot in Decisions(rows) && IsRevoked(Decisions(rows), slot)
                      && Decisions(rows) == old(Decisions(rows))[slot := Decisions(rows)[slot]]))
      ensures forall slot :: IsRevoked(old(Decisions(rows)), slot) ==> IsRevoked(Decisions(rows), slot)
      ensures old(Stuck(rows, files)) ==> p != Done && rows == old(rows) && files == old(files)
      ensures !Identifies(artifactId) ==> p == Raised && rows == old(rows) && files == old(files)
      ensures quiet && !old(Stuck(rows, files)) && Identifies(artifactId) ==> p == Done
    {
      hide Recoverable, Decisions, SpaceInv, Path, ValidIdentifier, Identifies, Settled, IsHex, Stuck;
      WhatIdentifies(artifactId);
      if !ValidIdentifier(artifactId) { return Raised; }
      p := Publish(Snapshots, artifactId, TOMBSTONE, REVOKED_SHA256, temporaryToken, backupToken, quiet);
      if p == Done {
        SettledIsQuiet();
        NothingUnderWay();
      }
    }

    lemma SettledIsQuiet()
      requires Settled(sha, rows, files)
      ensures rows.intent.None? && rows.journal.None?
    {}

    /**
     Any number of recoveries, each cut short anywhere, and then one that is left alone: the directory ends
     up holding exactly the decided files, unless the cut fell into the one window recovery refuses.
     */
    method RecoverAfterCrashes(crashes: nat) returns (p: Progress)
      requires Recoverable(id, sha, rows, files)
      modifies this
      ensures Recoverable(id, sha, rows, files)
      ensures p == Done <==> !old(Stuck(rows, files))
      ensures p == Done ==> Settled(sha, rows, files) && rows.artifacts == old(Decisions(rows))
      ensures p != Done ==> rows == old(rows) && files == old(files)
    {
      hide Recoverable, Decisions, Settled, Stuck;
      for i := 0 to crashes
        invariant Recoverable(id, sha, rows, files) && Decisions(rows) == old(Decisions(rows))
        invariant Stuck(rows, files) == old(Stuck(rows, files))
        invariant old(Stuck(rows, files)) ==> rows == old(rows) && files == old(files)
      {
        p := Recover(false);
      }
      p := Recover(true);
    }
  }

  /** The two bytes `{}`. */
  const TOMBSTONE: Bytes := [123, 125]

  /** The decided state with one artifact published in its slot and every other slot untouched. */
  ghost predicate PublishesAt(id: string, before: map<string, ArtifactClaim>, after: map<string, ArtifactClaim>,
                              slot: string, collection: Collection, artifactId: string, sha256: string, size: nat)
  {
    && slot in after && after == before[slot := after[slot]]
    && after[slot] == ArtifactClaim(id, slot, collection, KindOf(collection), artifactId, after[slot].identity,
                                    sha256, size, after[slot].generation)
  }

  /** The decided state with the announced artifact published. */
  ghost predicate Publishes(before: map<string, ArtifactClaim>, after: map<string, ArtifactClaim>, i: PublishIntent) {
    i.kind == KindOf(i.collection)
    && PublishesAt(i.workspaceId, before, after, i.slot, i.collection, i.artifactId, i.expectedSha256, i.expectedSize)
  }

  /** No character a name may not have. */
  predicate NameText(text: string) {
    '/' !in text && '\\' !in text && ':' !in text && '\0' !in text
  }

  lemma NameTextJoins(a: string, b: string)
    requires NameText(a) && NameText(b)
    ensures NameText(a + b)
  {}

  /** What may name an artifact: 16 to 128 letters, digits, underscores and hyphens. */
  ghost predicate Identifies(text: string) {
    && 16 <= |text| <= 128
    && forall c | c in text ::
         || '0' <= c <= '9' || c == '_' || c == '-'
         || 'A' <= c <= 'Z' || 'a' <= c <= 'z'
  }

  lemma WhatIdentifies(text: string)
    ensures ValidIdentifier(text) <==> Identifies(text)
  {
    assert forall i | 0 <= i < |text| :: text[i] in text;
  }

  lemma IdentifierIsPlain(artifactId: string, collection: Collection)
    requires ValidIdentifier(artifactId)
    ensures var target := TargetName(collection, artifactId);
            && ValidName(target) && PlainName(target)
            && Some(artifactId) == ArtifactIdFor(collection, target)
  {
    var target := TargetName(collection, artifactId);
    assert NameText(artifactId);
    NameTextJoins(artifactId, ".json");
    if collection != Parts {
      assert target[..|artifactId|] == artifactId && target[|artifactId|..] == ".json";
    }
  }

  lemma HiddenName(token: string, suffix: string)
    requires IsHex(token, 32) && NameText(suffix)
    ensures var name := ".artifact-" + token + suffix;
            ValidName(name) && !PlainName(name) && |name| == 42 + |suffix|
  {
    assert NameText(token) && NameText(".artifact-");
    NameTextJoins(".artifact-", token);
    NameTextJoins(".artifact-" + token, suffix);
  }

  lemma TokenNamesAreHidden(temporaryToken: string, backupToken: string, target: string)
    requires IsHex(temporaryToken, 32) && IsHex(backupToken, 32) && PlainName(target)
    ensures ValidName(TemporaryName(temporaryToken)) && !PlainName(TemporaryName(temporaryToken))
    ensures ValidName(BackupName(backupToken)) && !PlainName(BackupName(backupToken))
    ensures ThreeNames(target, TemporaryName(temporaryToken), BackupName(backupToken))
  {
    hide IsHex, ValidName, NameText;
    assert NameText(".tmp") && NameText(".backup") by { SuffixText(); }
    HiddenName(temporaryToken, ".tmp");
    HiddenName(backupToken, ".backup");
  }

  lemma SuffixText()
    ensures NameText(".tmp") && NameText(".backup")
  {}

  lemma HiddenPathsAreUnclaimed(s: Space, collection: Collection, name: string)
    requires PlainSlots(s) && !PlainName(name)
    ensures Path(collection, name) !in s.artifacts
  {
    AfterSlashOfPath(collection, name);
  }

  lemma PublishedFileHolds(sha: Digest, s: Space, files: Files, slot: string)
    requires Settled(sha, s, files) && slot in s.artifacts
    ensures Holds(sha, files, slot, s.artifacts[slot])
  {}

  ghost predicate Announceable(id: string, s: Space, i: PublishIntent) {
    && i.workspaceId == id && IntentRouted(i) && ValidIntent(i) && i.temporaryIdentity.None?
    && s.workspace.Some? && i.generation == s.workspace.value.generation
    && i.oldClaim == Lookup(s.artifacts, i.slot) && PlainName(AfterSlash(i.slot))
    && TemporaryPath(i) !in s.artifacts && BackupPath(i) !in s.artifacts
  }

  lemma AnnouncementFits(id: string, sha: Digest, s: Space, files: Files, i: PublishIntent, collection: Collection,
                         artifactId: string, temporaryToken: string, backupToken: string)
    requires Recoverable(id, sha, s, files) && s.intent.None? && s.journal.None?
    requires ValidIdentifier(artifactId) && IsHex(temporaryToken, 32) && IsHex(backupToken, 32)
    requires i.workspaceId == id && i.targetName == TargetName(collection, artifactId)
    requires i.slot == Path(collection, i.targetName) && i.collection == collection && i.kind == KindOf(collection)
    requires i.artifactId == artifactId && i.temporaryIdentity.None? && IsHex(i.expectedSha256, 64)
    requires i.temporaryName == TemporaryName(temporaryToken) && i.backupName == BackupName(backupToken)
    requires i.oldClaim == Lookup(s.artifacts, i.slot) && i.generation == s.workspace.value.generation
    ensures Announceable(id, s, i)
  {
    hide ValidIdentifier, IsHex, TargetName, TemporaryName, BackupName, ValidName, PlainName, ThreeNames, ArtifactIdFor;
    IdentifierIsPlain(artifactId, collection);
    TokenNamesAreHidden(temporaryToken, backupToken, i.targetName);
    HiddenPathsAreUnclaimed(s, collection, i.temporaryName);
    HiddenPathsAreUnclaimed(s, collection, i.backupName);
    AfterSlashOfPath(collection, i.targetName);
    if i.oldClaim.Some? {
      assert ArtifactValid(id, s, i.slot, i.oldClaim.value);
    }
  }

  /** The registry never lets a revoked snapshot be published over. */
  lemma UnrevokingIsRefused(id: string, s: Space, i: PublishIntent)
    requires Announceable(id, s, i) && Unrevokes(i.oldClaim, i.collection, i.expectedSha256)
    ensures !RowsAccept(id, s, ReservePublish(i))
  {}

  lemma SettledTarget(id: string, sha: Digest, s: Space, files: Files, i: PublishIntent)
    requires Recoverable(id, sha, s, files) && s.intent.None? && s.journal.None?
    requires i.oldClaim == Lookup(s.artifacts, i.slot)
    ensures HoldsIf(sha, files, i.slot, i.oldClaim)
  {}

  /** The journal is the one the intent announced. */
  predicate Announced(journal: PublishJournal, intent: PublishIntent) {
    && journal.slot == intent.slot
    && journal.newClaim == JournalFor(intent, journal.newClaim.identity).newClaim
    && MoveOf(journal).temporary == TemporaryPath(intent)
  }

  /** The file an announced publication is to replace is a live one. */
  lemma TargetIsLive(id: string, sha: Digest, s: Space, files: Files)
    requires Recoverable(id, sha, s, files) && s.intent.Some?
    ensures var i := s.intent.value;
            i.oldClaim.Some? ==> i.slot in files && files[i.slot].identity == i.oldClaim.value.identity
  {
    IntentFacts(id, s);
    JournalPathsDiffer(s.intent.value);
  }

  lemma RollbackClassified(sha: Digest, files: Files, m: Move)
    requires BeforeMove(sha, files, m) || MovedAside(sha, files, m) || MovedIn(sha, files, m)
    requires m.prior.Some? ==> m.prior.value.identity != m.newer.identity
    ensures Classify(sha, files, m.temporary, [m.newer]) == (if m.temporary in files then Match(m.newer) else Absent)
    ensures MovedIn(sha, files, m) ==> Classify(sha, files, m.target, Listed(m.prior) + [m.newer]) == Match(m.newer)
    ensures !MovedIn(sha, files, m) && m.target in files ==>
              m.prior.Some? && Classify(sha, files, m.target, Listed(m.prior) + [m.newer]) == Match(m.prior.value)
    ensures m.backup in files ==>
              m.prior.Some? && Classify(sha, files, m.backup, Listed(m.prior)) == Match(m.prior.value)
  {}
}
