/**
 What the evidence directory may look like while a publication is announced, journalled, rolled back or
 rolled forward, and what follows from each such layout.
 */
module ArtifactLayout {
  import opened Outcomes
  import opened Registry
  import opened RegistryInvariant

  /** SHA-256 as lower-case hexadecimal text. */
  type Digest = Bytes -> string

  datatype File = File(identity: Identity, content: Bytes)

  /** The files below one workspace's evidence directory, by path. */
  type Files = map<string, File>

  // ---------------------------------------------------------------- the registry seen from one workspace

  predicate RowsAccept(id: string, s: Space, op: Operation) {
    Decide(s, op).Changed? && SpaceValid(id, Decide(s, op).next)
  }

  /** The registry accepts a call exactly when the workspace's own rows do, and changes nothing else. */
  lemma RegistryActsOnRows(s: State, op: Operation)
    requires Inv(s)
    ensures var id := WorkspaceOf(op);
            && (Accepts(s, op) <==> RowsAccept(id, SpaceOf(s, id), op))
            && (Accepts(s, op) ==> SpaceOf(Mutate(s, op), id) == Decide(SpaceOf(s, id), op).next)
            && (forall other | other != id :: SpaceOf(Mutate(s, op), other) == SpaceOf(s, other))
  {
    hide SpaceValid, SpaceInv, Decide, WorkspaceOf;
    var id := WorkspaceOf(op);
    if Decide(SpaceOf(s, id), op).Changed? {
      ReplacingOneSpace(s, id, Decide(SpaceOf(s, id), op).next);
    }
  }

  // ---------------------------------------------------------------- layouts

  /** The path holds exactly the claimed file. */
  predicate Holds(sha: Digest, files: Files, path: string, claim: ArtifactClaim) {
    && path in files
    && files[path].identity == claim.identity
    && sha(files[path].content) == claim.sha256
    && |files[path].content| == claim.size
  }

  predicate HoldsIf(sha: Digest, files: Files, path: string, claim: Option<ArtifactClaim>) {
    if claim.Some? then Holds(sha, files, path, claim.value) else path !in files
  }

  /** Away from the busy paths, the files are exactly the claimed ones. */
  ghost predicate OthersHold(sha: Digest, s: Space, files: Files, busy: set<string>) {
    && (forall path | path in files :: path in busy || path in s.artifacts)
    && (forall path | path in s.artifacts :: path in busy || Holds(sha, files, path, s.artifacts[path]))
  }

  function TemporaryPath(intent: PublishIntent): string {
    Path(intent.collection, intent.temporaryName)
  }

  function BackupPath(intent: PublishIntent): string {
    Path(intent.collection, intent.backupName)
  }

  /** An announced publication: nothing but its temporary file, which may be on its way out, has appeared. */
  ghost predicate IntentLayout(sha: Digest, s: Space, files: Files, intent: PublishIntent) {
    var temporary, backup := TemporaryPath(intent), BackupPath(intent);
    && OthersHold(sha, s, files, {temporary, backup})
    && temporary !in s.artifacts && backup !in s.artifacts
    && if intent.temporaryIdentity.None? then backup !in files
       else
         && (temporary in files ==> files[temporary].identity == intent.temporaryIdentity.value && backup !in files)
         && (backup in files ==> files[backup].identity == intent.temporaryIdentity.value)
  }

  /** The names one publication uses and the two files it is about. */
  datatype Move = Move(target: string, temporary: string, backup: string,
                       prior: Option<ArtifactClaim>, newer: ArtifactClaim)

  ghost predicate TemporaryFits(sha: Digest, files: Files, m: Move) {
    m.temporary !in files || Holds(sha, files, m.temporary, m.newer)
  }

  /** The old file, if there is one, is still at the target. */
  ghost predicate BeforeMove(sha: Digest, files: Files, m: Move) {
    HoldsIf(sha, files, m.target, m.prior) && m.backup !in files && TemporaryFits(sha, files, m)
  }

  /** The old file is at the backup and the target is free. */
  ghost predicate MovedAside(sha: Digest, files: Files, m: Move) {
    m.prior.Some? && m.target !in files && Holds(sha, files, m.backup, m.prior.value) && TemporaryFits(sha, files, m)
  }

  /** The new file is at the target and the old one, if there is one, at the backup. */
  ghost predicate MovedIn(sha: Digest, files: Files, m: Move) {
    Holds(sha, files, m.target, m.newer) && m.temporary !in files && HoldsIf(sha, files, m.backup, m.prior)
  }

  /** The new file is at the target and nothing else is left. */
  ghost predicate CleanedUp(sha: Digest, files: Files, m: Move) {
    Holds(sha, files, m.target, m.newer) && m.temporary !in files && m.backup !in files
  }

  ghost predicate PhaseLayout(sha: Digest, files: Files, m: Move, phase: PublishPhase) {
    match phase
    case Prepared | Backup => BeforeMove(sha, files, m) || MovedAside(sha, files, m) || MovedIn(sha, files, m)
    case Installed => MovedIn(sha, files, m)
    case Committed => MovedIn(sha, files, m) || CleanedUp(sha, files, m)
  }

  predicate Forward(phase: PublishPhase) {
    phase == Installed || phase == Committed
  }

  function MoveOf(journal: PublishJournal): Move {
    var collection := journal.newClaim.collection;
    Move(journal.slot, Path(collection, journal.temporaryName), Path(collection, journal.backupName),
         journal.oldClaim, journal.newClaim)
  }

  predicate MoveFits(s: Space, m: Move) {
    && m.temporary !in s.artifacts && m.backup !in s.artifacts
    && m.target != m.temporary && m.target != m.backup && m.temporary != m.backup
    && (m.prior.Some? ==> m.prior.value.identity != m.newer.identity)
  }

  ghost predicate JournalLayout(sha: Digest, s: Space, files: Files, journal: PublishJournal) {
    var m := MoveOf(journal);
    && OthersHold(sha, s, files, {m.target, m.temporary, m.backup})
    && MoveFits(s, m)
    && PhaseLayout(sha, files, m, journal.phase)
  }

  /** Claimed targets are identifiers, so they never look like the hidden temporary and backup names. */
  ghost predicate PlainSlots(s: Space) {
    forall slot | slot in s.artifacts :: PlainName(AfterSlash(slot))
  }

  predicate PlainName(name: string) {
    name != "" && name[0] != '.'
  }

  ghost predicate LayoutMatches(sha: Digest, s: Space, files: Files) {
    if s.journal.Some? then JournalLayout(sha, s, files, s.journal.value)
    else if s.intent.Some? then IntentLayout(sha, s, files, s.intent.value)
    else OthersHold(sha, s, files, {})
  }

  /** Every durable state of an active workspace that a publication can be cut short in. */
  ghost predicate Recoverable(id: string, sha: Digest, s: Space, files: Files) {
    && SpaceInv(id, s) && s.workspace.Some? && s.workspace.value.phase == Active
    && PlainSlots(s) && (s.journal.Some? ==> PlainName(AfterSlash(s.journal.value.slot)))
    && (s.intent.Some? ==> PlainName(AfterSlash(s.intent.value.slot)))
    && LayoutMatches(sha, s, files)
  }

  /** Nothing is under way: the files are exactly the claimed ones, every name and every byte accounted for. */
  ghost predicate Settled(sha: Digest, s: Space, files: Files) {
    && s.intent.None? && s.journal.None?
    && files.Keys == s.artifacts.Keys
    && forall path | path in files :: Holds(sha, files, path, s.artifacts[path])
  }

  /** The one window recovery refuses: the temporary file exists but its identity was never recorded. */
  predicate Stuck(s: Space, files: Files) {
    && s.intent.Some? && s.intent.value.temporaryIdentity.None?
    && TemporaryPath(s.intent.value) in files
  }

  /** What the registry has decided each slot is to hold: the new claim from the record `installed` on. */
  function Decisions(s: Space): map<string, ArtifactClaim> {
    if s.journal.Some? && Forward(s.journal.value.phase)
    then s.artifacts[s.journal.value.slot := s.journal.value.newClaim]
    else s.artifacts
  }

  // ---------------------------------------------------------------- consequences

  /** A workspace that has just been finalized, with its empty directory, is where every history begins. */
  lemma NewWorkspaceIsRecoverable(id: string, sha: Digest, g: string, workspace: Identity, evidence: Identity,
                                  identities: map<Collection, Identity>)
    requires ValidName(id) && ValidGeneration(g) && identities.Keys == ALL_COLLECTIONS
    ensures var s := Space(Some(WorkspaceClaim(id, Active, g, Some(workspace), Some(evidence))), Some(identities),
                           map[], None, None, map[]);
            Recoverable(id, sha, s, map[]) && Settled(sha, s, map[]) && !Stuck(s, map[])
  {
    hide ValidName, ValidGeneration;
  }

  lemma QuietLayoutIsSettled(id: string, sha: Digest, s: Space, files: Files)
    requires Recoverable(id, sha, s, files) && s.intent.None? && s.journal.None?
    ensures Settled(sha, s, files) && Decisions(s) == s.artifacts
  {}

  /** No other content has the digest of this one. */
  ghost predicate Unmistakable(sha: Digest, content: Bytes) {
    forall other :: sha(other) == sha(content) ==> other == content
  }

  /** A claim pins down its file to the last byte. */
  lemma ClaimFixesFile(sha: Digest, files: Files, path: string, others: Files, elsewhere: string, claim: ArtifactClaim)
    requires Holds(sha, files, path, claim) && Holds(sha, others, elsewhere, claim)
    requires Unmistakable(sha, files[path].content)
    ensures files[path] == others[elsewhere]
  {}

  /** Until `installed` is durable the old file survives whole, at the target or at the backup. */
  lemma OldFileSurvives(id: string, sha: Digest, s: Space, files: Files)
    requires Recoverable(id, sha, s, files) && s.journal.Some? && !Forward(s.journal.value.phase)
    requires s.journal.value.oldClaim.Some?
    ensures var journal := s.journal.value;
            || Holds(sha, files, journal.slot, journal.oldClaim.value)
            || Holds(sha, files, MoveOf(journal).backup, journal.oldClaim.value)
  {}

  /** Whatever was cut short, every file of the decided state is still in the directory. */
  lemma DecidedFilesExist(id: string, sha: Digest, s: Space, files: Files, slot: string)
    requires Recoverable(id, sha, s, files) && slot in Decisions(s)
    ensures exists path | path in files :: Holds(sha, files, path, Decisions(s)[slot])
  {
    hide SpaceInv, PlainSlots, Holds, Path, MoveFits;
    if s.journal.Some? && s.journal.value.slot == slot {
      JournalFileExists(id, sha, s, files);
    } else {
      OtherFileHolds(id, sha, s, files, slot);
    }
  }

  lemma OtherFileHolds(id: string, sha: Digest, s: Space, files: Files, slot: string)
    requires Recoverable(id, sha, s, files) && slot in s.artifacts && (s.journal.Some? ==> s.journal.value.slot != slot)
    ensures slot in Decisions(s) && slot in files && Holds(sha, files, slot, Decisions(s)[slot])
  {
    hide SpaceInv, PlainSlots;
  }

  lemma JournalFileExists(id: string, sha: Digest, s: Space, files: Files)
    requires Recoverable(id, sha, s, files) && s.journal.Some? && s.journal.value.slot in Decisions(s)
    ensures exists path | path in files :: Holds(sha, files, path, Decisions(s)[s.journal.value.slot])
  {
    var journal := s.journal.value;
    if Forward(journal.phase) {
      assert Holds(sha, files, journal.slot, Decisions(s)[journal.slot]);
    } else {
      UndecidedClaim(id, s);
      OldFileSurvives(id, sha, s, files);
    }
  }

  lemma UndecidedClaim(id: string, s: Space)
    requires SpaceInv(id, s) && s.journal.Some? && !Forward(s.journal.value.phase)
    ensures Lookup(s.artifacts, s.journal.value.slot) == s.journal.value.oldClaim
  {}
}
