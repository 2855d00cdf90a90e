/**
 The evidence artifact registry: the state it records, the mutators that change it, and the
 check every changed state must pass before it is appended to the log.
 */
module Registry {
  import opened Outcomes

  datatype Collection = Parts | Units | Snapshots
  datatype Kind = Part | Unit | Snapshot
  datatype Identity = Identity(device: nat, inode: nat)

  datatype WorkspacePhase = Reserved | Active | Deleting
  datatype PublishPhase = Prepared | Backup | Installed | Committed
  datatype DeletePhase = Planned | Quarantined | Removed

  datatype WorkspaceClaim = WorkspaceClaim(
    workspaceId: string,
    phase: WorkspacePhase,
    generation: string,
    workspaceIdentity: Option<Identity>,
    evidenceIdentity: Option<Identity>)

  datatype ArtifactClaim = ArtifactClaim(
    workspaceId: string,
    slot: string,
    collection: Collection,
    kind: Kind,
    artifactId: string,
    identity: Identity,
    sha256: string,
    size: nat,
    generation: string)

  datatype PublishIntent = PublishIntent(
    workspaceId: string,
    slot: string,
    targetName: string,
    temporaryName: string,
    backupName: string,
    collection: Collection,
    kind: Kind,
    artifactId: string,
    expectedSha256: string,
    expectedSize: nat,
    oldClaim: Option<ArtifactClaim>,
    temporaryIdentity: Option<Identity>,
    generation: string)

  datatype PublishJournal = PublishJournal(
    workspaceId: string,
    slot: string,
    phase: PublishPhase,
    targetName: string,
    temporaryName: string,
    backupName: string,
    newClaim: ArtifactClaim,
    oldClaim: Option<ArtifactClaim>,
    generation: string)

  datatype DeleteItem = DeleteItem(
    workspaceId: string,
    slot: string,
    phase: DeletePhase,
    quarantineName: Option<string>,
    claim: ArtifactClaim,
    generation: string)

  /** Everything the registry records about one workspace: its row in each of the six tables. */
  datatype Space = Space(
    workspace: Option<WorkspaceClaim>,
    collections: Option<map<Collection, Identity>>,
    artifacts: map<string, ArtifactClaim>,
    intent: Option<PublishIntent>,
    journal: Option<PublishJournal>,
    deleteItems: map<string, DeleteItem>)

  const EMPTY := Space(None, None, map[], None, None, map[])

  /** The registry, table rows grouped by workspace; a workspace with no row is not a key. */
  type State = map<string, Space>

  function SpaceOf(s: State, id: string): Space {
    if id in s then s[id] else EMPTY
  }

  function WithSpace(s: State, id: string, space: Space): State {
    if space == EMPTY then s - {id} else s[id := space]
  }

  /** SHA-256 of the two bytes `{}`: what a revoked snapshot slot holds. */
  const REVOKED_SHA256 := "44136fa355b3678a1146ad16f7e8649e94fb4fc21fe77e8310c060f61caaff8a"

  const ALL_COLLECTIONS := {Parts, Units, Snapshots}

  // ---------------------------------------------------------------- names and routes

  predicate IsHex(text: string, length: nat) {
    && |text| == length
    && forall i | 0 <= i < length :: '0' <= text[i] <= '9' || 'a' <= text[i] <= 'f'
  }

  predicate ValidGeneration(generation: string) {
    IsHex(generation, 32)
  }

  predicate ValidName(name: string) {
    && name != "" && name != "." && name != ".."
    && '/' !in name && '\\' !in name && ':' !in name && '\0' !in name
  }

  function DirectoryOf(collection: Collection): string {
    match collection
    case Parts => "parts"
    case Units => "units"
    case Snapshots => "snapshots"
  }

  function KindOf(collection: Collection): Kind {
    match collection
    case Parts => Part
    case Units => Unit
    case Snapshots => Snapshot
  }

  /** A file's path below the evidence directory; a slot is the path of its target. */
  function Path(collection: Collection, name: string): string {
    DirectoryOf(collection) + "/" + name
  }

  function AfterSlash(slot: string): string {
    if slot == "" then "" else if slot[0] == '/' then slot[1..] else AfterSlash(slot[1..])
  }

  predicate EndsWithJson(name: string) {
    |name| >= 5 && name[|name| - 5..] == ".json"
  }

  function ArtifactIdFor(collection: Collection, targetName: string): Option<string> {
    if collection == Parts then Some(targetName)
    else if EndsWithJson(targetName) then Some(targetName[..|targetName| - 5])
    else None
  }

  lemma AfterSlashSkips(prefix: string, name: string)
    requires '/' !in prefix
    ensures AfterSlash(prefix + "/" + name) == name
  {
    var whole := prefix + "/" + name;
    if prefix == "" {
      assert whole[1..] == name;
    } else {
      assert whole[0] == prefix[0];
      assert whole[1..] == prefix[1..] + "/" + name;
      AfterSlashSkips(prefix[1..], name);
    }
  }

  lemma AfterSlashOfPath(collection: Collection, name: string)
    ensures AfterSlash(Path(collection, name)) == name
  {
    AfterSlashSkips(DirectoryOf(collection), name);
  }

  /** Two files share a path only if they share the directory and the name. */
  lemma PathInjective(c: Collection, n: string, d: Collection, m: string)
    requires Path(c, n) == Path(d, m)
    ensures c == d && n == m
  {
    AfterSlashOfPath(c, n);
    AfterSlashOfPath(d, m);
    assert Path(c, n)[0] == DirectoryOf(c)[0];
    assert Path(d, m)[0] == DirectoryOf(d)[0];
  }

  // ---------------------------------------------------------------- argument checks

  predicate ValidClaim(claim: ArtifactClaim) {
    && claim.slot == Path(claim.collection, AfterSlash(claim.slot))
    && ValidName(AfterSlash(claim.slot))
    && IsHex(claim.sha256, 64)
    && ValidGeneration(claim.generation)
  }

  predicate ClaimRouteValid(claim: ArtifactClaim) {
    && claim.slot == Path(claim.collection, AfterSlash(claim.slot))
    && claim.kind == KindOf(claim.collection)
    && Some(claim.artifactId) == ArtifactIdFor(claim.collection, AfterSlash(claim.slot))
  }

  predicate OldClaimFits(prior: Option<ArtifactClaim>, workspaceId: string, slot: string, generation: string) {
    prior.Some? ==>
      && prior.value.workspaceId == workspaceId
      && prior.value.slot == slot
      && prior.value.generation == generation
  }

  predicate ValidIntent(intent: PublishIntent) {
    && IsHex(intent.expectedSha256, 64)
    && ValidGeneration(intent.generation)
    && intent.slot == Path(intent.collection, intent.targetName)
    && ValidName(intent.targetName) && ValidName(intent.temporaryName) && ValidName(intent.backupName)
    && OldClaimFits(intent.oldClaim, intent.workspaceId, intent.slot, intent.generation)
  }

  /** The shape check of a journal, apart from its phase. */
  predicate ValidJournal(journal: PublishJournal) {
    && journal.workspaceId == journal.newClaim.workspaceId
    && journal.slot == journal.newClaim.slot
    && journal.generation == journal.newClaim.generation
    && ValidGeneration(journal.generation)
    && journal.slot == Path(journal.newClaim.collection, journal.targetName)
    && OldClaimFits(journal.oldClaim, journal.workspaceId, journal.slot, journal.generation)
    && ValidClaim(journal.newClaim)
    && (journal.oldClaim.Some? ==> ValidClaim(journal.oldClaim.value))
  }

  /** The intent a journal must have been announced by. */
  function IntentForJournal(journal: PublishJournal): PublishIntent {
    var claim := journal.newClaim;
    PublishIntent(journal.workspaceId, journal.slot, journal.targetName, journal.temporaryName,
                  journal.backupName, claim.collection, claim.kind, claim.artifactId, claim.sha256,
                  claim.size, journal.oldClaim, Some(claim.identity), journal.generation)
  }

  predicate ThreeNames(target: string, temporary: string, backup: string) {
    target != temporary && target != backup && temporary != backup
  }

  // ---------------------------------------------------------------- the state check

  predicate HasPublish(s: Space) {
    s.intent.Some? || s.journal.Some?
  }

  predicate WorkspaceValid(id: string, s: Space) {
    s.workspace.Some? ==>
      var claim := s.workspace.value;
      && claim.workspaceId == id && ValidName(id) && ValidGeneration(claim.generation)
      && if claim.phase == Reserved then
           && claim.workspaceIdentity.None? && claim.evidenceIdentity.None?
           && s.collections.None? && !HasPublish(s)
           && s.artifacts == map[] && s.deleteItems == map[]
         else
           && claim.workspaceIdentity.Some? && claim.evidenceIdentity.Some?
           && s.collections.Some? && s.collections.value.Keys == ALL_COLLECTIONS
           && (claim.phase == Active ==> s.deleteItems == map[])
           && (claim.phase == Deleting ==> !HasPublish(s) && s.deleteItems.Keys == s.artifacts.Keys)
  }

  predicate CollectionsValid(s: Space) {
    s.collections.Some? ==>
      && s.workspace.Some? && s.workspace.value.phase != Reserved
      && s.collections.value.Keys == ALL_COLLECTIONS
  }

  predicate ArtifactValid(id: string, s: Space, slot: string, claim: ArtifactClaim) {
    && claim.workspaceId == id && claim.slot == slot
    && s.workspace.Some? && s.workspace.value.phase != Reserved
    && claim.generation == s.workspace.value.generation
    && ClaimRouteValid(claim) && ValidClaim(claim)
    && s.collections.Some? && claim.collection in s.collections.value
  }

  predicate IntentValid(id: string, s: Space) {
    s.intent.Some? ==>
      var intent := s.intent.value;
      && id == intent.workspaceId && s.journal.None?
      && s.workspace.Some? && s.workspace.value.phase == Active
      && intent.generation == s.workspace.value.generation
      && Lookup(s.artifacts, intent.slot) == intent.oldClaim
      && IntentRouted(intent)
      && ValidIntent(intent)
  }

  /** The kind, artifact id and names the state check wants of an intent. */
  predicate IntentRouted(intent: PublishIntent) {
    && intent.kind == KindOf(intent.collection)
    && Some(intent.artifactId) == ArtifactIdFor(intent.collection, intent.targetName)
    && ThreeNames(intent.targetName, intent.temporaryName, intent.backupName)
  }

  predicate JournalValid(id: string, s: Space) {
    s.journal.Some? ==>
      var journal := s.journal.value;
      && id == journal.workspaceId
      && s.workspace.Some? && s.workspace.value.phase == Active
      && journal.generation == s.workspace.value.generation
      && Lookup(s.artifacts, journal.slot)
         == (if journal.phase == Committed then Some(journal.newClaim) else journal.oldClaim)
      && ThreeNames(journal.targetName, journal.temporaryName, journal.backupName)
      && ValidJournal(journal)
  }

  predicate DeleteItemValid(id: string, s: Space, slot: string, item: DeleteItem) {
    && item.workspaceId == id && item.slot == slot
    && s.workspace.Some? && s.workspace.value.phase == Deleting
    && item.generation == s.workspace.value.generation
    && item.claim.generation == item.generation
    && Lookup(s.artifacts, slot) == Some(item.claim)
    && (item.phase != Planned ==> item.quarantineName.Some?)
    && (item.quarantineName.Some? ==> ValidName(item.quarantineName.value))
    && ValidClaim(item.claim)
  }

  predicate ArtifactsValid(id: string, s: Space) {
    forall slot | slot in s.artifacts :: ArtifactValid(id, s, slot, s.artifacts[slot])
  }

  predicate DeleteItemsValid(id: string, s: Space) {
    forall slot | slot in s.deleteItems :: DeleteItemValid(id, s, slot, s.deleteItems[slot])
  }

  predicate SpaceValid(id: string, s: Space) {
    && WorkspaceValid(id, s) && CollectionsValid(s) && ArtifactsValid(id, s)
    && IntentValid(id, s) && JournalValid(id, s) && DeleteItemsValid(id, s)
  }

  /** The check made on every state read from, or about to be added to, the log. */
  predicate ValidState(s: State) {
    forall id | id in s :: SpaceValid(id, s[id])
  }

  // ---------------------------------------------------------------- the mutators

  datatype Code = ClaimInvalid | StateConflict | SlotRevoked | Pending

  datatype Verdict = Refused(code: Code) | Unchanged | Changed(next: Space)

  datatype Operation =
    | ReserveWorkspace(id: string, generation: string)
    | RetireReserved(id: string, generation: string)
    | FinalizeWorkspace(id: string, generation: string, workspaceIdentity: Identity,
                        evidenceIdentity: Identity, identities: map<Collection, Identity>)
    | ReservePublish(intent: PublishIntent)
    | ClaimTemporary(id: string, identity: Identity, generation: string, temporaryName: string)
    | ClearIntent(id: string, generation: string, temporaryName: string)
    | PreparePublish(journal: PublishJournal)
    | AdvancePublish(id: string, generation: string, temporaryName: string, from: PublishPhase, to: PublishPhase)
    | CommitPublish(id: string, claim: ArtifactClaim, generation: string, temporaryName: string)
    | ClearPublish(id: string, generation: string, temporaryName: string)
    | AbortPublish(id: string, generation: string, temporaryName: string, phases: set<PublishPhase>)
    | BeginDelete(id: string, generation: string)
    | PlanQuarantine(id: string, slot: string, quarantineName: string, generation: string)
    | AdvanceDelete(id: string, slot: string, generation: string, fromItem: DeletePhase, toItem: DeletePhase,
                    quarantineName: string)
    | ClearDeleted(id: string, generation: string)

  /** The workspace an operation is about. */
  function WorkspaceOf(op: Operation): string {
    match op
    case ReservePublish(intent) => intent.workspaceId
    case PreparePublish(journal) => journal.workspaceId
    case _ => op.id
  }

  function OnReserveWorkspace(s: Space, id: string, generation: string): Verdict {
    if !ValidGeneration(generation) then Refused(ClaimInvalid)
    else if s.workspace.Some? then Unchanged
    else Changed(s.(workspace := Some(WorkspaceClaim(id, Reserved, generation, None, None))))
  }

  function OnRetireReserved(s: Space, generation: string): Verdict {
    if !ValidGeneration(generation) then Refused(ClaimInvalid)
    else if s.workspace.None? then Unchanged
    else if s.workspace.value.generation != generation then Refused(StateConflict)
    else if
      || s.workspace.value.phase != Reserved || s.collections.Some? || HasPublish(s)
      || s.artifacts != map[] || s.deleteItems != map[]
    then Refused(StateConflict)
    else Changed(s.(workspace := None))
  }

  function OnFinalizeWorkspace(s: Space, id: string, generation: string, workspace: Identity,
                               evidence: Identity, identities: map<Collection, Identity>): Verdict
  {
    if !ValidGeneration(generation) || identities.Keys != ALL_COLLECTIONS then Refused(ClaimInvalid)
    else if s.workspace.None? || s.workspace.value.phase != Reserved || s.workspace.value.generation != generation
    then Refused(StateConflict)
    else
      var claim := WorkspaceClaim(id, Active, generation, Some(workspace), Some(evidence));
      Changed(s.(workspace := Some(claim), collections := Some(identities)))
  }

  /** A revoked snapshot slot accepts nothing but the tombstone again. */
  predicate Unrevokes(current: Option<ArtifactClaim>, collection: Collection, newSha256: string) {
    current.Some? && collection == Snapshots && current.value.sha256 == REVOKED_SHA256 && newSha256 != REVOKED_SHA256
  }

  function OnReservePublish(s: Space, intent: PublishIntent): Verdict {
    var current := Lookup(s.artifacts, intent.slot);
    if !ValidIntent(intent) then Refused(ClaimInvalid)
    else if s.workspace.None? || s.workspace.value.phase != Active || intent.generation != s.workspace.value.generation
    then Refused(StateConflict)
    else if Unrevokes(current, intent.collection, intent.expectedSha256) then Refused(SlotRevoked)
    else if current != intent.oldClaim || HasPublish(s) then Refused(StateConflict)
    else Changed(s.(intent := Some(intent)))
  }

  predicate ValidToken(generation: string, temporaryName: string) {
    ValidGeneration(generation) && ValidName(temporaryName)
  }

  predicate IntentMatches(s: Space, generation: string, temporaryName: string) {
    s.intent.Some? && s.intent.value.generation == generation && s.intent.value.temporaryName == temporaryName
  }

  predicate JournalMatches(s: Space, generation: string, temporaryName: string) {
    s.journal.Some? && s.journal.value.generation == generation && s.journal.value.temporaryName == temporaryName
  }

  function OnClaimTemporary(s: Space, identity: Identity, generation: string, temporaryName: string): Verdict {
    if !ValidToken(generation, temporaryName) then Refused(ClaimInvalid)
    else if !IntentMatches(s, generation, temporaryName) || s.intent.value.temporaryIdentity.Some?
    then Refused(StateConflict)
    else Changed(s.(intent := Some(s.intent.value.(temporaryIdentity := Some(identity)))))
  }

  function OnClearIntent(s: Space, generation: string, temporaryName: string): Verdict {
    if !ValidToken(generation, temporaryName) then Refused(ClaimInvalid)
    else if !IntentMatches(s, generation, temporaryName) then Refused(StateConflict)
    else Changed(s.(intent := None))
  }

  function OnPreparePublish(s: Space, journal: PublishJournal): Verdict {
    var identity := Some(journal.newClaim.identity);
    if journal.phase != Prepared || !ValidJournal(journal) then Refused(ClaimInvalid)
    else if
      || s.intent.None?
      || (s.intent.value.temporaryIdentity.Some? && s.intent.value.temporaryIdentity != identity)
      || s.intent.value.(temporaryIdentity := identity) != IntentForJournal(journal)
      || Lookup(s.artifacts, journal.slot) != journal.oldClaim
    then Refused(StateConflict)
    else Changed(s.(intent := None, journal := Some(journal)))
  }

  function OnAdvancePublish(s: Space, generation: string, temporaryName: string,
                            from: PublishPhase, to: PublishPhase): Verdict
  {
    if (from, to) != (Prepared, Backup) && (from, to) != (Backup, Installed) then Refused(ClaimInvalid)
    else if !ValidToken(generation, temporaryName) then Refused(ClaimInvalid)
    else if !JournalMatches(s, generation, temporaryName) || s.journal.value.phase != from
    then Refused(StateConflict)
    else Changed(s.(journal := Some(s.journal.value.(phase := to))))
  }

  function OnCommitPublish(s: Space, claim: ArtifactClaim, generation: string, temporaryName: string): Verdict {
    if !ValidToken(generation, temporaryName) then Refused(ClaimInvalid)
    else if
      || !JournalMatches(s, generation, temporaryName)
      || s.journal.value.phase != Installed || s.journal.value.newClaim != claim
    then Refused(StateConflict)
    else Changed(s.(artifacts := s.artifacts[claim.slot := claim],
                    journal := Some(s.journal.value.(phase := Committed))))
  }

  function OnClearPublish(s: Space, generation: string, temporaryName: string): Verdict {
    if !ValidToken(generation, temporaryName) then Refused(ClaimInvalid)
    else if !JournalMatches(s, generation, temporaryName) || s.journal.value.phase != Committed
    then Refused(StateConflict)
    else Changed(s.(journal := None))
  }

  function OnAbortPublish(s: Space, generation: string, temporaryName: string, phases: set<PublishPhase>): Verdict {
    if phases == {} || !(phases <= {Prepared, Backup}) then Refused(ClaimInvalid)
    else if !ValidToken(generation, temporaryName) then Refused(ClaimInvalid)
    else if !JournalMatches(s, generation, temporaryName) || s.journal.value.phase !in phases
    then Refused(StateConflict)
    else Changed(s.(journal := None))
  }

  /** The delete items a workspace's artifacts turn into. */
  function PlannedItems(s: Space, id: string, generation: string): map<string, DeleteItem> {
    map slot | slot in s.artifacts :: DeleteItem(id, slot, Planned, None, s.artifacts[slot], generation)
  }

  function OnBeginDelete(s: Space, id: string, generation: string): Verdict {
    if !ValidGeneration(generation) then Refused(ClaimInvalid)
    else if s.workspace.None? then Unchanged
    else if s.workspace.value.generation != generation then Refused(StateConflict)
    else if s.workspace.value.phase == Deleting then Unchanged
    else if s.workspace.value.phase != Active then Refused(StateConflict)
    else if HasPublish(s) then Refused(Pending)
    else Changed(s.(workspace := Some(s.workspace.value.(phase := Deleting)),
                    deleteItems := s.deleteItems + PlannedItems(s, id, generation)))
  }

  predicate ItemMatches(s: Space, slot: string, generation: string, phase: DeletePhase, quarantineName: string) {
    && slot in s.deleteItems
    && s.deleteItems[slot].generation == generation
    && s.deleteItems[slot].phase == phase
    && (s.deleteItems[slot].quarantineName.Some? ==> s.deleteItems[slot].quarantineName.value == quarantineName)
  }

  function OnPlanQuarantine(s: Space, slot: string, quarantineName: string, generation: string): Verdict {
    if !ValidGeneration(generation) then Refused(ClaimInvalid)
    else if !ItemMatches(s, slot, generation, Planned, quarantineName) then Refused(StateConflict)
    else
      var item := s.deleteItems[slot].(quarantineName := Some(quarantineName));
      Changed(s.(deleteItems := s.deleteItems[slot := item]))
  }

  function OnAdvanceDelete(s: Space, slot: string, generation: string,
                           from: DeletePhase, to: DeletePhase, quarantineName: string): Verdict
  {
    if (from, to) != (Planned, Quarantined) && (from, to) != (Quarantined, Removed) then Refused(ClaimInvalid)
    else if !ValidGeneration(generation) then Refused(ClaimInvalid)
    else if !ItemMatches(s, slot, generation, from, quarantineName) then Refused(StateConflict)
    else
      var item := s.deleteItems[slot].(phase := to, quarantineName := Some(quarantineName));
      Changed(s.(deleteItems := s.deleteItems[slot := item]))
  }

  predicate AllRemoved(s: Space) {
    forall slot | slot in s.deleteItems :: s.deleteItems[slot].phase == Removed
  }

  function OnClearDeleted(s: Space, generation: string): Verdict {
    if !ValidGeneration(generation) then Refused(ClaimInvalid)
    else if s.workspace.None? then Unchanged
    else if s.workspace.value.generation != generation || s.workspace.value.phase != Deleting || !AllRemoved(s)
    then Refused(StateConflict)
    else Changed(EMPTY)
  }

  /** What a mutator decides about a copy of its workspace's rows. */
  function Decide(s: Space, op: Operation): Verdict {
    match op
    case ReserveWorkspace(id, g) => OnReserveWorkspace(s, id, g)
    case RetireReserved(_, g) => OnRetireReserved(s, g)
    case FinalizeWorkspace(id, g, w, e, c) => OnFinalizeWorkspace(s, id, g, w, e, c)
    case ReservePublish(intent) => OnReservePublish(s, intent)
    case ClaimTemporary(_, identity, g, t) => OnClaimTemporary(s, identity, g, t)
    case ClearIntent(_, g, t) => OnClearIntent(s, g, t)
    case PreparePublish(journal) => OnPreparePublish(s, journal)
    case AdvancePublish(_, g, t, from, to) => OnAdvancePublish(s, g, t, from, to)
    case CommitPublish(_, claim, g, t) => OnCommitPublish(s, claim, g, t)
    case ClearPublish(_, g, t) => OnClearPublish(s, g, t)
    case AbortPublish(_, g, t, phases) => OnAbortPublish(s, g, t, phases)
    case BeginDelete(id, g) => OnBeginDelete(s, id, g)
    case PlanQuarantine(_, slot, q, g) => OnPlanQuarantine(s, slot, q, g)
    case AdvanceDelete(_, slot, g, from, to, q) => OnAdvanceDelete(s, slot, g, from, to, q)
    case ClearDeleted(_, g) => OnClearDeleted(s, g)
  }

  /** The state with the workspace's changed rows in place, which the check is made on. */
  function Candidate(s: State, op: Operation): State
    requires Decide(SpaceOf(s, WorkspaceOf(op)), op).Changed?
  {
    WithSpace(s, WorkspaceOf(op), Decide(SpaceOf(s, WorkspaceOf(op)), op).next)
  }

  /** The mutator changes its copy and the whole copy passes the check. */
  predicate Accepts(s: State, op: Operation) {
    Decide(SpaceOf(s, WorkspaceOf(op)), op).Changed? && ValidState(Candidate(s, op))
  }

  /** A changed copy replaces the state only if it passes the state check. */
  function Mutate(s: State, op: Operation): State {
    if Accepts(s, op) then Candidate(s, op) else s
  }

  function Run(s: State, ops: seq<Operation>): State
    decreases |ops|
  {
    if ops == [] then s else Run(Mutate(s, ops[0]), ops[1..])
  }
}
