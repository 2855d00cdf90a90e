/** The evidence store's tables and the one atomic change of them that each transaction makes. */
module EvidenceTables {
  import opened Outcomes

  datatype PartState = Planned | Authorized | Prepared | Running | Processed | RetryWait | Failed | Invalidated

  datatype Plan = Plan(
    partId: string,
    workspaceId: string,
    revisionId: string,
    entryId: string,
    sourceSha256: string,
    partSha256: string,
    relativePath: string,
    locator: string,
    priority: nat,
    ordinal: nat,
    schedulingRank: nat,
    state: PartState)

  /** A part's row; its workspace, revision, entry and hashes are those of the stored plan. */
  datatype PartRow = PartRow(
    plan: Plan,
    state: PartState,
    attemptCount: nat,
    nextAttemptAt: Option<int>,
    planGeneration: nat,
    claimGeneration: nat)

  /** A claim on a part: the digest of the part and its two generations, taken as injective. */
  datatype Token = Token(partId: string, planGeneration: nat, claimGeneration: nat)

  datatype Attempt = Attempt(route: string, outcome: PartState, errorCode: Option<string>)

  datatype Citation = Citation(citationId: string, unitId: string, partId: string, relativePath: string,
                               locator: string)

  datatype Unit = Unit(unitId: string, partId: string, content: string, citations: seq<Citation>)

  datatype UnitRow = UnitRow(partId: string, unit: Unit, row: nat)

  /** What a cache key is bound to; the unit stands for the digest of its text. */
  datatype CacheRow = CacheRow(unitId: string, unit: Unit, sourceSha256: string, planGeneration: nat,
                               claimGeneration: nat)

  datatype Snapshot = Snapshot(
    snapshotId: string,
    workspaceId: string,
    revisionId: string,
    unitIds: seq<string>,
    nodeUnitIds: set<string>,
    groupUnitIds: set<string>,
    body: string,
    createdAt: int)

  datatype Tables = Tables(
    parts: map<string, PartRow>,
    attempts: map<(string, nat), Attempt>,
    units: map<string, UnitRow>,
    cache: map<string, CacheRow>,
    snapshots: map<string, Snapshot>,
    dependencies: set<(string, string)>,
    revocations: map<string, string>,
    current: map<string, string>,
    nextRow: nat)

  function NoTables(): Tables {
    Tables(map[], map[], map[], map[], map[], {}, map[], map[], 0)
  }

  // ---------------------------------------------------------------- lookups

  predicate Current(t: Tables, workspaceId: string, revisionId: string) {
    workspaceId in t.current && t.current[workspaceId] == revisionId
  }

  predicate PartIsCurrent(t: Tables, partId: string)
    requires partId in t.parts
  {
    Current(t, t.parts[partId].plan.workspaceId, t.parts[partId].plan.revisionId)
  }

  function TokenOf(row: PartRow): Token {
    Token(row.plan.partId, row.planGeneration, row.claimGeneration)
  }

  /** The token is the one the part's generations give now. */
  predicate Matches(t: Tables, token: Token) {
    && token.partId in t.parts
    && t.parts[token.partId].planGeneration == token.planGeneration
    && t.parts[token.partId].claimGeneration == token.claimGeneration
  }

  /** The token is the one under which its part is running. */
  predicate Held(t: Tables, token: Token) {
    Matches(t, token) && t.parts[token.partId].state == Running
  }

  function UnitsOf(units: map<string, UnitRow>, parts: set<string>): set<string> {
    set u | u in units && units[u].partId in parts
  }

  predicate DependsOn(dependencies: set<(string, string)>, snapshotId: string, units: set<string>) {
    exists d | d in dependencies :: d.0 == snapshotId && d.1 in units
  }

  /** The revision's snapshots that use one of the units. */
  function SnapshotsUsing(t: Tables, workspaceId: string, revisionId: string, units: set<string>): set<string> {
    set s | s in t.snapshots
      && t.snapshots[s].workspaceId == workspaceId && t.snapshots[s].revisionId == revisionId
      && DependsOn(t.dependencies, s, units)
  }

  // ---------------------------------------------------------------- deletions and their cascades

  function DeleteUnits(t: Tables, units: set<string>): Tables {
    t.(units := t.units - units,
       cache := map k | k in t.cache && t.cache[k].unitId !in units :: t.cache[k],
       dependencies := set d | d in t.dependencies && d.1 !in units)
  }

  function DeleteSnapshots(t: Tables, snapshots: set<string>): Tables {
    t.(snapshots := t.snapshots - snapshots,
       dependencies := set d | d in t.dependencies && d.0 !in snapshots)
  }

  function DeleteAttempts(t: Tables, parts: set<string>): Tables {
    t.(attempts := map k | k in t.attempts && k.0 !in parts :: t.attempts[k])
  }

  function DeleteParts(t: Tables, parts: set<string>): Tables {
    var rest := DeleteAttempts(DeleteUnits(t, UnitsOf(t.units, parts)), parts);
    rest.(parts := rest.parts - parts)
  }

  function WithPart(t: Tables, partId: string, row: PartRow): Tables {
    t.(parts := t.parts[partId := row])
  }

  // ---------------------------------------------------------------- plans

  /** The workspaces' new revisions; a running plan or two revisions for one workspace are refused. */
  function Revisions(plans: seq<Plan>): Option<map<string, string>> {
    if plans == [] then Some(map[])
    else
      var front :- Revisions(plans[..|plans| - 1]);
      var plan := plans[|plans| - 1];
      if plan.state == Running || (plan.workspaceId in front && front[plan.workspaceId] != plan.revisionId) then None
      else Some(front[plan.workspaceId := plan.revisionId])
  }

  /** A part without its units, the snapshots that use them, and its attempts. */
  function Stripped(t: Tables, id: string): Tables
    requires id in t.parts
  {
    var plan := t.parts[id].plan;
    var units := UnitsOf(t.units, {id});
    var stale := SnapshotsUsing(t, plan.workspaceId, plan.revisionId, units);
    DeleteAttempts(DeleteUnits(DeleteSnapshots(t, stale), units), {id})
  }

  function Replanned(row: PartRow, plan: Plan): PartRow {
    PartRow(plan, plan.state, 0, None, row.planGeneration + 1, row.claimGeneration)
  }

  /** A changed plan strips its part and starts a new plan generation; an unchanged one does nothing. */
  function UpsertOne(t: Tables, plan: Plan): Tables {
    var id := plan.partId;
    if id !in t.parts then WithPart(t, id, PartRow(plan, plan.state, 0, None, 1, 0))
    else if t.parts[id].plan == plan then t
    else WithPart(Stripped(t, id), id, Replanned(t.parts[id], plan))
  }

  function UpsertAll(t: Tables, plans: seq<Plan>): Tables {
    if plans == [] then t else UpsertOne(UpsertAll(t, plans[..|plans| - 1]), plans[|plans| - 1])
  }

  function OnUpsert(t: Tables, plans: seq<Plan>): Option<Tables> {
    var revisions :- Revisions(plans);
    Some(UpsertAll(t.(current := t.current + revisions), plans))
  }

  // ---------------------------------------------------------------- claims

  predicate Claimable(row: PartRow, now: int) {
    && row.state in {Planned, Authorized, Prepared, RetryWait}
    && (row.nextAttemptAt.Some? ==> row.nextAttemptAt.value <= now)
  }

  predicate Eligible(t: Tables, workspaceId: string, revisionId: string, now: int, partId: string) {
    && partId in t.parts
    && t.parts[partId].plan.workspaceId == workspaceId && t.parts[partId].plan.revisionId == revisionId
    && Claimable(t.parts[partId], now)
  }

  function Claimed(row: PartRow): PartRow {
    row.(state := Running, nextAttemptAt := None, claimGeneration := row.claimGeneration + 1)
  }

  /** The chosen parts start running, each under a token of its own. */
  function ClaimAll(t: Tables, chosen: set<string>): Tables {
    t.(parts := map p | p in t.parts :: if p in chosen then Claimed(t.parts[p]) else t.parts[p])
  }

  function OnClaim(t: Tables, workspaceId: string, revisionId: string, now: int, chosen: set<string>): Option<Tables> {
    if !Current(t, workspaceId, revisionId) then Some(t)
    else if forall p | p in chosen :: Eligible(t, workspaceId, revisionId, now, p) then Some(ClaimAll(t, chosen))
    else None
  }

  function Max(a: nat, b: nat): nat {
    if a < b then b else a
  }

  function OnRecordAttempt(t: Tables, token: Token, number: nat, attempt: Attempt,
                           nextAttemptAt: Option<int>): Option<Tables> {
    var id := token.partId;
    if number < 1 || attempt.outcome == Running || (attempt.outcome == RetryWait && nextAttemptAt.None?) then None
    else if id !in t.parts || !PartIsCurrent(t, id) || !Held(t, token) || (id, number) in t.attempts then None
    else
      var row := t.parts[id];
      Some(WithPart(t, id, row.(state := attempt.outcome, attemptCount := Max(row.attemptCount, number),
                                nextAttemptAt := nextAttemptAt))
           .(attempts := t.attempts[(id, number) := attempt]))
  }

  function OnResume(t: Tables, token: Token, number: nat): Option<Tables> {
    var id := token.partId;
    if number < 1 || id !in t.parts || !PartIsCurrent(t, id) then None
    else if t.parts[id].state != RetryWait || !Matches(t, token) then None
    else Some(WithPart(t, id, Claimed(t.parts[id]).(attemptCount := Max(t.parts[id].attemptCount, number))))
  }

  function OnFailExhausted(t: Tables, token: Token): Option<Tables> {
    var id := token.partId;
    if id !in t.parts || !PartIsCurrent(t, id) || !Held(t, token) then None
    else Some(WithPart(t, id, t.parts[id].(state := Failed, nextAttemptAt := None)))
  }

  /** Pausing does not ask whether the revision is still the current one. */
  function OnPause(t: Tables, token: Token, pausedAt: int): Option<Tables> {
    var id := token.partId;
    if id !in t.parts || !Held(t, token) then None
    else Some(WithPart(t, id, t.parts[id].(state := RetryWait, nextAttemptAt := Some(pausedAt))))
  }

  // ---------------------------------------------------------------- evidence

  /** Whether a citation's locator lies inside a part's locator. */
  type Containment = (string, string) -> bool

  predicate CitationsInside(contains: Containment, plan: Plan, citations: seq<Citation>) {
    forall i | 0 <= i < |citations| ::
      citations[i].relativePath == plan.relativePath && contains(plan.locator, citations[i].locator)
  }

  /** What a citation's id is a digest of besides its unit's id: its locator when new, its place when reused. */
  datatype CitationTag = AtLocator(locator: string) | AtPlace(place: nat)

  /** The digests that name a reused unit and all citations. */
  datatype Naming = Naming(unitId: (string, string) -> string, citationId: (string, CitationTag) -> string)

  function Readdressed(naming: Naming, unit: Unit, partId: string, cacheKey: string): (reused: Unit)
    ensures |reused.citations| == |unit.citations|
  {
    var unitId := naming.unitId(partId, cacheKey);
    Unit(unitId, partId, unit.content,
         seq(|unit.citations|, i requires 0 <= i < |unit.citations| =>
           unit.citations[i].(citationId := naming.citationId(unitId, AtPlace(i)), unitId := unitId, partId := partId)))
  }

  function CachedUnit(t: Tables, cacheKey: string): Option<Unit> {
    if cacheKey in t.cache && t.cache[cacheKey].unitId in t.units
    then Some(t.units[t.cache[cacheKey].unitId].unit)
    else None
  }

  predicate CacheFits(t: Tables, contains: Containment, partId: string, cacheKey: string)
    requires partId in t.parts
  {
    && CachedUnit(t, cacheKey).Some?
    && t.cache[cacheKey].sourceSha256 == t.parts[partId].plan.sourceSha256
    && CitationsInside(contains, t.parts[partId].plan, CachedUnit(t, cacheKey).value.citations)
  }

  function AddUnit(t: Tables, partId: string, unit: Unit): Tables {
    t.(units := t.units[unit.unitId := UnitRow(partId, unit, t.nextRow)], nextRow := t.nextRow + 1)
  }

  function Finish(t: Tables, partId: string): Tables
    requires partId in t.parts
  {
    WithPart(t, partId, t.parts[partId].(state := Processed, nextAttemptAt := None))
  }

  /** A hit stores the cached unit under the part's own names; a miss changes nothing. */
  function OnReuse(t: Tables, contains: Containment, naming: Naming, token: Token, cacheKey: string): Option<Tables> {
    var id := token.partId;
    if id !in t.parts || !PartIsCurrent(t, id) || !Held(t, token) then None
    else if !CacheFits(t, contains, id, cacheKey) then Some(t)
    else
      var unit := Readdressed(naming, CachedUnit(t, cacheKey).value, id, cacheKey);
      if unit.unitId in t.units then None else Some(Finish(AddUnit(t, id, unit), id))
  }

  predicate Addressed(unit: Unit, partId: string) {
    && unit.partId == partId
    && forall i | 0 <= i < |unit.citations| ::
         unit.citations[i].unitId == unit.unitId && unit.citations[i].partId == partId
  }

  /** The part was finished by exactly this publication. */
  predicate AlreadyPublished(t: Tables, partId: string, unit: Unit, cacheKey: string)
    requires partId in t.parts
  {
    && CachedUnit(t, cacheKey).Some?
    && t.cache[cacheKey] == CacheRow(unit.unitId, unit, t.parts[partId].plan.sourceSha256,
                                     t.parts[partId].planGeneration, t.parts[partId].claimGeneration)
    && t.units[unit.unitId].partId == partId && t.units[unit.unitId].unit == unit
  }

  function OnPublish(t: Tables, contains: Containment, token: Token, unit: Unit, cacheKey: string): Option<Tables> {
    var id := token.partId;
    if !Addressed(unit, id) || id !in t.parts || !PartIsCurrent(t, id) || !Matches(t, token) then None
    else if !CitationsInside(contains, t.parts[id].plan, unit.citations) then None
    else if t.parts[id].state == Processed then
      if AlreadyPublished(t, id, unit, cacheKey) then Some(t) else None
    else if t.parts[id].state != Running || CachedUnit(t, cacheKey).Some? || cacheKey in t.cache then None
    else if unit.unitId in t.units && (t.units[unit.unitId].partId != id || t.units[unit.unitId].unit != unit) then None
    else
      var row := t.parts[id];
      var bound := CacheRow(unit.unitId, unit, row.plan.sourceSha256, row.planGeneration, row.claimGeneration);
      var stored := if unit.unitId in t.units then t else AddUnit(t, id, unit);
      Some(Finish(stored.(cache := t.cache[cacheKey := bound]), id))
  }

  // ---------------------------------------------------------------- snapshots

  predicate Latest(t: Tables, unitId: string)
    requires unitId in t.units
  {
    forall v | v in t.units :: t.units[v].partId == t.units[unitId].partId ==> t.units[v].row <= t.units[unitId].row
  }

  /** The unit is the latest one of a processed part of the revision. */
  predicate DependencyFits(t: Tables, workspaceId: string, revisionId: string, unitId: string) {
    && unitId in t.units && t.units[unitId].partId in t.parts
    && var row := t.parts[t.units[unitId].partId];
       && row.plan.workspaceId == workspaceId && row.plan.revisionId == revisionId && row.state == Processed
       && Latest(t, unitId)
  }

  predicate NoDuplicates(ids: seq<string>) {
    forall i, j | 0 <= i < j < |ids| :: ids[i] != ids[j]
  }

  predicate DependenciesFit(t: Tables, snapshot: Snapshot) {
    && NoDuplicates(snapshot.unitIds)
    && forall u | u in snapshot.unitIds :: DependencyFits(t, snapshot.workspaceId, snapshot.revisionId, u)
  }

  function Ids(ids: seq<string>): set<string> {
    set id | id in ids
  }

  function OnSaveSnapshot(t: Tables, snapshot: Snapshot): Option<Tables> {
    var id := snapshot.snapshotId;
    if Ids(snapshot.unitIds) != snapshot.nodeUnitIds + snapshot.groupUnitIds then None
    else if !Current(t, snapshot.workspaceId, snapshot.revisionId) || !DependenciesFit(t, snapshot) then None
    else if id in t.snapshots then
      if t.snapshots[id].(createdAt := snapshot.createdAt) == snapshot then Some(t) else None
    else
      Some(t.(snapshots := t.snapshots[id := snapshot],
              dependencies := t.dependencies + set u | u in snapshot.unitIds :: (id, u)))
  }

  // ---------------------------------------------------------------- entries, retries, recovery

  function EntryParts(t: Tables, workspaceId: string, revisionId: string, entryId: string): set<string> {
    set p | p in t.parts
      && t.parts[p].plan.workspaceId == workspaceId && t.parts[p].plan.revisionId == revisionId
      && t.parts[p].plan.entryId == entryId
  }

  function Revoke(t: Tables, workspaceId: string, snapshots: set<string>): Tables {
    t.(revocations := (map s | s in snapshots :: workspaceId) + t.revocations)
  }

  function MarkInvalidated(t: Tables, parts: set<string>): Tables {
    t.(parts := map p | p in t.parts ::
      if p in parts then t.parts[p].(state := Invalidated, nextAttemptAt := None) else t.parts[p])
  }

  function OnInvalidateEntry(t: Tables, workspaceId: string, revisionId: string, entryId: string): Tables {
    var parts := EntryParts(t, workspaceId, revisionId, entryId);
    var units := UnitsOf(t.units, parts);
    var stale := SnapshotsUsing(t, workspaceId, revisionId, units);
    MarkInvalidated(DeleteUnits(DeleteSnapshots(Revoke(t, workspaceId, stale), stale), units), parts)
  }

  function OnDeleteInvalidated(t: Tables, workspaceId: string, revisionId: string, entryId: string): Option<Tables> {
    var parts := EntryParts(t, workspaceId, revisionId, entryId);
    if exists p | p in parts :: t.parts[p].state != Invalidated then None else Some(DeleteParts(t, parts))
  }

  function FailedParts(t: Tables, workspaceId: string, revisionId: string): set<string> {
    set p | p in t.parts
      && t.parts[p].plan.workspaceId == workspaceId && t.parts[p].plan.revisionId == revisionId
      && t.parts[p].state == Failed
  }

  function Requeue(t: Tables, parts: set<string>): Tables {
    t.(parts := map p | p in t.parts ::
      if p in parts then t.parts[p].(state := Prepared, nextAttemptAt := None) else t.parts[p])
  }

  /** Failed parts that were never attempted are dropped; the others are queued again. */
  function OnRetryFailed(t: Tables, workspaceId: string, revisionId: string): Tables {
    if !Current(t, workspaceId, revisionId) then t
    else
      var failed := FailedParts(t, workspaceId, revisionId);
      Requeue(DeleteParts(t, set p | p in failed && t.parts[p].attemptCount == 0), failed)
  }

  function OnRecover(t: Tables, now: int): Tables {
    t.(parts := map p | p in t.parts ::
      if t.parts[p].state == Running then t.parts[p].(state := RetryWait, nextAttemptAt := Some(now)) else t.parts[p])
  }

  function WorkspaceSnapshots(t: Tables, workspaceId: string): set<string> {
    set s | s in t.snapshots && t.snapshots[s].workspaceId == workspaceId
  }

  function WorkspaceParts(t: Tables, workspaceId: string): set<string> {
    set p | p in t.parts && t.parts[p].plan.workspaceId == workspaceId
  }

  function ForgetRevision(t: Tables, workspaceId: string): Tables {
    t.(revocations := map s | s in t.revocations && t.revocations[s] != workspaceId :: t.revocations[s],
       current := t.current - {workspaceId})
  }

  function OnDeleteWorkspace(t: Tables, workspaceId: string): Tables {
    var rest := DeleteSnapshots(t, WorkspaceSnapshots(t, workspaceId));
    ForgetRevision(DeleteParts(rest, WorkspaceParts(t, workspaceId)), workspaceId)
  }

  // ---------------------------------------------------------------- transactions

  datatype Operation =
    | Upsert(plans: seq<Plan>)
    | Claim(workspaceId: string, revisionId: string, now: int, chosen: set<string>)
    | RecordAttempt(token: Token, number: nat, attempt: Attempt, nextAttemptAt: Option<int>)
    | Resume(token: Token, number: nat)
    | FailExhausted(token: Token)
    | Pause(token: Token, pausedAt: int)
    | Reuse(token: Token, cacheKey: string)
    | Publish(token: Token, unit: Unit, cacheKey: string)
    | SaveSnapshot(snapshot: Snapshot)
    | DeleteSnapshot(snapshotId: string)
    | InvalidateEntry(workspaceId: string, revisionId: string, entryId: string)
    | DeleteInvalidated(workspaceId: string, revisionId: string, entryId: string)
    | RetryFailed(workspaceId: string, revisionId: string)
    | Recover(now: int)
    | DeleteWorkspace(workspaceId: string)

  /** What the store is built with: locator containment and the digests that name reused evidence. */
  datatype Setup = Setup(contains: Containment, naming: Naming)

  /** What a transaction commits; nothing if it raises and is rolled back. */
  function Attempted(setup: Setup, t: Tables, op: Operation): Option<Tables> {
    match op
    case Upsert(plans) => OnUpsert(t, plans)
    case Claim(w, r, now, chosen) => OnClaim(t, w, r, now, chosen)
    case RecordAttempt(token, number, attempt, next) => OnRecordAttempt(t, token, number, attempt, next)
    case Resume(token, number) => OnResume(t, token, number)
    case FailExhausted(token) => OnFailExhausted(t, token)
    case Pause(token, pausedAt) => OnPause(t, token, pausedAt)
    case Reuse(token, key) => OnReuse(t, setup.contains, setup.naming, token, key)
    case Publish(token, unit, key) => OnPublish(t, setup.contains, token, unit, key)
    case SaveSnapshot(snapshot) => OnSaveSnapshot(t, snapshot)
    case DeleteSnapshot(id) => Some(DeleteSnapshots(t, {id}))
    case InvalidateEntry(w, r, e) => Some(OnInvalidateEntry(t, w, r, e))
    case DeleteInvalidated(w, r, e) => OnDeleteInvalidated(t, w, r, e)
    case RetryFailed(w, r) => Some(OnRetryFailed(t, w, r))
    case Recover(now) => Some(OnRecover(t, now))
    case DeleteWorkspace(w) => Some(OnDeleteWorkspace(t, w))
  }

  function Step(setup: Setup, t: Tables, op: Operation): Tables {
    var next := Attempted(setup, t, op);
    if next.Some? then next.value else t
  }

  function Run(setup: Setup, t: Tables, ops: seq<Operation>): Tables {
    if ops == [] then t else Step(setup, Run(setup, t, ops[..|ops| - 1]), ops[|ops| - 1])
  }
}
