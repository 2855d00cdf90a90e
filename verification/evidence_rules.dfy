/** When each transaction of the evidence store is refused, and what it otherwise does to every table, row by row. */
module EvidenceRules {
  import opened Outcomes
  import opened EvidenceTables

  // ---------------------------------------------------------------- claims

  /** The part is running, and under this token. */
  ghost predicate RunsUnder(t: Tables, token: Token) {
    && token.partId in t.parts && t.parts[token.partId].state == Running
    && t.parts[token.partId].planGeneration == token.planGeneration
    && t.parts[token.partId].claimGeneration == token.claimGeneration
  }

  /** The part is one of its workspace's current revision. */
  ghost predicate BelongsToday(t: Tables, id: string) {
    && id in t.parts && t.parts[id].plan.workspaceId in t.current
    && t.current[t.parts[id].plan.workspaceId] == t.parts[id].plan.revisionId
  }

  /** The text is a proper beginning of the other, or smaller where they first differ. */
  ghost predicate TextBefore(a: string, b: string) {
    exists n | 0 <= n <= |a| && n < |b| :: a[..n] == b[..n] && (n == |a| || a[n] < b[n])
  }

  /** Priority, then rank, then ordinal, then id decide which plan's part is claimed first. */
  ghost predicate ComesFirst(a: Plan, b: Plan) {
    || a.priority < b.priority
    || (a.priority == b.priority && a.schedulingRank < b.schedulingRank)
    || (a.priority == b.priority && a.schedulingRank == b.schedulingRank && a.ordinal < b.ordinal)
    || (a.priority == b.priority && a.schedulingRank == b.schedulingRank && a.ordinal == b.ordinal
        && TextBefore(a.partId, b.partId))
  }

  /** The row waits to be worked on, and its time has come. */
  ghost predicate WaitsUntil(row: PartRow, now: int) {
    && (row.state == Planned || row.state == Authorized || row.state == Prepared || row.state == RetryWait)
    && (row.nextAttemptAt == None || row.nextAttemptAt.value <= now)
  }

  ghost predicate StartsRunning(row: PartRow, next: PartRow) {
    next == PartRow(row.plan, Running, row.attemptCount, None, row.planGeneration, row.claimGeneration + 1)
  }

  /** Exactly the chosen parts start running. */
  ghost predicate ChosenStart(t: Tables, next: Tables, chosen: set<string>) {
    && next == t.(parts := next.parts) && next.parts.Keys == t.parts.Keys
    && forall p | p in t.parts ::
         if p in chosen then StartsRunning(t.parts[p], next.parts[p]) else next.parts[p] == t.parts[p]
  }

  /**
   The current revision's waiting parts are taken in their order, and no more than `limit`; fewer only when no other
   part of the revision waits. The taken ones start running and nothing else changes.
   */
  ghost predicate PartsClaimed(t: Tables, next: Tables, workspaceId: string, revisionId: string, limit: nat, now: int,
                               taken: seq<string>) {
    if workspaceId !in t.current || t.current[workspaceId] != revisionId then taken == [] && next == t
    else
      && |taken| <= limit
      && (forall p | p in taken ::
            && p in t.parts && t.parts[p].plan.workspaceId == workspaceId && t.parts[p].plan.revisionId == revisionId
            && WaitsUntil(t.parts[p], now))
      && (forall i, j | 0 <= i < j < |taken| :: ComesFirst(t.parts[taken[i]].plan, t.parts[taken[j]].plan))
      && (forall p | p in t.parts && t.parts[p].plan.workspaceId == workspaceId
                     && t.parts[p].plan.revisionId == revisionId && WaitsUntil(t.parts[p], now) && p !in taken ::
            |taken| == limit && forall q | q in taken :: ComesFirst(t.parts[q].plan, t.parts[p].plan))
      && ChosenStart(t, next, set p | p in taken)
  }

  /** A claim of named parts is one of the current revision's waiting parts only, or there is no current revision. */
  ghost predicate NamedPartsClaimed(t: Tables, next: Option<Tables>, workspaceId: string, revisionId: string, now: int,
                                    chosen: set<string>) {
    if workspaceId !in t.current || t.current[workspaceId] != revisionId then next == Some(t)
    else
      && (next.Some? <==> forall p | p in chosen ::
            && p in t.parts && t.parts[p].plan.workspaceId == workspaceId && t.parts[p].plan.revisionId == revisionId
            && WaitsUntil(t.parts[p], now))
      && (next.Some? ==> ChosenStart(t, next.value, chosen))
  }

  // ---------------------------------------------------------------- the steps of a claim

  /** Recorded under the running claim and a number not used before; a retry needs its time. */
  ghost predicate AttemptRecorded(t: Tables, next: Option<Tables>, token: Token, number: nat, attempt: Attempt,
                                  nextAttemptAt: Option<int>) {
    var id := token.partId;
    && (next.Some? <==>
          && number >= 1 && attempt.outcome != Running && (attempt.outcome == RetryWait ==> nextAttemptAt.Some?)
          && BelongsToday(t, id) && RunsUnder(t, token) && (id, number) !in t.attempts)
    && (next.Some? ==>
          var row := t.parts[id];
          next.value == t.(
            attempts := t.attempts[(id, number) := attempt],
            parts := t.parts[id := PartRow(row.plan, attempt.outcome,
                                           if number > row.attemptCount then number else row.attemptCount,
                                           nextAttemptAt, row.planGeneration, row.claimGeneration)]))
  }

  /** A waiting claim runs again under its old plan generation and a new claim generation. */
  ghost predicate ClaimResumed(t: Tables, next: Option<Tables>, token: Token, number: nat) {
    var id := token.partId;
    && (next.Some? <==>
          && number >= 1 && BelongsToday(t, id) && t.parts[id].state == RetryWait
          && t.parts[id].planGeneration == token.planGeneration && t.parts[id].claimGeneration == token.claimGeneration)
    && (next.Some? ==>
          var row := t.parts[id];
          next.value == t.(
            parts := t.parts[id := PartRow(row.plan, Running,
                                           if number > row.attemptCount then number else row.attemptCount,
                                           None, row.planGeneration, row.claimGeneration + 1)]))
  }

  ghost predicate ExhaustedFailed(t: Tables, next: Option<Tables>, token: Token) {
    && (next.Some? <==> BelongsToday(t, token.partId) && RunsUnder(t, token))
    && (next.Some? ==>
          next.value == t.(parts := t.parts[token.partId :=
            t.parts[token.partId].(state := Failed, nextAttemptAt := None)]))
  }

  /** The claim waits from the time on, whatever revision is the current one. */
  ghost predicate ClaimPaused(t: Tables, next: Option<Tables>, token: Token, pausedAt: int) {
    && (next.Some? <==> RunsUnder(t, token))
    && (next.Some? ==>
          next.value == t.(parts := t.parts[token.partId :=
            t.parts[token.partId].(state := RetryWait, nextAttemptAt := Some(pausedAt))]))
  }

  // ---------------------------------------------------------------- evidence

  ghost predicate CitesWithin(contains: Containment, plan: Plan, unit: Unit) {
    forall c | c in unit.citations :: c.relativePath == plan.relativePath && contains(plan.locator, c.locator)
  }

  /** The part is finished, with this unit newly stored for it or stored before. */
  ghost predicate FinishedWith(t: Tables, next: Tables, id: string, unit: Unit)
    requires id in t.parts
  {
    && next.parts == t.parts[id := t.parts[id].(state := Processed, nextAttemptAt := None)]
    && next == t.(parts := next.parts, cache := next.cache, units := next.units, nextRow := next.nextRow)
    && if unit.unitId in t.units then next.units == t.units && next.nextRow == t.nextRow
       else next.units == t.units[unit.unitId := UnitRow(id, unit, t.nextRow)] && next.nextRow == t.nextRow + 1
  }

  /** The same content and citations under new names. */
  ghost predicate SameUnderNewNames(naming: Naming, original: Unit, unit: Unit, id: string, cacheKey: string) {
    && unit.unitId == naming.unitId(id, cacheKey) && unit.partId == id && unit.content == original.content
    && |unit.citations| == |original.citations|
    && forall i | 0 <= i < |unit.citations| ::
         unit.citations[i] == Citation(naming.citationId(unit.unitId, AtPlace(i)), unit.unitId, id,
                                       original.citations[i].relativePath, original.citations[i].locator)
  }

  /**
   Only a running claim is finished with the unit the key is bound to, under the part's own names. It is not taken
   from another source, nor with a citation outside the part: then nothing changes.
   */
  ghost predicate EvidenceReused(setup: Setup, t: Tables, next: Option<Tables>, token: Token, cacheKey: string) {
    var id := token.partId;
    var bound := cacheKey in t.cache && t.cache[cacheKey].unitId in t.units;
    if !BelongsToday(t, id) || !RunsUnder(t, token) then next == None
    else if !bound || t.cache[cacheKey].sourceSha256 != t.parts[id].plan.sourceSha256
            || !CitesWithin(setup.contains, t.parts[id].plan, t.units[t.cache[cacheKey].unitId].unit)
    then next == Some(t)
    else
      && (next == None <==> setup.naming.unitId(id, cacheKey) in t.units)
      && (next.Some? ==>
            exists unit | SameUnderNewNames(setup.naming, t.units[t.cache[cacheKey].unitId].unit, unit, id, cacheKey) ::
              FinishedWith(t, next.value, id, unit) && next.value.cache == t.cache)
  }

  /** The key, the unit and the part's generations are those of the publication that finished the part. */
  ghost predicate RepeatsPublication(t: Tables, id: string, unit: Unit, cacheKey: string) {
    && id in t.parts && cacheKey in t.cache && unit.unitId in t.units
    && t.cache[cacheKey].unitId == unit.unitId && t.cache[cacheKey].unit == unit
    && t.cache[cacheKey].sourceSha256 == t.parts[id].plan.sourceSha256
    && t.cache[cacheKey].planGeneration == t.parts[id].planGeneration
    && t.cache[cacheKey].claimGeneration == t.parts[id].claimGeneration
    && t.units[unit.unitId].partId == id && t.units[unit.unitId].unit == unit
  }

  /** The unit and its citations name each other and the part. */
  ghost predicate NamesItsPart(unit: Unit, id: string) {
    unit.partId == id && forall c | c in unit.citations :: c.unitId == unit.unitId && c.partId == id
  }

  /**
   Only a running claim publishes, under a key that is not bound and an id that no other unit has; it binds the key.
   The publication that finished the part is accepted again and changes nothing.
   */
  ghost predicate EvidencePublished(setup: Setup, t: Tables, next: Option<Tables>, token: Token, unit: Unit,
                                    cacheKey: string) {
    var id := token.partId;
    var wellFormed := NamesItsPart(unit, id) && BelongsToday(t, id)
                      && t.parts[id].planGeneration == token.planGeneration
                      && t.parts[id].claimGeneration == token.claimGeneration
                      && CitesWithin(setup.contains, t.parts[id].plan, unit);
    var repeated := wellFormed && t.parts[id].state == Processed && RepeatsPublication(t, id, unit, cacheKey);
    var published := wellFormed && t.parts[id].state == Running && cacheKey !in t.cache
                     && (unit.unitId in t.units ==>
                           t.units[unit.unitId].partId == id && t.units[unit.unitId].unit == unit);
    && (next == None <==> !repeated && !published)
    && (repeated ==> next == Some(t))
    && (published ==>
          && FinishedWith(t, next.value, id, unit)
          && next.value.cache == t.cache[cacheKey := CacheRow(unit.unitId, unit, t.parts[id].plan.sourceSha256,
                                                              token.planGeneration, token.claimGeneration)])
  }

  // ---------------------------------------------------------------- snapshots

  /** The unit is the last one stored for a processed part of the revision. */
  ghost predicate LastOfProcessed(t: Tables, workspaceId: string, revisionId: string, u: string) {
    && u in t.units
    && var part := t.units[u].partId;
       && part in t.parts && t.parts[part].state == Processed
       && t.parts[part].plan.workspaceId == workspaceId && t.parts[part].plan.revisionId == revisionId
       && forall v | v in t.units && t.units[v].partId == part :: t.units[v].row <= t.units[u].row
  }

  /**
   A snapshot of the current revision is stored with one dependency row for each of its units, which its nodes and
   groups use, no other and none twice. The stored one is accepted again, at whatever time, and changes nothing.
   */
  ghost predicate SnapshotSaved(t: Tables, next: Option<Tables>, snapshot: Snapshot) {
    var id := snapshot.snapshotId;
    && (next.Some? <==>
          && (forall u :: u in snapshot.unitIds <==> u in snapshot.nodeUnitIds || u in snapshot.groupUnitIds)
          && snapshot.workspaceId in t.current && t.current[snapshot.workspaceId] == snapshot.revisionId
          && (forall i, j | 0 <= i < |snapshot.unitIds| && 0 <= j < |snapshot.unitIds| && i != j ::
                snapshot.unitIds[i] != snapshot.unitIds[j])
          && (forall u | u in snapshot.unitIds :: LastOfProcessed(t, snapshot.workspaceId, snapshot.revisionId, u))
          && (id in t.snapshots ==> SameButTime(t.snapshots[id], snapshot)))
    && (next.Some? ==>
          if id in t.snapshots then next.value == t
          else
            && next.value == t.(snapshots := t.snapshots[id := snapshot], dependencies := next.value.dependencies)
            && forall d :: d in next.value.dependencies <==>
                             d in t.dependencies || (d.0 == id && d.1 in snapshot.unitIds))
  }

  ghost predicate SameButTime(a: Snapshot, b: Snapshot) {
    && a.snapshotId == b.snapshotId && a.workspaceId == b.workspaceId && a.revisionId == b.revisionId
    && a.unitIds == b.unitIds && a.nodeUnitIds == b.nodeUnitIds && a.groupUnitIds == b.groupUnitIds && a.body == b.body
  }

  // ---------------------------------------------------------------- what is lost with a part

  /** Every unit of the parts is gone, with the keys bound to it and the snapshots' rows for it. */
  ghost predicate UnitsGo(t: Tables, next: Tables, parts: set<string>, snapshots: set<string>) {
    var gone := set u | u in t.units && t.units[u].partId in parts;
    && next.units == (map u | u in t.units && u !in gone :: t.units[u])
    && next.cache == (map k | k in t.cache && t.cache[k].unitId !in gone :: t.cache[k])
    && next.snapshots == (map s | s in t.snapshots && s !in snapshots :: t.snapshots[s])
    && next.dependencies == set d | d in t.dependencies && d.0 !in snapshots && d.1 !in gone
    && next.nextRow == t.nextRow
  }

  ghost predicate AttemptsGo(t: Tables, next: Tables, parts: set<string>) {
    next.attempts == map k | k in t.attempts && k.0 !in parts :: t.attempts[k]
  }

  /** The snapshot is one of the revision, and has a row for a unit of the parts. */
  ghost predicate UsesPart(t: Tables, s: string, workspaceId: string, revisionId: string, parts: set<string>) {
    && s in t.snapshots && t.snapshots[s].workspaceId == workspaceId && t.snapshots[s].revisionId == revisionId
    && exists d :: d in t.dependencies && d.0 == s && d.1 in t.units && t.units[d.1].partId in parts
  }

  /**
   A new part starts its first plan generation, and a plan stored before changes nothing. A changed plan starts the
   part over in the next generation, without its attempts, its units and the snapshots of its old revision using it.
   */
  ghost predicate PlanStored(t: Tables, next: Tables, plan: Plan) {
    var id := plan.partId;
    if id !in t.parts then next == t.(parts := t.parts[id := PartRow(plan, plan.state, 0, None, 1, 0)])
    else if t.parts[id].plan == plan then next == t
    else
      var row := t.parts[id];
      && next.parts == t.parts[id := PartRow(plan, plan.state, 0, None, row.planGeneration + 1, row.claimGeneration)]
      && UnitsGo(t, next, {id},
                 set s | s in t.snapshots && UsesPart(t, s, row.plan.workspaceId, row.plan.revisionId, {id}))
      && AttemptsGo(t, next, {id}) && next.revocations == t.revocations && next.current == t.current
  }

  /**
   A batch with a running plan, or with two revisions of one workspace, is refused as a whole. The others' revisions
   become the current ones, and then the plans are stored one by one.
   */
  ghost predicate PlansStored(t: Tables, next: Option<Tables>, plans: seq<Plan>) {
    && (next == None <==>
          || (exists plan | plan in plans :: plan.state == Running)
          || exists a, b | a in plans && b in plans :: a.workspaceId == b.workspaceId && a.revisionId != b.revisionId)
    && (next.Some? ==>
          exists states: seq<Tables> | |states| == |plans| + 1 ::
            && states[0] == t.(current := states[0].current) && RevisionsCurrent(t.current, states[0].current, plans)
            && (forall i | 0 <= i < |plans| :: PlanStored(states[i], states[i + 1], plans[i]))
            && next.value == states[|plans|])
  }

  /** The batch's workspaces have its revisions, and the others keep theirs. */
  ghost predicate RevisionsCurrent(was: map<string, string>, becomes: map<string, string>, plans: seq<Plan>) {
    && (forall plan | plan in plans ::
          plan.workspaceId in becomes && becomes[plan.workspaceId] == plan.revisionId)
    && forall w | !exists plan | plan in plans :: plan.workspaceId == w ::
         (w in becomes <==> w in was) && (w in was ==> becomes[w] == was[w])
  }

  // ---------------------------------------------------------------- entries, retries, recovery, deletion

  /** Only the rows of the parts change, all in one way. */
  ghost predicate RowsBecome(parts: map<string, PartRow>, next: map<string, PartRow>, chosen: set<string>,
                             state: PartState, nextAttemptAt: Option<int>) {
    && next.Keys == parts.Keys
    && forall p | p in parts ::
         if p in chosen
         then next[p] == PartRow(parts[p].plan, state, parts[p].attemptCount, nextAttemptAt,
                                 parts[p].planGeneration, parts[p].claimGeneration)
         else next[p] == parts[p]
  }

  /** The parts go, with their attempts and their units; the snapshots that used these stay. */
  ghost predicate PartsGo(t: Tables, next: Tables, parts: set<string>) {
    && next.parts == (map p | p in t.parts && p !in parts :: t.parts[p])
    && UnitsGo(t, next, parts, {}) && AttemptsGo(t, next, parts)
  }

  /** The entry's parts lose their units; the revision's snapshots that used these are deleted and revoked. */
  ghost predicate EntryInvalidated(t: Tables, next: Tables, workspaceId: string, revisionId: string, entryId: string) {
    var parts := set p | p in t.parts && t.parts[p].plan.workspaceId == workspaceId
                         && t.parts[p].plan.revisionId == revisionId && t.parts[p].plan.entryId == entryId;
    var stale := set s | s in t.snapshots && UsesPart(t, s, workspaceId, revisionId, parts);
    && RowsBecome(t.parts, next.parts, parts, Invalidated, None)
    && UnitsGo(t, next, parts, stale)
    && next.attempts == t.attempts && next.current == t.current
    && next.revocations.Keys == t.revocations.Keys + stale
    && forall s | s in next.revocations ::
         next.revocations[s] == if s in t.revocations then t.revocations[s] else workspaceId
  }

  /** The entry's parts are dropped only when all of them are invalidated. */
  ghost predicate EntryDropped(t: Tables, next: Option<Tables>, workspaceId: string, revisionId: string,
                               entryId: string) {
    var parts := set p | p in t.parts && t.parts[p].plan.workspaceId == workspaceId
                         && t.parts[p].plan.revisionId == revisionId && t.parts[p].plan.entryId == entryId;
    && (next.Some? <==> forall p | p in parts :: t.parts[p].state == Invalidated)
    && (next.Some? ==>
          PartsGo(t, next.value, parts) && next.value.revocations == t.revocations && next.value.current == t.current)
  }

  /** The current revision's failed parts are prepared again if they were ever attempted, and dropped otherwise. */
  ghost predicate FailedRetried(t: Tables, next: Tables, workspaceId: string, revisionId: string) {
    if workspaceId !in t.current || t.current[workspaceId] != revisionId then next == t
    else
      var failed := set p | p in t.parts && t.parts[p].plan.workspaceId == workspaceId
                            && t.parts[p].plan.revisionId == revisionId && t.parts[p].state == Failed;
      var dropped := set p | p in failed && t.parts[p].attemptCount == 0;
      exists rest: Tables | PartsGo(t, rest, dropped) ::
        && RowsBecome(rest.parts, next.parts, failed, Prepared, None)
        && next == rest.(parts := next.parts)
        && next.revocations == t.revocations && next.current == t.current
  }

  /** Every part found running waits from now on. */
  ghost predicate RunningRecovered(t: Tables, next: Tables, now: int) {
    && RowsBecome(t.parts, next.parts, (set p | p in t.parts && t.parts[p].state == Running), RetryWait, Some(now))
    && next == t.(parts := next.parts)
  }

  /** Nothing of the workspace is left: no part, attempt, unit, snapshot, revocation or revision. */
  ghost predicate WorkspaceGone(t: Tables, next: Tables, workspaceId: string) {
    var parts := set p | p in t.parts && t.parts[p].plan.workspaceId == workspaceId;
    && next.parts == (map p | p in t.parts && p !in parts :: t.parts[p])
    && UnitsGo(t, next, parts, set s | s in t.snapshots && t.snapshots[s].workspaceId == workspaceId)
    && AttemptsGo(t, next, parts)
    && next.revocations == (map s | s in t.revocations && t.revocations[s] != workspaceId :: t.revocations[s])
    && next.current == map w | w in t.current && w != workspaceId :: t.current[w]
  }

  ghost predicate SnapshotGone(t: Tables, next: Tables, snapshotId: string) {
    next == t.(snapshots := map s | s in t.snapshots && s != snapshotId :: t.snapshots[s],
               dependencies := set d | d in t.dependencies && d.0 != snapshotId)
  }

  // ---------------------------------------------------------------- the transactions keep their rules

  ghost predicate Follows(setup: Setup, t: Tables, op: Operation, next: Option<Tables>) {
    match op
    case Upsert(plans) => PlansStored(t, next, plans)
    case Claim(w, r, now, chosen) => NamedPartsClaimed(t, next, w, r, now, chosen)
    case RecordAttempt(token, number, attempt, at) => AttemptRecorded(t, next, token, number, attempt, at)
    case Resume(token, number) => ClaimResumed(t, next, token, number)
    case FailExhausted(token) => ExhaustedFailed(t, next, token)
    case Pause(token, pausedAt) => ClaimPaused(t, next, token, pausedAt)
    case Reuse(token, key) => EvidenceReused(setup, t, next, token, key)
    case Publish(token, unit, key) => EvidencePublished(setup, t, next, token, unit, key)
    case SaveSnapshot(snapshot) => SnapshotSaved(t, next, snapshot)
    case DeleteSnapshot(id) => next.Some? && SnapshotGone(t, next.value, id)
    case InvalidateEntry(w, r, e) => next.Some? && EntryInvalidated(t, next.value, w, r, e)
    case DeleteInvalidated(w, r, e) => EntryDropped(t, next, w, r, e)
    case RetryFailed(w, r) => next.Some? && FailedRetried(t, next.value, w, r)
    case Recover(now) => next.Some? && RunningRecovered(t, next.value, now)
    case DeleteWorkspace(w) => next.Some? && WorkspaceGone(t, next.value, w)
  }

  lemma ClaimFollows(t: Tables, w: string, r: string, now: int, chosen: set<string>)
    ensures NamedPartsClaimed(t, OnClaim(t, w, r, now, chosen), w, r, now, chosen)
  {}

  lemma RecordFollows(t: Tables, token: Token, number: nat, attempt: Attempt, at: Option<int>)
    ensures AttemptRecorded(t, OnRecordAttempt(t, token, number, attempt, at), token, number, attempt, at)
  {}

  lemma ResumeFollows(t: Tables, token: Token, number: nat)
    ensures ClaimResumed(t, OnResume(t, token, number), token, number)
  {}

  lemma FailFollows(t: Tables, token: Token)
    ensures ExhaustedFailed(t, OnFailExhausted(t, token), token)
  {}

  lemma PauseFollows(t: Tables, token: Token, pausedAt: int)
    ensures ClaimPaused(t, OnPause(t, token, pausedAt), token, pausedAt)
  {}

  lemma CitesWithinIsInside(contains: Containment, plan: Plan, unit: Unit)
    ensures CitationsInside(contains, plan, unit.citations) <==> CitesWithin(contains, plan, unit)
  {}

  lemma ReuseFollows(setup: Setup, t: Tables, token: Token, key: string)
    ensures EvidenceReused(setup, t, OnReuse(t, setup.contains, setup.naming, token, key), token, key)
  {
    var id := token.partId;
    if BelongsToday(t, id) && RunsUnder(t, token) && CachedUnit(t, key).Some? {
      CitesWithinIsInside(setup.contains, t.parts[id].plan, CachedUnit(t, key).value);
      var unit := Readdressed(setup.naming, CachedUnit(t, key).value, id, key);
      assert SameUnderNewNames(setup.naming, CachedUnit(t, key).value, unit, id, key);
    }
    hide CitationsInside, CitesWithin, SameUnderNewNames, Readdressed;
  }

  lemma PublishFollows(setup: Setup, t: Tables, token: Token, unit: Unit, key: string)
    ensures EvidencePublished(setup, t, OnPublish(t, setup.contains, token, unit, key), token, unit, key)
  {
    assert Addressed(unit, token.partId) <==> NamesItsPart(unit, token.partId);
    if token.partId in t.parts {
      CitesWithinIsInside(setup.contains, t.parts[token.partId].plan, unit);
    }
    hide CitationsInside, CitesWithin, Addressed, NamesItsPart;
  }

  lemma DependencyFitsIsLast(t: Tables, w: string, r: string, u: string)
    ensures DependencyFits(t, w, r, u) <==> LastOfProcessed(t, w, r, u)
  {}

  lemma SnapshotUnitsFollow(snapshot: Snapshot)
    ensures Ids(snapshot.unitIds) == snapshot.nodeUnitIds + snapshot.groupUnitIds <==>
              forall u :: u in snapshot.unitIds <==> u in snapshot.nodeUnitIds || u in snapshot.groupUnitIds
  {
    if forall u :: u in snapshot.unitIds <==> u in snapshot.nodeUnitIds || u in snapshot.groupUnitIds {
      assert Ids(snapshot.unitIds) == snapshot.nodeUnitIds + snapshot.groupUnitIds;
    } else {
      var u :| !(u in snapshot.unitIds <==> u in snapshot.nodeUnitIds || u in snapshot.groupUnitIds);
      assert !(u in Ids(snapshot.unitIds) <==> u in snapshot.nodeUnitIds + snapshot.groupUnitIds);
    }
  }

  lemma SaveFollows(t: Tables, snapshot: Snapshot)
    ensures SnapshotSaved(t, OnSaveSnapshot(t, snapshot), snapshot)
  {
    SnapshotUnitsFollow(snapshot);
    forall u
      ensures DependencyFits(t, snapshot.workspaceId, snapshot.revisionId, u) <==>
                LastOfProcessed(t, snapshot.workspaceId, snapshot.revisionId, u)
    {
      DependencyFitsIsLast(t, snapshot.workspaceId, snapshot.revisionId, u);
    }
    hide DependencyFits, LastOfProcessed, Ids;
  }

  lemma UpsertOneFollows(t: Tables, plan: Plan)
    ensures PlanStored(t, UpsertOne(t, plan), plan)
  {}

  lemma UnitsOfAreGone(t: Tables, parts: set<string>, snapshots: set<string>)
    ensures UnitsGo(t, DeleteUnits(DeleteSnapshots(t, snapshots), UnitsOf(t.units, parts)), parts, snapshots)
  {}

  lemma UsingIsUse(t: Tables, w: string, r: string, parts: set<string>)
    ensures SnapshotsUsing(t, w, r, UnitsOf(t.units, parts)) == set s | s in t.snapshots && UsesPart(t, s, w, r, parts)
  {}

  lemma InvalidateFollows(t: Tables, w: string, r: string, e: string)
    ensures EntryInvalidated(t, OnInvalidateEntry(t, w, r, e), w, r, e)
  {
    var parts := EntryParts(t, w, r, e);
    UsingIsUse(t, w, r, parts);
    UnitsOfAreGone(t, parts, SnapshotsUsing(t, w, r, UnitsOf(t.units, parts)));
    hide UsesPart, SnapshotsUsing, UnitsOf;
  }

  lemma PartsGoWhenDeleted(t: Tables, parts: set<string>)
    ensures PartsGo(t, DeleteParts(t, parts), parts)
    ensures DeleteParts(t, parts).revocations == t.revocations && DeleteParts(t, parts).current == t.current
  {}

  lemma DropFollows(t: Tables, w: string, r: string, e: string)
    ensures EntryDropped(t, OnDeleteInvalidated(t, w, r, e), w, r, e)
  {
    PartsGoWhenDeleted(t, EntryParts(t, w, r, e));
    hide PartsGo, DeleteParts;
  }

  lemma RetryFollows(t: Tables, w: string, r: string)
    ensures FailedRetried(t, OnRetryFailed(t, w, r), w, r)
  {
    if Current(t, w, r) {
      var dropped := set p | p in FailedParts(t, w, r) && t.parts[p].attemptCount == 0;
      PartsGoWhenDeleted(t, dropped);
      var rest := DeleteParts(t, dropped);
      assert RowsBecome(rest.parts, Requeue(rest, FailedParts(t, w, r)).parts, FailedParts(t, w, r), Prepared, None);
    }
    hide PartsGo, DeleteParts, RowsBecome, Requeue;
  }

  lemma RecoverFollows(t: Tables, now: int)
    ensures RunningRecovered(t, OnRecover(t, now), now)
  {}

  lemma ForgetFollows(t: Tables, w: string)
    ensures WorkspaceGone(t, OnDeleteWorkspace(t, w), w)
  {}

  // The batch of plans, refused or stored plan by plan.

  lemma {:induction false} RevisionsFollow(plans: seq<Plan>)
    ensures Revisions(plans) == None <==>
              || (exists plan | plan in plans :: plan.state == Running)
              || exists a, b | a in plans && b in plans ::
                   a.workspaceId == b.workspaceId && a.revisionId != b.revisionId
    ensures Revisions(plans).Some? ==> RevisionsCurrent(map[], Revisions(plans).value, plans)
  {
    if plans != [] {
      var front, plan := plans[..|plans| - 1], plans[|plans| - 1];
      RevisionsFollow(front);
      assert plans == front + [plan];
    }
  }

  lemma {:induction false} StoredOneByOne(t: Tables, plans: seq<Plan>) returns (states: seq<Tables>)
    ensures |states| == |plans| + 1 && states[0] == t && states[|plans|] == UpsertAll(t, plans)
    ensures forall i | 0 <= i < |plans| :: PlanStored(states[i], states[i + 1], plans[i])
  {
    states := [t];
    for n := 0 to |plans|
      invariant |states| == n + 1 && states[0] == t && states[n] == UpsertAll(t, plans[..n])
      invariant forall i | 0 <= i < n :: PlanStored(states[i], states[i + 1], plans[i])
    {
      assert plans[..n + 1][..n] == plans[..n];
      UpsertOneFollows(states[n], plans[n]);
      states := states + [UpsertOne(states[n], plans[n])];
    }
    assert plans[..|plans|] == plans;
    hide PlanStored, UpsertOne;
  }

  lemma RevisionsBecomeCurrent(was: map<string, string>, plans: seq<Plan>)
    ensures Revisions(plans).Some? ==> RevisionsCurrent(was, was + Revisions(plans).value, plans)
  {
    hide Revisions;
    RevisionsFollow(plans);
  }

  lemma UpsertFollows(t: Tables, plans: seq<Plan>)
    ensures PlansStored(t, OnUpsert(t, plans), plans)
  {
    hide PlanStored, UpsertAll, Revisions, RevisionsCurrent;

    RevisionsFollow(plans);
    RevisionsBecomeCurrent(t.current, plans);
    if Revisions(plans).Some? {
      var first := t.(current := t.current + Revisions(plans).value);
      var states := StoredOneByOne(first, plans);
    }
  }

  /** Every transaction is refused, or changes the tables, exactly as its rule says. */
  lemma TransactionFollowsRule(setup: Setup, t: Tables, op: Operation)
    ensures Follows(setup, t, op, Attempted(setup, t, op))
  {
    hide PlansStored, NamedPartsClaimed, AttemptRecorded, ClaimResumed, ExhaustedFailed, ClaimPaused, EvidenceReused,
         EvidencePublished, SnapshotSaved, EntryInvalidated, EntryDropped, FailedRetried, RunningRecovered,
         WorkspaceGone;
    hide OnUpsert, OnClaim, OnRecordAttempt, OnResume, OnFailExhausted, OnPause, OnReuse, OnPublish, OnSaveSnapshot,
         OnInvalidateEntry, OnDeleteInvalidated, OnRetryFailed, OnRecover, OnDeleteWorkspace;
    match op
    case Upsert(plans) => UpsertFollows(t, plans);
    case Claim(w, r, now, chosen) => ClaimFollows(t, w, r, now, chosen);
    case RecordAttempt(token, number, attempt, at) => RecordFollows(t, token, number, attempt, at);
    case Resume(token, number) => ResumeFollows(t, token, number);
    case FailExhausted(token) => FailFollows(t, token);
    case Pause(token, pausedAt) => PauseFollows(t, token, pausedAt);
    case Reuse(token, key) => ReuseFollows(setup, t, token, key);
    case Publish(token, unit, key) => PublishFollows(setup, t, token, unit, key);
    case SaveSnapshot(snapshot) => SaveFollows(t, snapshot);
    case DeleteSnapshot(id) =>
    case InvalidateEntry(w, r, e) => InvalidateFollows(t, w, r, e);
    case DeleteInvalidated(w, r, e) => DropFollows(t, w, r, e);
    case RetryFailed(w, r) => RetryFollows(t, w, r);
    case Recover(now) => RecoverFollows(t, now);
    case DeleteWorkspace(w) => ForgetFollows(t, w);
  }
}
