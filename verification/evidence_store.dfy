/** The evidence store: each method is one transaction that commits its table changes together or raises. */
module EvidenceStore {
  import opened Outcomes
  import opened EvidenceTables
  import opened EvidenceInvariant
  import opened EvidenceFacts
  import opened EvidenceRules

  // ---------------------------------------------------------------- the order claims are made in

  function Codes(text: string): (codes: seq<int>)
    ensures |codes| == |text| && forall i | 0 <= i < |text| :: codes[i] == text[i] as int
  {
    seq(|text|, i requires 0 <= i < |text| => text[i] as int)
  }

  /** Priority, then rank, then ordinal, then the part's id, as one key. */
  function ClaimKey(plan: Plan): seq<int> {
    [plan.priority, plan.schedulingRank, plan.ordinal] + Codes(plan.partId)
  }

  predicate Precedes(a: seq<int>, b: seq<int>) {
    b != [] && (a == [] || a[0] < b[0] || (a[0] == b[0] && Precedes(a[1..], b[1..])))
  }

  lemma {:induction false} PrecedesIsTotal(a: seq<int>, b: seq<int>)
    ensures Precedes(a, b) || Precedes(b, a) || a == b
    decreases |a|
  {
    if a != [] && b != [] && a[0] == b[0] {
      PrecedesIsTotal(a[1..], b[1..]);
      assert a == [a[0]] + a[1..] && b == [b[0]] + b[1..];
    }
  }

  lemma {:induction false} PrecedesChains(a: seq<int>, b: seq<int>, c: seq<int>)
    requires Precedes(a, b) && Precedes(b, c)
    ensures Precedes(a, c)
    decreases |a|
  {
    if a != [] && a[0] == b[0] == c[0] {
      PrecedesChains(a[1..], b[1..], c[1..]);
    }
  }

  lemma ClaimKeyNamesPart(a: Plan, b: Plan)
    requires ClaimKey(a) == ClaimKey(b)
    ensures a.partId == b.partId
  {
    assert ClaimKey(a)[3..] == Codes(a.partId) && ClaimKey(b)[3..] == Codes(b.partId);
    forall i | 0 <= i < |a.partId|
      ensures a.partId[i] == b.partId[i]
    {
      assert Codes(a.partId)[i] == Codes(b.partId)[i];
    }
  }

  predicate Before(parts: map<string, PartRow>, a: string, b: string) {
    a in parts && b in parts && Precedes(ClaimKey(parts[a].plan), ClaimKey(parts[b].plan))
  }

  lemma BeforeIsTotal(parts: map<string, PartRow>, a: string, b: string)
    requires PartsFiled(parts) && a in parts && b in parts && a != b
    ensures Before(parts, a, b) || Before(parts, b, a)
  {
    hide ClaimKey, Precedes;
    PrecedesIsTotal(ClaimKey(parts[a].plan), ClaimKey(parts[b].plan));
    if ClaimKey(parts[a].plan) == ClaimKey(parts[b].plan) {
      ClaimKeyNamesPart(parts[a].plan, parts[b].plan);
    }
  }

  lemma BeforeChains(parts: map<string, PartRow>, a: string, b: string, c: string)
    requires Before(parts, a, b) && Before(parts, b, c)
    ensures Before(parts, a, c)
  {
    hide ClaimKey, Precedes;
    PrecedesChains(ClaimKey(parts[a].plan), ClaimKey(parts[b].plan), ClaimKey(parts[c].plan));
  }

  /** The sequence takes the first of the eligible parts, in order. */
  ghost predicate TakesFirst(parts: map<string, PartRow>, eligible: set<string>, taken: seq<string>) {
    && (forall i | 0 <= i < |taken| :: taken[i] in eligible)
    && (forall i, j | 0 <= i < j < |taken| :: Before(parts, taken[i], taken[j]))
    && forall i, p | 0 <= i < |taken| && p in eligible && p !in taken :: Before(parts, taken[i], p)
  }

  /** What the keys compare is the plans' priorities, ranks, ordinals and ids, in this order. */
  lemma KeysCompareInTurn(a: Plan, b: Plan)
    requires Precedes(ClaimKey(a), ClaimKey(b))
    ensures ComesFirst(a, b)
  {
    var x, y := ClaimKey(a), ClaimKey(b);
    assert x[1..] == [x[1], x[2]] + Codes(a.partId) && y[1..] == [y[1], y[2]] + Codes(b.partId);
    assert x[1..][1..] == [x[2]] + Codes(a.partId) && y[1..][1..] == [y[2]] + Codes(b.partId);
    assert x[1..][1..][1..] == Codes(a.partId) && y[1..][1..][1..] == Codes(b.partId);
    if x[0] == y[0] {
      assert Precedes(x[1..], y[1..]);
      if x[1] == y[1] {
        assert Precedes(x[1..][1..], y[1..][1..]);
        if x[2] == y[2] {
          CodesCompareAsText(a.partId, b.partId);
        }
      }
    }
    hide TextBefore;
  }

  lemma {:induction false} CodesCompareAsText(a: string, b: string)
    requires Precedes(Codes(a), Codes(b))
    ensures TextBefore(a, b)
    decreases |a|
  {
    if a == [] || a[0] < b[0] {
      assert a[..0] == b[..0];
    } else {
      assert Codes(a)[1..] == Codes(a[1..]) && Codes(b)[1..] == Codes(b[1..]);
      CodesCompareAsText(a[1..], b[1..]);
      TextBeforeGrows(a[0], a[1..], b[1..]);
      assert a == [a[0]] + a[1..] && b == [a[0]] + b[1..];
    }
  }

  lemma TextBeforeGrows(first: char, a: string, b: string)
    requires TextBefore(a, b)
    ensures TextBefore([first] + a, [first] + b)
  {
    var n :| 0 <= n <= |a| && n < |b| && a[..n] == b[..n] && (n == |a| || a[n] < b[n]);
    assert ([first] + a)[..n + 1] == [first] + a[..n] && ([first] + b)[..n + 1] == [first] + b[..n];
  }

  function EligibleParts(t: Tables, workspaceId: string, revisionId: string, now: int): set<string> {
    set p | p in t.parts && Eligible(t, workspaceId, revisionId, now, p)
  }

  function TokensIn(parts: map<string, PartRow>, taken: seq<string>): (tokens: seq<Token>)
    requires forall p | p in taken :: p in parts
    ensures |tokens| == |taken|
    ensures forall i | 0 <= i < |taken| ::
              tokens[i] == Token(taken[i], parts[taken[i]].planGeneration, parts[taken[i]].claimGeneration)
  {
    seq(|taken|, i requires 0 <= i < |taken| =>
      Token(taken[i], parts[taken[i]].planGeneration, parts[taken[i]].claimGeneration))
  }

  lemma AllEligible(setup: Setup, t: Tables, workspaceId: string, revisionId: string, now: int, taken: seq<string>)
    requires Current(t, workspaceId, revisionId)
    requires forall i | 0 <= i < |taken| :: taken[i] in EligibleParts(t, workspaceId, revisionId, now)
    ensures Step(setup, t, Claim(workspaceId, revisionId, now, Ids(taken))) == ClaimAll(t, Ids(taken))
    ensures forall p | p in taken ::
              p in ClaimAll(t, Ids(taken)).parts && ClaimAll(t, Ids(taken)).parts[p].state == Running
  {}

  lemma EligibleWait(t: Tables, workspaceId: string, revisionId: string, now: int, p: string)
    requires Current(t, workspaceId, revisionId)
    ensures p in EligibleParts(t, workspaceId, revisionId, now) <==>
              && p in t.parts && t.parts[p].plan.workspaceId == workspaceId
              && t.parts[p].plan.revisionId == revisionId && WaitsUntil(t.parts[p], now)
  {}

  lemma BeforeComesFirst(parts: map<string, PartRow>, a: string, b: string)
    requires Before(parts, a, b)
    ensures a in parts && b in parts && ComesFirst(parts[a].plan, parts[b].plan)
  {
    hide ClaimKey, Precedes, ComesFirst;
    KeysCompareInTurn(parts[a].plan, parts[b].plan);
  }

  lemma ClaimedStart(t: Tables, taken: seq<string>)
    ensures ChosenStart(t, ClaimAll(t, Ids(taken)), set p | p in taken)
  {
    assert (set p | p in taken) == Ids(taken);
  }

  lemma TakingFirstIsClaiming(t: Tables, workspaceId: string, revisionId: string, limit: nat, now: int,
                              taken: seq<string>)
    requires Current(t, workspaceId, revisionId)
    requires TakesFirst(t.parts, EligibleParts(t, workspaceId, revisionId, now), taken)
    requires |taken| == limit
             || (|taken| < limit && Ids(taken) == EligibleParts(t, workspaceId, revisionId, now))
    ensures PartsClaimed(t, ClaimAll(t, Ids(taken)), workspaceId, revisionId, limit, now, taken)
  {
    hide Before, ComesFirst, WaitsUntil, ClaimAll, ChosenStart, EligibleParts;
    ClaimedStart(t, taken);
    forall a, b | Before(t.parts, a, b)
      ensures a in t.parts && b in t.parts && ComesFirst(t.parts[a].plan, t.parts[b].plan)
    {
      BeforeComesFirst(t.parts, a, b);
    }
    forall p
      ensures p in EligibleParts(t, workspaceId, revisionId, now) <==>
                && p in t.parts && t.parts[p].plan.workspaceId == workspaceId
                && t.parts[p].plan.revisionId == revisionId && WaitsUntil(t.parts[p], now)
    {
      EligibleWait(t, workspaceId, revisionId, now, p);
    }
    assert |taken| < limit ==> forall p | p in EligibleParts(t, workspaceId, revisionId, now) :: p in Ids(taken);
  }

  lemma NothingIsClaimed(t: Tables, workspaceId: string, revisionId: string, limit: nat, now: int)
    requires !Current(t, workspaceId, revisionId)
    ensures PartsClaimed(t, t, workspaceId, revisionId, limit, now, [])
  {}

  class Store {
    const setup: Setup
    var tables: Tables

    constructor (setup: Setup)
      ensures this.setup == setup && tables == NoTables()
    {
      this.setup, tables := setup, NoTables();
    }

    /** Stores plans one after the other; the first refused plan undoes them all. */
    method UpsertPartPlans(plans: seq<Plan>) returns (raised: bool)
      modifies this
      ensures raised <==> Attempted(setup, old(tables), Upsert(plans)).None?
      ensures tables == Step(setup, old(tables), Upsert(plans))
      ensures PlansStored(old(tables), if raised then None else Some(tables), plans)
    {
      hide UpsertOne, PlansStored;
      UpsertFollows(tables, plans);
      var revisions: map<string, string> := map[];
      for i := 0 to |plans|
        invariant Revisions(plans[..i]) == Some(revisions)
      {
        assert plans[..i + 1][..i] == plans[..i];
        var plan := plans[i];
        if plan.state == Running || (plan.workspaceId in revisions && revisions[plan.workspaceId] != plan.revisionId) {
          RefusedPlans(plans, i + 1);
          return true;
        }
        revisions := revisions[plan.workspaceId := plan.revisionId];
      }
      assert plans[..|plans|] == plans;
      var work := tables.(current := tables.current + revisions);
      ghost var start := work;
      for i := 0 to |plans|
        invariant work == UpsertAll(start, plans[..i])
      {
        assert plans[..i + 1][..i] == plans[..i];
        work := UpsertOne(work, plans[i]);
      }
      tables := work;
      raised := false;
    }

    static lemma {:induction false} RefusedPlans(plans: seq<Plan>, n: nat)
      requires n <= |plans| && Revisions(plans[..n]).None?
      ensures Revisions(plans).None?
      decreases |plans| - n
    {
      if n < |plans| {
        assert plans[..n + 1][..n] == plans[..n];
        RefusedPlans(plans, n + 1);
      } else {
        assert plans[..n] == plans;
      }
    }

    /** The part that comes first among those left. */
    static method First(parts: map<string, PartRow>, left: set<string>) returns (first: string)
      requires PartsFiled(parts) && left != {} && left <= parts.Keys
      ensures first in left && forall p | p in left && p != first :: Before(parts, first, p)
    {
      hide Before, PartsFiled;
      first :| first in left;
      var rest := left - {first};
      while rest != {}
        invariant rest <= left && first in left && first !in rest
        invariant forall p | p in left - rest && p != first :: Before(parts, first, p)
        decreases |rest|
      {
        var next :| next in rest;
        BeforeIsTotal(parts, first, next);
        if Before(parts, next, first) {
          forall p | p in left - rest && p != first
            ensures Before(parts, next, p)
          {
            BeforeChains(parts, next, first, p);
          }
          first := next;
        }
        rest := rest - {next};
      }
    }

    /** The first claimable parts of the revision, at most `limit` of them. */
    static method SelectParts(t: Tables, workspaceId: string, revisionId: string, limit: nat, now: int)
      returns (taken: seq<string>)
      requires PartsFiled(t.parts)
      ensures TakesFirst(t.parts, EligibleParts(t, workspaceId, revisionId, now), taken)
      ensures |taken| == limit || (|taken| < limit && Ids(taken) == EligibleParts(t, workspaceId, revisionId, now))
    {
      hide Eligible, Before, PartsFiled;
      var eligible := EligibleParts(t, workspaceId, revisionId, now);
      var left := eligible;
      taken := [];
      while left != {} && |taken| < limit
        invariant |taken| <= limit && left <= eligible
        invariant forall p | p in eligible :: p in left <==> p !in taken
        invariant TakesFirst(t.parts, eligible, taken)
        decreases |left|
      {
        var first := First(t.parts, left);
        left, taken := left - {first}, taken + [first];
      }
    }

    /** Claims up to `limit` of the revision's claimable parts, in the order of their keys, each under a new token. */
    method ClaimParts(workspaceId: string, revisionId: string, limit: nat, now: int)
      returns (taken: seq<string>, claims: seq<Token>)
      requires Inv(tables)
      modifies this
      ensures tables == Step(setup, old(tables), Claim(workspaceId, revisionId, now, Ids(taken)))
      ensures |claims| == |taken|
      ensures forall i | 0 <= i < |taken| :: claims[i].partId == taken[i] && Held(tables, claims[i])
      ensures if Current(old(tables), workspaceId, revisionId)
              then
                var eligible := EligibleParts(old(tables), workspaceId, revisionId, now);
                TakesFirst(old(tables).parts, eligible, taken)
                && (|taken| == limit || (|taken| < limit && Ids(taken) == eligible))
              else taken == []
      ensures PartsClaimed(old(tables), tables, workspaceId, revisionId, limit, now, taken)
    {
      hide Eligible, Before, InvBut, PartsClaimed;
      InvParts(tables);
      taken, claims := [], [];
      if !Current(tables, workspaceId, revisionId) {
        NothingIsClaimed(tables, workspaceId, revisionId, limit, now);
        return;
      }
      taken := SelectParts(tables, workspaceId, revisionId, limit, now);
      AllEligible(setup, tables, workspaceId, revisionId, now, taken);
      TakingFirstIsClaiming(tables, workspaceId, revisionId, limit, now, taken);
      tables := ClaimAll(tables, Ids(taken));
      claims := TokensIn(tables.parts, taken);
    }

    /** Records an attempt under the running claim; the number must not have been used. */
    method RecordAttempt(token: Token, number: nat, attempt: Attempt, nextAttemptAt: Option<int>) returns (raised: bool)
      modifies this
      ensures raised <==> Attempted(setup, old(tables),
                                    EvidenceTables.RecordAttempt(token, number, attempt, nextAttemptAt)).None?
      ensures tables == Step(setup, old(tables), EvidenceTables.RecordAttempt(token, number, attempt, nextAttemptAt))
      ensures AttemptRecorded(old(tables), if raised then None else Some(tables), token, number, attempt, nextAttemptAt)
    {
      hide AttemptRecorded;
      RecordFollows(tables, token, number, attempt, nextAttemptAt);
      if number < 1 || attempt.outcome == Running { return true; }
      if attempt.outcome == RetryWait && nextAttemptAt.None? { return true; }
      var id := token.partId;
      if id !in tables.parts || !PartIsCurrent(tables, id) || !Held(tables, token) { return true; }
      if (id, number) in tables.attempts { return true; }
      var row := tables.parts[id];
      tables := tables.(attempts := tables.attempts[(id, number) := attempt]);
      row := row.(state := attempt.outcome, attemptCount := Max(row.attemptCount, number),
                  nextAttemptAt := nextAttemptAt);
      tables := tables.(parts := tables.parts[id := row]);
      raised := false;
    }

    /** Takes a waiting claim up again under a new token. */
    method ResumeClaim(token: Token, number: nat) returns (resumed: Option<Token>)
      requires PartsFiled(tables.parts)
      modifies this
      ensures resumed.None? <==> Attempted(setup, old(tables), Resume(token, number)).None?
      ensures tables == Step(setup, old(tables), Resume(token, number))
      ensures ClaimResumed(old(tables), if resumed.None? then None else Some(tables), token, number)
      ensures resumed.Some? ==> Held(tables, resumed.value) && resumed.value.partId == token.partId
    {
      hide ClaimResumed;
      ResumeFollows(tables, token, number);
      var id := token.partId;
      if number < 1 || id !in tables.parts || !PartIsCurrent(tables, id) { return None; }
      if tables.parts[id].state != RetryWait || !Matches(tables, token) { return None; }
      var row := tables.parts[id];
      row := row.(state := Running, attemptCount := Max(row.attemptCount, number), nextAttemptAt := None,
                  claimGeneration := row.claimGeneration + 1);
      tables := tables.(parts := tables.parts[id := row]);
      resumed := Some(TokenOf(row));
    }

    method FailExhaustedClaim(token: Token) returns (raised: bool)
      modifies this
      ensures raised <==> Attempted(setup, old(tables), FailExhausted(token)).None?
      ensures tables == Step(setup, old(tables), FailExhausted(token))
      ensures ExhaustedFailed(old(tables), if raised then None else Some(tables), token)
    {
      hide ExhaustedFailed;
      FailFollows(tables, token);
      var id := token.partId;
      if id !in tables.parts || !PartIsCurrent(tables, id) || !Held(tables, token) { return true; }
      tables := tables.(parts := tables.parts[id := tables.parts[id].(state := Failed, nextAttemptAt := None)]);
      raised := false;
    }

    method PauseClaim(token: Token, pausedAt: int) returns (raised: bool)
      modifies this
      ensures raised <==> Attempted(setup, old(tables), Pause(token, pausedAt)).None?
      ensures tables == Step(setup, old(tables), Pause(token, pausedAt))
      ensures ClaimPaused(old(tables), if raised then None else Some(tables), token, pausedAt)
    {
      hide ClaimPaused;
      PauseFollows(tables, token, pausedAt);
      var id := token.partId;
      if id !in tables.parts || !Held(tables, token) { return true; }
      var row := tables.parts[id].(state := RetryWait, nextAttemptAt := Some(pausedAt));
      tables := tables.(parts := tables.parts[id := row]);
      raised := false;
    }

    /** Finishes the part with the evidence its cache key is bound to, if that evidence fits the part. */
    method ReuseCachedEvidence(token: Token, cacheKey: string) returns (raised: bool, reused: Option<Unit>)
      modifies this
      ensures raised <==> Attempted(setup, old(tables), Reuse(token, cacheKey)).None?
      ensures tables == Step(setup, old(tables), Reuse(token, cacheKey))
      ensures EvidenceReused(setup, old(tables), if raised then None else Some(tables), token, cacheKey)
      ensures reused.Some? ==>
                !raised && reused.value.unitId in tables.units && tables.units[reused.value.unitId].unit == reused.value
      ensures !raised && reused.None? ==> tables == old(tables)
    {
      hide CitationsInside, Readdressed, EvidenceReused;
      ReuseFollows(setup, tables, token, cacheKey);
      raised, reused := true, None;
      var id := token.partId;
      if id !in tables.parts || !PartIsCurrent(tables, id) || !Held(tables, token) { return; }
      if !CacheFits(tables, setup.contains, id, cacheKey) { return false, None; }
      var unit := Readdressed(setup.naming, CachedUnit(tables, cacheKey).value, id, cacheKey);
      if unit.unitId in tables.units { return; }
      tables := AddUnit(tables, id, unit);
      tables := Finish(tables, id);
      return false, Some(unit);
    }

    /** Publishes evidence under the running claim; the same publication again changes nothing and returns false. */
    method PublishEvidence(token: Token, unit: Unit, cacheKey: string) returns (raised: bool, published: bool)
      modifies this
      ensures raised <==> Attempted(setup, old(tables), Publish(token, unit, cacheKey)).None?
      ensures tables == Step(setup, old(tables), Publish(token, unit, cacheKey))
      ensures EvidencePublished(setup, old(tables), if raised then None else Some(tables), token, unit, cacheKey)
      ensures !raised && !published ==> tables == old(tables)
      ensures published ==> !raised && cacheKey in tables.cache && tables.cache[cacheKey].unit == unit
    {
      hide CitationsInside, Addressed, Readdressed, EvidencePublished;
      PublishFollows(setup, tables, token, unit, cacheKey);
      raised, published := true, false;
      var id := token.partId;
      if !Addressed(unit, id) || id !in tables.parts || !PartIsCurrent(tables, id) || !Matches(tables, token) {
        return;
      }
      if !CitationsInside(setup.contains, tables.parts[id].plan, unit.citations) { return; }
      if tables.parts[id].state == Processed {
        return !AlreadyPublished(tables, id, unit, cacheKey), false;
      }
      if tables.parts[id].state != Running || CachedUnit(tables, cacheKey).Some? || cacheKey in tables.cache { return; }
      var row := tables.parts[id];
      var bound := CacheRow(unit.unitId, unit, row.plan.sourceSha256, row.planGeneration, row.claimGeneration);
      if unit.unitId !in tables.units {
        tables := AddUnit(tables, id, unit);
      } else if tables.units[unit.unitId].partId != id || tables.units[unit.unitId].unit != unit {
        return;
      }
      tables := tables.(cache := tables.cache[cacheKey := bound]);
      tables := Finish(tables, id);
      return false, true;
    }

    /** Stores a snapshot and its dependencies; the same one again, at whatever time, changes nothing. */
    method SaveSnapshot(snapshot: Snapshot) returns (raised: bool, saved: bool)
      modifies this
      ensures raised <==> Attempted(setup, old(tables), EvidenceTables.SaveSnapshot(snapshot)).None?
      ensures tables == Step(setup, old(tables), EvidenceTables.SaveSnapshot(snapshot))
      ensures SnapshotSaved(old(tables), if raised then None else Some(tables), snapshot)
      ensures saved <==> snapshot.snapshotId !in old(tables).snapshots && snapshot.snapshotId in tables.snapshots
    {
      hide DependenciesFit, SnapshotSaved;
      SaveFollows(tables, snapshot);
      raised, saved := true, false;
      if Ids(snapshot.unitIds) != snapshot.nodeUnitIds + snapshot.groupUnitIds { return; }
      if !Current(tables, snapshot.workspaceId, snapshot.revisionId) || !DependenciesFit(tables, snapshot) { return; }
      var id := snapshot.snapshotId;
      if id in tables.snapshots {
        return tables.snapshots[id].(createdAt := snapshot.createdAt) != snapshot, false;
      }
      var dependencies := tables.dependencies;
      for i := 0 to |snapshot.unitIds|
        invariant dependencies == tables.dependencies + set u | u in snapshot.unitIds[..i] :: (id, u)
      {
        assert snapshot.unitIds[..i + 1] == snapshot.unitIds[..i] + [snapshot.unitIds[i]];
        dependencies := dependencies + {(id, snapshot.unitIds[i])};
      }
      assert snapshot.unitIds[..|snapshot.unitIds|] == snapshot.unitIds;
      tables := tables.(snapshots := tables.snapshots[id := snapshot], dependencies := dependencies);
      return false, true;
    }

    /** Withdraws an entry's evidence; the snapshots that used it are deleted and recorded as revoked. */
    method InvalidateEntry(workspaceId: string, revisionId: string, entryId: string)
      returns (parts: set<string>, revoked: set<string>)
      modifies this
      ensures tables == Step(setup, old(tables), EvidenceTables.InvalidateEntry(workspaceId, revisionId, entryId))
      ensures EntryInvalidated(old(tables), tables, workspaceId, revisionId, entryId)
      ensures parts == EntryParts(old(tables), workspaceId, revisionId, entryId)
      ensures revoked == SnapshotsUsing(old(tables), workspaceId, revisionId, UnitsOf(old(tables).units, parts))
      ensures forall s | s in revoked :: s in old(tables).snapshots && s !in tables.snapshots && s in tables.revocations
    {
      hide EntryParts, UnitsOf, SnapshotsUsing, EntryInvalidated;
      InvalidateFollows(tables, workspaceId, revisionId, entryId);
      parts := EntryParts(tables, workspaceId, revisionId, entryId);
      var units := UnitsOf(tables.units, parts);
      revoked := SnapshotsUsing(tables, workspaceId, revisionId, units);
      UsedAreStored(tables, workspaceId, revisionId, units);
      InvalidationLeaves(tables, workspaceId, revoked, units, parts);
      hide Revoke, DeleteSnapshots, DeleteUnits, MarkInvalidated;
      tables := Revoke(tables, workspaceId, revoked);
      tables := DeleteSnapshots(tables, revoked);
      tables := DeleteUnits(tables, units);
      tables := MarkInvalidated(tables, parts);
    }

    static lemma InvalidationLeaves(t: Tables, workspaceId: string, stale: set<string>, units: set<string>,
                                    parts: set<string>)
      ensures var rest := DeleteUnits(DeleteSnapshots(Revoke(t, workspaceId, stale), stale), units);
              var next := MarkInvalidated(rest, parts);
              forall s | s in stale :: s !in next.snapshots && s in next.revocations
    {}

    static lemma UsedAreStored(t: Tables, workspaceId: string, revisionId: string, units: set<string>)
      ensures forall s | s in SnapshotsUsing(t, workspaceId, revisionId, units) :: s in t.snapshots
    {}

    /** The other transactions: one statement each on the tables. */
    method Transact(op: Operation) returns (raised: bool)
      modifies this
      ensures raised <==> Attempted(setup, old(tables), op).None?
      ensures tables == Step(setup, old(tables), op)
      ensures Follows(setup, old(tables), op, if raised then None else Some(tables))
    {
      hide Follows;
      TransactionFollowsRule(setup, tables, op);
      var next := Attempted(setup, tables, op);
      raised := next.None?;
      if next.Some? { tables := next.value; }
    }

    /** The revision's latest snapshot with its units; its check of the dependencies never fails. */
    method CurrentSnapshotContext(workspaceId: string, revisionId: string) returns (snapshot: Option<Snapshot>)
      requires Inv(tables)
      ensures !Current(tables, workspaceId, revisionId) ==> snapshot.None?
      ensures var candidates := set s | s in tables.snapshots && tables.snapshots[s].workspaceId == workspaceId
                                        && tables.snapshots[s].revisionId == revisionId;
              Current(tables, workspaceId, revisionId) ==>
                && (snapshot.None? <==> candidates == {})
                && (snapshot.Some? ==>
                      && snapshot.value.snapshotId in candidates && DependenciesFit(tables, snapshot.value)
                      && tables.snapshots[snapshot.value.snapshotId] == snapshot.value
                      && forall s | s in candidates :: tables.snapshots[s].createdAt <= snapshot.value.createdAt)
    {
      hide InvBut, DependenciesFit, DependencyFits, Current, LatestOf;
      if !Current(tables, workspaceId, revisionId) { return None; }
      var left := set s | s in tables.snapshots && tables.snapshots[s].workspaceId == workspaceId
                          && tables.snapshots[s].revisionId == revisionId;
      ghost var candidates, seen := left, {};
      snapshot := None;
      LatestOfNone(tables.snapshots);
      while left != {}
        invariant seen + left == candidates && LatestOf(tables.snapshots, seen, snapshot)
        decreases |left|
      {
        var s :| s in left;
        SnapshotIsFiled(tables, s);
        LatestGrows(tables.snapshots, seen, snapshot, s);
        if snapshot.None? || snapshot.value.createdAt <= tables.snapshots[s].createdAt {
          snapshot := Some(tables.snapshots[s]);
        }
        left, seen := left - {s}, seen + {s};
      }
      assert seen == candidates;
      LatestIsStored(tables.snapshots, candidates, snapshot);
      if snapshot.Some? {
        StoredSnapshotsFit(tables, snapshot.value.snapshotId);
        if !DependenciesFit(tables, snapshot.value) { return None; }
      }
    }

    /** The latest of the snapshots seen, if any has been. */
    static ghost predicate LatestOf(snapshots: map<string, Snapshot>, seen: set<string>, latest: Option<Snapshot>) {
      && (latest.None? <==> seen == {})
      && (latest.Some? ==>
            && latest.value.snapshotId in seen && latest.value.snapshotId in snapshots
            && snapshots[latest.value.snapshotId] == latest.value
            && forall s | s in seen :: s in snapshots && snapshots[s].createdAt <= latest.value.createdAt)
    }

    static lemma LatestOfNone(snapshots: map<string, Snapshot>)
      ensures LatestOf(snapshots, {}, None)
    {}

    static lemma LatestIsStored(snapshots: map<string, Snapshot>, seen: set<string>, latest: Option<Snapshot>)
      requires LatestOf(snapshots, seen, latest)
      ensures latest.None? <==> seen == {}
      ensures latest.Some? ==>
                && latest.value.snapshotId in seen && latest.value.snapshotId in snapshots
                && snapshots[latest.value.snapshotId] == latest.value
                && forall s | s in seen :: s in snapshots && snapshots[s].createdAt <= latest.value.createdAt
    {}

    static lemma LatestGrows(snapshots: map<string, Snapshot>, seen: set<string>, latest: Option<Snapshot>, s: string)
      requires LatestOf(snapshots, seen, latest) && s in snapshots && snapshots[s].snapshotId == s
      ensures LatestOf(snapshots, seen + {s},
                       if latest.None? || latest.value.createdAt <= snapshots[s].createdAt then Some(snapshots[s])
                       else latest)
    {}

    static lemma SnapshotIsFiled(t: Tables, s: string)
      requires Inv(t) && s in t.snapshots
      ensures t.snapshots[s].snapshotId == s
    {}
  }
}
