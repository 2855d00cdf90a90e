/** The citations of stored evidence: every unit has some, they name their unit, and no two share an id. */
module EvidenceCitations {
  import opened Outcomes
  import opened EvidenceTables
  import opened EvidenceInvariant
  import opened EvidenceFacts

  /** Digests of different units' citations differ, and so do those of different places in one unit. */
  ghost predicate Distinguishes(naming: Naming) {
    && (forall u, v, a, b :: naming.citationId(u, a) == naming.citationId(v, b) ==> u == v)
    && forall u, i, j :: naming.citationId(u, AtPlace(i)) == naming.citationId(u, AtPlace(j)) ==> i == j
  }

  /** The unit the study-map provider's answer is made into: one citation, of the part's own locator. */
  function MadeUnit(naming: Naming, unitId: string, plan: Plan, content: string): Unit {
    Unit(unitId, plan.partId, content,
         [Citation(naming.citationId(unitId, AtLocator(plan.locator)), unitId, plan.partId, plan.relativePath,
                   plan.locator)])
  }

  /** The only units that are published are made from a provider's answer. */
  ghost predicate PublishesMade(naming: Naming, op: Operation) {
    op.Publish? ==> exists plan :: op.unit == MadeUnit(naming, op.unit.unitId, plan, op.unit.content)
  }

  /** The id names the unit, by whatever tag. */
  ghost predicate NamedFor(naming: Naming, unitId: string, id: string) {
    exists tag :: id == naming.citationId(unitId, tag)
  }

  predicate CitationIdsDiffer(citations: seq<Citation>) {
    forall i, j | 0 <= i < j < |citations| :: citations[i].citationId != citations[j].citationId
  }

  ghost predicate WellCited(naming: Naming, unit: Unit) {
    && unit.citations != [] && CitationIdsDiffer(unit.citations)
    && forall c | c in unit.citations :: c.unitId == unit.unitId && NamedFor(naming, unit.unitId, c.citationId)
  }

  ghost predicate UnitsCited(naming: Naming, units: map<string, UnitRow>) {
    forall u | u in units :: WellCited(naming, units[u].unit)
  }

  lemma MadeUnitIsCited(naming: Naming, unitId: string, plan: Plan, content: string)
    ensures WellCited(naming, MadeUnit(naming, unitId, plan, content))
  {}

  lemma ReusedUnitIsCited(naming: Naming, unit: Unit, part: string, key: string)
    requires Distinguishes(naming) && unit.citations != []
    ensures WellCited(naming, Readdressed(naming, unit, part, key))
  {
    var reused := Readdressed(naming, unit, part, key);
    assert reused.citations[0] in reused.citations;
    forall c | c in reused.citations
      ensures c.unitId == reused.unitId && NamedFor(naming, reused.unitId, c.citationId)
    {
      var i :| 0 <= i < |reused.citations| && reused.citations[i] == c;
      assert c.citationId == naming.citationId(reused.unitId, AtPlace(i));
    }
  }

  /** No call stores a unit but a publication its own and a reuse the bound one, re-addressed. */
  lemma StoredUnits(setup: Setup, t: Tables, op: Operation, u: string)
    requires u in Step(setup, t, op).units
    ensures var unit := Step(setup, t, op).units[u].unit;
            || (u in t.units && t.units[u].unit == unit)
            || (op.Publish? && unit == op.unit)
            || (op.Reuse? && CachedUnit(t, op.cacheKey).Some?
                && unit == Readdressed(setup.naming, CachedUnit(t, op.cacheKey).value, op.token.partId, op.cacheKey))
  {
    hide OnUpsert, OnPublish, OnReuse, OnInvalidateEntry, OnDeleteInvalidated, OnRetryFailed, OnDeleteWorkspace;
    match op
    case Upsert(plans) => UpsertStoresNone(setup, t, plans, u);
    case Publish(_, _, _) | Reuse(_, _) => EvidenceStores(setup, t, op, u);
    case InvalidateEntry(_, _, _) | DeleteInvalidated(_, _, _) | DeleteWorkspace(_) | RetryFailed(_, _) =>
      RemovalStoresNone(setup, t, op, u);
    case _ =>
  }

  lemma EvidenceStores(setup: Setup, t: Tables, op: Operation, u: string)
    requires (op.Publish? || op.Reuse?) && u in Step(setup, t, op).units
    ensures var unit := Step(setup, t, op).units[u].unit;
            || (u in t.units && t.units[u].unit == unit)
            || (op.Publish? && unit == op.unit)
            || (op.Reuse? && CachedUnit(t, op.cacheKey).Some?
                && unit == Readdressed(setup.naming, CachedUnit(t, op.cacheKey).value, op.token.partId, op.cacheKey))
  {
    hide CitationsInside, Readdressed, Addressed, PartIsCurrent, Held, Matches, AlreadyPublished, CachedUnit;
  }

  lemma UpsertStoresNone(setup: Setup, t: Tables, plans: seq<Plan>, u: string)
    ensures u in Step(setup, t, Upsert(plans)).units ==>
              u in t.units && t.units[u] == Step(setup, t, Upsert(plans)).units[u]
  {
    hide UpsertAll, Revisions;
    if Revisions(plans).Some? {
      UpsertAllStoresNone(t.(current := t.current + Revisions(plans).value), plans, u);
    }
  }

  lemma RemovalStoresNone(setup: Setup, t: Tables, op: Operation, u: string)
    requires op.InvalidateEntry? || op.DeleteInvalidated? || op.DeleteWorkspace? || op.RetryFailed?
    ensures u in Step(setup, t, op).units ==> u in t.units && t.units[u] == Step(setup, t, op).units[u]
  {
    hide SnapshotsUsing, UnitsOf, EntryParts, FailedParts, WorkspaceParts, WorkspaceSnapshots;
  }

  lemma UpsertOneStoresNone(t: Tables, plan: Plan, u: string)
    ensures u in UpsertOne(t, plan).units ==> u in t.units && t.units[u] == UpsertOne(t, plan).units[u]
  {
    if plan.partId in t.parts {
      StrippedCache(t, plan.partId);
    }
    hide Stripped, UnitsOf;
  }

  lemma {:induction false} UpsertAllStoresNone(t: Tables, plans: seq<Plan>, u: string)
    ensures u in UpsertAll(t, plans).units ==> u in t.units && t.units[u] == UpsertAll(t, plans).units[u]
    decreases |plans|
  {
    hide UpsertOne;
    if plans != [] {
      UpsertAllStoresNone(t, plans[..|plans| - 1], u);
      UpsertOneStoresNone(UpsertAll(t, plans[..|plans| - 1]), plans[|plans| - 1], u);
    }
  }

  lemma StepKeepsCited(setup: Setup, t: Tables, op: Operation)
    requires Distinguishes(setup.naming) && UnitsCited(setup.naming, t.units) && PublishesMade(setup.naming, op)
    ensures UnitsCited(setup.naming, Step(setup, t, op).units)
  {
    hide Step, Distinguishes, Readdressed, MadeUnit, CitationIdsDiffer, NamedFor;
    forall u | u in Step(setup, t, op).units
      ensures WellCited(setup.naming, Step(setup, t, op).units[u].unit)
    {
      StoredUnits(setup, t, op, u);
      if op.Publish? {
        var plan :| op.unit == MadeUnit(setup.naming, op.unit.unitId, plan, op.unit.content);
        MadeUnitIsCited(setup.naming, op.unit.unitId, plan, op.unit.content);
      } else if op.Reuse? && CachedUnit(t, op.cacheKey).Some? {
        ReusedUnitIsCited(setup.naming, CachedUnit(t, op.cacheKey).value, op.token.partId, op.cacheKey);
      }
    }
  }

  /** After any calls the program makes, every stored unit is well cited. */
  lemma {:induction false} RunKeepsCited(setup: Setup, ops: seq<Operation>)
    requires Distinguishes(setup.naming) && forall i | 0 <= i < |ops| :: PublishesMade(setup.naming, ops[i])
    ensures UnitsCited(setup.naming, Run(setup, NoTables(), ops).units)
    decreases |ops|
  {
    hide Step, Distinguishes, PublishesMade;
    if ops != [] {
      RunKeepsCited(setup, ops[..|ops| - 1]);
      StepKeepsCited(setup, Run(setup, NoTables(), ops[..|ops| - 1]), ops[|ops| - 1]);
    }
  }
}
