/** What makes a synthesized study map acceptable, and why an accepted one can always be stored. */
module StudyMap {
  import opened Outcomes
  import opened EvidenceTables
  import opened EvidenceInvariant
  import opened EvidenceFacts
  import opened EvidenceCitations
  import opened StudyGraph
  import Coverage

  /** A node; `labelled` says that its title carries a literal probability label. */
  datatype Node = Node(
    nodeId: string,
    labelled: bool,
    evidenceIds: seq<string>,
    parent: Option<string>,
    prerequisites: seq<string>,
    group: Option<string>)

  datatype Group = Group(groupId: string, labelled: bool, evidenceIds: seq<string>)

  /** What the synthesizer returned; of a limitation only whether it carries a probability label. */
  datatype Payload = Payload(groups: seq<Group>, nodes: seq<Node>, labelledLimitations: seq<bool>,
                             evidenceIds: seq<string>)

  // ---------------------------------------------------------------- acceptance

  /** The node model's own checks. */
  predicate NodeValid(node: Node) {
    && node.evidenceIds != [] && NoDuplicates(node.evidenceIds) && NoDuplicates(node.prerequisites)
    && node.parent != Some(node.nodeId) && node.nodeId !in node.prerequisites
  }

  predicate GroupValid(group: Group) {
    group.evidenceIds != [] && NoDuplicates(group.evidenceIds)
  }

  /** The payload has passed the models it is parsed into. */
  predicate PayloadParsed(payload: Payload) {
    && (forall i | 0 <= i < |payload.nodes| :: NodeValid(payload.nodes[i]))
    && forall i | 0 <= i < |payload.groups| :: GroupValid(payload.groups[i])
  }

  function NodeIds(nodes: seq<Node>): set<string> {
    set n | n in nodes :: n.nodeId
  }

  function GroupIds(groups: seq<Group>): set<string> {
    set g | g in groups :: g.groupId
  }

  function NodeEvidence(nodes: seq<Node>): set<string> {
    set n, u | n in nodes && u in n.evidenceIds :: u
  }

  function GroupEvidence(groups: seq<Group>): set<string> {
    set g, u | g in groups && u in g.evidenceIds :: u
  }

  predicate IdsDiffer(payload: Payload) {
    && (forall i, j | 0 <= i < j < |payload.nodes| :: payload.nodes[i].nodeId != payload.nodes[j].nodeId)
    && forall i, j | 0 <= i < j < |payload.groups| :: payload.groups[i].groupId != payload.groups[j].groupId
  }

  /** Every relationship of the node leads to a known node or group. */
  predicate NodeKnown(node: Node, nodes: set<string>, groups: set<string>) {
    && !node.labelled
    && (node.parent.Some? ==> node.parent.value in nodes)
    && (forall p | p in node.prerequisites :: p in nodes)
    && (node.group.Some? ==> node.group.value in groups)
  }

  predicate NoLabels(payload: Payload) {
    && (forall g | g in payload.groups :: !g.labelled)
    && forall l | l in payload.labelledLimitations :: !l
  }

  predicate ClosureFits(payload: Payload, allowed: set<string>) {
    && Ids(payload.evidenceIds) == NodeEvidence(payload.nodes) + GroupEvidence(payload.groups)
    && NoDuplicates(payload.evidenceIds) && Ids(payload.evidenceIds) <= allowed
  }

  /** A node's parent and prerequisites. */
  function Dependencies(node: Node): seq<string> {
    (if node.parent.Some? then [node.parent.value] else []) + node.prerequisites
  }

  function NodeAt(nodes: seq<Node>, id: string): (node: Node)
    requires id in NodeIds(nodes)
    ensures node in nodes && node.nodeId == id
  {
    if nodes[|nodes| - 1].nodeId == id then nodes[|nodes| - 1] else NodeAt(nodes[..|nodes| - 1], id)
  }

  function GraphOf(nodes: seq<Node>): Graph {
    map id | id in NodeIds(nodes) :: Dependencies(NodeAt(nodes, id))
  }

  /** Everything acceptance asks for. */
  ghost predicate Acceptable(payload: Payload, allowed: set<string>) {
    && IdsDiffer(payload) && (allowed != {} ==> payload.nodes != [])
    && (forall n | n in payload.nodes :: NodeKnown(n, NodeIds(payload.nodes), GroupIds(payload.groups)))
    && NoLabels(payload) && ClosureFits(payload, allowed)
    && !Cyclic(GraphOf(payload.nodes))
  }

  lemma KnownRelationsClose(payload: Payload)
    requires forall n | n in payload.nodes :: NodeKnown(n, NodeIds(payload.nodes), GroupIds(payload.groups))
    ensures Closed(GraphOf(payload.nodes))
  {
    var graph := GraphOf(payload.nodes);
    forall id, d | id in graph && d in graph[id]
      ensures d in graph
    {
      var node := NodeAt(payload.nodes, id);
      assert NodeKnown(node, NodeIds(payload.nodes), GroupIds(payload.groups));
    }
  }

  // ---------------------------------------------------------------- acceptance, over the nodes themselves

  /** The identities, relations and evidence of a payload are in order, whatever its relations form. */
  ghost predicate Consistent(payload: Payload, allowed: set<string>) {
    && (forall i, j | 0 <= i < j < |payload.nodes| :: payload.nodes[i].nodeId != payload.nodes[j].nodeId)
    && (forall i, j | 0 <= i < j < |payload.groups| :: payload.groups[i].groupId != payload.groups[j].groupId)
    && (allowed != {} ==> payload.nodes != [])
    && (forall n | n in payload.nodes ::
          && !n.labelled
          && (n.parent.Some? ==> exists m | m in payload.nodes :: m.nodeId == n.parent.value)
          && (forall p | p in n.prerequisites :: exists m | m in payload.nodes :: m.nodeId == p)
          && (n.group.Some? ==> exists g | g in payload.groups :: g.groupId == n.group.value))
    && (forall g | g in payload.groups :: !g.labelled)
    && true !in payload.labelledLimitations
    && (forall i, j | 0 <= i < j < |payload.evidenceIds| :: payload.evidenceIds[i] != payload.evidenceIds[j])
    && (forall n | n in payload.nodes :: forall u | u in n.evidenceIds :: u in payload.evidenceIds)
    && (forall g | g in payload.groups :: forall u | u in g.evidenceIds :: u in payload.evidenceIds)
    && forall u | u in payload.evidenceIds ::
         && u in allowed
         && (|| (exists n | n in payload.nodes :: u in n.evidenceIds)
             || exists g | g in payload.groups :: u in g.evidenceIds)
  }

  /** The one id stands before the other. */
  ghost predicate Earlier(order: seq<string>, a: string, b: string) {
    exists i, j :: 0 <= i < j < |order| && order[i] == a && order[j] == b
  }

  /** Every node stands behind its parent and all its prerequisites, and none stands twice. */
  ghost predicate StudyOrder(nodes: seq<Node>, order: seq<string>) {
    && (forall i, j | 0 <= i < j < |order| :: order[i] != order[j])
    && forall n | n in nodes ::
         && n.nodeId in order
         && (n.parent.Some? ==> Earlier(order, n.parent.value, n.nodeId))
         && forall p | p in n.prerequisites :: Earlier(order, p, n.nodeId)
  }

  /** Nodes each of which is the parent or a prerequisite of the one before, back to the first. */
  ghost predicate RelationCycle(nodes: seq<Node>, walk: seq<Node>) {
    && |walk| >= 2 && walk[0] == walk[|walk| - 1] && (forall n | n in walk :: n in nodes)
    && forall i, j | 0 <= i && j == i + 1 && j < |walk| ::
         walk[i].parent == Some(walk[j].nodeId) || walk[j].nodeId in walk[i].prerequisites
  }

  lemma ConsistentIsChecked(payload: Payload, allowed: set<string>)
    ensures Consistent(payload, allowed) <==>
              && IdsDiffer(payload) && (allowed != {} ==> payload.nodes != [])
              && (forall n | n in payload.nodes :: NodeKnown(n, NodeIds(payload.nodes), GroupIds(payload.groups)))
              && NoLabels(payload) && ClosureFits(payload, allowed)
  {
    RelationsChecked(payload);
    EvidenceChecked(payload, allowed);
    hide NodeKnown, ClosureFits;
  }

  lemma RelationsChecked(payload: Payload)
    ensures (forall n | n in payload.nodes :: NodeKnown(n, NodeIds(payload.nodes), GroupIds(payload.groups))) <==>
            forall n | n in payload.nodes ::
              && !n.labelled
              && (n.parent.Some? ==> exists m | m in payload.nodes :: m.nodeId == n.parent.value)
              && (forall p | p in n.prerequisites :: exists m | m in payload.nodes :: m.nodeId == p)
              && (n.group.Some? ==> exists g | g in payload.groups :: g.groupId == n.group.value)
  {
    forall id
      ensures id in NodeIds(payload.nodes) <==> exists m | m in payload.nodes :: m.nodeId == id
      ensures id in GroupIds(payload.groups) <==> exists g | g in payload.groups :: g.groupId == id
    {
    }
    hide NodeIds, GroupIds;
  }

  lemma EvidenceChecked(payload: Payload, allowed: set<string>)
    ensures ClosureFits(payload, allowed) <==>
              && (forall i, j | 0 <= i < j < |payload.evidenceIds| ::
                    payload.evidenceIds[i] != payload.evidenceIds[j])
              && (forall n | n in payload.nodes :: forall u | u in n.evidenceIds :: u in payload.evidenceIds)
              && (forall g | g in payload.groups :: forall u | u in g.evidenceIds :: u in payload.evidenceIds)
              && forall u | u in payload.evidenceIds ::
                   && u in allowed
                   && ((exists n | n in payload.nodes :: u in n.evidenceIds)
                       || exists g | g in payload.groups :: u in g.evidenceIds)
  {
    forall u
      ensures u in NodeEvidence(payload.nodes) <==> exists n | n in payload.nodes :: u in n.evidenceIds
      ensures u in GroupEvidence(payload.groups) <==> exists g | g in payload.groups :: u in g.evidenceIds
      ensures u in Ids(payload.evidenceIds) <==> u in payload.evidenceIds
    {
    }
    hide NodeEvidence, GroupEvidence, Ids;
  }

  lemma NodeIsAt(payload: Payload, node: Node)
    requires IdsDiffer(payload) && node in payload.nodes
    ensures node.nodeId in NodeIds(payload.nodes) && NodeAt(payload.nodes, node.nodeId) == node
  {
    var found := NodeAt(payload.nodes, node.nodeId);
    var i :| 0 <= i < |payload.nodes| && payload.nodes[i] == node;
    var j :| 0 <= j < |payload.nodes| && payload.nodes[j] == found;
    assert i == j;
  }

  /** A topological order of the relationships is an order of study. */
  lemma OrderIsStudyOrder(payload: Payload, order: seq<string>)
    requires IdsDiffer(payload) && TopologicalOrder(GraphOf(payload.nodes), order)
    ensures StudyOrder(payload.nodes, order)
  {
    var graph := GraphOf(payload.nodes);
    forall n | n in payload.nodes
      ensures n.nodeId in order
      ensures n.parent.Some? ==> Earlier(order, n.parent.value, n.nodeId)
      ensures forall p | p in n.prerequisites :: Earlier(order, p, n.nodeId)
    {
      NodeIsAt(payload, n);
      assert graph[n.nodeId] == Dependencies(n);
      var j :| 0 <= j < |order| && order[j] == n.nodeId;
      forall d | d in Dependencies(n)
        ensures Earlier(order, d, n.nodeId)
      {
        var i :| 0 <= i < j && order[i] == d;
      }
      if n.parent.Some? {
        assert Dependencies(n)[0] == n.parent.value && n.parent.value in Dependencies(n);
      }
      forall p | p in n.prerequisites
        ensures p in Dependencies(n)
      {
      }
    }
  }

  /** Node `b` is the parent or a prerequisite of node `a`, when these are the nodes' ids. */
  predicate Related(a: Node, b: Node) {
    a.parent == Some(b.nodeId) || b.nodeId in a.prerequisites
  }

  lemma EdgeIsRelation(payload: Payload, a: string, b: string)
    requires Edge(GraphOf(payload.nodes), a, b) && Closed(GraphOf(payload.nodes))
    ensures a in NodeIds(payload.nodes) && b in NodeIds(payload.nodes)
    ensures Related(NodeAt(payload.nodes, a), NodeAt(payload.nodes, b))
  {
    hide NodeIds;
    assert b in Dependencies(NodeAt(payload.nodes, a));
  }

  /** A cycle of the relationships goes round actual nodes. */
  lemma CycleGoesRoundNodes(payload: Payload, path: seq<string>)
    requires IdsDiffer(payload) && Cycle(GraphOf(payload.nodes), path)
    requires forall n | n in payload.nodes :: NodeKnown(n, NodeIds(payload.nodes), GroupIds(payload.groups))
    ensures exists walk :: RelationCycle(payload.nodes, walk)
  {
    var graph, nodes := GraphOf(payload.nodes), payload.nodes;
    KnownRelationsClose(payload);
    hide GraphOf, NodeIds, Edge, NodeKnown, GroupIds, IdsDiffer, Related, Closed;
    forall i | 0 <= i < |path|
      ensures path[i] in NodeIds(nodes)
    {
      var j := if i == 0 then 1 else i;
      assert Edge(graph, path[j - 1], path[j]);
      EdgeIsRelation(payload, path[j - 1], path[j]);
    }
    forall i, j | 0 <= i && j == i + 1 && j < |path|
      ensures Related(NodeAt(nodes, path[i]), NodeAt(nodes, path[j]))
    {
      assert Edge(graph, path[j - 1], path[j]);
      EdgeIsRelation(payload, path[i], path[j]);
    }
    var walk := seq(|path|, i requires 0 <= i < |path| => NodeAt(nodes, path[i]));
    NodesGoRound(nodes, walk);
  }

  lemma NodesGoRound(nodes: seq<Node>, walk: seq<Node>)
    requires |walk| >= 2 && walk[0] == walk[|walk| - 1] && forall n | n in walk :: n in nodes
    requires forall i, j | 0 <= i && j == i + 1 && j < |walk| :: Related(walk[i], walk[j])
    ensures RelationCycle(nodes, walk)
  {
    forall i, j | 0 <= i && j == i + 1 && j < |walk|
      ensures walk[i].parent == Some(walk[j].nodeId) || walk[j].nodeId in walk[i].prerequisites
    {
      assert Related(walk[i], walk[j]);
    }
  }

  /**
   Raises exactly on what is not acceptable. What is accepted comes with an order in which every node stands behind
   its parent and its prerequisites; a consistent payload is refused only for nodes that go round in a circle.
   */
  method ValidateSynthesisPayload(payload: Payload, allowed: set<string>)
    returns (raised: bool, ghost order: seq<string>)
    ensures !raised <==> Acceptable(payload, allowed)
    ensures !raised ==> TopologicalOrder(GraphOf(payload.nodes), order)
    ensures !raised ==> Consistent(payload, allowed) && StudyOrder(payload.nodes, order)
    ensures raised && Consistent(payload, allowed) ==> exists walk :: RelationCycle(payload.nodes, walk)
  {
    ConsistentIsChecked(payload, allowed);
    hide Consistent, StudyOrder, RelationCycle;
    hide NodeKnown, ClosureFits, NoLabels, GraphOf, NodeIds, GroupIds, Cyclic, TopologicalOrder, Closed;
    order := [];
    if !IdsDiffer(payload) || (allowed != {} && payload.nodes == []) { return true, []; }
    var nodeIds, groupIds := NodeIds(payload.nodes), GroupIds(payload.groups);
    for i := 0 to |payload.nodes|
      invariant forall k | 0 <= k < i :: NodeKnown(payload.nodes[k], nodeIds, groupIds)
    {
      if !NodeKnown(payload.nodes[i], nodeIds, groupIds) { return true, []; }
    }
    if !NoLabels(payload) || !ClosureFits(payload, allowed) { return true, []; }
    KnownRelationsClose(payload);
    raised, order := RejectGraphCycle(GraphOf(payload.nodes));
    if raised {
      CyclicHasNodes(payload);
    } else {
      OrderIsStudyOrder(payload, order);
    }
  }

  lemma CyclicHasNodes(payload: Payload)
    requires IdsDiffer(payload) && Cyclic(GraphOf(payload.nodes))
    requires forall n | n in payload.nodes :: NodeKnown(n, NodeIds(payload.nodes), GroupIds(payload.groups))
    ensures exists walk :: RelationCycle(payload.nodes, walk)
  {
    var path :| Cycle(GraphOf(payload.nodes), path);
    CycleGoesRoundNodes(payload, path);
  }

  // ---------------------------------------------------------------- storing an accepted map

  /** The latest units of the revision's processed parts. */
  function ListedUnits(t: Tables, workspaceId: string, revisionId: string): set<string> {
    set u | u in t.units && DependencyFits(t, workspaceId, revisionId, u)
  }

  function ProcessedParts(t: Tables, workspaceId: string, revisionId: string): set<string> {
    set p | p in t.parts
      && t.parts[p].plan.workspaceId == workspaceId && t.parts[p].plan.revisionId == revisionId
      && t.parts[p].state == Processed
  }

  /** The check made before a map is synthesized: one listed unit for each processed part and no other. */
  predicate OneUnitPerProcessedPart(t: Tables, workspaceId: string, revisionId: string) {
    var units := ListedUnits(t, workspaceId, revisionId);
    && (forall u, v | u in units && v in units :: t.units[u].partId == t.units[v].partId ==> u == v)
    && (set u | u in units :: t.units[u].partId) == ProcessedParts(t, workspaceId, revisionId)
  }

  /** That check never fails. */
  lemma UnitCheckNeverFails(t: Tables, workspaceId: string, revisionId: string)
    requires Inv(t)
    ensures OneUnitPerProcessedPart(t, workspaceId, revisionId)
  {
    hide AttemptsCounted, CacheBound, DependenciesListed, SnapshotsGrounded, NoDuplicates, PartsFiled;
    var units := ListedUnits(t, workspaceId, revisionId);
    forall p | p in ProcessedParts(t, workspaceId, revisionId)
      ensures exists u | u in units :: t.units[u].partId == p
    {
      assert HasUnit(t.units, p);
      var u :| u in t.units && t.units[u].partId == p;
      assert u in units;
    }
  }

  /** The stored form of an accepted map. */
  predicate Stores(snapshot: Snapshot, payload: Payload) {
    && Ids(snapshot.unitIds) == Ids(payload.evidenceIds) && NoDuplicates(snapshot.unitIds)
    && snapshot.nodeUnitIds == NodeEvidence(payload.nodes)
    && snapshot.groupUnitIds == GroupEvidence(payload.groups)
  }

  /** A map accepted over the revision's listed evidence is stored, unless its id is taken or the
    * revision has moved on. */
  lemma AcceptedMapIsStored(t: Tables, payload: Payload, snapshot: Snapshot)
    requires Inv(t) && Stores(snapshot, payload)
    requires Acceptable(payload, ListedUnits(t, snapshot.workspaceId, snapshot.revisionId))
    requires Current(t, snapshot.workspaceId, snapshot.revisionId) && snapshot.snapshotId !in t.snapshots
    ensures OnSaveSnapshot(t, snapshot).Some?
    ensures var next := OnSaveSnapshot(t, snapshot).value;
            && snapshot.snapshotId in next.snapshots && next.snapshots[snapshot.snapshotId] == snapshot
            && Inv(next) && (forall u | u in payload.evidenceIds :: (snapshot.snapshotId, u) in next.dependencies)
  {
    hide InvBut, Inv, Cyclic, NodeKnown, NoLabels, IdsDiffer, NodeEvidence, GroupEvidence, GraphOf;
    assert Ids(snapshot.unitIds) == snapshot.nodeUnitIds + snapshot.groupUnitIds;
    forall u | u in snapshot.unitIds
      ensures DependencyFits(t, snapshot.workspaceId, snapshot.revisionId, u)
    {
      assert u in Ids(snapshot.unitIds);
      assert u in ListedUnits(t, snapshot.workspaceId, snapshot.revisionId);
    }
    SnapshotKeepsInv(t, snapshot);
    forall u | u in payload.evidenceIds
      ensures u in snapshot.unitIds
    {
      assert u in Ids(payload.evidenceIds);
    }
  }

  // ---------------------------------------------------------------- the first map

  /** What the snapshot model asks of a first map, beyond its parsed nodes and groups. */
  predicate InitialValid(coverage: Option<Coverage.Summary>, evidenceIds: seq<string>, citations: seq<Citation>,
                         payload: Payload) {
    && coverage.Some? && Coverage.IsPartial(coverage.value) && evidenceIds != [] && NoDuplicates(evidenceIds)
    && CitationIdsDiffer(citations)
    && (citations != [] ==> (set c | c in citations :: c.unitId) == Ids(evidenceIds))
    && IdsDiffer(payload)
    && forall n | n in payload.nodes ::
         && (n.parent.Some? ==> n.parent.value in NodeIds(payload.nodes))
         && (forall p | p in n.prerequisites :: p in NodeIds(payload.nodes))
         && (n.group.Some? ==> n.group.value in GroupIds(payload.groups))
  }

  /** The citations of the units a map depends on, unit by unit. */
  function CitationsOf(units: map<string, UnitRow>, ids: seq<string>): seq<Citation>
    requires forall u | u in ids :: u in units
  {
    if ids == [] then []
    else CitationsOf(units, ids[..|ids| - 1]) + units[ids[|ids| - 1]].unit.citations
  }

  /** The units are filed under their ids and well cited. */
  ghost predicate CitedUnder(naming: Naming, units: map<string, UnitRow>, ids: seq<string>) {
    forall u | u in ids :: u in units && units[u].unit.unitId == u && WellCited(naming, units[u].unit)
  }

  lemma {:induction false} CitationsNameTheirUnits(naming: Naming, units: map<string, UnitRow>, ids: seq<string>)
    requires CitedUnder(naming, units, ids)
    ensures (set c | c in CitationsOf(units, ids) :: c.unitId) == Ids(ids)
    decreases |ids|
  {
    if ids != [] {
      hide NamedFor, CitationIdsDiffer;
      var front, last := ids[..|ids| - 1], ids[|ids| - 1];
      assert last in ids;
      CitationsNameTheirUnits(naming, units, front);
      var own := units[last].unit.citations;
      assert own[0] in own;
      var all := CitationsOf(units, ids);
      forall u
        ensures u in Ids(ids) <==> u in (set c | c in all :: c.unitId)
      {
        assert u in Ids(ids) <==> u in Ids(front) || u == last;
        assert u in (set c | c in all :: c.unitId) <==>
               u in (set c | c in CitationsOf(units, front) :: c.unitId) || u == last;
      }
    }
  }

  /** A citation's id is named for one of the units. */
  ghost predicate NamedAmong(naming: Naming, ids: seq<string>, citation: Citation) {
    exists u | u in ids :: NamedFor(naming, u, citation.citationId)
  }

  /** No citation id occurs twice, within a unit or across them. */
  lemma {:induction false} CitationsDiffer(naming: Naming, units: map<string, UnitRow>, ids: seq<string>)
    requires Distinguishes(naming) && CitedUnder(naming, units, ids) && NoDuplicates(ids)
    ensures CitationIdsDiffer(CitationsOf(units, ids))
    ensures forall c | c in CitationsOf(units, ids) :: NamedAmong(naming, ids, c)
    decreases |ids|
  {
    if ids != [] {
      hide Distinguishes, NamedFor;
      var front, last := ids[..|ids| - 1], ids[|ids| - 1];
      assert last in ids && last !in front;
      CitationsDiffer(naming, units, front);
      var before, own := CitationsOf(units, front), units[last].unit.citations;
      forall c | c in before
        ensures NamedAmong(naming, ids, c) && forall d | d in own :: c.citationId != d.citationId
      {
        var u :| u in front && NamedFor(naming, u, c.citationId);
        assert u in ids;
        forall d | d in own
          ensures c.citationId != d.citationId
        {
          OneUnitNamed(naming, u, last, c.citationId, d.citationId);
        }
      }
    }
  }

  lemma OneUnitNamed(naming: Naming, u: string, v: string, a: string, b: string)
    requires Distinguishes(naming) && NamedFor(naming, u, a) && NamedFor(naming, v, b) && u != v
    ensures a != b
  {}

  /**
   A first map published through the gate, from an accepted payload over some stored evidence, always passes its
   model, whatever calls have led to the tables.
   */
  lemma FirstMapIsValid(setup: Setup, ops: seq<Operation>, payload: Payload, allowed: set<string>, ids: seq<string>,
                        coverage: Coverage.Summary)
    requires Distinguishes(setup.naming)
    requires forall i | 0 <= i < |ops| :: InUse(ops[i]) && PublishesMade(setup.naming, ops[i])
    requires PayloadParsed(payload) && Acceptable(payload, allowed) && allowed != {} && Coverage.IsPartial(coverage)
    requires Ids(ids) == Ids(payload.evidenceIds) && NoDuplicates(ids)
    requires allowed <= Run(setup, NoTables(), ops).units.Keys
    ensures var t := Run(setup, NoTables(), ops);
            && (forall u | u in ids :: u in t.units)
            && InitialValid(Some(coverage), ids, CitationsOf(t.units, ids), payload)
  {
    hide *;
    RunKeepsInv(setup, ops);
    RunKeepsCited(setup, ops);
    var t := Run(setup, NoTables(), ops);
    AcceptedIdsAreCited(setup.naming, t, payload, allowed, ids);
    CitationsNameTheirUnits(setup.naming, t.units, ids);
    CitationsDiffer(setup.naming, t.units, ids);
    AcceptedRelationsHold(payload, allowed, ids, CitationsOf(t.units, ids), coverage);
  }

  lemma AcceptedIdsAreCited(naming: Naming, t: Tables, payload: Payload, allowed: set<string>, ids: seq<string>)
    requires Inv(t) && UnitsCited(naming, t.units) && Acceptable(payload, allowed) && allowed <= t.units.Keys
    requires Ids(ids) == Ids(payload.evidenceIds)
    ensures CitedUnder(naming, t.units, ids) && forall u | u in ids :: u in t.units
  {
    InvUnits(t);
    hide Inv, WellCited, Cyclic, GraphOf, NoLabels, IdsDiffer, NodeIds, GroupIds, NodeKnown, NoDuplicates;
    forall u | u in ids
      ensures u in allowed
    {
      assert u in Ids(ids);
    }
  }

  lemma AcceptedRelationsHold(payload: Payload, allowed: set<string>, ids: seq<string>, citations: seq<Citation>,
                              coverage: Coverage.Summary)
    requires PayloadParsed(payload) && Acceptable(payload, allowed) && allowed != {} && Coverage.IsPartial(coverage)
    requires Ids(ids) == Ids(payload.evidenceIds) && NoDuplicates(ids) && CitationIdsDiffer(citations)
    requires (set c | c in citations :: c.unitId) == Ids(ids)
    ensures InitialValid(Some(coverage), ids, citations, payload)
  {
    hide Cyclic, GraphOf, NoLabels, IdsDiffer, NodeIds, GroupIds, NoDuplicates, CitationIdsDiffer;
    var node := payload.nodes[0];
    assert NodeValid(node) && node in payload.nodes && node.evidenceIds[0] in node.evidenceIds;
    assert node.evidenceIds[0] in NodeEvidence(payload.nodes);
    assert node.evidenceIds[0] in Ids(ids);
  }

  lemma InvUnits(t: Tables)
    requires Inv(t)
    ensures forall u | u in t.units :: t.units[u].unit.unitId == u
  {}
}
