/** The registry's tables as one JSON document, and back. */
module RegistryJson {
  import opened Outcomes
  import opened Registry

  /** The six tables as they are kept in memory and written out. */
  datatype Tables = Tables(
    workspaces: map<string, WorkspaceClaim>,
    collections: map<string, map<Collection, Identity>>,
    artifacts: map<(string, string), ArtifactClaim>,
    intents: map<string, PublishIntent>,
    journals: map<string, PublishJournal>,
    deleteItems: map<(string, string), DeleteItem>)

  datatype Key =
    | ArtifactIdKey | BackupNameKey | ClaimKey | CollectionKey | EvidenceIdentityKey | ExpectedSha256Key
    | ExpectedSizeKey | GenerationKey | IdentityKey | KindKey | NewClaimKey | OldClaimKey | PhaseKey
    | QuarantineNameKey | Sha256Key | SizeKey | SlotKey | TargetNameKey | TemporaryIdentityKey
    | TemporaryNameKey | WorkspaceIdKey | WorkspaceIdentityKey
    | ArtifactsKey | CollectionsKey | DeleteItemsKey | IntentsKey | JournalsKey | WorkspacesKey
    | PreviousSha256Key | RootIdentityKey | SchemaVersionKey | SequenceKey | StateKey

  datatype Json =
    | Null
    | Number(number: int)
    | Text(text: string)
    | List(items: seq<Json>)
    | Object(fields: map<Key, Json>)

  // ---------------------------------------------------------------- scalars

  function DigitsOf(n: nat): (text: string)
    ensures text != ""
  {
    if n < 10 then [('0' as int + n) as char] else DigitsOf(n / 10) + [('0' as int + n % 10) as char]
  }

  function ParseDigits(text: string): Option<nat> {
    if text == "" || !('0' <= text[|text| - 1] <= '9') then None
    else
      var digit := text[|text| - 1] as int - '0' as int;
      if |text| == 1 then Some(digit)
      else
        var rest :- ParseDigits(text[..|text| - 1]);
        Some(10 * rest + digit)
  }

  lemma {:induction false} DigitsRoundTrip(n: nat)
    ensures ParseDigits(DigitsOf(n)) == Some(n)
  {
    if n >= 10 {
      DigitsRoundTrip(n / 10);
      assert DigitsOf(n)[..|DigitsOf(n)| - 1] == DigitsOf(n / 10);
    }
  }

  function IdentityJson(identity: Identity): Json {
    List([Text(DigitsOf(identity.device)), Text(DigitsOf(identity.inode))])
  }

  function ParseIdentity(value: Json): Option<Identity> {
    if !value.List? || |value.items| != 2 || !value.items[0].Text? || !value.items[1].Text? then None
    else
      var device :- ParseDigits(value.items[0].text);
      var inode :- ParseDigits(value.items[1].text);
      Some(Identity(device, inode))
  }

  lemma IdentityRoundTrip(identity: Identity)
    ensures ParseIdentity(IdentityJson(identity)) == Some(identity)
  {
    DigitsRoundTrip(identity.device);
    DigitsRoundTrip(identity.inode);
  }

  /** A value that may be missing is written as null. */
  function OptionJson<T>(value: Option<T>, encode: T -> Json): Json {
    if value.Some? then encode(value.value) else Null
  }

  function ParseOption<T>(value: Json, parse: Json -> Option<T>): Option<Option<T>> {
    if value.Null? then Some(None)
    else
      var inner :- parse(value);
      Some(Some(inner))
  }

  function TextJson(text: string): Json {
    Text(text)
  }

  function ParseText(value: Json): Option<string> {
    if value.Text? then Some(value.text) else None
  }

  function ParseCount(value: Json): Option<nat> {
    if value.Number? && value.number >= 0 then Some(value.number) else None
  }

  function CollectionJson(collection: Collection): Json {
    Text(DirectoryOf(collection))
  }

  function ParseCollection(value: Json): Option<Collection> {
    if value == Text("parts") then Some(Parts)
    else if value == Text("units") then Some(Units)
    else if value == Text("snapshots") then Some(Snapshots)
    else None
  }

  function KindJson(kind: Kind): Json {
    Text(match kind case Part => "part" case Unit => "unit" case Snapshot => "snapshot")
  }

  function ParseKind(value: Json): Option<Kind> {
    if value == Text("part") then Some(Part)
    else if value == Text("unit") then Some(Unit)
    else if value == Text("snapshot") then Some(Snapshot)
    else None
  }

  function WorkspacePhaseJson(phase: WorkspacePhase): Json {
    Text(match phase case Reserved => "reserved" case Active => "active" case Deleting => "deleting")
  }

  function ParseWorkspacePhase(value: Json): Option<WorkspacePhase> {
    if value == Text("reserved") then Some(Reserved)
    else if value == Text("active") then Some(Active)
    else if value == Text("deleting") then Some(Deleting)
    else None
  }

  function PublishPhaseJson(phase: PublishPhase): Json {
    Text(match phase
         case Prepared => "prepared" case Backup => "backup"
         case Installed => "installed" case Committed => "committed")
  }

  function ParsePublishPhase(value: Json): Option<PublishPhase> {
    if value == Text("prepared") then Some(Prepared)
    else if value == Text("backup") then Some(Backup)
    else if value == Text("installed") then Some(Installed)
    else if value == Text("committed") then Some(Committed)
    else None
  }

  function DeletePhaseJson(phase: DeletePhase): Json {
    Text(match phase case Planned => "planned" case Quarantined => "quarantined" case Removed => "removed")
  }

  function ParseDeletePhase(value: Json): Option<DeletePhase> {
    if value == Text("planned") then Some(Planned)
    else if value == Text("quarantined") then Some(Quarantined)
    else if value == Text("removed") then Some(Removed)
    else None
  }

  lemma RouteRoundTrip(collection: Collection, kind: Kind)
    ensures ParseCollection(CollectionJson(collection)) == Some(collection)
    ensures ParseKind(KindJson(kind)) == Some(kind)
  {}

  // ---------------------------------------------------------------- rows

  predicate HasKeys(value: Json, keys: set<Key>) {
    value.Object? && value.fields.Keys == keys
  }

  const CLAIM_KEYS := {ArtifactIdKey, CollectionKey, GenerationKey, IdentityKey, KindKey, Sha256Key, SizeKey, SlotKey,
                       WorkspaceIdKey}

  function ClaimJson(claim: ArtifactClaim): Json {
    Object(map[ArtifactIdKey := Text(claim.artifactId),
               CollectionKey := CollectionJson(claim.collection),
               GenerationKey := Text(claim.generation),
               IdentityKey := IdentityJson(claim.identity),
               KindKey := KindJson(claim.kind),
               Sha256Key := Text(claim.sha256),
               SizeKey := Number(claim.size),
               SlotKey := Text(claim.slot),
               WorkspaceIdKey := Text(claim.workspaceId)])
  }

  function ParseClaim(value: Json): Option<ArtifactClaim> {
    if !HasKeys(value, CLAIM_KEYS) then None
    else
      var workspaceId :- ParseText(value.fields[WorkspaceIdKey]);
      var slot :- ParseText(value.fields[SlotKey]);
      var collection :- ParseCollection(value.fields[CollectionKey]);
      var kind :- ParseKind(value.fields[KindKey]);
      var artifactId :- ParseText(value.fields[ArtifactIdKey]);
      var identity :- ParseIdentity(value.fields[IdentityKey]);
      var sha256 :- ParseText(value.fields[Sha256Key]);
      var size :- ParseCount(value.fields[SizeKey]);
      var generation :- ParseText(value.fields[GenerationKey]);
      Some(ArtifactClaim(workspaceId, slot, collection, kind, artifactId, identity, sha256, size, generation))
  }

  lemma ClaimRoundTrip(claim: ArtifactClaim)
    ensures ParseClaim(ClaimJson(claim)) == Some(claim)
  {
    IdentityRoundTrip(claim.identity);
    RouteRoundTrip(claim.collection, claim.kind);
    hide IdentityJson, ParseIdentity, KindJson, ParseKind, CollectionJson, ParseCollection;
    assert HasKeys(ClaimJson(claim), CLAIM_KEYS);
  }

  const WORKSPACE_KEYS := {EvidenceIdentityKey, GenerationKey, PhaseKey, WorkspaceIdKey, WorkspaceIdentityKey}

  function WorkspaceJson(claim: WorkspaceClaim): Json {
    Object(map[EvidenceIdentityKey := OptionJson(claim.evidenceIdentity, IdentityJson),
               GenerationKey := Text(claim.generation),
               PhaseKey := WorkspacePhaseJson(claim.phase),
               WorkspaceIdKey := Text(claim.workspaceId),
               WorkspaceIdentityKey := OptionJson(claim.workspaceIdentity, IdentityJson)])
  }

  function ParseWorkspace(value: Json): Option<WorkspaceClaim> {
    if !HasKeys(value, WORKSPACE_KEYS) then None
    else
      var workspaceId :- ParseText(value.fields[WorkspaceIdKey]);
      var phase :- ParseWorkspacePhase(value.fields[PhaseKey]);
      var generation :- ParseText(value.fields[GenerationKey]);
      var workspaceIdentity :- ParseOption(value.fields[WorkspaceIdentityKey], ParseIdentity);
      var evidenceIdentity :- ParseOption(value.fields[EvidenceIdentityKey], ParseIdentity);
      Some(WorkspaceClaim(workspaceId, phase, generation, workspaceIdentity, evidenceIdentity))
  }

  lemma OptionalIdentityRoundTrip(identity: Option<Identity>)
    ensures ParseOption(OptionJson(identity, IdentityJson), ParseIdentity) == Some(identity)
  {
    if identity.Some? {
      IdentityRoundTrip(identity.value);
    }
  }

  lemma WorkspaceRoundTrip(claim: WorkspaceClaim)
    ensures ParseWorkspace(WorkspaceJson(claim)) == Some(claim)
  {
    OptionalIdentityRoundTrip(claim.workspaceIdentity);
    OptionalIdentityRoundTrip(claim.evidenceIdentity);
    hide OptionJson, ParseOption;
    assert HasKeys(WorkspaceJson(claim), WORKSPACE_KEYS);
  }

  const INTENT_KEYS := {ArtifactIdKey, BackupNameKey, CollectionKey, ExpectedSha256Key, ExpectedSizeKey, GenerationKey,
                        KindKey, OldClaimKey, SlotKey, TargetNameKey, TemporaryNameKey, TemporaryIdentityKey,
                        WorkspaceIdKey}

  function IntentJson(intent: PublishIntent): Json {
    Object(map[ArtifactIdKey := Text(intent.artifactId),
               BackupNameKey := Text(intent.backupName),
               CollectionKey := CollectionJson(intent.collection),
               ExpectedSha256Key := Text(intent.expectedSha256),
               ExpectedSizeKey := Number(intent.expectedSize),
               GenerationKey := Text(intent.generation),
               KindKey := KindJson(intent.kind),
               OldClaimKey := OptionJson(intent.oldClaim, ClaimJson),
               SlotKey := Text(intent.slot),
               TargetNameKey := Text(intent.targetName),
               TemporaryNameKey := Text(intent.temporaryName),
               TemporaryIdentityKey := OptionJson(intent.temporaryIdentity, IdentityJson),
               WorkspaceIdKey := Text(intent.workspaceId)])
  }

  function ParseIntent(value: Json): Option<PublishIntent> {
    if !HasKeys(value, INTENT_KEYS) then None
    else
      var prior :- ParseOption(value.fields[OldClaimKey], ParseClaim);
      var workspaceId :- ParseText(value.fields[WorkspaceIdKey]);
      var slot :- ParseText(value.fields[SlotKey]);
      var targetName :- ParseText(value.fields[TargetNameKey]);
      var temporaryName :- ParseText(value.fields[TemporaryNameKey]);
      var backupName :- ParseText(value.fields[BackupNameKey]);
      var collection :- ParseCollection(value.fields[CollectionKey]);
      var kind :- ParseKind(value.fields[KindKey]);
      var artifactId :- ParseText(value.fields[ArtifactIdKey]);
      var expectedSha256 :- ParseText(value.fields[ExpectedSha256Key]);
      var expectedSize :- ParseCount(value.fields[ExpectedSizeKey]);
      var temporaryIdentity :- ParseOption(value.fields[TemporaryIdentityKey], ParseIdentity);
      var generation :- ParseText(value.fields[GenerationKey]);
      Some(PublishIntent(workspaceId, slot, targetName, temporaryName, backupName, collection, kind, artifactId,
                         expectedSha256, expectedSize, prior, temporaryIdentity, generation))
  }

  lemma OptionalClaimRoundTrip(claim: Option<ArtifactClaim>)
    ensures ParseOption(OptionJson(claim, ClaimJson), ParseClaim) == Some(claim)
  {
    hide ParseClaim, HasKeys;
    if claim.Some? {
      ClaimRoundTrip(claim.value);
    }
  }

  lemma IntentRoundTrip(intent: PublishIntent)
    ensures ParseIntent(IntentJson(intent)) == Some(intent)
  {
    OptionalClaimRoundTrip(intent.oldClaim);
    OptionalIdentityRoundTrip(intent.temporaryIdentity);
    RouteRoundTrip(intent.collection, intent.kind);
    hide OptionJson, ParseOption, ParseClaim, ClaimJson, ParseIdentity, IdentityJson;
    hide KindJson, ParseKind, CollectionJson, ParseCollection;
    assert HasKeys(IntentJson(intent), INTENT_KEYS);
  }

  const JOURNAL_KEYS := {BackupNameKey, GenerationKey, NewClaimKey, OldClaimKey, PhaseKey, SlotKey, TargetNameKey,
                         TemporaryNameKey, WorkspaceIdKey}

  function JournalJson(journal: PublishJournal): Json {
    Object(map[BackupNameKey := Text(journal.backupName),
               GenerationKey := Text(journal.generation),
               NewClaimKey := ClaimJson(journal.newClaim),
               OldClaimKey := OptionJson(journal.oldClaim, ClaimJson),
               PhaseKey := PublishPhaseJson(journal.phase),
               SlotKey := Text(journal.slot),
               TargetNameKey := Text(journal.targetName),
               TemporaryNameKey := Text(journal.temporaryName),
               WorkspaceIdKey := Text(journal.workspaceId)])
  }

  function ParseJournal(value: Json): Option<PublishJournal> {
    if !HasKeys(value, JOURNAL_KEYS) then None
    else
      var prior :- ParseOption(value.fields[OldClaimKey], ParseClaim);
      var workspaceId :- ParseText(value.fields[WorkspaceIdKey]);
      var slot :- ParseText(value.fields[SlotKey]);
      var phase :- ParsePublishPhase(value.fields[PhaseKey]);
      var targetName :- ParseText(value.fields[TargetNameKey]);
      var temporaryName :- ParseText(value.fields[TemporaryNameKey]);
      var backupName :- ParseText(value.fields[BackupNameKey]);
      var newClaim :- ParseClaim(value.fields[NewClaimKey]);
      var generation :- ParseText(value.fields[GenerationKey]);
      Some(PublishJournal(workspaceId, slot, phase, targetName, temporaryName, backupName, newClaim, prior, generation))
  }

  lemma JournalRoundTrip(journal: PublishJournal)
    ensures ParseJournal(JournalJson(journal)) == Some(journal)
  {
    OptionalClaimRoundTrip(journal.oldClaim);
    ClaimRoundTrip(journal.newClaim);
    hide OptionJson, ParseOption, ParseClaim, ClaimJson;
    assert HasKeys(JournalJson(journal), JOURNAL_KEYS);
  }

  const DELETE_KEYS := {ClaimKey, GenerationKey, PhaseKey, QuarantineNameKey, SlotKey, WorkspaceIdKey}

  function DeleteItemJson(item: DeleteItem): Json {
    Object(map[ClaimKey := ClaimJson(item.claim),
               GenerationKey := Text(item.generation),
               PhaseKey := DeletePhaseJson(item.phase),
               QuarantineNameKey := OptionJson(item.quarantineName, TextJson),
               SlotKey := Text(item.slot),
               WorkspaceIdKey := Text(item.workspaceId)])
  }

  function ParseDeleteItem(value: Json): Option<DeleteItem> {
    if !HasKeys(value, DELETE_KEYS) then None
    else
      var claim :- ParseClaim(value.fields[ClaimKey]);
      var workspaceId :- ParseText(value.fields[WorkspaceIdKey]);
      var slot :- ParseText(value.fields[SlotKey]);
      var phase :- ParseDeletePhase(value.fields[PhaseKey]);
      var quarantineName :- ParseOption(value.fields[QuarantineNameKey], ParseText);
      var generation :- ParseText(value.fields[GenerationKey]);
      Some(DeleteItem(workspaceId, slot, phase, quarantineName, claim, generation))
  }

  lemma DeleteItemRoundTrip(item: DeleteItem)
    ensures ParseDeleteItem(DeleteItemJson(item)) == Some(item)
  {
    ClaimRoundTrip(item.claim);
    hide ParseClaim, ClaimJson;
    assert HasKeys(DeleteItemJson(item), DELETE_KEYS);
  }

  /** One collection directory of one workspace. */
  datatype CollectionRow = CollectionRow(workspaceId: string, collection: Collection, identity: Identity)

  const COLLECTION_KEYS := {CollectionKey, IdentityKey, WorkspaceIdKey}

  function CollectionRowJson(row: CollectionRow): Json {
    Object(map[CollectionKey := CollectionJson(row.collection),
               IdentityKey := IdentityJson(row.identity),
               WorkspaceIdKey := Text(row.workspaceId)])
  }

  function ParseCollectionRow(value: Json): Option<CollectionRow> {
    if !HasKeys(value, COLLECTION_KEYS) then None
    else
      var workspaceId :- ParseText(value.fields[WorkspaceIdKey]);
      var collection :- ParseCollection(value.fields[CollectionKey]);
      var identity :- ParseIdentity(value.fields[IdentityKey]);
      Some(CollectionRow(workspaceId, collection, identity))
  }

  lemma CollectionRowRoundTrip(row: CollectionRow)
    ensures ParseCollectionRow(CollectionRowJson(row)) == Some(row)
  {
    IdentityRoundTrip(row.identity);
    hide IdentityJson, ParseIdentity;
    assert HasKeys(CollectionRowJson(row), COLLECTION_KEYS);
  }

  // ---------------------------------------------------------------- tables as lists of rows

  /** The sequence lists every key once. */
  ghost predicate Lists<K(!new)>(order: seq<K>, keys: set<K>) {
    && (forall k :: k in order <==> k in keys)
    && forall i, j | 0 <= i < j < |order| :: order[i] != order[j]
  }

  function RowsIn<K, V>(table: map<K, V>, order: seq<K>): (rows: seq<V>)
    requires forall k | k in order :: k in table
    ensures |rows| == |order| && forall i | 0 <= i < |rows| :: rows[i] == table[order[i]]
  {
    seq(|order|, i requires 0 <= i < |order| => table[order[i]])
  }

  /** Reads rows into a table; a key that appears twice is an error. */
  function Gather<K(==), V>(rows: seq<V>, key: V -> K): Option<map<K, V>> {
    if rows == [] then Some(map[])
    else
      var last := rows[|rows| - 1];
      var table :- Gather(rows[..|rows| - 1], key);
      if key(last) in table then None else Some(table[key(last) := last])
  }

  lemma NothingListed<K(!new)>(keys: set<K>)
    requires Lists([], keys)
    ensures keys == {}
  {
    forall k
      ensures k !in keys
    {
      assert k !in [];
    }
  }

  lemma FrontLists<K(!new)>(order: seq<K>, keys: set<K>)
    requires order != [] && Lists(order, keys)
    ensures order[|order| - 1] in keys && (forall k | k in order :: k in keys)
    ensures Lists(order[..|order| - 1], keys - {order[|order| - 1]})
  {
    var front, last := order[..|order| - 1], order[|order| - 1];
    assert order == front + [last];
    forall k
      ensures k in front <==> k in keys - {last}
    {
      assert k in order <==> (k in front || k == last);
    }
  }

  lemma ListedAreKeys<K(!new)>(order: seq<K>, keys: set<K>)
    requires Lists(order, keys)
    ensures forall k | k in order :: k in keys
  {}

  lemma RowsGrow<K, V>(table: map<K, V>, order: seq<K>)
    requires order != [] && (forall k | k in order :: k in table)
    requires forall k | k in order[..|order| - 1] :: k in table && k != order[|order| - 1]
    ensures RowsIn(table, order) == RowsIn(table - {order[|order| - 1]}, order[..|order| - 1])
                                    + [table[order[|order| - 1]]]
  {
    var front, last := order[..|order| - 1], order[|order| - 1];
    forall i | 0 <= i < |front|
      ensures RowsIn(table, order)[i] == RowsIn(table - {last}, front)[i]
    {
      assert front[i] in front;
    }
  }

  lemma GatherGrows<K, V>(rows: seq<V>, row: V, key: V -> K)
    ensures var table := Gather(rows, key);
            table.Some? && key(row) !in table.value ==> Gather(rows + [row], key) == Some(table.value[key(row) := row])
  {
    assert (rows + [row])[..|rows|] == rows;
  }

  lemma {:induction false} GatherRestores<K(!new), V>(table: map<K, V>, order: seq<K>, key: V -> K)
    requires Lists(order, table.Keys) && forall k | k in table :: key(table[k]) == k
    ensures Gather(RowsIn(table, order), key) == Some(table)
    decreases |order|
  {
    hide Lists;
    if order == [] {
      NothingListed(table.Keys);
      assert table == map[];
    } else {
      var front, last := order[..|order| - 1], order[|order| - 1];
      var smaller := table - {last};
      FrontLists(order, table.Keys);
      assert smaller.Keys == table.Keys - {last};
      ListedAreKeys(front, smaller.Keys);
      GatherRestores(smaller, front, key);
      RowsGrow(table, order);
      GatherGrows(RowsIn(smaller, front), table[last], key);
      assert smaller[last := table[last]] == table;
    }
  }

  function EncodeAll<V>(rows: seq<V>, encode: V -> Json): (items: seq<Json>)
    ensures |items| == |rows| && forall i | 0 <= i < |rows| :: items[i] == encode(rows[i])
  {
    seq(|rows|, i requires 0 <= i < |rows| => encode(rows[i]))
  }

  function ParseAll<V>(items: seq<Json>, parse: Json -> Option<V>): Option<seq<V>> {
    if items == [] then Some([])
    else
      var front :- ParseAll(items[..|items| - 1], parse);
      var last :- parse(items[|items| - 1]);
      Some(front + [last])
  }

  lemma {:induction false} ParseAllRestores<V(!new)>(rows: seq<V>, encode: V -> Json, parse: Json -> Option<V>)
    requires forall row :: parse(encode(row)) == Some(row)
    ensures ParseAll(EncodeAll(rows, encode), parse) == Some(rows)
    decreases |rows|
  {
    if rows != [] {
      var front := rows[..|rows| - 1];
      ParseAllRestores(front, encode, parse);
      var items := EncodeAll(rows, encode);
      assert items[..|items| - 1] == EncodeAll(front, encode);
      assert rows == front + [rows[|rows| - 1]];
    }
  }

  /** A list of rows read into a table. */
  function ParseTable<K(==), V>(value: Json, parse: Json -> Option<V>, key: V -> K): Option<map<K, V>> {
    if !value.List? then None
    else
      var rows :- ParseAll(value.items, parse);
      Gather(rows, key)
  }

  function TableJson<K, V>(table: map<K, V>, order: seq<K>, encode: V -> Json): Json
    requires forall k | k in order :: k in table
  {
    List(EncodeAll(RowsIn(table, order), encode))
  }

  lemma TableRoundTrip<K(!new), V(!new)>(table: map<K, V>, order: seq<K>, encode: V -> Json,
                                        parse: Json -> Option<V>, key: V -> K)
    requires Lists(order, table.Keys) && (forall k | k in table :: key(table[k]) == k)
    requires forall row :: parse(encode(row)) == Some(row)
    ensures ParseTable(TableJson(table, order, encode), parse, key) == Some(table)
  {
    ParseAllRestores(RowsIn(table, order), encode, parse);
    GatherRestores(table, order, key);
  }

  // ---------------------------------------------------------------- collections, two maps deep

  type CollectionRows = map<(string, Collection), CollectionRow>

  function CollectionRowKey(row: CollectionRow): (string, Collection) {
    (row.workspaceId, row.collection)
  }

  /** The inner maps laid out as rows; an empty inner map has none. */
  function Unnested(collections: map<string, map<Collection, Identity>>): CollectionRows {
    map id, c | id in collections && c in collections[id] :: (id, c) := CollectionRow(id, c, collections[id][c])
  }

  function InnerMap(rows: CollectionRows, id: string): map<Collection, Identity> {
    map key | key in rows && key.0 == id :: key.1 := rows[key].identity
  }

  function Nested(rows: CollectionRows): map<string, map<Collection, Identity>> {
    map id | id in (set key | key in rows :: key.0) :: InnerMap(rows, id)
  }

  /** Nesting restores the inner maps exactly when none of them is empty. */
  lemma NestingRestores(collections: map<string, map<Collection, Identity>>)
    ensures Nested(Unnested(collections)) == collections <==>
              forall id | id in collections :: collections[id] != map[]
  {
    var rows := Unnested(collections);
    var nested := Nested(rows);
    forall id | id in collections && collections[id] != map[]
      ensures id in nested && nested[id] == collections[id]
    {
      InnerMapRestores(collections, id);
    }
    forall id | id in nested
      ensures id in collections && collections[id] != map[]
    {
      var key :| key in rows && key.0 == id;
      assert key.1 in collections[id];
    }
  }

  lemma InnerMapRestores(collections: map<string, map<Collection, Identity>>, id: string)
    requires id in collections && collections[id] != map[]
    ensures id in Nested(Unnested(collections)) && Nested(Unnested(collections))[id] == collections[id]
  {
    hide InnerMap, Unnested;
    var rows := Unnested(collections);
    var c :| c in collections[id];
    RowAt(collections, id, c);
    assert id in (set key | key in rows :: key.0);
    InnerMapIs(collections, id);
  }

  lemma RowAt(collections: map<string, map<Collection, Identity>>, id: string, c: Collection)
    requires id in collections
    ensures (id, c) in Unnested(collections) <==> c in collections[id]
    ensures c in collections[id] ==> Unnested(collections)[(id, c)].identity == collections[id][c]
  {}

  lemma InnerMapIs(collections: map<string, map<Collection, Identity>>, id: string)
    requires id in collections
    ensures InnerMap(Unnested(collections), id) == collections[id]
  {
    hide Unnested;
    var inner := InnerMap(Unnested(collections), id);
    forall d
      ensures d in inner <==> d in collections[id]
      ensures d in inner ==> inner[d] == collections[id][d]
    {
      RowAt(collections, id, d);
      assert d in inner <==> (id, d) in Unnested(collections);
    }
  }

  // ---------------------------------------------------------------- the document

  /** The order in which each table's rows are written; by key, in the program. */
  datatype Order = Order(
    workspaces: seq<string>,
    collections: seq<(string, Collection)>,
    artifacts: seq<(string, string)>,
    intents: seq<string>,
    journals: seq<string>,
    deleteItems: seq<(string, string)>)

  ghost predicate Ordered(t: Tables, order: Order) {
    && Lists(order.workspaces, t.workspaces.Keys)
    && Lists(order.collections, Unnested(t.collections).Keys)
    && Lists(order.artifacts, t.artifacts.Keys)
    && Lists(order.intents, t.intents.Keys)
    && Lists(order.journals, t.journals.Keys)
    && Lists(order.deleteItems, t.deleteItems.Keys)
  }

  const TABLE_KEYS := {ArtifactsKey, CollectionsKey, DeleteItemsKey, IntentsKey, JournalsKey, WorkspacesKey}

  function TablesJson(t: Tables, order: Order): Json
    requires Ordered(t, order)
  {
    Object(map[ArtifactsKey := TableJson(t.artifacts, order.artifacts, ClaimJson),
               CollectionsKey := TableJson(Unnested(t.collections), order.collections, CollectionRowJson),
               DeleteItemsKey := TableJson(t.deleteItems, order.deleteItems, DeleteItemJson),
               IntentsKey := TableJson(t.intents, order.intents, IntentJson),
               JournalsKey := TableJson(t.journals, order.journals, JournalJson),
               WorkspacesKey := TableJson(t.workspaces, order.workspaces, WorkspaceJson)])
  }

  function ClaimRowKey(claim: ArtifactClaim): (string, string) {
    (claim.workspaceId, claim.slot)
  }

  function DeleteItemRowKey(item: DeleteItem): (string, string) {
    (item.workspaceId, item.slot)
  }

  function WorkspaceRowKey(claim: WorkspaceClaim): string {
    claim.workspaceId
  }

  function IntentRowKey(intent: PublishIntent): string {
    intent.workspaceId
  }

  function JournalRowKey(journal: PublishJournal): string {
    journal.workspaceId
  }

  function ParseTables(value: Json): Option<Tables> {
    if !HasKeys(value, TABLE_KEYS) then None
    else
      var workspaces :- ParseTable(value.fields[WorkspacesKey], ParseWorkspace, WorkspaceRowKey);
      var collections :- ParseTable(value.fields[CollectionsKey], ParseCollectionRow, CollectionRowKey);
      var artifacts :- ParseTable(value.fields[ArtifactsKey], ParseClaim, ClaimRowKey);
      var intents :- ParseTable(value.fields[IntentsKey], ParseIntent, IntentRowKey);
      var journals :- ParseTable(value.fields[JournalsKey], ParseJournal, JournalRowKey);
      var deleteItems :- ParseTable(value.fields[DeleteItemsKey], ParseDeleteItem, DeleteItemRowKey);
      Some(Tables(workspaces, Nested(collections), artifacts, intents, journals, deleteItems))
  }

  lemma ClaimTable(t: map<(string, string), ArtifactClaim>, order: seq<(string, string)>)
    requires Lists(order, t.Keys) && forall key | key in t :: ClaimRowKey(t[key]) == key
    ensures ParseTable(TableJson(t, order, ClaimJson), ParseClaim, ClaimRowKey) == Some(t)
  {
    hide ParseClaim, ClaimJson;
    forall row ensures ParseClaim(ClaimJson(row)) == Some(row) { ClaimRoundTrip(row); }
    TableRoundTrip(t, order, ClaimJson, ParseClaim, ClaimRowKey);
  }

  lemma CollectionTable(t: CollectionRows, order: seq<(string, Collection)>)
    requires Lists(order, t.Keys) && forall key | key in t :: CollectionRowKey(t[key]) == key
    ensures ParseTable(TableJson(t, order, CollectionRowJson), ParseCollectionRow, CollectionRowKey) == Some(t)
  {
    hide ParseCollectionRow, CollectionRowJson;
    forall row ensures ParseCollectionRow(CollectionRowJson(row)) == Some(row) { CollectionRowRoundTrip(row); }
    TableRoundTrip(t, order, CollectionRowJson, ParseCollectionRow, CollectionRowKey);
  }

  lemma DeleteItemTable(t: map<(string, string), DeleteItem>, order: seq<(string, string)>)
    requires Lists(order, t.Keys) && forall key | key in t :: DeleteItemRowKey(t[key]) == key
    ensures ParseTable(TableJson(t, order, DeleteItemJson), ParseDeleteItem, DeleteItemRowKey) == Some(t)
  {
    hide ParseDeleteItem, DeleteItemJson;
    forall row ensures ParseDeleteItem(DeleteItemJson(row)) == Some(row) { DeleteItemRoundTrip(row); }
    TableRoundTrip(t, order, DeleteItemJson, ParseDeleteItem, DeleteItemRowKey);
  }

  lemma IntentTable(t: map<string, PublishIntent>, order: seq<string>)
    requires Lists(order, t.Keys) && forall key | key in t :: IntentRowKey(t[key]) == key
    ensures ParseTable(TableJson(t, order, IntentJson), ParseIntent, IntentRowKey) == Some(t)
  {
    hide ParseIntent, IntentJson;
    forall row ensures ParseIntent(IntentJson(row)) == Some(row) { IntentRoundTrip(row); }
    TableRoundTrip(t, order, IntentJson, ParseIntent, IntentRowKey);
  }

  lemma JournalTable(t: map<string, PublishJournal>, order: seq<string>)
    requires Lists(order, t.Keys) && forall key | key in t :: JournalRowKey(t[key]) == key
    ensures ParseTable(TableJson(t, order, JournalJson), ParseJournal, JournalRowKey) == Some(t)
  {
    hide ParseJournal, JournalJson;
    forall row ensures ParseJournal(JournalJson(row)) == Some(row) { JournalRoundTrip(row); }
    TableRoundTrip(t, order, JournalJson, ParseJournal, JournalRowKey);
  }

  lemma WorkspaceTable(t: map<string, WorkspaceClaim>, order: seq<string>)
    requires Lists(order, t.Keys) && forall key | key in t :: WorkspaceRowKey(t[key]) == key
    ensures ParseTable(TableJson(t, order, WorkspaceJson), ParseWorkspace, WorkspaceRowKey) == Some(t)
  {
    hide ParseWorkspace, WorkspaceJson;
    forall row ensures ParseWorkspace(WorkspaceJson(row)) == Some(row) { WorkspaceRoundTrip(row); }
    TableRoundTrip(t, order, WorkspaceJson, ParseWorkspace, WorkspaceRowKey);
  }

  /** Every row is filed under its own key. */
  ghost predicate Filed(t: Tables) {
    && (forall id | id in t.workspaces :: WorkspaceRowKey(t.workspaces[id]) == id)
    && (forall key | key in t.artifacts :: ClaimRowKey(t.artifacts[key]) == key)
    && (forall id | id in t.intents :: IntentRowKey(t.intents[id]) == id)
    && (forall id | id in t.journals :: JournalRowKey(t.journals[id]) == id)
    && (forall key | key in t.deleteItems :: DeleteItemRowKey(t.deleteItems[key]) == key)
  }

  lemma UnnestedIsFiled(collections: map<string, map<Collection, Identity>>)
    ensures var rows := Unnested(collections); forall key | key in rows :: CollectionRowKey(rows[key]) == key
  {}

  /** Reading back what was written gives the tables, save that empty inner maps are lost, whatever the order. */
  lemma TablesRoundTrip(t: Tables, order: Order)
    requires Filed(t) && Ordered(t, order)
    ensures ParseTables(TablesJson(t, order)) == Some(t.(collections := Nested(Unnested(t.collections))))
  {
    hide Lists, ParseTable, TableJson, Nested, Unnested, ParseClaim, ClaimJson, ParseCollectionRow, CollectionRowJson;
    hide ParseDeleteItem, DeleteItemJson, ParseIntent, IntentJson, ParseJournal, JournalJson, ParseWorkspace,
         WorkspaceJson;
    UnnestedIsFiled(t.collections);
    hide CollectionRowKey, ClaimRowKey, DeleteItemRowKey, IntentRowKey, JournalRowKey, WorkspaceRowKey;
    ClaimTable(t.artifacts, order.artifacts);
    CollectionTable(Unnested(t.collections), order.collections);
    DeleteItemTable(t.deleteItems, order.deleteItems);
    IntentTable(t.intents, order.intents);
    JournalTable(t.journals, order.journals);
    WorkspaceTable(t.workspaces, order.workspaces);
    assert HasKeys(TablesJson(t, order), TABLE_KEYS);
  }
}
