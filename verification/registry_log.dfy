/**
 The registry's log: a header line and one record a state, each record chained to the one before by its
 SHA-256, read from the start on every call and extended by one record on every change.
 */
module RegistryLog {
  import opened Outcomes
  import opened Registry
  import opened RegistryInvariant
  import opened RegistryJson

  const MAX_RECORD_BYTES := 16 * 1024 * 1024
  const MAX_LOG_BYTES := 256 * 1024 * 1024
  const TAB: byte := 9
  const NEWLINE: byte := 10
  const SCHEMA_VERSION := 1

  /** The header every log begins with: `EXAMSAGE-EVIDENCE-REGISTRY-LOG-v1` and a newline. */
  function Magic(): Bytes {
    [69, 88, 65, 77, 83, 65, 71, 69, 45, 69, 86, 73, 68, 69, 78, 67, 69, 45,
     82, 69, 71, 73, 83, 84, 82, 89, 45, 76, 79, 71, 45, 118, 49, 10]
  }

  // ---------------------------------------------------------------- tables and workspaces

  function Flatten(s: State): Tables {
    Tables(
      map id | id in s && s[id].workspace.Some? :: s[id].workspace.value,
      map id | id in s && s[id].collections.Some? :: s[id].collections.value,
      map id, slot | id in s && slot in s[id].artifacts :: (id, slot) := s[id].artifacts[slot],
      map id | id in s && s[id].intent.Some? :: s[id].intent.value,
      map id | id in s && s[id].journal.Some? :: s[id].journal.value,
      map id, slot | id in s && slot in s[id].deleteItems :: (id, slot) := s[id].deleteItems[slot])
  }

  function RowsOf<V>(table: map<(string, string), V>, id: string): map<string, V> {
    map key | key in table && key.0 == id :: key.1 := table[key]
  }

  function SpaceAt(t: Tables, id: string): Space {
    Space(Lookup(t.workspaces, id), Lookup(t.collections, id), RowsOf(t.artifacts, id),
          Lookup(t.intents, id), Lookup(t.journals, id), RowsOf(t.deleteItems, id))
  }

  function Ids(t: Tables): set<string> {
    t.workspaces.Keys + t.collections.Keys + (set key | key in t.artifacts :: key.0)
    + t.intents.Keys + t.journals.Keys + (set key | key in t.deleteItems :: key.0)
  }

  function Grouped(t: Tables): State {
    map id | id in Ids(t) :: SpaceAt(t, id)
  }

  /** No workspace is listed without a row. */
  predicate NoEmptySpace(s: State) {
    forall id | id in s :: s[id] != EMPTY
  }

  lemma RowsOfNested<V>(nested: map<string, map<string, V>>, table: map<(string, string), V>, id: string)
    requires forall key :: key in table <==> key.0 in nested && key.1 in nested[key.0]
    requires forall key | key in table :: table[key] == nested[key.0][key.1]
    ensures RowsOf(table, id) == if id in nested then nested[id] else map[]
    ensures (exists key :: key in table && key.0 == id) <==> RowsOf(table, id) != map[]
  {
    var rows := RowsOf(table, id);
    forall slot
      ensures slot in rows <==> (id, slot) in table
      ensures slot in rows ==> rows[slot] == table[(id, slot)]
    {
    }
    if rows != map[] {
      var slot :| slot in rows;
      assert (id, slot) in table && (id, slot).0 == id;
    }
    if id in nested {
      assert rows.Keys == nested[id].Keys;
    }
  }

  lemma FlattenedRows(s: State, id: string)
    ensures var t := Flatten(s);
            && RowsOf(t.artifacts, id) == SpaceOf(s, id).artifacts
            && RowsOf(t.deleteItems, id) == SpaceOf(s, id).deleteItems
            && ((exists key :: key in t.artifacts && key.0 == id) <==> SpaceOf(s, id).artifacts != map[])
            && ((exists key :: key in t.deleteItems && key.0 == id) <==> SpaceOf(s, id).deleteItems != map[])
  {
    hide RowsOf;
    RowsOfNested(map k | k in s :: s[k].artifacts, Flatten(s).artifacts, id);
    RowsOfNested(map k | k in s :: s[k].deleteItems, Flatten(s).deleteItems, id);
  }

  lemma FlattenedLookups(s: State, id: string)
    ensures var t := Flatten(s);
            && Lookup(t.workspaces, id) == SpaceOf(s, id).workspace
            && Lookup(t.collections, id) == SpaceOf(s, id).collections
            && Lookup(t.intents, id) == SpaceOf(s, id).intent
            && Lookup(t.journals, id) == SpaceOf(s, id).journal
  {}

  lemma FlattenedSpace(s: State, id: string)
    requires NoEmptySpace(s)
    ensures SpaceAt(Flatten(s), id) == SpaceOf(s, id)
    ensures id in Ids(Flatten(s)) <==> id in s
  {
    FlattenedRows(s, id);
    FlattenedLookups(s, id);
    hide RowsOf, Flatten;
    var t := Flatten(s);
    assert id in (set key | key in t.artifacts :: key.0) <==> exists key :: key in t.artifacts && key.0 == id;
    assert id in (set key | key in t.deleteItems :: key.0) <==> exists key :: key in t.deleteItems && key.0 == id;
    assert id in Ids(t) <==> SpaceAt(t, id) != EMPTY;
  }

  lemma GroupingRestores(s: State)
    requires NoEmptySpace(s)
    ensures Grouped(Flatten(s)) == s
  {
    hide Flatten, Ids, SpaceAt;
    forall id
      ensures id in Grouped(Flatten(s)) <==> id in s
      ensures id in s ==> Grouped(Flatten(s))[id] == s[id]
    {
      FlattenedSpace(s, id);
    }
  }

  lemma GroupedIsNotEmpty(t: Tables)
    ensures NoEmptySpace(Grouped(t))
  {
    hide SpaceAt, Ids;
    forall id | id in Ids(t)
      ensures SpaceAt(t, id) != EMPTY
    {
      ListedSpaceHasRows(t, id);
    }
  }

  lemma ListedSpaceHasRows(t: Tables, id: string)
    requires id in Ids(t)
    ensures SpaceAt(t, id) != EMPTY
  {
    if key :| key in t.artifacts && key.0 == id {
      assert key.1 in RowsOf(t.artifacts, id);
    } else if key :| key in t.deleteItems && key.0 == id {
      assert key.1 in RowsOf(t.deleteItems, id);
    }
  }

  lemma ValidIsFiled(s: State)
    requires ValidState(s)
    ensures Filed(Flatten(s))
  {
    hide SpaceValid;
    forall id | id in s
      ensures forall slot | slot in s[id].artifacts :: ClaimRowKey(s[id].artifacts[slot]) == (id, slot)
      ensures forall slot | slot in s[id].deleteItems :: DeleteItemRowKey(s[id].deleteItems[slot]) == (id, slot)
      ensures s[id].workspace.Some? ==> s[id].workspace.value.workspaceId == id
      ensures s[id].intent.Some? ==> s[id].intent.value.workspaceId == id
      ensures s[id].journal.Some? ==> s[id].journal.value.workspaceId == id
    {
      ValidSpaceIsFiled(id, s[id]);
    }
  }

  lemma ValidSpaceIsFiled(id: string, s: Space)
    requires SpaceValid(id, s)
    ensures forall slot | slot in s.artifacts :: ClaimRowKey(s.artifacts[slot]) == (id, slot)
    ensures forall slot | slot in s.deleteItems :: DeleteItemRowKey(s.deleteItems[slot]) == (id, slot)
    ensures s.workspace.Some? ==> s.workspace.value.workspaceId == id
    ensures s.intent.Some? ==> s.intent.value.workspaceId == id
    ensures s.journal.Some? ==> s.journal.value.workspaceId == id
    ensures s.collections.Some? ==> s.collections.value != map[]
  {
    forall slot | slot in s.artifacts
      ensures ClaimRowKey(s.artifacts[slot]) == (id, slot)
    {
      assert ArtifactValid(id, s, slot, s.artifacts[slot]);
    }
    forall slot | slot in s.deleteItems
      ensures DeleteItemRowKey(s.deleteItems[slot]) == (id, slot)
    {
      assert DeleteItemValid(id, s, slot, s.deleteItems[slot]);
    }
    if s.collections.Some? {
      assert Parts in s.collections.value;
    }
  }

  /** Any state that passes the check is restored by writing it out and reading it back. */
  lemma ValidStateRoundTrips(s: State, order: Order)
    requires ValidState(s) && NoEmptySpace(s) && Ordered(Flatten(s), order)
    ensures ParseTables(TablesJson(Flatten(s), order)) == Some(Flatten(s))
    ensures Grouped(Flatten(s)) == s
  {
    ValidIsFiled(s);
    hide ParseTables, TablesJson, Filed, Ordered, Nested, Unnested, SpaceValid;
    forall id | id in s
      ensures s[id].collections.Some? ==> s[id].collections.value != map[]
    {
      ValidSpaceIsFiled(id, s[id]);
    }
    TablesRoundTrip(Flatten(s), order);
    NestingRestores(Flatten(s).collections);
    GroupingRestores(s);
  }

  /** A workspace whose three collection rows are missing is not restored: the check has to demand them. */
  lemma EmptyCollectionsAreLost(s: State, order: Order, id: string)
    requires id in s && s[id].collections == Some(map[])
    requires Filed(Flatten(s)) && Ordered(Flatten(s), order)
    ensures ParseTables(TablesJson(Flatten(s), order)) != Some(Flatten(s))
  {
    TablesRoundTrip(Flatten(s), order);
    hide ParseTables, TablesJson, Filed, Ordered, Nested, Unnested;
    NestingRestores(Flatten(s).collections);
    assert Flatten(s).collections[id] == map[];
  }

  // ---------------------------------------------------------------- records

  /** The library functions a record is made with, and the order rows are written in. */
  datatype Codec = Codec(canonical: Json -> Bytes, loads: Bytes -> Option<Json>, sha: Bytes -> Bytes,
                         order: Tables -> Order)

  /**
   What the log needs of them: canonical JSON reads back and is ASCII without control characters, a digest is
   32 bytes long, and every row is written once.
   */
  ghost predicate Sound(c: Codec) {
    && (forall j :: c.loads(c.canonical(j)) == Some(j))
    && (forall j :: NEWLINE !in c.canonical(j))
    && (forall bytes :: |c.sha(bytes)| == 32)
    && (forall t :: Ordered(t, c.order(t)))
  }

  function HexDigit(n: nat): (digit: byte)
    requires n < 16
    ensures digit != TAB && digit != NEWLINE
  {
    if n < 10 then (48 + n) as byte else (87 + n) as byte
  }

  function HexValue(digit: byte): (value: Option<nat>)
    ensures value.Some? ==> value.value < 16
  {
    if 48 <= digit <= 57 then Some(digit as nat - 48)
    else if 97 <= digit <= 102 then Some(digit as nat - 87)
    else None
  }

  function Hex(digest: Bytes): (text: Bytes)
    ensures |text| == 2 * |digest|
  {
    if digest == [] then []
    else [HexDigit(digest[0] as nat / 16), HexDigit(digest[0] as nat % 16)] + Hex(digest[1..])
  }

  /** Pairs of lower-case hexadecimal digits as bytes. */
  function FromHex(text: Bytes): Option<Bytes> {
    if text == [] then Some([])
    else if |text| == 1 then None
    else
      var high :- HexValue(text[0]);
      var low :- HexValue(text[1]);
      var rest :- FromHex(text[2..]);
      Some([(16 * high + low) as byte] + rest)
  }

  /** Exactly sixty-four lower-case hexadecimal digits as 32 bytes. */
  function ParseHex(text: Bytes): Option<Bytes> {
    if |text| == 64 then FromHex(text) else None
  }

  lemma HexDigitRoundTrip(n: nat)
    requires n < 16
    ensures HexValue(HexDigit(n)) == Some(n)
  {}

  lemma {:induction false} HexRoundTrip(digest: Bytes)
    ensures FromHex(Hex(digest)) == Some(digest)
    ensures NEWLINE !in Hex(digest) && TAB !in Hex(digest)
  {
    hide HexDigit, HexValue;
    if digest != [] {
      HexDigitRoundTrip(digest[0] as nat / 16);
      HexDigitRoundTrip(digest[0] as nat % 16);
      HexRoundTrip(digest[1..]);
      assert Hex(digest)[2..] == Hex(digest[1..]);
      assert digest == [digest[0]] + digest[1..];
    }
  }

  function Chars(bytes: Bytes): string {
    if bytes == [] then "" else [bytes[0] as int as char] + Chars(bytes[1..])
  }

  function HexText(digest: Bytes): string {
    Chars(Hex(digest))
  }

  /** The 32 zero bytes the first record is chained to. */
  function NoDigest(): Bytes {
    [0, 0, 0, 0, 0, 0, 0, 0, 0, 0, 0, 0, 0, 0, 0, 0, 0, 0, 0, 0, 0, 0, 0, 0, 0, 0, 0, 0, 0, 0, 0, 0]
  }

  /** What a reader of the log knows after a record. */
  datatype View = View(state: State, sequence: nat, digest: Bytes)

  function Start(): View {
    View(map[], 0, NoDigest())
  }

  const DOCUMENT_KEYS := {PreviousSha256Key, RootIdentityKey, SchemaVersionKey, SequenceKey, StateKey}

  function DocumentJson(c: Codec, root: Identity, s: State, view: View): Json
    requires Sound(c)
  {
    Object(map[PreviousSha256Key := Text(HexText(view.digest)),
               RootIdentityKey := IdentityJson(root),
               SchemaVersionKey := Number(SCHEMA_VERSION),
               SequenceKey := Number(view.sequence + 1),
               StateKey := TablesJson(Flatten(s), c.order(Flatten(s)))])
  }

  function Body(c: Codec, root: Identity, s: State, view: View): Bytes
    requires Sound(c)
  {
    c.canonical(DocumentJson(c, root, s, view))
  }

  /** The digest that chains a state's record to the log it extends. */
  function ChainDigest(c: Codec, root: Identity, s: State, view: View): Bytes
    requires Sound(c)
  {
    c.sha(view.digest + Body(c, root, s, view))
  }

  function Line(c: Codec, root: Identity, s: State, view: View): Bytes
    requires Sound(c)
  {
    Body(c, root, s, view) + [TAB] + Hex(ChainDigest(c, root, s, view))
  }

  function EncodeRecord(c: Codec, root: Identity, s: State, view: View): Bytes
    requires Sound(c)
  {
    Line(c, root, s, view) + [NEWLINE]
  }

  function After(c: Codec, root: Identity, s: State, view: View): View
    requires Sound(c)
  {
    View(s, view.sequence + 1, ChainDigest(c, root, s, view))
  }

  function LastTab(line: Bytes): (found: Option<nat>)
    ensures found.Some? ==> found.value < |line|
  {
    if line == [] then None
    else if line[|line| - 1] == TAB then Some(|line| - 1)
    else LastTab(line[..|line| - 1])
  }

  lemma {:induction false} LastTabBefore(front: Bytes, rest: Bytes)
    requires TAB !in rest
    ensures LastTab(front + [TAB] + rest) == Some(|front|)
    decreases |rest|
  {
    var line := front + [TAB] + rest;
    if rest != [] {
      assert line[..|line| - 1] == front + [TAB] + rest[..|rest| - 1];
      LastTabBefore(front, rest[..|rest| - 1]);
    }
  }

  function ParseDocument(document: Json, root: Identity, view: View): Option<State> {
    if !HasKeys(document, DOCUMENT_KEYS) then None
    else if
      || document.fields[SchemaVersionKey] != Number(SCHEMA_VERSION)
      || document.fields[SequenceKey] != Number(view.sequence + 1)
      || document.fields[PreviousSha256Key] != Text(HexText(view.digest))
      || ParseIdentity(document.fields[RootIdentityKey]) != Some(root)
    then None
    else
      var tables :- ParseTables(document.fields[StateKey]);
      var s := Grouped(tables);
      if ValidState(s) then Some(s) else None
  }

  function DecodeRecord(c: Codec, root: Identity, line: Bytes, view: View): Option<View> {
    var tab :- LastTab(line);
    var body := line[..tab];
    var digest :- ParseHex(line[tab + 1..]);
    if digest != c.sha(view.digest + body) then None
    else
      var document :- c.loads(body);
      if c.canonical(document) != body then None
      else
        var s :- ParseDocument(document, root, view);
        Some(View(s, view.sequence + 1, digest))
  }

  lemma DocumentRoundTrips(c: Codec, root: Identity, s: State, view: View)
    requires Sound(c) && ValidState(s) && NoEmptySpace(s)
    ensures ParseDocument(DocumentJson(c, root, s, view), root, view) == Some(s)
  {
    hide TablesJson, ParseTables, Flatten, Grouped, ValidState, NoEmptySpace, HexText, ParseIdentity, IdentityJson,
         Ordered;
    IdentityRoundTrip(root);
    ValidStateRoundTrips(s, c.order(Flatten(s)));
    assert HasKeys(DocumentJson(c, root, s, view), DOCUMENT_KEYS);
  }

  /** A record decodes, at the place in the chain it was made for, to the state it was made from. */
  lemma RecordRoundTrips(c: Codec, root: Identity, s: State, view: View)
    requires Sound(c) && ValidState(s) && NoEmptySpace(s)
    ensures DecodeRecord(c, root, Line(c, root, s, view), view) == Some(After(c, root, s, view))
    ensures NEWLINE !in Line(c, root, s, view) && Line(c, root, s, view) != []
  {
    hide ParseDocument, DocumentJson, ValidState, NoEmptySpace, Hex, FromHex, LastTab, Ordered;
    DocumentRoundTrips(c, root, s, view);
    var body, digest := Body(c, root, s, view), ChainDigest(c, root, s, view);
    HexRoundTrip(digest);
    LastTabBefore(body, Hex(digest));
    var line := Line(c, root, s, view);
    assert line[..|body|] == body && line[|body| + 1..] == Hex(digest);
  }

  /** What a decoded record can hold: a state that passed the check, with no empty workspace. */
  lemma DecodedIsValid(c: Codec, root: Identity, line: Bytes, view: View)
    ensures var decoded := DecodeRecord(c, root, line, view);
            decoded.Some? ==> ValidState(decoded.value.state) && NoEmptySpace(decoded.value.state)
                              && decoded.value.sequence == view.sequence + 1
  {
    hide Grouped, ValidState, NoEmptySpace, ParseTables, ParseIdentity, HexText;
    forall t ensures NoEmptySpace(Grouped(t)) { GroupedIsNotEmpty(t); }
  }

  // ---------------------------------------------------------------- the log as a whole

  function FindNewline(raw: Bytes, cursor: nat): (found: Option<nat>)
    requires cursor <= |raw|
    ensures found.None? <==> forall i | cursor <= i < |raw| :: raw[i] != NEWLINE
    ensures found.Some? ==>
              && cursor <= found.value < |raw| && raw[found.value] == NEWLINE
              && forall i | cursor <= i < found.value :: raw[i] != NEWLINE
    decreases |raw| - cursor
  {
    if cursor == |raw| then None
    else if raw[cursor] == NEWLINE then Some(cursor)
    else FindNewline(raw, cursor + 1)
  }

  /** What reading a log gives: the last record's view, and how much of the file is complete records. */
  datatype Reading = Reading(view: View, length: nat)

  function ReadFrom(c: Codec, root: Identity, raw: Bytes, cursor: nat, view: View): (reading: Option<Reading>)
    requires cursor <= |raw|
    ensures reading.Some? ==> cursor <= reading.value.length <= |raw|
    decreases |raw| - cursor
  {
    match FindNewline(raw, cursor)
    case None => Some(Reading(view, cursor))
    case Some(newline) =>
      if newline == cursor || newline - cursor > MAX_RECORD_BYTES then None
      else
        var next :- DecodeRecord(c, root, raw[cursor..newline], view);
        ReadFrom(c, root, raw, newline + 1, next)
  }

  function Read(c: Codec, root: Identity, raw: Bytes): (reading: Option<Reading>)
    ensures reading.Some? ==> reading.value.length <= |raw|
  {
    if |raw| > MAX_LOG_BYTES || !(Magic() <= raw) then None
    else ReadFrom(c, root, raw, |Magic()|, Start())
  }

  lemma {:induction false} ReadingIsValid(c: Codec, root: Identity, raw: Bytes, cursor: nat, view: View)
    requires cursor <= |raw| && ValidState(view.state) && NoEmptySpace(view.state)
    ensures var reading := ReadFrom(c, root, raw, cursor, view);
            reading.Some? ==>
              && ValidState(reading.value.view.state) && NoEmptySpace(reading.value.view.state)
              && (forall i | reading.value.length <= i < |raw| :: raw[i] != NEWLINE)
              && view.sequence <= reading.value.view.sequence
    decreases |raw| - cursor
  {
    hide ValidState, NoEmptySpace, DecodeRecord, FindNewline;
    var found := FindNewline(raw, cursor);
    if found.Some? {
      DecodedIsValid(c, root, raw[cursor..found.value], view);
      var next := DecodeRecord(c, root, raw[cursor..found.value], view);
      if next.Some? {
        ReadingIsValid(c, root, raw, found.value + 1, next.value);
      }
    }
  }

  lemma FirstNewline(raw: Bytes, cursor: nat, n: nat)
    requires cursor <= n < |raw| && raw[n] == NEWLINE
    requires forall i | cursor <= i < n :: raw[i] != NEWLINE
    ensures FindNewline(raw, cursor) == Some(n)
  {
    assert FindNewline(raw, cursor).Some?;
  }

  /** Bytes behind a newline do not change where it is found. */
  lemma FindNewlineIgnoresTail(raw: Bytes, tail: Bytes, cursor: nat)
    requires cursor <= |raw| && FindNewline(raw, cursor).Some?
    ensures FindNewline(raw + tail, cursor) == FindNewline(raw, cursor)
  {
    FirstNewline(raw + tail, cursor, FindNewline(raw, cursor).value);
  }

  /** Reading on past complete records: the tail is read from where they end. */
  lemma {:induction false} ReadingGoesOn(c: Codec, root: Identity, raw: Bytes, tail: Bytes, cursor: nat, view: View)
    requires cursor <= |raw| && ReadFrom(c, root, raw, cursor, view).Some?
    requires ReadFrom(c, root, raw, cursor, view).value.length == |raw|
    ensures ReadFrom(c, root, raw + tail, cursor, view)
            == ReadFrom(c, root, raw + tail, |raw|, ReadFrom(c, root, raw, cursor, view).value.view)
    decreases |raw| - cursor
  {
    hide DecodeRecord, FindNewline;
    var found := FindNewline(raw, cursor);
    if found.Some? {
      FindNewlineIgnoresTail(raw, tail, cursor);
      assert (raw + tail)[cursor..found.value] == raw[cursor..found.value];
      ReadingGoesOn(c, root, raw, tail, found.value + 1, DecodeRecord(c, root, raw[cursor..found.value], view).value);
    }
  }

  /** Cutting off an incomplete tail changes nothing that is read. */
  lemma {:induction false} TruncationIsExact(c: Codec, root: Identity, raw: Bytes, cursor: nat, view: View, length: nat)
    requires cursor <= |raw| && ReadFrom(c, root, raw, cursor, view).Some?
    requires ReadFrom(c, root, raw, cursor, view).value.length == length && cursor <= length <= |raw|
    ensures ReadFrom(c, root, raw[..length], cursor, view) == ReadFrom(c, root, raw, cursor, view)
    decreases |raw| - cursor
  {
    hide DecodeRecord, FindNewline;
    var found := FindNewline(raw, cursor);
    if found.None? {
      assert raw[..length][cursor..] == [];
    } else {
      var next := DecodeRecord(c, root, raw[cursor..found.value], view).value;
      TruncationIsExact(c, root, raw, found.value + 1, next, length);
      NewlineStays(raw, cursor, length);
      assert raw[..length][cursor..found.value] == raw[cursor..found.value];
    }
  }

  lemma NewlineStays(raw: Bytes, cursor: nat, length: nat)
    requires cursor <= length <= |raw| && FindNewline(raw, cursor).Some? && FindNewline(raw, cursor).value < length
    ensures FindNewline(raw[..length], cursor) == FindNewline(raw, cursor)
  {
    FirstNewline(raw[..length], cursor, FindNewline(raw, cursor).value);
  }

  predicate RecordFits(c: Codec, root: Identity, raw: Bytes, s: State, view: View)
    requires Sound(c)
  {
    var size := |EncodeRecord(c, root, s, view)|;
    size <= MAX_RECORD_BYTES && |raw| + size <= MAX_LOG_BYTES
  }

  /**
   The log is crash-atomic: a valid log with any proper prefix of the next record behind it reads as it did
   before, and with the whole record as the new state.
   */
  lemma AppendIsAtomic(c: Codec, root: Identity, raw: Bytes, view: View, s: State, written: nat)
    requires Sound(c) && ValidState(s) && NoEmptySpace(s)
    requires Read(c, root, raw) == Some(Reading(view, |raw|)) && RecordFits(c, root, raw, s, view)
    requires written <= |EncodeRecord(c, root, s, view)|
    ensures var record := EncodeRecord(c, root, s, view);
            Read(c, root, raw + record[..written])
            == Some(if written < |record| then Reading(view, |raw|)
                    else Reading(After(c, root, s, view), |raw| + |record|))
  {
    hide DecodeRecord, ValidState, NoEmptySpace, ReadFrom, Line, After, Sound, Magic, Start;
    var record := EncodeRecord(c, root, s, view);
    var whole := raw + record[..written];
    ReadingGoesOn(c, root, raw, record[..written], |Magic()|, Start());
    RecordRoundTrips(c, root, s, view);
    if written < |record| {
      TornRecordIsSkipped(c, root, raw, record[..written], view);
    } else {
      assert record[..written] == record;
      WholeRecordIsRead(c, root, raw, Line(c, root, s, view), view);
    }
  }

  lemma TornRecordIsSkipped(c: Codec, root: Identity, raw: Bytes, torn: Bytes, view: View)
    requires NEWLINE !in torn
    ensures ReadFrom(c, root, raw + torn, |raw|, view) == Some(Reading(view, |raw|))
  {
    forall i | |raw| <= i < |raw + torn|
      ensures (raw + torn)[i] != NEWLINE
    {
      assert (raw + torn)[i] == torn[i - |raw|];
    }
  }

  lemma LastRecordIsRead(c: Codec, root: Identity, whole: Bytes, cursor: nat, n: nat, view: View)
    requires cursor < n && n + 1 == |whole| && n - cursor <= MAX_RECORD_BYTES
    requires FindNewline(whole, cursor) == Some(n) && DecodeRecord(c, root, whole[cursor..n], view).Some?
    ensures ReadFrom(c, root, whole, cursor, view)
            == Some(Reading(DecodeRecord(c, root, whole[cursor..n], view).value, |whole|))
  {
    hide DecodeRecord, FindNewline;
    assert FindNewline(whole, |whole|).None?;
  }

  lemma WholeRecordIsRead(c: Codec, root: Identity, raw: Bytes, line: Bytes, view: View)
    requires NEWLINE !in line && 0 < |line| <= MAX_RECORD_BYTES && DecodeRecord(c, root, line, view).Some?
    ensures ReadFrom(c, root, raw + (line + [NEWLINE]), |raw|, view)
            == Some(Reading(DecodeRecord(c, root, line, view).value, |raw| + |line| + 1))
  {
    hide DecodeRecord, FindNewline, ReadFrom;
    var whole := raw + (line + [NEWLINE]);
    forall i | |raw| <= i < |raw| + |line|
      ensures whole[i] != NEWLINE
    {
      assert whole[i] == line[i - |raw|];
    }
    FirstNewline(whole, |raw|, |raw| + |line|);
    assert whole[|raw|..|raw| + |line|] == line;
    LastRecordIsRead(c, root, whole, |raw|, |raw| + |line|, view);
  }
}
