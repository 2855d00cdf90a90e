/** The coverage ledger: one item an approved entry, with every part of the revision in exactly one bucket. */
module Coverage {
  import opened Outcomes
  import T = EvidenceTables

  datatype Part = Part(partId: string, entryId: string, locator: string, state: T.PartState, errorCode: Option<string>)

  datatype Entry = Entry(entryId: string, relativePath: string, approvedBytes: nat, included: bool)

  datatype NextAction = NoAction | Prepare | Analyze | Resume | Retry | Reapprove

  datatype Item = Item(
    topic: string,
    covered: bool,
    excluded: bool,
    entryId: Option<string>,
    relativePath: Option<string>,
    approvedBytes: nat,
    planned: nat,
    processed: nat,
    running: nat,
    pending: nat,
    retrying: nat,
    failed: nat,
    invalidated: nat,
    processedLocators: seq<string>,
    currentLocator: Option<string>,
    failureCodes: seq<string>,
    lastEvidenceAt: Option<int>,
    influenced: bool,
    nextAction: NextAction)

  datatype Summary = Summary(
    items: seq<Item>,
    covered: nat,
    total: nat,
    excluded: nat,
    approvedBytes: nat,
    planned: nat,
    processed: nat,
    running: nat,
    pending: nat,
    retrying: nat,
    failed: nat,
    invalidated: nat)

  // ---------------------------------------------------------------- what the models demand

  predicate Distinct(texts: seq<string>) {
    forall i, j | 0 <= i < j < |texts| :: texts[i] != texts[j]
  }

  predicate ItemValid(item: Item) {
    && Distinct(item.processedLocators) && Distinct(item.failureCodes)
    && if item.entryId.None? then !item.excluded
       else if item.excluded then
         && !item.covered && item.approvedBytes == 0 && item.planned == 0 && item.processed == 0
         && item.running == 0 && item.pending == 0 && item.retrying == 0 && item.failed == 0 && item.invalidated == 0
         && item.processedLocators == [] && item.currentLocator.None? && item.failureCodes == []
         && item.lastEvidenceAt.None? && !item.influenced && item.nextAction == NoAction
         && item.relativePath.Some?
       else
         && item.relativePath.Some?
         && item.processed + item.running + item.pending + item.retrying + item.failed + item.invalidated
             == item.planned
         && (item.covered <==> item.planned > 0 && item.processed == item.planned)
         && |item.processedLocators| == item.processed
  }

  function Total(items: seq<Item>, count: Item -> nat): nat {
    if items == [] then 0 else Total(items[..|items| - 1], count) + count(items[|items| - 1])
  }

  function One(condition: bool): nat {
    if condition then 1 else 0
  }

  predicate EntryIdsDistinct(items: seq<Item>) {
    forall i, j | 0 <= i < j < |items| :: items[i].entryId.Some? ==> items[i].entryId != items[j].entryId
  }

  predicate TotalsExact(s: Summary) {
    && s.approvedBytes == Total(s.items, (i: Item) => i.approvedBytes)
    && s.planned == Total(s.items, (i: Item) => i.planned)
    && s.processed == Total(s.items, (i: Item) => i.processed)
    && s.running == Total(s.items, (i: Item) => i.running)
    && s.pending == Total(s.items, (i: Item) => i.pending)
    && s.retrying == Total(s.items, (i: Item) => i.retrying)
    && s.failed == Total(s.items, (i: Item) => i.failed)
    && s.invalidated == Total(s.items, (i: Item) => i.invalidated)
  }

  /** Distinct topics are demanded only where some item names no entry. */
  predicate SummaryValid(s: Summary) {
    && s.total >= 1 && s.total == |s.items|
    && s.covered == Total(s.items, (i: Item) => One(i.covered))
    && s.excluded == Total(s.items, (i: Item) => One(i.excluded))
    && EntryIdsDistinct(s.items)
    && ((forall i | 0 <= i < |s.items| :: s.items[i].entryId.Some?) ==> TotalsExact(s))
  }

  function Included(s: Summary): int {
    s.total - s.excluded
  }

  predicate IsPartial(s: Summary) {
    0 < s.covered < Included(s) || 0 < s.processed < s.planned
  }

  // ---------------------------------------------------------------- building the ledger

  const PENDING := {T.Planned, T.Authorized, T.Prepared}

  function OfEntry(parts: seq<Part>, entryId: string): (own: seq<Part>)
    ensures forall i | 0 <= i < |own| :: own[i] in parts && own[i].entryId == entryId
  {
    if parts == [] then []
    else OfEntry(parts[..|parts| - 1], entryId)
         + if parts[|parts| - 1].entryId == entryId then [parts[|parts| - 1]] else []
  }

  function Only(parts: seq<Part>, states: set<T.PartState>): (kept: seq<Part>)
    ensures forall i | 0 <= i < |kept| :: kept[i] in parts && kept[i].state in states
  {
    if parts == [] then []
    else Only(parts[..|parts| - 1], states) + if parts[|parts| - 1].state in states then [parts[|parts| - 1]] else []
  }

  function Locators(parts: seq<Part>): (locators: seq<string>)
    ensures |locators| == |parts| && forall i | 0 <= i < |parts| :: locators[i] == parts[i].locator
  {
    seq(|parts|, i requires 0 <= i < |parts| => parts[i].locator)
  }

  /** The latest recorded error of a part, or the one its plan was prepared with. */
  function ErrorOf(part: Part, errors: map<string, string>): Option<string> {
    if part.partId in errors && errors[part.partId] != "" then Some(errors[part.partId])
    else if part.errorCode.Some? && part.errorCode.value != "" then part.errorCode
    else None
  }

  /** The parts' errors, each once, in the order they are first met. */
  function FailureCodes(parts: seq<Part>, errors: map<string, string>): (codes: seq<string>)
    ensures Distinct(codes)
  {
    if parts == [] then []
    else
      var codes := FailureCodes(parts[..|parts| - 1], errors);
      var code := ErrorOf(parts[|parts| - 1], errors);
      if code.Some? && code.value !in codes then codes + [code.value] else codes
  }

  /** The latest time among the processed parts that have one. */
  function LatestTime(parts: seq<Part>, times: map<string, int>): Option<int> {
    if parts == [] then None
    else
      var front, last := LatestTime(parts[..|parts| - 1], times), parts[|parts| - 1].partId;
      if last !in times then front
      else if front.Some? && front.value >= times[last] then front
      else Some(times[last])
  }

  function FirstLocator(lists: seq<seq<Part>>): Option<string> {
    if lists == [] then None
    else if lists[0] != [] then Some(lists[0][0].locator)
    else FirstLocator(lists[1..])
  }

  function ExcludedItem(entry: Entry): Item {
    Item(entry.relativePath, false, true, Some(entry.entryId), Some(entry.relativePath), 0, 0, 0, 0, 0, 0, 0, 0, [],
         None, [], None, false, NoAction)
  }

  function ActionFor(own: seq<Part>): NextAction {
    if own == [] then Prepare
    else if Only(own, {T.Invalidated}) != [] then Reapprove
    else if Only(own, {T.RetryWait}) != [] then Resume
    else if Only(own, {T.Running}) != [] || Only(own, PENDING) != [] then Analyze
    else if Only(own, {T.Failed}) != [] then Retry
    else NoAction
  }

  function IncludedItem(entry: Entry, own: seq<Part>, times: map<string, int>, errors: map<string, string>): Item {
    var processed, running, pending := Only(own, {T.Processed}), Only(own, {T.Running}), Only(own, PENDING);
    var retrying, failed, invalidated := Only(own, {T.RetryWait}), Only(own, {T.Failed}), Only(own, {T.Invalidated});
    var lastProcessed := if processed == [] then [] else [processed[|processed| - 1]];
    Item(entry.relativePath, own != [] && |processed| == |own|, false, Some(entry.entryId), Some(entry.relativePath),
         entry.approvedBytes, |own|, |processed|, |running|, |pending|, |retrying|, |failed|, |invalidated|,
         Locators(processed), FirstLocator([running, invalidated, retrying, pending, failed, lastProcessed]),
         FailureCodes(retrying + failed, errors), LatestTime(processed, times), false, ActionFor(own))
  }

  function EntryItem(entry: Entry, parts: seq<Part>, times: map<string, int>, errors: map<string, string>): Item {
    if entry.included then IncludedItem(entry, OfEntry(parts, entry.entryId), times, errors) else ExcludedItem(entry)
  }

  /** Each part is in one bucket and no other. */
  lemma {:induction false} BucketsPartition(parts: seq<Part>)
    ensures |Only(parts, {T.Processed})| + |Only(parts, {T.Running})| + |Only(parts, PENDING)|
            + |Only(parts, {T.RetryWait})| + |Only(parts, {T.Failed})| + |Only(parts, {T.Invalidated})| == |parts|
    decreases |parts|
  {
    if parts != [] {
      BucketsPartition(parts[..|parts| - 1]);
      match parts[|parts| - 1].state
      case Planned | Authorized | Prepared =>
      case Running | Processed | RetryWait | Failed | Invalidated =>
    }
  }

  /** A built item passes its model's checks exactly when the entry's processed locators differ. */
  lemma EntryItemValid(entry: Entry, parts: seq<Part>, times: map<string, int>, errors: map<string, string>)
    ensures ItemValid(EntryItem(entry, parts, times, errors)) <==>
              entry.included ==> Distinct(Locators(Only(OfEntry(parts, entry.entryId), {T.Processed})))
  {
    BucketsPartition(OfEntry(parts, entry.entryId));
    hide Only, OfEntry, Locators, FailureCodes, FirstLocator, LatestTime, ActionFor;
  }

  lemma {:induction false} NoneOnly(parts: seq<Part>, states: set<T.PartState>)
    ensures Only(parts, states) == [] <==> forall p | p in parts :: p.state !in states
    decreases |parts|
  {
    if parts != [] {
      var front, last := parts[..|parts| - 1], parts[|parts| - 1];
      NoneOnly(front, states);
      assert forall p :: p in parts <==> p in front || p == last;
    }
  }

  predicate SomeIn(parts: seq<Part>, states: set<T.PartState>) {
    exists p | p in parts :: p.state in states
  }

  /** What is to be done about an entry, by the states its parts are in. */
  lemma NextActionIsRight(own: seq<Part>)
    ensures ActionFor(own) == Prepare <==> own == []
    ensures ActionFor(own) == Reapprove <==> SomeIn(own, {T.Invalidated})
    ensures ActionFor(own) == Resume <==> SomeIn(own, {T.RetryWait}) && !SomeIn(own, {T.Invalidated})
    ensures ActionFor(own) == Analyze <==>
              SomeIn(own, PENDING + {T.Running}) && !SomeIn(own, {T.Invalidated, T.RetryWait})
    ensures ActionFor(own) == Retry <==>
              SomeIn(own, {T.Failed}) && !SomeIn(own, PENDING + {T.Running, T.Invalidated, T.RetryWait})
    ensures ActionFor(own) == NoAction <==> own != [] && forall p | p in own :: p.state == T.Processed
  {
    NoneOnly(own, {T.Invalidated});
    NoneOnly(own, {T.RetryWait});
    NoneOnly(own, {T.Running});
    NoneOnly(own, PENDING);
    NoneOnly(own, {T.Failed});
    hide Only;
    if own != [] {
      assert own[0] in own;
    }
    forall p | p in own
      ensures p.state in PENDING || p.state in {T.Running, T.Processed, T.RetryWait, T.Failed, T.Invalidated}
    {
      match p.state
      case Planned | Authorized | Prepared =>
      case Running | Processed | RetryWait | Failed | Invalidated =>
    }
  }

  /** The time reported is that of the latest evidence among the parts that have any. */
  lemma {:induction false} LatestTimeIsLatest(parts: seq<Part>, times: map<string, int>)
    ensures LatestTime(parts, times).None? <==> forall p | p in parts :: p.partId !in times
    ensures LatestTime(parts, times).Some? ==>
              && (exists p | p in parts :: p.partId in times && times[p.partId] == LatestTime(parts, times).value)
              && forall p | p in parts :: p.partId in times ==> times[p.partId] <= LatestTime(parts, times).value
    decreases |parts|
  {
    if parts != [] {
      var front, last := parts[..|parts| - 1], parts[|parts| - 1];
      LatestTimeIsLatest(front, times);
      assert forall p :: p in parts <==> p in front || p == last;
    }
  }

  /** The failure codes are exactly the parts' errors. */
  lemma {:induction false} FailureCodesAreErrors(parts: seq<Part>, errors: map<string, string>, code: string)
    ensures code in FailureCodes(parts, errors) <==> exists p | p in parts :: ErrorOf(p, errors) == Some(code)
    decreases |parts|
  {
    if parts != [] {
      var front, last := parts[..|parts| - 1], parts[|parts| - 1];
      FailureCodesAreErrors(front, errors, code);
      assert forall p :: p in parts <==> p in front || p == last;
    }
  }

  predicate EntriesDistinct(entries: seq<Entry>) {
    forall i, j | 0 <= i < j < |entries| :: entries[i].entryId != entries[j].entryId
  }

  /** Every part belongs to an included entry. */
  predicate PartsPlaced(parts: seq<Part>, entries: seq<Entry>) {
    forall i | 0 <= i < |parts| ::
      (exists e | e in entries :: e.entryId == parts[i].entryId)
      && forall e | e in entries :: e.entryId == parts[i].entryId ==> e.included
  }

  predicate LocatorsDistinct(parts: seq<Part>, entries: seq<Entry>) {
    forall e | e in entries :: e.included ==> Distinct(Locators(Only(OfEntry(parts, e.entryId), {T.Processed})))
  }

  function ItemsFor(entries: seq<Entry>, parts: seq<Part>, times: map<string, int>,
                    errors: map<string, string>): (items: seq<Item>)
    ensures |items| == |entries|
    ensures forall i | 0 <= i < |items| :: items[i] == EntryItem(entries[i], parts, times, errors)
  {
    seq(|entries|, i requires 0 <= i < |entries| => EntryItem(entries[i], parts, times, errors))
  }

  function SummaryOf(items: seq<Item>): Summary {
    Summary(items, Total(items, (i: Item) => One(i.covered)), |items|, Total(items, (i: Item) => One(i.excluded)),
            Total(items, (i: Item) => i.approvedBytes), Total(items, (i: Item) => i.planned),
            Total(items, (i: Item) => i.processed), Total(items, (i: Item) => i.running),
            Total(items, (i: Item) => i.pending), Total(items, (i: Item) => i.retrying),
            Total(items, (i: Item) => i.failed), Total(items, (i: Item) => i.invalidated))
  }

  lemma BuiltIdsDistinct(entries: seq<Entry>, parts: seq<Part>, times: map<string, int>, errors: map<string, string>)
    requires EntriesDistinct(entries)
    ensures EntryIdsDistinct(ItemsFor(entries, parts, times, errors))
  {
    var items := ItemsFor(entries, parts, times, errors);
    forall i | 0 <= i < |items|
      ensures items[i].entryId == Some(entries[i].entryId)
    {
    }
    hide EntryItem;
  }

  // ---------------------------------------------------------------- coverage is conserved

  function CountIn(parts: seq<Part>, entryId: string, states: set<T.PartState>): nat {
    if parts == [] then 0
    else CountIn(parts[..|parts| - 1], entryId, states)
         + One(parts[|parts| - 1].entryId == entryId && parts[|parts| - 1].state in states)
  }

  lemma {:induction false} CountedParts(parts: seq<Part>, entryId: string, states: set<T.PartState>)
    ensures |Only(OfEntry(parts, entryId), states)| == CountIn(parts, entryId, states)
    decreases |parts|
  {
    if parts != [] {
      var front, last := parts[..|parts| - 1], parts[|parts| - 1];
      CountedParts(front, entryId, states);
      if last.entryId == entryId {
        assert OfEntry(parts, entryId)[..|OfEntry(parts, entryId)| - 1] == OfEntry(front, entryId);
      } else {
        assert OfEntry(parts, entryId) == OfEntry(front, entryId);
      }
    }
  }

  /** The parts counted under all entries. */
  function CountAll(entries: seq<Entry>, parts: seq<Part>, states: set<T.PartState>): nat {
    if entries == [] then 0
    else CountAll(entries[..|entries| - 1], parts, states) + CountIn(parts, entries[|entries| - 1].entryId, states)
  }

  function Holding(entries: seq<Entry>, entryId: string): nat {
    if entries == [] then 0
    else Holding(entries[..|entries| - 1], entryId) + One(entries[|entries| - 1].entryId == entryId)
  }

  lemma {:induction false} OnePartMore(entries: seq<Entry>, parts: seq<Part>, states: set<T.PartState>)
    requires parts != []
    ensures var last := parts[|parts| - 1];
            CountAll(entries, parts, states) == CountAll(entries, parts[..|parts| - 1], states)
              + if last.state in states then Holding(entries, last.entryId) else 0
    decreases |entries|
  {
    if entries != [] {
      OnePartMore(entries[..|entries| - 1], parts, states);
    }
  }

  lemma {:induction false} AbsentIsHeldByNone(entries: seq<Entry>, entryId: string)
    requires forall e | e in entries :: e.entryId != entryId
    ensures Holding(entries, entryId) == 0
    decreases |entries|
  {
    if entries != [] {
      AbsentIsHeldByNone(entries[..|entries| - 1], entryId);
      assert entries[|entries| - 1] in entries;
    }
  }

  lemma {:induction false} HeldByOne(entries: seq<Entry>, entryId: string)
    requires EntriesDistinct(entries) && exists e | e in entries :: e.entryId == entryId
    ensures Holding(entries, entryId) == 1
    decreases |entries|
  {
    var front, last := entries[..|entries| - 1], entries[|entries| - 1];
    if last.entryId == entryId {
      AbsentIsHeldByNone(front, entryId);
    } else {
      HeldByOne(front, entryId);
    }
  }

  lemma {:induction false} EveryPartIsCounted(entries: seq<Entry>, parts: seq<Part>, states: set<T.PartState>)
    requires EntriesDistinct(entries) && PartsPlaced(parts, entries)
    ensures CountAll(entries, parts, states) == |Only(parts, states)|
    decreases |parts|
  {
    if parts == [] {
      NothingIsCounted(entries, states);
    } else {
      EveryPartIsCounted(entries, parts[..|parts| - 1], states);
      OnePartMore(entries, parts, states);
      HeldByOne(entries, parts[|parts| - 1].entryId);
    }
  }

  lemma {:induction false} NothingIsCounted(entries: seq<Entry>, states: set<T.PartState>)
    ensures CountAll(entries, [], states) == 0
    decreases |entries|
  {
    if entries != [] {
      NothingIsCounted(entries[..|entries| - 1], states);
    }
  }

  /** No part is counted under an entry that is not included. */
  lemma {:induction false} ExcludedHoldNothing(parts: seq<Part>, entries: seq<Entry>, e: Entry,
                                               states: set<T.PartState>)
    requires PartsPlaced(parts, entries) && e in entries && !e.included
    ensures CountIn(parts, e.entryId, states) == 0
    decreases |parts|
  {
    if parts != [] {
      assert forall i | 0 <= i < |parts| - 1 :: parts[..|parts| - 1][i] == parts[i];
      ExcludedHoldNothing(parts[..|parts| - 1], entries, e, states);
    }
  }

  /** The items' counts for a bucket add up to the counts under the entries. */
  lemma {:induction false} TotalsAreCounts(entries: seq<Entry>, all: seq<Entry>, parts: seq<Part>,
                                           times: map<string, int>, errors: map<string, string>,
                                           count: Item -> nat, states: set<T.PartState>)
    requires PartsPlaced(parts, all) && forall e | e in entries :: e in all
    requires forall e | e in all :: count(EntryItem(e, parts, times, errors))
                                    == if e.included then |Only(OfEntry(parts, e.entryId), states)| else 0
    ensures Total(ItemsFor(entries, parts, times, errors), count) == CountAll(entries, parts, states)
    decreases |entries|
  {
    hide EntryItem;
    if entries != [] {
      var front, last := entries[..|entries| - 1], entries[|entries| - 1];
      var items := ItemsFor(entries, parts, times, errors);
      assert items[..|items| - 1] == ItemsFor(front, parts, times, errors);
      TotalsAreCounts(front, all, parts, times, errors, count, states);
      CountedParts(parts, last.entryId, states);
      if !last.included {
        ExcludedHoldNothing(parts, all, last, states);
      }
    }
  }

  lemma {:induction false} AllStates(parts: seq<Part>, states: set<T.PartState>)
    requires forall s: T.PartState :: s in states
    ensures Only(parts, states) == parts
    decreases |parts|
  {
    if parts != [] {
      var front, last := parts[..|parts| - 1], parts[|parts| - 1];
      AllStates(front, states);
      OnlyGrows(parts, states);
      hide Only;
      assert last.state in states && parts == front + [last];
    }
  }

  lemma OnlyGrows(parts: seq<Part>, states: set<T.PartState>)
    requires parts != []
    ensures Only(parts, states) == Only(parts[..|parts| - 1], states)
                                   + if parts[|parts| - 1].state in states then [parts[|parts| - 1]] else []
  {}

  const EVERY_STATE := PENDING + {T.Running, T.Processed, T.RetryWait, T.Failed, T.Invalidated}

  lemma EveryStateIsIn()
    ensures forall s: T.PartState :: s in EVERY_STATE
  {
    forall s: T.PartState
      ensures s in EVERY_STATE
    {
      match s
      case Planned | Authorized | Prepared =>
      case Running | Processed | RetryWait | Failed | Invalidated =>
    }
  }

  /** Every part of the revision is counted once: in the total, and in the bucket of its state. */
  lemma CoverageIsConserved(parts: seq<Part>, entries: seq<Entry>, times: map<string, int>, errors: map<string, string>)
    requires EntriesDistinct(entries) && PartsPlaced(parts, entries)
    ensures var s := SummaryOf(ItemsFor(entries, parts, times, errors));
            && s.planned == |parts| && s.processed == |Only(parts, {T.Processed})|
            && s.running == |Only(parts, {T.Running})| && s.pending == |Only(parts, PENDING)|
            && s.retrying == |Only(parts, {T.RetryWait})| && s.failed == |Only(parts, {T.Failed})|
            && s.invalidated == |Only(parts, {T.Invalidated})|
            && s.processed + s.running + s.pending + s.retrying + s.failed + s.invalidated == s.planned
  {
    BucketsPartition(parts);
    LiveBucketsConserved(parts, entries, times, errors);
    OtherBucketsConserved(parts, entries, times, errors);
    PlannedConserved(parts, entries, times, errors);
    hide Total, Only, ItemsFor;
  }

  lemma LiveBucketsConserved(parts: seq<Part>, entries: seq<Entry>, times: map<string, int>,
                             errors: map<string, string>)
    requires EntriesDistinct(entries) && PartsPlaced(parts, entries)
    ensures var items := ItemsFor(entries, parts, times, errors);
            && Total(items, (i: Item) => i.processed) == |Only(parts, {T.Processed})|
            && Total(items, (i: Item) => i.running) == |Only(parts, {T.Running})|
            && Total(items, (i: Item) => i.pending) == |Only(parts, PENDING)|
  {
    hide Total, Only, OfEntry;
    BucketConserved(parts, entries, times, errors, (i: Item) => i.processed, {T.Processed});
    BucketConserved(parts, entries, times, errors, (i: Item) => i.running, {T.Running});
    BucketConserved(parts, entries, times, errors, (i: Item) => i.pending, PENDING);
  }

  lemma OtherBucketsConserved(parts: seq<Part>, entries: seq<Entry>, times: map<string, int>,
                              errors: map<string, string>)
    requires EntriesDistinct(entries) && PartsPlaced(parts, entries)
    ensures var items := ItemsFor(entries, parts, times, errors);
            && Total(items, (i: Item) => i.retrying) == |Only(parts, {T.RetryWait})|
            && Total(items, (i: Item) => i.failed) == |Only(parts, {T.Failed})|
            && Total(items, (i: Item) => i.invalidated) == |Only(parts, {T.Invalidated})|
  {
    hide Total, Only, OfEntry;
    BucketConserved(parts, entries, times, errors, (i: Item) => i.retrying, {T.RetryWait});
    BucketConserved(parts, entries, times, errors, (i: Item) => i.failed, {T.Failed});
    BucketConserved(parts, entries, times, errors, (i: Item) => i.invalidated, {T.Invalidated});
  }

  lemma PlannedConserved(parts: seq<Part>, entries: seq<Entry>, times: map<string, int>, errors: map<string, string>)
    requires EntriesDistinct(entries) && PartsPlaced(parts, entries)
    ensures Total(ItemsFor(entries, parts, times, errors), (i: Item) => i.planned) == |parts|
  {
    EveryStateIsIn();
    forall e | e in entries
      ensures Only(OfEntry(parts, e.entryId), EVERY_STATE) == OfEntry(parts, e.entryId)
    {
      AllStates(OfEntry(parts, e.entryId), EVERY_STATE);
    }
    AllStates(parts, EVERY_STATE);
    hide Total, Only, OfEntry;
    BucketConserved(parts, entries, times, errors, (i: Item) => i.planned, EVERY_STATE);
  }

  lemma BucketConserved(parts: seq<Part>, entries: seq<Entry>, times: map<string, int>, errors: map<string, string>,
                        count: Item -> nat, states: set<T.PartState>)
    requires EntriesDistinct(entries) && PartsPlaced(parts, entries)
    requires forall e | e in entries :: count(EntryItem(e, parts, times, errors))
                                        == if e.included then |Only(OfEntry(parts, e.entryId), states)| else 0
    ensures Total(ItemsFor(entries, parts, times, errors), count) == |Only(parts, states)|
  {
    hide EntryItem, Only, OfEntry;
    TotalsAreCounts(entries, entries, parts, times, errors, count, states);
    EveryPartIsCounted(entries, parts, states);
  }

  // ---------------------------------------------------------------- the gate of a complete map

  predicate Settled(part: Part) {
    part.state == T.Processed || part.state == T.Failed
  }

  /** An included item that still keeps a map from being complete. */
  predicate Blocks(item: Item) {
    && !item.excluded
    && (item.planned == 0 || item.pending > 0 || item.retrying > 0 || item.invalidated > 0
        || item.processed + item.failed != item.planned)
  }

  /** The checks made before a complete map is synthesized and published. */
  predicate MayComplete(parts: seq<Part>, s: Summary) {
    && parts != [] && (forall i | 0 <= i < |parts| :: Settled(parts[i]))
    && forall i | 0 <= i < |s.items| :: !Blocks(s.items[i])
  }

  lemma {:induction false} SettledCounts(parts: seq<Part>)
    requires forall i | 0 <= i < |parts| :: Settled(parts[i])
    ensures |Only(parts, {T.Processed})| + |Only(parts, {T.Failed})| == |parts|
    ensures Only(parts, PENDING) == [] && Only(parts, {T.RetryWait}) == [] && Only(parts, {T.Invalidated}) == []
    decreases |parts|
  {
    if parts != [] {
      SettledCounts(parts[..|parts| - 1]);
    }
  }

  /** A complete map is published exactly when every included entry has parts and every part is processed or failed. */
  lemma CompleteMeansSettled(parts: seq<Part>, entries: seq<Entry>, times: map<string, int>,
                             errors: map<string, string>)
    requires EntriesDistinct(entries) && PartsPlaced(parts, entries)
    ensures MayComplete(parts, SummaryOf(ItemsFor(entries, parts, times, errors))) <==>
              && parts != [] && (forall i | 0 <= i < |parts| :: Settled(parts[i]))
              && forall e | e in entries :: e.included ==> OfEntry(parts, e.entryId) != []
  {
    hide Total, Only, OfEntry, EntryItem, Blocks;
    var items := ItemsFor(entries, parts, times, errors);
    if forall i | 0 <= i < |parts| :: Settled(parts[i]) {
      forall i | 0 <= i < |entries|
        ensures Blocks(items[i]) <==> entries[i].included && OfEntry(parts, entries[i].entryId) == []
      {
        OnlyEmptyEntriesBlock(entries[i], parts, times, errors);
      }
    }
  }

  lemma OnlyEmptyEntriesBlock(entry: Entry, parts: seq<Part>, times: map<string, int>, errors: map<string, string>)
    requires forall i | 0 <= i < |parts| :: Settled(parts[i])
    ensures Blocks(EntryItem(entry, parts, times, errors)) <==> entry.included && OfEntry(parts, entry.entryId) == []
  {
    hide Only, FailureCodes, FirstLocator, LatestTime, ActionFor, Locators;
    SettledCounts(OfEntry(parts, entry.entryId));
  }

  // ---------------------------------------------------------------- influence

  /** Marks the items whose entries the snapshot's evidence came from. */
  function Mark(items: seq<Item>, influenced: set<string>): (marked: seq<Item>)
    ensures |marked| == |items|
    ensures forall i | 0 <= i < |items| ::
              marked[i] == items[i].(influenced := items[i].entryId.Some? && items[i].entryId.value in influenced)
  {
    seq(|items|, i requires 0 <= i < |items| =>
      items[i].(influenced := items[i].entryId.Some? && items[i].entryId.value in influenced))
  }

  lemma {:induction false} MarkKeepsTotal(items: seq<Item>, influenced: set<string>, count: Item -> nat)
    requires forall item: Item, mark: bool :: count(item.(influenced := mark)) == count(item)
    ensures Total(Mark(items, influenced), count) == Total(items, count)
    decreases |items|
  {
    if items != [] {
      MarkKeepsTotal(items[..|items| - 1], influenced, count);
      assert Mark(items, influenced)[..|items| - 1] == Mark(items[..|items| - 1], influenced);
    }
  }

  lemma MarkedTotals(s: Summary, influenced: set<string>)
    requires SummaryValid(s)
    ensures SummaryValid(s.(items := Mark(s.items, influenced)))
  {
    MarkedExactTotals(s, influenced);
    MarkKeepsTotal(s.items, influenced, (i: Item) => One(i.covered));
    MarkKeepsTotal(s.items, influenced, (i: Item) => One(i.excluded));
    hide Total, TotalsExact;
    var marked := Mark(s.items, influenced);
    assert forall i | 0 <= i < |marked| :: marked[i].entryId == s.items[i].entryId;
  }

  lemma MarkedExactTotals(s: Summary, influenced: set<string>)
    ensures TotalsExact(s) ==> TotalsExact(s.(items := Mark(s.items, influenced)))
  {
    hide Total;
    MarkKeepsTotal(s.items, influenced, (i: Item) => i.approvedBytes);
    MarkKeepsTotal(s.items, influenced, (i: Item) => i.planned);
    MarkKeepsTotal(s.items, influenced, (i: Item) => i.processed);
    MarkKeepsTotal(s.items, influenced, (i: Item) => i.running);
    MarkKeepsTotal(s.items, influenced, (i: Item) => i.pending);
    MarkKeepsTotal(s.items, influenced, (i: Item) => i.retrying);
    MarkKeepsTotal(s.items, influenced, (i: Item) => i.failed);
    MarkKeepsTotal(s.items, influenced, (i: Item) => i.invalidated);
  }

  /** Marking skips the validators; a built ledger passes them all the same, since excluded entries have no parts. */
  lemma MarkedLedgerIsValid(parts: seq<Part>, entries: seq<Entry>, times: map<string, int>, errors: map<string, string>,
                            influenced: set<string>)
    requires entries != [] && EntriesDistinct(entries)
    requires PartsPlaced(parts, entries) && LocatorsDistinct(parts, entries)
    requires forall id | id in influenced :: exists i | 0 <= i < |parts| :: parts[i].entryId == id
    ensures var s := SummaryOf(ItemsFor(entries, parts, times, errors));
            var marked := s.(items := Mark(s.items, influenced));
            SummaryValid(marked) && forall i | 0 <= i < |marked.items| :: ItemValid(marked.items[i])
  {
    var s := SummaryOf(ItemsFor(entries, parts, times, errors));
    BuiltIdsDistinct(entries, parts, times, errors);
    MarkedTotals(s, influenced);
    forall i | 0 <= i < |s.items|
      ensures ItemValid(Mark(s.items, influenced)[i])
    {
      assert entries[i] in entries;
      EntryItemValid(entries[i], parts, times, errors);
      hide EntryItem, ItemValid;
      MarkedItemValid(entries[i], entries, parts, times, errors, influenced);
    }
    hide *;
  }

  lemma MarkedItemValid(entry: Entry, entries: seq<Entry>, parts: seq<Part>, times: map<string, int>,
                        errors: map<string, string>, influenced: set<string>)
    requires entry in entries && PartsPlaced(parts, entries) && ItemValid(EntryItem(entry, parts, times, errors))
    requires forall id | id in influenced :: exists i | 0 <= i < |parts| :: parts[i].entryId == id
    ensures var item := EntryItem(entry, parts, times, errors);
            item.entryId == Some(entry.entryId) && ItemValid(item.(influenced := entry.entryId in influenced))
  {
    hide Only, OfEntry, FailureCodes, FirstLocator, LatestTime, ActionFor, Locators, Distinct;
  }
}
