/** The ledger read part by part: what every field of an item tells about the parts of its entry. */
module CoverageLedger {
  import opened Outcomes
  import opened Coverage
  import T = EvidenceTables

  // ---------------------------------------------------------------- what an item tells

  /** Where the entry's parts in one of the states stand, in order. */
  function Places(parts: seq<Part>, entryId: string, states: set<T.PartState>): (at: seq<nat>)
    ensures forall i, j | 0 <= i < j < |at| :: at[i] < at[j]
    ensures forall k | 0 <= k < |at| ::
              at[k] < |parts| && parts[at[k]].entryId == entryId && parts[at[k]].state in states
    ensures forall i: nat {:trigger i in at} | i < |parts| ::
              parts[i].entryId == entryId && parts[i].state in states ==> i in at
  {
    if parts == [] then []
    else
      var last := |parts| - 1;
      Places(parts[..last], entryId, states)
      + if parts[last].entryId == entryId && parts[last].state in states then [last] else []
  }

  ghost predicate HasPart(parts: seq<Part>, entryId: string, states: set<T.PartState>) {
    exists p | p in parts :: p.entryId == entryId && p.state in states
  }

  /** The error last recorded for the part, or else the one it was prepared with. */
  ghost predicate FailedWith(part: Part, errors: map<string, string>, code: string) {
    && code != ""
    && if part.partId in errors && errors[part.partId] != "" then errors[part.partId] == code
       else part.errorCode == Some(code)
  }

  /** Each error met at the places is listed once, and those met earlier before the others. */
  ghost predicate ErrorsAsMet(parts: seq<Part>, at: seq<nat>, errors: map<string, string>, codes: seq<string>)
    requires forall k | 0 <= k < |at| :: at[k] < |parts|
  {
    && (forall k, code | 0 <= k < |at| && FailedWith(parts[at[k]], errors, code) :: code in codes)
    && exists met: seq<nat> | |met| == |codes| ::
         && (forall a, b | 0 <= a < b < |met| :: met[a] < met[b])
         && forall a | 0 <= a < |met| ::
              && met[a] < |at| && FailedWith(parts[at[met[a]]], errors, codes[a])
              && forall k | 0 <= k < met[a] :: !FailedWith(parts[at[k]], errors, codes[a])
  }

  /** Whether parts are missing, waiting or lost decides what is to be done next. */
  ghost predicate ActionFits(parts: seq<Part>, entryId: string, action: NextAction) {
    match action
    case Prepare => forall p | p in parts :: p.entryId != entryId
    case Reapprove => HasPart(parts, entryId, {T.Invalidated})
    case Resume => HasPart(parts, entryId, {T.RetryWait}) && !HasPart(parts, entryId, {T.Invalidated})
    case Analyze =>
      && HasPart(parts, entryId, {T.Planned, T.Authorized, T.Prepared, T.Running})
      && !HasPart(parts, entryId, {T.Invalidated, T.RetryWait})
    case Retry =>
      && HasPart(parts, entryId, {T.Failed})
      && forall p | p in parts && p.entryId == entryId :: p.state == T.Failed || p.state == T.Processed
    case NoAction =>
      && HasPart(parts, entryId, {T.Processed})
      && forall p | p in parts && p.entryId == entryId :: p.state == T.Processed
  }

  /** The time of the latest evidence for a processed part of the entry, if there is any. */
  ghost predicate LatestFits(parts: seq<Part>, entryId: string, times: map<string, int>, latest: Option<int>) {
    && (latest.Some? ==> exists p | p in parts ::
          p.entryId == entryId && p.state == T.Processed && p.partId in times && times[p.partId] == latest.value)
    && forall p | p in parts && p.entryId == entryId && p.state == T.Processed && p.partId in times ::
         latest.Some? && times[p.partId] <= latest.value
  }

  ghost function LocatorAt(parts: seq<Part>, at: seq<nat>, k: int): Option<string> {
    if 0 <= k < |at| && at[k] < |parts| then Some(parts[at[k]].locator) else None
  }

  /** The first of the entry's running, lost, waiting, pending and failed parts, or else its last processed one. */
  ghost predicate CurrentFits(parts: seq<Part>, entryId: string, current: Option<string>) {
    var running, lost := Places(parts, entryId, {T.Running}), Places(parts, entryId, {T.Invalidated});
    var retrying, failed := Places(parts, entryId, {T.RetryWait}), Places(parts, entryId, {T.Failed});
    var pending := Places(parts, entryId, {T.Planned, T.Authorized, T.Prepared});
    var processed := Places(parts, entryId, {T.Processed});
    current ==
      if running != [] then LocatorAt(parts, running, 0)
      else if lost != [] then LocatorAt(parts, lost, 0)
      else if retrying != [] then LocatorAt(parts, retrying, 0)
      else if pending != [] then LocatorAt(parts, pending, 0)
      else if failed != [] then LocatorAt(parts, failed, 0)
      else LocatorAt(parts, processed, |processed| - 1)
  }

  /** Each bucket counts the entry's parts in its states, and no part is missing. */
  ghost predicate BucketsFit(parts: seq<Part>, entryId: string, item: Item) {
    && item.processed == |Places(parts, entryId, {T.Processed})|
    && item.running == |Places(parts, entryId, {T.Running})|
    && item.pending == |Places(parts, entryId, {T.Planned, T.Authorized, T.Prepared})|
    && item.retrying == |Places(parts, entryId, {T.RetryWait})|
    && item.failed == |Places(parts, entryId, {T.Failed})|
    && item.invalidated == |Places(parts, entryId, {T.Invalidated})|
    && item.planned == item.processed + item.running + item.pending + item.retrying + item.failed + item.invalidated
  }

  /** Everything an item tells about an included entry, and that it tells nothing about an excluded one. */
  ghost predicate ItemTells(entry: Entry, parts: seq<Part>, times: map<string, int>, errors: map<string, string>,
                            item: Item) {
    && item.topic == entry.relativePath && item.relativePath == Some(entry.relativePath)
    && item.entryId == Some(entry.entryId) && item.excluded == !entry.included && !item.influenced
    && if !entry.included then
         item == Item(entry.relativePath, false, true, Some(entry.entryId), Some(entry.relativePath),
                      0, 0, 0, 0, 0, 0, 0, 0, [], None, [], None, false, NoAction)
       else
         var processed := Places(parts, entry.entryId, {T.Processed});
         && BucketsFit(parts, entry.entryId, item)
         && item.approvedBytes == entry.approvedBytes
         && item.covered == (item.processed == item.planned && item.planned > 0)
         && |item.processedLocators| == |processed|
         && (forall k | 0 <= k < |processed| :: item.processedLocators[k] == parts[processed[k]].locator)
         && CurrentFits(parts, entry.entryId, item.currentLocator)
         && ErrorsAsMet(parts,
                        Places(parts, entry.entryId, {T.RetryWait}) + Places(parts, entry.entryId, {T.Failed}),
                        errors, item.failureCodes)
         && LatestFits(parts, entry.entryId, times, item.lastEvidenceAt)
         && ActionFits(parts, entry.entryId, item.nextAction)
  }

  function ApprovedBytes(entries: seq<Entry>): nat {
    if entries == [] then 0
    else ApprovedBytes(entries[1..]) + if entries[0].included then entries[0].approvedBytes else 0
  }

  ghost function InState(parts: seq<Part>, states: set<T.PartState>): nat {
    |set i | 0 <= i < |parts| && parts[i].state in states|
  }

  /** The ledger counts its items, and every part of the revision once, in the bucket of its state. */
  ghost predicate SummaryTells(parts: seq<Part>, entries: seq<Entry>, times: map<string, int>,
                               errors: map<string, string>, s: Summary) {
    && |s.items| == |entries| == s.total
    && (forall i | 0 <= i < |entries| :: ItemTells(entries[i], parts, times, errors, s.items[i]))
    && s.covered == |set i | 0 <= i < |s.items| && s.items[i].covered|
    && s.excluded == |set i | 0 <= i < |entries| && !entries[i].included|
    && s.approvedBytes == ApprovedBytes(entries)
    && s.planned == |parts| && s.processed == InState(parts, {T.Processed})
    && s.running == InState(parts, {T.Running}) && s.retrying == InState(parts, {T.RetryWait})
    && s.pending == InState(parts, {T.Planned, T.Authorized, T.Prepared})
    && s.failed == InState(parts, {T.Failed}) && s.invalidated == InState(parts, {T.Invalidated})
  }

  /** Entries differ, each part is one of an included entry, and an entry's processed parts have their own locators. */
  ghost predicate Countable(parts: seq<Part>, entries: seq<Entry>) {
    && (forall i, j | 0 <= i < |entries| && 0 <= j < |entries| && i != j :: entries[i].entryId != entries[j].entryId)
    && (forall p | p in parts :: exists e | e in entries :: e.entryId == p.entryId && e.included)
    && forall i, j | 0 <= i < |parts| && 0 <= j < |parts| && i != j
                     && parts[i].entryId == parts[j].entryId && parts[i].locator == parts[j].locator ::
         parts[i].state != T.Processed || parts[j].state != T.Processed
  }

  // ---------------------------------------------------------------- the built items tell it

  lemma OneMoreOfEntry(parts: seq<Part>, entryId: string, states: set<T.PartState>)
    requires parts != []
    ensures var front, last := parts[..|parts| - 1], parts[|parts| - 1];
            Only(OfEntry(parts, entryId), states) == Only(OfEntry(front, entryId), states)
              + if last.entryId == entryId && last.state in states then [last] else []
  {
    var front, own := parts[..|parts| - 1], OfEntry(parts, entryId);
    if parts[|parts| - 1].entryId == entryId {
      assert own[..|own| - 1] == OfEntry(front, entryId);
    } else {
      assert own == OfEntry(front, entryId);
    }
  }

  /** The parts at these places. */
  ghost predicate Picks(parts: seq<Part>, at: seq<nat>, own: seq<Part>) {
    |own| == |at| && forall k | 0 <= k < |at| :: at[k] < |parts| && own[k] == parts[at[k]]
  }

  lemma PicksGrow(front: seq<Part>, last: Part, at: seq<nat>, own: seq<Part>)
    requires Picks(front, at, own)
    ensures Picks(front + [last], at, own) && Picks(front + [last], at + [|front|], own + [last])
  {}

  lemma OneMorePlace(parts: seq<Part>, entryId: string, states: set<T.PartState>)
    requires parts != []
    ensures var front, last := parts[..|parts| - 1], parts[|parts| - 1];
            Places(parts, entryId, states) == Places(front, entryId, states)
              + if last.entryId == entryId && last.state in states then [|front|] else []
  {}

  lemma NoPlaces(entryId: string, states: set<T.PartState>)
    ensures Picks([], Places([], entryId, states), Only(OfEntry([], entryId), states))
  {}

  lemma {:induction false} PlacesAreOnly(parts: seq<Part>, entryId: string, states: set<T.PartState>)
    ensures Picks(parts, Places(parts, entryId, states), Only(OfEntry(parts, entryId), states))
    decreases |parts|
  {
    hide Only, OfEntry, Picks, Places;
    if parts == [] {
      NoPlaces(entryId, states);
    } else {
      var front, last := parts[..|parts| - 1], parts[|parts| - 1];
      PlacesAreOnly(front, entryId, states);
      OneMoreOfEntry(parts, entryId, states);
      OneMorePlace(parts, entryId, states);
      assert parts == front + [last];
      var at, own := Places(front, entryId, states), Only(OfEntry(front, entryId), states);
      PicksGrow(front, last, at, own);
      assert at + [] == at && own + [] == own;
    }
  }

  lemma {:induction false} OfEntryIsWhole(parts: seq<Part>, entryId: string)
    ensures forall p :: p in OfEntry(parts, entryId) <==> p in parts && p.entryId == entryId
    decreases |parts|
  {
    if parts != [] {
      var front, last := parts[..|parts| - 1], parts[|parts| - 1];
      OfEntryIsWhole(front, entryId);
      assert forall p :: p in parts <==> p in front || p == last;
    }
  }

  lemma ActionTells(parts: seq<Part>, entryId: string)
    ensures ActionFits(parts, entryId, ActionFor(OfEntry(parts, entryId)))
  {
    var own := OfEntry(parts, entryId);
    NextActionIsRight(own);
    OfEntryIsWhole(parts, entryId);
    hide ActionFor, OfEntry;
    if own != [] { assert own[0] in own; }
  }

  lemma {:induction false} OnlyIsWhole(parts: seq<Part>, states: set<T.PartState>)
    ensures forall p :: p in Only(parts, states) <==> p in parts && p.state in states
    decreases |parts|
  {
    if parts != [] {
      var front, last := parts[..|parts| - 1], parts[|parts| - 1];
      OnlyIsWhole(front, states);
      assert forall p :: p in parts <==> p in front || p == last;
    }
  }

  lemma LatestTells(parts: seq<Part>, entryId: string, times: map<string, int>)
    ensures LatestFits(parts, entryId, times, LatestTime(Only(OfEntry(parts, entryId), {T.Processed}), times))
  {
    var own := OfEntry(parts, entryId);
    OfEntryIsWhole(parts, entryId);
    OnlyIsWhole(own, {T.Processed});
    LatestTimeIsLatest(Only(own, {T.Processed}), times);
    hide OfEntry, Only, LatestTime;
  }

  lemma FailedWithIsError(part: Part, errors: map<string, string>, code: string)
    ensures FailedWith(part, errors, code) <==> ErrorOf(part, errors) == Some(code)
  {}

  /** Each code is an error met at its place and not before; the places rise. */
  ghost predicate FirstMet(parts: seq<Part>, errors: map<string, string>, codes: seq<string>, met: seq<nat>) {
    && |met| == |codes| && (forall a, b | 0 <= a < b < |met| :: met[a] < met[b])
    && forall a | 0 <= a < |met| ::
         && met[a] < |parts| && ErrorOf(parts[met[a]], errors) == Some(codes[a])
         && forall k | 0 <= k < met[a] :: ErrorOf(parts[k], errors) != Some(codes[a])
  }

  lemma MetWithOneMore(parts: seq<Part>, errors: map<string, string>, codes: seq<string>, met: seq<nat>, part: Part)
    requires FirstMet(parts, errors, codes, met)
    ensures FirstMet(parts + [part], errors, codes, met)
    ensures var code := ErrorOf(part, errors);
            code.Some? && (forall p | p in parts :: ErrorOf(p, errors) != code) ==>
              FirstMet(parts + [part], errors, codes + [code.value], met + [|parts|])
  {
    hide ErrorOf;
    assert forall k | 0 <= k < |parts| :: (parts + [part])[k] == parts[k] && parts[k] in parts;
  }

  /** Where the codes are first met among the parts. */
  lemma {:induction false} CodesAsMet(parts: seq<Part>, errors: map<string, string>) returns (met: seq<nat>)
    ensures FirstMet(parts, errors, FailureCodes(parts, errors), met)
    decreases |parts|
  {
    hide ErrorOf;
    met := [];
    if parts != [] {
      var front, last := parts[..|parts| - 1], parts[|parts| - 1];
      met := CodesAsMet(front, errors);
      assert parts == front + [last];
      MetWithOneMore(front, errors, FailureCodes(front, errors), met, last);
      var code := ErrorOf(last, errors);
      if code.Some? && code.value !in FailureCodes(front, errors) {
        FailureCodesAreErrors(front, errors, code.value);
        met := met + [|front|];
      }
      hide FirstMet;
    }
  }

  lemma ErrorsTell(parts: seq<Part>, at: seq<nat>, met: seq<Part>, errors: map<string, string>)
    requires |met| == |at| && forall k | 0 <= k < |at| :: at[k] < |parts| && met[k] == parts[at[k]]
    ensures ErrorsAsMet(parts, at, errors, FailureCodes(met, errors))
  {
    var codes := FailureCodes(met, errors);
    var first := CodesAsMet(met, errors);
    forall p: Part, code: string
      ensures FailedWith(p, errors, code) <==> ErrorOf(p, errors) == Some(code)
    {
      FailedWithIsError(p, errors, code);
    }
    forall k, code | 0 <= k < |at| && FailedWith(parts[at[k]], errors, code)
      ensures code in codes
    {
      FailureCodesAreErrors(met, errors, code);
      assert met[k] in met;
    }
    hide ErrorOf, FailedWith, FailureCodes;
  }

  lemma CurrentTells(parts: seq<Part>, entryId: string, times: map<string, int>, errors: map<string, string>,
                     entry: Entry)
    ensures CurrentFits(parts, entryId, IncludedItem(entry, OfEntry(parts, entryId), times, errors).currentLocator)
  {
    PlacesAreOnly(parts, entryId, {T.Running});
    PlacesAreOnly(parts, entryId, {T.Invalidated});
    PlacesAreOnly(parts, entryId, {T.RetryWait});
    PlacesAreOnly(parts, entryId, {T.Planned, T.Authorized, T.Prepared});
    PlacesAreOnly(parts, entryId, {T.Failed});
    PlacesAreOnly(parts, entryId, {T.Processed});
    hide Only, OfEntry, Places, FailureCodes, LatestTime, ActionFor;
    var own := OfEntry(parts, entryId);
    var processed := Only(own, {T.Processed});
    FirstOfSix(Only(own, {T.Running}), Only(own, {T.Invalidated}), Only(own, {T.RetryWait}), Only(own, PENDING),
               Only(own, {T.Failed}), if processed == [] then [] else [processed[|processed| - 1]]);
    hide FirstLocator;
  }

  lemma FirstOfSix(a: seq<Part>, b: seq<Part>, c: seq<Part>, d: seq<Part>, e: seq<Part>, f: seq<Part>)
    ensures FirstLocator([a, b, c, d, e, f]) ==
              if a != [] then Some(a[0].locator) else if b != [] then Some(b[0].locator)
              else if c != [] then Some(c[0].locator) else if d != [] then Some(d[0].locator)
              else if e != [] then Some(e[0].locator) else if f != [] then Some(f[0].locator) else None
  {
    assert [a, b, c, d, e, f] == [a] + [b, c, d, e, f] && [b, c, d, e, f] == [b] + [c, d, e, f];
    assert [c, d, e, f] == [c] + [d, e, f] && [d, e, f] == [d] + [e, f] && [e, f] == [e] + [f] && [f] == [f] + [];
    FirstOrNext(a, [b, c, d, e, f]);
    FirstOrNext(b, [c, d, e, f]);
    FirstOrNext(c, [d, e, f]);
    FirstOrNext(d, [e, f]);
    FirstOrNext(e, [f]);
    FirstOrNext(f, []);
  }

  lemma FirstOrNext(head: seq<Part>, tail: seq<seq<Part>>)
    ensures FirstLocator([head] + tail) == if head != [] then Some(head[0].locator) else FirstLocator(tail)
  {
    assert ([head] + tail)[1..] == tail;
  }

  lemma BucketsTell(entry: Entry, parts: seq<Part>, times: map<string, int>, errors: map<string, string>)
    ensures BucketsFit(parts, entry.entryId, IncludedItem(entry, OfEntry(parts, entry.entryId), times, errors))
  {
    PlacesAreOnly(parts, entry.entryId, {T.Processed});
    PlacesAreOnly(parts, entry.entryId, {T.Running});
    PlacesAreOnly(parts, entry.entryId, PENDING);
    PlacesAreOnly(parts, entry.entryId, {T.RetryWait});
    PlacesAreOnly(parts, entry.entryId, {T.Failed});
    PlacesAreOnly(parts, entry.entryId, {T.Invalidated});
    BucketsPartition(OfEntry(parts, entry.entryId));
    hide Only, OfEntry, Places, FailureCodes, LatestTime, ActionFor, FirstLocator;
  }

  lemma WaitingErrorsTell(parts: seq<Part>, entryId: string, errors: map<string, string>)
    ensures var own := OfEntry(parts, entryId);
            ErrorsAsMet(parts, Places(parts, entryId, {T.RetryWait}) + Places(parts, entryId, {T.Failed}), errors,
                        FailureCodes(Only(own, {T.RetryWait}) + Only(own, {T.Failed}), errors))
  {
    PlacesAreOnly(parts, entryId, {T.RetryWait});
    PlacesAreOnly(parts, entryId, {T.Failed});
    hide Only, OfEntry, Places, FailureCodes, ErrorsAsMet;
    var own := OfEntry(parts, entryId);
    ErrorsTell(parts, Places(parts, entryId, {T.RetryWait}) + Places(parts, entryId, {T.Failed}),
               Only(own, {T.RetryWait}) + Only(own, {T.Failed}), errors);
  }

  lemma EntryItemTells(entry: Entry, parts: seq<Part>, times: map<string, int>, errors: map<string, string>)
    ensures ItemTells(entry, parts, times, errors, EntryItem(entry, parts, times, errors))
  {
    hide Only, OfEntry, Places, FailureCodes, LatestTime, ActionFor, FirstLocator;
    hide CurrentFits, ErrorsAsMet, LatestFits, ActionFits;
    BucketsTell(entry, parts, times, errors);
    PlacesAreOnly(parts, entry.entryId, {T.Processed});
    CurrentTells(parts, entry.entryId, times, errors, entry);
    WaitingErrorsTell(parts, entry.entryId, errors);
    LatestTells(parts, entry.entryId, times);
    ActionTells(parts, entry.entryId);
    if OfEntry(parts, entry.entryId) == [] {
      PlacesAreOnly(parts, entry.entryId, {T.Processed});
    }
  }

  lemma {:induction false} TotalIsNumber(items: seq<Item>, count: Item -> nat, chosen: set<int>)
    requires forall i | i in chosen :: 0 <= i < |items|
    requires forall i | 0 <= i < |items| :: count(items[i]) == One(i in chosen)
    ensures Total(items, count) == |chosen|
    decreases |items|
  {
    if items == [] {
      assert forall i :: i !in chosen;
    } else {
      var last := |items| - 1;
      TotalIsNumber(items[..last], count, chosen - {last});
      assert chosen == (chosen - {last}) + if last in chosen then {last} else {};
    }
  }

  lemma {:induction false} OnlyIsNumber(parts: seq<Part>, states: set<T.PartState>)
    ensures |Only(parts, states)| == InState(parts, states)
    decreases |parts|
  {
    if parts != [] {
      var last := |parts| - 1;
      OnlyIsNumber(parts[..last], states);
      assert (set i | 0 <= i < |parts| && parts[i].state in states)
          == (set i | 0 <= i < last && parts[..last][i].state in states)
             + if parts[last].state in states then {last} else {};
    }
  }

  lemma {:induction false} BytesOfLast(front: seq<Entry>, last: Entry)
    ensures ApprovedBytes(front + [last]) == ApprovedBytes(front) + if last.included then last.approvedBytes else 0
    decreases |front|
  {
    if front == [] {
      assert ([last])[1..] == [];
    } else {
      assert (front + [last])[1..] == front[1..] + [last];
      BytesOfLast(front[1..], last);
    }
  }

  lemma {:induction false} BuiltBytesAddUp(entries: seq<Entry>, parts: seq<Part>, times: map<string, int>,
                                           errors: map<string, string>)
    ensures Total(ItemsFor(entries, parts, times, errors), (i: Item) => i.approvedBytes) == ApprovedBytes(entries)
    decreases |entries|
  {
    hide EntryItem, ItemTells;
    if entries != [] {
      var front, last := entries[..|entries| - 1], entries[|entries| - 1];
      var items := ItemsFor(entries, parts, times, errors);
      BuiltBytesAddUp(front, parts, times, errors);
      assert items[..|items| - 1] == ItemsFor(front, parts, times, errors);
      BytesOfLast(front, last);
      assert entries == front + [last];
      EntryItemTells(last, parts, times, errors);
      BytesOfItem(last, parts, times, errors, items[|items| - 1]);
      hide ApprovedBytes;
    }
  }

  lemma BytesOfItem(entry: Entry, parts: seq<Part>, times: map<string, int>, errors: map<string, string>, item: Item)
    requires ItemTells(entry, parts, times, errors, item)
    ensures item.approvedBytes == if entry.included then entry.approvedBytes else 0
  {}

  lemma ItemCountsTell(parts: seq<Part>, entries: seq<Entry>, times: map<string, int>, errors: map<string, string>)
    ensures var items := ItemsFor(entries, parts, times, errors);
            && Total(items, (i: Item) => One(i.covered)) == (|set i | 0 <= i < |items| && items[i].covered|)
            && Total(items, (i: Item) => One(i.excluded)) == (|set i | 0 <= i < |entries| && !entries[i].included|)
  {
    hide Total, IncludedItem;
    var items := ItemsFor(entries, parts, times, errors);
    forall i | 0 <= i < |entries|
      ensures items[i].excluded == !entries[i].included
    {
      EntryItemTells(entries[i], parts, times, errors);
    }
    hide EntryItem;
    TotalIsNumber(items, (i: Item) => One(i.covered), set i | 0 <= i < |items| && items[i].covered);
    TotalIsNumber(items, (i: Item) => One(i.excluded), set i | 0 <= i < |entries| && !entries[i].included);
  }

  lemma BuiltSummaryTells(parts: seq<Part>, entries: seq<Entry>, times: map<string, int>, errors: map<string, string>)
    requires EntriesDistinct(entries) && PartsPlaced(parts, entries)
    ensures SummaryTells(parts, entries, times, errors, SummaryOf(ItemsFor(entries, parts, times, errors)))
  {
    hide Only, Total, EntryItem, ItemTells, ApprovedBytes, InState;
    var items := ItemsFor(entries, parts, times, errors);
    forall i | 0 <= i < |entries|
      ensures ItemTells(entries[i], parts, times, errors, items[i])
    {
      EntryItemTells(entries[i], parts, times, errors);
    }
    ItemCountsTell(parts, entries, times, errors);
    BuiltBytesAddUp(entries, parts, times, errors);
    CoverageIsConserved(parts, entries, times, errors);
    OnlyIsNumber(parts, {T.Processed});
    OnlyIsNumber(parts, {T.Running});
    OnlyIsNumber(parts, PENDING);
    OnlyIsNumber(parts, {T.RetryWait});
    OnlyIsNumber(parts, {T.Failed});
    OnlyIsNumber(parts, {T.Invalidated});
  }

  // ---------------------------------------------------------------- when the ledger is built

  predicate OwnLocators(parts: seq<Part>, e: Entry) {
    e.included ==> Distinct(Locators(Only(OfEntry(parts, e.entryId), {T.Processed})))
  }

  lemma LocatorsInTurn(parts: seq<Part>, entries: seq<Entry>)
    ensures LocatorsDistinct(parts, entries) <==> forall i | 0 <= i < |entries| :: OwnLocators(parts, entries[i])
  {
    hide Distinct, Locators, Only, OfEntry;
  }

  ghost predicate DifferAt(parts: seq<Part>, at: seq<nat>) {
    forall a, b | 0 <= a < b < |at| :: LocatorAt(parts, at, a) != LocatorAt(parts, at, b)
  }

  lemma PickedLocatorsDiffer(parts: seq<Part>, at: seq<nat>, own: seq<Part>)
    requires Picks(parts, at, own)
    ensures Distinct(Locators(own)) <==> DifferAt(parts, at)
  {
    assert forall k | 0 <= k < |at| :: LocatorAt(parts, at, k) == Some(Locators(own)[k]);
  }

  /** The entry's processed parts have locators of their own. */
  ghost predicate LocatorsOfOwn(parts: seq<Part>, entryId: string) {
    forall i, j | 0 <= i < j < |parts| && parts[i].entryId == entryId == parts[j].entryId
                  && parts[i].state == T.Processed == parts[j].state ::
      parts[i].locator != parts[j].locator
  }

  lemma DifferAtPlaces(parts: seq<Part>, entryId: string)
    requires DifferAt(parts, Places(parts, entryId, {T.Processed}))
    ensures LocatorsOfOwn(parts, entryId)
  {
    hide Places;
    var at := Places(parts, entryId, {T.Processed});
    forall i, j | 0 <= i < j < |parts| && parts[i].entryId == entryId == parts[j].entryId
                  && parts[i].state == T.Processed == parts[j].state
      ensures parts[i].locator != parts[j].locator
    {
      assert i in at && j in at;
      var a, b :| 0 <= a < |at| && 0 <= b < |at| && at[a] == i && at[b] == j;
      assert a < b && LocatorAt(parts, at, a) != LocatorAt(parts, at, b);
    }
  }

  lemma PlacesDiffer(parts: seq<Part>, entryId: string)
    requires LocatorsOfOwn(parts, entryId)
    ensures DifferAt(parts, Places(parts, entryId, {T.Processed}))
  {
    hide Places;
    var at := Places(parts, entryId, {T.Processed});
    forall a, b | 0 <= a < b < |at|
      ensures LocatorAt(parts, at, a) != LocatorAt(parts, at, b)
    {
      var i: nat, j: nat := at[a], at[b];
      assert i < j < |parts| && parts[i].locator != parts[j].locator;
    }
  }

  lemma OwnLocatorsDiffer(parts: seq<Part>, e: Entry)
    ensures OwnLocators(parts, e) <==> e.included ==> LocatorsOfOwn(parts, e.entryId)
  {
    hide Only, OfEntry, Places, Picks, Locators, Distinct, LocatorsOfOwn, DifferAt;
    PlacesAreOnly(parts, e.entryId, {T.Processed});
    PickedLocatorsDiffer(parts, Places(parts, e.entryId, {T.Processed}),
                         Only(OfEntry(parts, e.entryId), {T.Processed}));
    if DifferAt(parts, Places(parts, e.entryId, {T.Processed})) {
      DifferAtPlaces(parts, e.entryId);
    }
    if LocatorsOfOwn(parts, e.entryId) {
      PlacesDiffer(parts, e.entryId);
    }
  }

  lemma CountableIsChecked(parts: seq<Part>, entries: seq<Entry>)
    ensures Countable(parts, entries) <==>
              EntriesDistinct(entries) && PartsPlaced(parts, entries) && LocatorsDistinct(parts, entries)
  {
    hide OwnLocators, LocatorsDistinct;
    LocatorsInTurn(parts, entries);
    forall k | 0 <= k < |entries|
      ensures OwnLocators(parts, entries[k]) <==> entries[k].included ==> LocatorsOfOwn(parts, entries[k].entryId)
    {
      OwnLocatorsDiffer(parts, entries[k]);
    }
  }

  /** Builds the ledger; it is refused exactly for misplaced parts, repeated entries or repeated locators. */
  method PartCoverage(parts: seq<Part>, entries: seq<Entry>, times: map<string, int>, errors: map<string, string>)
    returns (summary: Option<Summary>)
    ensures summary.Some? <==>
              && entries != [] && EntriesDistinct(entries)
              && PartsPlaced(parts, entries) && LocatorsDistinct(parts, entries)
    ensures summary.Some? <==> entries != [] && Countable(parts, entries)
    ensures summary.Some? ==> SummaryTells(parts, entries, times, errors, summary.value)
    ensures summary.Some? ==> summary.value == SummaryOf(ItemsFor(entries, parts, times, errors))
    ensures summary.Some? ==> SummaryValid(summary.value)
    ensures summary.Some? ==> forall i | 0 <= i < |summary.value.items| :: ItemValid(summary.value.items[i])
  {
    hide Total, EntryItem, ItemValid, Distinct, EntryIdsDistinct, SummaryTells, Countable, LocatorsDistinct;
    CountableIsChecked(parts, entries);
    if !EntriesDistinct(entries) || !PartsPlaced(parts, entries) { return None; }
    var items: seq<Item> := [];
    for k := 0 to |entries|
      invariant |items| == k && forall i | 0 <= i < k :: items[i] == EntryItem(entries[i], parts, times, errors)
      invariant forall i | 0 <= i < k :: ItemValid(items[i])
      invariant forall i | 0 <= i < k :: OwnLocators(parts, entries[i])
    {
      var item := EntryItem(entries[k], parts, times, errors);
      EntryItemValid(entries[k], parts, times, errors);
      if !ItemValid(item) {
        LocatorsInTurn(parts, entries);
        return None;
      }
      items := items + [item];
    }
    LocatorsInTurn(parts, entries);
    assert items == ItemsFor(entries, parts, times, errors);
    BuiltIdsDistinct(entries, parts, times, errors);
    if items == [] { return None; }
    BuiltSummaryTells(parts, entries, times, errors);
    summary := Some(SummaryOf(items));
  }

  // ---------------------------------------------------------------- whose evidence a snapshot uses

  /** The last part stored under an id, as the entry it belongs to. */
  function EntryOf(parts: seq<Part>, partId: string): Option<string> {
    if parts == [] then None
    else if parts[|parts| - 1].partId == partId then Some(parts[|parts| - 1].entryId)
    else EntryOf(parts[..|parts| - 1], partId)
  }

  /** The part of the last unit with an id. */
  function PartOf(units: seq<(string, string)>, unitId: string): Option<string> {
    if units == [] then None
    else if units[|units| - 1].0 == unitId then Some(units[|units| - 1].1)
    else PartOf(units[..|units| - 1], unitId)
  }

  /** The entries of the parts from which the named units come; unknown ones are passed over. */
  function InfluencedEntries(parts: seq<Part>, units: seq<(string, string)>, evidenceIds: seq<string>): set<string> {
    set id | id in evidenceIds && PartOf(units, id).Some? && EntryOf(parts, PartOf(units, id).value).Some? ::
      EntryOf(parts, PartOf(units, id).value).value
  }

  lemma {:induction false} EntryOfIsRight(parts: seq<Part>, part: Part)
    requires forall p, q | p in parts && q in parts :: p.partId == q.partId ==> p == q
    ensures part in parts ==> EntryOf(parts, part.partId) == Some(part.entryId)
    ensures EntryOf(parts, part.partId).Some? ==>
              exists p | p in parts :: p.partId == part.partId && EntryOf(parts, part.partId) == Some(p.entryId)
    decreases |parts|
  {
    if parts != [] {
      var front, last := parts[..|parts| - 1], parts[|parts| - 1];
      assert forall p :: p in parts <==> p in front || p == last;
      EntryOfIsRight(front, part);
    }
  }

  lemma {:induction false} PartOfIsRight(units: seq<(string, string)>, unitId: string)
    requires forall u, v | u in units && v in units :: u.0 == v.0 ==> u == v
    ensures forall partId :: PartOf(units, unitId) == Some(partId) <==> (unitId, partId) in units
    decreases |units|
  {
    if units != [] {
      var front, last := units[..|units| - 1], units[|units| - 1];
      assert forall u :: u in units <==> u in front || u == last;
      PartOfIsRight(front, unitId);
    }
  }

  /** An item is marked exactly when a unit that the map uses comes from a part of its entry. */
  lemma InfluenceIsTraced(parts: seq<Part>, units: seq<(string, string)>, evidenceIds: seq<string>, items: seq<Item>,
                          i: nat)
    requires i < |items| && items[i].entryId.Some?
    requires forall p, q | p in parts && q in parts :: p.partId == q.partId ==> p == q
    requires forall u, v | u in units && v in units :: u.0 == v.0 ==> u == v
    ensures Mark(items, InfluencedEntries(parts, units, evidenceIds))[i].influenced <==>
              exists u, p | u in units && p in parts ::
                u.0 in evidenceIds && u.1 == p.partId && p.entryId == items[i].entryId.value
  {
    hide EntryOf, PartOf;
    var entryId := items[i].entryId.value;
    if entryId in InfluencedEntries(parts, units, evidenceIds) {
      var id :| id in evidenceIds && PartOf(units, id).Some?
                && EntryOf(parts, PartOf(units, id).value) == Some(entryId);
      PartOfIsRight(units, id);
      var partId := PartOf(units, id).value;
      EntryOfIsRight(parts, Part(partId, "", "", T.Planned, None));
      assert (id, partId) in units;
    }
    forall u, p | u in units && p in parts && u.0 in evidenceIds && u.1 == p.partId && p.entryId == entryId
      ensures entryId in InfluencedEntries(parts, units, evidenceIds)
    {
      PartOfIsRight(units, u.0);
      EntryOfIsRight(parts, p);
      assert u == (u.0, u.1);
    }
  }

  /** A marked ledger passes the validators, which marking skips. */
  lemma TracedLedgerIsValid(parts: seq<Part>, entries: seq<Entry>, times: map<string, int>,
                            errors: map<string, string>, units: seq<(string, string)>, evidenceIds: seq<string>)
    requires entries != [] && EntriesDistinct(entries)
    requires PartsPlaced(parts, entries) && LocatorsDistinct(parts, entries)
    requires forall p, q | p in parts && q in parts :: p.partId == q.partId ==> p == q
    ensures var s := SummaryOf(ItemsFor(entries, parts, times, errors));
            var marked := s.(items := Mark(s.items, InfluencedEntries(parts, units, evidenceIds)));
            SummaryValid(marked) && forall i | 0 <= i < |marked.items| :: ItemValid(marked.items[i])
  {
    hide EntryOf, PartOf, SummaryValid, ItemValid, ItemsFor, SummaryOf, Mark, LocatorsDistinct, PartsPlaced;
    var influenced := InfluencedEntries(parts, units, evidenceIds);
    forall entryId | entryId in influenced
      ensures exists i | 0 <= i < |parts| :: parts[i].entryId == entryId
    {
      var id :| id in evidenceIds && PartOf(units, id).Some?
                && EntryOf(parts, PartOf(units, id).value) == Some(entryId);
      EntryOfIsRight(parts, Part(PartOf(units, id).value, "", "", T.Planned, None));
    }
    MarkedLedgerIsValid(parts, entries, times, errors, influenced);
  }

  // ---------------------------------------------------------------- when the ledger is partial

  /** A map over the ledger is an early one exactly if something has been processed and something has not. */
  lemma PartialMeansBegun(parts: seq<Part>, entries: seq<Entry>, times: map<string, int>, errors: map<string, string>)
    requires EntriesDistinct(entries) && PartsPlaced(parts, entries)
    ensures IsPartial(SummaryOf(ItemsFor(entries, parts, times, errors))) <==>
              && SomePartDone(parts)
              && (!EveryPartDone(parts)
                  || exists e | e in entries && e.included :: forall p | p in parts :: p.entryId != e.entryId)
  {
    var s := SummaryOf(ItemsFor(entries, parts, times, errors));
    BuiltSummaryTells(parts, entries, times, errors);
    hide ItemTells;
    forall i | 0 <= i < |entries|
      ensures CoversAll(entries[i], parts, s.items[i].covered)
    {
      CoveredMeansAll(entries[i], parts, times, errors);
    }
    hide ItemsFor, SummaryOf, CoversAll, PartsPlaced, EntriesDistinct, InState;
    BegunFlags(parts, entries, s.items);
  }

  lemma BegunFlags(parts: seq<Part>, entries: seq<Entry>, items: seq<Item>)
    requires |items| == |entries| && PartsPlaced(parts, entries)
    requires forall i | 0 <= i < |entries| :: CoversAll(entries[i], parts, items[i].covered)
    ensures var covered := |set i | 0 <= i < |items| && items[i].covered|;
            var excluded := |set i | 0 <= i < |entries| && !entries[i].included|;
            (0 < covered < |entries| - excluded || 0 < InState(parts, {T.Processed}) < |parts|) <==>
              && SomePartDone(parts)
              && (!EveryPartDone(parts) || exists e | e in entries && e.included :: Without(parts, e))
  {
    hide *;
    CoveredAreIncluded(parts, entries, items);
    CoveredAmong(entries, items);
    ProcessedAmong(parts);
    BegunCounts(parts, entries, items);
  }

  lemma CoveredAreIncluded(parts: seq<Part>, entries: seq<Entry>, items: seq<Item>)
    requires |items| == |entries|
    requires forall i | 0 <= i < |entries| :: CoversAll(entries[i], parts, items[i].covered)
    ensures forall i | 0 <= i < |items| :: items[i].covered ==> entries[i].included
  {
    forall i | 0 <= i < |items| && items[i].covered
      ensures entries[i].included
    {
      assert CoversAll(entries[i], parts, items[i].covered);
    }
  }

  /** The flag tells whether the entry has parts, and only processed ones. */
  ghost predicate CoversAll(entry: Entry, parts: seq<Part>, covered: bool) {
    covered <==>
      && entry.included && (exists p | p in parts :: p.entryId == entry.entryId)
      && forall p | p in parts && p.entryId == entry.entryId :: p.state == T.Processed
  }

  ghost predicate SomePartDone(parts: seq<Part>) {
    exists p | p in parts :: p.state == T.Processed
  }

  ghost predicate EveryPartDone(parts: seq<Part>) {
    forall p | p in parts :: p.state == T.Processed
  }

  ghost predicate Without(parts: seq<Part>, entry: Entry) {
    forall p | p in parts :: p.entryId != entry.entryId
  }

  lemma CoveredHasDone(parts: seq<Part>, entry: Entry)
    requires CoversAll(entry, parts, true)
    ensures SomePartDone(parts)
  {
    var p :| p in parts && p.entryId == entry.entryId;
  }

  lemma UncoveredIsOpen(parts: seq<Part>, entry: Entry)
    requires CoversAll(entry, parts, false) && entry.included && EveryPartDone(parts)
    ensures Without(parts, entry)
  {}

  lemma EmptyIsUncovered(parts: seq<Part>, entry: Entry)
    ensures Without(parts, entry) ==> !CoversAll(entry, parts, true)
  {}

  lemma DoneIsCovered(parts: seq<Part>, entry: Entry)
    requires parts != [] && entry.entryId == parts[0].entryId && entry.included && EveryPartDone(parts)
    ensures !CoversAll(entry, parts, false)
  {
    assert parts[0] in parts;
  }

  lemma BegunCounts(parts: seq<Part>, entries: seq<Entry>, items: seq<Item>)
    requires |items| == |entries| && PartsPlaced(parts, entries)
    requires forall i | 0 <= i < |entries| :: CoversAll(entries[i], parts, items[i].covered)
    ensures (exists i | 0 <= i < |items| :: items[i].covered) ==> SomePartDone(parts)
    ensures SomePartDone(parts) && EveryPartDone(parts) ==> exists i | 0 <= i < |items| :: items[i].covered
    ensures EveryPartDone(parts) ==>
              ((exists i | 0 <= i < |items| :: entries[i].included && !items[i].covered) <==>
               exists e | e in entries && e.included :: Without(parts, e))
  {
    hide CoversAll, EveryPartDone, Without;
    if i :| 0 <= i < |items| && items[i].covered { CoveredHasDone(parts, entries[i]); }
    forall i | 0 <= i < |entries|
      ensures Without(parts, entries[i]) ==> !items[i].covered
      ensures EveryPartDone(parts) && entries[i].included && !items[i].covered ==> Without(parts, entries[i])
    {
      EmptyIsUncovered(parts, entries[i]);
      if EveryPartDone(parts) && entries[i].included && !items[i].covered { UncoveredIsOpen(parts, entries[i]); }
    }
    if parts != [] && EveryPartDone(parts) {
      var e :| e in entries && e.entryId == parts[0].entryId;
      var i :| 0 <= i < |entries| && entries[i] == e;
      DoneIsCovered(parts, e);
    }
  }

  lemma CoveredMeansAll(entry: Entry, parts: seq<Part>, times: map<string, int>, errors: map<string, string>)
    ensures CoversAll(entry, parts, EntryItem(entry, parts, times, errors).covered)
  {
    var own := OfEntry(parts, entry.entryId);
    OfEntryIsWhole(parts, entry.entryId);
    AllAreThose(own, {T.Processed});
    hide Only, OfEntry, FailureCodes, FirstLocator, LatestTime, ActionFor;
    if own != [] { assert own[0] in own; }
  }

  lemma {:induction false} AllAreThose(parts: seq<Part>, states: set<T.PartState>)
    ensures |Only(parts, states)| <= |parts|
    ensures |Only(parts, states)| == |parts| <==> forall p | p in parts :: p.state in states
    decreases |parts|
  {
    if parts != [] {
      var front, last := parts[..|parts| - 1], parts[|parts| - 1];
      AllAreThose(front, states);
      assert forall p :: p in parts <==> p in front || p == last;
    }
  }

  lemma ProcessedAmong(parts: seq<Part>)
    ensures InState(parts, {T.Processed}) <= |parts|
    ensures InState(parts, {T.Processed}) > 0 <==> SomePartDone(parts)
    ensures InState(parts, {T.Processed}) == |parts| <==> EveryPartDone(parts)
  {
    OnlyIsNumber(parts, {T.Processed});
    AllAreThose(parts, {T.Processed});
    NoneOnly(parts, {T.Processed});
    hide Only, InState;
    assert |Only(parts, {T.Processed})| == 0 <==> Only(parts, {T.Processed}) == [];
  }

  lemma {:induction false} Below(n: nat) returns (all: set<int>)
    ensures |all| == n && forall i :: i in all <==> 0 <= i < n
    decreases n
  {
    all := {};
    if n > 0 {
      all := Below(n - 1);
      all := all + {n - 1};
    }
  }

  lemma TwoAmong(n: nat, a: set<int>, b: set<int>)
    requires (forall i | i in a + b :: 0 <= i < n) && a !! b
    ensures |a| + |b| < n <==> exists i | 0 <= i < n :: i !in a && i !in b
    ensures |a| + |b| <= n
  {
    var all := Below(n);
    var left := all - (a + b);
    assert |a + b| == |a| + |b|;
    forall i | i in a + b ensures i in all {}
    assert all == left + (a + b);
    if forall i | 0 <= i < n :: i in a || i in b {
      assert left == {};
    }
    if i :| 0 <= i < n && i !in a && i !in b { assert i in left; }
  }

  lemma CoveredAmong(entries: seq<Entry>, items: seq<Item>)
    requires |items| == |entries| && forall i | 0 <= i < |items| :: items[i].covered ==> entries[i].included
    ensures var covered := |set i | 0 <= i < |items| && items[i].covered|;
            var excluded := |set i | 0 <= i < |entries| && !entries[i].included|;
            && (covered > 0 <==> exists i | 0 <= i < |items| :: items[i].covered)
            && (covered < |entries| - excluded <==>
                  exists i | 0 <= i < |items| :: entries[i].included && !items[i].covered)
  {
    var covered := set i | 0 <= i < |items| && items[i].covered;
    var excluded := set i | 0 <= i < |entries| && !entries[i].included;
    TwoAmong(|entries|, covered, excluded);
    if i :| 0 <= i < |items| && items[i].covered { assert i in covered; }
    forall i | 0 <= i < |items|
      ensures i in covered <==> items[i].covered
      ensures i in excluded <==> !entries[i].included
    {}
  }
}
