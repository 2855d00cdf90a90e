/** A document's pages cut into ranges: as many pages as allowed, halved until the range fits. */
module PdfRanges {
  import opened Outcomes

  /** Pages `start` to `end`, the last not included. */
  datatype Range = Range(start: nat, end: nat)

  /** The bytes a range of pages takes when it is written out on its own. */
  type Sizes = (nat, nat) -> nat

  /** What halving leaves of a range; nothing if not even its first page fits. */
  function Halved(sizes: Sizes, start: nat, end: nat, maxBytes: nat): (fitting: Option<nat>)
    requires start < end
    ensures fitting.Some? ==> start < fitting.value <= end && sizes(start, fitting.value) <= maxBytes
    ensures fitting.None? ==> sizes(start, start + 1) > maxBytes
    decreases end - start
  {
    if sizes(start, end) <= maxBytes then Some(end)
    else if end - start == 1 then None
    else Halved(sizes, start, start + (end - start) / 2, maxBytes)
  }

  function Least(a: nat, b: nat): nat {
    if a < b then a else b
  }

  /** The ranges from a page on. */
  function RangesFrom(sizes: Sizes, start: nat, pages: nat, pagesPerPart: nat, maxBytes: nat): Option<seq<Range>>
    requires start <= pages && pagesPerPart > 0
    decreases pages - start
  {
    if start == pages then Some([])
    else
      var end :- Halved(sizes, start, Least(start + pagesPerPart, pages), maxBytes);
      var rest :- RangesFrom(sizes, end, pages, pagesPerPart, maxBytes);
      Some([Range(start, end)] + rest)
  }

  /** Ranges that follow one another from one page to another without a gap. */
  predicate Chain(ranges: seq<Range>, start: nat, pages: nat) {
    if ranges == [] then start == pages
    else ranges[0].start == start && start < ranges[0].end && Chain(ranges[1..], ranges[0].end, pages)
  }

  predicate RangesFit(ranges: seq<Range>, sizes: Sizes, pagesPerPart: nat, maxBytes: nat) {
    forall r | r in ranges :: r.end <= r.start + pagesPerPart && sizes(r.start, r.end) <= maxBytes
  }

  /** For any sizes at all: the ranges partition the pages in order, within the page limit and the byte bound. */
  lemma {:induction false} RangesPartition(sizes: Sizes, start: nat, pages: nat, pagesPerPart: nat, maxBytes: nat)
    requires start <= pages && pagesPerPart > 0
    requires RangesFrom(sizes, start, pages, pagesPerPart, maxBytes).Some?
    ensures var ranges := RangesFrom(sizes, start, pages, pagesPerPart, maxBytes).value;
            Chain(ranges, start, pages) && RangesFit(ranges, sizes, pagesPerPart, maxBytes)
    decreases pages - start
  {
    if start < pages {
      RangesPartition(sizes, Halved(sizes, start, Least(start + pagesPerPart, pages), maxBytes).value, pages,
                      pagesPerPart, maxBytes);
    }
  }

  /** Numbers of pages, each half of the one before, rounded down, and each but the last too many. */
  ghost predicate Tried(sizes: Sizes, start: nat, maxBytes: nat, tries: seq<nat>) {
    forall k | 0 <= k < |tries| - 1 ::
      tries[k + 1] == tries[k] / 2 && sizes(start, start + tries[k]) > maxBytes
  }

  /** The first half that fits is taken; a range is refused only when a single page of it is too large as well. */
  lemma {:induction false} HalvedIsFirstThatFits(sizes: Sizes, start: nat, end: nat, maxBytes: nat)
    returns (tries: seq<nat>)
    requires start < end
    ensures tries != [] && tries[0] == end - start && Tried(sizes, start, maxBytes, tries)
    ensures var last := tries[|tries| - 1];
            match Halved(sizes, start, end, maxBytes)
            case Some(fitting) => fitting == start + last && last > 0 && sizes(start, start + last) <= maxBytes
            case None => last == 1 && sizes(start, start + 1) > maxBytes
    decreases end - start
  {
    tries := [end - start];
    if sizes(start, end) > maxBytes && end - start > 1 {
      var rest := HalvedIsFirstThatFits(sizes, start, start + (end - start) / 2, maxBytes);
      TriedOnce(sizes, start, maxBytes, end - start, rest);
      tries := tries + rest;
      hide Tried;
    }
  }

  lemma TriedOnce(sizes: Sizes, start: nat, maxBytes: nat, most: nat, rest: seq<nat>)
    requires rest != [] && rest[0] == most / 2 && sizes(start, start + most) > maxBytes
    requires Tried(sizes, start, maxBytes, rest)
    ensures Tried(sizes, start, maxBytes, [most] + rest)
  {}

  /** Each range takes as many of the pages left as it may, or the first half of them that fits. */
  ghost predicate TakenInTurn(ranges: seq<Range>, sizes: Sizes, pages: nat, pagesPerPart: nat, maxBytes: nat) {
    forall r | r in ranges :: r.start <= r.end <= pages && exists tries: seq<nat> | tries != [] ::
      && tries[0] == (if r.start + pagesPerPart < pages then pagesPerPart else pages - r.start)
      && tries[|tries| - 1] == r.end - r.start && sizes(r.start, r.end) <= maxBytes
      && Tried(sizes, r.start, maxBytes, tries)
  }

  lemma {:induction false} RangesAreTakenInTurn(sizes: Sizes, start: nat, pages: nat, pagesPerPart: nat, maxBytes: nat)
    requires start <= pages && pagesPerPart > 0
    ensures var ranges := RangesFrom(sizes, start, pages, pagesPerPart, maxBytes);
            ranges.Some? ==> TakenInTurn(ranges.value, sizes, pages, pagesPerPart, maxBytes)
    decreases pages - start
  {
    var ranges := RangesFrom(sizes, start, pages, pagesPerPart, maxBytes);
    if ranges.Some? && start < pages {
      var end := Halved(sizes, start, Least(start + pagesPerPart, pages), maxBytes).value;
      var tries := HalvedIsFirstThatFits(sizes, start, Least(start + pagesPerPart, pages), maxBytes);
      RangesAreTakenInTurn(sizes, end, pages, pagesPerPart, maxBytes);
      hide Tried, Halved;
      assert ranges.value[0] == Range(start, end) && ranges.value[1..] ==
             RangesFrom(sizes, end, pages, pagesPerPart, maxBytes).value;
    }
  }

  predicate TooLarge(sizes: Sizes, page: nat, maxBytes: nat) {
    sizes(page, page + 1) > maxBytes
  }

  /** The splitting fails only where a single page is over the bound. */
  lemma {:induction false} FailureNamesAPage(sizes: Sizes, start: nat, pages: nat, pagesPerPart: nat, maxBytes: nat)
    requires start <= pages && pagesPerPart > 0
    requires RangesFrom(sizes, start, pages, pagesPerPart, maxBytes).None?
    ensures exists page | start <= page < pages :: TooLarge(sizes, page, maxBytes)
    decreases pages - start
  {
    assert Halved(sizes, start, Least(start + pagesPerPart, pages), maxBytes).None? ==>
           TooLarge(sizes, start, maxBytes);
    var halved := Halved(sizes, start, Least(start + pagesPerPart, pages), maxBytes);
    if halved.Some? {
      FailureNamesAPage(sizes, halved.value, pages, pagesPerPart, maxBytes);
    }
  }

  /** Every page is in exactly one of the ranges. */
  lemma {:induction false} EveryPageIsInOneRange(ranges: seq<Range>, start: nat, pages: nat, page: nat)
    requires Chain(ranges, start, pages) && start <= page < pages
    ensures exists k | 0 <= k < |ranges| :: ranges[k].start <= page < ranges[k].end
    ensures forall j, k | 0 <= j < |ranges| && 0 <= k < |ranges| ::
              ranges[j].start <= page < ranges[j].end && ranges[k].start <= page < ranges[k].end ==> j == k
    decreases |ranges|
  {
    var rest := ranges[1..];
    if page < ranges[0].end {
      LaterRangesStartLater(rest, ranges[0].end, pages);
      assert forall k | 0 < k < |ranges| :: ranges[k] == rest[k - 1];
    } else {
      EveryPageIsInOneRange(rest, ranges[0].end, pages, page);
      assert forall k | 0 < k < |ranges| :: ranges[k] == rest[k - 1];
      var k :| 0 <= k < |rest| && rest[k].start <= page < rest[k].end;
      assert ranges[k + 1] == rest[k];
    }
  }

  lemma {:induction false} LaterRangesStartLater(ranges: seq<Range>, start: nat, pages: nat)
    requires Chain(ranges, start, pages)
    ensures forall k | 0 <= k < |ranges| :: start <= ranges[k].start
    decreases |ranges|
  {
    if ranges != [] {
      LaterRangesStartLater(ranges[1..], ranges[0].end, pages);
      assert forall k | 0 < k < |ranges| :: ranges[k] == ranges[1..][k - 1];
    }
  }

  datatype Failure = Empty | PageTooLarge(page: nat)

  datatype Prepared = Ranges(ranges: seq<Range>) | Refused(failure: Failure)

  /** Writes ranges until every page is in one, halving each range that is over the bound. */
  method PreparePdf(sizes: Sizes, pages: nat, pagesPerPart: nat, maxBytes: nat) returns (prepared: Prepared)
    requires pagesPerPart > 0
    ensures pages == 0 <==> prepared == Refused(Empty)
    ensures pages > 0 ==>
              var found := RangesFrom(sizes, 0, pages, pagesPerPart, maxBytes);
              if found.Some? then prepared == Ranges(found.value)
              else prepared.Refused? && prepared.failure.PageTooLarge?
                   && 1 <= prepared.failure.page <= pages
                   && TooLarge(sizes, prepared.failure.page - 1, maxBytes)
  {
    hide Halved;
    if pages == 0 { return Refused(Empty); }
    var staged: seq<Range>, start := [], 0;
    StartsWhole(sizes, pages, pagesPerPart, maxBytes);
    while start < pages
      invariant start <= pages
      invariant RangesFrom(sizes, 0, pages, pagesPerPart, maxBytes)
             == Behind(staged, RangesFrom(sizes, start, pages, pagesPerPart, maxBytes))
      decreases pages - start
    {
      var end := Least(start + pagesPerPart, pages);
      ghost var first := end;
      while sizes(start, end) > maxBytes
        invariant start < end <= first <= pages
        invariant Halved(sizes, start, end, maxBytes) == Halved(sizes, start, first, maxBytes)
        decreases end - start
      {
        HalvingGoesOn(sizes, start, end, maxBytes);
        if end - start == 1 {
          return Refused(PageTooLarge(start + 1));
        }
        var half := (end - start) / 2;
        end := start + if half < 1 then 1 else half;
      }
      HalvingEnds(sizes, start, end, maxBytes);
      RangeJoins(staged, Range(start, end), RangesFrom(sizes, end, pages, pagesPerPart, maxBytes));
      staged := staged + [Range(start, end)];
      start := end;
    }
    assert staged + [] == staged;
    prepared := Ranges(staged);
  }

  function Behind(front: seq<Range>, rest: Option<seq<Range>>): Option<seq<Range>> {
    if rest.Some? then Some(front + rest.value) else None
  }

  lemma StartsWhole(sizes: Sizes, pages: nat, pagesPerPart: nat, maxBytes: nat)
    requires pagesPerPart > 0
    ensures var all := RangesFrom(sizes, 0, pages, pagesPerPart, maxBytes); all == Behind([], all)
  {
    var all := RangesFrom(sizes, 0, pages, pagesPerPart, maxBytes);
    assert all.Some? ==> [] + all.value == all.value;
  }

  lemma RangeJoins(front: seq<Range>, range: Range, rest: Option<seq<Range>>)
    ensures Behind(front, Behind([range], rest)) == Behind(front + [range], rest)
  {
    if rest.Some? {
      assert front + ([range] + rest.value) == (front + [range]) + rest.value;
    }
  }

  lemma HalvingGoesOn(sizes: Sizes, start: nat, end: nat, maxBytes: nat)
    requires start < end && sizes(start, end) > maxBytes
    ensures end - start == 1 ==> Halved(sizes, start, end, maxBytes).None?
    ensures end - start > 1 ==>
              Halved(sizes, start, start + (end - start) / 2, maxBytes) == Halved(sizes, start, end, maxBytes)
  {}

  lemma HalvingEnds(sizes: Sizes, start: nat, end: nat, maxBytes: nat)
    requires start < end && sizes(start, end) <= maxBytes
    ensures Halved(sizes, start, end, maxBytes) == Some(end)
  {}
}
