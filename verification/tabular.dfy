/** Comma- and tab-separated sources: exact records, read line by line, and the parts they are grouped into. */
module Tabular {
  import opened Outcomes
  import opened TextLines

  // ---------------------------------------------------------------- what a record is, one character at a time

  /** Where a record stands between two characters: RFC 4180, section 2, with bare line ends as well. */
  datatype Place = FieldStart | Plain | Quoted | Closing | Broken

  function Next(place: Place, c: char, delimiter: char): Place {
    match place
    case Quoted => if c == '"' then Closing else Quoted
    case Closing => if c == '"' then Quoted else if c == delimiter then FieldStart else Broken
    case FieldStart => if c == '"' then Quoted else if c == delimiter then FieldStart else Plain
    case Plain => if c == '"' then Broken else if c == delimiter then FieldStart else Plain
    case Broken => Broken
  }

  /** The records from `start` on, when the character at `i` is met at `place`; none if the text is malformed. */
  function Records(text: string, delimiter: char, start: nat, i: nat, place: Place): Option<seq<string>>
    requires start <= i <= |text|
    decreases |text| - i
  {
    if place == Broken then None
    else if i == |text| then
      if place == Quoted then None else if start < i then Some([text[start..]]) else Some([])
    else if place != Quoted && EndsLine(text[i]) then
      var end := AfterTerminator(text, i);
      var rest :- Records(text, delimiter, end, end, FieldStart);
      Some([text[start..end]] + rest)
    else Records(text, delimiter, start, i + 1, Next(place, text[i], delimiter))
  }

  /** Nothing is lost: the records in their order are the text. */
  lemma {:induction false} RecordsAreLossless(text: string, delimiter: char, start: nat, i: nat, place: Place)
    requires start <= i <= |text| && Records(text, delimiter, start, i, place).Some?
    ensures Joined(Records(text, delimiter, start, i, place).value) == text[start..]
    decreases |text| - i
  {
    if i == |text| {
      if start < i {
        JoinedOne(text[start..]);
      }
    } else if place != Quoted && EndsLine(text[i]) {
      var end := AfterTerminator(text, i);
      var rest := Records(text, delimiter, end, end, FieldStart).value;
      RecordsAreLossless(text, delimiter, end, end, FieldStart);
      JoinedOne(text[start..end]);
      JoinedSplits([text[start..end]], rest);
      assert text[start..end] + text[end..] == text[start..];
    } else {
      RecordsAreLossless(text, delimiter, start, i + 1, Next(place, text[i], delimiter));
    }
  }

  predicate Bounded(records: seq<string>, maxBytes: nat) {
    forall k | 0 <= k < |records| :: Size(records[k]) <= maxBytes
  }

  /** The first record reaches at least to the end of the line that is being read. */
  lemma {:induction false} FirstRecordReaches(text: string, delimiter: char, start: nat, i: nat, place: Place, to: nat)
    requires start <= i <= |text| && i <= to <= LineEnd(text, i) && start < to
    requires Records(text, delimiter, start, i, place).Some?
    ensures var records := Records(text, delimiter, start, i, place).value;
            records != [] && exists end :: to <= end <= |text| && records[0] == text[start..end]
    decreases |text| - i
  {
    if i == |text| {
      assert text[start..] == text[start..|text|];
    } else if place != Quoted && EndsLine(text[i]) {
      assert BodyEnd(text, i) == i;
    } else {
      var next := Next(place, text[i], delimiter);
      if EndsLine(text[i]) {
        LineEndsInside(text, i);
        FirstRecordReaches(text, delimiter, start, i + 1, next, if to <= i + 1 then i + 1 else to);
      } else {
        assert LineEnd(text, i + 1) == LineEnd(text, i);
        FirstRecordReaches(text, delimiter, start, i + 1, next, if to <= i + 1 then i + 1 else to);
      }
    }
  }

  lemma LineEndsInside(text: string, i: nat)
    requires i < |text| && EndsLine(text[i])
    ensures i + 1 <= |text| && LineEnd(text, i) <= i + 2
    ensures LineEnd(text, i) == i + 2 ==> LineEnd(text, i + 1) == i + 2
  {
    assert BodyEnd(text, i) == i;
    if LineEnd(text, i) == i + 2 {
      assert BodyEnd(text, i + 1) == i + 1;
    }
  }

  /** A stretch of one record that is over the bound puts the whole record over it. */
  lemma TooLargeIsRefused(text: string, delimiter: char, start: nat, i: nat, place: Place, to: nat, maxBytes: nat)
    requires start <= i <= |text| && i <= to <= LineEnd(text, i) && start < to && Size(text[start..to]) > maxBytes
    ensures var records := Records(text, delimiter, start, i, place);
            records.Some? ==> !Bounded(records.value, maxBytes)
  {
    if Records(text, delimiter, start, i, place).Some? {
      FirstRecordReaches(text, delimiter, start, i, place, to);
      var records := Records(text, delimiter, start, i, place).value;
      var end :| to <= end <= |text| && records[0] == text[start..end];
      SizeOfJoin(text[start..to], text[to..end]);
      assert text[start..to] + text[to..end] == records[0];
      assert Size(records[0]) > maxBytes;
    }
  }

  // ---------------------------------------------------------------- the reader, one line at a time

  /** The reader's three flags as a place. */
  function PlaceOf(inQuotes: bool, atFieldStart: bool, afterQuote: bool): Place {
    if inQuotes then Quoted else if afterQuote then Closing else if atFieldStart then FieldStart else Plain
  }

  predicate Terminated(line: string) {
    line != "" && EndsLine(line[|line| - 1])
  }

  /** The line without its end. */
  function BodyLength(line: string): (length: nat)
    ensures length <= |line|
  {
    if |line| >= 2 && line[|line| - 2] == '\r' && line[|line| - 1] == '\n' then |line| - 2
    else if Terminated(line) then |line| - 1
    else |line|
  }

  /** The records of a prefix followed by what the rest of the text gives. */
  function After(done: seq<string>, rest: Option<seq<string>>): Option<seq<string>> {
    if rest.Some? then Some(done + rest.value) else None
  }

  /** A whole line's body is what comes before its terminator. */
  lemma BodyOfLine(text: string, i: nat)
    requires i < |text|
    ensures var line := text[i..LineEnd(text, i)];
            i + BodyLength(line) == BodyEnd(text, i) && (Terminated(line) <==> BodyEnd(text, i) < |text|)
  {
    var body, end := BodyEnd(text, i), LineEnd(text, i);
    var line := text[i..end];
    assert forall k | 0 <= k < |line| :: line[k] == text[i + k];
  }

  /** One line's body, scanned as the reader does; it stops at what no record may contain. */
  method ScanBody(text: string, delimiter: char, ghost start: nat, from: nat, to: nat, quoted: bool)
    returns (malformed: bool, inQuotes: bool, atFieldStart: bool, afterQuote: bool)
    requires start <= from <= to <= |text| && to == BodyEnd(text, from)
    requires delimiter != '"' && !EndsLine(delimiter)
    ensures malformed ==> Records(text, delimiter, start, from, PlaceOf(quoted, !quoted, false)).None?
    ensures !malformed ==>
              && (inQuotes ==> !afterQuote)
              && Records(text, delimiter, start, from, PlaceOf(quoted, !quoted, false))
                 == Records(text, delimiter, start, to, PlaceOf(inQuotes, atFieldStart, afterQuote))
  {
    malformed, inQuotes, atFieldStart, afterQuote := false, quoted, !quoted, false;
    var index := from;
    while index < to
      invariant from <= index <= to && (inQuotes ==> !afterQuote)
      invariant afterQuote && index < to ==> text[index] != '"'
      invariant Records(text, delimiter, start, from, PlaceOf(quoted, !quoted, false))
             == Records(text, delimiter, start, index, PlaceOf(inQuotes, atFieldStart, afterQuote))
    {
      var character := text[index];
      if inQuotes {
        if character == '"' {
          if index + 1 < to && text[index + 1] == '"' {
            index := index + 2;
            continue;
          }
          inQuotes, afterQuote := false, true;
        }
        index := index + 1;
        continue;
      }
      if afterQuote {
        if character != delimiter {
          return true, inQuotes, atFieldStart, afterQuote;
        }
        afterQuote, atFieldStart := false, true;
        index := index + 1;
        continue;
      }
      if character == delimiter {
        atFieldStart := true;
      } else if character == '"' {
        if !atFieldStart { return true, inQuotes, atFieldStart, afterQuote; }
        inQuotes, atFieldStart := true, false;
      } else {
        atFieldStart := false;
      }
      index := index + 1;
    }
  }

  /** What the reader holds between two lines: whole records, and the beginning of one if it is inside quotes. */
  predicate BetweenLines(text: string, delimiter: char, records: seq<string>, buffer: string, cursor: nat,
                         inQuotes: bool) {
    && |buffer| <= cursor <= |text|
    && buffer == text[cursor - |buffer|..cursor] && (!inQuotes && cursor < |text| ==> buffer == "")
    && Records(text, delimiter, 0, 0, FieldStart)
       == After(records, Records(text, delimiter, cursor - |buffer|, cursor, PlaceOf(inQuotes, !inQuotes, false)))
  }

  /** What the end of a scanned line leads to. */
  lemma RecordEnds(text: string, delimiter: char, start: nat, body: nat, place: Place)
    requires start <= body < |text| && EndsLine(text[body]) && place != Quoted && place != Broken
    ensures var end := AfterTerminator(text, body);
            Records(text, delimiter, start, body, place)
            == After([text[start..end]], Records(text, delimiter, end, end, FieldStart))
  {}

  lemma QuoteGoesOn(text: string, delimiter: char, start: nat, body: nat)
    requires start <= body < |text| && EndsLine(text[body])
    ensures Records(text, delimiter, start, body, Quoted) ==
            Records(text, delimiter, start, AfterTerminator(text, body), Quoted)
  {}

  lemma AfterChains(a: seq<string>, b: seq<string>, rest: Option<seq<string>>)
    ensures After(a, After(b, rest)) == After(a + b, rest)
  {
    if rest.Some? {
      assert a + (b + rest.value) == (a + b) + rest.value;
    }
  }

  /** At the end of the text every place but a quoted one means the same. */
  lemma EndIsTheEnd(text: string, delimiter: char, start: nat, place: Place)
    requires start <= |text| && place != Quoted && place != Broken
    ensures Records(text, delimiter, start, |text|, place) == Records(text, delimiter, start, |text|, FieldStart)
  {}

  lemma SlicesJoin(text: string, a: nat, b: nat, c: nat)
    requires a <= b <= c <= |text|
    ensures text[a..b] + text[b..c] == text[a..c]
  {}

  lemma OversizedLineIsRefused(text: string, delimiter: char, records: seq<string>, buffer: string, cursor: nat,
                               inQuotes: bool, end: nat, maxBytes: nat)
    requires BetweenLines(text, delimiter, records, buffer, cursor, inQuotes)
    requires cursor < end <= LineEnd(text, cursor) && Size(buffer) + Size(text[cursor..end]) > maxBytes
    ensures var all := Records(text, delimiter, 0, 0, FieldStart); all.Some? ==> !Bounded(all.value, maxBytes)
  {
    var start := cursor - |buffer|;
    SizeOfJoin(buffer, text[cursor..end]);
    SlicesJoin(text, start, cursor, end);
    TooLargeIsRefused(text, delimiter, start, cursor, PlaceOf(inQuotes, !inQuotes, false), end, maxBytes);
    hide Records;
    var rest := Records(text, delimiter, start, cursor, PlaceOf(inQuotes, !inQuotes, false));
    if rest.Some? {
      var k :| 0 <= k < |rest.value| && Size(rest.value[k]) > maxBytes;
      assert (records + rest.value)[|records| + k] == rest.value[k];
    }
  }

  /** A line read to its end leaves the reader between lines again. */
  lemma LineDone(text: string, delimiter: char, records: seq<string>, buffer: string, cursor: nat, quoted: bool,
                 inQuotes: bool, place: Place)
    requires cursor < |text| && BetweenLines(text, delimiter, records, buffer, cursor, quoted)
    requires place != Broken && (inQuotes <==> place == Quoted)
    requires Records(text, delimiter, cursor - |buffer|, cursor, PlaceOf(quoted, !quoted, false))
             == Records(text, delimiter, cursor - |buffer|, BodyEnd(text, cursor), place)
    ensures var end := LineEnd(text, cursor);
            var whole := buffer + text[cursor..end];
            if BodyEnd(text, cursor) < |text| && !inQuotes
            then BetweenLines(text, delimiter, records + [whole], "", end, false)
            else BetweenLines(text, delimiter, records, whole, end, inQuotes)
  {
    hide Records, BodyEnd;
    var start, body, end := cursor - |buffer|, BodyEnd(text, cursor), LineEnd(text, cursor);
    SlicesJoin(text, start, cursor, end);
    if body == |text| {
      if !inQuotes {
        EndIsTheEnd(text, delimiter, start, place);
      }
    } else if inQuotes {
      QuoteGoesOn(text, delimiter, start, body);
    } else {
      RecordEnds(text, delimiter, start, body, place);
      AfterChains(records, [text[start..end]], Records(text, delimiter, end, end, FieldStart));
    }
  }

  /** Reads the records; it fails exactly on malformed text and on a record over the bound. */
  method ReadRecords(text: string, delimiter: char, maxBytes: nat) returns (records: Option<seq<string>>)
    requires delimiter != '"' && !EndsLine(delimiter)
    ensures var all := Records(text, delimiter, 0, 0, FieldStart);
            records == if all.Some? && Bounded(all.value, maxBytes) then all else None
  {
    hide Records, BodyEnd, LineEnd;
    var rows: seq<string>, buffer, cursor, inQuotes := [], "", 0, false;
    StartsBetweenLines(text, delimiter);
    while cursor < |text|
      invariant BetweenLines(text, delimiter, rows, buffer, cursor, inQuotes) && Bounded(rows, maxBytes)
      invariant Size(buffer) <= maxBytes
      decreases |text| - cursor
    {
      var end := ReadEnd(text, cursor, maxBytes + 1);
      var line := text[cursor..end];
      LineGoesOn(text, cursor, maxBytes + 1);
      if Size(buffer) + Size(line) > maxBytes {
        OversizedLineIsRefused(text, delimiter, rows, buffer, cursor, inQuotes, end, maxBytes);
        return None;
      }
      SizeIsAtLeastLength(line);
      BodyOfLine(text, cursor);
      var malformed, quoted, atFieldStart, afterQuote :=
        ScanBody(text, delimiter, cursor - |buffer|, cursor, cursor + BodyLength(line), inQuotes);
      if malformed { return None; }
      LineDone(text, delimiter, rows, buffer, cursor, inQuotes, quoted, PlaceOf(quoted, atFieldStart, afterQuote));
      SizeOfJoin(buffer, line);
      buffer := buffer + line;
      if Terminated(line) && !quoted {
        rows, buffer := rows + [buffer], "";
      }
      cursor, inQuotes := end, quoted;
    }
    EndOfText(text, delimiter, cursor - |buffer|, inQuotes);
    if inQuotes { return None; }
    assert buffer == text[cursor - |buffer|..] && rows + [] == rows;
    if buffer != "" { rows := rows + [buffer]; }
    records := Some(rows);
  }

  lemma StartsBetweenLines(text: string, delimiter: char)
    ensures BetweenLines(text, delimiter, [], "", 0, false)
  {
    var all := Records(text, delimiter, 0, 0, FieldStart);
    assert all.Some? ==> [] + all.value == all.value;
  }

  lemma LineGoesOn(text: string, cursor: nat, limit: nat)
    requires cursor < |text| && limit > 0
    ensures cursor < ReadEnd(text, cursor, limit) <= LineEnd(text, cursor) <= |text|
  {}

  lemma EndOfText(text: string, delimiter: char, start: nat, inQuotes: bool)
    requires start <= |text|
    ensures Records(text, delimiter, start, |text|, PlaceOf(inQuotes, !inQuotes, false))
            == if inQuotes then None else if start < |text| then Some([text[start..]]) else Some([])
  {}

  // ---------------------------------------------------------------- parts

  /** Some records in a row, by their numbers from one. */
  datatype RowPart = RowPart(first: nat, last: nat, content: string)

  predicate PartFits(records: seq<string>, part: RowPart, maxBytes: nat) {
    && 1 <= part.first <= part.last <= |records|
    && part.content == Joined(records[part.first - 1..part.last]) && Size(part.content) <= maxBytes
  }

  predicate Follow(parts: seq<RowPart>) {
    forall i, j | 0 <= i < |parts| && j == i + 1 && j < |parts| :: parts[j].first == parts[i].last + 1
  }

  /** The parts hold the first `upTo` records, in order, with no gap, and none could have taken one record more. */
  predicate PartsCover(records: seq<string>, parts: seq<RowPart>, upTo: nat, maxBytes: nat) {
    && upTo <= |records|
    && (forall i | 0 <= i < |parts| :: PartFits(records, parts[i], maxBytes))
    && Follow(parts)
    && (if parts == [] then upTo == 0 else parts[0].first == 1 && parts[|parts| - 1].last == upTo)
    && forall i | 0 <= i < |parts| && parts[i].last < |records| ::
         Size(parts[i].content) + Size(records[parts[i].last]) > maxBytes
  }

  lemma {:induction false} CoveringLosesNothing(records: seq<string>, parts: seq<RowPart>, upTo: nat, maxBytes: nat)
    requires forall i | 0 <= i < |parts| :: PartFits(records, parts[i], maxBytes)
    requires Follow(parts)
    requires upTo <= |records|
    requires if parts == [] then upTo == 0 else parts[0].first == 1 && parts[|parts| - 1].last == upTo
    ensures Joined(Contents(parts)) == Joined(records[..upTo])
    decreases |parts|
  {
    if parts != [] {
      hide Size, Joined;
      var front, last := parts[..|parts| - 1], parts[|parts| - 1];
      assert PartFits(records, last, maxBytes);
      assert 1 <= last.first <= upTo && last.content == Joined(records[last.first - 1..upTo]);
      hide PartFits, Contents;
      LastContent(parts);
      FrontEnds(records, parts, maxBytes);
      CoveringLosesNothing(records, front, last.first - 1, maxBytes);
      JoinedPrefix(records, last.first - 1, upTo);
    } else {
      assert records[..0] == Contents(parts);
    }
  }

  lemma LastContent(parts: seq<RowPart>)
    requires parts != []
    ensures Joined(Contents(parts)) == Joined(Contents(parts[..|parts| - 1])) + parts[|parts| - 1].content
  {
    assert Contents(parts)[..|parts| - 1] == Contents(parts[..|parts| - 1]);
  }

  lemma FrontEnds(records: seq<string>, parts: seq<RowPart>, maxBytes: nat)
    requires parts != [] && parts[0].first == 1 && parts[|parts| - 1].first >= 1
    requires Follow(parts)
    ensures var front, last := parts[..|parts| - 1], parts[|parts| - 1];
            if front == [] then last.first == 1 else front[0].first == 1 && front[|front| - 1].last == last.first - 1
  {}

  lemma JoinedPrefix(records: seq<string>, from: nat, to: nat)
    requires from <= to <= |records|
    ensures Joined(records[..from]) + Joined(records[from..to]) == Joined(records[..to])
  {
    JoinedSplits(records[..from], records[from..to]);
    assert records[..from] + records[from..to] == records[..to];
  }

  function Contents(parts: seq<RowPart>): (contents: seq<string>)
    ensures |contents| == |parts| && forall i | 0 <= i < |parts| :: contents[i] == parts[i].content
  {
    seq(|parts|, i requires 0 <= i < |parts| => parts[i].content)
  }

  /** Splits a table into parts; together they are the text, and each is within the bound. */
  method PrepareTabular(text: string, delimiter: char, maxBytes: nat) returns (parts: Option<seq<RowPart>>)
    requires delimiter != '"' && !EndsLine(delimiter)
    ensures var all := Records(text, delimiter, 0, 0, FieldStart);
            && (parts.Some? <==> all.Some? && Bounded(all.value, maxBytes) && all.value != [])
            && (parts.Some? ==> PartsCover(all.value, parts.value, |all.value|, maxBytes))
    ensures parts.Some? ==> Joined(Contents(parts.value)) == text
  {
    hide Records;
    var found := ReadRecords(text, delimiter, maxBytes);
    if found.None? { return None; }
    var records := found.value;
    if records == [] { return None; }
    RecordsAreLossless(text, delimiter, 0, 0, FieldStart);
    RecordsAreNotEmpty(text, delimiter, 0, 0, FieldStart);
    var staged := GroupRecords(records, maxBytes);
    CoveringLosesNothing(records, staged, |records|, maxBytes);
    assert records[..|records|] == records;
    parts := Some(staged);
  }

  lemma {:induction false} RecordsAreNotEmpty(text: string, delimiter: char, start: nat, i: nat, place: Place)
    requires start <= i <= |text|
    ensures var records := Records(text, delimiter, start, i, place);
            records.Some? ==> forall k | 0 <= k < |records.value| :: records.value[k] != ""
    decreases |text| - i
  {
    hide Records, Next;
    if i == |text| || place == Broken {
      RecordsStop(text, delimiter, start, i, place);
    } else if place != Quoted && EndsLine(text[i]) {
      var end := AfterTerminator(text, i);
      RecordEnds(text, delimiter, start, i, place);
      RecordsAreNotEmpty(text, delimiter, end, end, FieldStart);
      assert |text[start..end]| > 0;
    } else {
      RecordGoesOn(text, delimiter, start, i, place);
      RecordsAreNotEmpty(text, delimiter, start, i + 1, Next(place, text[i], delimiter));
    }
  }

  lemma RecordsStop(text: string, delimiter: char, start: nat, i: nat, place: Place)
    requires start <= i <= |text| && (i == |text| || place == Broken)
    ensures var records := Records(text, delimiter, start, i, place);
            records.Some? ==> forall k | 0 <= k < |records.value| :: |records.value[k]| > 0
  {}

  lemma RecordGoesOn(text: string, delimiter: char, start: nat, i: nat, place: Place)
    requires start <= i < |text| && place != Broken && (place == Quoted || !EndsLine(text[i]))
    ensures Records(text, delimiter, start, i, place)
            == Records(text, delimiter, start, i + 1, Next(place, text[i], delimiter))
  {}

  /** Puts records together as long as they fit. */
  method GroupRecords(records: seq<string>, maxBytes: nat) returns (staged: seq<RowPart>)
    requires records != [] && Bounded(records, maxBytes)
    requires forall k | 0 <= k < |records| :: records[k] != ""
    ensures PartsCover(records, staged, |records|, maxBytes)
  {
    hide Size, PartsCover, PartFits, Joined;
    staged := [];
    var current, firstRow := "", 1;
    EmptyCover(records, maxBytes);
    for row := 1 to |records| + 1
      invariant 1 <= firstRow <= row && (row > 1 ==> current != "" && firstRow < row) && (row == 1 ==> current == "")
      invariant current == Joined(records[firstRow - 1..row - 1]) && Size(current) <= maxBytes
      invariant PartsCover(records, staged, firstRow - 1, maxBytes)
    {
      var encoded := records[row - 1];
      if current != "" && Size(current) + Size(encoded) > maxBytes {
        CoverExtends(records, staged, RowPart(firstRow, row - 1, current), maxBytes);
        staged := staged + [RowPart(firstRow, row - 1, current)];
        current, firstRow := "", row;
        EmptyCover(records[row - 1..row - 1], maxBytes);
      }
      GrowsByOne(records, firstRow - 1, row - 1, current);
      SizeOfJoin(current, encoded);
      current := current + encoded;
    }
    CoverExtends(records, staged, RowPart(firstRow, |records|, current), maxBytes);
    staged := staged + [RowPart(firstRow, |records|, current)];
  }

  lemma EmptyCover(records: seq<string>, maxBytes: nat)
    ensures PartsCover(records, [], 0, maxBytes) && Joined([]) == "" && Size("") == 0
  {}

  lemma CoverExtends(records: seq<string>, parts: seq<RowPart>, part: RowPart, maxBytes: nat)
    requires 1 <= part.first <= part.last <= |records| && PartsCover(records, parts, part.first - 1, maxBytes)
    requires part.content == Joined(records[part.first - 1..part.last]) && Size(part.content) <= maxBytes
    requires part.last < |records| ==> Size(part.content) + Size(records[part.last]) > maxBytes
    ensures PartsCover(records, parts + [part], part.last, maxBytes)
  {
    hide Size, Joined;
  }

  lemma GrowsByOne(records: seq<string>, from: nat, to: nat, current: string)
    requires from <= to < |records| && current == Joined(records[from..to])
    ensures current + records[to] == Joined(records[from..to + 1])
  {
    assert records[from..to + 1][..to - from] == records[from..to];
  }
}
