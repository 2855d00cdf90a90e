/** Plain text cut into parts of whole lines, each part repeating up to two lines of the one before. */
module TextChunks {
  import opened Outcomes
  import opened TextLines

  const OVERLAP_LINES := 2

  /** Lines `first` to `last`, numbered from one; the first `overlap` of them repeat the part before. */
  datatype Chunk = Chunk(first: nat, last: nat, overlap: nat, content: string)

  predicate LinesBounded(lines: seq<string>, maxBytes: nat) {
    forall i | 0 <= i < |lines| :: Size(lines[i]) <= maxBytes
  }

  /** The lines of a text, ends included, when each is read with no more characters than the bound allows. */
  function Lines(text: string, i: nat): seq<string>
    requires i <= |text|
    decreases |text| - i
  {
    if i == |text| then [] else [text[i..LineEnd(text, i)]] + Lines(text, LineEnd(text, i))
  }

  lemma {:induction false} LinesAreLossless(text: string, i: nat)
    requires i <= |text|
    ensures Joined(Lines(text, i)) == text[i..]
    decreases |text| - i
  {
    if i < |text| {
      hide LineEnd, BodyEnd, Joined;
      var end := LineEnd(text, i);
      LinesAreLossless(text, end);
      JoinedSplits([text[i..end]], Lines(text, end));
      JoinedOne(text[i..end]);
      assert text[i..end] + text[end..] == text[i..];
    }
  }

  predicate ChunkFits(lines: seq<string>, chunk: Chunk, maxBytes: nat) {
    && 1 <= chunk.first <= chunk.last <= |lines|
    && chunk.overlap <= OVERLAP_LINES && chunk.first + chunk.overlap <= chunk.last
    && chunk.content == Joined(lines[chunk.first - 1..chunk.last]) && Size(chunk.content) <= maxBytes
  }

  /** No chunk but the last could have taken one line more. */
  predicate Full(lines: seq<string>, chunk: Chunk, maxBytes: nat) {
    chunk.last < |lines| ==> Size(chunk.content) + Size(lines[chunk.last]) > maxBytes
  }

  /** As many of a chunk's last lines, at most two and not all, as leave room for the line that follows it. */
  predicate BestOverlap(lines: seq<string>, before: Chunk, overlap: nat, maxBytes: nat) {
    && overlap <= 2 && 1 <= before.first && before.first + overlap <= before.last < |lines|
    && Size(Joined(lines[before.last - overlap..before.last])) + Size(lines[before.last]) <= maxBytes
    && (overlap < 2 && before.first + overlap <= before.last ==>
          Size(Joined(lines[before.last - overlap - 1..before.last])) + Size(lines[before.last]) > maxBytes)
  }

  /** The chunks hold the first `upTo` lines: each starts further on, its new lines where the one before ended. */
  predicate ChunksCover(lines: seq<string>, chunks: seq<Chunk>, upTo: nat, maxBytes: nat) {
    if chunks == [] then upTo == 0
    else
      var front, last := chunks[..|chunks| - 1], chunks[|chunks| - 1];
      && ChunkFits(lines, last, maxBytes) && Full(lines, last, maxBytes) && last.last == upTo
      && (if front == [] then last.overlap == 0
          else front[|front| - 1].first < last.first
               && BestOverlap(lines, front[|front| - 1], last.overlap, maxBytes))
      && ChunksCover(lines, front, last.first + last.overlap - 1, maxBytes)
  }

  /** A chunk without the lines it repeats. */
  function NewText(lines: seq<string>, chunk: Chunk): string {
    if 1 <= chunk.first && chunk.first + chunk.overlap <= chunk.last <= |lines|
    then Joined(lines[chunk.first + chunk.overlap - 1..chunk.last]) else ""
  }

  function NewTexts(lines: seq<string>, chunks: seq<Chunk>): (texts: seq<string>)
    ensures |texts| == |chunks| && forall i | 0 <= i < |chunks| :: texts[i] == NewText(lines, chunks[i])
  {
    seq(|chunks|, i requires 0 <= i < |chunks| => NewText(lines, chunks[i]))
  }

  lemma JoinedRange(lines: seq<string>, from: nat, mid: nat, to: nat)
    requires from <= mid <= to <= |lines|
    ensures Joined(lines[from..mid]) + Joined(lines[mid..to]) == Joined(lines[from..to])
  {
    JoinedSplits(lines[from..mid], lines[mid..to]);
    assert lines[from..mid] + lines[mid..to] == lines[from..to];
  }

  /** The chunk is the tail of the other one, its declared overlap, and then its new lines. */
  predicate Continues(lines: seq<string>, before: Chunk, chunk: Chunk) {
    && chunk.overlap <= OVERLAP_LINES && before.first + chunk.overlap <= before.last <= |lines|
    && chunk.content == Joined(lines[before.last - chunk.overlap..before.last]) + NewText(lines, chunk)
  }

  lemma NextContinues(lines: seq<string>, before: Chunk, chunk: Chunk, maxBytes: nat)
    requires ChunkFits(lines, before, maxBytes) && ChunkFits(lines, chunk, maxBytes)
    requires chunk.first + chunk.overlap == before.last + 1 && before.first < chunk.first
    ensures Continues(lines, before, chunk)
  {
    hide Joined, Size;
    var from, mid := chunk.first - 1, before.last;
    assert from == before.last - chunk.overlap && mid == chunk.first + chunk.overlap - 1;
    JoinedRange(lines, from, mid, chunk.last);
    assert NewText(lines, chunk) == Joined(lines[mid..chunk.last]);
  }

  lemma {:induction false} OverlapIsTheTail(lines: seq<string>, chunks: seq<Chunk>, upTo: nat, maxBytes: nat, i: nat)
    requires ChunksCover(lines, chunks, upTo, maxBytes) && 0 < i < |chunks|
    ensures Continues(lines, chunks[i - 1], chunks[i])
    decreases |chunks|
  {
    hide Joined, Size, Continues, NewText, Full;
    var front, last := chunks[..|chunks| - 1], chunks[|chunks| - 1];
    FrontCovers(lines, chunks, upTo, maxBytes);
    hide ChunkFits;
    if i == |chunks| - 1 {
      FrontCovers(lines, front, last.first + last.overlap - 1, maxBytes);
      NextContinues(lines, front[|front| - 1], last, maxBytes);
    } else {
      OverlapIsTheTail(lines, front, last.first + last.overlap - 1, maxBytes, i);
    }
  }

  /** Dropping every chunk's declared overlap gives the text back. */
  lemma {:induction false} ChunksLoseNothing(lines: seq<string>, chunks: seq<Chunk>, upTo: nat, maxBytes: nat)
    requires ChunksCover(lines, chunks, upTo, maxBytes)
    ensures upTo <= |lines| && Joined(NewTexts(lines, chunks)) == Joined(lines[..upTo])
    decreases |chunks|
  {
    if chunks == [] {
      assert NewTexts(lines, chunks) == lines[..upTo];
    } else {
      hide Joined, Size;
      var front, last := chunks[..|chunks| - 1], chunks[|chunks| - 1];
      FrontCovers(lines, chunks, upTo, maxBytes);
      var from := last.first + last.overlap - 1;
      assert ChunkFits(lines, last, maxBytes) && NewText(lines, last) == Joined(lines[from..upTo]);
      hide ChunkFits, ChunksCover, NewText;
      ChunksLoseNothing(lines, front, from, maxBytes);
      LastText(lines, chunks);
      JoinedRange(lines, 0, from, upTo);
      assert lines[0..from] == lines[..from] && lines[0..upTo] == lines[..upTo];
    }
  }

  lemma LastText(lines: seq<string>, chunks: seq<Chunk>)
    requires chunks != []
    ensures Joined(NewTexts(lines, chunks))
            == Joined(NewTexts(lines, chunks[..|chunks| - 1])) + NewText(lines, chunks[|chunks| - 1])
  {
    hide NewText;
    assert NewTexts(lines, chunks)[..|chunks| - 1] == NewTexts(lines, chunks[..|chunks| - 1]);
  }

  lemma FrontCovers(lines: seq<string>, chunks: seq<Chunk>, upTo: nat, maxBytes: nat)
    requires ChunksCover(lines, chunks, upTo, maxBytes) && chunks != []
    ensures var last := chunks[|chunks| - 1];
            && 1 <= last.first + last.overlap <= upTo <= |lines| && last.last == upTo
            && ChunkFits(lines, last, maxBytes)
            && ChunksCover(lines, chunks[..|chunks| - 1], last.first + last.overlap - 1, maxBytes)
  {
    hide Joined, Size;
  }

  lemma CoverGrows(lines: seq<string>, chunks: seq<Chunk>, chunk: Chunk, upTo: nat, maxBytes: nat)
    requires ChunksCover(lines, chunks, upTo, maxBytes)
    requires ChunkFits(lines, chunk, maxBytes) && Full(lines, chunk, maxBytes)
    requires chunk.first + chunk.overlap == upTo + 1 && (chunks == [] ==> chunk.overlap == 0)
    requires chunks != [] ==>
               chunks[|chunks| - 1].first < chunk.first
               && BestOverlap(lines, chunks[|chunks| - 1], chunk.overlap, maxBytes)
    ensures ChunksCover(lines, chunks + [chunk], chunk.last, maxBytes)
  {
    hide Joined, Size, Full;
    assert (chunks + [chunk])[..|chunks|] == chunks;
  }

  lemma ContentGrows(lines: seq<string>, from: nat, to: nat)
    requires from <= to < |lines|
    ensures Joined(lines[from..to]) + lines[to] == Joined(lines[from..to + 1])
  {
    assert lines[from..to + 1][..to - from] == lines[from..to];
  }

  lemma NothingJoins(lines: seq<string>, at: nat)
    requires at <= |lines|
    ensures Joined(lines[at..at]) == "" && Size("") == 0
  {}

  /** How many of the last lines can be repeated in front of the next one: at most two, and only if they fit. */
  method ChooseOverlap(lines: seq<string>, first: nat, done: nat, maxBytes: nat) returns (overlap: nat)
    requires 1 <= first <= done < |lines|
    requires Size(lines[done]) <= maxBytes
    ensures overlap <= OVERLAP_LINES && first + overlap <= done + 1
    ensures Size(Joined(lines[done - overlap..done])) + Size(lines[done]) <= maxBytes
    ensures overlap < OVERLAP_LINES && first + overlap <= done ==>
              Size(Joined(lines[done - overlap - 1..done])) + Size(lines[done]) > maxBytes
  {
    hide Joined, Size;
    overlap := if done - first + 1 < OVERLAP_LINES then done - first + 1 else OVERLAP_LINES;
    NothingJoins(lines, done);
    while overlap > 0 && Size(Joined(lines[done - overlap..done])) + Size(lines[done]) > maxBytes
      invariant overlap <= OVERLAP_LINES && first + overlap <= done + 1
      invariant overlap < OVERLAP_LINES && first + overlap <= done ==>
                  Size(Joined(lines[done - overlap - 1..done])) + Size(lines[done]) > maxBytes
    {
      overlap := overlap - 1;
    }
  }

  /** Cuts lines into chunks, starting a new one whenever the next line would not fit. */
  method ChunkLines(lines: seq<string>, maxBytes: nat) returns (chunks: seq<Chunk>)
    requires lines != [] && LinesBounded(lines, maxBytes)
    ensures ChunksCover(lines, chunks, |lines|, maxBytes) && chunks != []
  {
    hide Joined, Size, ChunksCover;
    chunks := [];
    var first: nat, overlap: nat := 1, 0;
    EmptyCovers(lines, maxBytes);
    NothingJoins(lines, 0);
    for done := 0 to |lines|
      invariant 1 <= first <= done + 1 && overlap <= OVERLAP_LINES
      invariant done == 0 ==> first == 1 && overlap == 0 && chunks == []
      invariant done > 0 ==> first + overlap <= done
      invariant Size(Joined(lines[first - 1..done])) <= maxBytes
      invariant ChunksCover(lines, chunks, first + overlap - 1, maxBytes)
      invariant chunks == [] ==> overlap == 0
      invariant chunks != [] ==>
                  chunks[|chunks| - 1].first < first
                  && BestOverlap(lines, chunks[|chunks| - 1], overlap, maxBytes)
    {
      var current := Joined(lines[first - 1..done]);
      if done >= first && Size(current) + Size(lines[done]) > maxBytes {
        var chunk := Chunk(first, done, overlap, current);
        CoverGrows(lines, chunks, chunk, first + overlap - 1, maxBytes);
        chunks := chunks + [chunk];
        overlap := ChooseOverlap(lines, first, done, maxBytes);
        if overlap == done - first + 1 {
          AllOverlapIsTooMuch(lines, first, done, maxBytes);
        }
        first := done - overlap + 1;
      }
      ContentGrows(lines, first - 1, done);
      SizeOfJoin(Joined(lines[first - 1..done]), lines[done]);
    }
    var chunk := Chunk(first, |lines|, overlap, Joined(lines[first - 1..|lines|]));
    CoverGrows(lines, chunks, chunk, first + overlap - 1, maxBytes);
    chunks := chunks + [chunk];
  }

  lemma EmptyCovers(lines: seq<string>, maxBytes: nat)
    ensures ChunksCover(lines, [], 0, maxBytes)
  {}

  /** Repeating the whole chunk would not make room, so a new chunk always starts further on. */
  lemma AllOverlapIsTooMuch(lines: seq<string>, first: nat, done: nat, maxBytes: nat)
    requires 1 <= first <= done < |lines|
    requires Size(Joined(lines[first - 1..done])) + Size(lines[done]) > maxBytes
    ensures Size(Joined(lines[done - (done - first + 1)..done])) + Size(lines[done]) > maxBytes
  {
    assert done - (done - first + 1) == first - 1;
  }

  /** Reads the lines one by one and cuts them into chunks; it fails exactly on no text or on a line over the bound. */
  method PrepareText(text: string, maxBytes: nat) returns (chunks: Option<seq<Chunk>>)
    ensures chunks.Some? <==> text != "" && LinesBounded(Lines(text, 0), maxBytes)
    ensures chunks.Some? ==>
              && ChunksCover(Lines(text, 0), chunks.value, |Lines(text, 0)|, maxBytes)
              && Joined(NewTexts(Lines(text, 0), chunks.value)) == text
  {
    hide Joined, Size, ChunksCover, LineEnd;
    var lines: seq<string>, cursor := [], 0;
    assert Lines(text, 0) == [] + Lines(text, 0);
    while cursor < |text|
      invariant cursor <= |text| && Lines(text, 0) == lines + Lines(text, cursor) && LinesBounded(lines, maxBytes)
      invariant cursor > 0 ==> lines != []
      decreases |text| - cursor
    {
      var end := ReadEnd(text, cursor, maxBytes + 1);
      var line := text[cursor..end];
      LineReads(text, cursor, end, maxBytes);
      if Size(line) > maxBytes {
        assert Lines(text, 0)[|lines|] == text[cursor..LineEnd(text, cursor)];
        return None;
      }
      lines, cursor := lines + [line], end;
    }
    if lines == [] { return None; }
    assert lines == Lines(text, 0) && lines[..|lines|] == lines;
    var staged := ChunkLines(lines, maxBytes);
    ChunksLoseNothing(lines, staged, |lines|, maxBytes);
    LinesAreLossless(text, 0);
    chunks := Some(staged);
  }

  /** A bounded read that is within the byte bound has read the whole line; one that is not shows the line is not. */
  lemma LineReads(text: string, cursor: nat, end: nat, maxBytes: nat)
    requires cursor < |text| && end == ReadEnd(text, cursor, maxBytes + 1)
    ensures cursor < end <= |text| && LineEnd(text, cursor) <= |text|
    ensures Size(text[cursor..end]) <= maxBytes ==> end == LineEnd(text, cursor)
    ensures Size(text[cursor..end]) > maxBytes ==> Size(text[cursor..LineEnd(text, cursor)]) > maxBytes
    ensures Lines(text, cursor) == [text[cursor..LineEnd(text, cursor)]] + Lines(text, LineEnd(text, cursor))
  {
    var whole := LineEnd(text, cursor);
    SizeIsAtLeastLength(text[cursor..end]);
    SizeOfJoin(text[cursor..end], text[end..whole]);
    assert text[cursor..end] + text[end..whole] == text[cursor..whole];
  }
}
