/** Records told by counting quotes: which texts are well formed, and where they are cut. */
module TabularRules {
  import opened Outcomes
  import opened TextLines
  import opened Tabular

  // ---------------------------------------------------------------- the rule

  /** How many quotes stand before the character. */
  function Quotes(text: string, i: nat): nat
    requires i <= |text|
  {
    if i == 0 then 0 else Quotes(text, i - 1) + if text[i - 1] == '"' then 1 else 0
  }

  predicate Outside(text: string, i: nat)
    requires i <= |text|
  {
    Quotes(text, i) % 2 == 0
  }

  /** A quote may stand next to another one, to a delimiter, to a line end, or at either end of the text. */
  predicate MayTouchQuote(c: char, delimiter: char) {
    c == '"' || c == delimiter || EndsLine(c)
  }

  /** Outside quotes, a quote and what can neither open nor follow a quoted field stand next to each other. */
  predicate Misplaced(text: string, delimiter: char, i: nat)
    requires i < |text|
  {
    && i > 0 && Outside(text, i)
    && ((text[i] == '"' && !MayTouchQuote(text[i - 1], delimiter))
        || (text[i - 1] == '"' && !MayTouchQuote(text[i], delimiter)))
  }

  /** Every quoted field is closed, and fills its field. */
  ghost predicate WellFormed(text: string, delimiter: char) {
    Outside(text, |text|) && forall i | 0 <= i < |text| :: !Misplaced(text, delimiter, i)
  }

  /** A line end outside quotes, with its line feed if it has one, is behind us. */
  predicate CutBefore(text: string, i: nat)
    requires i <= |text|
  {
    && i > 0 && EndsLine(text[i - 1]) && Outside(text, i)
    && !(text[i - 1] == '\r' && i < |text| && text[i] == '\n')
  }

  /** The records are the stretches between the cuts, from one place of the text on. */
  ghost predicate CutExactly(text: string, start: nat, records: seq<string>)
    requires start <= |text|
    decreases |records|
  {
    if start == |text| then records == []
    else
      records != [] && exists end | start < end <= |text| ::
        && records[0] == text[start..end] && (end == |text| || CutBefore(text, end))
        && (forall i | start < i < end :: !CutBefore(text, i))
        && CutExactly(text, end, records[1..])
  }

  // ---------------------------------------------------------------- the automaton keeps it

  /** The automaton's place, told by the parity of the quotes and by the character before. */
  function PlaceAt(text: string, delimiter: char, i: nat): Place
    requires i <= |text|
  {
    if !Outside(text, i) then Quoted
    else if i > 0 && text[i - 1] == '"' then Closing
    else if i == 0 || text[i - 1] == delimiter || EndsLine(text[i - 1]) then FieldStart
    else Plain
  }

  /** Between the two halves of a line end outside quotes the automaton never stops. */
  predicate Halfway(text: string, i: nat)
    requires i <= |text|
  {
    0 < i < |text| && text[i - 1] == '\r' && text[i] == '\n' && Outside(text, i)
  }

  lemma NextPlace(text: string, delimiter: char, i: nat)
    requires i < |text| && delimiter != '"' && !EndsLine(delimiter)
    requires !Outside(text, i) || !EndsLine(text[i])
    ensures var next := Next(PlaceAt(text, delimiter, i), text[i], delimiter);
            if Misplaced(text, delimiter, i) then next == Broken
            else next == PlaceAt(text, delimiter, i + 1) && !Halfway(text, i + 1)
  {}

  /** The rest of the text from a character on has nothing misplaced, and ends outside quotes. */
  ghost predicate GoesOnWell(text: string, delimiter: char, i: nat) {
    Outside(text, |text|) && forall j | i <= j < |text| :: !Misplaced(text, delimiter, j)
  }

  lemma LineEndIsCut(text: string, delimiter: char, i: nat)
    requires i < |text| && EndsLine(text[i]) && Outside(text, i) && !Halfway(text, i)
    ensures var end := AfterTerminator(text, i);
            && CutBefore(text, end) && (forall j | i < j < end :: !CutBefore(text, j)) && !Halfway(text, end)
            && PlaceAt(text, delimiter, end) == FieldStart
            && forall j | i <= j < end :: !Misplaced(text, delimiter, j)
  {
    assert Quotes(text, i + 1) == Quotes(text, i);
  }

  lemma FirstCut(text: string, start: nat, end: nat, rest: seq<string>)
    requires start < end <= |text| && (end == |text| || CutBefore(text, end))
    requires (forall i | start < i < end :: !CutBefore(text, i)) && CutExactly(text, end, rest)
    ensures CutExactly(text, start, [text[start..end]] + rest)
  {
    hide CutBefore;
    assert ([text[start..end]] + rest)[1..] == rest;
  }

  /** From any place on, the automaton reads what the rule says, and nothing else. */
  lemma {:induction false} ReadsByRule(text: string, delimiter: char, start: nat, i: nat)
    requires start <= i <= |text| && delimiter != '"' && !EndsLine(delimiter)
    requires !Halfway(text, i) && forall j | start < j <= i :: !CutBefore(text, j)
    requires start == i ==> PlaceAt(text, delimiter, i) == FieldStart
    ensures var records := Records(text, delimiter, start, i, PlaceAt(text, delimiter, i));
            && (records.Some? <==> GoesOnWell(text, delimiter, i))
            && (records.Some? ==> CutExactly(text, start, records.value))
    decreases |text| - i
  {
    var place := PlaceAt(text, delimiter, i);
    if i == |text| {
      if start < i && place != Quoted {
        FirstCut(text, start, i, []);
        assert text[start..] == text[start..i] && [text[start..i]] + [] == [text[start..i]];
      }
    } else if place != Quoted && EndsLine(text[i]) {
      var end := AfterTerminator(text, i);
      LineEndIsCut(text, delimiter, i);
      ReadsByRule(text, delimiter, end, end);
      hide Misplaced, PlaceAt, CutBefore;
      var rest := Records(text, delimiter, end, end, FieldStart);
      if rest.Some? {
        FirstCut(text, start, end, rest.value);
      }
    } else {
      NextPlace(text, delimiter, i);
      RecordGoesOn(text, delimiter, start, i, place);
      if Misplaced(text, delimiter, i) {
        RecordsStop(text, delimiter, start, i + 1, Broken);
      } else {
        ReadsByRule(text, delimiter, start, i + 1);
      }
      hide Misplaced, PlaceAt, CutBefore, Next;
    }
  }

  /** A text is read exactly when it is well formed, and is cut exactly behind the line ends outside quotes. */
  lemma RecordsAreTheRule(text: string, delimiter: char)
    requires delimiter != '"' && !EndsLine(delimiter)
    ensures var records := Records(text, delimiter, 0, 0, FieldStart);
            && (records.Some? <==> WellFormed(text, delimiter))
            && (records.Some? ==> CutExactly(text, 0, records.value))
  {
    ReadsByRule(text, delimiter, 0, 0);
    hide Records, Misplaced, CutExactly;
  }
}
