/** Decoded source text: its size in UTF-8, and the lines a reader hands out without translating their ends. */
module TextLines {
  /** The bytes a character takes in UTF-8. */
  function Width(c: char): (width: nat)
    ensures 1 <= width <= 4
  {
    if c as int < 0x80 then 1 else if c as int < 0x800 then 2 else if c as int < 0x1_0000 then 3 else 4
  }

  function Size(text: string): nat {
    if text == "" then 0 else Size(text[..|text| - 1]) + Width(text[|text| - 1])
  }

  /** A character's bytes in UTF-8, by RFC 3629, section 3. */
  function Encoded(c: char): (bytes: seq<int>)
    ensures |bytes| == Width(c) && forall i | 0 <= i < |bytes| :: 0 <= bytes[i] < 256
  {
    var n := c as int;
    if n < 0x80 then [n]
    else if n < 0x800 then [0xC0 + n / 0x40, 0x80 + n % 0x40]
    else if n < 0x1_0000 then [0xE0 + n / 0x1000, 0x80 + n / 0x40 % 0x40, 0x80 + n % 0x40]
    else [0xF0 + n / 0x4_0000, 0x80 + n / 0x1000 % 0x40, 0x80 + n / 0x40 % 0x40, 0x80 + n % 0x40]
  }

  /** The number that one to four bytes stand for, by the marks in their first bits. */
  function Decoded(bytes: seq<int>): int {
    if |bytes| == 1 && 0 <= bytes[0] < 0x80 then bytes[0]
    else if |bytes| == 2 && 0xC0 <= bytes[0] < 0xE0 then (bytes[0] - 0xC0) * 0x40 + (bytes[1] - 0x80)
    else if |bytes| == 3 && 0xE0 <= bytes[0] < 0xF0 then
      ((bytes[0] - 0xE0) * 0x40 + (bytes[1] - 0x80)) * 0x40 + (bytes[2] - 0x80)
    else if |bytes| == 4 && 0xF0 <= bytes[0] < 0xF8 then
      (((bytes[0] - 0xF0) * 0x40 + (bytes[1] - 0x80)) * 0x40 + (bytes[2] - 0x80)) * 0x40 + (bytes[3] - 0x80)
    else -1
  }

  /** The bytes counted for a character are those it is encoded in, and decode to it. */
  lemma EncodingRoundTrips(c: char)
    ensures |Encoded(c)| == Width(c) && Decoded(Encoded(c)) == c as int
    ensures forall i | 0 < i < Width(c) :: 0x80 <= Encoded(c)[i] < 0xC0
  {
    var n := c as int;
    assert n / 0x1000 == n / 0x40 / 0x40 && n / 0x4_0000 == n / 0x40 / 0x40 / 0x40;
  }

  lemma {:induction false} SizeOfJoin(a: string, b: string)
    ensures Size(a + b) == Size(a) + Size(b)
    decreases |b|
  {
    if b == "" {
      assert a + b == a;
    } else {
      SizeOfJoin(a, b[..|b| - 1]);
      assert (a + b)[..|a + b| - 1] == a + b[..|b| - 1];
    }
  }

  lemma {:induction false} SizeIsAtLeastLength(text: string)
    ensures Size(text) >= |text|
    decreases |text|
  {
    if text != "" {
      SizeIsAtLeastLength(text[..|text| - 1]);
    }
  }

  predicate EndsLine(c: char) {
    c == '\n' || c == '\r'
  }

  /** Where the terminator that begins at `i` ends: a carriage return and the line feed behind it go together. */
  function AfterTerminator(text: string, i: nat): (end: nat)
    requires i < |text| && EndsLine(text[i])
    ensures i < end <= |text| && end <= i + 2
    ensures forall j | i <= j < end :: EndsLine(text[j])
  {
    if text[i] == '\r' && i + 1 < |text| && text[i + 1] == '\n' then i + 2 else i + 1
  }

  /** Where the text of the line at `i` ends and its terminator begins. */
  function BodyEnd(text: string, i: nat): (end: nat)
    requires i <= |text|
    ensures i <= end <= |text| && (forall j | i <= j < end :: !EndsLine(text[j]))
    ensures end < |text| ==> EndsLine(text[end])
    decreases |text| - i
  {
    if i == |text| || EndsLine(text[i]) then i else BodyEnd(text, i + 1)
  }

  /** Where the next line begins. */
  function LineEnd(text: string, i: nat): (end: nat)
    requires i <= |text|
    ensures i <= end <= |text| && (i < |text| ==> i < end) && BodyEnd(text, i) <= end
  {
    var body := BodyEnd(text, i);
    if body == |text| then body else AfterTerminator(text, body)
  }

  /** One bounded read: at most `limit` characters of the line at `i`. */
  function ReadEnd(text: string, i: nat, limit: nat): (end: nat)
    requires i <= |text|
    ensures i <= end <= LineEnd(text, i) && end - i <= limit
    ensures end < LineEnd(text, i) ==> end - i == limit
  {
    if LineEnd(text, i) - i <= limit then LineEnd(text, i) else i + limit
  }

  /** Texts one after the other. */
  function Joined(texts: seq<string>): string {
    if texts == [] then "" else Joined(texts[..|texts| - 1]) + texts[|texts| - 1]
  }

  lemma {:induction false} JoinedSplits(a: seq<string>, b: seq<string>)
    ensures Joined(a + b) == Joined(a) + Joined(b)
    decreases |b|
  {
    if b == [] {
      assert a + b == a;
    } else {
      var front, last := b[..|b| - 1], b[|b| - 1];
      JoinedSplits(a, front);
      JoinedGrows(b);
      JoinedGrows(a + b);
      assert (a + b)[..|a + b| - 1] == a + front;
      hide Joined;
      assert Joined(a + b) == (Joined(a) + Joined(front)) + last == Joined(a) + (Joined(front) + last);
    }
  }

  lemma JoinedGrows(texts: seq<string>)
    requires texts != []
    ensures Joined(texts) == Joined(texts[..|texts| - 1]) + texts[|texts| - 1]
  {}

  lemma JoinedOne(text: string)
    ensures Joined([text]) == text
  {
    assert [text][..0] == [];
  }
}
