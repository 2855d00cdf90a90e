/** What the chain of digests is for: the last record's digest stands for the whole log. */
module RegistryChain {
  import opened Outcomes
  import opened Registry
  import opened RegistryJson
  import opened RegistryLog

  // ---------------------------------------------------------------- one record

  /** What a record's digest is taken of: the digest before it, and everything up to its last tab. */
  function Chained(line: Bytes, view: View): Bytes {
    if LastTab(line).Some? then view.digest + line[..LastTab(line).value] else view.digest
  }

  lemma {:induction false} HexIsUnique(text: Bytes)
    ensures FromHex(text).Some? ==> Hex(FromHex(text).value) == text
    decreases |text|
  {
    if |text| > 1 && FromHex(text).Some? {
      HexIsUnique(text[2..]);
      assert text == [text[0], text[1]] + text[2..];
    }
  }

  lemma {:induction false} LastTabIsLast(line: Bytes)
    ensures LastTab(line).Some? ==> line[LastTab(line).value] == TAB
    decreases |line|
  {
    if line != [] && line[|line| - 1] != TAB {
      LastTabIsLast(line[..|line| - 1]);
    }
  }

  /**
   A record is accepted only under its own digest, in canonical form, with the sequence number and the digest that
   follow the record before it, and for the root it was written for.
   */
  lemma AcceptedIsBound(c: Codec, root: Identity, line: Bytes, view: View)
    requires DecodeRecord(c, root, line, view).Some?
    ensures var next := DecodeRecord(c, root, line, view).value;
            && next.sequence == view.sequence + 1 && next.digest == c.sha(Chained(line, view))
            && exists body, document | c.loads(body) == Some(document) ::
                 && line == body + [TAB] + Hex(next.digest) && Chained(line, view) == view.digest + body
                 && c.canonical(document) == body && HasKeys(document, DOCUMENT_KEYS)
                 && document.fields[SchemaVersionKey] == Number(1)
                 && document.fields[SequenceKey] == Number(next.sequence)
                 && document.fields[PreviousSha256Key] == Text(HexText(view.digest))
                 && ParseIdentity(document.fields[RootIdentityKey]) == Some(root)
                 && ValidState(next.state)
  {
    hide ParseTables, Grouped, ValidState, ParseIdentity, HexText, FromHex, Hex, LastTab, HasKeys;
    LastTabIsLast(line);
    var tab := LastTab(line).value;
    HexIsUnique(line[tab + 1..]);
    assert line == line[..tab] + [TAB] + line[tab + 1..];
  }

  // ---------------------------------------------------------------- the whole log

  /** Records read one after the other, with what is known after each. */
  predicate Steps(c: Codec, root: Identity, lines: seq<Bytes>, views: seq<View>) {
    && |views| == |lines| + 1
    && forall k | 0 <= k < |lines| :: DecodeRecord(c, root, lines[k], views[k]) == Some(views[k + 1])
  }

  function Written(lines: seq<Bytes>): Bytes {
    if lines == [] then [] else lines[0] + [NEWLINE] + Written(lines[1..])
  }

  /** All that is digested in reading a log. */
  function Digested(c: Codec, root: Identity, raw: Bytes, cursor: nat, view: View): set<Bytes>
    requires cursor <= |raw|
    decreases |raw| - cursor
  {
    match FindNewline(raw, cursor)
    case None => {}
    case Some(newline) =>
      var line := raw[cursor..newline];
      var next := DecodeRecord(c, root, line, view);
      {Chained(line, view)} + if next.Some? then Digested(c, root, raw, newline + 1, next.value) else {}
  }

  /** A log without a torn record is its records, one behind the other. */
  lemma {:induction false} ReadAsLines(c: Codec, root: Identity, raw: Bytes, cursor: nat, view: View)
    returns (lines: seq<Bytes>, views: seq<View>)
    requires cursor <= |raw| && ReadFrom(c, root, raw, cursor, view).Some?
    requires ReadFrom(c, root, raw, cursor, view).value.length == |raw|
    ensures Steps(c, root, lines, views) && views[0] == view && raw[cursor..] == Written(lines)
    ensures views[|lines|] == ReadFrom(c, root, raw, cursor, view).value.view
    ensures forall k | 0 <= k < |lines| :: Chained(lines[k], views[k]) in Digested(c, root, raw, cursor, view)
    decreases |raw| - cursor
  {
    hide DecodeRecord, FindNewline, Chained;
    lines, views := [], [view];
    var found := FindNewline(raw, cursor);
    if found.Some? {
      var line := raw[cursor..found.value];
      var next := DecodeRecord(c, root, line, view).value;
      var rest, later := ReadAsLines(c, root, raw, found.value + 1, next);
      lines, views := [line] + rest, [view] + later;
      assert raw[cursor..] == line + [NEWLINE] + raw[found.value + 1..];
      assert lines[1..] == rest;
    }
  }

  /** Each record counts one on, and leaves a whole digest. */
  lemma {:induction false} StepsCount(c: Codec, root: Identity, lines: seq<Bytes>, views: seq<View>, k: nat)
    requires Sound(c) && Steps(c, root, lines, views) && k <= |lines| && |views[0].digest| == 32
    ensures views[k].sequence == views[0].sequence + k && |views[k].digest| == 32
    decreases k
  {
    if k > 0 {
      var before := k - 1;
      StepsCount(c, root, lines, views, before);
      assert DecodeRecord(c, root, lines[before], views[before]) == Some(views[before + 1]);
      AcceptedIsBound(c, root, lines[before], views[before]);
    }
    hide DecodeRecord;
  }

  /** Among these inputs no two different ones have the same digest. */
  ghost predicate NoCollision(c: Codec, inputs: set<Bytes>) {
    forall a, b | a in inputs && b in inputs :: c.sha(a) == c.sha(b) ==> a == b
  }

  /** From the same digest backwards, record by record. */
  lemma {:induction false} SameLines(c: Codec, root: Identity, lines: seq<Bytes>, views: seq<View>,
                                     others: seq<Bytes>, theirs: seq<View>, n: nat, inputs: set<Bytes>)
    requires Sound(c) && Steps(c, root, lines, views) && Steps(c, root, others, theirs)
    requires n <= |lines| && n <= |others| && views[n].digest == theirs[n].digest
    requires |views[0].digest| == 32 && |theirs[0].digest| == 32 && NoCollision(c, inputs)
    requires forall k | 0 <= k < |lines| :: Chained(lines[k], views[k]) in inputs
    requires forall k | 0 <= k < |others| :: Chained(others[k], theirs[k]) in inputs
    ensures lines[..n] == others[..n]
    decreases n
  {
    hide Sound, Chained, DecodeRecord, NoCollision, Steps;
    if n > 0 {
      OneRecordBack(c, root, lines, views, others, theirs, n - 1, inputs);
      SameLines(c, root, lines, views, others, theirs, n - 1, inputs);
      assert lines[..n] == lines[..n - 1] + [lines[n - 1]] && others[..n] == others[..n - 1] + [others[n - 1]];
    }
  }

  lemma OneRecordBack(c: Codec, root: Identity, lines: seq<Bytes>, views: seq<View>, others: seq<Bytes>,
                      theirs: seq<View>, k: nat, inputs: set<Bytes>)
    requires Sound(c) && Steps(c, root, lines, views) && Steps(c, root, others, theirs)
    requires k < |lines| && k < |others| && views[k + 1].digest == theirs[k + 1].digest
    requires |views[0].digest| == 32 && |theirs[0].digest| == 32 && NoCollision(c, inputs)
    requires Chained(lines[k], views[k]) in inputs && Chained(others[k], theirs[k]) in inputs
    ensures lines[k] == others[k] && views[k].digest == theirs[k].digest
  {
    StepsCount(c, root, lines, views, k);
    StepsCount(c, root, others, theirs, k);
    AcceptedIsBound(c, root, lines[k], views[k]);
    AcceptedIsBound(c, root, others[k], theirs[k]);
    hide Sound, Chained, DecodeRecord, HasKeys, HexText, ParseIdentity, ValidState;
    var digest := views[k + 1].digest;
    var mine, x :| c.loads(mine) == Some(x) && lines[k] == mine + [TAB] + Hex(digest)
                   && Chained(lines[k], views[k]) == views[k].digest + mine;
    var their, y :| c.loads(their) == Some(y) && others[k] == their + [TAB] + Hex(digest)
                    && Chained(others[k], theirs[k]) == theirs[k].digest + their;
    assert (views[k].digest + mine)[..32] == views[k].digest && (theirs[k].digest + their)[..32] == theirs[k].digest;
    assert (views[k].digest + mine)[32..] == mine && (theirs[k].digest + their)[32..] == their;
  }

  /**
   Two logs with the same number of records and the same last digest are the same file, byte for byte, unless two
   different inputs of their own records have one digest. That is why a reader remembers the last digest it saw.
   */
  lemma DigestFixesLog(c: Codec, root: Identity, raw: Bytes, other: Bytes, view: View, otherView: View)
    requires Sound(c)
    requires Read(c, root, raw) == Some(Reading(view, |raw|))
    requires Read(c, root, other) == Some(Reading(otherView, |other|))
    requires view.sequence == otherView.sequence && view.digest == otherView.digest
    requires NoCollision(c, Digested(c, root, raw, |Magic()|, Start()) + Digested(c, root, other, |Magic()|, Start()))
    ensures raw == other
  {
    hide DecodeRecord, Digested, NoCollision, Chained, ReadFrom, Magic, Sound, Written;
    var inputs := Digested(c, root, raw, |Magic()|, Start()) + Digested(c, root, other, |Magic()|, Start());
    var lines, views := ReadAsLines(c, root, raw, |Magic()|, Start());
    var others, theirs := ReadAsLines(c, root, other, |Magic()|, Start());
    StepsCount(c, root, lines, views, |lines|);
    StepsCount(c, root, others, theirs, |others|);
    SameLines(c, root, lines, views, others, theirs, |lines|, inputs);
    assert lines == lines[..|lines|] && others == others[..|others|];
    assert raw == Magic() + raw[|Magic()|..] && other == Magic() + other[|Magic()|..];
  }
}
