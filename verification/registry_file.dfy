/** The registry's open log file: every call reads it from the start, and a change adds one record to it. */
module RegistryFile {
  import opened Outcomes
  import opened Registry
  import opened RegistryInvariant
  import opened RegistryJson
  import opened RegistryLog

  /** Each part of a log that is read can be cut off behind its last whole record. */
  lemma ReadingFacts(c: Codec, root: Identity, raw: Bytes)
    requires Read(c, root, raw).Some?
    ensures var reading := Read(c, root, raw).value;
            && reading.length <= |raw| && Read(c, root, raw[..reading.length]) == Some(reading)
            && ValidState(reading.view.state) && NoEmptySpace(reading.view.state)
  {
    hide ReadFrom, ValidState;
    StartIsValid();
    hide Start;
    ReadingIsValid(c, root, raw, |Magic()|, Start());
    TruncationIsExact(c, root, raw, |Magic()|, Start(), Read(c, root, raw).value.length);
  }

  lemma StartIsValid()
    ensures ValidState(Start().state) && NoEmptySpace(Start().state)
  {}

  lemma CandidateHasRows(s: State, op: Operation)
    requires NoEmptySpace(s) && Accepts(s, op)
    ensures NoEmptySpace(Mutate(s, op)) && ValidState(Mutate(s, op))
  {
    hide ValidState, Decide;
  }

  /** The header and nothing else is a log of nothing; less than the header is no log. */
  lemma HeaderReads(c: Codec, root: Identity, header: Bytes)
    requires header <= Magic()
    ensures header == Magic() ==> Read(c, root, header) == Some(Reading(Start(), |header|)) && Start().state == map[]
    ensures header != Magic() ==> Read(c, root, header) == None
  {
    if header != Magic() {
      assert !(Magic() <= header);
    }
  }

  class LogFile {
    const c: Codec
    const root: Identity
    var raw: Bytes
    var view: View
    var minimumSequence: nat
    var minimumLength: nat
    var minimumDigest: Bytes

    /** A process that has just started: it remembers nothing. */
    constructor (c: Codec, root: Identity, raw: Bytes)
      ensures this.c == c && this.root == root && this.raw == raw && view == Start()
      ensures minimumSequence == 0 && minimumLength == 0
    {
      this.c, this.root, this.raw, view := c, root, raw, Start();
      minimumSequence, minimumLength, minimumDigest := 0, 0, NoDigest();
    }

    /** The file is not an older or another log than the one seen last. */
    predicate Continues(reading: Reading)
      reads this`minimumSequence, this`minimumLength, this`minimumDigest
    {
      && reading.view.sequence >= minimumSequence
      && reading.length >= minimumLength
      && (reading.view.sequence == minimumSequence && minimumSequence > 0 ==> reading.view.digest == minimumDigest)
    }

    predicate Loadable()
      reads this
    {
      Read(c, root, raw).Some? && Continues(Read(c, root, raw).value)
    }

    /** Reads the records one by one. */
    method Scan() returns (reading: Option<Reading>)
      ensures reading == Read(c, root, raw)
    {
      hide DecodeRecord, Magic, Start, FindNewline;
      if |raw| > MAX_LOG_BYTES || !(Magic() <= raw) { return None; }
      var cursor, last := |Magic()|, Start();
      while FindNewline(raw, cursor).Some?
        invariant cursor <= |raw| && ReadFrom(c, root, raw, cursor, last) == ReadFrom(c, root, raw, |Magic()|, Start())
        decreases |raw| - cursor
      {
        FoundAhead(raw, cursor);
        var newline := FindNewline(raw, cursor).value;
        if newline == cursor || newline - cursor > MAX_RECORD_BYTES { return None; }
        var decoded := DecodeRecord(c, root, raw[cursor..newline], last);
        if decoded.None? { return None; }
        last, cursor := decoded.value, newline + 1;
      }
      reading := Some(Reading(last, cursor));
    }

    static lemma FoundAhead(raw: Bytes, cursor: nat)
      requires cursor <= |raw| && FindNewline(raw, cursor).Some?
      ensures cursor <= FindNewline(raw, cursor).value < |raw|
    {}

    /** Reads the file, refuses one that went back, cuts off an incomplete record and remembers what it saw. */
    method Load(quiet: bool) returns (p: Progress)
      modifies this
      ensures raw == old(raw) || (old(Loadable()) && raw == old(raw)[..Read(c, root, old(raw)).value.length])
      ensures p == Done ==>
                && old(Loadable()) && Read(c, root, raw) == Some(Reading(view, |raw|))
                && view == Read(c, root, old(raw)).value.view
                && old(minimumSequence) <= view.sequence == minimumSequence
                && old(minimumLength) <= |raw| == minimumLength
                && (old(minimumSequence) == view.sequence > 0 ==> view.digest == old(minimumDigest))
                && minimumDigest == if view.sequence > old(minimumSequence) then view.digest else old(minimumDigest)
      ensures p != Done ==>
                && view == old(view) && minimumSequence == old(minimumSequence)
                && minimumLength == old(minimumLength) && minimumDigest == old(minimumDigest)
      ensures !old(Loadable()) ==> p == Raised && raw == old(raw)
      ensures quiet && old(Loadable()) ==> p == Done
    {
      hide Read, RecordFits;
      var found := Scan();
      if found.None? || !Continues(found.value) { return Raised; }
      var reading := found.value;
      ReadingFacts(c, root, raw);
      if reading.length < |raw| {
        var fault := ChooseFault(quiet);
        if fault == CrashesBefore { return Crashed; }
        if fault == FailsBefore { return Raised; }
        raw := raw[..reading.length];
        if fault == FailsAfter { return Raised; }
      }
      assert raw == old(raw)[..reading.length];
      view := reading.view;
      if view.sequence > minimumSequence {
        minimumSequence, minimumDigest := view.sequence, view.digest;
      }
      minimumLength := if reading.length > minimumLength then reading.length else minimumLength;
      p := Done;
    }

    /**
     Loads an empty file: the process that has just created it writes the header, any other refuses it. A file whose
     header was not wholly written can be read by nobody, so a cut in the middle of it is for good.
     */
    method LoadNew(created: bool, quiet: bool) returns (p: Progress)
      requires raw == []
      modifies this
      ensures raw <= Magic() && (Durable() == Some(map[]) <==> raw == Magic()) && (Durable().None? <==> raw != Magic())
      ensures !created || old(minimumSequence) > 0 || old(minimumLength) > 0 ==> p == Raised && raw == []
      ensures p == Done ==> Read(c, root, raw) == Some(Reading(view, |raw|)) && minimumLength == |raw|
      ensures p != Done ==>
                && view == old(view) && minimumSequence == old(minimumSequence)
                && minimumLength == old(minimumLength) && minimumDigest == old(minimumDigest)
      ensures quiet && created && old(minimumSequence) == 0 && old(minimumLength) == 0 ==> p == Done
    {
      HeaderReads(c, root, raw);
      if !created || minimumSequence > 0 || minimumLength > 0 { return Raised; }
      var fault := ChooseFault(quiet);
      var written: nat := |Magic()|;
      if fault != NoFault {
        written := *;
        if written > |Magic()| { written := |Magic()|; }
      }
      HeaderReads(c, root, Magic()[..written]);
      hide Magic, Read, Start;
      raw := Magic()[..written];
      if fault == CrashesBefore { return Crashed; }
      if fault != NoFault { return Raised; }
      view, minimumLength := Start(), |Magic()|;
      p := Done;
    }

    /** Adds a state's record to the file; a failure or a crash can leave any part of it there. */
    method Append(next: State, quiet: bool) returns (p: Progress)
      requires Sound(c) && ValidState(next) && NoEmptySpace(next)
      requires Read(c, root, raw) == Some(Reading(view, |raw|))
      modifies this
      ensures var before, reading := old(Reading(view, |raw|)), Read(c, root, raw);
              var whole := Reading(After(c, root, next, old(view)),
                                    |old(raw)| + |EncodeRecord(c, root, next, old(view))|);
              reading == Some(before) || reading == Some(whole)
      ensures p == Done ==> view == After(c, root, next, old(view)) && Read(c, root, raw) == Some(Reading(view, |raw|))
      ensures p == Done ==> minimumSequence == view.sequence && minimumLength == |raw| && minimumDigest == view.digest
      ensures p != Done ==>
                && view == old(view) && minimumSequence == old(minimumSequence)
                && minimumLength == old(minimumLength) && minimumDigest == old(minimumDigest)
      ensures !RecordFits(c, root, old(raw), next, old(view)) ==> p == Raised && raw == old(raw)
      ensures quiet && RecordFits(c, root, old(raw), next, old(view)) ==> p == Done
    {
      hide Read, Sound, ValidState, NoEmptySpace, EncodeRecord, ChainDigest;
      if !RecordFits(c, root, raw, next, view) { return Raised; }
      var record := EncodeRecord(c, root, next, view);
      var fault := ChooseFault(quiet);
      var written: nat := |record|;
      if fault != NoFault {
        written := *;
        if written > |record| { written := |record|; }
      }
      AppendIsAtomic(c, root, raw, view, next, written);
      raw := raw + record[..written];
      if fault == CrashesBefore { return Crashed; }
      if fault != NoFault { return Raised; }
      view := After(c, root, next, view);
      minimumSequence, minimumLength, minimumDigest := view.sequence, |raw|, view.digest;
      p := Done;
    }

    /** The state the file stands for. */
    function Durable(): Option<State>
      reads this`raw
    {
      var reading := Read(c, root, raw);
      if reading.Some? then Some(reading.value.view.state) else None
    }

    /** Lets the mutator change a copy of what was read, checks the copy and adds its record. */
    method Change(op: Operation, quiet: bool) returns (p: Progress)
      requires Sound(c) && Read(c, root, raw) == Some(Reading(view, |raw|))
      modifies this
      ensures Durable() == Some(old(view.state)) || Durable() == Some(Registry.Mutate(old(view.state), op))
      ensures p == Done ==>
                && Durable() == Some(Registry.Mutate(old(view.state), op))
                && (Accepts(old(view.state), op) || Decide(SpaceOf(old(view.state), WorkspaceOf(op)), op).Unchanged?)
                && (minimumSequence >= old(minimumSequence) || minimumSequence == view.sequence > old(view.sequence))
                && (minimumLength >= old(minimumLength) || minimumLength == |raw| >= |old(raw)|)
      ensures !Accepts(old(view.state), op) ==> raw == old(raw)
      ensures (&& quiet && Accepts(old(view.state), op)
               && RecordFits(c, root, old(raw), Registry.Mutate(old(view.state), op), old(view))) ==> p == Done
      ensures quiet && Decide(SpaceOf(old(view.state), WorkspaceOf(op)), op).Unchanged? ==> p == Done
    {
      hide Read, Sound, ValidState, NoEmptySpace, Decide, RecordFits, After, Continues, WorkspaceOf;
      var s := view.state;
      ReadingFacts(c, root, raw);
      match Decide(SpaceOf(s, WorkspaceOf(op)), op)
      case Refused(_) => return Raised;
      case Unchanged => return Done;
      case Changed(_) =>
        if !ValidState(Candidate(s, op)) { return Raised; }
        CandidateHasRows(s, op);
        AfterHolds(c, root, Registry.Mutate(s, op), view);
        p := Append(Registry.Mutate(s, op), quiet);
    }

    /** The log can be read on, the call is accepted, and its record fits. */
    ghost predicate CanMutate(op: Operation)
      requires Sound(c)
      reads this
    {
      && Loadable()
      && var reading := Read(c, root, raw).value;
         && Accepts(reading.view.state, op)
         && RecordFits(c, root, raw[..reading.length], Registry.Mutate(reading.view.state, op), reading.view)
    }

    /**
     One call of the registry: read the file, let the mutator change a copy, check the copy and add its record.
     Whatever fails, the file stands for the state before or the state after, and a file that cannot be read is
     left as it is.
     */
    method Mutate(op: Operation, quiet: bool) returns (p: Progress)
      requires Sound(c)
      modifies this
      ensures old(Durable()).None? ==> p == Raised && raw == old(raw)
      ensures old(Durable()).Some? ==>
                var s := old(Durable()).value; Durable() == Some(s) || Durable() == Some(Registry.Mutate(s, op))
      ensures p == Done ==> old(Durable()).Some? && Durable() == Some(Registry.Mutate(old(Durable()).value, op))
      ensures p == Done ==>
                var s := old(Durable()).value; Accepts(s, op) || Decide(SpaceOf(s, WorkspaceOf(op)), op).Unchanged?
      ensures quiet && old(CanMutate(op)) ==> p == Done
      ensures p == Done ==> old(minimumSequence) <= minimumSequence && old(minimumLength) <= minimumLength
      ensures (&& quiet && old(Loadable()) && old(Durable()).Some?
               && Decide(SpaceOf(old(Durable()).value, WorkspaceOf(op)), op).Unchanged?) ==> p == Done
    {
      hide Read, Sound, ValidState, NoEmptySpace, Decide, RecordFits, After, Continues, Accepts, WorkspaceOf,
           Registry.Mutate;
      p := Load(quiet);
      if Read(c, root, old(raw)).Some? {
        ReadingFacts(c, root, old(raw));
      }
      if p != Done { return; }
      assert raw == old(raw)[..Read(c, root, old(raw)).value.length];
      p := Change(op, quiet);
    }

    static lemma AfterHolds(c: Codec, root: Identity, s: State, view: View)
      requires Sound(c)
      ensures After(c, root, s, view).state == s && After(c, root, s, view).sequence == view.sequence + 1
      ensures |EncodeRecord(c, root, s, view)| > 0
    {}

    /** A new process takes over the file. */
    method Restart()
      modifies this`view, this`minimumSequence, this`minimumLength, this`minimumDigest
    {
      view, minimumSequence, minimumLength, minimumDigest := Start(), 0, 0, NoDigest();
    }

    /**
     Any calls, each cut short or failing anywhere, with a new process after every crash: the file always
     stands for the run of the calls that took effect, in their order, with every finished call among them.
     */
    method RunThroughFailures(ops: seq<Operation>) returns (finished: set<nat>, ghost took: set<nat>)
      requires Sound(c) && Durable() == Some(map[])
      modifies this
      ensures finished <= took
      ensures Durable() == Some(Run(map[], Picked(ops, took)))
      ensures Durable().Some? && Inv(Durable().value)
    {
      hide *;
      finished, took := {}, {};
      NothingPicked(ops);
      for i := 0 to |ops|
        invariant finished <= took && forall k | k in took :: k < i
        invariant Durable() == Some(Run(map[], Picked(ops[..i], took)))
      {
        ghost var s := Durable().value;
        var p := Mutate(ops[i], false);
        OneMorePicked(ops, took, i);
        if Durable() == Some(Registry.Mutate(s, ops[i])) {
          took := took + {i};
        }
        if p == Done { finished := finished + {i}; }
        if p == Crashed { Restart(); }
      }
      assert ops[..|ops|] == ops;
      RunsAreSound(Picked(ops, took));
    }
  }

  lemma NothingPicked(ops: seq<Operation>)
    ensures Run(map[], Picked(ops[..0], {})) == map[]
  {}

  lemma RunsAreSound(ops: seq<Operation>)
    ensures Inv(Run(map[], ops))
  {
    RunKeepsInv(map[], ops);
  }

  /** The next call either is picked, and then it is the next to take effect, or is not. */
  lemma OneMorePicked(ops: seq<Operation>, took: set<nat>, i: nat)
    requires i < |ops| && i !in took
    ensures Picked(ops[..i + 1], took) == Picked(ops[..i], took)
    ensures Run(map[], Picked(ops[..i + 1], took + {i})) == Registry.Mutate(Run(map[], Picked(ops[..i], took)), ops[i])
  {
    hide Registry.Mutate, Run;
    assert ops[..i + 1][..i] == ops[..i];
    PickedSkips(ops[..i + 1], took);
    PickedTakes(ops[..i + 1], took);
    RunAppend(map[], Picked(ops[..i], took), ops[i]);
  }

  /** The calls whose positions are picked. */
  ghost function Picked(ops: seq<Operation>, took: set<nat>): seq<Operation> {
    if ops == [] then []
    else Picked(ops[..|ops| - 1], took) + if |ops| - 1 in took then [ops[|ops| - 1]] else []
  }

  lemma PickedSkips(ops: seq<Operation>, took: set<nat>)
    requires ops != [] && |ops| - 1 !in took
    ensures Picked(ops, took) == Picked(ops[..|ops| - 1], took)
  {}

  lemma PickedTakes(ops: seq<Operation>, took: set<nat>)
    requires ops != [] && |ops| - 1 !in took
    ensures Picked(ops, took + {|ops| - 1}) == Picked(ops[..|ops| - 1], took) + [ops[|ops| - 1]]
  {
    PickedIgnores(ops[..|ops| - 1], took, |ops| - 1);
  }

  lemma {:induction false} PickedIgnores(ops: seq<Operation>, took: set<nat>, k: nat)
    requires k >= |ops|
    ensures Picked(ops, took + {k}) == Picked(ops, took)
    decreases |ops|
  {
    if ops != [] {
      PickedIgnores(ops[..|ops| - 1], took, k);
    }
  }

  lemma {:induction false} RunAppend(s: State, ops: seq<Operation>, op: Operation)
    ensures Run(s, ops + [op]) == Registry.Mutate(Run(s, ops), op)
    decreases |ops|
  {
    hide Registry.Mutate;
    if ops == [] {
      assert Run(s, [op]) == Run(Registry.Mutate(s, op), []);
    } else {
      RunAppend(Registry.Mutate(s, ops[0]), ops[1..], op);
      assert (ops + [op])[1..] == ops[1..] + [op];
    }
  }
}
