/** What each critical section does to the run table's rows and the command queue, row by row. */
module RunQueueRules {
  import opened Outcomes
  import opened RunQueue

  /** The rows of one run change their status, and no other row changes. */
  ghost predicate OnlyStatus(runs: seq<Run>, next: seq<Run>, id: nat, status: Status) {
    && |next| == |runs|
    && forall i | 0 <= i < |runs| ::
         next[i] == if runs[i].id == id then Run(id, runs[i].workspace, status) else runs[i]
  }

  ghost predicate SomeActive(runs: seq<Run>) {
    exists r | r in runs :: r.status == Running || r.status == Stopping || r.status == Paused
  }

  ghost predicate SomeWaiting(runs: seq<Run>) {
    exists r | r in runs :: r.status == Queued
  }

  /** The run that has waited longest is started, unless one is active or a shutdown was asked for. */
  ghost predicate LongestWaitingStarts(q: Queue, next: Queue) {
    if q.closing || SomeActive(q.runs) || !SomeWaiting(q.runs) then next == q
    else exists i | 0 <= i < |q.runs| :: StartsAt(q, next, i)
  }

  ghost predicate StartsAt(q: Queue, next: Queue, i: nat)
    requires i < |q.runs|
  {
    && q.runs[i].status == Queued && (forall j | 0 <= j < i :: q.runs[j].status != Queued)
    && OnlyStatus(q.runs, next.runs, q.runs[i].id, Running)
    && next == q.(runs := next.runs, commands := q.commands + [Work(q.runs[i].id)],
                  started := q.started + [q.runs[i].id])
  }

  /** A new run starts at once if none is active or waiting; otherwise it waits behind the others. */
  ghost predicate RunSubmitted(q: Queue, next: Queue, workspace: string) {
    if q.closing then next == q
    else if !SomeActive(q.runs) && !SomeWaiting(q.runs) then
      next == q.(runs := q.runs + [Run(q.nextId, workspace, Running)], nextId := q.nextId + 1,
                 commands := q.commands + [Work(q.nextId)], started := q.started + [q.nextId])
    else
      LongestWaitingStarts(q.(runs := q.runs + [Run(q.nextId, workspace, Queued)], nextId := q.nextId + 1), next)
  }

  /** Exactly a running run is asked to stop. */
  ghost predicate StopAsked(q: Queue, next: Queue, id: nat) {
    if exists r | r in q.runs :: r.id == id && r.status == Running
    then OnlyStatus(q.runs, next.runs, id, Stopping) && next == q.(runs := next.runs, stops := q.stops + {id})
    else next == q
  }

  /** Exactly a paused run is resumed, and not during a shutdown. */
  ghost predicate RunResumed(q: Queue, next: Queue, id: nat) {
    if !q.closing && exists r | r in q.runs :: r.id == id && r.status == Paused
    then
      && OnlyStatus(q.runs, next.runs, id, Running)
      && next == q.(runs := next.runs, commands := q.commands + [Work(id)])
    else next == q
  }

  /** A live worker that is idle takes the oldest command: a run to work on, or to quit. */
  ghost predicate CommandTaken(q: Queue, next: Queue) {
    if !q.alive || q.executing.Some? || q.commands == [] then next == q
    else
      q.commands == [q.commands[0]] + next.commands
      && match q.commands[0]
         case Quit => next == q.(commands := next.commands, alive := false)
         case Work(id) => next == q.(commands := next.commands, executing := Some(id))
  }

  /**
   A run whose invocation was interrupted, or met a changed source, is paused; one whose invocation raised has
   failed; one that finished has completed. The last two let the run start that has waited longest. Only an
   interruption keeps the mark to stop.
   */
  ghost predicate InvocationEnded(q: Queue, next: Queue, ending: Ending) {
    if q.executing.None? then next == q
    else
      var id := q.executing.value;
      match ending
      case Interrupted =>
        OnlyStatus(q.runs, next.runs, id, Paused) && next == q.(runs := next.runs, executing := None)
      case SourceChanged =>
        && OnlyStatus(q.runs, next.runs, id, Paused)
        && next == q.(runs := next.runs, executing := None, stops := q.stops - {id})
      case Raised => exists runs | OnlyStatus(q.runs, runs, id, Failed) ::
        LongestWaitingStarts(q.(runs := runs, executing := None, stops := q.stops - {id}), next)
      case Finished => exists runs | OnlyStatus(q.runs, runs, id, Completed) ::
        LongestWaitingStarts(q.(runs := runs, executing := None, stops := q.stops - {id}), next)
  }

  /** Every run that was running or stopping is paused, and no other row changes. */
  ghost predicate UnfinishedPaused(runs: seq<Run>, next: seq<Run>) {
    && |next| == |runs|
    && forall i | 0 <= i < |runs| ::
         next[i] == if runs[i].status == Running || runs[i].status == Stopping
                    then Run(runs[i].id, runs[i].workspace, Paused) else runs[i]
  }

  /** A first start recovers the table and starts the run that has waited longest. */
  ghost predicate CoordinatorStarted(q: Queue, next: Queue) {
    if q.alive || q.closing then next == q
    else exists runs | UnfinishedPaused(q.runs, runs) ::
      LongestWaitingStarts(q.(runs := runs, alive := true), next)
  }

  /** Every run under way is marked to stop; the worker is told to quit behind its work, the first time only. */
  ghost predicate ShutdownAsked(q: Queue, next: Queue) {
    && (forall id :: id in next.stops <==>
          id in q.stops || exists r | r in q.runs :: r.id == id && (r.status == Running || r.status == Stopping))
    && next == q.(stops := next.stops, closing := true,
                  commands := if q.alive && !q.closing then q.commands + [Quit] else q.commands)
  }

  /** A workspace's runs go when all of them have completed or failed; the others keep their order. */
  ghost predicate SettledDeleted(q: Queue, next: Queue, workspace: string) {
    if exists r | r in q.runs :: r.workspace == workspace && r.status != Completed && r.status != Failed
    then next == q
    else next == q.(runs := next.runs) && OthersKept(q.runs, next.runs, workspace)
  }

  ghost predicate OthersKept(runs: seq<Run>, next: seq<Run>, workspace: string) {
    if runs == [] then next == []
    else if runs[|runs| - 1].workspace == workspace then OthersKept(runs[..|runs| - 1], next, workspace)
    else
      && next != [] && next[|next| - 1] == runs[|runs| - 1]
      && OthersKept(runs[..|runs| - 1], next[..|next| - 1], workspace)
  }

  /** Each critical section keeps its rule. */
  ghost predicate Follows(q: Queue, e: Event, next: Queue) {
    match e
    case Submits(workspace) => RunSubmitted(q, next, workspace)
    case Stops(id) => StopAsked(q, next, id)
    case Resumes(id) => RunResumed(q, next, id)
    case Takes => CommandTaken(q, next)
    case Ends(ending) => InvocationEnded(q, next, ending)
    case Starts => CoordinatorStarted(q, next)
    case Shuts => ShutdownAsked(q, next)
    case Crashes => next == Queue(q.runs, q.nextId, [], None, false, false, {}, q.started)
    case Deletes(workspace) => SettledDeleted(q, next, workspace)
  }

  lemma FirstAnswers(runs: seq<Run>)
    ensures First(runs, ACTIVE).Some? <==> SomeActive(runs)
    ensures First(runs, {Queued}).Some? <==> SomeWaiting(runs)
    ensures forall id, status :: Has(runs, id, {status}) <==> exists r | r in runs :: r.id == id && r.status == status
  {
    forall id, status
      ensures Has(runs, id, {status}) <==> exists r | r in runs :: r.id == id && r.status == status
    {
      if r :| r in runs && r.id == id && r.status == status {
        var i :| 0 <= i < |runs| && runs[i] == r;
      }
    }
  }

  lemma StartNextFollows(q: Queue)
    ensures LongestWaitingStarts(q, StartNext(q))
  {
    FirstAnswers(q.runs);
    if !q.closing && First(q.runs, ACTIVE).None? && First(q.runs, {Queued}).Some? {
      var i := First(q.runs, {Queued}).value;
      assert StartsAt(q, StartNext(q), i);
    }
  }

  lemma SubmitFollows(q: Queue, workspace: string)
    ensures RunSubmitted(q, Submit(q, workspace), workspace)
  {
    FirstAnswers(q.runs);
    var waiting := q.(runs := q.runs + [Run(q.nextId, workspace, Queued)], nextId := q.nextId + 1);
    assert waiting.runs[|q.runs|].status == Queued;
    StartNextFollows(waiting);
    if SomeActive(q.runs) {
      var r :| r in q.runs && (r.status == Running || r.status == Stopping || r.status == Paused);
      assert r in waiting.runs;
    }
    hide First, StartNext;
  }

  lemma EndFollows(q: Queue, ending: Ending)
    ensures InvocationEnded(q, End(q, ending), ending)
  {
    if q.executing.Some? && (ending.Raised? || ending.Finished?) {
      var id := q.executing.value;
      var runs := SetStatus(q.runs, id, if ending.Raised? then Failed else Completed);
      assert OnlyStatus(q.runs, runs, id, if ending.Raised? then Failed else Completed);
      StartNextFollows(q.(runs := runs, executing := None, stops := q.stops - {id}));
    }
    hide StartNext, LongestWaitingStarts;
  }

  lemma StartFollows(q: Queue)
    ensures CoordinatorStarted(q, Start(q))
  {
    var runs := Recovered(q.runs);
    assert UnfinishedPaused(q.runs, runs);
    StartNextFollows(q.(runs := runs, alive := true));
    hide StartNext, LongestWaitingStarts;
  }

  lemma {:induction false} WithoutFollows(runs: seq<Run>, workspace: string)
    ensures OthersKept(runs, Without(runs, workspace), workspace)
    decreases |runs|
  {
    if runs != [] {
      WithoutFollows(runs[..|runs| - 1], workspace);
      var rest := Without(runs[..|runs| - 1], workspace);
      assert (rest + [runs[|runs| - 1]])[..|rest|] == rest && rest + [] == rest;
    }
  }

  lemma DeleteFollows(q: Queue, workspace: string)
    ensures SettledDeleted(q, DeleteSettled(q, workspace), workspace)
  {
    WithoutFollows(q.runs, workspace);
    assert HasUnsettled(q.runs, workspace) <==>
           exists r | r in q.runs :: r.workspace == workspace && r.status != Completed && r.status != Failed by {
      if r :| r in q.runs && r.workspace == workspace && r.status != Completed && r.status != Failed {
        var i :| 0 <= i < |q.runs| && q.runs[i] == r;
        assert r.status in UNSETTLED;
      }
    }
    hide HasUnsettled, Without, OthersKept;
  }

  lemma ShutdownFollows(q: Queue)
    ensures ShutdownAsked(q, Shutdown(q))
  {}

  lemma TakeFollows(q: Queue)
    ensures CommandTaken(q, Take(q))
  {}

  /** Every critical section does to the rows and commands exactly what its rule says. */
  lemma EventFollowsRule(q: Queue, e: Event)
    ensures Follows(q, e, Happens(q, e))
  {
    FirstAnswers(q.runs);
    hide First, Has;
    match e
    case Submits(workspace) => SubmitFollows(q, workspace); hide Submit, RunSubmitted;
    case Stops(id) =>
    case Resumes(id) =>
    case Takes => TakeFollows(q); hide Take, CommandTaken;
    case Ends(ending) => EndFollows(q, ending); hide End, InvocationEnded;
    case Starts => StartFollows(q); hide Start, CoordinatorStarted;
    case Shuts => ShutdownFollows(q); hide Shutdown, ShutdownAsked;
    case Crashes =>
    case Deletes(workspace) => DeleteFollows(q, workspace); hide DeleteSettled, SettledDeleted;
  }
}
