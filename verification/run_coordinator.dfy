/** The coordinator: its run table and command queue, changed under one lock, one method a critical section. */
module RunCoordinator {
  import opened Outcomes
  import opened RunQueue
  import opened RunQueueRules

  class Coordinator {
    var runs: seq<Run>
    var nextId: nat
    var commands: seq<Command>
    var executing: Option<nat>
    var alive: bool
    var closing: bool
    var stops: set<nat>
    ghost var started: seq<nat>

    ghost function View(): Queue
      reads this
    {
      Queue(runs, nextId, commands, executing, alive, closing, stops, started)
    }

    /** A new process over the durable run table. */
    constructor (runs: seq<Run>, nextId: nat, ghost started: seq<nat>)
      ensures View() == Crash(Queue(runs, nextId, [], None, false, false, {}, started))
    {
      this.runs, this.nextId, commands, executing := runs, nextId, [], None;
      alive, closing, stops, this.started := false, false, {}, started;
    }

    /** The first run in creation order that is in one of the statuses. */
    method FirstRun(statuses: set<Status>) returns (found: Option<nat>)
      ensures found == First(runs, statuses)
    {
      for i := 0 to |runs|
        invariant forall j | 0 <= j < i :: runs[j].status !in statuses
      {
        if runs[i].status in statuses {
          FirstIs(runs, statuses, i);
          return Some(i);
        }
      }
      FirstIsNone(runs, statuses);
      found := None;
    }

    method Mark(id: nat, status: Status)
      modifies this`runs
      ensures runs == SetStatus(old(runs), id, status)
    {
      var next := runs;
      for i := 0 to |runs|
        invariant |next| == |runs|
        invariant forall j | 0 <= j < |runs| ::
                    next[j] == if j < i && runs[j].id == id then runs[j].(status := status) else runs[j]
      {
        if next[i].id == id { next := next[i := next[i].(status := status)]; }
      }
      runs := next;
    }

    /** Starts the run that has waited longest, unless one is active or the coordinator is shutting down. */
    method StartNext()
      modifies this
      ensures View() == RunQueue.StartNext(old(View())) && LongestWaitingStarts(old(View()), View())
    {
      StartNextFollows(View());
      if closing { return; }
      var active := FirstRun(ACTIVE);
      if active.Some? { return; }
      var queued := FirstRun({Queued});
      if queued.None? { return; }
      var id := runs[queued.value].id;
      Mark(id, Running);
      commands, started := commands + [Work(id)], started + [id];
    }

    method SubmitMessage(workspace: string) returns (accepted: bool)
      modifies this
      ensures accepted <==> !old(closing)
      ensures View() == Submit(old(View()), workspace)
      ensures RunSubmitted(old(View()), View(), workspace)
      ensures Inv(old(View())) && Safe(old(View()), Submits(workspace)) ==> Inv(View())
    {
      hide Inv, Safe, RunSubmitted, StopAsked, RunResumed, CommandTaken, InvocationEnded, CoordinatorStarted;
      hide ShutdownAsked, SettledDeleted, LongestWaitingStarts, First;
      HappensKeeps(View(), Submits(workspace));
      EventFollowsRule(View(), Submits(workspace));
      if closing { return false; }
      var active := FirstRun(ACTIVE);
      var queued := FirstRun({Queued});
      var id := nextId;
      var status := if active.Some? || queued.Some? then Queued else Running;
      runs, nextId := runs + [Run(id, workspace, status)], nextId + 1;
      if status == Running {
        commands, started := commands + [Work(id)], started + [id];
      } else if active.None? {
        StartNext();
      }
      accepted := true;
    }

    method StopRun(id: nat) returns (accepted: bool)
      modifies this
      ensures accepted <==> Has(old(runs), id, {Running})
      ensures View() == Stop(old(View()), id)
      ensures StopAsked(old(View()), View(), id)
      ensures Inv(old(View())) && Safe(old(View()), Stops(id)) ==> Inv(View())
    {
      hide Inv, Safe, RunSubmitted, StopAsked, RunResumed, CommandTaken, InvocationEnded, CoordinatorStarted;
      hide ShutdownAsked, SettledDeleted;
      HappensKeeps(View(), Stops(id));
      EventFollowsRule(View(), Stops(id));
      accepted := Has(runs, id, {Running});
      if accepted {
        stops := stops + {id};
        Mark(id, Stopping);
      }
    }

    method ResumeRun(id: nat) returns (accepted: bool)
      modifies this
      ensures accepted <==> Has(old(runs), id, {Paused}) && !old(closing)
      ensures View() == Resume(old(View()), id)
      ensures RunResumed(old(View()), View(), id)
      ensures Inv(old(View())) && Safe(old(View()), Resumes(id)) ==> Inv(View())
    {
      hide Inv, Safe, RunSubmitted, StopAsked, RunResumed, CommandTaken, InvocationEnded, CoordinatorStarted;
      hide ShutdownAsked, SettledDeleted;
      HappensKeeps(View(), Resumes(id));
      EventFollowsRule(View(), Resumes(id));
      accepted := Has(runs, id, {Paused}) && !closing;
      if accepted {
        Mark(id, Running);
        commands := commands + [Work(id)];
      }
    }

    /** Pauses every run an earlier process left under way. */
    method RecoverUnfinished() returns (recovered: seq<nat>)
      modifies this`runs
      ensures runs == Recovered(old(runs)) && UnfinishedPaused(old(runs), runs)
      ensures forall i | 0 <= i < |old(runs)| && old(runs)[i].status in BUSY :: old(runs)[i].id in recovered
    {
      recovered := [];
      var next := runs;
      for i := 0 to |runs|
        invariant |next| == |runs|
        invariant forall j | 0 <= j < |runs| ::
                    next[j] == if j < i && runs[j].status in BUSY then runs[j].(status := Paused) else runs[j]
        invariant forall j | 0 <= j < i && runs[j].status in BUSY :: runs[j].id in recovered
      {
        if next[i].status in BUSY {
          recovered := recovered + [next[i].id];
          next := next[i := next[i].(status := Paused)];
        }
      }
      runs := next;
    }

    method Start() returns (accepted: bool)
      modifies this
      ensures accepted <==> old(alive) || !old(closing)
      ensures View() == RunQueue.Start(old(View()))
      ensures CoordinatorStarted(old(View()), View())
      ensures Inv(old(View())) && Safe(old(View()), Starts) ==> Inv(View())
    {
      hide Inv, Safe, RunSubmitted, StopAsked, RunResumed, CommandTaken, InvocationEnded, CoordinatorStarted;
      hide ShutdownAsked, SettledDeleted;
      HappensKeeps(View(), Starts);
      EventFollowsRule(View(), Starts);
      if alive { return true; }
      if closing { return false; }
      var recovered := RecoverUnfinished();
      alive := true;
      StartNext();
      accepted := true;
    }

    /** The worker takes its next command. */
    method TakeCommand()
      modifies this
      ensures View() == Take(old(View()))
      ensures CommandTaken(old(View()), View())
      ensures Inv(old(View())) && Safe(old(View()), Takes) ==> Inv(View())
    {
      hide Inv, Safe, RunSubmitted, StopAsked, RunResumed, CommandTaken, InvocationEnded, CoordinatorStarted;
      hide ShutdownAsked, SettledDeleted;
      HappensKeeps(View(), Takes);
      EventFollowsRule(View(), Takes);
      if !alive || executing.Some? || commands == [] { return; }
      var command := commands[0];
      commands := commands[1..];
      match command
      case Quit => alive := false;
      case Work(id) => executing := Some(id);
    }

    /** The worker's invocation has ended. */
    method EndInvocation(ending: Ending)
      modifies this
      ensures View() == End(old(View()), ending)
      ensures InvocationEnded(old(View()), View(), ending)
      ensures Inv(old(View())) && Safe(old(View()), Ends(ending)) ==> Inv(View())
    {
      hide Inv, Safe, RunSubmitted, StopAsked, RunResumed, CommandTaken, InvocationEnded, CoordinatorStarted;
      hide ShutdownAsked, SettledDeleted;
      HappensKeeps(View(), Ends(ending));
      EventFollowsRule(View(), Ends(ending));
      if executing.None? { return; }
      var id := executing.value;
      executing := None;
      match ending
      case Interrupted =>
        Mark(id, Paused);
      case SourceChanged =>
        Mark(id, Paused);
        stops := stops - {id};
      case Raised =>
        Mark(id, Failed);
        stops := stops - {id};
        StartNext();
      case Finished =>
        Mark(id, Completed);
        stops := stops - {id};
        StartNext();
    }

    /** Asks every run under way to stop and the worker to quit behind its work. */
    method ShutDown()
      modifies this
      ensures View() == Shutdown(old(View()))
      ensures ShutdownAsked(old(View()), View())
      ensures Inv(old(View())) && Safe(old(View()), Shuts) ==> Inv(View())
    {
      hide Inv, Safe, RunSubmitted, StopAsked, RunResumed, CommandTaken, InvocationEnded, CoordinatorStarted;
      hide ShutdownAsked, SettledDeleted;
      HappensKeeps(View(), Shuts);
      EventFollowsRule(View(), Shuts);
      ghost var before := stops;
      for i := 0 to |runs|
        invariant runs == old(runs) && nextId == old(nextId) && commands == old(commands) && executing == old(executing)
        invariant stops == before + set r | r in runs[..i] && r.status in BUSY :: r.id
        invariant alive == old(alive) && closing == old(closing) && started == old(started)
      {
        assert runs[..i + 1] == runs[..i] + [runs[i]];
        if runs[i].status in BUSY { stops := stops + {runs[i].id}; }
      }
      assert runs[..|runs|] == runs;
      if !closing {
        closing := true;
        if alive { commands := commands + [Quit]; }
      }
    }

    method DeleteSettledRuns(workspace: string) returns (accepted: bool)
      modifies this`runs
      ensures accepted <==> !HasUnsettled(old(runs), workspace)
      ensures View() == DeleteSettled(old(View()), workspace)
      ensures SettledDeleted(old(View()), View(), workspace)
      ensures Inv(old(View())) && Safe(old(View()), Deletes(workspace)) ==> Inv(View())
    {
      hide Inv, Safe, RunSubmitted, StopAsked, RunResumed, CommandTaken, InvocationEnded, CoordinatorStarted;
      hide ShutdownAsked, SettledDeleted;
      HappensKeeps(View(), Deletes(workspace));
      EventFollowsRule(View(), Deletes(workspace));
      if HasUnsettled(runs, workspace) { return false; }
      var rest: seq<Run> := [];
      for i := 0 to |runs|
        invariant rest == Without(runs[..i], workspace)
      {
        assert runs[..i + 1][..i] == runs[..i];
        if runs[i].workspace != workspace { rest := rest + [runs[i]]; }
      }
      assert runs[..|runs|] == runs;
      runs := rest;
      accepted := true;
    }
  }
}
