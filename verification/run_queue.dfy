/** The agent run queue: one active run at a time, started in order, surviving crashes. */
module RunQueue {
  import opened Outcomes

  datatype Status = Queued | Running | Stopping | Paused | Completed | Failed

  /** Runs are numbered as they are created. */
  datatype Run = Run(id: nat, workspace: string, status: Status)

  datatype Command = Work(id: nat) | Quit

  /** How an invocation of the agent graph ends. */
  datatype Ending = Interrupted | SourceChanged | Raised | Finished

  /**
   The durable run table, in creation order, and what the process holds besides: the commands its worker has not
   taken, the run the worker is at, whether the worker runs and whether a shutdown was asked for. `started` lists
   the runs in the order they were first started.
   */
  datatype Queue = Queue(
    runs: seq<Run>,
    nextId: nat,
    commands: seq<Command>,
    executing: Option<nat>,
    alive: bool,
    closing: bool,
    stops: set<nat>,
    started: seq<nat>)

  const ACTIVE := {Running, Stopping, Paused}
  const BUSY := {Running, Stopping}
  const UNSETTLED := {Queued, Running, Stopping, Paused}

  // ---------------------------------------------------------------- the run table

  /** The position of the first run, from a position on, in one of the statuses. */
  function FirstFrom(runs: seq<Run>, statuses: set<Status>, i: nat): (found: Option<nat>)
    requires i <= |runs|
    ensures found.Some? ==> i <= found.value < |runs| && runs[found.value].status in statuses
    ensures found.Some? ==> forall j | i <= j < found.value :: runs[j].status !in statuses
    ensures found.None? ==> forall j | i <= j < |runs| :: runs[j].status !in statuses
    decreases |runs| - i
  {
    if i == |runs| then None else if runs[i].status in statuses then Some(i) else FirstFrom(runs, statuses, i + 1)
  }

  function First(runs: seq<Run>, statuses: set<Status>): Option<nat> {
    FirstFrom(runs, statuses, 0)
  }

  predicate Has(runs: seq<Run>, id: nat, statuses: set<Status>) {
    exists i | 0 <= i < |runs| :: runs[i].id == id && runs[i].status in statuses
  }

  function SetStatus(runs: seq<Run>, id: nat, status: Status): (next: seq<Run>)
    ensures |next| == |runs|
    ensures forall i | 0 <= i < |runs| :: next[i] == if runs[i].id == id then runs[i].(status := status) else runs[i]
  {
    seq(|runs|, i requires 0 <= i < |runs| => if runs[i].id == id then runs[i].(status := status) else runs[i])
  }

  /** Every run that was under way is paused. */
  function Recovered(runs: seq<Run>): (next: seq<Run>)
    ensures |next| == |runs|
    ensures forall i | 0 <= i < |runs| ::
              next[i] == if runs[i].status in BUSY then runs[i].(status := Paused) else runs[i]
  {
    seq(|runs|, i requires 0 <= i < |runs| => if runs[i].status in BUSY then runs[i].(status := Paused) else runs[i])
  }

  function Without(runs: seq<Run>, workspace: string): (rest: seq<Run>)
    ensures forall i | 0 <= i < |rest| :: rest[i] in runs && rest[i].workspace != workspace
  {
    if runs == [] then []
    else Without(runs[..|runs| - 1], workspace)
         + if runs[|runs| - 1].workspace == workspace then [] else [runs[|runs| - 1]]
  }

  // ---------------------------------------------------------------- the coordinator's critical sections

  function StartNext(q: Queue): Queue {
    if q.closing || First(q.runs, ACTIVE).Some? then q
    else
      var next := First(q.runs, {Queued});
      if next.None? then q
      else
        var id := q.runs[next.value].id;
        q.(runs := SetStatus(q.runs, id, Running), commands := q.commands + [Work(id)], started := q.started + [id])
  }

  function Submit(q: Queue, workspace: string): Queue {
    if q.closing then q
    else
      var active, queued := First(q.runs, ACTIVE), First(q.runs, {Queued});
      var id := q.nextId;
      if active.Some? || queued.Some? then
        var waiting := q.(runs := q.runs + [Run(id, workspace, Queued)], nextId := id + 1);
        if active.None? then StartNext(waiting) else waiting
      else
        q.(runs := q.runs + [Run(id, workspace, Running)], nextId := id + 1, commands := q.commands + [Work(id)],
           started := q.started + [id])
  }

  function Stop(q: Queue, id: nat): Queue {
    if Has(q.runs, id, {Running}) then q.(runs := SetStatus(q.runs, id, Stopping), stops := q.stops + {id}) else q
  }

  function Resume(q: Queue, id: nat): Queue {
    if Has(q.runs, id, {Paused}) && !q.closing
    then q.(runs := SetStatus(q.runs, id, Running), commands := q.commands + [Work(id)])
    else q
  }

  /** The worker takes its next command; a stop mark for the run stays until the run ends. */
  function Take(q: Queue): Queue {
    if !q.alive || q.executing.Some? || q.commands == [] then q
    else if q.commands[0].Quit? then q.(commands := q.commands[1..], alive := false)
    else q.(commands := q.commands[1..], executing := Some(q.commands[0].id))
  }

  /** The worker's invocation ends; only an end for good lets the next run start. */
  function End(q: Queue, ending: Ending): Queue {
    if q.executing.None? then q
    else
      var id := q.executing.value;
      match ending
      case Interrupted => q.(runs := SetStatus(q.runs, id, Paused), executing := None)
      case SourceChanged => q.(runs := SetStatus(q.runs, id, Paused), executing := None, stops := q.stops - {id})
      case Raised => StartNext(q.(runs := SetStatus(q.runs, id, Failed), executing := None, stops := q.stops - {id}))
      case Finished =>
        StartNext(q.(runs := SetStatus(q.runs, id, Completed), executing := None, stops := q.stops - {id}))
  }

  /** Starting recovers what an earlier process left under way. */
  function Start(q: Queue): Queue {
    if q.alive || q.closing then q else StartNext(q.(runs := Recovered(q.runs), alive := true))
  }

  function Shutdown(q: Queue): Queue {
    var stops := q.stops + set r | r in q.runs && r.status in BUSY :: r.id;
    if q.closing then q.(stops := stops)
    else q.(stops := stops, closing := true, commands := if q.alive then q.commands + [Quit] else q.commands)
  }

  /** Only the run table outlives the process. */
  function Crash(q: Queue): Queue {
    q.(commands := [], executing := None, alive := false, closing := false, stops := {})
  }

  predicate HasUnsettled(runs: seq<Run>, workspace: string) {
    exists i | 0 <= i < |runs| :: runs[i].workspace == workspace && runs[i].status in UNSETTLED
  }

  function DeleteSettled(q: Queue, workspace: string): Queue {
    if HasUnsettled(q.runs, workspace) then q else q.(runs := Without(q.runs, workspace))
  }

  datatype Event =
    | Submits(workspace: string)
    | Stops(id: nat)
    | Resumes(id: nat)
    | Takes
    | Ends(ending: Ending)
    | Starts
    | Shuts
    | Crashes
    | Deletes(workspace: string)

  function Happens(q: Queue, e: Event): Queue {
    match e
    case Submits(workspace) => Submit(q, workspace)
    case Stops(id) => Stop(q, id)
    case Resumes(id) => Resume(q, id)
    case Takes => Take(q)
    case Ends(ending) => End(q, ending)
    case Starts => Start(q)
    case Shuts => Shutdown(q)
    case Crashes => Crash(q)
    case Deletes(workspace) => DeleteSettled(q, workspace)
  }

  function Runs(q: Queue, events: seq<Event>): Queue {
    if events == [] then q else Happens(Runs(q, events[..|events| - 1]), events[|events| - 1])
  }

  const NEW := Queue([], 0, [], None, false, false, {}, [])

  // ---------------------------------------------------------------- the invariant

  predicate Numbered(runs: seq<Run>, nextId: nat) {
    && (forall i | 0 <= i < |runs| :: runs[i].id < nextId)
    && forall i, j | 0 <= i < j < |runs| :: runs[i].id < runs[j].id
  }

  predicate OneActive(runs: seq<Run>) {
    forall i, j | 0 <= i < |runs| && 0 <= j < |runs| && runs[i].status in ACTIVE && runs[j].status in ACTIVE :: i == j
  }

  function WorkIds(commands: seq<Command>): seq<nat> {
    if commands == [] then []
    else WorkIds(commands[..|commands| - 1])
         + if commands[|commands| - 1].Work? then [commands[|commands| - 1].id] else []
  }

  /** The run the worker is at and the runs it has still been told to work on. */
  function Outstanding(q: Queue): seq<nat> {
    (if q.executing.Some? then [q.executing.value] else []) + WorkIds(q.commands)
  }

  /** With a worker, the run under way is the one piece of work there is; without one there is no work. */
  predicate WorkMatches(q: Queue) {
    if !q.alive then Outstanding(q) == [] && q.commands == []
    else
      var busy := First(q.runs, BUSY);
      Outstanding(q) == if busy.Some? then [q.runs[busy.value].id] else []
  }

  /** The worker is told to quit once, and last. */
  predicate QuitIsLast(q: Queue) {
    forall i | 0 <= i < |q.commands| :: q.commands[i].Quit? ==> q.closing && i == |q.commands| - 1
  }

  /** While the worker runs and nothing shuts it down, no run waits with none active. */
  predicate NobodyWaitsIdle(q: Queue) {
    q.alive && !q.closing && First(q.runs, {Queued}).Some? ==> First(q.runs, ACTIVE).Some?
  }

  /** Runs were first started in the order they were created, and every waiting one came later. */
  predicate InOrder(runs: seq<Run>, nextId: nat, started: seq<nat>) {
    && (forall i, j | 0 <= i < j < |started| :: started[i] < started[j])
    && (forall i | 0 <= i < |started| :: started[i] < nextId)
    && forall i, j | 0 <= i < |started| && 0 <= j < |runs| && runs[j].status == Queued :: started[i] < runs[j].id
  }

  predicate Inv(q: Queue) {
    && Numbered(q.runs, q.nextId) && OneActive(q.runs) && WorkMatches(q) && QuitIsLast(q)
    && NobodyWaitsIdle(q) && InOrder(q.runs, q.nextId, q.started)
  }

  /** Work is only ever accepted for a worker that will find it: not before the coordinator has started. */
  predicate Safe(q: Queue, e: Event) {
    match e
    case Submits(_) => q.alive || q.closing || First(q.runs, ACTIVE).Some?
    case Resumes(id) => q.alive || q.closing || !Has(q.runs, id, {Paused})
    case _ => true
  }

  // ---------------------------------------------------------------- preservation

  lemma FirstIs(runs: seq<Run>, statuses: set<Status>, i: nat)
    requires i < |runs| && runs[i].status in statuses && forall j | 0 <= j < i :: runs[j].status !in statuses
    ensures First(runs, statuses) == Some(i)
  {
    assert First(runs, statuses).Some?;
  }

  lemma FirstIsNone(runs: seq<Run>, statuses: set<Status>)
    requires forall j | 0 <= j < |runs| :: runs[j].status !in statuses
    ensures First(runs, statuses).None?
  {}

  /** The busy run, if there is one, is the active one. */
  lemma OnlyBusy(runs: seq<Run>, i: nat)
    requires OneActive(runs) && i < |runs| && runs[i].status in BUSY
    ensures First(runs, BUSY) == Some(i) && First(runs, ACTIVE) == Some(i)
  {
    FirstIs(runs, BUSY, i);
    FirstIs(runs, ACTIVE, i);
  }

  lemma WorkIdsGrow(commands: seq<Command>, command: Command)
    ensures WorkIds(commands + [command]) == WorkIds(commands) + if command.Work? then [command.id] else []
  {
    assert (commands + [command])[..|commands|] == commands;
  }

  lemma {:induction false} WorkIdsShrink(commands: seq<Command>)
    requires commands != []
    ensures WorkIds(commands) == (if commands[0].Work? then [commands[0].id] else []) + WorkIds(commands[1..])
    decreases |commands|
  {
    var front := commands[..|commands| - 1];
    if front != [] {
      WorkIdsShrink(front);
      assert commands[1..][..|commands| - 2] == front[1..];
    }
  }

  lemma {:induction false} NoWorkMeansQuit(commands: seq<Command>)
    ensures WorkIds(commands) == [] ==> forall i | 0 <= i < |commands| :: commands[i].Quit?
    decreases |commands|
  {
    if commands != [] {
      NoWorkMeansQuit(commands[..|commands| - 1]);
    }
  }

  /** Everything but that nobody waits idle. */
  predicate Sound(q: Queue) {
    && Numbered(q.runs, q.nextId) && OneActive(q.runs) && WorkMatches(q) && QuitIsLast(q)
    && InOrder(q.runs, q.nextId, q.started)
  }

  lemma RunStarts(q: Queue, i: nat)
    requires Sound(q) && q.alive && !q.closing && First(q.runs, ACTIVE).None?
    requires First(q.runs, {Queued}) == Some(i)
    ensures var id := q.runs[i].id;
            Inv(q.(runs := SetStatus(q.runs, id, Running), commands := q.commands + [Work(id)],
                   started := q.started + [id]))
  {
    var id := q.runs[i].id;
    hide First, Numbered, OneActive, InOrder, WorkMatches, QuitIsLast, SetStatus;
    StartedRows(q.runs, q.nextId, i);
    StartedInOrder(q, i);
    WorkIsAdded(q, q.(runs := SetStatus(q.runs, id, Running), commands := q.commands + [Work(id)],
                      started := q.started + [id]), i);
  }

  /** Work is given to an idle worker that is not told to quit: it is the one piece of work there is. */
  lemma WorkIsAdded(q: Queue, next: Queue, i: nat)
    requires WorkMatches(q) && QuitIsLast(q) && q.alive && !q.closing && First(q.runs, BUSY).None?
    requires i < |next.runs| && First(next.runs, BUSY) == Some(i)
    requires next.commands == q.commands + [Work(next.runs[i].id)]
    requires next.executing == q.executing && next.alive && !next.closing
    ensures WorkMatches(next) && QuitIsLast(next)
  {
    hide First, WorkIds;
    WorkIdsGrow(q.commands, Work(next.runs[i].id));
  }

  lemma StartedRows(runs: seq<Run>, nextId: nat, i: nat)
    requires Numbered(runs, nextId) && First(runs, ACTIVE).None? && First(runs, {Queued}) == Some(i)
    ensures var next := SetStatus(runs, runs[i].id, Running);
            && First(runs, BUSY).None? && i < |next| && next[i].id == runs[i].id
            && Numbered(next, nextId) && OneActive(next)
            && First(next, BUSY) == Some(i) && First(next, ACTIVE) == Some(i)
  {
    FirstIsNone(runs, BUSY);
    assert runs[i].status == Queued && forall j | 0 <= j < |runs| :: runs[j].status !in ACTIVE;
    hide First;
    forall j | 0 <= j < |runs| && runs[j].id == runs[i].id
      ensures j == i
    {
      NumberedOnce(runs, nextId, i, j);
    }
    OnlyBusy(SetStatus(runs, runs[i].id, Running), i);
  }

  lemma StartedInOrder(q: Queue, i: nat)
    requires Numbered(q.runs, q.nextId) && InOrder(q.runs, q.nextId, q.started) && First(q.runs, {Queued}) == Some(i)
    ensures InOrder(SetStatus(q.runs, q.runs[i].id, Running), q.nextId, q.started + [q.runs[i].id])
  {
    var id := q.runs[i].id;
    var next := SetStatus(q.runs, id, Running);
    hide First, SetStatus;
    forall j | 0 <= j < |next| && next[j].status == Queued
      ensures next[j] == q.runs[j] && id < q.runs[j].id
    {
      assert i < j;
    }
  }

  lemma StartNextKeeps(q: Queue)
    requires Sound(q) && (q.alive || q.closing || First(q.runs, ACTIVE).Some?)
    ensures Inv(StartNext(q))
  {
    if !q.closing && First(q.runs, ACTIVE).None? && First(q.runs, {Queued}).Some? {
      RunStarts(q, First(q.runs, {Queued}).value);
    }
  }

  lemma SubmitKeeps(q: Queue, workspace: string)
    requires Inv(q) && Safe(q, Submits(workspace))
    ensures Inv(Submit(q, workspace))
  {
    if !q.closing {
      var active, queued := First(q.runs, ACTIVE), First(q.runs, {Queued});
      if active.Some? {
        QueuedIsAdded(q, workspace);
      } else {
        RunningIsAdded(q, workspace);
      }
    }
  }

  lemma QueuedIsAdded(q: Queue, workspace: string)
    requires Inv(q) && First(q.runs, ACTIVE).Some?
    ensures Inv(q.(runs := q.runs + [Run(q.nextId, workspace, Queued)], nextId := q.nextId + 1))
  {
    var runs := q.runs + [Run(q.nextId, workspace, Queued)];
    var active := First(q.runs, ACTIVE).value;
    FirstIs(runs, ACTIVE, active);
    if First(q.runs, BUSY).Some? {
      FirstIs(runs, BUSY, First(q.runs, BUSY).value);
    } else {
      FirstIsNone(runs, BUSY);
    }
    QueuedBehind(q, runs);
    hide First, WorkIds, Numbered, OneActive, InOrder, QuitIsLast;
  }

  lemma QueuedBehind(q: Queue, runs: seq<Run>)
    requires Numbered(q.runs, q.nextId) && OneActive(q.runs) && InOrder(q.runs, q.nextId, q.started)
    requires |runs| == |q.runs| + 1 && runs[..|q.runs|] == q.runs
    requires runs[|q.runs|].id == q.nextId && runs[|q.runs|].status == Queued
    ensures Numbered(runs, q.nextId + 1) && OneActive(runs) && InOrder(runs, q.nextId + 1, q.started)
  {
    forall i | 0 <= i < |q.runs|
      ensures runs[i] == q.runs[i]
    {
      assert runs[i] == runs[..|q.runs|][i];
    }
  }

  lemma RunningIsAdded(q: Queue, workspace: string)
    requires Inv(q) && First(q.runs, ACTIVE).None? && q.alive && !q.closing
    ensures Inv(Submit(q, workspace))
  {
    var id := q.nextId;
    var runs := q.runs + [Run(id, workspace, Running)];
    hide First, Numbered, OneActive, InOrder, WorkMatches, QuitIsLast;
    AddedIsNumbered(q, runs);
    AddedInOrder(q, runs);
    AddedFirsts(q, runs);
    WorkIsAdded(q, Submit(q, workspace), |q.runs|);
  }

  lemma AddedFirsts(q: Queue, runs: seq<Run>)
    requires First(q.runs, ACTIVE).None? && First(q.runs, {Queued}).None?
    requires |runs| == |q.runs| + 1 && runs[..|q.runs|] == q.runs && runs[|q.runs|].status == Running
    ensures First(q.runs, BUSY).None? && First(runs, BUSY) == Some(|q.runs|) && First(runs, {Queued}).None?
  {
    FirstIsNone(q.runs, BUSY);
    forall i | 0 <= i < |q.runs|
      ensures runs[i] == q.runs[i]
    {
      assert runs[i] == runs[..|q.runs|][i];
    }
    FirstIs(runs, BUSY, |q.runs|);
    FirstIsNone(runs, {Queued});
  }

  lemma AddedInOrder(q: Queue, runs: seq<Run>)
    requires InOrder(q.runs, q.nextId, q.started) && First(q.runs, {Queued}).None?
    requires |runs| == |q.runs| + 1 && runs[..|q.runs|] == q.runs && runs[|q.runs|].status == Running
    ensures InOrder(runs, q.nextId + 1, q.started + [q.nextId])
  {
    forall j | 0 <= j < |runs|
      ensures runs[j].status != Queued
    {
      assert j < |q.runs| ==> runs[j] == runs[..|q.runs|][j];
    }
  }

  lemma AddedIsNumbered(q: Queue, runs: seq<Run>)
    requires Numbered(q.runs, q.nextId) && First(q.runs, ACTIVE).None?
    requires |runs| == |q.runs| + 1 && runs[..|q.runs|] == q.runs && runs[|q.runs|].id == q.nextId
    ensures Numbered(runs, q.nextId + 1) && OneActive(runs)
  {
    forall i | 0 <= i < |q.runs|
      ensures runs[i] == q.runs[i] && runs[i].status !in ACTIVE
    {
      assert runs[i] == runs[..|q.runs|][i];
    }
  }

  lemma StopKeeps(q: Queue, id: nat)
    requires Inv(q)
    ensures Inv(Stop(q, id))
  {
    if Has(q.runs, id, {Running}) {
      var i :| 0 <= i < |q.runs| && q.runs[i].id == id && q.runs[i].status == Running;
      hide First, Numbered, OneActive, InOrder, WorkIds, Has;
      OnlyBusy(q.runs, i);
      StatusMoves(q.runs, q.nextId, i, Stopping);
      OnlyBusy(SetStatus(q.runs, id, Stopping), i);
      OrderStays(q, SetStatus(q.runs, id, Stopping));
    }
  }

  /** Changing one active run's status leaves the rest of the table as it was. */
  lemma StatusMoves(runs: seq<Run>, nextId: nat, i: nat, status: Status)
    requires Numbered(runs, nextId) && OneActive(runs) && i < |runs| && runs[i].status in ACTIVE && status != Queued
    ensures var next := SetStatus(runs, runs[i].id, status);
            && next[i] == runs[i].(status := status) && (forall j | 0 <= j < |runs| && j != i :: next[j] == runs[j])
            && Numbered(next, nextId) && OneActive(next)
            && (status !in ACTIVE ==> First(next, ACTIVE).None? && First(next, BUSY).None?)
            && (status == Paused ==> First(next, ACTIVE) == Some(i) && First(next, BUSY).None?)
            && (forall j | 0 <= j < |runs| && next[j].status == Queued :: runs[j].status == Queued)
  {
    var next := SetStatus(runs, runs[i].id, status);
    if status !in ACTIVE {
      FirstIsNone(next, ACTIVE);
      FirstIsNone(next, BUSY);
    }
    if status == Paused {
      FirstIs(next, ACTIVE, i);
      FirstIsNone(next, BUSY);
    }
  }

  lemma OrderStays(q: Queue, runs: seq<Run>)
    requires InOrder(q.runs, q.nextId, q.started) && |runs| == |q.runs|
    requires forall j | 0 <= j < |runs| ::
               runs[j].id == q.runs[j].id && (runs[j].status == Queued ==> q.runs[j].status == Queued)
    ensures InOrder(runs, q.nextId, q.started)
  {}

  lemma PausedIsTheOnlyActive(runs: seq<Run>, i: nat)
    requires OneActive(runs) && i < |runs| && runs[i].status == Paused
    ensures First(runs, BUSY).None?
  {
    FirstIsNone(runs, BUSY);
  }

  lemma ResumeKeeps(q: Queue, id: nat)
    requires Inv(q) && Safe(q, Resumes(id))
    ensures Inv(Resume(q, id))
  {
    hide First, Numbered, OneActive, InOrder, WorkMatches, QuitIsLast, SetStatus;
    if Has(q.runs, id, {Paused}) && !q.closing {
      var i :| 0 <= i < |q.runs| && q.runs[i].id == id && q.runs[i].status == Paused;
      var next := Resume(q, id);
      PausedIsTheOnlyActive(q.runs, i);
      StatusMoves(q.runs, q.nextId, i, Running);
      OnlyBusy(next.runs, i);
      OrderStays(q, next.runs);
      WorkIsAdded(q, next, i);
    }
  }

  lemma WorkIsTaken(q: Queue)
    requires WorkMatches(q) && q.alive && q.executing.None? && q.commands != [] && q.commands[0].Work?
    ensures WorkMatches(q.(commands := q.commands[1..], executing := Some(q.commands[0].id)))
  {
    WorkIdsShrink(q.commands);
    hide First, WorkIds;
  }

  lemma QuitStaysLast(q: Queue)
    requires QuitIsLast(q) && q.commands != []
    ensures QuitIsLast(q.(commands := q.commands[1..])) && (q.commands[0].Quit? ==> q.commands[1..] == [])
  {
    forall i | 0 <= i < |q.commands| - 1 && q.commands[1..][i].Quit?
      ensures q.closing && i == |q.commands| - 2
    {
      assert q.commands[i + 1].Quit?;
    }
  }

  /** A worker that has quit has nothing to do. */
  lemma NoWorkMatches(q: Queue)
    requires !q.alive && q.executing.None? && q.commands == []
    ensures WorkMatches(q)
  {}

  lemma TakeKeeps(q: Queue)
    requires Inv(q)
    ensures Inv(Take(q))
  {
    hide First, Numbered, OneActive, InOrder, WorkMatches, QuitIsLast;
    if q.alive && q.executing.None? && q.commands != [] {
      QuitStaysLast(q);
      SameQuits(q.(commands := q.commands[1..]), Take(q));
      if q.commands[0].Quit? {
        NoWorkMatches(Take(q));
      } else {
        WorkIsTaken(q);
      }
    }
  }

  lemma SameQuits(q: Queue, next: Queue)
    requires QuitIsLast(q) && next.commands == q.commands && next.closing == q.closing
    ensures QuitIsLast(next)
  {}

  lemma EndKeeps(q: Queue, ending: Ending)
    requires Inv(q)
    ensures Inv(End(q, ending))
  {
    if q.executing.Some? {
      var id := q.executing.value;
      var i := First(q.runs, BUSY).value;
      assert q.alive && Outstanding(q)[0] == id && q.runs[i].id == id;
      assert WorkIds(q.commands) == [] by { assert |Outstanding(q)| == 1; }
      OnlyBusy(q.runs, i);
      var status := match ending
                    case Interrupted => Paused case SourceChanged => Paused
                    case Raised => Failed case Finished => Completed;
      StatusMoves(q.runs, q.nextId, i, status);
      OrderStays(q, SetStatus(q.runs, id, status));
      EndedIsSound(q, i, status, q.stops);
      EndedIsSound(q, i, status, q.stops - {id});
      if status !in ACTIVE {
        StartNextKeeps(q.(runs := SetStatus(q.runs, id, status), executing := None, stops := q.stops - {id}));
      }
    }
  }

  lemma EndedIsSound(q: Queue, i: nat, status: Status, stops: set<nat>)
    requires Inv(q) && q.alive && i < |q.runs| && q.runs[i].status in BUSY && WorkIds(q.commands) == []
    requires status in {Paused, Completed, Failed}
    requires var next := SetStatus(q.runs, q.runs[i].id, status);
             && Numbered(next, q.nextId) && OneActive(next) && First(next, BUSY).None?
             && InOrder(next, q.nextId, q.started) && (status == Paused ==> First(next, ACTIVE).Some?)
    ensures var next := q.(runs := SetStatus(q.runs, q.runs[i].id, status), executing := None, stops := stops);
            Sound(next) && (status == Paused ==> Inv(next))
  {}

  lemma StartKeeps(q: Queue)
    requires Inv(q)
    ensures Inv(Start(q))
  {
    if !q.alive && !q.closing {
      var runs := Recovered(q.runs);
      FirstIsNone(runs, BUSY);
      OrderStays(q, runs);
      assert OneActive(runs);
      StartNextKeeps(q.(runs := runs, alive := true));
    }
  }

  lemma ShutdownKeeps(q: Queue)
    requires Inv(q)
    ensures Inv(Shutdown(q))
  {
    hide Numbered, OneActive, InOrder, First, WorkIds;
    WorkIdsGrow(q.commands, Quit);
  }

  lemma CrashKeeps(q: Queue)
    requires Inv(q)
    ensures Inv(Crash(q))
  {}

  lemma {:induction false} WithoutKeepsRuns(runs: seq<Run>, workspace: string)
    ensures forall i | 0 <= i < |runs| :: runs[i].workspace != workspace ==> runs[i] in Without(runs, workspace)
    decreases |runs|
  {
    if runs != [] {
      WithoutKeepsRuns(runs[..|runs| - 1], workspace);
    }
  }

  lemma {:induction false} WithoutKeepsNumbers(runs: seq<Run>, workspace: string, nextId: nat)
    requires Numbered(runs, nextId)
    ensures Numbered(Without(runs, workspace), nextId)
    ensures forall i | 0 <= i < |Without(runs, workspace)| :: Without(runs, workspace)[i] in runs
    decreases |runs|
  {
    if runs != [] {
      WithoutKeepsNumbers(runs[..|runs| - 1], workspace, nextId);
    }
  }

  lemma NumberedOnce(runs: seq<Run>, nextId: nat, i: nat, j: nat)
    requires Numbered(runs, nextId) && i < |runs| && j < |runs| && runs[i].id == runs[j].id
    ensures i == j
  {}

  lemma DeleteKeeps(q: Queue, workspace: string)
    requires Inv(q)
    ensures Inv(DeleteSettled(q, workspace))
  {
    hide First, Numbered, OneActive, InOrder, Without, WorkIds, HasUnsettled;
    if !HasUnsettled(q.runs, workspace) {
      var rest := Without(q.runs, workspace);
      UnsettledStay(q.runs, workspace);
      WithoutKeepsNumbers(q.runs, workspace, q.nextId);
      RestHasOneActive(q.runs, rest, q.nextId);
      RestInOrder(q.runs, rest, q.nextId, q.started);
      SameFirst(q.runs, rest, q.nextId, BUSY);
      SameFirst(q.runs, rest, q.nextId, ACTIVE);
      SameFirst(q.runs, rest, q.nextId, {Queued});
    }
  }

  lemma UnsettledStay(runs: seq<Run>, workspace: string)
    requires !HasUnsettled(runs, workspace)
    ensures forall i | 0 <= i < |runs| :: runs[i].status in UNSETTLED ==> runs[i] in Without(runs, workspace)
  {
    WithoutKeepsRuns(runs, workspace);
  }

  lemma RestHasOneActive(runs: seq<Run>, rest: seq<Run>, nextId: nat)
    requires OneActive(runs) && Numbered(rest, nextId) && forall i | 0 <= i < |rest| :: rest[i] in runs
    ensures OneActive(rest)
  {
    forall i, j | 0 <= i < |rest| && 0 <= j < |rest| && rest[i].status in ACTIVE && rest[j].status in ACTIVE
      ensures i == j
    {
      assert rest[i] in runs && rest[j] in runs;
      NumberedOnce(rest, nextId, i, j);
    }
  }

  lemma RestInOrder(runs: seq<Run>, rest: seq<Run>, nextId: nat, started: seq<nat>)
    requires InOrder(runs, nextId, started) && forall i | 0 <= i < |rest| :: rest[i] in runs
    ensures InOrder(rest, nextId, started)
  {
    forall i, j | 0 <= i < |started| && 0 <= j < |rest| && rest[j].status == Queued
      ensures started[i] < rest[j].id
    {
      var k :| 0 <= k < |runs| && runs[k] == rest[j];
    }
  }

  /** Dropping runs of other statuses leaves the first run of these where it is in the order. */
  lemma SameFirst(runs: seq<Run>, rest: seq<Run>, nextId: nat, statuses: set<Status>)
    requires Numbered(runs, nextId) && Numbered(rest, nextId)
    requires forall i | 0 <= i < |rest| :: rest[i] in runs
    requires forall i | 0 <= i < |runs| :: runs[i].status in statuses ==> runs[i] in rest
    ensures First(rest, statuses).Some? <==> First(runs, statuses).Some?
    ensures First(rest, statuses).Some? ==> rest[First(rest, statuses).value] == runs[First(runs, statuses).value]
  {
    if First(runs, statuses).Some? {
      var i := First(runs, statuses).value;
      var j :| 0 <= j < |rest| && rest[j] == runs[i];
      forall k | 0 <= k < j
        ensures rest[k].status !in statuses
      {
        var m :| 0 <= m < |runs| && runs[m] == rest[k];
        assert m < i;
      }
      FirstIs(rest, statuses, j);
    }
  }

  lemma EventKeepsInv(q: Queue, e: Event)
    requires Inv(q) && Safe(q, e)
    ensures Inv(Happens(q, e))
  {
    match e
    case Submits(workspace) => SubmitKeeps(q, workspace);
    case Stops(id) => StopKeeps(q, id);
    case Resumes(id) => ResumeKeeps(q, id);
    case Takes => TakeKeeps(q);
    case Ends(ending) => EndKeeps(q, ending);
    case Starts => StartKeeps(q);
    case Shuts => ShutdownKeeps(q);
    case Crashes => CrashKeeps(q);
    case Deletes(workspace) => DeleteKeeps(q, workspace);
  }

  /** The same, for a caller that does not know the queue to be sound. */
  lemma HappensKeeps(q: Queue, e: Event)
    ensures Inv(q) && Safe(q, e) ==> Inv(Happens(q, e))
  {
    hide Inv, Safe, Happens;
    if Inv(q) && Safe(q, e) {
      EventKeepsInv(q, e);
    }
  }

  predicate AllSafe(q: Queue, events: seq<Event>) {
    events != [] ==> AllSafe(q, events[..|events| - 1]) && Safe(Runs(q, events[..|events| - 1]), events[|events| - 1])
  }

  /** Over every run of the program, crashes and restarts included. */
  lemma {:induction false} RunsKeepInv(q: Queue, events: seq<Event>)
    requires Inv(q) && AllSafe(q, events)
    ensures Inv(Runs(q, events))
    decreases |events|
  {
    if events != [] {
      RunsKeepInv(q, events[..|events| - 1]);
      hide Inv, Happens, Safe;
      EventKeepsInv(Runs(q, events[..|events| - 1]), events[|events| - 1]);
    }
  }

  // ---------------------------------------------------------------- what follows

  /** The run has the status, or its row has been deleted. */
  predicate KeptOrGone(runs: seq<Run>, id: nat, status: Status) {
    forall i | 0 <= i < |runs| && runs[i].id == id :: runs[i].status == status
  }

  /** A completed or failed run stays so until its row is deleted. */
  lemma EndsAreFinal(q: Queue, e: Event, id: nat, status: Status)
    requires Inv(q) && Safe(q, e) && status in {Completed, Failed}
    requires id < q.nextId && KeptOrGone(q.runs, id, status)
    ensures id < Happens(q, e).nextId && KeptOrGone(Happens(q, e).runs, id, status)
  {
    hide Inv, OneActive, InOrder, NobodyWaitsIdle;
    match e
    case Ends(ending) => EndLeavesOthers(q, ending, id, status);
    case Submits(workspace) => if !q.closing { SubmitLeavesOthers(q, workspace, id, status); }
    case Starts => StartNextLeavesOthers(q.(runs := Recovered(q.runs), alive := true), id, status);
    case Deletes(workspace) => if !HasUnsettled(q.runs, workspace) { hide HasUnsettled; }
    case _ =>
  }

  lemma StartNextLeavesOthers(q: Queue, id: nat, status: Status)
    requires KeptOrGone(q.runs, id, status) && status != Queued
    ensures KeptOrGone(StartNext(q).runs, id, status)
  {}

  lemma SubmitLeavesOthers(q: Queue, workspace: string, id: nat, status: Status)
    requires KeptOrGone(q.runs, id, status) && status != Queued && id < q.nextId
    ensures KeptOrGone(Submit(q, workspace).runs, id, status)
  {
    var waiting := q.(runs := q.runs + [Run(q.nextId, workspace, Queued)], nextId := q.nextId + 1);
    assert KeptOrGone(waiting.runs, id, status);
    StartNextLeavesOthers(waiting, id, status);
  }

  lemma EndLeavesOthers(q: Queue, ending: Ending, id: nat, status: Status)
    requires Inv(q) && KeptOrGone(q.runs, id, status) && status in {Completed, Failed}
    ensures KeptOrGone(End(q, ending).runs, id, status)
  {
    if q.executing.Some? {
      var i := First(q.runs, BUSY).value;
      assert Outstanding(q)[0] == q.executing.value && q.runs[i].id == q.executing.value;
      assert q.executing.value != id;
      hide Inv;
      var runs := SetStatus(q.runs, q.executing.value, if ending.Raised? then Failed else Completed);
      StartNextLeavesOthers(q.(runs := runs, executing := None, stops := q.stops - {q.executing.value}), id, status);
    }
  }

  /** Over whole runs: once completed or failed, a run never changes again while its row exists. */
  lemma {:induction false} EndsAreFinalForGood(q: Queue, events: seq<Event>, id: nat, status: Status)
    requires Inv(q) && AllSafe(q, events) && status in {Completed, Failed}
    requires id < q.nextId && KeptOrGone(q.runs, id, status)
    ensures id < Runs(q, events).nextId && KeptOrGone(Runs(q, events).runs, id, status)
    decreases |events|
  {
    if events != [] {
      var front := events[..|events| - 1];
      EndsAreFinalForGood(q, front, id, status);
      RunsKeepInv(q, front);
      hide Inv, Happens, Safe, KeptOrGone;
      EndsAreFinal(Runs(q, front), events[|events| - 1], id, status);
    }
  }

  /** In every state of every run: one active run at most, its work outstanding once, and no run waits for nothing. */
  lemma QueueIsSound(events: seq<Event>)
    requires AllSafe(NEW, events)
    ensures var q := Runs(NEW, events);
            && (forall i, j | 0 <= i < |q.runs| && 0 <= j < |q.runs|
                            && q.runs[i].status in ACTIVE && q.runs[j].status in ACTIVE ::
                  i == j)
            && (q.alive ==> forall i | 0 <= i < |q.runs| && q.runs[i].status in BUSY ::
                  Outstanding(q) == [q.runs[i].id])
            && (q.alive && !q.closing && (exists i | 0 <= i < |q.runs| :: q.runs[i].status == Queued) ==>
                  exists i | 0 <= i < |q.runs| :: q.runs[i].status in ACTIVE)
            && (forall i, j | 0 <= i < j < |q.started| :: q.started[i] < q.started[j])
  {
    RunsKeepInv(NEW, events);
    InvIsSound(Runs(NEW, events));
    hide *;
  }

  lemma InvIsSound(q: Queue)
    requires Inv(q)
    ensures forall i, j | 0 <= i < |q.runs| && 0 <= j < |q.runs|
                          && q.runs[i].status in ACTIVE && q.runs[j].status in ACTIVE ::
              i == j
    ensures q.alive ==> forall i | 0 <= i < |q.runs| && q.runs[i].status in BUSY :: Outstanding(q) == [q.runs[i].id]
    ensures q.alive && !q.closing && (exists i | 0 <= i < |q.runs| :: q.runs[i].status == Queued) ==>
              exists i | 0 <= i < |q.runs| :: q.runs[i].status in ACTIVE
    ensures forall i, j | 0 <= i < j < |q.started| :: q.started[i] < q.started[j]
  {
    hide Numbered, QuitIsLast;
    if q.alive {
      forall i | 0 <= i < |q.runs| && q.runs[i].status in BUSY
        ensures Outstanding(q) == [q.runs[i].id]
      {
        OnlyBusy(q.runs, i);
      }
    }
  }

  // ---------------------------------------------------------------- work accepted too early

  lemma RecoveryHidesWork(q: Queue, id: nat, i: nat)
    requires Numbered(q.runs, q.nextId) && !q.alive && !q.closing && q.executing.None? && q.commands == [Work(id)]
    requires i < |q.runs| && q.runs[i].id == id && q.runs[i].status == Running && OneActive(q.runs)
    ensures !Inv(Start(q)) && Has(Start(q).runs, id, {Paused}) && Outstanding(Start(q)) == [id]
  {
    var runs := Recovered(q.runs);
    assert runs[i].status == Paused;
    FirstIs(runs, ACTIVE, i);
    FirstIsNone(runs, BUSY);
    assert [Work(id)][..0] == [];
    assert WorkIds([Work(id)]) == [id];
    assert Start(q) == q.(runs := runs, alive := true);
  }

  /**
   Before the start, a submission or a resumption keeps the queue sound once it is started exactly when it leaves
   no work behind; otherwise the recovery pauses the run while its work is still outstanding.
   */
  lemma EarlyWorkIsTheOnlyHazard(q: Queue, e: Event)
    requires Inv(q) && !q.alive && (e.Submits? || e.Resumes?)
    ensures Inv(Start(Happens(q, e))) <==> Safe(q, e)
  {
    if Safe(q, e) {
      EventKeepsInv(q, e);
      hide Happens;
      StartKeeps(Happens(q, e));
    } else if e.Resumes? {
      EarlyResumeHidesWork(q, e.id);
    } else {
      EarlySubmitHidesWork(q, e.workspace);
    }
  }

  lemma EarlyResumeHidesWork(q: Queue, id: nat)
    requires Inv(q) && !q.alive && !Safe(q, Resumes(id))
    ensures !Inv(Start(Resume(q, id)))
  {
    var i :| 0 <= i < |q.runs| && q.runs[i].id == id && q.runs[i].status == Paused;
    StatusMoves(q.runs, q.nextId, i, Running);
    RecoveryHidesWork(Resume(q, id), id, i);
  }

  lemma EarlySubmitHidesWork(q: Queue, workspace: string)
    requires Inv(q) && !q.alive && !Safe(q, Submits(workspace))
    ensures !Inv(Start(Submit(q, workspace)))
  {
    var queued := First(q.runs, {Queued});
    if queued.None? {
      var runs := q.runs + [Run(q.nextId, workspace, Running)];
      AddedIsNumbered(q, runs);
      RecoveryHidesWork(Submit(q, workspace), q.nextId, |q.runs|);
    } else {
      var runs := q.runs + [Run(q.nextId, workspace, Queued)];
      AddedIsNumbered(q, runs);
      FirstIs(runs, {Queued}, queued.value);
      FirstIsNone(runs, ACTIVE);
      var next := SetStatus(runs, runs[queued.value].id, Running);
      assert forall j | 0 <= j < |runs| && j != queued.value :: next[j] == runs[j];
      RecoveryHidesWork(Submit(q, workspace), runs[queued.value].id, queued.value);
    }
  }
}
