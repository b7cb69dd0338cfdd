/** Which task is dispatched next, and when a plan can be assembled (console/developer.py, console/assemble.py). */
module PlanProgress {
  import opened Results
  import opened LogEvents
  import opened PlanGraph
  import opened TopoSpec
  import opened TopoOrder

  // --- the latest terminal wins ---

  /** The outcome of a task's latest terminal among the first `n` rows. */
  function LatestOutcome(log: Log, n: nat, t: string): Option<LogEvents.Outcome>
    requires n <= |log|
  {
    if n == 0 then None
    else match log[n - 1].payload
      case TerminalOutcome(Some(id), o) => if id == t then Some(o) else LatestOutcome(log, n - 1, t)
      case _ => LatestOutcome(log, n - 1, t)
  }

  /** The row is a terminal of the task with this outcome, and no later one of the first `n` is a terminal of it. */
  ghost predicate LastTerminal(log: Log, n: nat, t: string, i: nat, o: LogEvents.Outcome)
    requires n <= |log|
  {
    && i < n && log[i].payload == TerminalOutcome(Some(t), o)
    && forall k: nat :: i < k < n && log[k].payload.TerminalOutcome? ==> log[k].payload.taskId != Some(t)
  }

  lemma {:induction false} LatestOutcomeExact(log: Log, n: nat, t: string, o: LogEvents.Outcome)
    requires n <= |log|
    ensures LatestOutcome(log, n, t) == Some(o) <==> exists i: nat :: LastTerminal(log, n, t, i, o)
  {
    if n > 0 {
      LatestOutcomeExact(log, n - 1, t, o);
      var b := log[n - 1].payload;
      if b.TerminalOutcome? && b.taskId == Some(t) {
        assert b.outcome == o ==> LastTerminal(log, n, t, n - 1, o);
      } else {
        var m: nat := n - 1;
        if i: nat :| LastTerminal(log, m, t, i, o) {
          assert LastTerminal(log, n, t, i, o);
        }
        if i: nat :| LastTerminal(log, n, t, i, o) {
          assert LastTerminal(log, m, t, i, o);
        }
      }
    }
  }

  predicate IsCompleted(log: Log, t: string) {
    LatestOutcome(log, |log|, t) == Some(Completed)
  }

  /** Overwrites a dictionary with every terminal, in log order. */
  method CompletedTaskIds(log: Log) returns (ids: set<string>)
    ensures forall t :: t in ids <==> IsCompleted(log, t)
    ensures forall t :: t in ids <==> exists i: nat :: LastTerminal(log, |log|, t, i, Completed)
  {
    var latest: map<string, LogEvents.Outcome> := map[];
    for n := 0 to |log|
      invariant forall t :: LatestOutcome(log, n, t) == if t in latest then Some(latest[t]) else None
    {
      match log[n].payload {
        case TerminalOutcome(Some(id), o) => latest := latest[id := o];
        case _ =>
      }
    }
    ids := set t | t in latest && latest[t] == Completed;
    assert forall t :: t in ids <==> t in latest && latest[t] == Completed;
    forall t ensures IsCompleted(log, t) <==> exists i: nat :: LastTerminal(log, |log|, t, i, Completed) {
      LatestOutcomeExact(log, |log|, t, Completed);
    }
  }

  datatype AssembleError = NoTasks | NotAllCompleted(missing: nat, total: nat) | Cyclic

  function NotDone(tasks: seq<Task>, log: Log): nat {
    if tasks == [] then 0
    else NotDone(tasks[..|tasks| - 1], log) + if IsCompleted(log, tasks[|tasks| - 1].id) then 0 else 1
  }

  lemma {:induction false} NotDoneNone(tasks: seq<Task>, log: Log)
    ensures NotDone(tasks, log) == 0 <==> forall i :: 0 <= i < |tasks| ==> IsCompleted(log, tasks[i].id)
  {
    if tasks != [] {
      var front := tasks[..|tasks| - 1];
      NotDoneNone(front, log);
      assert forall i :: 0 <= i < |front| ==> front[i] == tasks[i];
    }
  }

  /** The positions of the tasks whose latest terminal is not a completion. */
  function Missing(tasks: seq<Task>, log: Log): set<nat> {
    set i: nat | i < |tasks| && !IsCompleted(log, tasks[i].id)
  }

  lemma MissingGrows(tasks: seq<Task>, task: Task, log: Log)
    ensures |Missing(tasks + [task], log)| == |Missing(tasks, log)| + if IsCompleted(log, task.id) then 0 else 1
  {
    var n: nat := |tasks|;
    assert Missing(tasks + [task], log) == Missing(tasks, log) + if IsCompleted(log, task.id) then {} else {n};
  }

  lemma {:induction false} NotDoneCounts(tasks: seq<Task>, log: Log)
    ensures NotDone(tasks, log) == |Missing(tasks, log)|
  {
    if tasks == [] {
      assert Missing(tasks, log) == {};
    } else {
      var front := tasks[..|tasks| - 1];
      NotDoneCounts(front, log);
      MissingGrows(front, tasks[|tasks| - 1], log);
      assert tasks == front + [tasks[|tasks| - 1]];
    }
  }

  /** What stands in the way of an assembly, if anything does. */
  function Obstacle(tasks: seq<Task>, log: Log): AssembleError {
    if tasks == [] then NoTasks
    else if NotDone(tasks, log) > 0 then NotAllCompleted(NotDone(tasks, log), |tasks|)
    else Cyclic
  }

  /**
   What is merged, in order: refused for an empty plan, while any task's latest terminal is not a
   completion, and for a plan with a cycle or a repeated id; otherwise the least topological order.
   */
  method MergeOrder(tasks: seq<Task>, log: Log) returns (r: Result<seq<Task>, AssembleError>)
    ensures r.Ok? <==> tasks != [] && (forall i :: 0 <= i < |tasks| ==> IsCompleted(log, tasks[i].id))
                       && DistinctIds(tasks) && Order(tasks).Ok?
    ensures r.Ok? ==> Within(Order(tasks).value, |tasks|) && r.value == TasksAt(tasks, Order(tasks).value)
    ensures r.Err? ==> r.error == Obstacle(tasks, log)
    ensures r == Err(NoTasks) <==> tasks == []
    ensures Missing(tasks, log) != {} <==> r == Err(NotAllCompleted(|Missing(tasks, log)|, |tasks|))
  {
    NotDoneCounts(tasks, log);
    if tasks == [] {
      return Err(NoTasks);
    }
    var completed := CompletedTaskIds(log);
    var missing := 0;
    for i := 0 to |tasks|
      invariant missing == NotDone(tasks[..i], log)
    {
      assert tasks[..i + 1][..i] == tasks[..i];
      if tasks[i].id !in completed {
        missing := missing + 1;
      }
    }
    assert tasks[..|tasks|] == tasks;
    NotDoneNone(tasks, log);
    if missing > 0 {
      return Err(NotAllCompleted(missing, |tasks|));
    }
    var ordered := TopoOrder.TopoOrder(tasks);
    match ordered {
      case Ok(ts) => r := Ok(ts);
      case Err(_) => r := Err(Cyclic);
    }
  }

  // --- the next task ---

  /** The ids that have any terminal. */
  function Settled(log: Log): set<string> {
    set i: nat | i < |log| && log[i].payload.TerminalOutcome? && log[i].payload.taskId.Some? ::
      log[i].payload.taskId.value
  }

  datatype SelectError = UnknownTask | AllTasksSettled

  /** The positions of the tasks without a terminal, in plan order. */
  function Pending(tasks: seq<Task>, settled: set<string>): seq<nat> {
    if tasks == [] then []
    else
      Pending(tasks[..|tasks| - 1], settled) + if tasks[|tasks| - 1].id in settled then [] else [|tasks| - 1]
  }

  /** The named task, or the first one without a terminal. */
  method SelectTask(tasks: seq<Task>, log: Log, taskId: Option<string>) returns (r: Result<nat, SelectError>)
    ensures taskId.Some? ==> r == match Position(tasks, taskId.value) case Some(i) => Ok(i) case None => Err(UnknownTask)
    ensures taskId.None? ==> r == Picked(tasks, Settled(log))
    ensures taskId.None? && r.Ok? ==> FirstOpen(tasks, Settled(log), r.value)
    ensures taskId.None? && r.Err? ==> forall j :: 0 <= j < |tasks| ==> tasks[j].id in Settled(log)
  {
    if taskId.Some? {
      var found := Position(tasks, taskId.value);
      return if found.Some? then Ok(found.value) else Err(UnknownTask);
    }
    var settled := Settled(log);
    var pending: seq<nat> := [];
    for i := 0 to |tasks|
      invariant pending == Pending(tasks[..i], settled)
    {
      assert tasks[..i + 1][..i] == tasks[..i];
      if tasks[i].id !in settled {
        pending := pending + [i];
      }
    }
    assert tasks[..|tasks|] == tasks;
    PickedExact(tasks, settled, if pending == [] then 0 else pending[0]);
    if pending == [] {
      return Err(AllTasksSettled);
    }
    r := Ok(pending[0]);
  }

  function Picked(tasks: seq<Task>, settled: set<string>): Result<nat, SelectError> {
    if Pending(tasks, settled) == [] then Err(AllTasksSettled) else Ok(Pending(tasks, settled)[0])
  }

  /** The task has no terminal and no task before it is without one. */
  predicate FirstOpen(tasks: seq<Task>, settled: set<string>, i: nat) {
    i < |tasks| && tasks[i].id !in settled && forall j :: 0 <= j < i ==> tasks[j].id in settled
  }

  lemma {:induction false} PickedExact(tasks: seq<Task>, settled: set<string>, i: nat)
    ensures Picked(tasks, settled) == Ok(i) <==> FirstOpen(tasks, settled, i)
    ensures Picked(tasks, settled) == Err(AllTasksSettled) <==> forall j :: 0 <= j < |tasks| ==> tasks[j].id in settled
  {
    if tasks != [] {
      var front := tasks[..|tasks| - 1];
      PickedExact(front, settled, i);
      assert forall j :: 0 <= j < |front| ==> front[j] == tasks[j];
    }
  }

  /** The pending positions at which an id comes for the first time. */
  function Firsts(tasks: seq<Task>, settled: set<string>): seq<nat> {
    if tasks == [] then []
    else
      var front, id := tasks[..|tasks| - 1], tasks[|tasks| - 1].id;
      Firsts(front, settled) + if id in settled || HasId(front, id) then [] else [|front|]
  }

  lemma {:induction false} FirstsWithin(tasks: seq<Task>, settled: set<string>)
    ensures Within(Firsts(tasks, settled), |tasks|)
  {
    if tasks != [] {
      FirstsWithin(tasks[..|tasks| - 1], settled);
    }
  }

  lemma HasIdFront(tasks: seq<Task>, id: string)
    requires tasks != []
    ensures HasId(tasks, id) <==> HasId(tasks[..|tasks| - 1], id) || tasks[|tasks| - 1].id == id
  {
    var front := tasks[..|tasks| - 1];
    assert forall k :: 0 <= k < |front| ==> front[k] == tasks[k];
  }

  /** Without repeated ids those are all the pending ones. */
  lemma {:induction false} FirstsArePending(tasks: seq<Task>, settled: set<string>)
    requires DistinctIds(tasks)
    ensures Firsts(tasks, settled) == Pending(tasks, settled)
  {
    if tasks != [] {
      FirstsArePending(tasks[..|tasks| - 1], settled);
    }
  }

  /** An id of the plan is settled or shows up among the first positions. */
  lemma {:induction false} NoFirstsSettled(tasks: seq<Task>, settled: set<string>, id: string)
    requires Firsts(tasks, settled) == [] && HasId(tasks, id)
    ensures id in settled
  {
    HasIdFront(tasks, id);
    if tasks[|tasks| - 1].id != id || HasId(tasks[..|tasks| - 1], id) {
      NoFirstsSettled(tasks[..|tasks| - 1], settled, id);
    }
  }

  /** What is picked is the first of them. */
  lemma {:induction false} PickedIsFirst(tasks: seq<Task>, settled: set<string>)
    ensures var p := Firsts(tasks, settled);
            Picked(tasks, settled) == if p == [] then Err(AllTasksSettled) else Ok(p[0])
  {
    if tasks != [] {
      var front, id := tasks[..|tasks| - 1], tasks[|tasks| - 1].id;
      PickedIsFirst(front, settled);
      if Firsts(front, settled) == [] && HasId(front, id) {
        NoFirstsSettled(front, settled, id);
      }
    }
  }

  lemma {:induction false} FirstsUnmoved(tasks: seq<Task>, settled: set<string>, id: string)
    requires !HasId(tasks, id)
    ensures Firsts(tasks, settled + {id}) == Firsts(tasks, settled)
  {
    if tasks != [] {
      HasIdFront(tasks, id);
      FirstsUnmoved(tasks[..|tasks| - 1], settled, id);
    }
  }

  lemma PositionHasId(tasks: seq<Task>, i: nat)
    requires i < |tasks|
    ensures HasId(tasks, tasks[i].id)
  {
  }

  /** Settling one more task takes it out of the first positions and leaves the others as they were. */
  lemma {:induction false} SettlingRemoves(tasks: seq<Task>, settled: set<string>, k: nat)
    requires k < |Firsts(tasks, settled)| && Firsts(tasks, settled)[k] < |tasks|
    ensures var p := Firsts(tasks, settled);
            Firsts(tasks, settled + {tasks[p[k]].id}) == p[..k] + p[k + 1..]
  {
    var p, front, last := Firsts(tasks, settled), tasks[..|tasks| - 1], tasks[|tasks| - 1];
    var q := Firsts(front, settled);
    FirstsWithin(front, settled);
    if k < |q| {
      SettlingRemoves(front, settled, k);
      PositionHasId(front, q[k]);
      assert tasks[p[k]] == front[q[k]];
    } else {
      FirstsUnmoved(front, settled, last.id);
    }
  }

  /** A run of dispatches without a task id: each picks a task and leaves it with a terminal. */
  ghost predicate Drives(tasks: seq<Task>, settled: seq<set<string>>, picks: seq<nat>) {
    |settled| == |picks| + 1 &&
    forall k: nat :: k < |picks| ==> Drive(tasks, settled[k], picks[k], settled[k + 1])
  }

  predicate Drive(tasks: seq<Task>, before: set<string>, pick: nat, after: set<string>) {
    Picked(tasks, before) == Ok(pick) && pick < |tasks| && after == before + {tasks[pick].id}
  }

  /**
   Such a run goes through the pending tasks once each, in plan order, whatever their outcomes, and
   refuses to go on exactly when it has been through all of them. A repeated id counts where it first stands.
   */
  lemma {:induction false} DrivesInPlanOrder(tasks: seq<Task>, settled: seq<set<string>>, picks: seq<nat>)
    requires Drives(tasks, settled, picks)
    ensures picks <= Firsts(tasks, settled[0])
    ensures Firsts(tasks, settled[|picks|]) == Firsts(tasks, settled[0])[|picks|..]
    ensures Picked(tasks, settled[|picks|]) == Err(AllTasksSettled) <==> |picks| == |Firsts(tasks, settled[0])|
  {
    PickedIsFirst(tasks, settled[|picks|]);
    if picks != [] {
      var n := |picks| - 1;
      assert forall k: nat :: k < n ==> Drive(tasks, settled[..n + 1][k], picks[..n][k], settled[..n + 1][k + 1]);
      DrivesInPlanOrder(tasks, settled[..n + 1], picks[..n]);
      assert Drive(tasks, settled[n], picks[n], settled[n + 1]);
      var all, left := Firsts(tasks, settled[0]), Firsts(tasks, settled[n]);
      PickedIsFirst(tasks, settled[n]);
      SettlingRemoves(tasks, settled[n], 0);
      assert left[..0] + left[1..] == all[n + 1..];
      assert picks == picks[..n] + [all[n]];
    }
  }
}
