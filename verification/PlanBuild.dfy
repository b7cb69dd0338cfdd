/**
 Driving a whole plan on an external target: what each dispatch does to the task's branch, and whether the
 branches accumulate (console/developer.py).
 */
module PlanBuild {
  import opened Results
  import opened LogEvents
  import opened Monitor
  import opened PlanGraph
  import opened Descendants
  import opened PlanProgress
  import opened Dispatch
  import opened DispatchLaws
  import Chain = BranchChain

  // --- completions on record ---

  function CompletionOf(b: Body): seq<string> {
    match b
    case TerminalOutcome(Some(t), Completed) => [t]
    case _ => []
  }

  /** The tasks of the completed terminals, in log order. */
  function Completions(log: Log): seq<string> {
    if log == [] then [] else Completions(log[..|log| - 1]) + CompletionOf(log[|log| - 1].payload)
  }

  lemma EmitCompletions(c: Context, log: Log, b: Body)
    ensures Completions(Emit(c, log, b)) == Completions(log) + CompletionOf(b)
  {
  }

  lemma {:induction false} LaterCompletions(log: Log, later: seq<Row>)
    requires forall i :: 0 <= i < |later| ==> !later[i].payload.TerminalOutcome?
    ensures Completions(log + later) == Completions(log)
  {
    if later == [] {
      assert log + later == log;
    } else {
      assert (log + later)[..|log + later| - 1] == log + later[..|later| - 1];
      LaterCompletions(log, later[..|later| - 1]);
    }
  }

  // --- one dispatch ---

  /** The work gets as far as the completion. */
  predicate Earns(w: Work, life: Life) {
    life == Queued && w.Certified?
  }

  predicate AttemptEarns(a: Attempt, life: Life) {
    (a.Worked? || a.Capped?) && Earns(a.work, life)
  }

  /** What the task's branch holds after an attempt, which begins by deleting it. */
  datatype Tip = Gone | AtBase | WithWork

  /** Outside work has a branch of another name. */
  function TipAfter(a: Attempt, life: Life): Tip {
    match a
    case Denied => Gone
    case Refused => AtBase
    case Worked(w) => if w.Unstarted? then Gone else if Earns(w, life) && w.commit == None then WithWork else AtBase
    case Capped(_) => Gone
  }

  function LoopTip(c: Context, log: Log, life: Life, script: nat -> Attempt, k: nat, retries: nat): Tip
    requires k <= retries
    decreases retries - k
  {
    var left := RunAttempt(c, log, life, k == retries, script(k));
    if k < retries && GoesOn(c, log, left) then LoopTip(c, left.log, left.life, script, k + 1, retries)
    else TipAfter(script(k), life)
  }

  /** Some attempt that the loop gets to earns the completion. */
  predicate LoopEarns(c: Context, log: Log, life: Life, script: nat -> Attempt, k: nat, retries: nat)
    requires k <= retries
    decreases retries - k
  {
    var left := RunAttempt(c, log, life, k == retries, script(k));
    AttemptEarns(script(k), life) ||
    (k < retries && GoesOn(c, log, left) && LoopEarns(c, left.log, left.life, script, k + 1, retries))
  }

  function Earned(c: Context, earns: bool): seq<string> {
    if earns then [c.taskId] else []
  }

  lemma WorkCompletions(c: Context, log: Log, life: Life, final: bool, w: Work)
    ensures Completions(RunWork(c, log, life, final, w).log) == Completions(log) + Earned(c, Earns(w, life))
  {
    var started := Emit(c, log, TaskStarted(Some(c.taskId)));
    EmitCompletions(c, log, TaskStarted(Some(c.taskId)));
    assert Completions(log) + [] == Completions(log);
    if !w.Unstarted? && !w.Unbuilt? && life == Queued {
      AcceptCompletions(c, started, final, w);
    }
  }

  lemma EmitNothing(c: Context, log: Log, b: Body)
    requires CompletionOf(b) == []
    ensures Completions(Emit(c, log, b)) == Completions(log)
  {
    EmitCompletions(c, log, b);
    assert Completions(log) + [] == Completions(log);
  }

  lemma EmitTwo(c: Context, log: Log, a: Body, b: Body)
    requires CompletionOf(a) == []
    ensures Completions(Emit(c, Emit(c, log, a), b)) == Completions(log) + CompletionOf(b)
  {
    EmitNothing(c, log, a);
    EmitCompletions(c, Emit(c, log, a), b);
  }

  lemma FailingCompletions(c: Context, log: Log, final: bool, w: Work)
    requires w.Failing?
    ensures Completions(Accept(c, log, final, w).log) == Completions(log)
  {
    EmitNothing(c, log, VerifierOutcome(Some(c.taskId), false));
    EmitTwo(c, log, VerifierOutcome(Some(c.taskId), false), TerminalOutcome(Some(c.taskId), Rejected));
    assert Completions(log) + [] == Completions(log);
  }

  lemma DeclinedCompletions(c: Context, passed: Log)
    ensures Completions(Review(c, passed, Declined).log) == Completions(passed)
  {
    EmitTwo(c, passed, Other("reviewer_rejected"), TerminalOutcome(Some(c.taskId), Rejected));
    assert Completions(passed) + [] == Completions(passed);
  }

  lemma CertifiedCompletions(c: Context, passed: Log, commit: Option<Fault>)
    requires var certified := Emit(c, passed, ReviewerCertified(Some(c.taskId)));
             EarnedBy(certified, c.taskId, |certified|)
    ensures Completions(Review(c, passed, Certified(commit)).log) == Completions(passed) + [c.taskId]
  {
    EmitTwo(c, passed, ReviewerCertified(Some(c.taskId)), TerminalOutcome(Some(c.taskId), Completed));
  }

  lemma ReviewCompletions(c: Context, log: Log, w: Work)
    requires log != [] && log[|log| - 1].payload == TaskStarted(Some(c.taskId))
    ensures Completions(Review(c, Emit(c, log, VerifierOutcome(Some(c.taskId), true)), w).log) ==
            Completions(log) + Earned(c, w.Certified?)
  {
    var passed := Emit(c, log, VerifierOutcome(Some(c.taskId), true));
    EmitNothing(c, log, VerifierOutcome(Some(c.taskId), true));
    assert Completions(log) + [] == Completions(log);
    match w {
      case Declined => DeclinedCompletions(c, passed);
      case Certified(commit) =>
        CertifiedIsEarned(c, log);
        CertifiedCompletions(c, passed, commit);
      case _ =>
    }
  }

  lemma AcceptReviews(c: Context, log: Log, final: bool, w: Work)
    requires !w.Unverified? && !w.Failing?
    ensures Accept(c, log, final, w) == Review(c, Emit(c, log, VerifierOutcome(Some(c.taskId), true)), w)
  {
  }

  lemma AcceptCompletions(c: Context, log: Log, final: bool, w: Work)
    requires log != [] && log[|log| - 1].payload == TaskStarted(Some(c.taskId))
    ensures Completions(Accept(c, log, final, w).log) == Completions(log) + Earned(c, w.Certified?)
  {
    if w.Failing? {
      FailingCompletions(c, log, final, w);
      assert Completions(log) + [] == Completions(log);
    } else if w.Unverified? {
      assert Completions(log) + [] == Completions(log);
    } else {
      AcceptReviews(c, log, final, w);
      ReviewCompletions(c, log, w);
    }
  }

  lemma RefusedCompletions(c: Context, log: Log)
    ensures Completions(EmitTerminal(c, Emit(c, log, TaskStarted(Some(c.taskId))), Rejected)) == Completions(log)
  {
    EmitTwo(c, log, TaskStarted(Some(c.taskId)), TerminalOutcome(Some(c.taskId), Rejected));
    assert Completions(log) + [] == Completions(log);
  }

  lemma AttemptCompletions(c: Context, log: Log, life: Life, final: bool, a: Attempt)
    ensures Completions(RunAttempt(c, log, life, final, a).log) == Completions(log) + Earned(c, AttemptEarns(a, life))
  {
    assert Completions(log) + [] == Completions(log);
    match a {
      case Denied => EmitNothing(c, log, TerminalOutcome(Some(c.taskId), Aborted));
      case Refused => RefusedCompletions(c, log);
      case Worked(w) => WorkCompletions(c, log, life, final, w);
      case Capped(w) =>
        WorkCompletions(c, log, life, final, w);
        CutOffCompletions(c, RunWork(c, log, life, final, w));
    }
  }

  lemma CutOffCompletions(c: Context, left: Left)
    ensures Completions(CutOff(c, left).log) == Completions(left.log)
  {
    EmitTwo(c, left.log, Other("budget_exceeded"), TerminalOutcome(Some(c.taskId), Aborted));
    assert Completions(left.log) + [] == Completions(left.log);
  }

  /** An attempt that earns the completion ends the lifecycle, so no later one does. */
  lemma EarningEnds(c: Context, log: Log, life: Life, final: bool, a: Attempt)
    requires AttemptEarns(a, life)
    ensures RunAttempt(c, log, life, final, a).life == Done
  {
    WorkLeaves(c, log, life, final, a.work);
  }

  lemma {:induction false} EarnsNothingMore(c: Context, log: Log, script: nat -> Attempt, k: nat, retries: nat)
    requires k <= retries
    ensures !LoopEarns(c, log, Done, script, k, retries)
    decreases retries - k
  {
    var left := RunAttempt(c, log, Done, k == retries, script(k));
    AttemptLeaves(c, log, Done, k == retries, script(k));
    if k < retries && GoesOn(c, log, left) {
      EarnsNothingMore(c, left.log, script, k + 1, retries);
    }
  }

  lemma JoinEarned(c: Context, before: seq<string>, first: bool, rest: bool)
    requires !(first && rest)
    ensures before + Earned(c, first) + Earned(c, rest) == before + Earned(c, first || rest)
  {
  }

  /** A dispatch puts at most one completion on record, that of its task. */
  lemma {:induction false} LoopCompletions(
    c: Context, log: Log, life: Life, script: nat -> Attempt, k: nat, retries: nat)
    requires k <= retries
    ensures Completions(Loop(c, log, life, script, k, retries).log) ==
            Completions(log) + Earned(c, LoopEarns(c, log, life, script, k, retries))
    decreases retries - k
  {
    var left := RunAttempt(c, log, life, k == retries, script(k));
    AttemptCompletions(c, log, life, k == retries, script(k));
    if k < retries && GoesOn(c, log, left) {
      LoopCompletions(c, left.log, left.life, script, k + 1, retries);
      if AttemptEarns(script(k), life) {
        EarningEnds(c, log, life, k == retries, script(k));
        EarnsNothingMore(c, left.log, script, k + 1, retries);
      }
      JoinEarned(c, Completions(log), AttemptEarns(script(k), life),
                 LoopEarns(c, left.log, left.life, script, k + 1, retries));
    }
  }

  predicate TurnEarns(log: Log, d: Turn) {
    LoopEarns(d.c, log, Queued, d.script, 0, d.retries)
  }

  /** What a turn of the plan does to the completions on record and to the task's branch. */
  function Effect(log: Log, d: Turn): Chain.Dispatch {
    var t := d.c.taskId;
    var tip := LoopTip(d.c, log, Queued, d.script, 0, d.retries);
    if TurnEarns(log, d) then
      match tip
      case WithWork => Chain.Completes(t)
      case AtBase => Chain.Uncommitted(t)
      case Gone => Chain.Dropped(t)
    else if tip == Gone then Chain.Denied(t)
    else Chain.Rejected(t)
  }

  lemma SettleCompletions(c: Context, e: End)
    ensures Completions(Settle(c, e).0) == Completions(e.log)
  {
    EmitNothing(c, e.log, TerminalOutcome(Some(c.taskId), Aborted));
  }

  lemma TurnCompletions(tasks: seq<Task>, log: Log, pick: nat, d: Turn)
    requires TurnOk(tasks, log, pick, d)
    ensures Completions(AfterTurn(log, d)) == Completions(log) + Earned(d.c, TurnEarns(log, d))
  {
    var e := Loop(d.c, log, Queued, d.script, 0, d.retries);
    LoopCompletions(d.c, log, Queued, d.script, 0, d.retries);
    SettleCompletions(d.c, e);
    LaterCompletions(Settle(d.c, e).0, d.later);
  }

  // --- git ---

  /** An attempt that does not get a worktree. */
  predicate NoWorktree(a: Attempt) {
    a.Denied? || (a.Worked? && a.work.Unstarted?)
  }

  /** When the branch to start from is missing, no attempt gets a worktree. */
  ghost predicate NeedsBase(tasks: seq<Task>, repo: Chain.Repo, d: Turn) {
    !Chain.HasBase(tasks, repo, d.c.taskId) ==> forall k :: NoWorktree(d.script(k))
  }

  lemma {:induction false} NothingStarts(c: Context, log: Log, life: Life, script: nat -> Attempt, k: nat, retries: nat)
    requires k <= retries && forall j :: NoWorktree(script(j))
    ensures !LoopEarns(c, log, life, script, k, retries) && LoopTip(c, log, life, script, k, retries) == Gone
    decreases retries - k
  {
    assert NoWorktree(script(k));
    var left := RunAttempt(c, log, life, k == retries, script(k));
    if k < retries && GoesOn(c, log, left) {
      NothingStarts(c, left.log, left.life, script, k + 1, retries);
    }
  }

  lemma WithoutBase(tasks: seq<Task>, repo: Chain.Repo, log: Log, d: Turn)
    requires !Chain.HasBase(tasks, repo, d.c.taskId) && NeedsBase(tasks, repo, d)
    ensures !TurnEarns(log, d) && Effect(log, d) == Chain.Denied(d.c.taskId)
  {
    NothingStarts(d.c, log, Queued, d.script, 0, d.retries);
  }

  lemma EffectRecords(tasks: seq<Task>, repo: Chain.Repo, log: Log, d: Turn)
    requires Chain.HasBase(tasks, repo, d.c.taskId) || !TurnEarns(log, d)
    ensures Chain.Step(tasks, repo, Effect(log, d)).completed == repo.completed + Earned(d.c, TurnEarns(log, d))
  {
    EffectKind(log, d);
    Recorded(tasks, repo, Effect(log, d));
    assert repo.completed + [] == repo.completed;
  }

  lemma EffectKind(log: Log, d: Turn)
    ensures Effect(log, d).task == d.c.taskId
    ensures Effect(log, d).Rejected? || Effect(log, d).Denied? <==> !TurnEarns(log, d)
  {
  }

  lemma Recorded(tasks: seq<Task>, repo: Chain.Repo, d: Chain.Dispatch)
    requires Chain.HasBase(tasks, repo, d.task) || d.Rejected? || d.Denied?
    ensures Chain.Step(tasks, repo, d).completed ==
            if d.Rejected? || d.Denied? then repo.completed else repo.completed + [d.task]
  {
  }

  /** The branches follow the log: both record the same completion, or none. */
  lemma StepFollows(tasks: seq<Task>, repo: Chain.Repo, log: Log, pick: nat, d: Turn)
    requires TurnOk(tasks, log, pick, d) && NeedsBase(tasks, repo, d) && repo.completed == Completions(log)
    ensures Chain.Step(tasks, repo, Effect(log, d)).completed == Completions(AfterTurn(log, d))
    ensures Effect(log, d).task == tasks[pick].id
  {
    TurnCompletions(tasks, log, pick, d);
    if !Chain.HasBase(tasks, repo, d.c.taskId) {
      WithoutBase(tasks, repo, log, d);
    }
    EffectKind(log, d);
    EffectRecords(tasks, repo, log, d);
  }

  // --- a plan listed in dependency order ---

  /** Every task comes after the tasks that it depends on. */
  predicate Ordered(tasks: seq<Task>) {
    DistinctIds(tasks) && forall i: nat, j: nat :: i < |tasks| && j < |tasks| && Edge(tasks, i, j) ==> i < j
  }

  lemma {:induction false} PathAscends(tasks: seq<Task>, path: seq<string>, p: nat) returns (q: nat)
    requires Ordered(tasks) && IsPath(tasks, path) && p < |tasks| && path[0] == tasks[p].id
    ensures p <= q < |tasks| && path[|path| - 1] == tasks[q].id
  {
    if |path| == 1 {
      q := p;
    } else {
      var front := path[..|path| - 1];
      assert IsPath(tasks, front);
      var r := PathAscends(tasks, front, p);
      assert Link(tasks, path[|path| - 2], path[|path| - 1]);
      var t :| t in tasks && t.id == path[|path| - 1] && path[|path| - 2] in t.deps;
      q :| 0 <= q < |tasks| && tasks[q] == t;
      assert Edge(tasks, r, q);
    }
  }

  /** Nothing that depends on a task stands before it. */
  lemma EarlierIsNoDescendant(tasks: seq<Task>, p: nat, q: nat)
    requires Ordered(tasks) && q < p < |tasks|
    ensures tasks[q].id !in DescendantsOf(tasks, tasks[p].id)
  {
    if Reaches(tasks, tasks[p].id, tasks[q].id) {
      var path :| IsPath(tasks, path) && path[0] == tasks[p].id && path[|path| - 1] == tasks[q].id;
      var r := PathAscends(tasks, path, p);
    }
  }

  lemma {:induction false} FirstsAscend(tasks: seq<Task>, settled: set<string>)
    ensures var p := Firsts(tasks, settled);
            Within(p, |tasks|) && forall a, b :: 0 <= a < b < |p| ==> p[a] < p[b]
  {
    if tasks != [] {
      FirstsAscend(tasks[..|tasks| - 1], settled);
    }
  }

  // --- the whole plan ---

  /** Nothing that depends on a task still to do has completed. */
  ghost predicate Unspoiled(tasks: seq<Task>, log: Log) {
    forall i, id :: i in Firsts(tasks, Settled(log)) && i < |tasks| && id in DescendantsOf(tasks, tasks[i].id) ==>
      id !in Completions(log)
  }

  function Effects(logs: seq<Log>, turns: seq<Turn>): seq<Chain.Dispatch>
    requires |turns| <= |logs|
  {
    seq(|turns|, k requires 0 <= k < |turns| => Effect(logs[k], turns[k]))
  }

  /** Every turn finds the branches as the turns before it have left them. */
  ghost predicate AllNeedBase(tasks: seq<Task>, repo: Chain.Repo, logs: seq<Log>, turns: seq<Turn>)
    requires |turns| <= |logs|
  {
    forall k :: 0 <= k < |turns| ==> NeedsBase(tasks, Chain.RunFrom(tasks, repo, Effects(logs, turns)[..k]), turns[k])
  }

  /** Whatever has completed by some turn had completed before, or was picked earlier. */
  ghost predicate Accounted(tasks: seq<Task>, start: seq<string>, picks: seq<nat>, completed: seq<string>) {
    forall id :: id in completed ==> id in start || PickedId(tasks, picks, id)
  }

  ghost predicate PickedId(tasks: seq<Task>, picks: seq<nat>, id: string) {
    exists j :: 0 <= j < |picks| && picks[j] < |tasks| && tasks[picks[j]].id == id
  }

  /** What is on record before and after each turn: the picked task is added, or nothing. */
  ghost predicate Records(tasks: seq<Task>, completed: seq<seq<string>>, picks: seq<nat>) {
    |completed| == |picks| + 1 && forall k: nat :: k < |picks| ==> Adds(tasks, completed[k], picks[k], completed[k + 1])
  }

  ghost predicate Adds(tasks: seq<Task>, before: seq<string>, pick: nat, after: seq<string>) {
    pick < |tasks| && (after == before || after == before + [tasks[pick].id])
  }

  lemma AccountedNext(
    tasks: seq<Task>, start: seq<string>, picks: seq<nat>, pick: nat, more: seq<nat>,
    before: seq<string>, after: seq<string>)
    requires Accounted(tasks, start, picks, before) && Adds(tasks, before, pick, after) && more == picks + [pick]
    ensures Accounted(tasks, start, more, after)
  {
    forall id | id in after && id !in start ensures PickedId(tasks, more, id) {
      if id in before {
        var j :| 0 <= j < |picks| && picks[j] < |tasks| && tasks[picks[j]].id == id;
        assert more[j] == picks[j];
      } else {
        assert more[|picks|] == pick;
      }
    }
  }

  lemma {:induction false} AllAccounted(tasks: seq<Task>, completed: seq<seq<string>>, picks: seq<nat>, k: nat)
    requires Records(tasks, completed, picks) && k <= |picks|
    ensures Accounted(tasks, completed[0], picks[..k], completed[k])
  {
    if k > 0 {
      AllAccounted(tasks, completed, picks, k - 1);
      assert picks[..k] == picks[..k - 1] + [picks[k - 1]];
      AccountedNext(tasks, completed[0], picks[..k - 1], picks[k - 1], picks[..k], completed[k - 1], completed[k]);
    }
  }

  lemma TurnAdds(tasks: seq<Task>, log: Log, pick: nat, d: Turn)
    requires TurnOk(tasks, log, pick, d)
    ensures Adds(tasks, Completions(log), pick, Completions(AfterTurn(log, d)))
  {
    TurnCompletions(tasks, log, pick, d);
    assert Completions(log) + [] == Completions(log);
  }

  lemma TurnsRecord(tasks: seq<Task>, logs: seq<Log>, picks: seq<nat>, turns: seq<Turn>)
    requires TurnsOk(tasks, logs, picks, turns)
    ensures Records(tasks, seq(|logs|, k requires 0 <= k < |logs| => Completions(logs[k])), picks)
  {
    forall k: nat | k < |picks| ensures Adds(tasks, Completions(logs[k]), picks[k], Completions(logs[k + 1])) {
      TurnAdds(tasks, logs[k], picks[k], turns[k]);
    }
  }

  lemma {:induction false} BranchesFollow(
    tasks: seq<Task>, repo: Chain.Repo, logs: seq<Log>, picks: seq<nat>, turns: seq<Turn>, k: nat)
    requires TurnsOk(tasks, logs, picks, turns) && repo.completed == Completions(logs[0])
    requires AllNeedBase(tasks, repo, logs, turns) && k <= |picks|
    ensures Chain.RunFrom(tasks, repo, Effects(logs, turns)[..k]).completed == Completions(logs[k])
  {
    var ds := Effects(logs, turns);
    if k > 0 {
      BranchesFollow(tasks, repo, logs, picks, turns, k - 1);
      assert ds[..k][..k - 1] == ds[..k - 1];
      StepFollows(tasks, Chain.RunFrom(tasks, repo, ds[..k - 1]), logs[k - 1], picks[k - 1], turns[k - 1]);
    }
  }

  /** What depends on the next task to do has not completed yet. */
  lemma NextIsFresh(
    tasks: seq<Task>, log: Log, picks: seq<nat>, completed: seq<string>, id: string)
    requires Ordered(tasks) && Unspoiled(tasks, log) && Accounted(tasks, Completions(log), picks, completed)
    requires var todo := Firsts(tasks, Settled(log)); |picks| < |todo| && picks == todo[..|picks|]
    requires var todo := Firsts(tasks, Settled(log));
             todo[|picks|] < |tasks| && id in DescendantsOf(tasks, tasks[todo[|picks|]].id)
    ensures id !in completed
  {
    var todo := Firsts(tasks, Settled(log));
    FirstsAscend(tasks, Settled(log));
    assert todo[|picks|] in todo;
    if id in completed {
      var j :| 0 <= j < |picks| && picks[j] < |tasks| && tasks[picks[j]].id == id;
      assert picks[j] == todo[j];
      EarlierIsNoDescendant(tasks, todo[|picks|], picks[j]);
    }
  }

  lemma TurnIsFresh(
    tasks: seq<Task>, repo: Chain.Repo, logs: seq<Log>, picks: seq<nat>, turns: seq<Turn>, k: nat)
    requires TurnsOk(tasks, logs, picks, turns) && repo.completed == Completions(logs[0])
    requires AllNeedBase(tasks, repo, logs, turns) && k < |picks|
    requires Ordered(tasks) && Unspoiled(tasks, logs[0])
    ensures Chain.Fresh(tasks, Chain.RunFrom(tasks, repo, Effects(logs, turns)[..k]), Effects(logs, turns)[k])
  {
    var todo := Firsts(tasks, Settled(logs[0]));
    PlanIsDriven(tasks, logs, picks, turns);
    BranchesFollow(tasks, repo, logs, picks, turns, k);
    TurnsRecord(tasks, logs, picks, turns);
    AllAccounted(tasks, seq(|logs|, j requires 0 <= j < |logs| => Completions(logs[j])), picks, k);
    EffectKind(logs[k], turns[k]);
    assert TurnOk(tasks, logs[k], picks[k], turns[k]) && picks[..k] == todo[..k] && picks[k] == todo[k];
    forall id | id in DescendantsOf(tasks, tasks[picks[k]].id) ensures id !in Completions(logs[k]) {
      NextIsFresh(tasks, logs[0], picks[..k], Completions(logs[k]), id);
    }
  }

  /**
   Driving a plan that lists its tasks in dependency order, with nothing completed yet of what depends on
   the tasks still to do, whatever becomes of each dispatch: in the end the branch of the latest completion has the
   work of every completed task exactly when it had at the start and no completion's own commit failed.
   */
  lemma PlanAccumulates(tasks: seq<Task>, repo: Chain.Repo, logs: seq<Log>, picks: seq<nat>, turns: seq<Turn>)
    requires TurnsOk(tasks, logs, picks, turns) && repo.completed == Completions(logs[0]) && Chain.Bounded(repo)
    requires AllNeedBase(tasks, repo, logs, turns)
    requires Ordered(tasks) && Unspoiled(tasks, logs[0])
    ensures var ds := Effects(logs, turns);
            var end := Chain.RunFrom(tasks, repo, ds);
            && end.completed == Completions(logs[|picks|])
            && (Chain.Accumulated(end) <==> Chain.Accumulated(repo) && Chain.NoneLoses(ds))
  {
    var ds := Effects(logs, turns);
    BranchesFollow(tasks, repo, logs, picks, turns, |picks|);
    assert ds[..|picks|] == ds;
    forall k | 0 <= k < |ds| ensures Chain.Onward(tasks, Chain.RunFrom(tasks, repo, ds[..k]), ds[k]) {
      TurnIsFresh(tasks, repo, logs, picks, turns, k);
    }
    Chain.OnwardRunsAccumulate(tasks, repo, ds);
  }

  lemma {:induction false} NoCompletions(log: Log)
    requires forall i :: 0 <= i < |log| ==> !log[i].payload.TerminalOutcome?
    ensures Completions(log) == []
  {
    if log != [] {
      NoCompletions(log[..|log| - 1]);
    }
  }

  /** From a log without terminals and a target without branches: all work is there at the end if no commit failed. */
  lemma NewPlanAccumulates(tasks: seq<Task>, logs: seq<Log>, picks: seq<nat>, turns: seq<Turn>)
    requires TurnsOk(tasks, logs, picks, turns) && AllNeedBase(tasks, Chain.Repo([], map[]), logs, turns)
    requires Ordered(tasks) && forall i :: 0 <= i < |logs[0]| ==> !logs[0][i].payload.TerminalOutcome?
    ensures Chain.Accumulated(Chain.Run(tasks, Effects(logs, turns))) <==> Chain.NoneLoses(Effects(logs, turns))
  {
    NoCompletions(logs[0]);
    PlanAccumulates(tasks, Chain.Repo([], map[]), logs, picks, turns);
  }

  lemma FirstOnly(c: Context, log: Log, script: nat -> Attempt, retries: nat)
    requires !GoesOn(c, log, RunAttempt(c, log, Queued, 0 == retries, script(0)))
    ensures LoopTip(c, log, Queued, script, 0, retries) == TipAfter(script(0), Queued)
    ensures LoopEarns(c, log, Queued, script, 0, retries) <==> AttemptEarns(script(0), Queued)
  {
  }

  lemma OneStops(c: Context, log: Log, left: Left)
    requires OneTerminal(c, log, left.log) && left.raised != Some(Transient)
    ensures !GoesOn(c, log, left)
  {
    OneTerminals(c, log, left.log);
  }

  lemma CertifiedStops(c: Context, log: Log, final: bool, commit: Option<Fault>)
    requires commit != Some(Transient)
    ensures !GoesOn(c, log, RunAttempt(c, log, Queued, final, Worked(Certified(commit))))
  {
    var left := RunWork(c, log, Queued, final, Certified(commit));
    WorkLeaves(c, log, Queued, final, Certified(commit));
    OneStops(c, log, left);
  }

  /** A certified first attempt: its commit decides whether the work is on the branch or lost. */
  lemma FirstTryEffect(log: Log, d: Turn, commit: Option<Fault>)
    requires d.script(0) == Worked(Certified(commit)) && commit != Some(Transient)
    ensures Effect(log, d) ==
            if commit == None then Chain.Completes(d.c.taskId) else Chain.Uncommitted(d.c.taskId)
  {
    CertifiedStops(d.c, log, 0 == d.retries, commit);
    FirstOnly(d.c, log, d.script, d.retries);
  }

  /** Without retries, each thing that can happen to the one attempt, and what it does to the record and the branch. */
  lemma SingleTryEffect(log: Log, d: Turn)
    requires d.retries == 0
    ensures var t := d.c.taskId;
            Effect(log, d) ==
            match d.script(0)
            case Denied => Chain.Denied(t)
            case Refused => Chain.Rejected(t)
            case Worked(Unstarted(_)) => Chain.Denied(t)
            case Worked(Certified(None)) => Chain.Completes(t)
            case Worked(Certified(Some(_))) => Chain.Uncommitted(t)
            case Worked(_) => Chain.Rejected(t)
            case Capped(Certified(_)) => Chain.Dropped(t)
            case Capped(_) => Chain.Denied(t)
  {
  }

  lemma BelowSecond(tasks: seq<Task>)
    requires tasks == [Task("b", ["a"]), Task("a", [])]
    ensures Reaches(tasks, "a", "b")
  {
    assert Link(tasks, "a", "b") by { assert tasks[0] in tasks; }
    ReachesItself(tasks, "a");
    ReachesFurther(tasks, "a", "a", "b");
  }

  /** A plan listed out of order: `b` is done first, and `a`, which it depends on, is built without its work. */
  lemma OutOfOrderExample()
    ensures var tasks := [Task("b", ["a"]), Task("a", [])];
            && Firsts(tasks, {}) == [0, 1]
            && !Chain.Accumulated(Chain.Run(tasks, [Chain.Completes("b"), Chain.Completes("a")]))
  {
    var tasks := [Task("b", ["a"]), Task("a", [])];
    TwoFirsts(tasks);
    OneBuilt(tasks);
    BelowSecond(tasks);
    Chain.RedriveLosesWork(tasks, Chain.Run(tasks, [Chain.Completes("b")]), "a", "b");
    assert [Chain.Completes("b"), Chain.Completes("a")][..1] == [Chain.Completes("b")];
  }

  lemma TwoFirsts(tasks: seq<Task>)
    requires tasks == [Task("b", ["a"]), Task("a", [])]
    ensures Firsts(tasks, {}) == [0, 1]
  {
    assert tasks[..1] == [Task("b", ["a"])] && tasks[..1][..0] == [];
    assert Firsts(tasks[..1], {}) == [0];
    assert !HasId(tasks[..1], "a");
  }

  lemma OneBuilt(tasks: seq<Task>)
    ensures var repo := Chain.Run(tasks, [Chain.Completes("b")]);
            Chain.Chained(repo) && repo.completed == ["b"]
  {
    var ds := [Chain.Completes("b")];
    assert ds[..0] == [] && Chain.Run(tasks, []) == Chain.Repo([], map[]);
    assert Chain.HasBase(tasks, Chain.Run(tasks, []), "b");
    forall n | 0 <= n < |ds| ensures Chain.Fresh(tasks, Chain.Run(tasks, ds[..n]), ds[n]) {
    }
    Chain.FreshRunsChain(tasks, ds);
  }
}
