/** Base-branch chaining for external targets (console/developer.py). */
module BranchChain {
  import opened Results
  import opened PlanGraph
  import opened Descendants

  /**
   The completed terminals of a correlation in build order, and what each scratch branch contains. A
   completion is known by its number in build order; a branch, by the completions whose work it has.
   */
  datatype Repo = Repo(completed: seq<string>, branches: map<string, set<nat>>)

  /** How a dispatch ended, as far as the completed terminals and the task's branch show it. */
  datatype Dispatch =
    | Completes(task: string)     // certified, and the change committed to the branch
    | Uncommitted(task: string)   // certified, but the commit failed: the branch stays at its base
    | Dropped(task: string)       // so, and then a further attempt deleted the branch without making a new one
    | Rejected(task: string)      // started without a completion: the branch stays at its base
    | Denied(task: string)        // nothing started: the old branch is deleted and no new one made
  {
    /** A completion is on record, and its work is on no branch. */
    predicate Loses() {
      Uncommitted? || Dropped?
    }
  }

  /** The position of the latest completion of a task outside the set. */
  function LatestOutside(completed: seq<string>, excluded: set<string>): (r: Option<nat>)
    ensures r.Some? ==> r.value < |completed| && completed[r.value] !in excluded
    ensures forall k :: (if r.Some? then r.value else -1) < k < |completed| ==> completed[k] in excluded
  {
    if completed == [] then None
    else if completed[|completed| - 1] !in excluded then Some(|completed| - 1)
    else LatestOutside(completed[..|completed| - 1], excluded)
  }

  ghost function BaseOf(tasks: seq<Task>, completed: seq<string>, task: string): Option<nat> {
    LatestOutside(completed, DescendantsOf(tasks, task))
  }

  /** `_latest_completed_branch`: the newest completion that is neither the task nor a descendant of it. */
  method LatestCompletedBranch(tasks: seq<Task>, completed: seq<string>, task: string) returns (base: Option<string>)
    ensures var p := BaseOf(tasks, completed, task);
      base == if p.Some? then Some(completed[p.value]) else None
  {
    var excluded := TransitiveDescendants(tasks, task);
    assert excluded == DescendantsOf(tasks, task);
    base := NewestOutside(completed, excluded);
  }

  /** The descending scan of the completed terminals. */
  method NewestOutside(completed: seq<string>, excluded: set<string>) returns (base: Option<string>)
    ensures var p := LatestOutside(completed, excluded);
      base == if p.Some? then Some(completed[p.value]) else None
  {
    var k := |completed|;
    assert completed[..k] == completed;
    while k > 0
      invariant 0 <= k <= |completed|
      invariant LatestOutside(completed, excluded) == LatestOutside(completed[..k], excluded)
    {
      k := k - 1;
      assert completed[..k + 1][..k] == completed[..k];
      if completed[k] !in excluded {
        return Some(completed[k]);
      }
    }
    base := None;
  }

  /** The branch that a new worktree would start from is there; without a base it is the target's own HEAD. */
  ghost predicate HasBase(tasks: seq<Task>, repo: Repo, task: string) {
    var p := BaseOf(tasks, repo.completed, task);
    p.Some? ==> repo.completed[p.value] in repo.branches
  }

  ghost function BaseWork(tasks: seq<Task>, repo: Repo, task: string): set<nat>
    requires HasBase(tasks, repo, task)
  {
    match BaseOf(tasks, repo.completed, task)
    case Some(p) => repo.branches[repo.completed[p]]
    case None => {}
  }

  /**
   The stale branch is deleted. Then, unless nothing starts or the base is missing, which starts nothing
   either, a new one is made on the base, and a certified change is committed to it.
   */
  ghost function Step(tasks: seq<Task>, repo: Repo, d: Dispatch): Repo {
    if d.Denied? || !HasBase(tasks, repo, d.task) then repo.(branches := repo.branches - {d.task})
    else
      var base := BaseWork(tasks, repo, d.task);
      match d
      case Completes(t) => Repo(repo.completed + [t], repo.branches[t := base + {|repo.completed|}])
      case Uncommitted(t) => Repo(repo.completed + [t], repo.branches[t := base])
      case Dropped(t) => Repo(repo.completed + [t], repo.branches - {t})
      case Rejected(t) => repo.(branches := repo.branches[t := base])
  }

  ghost function RunFrom(tasks: seq<Task>, repo: Repo, ds: seq<Dispatch>): Repo {
    if ds == [] then repo else Step(tasks, RunFrom(tasks, repo, ds[..|ds| - 1]), ds[|ds| - 1])
  }

  /** A run on a target without any completed task. */
  ghost function Run(tasks: seq<Task>, ds: seq<Dispatch>): Repo {
    RunFrom(tasks, Repo([], map[]), ds)
  }

  /** Completion `i` has not been replaced by a later completion of the same task. */
  predicate Current(completed: seq<string>, i: nat) {
    i < |completed| && completed[i] !in completed[i + 1..]
  }

  /** All current work is in the set. */
  ghost predicate HasCurrent(completed: seq<string>, work: set<nat>) {
    forall i: nat :: Current(completed, i) ==> i in work
  }

  /** The branch of the most recently completed task contains the current work of every completed task. */
  ghost predicate Accumulated(repo: Repo) {
    repo.completed == [] ||
    var last := repo.completed[|repo.completed| - 1];
    last in repo.branches && HasCurrent(repo.completed, repo.branches[last])
  }

  /** Nothing but the task itself completed after the completion that its base comes from. */
  ghost predicate NothingSkipped(tasks: seq<Task>, completed: seq<string>, task: string) {
    var p := BaseOf(tasks, completed, task);
    forall k :: (if p.Some? then p.value else -1) < k < |completed| ==> completed[k] == task
  }

  /** The branch of completion `n` contains what was current at `n`, and nothing later. */
  ghost predicate ChainedAt(repo: Repo, n: nat)
    requires n < |repo.completed|
  {
    && repo.completed[n] in repo.branches
    && (forall i: nat :: i in repo.branches[repo.completed[n]] ==> i <= n)
    && HasCurrent(repo.completed[..n + 1], repo.branches[repo.completed[n]])
  }

  /** So it is for the last completion of every completed task. */
  ghost predicate Chained(repo: Repo) {
    forall n: nat :: Current(repo.completed, n) ==> ChainedAt(repo, n)
  }

  lemma ChainedAccumulates(repo: Repo)
    requires Chained(repo)
    ensures Accumulated(repo)
  {
    if repo.completed != [] {
      var n := |repo.completed| - 1;
      assert Current(repo.completed, n);
      assert repo.completed[..n + 1] == repo.completed;
    }
  }

  /** The base is itself a current completion: later completions of its task would be outside the set too. */
  lemma BaseIsCurrent(tasks: seq<Task>, completed: seq<string>, task: string)
    requires BaseOf(tasks, completed, task).Some?
    ensures Current(completed, BaseOf(tasks, completed, task).value)
    ensures completed[BaseOf(tasks, completed, task).value] != task
  {
    ReachesItself(tasks, task);
  }

  lemma CurrentInPrefix(completed: seq<string>, t: string, m: nat, i: nat)
    requires Current(completed + [t], i) && i < m <= |completed|
    ensures Current(completed[..m], i)
  {
    var more := completed + [t];
    forall k | i < k < m ensures completed[k] != completed[i] {
      assert more[i + 1..][k - i - 1] == completed[k];
    }
  }

  lemma ChainedHasBase(tasks: seq<Task>, repo: Repo, t: string)
    requires Chained(repo)
    ensures HasBase(tasks, repo, t)
  {
    var p := BaseOf(tasks, repo.completed, t);
    if p.Some? {
      BaseIsCurrent(tasks, repo.completed, t);
      assert ChainedAt(repo, p.value);
    }
  }

  /** A completion keeps the chain exactly when its base skipped nothing but earlier work of the same task. */
  lemma CompletionChains(tasks: seq<Task>, repo: Repo, t: string)
    requires Chained(repo)
    ensures NothingSkipped(tasks, repo.completed, t) <==> Accumulated(Step(tasks, repo, Completes(t)))
    ensures NothingSkipped(tasks, repo.completed, t) ==> Chained(Step(tasks, repo, Completes(t)))
  {
    if NothingSkipped(tasks, repo.completed, t) {
      CompletionKeepsChain(tasks, repo, t);
      ChainedAccumulates(Step(tasks, repo, Completes(t)));
    } else {
      var p := BaseOf(tasks, repo.completed, t);
      var k :| (if p.Some? then p.value else -1) < k < |repo.completed| && repo.completed[k] != t;
      SkippedWorkIsMissing(tasks, repo, t, k);
    }
  }

  lemma CurrentIsOther(completed: seq<string>, t: string, i: nat)
    requires Current(completed + [t], i) && i < |completed|
    ensures completed[i] != t
  {
    assert (completed + [t])[i + 1..][|completed| - i - 1] == t;
  }

  /** The base has whatever is still current when the task completes. */
  lemma BaseHasCurrent(tasks: seq<Task>, repo: Repo, t: string, i: nat)
    requires Chained(repo) && NothingSkipped(tasks, repo.completed, t)
    requires Current(repo.completed + [t], i) && i < |repo.completed|
    ensures HasBase(tasks, repo, t) && i in BaseWork(tasks, repo, t)
  {
    CurrentIsOther(repo.completed, t, i);
    var base := BaseOf(tasks, repo.completed, t);
    assert base.Some? && i <= base.value;
    BaseIsCurrent(tasks, repo.completed, t);
    CurrentInPrefix(repo.completed, t, base.value + 1, i);
    ChainedHas(repo, base.value, i);
  }

  lemma ChainedHas(repo: Repo, n: nat, i: nat)
    requires Chained(repo) && Current(repo.completed, n) && Current(repo.completed[..n + 1], i)
    ensures repo.completed[n] in repo.branches && i in repo.branches[repo.completed[n]]
  {
    assert ChainedAt(repo, n);
  }

  lemma BaseIsBounded(tasks: seq<Task>, repo: Repo, t: string, i: nat)
    requires Chained(repo) && HasBase(tasks, repo, t) && i in BaseWork(tasks, repo, t)
    ensures i < |repo.completed|
  {
    BaseIsCurrent(tasks, repo.completed, t);
    assert ChainedAt(repo, BaseOf(tasks, repo.completed, t).value);
  }

  lemma NewBranchHasCurrent(tasks: seq<Task>, repo: Repo, t: string)
    requires Chained(repo) && NothingSkipped(tasks, repo.completed, t)
    ensures HasBase(tasks, repo, t)
    ensures HasCurrent(repo.completed + [t], BaseWork(tasks, repo, t) + {|repo.completed|})
  {
    ChainedHasBase(tasks, repo, t);
    forall i: nat | Current(repo.completed + [t], i) && i < |repo.completed| ensures i in BaseWork(tasks, repo, t) {
      BaseHasCurrent(tasks, repo, t, i);
    }
  }

  lemma NewBranchChained(tasks: seq<Task>, repo: Repo, t: string)
    requires Chained(repo) && NothingSkipped(tasks, repo.completed, t)
    ensures HasBase(tasks, repo, t) && ChainedAt(Step(tasks, repo, Completes(t)), |repo.completed|)
  {
    var len := |repo.completed|;
    NewBranchHasCurrent(tasks, repo, t);
    assert (repo.completed + [t])[..len + 1] == repo.completed + [t];
    forall i: nat | i in BaseWork(tasks, repo, t) ensures i < len {
      BaseIsBounded(tasks, repo, t, i);
    }
  }

  lemma OldBranchChained(tasks: seq<Task>, repo: Repo, t: string, n: nat)
    requires Chained(repo) && n < |repo.completed|
    requires Current(repo.completed + [t], n)
    ensures ChainedAt(Step(tasks, repo, Completes(t)), n)
  {
    ChainedHasBase(tasks, repo, t);
    var next := Step(tasks, repo, Completes(t));
    assert next.completed[n + 1..][|repo.completed| - n - 1] == t;
    CurrentInPrefix(repo.completed, t, |repo.completed|, n);
    assert repo.completed[..|repo.completed|] == repo.completed;
    assert next.completed[..n + 1] == repo.completed[..n + 1];
  }

  lemma CompletionKeepsChain(tasks: seq<Task>, repo: Repo, t: string)
    requires Chained(repo) && NothingSkipped(tasks, repo.completed, t)
    ensures Chained(Step(tasks, repo, Completes(t)))
  {
    ChainedHasBase(tasks, repo, t);
    var next := Step(tasks, repo, Completes(t));
    NewBranchChained(tasks, repo, t);
    forall n: nat | Current(next.completed, n) ensures ChainedAt(next, n) {
      if n < |repo.completed| {
        OldBranchChained(tasks, repo, t, n);
      }
    }
  }

  /** The last completion of a task; it is at or after any given one. */
  lemma {:induction false} LastOf(completed: seq<string>, k: nat) returns (i: nat)
    requires k < |completed|
    ensures k <= i && Current(completed, i) && completed[i] == completed[k]
    decreases |completed| - k
  {
    if Current(completed, k) {
      i := k;
    } else {
      var j :| 0 <= j < |completed| - (k + 1) && completed[k + 1..][j] == completed[k];
      i := LastOf(completed, k + 1 + j);
    }
  }

  lemma SkippedWorkIsMissing(tasks: seq<Task>, repo: Repo, t: string, k: nat)
    requires Chained(repo) && k < |repo.completed| && repo.completed[k] != t
    requires var p := BaseOf(tasks, repo.completed, t); p.Some? ==> p.value < k
    ensures !Accumulated(Step(tasks, repo, Completes(t)))
  {
    ChainedHasBase(tasks, repo, t);
    var next := Step(tasks, repo, Completes(t));
    var i := LastOf(repo.completed, k);
    var p := BaseOf(tasks, repo.completed, t);
    if p.Some? {
      BaseIsCurrent(tasks, repo.completed, t);
    }
    assert Current(next.completed, i) by {
      forall m | i < m < |next.completed| ensures next.completed[m] != next.completed[i] {
        if m < |repo.completed| {
          assert repo.completed[i + 1..][m - i - 1] == repo.completed[m];
        }
      }
    }
    assert i !in next.branches[t];
  }

  /** A rejected dispatch leaves the latest branch whole unless it was a re-drive of the latest completion itself. */
  lemma RejectionKeeps(tasks: seq<Task>, repo: Repo, t: string)
    requires Chained(repo) && repo.completed != []
    ensures Accumulated(Step(tasks, repo, Rejected(t))) <==> repo.completed[|repo.completed| - 1] != t
  {
    ChainedAccumulates(repo);
    ChainedHasBase(tasks, repo, t);
    var n := |repo.completed| - 1;
    assert Current(repo.completed, n);
    if repo.completed[n] == t && BaseOf(tasks, repo.completed, t).Some? {
      BaseIsCurrent(tasks, repo.completed, t);
    }
  }

  /** The base of a new worktree comes from a completion of the task. */
  ghost predicate BasedOn(tasks: seq<Task>, completed: seq<string>, u: string, t: string) {
    var p := BaseOf(tasks, completed, u);
    p.Some? && completed[p.value] == t
  }

  /**
   A denied re-drive takes a task's branch away for good: what would be based on it has no base, and nothing can be
   built on it until the task has been driven again.
   */
  lemma DenialRemovesBase(tasks: seq<Task>, repo: Repo, t: string, u: string)
    ensures var next := Step(tasks, repo, Denied(t));
            && (HasBase(tasks, next, u) <==> HasBase(tasks, repo, u) && !BasedOn(tasks, repo.completed, u, t))
            && (BasedOn(tasks, repo.completed, u, t) ==> Step(tasks, next, Completes(u)).completed == repo.completed)
  {
  }

  /** A rejected one leaves the branch there, at its own base: what is built on it starts from that work. */
  lemma RejectionKeepsBase(tasks: seq<Task>, repo: Repo, t: string, u: string)
    requires HasBase(tasks, repo, t)
    ensures var next := Step(tasks, repo, Rejected(t));
            && (HasBase(tasks, next, u) <==> HasBase(tasks, repo, u) || BasedOn(tasks, repo.completed, u, t))
            && (BasedOn(tasks, repo.completed, u, t) ==> BaseWork(tasks, next, u) == BaseWork(tasks, repo, t))
  {
  }

  /** A dispatch touches no branch but its task's. */
  lemma OthersUntouched(tasks: seq<Task>, repo: Repo, d: Dispatch, other: string)
    requires other != d.task
    ensures var next := Step(tasks, repo, d);
            && (other in next.branches <==> other in repo.branches)
            && (other in repo.branches ==> next.branches[other] == repo.branches[other])
  {
  }

  // --- whole runs ---

  /** Neither the task nor any declared descendant of it has completed. */
  ghost predicate Fresh(tasks: seq<Task>, repo: Repo, d: Dispatch) {
    forall id :: id in DescendantsOf(tasks, d.task) ==> id !in repo.completed
  }

  /** A fresh dispatch is based on the immediately preceding completion. */
  lemma FreshTakesLatest(tasks: seq<Task>, repo: Repo, d: Dispatch)
    requires Fresh(tasks, repo, d)
    ensures BaseOf(tasks, repo.completed, d.task) == if repo.completed == [] then None else Some(|repo.completed| - 1)
    ensures d.task !in repo.completed
  {
    ReachesItself(tasks, d.task);
    if repo.completed != [] {
      assert repo.completed[|repo.completed| - 1] in repo.completed;
    }
  }

  /** A fresh dispatch, or one without a completion of anything but the task that completed last. */
  ghost predicate Onward(tasks: seq<Task>, repo: Repo, d: Dispatch) {
    Fresh(tasks, repo, d) ||
    ((d.Rejected? || d.Denied?) && repo.completed != [] && repo.completed[|repo.completed| - 1] != d.task)
  }

  ghost predicate OnwardRun(tasks: seq<Task>, repo: Repo, ds: seq<Dispatch>) {
    forall n :: 0 <= n < |ds| ==> Onward(tasks, RunFrom(tasks, repo, ds[..n]), ds[n])
  }

  predicate NoneLoses(ds: seq<Dispatch>) {
    forall n :: 0 <= n < |ds| ==> !ds[n].Loses()
  }

  /** No branch has work that is not on record. */
  ghost predicate Bounded(repo: Repo) {
    forall id, i :: id in repo.branches && i in repo.branches[id] ==> i < |repo.completed|
  }

  lemma StepBounded(tasks: seq<Task>, repo: Repo, d: Dispatch)
    requires Bounded(repo)
    ensures Bounded(Step(tasks, repo, d))
  {
  }

  lemma CurrentUnlessRedone(completed: seq<string>, t: string, i: nat)
    requires t !in completed && i < |completed|
    ensures Current(completed + [t], i) <==> Current(completed, i)
  {
    var more := completed + [t];
    assert more[i + 1..] == completed[i + 1..] + [t];
    assert more[i] == completed[i] && completed[i] in completed;
  }

  lemma CurrentGrows(completed: seq<string>, t: string, base: set<nat>)
    requires t !in completed
    ensures HasCurrent(completed + [t], base + {|completed|}) <==> HasCurrent(completed, base)
  {
    forall i: nat | i < |completed| ensures Current(completed + [t], i) <==> Current(completed, i) {
      CurrentUnlessRedone(completed, t, i);
    }
  }

  lemma NothingCompleted(completed: seq<string>, work: set<nat>)
    requires completed == []
    ensures HasCurrent(completed, work)
  {
  }

  lemma CommitGrows(repo: Repo, t: string, base: set<nat>, next: Repo)
    requires t !in repo.completed && (repo.completed == [] || repo.completed[|repo.completed| - 1] in repo.branches)
    requires repo.completed != [] ==> base == repo.branches[repo.completed[|repo.completed| - 1]]
    requires next.completed == repo.completed + [t]
    requires t in next.branches && next.branches[t] == base + {|repo.completed|}
    ensures Accumulated(next) <==> Accumulated(repo)
  {
    CurrentGrows(repo.completed, t, base);
    if repo.completed == [] {
      NothingCompleted(repo.completed, base);
    }
  }

  lemma FreshCompletionKeeps(tasks: seq<Task>, repo: Repo, t: string)
    requires Fresh(tasks, repo, Completes(t)) && HasBase(tasks, repo, t)
    ensures Accumulated(Step(tasks, repo, Completes(t))) <==> Accumulated(repo)
  {
    FreshTakesLatest(tasks, repo, Completes(t));
    CommitGrows(repo, t, BaseWork(tasks, repo, t), Step(tasks, repo, Completes(t)));
  }

  /** A completion whose work is on no branch is missing from its own branch already. */
  lemma LossShows(tasks: seq<Task>, repo: Repo, d: Dispatch)
    requires Bounded(repo) && d.Loses() && HasBase(tasks, repo, d.task)
    ensures !Accumulated(Step(tasks, repo, d))
  {
    var next, len := Step(tasks, repo, d), |repo.completed|;
    assert Current(next.completed, len);
    assert next.completed[|next.completed| - 1] == d.task;
  }

  /** Without a completion only the dispatched task's own branch changes. */
  lemma OtherBranchKeeps(tasks: seq<Task>, repo: Repo, d: Dispatch)
    requires d.Rejected? || d.Denied? || !HasBase(tasks, repo, d.task)
    requires repo.completed == [] || repo.completed[|repo.completed| - 1] != d.task
    ensures Accumulated(Step(tasks, repo, d)) <==> Accumulated(repo)
  {
  }

  /** A missing base is the branch of the latest completion, if the dispatch is fresh. */
  lemma FreshWithoutBase(tasks: seq<Task>, repo: Repo, d: Dispatch)
    requires Fresh(tasks, repo, d)
    ensures !HasBase(tasks, repo, d.task) ==> !Accumulated(repo)
    ensures repo.completed == [] || repo.completed[|repo.completed| - 1] != d.task
  {
    FreshTakesLatest(tasks, repo, d);
    if repo.completed != [] {
      assert repo.completed[|repo.completed| - 1] in repo.completed;
    }
  }

  lemma OnwardKeeps(tasks: seq<Task>, repo: Repo, d: Dispatch)
    requires Bounded(repo) && Onward(tasks, repo, d)
    ensures Accumulated(Step(tasks, repo, d)) <==> Accumulated(repo) && !d.Loses()
  {
    if Fresh(tasks, repo, d) {
      FreshWithoutBase(tasks, repo, d);
    }
    if d.Rejected? || d.Denied? || !HasBase(tasks, repo, d.task) {
      OtherBranchKeeps(tasks, repo, d);
    } else if d.Completes? {
      FreshCompletionKeeps(tasks, repo, d.task);
    } else {
      LossShows(tasks, repo, d);
    }
  }

  lemma OnwardFront(tasks: seq<Task>, repo: Repo, ds: seq<Dispatch>)
    requires OnwardRun(tasks, repo, ds) && ds != []
    ensures OnwardRun(tasks, repo, ds[..|ds| - 1])
    ensures Onward(tasks, RunFrom(tasks, repo, ds[..|ds| - 1]), ds[|ds| - 1])
  {
    var front := ds[..|ds| - 1];
    forall n | 0 <= n < |front| ensures Onward(tasks, RunFrom(tasks, repo, front[..n]), front[n]) {
      assert front[..n] == ds[..n];
    }
  }

  /**
   From any state in which no branch has unrecorded work, a run of such dispatches ends with all
   completed work on the latest branch exactly when it was there before and no dispatch lost its own:
   what an earlier re-drive or a failed commit has lost does not come back.
   */
  lemma {:induction false} OnwardRunsAccumulate(tasks: seq<Task>, repo: Repo, ds: seq<Dispatch>)
    requires Bounded(repo) && OnwardRun(tasks, repo, ds)
    ensures Bounded(RunFrom(tasks, repo, ds))
    ensures Accumulated(RunFrom(tasks, repo, ds)) <==> Accumulated(repo) && NoneLoses(ds)
  {
    if ds != [] {
      var front, d := ds[..|ds| - 1], ds[|ds| - 1];
      OnwardFront(tasks, repo, ds);
      OnwardRunsAccumulate(tasks, repo, front);
      StepBounded(tasks, RunFrom(tasks, repo, front), d);
      OnwardKeeps(tasks, RunFrom(tasks, repo, front), d);
      assert ds == front + [d];
    }
  }

  ghost predicate FreshRun(tasks: seq<Task>, ds: seq<Dispatch>) {
    forall n :: 0 <= n < |ds| ==> Fresh(tasks, Run(tasks, ds[..n]), ds[n])
  }

  /**
   In a run of fresh dispatches the latest completed branch has the work of every completed task
   exactly when every completion's own commit went through.
   */
  lemma FreshRunsAccumulate(tasks: seq<Task>, ds: seq<Dispatch>)
    requires FreshRun(tasks, ds)
    ensures Accumulated(Run(tasks, ds)) <==> NoneLoses(ds)
  {
    forall n | 0 <= n < |ds| ensures Onward(tasks, RunFrom(tasks, Repo([], map[]), ds[..n]), ds[n]) {
      assert Fresh(tasks, Run(tasks, ds[..n]), ds[n]);
    }
    OnwardRunsAccumulate(tasks, Repo([], map[]), ds);
  }

  lemma FreshStepChains(tasks: seq<Task>, repo: Repo, d: Dispatch)
    requires Chained(repo) && Fresh(tasks, repo, d) && !d.Loses()
    ensures Chained(Step(tasks, repo, d))
  {
    FreshTakesLatest(tasks, repo, d);
    ChainedHasBase(tasks, repo, d.task);
    if d.Completes? {
      CompletionChains(tasks, repo, d.task);
    } else {
      var next := Step(tasks, repo, d);
      forall n: nat | Current(next.completed, n) ensures ChainedAt(next, n) {
        assert ChainedAt(repo, n) && repo.completed[n] in repo.completed;
      }
    }
  }

  /** And then each branch has what was current when its task completed. */
  lemma {:induction false} FreshRunsChain(tasks: seq<Task>, ds: seq<Dispatch>)
    requires FreshRun(tasks, ds) && NoneLoses(ds)
    ensures Chained(Run(tasks, ds))
  {
    if ds != [] {
      var front := ds[..|ds| - 1];
      forall n | 0 <= n < |front| ensures Fresh(tasks, Run(tasks, front[..n]), front[n]) {
        assert front[..n] == ds[..n];
      }
      FreshRunsChain(tasks, front);
      FreshStepChains(tasks, Run(tasks, front), ds[|ds| - 1]);
    }
  }

  /** Re-driving a task right after something that depends on it has completed loses that later work. */
  lemma RedriveLosesWork(tasks: seq<Task>, repo: Repo, t: string, dependent: string)
    requires Chained(repo) && repo.completed != [] && repo.completed[|repo.completed| - 1] == dependent
    requires dependent != t && Reaches(tasks, t, dependent)
    ensures !Accumulated(Step(tasks, repo, Completes(t)))
  {
    assert dependent in DescendantsOf(tasks, t);
    assert !NothingSkipped(tasks, repo.completed, t);
    CompletionChains(tasks, repo, t);
  }

  /** `a` and then `b`, which depends on it. */
  lemma TwoBuilt(tasks: seq<Task>)
    requires tasks == [Task("a", []), Task("b", ["a"])]
    ensures Chained(Run(tasks, [Completes("a"), Completes("b")]))
    ensures Run(tasks, [Completes("a"), Completes("b")]).completed == ["a", "b"]
  {
    var ds := [Completes("a"), Completes("b")];
    assert ds[..0] == [] && ds[..1] == [Completes("a")] && [Completes("a")][..0] == [];
    assert Run(tasks, []) == Repo([], map[]) && HasBase(tasks, Run(tasks, []), "a");
    var one := Run(tasks, [Completes("a")]);
    assert one.completed == ["a"];
    NothingBelow(tasks, "b", "a");
    assert Fresh(tasks, one, Completes("b"));
    forall n | 0 <= n < |ds| ensures Fresh(tasks, Run(tasks, ds[..n]), ds[n]) {
    }
    FreshRunsChain(tasks, ds);
    FreshRunsChain(tasks, ds[..1]);
    ChainedHasBase(tasks, one, "b");
  }

  lemma NothingBelow(tasks: seq<Task>, b: string, a: string)
    requires tasks == [Task(a, []), Task(b, [a])] && a != b
    ensures a !in DescendantsOf(tasks, b)
  {
    assert Closed(tasks, {b});
    if Reaches(tasks, b, a) {
      var path :| IsPath(tasks, path) && path[0] == b && path[|path| - 1] == a;
      ClosedContainsPath(tasks, {b}, path);
    }
  }

  lemma SecondBelowFirst(tasks: seq<Task>)
    requires tasks == [Task("a", []), Task("b", ["a"])]
    ensures Reaches(tasks, "a", "b")
  {
    assert Link(tasks, "a", "b") by { assert tasks[1] in tasks; }
    ReachesItself(tasks, "a");
    ReachesFurther(tasks, "a", "a", "b");
  }

  /** A concrete case: `a`, then `b` that depends on it, then `a` again. */
  lemma RedriveExample()
    ensures var tasks := [Task("a", []), Task("b", ["a"])];
            var built := Run(tasks, [Completes("a"), Completes("b")]);
            Accumulated(built) && !Accumulated(Step(tasks, built, Completes("a")))
  {
    var tasks := [Task("a", []), Task("b", ["a"])];
    var built := Run(tasks, [Completes("a"), Completes("b")]);
    TwoBuilt(tasks);
    ChainedAccumulates(built);
    SecondBelowFirst(tasks);
    RedriveLosesWork(tasks, built, "a", "b");
  }
}
