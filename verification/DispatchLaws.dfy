/** What every dispatch leaves in the log, and when the monitor flags it (console/developer.py). */
module DispatchLaws {
  import opened Results
  import opened LogEvents
  import opened Monitor
  import opened Dispatch
  import PlanGraph
  import PlanProgress

  /** The terminals of a task at or after position `from`. */
  function Terminals(log: Log, t: string, from: nat): nat {
    if |log| <= from then 0
    else Terminals(log[..|log| - 1], t, from) + if Ends(log[|log| - 1].payload, t) then 1 else 0
  }

  lemma {:induction false} TerminalsSplit(log: Log, more: Log, t: string, from: nat)
    requires from <= |log|
    ensures Terminals(log + more, t, from) == Terminals(log, t, from) + Terminals(log + more, t, |log|)
  {
    if more == [] {
      assert log + more == log;
    } else {
      var front := more[..|more| - 1];
      assert (log + more)[..|log + more| - 1] == log + front;
      TerminalsSplit(log, front, t, from);
    }
  }

  lemma TerminalsAdd(log0: Log, log: Log, next: Log, t: string)
    requires log0 <= log <= next
    ensures Terminals(next, t, |log0|) == Terminals(log, t, |log0|) + Terminals(next, t, |log|)
  {
    assert next == log + next[|log|..];
    TerminalsSplit(log, next[|log|..], t, |log0|);
  }

  /** The log grew by rows that are no terminals and mark no other task. */
  ghost predicate Quiet(c: Context, log0: Log, log: Log) {
    log0 <= log && forall i: nat :: |log0| <= i < |log| ==>
      !log[i].payload.TerminalOutcome? &&
      (log[i].payload.TaskStarted? ==> log[i].payload.taskId == Some(c.taskId))
  }

  /** The log grew by such rows and one terminal of the task, which is not an unearned completion. */
  ghost predicate OneTerminal(c: Context, log0: Log, log: Log) {
    |log0| < |log| && Quiet(c, log0, log[..|log| - 1]) &&
    Ends(log[|log| - 1].payload, c.taskId) && !Unearned(log, |log| - 1)
  }

  lemma {:induction false} QuietTerminals(c: Context, log0: Log, log: Log)
    requires Quiet(c, log0, log)
    ensures Terminals(log, c.taskId, |log0|) == 0
    ensures TerminalSince(log, c.taskId, |log0|) == None
  {
    if |log0| < |log| {
      QuietTerminals(c, log0, log[..|log| - 1]);
    }
  }

  lemma OneTerminals(c: Context, log0: Log, log: Log)
    requires OneTerminal(c, log0, log)
    ensures log0 <= log && Terminals(log, c.taskId, |log0|) == 1
    ensures TerminalSince(log, c.taskId, |log0|) == Some(log[|log| - 1].payload.outcome)
  {
    QuietTerminals(c, log0, log[..|log| - 1]);
    assert log == log[..|log| - 1] + [log[|log| - 1]];
  }

  lemma QuietThen(c: Context, log0: Log, log: Log, next: Log)
    requires Quiet(c, log0, log)
    ensures Quiet(c, log, next) ==> Quiet(c, log0, next)
    ensures OneTerminal(c, log, next) ==> OneTerminal(c, log0, next)
  {
    if OneTerminal(c, log, next) {
      var front := next[..|next| - 1];
      forall i: nat | |log0| <= i < |front|
        ensures !front[i].payload.TerminalOutcome? &&
                (front[i].payload.TaskStarted? ==> front[i].payload.taskId == Some(c.taskId))
      {
        if i < |log| {
          assert front[i] == log[i];
        }
      }
    }
  }

  // --- one attempt ---

  /** The work reaches the task's terminal. */
  predicate Finishes(w: Work, life: Life, final: bool) {
    life == Queued &&
    match w
    case Declined => true
    case Certified(_) => true
    case Failing(retryable, rewind) => rewind.None? && (final || !retryable)
    case _ => false
  }

  /** Something happens after the work has left its terminal: the branch commit raises, or a cap cuts it off. */
  predicate Late(a: Attempt, life: Life, final: bool) {
    match a
    case Worked(w) => life == Queued && w.Certified? && w.commit.Some?
    case Capped(w) => Finishes(w, life, final)
    case _ => false
  }

  lemma EmitQuiet(c: Context, log: Log, b: Body)
    requires !b.TerminalOutcome? && (b.TaskStarted? ==> b.taskId == Some(c.taskId))
    ensures Quiet(c, log, Emit(c, log, b))
  {
  }

  lemma EmitOne(c: Context, log0: Log, log: Log, o: LogEvents.Outcome)
    requires Quiet(c, log0, log) && (o == Completed ==> EarnedBy(log, c.taskId, |log|))
    ensures OneTerminal(c, log0, EmitTerminal(c, log, o))
  {
    var next := EmitTerminal(c, log, o);
    EarnedLocal(log, [next[|log|]], c.taskId, |log|);
    assert next == log + [next[|log|]];
  }

  lemma CertifiedIsEarned(c: Context, log: Log)
    requires log != [] && log[|log| - 1].payload == TaskStarted(Some(c.taskId))
    ensures var certified := Emit(c, Emit(c, log, VerifierOutcome(Some(c.taskId), true)), ReviewerCertified(Some(c.taskId)));
            EarnedBy(certified, c.taskId, |certified|)
  {
    var t := c.taskId;
    var passed := Emit(c, log, VerifierOutcome(Some(t), true));
    var certified := Emit(c, passed, ReviewerCertified(Some(t)));
    assert certified[|log| - 1] == log[|log| - 1] && certified[|log|] == passed[|log|];
    assert AttemptOpens(certified, t, |log|) == |log|;
    assert AttemptOpens(certified, t, |log| + 1) == |log|;
    assert AttemptOpens(certified, t, |log| + 2) == |log|;
    assert Passes(certified[|log|].payload, t) && Certifies(certified[|log| + 1].payload, t);
  }

  /** What a piece of work leaves: a terminal if it finishes, which ends the lifecycle, and else none. */
  ghost predicate WorkWell(c: Context, log0: Log, life: Life, left: Left, finishes: bool) {
    if finishes then OneTerminal(c, log0, left.log) && left.life == Done
    else Quiet(c, log0, left.log) && (left.life == Done <==> life == Done)
  }

  lemma NotBoth(c: Context, log0: Log, log: Log)
    ensures !(Quiet(c, log0, log) && OneTerminal(c, log0, log))
  {
  }

  lemma ReviewLeaves(c: Context, log0: Log, log: Log, final: bool, w: Work)
    requires Quiet(c, log0, log) && |log0| < |log| && log[|log| - 1].payload == TaskStarted(Some(c.taskId))
    requires !w.Failing?
    ensures WorkWell(c, log0, Queued, Review(c, Emit(c, log, VerifierOutcome(Some(c.taskId), true)), w),
                     Finishes(w, Queued, final))
    ensures w.Certified? ==> Review(c, Emit(c, log, VerifierOutcome(Some(c.taskId), true)), w).raised == w.commit
    ensures w.Declined? ==> Review(c, Emit(c, log, VerifierOutcome(Some(c.taskId), true)), w).raised == None
  {
    var passed := Emit(c, log, VerifierOutcome(Some(c.taskId), true));
    EmitQuiet(c, log, VerifierOutcome(Some(c.taskId), true));
    QuietThen(c, log0, log, passed);
    match w {
      case Declined =>
        var declined := Emit(c, passed, Other("reviewer_rejected"));
        EmitQuiet(c, passed, Other("reviewer_rejected"));
        QuietThen(c, log0, passed, declined);
        EmitOne(c, log0, declined, Rejected);
      case Certified(_) =>
        var certified := Emit(c, passed, ReviewerCertified(Some(c.taskId)));
        EmitQuiet(c, passed, ReviewerCertified(Some(c.taskId)));
        QuietThen(c, log0, passed, certified);
        CertifiedIsEarned(c, log);
        EmitOne(c, log0, certified, Completed);
      case _ =>
    }
  }

  lemma FailingLeaves(c: Context, log0: Log, log: Log, final: bool, w: Work)
    requires Quiet(c, log0, log) && w.Failing?
    ensures WorkWell(c, log0, Queued, Accept(c, log, final, w), Finishes(w, Queued, final))
    ensures Finishes(w, Queued, final) ==> Accept(c, log, final, w).raised == None
  {
    var failed := Emit(c, log, VerifierOutcome(Some(c.taskId), false));
    EmitQuiet(c, log, VerifierOutcome(Some(c.taskId), false));
    QuietThen(c, log0, log, failed);
    EmitOne(c, log0, failed, Rejected);
  }

  /** Work leaves a terminal exactly when it finishes, and raises after it only when the commit fails. */
  lemma WorkLeaves(c: Context, log: Log, life: Life, final: bool, w: Work)
    ensures var left := RunWork(c, log, life, final, w);
            && WorkWell(c, log, life, left, Finishes(w, life, final))
            && (Finishes(w, life, final) ==> left.raised == if w.Certified? then w.commit else None)
  {
    var started := Emit(c, log, TaskStarted(Some(c.taskId)));
    EmitQuiet(c, log, TaskStarted(Some(c.taskId)));
    if !w.Unstarted? && !w.Unbuilt? && life == Queued {
      match w {
        case Unverified(_) =>
        case Failing(_, _) => FailingLeaves(c, log, started, final, w);
        case _ => ReviewLeaves(c, log, started, final, w);
      }
    }
  }

  lemma CutOffLeaves(c: Context, log0: Log, life: Life, left: Left, finishes: bool)
    requires WorkWell(c, log0, life, left, finishes)
    ensures var cut := CutOff(c, left);
            && TerminalSince(cut.log, c.taskId, |log0|) == Some(Aborted)
            && (finishes ==> log0 <= cut.log && Terminals(cut.log, c.taskId, |log0|) == 2)
            && (!finishes ==> OneTerminal(c, log0, cut.log))
  {
    var noted := Emit(c, left.log, Other("budget_exceeded"));
    EmitQuiet(c, left.log, Other("budget_exceeded"));
    EmitOne(c, left.log, noted, Aborted);
    var cut := EmitTerminal(c, noted, Aborted);
    OneTerminals(c, left.log, cut);
    if finishes {
      OneTerminals(c, log0, left.log);
      TerminalsAdd(log0, left.log, cut, c.taskId);
    } else {
      QuietThen(c, log0, left.log, noted);
      EmitOne(c, log0, noted, Aborted);
    }
  }

  /**
   What an attempt leaves. A late one has left a terminal, ended the lifecycle, and either raises or has
   left a second terminal; any other leaves at most one, as its last row, and raises only without it.
   */
  ghost predicate LeftWell(c: Context, log0: Log, life: Life, left: Left, late: bool) {
    if late then
      && left.life == Done && log0 <= left.log
      && Terminals(left.log, c.taskId, |log0|) == (if left.raised.Some? then 1 else 2)
      && TerminalSince(left.log, c.taskId, |log0|).Some?
    else
      && (Quiet(c, log0, left.log) || (OneTerminal(c, log0, left.log) && left.raised.None?))
      && (life == Done ==> left.life == Done)
      && (life != Done && Quiet(c, log0, left.log) ==> left.life != Done)
  }

  lemma WorkedLeaves(c: Context, log: Log, life: Life, final: bool, w: Work)
    ensures LeftWell(c, log, life, RunWork(c, log, life, final, w), Late(Worked(w), life, final))
  {
    var left := RunWork(c, log, life, final, w);
    WorkLeaves(c, log, life, final, w);
    NotBoth(c, log, left.log);
    if Late(Worked(w), life, final) {
      OneTerminals(c, log, left.log);
    }
  }

  /** An attempt leaves at most one terminal, as its last row and never an unearned completion, unless it is late. */
  lemma AttemptLeaves(c: Context, log: Log, life: Life, final: bool, a: Attempt)
    ensures LeftWell(c, log, life, RunAttempt(c, log, life, final, a), Late(a, life, final))
  {
    var left := RunAttempt(c, log, life, final, a);
    NotBoth(c, log, left.log);
    match a {
      case Denied => EmitOne(c, log, log, Aborted);
      case Refused =>
        EmitQuiet(c, log, TaskStarted(Some(c.taskId)));
        EmitOne(c, log, Emit(c, log, TaskStarted(Some(c.taskId))), Rejected);
      case Worked(w) => WorkedLeaves(c, log, life, final, w);
      case Capped(w) =>
        WorkLeaves(c, log, life, final, w);
        CutOffLeaves(c, log, life, RunWork(c, log, life, final, w), Finishes(w, life, final));
    }
  }

  // --- the whole loop ---

  /** Some attempt that the loop gets to is late. */
  predicate LateRun(c: Context, log: Log, life: Life, script: nat -> Attempt, k: nat, retries: nat)
    requires k <= retries
    decreases retries - k
  {
    var left := RunAttempt(c, log, life, k == retries, script(k));
    Late(script(k), life, k == retries) ||
    (k < retries && GoesOn(c, log, left) && LateRun(c, left.log, left.life, script, k + 1, retries))
  }

  ghost predicate CleanEnd(c: Context, log0: Log, e: End) {
    match e.terminal
    case Some(o) => OneTerminal(c, log0, e.log) && e.log[|e.log| - 1].payload.outcome == o
    case None => Quiet(c, log0, e.log) && e.life != Done
  }

  lemma RoundEnds(c: Context, log0: Log, log: Log, left: Left)
    requires Quiet(c, log0, log) && OneTerminal(c, log, left.log) && left.raised.None?
    ensures CleanEnd(c, log0, End(left.log, left.life, TerminalLeft(c, log, left)))
    ensures TerminalLeft(c, log, left).Some?
  {
    QuietThen(c, log0, log, left.log);
    OneTerminals(c, log, left.log);
  }

  lemma RoundPasses(c: Context, log0: Log, log: Log, left: Left)
    requires Quiet(c, log0, log) && Quiet(c, log, left.log) && left.life != Done
    ensures CleanEnd(c, log0, End(left.log, left.life, TerminalLeft(c, log, left)))
    ensures TerminalLeft(c, log, left).None?
  {
    QuietThen(c, log0, log, left.log);
    QuietTerminals(c, log, left.log);
  }

  /** An attempt after which the loop goes on left no terminal, unless it was late. */
  lemma RoundLeaves(c: Context, log0: Log, log: Log, life: Life, final: bool, a: Attempt)
    requires Quiet(c, log0, log) && !Late(a, life, final) && life != Done
    ensures var left := RunAttempt(c, log, life, final, a);
            && CleanEnd(c, log0, End(left.log, left.life, TerminalLeft(c, log, left)))
            && (GoesOn(c, log, left) ==> TerminalLeft(c, log, left).None?)
  {
    var left := RunAttempt(c, log, life, final, a);
    AttemptLeaves(c, log, life, final, a);
    if OneTerminal(c, log, left.log) {
      NotBoth(c, log, left.log);
      RoundEnds(c, log0, log, left);
    } else {
      RoundPasses(c, log0, log, left);
    }
  }

  lemma {:induction false} LoopClean(
    c: Context, log0: Log, log: Log, life: Life, script: nat -> Attempt, k: nat, retries: nat)
    requires k <= retries && Quiet(c, log0, log) && life != Done && !LateRun(c, log, life, script, k, retries)
    ensures CleanEnd(c, log0, Loop(c, log, life, script, k, retries))
    decreases retries - k
  {
    var left := RunAttempt(c, log, life, k == retries, script(k));
    RoundLeaves(c, log0, log, life, k == retries, script(k));
    if k < retries && GoesOn(c, log, left) {
      LoopClean(c, log0, left.log, left.life, script, k + 1, retries);
    }
  }

  ghost predicate LateEnd(c: Context, log0: Log, e: End) {
    && e.life == Done && Terminals(e.log, c.taskId, |log0|) >= 1
    && (e.terminal.Some? ==> Terminals(e.log, c.taskId, |log0|) >= 2)
  }

  lemma {:induction false} LoopDone(c: Context, log0: Log, log: Log, script: nat -> Attempt, k: nat, retries: nat)
    requires k <= retries && log0 <= log && Terminals(log, c.taskId, |log0|) >= 1
    ensures LateEnd(c, log0, Loop(c, log, Done, script, k, retries))
    decreases retries - k
  {
    var left := RunAttempt(c, log, Done, k == retries, script(k));
    AttemptLeaves(c, log, Done, k == retries, script(k));
    TerminalsAdd(log0, log, left.log, c.taskId);
    if OneTerminal(c, log, left.log) {
      OneTerminals(c, log, left.log);
    } else {
      QuietTerminals(c, log, left.log);
      if k < retries && GoesOn(c, log, left) {
        LoopDone(c, log0, left.log, script, k + 1, retries);
      }
    }
  }

  lemma LateRound(c: Context, log0: Log, log: Log, script: nat -> Attempt, k: nat, retries: nat)
    requires k <= retries && Quiet(c, log0, log) && Late(script(k), Queued, k == retries)
    ensures LateEnd(c, log0, Loop(c, log, Queued, script, k, retries))
  {
    var left := RunAttempt(c, log, Queued, k == retries, script(k));
    AttemptLeaves(c, log, Queued, k == retries, script(k));
    TerminalsAdd(log0, log, left.log, c.taskId);
    if k < retries && GoesOn(c, log, left) {
      LoopDone(c, log0, left.log, script, k + 1, retries);
    }
  }

  lemma {:induction false} LoopLate(
    c: Context, log0: Log, log: Log, life: Life, script: nat -> Attempt, k: nat, retries: nat)
    requires k <= retries && Quiet(c, log0, log) && life != Done && LateRun(c, log, life, script, k, retries)
    ensures LateEnd(c, log0, Loop(c, log, life, script, k, retries))
    decreases retries - k
  {
    if Late(script(k), life, k == retries) {
      LateRound(c, log0, log, script, k, retries);
    } else {
      var left := RunAttempt(c, log, life, k == retries, script(k));
      RoundLeaves(c, log0, log, life, k == retries, script(k));
      LoopLate(c, log0, left.log, left.life, script, k + 1, retries);
    }
  }

  ghost predicate EndIs(c: Context, log: Log, e: End, late: bool) {
    if late then LateEnd(c, log, e) else CleanEnd(c, log, e)
  }

  lemma LoopEnds(c: Context, log: Log, script: nat -> Attempt, retries: nat)
    ensures EndIs(c, log, Loop(c, log, Queued, script, 0, retries), LateRun(c, log, Queued, script, 0, retries))
  {
    if LateRun(c, log, Queued, script, 0, retries) {
      LoopLate(c, log, log, Queued, script, 0, retries);
    } else {
      LoopClean(c, log, log, Queued, script, 0, retries);
    }
  }

  /** The dispatch returned, with one terminal, which is its last row and what it returned. */
  ghost predicate SettledOnce(c: Context, log: Log, s: (Log, Life, Dispatched)) {
    OneTerminal(c, log, s.0) && s.2 == Returned(s.0[|s.0| - 1].payload.outcome)
  }

  lemma EndSettles(c: Context, log: Log, e: End, late: bool)
    requires EndIs(c, log, e, late)
    ensures var s := Settle(c, e); s.2.Returned? && Terminals(s.0, c.taskId, |log|) == 1 <==> !late
    ensures !late ==> SettledOnce(c, log, Settle(c, e))
    ensures Terminals(Settle(c, e).0, c.taskId, |log|) >= 1
  {
    if !late {
      if e.terminal.None? {
        EmitOne(c, log, e.log, Aborted);
      }
      OneTerminals(c, log, Settle(c, e).0);
    }
  }

  /**
   A dispatch returns having left exactly one terminal of its task, the one it returns, exactly when no
   attempt it gets to is late.
   */
  lemma ExactlyOneTerminal(c: Context, log: Log, script: nat -> Attempt, retries: nat)
    ensures var s := Settle(c, Loop(c, log, Queued, script, 0, retries));
            var late := LateRun(c, log, Queued, script, 0, retries);
            && (s.2.Returned? && Terminals(s.0, c.taskId, |log|) == 1 <==> !late)
            && (!late ==> SettledOnce(c, log, s))
  {
    LoopEnds(c, log, script, retries);
    EndSettles(c, log, Loop(c, log, Queued, script, 0, retries), LateRun(c, log, Queued, script, 0, retries));
  }

  lemma CommitRaises(c: Context, log: Log, final: bool, commit: Fault)
    ensures var left := RunAttempt(c, log, Queued, final, Worked(Certified(Some(commit))));
            && left.raised == Some(commit) && left.life == Done
            && log <= left.log && Terminals(left.log, c.taskId, |log|) == 1
  {
    WorkLeaves(c, log, Queued, final, Certified(Some(commit)));
    AttemptLeaves(c, log, Queued, final, Worked(Certified(Some(commit))));
  }

  /**
   A commit that fails transiently, then a denial: the dispatch returns and has left two terminals. A git
   failure counts as transient when its text holds the SDK's error phrase, which it can: the text quotes
   the command, and the commit message in it the first 60 characters of the task's description.
   */
  lemma LateCommitExample(c: Context, log: Log, script: nat -> Attempt)
    requires script(0) == Worked(Certified(Some(Transient))) && script(1) == Denied
    ensures var (next, life, r) := Settle(c, Loop(c, log, Queued, script, 0, 1));
            r == Returned(Aborted) && Terminals(next, c.taskId, |log|) == 2
  {
    var first := RunAttempt(c, log, Queued, false, script(0));
    CommitRaises(c, log, false, Transient);
    var next := EmitTerminal(c, first.log, Aborted);
    EmitOne(c, first.log, first.log, Aborted);
    OneTerminals(c, first.log, next);
    TerminalsAdd(log, first.log, next, c.taskId);
    assert Loop(c, log, Queued, script, 0, 1) == Loop(c, first.log, first.life, script, 1, 1);
  }

  /** A commit that fails for good: the completion stands, and the forced abort raises instead of returning. */
  lemma HardCommitExample(c: Context, log: Log, script: nat -> Attempt, retries: nat)
    requires script(0) == Worked(Certified(Some(Hard)))
    ensures var (next, life, r) := Settle(c, Loop(c, log, Queued, script, 0, retries));
            r == Raised && Terminals(next, c.taskId, |log|) == 1
  {
    CommitRaises(c, log, 0 == retries, Hard);
  }

  lemma AbortSince(c: Context, log: Log, from: nat)
    requires from <= |log|
    ensures TerminalSince(EmitTerminal(c, log, Aborted), c.taskId, from) == Some(Aborted)
  {
  }

  lemma CutOffAborts(c: Context, log0: Log, left: Left)
    requires log0 <= left.log
    ensures var cut := CutOff(c, left);
            cut.raised == None && TerminalSince(cut.log, c.taskId, |log0|) == Some(Aborted)
  {
    AbortSince(c, Emit(c, left.log, Other("budget_exceeded")), |log0|);
  }

  /** A cap found exceeded once the work is done: even a completed task is aborted after all, with two terminals. */
  lemma LateCapExample(c: Context, log: Log, script: nat -> Attempt, retries: nat, w: Work)
    requires script(0) == Capped(w) && Finishes(w, Queued, retries == 0)
    ensures var (next, life, r) := Settle(c, Loop(c, log, Queued, script, 0, retries));
            r == Returned(Aborted) && Terminals(next, c.taskId, |log|) == 2
  {
    var final := 0 == retries;
    AttemptLeaves(c, log, Queued, final, script(0));
    WorkOwn(c, log, log, Queued, final, w);
    CutOffAborts(c, log, RunWork(c, log, Queued, final, w));
    FirstSettles(c, log, script, retries, RunAttempt(c, log, Queued, final, script(0)), Aborted);
  }

  lemma FirstSettles(
    c: Context, log: Log, script: nat -> Attempt, retries: nat, left: Left, o: LogEvents.Outcome)
    requires left == RunAttempt(c, log, Queued, 0 == retries, script(0))
    requires left.raised == None && TerminalSince(left.log, c.taskId, |log|) == Some(o)
    ensures Settle(c, Loop(c, log, Queued, script, 0, retries)) == (left.log, left.life, Returned(o))
  {
  }

  // --- what the monitor makes of it ---

  /** The task was started at or after position `from`. */
  predicate StartedSince(log: Log, t: string, from: nat) {
    exists k: nat :: from <= k < |log| && Starts(log[k].payload, t)
  }

  /** The task's marks so far end in a terminal. */
  predicate EndsInTerminal(log: Log, t: string) {
    var last := LastMark(log, t, |log|);
    last.Some? && log[last.value].payload.TerminalOutcome?
  }

  lemma StartedNext(log: Log, e: Row, t: string, from: nat)
    requires from <= |log|
    ensures StartedSince(log + [e], t, from) <==> StartedSince(log, t, from) || Starts(e.payload, t)
  {
    assert forall k: nat :: k < |log| ==> (log + [e])[k] == log[k];
    assert (log + [e])[|log|] == e;
  }

  lemma {:induction false} QuietMarks(c: Context, log0: Log, log: Log)
    requires Quiet(c, log0, log)
    ensures var last := LastMark(log, c.taskId, |log|);
            if StartedSince(log, c.taskId, |log0|)
            then last.Some? && |log0| <= last.value && Starts(log[last.value].payload, c.taskId)
            else last == LastMark(log0, c.taskId, |log0|)
  {
    if |log| == |log0| {
      assert log == log0;
    } else {
      var front, e := log[..|log| - 1], log[|log| - 1];
      assert log == front + [e];
      QuietMarks(c, log0, front);
      WindowLocal(front, [e], c.taskId, |front|);
      StartedNext(front, e, c.taskId, |log0|);
    }
  }

  lemma UnearnedLast(log: Log, n: nat)
    requires n < |log| && !Unearned(log, n)
    ensures UnearnedRows(log, n + 1) == UnearnedRows(log, n)
  {
  }

  lemma UnearnedStay(log: Log, front: Log, e: Row)
    requires log == front + [e] && !Unearned(log, |front|)
    ensures UnearnedRows(log, |log|) == UnearnedRows(front, |front|)
  {
    UnearnedLocal(front, [e], |front|);
    UnearnedLast(log, |front|);
  }

  lemma LastStays(log: Log)
    requires log != [] && !Unearned(log, |log| - 1)
    ensures UnearnedRows(log, |log|) == UnearnedRows(log[..|log| - 1], |log| - 1)
  {
    UnearnedStay(log, log[..|log| - 1], log[|log| - 1]);
  }

  lemma {:induction false} QuietUnearned(c: Context, log0: Log, log: Log)
    requires Quiet(c, log0, log)
    ensures UnearnedRows(log, |log|) == UnearnedRows(log0, |log0|)
  {
    if |log| == |log0| {
      assert log == log0;
    } else {
      QuietUnearned(c, log0, log[..|log| - 1]);
      LastStays(log);
    }
  }

  lemma OneUnearned(c: Context, log0: Log, log: Log)
    requires OneTerminal(c, log0, log)
    ensures UnearnedRows(log, |log|) == UnearnedRows(log0, |log0|)
  {
    QuietUnearned(c, log0, log[..|log| - 1]);
    LastStays(log);
  }

  lemma TerminalDoubles(c: Context, log0: Log, front: Log, e: Row)
    requires Quiet(c, log0, front) && Ends(e.payload, c.taskId)
    ensures DoubleAt(front + [e], |front|) <==>
              !StartedSince(front, c.taskId, |log0|) && EndsInTerminal(log0, c.taskId)
  {
    WindowLocal(front, [e], c.taskId, |front|);
    QuietMarks(c, log0, front);
  }

  /** Of the new rows only the terminal can be a double one: it is when nothing started and one came before. */
  lemma OneDouble(c: Context, log0: Log, log: Log, i: nat)
    requires OneTerminal(c, log0, log) && |log0| <= i
    ensures DoubleAt(log, i) <==>
              i == |log| - 1 && !StartedSince(log, c.taskId, |log0|) && EndsInTerminal(log0, c.taskId)
  {
    var front, e := log[..|log| - 1], log[|log| - 1];
    assert log == front + [e];
    StartedNext(front, e, c.taskId, |log0|);
    TerminalDoubles(c, log0, front, e);
    if i < |front| {
      assert log[i] == front[i];
    }
  }

  lemma OneOrphan(c: Context, log0: Log, log: Log, i: nat)
    requires OneTerminal(c, log0, log) && OrphanAt(log, i)
    ensures i < |log0| && OrphanAt(log0, i)
  {
    var front, e := log[..|log| - 1], log[|log| - 1];
    var t := log[i].payload.taskId.value;
    assert log == front + [e] && log0 <= front;
    assert LastMark(log, c.taskId, |log|) == Some(|front|);
    assert t != c.taskId;
    assert forall k: nat :: |log0| <= k < |log| ==> !Marks(log[k].payload, t);
    assert i < |log0| && log[i] == log0[i];
    assert Marks(log0[i].payload, t);
    var last := LastMark(log0, t, |log0|);
    assert log[last.value] == log0[last.value];
  }

  /**
   A dispatch that leaves one terminal adds no report of an unearned completion, no orphan, and no
   double terminal but its own, which is one exactly when the dispatch never reached the start and
   the task's marks already ended in a terminal.
   */
  lemma NewFlags(c: Context, log: Log, script: nat -> Attempt, retries: nat)
    requires !LateRun(c, log, Queued, script, 0, retries)
    ensures var next := Settle(c, Loop(c, log, Queued, script, 0, retries)).0;
            var t := c.taskId;
            && UnearnedRows(next, |next|) == UnearnedRows(log, |log|)
            && (forall i :: OrphanAt(next, i) ==> OrphanAt(log, i))
            && forall i :: DoubleAt(next, i) <==>
                 DoubleAt(log, i) ||
                 (i == |next| - 1 && !StartedSince(next, t, |log|) && EndsInTerminal(log, t))
  {
    ExactlyOneTerminal(c, log, script, retries);
    var next := Settle(c, Loop(c, log, Queued, script, 0, retries)).0;
    OneUnearned(c, log, next);
    OneTerminals(c, log, next);
    assert next == log + next[|log|..];
    forall i: nat | OrphanAt(next, i) ensures OrphanAt(log, i) {
      OneOrphan(c, log, next, i);
    }
    forall i: nat
      ensures DoubleAt(next, i) <==>
                DoubleAt(log, i) ||
                (i == |next| - 1 && !StartedSince(next, c.taskId, |log|) && EndsInTerminal(log, c.taskId))
    {
      if i < |log| {
        DoubleLocal(log, next[|log|..], i);
      } else {
        OneDouble(c, log, next, i);
      }
    }
  }

  // --- what the task selection makes of it ---

  lemma SettledNext(log: Log, e: Row)
    ensures PlanProgress.Settled(log + [e]) == PlanProgress.Settled(log) +
            match e.payload case TerminalOutcome(Some(t), _) => {t} case _ => {}
  {
    var more := log + [e];
    assert more[|log|] == e;
    forall t | t in PlanProgress.Settled(log) ensures t in PlanProgress.Settled(more) {
      var i: nat :| i < |log| && log[i].payload.TerminalOutcome? && log[i].payload.taskId == Some(t);
      assert more[i] == log[i];
    }
    forall t | t in PlanProgress.Settled(more)
      ensures t in PlanProgress.Settled(log) || (e.payload.TerminalOutcome? && e.payload.taskId == Some(t))
    {
      var i: nat :| i < |more| && more[i].payload.TerminalOutcome? && more[i].payload.taskId == Some(t);
      assert i < |log| ==> more[i] == log[i];
    }
  }

  /** The log grew, and its new terminals are those of the task. */
  ghost predicate Own(c: Context, log0: Log, log: Log) {
    log0 <= log && forall i: nat :: |log0| <= i < |log| ==> OwnBody(c, log[i].payload)
  }

  predicate OwnBody(c: Context, b: Body) {
    b.TerminalOutcome? ==> b.taskId == Some(c.taskId)
  }

  lemma EmitOwn(c: Context, log0: Log, log: Log, b: Body)
    requires Own(c, log0, log) && OwnBody(c, b)
    ensures Own(c, log0, Emit(c, log, b))
  {
    var next := Emit(c, log, b);
    forall i: nat | |log0| <= i < |next| ensures OwnBody(c, next[i].payload) {
      assert i < |log| ==> next[i] == log[i];
    }
  }

  lemma ReviewOwn(c: Context, log0: Log, passed: Log, w: Work)
    requires Own(c, log0, passed)
    ensures Own(c, log0, Review(c, passed, w).log)
  {
    match w {
      case Declined =>
        EmitOwn(c, log0, passed, Other("reviewer_rejected"));
        EmitOwn(c, log0, Emit(c, passed, Other("reviewer_rejected")), TerminalOutcome(Some(c.taskId), Rejected));
      case Certified(_) =>
        var certified := Emit(c, passed, ReviewerCertified(Some(c.taskId)));
        EmitOwn(c, log0, passed, ReviewerCertified(Some(c.taskId)));
        EmitOwn(c, log0, certified, TerminalOutcome(Some(c.taskId), Completed));
      case _ =>
    }
  }

  lemma AcceptOwn(c: Context, log0: Log, log: Log, final: bool, w: Work)
    requires Own(c, log0, log)
    ensures Own(c, log0, Accept(c, log, final, w).log)
  {
    var failed := Emit(c, log, VerifierOutcome(Some(c.taskId), false));
    var passed := Emit(c, log, VerifierOutcome(Some(c.taskId), true));
    EmitOwn(c, log0, log, VerifierOutcome(Some(c.taskId), false));
    EmitOwn(c, log0, log, VerifierOutcome(Some(c.taskId), true));
    EmitOwn(c, log0, failed, TerminalOutcome(Some(c.taskId), Rejected));
    ReviewOwn(c, log0, passed, w);
  }

  lemma WorkOwn(c: Context, log0: Log, log: Log, life: Life, final: bool, w: Work)
    requires Own(c, log0, log)
    ensures Own(c, log0, RunWork(c, log, life, final, w).log)
  {
    EmitOwn(c, log0, log, TaskStarted(Some(c.taskId)));
    AcceptOwn(c, log0, Emit(c, log, TaskStarted(Some(c.taskId))), final, w);
  }

  lemma AttemptOwn(c: Context, log0: Log, log: Log, life: Life, final: bool, a: Attempt)
    requires Own(c, log0, log)
    ensures Own(c, log0, RunAttempt(c, log, life, final, a).log)
  {
    match a {
      case Denied => EmitOwn(c, log0, log, TerminalOutcome(Some(c.taskId), Aborted));
      case Refused =>
        EmitOwn(c, log0, log, TaskStarted(Some(c.taskId)));
        EmitOwn(c, log0, Emit(c, log, TaskStarted(Some(c.taskId))), TerminalOutcome(Some(c.taskId), Rejected));
      case Worked(w) => WorkOwn(c, log0, log, life, final, w);
      case Capped(w) =>
        var left := RunWork(c, log, life, final, w);
        WorkOwn(c, log0, log, life, final, w);
        EmitOwn(c, log0, left.log, Other("budget_exceeded"));
        EmitOwn(c, log0, Emit(c, left.log, Other("budget_exceeded")), TerminalOutcome(Some(c.taskId), Aborted));
    }
  }

  lemma {:induction false} LoopOwn(
    c: Context, log0: Log, log: Log, life: Life, script: nat -> Attempt, k: nat, retries: nat)
    requires k <= retries && Own(c, log0, log)
    ensures Own(c, log0, Loop(c, log, life, script, k, retries).log)
    decreases retries - k
  {
    var left := RunAttempt(c, log, life, k == retries, script(k));
    AttemptOwn(c, log0, log, life, k == retries, script(k));
    if k < retries && GoesOn(c, log, left) {
      LoopOwn(c, log0, left.log, left.life, script, k + 1, retries);
    }
  }

  lemma {:induction false} OwnSettles(c: Context, log0: Log, log: Log)
    requires Own(c, log0, log)
    ensures PlanProgress.Settled(log) ==
            PlanProgress.Settled(log0) + if Terminals(log, c.taskId, |log0|) > 0 then {c.taskId} else {}
  {
    if |log| == |log0| {
      assert log == log0;
    } else {
      var front, e := log[..|log| - 1], log[|log| - 1];
      OwnSettles(c, log0, front);
      SettledNext(front, e);
      assert log == front + [e] && OwnBody(c, e.payload);
    }
  }

  /** Every dispatch, clean or late, gives exactly its own task a terminal, so that the next selection moves on. */
  lemma DispatchSettles(c: Context, log: Log, script: nat -> Attempt, retries: nat)
    ensures PlanProgress.Settled(Settle(c, Loop(c, log, Queued, script, 0, retries)).0)
         == PlanProgress.Settled(log) + {c.taskId}
  {
    var e := Loop(c, log, Queued, script, 0, retries);
    LoopEnds(c, log, script, retries);
    EndSettles(c, log, e, LateRun(c, log, Queued, script, 0, retries));
    LoopOwn(c, log, log, Queued, script, 0, retries);
    EmitOwn(c, log, e.log, TerminalOutcome(Some(c.taskId), Aborted));
    OwnSettles(c, log, Settle(c, e).0);
  }

  // --- driving a whole plan ---

  /** One dispatch without a task id, with whatever its attempts meet, and the rows that are added after it. */
  datatype Turn = Turn(c: Context, script: nat -> Attempt, retries: nat, later: seq<Row>)

  function AfterTurn(log: Log, d: Turn): Log {
    Settle(d.c, Loop(d.c, log, Queued, d.script, 0, d.retries)).0 + d.later
  }

  /** The turn dispatches the task that the log selects, and what is added after it holds no terminal. */
  ghost predicate TurnOk(tasks: seq<PlanGraph.Task>, log: Log, pick: nat, d: Turn) {
    && PlanProgress.Picked(tasks, PlanProgress.Settled(log)) == Ok(pick)
    && pick < |tasks| && d.c.taskId == tasks[pick].id
    && forall i :: 0 <= i < |d.later| ==> !d.later[i].payload.TerminalOutcome?
  }

  ghost predicate TurnsOk(tasks: seq<PlanGraph.Task>, logs: seq<Log>, picks: seq<nat>, turns: seq<Turn>) {
    |turns| == |picks| && |logs| == |picks| + 1 &&
    forall k: nat :: k < |picks| ==>
      TurnOk(tasks, logs[k], picks[k], turns[k]) && logs[k + 1] == AfterTurn(logs[k], turns[k])
  }

  lemma {:induction false} LaterSettlesNothing(log: Log, later: seq<Row>)
    requires forall i :: 0 <= i < |later| ==> !later[i].payload.TerminalOutcome?
    ensures PlanProgress.Settled(log + later) == PlanProgress.Settled(log)
  {
    if later == [] {
      assert log + later == log;
    } else {
      var front := later[..|later| - 1];
      LaterSettlesNothing(log, front);
      SettledNext(log + front, later[|later| - 1]);
      assert log + later == log + front + [later[|later| - 1]];
    }
  }

  lemma TurnDrives(tasks: seq<PlanGraph.Task>, log: Log, pick: nat, d: Turn)
    requires TurnOk(tasks, log, pick, d)
    ensures PlanProgress.Drive(tasks, PlanProgress.Settled(log), pick, PlanProgress.Settled(AfterTurn(log, d)))
  {
    DispatchSettles(d.c, log, d.script, d.retries);
    LaterSettlesNothing(Settle(d.c, Loop(d.c, log, Queued, d.script, 0, d.retries)).0, d.later);
  }

  /**
   Dispatching again and again without a task id goes through the tasks that have no terminal once each,
   in plan order, whatever becomes of each dispatch, and is refused exactly when none is left.
   */
  lemma PlanIsDriven(tasks: seq<PlanGraph.Task>, logs: seq<Log>, picks: seq<nat>, turns: seq<Turn>)
    requires TurnsOk(tasks, logs, picks, turns)
    ensures var todo := PlanProgress.Firsts(tasks, PlanProgress.Settled(logs[0]));
            && picks <= todo
            && (PlanProgress.Picked(tasks, PlanProgress.Settled(logs[|picks|])) == Err(PlanProgress.AllTasksSettled)
                <==> picks == todo)
  {
    var settled := seq(|logs|, k requires 0 <= k < |logs| => PlanProgress.Settled(logs[k]));
    forall k: nat | k < |picks| ensures PlanProgress.Drive(tasks, settled[k], picks[k], settled[k + 1]) {
      TurnDrives(tasks, logs[k], picks[k], turns[k]);
    }
    PlanProgress.DrivesInPlanOrder(tasks, settled, picks);
  }
}
