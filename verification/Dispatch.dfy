/** The bounded dispatch loop and what one attempt can do (console/developer.py, roles/director.py). */
module Dispatch {
  import opened Results
  import opened EventLog
  import opened EventBus
  import opened LogEvents
  import opened Monitor

  /** The in-process lifecycle of a task: queued, running, or past its one terminal transition. */
  datatype Life = Queued | Running | Done

  /** Whether an exception carries the text of the transient SDK error. */
  datatype Fault = Transient | Hard

  /** What becomes of the developer's work and its acceptance in one attempt. */
  datatype Work =
    | Unstarted(fault: Fault)                               // the lock or the worktree raises
    | Unbuilt(fault: Fault)                                 // raised after the start, before verification
    | Unverified(fault: Fault)                              // the verifier itself raises
    | Failing(retryable: bool, rewind: Option<Fault>)       // a verifier failure; the rewind may raise
    | Unreviewed(fault: Fault)                              // the review raises after a pass
    | Declined                                              // the review does not certify
    | Certified(commit: Option<Fault>)                      // certified; the branch commit may raise

  /** What the outside world does to one attempt. */
  datatype Attempt =
    | Denied                                                // a gate denies it before anything starts
    | Refused                                               // the realized diff leaves the scope or fails a gate
    | Worked(work: Work)
    | Capped(work: Work)                                    // a cap is found exceeded after this much of the work

  /** The task being dispatched, and what stamps its rows. */
  datatype Context = Context(
    codec: Codec<Body>, uuid: nat -> string, correlationId: string, taskId: string, name: Body -> string)

  function Emit(c: Context, log: Log, b: Body): (next: Log)
    ensures log < next && |next| == |log| + 1 && next[|log|].payload == b && next[..|log|] == log
  {
    log + [Linked(c.codec, log, Request(c.uuid(|log|), c.correlationId, c.name(b), b))]
  }

  function EmitTerminal(c: Context, log: Log, o: LogEvents.Outcome): Log {
    Emit(c, log, TerminalOutcome(Some(c.taskId), o))
  }

  /** What an attempt leaves behind. */
  datatype Left = Left(log: Log, life: Life, raised: Option<Fault>)

  /** The fresh-context review that follows a verifier pass. */
  function Review(c: Context, passed: Log, w: Work): Left {
    match w
    case Declined => Left(EmitTerminal(c, Emit(c, passed, Other("reviewer_rejected")), Rejected), Done, None)
    case Certified(commit) =>
      var certified := Emit(c, passed, ReviewerCertified(Some(c.taskId)));
      if EarnedBy(certified, c.taskId, |certified|) then Left(EmitTerminal(c, certified, Completed), Done, commit)
      else Left(certified, Running, Some(Hard))
    case Unreviewed(fault) => Left(passed, Running, Some(fault))
    case _ => Left(passed, Running, None)
  }

  /** Verification and review of a build, once the lifecycle has moved to running. */
  function Accept(c: Context, log: Log, final: bool, w: Work): Left {
    match w
    case Unverified(fault) => Left(log, Running, Some(fault))
    case Failing(retryable, rewind) =>
      var failed := Emit(c, log, VerifierOutcome(Some(c.taskId), false));
      if rewind.Some? then Left(failed, Running, rewind)
      else if retryable && !final then Left(failed, Queued, None)
      else Left(EmitTerminal(c, failed, Rejected), Done, None)
    case _ => Review(c, Emit(c, log, VerifierOutcome(Some(c.taskId), true)), w)
  }

  /** The developer's run and, if it gets there, the acceptance of what it built. */
  function RunWork(c: Context, log: Log, life: Life, final: bool, w: Work): Left {
    if w.Unstarted? then Left(log, life, Some(w.fault))
    else
      var started := Emit(c, log, TaskStarted(Some(c.taskId)));
      if w.Unbuilt? then Left(started, life, Some(w.fault))
      else if life != Queued then Left(started, life, Some(Hard))
      else Accept(c, started, final, w)
  }

  /** Work cut off by a cap, whose own exception is dropped: the audit row, then an abort. */
  function CutOff(c: Context, left: Left): Left {
    Left(EmitTerminal(c, Emit(c, left.log, Other("budget_exceeded")), Aborted), left.life, None)
  }

  /** One call of the director's dispatch. */
  function RunAttempt(c: Context, log: Log, life: Life, final: bool, a: Attempt): Left {
    match a
    case Denied => Left(EmitTerminal(c, log, Aborted), life, None)
    case Refused => Left(EmitTerminal(c, Emit(c, log, TaskStarted(Some(c.taskId))), Rejected), life, None)
    case Worked(w) => RunWork(c, log, life, final, w)
    case Capped(w) => CutOff(c, RunWork(c, log, life, final, w))
  }

  /** The latest terminal of a task at or after position `from`. */
  function TerminalSince(log: Log, t: string, from: nat): Option<LogEvents.Outcome> {
    if |log| <= from then None
    else if Ends(log[|log| - 1].payload, t) then Some(log[|log| - 1].payload.outcome)
    else TerminalSince(log[..|log| - 1], t, from)
  }

  /** Where the attempt loop ends. */
  datatype End = End(log: Log, life: Life, terminal: Option<LogEvents.Outcome>)

  /** What the loop reads back after an attempt that did not raise. */
  function TerminalLeft(c: Context, log: Log, left: Left): Option<LogEvents.Outcome> {
    if left.raised.Some? then None else TerminalSince(left.log, c.taskId, |log|)
  }

  /** The loop goes on after a transient error, or when nothing was raised and no terminal was left. */
  predicate GoesOn(c: Context, log: Log, left: Left) {
    if left.raised.Some? then left.raised == Some(Transient) else TerminalLeft(c, log, left).None?
  }

  /** Attempts `k` to `retries`, as scripted. */
  function Loop(c: Context, log: Log, life: Life, script: nat -> Attempt, k: nat, retries: nat): End
    requires k <= retries
    decreases retries - k
  {
    var left := RunAttempt(c, log, life, k == retries, script(k));
    if k < retries && GoesOn(c, log, left) then Loop(c, left.log, left.life, script, k + 1, retries)
    else End(left.log, left.life, TerminalLeft(c, log, left))
  }

  /** A dispatch returns the task's terminal, or raises because the lifecycle is already terminal. */
  datatype Dispatched = Returned(outcome: LogEvents.Outcome) | Raised

  /** Without a terminal an abort is forced, which a finished lifecycle refuses. */
  function Settle(c: Context, e: End): (Log, Life, Dispatched) {
    if e.terminal.Some? then (e.log, e.life, Returned(e.terminal.value))
    else if e.life == Done then (e.log, e.life, Raised)
    else (EmitTerminal(c, e.log, Aborted), Done, Returned(Aborted))
  }

  class Dispatcher {
    const c: Context
    var log: Log
    var life: Life

    constructor (c: Context, log: Log)
      ensures this.c == c && this.log == log && life == Queued
    {
      this.c, this.log, this.life := c, log, Queued;
    }

    method Append(b: Body)
      modifies this`log
      ensures log == Emit(c, old(log), b)
    {
      log := Emit(c, log, b);
    }

    /** Completion is refused unless the running attempt has both a pass and a certification. */
    method ReviewTask(w: Work) returns (raised: Option<Fault>)
      requires life == Running
      modifies this
      ensures Left(log, life, raised) == Review(c, old(log), w)
    {
      raised := None;
      match w {
        case Unreviewed(fault) =>
          raised := Some(fault);
        case Declined =>
          Append(Other("reviewer_rejected"));
          life := Done;
          Append(TerminalOutcome(Some(c.taskId), Rejected));
        case Certified(commit) =>
          Append(ReviewerCertified(Some(c.taskId)));
          if !EarnedBy(log, c.taskId, |log|) {
            return Some(Hard);
          }
          life := Done;
          Append(TerminalOutcome(Some(c.taskId), Completed));
          raised := commit;
        case _ =>
      }
    }

    /** Verification first, then the fresh-context review, then the terminal. */
    method CompleteTask(final: bool, w: Work) returns (raised: Option<Fault>)
      requires life == Queued
      modifies this
      ensures Left(log, life, raised) == Accept(c, old(log), final, w)
    {
      life := Running;
      raised := None;
      match w {
        case Unverified(fault) =>
          raised := Some(fault);
        case Failing(retryable, rewind) =>
          Append(VerifierOutcome(Some(c.taskId), false));
          if rewind.Some? {
            raised := rewind;
          } else if retryable && !final {
            life := Queued;
          } else {
            life := Done;
            Append(TerminalOutcome(Some(c.taskId), Rejected));
          }
        case _ =>
          Append(VerifierOutcome(Some(c.taskId), true));
          raised := ReviewTask(w);
      }
    }

    /** The start, the build, and the acceptance of what was built. */
    method DoWork(final: bool, w: Work) returns (raised: Option<Fault>)
      modifies this
      ensures Left(log, life, raised) == RunWork(c, old(log), old(life), final, w)
    {
      if w.Unstarted? {
        return Some(w.fault);
      }
      Append(TaskStarted(Some(c.taskId)));
      if w.Unbuilt? {
        return Some(w.fault);
      }
      if life != Queued {
        return Some(Hard);
      }
      raised := CompleteTask(final, w);
    }

    method DirectorDispatch(final: bool, a: Attempt) returns (raised: Option<Fault>)
      modifies this
      ensures Left(log, life, raised) == RunAttempt(c, old(log), old(life), final, a)
    {
      raised := None;
      match a {
        case Denied =>
          Append(TerminalOutcome(Some(c.taskId), Aborted));
        case Refused =>
          Append(TaskStarted(Some(c.taskId)));
          Append(TerminalOutcome(Some(c.taskId), Rejected));
        case Worked(w) =>
          raised := DoWork(final, w);
        case Capped(w) =>
          var dropped := DoWork(final, w);
          Append(Other("budget_exceeded"));
          Append(TerminalOutcome(Some(c.taskId), Aborted));
      }
    }

    /** At most `retries + 1` attempts, and a forced abort when none of them left a terminal. */
    method Dispatch(script: nat -> Attempt, retries: nat) returns (r: Dispatched)
      modifies this
      ensures (log, life, r) == Settle(c, Loop(c, old(log), old(life), script, 0, retries))
    {
      var terminal: Option<LogEvents.Outcome> := None;
      ghost var whole := Loop(c, log, life, script, 0, retries);
      var attempt := 0;
      while attempt <= retries
        invariant attempt <= retries + 1
        invariant attempt <= retries ==> Loop(c, log, life, script, attempt, retries) == whole
        invariant attempt == retries + 1 ==> whole == End(log, life, None)
        invariant terminal == None
      {
        var pre := |log|;
        var raised := DirectorDispatch(attempt == retries, script(attempt));
        if raised.Some? {
          if attempt < retries && raised == Some(Transient) {
            attempt := attempt + 1;
            continue;
          }
          assert whole == End(log, life, None);
          break;
        }
        terminal := TerminalSince(log, c.taskId, pre);
        if terminal.Some? {
          break;
        }
        attempt := attempt + 1;
      }
      assert whole == End(log, life, terminal);
      if terminal.Some? {
        return Returned(terminal.value);
      }
      if life == Done {
        return Raised;
      }
      Append(TerminalOutcome(Some(c.taskId), Aborted));
      life := Done;
      r := Returned(Aborted);
    }
  }
}
