/** What the monitor reports after a dispatch that left a terminal and went on (console/developer.py). */
module LateFlags {
  import opened Results
  import opened LogEvents
  import opened Monitor
  import opened Dispatch
  import opened DispatchLaws

  /** The rows since a position hold at most one terminal of the task, which would be the last of them. */
  ghost predicate AtMostOne(c: Context, log0: Log, log: Log) {
    Quiet(c, log0, log) || OneTerminal(c, log0, log)
  }

  lemma AtMostOneThen(c: Context, log0: Log, log: Log, next: Log)
    requires Quiet(c, log0, log) && AtMostOne(c, log, next)
    ensures AtMostOne(c, log0, next)
  {
    QuietThen(c, log0, log, next);
  }

  /** Once the lifecycle is over the loop leaves at most one more terminal. */
  lemma {:induction false} LoopAfterEnd(
    c: Context, log0: Log, log: Log, script: nat -> Attempt, k: nat, retries: nat)
    requires k <= retries && Quiet(c, log0, log)
    ensures AtMostOne(c, log0, Loop(c, log, Done, script, k, retries).log)
    decreases retries - k
  {
    var left := RunAttempt(c, log, Done, k == retries, script(k));
    AttemptLeaves(c, log, Done, k == retries, script(k));
    AtMostOneThen(c, log0, log, left.log);
    if k < retries && GoesOn(c, log, left) {
      if OneTerminal(c, log, left.log) {
        OneTerminals(c, log, left.log);
      } else {
        QuietThen(c, log0, log, left.log);
        LoopAfterEnd(c, log0, left.log, script, k + 1, retries);
      }
    }
  }

  /** A late attempt leaves its terminal, and the rest of the loop at most one more. */
  lemma LateAttempt(c: Context, log: Log, script: nat -> Attempt, k: nat, retries: nat) returns (first: Log)
    requires k <= retries && Late(script(k), Queued, k == retries)
    ensures OneTerminal(c, log, first)
    ensures AtMostOne(c, first, Loop(c, log, Queued, script, k, retries).log)
  {
    var final := k == retries;
    match script(k) {
      case Worked(w) =>
        var left := RunWork(c, log, Queued, final, w);
        first := left.log;
        WorkLeaves(c, log, Queued, final, w);
        if k < retries && GoesOn(c, log, left) {
          LoopAfterEnd(c, first, first, script, k + 1, retries);
        }
      case Capped(w) =>
        first := RunWork(c, log, Queued, final, w).log;
        WorkLeaves(c, log, Queued, final, w);
        CapEnds(c, log, script, k, retries, w);
    }
  }

  lemma CapEnds(c: Context, log: Log, script: nat -> Attempt, k: nat, retries: nat, w: Work)
    requires k <= retries && script(k) == Capped(w) && Finishes(w, Queued, k == retries)
    ensures var work := RunWork(c, log, Queued, k == retries, w);
            OneTerminal(c, work.log, Loop(c, log, Queued, script, k, retries).log)
  {
    var work := RunWork(c, log, Queued, k == retries, w);
    var noted := Emit(c, work.log, Other("budget_exceeded"));
    WorkLeaves(c, log, Queued, k == retries, w);
    CutOffLeaves(c, log, Queued, work, true);
    EmitQuiet(c, work.log, Other("budget_exceeded"));
    EmitOne(c, work.log, noted, Aborted);
  }

  /** The log of a late dispatch: up to its first terminal, and on to at most one more. */
  lemma {:induction false} LateShape(
    c: Context, log0: Log, log: Log, life: Life, script: nat -> Attempt, k: nat, retries: nat) returns (first: Log)
    requires k <= retries && Quiet(c, log0, log) && life != Done && LateRun(c, log, life, script, k, retries)
    ensures OneTerminal(c, log0, first)
    ensures AtMostOne(c, first, Loop(c, log, life, script, k, retries).log)
    decreases retries - k
  {
    if Late(script(k), life, k == retries) {
      first := LateAttempt(c, log, script, k, retries);
      QuietThen(c, log0, log, first);
    } else {
      var left := RunAttempt(c, log, life, k == retries, script(k));
      RoundLeaves(c, log0, log, life, k == retries, script(k));
      first := LateShape(c, log0, left.log, left.life, script, k + 1, retries);
    }
  }

  // --- the flags ---

  lemma AtMostOneUnearned(c: Context, log0: Log, log: Log)
    requires AtMostOne(c, log0, log)
    ensures UnearnedRows(log, |log|) == UnearnedRows(log0, |log0|)
  {
    if Quiet(c, log0, log) {
      QuietUnearned(c, log0, log);
    } else {
      OneUnearned(c, log0, log);
    }
  }

  lemma {:induction false} LastIsFirst(log: Log, t: string)
    requires log != [] && Ends(log[|log| - 1].payload, t)
    ensures EndsInTerminal(log, t) && LastMark(log, t, |log|) == Some(|log| - 1)
  {
  }

  /** Rows without a terminal add no double one. */
  lemma QuietDoubles(c: Context, log0: Log, log: Log, i: nat)
    requires Quiet(c, log0, log) && |log0| <= i
    ensures !DoubleAt(log, i)
  {
  }

  /** After a terminal, one more is a double one exactly when nothing was started in between. */
  lemma SecondDoubles(c: Context, first: Log, log: Log, i: nat)
    requires first != [] && Ends(first[|first| - 1].payload, c.taskId) && AtMostOne(c, first, log) && |first| <= i
    ensures DoubleAt(log, i) <==>
              i == |log| - 1 && OneTerminal(c, first, log) && !StartedSince(log, c.taskId, |first|)
  {
    LastIsFirst(first, c.taskId);
    NotBoth(c, first, log);
    if Quiet(c, first, log) {
      QuietDoubles(c, first, log, i);
    } else {
      OneDouble(c, first, log, i);
    }
  }

  /** And without one, the task is left as an orphan exactly when something was started. */
  lemma SecondOrphans(c: Context, first: Log, log: Log)
    requires first != [] && Ends(first[|first| - 1].payload, c.taskId) && Quiet(c, first, log)
    ensures (exists i: nat :: OrphanAt(log, i) && Starts(log[i].payload, c.taskId)) <==>
              StartedSince(log, c.taskId, |first|)
  {
    LastIsFirst(first, c.taskId);
    QuietMarks(c, first, log);
    var last := LastMark(log, c.taskId, |log|);
    if StartedSince(log, c.taskId, |first|) {
      assert OrphanAt(log, last.value) && Starts(log[last.value].payload, c.taskId);
    } else {
      assert last == Some(|first| - 1) && log[|first| - 1] == first[|first| - 1];
    }
  }

  lemma SecondLeavesNoOrphan(c: Context, log: Log, first: Log, next: Log, i: nat)
    requires OneTerminal(c, log, first) && OneTerminal(c, first, next) && OrphanAt(next, i)
    ensures OrphanAt(log, i)
  {
    OneOrphan(c, first, next, i);
    OneOrphan(c, log, first, i);
  }

  /** Up to the first terminal the reports are as those of any dispatch. */
  lemma FirstDoubles(c: Context, log: Log, first: Log, next: Log, i: nat)
    requires OneTerminal(c, log, first) && first <= next && i < |first|
    ensures DoubleAt(next, i) <==>
              DoubleAt(log, i) ||
              (i == |first| - 1 && !StartedSince(first, c.taskId, |log|) && EndsInTerminal(log, c.taskId))
  {
    OneTerminals(c, log, first);
    assert next == first + next[|first|..] && first == log + first[|log|..];
    DoubleLocal(first, next[|first|..], i);
    if i < |log| {
      DoubleLocal(log, first[|log|..], i);
    } else {
      OneDouble(c, log, first, i);
    }
  }

  lemma AtMostOneGrows(c: Context, log0: Log, log: Log)
    requires AtMostOne(c, log0, log)
    ensures log0 <= log
  {
    if OneTerminal(c, log0, log) {
      OneTerminals(c, log0, log);
    }
  }

  /** Where a late dispatch's first terminal is, and that at most one more follows. */
  lemma LateSplit(c: Context, log: Log, script: nat -> Attempt, retries: nat) returns (first: Log)
    requires LateRun(c, log, Queued, script, 0, retries)
    ensures var next := Settle(c, Loop(c, log, Queued, script, 0, retries)).0;
            OneTerminal(c, log, first) && AtMostOne(c, first, next) && first <= next
  {
    LoopLate(c, log, log, Queued, script, 0, retries);
    first := LateShape(c, log, log, Queued, script, 0, retries);
    AtMostOneGrows(c, first, Settle(c, Loop(c, log, Queued, script, 0, retries)).0);
  }

  /**
   What a late dispatch adds to the monitor's reports: no unearned completion. After its first terminal
   comes at most one more. If one does, it is a double terminal exactly when nothing was started between
   them, and the task is no orphan; if none does, it is an orphan exactly when something was started.
   */
  lemma LateNewFlags(c: Context, log: Log, script: nat -> Attempt, retries: nat) returns (first: Log)
    requires LateRun(c, log, Queued, script, 0, retries)
    ensures var next, t := Settle(c, Loop(c, log, Queued, script, 0, retries)).0, c.taskId;
            && OneTerminal(c, log, first) && AtMostOne(c, first, next)
            && UnearnedRows(next, |next|) == UnearnedRows(log, |log|)
            && (forall i: nat :: i < |first| ==>
                  (DoubleAt(next, i) <==>
                     DoubleAt(log, i) || (i == |first| - 1 && !StartedSince(first, t, |log|) && EndsInTerminal(log, t))))
            && (forall i: nat :: |first| <= i ==>
                  (DoubleAt(next, i) <==>
                     i == |next| - 1 && OneTerminal(c, first, next) && !StartedSince(next, t, |first|)))
            && (OneTerminal(c, first, next) ==> forall i: nat :: OrphanAt(next, i) ==> OrphanAt(log, i))
            && (Quiet(c, first, next) ==>
                  ((exists i: nat :: OrphanAt(next, i) && Starts(next[i].payload, t)) <==>
                     StartedSince(next, t, |first|)))
  {
    first := LateSplit(c, log, script, retries);
    var next := Settle(c, Loop(c, log, Queued, script, 0, retries)).0;
    AtMostOneUnearned(c, log, first);
    AtMostOneUnearned(c, first, next);
    FlagsAfter(c, log, first, next);
    if Quiet(c, first, next) {
      SecondOrphans(c, first, next);
    }
  }

  lemma FlagsAfter(c: Context, log: Log, first: Log, next: Log)
    requires OneTerminal(c, log, first) && AtMostOne(c, first, next) && first <= next
    ensures forall i: nat :: i < |first| ==>
              (DoubleAt(next, i) <==>
                 DoubleAt(log, i) ||
                 (i == |first| - 1 && !StartedSince(first, c.taskId, |log|) && EndsInTerminal(log, c.taskId)))
    ensures forall i: nat :: |first| <= i ==>
              (DoubleAt(next, i) <==>
                 i == |next| - 1 && OneTerminal(c, first, next) && !StartedSince(next, c.taskId, |first|))
    ensures OneTerminal(c, first, next) ==> forall i: nat :: OrphanAt(next, i) ==> OrphanAt(log, i)
  {
    forall i: nat | i < |first|
      ensures DoubleAt(next, i) <==>
                DoubleAt(log, i) ||
                (i == |first| - 1 && !StartedSince(first, c.taskId, |log|) && EndsInTerminal(log, c.taskId))
    {
      FirstDoubles(c, log, first, next, i);
    }
    forall i: nat | |first| <= i
      ensures DoubleAt(next, i) <==>
                i == |next| - 1 && OneTerminal(c, first, next) && !StartedSince(next, c.taskId, |first|)
    {
      SecondDoubles(c, first, next, i);
    }
    forall i: nat | OneTerminal(c, first, next) && OrphanAt(next, i) ensures OrphanAt(log, i) {
      SecondLeavesNoOrphan(c, log, first, next, i);
    }
  }
}
