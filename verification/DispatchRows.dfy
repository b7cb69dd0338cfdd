/** The rows and the result of a dispatch as a table over what its attempts meet (console/developer.py, roles/director.py). */
module DispatchRows {
  import opened Results
  import opened EventLog
  import opened LogEvents
  import opened Dispatch
  import opened DispatchLaws

  /** The bodies of the rows an attempt adds, the life it leaves the task in, and whether it raises. */
  datatype Entry = Entry(rows: seq<Body>, life: Life, raised: Option<Fault>)

  function Terminal(t: string, o: LogEvents.Outcome): Body {
    TerminalOutcome(Some(t), o)
  }

  /** What a queued task's work adds after its start. */
  function BuiltEntry(t: string, final: bool, w: Work): Entry {
    var pass, fail := VerifierOutcome(Some(t), true), VerifierOutcome(Some(t), false);
    match w
    case Unstarted(fault) => Entry([], Queued, Some(fault))
    case Unbuilt(fault) => Entry([], Queued, Some(fault))
    case Unverified(fault) => Entry([], Running, Some(fault))
    case Failing(_, Some(fault)) => Entry([fail], Running, Some(fault))
    case Failing(retryable, None) =>
      if retryable && !final then Entry([fail], Queued, None) else Entry([fail, Terminal(t, Rejected)], Done, None)
    case Unreviewed(fault) => Entry([pass], Running, Some(fault))
    case Declined => Entry([pass, Other("reviewer_rejected"), Terminal(t, Rejected)], Done, None)
    case Certified(commit) => Entry([pass, ReviewerCertified(Some(t)), Terminal(t, Completed)], Done, commit)
  }

  /** A task that is no longer queued gets no further than its start. */
  function WorkEntry(t: string, life: Life, final: bool, w: Work): Entry {
    match w
    case Unstarted(fault) => Entry([], life, Some(fault))
    case Unbuilt(fault) => Entry([TaskStarted(Some(t))], life, Some(fault))
    case _ =>
      if life != Queued then Entry([TaskStarted(Some(t))], life, Some(Hard))
      else
        var built := BuiltEntry(t, final, w);
        built.(rows := [TaskStarted(Some(t))] + built.rows)
  }

  function AttemptEntry(t: string, life: Life, final: bool, a: Attempt): Entry {
    match a
    case Denied => Entry([Terminal(t, Aborted)], life, None)
    case Refused => Entry([TaskStarted(Some(t)), Terminal(t, Rejected)], life, None)
    case Worked(w) => WorkEntry(t, life, final, w)
    case Capped(w) =>
      var work := WorkEntry(t, life, final, w);
      Entry(work.rows + [Other("budget_exceeded"), Terminal(t, Aborted)], work.life, None)
  }

  /** The outcome of the last terminal among the rows. */
  function LastOutcome(rows: seq<Body>): Option<LogEvents.Outcome> {
    if rows == [] then None
    else
      match rows[|rows| - 1]
      case TerminalOutcome(_, o) => Some(o)
      case _ => LastOutcome(rows[..|rows| - 1])
  }

  /** All rows of a dispatch, and what it returns. */
  datatype Whole = Whole(rows: seq<Body>, life: Life, result: Dispatched)

  /** A terminal that an attempt leaves without raising is returned, and ends the dispatch. */
  predicate Settles(e: Entry) {
    e.raised.None? && LastOutcome(e.rows).Some?
  }

  /** The end after an attempt that no other follows: without a terminal to return, an abort is forced. */
  function Conclude(t: string, e: Entry): Whole {
    if Settles(e) then Whole(e.rows, e.life, Returned(LastOutcome(e.rows).value))
    else if e.life == Done then Whole(e.rows, Done, Raised)
    else Whole(e.rows + [Terminal(t, Aborted)], Done, Returned(Aborted))
  }

  /**
   Attempts `k` to `retries`: one that leaves no terminal, or that raises the transient error, is followed by the
   next, if there is one.
   */
  function Outlook(t: string, life: Life, script: nat -> Attempt, k: nat, retries: nat): Whole
    requires k <= retries
    decreases retries - k
  {
    var e := AttemptEntry(t, life, k == retries, script(k));
    if k < retries && !Settles(e) && e.raised != Some(Hard) then
      var rest := Outlook(t, e.life, script, k + 1, retries);
      rest.(rows := e.rows + rest.rows)
    else Conclude(t, e)
  }

  // --- what a dispatch appends is what the table says ---

  /** The row at `i` carries this body, and the stamp and the link that every emit gives. */
  ghost predicate Carries(c: Context, log: Log, i: nat, b: Body) {
    && i < |log| && log[i].payload == b && log[i].eventType == c.name(b)
    && log[i].eventId == c.uuid(i) && log[i].correlationId == c.correlationId && log[i].seqNo == i + 1
    && Links(c.codec, LastHash(log[..i]), log[i])
  }

  /** The log grew by rows with these bodies. */
  ghost predicate Adds(c: Context, log: Log, next: Log, rows: seq<Body>) {
    && log <= next && |next| == |log| + |rows|
    && forall k: nat :: k < |rows| ==> Carries(c, next, |log| + k, rows[k])
  }

  lemma EmitCarries(c: Context, log: Log, b: Body)
    ensures Carries(c, Emit(c, log, b), |log|, b)
  {
  }

  lemma CarriesStays(c: Context, log: Log, next: Log, i: nat, b: Body)
    requires Carries(c, log, i, b) && log <= next
    ensures Carries(c, next, i, b)
  {
    assert next[..i] == log[..i];
  }

  lemma AddsMore(c: Context, log: Log, mid: Log, next: Log, a: seq<Body>, b: seq<Body>)
    requires Adds(c, log, mid, a) && Adds(c, mid, next, b)
    ensures Adds(c, log, next, a + b)
  {
    forall k: nat | k < |a + b| ensures Carries(c, next, |log| + k, (a + b)[k]) {
      if k < |a| {
        CarriesStays(c, mid, next, |log| + k, a[k]);
      } else {
        assert Carries(c, next, |mid| + (k - |a|), b[k - |a|]);
      }
    }
  }

  lemma EmitAdds(c: Context, log: Log, mid: Log, rows: seq<Body>, b: Body)
    requires Adds(c, log, mid, rows)
    ensures Adds(c, log, Emit(c, mid, b), rows + [b])
  {
    EmitCarries(c, mid, b);
    AddsMore(c, log, mid, Emit(c, mid, b), rows, [b]);
  }

  lemma NothingAdds(c: Context, log: Log)
    ensures Adds(c, log, log, [])
  {
  }

  ghost predicate Leaves(c: Context, log: Log, left: Left, e: Entry) {
    Adds(c, log, left.log, e.rows) && left.life == e.life && left.raised == e.raised
  }

  lemma AddsOne(c: Context, log: Log, a: Body)
    ensures Adds(c, log, Emit(c, log, a), [a])
  {
    EmitAdds(c, log, log, [], a);
    assert [] + [a] == [a];
  }

  lemma AddsTwo(c: Context, log: Log, a: Body, b: Body)
    ensures Adds(c, log, Emit(c, Emit(c, log, a), b), [a, b])
  {
    AddsOne(c, log, a);
    EmitAdds(c, log, Emit(c, log, a), [a], b);
  }

  lemma AddsThree(c: Context, log: Log, a: Body, b: Body, d: Body)
    ensures Adds(c, log, Emit(c, Emit(c, Emit(c, log, a), b), d), [a, b, d])
  {
    AddsTwo(c, log, a, b);
    EmitAdds(c, log, Emit(c, Emit(c, log, a), b), [a, b], d);
  }

  lemma ReviewedLeaves(c: Context, log: Log, final: bool, w: Work)
    requires log != [] && log[|log| - 1].payload == TaskStarted(Some(c.taskId))
    requires w.Unreviewed? || w.Declined? || w.Certified?
    ensures Leaves(c, log, Review(c, Emit(c, log, VerifierOutcome(Some(c.taskId), true)), w),
                   BuiltEntry(c.taskId, final, w))
  {
    var t := c.taskId;
    var pass := VerifierOutcome(Some(t), true);
    match w {
      case Unreviewed(_) => AddsOne(c, log, pass);
      case Declined => AddsThree(c, log, pass, Other("reviewer_rejected"), Terminal(t, Rejected));
      case Certified(_) =>
        AddsThree(c, log, pass, ReviewerCertified(Some(t)), Terminal(t, Completed));
        CertifiedIsEarned(c, log);
    }
  }

  lemma BuiltLeaves(c: Context, log: Log, final: bool, w: Work)
    requires log != [] && log[|log| - 1].payload == TaskStarted(Some(c.taskId)) && !w.Unstarted? && !w.Unbuilt?
    ensures Leaves(c, log, Accept(c, log, final, w), BuiltEntry(c.taskId, final, w))
  {
    var fail := VerifierOutcome(Some(c.taskId), false);
    match w {
      case Unverified(_) => NothingAdds(c, log);
      case Failing(_, _) =>
        AddsOne(c, log, fail);
        AddsTwo(c, log, fail, Terminal(c.taskId, Rejected));
      case _ => ReviewedLeaves(c, log, final, w);
    }
  }

  lemma WorkLeavesEntry(c: Context, log: Log, life: Life, final: bool, w: Work)
    ensures Leaves(c, log, RunWork(c, log, life, final, w), WorkEntry(c.taskId, life, final, w))
  {
    var start := TaskStarted(Some(c.taskId));
    var started := Emit(c, log, start);
    NothingAdds(c, log);
    AddsOne(c, log, start);
    if !w.Unstarted? && !w.Unbuilt? && life == Queued {
      BuiltLeaves(c, started, final, w);
      AddsMore(c, log, started, Accept(c, started, final, w).log, [start], BuiltEntry(c.taskId, final, w).rows);
    }
  }

  lemma CutOffEntry(c: Context, log: Log, left: Left, rows: seq<Body>)
    requires Adds(c, log, left.log, rows)
    ensures Adds(c, log, CutOff(c, left).log, rows + [Other("budget_exceeded"), Terminal(c.taskId, Aborted)])
  {
    var noted := Other("budget_exceeded");
    EmitAdds(c, log, left.log, rows, noted);
    EmitAdds(c, log, Emit(c, left.log, noted), rows + [noted], Terminal(c.taskId, Aborted));
    assert rows + [noted] + [Terminal(c.taskId, Aborted)] == rows + [noted, Terminal(c.taskId, Aborted)];
  }

  /** An attempt adds the rows of the table, and leaves the life and the error of the table. */
  lemma AttemptLeavesEntry(c: Context, log: Log, life: Life, final: bool, a: Attempt)
    ensures Leaves(c, log, RunAttempt(c, log, life, final, a), AttemptEntry(c.taskId, life, final, a))
  {
    var t := c.taskId;
    match a {
      case Denied => AddsOne(c, log, Terminal(t, Aborted));
      case Refused => AddsTwo(c, log, TaskStarted(Some(t)), Terminal(t, Rejected));
      case Worked(w) => WorkLeavesEntry(c, log, life, final, w);
      case Capped(w) =>
        WorkLeavesEntry(c, log, life, final, w);
        CutOffEntry(c, log, RunWork(c, log, life, final, w), WorkEntry(t, life, final, w).rows);
    }
  }

  /** Every terminal among the rows is the task's own. */
  ghost predicate OwnRows(t: string, rows: seq<Body>) {
    forall k :: 0 <= k < |rows| && rows[k].TerminalOutcome? ==> rows[k].taskId == Some(t)
  }

  lemma {:induction false} ReadBack(c: Context, log: Log, next: Log, rows: seq<Body>)
    requires Adds(c, log, next, rows) && OwnRows(c.taskId, rows)
    ensures TerminalSince(next, c.taskId, |log|) == LastOutcome(rows)
  {
    if rows != [] {
      var n := |rows| - 1;
      assert Carries(c, next, |log| + n, rows[n]);
      forall k: nat | k < n ensures Carries(c, next[..|next| - 1], |log| + k, rows[..n][k]) {
        assert Carries(c, next, |log| + k, rows[k]);
        assert next[..|next| - 1][..|log| + k] == next[..|log| + k];
      }
      ReadBack(c, log, next[..|next| - 1], rows[..n]);
    }
  }

  lemma EntryOwn(t: string, life: Life, final: bool, a: Attempt)
    ensures OwnRows(t, AttemptEntry(t, life, final, a).rows)
  {
  }

  ghost predicate EndsAs(c: Context, log: Log, s: (Log, Life, Dispatched), w: Whole) {
    Adds(c, log, s.0, w.rows) && s.1 == w.life && s.2 == w.result
  }

  lemma ReadsBack(c: Context, log: Log, left: Left, e: Entry)
    requires Leaves(c, log, left, e) && OwnRows(c.taskId, e.rows)
    ensures TerminalLeft(c, log, left) == (if e.raised.None? then LastOutcome(e.rows) else None)
    ensures GoesOn(c, log, left) <==> !Settles(e) && e.raised != Some(Hard)
  {
    ReadBack(c, log, left.log, e.rows);
    match e.raised {
      case Some(fault) => assert fault == Transient || fault == Hard;
      case None =>
    }
  }

  lemma RoundIs(c: Context, log: Log, life: Life, final: bool, a: Attempt)
    ensures var left, e := RunAttempt(c, log, life, final, a), AttemptEntry(c.taskId, life, final, a);
            && Leaves(c, log, left, e)
            && TerminalLeft(c, log, left) == (if e.raised.None? then LastOutcome(e.rows) else None)
            && (GoesOn(c, log, left) <==> !Settles(e) && e.raised != Some(Hard))
  {
    AttemptLeavesEntry(c, log, life, final, a);
    EntryOwn(c.taskId, life, final, a);
    ReadsBack(c, log, RunAttempt(c, log, life, final, a), AttemptEntry(c.taskId, life, final, a));
  }

  lemma RoundConcludes(c: Context, log: Log, left: Left, e: Entry, terminal: Option<LogEvents.Outcome>)
    requires Leaves(c, log, left, e) && terminal == if e.raised.None? then LastOutcome(e.rows) else None
    ensures EndsAs(c, log, Settle(c, End(left.log, left.life, terminal)), Conclude(c.taskId, e))
  {
    EmitAdds(c, log, left.log, e.rows, Terminal(c.taskId, Aborted));
  }

  lemma {:induction false} LoopIsOutlook(c: Context, log: Log, life: Life, script: nat -> Attempt, k: nat, retries: nat)
    requires k <= retries
    ensures EndsAs(c, log, Settle(c, Loop(c, log, life, script, k, retries)), Outlook(c.taskId, life, script, k, retries))
    decreases retries - k
  {
    var left := RunAttempt(c, log, life, k == retries, script(k));
    var e := AttemptEntry(c.taskId, life, k == retries, script(k));
    RoundIs(c, log, life, k == retries, script(k));
    if k < retries && GoesOn(c, log, left) {
      LoopIsOutlook(c, left.log, left.life, script, k + 1, retries);
      var rest := Settle(c, Loop(c, left.log, left.life, script, k + 1, retries));
      AddsMore(c, log, left.log, rest.0, e.rows, Outlook(c.taskId, left.life, script, k + 1, retries).rows);
    } else {
      RoundConcludes(c, log, left, e, TerminalLeft(c, log, left));
    }
  }

  /**
   What a dispatch appends and returns depends on what its attempts meet and on nothing in the log: the rows are
   those of the table, stamped and linked, and so is the result.
   */
  lemma DispatchFollows(c: Context, log: Log, script: nat -> Attempt, retries: nat)
    ensures EndsAs(c, log, Settle(c, Loop(c, log, Queued, script, 0, retries)),
                   Outlook(c.taskId, Queued, script, 0, retries))
  {
    LoopIsOutlook(c, log, Queued, script, 0, retries);
  }
}
