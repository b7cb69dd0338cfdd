/** The per-attempt checks of the invariant monitor (monitor/checks.py). */
module Monitor {
  import opened Results
  import opened LogEvents
  import opened Sequences

  // --- the attempts of a task ---

  predicate Starts(b: Body, t: string) {
    b == TaskStarted(Some(t))
  }

  predicate Ends(b: Body, t: string) {
    b.TerminalOutcome? && b.taskId == Some(t)
  }

  /** Starts and terminals mark where attempts open and close. */
  predicate Marks(b: Body, t: string) {
    Starts(b, t) || Ends(b, t)
  }

  /** The task a row marks, if any; a null task id cannot be attributed to one. */
  function MarkedTask(b: Body): (r: Option<string>)
    ensures forall t :: r == Some(t) <==> Marks(b, t)
  {
    if b.TaskStarted? || b.TerminalOutcome? then b.taskId else None
  }

  /** The positions of a task's marks among the first `n` rows. */
  function MarksOf(log: Log, t: string, n: nat): seq<nat>
    requires n <= |log|
  {
    if n == 0 then []
    else MarksOf(log, t, n - 1) + (if Marks(log[n - 1].payload, t) then [n - 1] else [])
  }

  /** The tasks marked among the first `n` rows, in order of first appearance. */
  function Tasks(log: Log, n: nat): seq<string>
    requires n <= |log|
  {
    if n == 0 then []
    else
      var before := Tasks(log, n - 1);
      match MarkedTask(log[n - 1].payload)
      case Some(t) => if t in before then before else before + [t]
      case None => before
  }

  // --- one terminal per attempt ---

  datatype Flag = TwoTerminals(row: nat) | NoTerminal(row: nat)

  predicate Positions(log: Log, marks: seq<nat>) {
    forall k :: 0 <= k < |marks| ==> marks[k] < |log|
  }

  /** A terminal whose predecessor among its task's marks is a terminal too. */
  function Doubles(log: Log, marks: seq<nat>, n: nat): seq<Flag>
    requires n <= |marks| && Positions(log, marks)
  {
    if n < 2 then []
    else
      Doubles(log, marks, n - 1) +
      (if log[marks[n - 1]].payload.TerminalOutcome? && log[marks[n - 2]].payload.TerminalOutcome?
       then [TwoTerminals(marks[n - 1])] else [])
  }

  function TaskFlags(log: Log, marks: seq<nat>, orphans: bool): seq<Flag>
    requires Positions(log, marks)
  {
    Doubles(log, marks, |marks|) +
    (if orphans && marks != [] && log[marks[|marks| - 1]].payload.TaskStarted? then [NoTerminal(marks[|marks| - 1])] else [])
  }

  lemma {:induction false} MarksOfRows(log: Log, t: string, n: nat)
    requires n <= |log|
    ensures forall i: nat :: i in MarksOf(log, t, n) <==> i < n && Marks(log[i].payload, t)
  {
    if n > 0 {
      MarksOfRows(log, t, n - 1);
    }
  }

  lemma {:induction false} MarksOfAscend(log: Log, t: string, n: nat)
    requires n <= |log|
    ensures forall j, k :: 0 <= j < k < |MarksOf(log, t, n)| ==> MarksOf(log, t, n)[j] < MarksOf(log, t, n)[k]
  {
    if n > 0 {
      var front := MarksOf(log, t, n - 1);
      MarksOfAscend(log, t, n - 1);
      MarksOfRows(log, t, n - 1);
      assert forall k :: 0 <= k < |front| ==> front[k] in front;
    }
  }

  lemma MarksOfPositions(log: Log, t: string, n: nat)
    requires n <= |log|
    ensures Positions(log, MarksOf(log, t, n))
    ensures forall i: nat :: i in MarksOf(log, t, n) <==> i < n && Marks(log[i].payload, t)
    ensures forall j, k :: 0 <= j < k < |MarksOf(log, t, n)| ==> MarksOf(log, t, n)[j] < MarksOf(log, t, n)[k]
  {
    MarksOfRows(log, t, n);
    MarksOfAscend(log, t, n);
    assert forall k :: 0 <= k < |MarksOf(log, t, n)| ==> MarksOf(log, t, n)[k] in MarksOf(log, t, n);
  }

  function FlagsOf(log: Log, t: string, orphans: bool): seq<Flag> {
    MarksOfPositions(log, t, |log|);
    TaskFlags(log, MarksOf(log, t, |log|), orphans)
  }

  function FlagsOfAll(log: Log, tasks: seq<string>, orphans: bool): seq<Flag> {
    if tasks == [] then []
    else FlagsOfAll(log, tasks[..|tasks| - 1], orphans) + FlagsOf(log, tasks[|tasks| - 1], orphans)
  }

  ghost predicate AreMarks(log: Log, marks: seq<nat>)
    requires Positions(log, marks)
  {
    forall k :: 0 <= k < |marks| ==> log[marks[k]].payload.TaskStarted? || log[marks[k]].payload.TerminalOutcome?
  }

  /** The walk over one task's marks; `tiw` is set while the attempt already has a terminal. */
  method WalkTask(log: Log, marks: seq<nat>, orphans: bool) returns (flags: seq<Flag>)
    requires Positions(log, marks) && AreMarks(log, marks)
    ensures flags == TaskFlags(log, marks, orphans)
  {
    flags := [];
    var tiw, openStart: Option<nat> := false, None;
    for k := 0 to |marks|
      invariant flags == Doubles(log, marks, k)
      invariant tiw == (k > 0 && log[marks[k - 1]].payload.TerminalOutcome?)
      invariant openStart == if k > 0 && log[marks[k - 1]].payload.TaskStarted? then Some(marks[k - 1]) else None
    {
      if log[marks[k]].payload.TaskStarted? {
        tiw, openStart := false, Some(marks[k]);
      } else {
        if tiw {
          flags := flags + [TwoTerminals(marks[k])];
        }
        tiw, openStart := true, None;
      }
    }
    if orphans && openStart.Some? {
      flags := flags + [NoTerminal(openStart.value)];
    }
  }

  /** The marks of each task that has any. */
  function Grouped(log: Log, n: nat): map<string, seq<nat>>
    requires n <= |log|
  {
    map t | t in Tasks(log, n) :: MarksOf(log, t, n)
  }

  function AddMark(m: map<string, seq<nat>>, t: string, row: nat): map<string, seq<nat>> {
    m[t := (if t in m then m[t] else []) + [row]]
  }

  lemma {:induction false} UnmarkedTask(log: Log, t: string, n: nat)
    requires n <= |log| && t !in Tasks(log, n)
    ensures MarksOf(log, t, n) == []
  {
    if n > 0 {
      UnmarkedTask(log, t, n - 1);
    }
  }

  lemma UnmarkedRow(log: Log, n: nat)
    requires n < |log| && MarkedTask(log[n].payload).None?
    ensures Grouped(log, n + 1) == Grouped(log, n)
  {
    assert Tasks(log, n + 1) == Tasks(log, n);
    forall t ensures MarksOf(log, t, n + 1) == MarksOf(log, t, n) {
    }
  }

  lemma MarksNext(log: Log, t: string, n: nat, marked: string)
    requires n < |log| && MarkedTask(log[n].payload) == Some(marked)
    ensures MarksOf(log, t, n + 1) == if t == marked then MarksOf(log, t, n) + [n] else MarksOf(log, t, n)
  {
    assert Marks(log[n].payload, t) <==> t == marked;
  }

  lemma MarkedRow(log: Log, n: nat, marked: string)
    requires n < |log| && MarkedTask(log[n].payload) == Some(marked)
    ensures Grouped(log, n + 1) == AddMark(Grouped(log, n), marked, n)
  {
    var after, expected := Grouped(log, n + 1), AddMark(Grouped(log, n), marked, n);
    if marked !in Tasks(log, n) {
      UnmarkedTask(log, marked, n);
    }
    assert after.Keys == expected.Keys;
    forall t | t in after ensures after[t] == expected[t] {
      MarksNext(log, t, n, marked);
    }
  }

  lemma GroupedNext(log: Log, n: nat)
    requires n < |log|
    ensures Grouped(log, n + 1) ==
            match MarkedTask(log[n].payload) case None => Grouped(log, n) case Some(t) => AddMark(Grouped(log, n), t, n)
  {
    match MarkedTask(log[n].payload) {
      case None => UnmarkedRow(log, n);
      case Some(t) => MarkedRow(log, n, t);
    }
  }

  /** The marks of each task, with the tasks in the order they first appear. */
  method GroupByTask(log: Log) returns (order: seq<string>, perTask: map<string, seq<nat>>)
    ensures order == Tasks(log, |log|) && perTask == Grouped(log, |log|)
  {
    order, perTask := [], map[];
    for n := 0 to |log|
      invariant order == Tasks(log, n) && perTask == Grouped(log, n)
    {
      GroupedNext(log, n);
      var marked := MarkedTask(log[n].payload);
      if marked.Some? {
        order := if marked.value in perTask then order else order + [marked.value];
        perTask := AddMark(perTask, marked.value, n);
      }
    }
  }

  lemma AllMarks(log: Log, t: string)
    requires Positions(log, MarksOf(log, t, |log|))
    ensures AreMarks(log, MarksOf(log, t, |log|))
  {
    var m := MarksOf(log, t, |log|);
    MarksOfPositions(log, t, |log|);
    forall k | 0 <= k < |m| ensures Marks(log[m[k]].payload, t) {
      assert m[k] in m;
    }
  }

  lemma FlagsOfNext(log: Log, order: seq<string>, k: nat, orphans: bool)
    requires k < |order|
    ensures FlagsOfAll(log, order[..k + 1], orphans) == FlagsOfAll(log, order[..k], orphans) + FlagsOf(log, order[k], orphans)
  {
    assert order[..k + 1][..k] == order[..k];
  }

  /** Groups the marks by task, then walks each task. */
  method CheckTerminalPerTask(log: Log, orphans: bool) returns (flags: seq<Flag>)
    ensures flags == FlagsOfAll(log, Tasks(log, |log|), orphans)
  {
    var order, perTask := GroupByTask(log);
    flags := [];
    for k := 0 to |order|
      invariant flags == FlagsOfAll(log, order[..k], orphans)
    {
      var marks := perTask[order[k]];
      MarksOfPositions(log, order[k], |log|);
      AllMarks(log, order[k]);
      FlagsOfNext(log, order, k, orphans);
      var more := WalkTask(log, marks, orphans);
      flags := flags + more;
    }
    assert order[..|order|] == order;
  }

  // --- what is flagged, row by row ---

  /** The latest mark of a task before row `i`. */
  function LastMark(log: Log, t: string, i: nat): (r: Option<nat>)
    requires i <= |log|
    ensures r.Some? ==> r.value < i && Marks(log[r.value].payload, t)
    ensures forall k: nat :: k < i && Marks(log[k].payload, t) ==> r.Some? && k <= r.value
  {
    if i == 0 then None
    else if Marks(log[i - 1].payload, t) then Some(i - 1)
    else LastMark(log, t, i - 1)
  }

  /** A terminal that follows a terminal of the same task with no start between them. */
  predicate DoubleAt(log: Log, i: nat) {
    i < |log| && log[i].payload.TerminalOutcome? && log[i].payload.taskId.Some? &&
    var last := LastMark(log, log[i].payload.taskId.value, i);
    last.Some? && log[last.value].payload.TerminalOutcome?
  }

  /** A start that neither a terminal nor another start of its task follows. */
  predicate OrphanAt(log: Log, i: nat) {
    i < |log| && log[i].payload.TaskStarted? && log[i].payload.taskId.Some? &&
    LastMark(log, log[i].payload.taskId.value, |log|) == Some(i)
  }

  predicate Flagged(log: Log, orphans: bool, f: Flag) {
    match f
    case TwoTerminals(i) => DoubleAt(log, i)
    case NoTerminal(i) => orphans && OrphanAt(log, i)
  }

  lemma {:induction false} LastOfMarks(log: Log, t: string, n: nat)
    requires n <= |log|
    ensures var m := MarksOf(log, t, n); LastMark(log, t, n) == if m == [] then None else Some(m[|m| - 1])
  {
    if n > 0 {
      LastOfMarks(log, t, n - 1);
    }
  }

  lemma {:induction false} MarksBefore(log: Log, t: string, n: nat, k: nat)
    requires n <= |log| && k < |MarksOf(log, t, n)|
    ensures MarksOf(log, t, n)[k] < n && MarksOf(log, t, MarksOf(log, t, n)[k]) == MarksOf(log, t, n)[..k]
  {
    var front := MarksOf(log, t, n - 1);
    if k < |front| {
      MarksBefore(log, t, n - 1, k);
      assert MarksOf(log, t, n)[..k] == front[..k];
    } else {
      assert MarksOf(log, t, n)[..k] == front;
    }
  }

  lemma DoubleHere(log: Log, t: string, k: nat)
    requires k < |MarksOf(log, t, |log|)| && Positions(log, MarksOf(log, t, |log|))
    ensures var m := MarksOf(log, t, |log|);
            DoubleAt(log, m[k]) <==>
              k > 0 && log[m[k]].payload.TerminalOutcome? && log[m[k - 1]].payload.TerminalOutcome?
  {
    var m := MarksOf(log, t, |log|);
    MarksOfPositions(log, t, |log|);
    MarksBefore(log, t, |log|, k);
    LastOfMarks(log, t, m[k]);
    assert m[k] in m;
    assert Marks(log[m[k]].payload, t);
  }

  lemma {:induction false} DoublesExact(log: Log, t: string, n: nat)
    requires n <= |MarksOf(log, t, |log|)| && Positions(log, MarksOf(log, t, |log|))
    ensures var m := MarksOf(log, t, |log|);
            forall f :: f in Doubles(log, m, n) <==>
              f.TwoTerminals? && f.row in m[..n] && DoubleAt(log, f.row)
  {
    var m := MarksOf(log, t, |log|);
    if n > 0 {
      DoublesExact(log, t, n - 1);
      DoubleHere(log, t, n - 1);
      assert m[..n] == m[..n - 1] + [m[n - 1]];
    }
  }

  lemma FlagsOfExact(log: Log, t: string, orphans: bool)
    ensures forall f :: f in FlagsOf(log, t, orphans) <==>
              Flagged(log, orphans, f) && Marks(log[f.row].payload, t)
  {
    var m := MarksOf(log, t, |log|);
    MarksOfPositions(log, t, |log|);
    DoublesExact(log, t, |m|);
    LastOfMarks(log, t, |log|);
    assert m[..|m|] == m;
  }

  lemma {:induction false} DoublesDistinct(log: Log, t: string, n: nat)
    requires n <= |MarksOf(log, t, |log|)| && Positions(log, MarksOf(log, t, |log|))
    ensures Distinct(Doubles(log, MarksOf(log, t, |log|), n))
  {
    var m := MarksOf(log, t, |log|);
    if n >= 2 {
      DoublesDistinct(log, t, n - 1);
      DoublesExact(log, t, n - 1);
      MarksOfPositions(log, t, |log|);
      assert m[n - 1] !in m[..n - 1];
    }
  }

  lemma FlagsOfDistinct(log: Log, t: string, orphans: bool)
    ensures Distinct(FlagsOf(log, t, orphans))
  {
    var m := MarksOf(log, t, |log|);
    MarksOfPositions(log, t, |log|);
    DoublesDistinct(log, t, |m|);
    DoublesExact(log, t, |m|);
  }

  lemma {:induction false} TasksComplete(log: Log, n: nat)
    requires n <= |log|
    ensures Distinct(Tasks(log, n))
    ensures forall i: nat, t :: i < n && Marks(log[i].payload, t) ==> t in Tasks(log, n)
  {
    if n > 0 {
      TasksComplete(log, n - 1);
    }
  }

  lemma {:induction false} FlagsOfAllExact(log: Log, tasks: seq<string>, orphans: bool)
    requires Distinct(tasks)
    ensures Distinct(FlagsOfAll(log, tasks, orphans))
    ensures forall f :: f in FlagsOfAll(log, tasks, orphans) <==>
              Flagged(log, orphans, f) && exists t :: t in tasks && Marks(log[f.row].payload, t)
  {
    if tasks != [] {
      var front, t := tasks[..|tasks| - 1], tasks[|tasks| - 1];
      FlagsOfAllExact(log, front, orphans);
      FlagsOfExact(log, t, orphans);
      FlagsOfDistinct(log, t, orphans);
      assert t !in front && tasks == front + [t];
      DistinctConcat(FlagsOfAll(log, front, orphans), FlagsOf(log, t, orphans));
    }
  }

  /**
   The check flags, each once, exactly the terminals that follow a terminal of their task with no
   start in between, and, unless orphans are left out, the starts that nothing of their task follows.
   */
  lemma TerminalPerTaskExact(log: Log, orphans: bool)
    ensures Distinct(FlagsOfAll(log, Tasks(log, |log|), orphans))
    ensures forall f :: f in FlagsOfAll(log, Tasks(log, |log|), orphans) <==> Flagged(log, orphans, f)
  {
    TasksComplete(log, |log|);
    FlagsOfAllExact(log, Tasks(log, |log|), orphans);
    forall f | Flagged(log, orphans, f)
      ensures exists t :: t in Tasks(log, |log|) && Marks(log[f.row].payload, t)
    {
      var t := log[f.row].payload.taskId.value;
      assert Marks(log[f.row].payload, t);
    }
  }

  // --- the order of the flags ---

  /** The first mark of a task comes before any mark of the other. */
  ghost predicate AppearsBefore(log: Log, t: string, other: string) {
    exists i: nat :: i < |log| && Marks(log[i].payload, t) && forall k: nat :: k <= i ==> !Marks(log[k].payload, other)
  }

  /** Flags of one task go by row, flags of two by which of them appears first. */
  ghost predicate FlagBefore(log: Log, f: Flag, g: Flag) {
    f.row < |log| && g.row < |log| &&
    match (MarkedTask(log[f.row].payload), MarkedTask(log[g.row].payload))
    case (Some(t), Some(other)) => if t == other then f.row < g.row else AppearsBefore(log, t, other)
    case _ => false
  }

  ghost predicate FlagsOrdered(log: Log, flags: seq<Flag>) {
    forall j, k :: 0 <= j < k < |flags| ==> FlagBefore(log, flags[j], flags[k])
  }

  lemma {:induction false} TaskAppears(log: Log, n: nat, j: nat) returns (i: nat)
    requires n <= |log| && j < |Tasks(log, n)|
    ensures i < n && Marks(log[i].payload, Tasks(log, n)[j])
  {
    if j < |Tasks(log, n - 1)| {
      i := TaskAppears(log, n - 1, j);
    } else {
      i := n - 1;
    }
  }

  lemma {:induction false} TasksInOrder(log: Log, n: nat, j: nat, k: nat)
    requires n <= |log| && j < k < |Tasks(log, n)|
    ensures AppearsBefore(log, Tasks(log, n)[j], Tasks(log, n)[k])
  {
    if k < |Tasks(log, n - 1)| {
      TasksInOrder(log, n - 1, j, k);
    } else {
      TasksComplete(log, n - 1);
      var i := TaskAppears(log, n - 1, j);
    }
  }

  /** The doubles stand at rows of the marks, each after the one before. */
  lemma {:induction false} DoublesAscend(log: Log, marks: seq<nat>, n: nat, j: nat)
    requires n <= |marks| && Positions(log, marks) && j < |Doubles(log, marks, n)|
    requires forall a, b :: 0 <= a < b < |marks| ==> marks[a] < marks[b]
    ensures Doubles(log, marks, n)[j].row in marks[..n]
    ensures j > 0 ==> Doubles(log, marks, n)[j - 1].row < Doubles(log, marks, n)[j].row
  {
    assert marks[..n] == marks[..n - 1] + [marks[n - 1]];
    if j < |Doubles(log, marks, n - 1)| {
      DoublesAscend(log, marks, n - 1, j);
    } else if j > 0 {
      DoublesAscend(log, marks, n - 1, j - 1);
    }
  }

  lemma {:induction false} DoublesRows(log: Log, marks: seq<nat>, j: nat, k: nat)
    requires Positions(log, marks) && j < k < |Doubles(log, marks, |marks|)|
    requires forall a, b :: 0 <= a < b < |marks| ==> marks[a] < marks[b]
    ensures Doubles(log, marks, |marks|)[j].row < Doubles(log, marks, |marks|)[k].row
    decreases k
  {
    DoublesAscend(log, marks, |marks|, k);
    if j < k - 1 {
      DoublesRows(log, marks, j, k - 1);
    }
  }

  lemma FlagsOfMark(log: Log, t: string, orphans: bool, j: nat)
    requires j < |FlagsOf(log, t, orphans)|
    ensures FlagsOf(log, t, orphans)[j].row < |log| && Marks(log[FlagsOf(log, t, orphans)[j].row].payload, t)
  {
    FlagsOfExact(log, t, orphans);
    assert FlagsOf(log, t, orphans)[j] in FlagsOf(log, t, orphans);
  }

  lemma FlagsOfRows(log: Log, t: string, orphans: bool, j: nat, k: nat)
    requires j < k < |FlagsOf(log, t, orphans)|
    ensures FlagsOf(log, t, orphans)[j].row < FlagsOf(log, t, orphans)[k].row
  {
    var m := MarksOf(log, t, |log|);
    MarksOfPositions(log, t, |log|);
    if k < |Doubles(log, m, |m|)| {
      DoublesRows(log, m, j, k);
    } else {
      OrphanRowLast(log, t, j);
    }
  }

  lemma SameTaskBefore(log: Log, t: string, f: Flag, g: Flag)
    requires f.row < g.row < |log| && Marks(log[f.row].payload, t) && Marks(log[g.row].payload, t)
    ensures FlagBefore(log, f, g)
  {
  }

  lemma OtherTaskBefore(log: Log, t: string, other: string, f: Flag, g: Flag)
    requires f.row < |log| && g.row < |log| && Marks(log[f.row].payload, t) && Marks(log[g.row].payload, other)
    requires t != other && AppearsBefore(log, t, other)
    ensures FlagBefore(log, f, g)
  {
  }

  lemma OrphanRowLast(log: Log, t: string, j: nat)
    requires Positions(log, MarksOf(log, t, |log|)) && MarksOf(log, t, |log|) != []
    requires var m := MarksOf(log, t, |log|); j < |Doubles(log, m, |m|)| && log[m[|m| - 1]].payload.TaskStarted?
    ensures var m := MarksOf(log, t, |log|); Doubles(log, m, |m|)[j].row < m[|m| - 1]
  {
    var m := MarksOf(log, t, |log|);
    MarksOfPositions(log, t, |log|);
    DoublesExact(log, t, |m|);
    DoublesAscend(log, m, |m|, j);
    var f := Doubles(log, m, |m|)[j];
    assert f in Doubles(log, m, |m|);
    assert log[f.row].payload.TerminalOutcome?;
    assert m[..|m|] == m;
    var a :| 0 <= a < |m| && m[a] == f.row;
  }

  ghost predicate AllBefore(log: Log, front: seq<string>, t: string) {
    forall s :: s in front ==> s != t && AppearsBefore(log, s, t)
  }

  /** A flag of the last task comes after those of the tasks before it. */
  lemma LastTaskAfter(log: Log, front: seq<string>, t: string, orphans: bool, f: Flag, g: Flag)
    requires Distinct(front) && f in FlagsOfAll(log, front, orphans) && g in FlagsOf(log, t, orphans)
    requires AllBefore(log, front, t)
    ensures FlagBefore(log, f, g)
  {
    FlagsOfAllExact(log, front, orphans);
    FlagsOfExact(log, t, orphans);
    var s :| s in front && Marks(log[f.row].payload, s);
    OtherTaskBefore(log, s, t, f, g);
  }

  lemma LastTaskOrdered(log: Log, t: string, orphans: bool, j: nat, k: nat)
    requires j < k < |FlagsOf(log, t, orphans)|
    ensures FlagBefore(log, FlagsOf(log, t, orphans)[j], FlagsOf(log, t, orphans)[k])
  {
    FlagsOfMark(log, t, orphans, j);
    FlagsOfMark(log, t, orphans, k);
    FlagsOfRows(log, t, orphans, j, k);
    SameTaskBefore(log, t, FlagsOf(log, t, orphans)[j], FlagsOf(log, t, orphans)[k]);
  }

  ghost predicate ListedByAppearance(log: Log, tasks: seq<string>) {
    Distinct(tasks) && forall a, b :: 0 <= a < b < |tasks| ==> AppearsBefore(log, tasks[a], tasks[b])
  }

  lemma ListedFront(log: Log, tasks: seq<string>)
    requires ListedByAppearance(log, tasks) && tasks != []
    ensures ListedByAppearance(log, tasks[..|tasks| - 1])
    ensures AllBefore(log, tasks[..|tasks| - 1], tasks[|tasks| - 1])
  {
  }

  lemma OrderedConcat(log: Log, a: seq<Flag>, b: seq<Flag>)
    requires FlagsOrdered(log, a) && FlagsOrdered(log, b)
    requires forall f, g :: f in a && g in b ==> FlagBefore(log, f, g)
    ensures FlagsOrdered(log, a + b)
  {
    forall j, k | 0 <= j < k < |a + b| ensures FlagBefore(log, (a + b)[j], (a + b)[k]) {
      if j < |a| <= k {
        assert a[j] in a && b[k - |a|] in b;
      } else if |a| <= j {
        assert FlagBefore(log, b[j - |a|], b[k - |a|]);
      } else {
        assert FlagBefore(log, a[j], a[k]);
      }
    }
  }

  lemma {:induction false} FlagsOfAllOrdered(log: Log, tasks: seq<string>, orphans: bool)
    requires ListedByAppearance(log, tasks)
    ensures FlagsOrdered(log, FlagsOfAll(log, tasks, orphans))
  {
    if tasks != [] {
      var front, t := tasks[..|tasks| - 1], tasks[|tasks| - 1];
      var a, b := FlagsOfAll(log, front, orphans), FlagsOf(log, t, orphans);
      ListedFront(log, tasks);
      FlagsOfAllOrdered(log, front, orphans);
      forall j, k | 0 <= j < k < |b| ensures FlagBefore(log, b[j], b[k]) {
        LastTaskOrdered(log, t, orphans, j, k);
      }
      forall f, g | f in a && g in b ensures FlagBefore(log, f, g) {
        LastTaskAfter(log, front, t, orphans, f, g);
      }
      OrderedConcat(log, a, b);
    }
  }

  /** The check goes through the tasks in the order in which they appear in the log, and through each by row. */
  lemma FlagsComeInOrder(log: Log, orphans: bool)
    ensures FlagsOrdered(log, FlagsOfAll(log, Tasks(log, |log|), orphans))
  {
    TasksComplete(log, |log|);
    forall j, k | 0 <= j < k < |Tasks(log, |log|)|
      ensures AppearsBefore(log, Tasks(log, |log|)[j], Tasks(log, |log|)[k])
    {
      TasksInOrder(log, |log|, j, k);
    }
    FlagsOfAllOrdered(log, Tasks(log, |log|), orphans);
  }

  // --- done is earned ---

  predicate Passes(b: Body, t: string) {
    b == VerifierOutcome(Some(t), true)
  }

  predicate Certifies(b: Body, t: string) {
    b == ReviewerCertified(Some(t))
  }

  /** The position just after the latest start of a task before row `i`, or the start of the log. */
  function AttemptOpens(log: Log, t: string, i: nat): (r: nat)
    requires i <= |log|
    ensures r <= i && (r > 0 ==> Starts(log[r - 1].payload, t))
    ensures forall k: nat :: r <= k < i ==> !Starts(log[k].payload, t)
  {
    if i == 0 then 0 else if Starts(log[i - 1].payload, t) then i else AttemptOpens(log, t, i - 1)
  }

  predicate SomePass(log: Log, t: string, lo: nat, i: nat)
    requires i <= |log|
  {
    exists k: nat :: lo <= k < i && Passes(log[k].payload, t)
  }

  predicate SomeCert(log: Log, t: string, lo: nat, i: nat)
    requires i <= |log|
  {
    exists k: nat :: lo <= k < i && Certifies(log[k].payload, t)
  }

  /** Before row `i`, the running attempt of a task has both a verifier pass and a certification. */
  predicate EarnedBy(log: Log, t: string, i: nat)
    requires i <= |log|
  {
    var lo := AttemptOpens(log, t, i);
    SomePass(log, t, lo, i) && SomeCert(log, t, lo, i)
  }

  predicate Unearned(log: Log, i: nat)
    requires i < |log|
  {
    match log[i].payload
    case TerminalOutcome(tid, Completed) => tid.None? || !EarnedBy(log, tid.value, i)
    case _ => false
  }

  /** The unearned completions among the first `n` rows. */
  function UnearnedRows(log: Log, n: nat): seq<nat>
    requires n <= |log|
  {
    if n == 0 then [] else UnearnedRows(log, n - 1) + (if Unearned(log, n - 1) then [n - 1] else [])
  }

  /** Looks up the evidence in the attempt window of every completed terminal. */
  method CheckDoneEarned(log: Log) returns (rows: seq<nat>)
    ensures rows == UnearnedRows(log, |log|)
  {
    rows := [];
    for i := 0 to |log|
      invariant rows == UnearnedRows(log, i)
    {
      if log[i].payload.TerminalOutcome? && log[i].payload.outcome == Completed {
        var tid := log[i].payload.taskId;
        var passed, certified := false, false;
        if tid.Some? {
          var lo := AttemptOpens(log, tid.value, i);
          passed, certified := SomePass(log, tid.value, lo, i), SomeCert(log, tid.value, lo, i);
        }
        if !(passed && certified) {
          rows := rows + [i];
        }
      }
    }
  }

  // --- the same verdicts in one pass ---

  /** Whether the running attempt has been passed, and whether it has been certified. */
  datatype Evidence = Evidence(passed: bool, certified: bool)

  function EvidenceIn(m: map<string, Evidence>, t: string): Evidence {
    if t in m then m[t] else Evidence(false, false)
  }

  /** One state per task, reset whenever the task starts. */
  function Observe(m: map<string, Evidence>, b: Body): map<string, Evidence> {
    match b
    case TaskStarted(Some(t)) => m[t := Evidence(false, false)]
    case VerifierOutcome(Some(t), true) => m[t := EvidenceIn(m, t).(passed := true)]
    case ReviewerCertified(Some(t)) => m[t := EvidenceIn(m, t).(certified := true)]
    case _ => m
  }

  function Observed(log: Log, n: nat): map<string, Evidence>
    requires n <= |log|
  {
    if n == 0 then map[] else Observe(Observed(log, n - 1), log[n - 1].payload)
  }

  /** What the automaton reports, having seen each row once. */
  function AutomatonRows(log: Log, n: nat): seq<nat>
    requires n <= |log|
  {
    if n == 0 then []
    else
      AutomatonRows(log, n - 1) +
      match log[n - 1].payload
      case TerminalOutcome(Some(t), Completed) =>
        if EvidenceIn(Observed(log, n - 1), t) == Evidence(true, true) then [] else [n - 1]
      case TerminalOutcome(None, Completed) => [n - 1]
      case _ => []
  }

  lemma ObserveStep(m: map<string, Evidence>, b: Body, t: string)
    ensures EvidenceIn(Observe(m, b), t) ==
            if Starts(b, t) then Evidence(false, false)
            else Evidence(EvidenceIn(m, t).passed || Passes(b, t), EvidenceIn(m, t).certified || Certifies(b, t))
  {
  }

  lemma WindowGrows(log: Log, t: string, lo: nat, n: nat)
    requires lo < n <= |log|
    ensures SomePass(log, t, lo, n) <==> SomePass(log, t, lo, n - 1) || Passes(log[n - 1].payload, t)
    ensures SomeCert(log, t, lo, n) <==> SomeCert(log, t, lo, n - 1) || Certifies(log[n - 1].payload, t)
  {
  }

  lemma {:induction false} ObservedIsWindow(log: Log, t: string, n: nat)
    requires n <= |log|
    ensures var lo := AttemptOpens(log, t, n);
            EvidenceIn(Observed(log, n), t) == Evidence(SomePass(log, t, lo, n), SomeCert(log, t, lo, n))
  {
    if n > 0 {
      ObservedIsWindow(log, t, n - 1);
      ObserveStep(Observed(log, n - 1), log[n - 1].payload, t);
      if !Starts(log[n - 1].payload, t) {
        WindowGrows(log, t, AttemptOpens(log, t, n), n);
      }
    }
  }

  /** The window queries give the verdicts of an automaton that never looks back. */
  lemma {:induction false} AutomatonAgrees(log: Log, n: nat)
    requires n <= |log|
    ensures UnearnedRows(log, n) == AutomatonRows(log, n)
  {
    if n > 0 {
      AutomatonAgrees(log, n - 1);
      match log[n - 1].payload {
        case TerminalOutcome(Some(t), _) => ObservedIsWindow(log, t, n - 1);
        case _ =>
      }
    }
  }

  // --- what later rows cannot change ---

  lemma {:induction false} WindowLocal(log: Log, more: Log, t: string, i: nat)
    requires i <= |log|
    ensures AttemptOpens(log + more, t, i) == AttemptOpens(log, t, i)
    ensures LastMark(log + more, t, i) == LastMark(log, t, i)
  {
    if i > 0 {
      WindowLocal(log, more, t, i - 1);
      assert (log + more)[i - 1] == log[i - 1];
    }
  }

  lemma EarnedLocal(log: Log, more: Log, t: string, i: nat)
    requires i <= |log|
    ensures EarnedBy(log + more, t, i) == EarnedBy(log, t, i)
  {
    WindowLocal(log, more, t, i);
    assert forall k: nat :: k < |log| ==> (log + more)[k] == log[k];
  }

  lemma UnearnedAtLocal(log: Log, more: Log, i: nat)
    requires i < |log|
    ensures Unearned(log + more, i) == Unearned(log, i)
  {
    assert (log + more)[i] == log[i];
    match log[i].payload {
      case TerminalOutcome(Some(t), _) => EarnedLocal(log, more, t, i);
      case _ =>
    }
  }

  lemma {:induction false} UnearnedLocal(log: Log, more: Log, n: nat)
    requires n <= |log|
    ensures UnearnedRows(log + more, n) == UnearnedRows(log, n)
  {
    if n > 0 {
      UnearnedLocal(log, more, n - 1);
      UnearnedAtLocal(log, more, n - 1);
    }
  }

  lemma {:induction false} UnearnedPrefix(log: Log, n: nat, m: nat)
    requires n <= m <= |log|
    ensures UnearnedRows(log, n) <= UnearnedRows(log, m)
    ensures forall i :: i in UnearnedRows(log, m)[|UnearnedRows(log, n)|..] ==> n <= i < m
  {
    if n < m {
      UnearnedPrefix(log, n, m - 1);
      var k := |UnearnedRows(log, n)|;
      var last := if Unearned(log, m - 1) then [m - 1] else [];
      assert UnearnedRows(log, m)[k..] == UnearnedRows(log, m - 1)[k..] + last;
    }
  }

  lemma DoubleLocal(log: Log, more: Log, i: nat)
    requires i < |log|
    ensures DoubleAt(log + more, i) == DoubleAt(log, i)
  {
    if log[i].payload.TerminalOutcome? && log[i].payload.taskId.Some? {
      WindowLocal(log, more, log[i].payload.taskId.value, i);
    }
  }

  /**
   Extending the log never changes the verdict on an earlier terminal: the earlier reports stay, in
   their order, and what is added is about later rows.
   */
  lemma VerdictsAreFinal(log: Log, more: Log)
    ensures UnearnedRows(log, |log|) <= UnearnedRows(log + more, |log + more|)
    ensures forall i :: i in UnearnedRows(log + more, |log + more|)[|UnearnedRows(log, |log|)|..] ==> |log| <= i
    ensures forall i: nat :: i < |log| ==> DoubleAt(log + more, i) == DoubleAt(log, i)
  {
    UnearnedLocal(log, more, |log|);
    UnearnedPrefix(log + more, |log|, |log + more|);
    forall i: nat | i < |log| ensures DoubleAt(log + more, i) == DoubleAt(log, i) {
      DoubleLocal(log, more, i);
    }
  }
}
