/** Any number of writers on one store, interleaved at every statement of `emit_sync` (events/bus.py). */
module Writers {
  import opened Results
  import opened EventLog
  import opened Projections
  import opened EventBus

  /** Where a writer stands; everything but `Idle` is inside a transaction holding the write lock. */
  datatype Phase<P, R, D> =
    | Idle
    | Open(working: Store<P, R, D>)
    | Began(working: Store<P, R, D>, request: Request<P>)
    | TailRead(working: Store<P, R, D>, request: Request<P>, prev: string)
    | Applying(working: Store<P, R, D>, request: Request<P>, event: Event<P>, done: nat)

  datatype State<P, R, D> = State(committed: Store<P, R, D>, writers: seq<Phase<P, R, D>>, lock: Option<nat>)

  /** A writer's next statement; `Crash` ends its transaction without a commit. */
  datatype Step<P, D> =
    | Write(writer: nat, other: D)
    | Emit(writer: nat, request: Request<P>)
    | ReadTail(writer: nat)
    | Insert(writer: nat)
    | Handle(writer: nat)
    | Commit(writer: nat)
    | Crash(writer: nat)

  datatype System<!P, !R> = System(codec: Codec<P>, registered: Registered<P, R>) {
    function HandlersFor(r: Request<P>): seq<Handler<P, R>> {
      registered.HandlersFor(r.eventType)
    }
  }

  function Leave<P, R, D>(s: State<P, R, D>, w: nat): State<P, R, D>
    requires w < |s.writers|
  {
    s.(writers := s.writers[w := Idle], lock := None)
  }

  function Move<P, R, D>(s: State<P, R, D>, w: nat, p: Phase<P, R, D>): State<P, R, D>
    requires w < |s.writers|
  {
    s.(writers := s.writers[w := p], lock := Some(w))
  }

  function InsertRow<P, R, D>(sys: System<P, R>, p: Phase<P, R, D>): Phase<P, R, D>
    requires p.TailRead?
  {
    var r := p.request;
    var hash := sys.codec.sha(
      Preimage(p.prev, Fields(r.eventId, r.correlationId, r.eventType, sys.codec.encode(r.payload))));
    var e := Event(|p.working.log| + 1, r.eventId, r.correlationId, r.eventType, r.payload, p.prev, hash);
    Applying(p.working.(log := p.working.log + [e]), r, e, 0)
  }

  /** The next handler of the event: on to the one after it, or `Idle` when it raises. */
  function HandleRow<P, R, D>(sys: System<P, R>, p: Phase<P, R, D>): Phase<P, R, D>
    requires p.Applying? && p.done < |sys.HandlersFor(p.request)|
  {
    match sys.HandlersFor(p.request)[p.done](p.working.tables, p.event)
    case Ok(t) => p.(working := p.working.(tables := t), done := p.done + 1)
    case Err(_) => Idle
  }

  /** A statement that is not enabled blocks, which leaves everything as it is. */
  function Next<P, R, D>(sys: System<P, R>, s: State<P, R, D>, step: Step<P, D>): State<P, R, D> {
    var w := step.writer;
    if w >= |s.writers| then s
    else
      match (step, s.writers[w])
      case (Write(_, d), Idle) =>
        if s.lock.None? then Move(s, w, Open(s.committed.(other := d))) else s
      case (Write(_, d), Open(k)) => Move(s, w, Open(k.(other := d)))
      case (Emit(_, r), Idle) =>
        if s.lock.None? && r.correlationId != "" then Move(s, w, Began(s.committed, r)) else s
      case (Emit(_, r), Open(k)) => if r.correlationId != "" then Move(s, w, Began(k, r)) else s
      case (ReadTail(_), Began(k, r)) => Move(s, w, TailRead(k, r, LastHash(k.log)))
      case (Insert(_), TailRead(_, _, _)) => Move(s, w, InsertRow(sys, s.writers[w]))
      case (Handle(_), Applying(k, r, e, i)) =>
        if i >= |sys.HandlersFor(r)| then s
        else if HandleRow(sys, s.writers[w]).Idle? then Leave(s, w)
        else Move(s, w, HandleRow(sys, s.writers[w]))
      case (Commit(_), Applying(k, r, e, i)) =>
        if i == |sys.HandlersFor(r)| then Leave(s, w).(committed := k) else s
      case (Crash(_), p) => if p.Idle? then s else Leave(s, w)
      case _ => s
  }

  function Run<P, R, D>(sys: System<P, R>, s: State<P, R, D>, steps: seq<Step<P, D>>): State<P, R, D> {
    if steps == [] then s else Next(sys, Run(sys, s, steps[..|steps| - 1]), steps[|steps| - 1])
  }

  // --- what the write lock keeps ---

  /** An open transaction sees the committed log, and after its insert exactly one row more. */
  ghost predicate PhaseOk<P, R, D>(sys: System<P, R>, committed: Store<P, R, D>, p: Phase<P, R, D>) {
    match p
    case Idle => true
    case Open(k) => k == committed.(other := k.other)
    case Began(k, r) => k == committed.(other := k.other) && r.correlationId != ""
    case TailRead(k, r, prev) =>
      k == committed.(other := k.other) && r.correlationId != "" && prev == LastHash(committed.log)
    case Applying(k, r, e, done) =>
      && r.correlationId != "" && e == Linked(sys.codec, committed.log, r) && k.log == committed.log + [e]
      && done <= |sys.HandlersFor(r)|
      && ApplyAll(sys.HandlersFor(r)[..done], committed.tables, e) == Ok(k.tables)
  }

  ghost predicate Exclusive<P, R, D>(s: State<P, R, D>) {
    forall w: nat :: w < |s.writers| && s.writers[w] != Idle ==> s.lock == Some(w)
  }

  ghost predicate PhasesOk<P, R, D>(sys: System<P, R>, s: State<P, R, D>) {
    forall w: nat :: w < |s.writers| ==> PhaseOk(sys, s.committed, s.writers[w])
  }

  ghost predicate Inv<P, R, D>(sys: System<P, R>, s: State<P, R, D>) {
    Consistent(sys.codec, sys.registered, s.committed) && Exclusive(s) && PhasesOk(sys, s)
  }

  /** The emit that a step makes permanent, with the caller's tables as that transaction left them. */
  function Effect<P, R, D>(sys: System<P, R>, s: State<P, R, D>, step: Step<P, D>): Option<(D, Request<P>)> {
    var w := step.writer;
    if step.Commit? && w < |s.writers| && s.writers[w].Applying?
       && s.writers[w].done == |sys.HandlersFor(s.writers[w].request)| then
      Some((s.writers[w].working.other, s.writers[w].request))
    else None
  }

  lemma HandledOnce<P, R, D>(sys: System<P, R>, committed: Store<P, R, D>, p: Phase<P, R, D>)
    requires p.Applying? && p.done < |sys.HandlersFor(p.request)| && PhaseOk(sys, committed, p)
    ensures PhaseOk(sys, committed, HandleRow(sys, p))
  {
    var hs := sys.HandlersFor(p.request);
    assert hs[..p.done + 1][..p.done] == hs[..p.done];
  }

  lemma MoveKeeps<P, R, D>(sys: System<P, R>, s: State<P, R, D>, w: nat, p: Phase<P, R, D>)
    requires Inv(sys, s) && w < |s.writers| && PhaseOk(sys, s.committed, p)
    requires s.lock == None || s.lock == Some(w)
    ensures Inv(sys, Move(s, w, p))
    ensures s.lock == Some(w) ==> Inv(sys, Leave(s, w))
  {
  }

  /** What a writer has in hand when its handlers are done is what one atomic emit would make. */
  lemma HandledAll<P, R, D>(sys: System<P, R>, committed: Store<P, R, D>, p: Phase<P, R, D>)
    requires p.Applying? && p.done == |sys.HandlersFor(p.request)| && PhaseOk(sys, committed, p)
    ensures Append(sys.codec, sys.registered, committed.(other := p.working.other), p.request) == Ok(p.working)
  {
    var hs := sys.HandlersFor(p.request);
    assert hs[..|hs|] == hs;
    assert sys.registered.HandlersFor(p.event.eventType) == hs;
  }

  lemma CommitKeeps<P, R, D>(sys: System<P, R>, s: State<P, R, D>, w: nat)
    requires Inv(sys, s) && w < |s.writers| && s.writers[w].Applying?
    requires Consistent(sys.codec, sys.registered, s.writers[w].working)
    ensures Inv(sys, Leave(s, w).(committed := s.writers[w].working))
  {
    assert s.lock == Some(w);
    forall v: nat | v < |s.writers| && v != w ensures s.writers[v] == Idle {
    }
  }

  /** Every statement keeps the invariant, and changes the committed store only as one atomic emit does. */
  lemma StepIsAtomic<P, R, D>(sys: System<P, R>, s: State<P, R, D>, step: Step<P, D>)
    requires Inv(sys, s)
    ensures Inv(sys, Next(sys, s, step))
    ensures match Effect(sys, s, step)
            case None => Next(sys, s, step).committed == s.committed
            case Some((d, r)) =>
              Append(sys.codec, sys.registered, s.committed.(other := d), r) == Ok(Next(sys, s, step).committed)
  {
    var w := step.writer;
    if w < |s.writers| {
      var p := s.writers[w];
      assert PhaseOk(sys, s.committed, p);
      match (step, p) {
        case (Write(_, d), Idle) =>
          if s.lock.None? { MoveKeeps(sys, s, w, Open(s.committed.(other := d))); }
        case (Write(_, d), Open(k)) => MoveKeeps(sys, s, w, Open(k.(other := d)));
        case (Emit(_, r), Idle) =>
          if s.lock.None? && r.correlationId != "" { MoveKeeps(sys, s, w, Began(s.committed, r)); }
        case (Emit(_, r), Open(k)) => if r.correlationId != "" { MoveKeeps(sys, s, w, Began(k, r)); }
        case (ReadTail(_), Began(k, r)) => MoveKeeps(sys, s, w, TailRead(k, r, LastHash(k.log)));
        case (Insert(_), TailRead(_, _, _)) => MoveKeeps(sys, s, w, InsertRow(sys, p));
        case (Handle(_), Applying(_, r, _, i)) =>
          if i < |sys.HandlersFor(r)| {
            HandledOnce(sys, s.committed, p);
            MoveKeeps(sys, s, w, HandleRow(sys, p));
          }
        case (Commit(_), Applying(_, r, _, i)) =>
          if i == |sys.HandlersFor(r)| {
            HandledAll(sys, s.committed, p);
            AppendKeeps(sys.codec, sys.registered, s.committed.(other := p.working.other), r);
            CommitKeeps(sys, s, w);
          }
        case (Crash(_), _) => if !p.Idle? { MoveKeeps(sys, s, w, Idle); }
        case _ =>
      }
    }
  }

  // --- whole runs ---

  /** The emits a run commits, in the order of their commits. */
  function Commits<P, R, D>(sys: System<P, R>, s: State<P, R, D>, steps: seq<Step<P, D>>): seq<(D, Request<P>)> {
    if steps == [] then []
    else
      var front := steps[..|steps| - 1];
      Commits(sys, s, front) +
      (match Effect(sys, Run(sys, s, front), steps[|steps| - 1]) case Some(c) => [c] case None => [])
  }

  /** The same emits one after another by a single writer. */
  function Serial<P, R, D>(sys: System<P, R>, s: Store<P, R, D>, commits: seq<(D, Request<P>)>)
    : Result<Store<P, R, D>, EmitError>
  {
    if commits == [] then Ok(s)
    else
      var last := commits[|commits| - 1];
      var t :- Serial(sys, s, commits[..|commits| - 1]);
      Append(sys.codec, sys.registered, t.(other := last.0), last.1)
  }

  /** Every interleaving leaves the committed store that its commits leave when run serially. */
  lemma {:induction false} RunsAreSerial<P, R, D>(sys: System<P, R>, s: State<P, R, D>, steps: seq<Step<P, D>>)
    requires Inv(sys, s)
    ensures Inv(sys, Run(sys, s, steps))
    ensures Serial(sys, s.committed, Commits(sys, s, steps)) == Ok(Run(sys, s, steps).committed)
  {
    if steps != [] {
      var front, last := steps[..|steps| - 1], steps[|steps| - 1];
      RunsAreSerial(sys, s, front);
      var mid := Run(sys, s, front);
      StepIsAtomic(sys, mid, last);
      var before := Commits(sys, s, front);
      match Effect(sys, mid, last) {
        case None => assert before + [] == before;
        case Some(c) => assert (before + [c])[..|before| + 1 - 1] == before;
      }
    }
  }

  lemma {:induction false} SerialAppends<P, R, D>(sys: System<P, R>, s: Store<P, R, D>, commits: seq<(D, Request<P>)>)
    requires Serial(sys, s, commits).Ok?
    ensures s.log <= Serial(sys, s, commits).value.log
    ensures |Serial(sys, s, commits).value.log| == |s.log| + |commits|
  {
    if commits != [] {
      SerialAppends(sys, s, commits[..|commits| - 1]);
    }
  }

  /** The row holds what the request asks for. */
  ghost predicate Holds<P>(e: Event<P>, r: Request<P>) {
    e.eventId == r.eventId && e.correlationId == r.correlationId && e.eventType == r.eventType && e.payload == r.payload
  }

  /** One row for each commit, in order, with its request's fields, and the tables of the last one's caller. */
  ghost predicate Records<P, R, D>(before: Store<P, R, D>, commits: seq<(D, Request<P>)>, after: Store<P, R, D>) {
    && |after.log| == |before.log| + |commits|
    && (forall k: nat :: k < |commits| ==> Holds(after.log[|before.log| + k], commits[k].1))
    && (commits != [] ==> after.other == commits[|commits| - 1].0)
  }

  lemma RecordsGrow<P, R, D>(
    sys: System<P, R>, s: Store<P, R, D>, front: seq<(D, Request<P>)>, mid: Store<P, R, D>, last: (D, Request<P>),
    after: Store<P, R, D>)
    requires Records(s, front, mid) && Append(sys.codec, sys.registered, mid.(other := last.0), last.1) == Ok(after)
    ensures Records(s, front + [last], after)
  {
    AppendGrows(sys.codec, sys.registered, mid.(other := last.0), last.1);
    forall k: nat | k <= |front| ensures Holds(after.log[|s.log| + k], (front + [last])[k].1) {
      if k < |front| {
        assert after.log[..|mid.log|][|s.log| + k] == mid.log[|s.log| + k];
      }
    }
  }

  lemma {:induction false} SerialRecords<P, R, D>(
    sys: System<P, R>, s: Store<P, R, D>, commits: seq<(D, Request<P>)>, after: Store<P, R, D>)
    requires Serial(sys, s, commits) == Ok(after)
    ensures Records(s, commits, after)
  {
    if commits != [] {
      var front, last := commits[..|commits| - 1], commits[|commits| - 1];
      var mid := Serial(sys, s, front).value;
      SerialRecords(sys, s, front, mid);
      RecordsGrow(sys, s, front, mid, last, after);
      assert commits == front + [last];
    }
  }

  /** The request a writer is at work on. */
  function RequestOf<P, R, D>(p: Phase<P, R, D>): Option<Request<P>> {
    if p.Idle? || p.Open? then None else Some(p.request)
  }

  /** Every request a writer is at work on was asked for by a step of the writer's own. */
  ghost predicate Asked<P, R, D>(s: State<P, R, D>, steps: seq<Step<P, D>>) {
    forall w: nat :: w < |s.writers| && RequestOf(s.writers[w]).Some? ==>
      Emit(w, RequestOf(s.writers[w]).value) in steps
  }

  lemma AskedNext<P, R, D>(sys: System<P, R>, s: State<P, R, D>, front: seq<Step<P, D>>, step: Step<P, D>)
    requires Asked(s, front)
    ensures Asked(Next(sys, s, step), front + [step])
  {
  }

  /** What is committed was asked for, by the writer that commits it. */
  lemma {:induction false} CommitsWereAsked<P, R, D>(sys: System<P, R>, s: State<P, R, D>, steps: seq<Step<P, D>>)
    requires forall w: nat :: w < |s.writers| ==> s.writers[w] == Idle
    ensures Asked(Run(sys, s, steps), steps)
    ensures forall c :: c in Commits(sys, s, steps) ==> exists w :: Emit(w, c.1) in steps
  {
    if steps != [] {
      var front, last := steps[..|steps| - 1], steps[|steps| - 1];
      CommitsWereAsked(sys, s, front);
      AskedNext(sys, Run(sys, s, front), front, last);
      assert steps == front + [last];
      var mid := Run(sys, s, front);
      forall c | c in Commits(sys, s, steps) ensures exists w :: Emit(w, c.1) in steps {
        if c in Commits(sys, s, front) {
          var w :| Emit(w, c.1) in front;
          assert Emit(w, c.1) in steps;
        } else {
          assert RequestOf(mid.writers[last.writer]) == Some(c.1);
          assert Emit(last.writer, c.1) in steps;
        }
      }
    }
  }

  ghost predicate Quiet<P, R, D>(s: State<P, R, D>) {
    s.lock == None && forall w: nat :: w < |s.writers| ==> s.writers[w] == Idle
  }

  /**
   Safety of every run that starts from a consistent store: the integrity check accepts the log, the
   live projections equal a replay of it, rows are only ever appended, one for each commit, and no
   two writers are inside a transaction.
   */
  lemma EveryRunIsSafe<P, R, D>(sys: System<P, R>, s: State<P, R, D>, steps: seq<Step<P, D>>)
    requires Consistent(sys.codec, sys.registered, s.committed) && Quiet(s)
    ensures var end := Run(sys, s, steps);
            && Verify(sys.codec, end.committed.log) == Ok(|end.committed.log|)
            && Replay(sys.registered, end.committed.log) == Ok(end.committed.tables)
            && s.committed.log <= end.committed.log
            && |end.committed.log| == |s.committed.log| + |Commits(sys, s, steps)|
            && forall v: nat, w: nat :: v < w < |end.writers| ==> end.writers[v] == Idle || end.writers[w] == Idle
  {
    RunsAreSerial(sys, s, steps);
    SerialAppends(sys, s.committed, Commits(sys, s, steps));
    VerifyAccepts(sys.codec, Run(sys, s, steps).committed.log);
  }

  /** The lock is held only by a writer inside a transaction. */
  ghost predicate LockUsed<P, R, D>(s: State<P, R, D>) {
    s.lock.Some? ==> s.lock.value < |s.writers| && s.writers[s.lock.value] != Idle
  }

  lemma LockUsedNext<P, R, D>(sys: System<P, R>, s: State<P, R, D>, step: Step<P, D>)
    requires LockUsed(s) && Exclusive(s)
    ensures LockUsed(Next(sys, s, step))
  {
  }

  /** No transaction leaves the lock behind, however it ends: where all writers are idle, the next one gets in. */
  lemma {:induction false} LockIsFreed<P, R, D>(sys: System<P, R>, s: State<P, R, D>, steps: seq<Step<P, D>>)
    requires Inv(sys, s) && LockUsed(s)
    ensures LockUsed(Run(sys, s, steps))
    ensures (forall w: nat :: w < |Run(sys, s, steps).writers| ==> Run(sys, s, steps).writers[w] == Idle) ==>
              Run(sys, s, steps).lock == None
  {
    if steps != [] {
      LockIsFreed(sys, s, steps[..|steps| - 1]);
      RunsAreSerial(sys, s, steps[..|steps| - 1]);
      LockUsedNext(sys, Run(sys, s, steps[..|steps| - 1]), steps[|steps| - 1]);
    }
  }

  /**
   In every run, row by row, what is appended to the log holds the fields of the committed requests in the
   order of their commits, and the callers' own tables are as the last transaction to commit left them.
   */
  lemma RowsHoldRequests<P, R, D>(sys: System<P, R>, s: State<P, R, D>, steps: seq<Step<P, D>>)
    requires Inv(sys, s)
    ensures Records(s.committed, Commits(sys, s, steps), Run(sys, s, steps).committed)
  {
    RunsAreSerial(sys, s, steps);
    SerialRecords(sys, s.committed, Commits(sys, s, steps), Run(sys, s, steps).committed);
  }

  // --- a writer that nobody disturbs ---

  /** The statements of one emit up to and including its `n`-th handler. */
  function Script<P, D>(w: nat, r: Request<P>, n: nat): seq<Step<P, D>> {
    if n == 0 then [Emit(w, r), ReadTail(w), Insert(w)] else Script(w, r, n - 1) + [Handle(w)]
  }

  lemma RunNext<P, R, D>(sys: System<P, R>, s: State<P, R, D>, steps: seq<Step<P, D>>, step: Step<P, D>)
    ensures Run(sys, s, steps + [step]) == Next(sys, Run(sys, s, steps), step)
  {
    assert (steps + [step])[..|steps + [step]| - 1] == steps;
  }

  lemma Inserts<P, R, D>(sys: System<P, R>, s: State<P, R, D>, w: nat, r: Request<P>)
    requires Quiet(s) && w < |s.writers| && r.correlationId != ""
    ensures var e := Linked(sys.codec, s.committed.log, r);
            Run(sys, s, Script(w, r, 0))
              == Move(s, w, Applying(s.committed.(log := s.committed.log + [e]), r, e, 0))
  {
    var one: seq<Step<P, D>> := [Emit(w, r)];
    var two := one + [ReadTail(w)];
    RunNext(sys, s, one, ReadTail(w));
    RunNext(sys, s, two, Insert(w));
    assert two + [Insert(w)] == Script<P, D>(w, r, 0);
    assert one[..|one| - 1] == [];
    assert Run(sys, s, one) == Next(sys, Run(sys, s, []), one[0]);
  }

  /** Where an undisturbed emit stands when the first `n` handlers have left the tables at `t`. */
  function Standing<P, R, D>(
    sys: System<P, R>, s: State<P, R, D>, w: nat, r: Request<P>, n: nat, t: Result<Tables<R>, string>): State<P, R, D>
    requires w < |s.writers|
  {
    var e := Linked(sys.codec, s.committed.log, r);
    if t.Err? then s
    else Move(s, w, Applying(s.committed.(log := s.committed.log + [e], tables := t.value), r, e, n))
  }

  lemma HandlesNext<P, R, D>(
    sys: System<P, R>, s: State<P, R, D>, w: nat, r: Request<P>, n: nat, t: Result<Tables<R>, string>)
    requires Quiet(s) && w < |s.writers| && n < |sys.HandlersFor(r)|
    ensures Next(sys, Standing(sys, s, w, r, n, t), Handle(w)) ==
            Standing(sys, s, w, r, n + 1,
                     if t.Ok? then sys.HandlersFor(r)[n](t.value, Linked(sys.codec, s.committed.log, r)) else t)
  {
    assert s.writers[w] == Idle;
    assert s.writers[w := Idle] == s.writers;
  }

  /** What the first `n` handlers make of the committed tables. */
  function HandledBy<P, R, D>(sys: System<P, R>, s: State<P, R, D>, r: Request<P>, n: nat): Result<Tables<R>, string>
    requires n <= |sys.HandlersFor(r)|
  {
    ApplyAll(sys.HandlersFor(r)[..n], s.committed.tables, Linked(sys.codec, s.committed.log, r))
  }

  lemma HandledNext<P, R, D>(sys: System<P, R>, s: State<P, R, D>, w: nat, r: Request<P>, n: nat)
    requires Quiet(s) && w < |s.writers| && n < |sys.HandlersFor(r)|
    ensures Next(sys, Standing(sys, s, w, r, n, HandledBy(sys, s, r, n)), Handle(w)) ==
            Standing(sys, s, w, r, n + 1, HandledBy(sys, s, r, n + 1))
  {
    HandlesNext(sys, s, w, r, n, HandledBy(sys, s, r, n));
    ApplyAllNext(sys.HandlersFor(r), n, s.committed.tables, Linked(sys.codec, s.committed.log, r));
  }

  lemma NoneHandled<P, R, D>(sys: System<P, R>, s: State<P, R, D>, w: nat, r: Request<P>)
    requires Quiet(s) && w < |s.writers| && r.correlationId != ""
    ensures Run(sys, s, Script(w, r, 0)) == Standing(sys, s, w, r, 0, HandledBy(sys, s, r, 0))
  {
    Inserts(sys, s, w, r);
    assert sys.HandlersFor(r)[..0] == [];
  }

  lemma OneMoreHandled<P, R, D>(
    sys: System<P, R>, s: State<P, R, D>, w: nat, r: Request<P>, n: nat, front: seq<Step<P, D>>)
    requires Quiet(s) && w < |s.writers| && n < |sys.HandlersFor(r)|
    requires Run(sys, s, front) == Standing(sys, s, w, r, n, HandledBy(sys, s, r, n))
    ensures Run(sys, s, front + [Handle(w)]) == Standing(sys, s, w, r, n + 1, HandledBy(sys, s, r, n + 1))
  {
    RunNext(sys, s, front, Handle(w));
    HandledNext(sys, s, w, r, n);
  }

  lemma HandlesInTurn<P, R, D>(
    sys: System<P, R>, s: State<P, R, D>, w: nat, r: Request<P>, n: nat)
    requires Quiet(s) && w < |s.writers| && r.correlationId != "" && n <= |sys.HandlersFor(r)|
    ensures Run(sys, s, Script(w, r, n)) == Standing(sys, s, w, r, n, HandledBy(sys, s, r, n))
  {
    NoneHandled(sys, s, w, r);
    for i := 0 to n
      invariant Run(sys, s, Script(w, r, i)) == Standing(sys, s, w, r, i, HandledBy(sys, s, r, i))
    {
      OneMoreHandled(sys, s, w, r, i, Script(w, r, i));
    }
  }

  lemma CommitsLast<P, R, D>(sys: System<P, R>, s: State<P, R, D>, w: nat, r: Request<P>, t: Result<Tables<R>, string>)
    requires Quiet(s) && w < |s.writers|
    ensures var log := s.committed.log + [Linked(sys.codec, s.committed.log, r)];
            Next(sys, Standing(sys, s, w, r, |sys.HandlersFor(r)|, t), Commit(w)) ==
            if t.Ok? then s.(committed := s.committed.(log := log, tables := t.value)) else s
  {
    assert s.writers[w] == Idle;
    assert s.writers[w := Idle] == s.writers;
  }

  lemma AppendsAll<P, R, D>(sys: System<P, R>, k: Store<P, R, D>, r: Request<P>, t: Result<Tables<R>, string>)
    requires r.correlationId != "" && t == ApplyAll(sys.HandlersFor(r), k.tables, Linked(sys.codec, k.log, r))
    ensures Append(sys.codec, sys.registered, k, r) ==
            if t.Ok? then Ok(k.(log := k.log + [Linked(sys.codec, k.log, r)], tables := t.value))
            else Err(HandlerRaised(t.error))
  {
  }

  /** An emit that is not interleaved with anything does what the atomic emit does, and lets the lock go. */
  lemma AloneIsAtomic<P, R, D>(sys: System<P, R>, s: State<P, R, D>, w: nat, r: Request<P>)
    requires Quiet(s) && w < |s.writers| && r.correlationId != ""
    ensures Run(sys, s, Script(w, r, |sys.HandlersFor(r)|) + [Commit(w)]) ==
            match Append(sys.codec, sys.registered, s.committed, r)
            case Ok(k) => s.(committed := k)
            case Err(_) => s
  {
    var hs := sys.HandlersFor(r);
    assert hs[..|hs|] == hs;
    HandlesInTurn(sys, s, w, r, |hs|);
    RunNext(sys, s, Script(w, r, |hs|), Commit(w));
    var t := ApplyAll(hs, s.committed.tables, Linked(sys.codec, s.committed.log, r));
    CommitsLast(sys, s, w, r, t);
    AppendsAll(sys, s.committed, r, t);
  }
}
