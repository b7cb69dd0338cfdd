/** The single-writer lock and the check that audits it (lock/base.py, monitor/checks.py). */
module SingleWriter {
  import opened Results
  import opened LogEvents

  // --- the lock projection ---

  /** What the handlers of the two lock events do to the rows of `proj_lock`. */
  function LockRow(rows: seq<string>, b: Body): seq<string> {
    match b
    case WriteLockAcquired(Some(t), _) => if t in rows then rows else rows + [t]
    case WriteLockReleased(Some(t)) => Without(rows, t)
    case _ => rows
  }

  function Without(rows: seq<string>, t: string): seq<string> {
    if rows == [] then [] else if rows[0] == t then Without(rows[1..], t) else [rows[0]] + Without(rows[1..], t)
  }

  /** The lock rows of a log. */
  function LockRows(log: Log): seq<string> {
    if log == [] then [] else LockRow(LockRows(log[..|log| - 1]), log[|log| - 1].payload)
  }

  lemma {:induction false} WithoutExact(rows: seq<string>, t: string, x: string)
    ensures x in Without(rows, t) <==> x in rows && x != t
  {
    if rows != [] {
      WithoutExact(rows[1..], t, x);
    }
  }

  /** Row `j` takes the lock with this token, and no row after it releases that. */
  ghost predicate TakenBy(log: Log, j: nat, t: string) {
    && j < |log| && log[j].payload.WriteLockAcquired? && log[j].payload.lockToken == Some(t)
    && forall k: nat :: j < k < |log| ==> log[k].payload != WriteLockReleased(Some(t))
  }

  lemma TakenGrows(log: Log, e: Row, t: string)
    ensures (exists j: nat :: TakenBy(log + [e], j, t)) <==>
              (e.payload.WriteLockAcquired? && e.payload.lockToken == Some(t))
              || (e.payload != WriteLockReleased(Some(t)) && exists j: nat :: TakenBy(log, j, t))
  {
    var more := log + [e];
    assert forall k: nat :: k < |log| ==> more[k] == log[k];
    if j: nat :| TakenBy(more, j, t) {
      assert more[|log|] == e;
      if j < |log| {
        assert TakenBy(log, j, t);
      }
    }
    if e.payload.WriteLockAcquired? && e.payload.lockToken == Some(t) {
      assert TakenBy(more, |log|, t);
    }
    if j: nat :| TakenBy(log, j, t) && e.payload != WriteLockReleased(Some(t)) {
      assert TakenBy(more, j, t);
    }
  }

  /** The lock rows are the tokens that were taken and have not been released since. */
  lemma {:induction false} LockRowsExact(log: Log, t: string)
    ensures t in LockRows(log) <==> exists j: nat :: TakenBy(log, j, t)
  {
    if log != [] {
      var front, e := log[..|log| - 1], log[|log| - 1];
      LockRowsExact(front, t);
      TakenGrows(front, e, t);
      assert log == front + [e];
      match e.payload {
        case WriteLockReleased(Some(r)) => WithoutExact(LockRows(front), r, t);
        case _ =>
      }
    }
  }

  // --- two locks held at once ---

  /** The latest acquire before row `i`. */
  function LastAcquire(log: Log, i: nat): (r: Option<nat>)
    requires i <= |log|
    ensures r.Some? ==> r.value < i && log[r.value].payload.WriteLockAcquired?
    ensures forall k: nat :: k < i && log[k].payload.WriteLockAcquired? ==> r.Some? && k <= r.value
  {
    if i == 0 then None
    else if log[i - 1].payload.WriteLockAcquired? then Some(i - 1)
    else LastAcquire(log, i - 1)
  }

  predicate Releases(b: Body, token: string) {
    b == WriteLockReleased(Some(token))
  }

  /** The lock taken by row `j` is still held just before row `i`. */
  predicate HeldUntil(log: Log, j: nat, i: nat)
    requires j < i <= |log| && log[j].payload.WriteLockAcquired?
  {
    log[j].payload.lockToken.Some? &&
    forall k: nat :: j < k < i ==> !Releases(log[k].payload, log[j].payload.lockToken.value)
  }

  /** Row `i` takes the lock while the acquire before it still holds it. */
  predicate SecondHolder(log: Log, i: nat)
    requires i < |log|
  {
    log[i].payload.WriteLockAcquired? && LastAcquire(log, i).Some? && HeldUntil(log, LastAcquire(log, i).value, i)
  }

  /** The held token, the two offending rows, and the correlation the second names. */
  datatype DoubleLock = DoubleLock(token: string, held: string, second: string, correlationId: string)

  function Report(log: Log, i: nat): DoubleLock
    requires i < |log| && SecondHolder(log, i)
  {
    var j := LastAcquire(log, i).value;
    DoubleLock(log[j].payload.lockToken.value, log[j].eventId, log[i].eventId, log[i].payload.correlationId)
  }

  /** One report for each second holder among the first `n` rows, in order. */
  function DoubleLocks(log: Log, n: nat): seq<DoubleLock>
    requires n <= |log|
  {
    if n == 0 then []
    else DoubleLocks(log, n - 1) + (if SecondHolder(log, n - 1) then [Report(log, n - 1)] else [])
  }

  /** What `held_token` and `held_event` stand for before row `i`. */
  ghost predicate Tracks(log: Log, i: nat, held: Option<(string, string)>)
    requires i <= |log|
  {
    match LastAcquire(log, i)
    case None => held == None
    case Some(j) =>
      if HeldUntil(log, j, i) then held == Some((log[j].payload.lockToken.value, log[j].eventId)) else held == None
  }

  /** How a row changes them. */
  function Follow(held: Option<(string, string)>, e: Row): Option<(string, string)> {
    match e.payload
    case WriteLockAcquired(t, _) => if t.Some? then Some((t.value, e.eventId)) else None
    case WriteLockReleased(t) => if held.Some? && t == Some(held.value.0) then None else held
    case _ => held
  }

  /** The check reports exactly the acquires whose predecessor had not released its own token. */
  method CheckSingleWriter(log: Log) returns (viols: seq<DoubleLock>)
    ensures viols == DoubleLocks(log, |log|)
  {
    viols := [];
    var held: Option<(string, string)> := None;
    for i := 0 to |log|
      invariant Tracks(log, i, held) && viols == DoubleLocks(log, i)
    {
      match log[i].payload {
        case WriteLockAcquired(token, correlation) =>
          if held.Some? {
            viols := viols + [DoubleLock(held.value.0, held.value.1, log[i].eventId, correlation)];
          }
          held := if token.Some? then Some((token.value, log[i].eventId)) else None;
        case WriteLockReleased(token) =>
          if held.Some? && token == Some(held.value.0) {
            held := None;
          }
        case _ =>
      }
    }
  }

  // --- serialized use of the lock ---

  datatype LockError = HeldByAnother | NotHeld

  /** One call: take the lock with a fresh token, release a token, or emit anything else. */
  datatype Call =
    | Acquire(token: string)
    | Release(token: string)
    | Emit(body: Body)

  predicate Unrelated(b: Body) {
    !b.WriteLockAcquired? && !b.WriteLockReleased?
  }

  /** The log after one call, made by a row that carries it. */
  function After(log: Log, c: Call, e: Row): Log {
    match c
    case Acquire(t) => if LockRows(log) != [] then log else log + [e.(payload := WriteLockAcquired(Some(t), e.correlationId))]
    case Release(t) => if t !in LockRows(log) then log else log + [e.(payload := WriteLockReleased(Some(t)))]
    case Emit(b) => if Unrelated(b) then log + [e.(payload := b)] else log
  }

  /** The store of a registry-equipped bus: the log, and the lock rows its handlers keep. */
  class LockStore {
    var log: Log
    var rows: seq<string>

    constructor ()
      ensures Valid() && log == []
    {
      log, rows := [], [];
    }

    ghost predicate Valid()
      reads this
    {
      rows == LockRows(log)
    }

    method Append(e: Row)
      requires Valid()
      modifies this
      ensures Valid() && log == old(log) + [e] && rows == LockRow(old(rows), e.payload)
    {
      log := log + [e];
      rows := LockRow(rows, e.payload);
      assert log[..|log| - 1] == old(log);
    }

    /** Refused while any lock row exists. */
    method AcquireLock(e: Row, token: string) returns (r: Result<string, LockError>)
      requires Valid() && e.payload == WriteLockAcquired(Some(token), e.correlationId)
      modifies this
      ensures Valid()
      ensures log == After(old(log), Acquire(token), e)
      ensures r == if old(rows) == [] then Ok(token) else Err(HeldByAnother)
      ensures old(rows) == [] ==> rows == [token]
    {
      if rows != [] {
        return Err(HeldByAnother);
      }
      Append(e);
      r := Ok(token);
    }

    /** Refused for a token without a row; else the row goes. */
    method ReleaseLock(e: Row, token: string) returns (r: Result<(), LockError>)
      requires Valid() && e.payload == WriteLockReleased(Some(token))
      modifies this
      ensures Valid()
      ensures log == After(old(log), Release(token), e)
      ensures r == if token in old(rows) then Ok(()) else Err(NotHeld)
      ensures token in old(rows) ==> rows == Without(old(rows), token)
    {
      if token !in rows {
        return Err(NotHeld);
      }
      Append(e);
      r := Ok(());
    }
  }

  function AfterAll(log: Log, calls: seq<(Call, Row)>): Log {
    if calls == [] then log
    else After(AfterAll(log, calls[..|calls| - 1]), calls[|calls| - 1].0, calls[|calls| - 1].1)
  }

  lemma HeldLocal(log: Log, more: Log, j: nat, i: nat)
    requires j < i <= |log| && log[j].payload.WriteLockAcquired?
    ensures HeldUntil(log + more, j, i) == HeldUntil(log, j, i)
  {
    assert forall k: nat :: k < |log| ==> (log + more)[k] == log[k];
  }

  /** What the first rows show does not depend on later ones. */
  lemma {:induction false} DoubleLocksLocal(log: Log, more: Log, n: nat)
    requires n <= |log|
    ensures DoubleLocks(log + more, n) == DoubleLocks(log, n)
    ensures LastAcquire(log + more, n) == LastAcquire(log, n)
  {
    if n > 0 {
      DoubleLocksLocal(log, more, n - 1);
      assert (log + more)[n - 1] == log[n - 1];
      if LastAcquire(log, n - 1).Some? {
        HeldLocal(log, more, LastAcquire(log, n - 1).value, n - 1);
      }
    }
  }

  lemma TracksLocal(log: Log, e: Row, held: Option<(string, string)>)
    requires Tracks(log, |log|, held)
    ensures Tracks(log + [e], |log|, held)
    ensures SecondHolder(log + [e], |log|) ==> held.Some?
  {
    DoubleLocksLocal(log, [e], |log|);
    if LastAcquire(log, |log|).Some? {
      HeldLocal(log, [e], LastAcquire(log, |log|).value, |log|);
    }
  }

  ghost predicate Holds(log: Log, held: Option<(string, string)>) {
    Tracks(log, |log|, held) && LockRows(log) == if held.Some? then [held.value.0] else []
  }

  /** The lock row, if any, is that of the latest acquire. */
  ghost predicate OneHolder(log: Log) {
    exists held :: Holds(log, held)
  }

  lemma RowsFollow(log: Log, e: Row, held: Option<(string, string)>)
    requires Holds(log, held) && (e.payload.WriteLockAcquired? ==> held.None?)
    requires e.payload.WriteLockAcquired? ==> e.payload.lockToken.Some?
    ensures LockRows(log + [e]) == var h := Follow(held, e); if h.Some? then [h.value.0] else []
  {
    assert (log + [e])[..|log|] == log;
    assert LockRows(log + [e]) == LockRow(LockRows(log), e.payload);
    if held.Some? {
      assert forall t :: Without([held.value.0], t) == if held.value.0 == t then [] else [held.value.0];
    }
  }

  /** A row that does not take the lock from a holder keeps the log clean. */
  lemma RowKeeps(log: Log, e: Row, held: Option<(string, string)>)
    requires Holds(log, held) && DoubleLocks(log, |log|) == []
    requires e.payload.WriteLockAcquired? ==> held.None? && e.payload.lockToken.Some?
    ensures OneHolder(log + [e]) && DoubleLocks(log + [e], |log| + 1) == []
  {
    DoubleLocksLocal(log, [e], |log|);
    TracksLocal(log, e, held);
    RowsFollow(log, e, held);
    assert Holds(log + [e], Follow(held, e));
  }

  ghost predicate CleanlyHeld(log: Log) {
    OneHolder(log) && DoubleLocks(log, |log|) == []
  }

  /** Without a lock row nothing is held. */
  lemma AcquireKeeps(log: Log, e: Row, t: string)
    requires CleanlyHeld(log) && LockRows(log) == [] && e.payload == WriteLockAcquired(Some(t), e.correlationId)
    ensures CleanlyHeld(log + [e])
  {
    var held :| Holds(log, held);
    RowKeeps(log, e, held);
  }

  lemma OtherKeeps(log: Log, e: Row)
    requires CleanlyHeld(log) && !e.payload.WriteLockAcquired?
    ensures CleanlyHeld(log + [e])
  {
    var held :| Holds(log, held);
    RowKeeps(log, e, held);
  }

  lemma CallKeeps(log: Log, c: Call, e: Row)
    requires CleanlyHeld(log)
    ensures CleanlyHeld(After(log, c, e))
  {
    match c {
      case Acquire(t) => if LockRows(log) == [] { AcquireKeeps(log, e.(payload := WriteLockAcquired(Some(t), e.correlationId)), t); }
      case Release(t) => OtherKeeps(log, e.(payload := WriteLockReleased(Some(t))));
      case Emit(b) => if Unrelated(b) { OtherKeeps(log, e.(payload := b)); }
    }
  }

  /**
   However acquires, releases and other emits follow one another, at most one lock row exists and the
   check finds nothing.
   */
  lemma {:induction false} SerializedUseIsClean(calls: seq<(Call, Row)>)
    ensures |LockRows(AfterAll([], calls))| <= 1
    ensures DoubleLocks(AfterAll([], calls), |AfterAll([], calls)|) == []
    ensures OneHolder(AfterAll([], calls))
  {
    if calls == [] {
      assert Holds([], None);
    } else {
      SerializedUseIsClean(calls[..|calls| - 1]);
      CallKeeps(AfterAll([], calls[..|calls| - 1]), calls[|calls| - 1].0, calls[|calls| - 1].1);
    }
  }
}
