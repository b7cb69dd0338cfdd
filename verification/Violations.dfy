/** The trace checks together, and what they are to report, row by row (monitor/checks.py). */
module Violations {
  import opened Results
  import opened Decimal
  import opened Sequences
  import opened EventLog
  import opened LogEvents
  import opened SingleWriter
  import opened Monitor

  datatype Kind =
    TwoLocks | NotEarned | BrokenChain | NoCorrelation | TwoTerminals | NoTerminal | WeakenedGate | UnverifiedTrust {
    function Number(): nat {
      match this
      case TwoLocks => 1
      case NotEarned => 5
      case BrokenChain => 7
      case NoCorrelation => 9
      case TwoTerminals | NoTerminal => 10
      case WeakenedGate => 12
      case UnverifiedTrust => 17
    }
  }

  datatype Violation = Violation(
    kind: Kind, taskId: string, correlationId: string, offending: seq<string>, detail: string)

  /**
   What the checks depend on besides the log: the digest, which gate changes weaken a core gate, and which
   memory entries the `trust` column marks as trusted; None when that query fails for want of the column.
   */
  datatype Checks = Checks(
    codec: Codec<Body>, weakens: (string, string) -> bool, trusted: Option<string -> bool>)

  // --- every check, rendered ---

  function LockViolations(ds: seq<DoubleLock>): seq<Violation> {
    seq(|ds|, k requires 0 <= k < |ds| =>
      Violation(TwoLocks, "", ds[k].correlationId, [ds[k].held, ds[k].second], ""))
  }

  function TaskOf(b: Body): string {
    if (b.TaskStarted? || b.TerminalOutcome?) && b.taskId.Some? then b.taskId.value else ""
  }

  /** A violation about one row. */
  function About(kind: Kind, e: Row): Violation {
    Violation(kind, TaskOf(e.payload), e.correlationId, [e.eventId], "")
  }

  function AboutRows(log: Log, kind: Kind, rows: seq<nat>): seq<Violation> {
    if rows == [] then []
    else
      AboutRows(log, kind, rows[..|rows| - 1]) +
      (if rows[|rows| - 1] < |log| then [About(kind, log[rows[|rows| - 1]])] else [])
  }

  function AboutFlags(log: Log, flags: seq<Flag>): seq<Violation> {
    if flags == [] then []
    else
      var f := flags[|flags| - 1];
      AboutFlags(log, flags[..|flags| - 1]) +
      (if f.row < |log| then [About(if f.TwoTerminals? then Kind.TwoTerminals else Kind.NoTerminal, log[f.row])] else [])
  }

  function Describe(e: IntegrityError): string {
    match e
    case PrevHashBroken(n) => "event seq " + Dec(n) + ": prev_hash does not link to the prior event"
    case HashBroken(n) => "event seq " + Dec(n) + ": hash does not match recomputation"
  }

  function ChainViolations(r: Result<nat, IntegrityError>): seq<Violation> {
    match r
    case Ok(_) => []
    case Err(e) => [Violation(BrokenChain, "", "monitor", [], Describe(e))]
  }

  function Uncorrelated(log: Log): seq<Violation> {
    if log == [] then []
    else
      var e := log[|log| - 1];
      Uncorrelated(log[..|log| - 1]) +
      (if e.correlationId == "" then [Violation(NoCorrelation, "", "", [e.eventId], "")] else [])
  }

  function Weakened(chk: Checks, log: Log): seq<Violation> {
    if log == [] then []
    else
      var e := log[|log| - 1];
      Weakened(chk, log[..|log| - 1]) +
      (if e.payload.GateChangeEnacted? && chk.weakens(e.payload.targetGate, e.payload.changeKind)
       then [About(WeakenedGate, e)] else [])
  }

  /** The ids that some verification event names. */
  function VerifiedIds(log: Log): set<Option<string>> {
    set i: nat | i < |log| && log[i].payload.MemoryEntryVerified? :: log[i].payload.entryId
  }

  predicate Foreign(source: Option<string>) {
    source.Some? && source.value != "" && source.value != "local"
  }

  /** A foreign entry with an id that nothing verified and that the memory table marks as trusted. */
  predicate TrustsUnverified(chk: Checks, verified: set<Option<string>>, b: Body) {
    && b.MemoryEntryCreated? && Foreign(b.source)
    && b.entryId.Some? && b.entryId.value != "" && b.entryId !in verified
    && chk.trusted.Some? && chk.trusted.value(b.entryId.value)
  }

  function Untrusted(chk: Checks, verified: set<Option<string>>, log: Log): seq<Violation> {
    if log == [] then []
    else
      var e := log[|log| - 1];
      Untrusted(chk, verified, log[..|log| - 1]) +
      (if TrustsUnverified(chk, verified, e.payload) then [About(UnverifiedTrust, e)] else [])
  }

  /** The orphan half runs only when asked for and while no lock is held. */
  predicate Orphans(log: Log, includeOrphans: bool) {
    includeOrphans && LockRows(log) == []
  }

  /** Every violation, in the order of the checks. */
  function AllViolations(chk: Checks, log: Log, includeOrphans: bool): seq<Violation> {
    LockViolations(DoubleLocks(log, |log|)) +
    AboutRows(log, NotEarned, UnearnedRows(log, |log|)) +
    ChainViolations(Verify(chk.codec, log)) +
    Uncorrelated(log) +
    AboutFlags(log, FlagsOfAll(log, Tasks(log, |log|), Orphans(log, includeOrphans))) +
    Weakened(chk, log) +
    Untrusted(chk, VerifiedIds(log), log)
  }

  // --- what is wrong with a row ---

  /** A reason to report a row. */
  datatype Find = Find(kind: Kind, row: nat)

  /** Row `j` takes the lock, and before row `i` it is neither released nor taken again. */
  ghost predicate StillHeld(log: Log, j: nat, i: nat) {
    && j < i < |log| && log[j].payload.WriteLockAcquired? && log[j].payload.lockToken.Some?
    && forall k: nat :: j < k < i ==>
         !log[k].payload.WriteLockAcquired? && log[k].payload != WriteLockReleased(log[j].payload.lockToken)
  }

  ghost predicate NoStart(log: Log, t: string, lo: nat, hi: nat)
    requires hi <= |log|
  {
    forall k: nat :: lo < k < hi ==> log[k].payload != TaskStarted(Some(t))
  }

  /** A verifier pass and a certification come before the row, without a start of the task after either of them. */
  ghost predicate BothSeen(log: Log, t: string, i: nat)
    requires i <= |log|
  {
    && (exists p: nat :: p < i && log[p].payload == VerifierOutcome(Some(t), true) && NoStart(log, t, p, i))
    && (exists c: nat :: c < i && log[c].payload == ReviewerCertified(Some(t)) && NoStart(log, t, c, i))
  }

  /** A token was taken and has not been released since. */
  ghost predicate Locked(log: Log) {
    exists j: nat, t :: TakenBy(log, j, t)
  }

  /** The row deserves the report, going by the rows of the log alone. */
  ghost predicate Wrong(chk: Checks, log: Log, orphans: bool, f: Find) {
    var i := f.row;
    i < |log| &&
    match f.kind
    case TwoLocks => log[i].payload.WriteLockAcquired? && exists j: nat :: StillHeld(log, j, i)
    case NotEarned =>
      (match log[i].payload
       case TerminalOutcome(t, Completed) => t.None? || !BothSeen(log, t.value, i)
       case _ => false)
    case BrokenChain => Chained(chk.codec, log[..i]) && !Links(chk.codec, LastHash(log[..i]), log[i])
    case NoCorrelation => log[i].correlationId == ""
    case TwoTerminals =>
      (match log[i].payload
       case TerminalOutcome(Some(t), _) =>
         exists j: nat :: j < i && log[j].payload.TerminalOutcome? && log[j].payload.taskId == Some(t) && NoStart(log, t, j, i)
       case _ => false)
    case NoTerminal =>
      orphans &&
      (match log[i].payload
       case TaskStarted(Some(t)) =>
         NoStart(log, t, i, |log|) &&
         forall k: nat :: i < k < |log| && log[k].payload.TerminalOutcome? ==> log[k].payload.taskId != Some(t)
       case _ => false)
    case WeakenedGate =>
      (match log[i].payload
       case GateChangeEnacted(gate, change) => chk.weakens(gate, change)
       case _ => false)
    case UnverifiedTrust =>
      (match log[i].payload
       case MemoryEntryCreated(Some(id), Some(source)) =>
         && id != "" && source != "" && source != "local" && chk.trusted.Some? && chk.trusted.value(id)
         && forall k: nat :: k < |log| ==> log[k].payload != MemoryEntryVerified(Some(id))
       case _ => false)
  }

  function Named(taskId: Option<string>): string {
    if taskId.Some? then taskId.value else ""
  }

  /** The violation tells of this find: its kind, task and correlation, and the ids, or the text, that locate it. */
  ghost predicate Tells(chk: Checks, log: Log, f: Find, v: Violation) {
    f.row < |log| && v.kind == f.kind &&
    var e := log[f.row];
    match f.kind
    case TwoLocks =>
      && e.payload.WriteLockAcquired? && v.taskId == "" && v.correlationId == e.payload.correlationId && v.detail == ""
      && exists j: nat :: StillHeld(log, j, f.row) && v.offending == [log[j].eventId, e.eventId]
    case BrokenChain =>
      && v.taskId == "" && v.correlationId == "monitor" && v.offending == []
      && v.detail == Describe(
           if e.prevHash != LastHash(log[..f.row]) then PrevHashBroken(e.seqNo) else HashBroken(e.seqNo))
    case NoCorrelation => v.taskId == "" && v.correlationId == "" && v.offending == [e.eventId] && v.detail == ""
    case _ =>
      && v.correlationId == e.correlationId && v.offending == [e.eventId] && v.detail == ""
      && v.taskId == match e.payload
                     case TaskStarted(t) => Named(t)
                     case TerminalOutcome(t, _) => Named(t)
                     case _ => ""
  }

  /**
   One violation for each thing wrong with a row, in ascending order of the invariants, and nothing else. Starts
   that nothing ended count only when they are asked for and no lock is held.
   */
  ghost predicate Found(chk: Checks, log: Log, includeOrphans: bool, vs: seq<Violation>, finds: seq<Find>) {
    && |finds| == |vs| && Distinct(finds) && Ascending(finds)
    && (forall k :: 0 <= k < |vs| ==> Tells(chk, log, finds[k], vs[k]))
    && (forall f :: f in finds <==> Wrong(chk, log, includeOrphans && !Locked(log), f))
  }

  /** By invariant, and under one invariant by row; the tenth goes task by task instead. */
  predicate Precedes(a: Find, b: Find) {
    a.kind.Number() < b.kind.Number()
    || (a.kind.Number() == b.kind.Number() && (a.kind.Number() == 10 || a.row < b.row))
  }

  ghost predicate Ascending(finds: seq<Find>) {
    forall i, j :: 0 <= i < j < |finds| ==> Precedes(finds[i], finds[j])
  }
}
