/** All checks together, and the sweep that reports each violation once (monitor/checks.py, monitor/sweep.py). */
module Sweep {
  import opened Results
  import opened Ordering
  import opened Decimal
  import opened EventLog
  import opened EventBus
  import opened LogEvents
  import opened SingleWriter
  import opened Monitor
  import opened Violations
  import opened Findings

  method CheckCorrelation(log: Log) returns (vs: seq<Violation>)
    ensures vs == Uncorrelated(log)
  {
    vs := [];
    for i := 0 to |log|
      invariant vs == Uncorrelated(log[..i])
    {
      assert log[..i + 1][..i] == log[..i];
      if log[i].correlationId == "" {
        vs := vs + [Violation(NoCorrelation, "", "", [log[i].eventId], "")];
      }
    }
    assert log[..|log|] == log;
  }

  method CheckCoreGates(chk: Checks, log: Log) returns (vs: seq<Violation>)
    ensures vs == Weakened(chk, log)
  {
    vs := [];
    for i := 0 to |log|
      invariant vs == Weakened(chk, log[..i])
    {
      assert log[..i + 1][..i] == log[..i];
      var b := log[i].payload;
      if b.GateChangeEnacted? && chk.weakens(b.targetGate, b.changeKind) {
        vs := vs + [About(WeakenedGate, log[i])];
      }
    }
    assert log[..|log|] == log;
  }

  method CollectVerified(log: Log) returns (verified: set<Option<string>>)
    ensures verified == VerifiedIds(log)
  {
    verified := {};
    for i := 0 to |log|
      invariant verified == VerifiedIds(log[..i])
    {
      VerifiedGrow(log[..i], log[i]);
      assert log[..i + 1] == log[..i] + [log[i]];
      if log[i].payload.MemoryEntryVerified? {
        verified := verified + {log[i].payload.entryId};
      }
    }
    assert log[..|log|] == log;
  }

  lemma VerifiedGrow(log: Log, e: Row)
    ensures VerifiedIds(log + [e]) ==
            VerifiedIds(log) + if e.payload.MemoryEntryVerified? then {e.payload.entryId} else {}
  {
    var more := log + [e];
    forall k | k in VerifiedIds(more)
      ensures k in VerifiedIds(log) || (e.payload.MemoryEntryVerified? && k == e.payload.entryId)
    {
      var i: nat :| i < |more| && more[i].payload.MemoryEntryVerified? && more[i].payload.entryId == k;
      assert i < |log| ==> more[i] == log[i];
    }
    forall k | k in VerifiedIds(log) ensures k in VerifiedIds(more) {
      var i: nat :| i < |log| && log[i].payload.MemoryEntryVerified? && log[i].payload.entryId == k;
      assert more[i] == log[i];
    }
    assert more[|log|] == e;
  }

  method CheckTrustedMemory(chk: Checks, log: Log) returns (vs: seq<Violation>)
    ensures vs == Untrusted(chk, VerifiedIds(log), log)
  {
    var verified := CollectVerified(log);
    vs := [];
    for i := 0 to |log|
      invariant vs == Untrusted(chk, verified, log[..i])
    {
      assert log[..i + 1][..i] == log[..i];
      if TrustsUnverified(chk, verified, log[i].payload) {
        vs := vs + [About(UnverifiedTrust, log[i])];
      }
    }
    assert log[..|log|] == log;
  }

  /** What is reported are exactly the rows that create a trusted foreign entry which nothing verified. */
  lemma {:induction false} UntrustedExact(chk: Checks, verified: set<Option<string>>, log: Log, v: Violation)
    ensures v in Untrusted(chk, verified, log) <==>
              exists i :: 0 <= i < |log| && TrustsUnverified(chk, verified, log[i].payload)
                          && v == About(UnverifiedTrust, log[i])
  {
    if log != [] {
      var front := log[..|log| - 1];
      UntrustedExact(chk, verified, front, v);
      assert forall i :: 0 <= i < |front| ==> front[i] == log[i];
    }
  }

  /** Without the `trust` column, which the memory table does not have, that is none. */
  lemma TrustNeverReported(chk: Checks, verified: set<Option<string>>, log: Log)
    requires chk.trusted == None
    ensures Untrusted(chk, verified, log) == []
  {
    var vs := Untrusted(chk, verified, log);
    if vs != [] {
      UntrustedExact(chk, verified, log, vs[0]);
    }
  }

  /** All checks: one violation for each thing wrong with a row, in ascending order of the invariants, and no other. */
  method RunChecks(chk: Checks, log: Log, includeOrphans: bool) returns (vs: seq<Violation>)
    ensures exists finds :: Found(chk, log, includeOrphans, vs, finds)
    ensures vs == AllViolations(chk, log, includeOrphans)
  {
    var locks := CheckSingleWriter(log);
    var unearned := CheckDoneEarned(log);
    var chain := VerifyChain(chk.codec, log);
    var uncorrelated := CheckCorrelation(log);
    var flags := CheckTerminalPerTask(log, Orphans(log, includeOrphans));
    var weakened := CheckCoreGates(chk, log);
    var untrusted := CheckTrustedMemory(chk, log);
    vs := LockViolations(locks) + AboutRows(log, NotEarned, unearned) + ChainViolations(chain) + uncorrelated +
          AboutFlags(log, flags) + weakened + untrusted;
    ghost var finds := AllFound(chk, log, includeOrphans);
  }

  // --- reports leave the verdicts alone ---

  /** A row as the sweep appends it. */
  ghost predicate IsReport(chk: Checks, log: Log, e: Row) {
    e.payload.InvariantViolated? && e.correlationId != "" && Links(chk.codec, LastHash(log), e)
  }

  lemma {:induction false} MarksUnmoved(log: Log, e: Row, t: string, n: nat)
    requires n <= |log|
    ensures MarksOf(log + [e], t, n) == MarksOf(log, t, n)
  {
    if n > 0 {
      MarksUnmoved(log, e, t, n - 1);
      assert (log + [e])[n - 1] == log[n - 1];
    }
  }

  lemma {:induction false} TasksUnmoved(log: Log, e: Row, n: nat)
    requires n <= |log|
    ensures Tasks(log + [e], n) == Tasks(log, n)
  {
    if n > 0 {
      TasksUnmoved(log, e, n - 1);
      assert (log + [e])[n - 1] == log[n - 1];
    }
  }

  lemma {:induction false} DoublesUnmoved(log: Log, e: Row, m: seq<nat>, n: nat)
    requires n <= |m| && Positions(log, m)
    ensures Positions(log + [e], m) && Doubles(log + [e], m, n) == Doubles(log, m, n)
  {
    assert forall i: nat :: i < |log| ==> (log + [e])[i] == log[i];
    if n >= 2 {
      DoublesUnmoved(log, e, m, n - 1);
    }
  }

  lemma FlagsOfUnmoved(log: Log, e: Row, t: string, orphans: bool)
    requires !Marks(e.payload, t)
    ensures FlagsOf(log + [e], t, orphans) == FlagsOf(log, t, orphans)
  {
    MarksOfPositions(log, t, |log|);
    MarksUnmoved(log, e, t, |log|);
    var m := MarksOf(log, t, |log|);
    assert MarksOf(log + [e], t, |log| + 1) == m;
    DoublesUnmoved(log, e, m, |m|);
  }

  lemma {:induction false} FlagsUnmoved(log: Log, e: Row, tasks: seq<string>, orphans: bool)
    requires MarkedTask(e.payload).None?
    ensures FlagsOfAll(log + [e], tasks, orphans) == FlagsOfAll(log, tasks, orphans)
  {
    if tasks != [] {
      FlagsUnmoved(log, e, tasks[..|tasks| - 1], orphans);
      FlagsOfUnmoved(log, e, tasks[|tasks| - 1], orphans);
    }
  }

  lemma {:induction false} AboutRowsUnmoved(log: Log, e: Row, kind: Kind, rows: seq<nat>)
    requires forall k :: 0 <= k < |rows| ==> rows[k] < |log|
    ensures AboutRows(log + [e], kind, rows) == AboutRows(log, kind, rows)
  {
    if rows != [] {
      AboutRowsUnmoved(log, e, kind, rows[..|rows| - 1]);
    }
  }

  lemma {:induction false} AboutFlagsUnmoved(log: Log, e: Row, flags: seq<Flag>)
    requires forall k :: 0 <= k < |flags| ==> flags[k].row < |log|
    ensures AboutFlags(log + [e], flags) == AboutFlags(log, flags)
  {
    if flags != [] {
      AboutFlagsUnmoved(log, e, flags[..|flags| - 1]);
    }
  }

  lemma FlagsWithin(log: Log, orphans: bool)
    ensures forall k :: 0 <= k < |FlagsOfAll(log, Tasks(log, |log|), orphans)| ==>
              FlagsOfAll(log, Tasks(log, |log|), orphans)[k].row < |log|
  {
    TerminalPerTaskExact(log, orphans);
    var flags := FlagsOfAll(log, Tasks(log, |log|), orphans);
    forall k | 0 <= k < |flags| ensures flags[k].row < |log| {
      assert flags[k] in flags;
    }
  }

  lemma {:induction false} UnearnedWithin(log: Log, n: nat)
    requires n <= |log|
    ensures forall k :: 0 <= k < |UnearnedRows(log, n)| ==> UnearnedRows(log, n)[k] < n
  {
    if n > 0 {
      UnearnedWithin(log, n - 1);
    }
  }

  lemma LocksUnmoved(chk: Checks, log: Log, e: Row)
    requires IsReport(chk, log, e)
    ensures DoubleLocks(log + [e], |log| + 1) == DoubleLocks(log, |log|)
    ensures LockRows(log + [e]) == LockRows(log)
  {
    DoubleLocksLocal(log, [e], |log|);
    assert (log + [e])[..|log|] == log;
  }

  lemma NoTerminalNext(log: Log, n: nat)
    requires n < |log| && !log[n].payload.TerminalOutcome?
    ensures UnearnedRows(log, n + 1) == UnearnedRows(log, n)
  {
    assert !Unearned(log, n);
  }

  lemma UnearnedUnmoved(log: Log, e: Row)
    requires e.payload.InvariantViolated?
    ensures UnearnedRows(log + [e], |log| + 1) == UnearnedRows(log, |log|)
  {
    UnearnedLocal(log, [e], |log|);
    NoTerminalNext(log + [e], |log|);
  }

  lemma EarnedUnmoved(log: Log, e: Row)
    requires e.payload.InvariantViolated?
    ensures AboutRows(log + [e], NotEarned, UnearnedRows(log + [e], |log| + 1))
         == AboutRows(log, NotEarned, UnearnedRows(log, |log|))
  {
    UnearnedUnmoved(log, e);
    UnearnedWithin(log, |log|);
    AboutRowsUnmoved(log, e, NotEarned, UnearnedRows(log, |log|));
  }

  lemma AttemptsUnmoved(chk: Checks, log: Log, e: Row, orphans: bool)
    requires IsReport(chk, log, e)
    ensures AboutFlags(log + [e], FlagsOfAll(log + [e], Tasks(log + [e], |log| + 1), orphans))
         == AboutFlags(log, FlagsOfAll(log, Tasks(log, |log|), orphans))
  {
    var tasks := Tasks(log, |log|);
    TasksUnmoved(log, e, |log|);
    FlagsUnmoved(log, e, tasks, orphans);
    FlagsWithin(log, orphans);
    AboutFlagsUnmoved(log, e, FlagsOfAll(log, tasks, orphans));
  }

  lemma ChainUnmoved(chk: Checks, log: Log, e: Row)
    requires IsReport(chk, log, e)
    ensures ChainViolations(Verify(chk.codec, log + [e])) == ChainViolations(Verify(chk.codec, log))
  {
    assert (log + [e])[..|log|] == log;
  }

  lemma RowChecksUnmoved(chk: Checks, log: Log, e: Row)
    requires IsReport(chk, log, e)
    ensures Uncorrelated(log + [e]) == Uncorrelated(log)
    ensures Weakened(chk, log + [e]) == Weakened(chk, log)
    ensures Untrusted(chk, VerifiedIds(log + [e]), log + [e]) == Untrusted(chk, VerifiedIds(log), log)
  {
    VerifiedGrow(log, e);
    assert VerifiedIds(log + [e]) == VerifiedIds(log);
    assert (log + [e])[..|log|] == log;
  }

  /** Appending a report changes no violation, on any log, broken or not. */
  lemma ReportsChangeNothing(chk: Checks, log: Log, e: Row, includeOrphans: bool)
    requires IsReport(chk, log, e)
    ensures AllViolations(chk, log + [e], includeOrphans) == AllViolations(chk, log, includeOrphans)
  {
    LocksUnmoved(chk, log, e);
    EarnedUnmoved(log, e);
    ChainUnmoved(chk, log, e);
    AttemptsUnmoved(chk, log, e, Orphans(log, includeOrphans));
    RowChecksUnmoved(chk, log, e);
  }

  // --- dedup keys ---

  function Join(parts: seq<string>): string {
    if parts == [] then "" else if |parts| == 1 then parts[0] else parts[0] + [','] + Join(parts[1..])
  }

  function Clip(s: string): string {
    if |s| <= 120 then s else s[..120]
  }

  function Tail(v: Violation): string {
    if v.offending == [] then Clip(v.detail) else ""
  }

  /** Number, task, sorted offending ids, and the clipped detail when there are no ids. */
  function DedupKey(v: Violation): string {
    Dec(v.kind.Number()) + ['|'] + (v.taskId + ['|'] + (Join(SortStrings(v.offending)) + ['|'] + Tail(v)))
  }

  /** The keys already reported. */
  function KeysIn(log: Log): set<Option<string>> {
    set i: nat | i < |log| && log[i].payload.InvariantViolated? :: log[i].payload.dedupKey
  }

  lemma KeysGrow(log: Log, e: Row)
    ensures KeysIn(log + [e]) == KeysIn(log) + if e.payload.InvariantViolated? then {e.payload.dedupKey} else {}
  {
    var more := log + [e];
    forall k | k in KeysIn(more) ensures k in KeysIn(log) || (e.payload.InvariantViolated? && k == e.payload.dedupKey) {
      var i: nat :| i < |more| && more[i].payload.InvariantViolated? && more[i].payload.dedupKey == k;
      assert i < |log| ==> more[i] == log[i];
    }
    forall k | k in KeysIn(log) ensures k in KeysIn(more) {
      var i: nat :| i < |log| && log[i].payload.InvariantViolated? && log[i].payload.dedupKey == k;
      assert more[i] == log[i];
    }
    assert more[|log|] == e;
  }

  // --- the sweep ---

  /** The report row for a violation, linked to the tail of the log. */
  function ReportRow(chk: Checks, log: Log, v: Violation, id: string): Row {
    var correlation := if v.correlationId == "" then "monitor" else v.correlationId;
    Linked(chk.codec, log, Request(id, correlation, "invariant_violated", InvariantViolated(Some(DedupKey(v)))))
  }

  /** The log once a violation has been gone through; `uuid` names the row at each position. */
  function SweepOne(chk: Checks, uuid: nat -> string, log: Log, v: Violation): Log {
    if Some(DedupKey(v)) in KeysIn(log) then log else log + [ReportRow(chk, log, v, uuid(|log|))]
  }

  function Swept(chk: Checks, uuid: nat -> string, log: Log, vs: seq<Violation>): Log {
    if vs == [] then log else SweepOne(chk, uuid, Swept(chk, uuid, log, vs[..|vs| - 1]), vs[|vs| - 1])
  }

  /** The violations that were new. */
  function Emitted(chk: Checks, uuid: nat -> string, log: Log, vs: seq<Violation>): seq<Violation> {
    if vs == [] then []
    else
      var front, v := vs[..|vs| - 1], vs[|vs| - 1];
      Emitted(chk, uuid, log, front) +
      (if Some(DedupKey(v)) in KeysIn(Swept(chk, uuid, log, front)) then [] else [v])
  }

  lemma SweptNext(chk: Checks, uuid: nat -> string, log: Log, vs: seq<Violation>, i: nat)
    requires i < |vs|
    ensures var before := Swept(chk, uuid, log, vs[..i]);
            && Swept(chk, uuid, log, vs[..i + 1]) == SweepOne(chk, uuid, before, vs[i])
            && Emitted(chk, uuid, log, vs[..i + 1]) == Emitted(chk, uuid, log, vs[..i]) +
               if Some(DedupKey(vs[i])) in KeysIn(before) then [] else [vs[i]]
  {
    assert vs[..i + 1][..i] == vs[..i];
  }

  lemma SweepOneKeys(chk: Checks, uuid: nat -> string, log: Log, v: Violation)
    ensures log <= SweepOne(chk, uuid, log, v)
    ensures KeysIn(SweepOne(chk, uuid, log, v)) == KeysIn(log) + {Some(DedupKey(v))}
    ensures |SweepOne(chk, uuid, log, v)| == |log| + if Some(DedupKey(v)) in KeysIn(log) then 0 else 1
  {
    KeysGrow(log, ReportRow(chk, log, v, uuid(|log|)));
  }

  // --- what a sweep leaves, without the sweep ---

  /** Row `i` is the report of the violation. */
  ghost predicate ReportsAt(chk: Checks, uuid: nat -> string, log: Log, i: nat, v: Violation) {
    && i < |log| && log[i].payload == InvariantViolated(Some(DedupKey(v)))
    && log[i].eventId == uuid(i) && log[i].eventType == "invariant_violated" && log[i].seqNo == i + 1
    && log[i].correlationId == (if v.correlationId == "" then "monitor" else v.correlationId)
    && Links(chk.codec, LastHash(log[..i]), log[i])
  }

  /** The first violation of each key that was not there before. */
  predicate FirstOfKey(seen: set<Option<string>>, vs: seq<Violation>, i: nat) {
    && i < |vs| && Some(DedupKey(vs[i])) !in seen
    && forall j: nat :: j < i ==> DedupKey(vs[j]) != DedupKey(vs[i])
  }

  /** `news` are the first ones of the keys that are new, in order. */
  ghost predicate AreNew(seen: set<Option<string>>, vs: seq<Violation>, news: seq<Violation>, picks: seq<nat>) {
    && |picks| == |news| && (forall j, k :: 0 <= j < k < |picks| ==> picks[j] < picks[k])
    && (forall i: nat :: i in picks <==> FirstOfKey(seen, vs, i))
    && forall k :: 0 <= k < |news| ==> picks[k] < |vs| && news[k] == vs[picks[k]]
  }

  /** The log grows by the reports of these violations, in order. */
  ghost predicate Reports(chk: Checks, uuid: nat -> string, log: Log, news: seq<Violation>, after: Log) {
    && log <= after && |after| == |log| + |news|
    && forall k: nat :: k < |news| ==> ReportsAt(chk, uuid, after, |log| + k, news[k])
  }

  /** The log grows by the reports of what is new, and afterwards has the keys of all violations. */
  ghost predicate Reported(
    chk: Checks, uuid: nat -> string, log: Log, vs: seq<Violation>, news: seq<Violation>, after: Log)
  {
    && Reports(chk, uuid, log, news, after)
    && (forall v :: v in vs ==> Some(DedupKey(v)) in KeysIn(after))
    && exists picks :: AreNew(KeysIn(log), vs, news, picks)
  }

  /** The keys of these violations. */
  function KeysOf(vs: seq<Violation>): set<Option<string>> {
    if vs == [] then {} else KeysOf(vs[..|vs| - 1]) + {Some(DedupKey(vs[|vs| - 1]))}
  }

  lemma {:induction false} KeysOfHas(vs: seq<Violation>, j: nat)
    requires j < |vs|
    ensures Some(DedupKey(vs[j])) in KeysOf(vs)
  {
    if j < |vs| - 1 {
      KeysOfHas(vs[..|vs| - 1], j);
    }
  }

  lemma {:induction false} KeysOfFrom(vs: seq<Violation>, key: Option<string>) returns (j: nat)
    requires key in KeysOf(vs)
    ensures j < |vs| && Some(DedupKey(vs[j])) == key
  {
    if key == Some(DedupKey(vs[|vs| - 1])) {
      j := |vs| - 1;
    } else {
      j := KeysOfFrom(vs[..|vs| - 1], key);
    }
  }

  lemma {:induction false} KeysAfter(chk: Checks, uuid: nat -> string, log: Log, vs: seq<Violation>)
    ensures KeysIn(Swept(chk, uuid, log, vs)) == KeysIn(log) + KeysOf(vs)
  {
    if vs != [] {
      var front := vs[..|vs| - 1];
      KeysAfter(chk, uuid, log, front);
      SweepOneKeys(chk, uuid, Swept(chk, uuid, log, front), vs[|vs| - 1]);
    }
  }

  lemma {:induction false} EmittedAreNew(chk: Checks, uuid: nat -> string, log: Log, vs: seq<Violation>)
    returns (picks: seq<nat>)
    ensures AreNew(KeysIn(log), vs, Emitted(chk, uuid, log, vs), picks)
  {
    picks := [];
    if vs != [] {
      var front, v := vs[..|vs| - 1], vs[|vs| - 1];
      picks := EmittedAreNew(chk, uuid, log, front);
      KeysAfter(chk, uuid, log, front);
      picks := NewNext(KeysIn(log), front, v, Emitted(chk, uuid, log, front), picks,
                       Some(DedupKey(v)) in KeysIn(Swept(chk, uuid, log, front)));
      assert vs == front + [v];
    }
  }

  lemma FirstUnmoved(seen: set<Option<string>>, front: seq<Violation>, v: Violation, i: nat)
    requires i < |front|
    ensures FirstOfKey(seen, front + [v], i) <==> FirstOfKey(seen, front, i)
  {
    assert forall j: nat :: j <= i ==> (front + [v])[j] == front[j];
  }

  lemma LastIsFirst(seen: set<Option<string>>, front: seq<Violation>, v: Violation)
    ensures FirstOfKey(seen, front + [v], |front|) <==> Some(DedupKey(v)) !in seen && Some(DedupKey(v)) !in KeysOf(front)
  {
    forall j: nat | j < |front| ensures (front + [v])[j] == front[j] && Some(DedupKey(front[j])) in KeysOf(front) {
      KeysOfHas(front, j);
    }
    if Some(DedupKey(v)) in KeysOf(front) {
      var j := KeysOfFrom(front, Some(DedupKey(v)));
    }
  }

  lemma NewNext(
    seen: set<Option<string>>, front: seq<Violation>, v: Violation, news: seq<Violation>, picks: seq<nat>, known: bool)
    returns (next: seq<nat>)
    requires AreNew(seen, front, news, picks) && (known <==> Some(DedupKey(v)) in seen || Some(DedupKey(v)) in KeysOf(front))
    ensures AreNew(seen, front + [v], news + if known then [] else [v], next)
  {
    var vs := front + [v];
    next := picks + if known then [] else [|front|];
    LastIsFirst(seen, front, v);
    forall i: nat ensures i in next <==> FirstOfKey(seen, vs, i) {
      assert i in next <==> i in picks || (!known && i == |front|);
      if i < |front| {
        FirstUnmoved(seen, front, v, i);
      }
    }
    forall j, k | 0 <= j < k < |next| ensures next[j] < next[k] {
      assert picks[j] in picks;
    }
  }

  lemma ReportedRow(chk: Checks, uuid: nat -> string, log: Log, v: Violation)
    ensures ReportsAt(chk, uuid, log + [ReportRow(chk, log, v, uuid(|log|))], |log|, v)
  {
    assert (log + [ReportRow(chk, log, v, uuid(|log|))])[..|log|] == log;
  }

  lemma ReportStays(chk: Checks, uuid: nat -> string, log: Log, more: Log, i: nat, v: Violation)
    requires ReportsAt(chk, uuid, log, i, v) && log <= more
    ensures ReportsAt(chk, uuid, more, i, v)
  {
    assert more[..i] == log[..i];
  }

  lemma ReportsGrow(chk: Checks, uuid: nat -> string, log: Log, news: seq<Violation>, mid: Log, v: Violation)
    requires Reports(chk, uuid, log, news, mid)
    ensures Reports(chk, uuid, log, news + [v], mid + [ReportRow(chk, mid, v, uuid(|mid|))])
  {
    var after := mid + [ReportRow(chk, mid, v, uuid(|mid|))];
    ReportedRow(chk, uuid, mid, v);
    forall k: nat | k < |news| + 1 ensures ReportsAt(chk, uuid, after, |log| + k, (news + [v])[k]) {
      if k < |news| {
        ReportStays(chk, uuid, mid, after, |log| + k, news[k]);
      }
    }
  }

  lemma {:induction false} SweptReportsNews(chk: Checks, uuid: nat -> string, log: Log, vs: seq<Violation>)
    ensures Reports(chk, uuid, log, Emitted(chk, uuid, log, vs), Swept(chk, uuid, log, vs))
  {
    if vs != [] {
      var front, v := vs[..|vs| - 1], vs[|vs| - 1];
      var news, mid := Emitted(chk, uuid, log, front), Swept(chk, uuid, log, front);
      SweptReportsNews(chk, uuid, log, front);
      if Some(DedupKey(v)) in KeysIn(mid) {
        assert news + [] == news;
      } else {
        ReportsGrow(chk, uuid, log, news, mid, v);
      }
    }
  }

  /** A sweep over any violations reports exactly the new ones. */
  lemma SweptIsReported(chk: Checks, uuid: nat -> string, log: Log, vs: seq<Violation>)
    ensures Reported(chk, uuid, log, vs, Emitted(chk, uuid, log, vs), Swept(chk, uuid, log, vs))
  {
    var picks := EmittedAreNew(chk, uuid, log, vs);
    SweptExtends(chk, uuid, log, vs);
    SweptReportsNews(chk, uuid, log, vs);
  }

  class MonitoredStore {
    const chk: Checks
    const uuid: nat -> string
    var log: Log

    constructor (chk: Checks, uuid: nat -> string, log: Log)
      ensures this.chk == chk && this.uuid == uuid && this.log == log
    {
      this.chk, this.uuid, this.log := chk, uuid, log;
    }

    /** Appends the report of a violation. */
    method EmitReport(v: Violation)
      modifies this
      ensures log == old(log) + [ReportRow(chk, old(log), v, uuid(|old(log)|))]
    {
      log := log + [ReportRow(chk, log, v, uuid(|log|))];
    }

    /** Reports every violation whose key the log does not have yet, and returns those. */
    method RunInvariantSweep(includeOrphans: bool) returns (emitted: seq<Violation>)
      modifies this
      ensures exists vs, finds ::
                && Found(chk, old(log), includeOrphans, vs, finds)
                && Reported(chk, uuid, old(log), vs, emitted, log)
      ensures log == Swept(chk, uuid, old(log), AllViolations(chk, old(log), includeOrphans))
      ensures emitted == Emitted(chk, uuid, old(log), AllViolations(chk, old(log), includeOrphans))
    {
      var seen := KeysIn(log);
      var viols := RunChecks(chk, log, includeOrphans);
      emitted := [];
      for i := 0 to |viols|
        invariant log == Swept(chk, uuid, old(log), viols[..i])
        invariant emitted == Emitted(chk, uuid, old(log), viols[..i])
        invariant seen == KeysIn(log)
      {
        SweptNext(chk, uuid, old(log), viols, i);
        SweepOneKeys(chk, uuid, log, viols[i]);
        var key := Some(DedupKey(viols[i]));
        if key !in seen {
          seen := seen + {key};
          EmitReport(viols[i]);
          emitted := emitted + [viols[i]];
        }
      }
      assert viols[..|viols|] == viols;
      ghost var finds := AllFound(chk, old(log), includeOrphans);
      SweptIsReported(chk, uuid, old(log), viols);
    }
  }

  lemma {:induction false} SweptGrows(chk: Checks, uuid: nat -> string, log: Log, vs: seq<Violation>)
    ensures log <= Swept(chk, uuid, log, vs)
    ensures |Swept(chk, uuid, log, vs)| == |log| + |Emitted(chk, uuid, log, vs)|
  {
    if vs != [] {
      var front := vs[..|vs| - 1];
      SweptGrows(chk, uuid, log, front);
      SweepOneKeys(chk, uuid, Swept(chk, uuid, log, front), vs[|vs| - 1]);
    }
  }

  lemma SweepOneHas(chk: Checks, uuid: nat -> string, log: Log, v: Violation, key: Option<string>)
    requires key in KeysIn(log) || key == Some(DedupKey(v))
    ensures key in KeysIn(SweepOne(chk, uuid, log, v))
  {
    SweepOneKeys(chk, uuid, log, v);
  }

  lemma {:induction false} SweptReports(chk: Checks, uuid: nat -> string, log: Log, vs: seq<Violation>, k: nat)
    requires k < |vs|
    ensures Some(DedupKey(vs[k])) in KeysIn(Swept(chk, uuid, log, vs))
  {
    var front := vs[..|vs| - 1];
    if k < |front| {
      SweptReports(chk, uuid, log, front, k);
    }
    SweepOneHas(chk, uuid, Swept(chk, uuid, log, front), vs[|vs| - 1], Some(DedupKey(vs[k])));
  }

  /** A sweep only appends, one row for each violation it returns, and leaves every key it saw in the log. */
  lemma SweptExtends(chk: Checks, uuid: nat -> string, log: Log, vs: seq<Violation>)
    ensures log <= Swept(chk, uuid, log, vs)
    ensures |Swept(chk, uuid, log, vs)| == |log| + |Emitted(chk, uuid, log, vs)|
    ensures forall v :: v in vs ==> Some(DedupKey(v)) in KeysIn(Swept(chk, uuid, log, vs))
  {
    SweptGrows(chk, uuid, log, vs);
    forall v | v in vs ensures Some(DedupKey(v)) in KeysIn(Swept(chk, uuid, log, vs)) {
      var k: nat :| k < |vs| && vs[k] == v;
      SweptReports(chk, uuid, log, vs, k);
    }
  }

  /** A sweep changes no verdict: the violations afterwards are those before it. */
  lemma {:induction false} SweepKeepsViolations(
    chk: Checks, uuid: nat -> string, log: Log, vs: seq<Violation>, includeOrphans: bool)
    ensures AllViolations(chk, Swept(chk, uuid, log, vs), includeOrphans) == AllViolations(chk, log, includeOrphans)
  {
    if vs != [] {
      var front, v := vs[..|vs| - 1], vs[|vs| - 1];
      SweepKeepsViolations(chk, uuid, log, front, includeOrphans);
      var before := Swept(chk, uuid, log, front);
      ReportsChangeNothing(chk, before, ReportRow(chk, before, v, uuid(|before|)), includeOrphans);
    }
  }

  lemma {:induction false} NothingNew(chk: Checks, uuid: nat -> string, log: Log, vs: seq<Violation>)
    requires forall v :: v in vs ==> Some(DedupKey(v)) in KeysIn(log)
    ensures Swept(chk, uuid, log, vs) == log && Emitted(chk, uuid, log, vs) == []
  {
    if vs != [] {
      var front, v := vs[..|vs| - 1], vs[|vs| - 1];
      assert vs == front + [v];
      NothingNew(chk, uuid, log, front);
    }
  }

  /** A second sweep right after the first emits nothing and leaves the log as it is, whatever the log. */
  lemma SecondSweepIsSilent(chk: Checks, uuid: nat -> string, log: Log, includeOrphans: bool)
    ensures var once := Swept(chk, uuid, log, AllViolations(chk, log, includeOrphans));
            var again := AllViolations(chk, once, includeOrphans);
            Swept(chk, uuid, once, again) == once && Emitted(chk, uuid, once, again) == []
  {
    var vs := AllViolations(chk, log, includeOrphans);
    SweptExtends(chk, uuid, log, vs);
    SweepKeepsViolations(chk, uuid, log, vs, includeOrphans);
    NothingNew(chk, uuid, Swept(chk, uuid, log, vs), vs);
  }

  // --- whole runs ---

  /** One step of a run: a sweep, with what the checks depend on at that time, or the emit of any other row. */
  datatype Act = Sweep(checks: Checks, includeOrphans: bool) | Emit(row: Row)

  function Do(uuid: nat -> string, log: Log, a: Act): Log {
    match a
    case Sweep(chk, includeOrphans) => Swept(chk, uuid, log, AllViolations(chk, log, includeOrphans))
    case Emit(row) => if row.payload.InvariantViolated? then log else log + [row]
  }

  function DoAll(uuid: nat -> string, log: Log, acts: seq<Act>): Log {
    if acts == [] then log else Do(uuid, DoAll(uuid, log, acts[..|acts| - 1]), acts[|acts| - 1])
  }

  /** No key is reported twice. */
  ghost predicate ReportedOnce(log: Log) {
    forall i: nat, j: nat :: i < j < |log| && log[i].payload.InvariantViolated? && log[j].payload.InvariantViolated? ==>
      log[i].payload.dedupKey != log[j].payload.dedupKey
  }

  lemma ReportedOnceGrows(log: Log, e: Row)
    requires ReportedOnce(log) && (e.payload.InvariantViolated? ==> e.payload.dedupKey !in KeysIn(log))
    ensures ReportedOnce(log + [e])
  {
    var more := log + [e];
    forall i: nat, j: nat | i < j < |more| && more[i].payload.InvariantViolated? && more[j].payload.InvariantViolated?
      ensures more[i].payload.dedupKey != more[j].payload.dedupKey
    {
      if j == |log| {
        assert log[i].payload.dedupKey in KeysIn(log);
      }
    }
  }

  lemma {:induction false} SweepReportsOnce(chk: Checks, uuid: nat -> string, log: Log, vs: seq<Violation>)
    requires ReportedOnce(log)
    ensures ReportedOnce(Swept(chk, uuid, log, vs))
  {
    if vs != [] {
      var front, v := vs[..|vs| - 1], vs[|vs| - 1];
      SweepReportsOnce(chk, uuid, log, front);
      var before := Swept(chk, uuid, log, front);
      if Some(DedupKey(v)) !in KeysIn(before) {
        ReportedOnceGrows(before, ReportRow(chk, before, v, uuid(|before|)));
      }
    }
  }

  /** Over any run of emits and sweeps, no key is ever reported twice. */
  lemma {:induction false} RunsReportOnce(uuid: nat -> string, log: Log, acts: seq<Act>)
    requires ReportedOnce(log)
    ensures ReportedOnce(DoAll(uuid, log, acts))
  {
    if acts != [] {
      var before := DoAll(uuid, log, acts[..|acts| - 1]);
      RunsReportOnce(uuid, log, acts[..|acts| - 1]);
      match acts[|acts| - 1] {
        case Sweep(chk, includeOrphans) => SweepReportsOnce(chk, uuid, before, AllViolations(chk, before, includeOrphans));
        case Emit(row) => if !row.payload.InvariantViolated? { ReportedOnceGrows(before, row); }
      }
    }
  }

  // --- what a key tells apart ---

  predicate PlainId(s: string) {
    s != "" && '|' !in s && ',' !in s
  }

  ghost predicate PlainIds(ids: seq<string>) {
    forall k :: 0 <= k < |ids| ==> PlainId(ids[k])
  }

  lemma {:induction false} JoinClean(ids: seq<string>)
    requires PlainIds(ids)
    ensures '|' !in Join(ids)
    ensures Join(ids) == "" <==> ids == []
    ensures ',' in Join(ids) <==> |ids| > 1
  {
    if |ids| > 1 {
      JoinClean(ids[1..]);
      assert Join(ids)[|ids[0]|] == ',';
    }
  }

  /** Ids without commas can be read back from their joined text. */
  lemma {:induction false} JoinDecodes(a: seq<string>, b: seq<string>)
    requires PlainIds(a) && PlainIds(b) && Join(a) == Join(b)
    ensures a == b
  {
    JoinClean(a);
    JoinClean(b);
    if |a| > 1 {
      FirstSeparator(a[0], Join(a[1..]), b[0], Join(b[1..]), ',');
      JoinDecodes(a[1..], b[1..]);
      assert a == [a[0]] + a[1..] && b == [b[0]] + b[1..];
    }
  }

  /** A violation whose ids are not empty and hold no separator, and whose task holds no bar. */
  ghost predicate Plain(v: Violation) {
    '|' !in v.taskId && PlainIds(v.offending)
  }

  lemma SortedPlain(ids: seq<string>)
    requires PlainIds(ids)
    ensures PlainIds(SortStrings(ids))
    ensures SortStrings(ids) == [] <==> ids == []
  {
    SortSorts(ids);
    var s := SortStrings(ids);
    assert |multiset(s)| == |s| && |multiset(ids)| == |ids|;
    forall k | 0 <= k < |s| ensures PlainId(s[k]) {
      assert s[k] in multiset(s);
      assert s[k] in ids;
    }
  }

  lemma KeyParts(n: nat, t: string, ids: string, tail: string, n': nat, t': string, ids': string, tail': string)
    requires '|' !in t && '|' !in t' && '|' !in ids && '|' !in ids'
    requires Dec(n) + ['|'] + (t + ['|'] + (ids + ['|'] + tail)) == Dec(n') + ['|'] + (t' + ['|'] + (ids' + ['|'] + tail'))
    ensures n == n' && t == t' && ids == ids' && tail == tail'
  {
    DecReads(n);
    DecReads(n');
    FirstSeparator(Dec(n), t + ['|'] + (ids + ['|'] + tail), Dec(n'), t' + ['|'] + (ids' + ['|'] + tail'), '|');
    FirstSeparator(t, ids + ['|'] + tail, t', ids' + ['|'] + tail', '|');
    FirstSeparator(ids, tail, ids', tail', '|');
  }

  /**
   Two plain violations share a key exactly when they agree on the invariant, the task, the offending
   rows up to order, and, if there are none, on the first 120 characters of the detail.
   */
  lemma KeyTellsApart(v: Violation, w: Violation)
    requires Plain(v) && Plain(w)
    ensures DedupKey(v) == DedupKey(w) <==>
              && v.kind.Number() == w.kind.Number() && v.taskId == w.taskId
              && multiset(v.offending) == multiset(w.offending) && Tail(v) == Tail(w)
    ensures DedupKey(v) == DedupKey(w) && v.offending == [] ==>
              v.detail == w.detail || (|v.detail| >= 120 && |w.detail| >= 120 && v.detail[..120] == w.detail[..120])
    ensures (v.offending == [] && w.offending == [] && |v.detail| >= 120 && |w.detail| >= 120
             && v.detail[..120] == w.detail[..120]) ==> Tail(v) == Tail(w)
  {
    var a, b := SortStrings(v.offending), SortStrings(w.offending);
    SortForgetsOrder(v.offending, w.offending);
    SortedPlain(v.offending);
    SortedPlain(w.offending);
    JoinClean(a);
    JoinClean(b);
    if DedupKey(v) == DedupKey(w) {
      KeyParts(v.kind.Number(), v.taskId, Join(a), Tail(v), w.kind.Number(), w.taskId, Join(b), Tail(w));
      JoinDecodes(a, b);
    }
  }
}
