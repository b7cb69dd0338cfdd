/** That the checks together report exactly what is wrong with the rows of a log (monitor/checks.py). */
module Findings {
  import opened Results
  import opened Sequences
  import opened EventLog
  import opened LogEvents
  import opened SingleWriter
  import opened Monitor
  import opened Violations

  // --- the checks see what is wrong ---

  lemma OrphansExact(log: Log, includeOrphans: bool)
    ensures Orphans(log, includeOrphans) <==> includeOrphans && !Locked(log)
  {
    if LockRows(log) != [] {
      LockRowsExact(log, LockRows(log)[0]);
    }
    if j: nat, t :| TakenBy(log, j, t) {
      LockRowsExact(log, t);
    }
  }

  lemma SecondHolderExact(log: Log, i: nat)
    requires i < |log|
    ensures SecondHolder(log, i) <==> log[i].payload.WriteLockAcquired? && exists j: nat :: StillHeld(log, j, i)
    ensures SecondHolder(log, i) ==> StillHeld(log, LastAcquire(log, i).value, i)
  {
    if SecondHolder(log, i) {
      var j := LastAcquire(log, i).value;
      forall k: nat | j < k < i ensures log[k].payload != WriteLockReleased(log[j].payload.lockToken) {
        assert !Releases(log[k].payload, log[j].payload.lockToken.value);
      }
      assert StillHeld(log, j, i);
    }
    if j: nat :| StillHeld(log, j, i) {
      assert LastAcquire(log, i) == Some(j);
      assert HeldUntil(log, j, i);
    }
  }

  lemma SeenExact(log: Log, t: string, i: nat)
    requires i <= |log|
    ensures EarnedBy(log, t, i) <==> BothSeen(log, t, i)
  {
    var lo := AttemptOpens(log, t, i);
    forall k: nat | k < i ensures NoStart(log, t, k, i) && log[k].payload != TaskStarted(Some(t)) <==> lo <= k {
      if lo <= k {
        forall m: nat | k <= m < i ensures log[m].payload != TaskStarted(Some(t)) {
          assert !Starts(log[m].payload, t);
        }
      } else {
        assert Starts(log[lo - 1].payload, t);
      }
    }
    if EarnedBy(log, t, i) {
      var p: nat :| lo <= p < i && Passes(log[p].payload, t);
      var c: nat :| lo <= c < i && Certifies(log[c].payload, t);
      assert NoStart(log, t, p, i) && NoStart(log, t, c, i);
    }
    if BothSeen(log, t, i) {
      var p: nat :| p < i && log[p].payload == VerifierOutcome(Some(t), true) && NoStart(log, t, p, i);
      var c: nat :| c < i && log[c].payload == ReviewerCertified(Some(t)) && NoStart(log, t, c, i);
      assert Passes(log[p].payload, t) && Certifies(log[c].payload, t);
    }
  }

  lemma DoubleExact(chk: Checks, log: Log, orphans: bool, i: nat)
    ensures DoubleAt(log, i) <==> Wrong(chk, log, orphans, Find(Kind.TwoTerminals, i))
  {
    if i < |log| && log[i].payload.TerminalOutcome? && log[i].payload.taskId.Some? {
      var t := log[i].payload.taskId.value;
      var last := LastMark(log, t, i);
      if DoubleAt(log, i) {
        forall k: nat | last.value < k < i ensures log[k].payload != TaskStarted(Some(t)) {
          assert !Marks(log[k].payload, t);
        }
        assert NoStart(log, t, last.value, i);
      }
      if j: nat :| j < i && log[j].payload.TerminalOutcome? && log[j].payload.taskId == Some(t) && NoStart(log, t, j, i) {
        assert Marks(log[j].payload, t);
        assert Marks(log[last.value].payload, t) && j <= last.value;
      }
    }
  }

  lemma OrphanExact(chk: Checks, log: Log, orphans: bool, i: nat)
    ensures orphans && OrphanAt(log, i) <==> Wrong(chk, log, orphans, Find(Kind.NoTerminal, i))
  {
    if i < |log| && log[i].payload.TaskStarted? && log[i].payload.taskId.Some? {
      var t := log[i].payload.taskId.value;
      assert Marks(log[i].payload, t);
      if OrphanAt(log, i) {
        forall k: nat | i < k < |log| ensures !Marks(log[k].payload, t) {
        }
        forall k: nat | i < k < |log| ensures log[k].payload != TaskStarted(Some(t)) {
          assert !Marks(log[k].payload, t);
        }
      }
      if Wrong(chk, log, orphans, Find(Kind.NoTerminal, i)) {
        var last := LastMark(log, t, |log|).value;
        assert Marks(log[last].payload, t);
      }
    }
  }

  lemma UnearnedExact(chk: Checks, log: Log, orphans: bool, i: nat)
    requires i < |log|
    ensures Unearned(log, i) <==> Wrong(chk, log, orphans, Find(NotEarned, i))
  {
    match log[i].payload {
      case TerminalOutcome(Some(t), _) => SeenExact(log, t, i);
      case _ =>
    }
  }

  lemma UntrustedAt(chk: Checks, log: Log, orphans: bool, i: nat)
    requires i < |log|
    ensures TrustsUnverified(chk, VerifiedIds(log), log[i].payload) <==> Wrong(chk, log, orphans, Find(UnverifiedTrust, i))
  {
  }

  lemma FlaggedExact(chk: Checks, log: Log, orphans: bool, f: Flag)
    ensures Flagged(log, orphans, f) <==> Wrong(chk, log, orphans, FindOf(f))
  {
    DoubleExact(chk, log, orphans, f.row);
    OrphanExact(chk, log, orphans, f.row);
  }

  lemma EarlierLinks(c: Codec<Body>, log: Log, j: nat)
    requires j <= |log| && Chained(c, log[..j])
    ensures forall i :: 0 <= i < j ==> Links(c, LastHash(log[..i]), log[i])
  {
    forall i | 0 <= i < j ensures Links(c, LastHash(log[..i]), log[i]) {
      assert log[..j][i] == log[i] && log[..j][..i] == log[..i];
    }
  }

  lemma OneFirstBreak(chk: Checks, log: Log, orphans: bool, i: nat, j: nat)
    requires Wrong(chk, log, orphans, Find(BrokenChain, i)) && Wrong(chk, log, orphans, Find(BrokenChain, j))
    ensures i == j
  {
    EarlierLinks(chk.codec, log, i);
    EarlierLinks(chk.codec, log, j);
  }

  lemma NoBreak(chk: Checks, log: Log, orphans: bool, i: nat)
    requires Chained(chk.codec, log)
    ensures !Wrong(chk, log, orphans, Find(BrokenChain, i))
  {
  }

  // --- lists of finds, whatever counts as wrong ---

  /** The rows below `n` that are wrong in this way, in order. */
  ghost predicate Rows(wrong: Find -> bool, kind: Kind, n: nat, rows: seq<nat>) {
    && (forall j, k :: 0 <= j < k < |rows| ==> rows[j] < rows[k])
    && (forall i: nat :: i in rows <==> i < n && wrong(Find(kind, i)))
  }

  /** The violations tell of these rows, one by one. */
  ghost predicate Told(tells: (Find, Violation) -> bool, kind: Kind, rows: seq<nat>, vs: seq<Violation>) {
    |vs| == |rows| && forall k :: 0 <= k < |vs| ==> tells(Find(kind, rows[k]), vs[k])
  }

  /** What a check adds for row `n`: a violation that tells of it when it is wrong, and else nothing. */
  ghost predicate Adds(
    wrong: Find -> bool, tells: (Find, Violation) -> bool, kind: Kind, n: nat, more: seq<Violation>)
  {
    if wrong(Find(kind, n)) then |more| == 1 && tells(Find(kind, n), more[0]) else more == []
  }

  lemma RowAdds(
    wrong: Find -> bool, tells: (Find, Violation) -> bool, kind: Kind, n: nat,
    rows: seq<nat>, vs: seq<Violation>, more: seq<Violation>)
    returns (next: seq<nat>)
    requires Rows(wrong, kind, n, rows) && Told(tells, kind, rows, vs) && Adds(wrong, tells, kind, n, more)
    ensures Rows(wrong, kind, n + 1, next) && Told(tells, kind, next, vs + more)
  {
    next := rows + if wrong(Find(kind, n)) then [n] else [];
    forall j, k | 0 <= j < k < |next| ensures next[j] < next[k] {
      assert rows[j] in rows;
    }
  }

  /** The violations tell of what is wrong under the invariants from `lo` up to `hi`, once each and in their order. */
  ghost predicate Part(
    wrong: Find -> bool, tells: (Find, Violation) -> bool, lo: nat, hi: nat, vs: seq<Violation>, finds: seq<Find>)
  {
    && |finds| == |vs| && Distinct(finds) && Ascending(finds)
    && (forall k :: 0 <= k < |vs| ==> tells(finds[k], vs[k]))
    && (forall f :: f in finds <==> lo <= f.kind.Number() < hi && wrong(f))
  }

  lemma AscendingConcat(a: seq<Find>, b: seq<Find>, mid: nat)
    requires Ascending(a) && Ascending(b)
    requires (forall f :: f in a ==> f.kind.Number() < mid) && forall f :: f in b ==> mid <= f.kind.Number()
    ensures Ascending(a + b)
  {
    forall i, j | 0 <= i < j < |a + b| ensures Precedes((a + b)[i], (a + b)[j]) {
      if i < |a| <= j {
        assert a[i] in a && b[j - |a|] in b;
      }
    }
  }

  lemma PartConcat(
    wrong: Find -> bool, tells: (Find, Violation) -> bool, lo: nat, mid: nat, hi: nat,
    va: seq<Violation>, fa: seq<Find>, vb: seq<Violation>, fb: seq<Find>)
    requires lo <= mid <= hi && Part(wrong, tells, lo, mid, va, fa) && Part(wrong, tells, mid, hi, vb, fb)
    ensures Part(wrong, tells, lo, hi, va + vb, fa + fb)
  {
    DistinctConcat(fa, fb);
    AscendingConcat(fa, fb, mid);
  }

  /** The finds of one kind. */
  function Finds(kind: Kind, rows: seq<nat>): (finds: seq<Find>)
    ensures |finds| == |rows| && forall k :: 0 <= k < |rows| ==> finds[k] == Find(kind, rows[k])
  {
    seq(|rows|, k requires 0 <= k < |rows| => Find(kind, rows[k]))
  }

  lemma FindsIn(kind: Kind, rows: seq<nat>, f: Find)
    ensures f in Finds(kind, rows) <==> f.kind == kind && f.row in rows
  {
    if f.kind == kind && f.row in rows {
      var k :| 0 <= k < |rows| && rows[k] == f.row;
      assert Finds(kind, rows)[k] == f;
    }
  }

  /** Nothing is wrong beyond the log. */
  ghost predicate Within(wrong: Find -> bool, n: nat) {
    forall f :: wrong(f) ==> f.row < n
  }

  /** The rows of the only kind whose number lies in the interval make a part. */
  lemma RowsPart(
    wrong: Find -> bool, tells: (Find, Violation) -> bool, kind: Kind, n: nat, rows: seq<nat>, lo: nat, hi: nat,
    vs: seq<Violation>)
    requires Rows(wrong, kind, n, rows) && Told(tells, kind, rows, vs) && Within(wrong, n)
    requires forall other: Kind :: lo <= other.Number() < hi <==> other == kind
    ensures Part(wrong, tells, lo, hi, vs, Finds(kind, rows))
  {
    forall f ensures f in Finds(kind, rows) <==> lo <= f.kind.Number() < hi && wrong(f) {
      FindsIn(kind, rows, f);
      assert f == Find(f.kind, f.row);
    }
  }

  // --- the single checks ---

  ghost function WrongIn(chk: Checks, log: Log, orphans: bool): Find -> bool {
    f => Wrong(chk, log, orphans, f)
  }

  ghost function TellsIn(chk: Checks, log: Log): (Find, Violation) -> bool {
    (f, v) => Tells(chk, log, f, v)
  }

  lemma WrongWithin(chk: Checks, log: Log, orphans: bool)
    ensures Within(WrongIn(chk, log, orphans), |log|)
  {
  }

  lemma LockAdds(chk: Checks, log: Log, orphans: bool, i: nat)
    requires i < |log|
    ensures Adds(WrongIn(chk, log, orphans), TellsIn(chk, log), TwoLocks, i,
                 LockViolations(if SecondHolder(log, i) then [Report(log, i)] else []))
  {
    SecondHolderExact(log, i);
  }

  lemma {:induction false} LocksTold(chk: Checks, log: Log, orphans: bool, n: nat) returns (rows: seq<nat>)
    requires n <= |log|
    ensures Rows(WrongIn(chk, log, orphans), TwoLocks, n, rows)
    ensures Told(TellsIn(chk, log), TwoLocks, rows, LockViolations(DoubleLocks(log, n)))
  {
    rows := [];
    if n > 0 {
      rows := LocksTold(chk, log, orphans, n - 1);
      var ds := DoubleLocks(log, n - 1);
      var more := if SecondHolder(log, n - 1) then [Report(log, n - 1)] else [];
      LockAdds(chk, log, orphans, n - 1);
      assert LockViolations(ds + more) == LockViolations(ds) + LockViolations(more);
      rows := RowAdds(WrongIn(chk, log, orphans), TellsIn(chk, log), TwoLocks, n - 1, rows,
                      LockViolations(ds), LockViolations(more));
    }
  }

  lemma UnearnedAdds(chk: Checks, log: Log, orphans: bool, i: nat)
    requires i < |log|
    ensures Adds(WrongIn(chk, log, orphans), TellsIn(chk, log), NotEarned, i,
                 if Unearned(log, i) then [About(NotEarned, log[i])] else [])
  {
    UnearnedExact(chk, log, orphans, i);
  }

  lemma AboutUnearnedNext(log: Log, n: nat)
    requires n < |log|
    ensures AboutRows(log, NotEarned, UnearnedRows(log, n + 1)) ==
            AboutRows(log, NotEarned, UnearnedRows(log, n)) + if Unearned(log, n) then [About(NotEarned, log[n])] else []
  {
    var front := UnearnedRows(log, n);
    assert UnearnedRows(log, n + 1)[..|front|] == front;
    assert !Unearned(log, n) ==> UnearnedRows(log, n + 1) == front;
  }

  lemma {:induction false} UnearnedTold(chk: Checks, log: Log, orphans: bool, n: nat) returns (rows: seq<nat>)
    requires n <= |log|
    ensures Rows(WrongIn(chk, log, orphans), NotEarned, n, rows)
    ensures Told(TellsIn(chk, log), NotEarned, rows, AboutRows(log, NotEarned, UnearnedRows(log, n)))
  {
    rows := [];
    if n > 0 {
      rows := UnearnedTold(chk, log, orphans, n - 1);
      UnearnedAdds(chk, log, orphans, n - 1);
      AboutUnearnedNext(log, n - 1);
      rows := RowAdds(WrongIn(chk, log, orphans), TellsIn(chk, log), NotEarned, n - 1, rows,
                      AboutRows(log, NotEarned, UnearnedRows(log, n - 1)),
                      if Unearned(log, n - 1) then [About(NotEarned, log[n - 1])] else []);
    }
  }

  lemma UncorrelatedAdds(chk: Checks, log: Log, orphans: bool, i: nat)
    requires i < |log|
    ensures Adds(WrongIn(chk, log, orphans), TellsIn(chk, log), NoCorrelation, i,
                 if log[i].correlationId == "" then [Violation(NoCorrelation, "", "", [log[i].eventId], "")] else [])
  {
  }

  lemma {:induction false} UncorrelatedTold(chk: Checks, log: Log, orphans: bool, n: nat) returns (rows: seq<nat>)
    requires n <= |log|
    ensures Rows(WrongIn(chk, log, orphans), NoCorrelation, n, rows)
    ensures Told(TellsIn(chk, log), NoCorrelation, rows, Uncorrelated(log[..n]))
  {
    rows := [];
    if n > 0 {
      rows := UncorrelatedTold(chk, log, orphans, n - 1);
      assert log[..n][..n - 1] == log[..n - 1];
      var e := log[n - 1];
      UncorrelatedAdds(chk, log, orphans, n - 1);
      rows := RowAdds(WrongIn(chk, log, orphans), TellsIn(chk, log), NoCorrelation, n - 1, rows,
                      Uncorrelated(log[..n - 1]),
                      if e.correlationId == "" then [Violation(NoCorrelation, "", "", [e.eventId], "")] else []);
    }
  }

  predicate Weakens(chk: Checks, b: Body) {
    b.GateChangeEnacted? && chk.weakens(b.targetGate, b.changeKind)
  }

  lemma WeakenedAdds(chk: Checks, log: Log, orphans: bool, i: nat)
    requires i < |log|
    ensures Adds(WrongIn(chk, log, orphans), TellsIn(chk, log), WeakenedGate, i,
                 if Weakens(chk, log[i].payload) then [About(WeakenedGate, log[i])] else [])
  {
  }

  lemma {:induction false} WeakenedTold(chk: Checks, log: Log, orphans: bool, n: nat) returns (rows: seq<nat>)
    requires n <= |log|
    ensures Rows(WrongIn(chk, log, orphans), WeakenedGate, n, rows)
    ensures Told(TellsIn(chk, log), WeakenedGate, rows, Weakened(chk, log[..n]))
  {
    rows := [];
    if n > 0 {
      rows := WeakenedTold(chk, log, orphans, n - 1);
      assert log[..n][..n - 1] == log[..n - 1];
      WeakenedAdds(chk, log, orphans, n - 1);
      rows := RowAdds(WrongIn(chk, log, orphans), TellsIn(chk, log), WeakenedGate, n - 1, rows,
                      Weakened(chk, log[..n - 1]),
                      if Weakens(chk, log[n - 1].payload) then [About(WeakenedGate, log[n - 1])] else []);
    }
  }

  lemma UntrustedAdds(chk: Checks, log: Log, orphans: bool, i: nat)
    requires i < |log|
    ensures Adds(WrongIn(chk, log, orphans), TellsIn(chk, log), UnverifiedTrust, i,
                 if TrustsUnverified(chk, VerifiedIds(log), log[i].payload) then [About(UnverifiedTrust, log[i])] else [])
  {
    UntrustedAt(chk, log, orphans, i);
  }

  lemma {:induction false} UntrustedTold(chk: Checks, log: Log, orphans: bool, n: nat) returns (rows: seq<nat>)
    requires n <= |log|
    ensures Rows(WrongIn(chk, log, orphans), UnverifiedTrust, n, rows)
    ensures Told(TellsIn(chk, log), UnverifiedTrust, rows, Untrusted(chk, VerifiedIds(log), log[..n]))
  {
    rows := [];
    if n > 0 {
      rows := UntrustedTold(chk, log, orphans, n - 1);
      assert log[..n][..n - 1] == log[..n - 1];
      UntrustedAdds(chk, log, orphans, n - 1);
      var hit := TrustsUnverified(chk, VerifiedIds(log), log[n - 1].payload);
      rows := RowAdds(WrongIn(chk, log, orphans), TellsIn(chk, log), UnverifiedTrust, n - 1, rows,
                      Untrusted(chk, VerifiedIds(log), log[..n - 1]),
                      if hit then [About(UnverifiedTrust, log[n - 1])] else []);
    }
  }

  lemma BrokenTold(chk: Checks, log: Log, orphans: bool, i: nat)
    requires i < |log| && Chained(chk.codec, log[..i]) && !Links(chk.codec, LastHash(log[..i]), log[i])
    ensures Rows(WrongIn(chk, log, orphans), BrokenChain, |log|, [i])
    ensures var e := if log[i].prevHash != LastHash(log[..i]) then PrevHashBroken(log[i].seqNo) else HashBroken(log[i].seqNo);
            Told(TellsIn(chk, log), BrokenChain, [i], ChainViolations(Err(e)))
  {
    forall j: nat | Wrong(chk, log, orphans, Find(BrokenChain, j)) ensures j == i {
      OneFirstBreak(chk, log, orphans, i, j);
    }
  }

  lemma ChainTold(chk: Checks, log: Log, orphans: bool) returns (rows: seq<nat>)
    ensures Rows(WrongIn(chk, log, orphans), BrokenChain, |log|, rows)
    ensures Told(TellsIn(chk, log), BrokenChain, rows, ChainViolations(Verify(chk.codec, log)))
  {
    if Verify(chk.codec, log).Ok? {
      rows := [];
      VerifyAccepts(chk.codec, log);
      forall i: nat ensures !Wrong(chk, log, orphans, Find(BrokenChain, i)) {
        NoBreak(chk, log, orphans, i);
      }
    } else {
      var i := BreakIsFirst(chk.codec, log);
      rows := [i];
      BrokenTold(chk, log, orphans, i);
    }
  }

  // --- the check of the attempts, which reports task by task ---

  function FindOf(f: Flag): Find {
    Find(if f.TwoTerminals? then Kind.TwoTerminals else Kind.NoTerminal, f.row)
  }

  lemma {:induction false} AboutFlagsAre(log: Log, flags: seq<Flag>)
    requires forall k :: 0 <= k < |flags| ==> flags[k].row < |log|
    ensures |AboutFlags(log, flags)| == |flags|
    ensures forall k :: 0 <= k < |flags| ==> AboutFlags(log, flags)[k] == About(FindOf(flags[k]).kind, log[flags[k].row])
  {
    if flags != [] {
      AboutFlagsAre(log, flags[..|flags| - 1]);
    }
  }

  lemma FlagTells(chk: Checks, log: Log, orphans: bool, f: Flag)
    requires Wrong(chk, log, orphans, FindOf(f))
    ensures f.row < |log| && Tells(chk, log, FindOf(f), About(FindOf(f).kind, log[f.row]))
  {
  }

  function FindsOf(flags: seq<Flag>): (finds: seq<Find>)
    ensures |finds| == |flags| && forall k :: 0 <= k < |flags| ==> finds[k] == FindOf(flags[k])
  {
    seq(|flags|, k requires 0 <= k < |flags| => FindOf(flags[k]))
  }

  lemma FindsOfIn(flags: seq<Flag>, f: Flag)
    ensures FindOf(f) in FindsOf(flags) <==> f in flags
  {
    if f in flags {
      var k :| 0 <= k < |flags| && flags[k] == f;
      assert FindsOf(flags)[k] == FindOf(f);
    }
  }

  lemma FindsOfDistinct(flags: seq<Flag>)
    requires Distinct(flags)
    ensures Distinct(FindsOf(flags)) && Ascending(FindsOf(flags))
  {
    forall i, j | 0 <= i < j < |flags| ensures FindsOf(flags)[i] != FindsOf(flags)[j] {
      assert flags[i] != flags[j];
    }
  }

  lemma FlagsTell(chk: Checks, log: Log, orphans: bool, flags: seq<Flag>)
    requires forall f :: f in flags ==> Wrong(chk, log, orphans, FindOf(f))
    ensures |AboutFlags(log, flags)| == |flags|
    ensures forall k :: 0 <= k < |flags| ==> TellsIn(chk, log)(FindsOf(flags)[k], AboutFlags(log, flags)[k])
  {
    forall k | 0 <= k < |flags|
      ensures flags[k].row < |log| && Tells(chk, log, FindOf(flags[k]), About(FindOf(flags[k]).kind, log[flags[k].row]))
    {
      assert flags[k] in flags;
      FlagTells(chk, log, orphans, flags[k]);
    }
    AboutFlagsAre(log, flags);
  }

  lemma FlagsFind(wrong: Find -> bool, flags: seq<Flag>, f: Find)
    requires forall g :: g in flags <==> wrong(FindOf(g))
    ensures f in FindsOf(flags) <==> 10 <= f.kind.Number() < 12 && wrong(f)
  {
    if f.kind == Kind.TwoTerminals || f.kind == Kind.NoTerminal {
      var flag := if f.kind == Kind.TwoTerminals then Flag.TwoTerminals(f.row) else Flag.NoTerminal(f.row);
      assert FindOf(flag) == f;
      FindsOfIn(flags, flag);
    }
  }

  /** Flags that flag exactly what is wrong, once each. */
  lemma FlagsPart(
    wrong: Find -> bool, tells: (Find, Violation) -> bool, flags: seq<Flag>, vs: seq<Violation>)
    requires Distinct(flags) && (forall f :: f in flags <==> wrong(FindOf(f)))
    requires |vs| == |flags| && forall k :: 0 <= k < |flags| ==> tells(FindsOf(flags)[k], vs[k])
    ensures Part(wrong, tells, 10, 12, vs, FindsOf(flags))
  {
    FindsOfDistinct(flags);
    forall f ensures f in FindsOf(flags) <==> 10 <= f.kind.Number() < 12 && wrong(f) {
      FlagsFind(wrong, flags, f);
    }
  }

  lemma AttemptsPart(chk: Checks, log: Log, orphans: bool) returns (finds: seq<Find>)
    ensures Part(WrongIn(chk, log, orphans), TellsIn(chk, log), 10, 12,
                 AboutFlags(log, FlagsOfAll(log, Tasks(log, |log|), orphans)), finds)
  {
    var flags := FlagsOfAll(log, Tasks(log, |log|), orphans);
    TerminalPerTaskExact(log, orphans);
    forall f ensures f in flags <==> Wrong(chk, log, orphans, FindOf(f)) {
      FlaggedExact(chk, log, orphans, f);
    }
    FlagsTell(chk, log, orphans, flags);
    FlagsPart(WrongIn(chk, log, orphans), TellsIn(chk, log), flags, AboutFlags(log, flags));
    finds := FindsOf(flags);
  }

  // --- all checks ---

  /** What the first three checks report. */
  function Early(chk: Checks, log: Log): seq<Violation> {
    LockViolations(DoubleLocks(log, |log|)) + AboutRows(log, NotEarned, UnearnedRows(log, |log|)) +
    ChainViolations(Verify(chk.codec, log))
  }

  /** And the other four. */
  function Late(chk: Checks, log: Log, orphans: bool): seq<Violation> {
    Uncorrelated(log) + AboutFlags(log, FlagsOfAll(log, Tasks(log, |log|), orphans)) +
    Weakened(chk, log) + Untrusted(chk, VerifiedIds(log), log)
  }

  lemma AllIsBoth(chk: Checks, log: Log, includeOrphans: bool)
    ensures AllViolations(chk, log, includeOrphans) == Early(chk, log) + Late(chk, log, Orphans(log, includeOrphans))
  {
  }

  lemma EarlyPart(chk: Checks, log: Log, orphans: bool) returns (finds: seq<Find>)
    ensures Part(WrongIn(chk, log, orphans), TellsIn(chk, log), 0, 9, Early(chk, log), finds)
  {
    var wrong, tells, n := WrongIn(chk, log, orphans), TellsIn(chk, log), |log|;
    var locks := LocksTold(chk, log, orphans, n);
    var unearned := UnearnedTold(chk, log, orphans, n);
    var chain := ChainTold(chk, log, orphans);
    WrongWithin(chk, log, orphans);
    var a, b := LockViolations(DoubleLocks(log, n)), AboutRows(log, NotEarned, UnearnedRows(log, n));
    var c := ChainViolations(Verify(chk.codec, log));
    RowsPart(wrong, tells, TwoLocks, n, locks, 0, 5, a);
    RowsPart(wrong, tells, NotEarned, n, unearned, 5, 7, b);
    RowsPart(wrong, tells, BrokenChain, n, chain, 7, 9, c);
    PartConcat(wrong, tells, 0, 5, 7, a, Finds(TwoLocks, locks), b, Finds(NotEarned, unearned));
    finds := Finds(TwoLocks, locks) + Finds(NotEarned, unearned);
    PartConcat(wrong, tells, 0, 7, 9, a + b, finds, c, Finds(BrokenChain, chain));
    finds := finds + Finds(BrokenChain, chain);
  }

  lemma LatePart(chk: Checks, log: Log, orphans: bool) returns (finds: seq<Find>)
    ensures Part(WrongIn(chk, log, orphans), TellsIn(chk, log), 9, 18, Late(chk, log, orphans), finds)
  {
    var wrong, tells, n := WrongIn(chk, log, orphans), TellsIn(chk, log), |log|;
    assert log[..n] == log;
    var bare := UncorrelatedTold(chk, log, orphans, n);
    var attempts := AttemptsPart(chk, log, orphans);
    var weak := WeakenedTold(chk, log, orphans, n);
    var trusts := UntrustedTold(chk, log, orphans, n);
    WrongWithin(chk, log, orphans);
    var a, b := Uncorrelated(log), AboutFlags(log, FlagsOfAll(log, Tasks(log, n), orphans));
    var c, d := Weakened(chk, log), Untrusted(chk, VerifiedIds(log), log);
    RowsPart(wrong, tells, NoCorrelation, n, bare, 9, 10, a);
    RowsPart(wrong, tells, WeakenedGate, n, weak, 12, 17, c);
    RowsPart(wrong, tells, UnverifiedTrust, n, trusts, 17, 18, d);
    PartConcat(wrong, tells, 9, 10, 12, a, Finds(NoCorrelation, bare), b, attempts);
    finds := Finds(NoCorrelation, bare) + attempts;
    PartConcat(wrong, tells, 9, 12, 17, a + b, finds, c, Finds(WeakenedGate, weak));
    finds := finds + Finds(WeakenedGate, weak);
    PartConcat(wrong, tells, 9, 17, 18, a + b + c, finds, d, Finds(UnverifiedTrust, trusts));
    finds := finds + Finds(UnverifiedTrust, trusts);
  }

  lemma PartIsAll(chk: Checks, log: Log, includeOrphans: bool, vs: seq<Violation>, finds: seq<Find>)
    requires Part(WrongIn(chk, log, includeOrphans && !Locked(log)), TellsIn(chk, log), 0, 18, vs, finds)
    ensures Found(chk, log, includeOrphans, vs, finds)
  {
    var orphans := includeOrphans && !Locked(log);
    forall f ensures f in finds <==> Wrong(chk, log, orphans, f) {
      assert WrongIn(chk, log, orphans)(f) == Wrong(chk, log, orphans, f);
    }
    forall k | 0 <= k < |vs| ensures Tells(chk, log, finds[k], vs[k]) {
      assert TellsIn(chk, log)(finds[k], vs[k]);
    }
  }

  /** All checks together find exactly what is wrong. */
  lemma AllFound(chk: Checks, log: Log, includeOrphans: bool) returns (finds: seq<Find>)
    ensures Found(chk, log, includeOrphans, AllViolations(chk, log, includeOrphans), finds)
  {
    var orphans := Orphans(log, includeOrphans);
    var wrong, tells := WrongIn(chk, log, orphans), TellsIn(chk, log);
    OrphansExact(log, includeOrphans);
    AllIsBoth(chk, log, includeOrphans);
    var early := EarlyPart(chk, log, orphans);
    var late := LatePart(chk, log, orphans);
    PartConcat(wrong, tells, 0, 9, 18, Early(chk, log), early, Late(chk, log, orphans), late);
    finds := early + late;
    PartIsAll(chk, log, includeOrphans, AllViolations(chk, log, includeOrphans), finds);
  }
}
