/** Sweeps statement by statement, any number of them, with other rows between (monitor/sweep.py). */
module Sweepers {
  import opened Results
  import opened LogEvents
  import opened Violations
  import opened Sweep

  /** Where a sweep stands: the keys it has seen, the violations it found, and the next one to report. */
  datatype Sweeper =
    | Resting
    | Keyed(chk: Checks, seen: set<Option<string>>)
    | Reporting(chk: Checks, seen: set<Option<string>>, found: seq<Violation>, next: nat)

  datatype State = State(log: Log, sweepers: seq<Sweeper>)

  datatype Step =
    | ReadKeys(sweeper: nat, chk: Checks)
    | RunAll(sweeper: nat, includeOrphans: bool)
    | Report(sweeper: nat)
    | Other(row: Row)

  /** The next violation is skipped or reported; after the last one the sweep is over. */
  function ReportNext(uuid: nat -> string, s: State, w: nat): State
    requires w < |s.sweepers| && s.sweepers[w].Reporting?
  {
    var p := s.sweepers[w];
    if p.next >= |p.found| then s.(sweepers := s.sweepers[w := Resting])
    else
      var v := p.found[p.next];
      var key := Some(DedupKey(v));
      if key in p.seen then s.(sweepers := s.sweepers[w := p.(next := p.next + 1)])
      else State(s.log + [ReportRow(p.chk, s.log, v, uuid(|s.log|))],
                 s.sweepers[w := p.(seen := p.seen + {key}, next := p.next + 1)])
  }

  function Next(uuid: nat -> string, s: State, step: Step): State {
    if step.Other? then (if step.row.payload.InvariantViolated? then s else s.(log := s.log + [step.row]))
    else
      var w := step.sweeper;
      if w >= |s.sweepers| then s
      else
        match (step, s.sweepers[w])
        case (ReadKeys(_, chk), Resting) => s.(sweepers := s.sweepers[w := Keyed(chk, KeysIn(s.log))])
        case (RunAll(_, orphans), Keyed(chk, seen)) =>
          s.(sweepers := s.sweepers[w := Reporting(chk, seen, AllViolations(chk, s.log, orphans), 0)])
        case (Report(_), Reporting(_, _, _, _)) => ReportNext(uuid, s, w)
        case _ => s
  }

  function Run(uuid: nat -> string, s: State, steps: seq<Step>): State {
    if steps == [] then s else Next(uuid, Run(uuid, s, steps[..|steps| - 1]), steps[|steps| - 1])
  }

  // --- one sweep at a time ---

  ghost predicate AllRest(s: State) {
    forall w :: 0 <= w < |s.sweepers| ==> s.sweepers[w].Resting?
  }

  /** A sweep starts only while no other is under way. */
  ghost predicate InTurn(s: State, step: Step) {
    step.ReadKeys? ==> AllRest(s)
  }

  ghost predicate AllInTurn(uuid: nat -> string, s: State, steps: seq<Step>) {
    forall n :: 0 <= n < |steps| ==> InTurn(Run(uuid, s, steps[..n]), steps[n])
  }

  /** At most one sweep is under way, and it has seen every key in the log. */
  ghost predicate OneKnowsAll(s: State) {
    && (forall v, w :: 0 <= v < w < |s.sweepers| ==> s.sweepers[v].Resting? || s.sweepers[w].Resting?)
    && forall w :: 0 <= w < |s.sweepers| && !s.sweepers[w].Resting? ==> KeysIn(s.log) <= s.sweepers[w].seen
  }

  lemma ReportKeeps(uuid: nat -> string, s: State, w: nat)
    requires w < |s.sweepers| && s.sweepers[w].Reporting? && OneKnowsAll(s) && ReportedOnce(s.log)
    ensures OneKnowsAll(ReportNext(uuid, s, w)) && ReportedOnce(ReportNext(uuid, s, w).log)
  {
    var p := s.sweepers[w];
    if p.next < |p.found| && Some(DedupKey(p.found[p.next])) !in p.seen {
      var row := ReportRow(p.chk, s.log, p.found[p.next], uuid(|s.log|));
      ReportedOnceGrows(s.log, row);
      KeysGrow(s.log, row);
    }
  }

  lemma StepKeeps(uuid: nat -> string, s: State, step: Step)
    requires OneKnowsAll(s) && ReportedOnce(s.log) && InTurn(s, step)
    ensures OneKnowsAll(Next(uuid, s, step)) && ReportedOnce(Next(uuid, s, step).log)
  {
    match step {
      case Other(row) =>
        if !row.payload.InvariantViolated? {
          ReportedOnceGrows(s.log, row);
          KeysGrow(s.log, row);
        }
      case Report(w) =>
        if w < |s.sweepers| && s.sweepers[w].Reporting? {
          ReportKeeps(uuid, s, w);
        }
      case _ =>
    }
  }

  /** Sweeps that take turns report no key twice, whatever else is appended between their statements. */
  lemma {:induction false} TurnsReportOnce(uuid: nat -> string, s: State, steps: seq<Step>)
    requires AllRest(s) && ReportedOnce(s.log) && AllInTurn(uuid, s, steps)
    ensures OneKnowsAll(Run(uuid, s, steps)) && ReportedOnce(Run(uuid, s, steps).log)
  {
    if steps != [] {
      var front := steps[..|steps| - 1];
      forall n | 0 <= n < |front| ensures InTurn(Run(uuid, s, front[..n]), front[n]) {
        assert front[..n] == steps[..n];
      }
      TurnsReportOnce(uuid, s, front);
      StepKeeps(uuid, Run(uuid, s, front), steps[|steps| - 1]);
    }
  }

  // --- a sweep that nothing disturbs ---

  function Reports(w: nat, k: nat): seq<Step> {
    if k == 0 then [] else Reports(w, k - 1) + [Report(w)]
  }

  /** What a sweep does before its first report. */
  function Looks(w: nat, chk: Checks, orphans: bool): seq<Step> {
    [ReadKeys(w, chk)] + [RunAll(w, orphans)]
  }

  lemma RunOne(uuid: nat -> string, s: State, steps: seq<Step>, step: Step)
    ensures Run(uuid, s, steps + [step]) == Next(uuid, Run(uuid, s, steps), step)
  {
    assert (steps + [step])[..|steps|] == steps;
  }

  /** A sweep has gone through `k` of the violations it found and has seen every key in the log. */
  function At(chk: Checks, log: Log, sweepers: seq<Sweeper>, w: nat, vs: seq<Violation>, k: nat): State
    requires w < |sweepers|
  {
    State(log, sweepers[w := Reporting(chk, KeysIn(log), vs, k)])
  }

  lemma ReportIs(
    uuid: nat -> string, chk: Checks, log: Log, sweepers: seq<Sweeper>, w: nat, vs: seq<Violation>, k: nat)
    requires w < |sweepers| && k < |vs|
    ensures ReportNext(uuid, At(chk, log, sweepers, w, vs, k), w) ==
            At(chk, SweepOne(chk, uuid, log, vs[k]), sweepers, w, vs, k + 1)
  {
    var key := Some(DedupKey(vs[k]));
    SweepOneKeys(chk, uuid, log, vs[k]);
    assert key in KeysIn(log) ==> KeysIn(log) + {key} == KeysIn(log);
    var next := SweepOne(chk, uuid, log, vs[k]);
    Overwritten(sweepers, w, Reporting(chk, KeysIn(log), vs, k), Reporting(chk, KeysIn(next), vs, k + 1));
  }

  lemma NextReports(uuid: nat -> string, s: State, w: nat)
    requires w < |s.sweepers| && s.sweepers[w].Reporting?
    ensures Next(uuid, s, Report(w)) == ReportNext(uuid, s, w)
  {
  }

  lemma OneMoreReport(
    uuid: nat -> string, chk: Checks, s: State, w: nat, vs: seq<Violation>, k: nat, steps: seq<Step>, log: Log)
    requires w < |s.sweepers| && k < |vs| && Run(uuid, s, steps) == At(chk, log, s.sweepers, w, vs, k)
    ensures Run(uuid, s, steps + [Report(w)]) == At(chk, SweepOne(chk, uuid, log, vs[k]), s.sweepers, w, vs, k + 1)
  {
    RunOne(uuid, s, steps, Report(w));
    NextReports(uuid, At(chk, log, s.sweepers, w, vs, k), w);
    ReportIs(uuid, chk, log, s.sweepers, w, vs, k);
  }

  lemma OneMoreSwept(uuid: nat -> string, chk: Checks, s: State, w: nat, vs: seq<Violation>, k: nat)
    requires w < |s.sweepers| && k < |vs|
    requires Run(uuid, s, Reports(w, k)) == At(chk, Swept(chk, uuid, s.log, vs[..k]), s.sweepers, w, vs, k)
    ensures Run(uuid, s, Reports(w, k + 1)) == At(chk, Swept(chk, uuid, s.log, vs[..k + 1]), s.sweepers, w, vs, k + 1)
  {
    OneMoreReport(uuid, chk, s, w, vs, k, Reports(w, k), Swept(chk, uuid, s.log, vs[..k]));
    SweptNext(chk, uuid, s.log, vs, k);
  }

  lemma NoReports(uuid: nat -> string, chk: Checks, s: State, w: nat, vs: seq<Violation>)
    requires w < |s.sweepers| && s.sweepers[w] == Reporting(chk, KeysIn(s.log), vs, 0)
    ensures At(chk, Swept(chk, uuid, s.log, vs[..0]), s.sweepers, w, vs, 0) == s
  {
    assert vs[..0] == [];
    assert s.sweepers[w := s.sweepers[w]] == s.sweepers;
  }

  /** `k` reports append what the sweep as one step appends for the first `k` violations. */
  lemma RunReports(
    uuid: nat -> string, chk: Checks, s: State, w: nat, vs: seq<Violation>, k: nat)
    requires w < |s.sweepers| && k <= |vs| && s.sweepers[w] == Reporting(chk, KeysIn(s.log), vs, 0)
    ensures Run(uuid, s, Reports(w, k)) == At(chk, Swept(chk, uuid, s.log, vs[..k]), s.sweepers, w, vs, k)
  {
    NoReports(uuid, chk, s, w, vs);
    for i := 0 to k
      invariant Run(uuid, s, Reports(w, i)) == At(chk, Swept(chk, uuid, s.log, vs[..i]), s.sweepers, w, vs, i)
    {
      OneMoreSwept(uuid, chk, s, w, vs, i);
    }
  }

  lemma {:induction false} RunConcat(uuid: nat -> string, s: State, a: seq<Step>, b: seq<Step>)
    ensures Run(uuid, s, a + b) == Run(uuid, Run(uuid, s, a), b)
  {
    if b == [] {
      assert a + b == a;
    } else {
      assert (a + b)[..|a + b| - 1] == a + b[..|b| - 1];
      RunConcat(uuid, s, a, b[..|b| - 1]);
    }
  }

  lemma NextKeys(uuid: nat -> string, s: State, w: nat, chk: Checks)
    requires w < |s.sweepers| && s.sweepers[w].Resting?
    ensures Next(uuid, s, ReadKeys(w, chk)) == s.(sweepers := s.sweepers[w := Keyed(chk, KeysIn(s.log))])
  {
  }

  lemma NextFinds(uuid: nat -> string, s: State, w: nat, chk: Checks, orphans: bool)
    requires w < |s.sweepers| && s.sweepers[w] == Keyed(chk, KeysIn(s.log))
    ensures Next(uuid, s, RunAll(w, orphans)) == At(chk, s.log, s.sweepers, w, AllViolations(chk, s.log, orphans), 0)
  {
  }

  lemma Overwritten(sweepers: seq<Sweeper>, w: nat, a: Sweeper, b: Sweeper)
    requires w < |sweepers|
    ensures sweepers[w := a][w := b] == sweepers[w := b]
  {
  }

  lemma Starts(uuid: nat -> string, s: State, w: nat, chk: Checks, orphans: bool)
    requires w < |s.sweepers| && s.sweepers[w].Resting?
    ensures Run(uuid, s, Looks(w, chk, orphans)) ==
            At(chk, s.log, s.sweepers, w, AllViolations(chk, s.log, orphans), 0)
  {
    var vs, keyed := AllViolations(chk, s.log, orphans), Keyed(chk, KeysIn(s.log));
    RunTwo(uuid, s, ReadKeys(w, chk), RunAll(w, orphans));
    NextKeys(uuid, s, w, chk);
    NextFinds(uuid, s.(sweepers := s.sweepers[w := keyed]), w, chk, orphans);
    Overwritten(s.sweepers, w, keyed, Reporting(chk, KeysIn(s.log), vs, 0));
  }

  /** The statements of one undisturbed sweep append what the sweep as one step appends. */
  lemma AloneIsSwept(uuid: nat -> string, s: State, w: nat, chk: Checks, orphans: bool)
    requires w < |s.sweepers| && s.sweepers[w].Resting?
    ensures var vs := AllViolations(chk, s.log, orphans);
            Run(uuid, s, Looks(w, chk, orphans) + Reports(w, |vs|)).log == Swept(chk, uuid, s.log, vs)
  {
    var vs := AllViolations(chk, s.log, orphans);
    var started := At(chk, s.log, s.sweepers, w, vs, 0);
    Starts(uuid, s, w, chk, orphans);
    RunConcat(uuid, s, Looks(w, chk, orphans), Reports(w, |vs|));
    RunReports(uuid, chk, started, w, vs, |vs|);
    assert vs[..|vs|] == vs;
  }

  // --- two sweeps at once ---

  /** Both sweeps have read the keys and found the same violations, and neither has reported yet. */
  function BothFound(log: Log, chk: Checks, vs: seq<Violation>): State {
    var reporting := Reporting(chk, KeysIn(log), vs, 0);
    State(log, [reporting, reporting])
  }

  lemma BothStart(uuid: nat -> string, log: Log, chk: Checks, orphans: bool)
    ensures Run(uuid, State(log, [Resting, Resting]), Looks(0, chk, orphans) + Looks(1, chk, orphans)) ==
            BothFound(log, chk, AllViolations(chk, log, orphans))
  {
    var s, vs := State(log, [Resting, Resting]), AllViolations(chk, log, orphans);
    Starts(uuid, s, 0, chk, orphans);
    Starts(uuid, At(chk, log, s.sweepers, 0, vs, 0), 1, chk, orphans);
    RunConcat(uuid, s, Looks(0, chk, orphans), Looks(1, chk, orphans));
  }

  lemma NewKeyIsReported(uuid: nat -> string, s: State, w: nat)
    requires w < |s.sweepers| && s.sweepers[w].Reporting? && s.sweepers[w].next < |s.sweepers[w].found|
    requires Some(DedupKey(s.sweepers[w].found[s.sweepers[w].next])) !in s.sweepers[w].seen
    ensures var next, v := Next(uuid, s, Report(w)), s.sweepers[w].found[s.sweepers[w].next];
            && |next.log| == |s.log| + 1 && next.log[..|s.log|] == s.log
            && next.log[|s.log|].payload == InvariantViolated(Some(DedupKey(v)))
            && forall x :: 0 <= x < |s.sweepers| && x != w ==> x < |next.sweepers| && next.sweepers[x] == s.sweepers[x]
  {
    NextReports(uuid, s, w);
  }

  lemma SameKeyTwice(log: Log, once: Log, twice: Log, key: Option<string>)
    requires |once| == |log| + 1 && once[|log|].payload == InvariantViolated(key)
    requires |twice| == |once| + 1 && twice[..|once|] == once && twice[|once|].payload == InvariantViolated(key)
    ensures !ReportedOnce(twice)
  {
    assert twice[|log|] == once[|log|];
  }

  lemma RunTwo(uuid: nat -> string, s: State, a: Step, b: Step)
    ensures Run(uuid, s, [a] + [b]) == Next(uuid, Next(uuid, s, a), b)
  {
    RunOne(uuid, s, [], a);
    assert [] + [a] == [a];
    RunOne(uuid, s, [a], b);
  }

  lemma BothReport(uuid: nat -> string, s: State, log: Log, chk: Checks, vs: seq<Violation>)
    requires s == BothFound(log, chk, vs) && vs != [] && Some(DedupKey(vs[0])) !in KeysIn(log)
    ensures !ReportedOnce(Run(uuid, s, [Report(0)] + [Report(1)]).log)
  {
    RunTwo(uuid, s, Report(0), Report(1));
    NewKeyIsReported(uuid, s, 0);
    var once := Next(uuid, s, Report(0));
    NewKeyIsReported(uuid, once, 1);
    SameKeyTwice(log, once.log, Next(uuid, once, Report(1)).log, Some(DedupKey(vs[0])));
  }

  /** Two sweeps that both look before either reports report the first new key twice. */
  lemma OverlapReportsTwice(uuid: nat -> string, log: Log, chk: Checks, orphans: bool)
    requires var vs := AllViolations(chk, log, orphans); vs != [] && Some(DedupKey(vs[0])) !in KeysIn(log)
    ensures var steps := Looks(0, chk, orphans) + Looks(1, chk, orphans) + ([Report(0)] + [Report(1)]);
            !ReportedOnce(Run(uuid, State(log, [Resting, Resting]), steps).log)
  {
    BothStart(uuid, log, chk, orphans);
    RunConcat(uuid, State(log, [Resting, Resting]), Looks(0, chk, orphans) + Looks(1, chk, orphans),
              [Report(0)] + [Report(1)]);
    BothReport(uuid, BothFound(log, chk, AllViolations(chk, log, orphans)), log, chk, AllViolations(chk, log, orphans));
  }
}
