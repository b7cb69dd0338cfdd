/** The rate limit on outside requests (oss/cooldowns.py, oss/intake.py). */
module Intake {
  import opened Results

  /** Limits as configured; `Window` and `Duration` are in milliseconds like the clock. */
  datatype Config = Config(maxIntakes: int, windowSeconds: int, durationSeconds: int) {
    function Window(): int {
      windowSeconds * 1000
    }

    function Duration(): int {
      durationSeconds * 1000
    }

    function Plain(): Limits {
      Limits(maxIntakes, Window(), Duration())
    }
  }

  /** The limits as plain numbers: intakes, window and cooldown, the last two in milliseconds. */
  datatype Limits = Limits(most: int, window: int, wait: int)

  datatype Reason = InCooldown | LicenseDisallowed | LicenseUnverified | MaintainerUnverified | InjectionDetected

  datatype Entry =
    | TaskIntake(requester: string, at: int)
    | Accepted(at: int)
    | Rejected(reason: Reason, at: int)
    | BudgetExceeded(requester: string, at: int)

  datatype Cooldown = Cooldown(requester: string, until: int)

  datatype State = State(log: seq<Entry>, cooldowns: seq<Cooldown>)

  /**
   One call: who asks and when, what the outside checks answer, and whether the call was given a
   connection to rate-limit with.
   */
  datatype Request = Request(
    requester: string, at: int, connected: bool, licenseAllowed: bool, declared: string, fetched: Option<string>,
    verified: bool, patterns: seq<string>)

  /** The upstream license is known, is an identifier, and is the declared one. */
  predicate LicenseVerified(r: Request) {
    r.fetched.Some? && r.fetched.value != "NOASSERTION" && r.fetched.value == r.declared
  }

  /** Some cooldown of the requester ends after now. */
  predicate CooldownActive(rows: seq<Cooldown>, requester: string, now: int) {
    exists i :: 0 <= i < |rows| && rows[i].requester == requester && rows[i].until > now
  }

  /** The times at which intakes of a requester were recorded, in log order. */
  function Times(log: seq<Entry>, requester: string): seq<int> {
    if log == [] then []
    else
      Times(log[..|log| - 1], requester) +
      match log[|log| - 1]
      case TaskIntake(q, at) => if q == requester then [at] else []
      case _ => []
  }

  /** How many of the first `n` times are no earlier than `from`. */
  function CountSince(times: seq<int>, n: nat, from: int): nat
    requires n <= |times|
  {
    if n == 0 then 0 else CountSince(times, n - 1, from) + if times[n - 1] >= from then 1 else 0
  }

  /** The requester's intakes that lie in the window of a call. */
  function InWindow(cfg: Config, log: seq<Entry>, r: Request): nat {
    CountSince(Times(log, r.requester), |Times(log, r.requester)|, r.at - cfg.Window())
  }

  function RejectWith(s: State, reason: Reason, at: int): State {
    s.(log := s.log + [Entry.Rejected(reason, at)])
  }

  /** The rate check after an intake: at the limit, a cooldown starts. */
  function RateChecked(cfg: Config, s: State, r: Request): State {
    if InWindow(cfg, s.log, r) >= cfg.maxIntakes then
      State(s.log + [BudgetExceeded(r.requester, r.at)],
            s.cooldowns + [Cooldown(r.requester, r.at + cfg.Duration())])
    else s
  }

  /** The first check that refuses, in order. */
  function Refusal(s: State, r: Request): Option<Reason> {
    if r.connected && CooldownActive(s.cooldowns, r.requester, r.at) then Some(InCooldown)
    else if !r.licenseAllowed then Some(LicenseDisallowed)
    else if !LicenseVerified(r) then Some(LicenseUnverified)
    else if !r.verified then Some(MaintainerUnverified)
    else if r.patterns != [] then Some(InjectionDetected)
    else None
  }

  function Processed(cfg: Config, s: State, r: Request): State {
    match Refusal(s, r)
    case Some(InCooldown) =>
      var rejected := RejectWith(s, InCooldown, r.at);
      rejected.(log := rejected.log + [BudgetExceeded(r.requester, r.at)])
    case Some(reason) => RejectWith(s, reason, r.at)
    case None =>
      var recorded := s.(log := s.log + [TaskIntake(r.requester, r.at), Accepted(r.at)]);
      if r.connected then RateChecked(cfg, recorded, r) else recorded
  }

  lemma TimesGrow(log: seq<Entry>, e: Entry, requester: string)
    ensures Times(log + [e], requester) ==
            Times(log, requester) + if e.TaskIntake? && e.requester == requester then [e.at] else []
  {
    assert (log + [e])[..|log|] == log;
  }

  lemma {:induction false} CountSame(times: seq<int>, more: seq<int>, n: nat, from: int)
    requires n <= |times| <= |more| && times == more[..|times|]
    ensures CountSince(more, n, from) == CountSince(times, n, from)
  {
    if n > 0 {
      CountSame(times, more, n - 1, from);
    }
  }

  lemma CountGrows(times: seq<int>, at: int, from: int)
    ensures CountSince(times + [at], |times| + 1, from) ==
            CountSince(times, |times|, from) + if at >= from then 1 else 0
  {
    CountSame(times, times + [at], |times|, from);
  }

  // --- the outcome of a call, condition by condition ---

  /** No cooldown of the requester lasts beyond the call, or the call is not rate-limited. */
  ghost predicate Unhindered(rows: seq<Cooldown>, r: Request) {
    r.connected ==> forall c :: c in rows && c.requester == r.requester ==> c.until <= r.at
  }

  /** Everything that a call needs to be accepted. */
  ghost predicate Clear(rows: seq<Cooldown>, r: Request) {
    && Unhindered(rows, r) && r.licenseAllowed
    && r.fetched == Some(r.declared) && r.declared != "NOASSERTION"
    && r.verified && r.patterns == []
  }

  /** The reason that is logged: its own check fails, and those in front of it pass. */
  ghost predicate RefusedFor(rows: seq<Cooldown>, r: Request, reason: Reason) {
    var licensed := r.licenseAllowed && r.fetched == Some(r.declared) && r.declared != "NOASSERTION";
    match reason
    case InCooldown => r.connected && exists c :: c in rows && c.requester == r.requester && c.until > r.at
    case LicenseDisallowed => Unhindered(rows, r) && !r.licenseAllowed
    case LicenseUnverified => Unhindered(rows, r) && r.licenseAllowed && !licensed
    case MaintainerUnverified => Unhindered(rows, r) && licensed && !r.verified
    case InjectionDetected => Unhindered(rows, r) && licensed && r.verified && r.patterns != []
  }

  /** What a refused call leaves: its refusal, in a cooldown an audit event too, and nothing else. */
  ghost predicate Refused(s: State, r: Request, reason: Reason, after: State) {
    && after.cooldowns == s.cooldowns
    && after.log == s.log + [Entry.Rejected(reason, r.at)]
                    + if reason == InCooldown then [BudgetExceeded(r.requester, r.at)] else []
  }

  /** The rows of the requester's intakes no older than the window. */
  ghost function Recent(cfg: Config, log: seq<Entry>, r: Request): set<nat> {
    set i: nat | i < |log| && log[i].TaskIntake? && log[i].requester == r.requester
                 && log[i].at >= r.at - cfg.windowSeconds * 1000
  }

  /** What an accepted call leaves: the intake and, when that fills the window of a connected call, a cooldown. */
  ghost predicate Admitted(cfg: Config, s: State, r: Request, after: State) {
    var recorded := s.log + [TaskIntake(r.requester, r.at), Accepted(r.at)];
    if r.connected && |Recent(cfg, recorded, r)| >= cfg.maxIntakes then
      && after.log == recorded + [BudgetExceeded(r.requester, r.at)]
      && after.cooldowns == s.cooldowns + [Cooldown(r.requester, r.at + cfg.durationSeconds * 1000)]
    else after.log == recorded && after.cooldowns == s.cooldowns
  }

  predicate Hits(cfg: Config, e: Entry, r: Request) {
    e.TaskIntake? && e.requester == r.requester && e.at >= r.at - cfg.windowSeconds * 1000
  }

  lemma RecentGrows(cfg: Config, log: seq<Entry>, e: Entry, r: Request)
    ensures |Recent(cfg, log + [e], r)| == |Recent(cfg, log, r)| + if Hits(cfg, e, r) then 1 else 0
  {
    var n: nat := |log|;
    assert Recent(cfg, log + [e], r) == Recent(cfg, log, r) + if Hits(cfg, e, r) then {n} else {};
  }

  lemma WindowGrows(cfg: Config, log: seq<Entry>, e: Entry, r: Request)
    ensures InWindow(cfg, log + [e], r) == InWindow(cfg, log, r) + if Hits(cfg, e, r) then 1 else 0
  {
    TimesGrow(log, e, r.requester);
    if e.TaskIntake? && e.requester == r.requester {
      CountGrows(Times(log, r.requester), e.at, r.at - cfg.Window());
    } else {
      assert Times(log + [e], r.requester) == Times(log, r.requester);
    }
  }

  lemma {:induction false} RecentCounts(cfg: Config, log: seq<Entry>, r: Request)
    ensures |Recent(cfg, log, r)| == InWindow(cfg, log, r)
  {
    if log == [] {
      assert Recent(cfg, log, r) == {};
    } else {
      var front := log[..|log| - 1];
      RecentCounts(cfg, front, r);
      RecentGrows(cfg, front, log[|log| - 1], r);
      WindowGrows(cfg, front, log[|log| - 1], r);
      assert log == front + [log[|log| - 1]];
    }
  }

  lemma RefusalReason(s: State, r: Request)
    ensures match Refusal(s, r)
            case None => Clear(s.cooldowns, r)
            case Some(reason) => !Clear(s.cooldowns, r) && RefusedFor(s.cooldowns, r, reason)
  {
    if CooldownActive(s.cooldowns, r.requester, r.at) {
      var i :| 0 <= i < |s.cooldowns| && s.cooldowns[i].requester == r.requester && s.cooldowns[i].until > r.at;
      assert s.cooldowns[i] in s.cooldowns;
    }
  }

  /** A call is accepted exactly when it is clear, and else refused for the first check that fails. */
  lemma CallOutcome(cfg: Config, s: State, r: Request)
    ensures match Refusal(s, r)
            case None => Clear(s.cooldowns, r) && Admitted(cfg, s, r, Processed(cfg, s, r))
            case Some(reason) =>
              && !Clear(s.cooldowns, r)
              && RefusedFor(s.cooldowns, r, reason) && Refused(s, r, reason, Processed(cfg, s, r))
  {
    RefusalReason(s, r);
    RecentCounts(cfg, s.log + [TaskIntake(r.requester, r.at), Accepted(r.at)], r);
  }

  class IntakeStore {
    var log: seq<Entry>
    var cooldowns: seq<Cooldown>

    constructor ()
      ensures log == [] && cooldowns == []
    {
      log, cooldowns := [], [];
    }

    function Contents(): State
      reads this
    {
      State(log, cooldowns)
    }

    /** The latest end among the requester's running cooldowns. */
    method CheckCooldown(requester: string, now: int) returns (until: Option<int>)
      ensures until.Some? <==> CooldownActive(cooldowns, requester, now)
      ensures until.Some? ==>
                && Cooldown(requester, until.value) in cooldowns
                && forall c :: c in cooldowns && c.requester == requester ==> c.until <= until.value
    {
      until := None;
      for i := 0 to |cooldowns|
        invariant until.Some? <==> CooldownActive(cooldowns[..i], requester, now)
        invariant until.Some? ==> until.value > now && Cooldown(requester, until.value) in cooldowns[..i]
        invariant until.Some? ==> forall c :: c in cooldowns[..i] && c.requester == requester ==> c.until <= until.value
        invariant until.None? ==> forall c :: c in cooldowns[..i] && c.requester == requester ==> c.until <= now
      {
        var c := cooldowns[i];
        assert cooldowns[..i + 1] == cooldowns[..i] + [c];
        if c.requester == requester && c.until > now && (until.None? || c.until > until.value) {
          until := Some(c.until);
        }
      }
      assert cooldowns[..|cooldowns|] == cooldowns;
    }

    /** Counts the requester's intakes in the window; at the limit, records a cooldown and its audit event. */
    method CheckIntakeRate(cfg: Config, r: Request) returns (count: nat)
      modifies this
      ensures Contents() == RateChecked(cfg, old(Contents()), r)
      ensures count == InWindow(cfg, old(log), r) == |Recent(cfg, old(log), r)|
      ensures if count >= cfg.maxIntakes
              then log == old(log) + [BudgetExceeded(r.requester, r.at)]
                && cooldowns == old(cooldowns) + [Cooldown(r.requester, r.at + cfg.durationSeconds * 1000)]
              else log == old(log) && cooldowns == old(cooldowns)
    {
      RecentCounts(cfg, log, r);
      count := 0;
      var from := r.at - cfg.Window();
      for i := 0 to |log|
        invariant log == old(log) && cooldowns == old(cooldowns)
        invariant count == CountSince(Times(log[..i], r.requester), |Times(log[..i], r.requester)|, from)
      {
        assert log[..i + 1] == log[..i] + [log[i]];
        TimesGrow(log[..i], log[i], r.requester);
        if log[i].TaskIntake? && log[i].requester == r.requester {
          CountGrows(Times(log[..i], r.requester), log[i].at, from);
          if log[i].at >= from {
            count := count + 1;
          }
        } else {
          assert Times(log[..i + 1], r.requester) == Times(log[..i], r.requester);
        }
      }
      assert log[..|log|] == log;
      if count >= cfg.maxIntakes {
        cooldowns := cooldowns + [Cooldown(r.requester, r.at + cfg.Duration())];
        log := log + [BudgetExceeded(r.requester, r.at)];
      }
    }

    /** The cooldown gate, then the hardening checks in order; the first refusal ends the call. */
    method ProcessIntake(cfg: Config, r: Request) returns (accepted: bool)
      modifies this
      ensures accepted <==> Clear(old(cooldowns), r)
      ensures accepted ==> Admitted(cfg, old(Contents()), r, Contents())
      ensures !accepted ==> exists reason ::
                RefusedFor(old(cooldowns), r, reason) && Refused(old(Contents()), r, reason, Contents())
      ensures Contents() == Processed(cfg, old(Contents()), r)
      ensures accepted == Refusal(old(Contents()), r).None?
    {
      CallOutcome(cfg, Contents(), r);
      if r.connected {
        var until := CheckCooldown(r.requester, r.at);
        if until.Some? {
          log := log + [Entry.Rejected(InCooldown, r.at)];
          log := log + [BudgetExceeded(r.requester, r.at)];
          return false;
        }
      }
      if !r.licenseAllowed {
        log := log + [Entry.Rejected(LicenseDisallowed, r.at)];
        return false;
      }
      if r.fetched.None? || r.fetched.value == "NOASSERTION" || r.fetched.value != r.declared {
        log := log + [Entry.Rejected(LicenseUnverified, r.at)];
        return false;
      }
      if !r.verified {
        log := log + [Entry.Rejected(MaintainerUnverified, r.at)];
        return false;
      }
      if r.patterns != [] {
        log := log + [Entry.Rejected(InjectionDetected, r.at)];
        return false;
      }
      log := log + [TaskIntake(r.requester, r.at)];
      log := log + [Accepted(r.at)];
      assert log == old(log) + [TaskIntake(r.requester, r.at), Accepted(r.at)];
      if r.connected {
        var count := CheckIntakeRate(cfg, r);
      }
      accepted := true;
    }
  }

  // --- runs ---

  /** A call, or a cooldown put on a requester from elsewhere. */
  datatype Act = Call(request: Request) | Revoke(row: Cooldown)

  function Do(cfg: Config, s: State, a: Act): State {
    match a
    case Call(r) => Processed(cfg, s, r)
    case Revoke(row) => s.(cooldowns := s.cooldowns + [row])
  }

  function DoAll(cfg: Config, s: State, acts: seq<Act>): State {
    if acts == [] then s else Do(cfg, DoAll(cfg, s, acts[..|acts| - 1]), acts[|acts| - 1])
  }

  /** Calls come in the order of their clock, and those of the requester are rate-limited. */
  ghost predicate Clocked(acts: seq<Act>, requester: string) {
    (forall i, j :: 0 <= i < j < |acts| && acts[i].Call? && acts[j].Call? ==> acts[i].request.at <= acts[j].request.at) &&
    forall i :: 0 <= i < |acts| && acts[i].Call? && acts[i].request.requester == requester ==> acts[i].request.connected
  }

  /** The intakes up to the `k`-th reach the limit of the window that ends with it. */
  predicate Full(lim: Limits, times: seq<int>, k: nat)
    requires k < |times|
  {
    CountSince(times, k + 1, times[k] - lim.window) >= lim.most
  }

  ghost predicate InOrder(times: seq<int>) {
    forall i, j :: 0 <= i < j < |times| ==> times[i] <= times[j]
  }

  /** If the `k`-th intake filled its window, the one after it waited out the cooldown. */
  predicate Waited(lim: Limits, times: seq<int>, k: nat) {
    k + 1 < |times| && Full(lim, times, k) ==> times[k + 1] >= times[k] + lim.wait
  }

  /** After an intake that filled its window the next one waited out the cooldown. */
  ghost predicate Spaced(lim: Limits, times: seq<int>) {
    InOrder(times) && forall k: nat :: Waited(lim, times, k)
  }

  /** Spaced, and the latest intake, if it filled its window, has its cooldown on record. */
  ghost predicate Limited(lim: Limits, times: seq<int>, rows: seq<Cooldown>, requester: string) {
    Spaced(lim, times) &&
    (times != [] && Full(lim, times, |times| - 1) ==>
       Cooldown(requester, times[|times| - 1] + lim.wait) in rows)
  }

  ghost predicate LimitedIn(cfg: Config, s: State, requester: string) {
    Limited(cfg.Plain(), Times(s.log, requester), s.cooldowns, requester)
  }

  predicate NotAfter(times: seq<int>, at: int) {
    times != [] ==> times[|times| - 1] <= at
  }

  lemma RefusedTimes(s: State, reason: Reason, r: Request, requester: string)
    ensures var rejected := RejectWith(s, reason, r.at);
            && Times(rejected.log, requester) == Times(s.log, requester)
            && Times(rejected.log + [BudgetExceeded(r.requester, r.at)], requester) == Times(s.log, requester)
  {
    TimesGrow(s.log, Entry.Rejected(reason, r.at), requester);
    TimesGrow(s.log + [Entry.Rejected(reason, r.at)], BudgetExceeded(r.requester, r.at), requester);
  }

  lemma RecordedTimes(log: seq<Entry>, r: Request, requester: string)
    ensures Times(log + [TaskIntake(r.requester, r.at), Accepted(r.at)], requester) ==
            Times(log, requester) + if r.requester == requester then [r.at] else []
  {
    var intake := log + [TaskIntake(r.requester, r.at)];
    TimesGrow(log, TaskIntake(r.requester, r.at), requester);
    TimesGrow(intake, Accepted(r.at), requester);
    assert log + [TaskIntake(r.requester, r.at), Accepted(r.at)] == intake + [Accepted(r.at)];
  }

  lemma CheckedTimes(cfg: Config, s: State, r: Request, requester: string)
    ensures Times(RateChecked(cfg, s, r).log, requester) == Times(s.log, requester)
  {
    TimesGrow(s.log, BudgetExceeded(r.requester, r.at), requester);
  }

  /** A call records its time when the requester's call is accepted, and nothing else. */
  lemma TimesAfter(cfg: Config, s: State, r: Request, requester: string)
    ensures Times(Processed(cfg, s, r).log, requester) ==
            Times(s.log, requester) + if Refusal(s, r).None? && r.requester == requester then [r.at] else []
  {
    match Refusal(s, r) {
      case Some(reason) => RefusedTimes(s, reason, r, requester);
      case None =>
        RecordedTimes(s.log, r, requester);
        CheckedTimes(cfg, s.(log := s.log + [TaskIntake(r.requester, r.at), Accepted(r.at)]), r, requester);
    }
  }

  lemma CooldownsStay(cfg: Config, s: State, r: Request)
    ensures forall c :: c in s.cooldowns ==> c in Processed(cfg, s, r).cooldowns
  {
  }

  /** What an accepted intake adds to the cooldowns. */
  function Tripped(lim: Limits, times: seq<int>, requester: string, at: int): seq<Cooldown> {
    if CountSince(times + [at], |times| + 1, at - lim.window) >= lim.most then [Cooldown(requester, at + lim.wait)]
    else []
  }

  /** An accepted intake starts a cooldown exactly when it fills its window. */
  lemma AcceptedTrips(cfg: Config, s: State, r: Request)
    requires Refusal(s, r).None? && r.connected
    ensures Processed(cfg, s, r).cooldowns == s.cooldowns +
            Tripped(cfg.Plain(), Times(s.log, r.requester), r.requester, r.at)
  {
    RecordedTimes(s.log, r, r.requester);
    CheckTrips(cfg, s.(log := s.log + [TaskIntake(r.requester, r.at), Accepted(r.at)]), r, Times(s.log, r.requester));
  }

  lemma CheckTrips(cfg: Config, s: State, r: Request, times: seq<int>)
    requires Times(s.log, r.requester) == times + [r.at]
    ensures RateChecked(cfg, s, r).cooldowns == s.cooldowns + Tripped(cfg.Plain(), times, r.requester, r.at)
  {
  }

  lemma CooldownOver(s: State, r: Request, row: Cooldown)
    requires Refusal(s, r).None? && r.connected && row in s.cooldowns && row.requester == r.requester
    ensures row.until <= r.at
  {
    var i :| 0 <= i < |s.cooldowns| && s.cooldowns[i] == row;
  }

  lemma WaitedGrows(lim: Limits, times: seq<int>, at: int, k: nat)
    requires Waited(lim, times, k)
    requires times != [] && Full(lim, times, |times| - 1) ==> at >= times[|times| - 1] + lim.wait
    ensures Waited(lim, times + [at], k)
  {
    if k < |times| {
      CountSame(times, times + [at], k + 1, times[k] - lim.window);
    }
  }

  lemma SpacedGrows(lim: Limits, times: seq<int>, at: int)
    requires Spaced(lim, times) && NotAfter(times, at)
    requires times != [] && Full(lim, times, |times| - 1) ==> at >= times[|times| - 1] + lim.wait
    ensures Spaced(lim, times + [at])
  {
    forall k: nat ensures Waited(lim, times + [at], k) {
      WaitedGrows(lim, times, at, k);
    }
  }

  lemma LimitGrows(lim: Limits, times: seq<int>, rows: seq<Cooldown>, requester: string, at: int)
    requires Limited(lim, times, rows, requester) && NotAfter(times, at)
    requires times != [] && Full(lim, times, |times| - 1) ==> at >= times[|times| - 1] + lim.wait
    ensures Limited(lim, times + [at], rows + Tripped(lim, times, requester, at), requester)
  {
    SpacedGrows(lim, times, at);
  }

  lemma AcceptKeepsLimit(cfg: Config, s: State, r: Request)
    requires LimitedIn(cfg, s, r.requester) && NotAfter(Times(s.log, r.requester), r.at)
    requires r.connected && Refusal(s, r).None?
    ensures LimitedIn(cfg, Processed(cfg, s, r), r.requester)
  {
    var lim, times := cfg.Plain(), Times(s.log, r.requester);
    TimesAfter(cfg, s, r, r.requester);
    AcceptedTrips(cfg, s, r);
    if times != [] && Full(lim, times, |times| - 1) {
      CooldownOver(s, r, Cooldown(r.requester, times[|times| - 1] + lim.wait));
    }
    LimitGrows(lim, times, s.cooldowns, r.requester, r.at);
  }

  lemma CallKeepsLimit(cfg: Config, s: State, r: Request, requester: string)
    requires LimitedIn(cfg, s, requester) && NotAfter(Times(s.log, requester), r.at)
    requires r.requester == requester ==> r.connected
    ensures LimitedIn(cfg, Processed(cfg, s, r), requester)
  {
    if Refusal(s, r).None? && r.requester == requester {
      AcceptKeepsLimit(cfg, s, r);
    } else {
      TimesAfter(cfg, s, r, requester);
      CooldownsStay(cfg, s, r);
      assert Times(Processed(cfg, s, r).log, requester) == Times(s.log, requester);
    }
  }

  ghost predicate Fresh(s: State, requester: string) {
    Times(s.log, requester) == []
  }

  ghost predicate AllBefore(acts: seq<Act>, at: int) {
    forall i :: 0 <= i < |acts| && acts[i].Call? ==> acts[i].request.at <= at
  }

  /** In every run an intake that fills its window is followed by none before its cooldown ends. */
  lemma {:induction false} RunsStayLimited(cfg: Config, s: State, acts: seq<Act>, requester: string)
    requires Fresh(s, requester) && Clocked(acts, requester)
    ensures LimitedIn(cfg, DoAll(cfg, s, acts), requester)
    ensures forall at :: AllBefore(acts, at) ==> NotAfter(Times(DoAll(cfg, s, acts).log, requester), at)
  {
    if acts != [] {
      var front, last := acts[..|acts| - 1], acts[|acts| - 1];
      var before := DoAll(cfg, s, front);
      RunsStayLimited(cfg, s, front, requester);
      forall at | AllBefore(acts, at) ensures AllBefore(front, at) {
      }
      if last.Call? {
        assert AllBefore(front, last.request.at);
        CallKeepsLimit(cfg, before, last.request, requester);
        TimesAfter(cfg, before, last.request, requester);
      }
    }
  }

  // --- the bound ---

  lemma {:induction false} CountAtLeast(times: seq<int>, i: nat, n: nat, from: int)
    requires i <= n <= |times| && forall k :: i <= k < n ==> times[k] >= from
    ensures CountSince(times, n, from) >= n - i
  {
    if i < n {
      CountAtLeast(times, i, n - 1, from);
    }
  }

  /** Past the limit, every further intake inside the window waits out one more cooldown. */
  lemma {:induction false} CooldownsAddUp(lim: Limits, times: seq<int>, i: nat, d: nat)
    requires Spaced(lim, times) && lim.most >= 1 && i + lim.most - 1 + d < |times|
    requires times[i + lim.most - 1 + d] - times[i] <= lim.window
    ensures times[i + lim.most - 1 + d] >= times[i] + d * lim.wait
  {
    if d > 0 {
      var k: nat := i + lim.most - 1 + (d - 1);
      CooldownsAddUp(lim, times, i, d - 1);
      CountAtLeast(times, i, k + 1, times[k] - lim.window);
      assert Full(lim, times, k) && Waited(lim, times, k);
      assert d * lim.wait == (d - 1) * lim.wait + lim.wait;
    }
  }

  /**
   In every run, `n` intakes of one requester that span at most the window number no more than the
   limit, or their excess over it times the cooldown fits into the window.
   */
  lemma IntakesAreBounded(cfg: Config, s: State, acts: seq<Act>, requester: string, i: nat, n: nat)
    requires Fresh(s, requester) && Clocked(acts, requester) && cfg.maxIntakes >= 1 && n >= 1
    requires i + n <= |Times(DoAll(cfg, s, acts).log, requester)|
    requires var times := Times(DoAll(cfg, s, acts).log, requester); times[i + n - 1] - times[i] <= cfg.Window()
    ensures n <= cfg.maxIntakes || (n - cfg.maxIntakes) * cfg.Duration() <= cfg.Window()
  {
    RunsStayLimited(cfg, s, acts, requester);
    if n > cfg.maxIntakes {
      CooldownsAddUp(cfg.Plain(), Times(DoAll(cfg, s, acts).log, requester), i, n - cfg.maxIntakes);
    }
  }

  // --- the bound is attained ---

  /** A request that only the rate limit could refuse. */
  function CleanRequest(requester: string, license: string, at: int): Request {
    Request(requester, at, true, true, license, Some(license), true, [])
  }

  /** When the `n`-th greedy call is made: at zero up to the limit, then at the end of each cooldown. */
  function Slot(lim: Limits, n: nat): int {
    if n <= lim.most then 0 else (n - lim.most) * lim.wait
  }

  lemma SlotStep(lim: Limits, n: nat)
    requires lim.most >= 1 && lim.wait > 0
    ensures Slot(lim, n + 1) == if n < lim.most then 0 else Slot(lim, n) + lim.wait
    ensures 0 <= Slot(lim, n) <= Slot(lim, n + 1)
  {
    if n >= lim.most {
      var k := n - lim.most;
      assert (k + 1) * lim.wait == k * lim.wait + lim.wait;
      assert k * lim.wait >= 0;
    }
  }

  function GreedyCall(cfg: Config, requester: string, license: string, n: nat): Request {
    CleanRequest(requester, license, Slot(cfg.Plain(), n))
  }

  function Greedy(cfg: Config, requester: string, license: string, n: nat): seq<Act> {
    if n == 0 then [] else Greedy(cfg, requester, license, n - 1) + [Call(GreedyCall(cfg, requester, license, n))]
  }

  function Slots(lim: Limits, n: nat): (r: seq<int>)
    ensures |r| == n && forall k: nat :: k < n ==> r[k] == Slot(lim, k + 1)
  {
    if n == 0 then [] else Slots(lim, n - 1) + [Slot(lim, n)]
  }

  lemma {:induction false} CountAtMost(times: seq<int>, n: nat, from: int)
    requires n <= |times|
    ensures CountSince(times, n, from) <= n
  {
    if n > 0 {
      CountAtMost(times, n - 1, from);
    }
  }

  ghost predicate OverBy(rows: seq<Cooldown>, at: int) {
    forall c :: c in rows ==> c.until <= at
  }

  /** After `n` greedy calls: all were recorded, and no cooldown lasts beyond the next. */
  ghost predicate GreedyState(lim: Limits, s: State, requester: string, n: nat) {
    && Times(s.log, requester) == Slots(lim, n)
    && (n < lim.most ==> s.cooldowns == [])
    && OverBy(s.cooldowns, Slot(lim, n + 1))
  }

  lemma OverIsInactive(rows: seq<Cooldown>, requester: string, at: int)
    requires OverBy(rows, at)
    ensures !CooldownActive(rows, requester, at)
  {
    forall i | 0 <= i < |rows| ensures rows[i].until <= at {
      assert rows[i] in rows;
    }
  }

  lemma GreedyTrips(lim: Limits, rows: seq<Cooldown>, requester: string, n: nat)
    requires lim.most >= 1 && lim.wait > 0
    requires OverBy(rows, Slot(lim, n + 1)) && (n < lim.most ==> rows == [])
    ensures var after := rows + Tripped(lim, Slots(lim, n), requester, Slot(lim, n + 1));
            OverBy(after, Slot(lim, n + 2)) && (n + 1 < lim.most ==> after == [])
  {
    CountAtMost(Slots(lim, n) + [Slot(lim, n + 1)], n + 1, Slot(lim, n + 1) - lim.window);
    SlotStep(lim, n + 1);
  }

  lemma GreedyStep(cfg: Config, s: State, requester: string, license: string, n: nat)
    requires cfg.maxIntakes >= 1 && cfg.durationSeconds > 0 && license != "NOASSERTION"
    requires GreedyState(cfg.Plain(), s, requester, n)
    ensures GreedyState(cfg.Plain(), Processed(cfg, s, GreedyCall(cfg, requester, license, n + 1)), requester, n + 1)
  {
    var r := GreedyCall(cfg, requester, license, n + 1);
    OverIsInactive(s.cooldowns, requester, r.at);
    TimesAfter(cfg, s, r, requester);
    AcceptedTrips(cfg, s, r);
    GreedyTrips(cfg.Plain(), s.cooldowns, requester, n);
  }

  lemma {:induction false} GreedyRuns(cfg: Config, requester: string, license: string, n: nat)
    requires cfg.maxIntakes >= 1 && cfg.durationSeconds > 0 && license != "NOASSERTION"
    ensures GreedyState(cfg.Plain(), DoAll(cfg, State([], []), Greedy(cfg, requester, license, n)), requester, n)
  {
    if n > 0 {
      GreedyRuns(cfg, requester, license, n - 1);
      var front := Greedy(cfg, requester, license, n - 1);
      assert Greedy(cfg, requester, license, n)[..|front|] == front;
      GreedyStep(cfg, DoAll(cfg, State([], []), front), requester, license, n - 1);
    }
  }

  lemma {:induction false} GreedyIsClocked(cfg: Config, requester: string, license: string, n: nat)
    requires cfg.maxIntakes >= 1 && cfg.durationSeconds > 0
    ensures |Greedy(cfg, requester, license, n)| == n && Clocked(Greedy(cfg, requester, license, n), requester)
    ensures forall a :: a in Greedy(cfg, requester, license, n) ==>
              a.Call? && a.request.connected && a.request.at <= Slot(cfg.Plain(), n)
  {
    if n > 0 {
      var front := Greedy(cfg, requester, license, n - 1);
      GreedyIsClocked(cfg, requester, license, n - 1);
      SlotStep(cfg.Plain(), n - 1);
      assert forall i :: 0 <= i < |front| ==> front[i] in front;
    }
  }

  lemma SlotsFit(lim: Limits, q: nat)
    requires lim.most >= 1 && q * lim.wait <= lim.window
    ensures var n: nat := lim.most + q; Slots(lim, n)[n - 1] - Slots(lim, n)[0] <= lim.window
  {
    var n: nat := lim.most + q;
    assert Slots(lim, n)[n - 1] == Slot(lim, n) && Slots(lim, n)[0] == Slot(lim, 1);
    assert n - lim.most == q;
  }

  lemma GreedyRun(cfg: Config, requester: string, license: string, n: nat) returns (acts: seq<Act>)
    requires cfg.maxIntakes >= 1 && cfg.durationSeconds > 0 && license != "NOASSERTION"
    ensures Clocked(acts, requester)
    ensures Times(DoAll(cfg, State([], []), acts).log, requester) == Slots(cfg.Plain(), n)
  {
    acts := Greedy(cfg, requester, license, n);
    GreedyRuns(cfg, requester, license, n);
    GreedyIsClocked(cfg, requester, license, n);
  }

  /** As many cooldowns as fit into the window can be waited out: that many more than the limit get in. */
  lemma BoundIsAttained(cfg: Config, requester: string, license: string, q: nat) returns (acts: seq<Act>)
    requires cfg.maxIntakes >= 1 && cfg.durationSeconds > 0 && license != "NOASSERTION"
    requires q * cfg.Plain().wait <= cfg.Plain().window
    ensures Clocked(acts, requester)
    ensures var times := Times(DoAll(cfg, State([], []), acts).log, requester);
            |times| == cfg.maxIntakes + q && times[|times| - 1] - times[0] <= cfg.Plain().window
  {
    SlotsFit(cfg.Plain(), q);
    acts := GreedyRun(cfg, requester, license, cfg.maxIntakes + q);
  }

  /** And no run gets in one more: when `q + 1` cooldowns no longer fit, the intakes outlast the window. */
  lemma NoRunHasMore(cfg: Config, s: State, acts: seq<Act>, requester: string, i: nat, q: nat)
    requires Fresh(s, requester) && Clocked(acts, requester) && cfg.maxIntakes >= 1
    requires (q + 1) * cfg.Plain().wait > cfg.Plain().window
    requires i + cfg.maxIntakes + q < |Times(DoAll(cfg, s, acts).log, requester)|
    ensures var times := Times(DoAll(cfg, s, acts).log, requester);
            times[i + cfg.maxIntakes + q] - times[i] > cfg.Plain().window
  {
    RunsStayLimited(cfg, s, acts, requester);
    SpanIsLong(cfg.Plain(), Times(DoAll(cfg, s, acts).log, requester), i, q);
  }

  lemma SpanIsLong(lim: Limits, times: seq<int>, i: nat, q: nat)
    requires Spaced(lim, times) && lim.most >= 1 && i + lim.most + q < |times| && (q + 1) * lim.wait > lim.window
    ensures times[i + lim.most + q] - times[i] > lim.window
  {
    assert i + lim.most - 1 + (q + 1) == i + lim.most + q;
    if times[i + lim.most + q] - times[i] <= lim.window {
      CooldownsAddUp(lim, times, i, q + 1);
    }
  }
}
