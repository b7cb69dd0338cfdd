/** Trust grants and their pruning (calibration, maintenance). */
module Trust {
  import opened Results
  import opened Text

  datatype Key = Key(role: string, taskClass: string)

  /** A row of the grant table. */
  datatype Grant = Grant(rowId: nat, key: Key, grantedAt: int, expiresAt: int, revokedAt: Option<int>)

  /** The rows in order of their ids. */
  type Table = seq<Grant>

  ghost predicate Ordered(t: Table) {
    forall i, j :: 0 <= i < j < |t| ==> t[i].rowId < t[j].rowId
  }

  /** Without AUTOINCREMENT a new row takes the id after the largest one present. */
  function NextId(t: Table): nat {
    if t == [] then 1 else t[|t| - 1].rowId + 1
  }

  predicate Eligible(g: Grant, k: Key, unrevokedOnly: bool) {
    g.key == k && (unrevokedOnly ==> g.revokedAt.None?)
  }

  /** Among the first `n` rows the one that was granted last, the larger id winning a tie. */
  function LatestOf(t: Table, n: nat, k: Key, unrevokedOnly: bool): (r: Option<nat>)
    requires n <= |t|
    ensures r.Some? ==> r.value < n && Eligible(t[r.value], k, unrevokedOnly)
  {
    if n == 0 then None
    else
      var before := LatestOf(t, n - 1, k, unrevokedOnly);
      if Eligible(t[n - 1], k, unrevokedOnly) && (before.None? || t[n - 1].grantedAt >= t[before.value].grantedAt)
      then Some(n - 1) else before
  }

  function Latest(t: Table, k: Key, unrevokedOnly: bool): (r: Option<nat>)
    ensures r.Some? ==> r.value < |t| && Eligible(t[r.value], k, unrevokedOnly)
  {
    LatestOf(t, |t|, k, unrevokedOnly)
  }

  /** Row `i` does not beat row `r`. */
  predicate NoLater(t: Table, i: nat, r: nat)
    requires i < |t| && r < |t|
  {
    t[i].grantedAt < t[r].grantedAt || (t[i].grantedAt == t[r].grantedAt && i <= r)
  }

  /** No eligible row among the first `n` beats the latest of them. */
  lemma {:induction false} LatestBeats(t: Table, n: nat, k: Key, unrevokedOnly: bool, i: nat)
    requires i < n <= |t| && Eligible(t[i], k, unrevokedOnly)
    ensures var r := LatestOf(t, n, k, unrevokedOnly); r.Some? && NoLater(t, i, r.value)
  {
    if i < n - 1 {
      LatestBeats(t, n - 1, k, unrevokedOnly, i);
    }
  }

  lemma LatestUnique(t: Table, k: Key, unrevokedOnly: bool, r: nat)
    requires r < |t| && Eligible(t[r], k, unrevokedOnly)
    requires forall i: nat :: i < |t| && Eligible(t[i], k, unrevokedOnly) ==> NoLater(t, i, r)
    ensures Latest(t, k, unrevokedOnly) == Some(r)
  {
    LatestBeats(t, |t|, k, unrevokedOnly, r);
    var l := Latest(t, k, unrevokedOnly).value;
    assert NoLater(t, l, r);
  }

  /** Until when the key is trusted, going by its latest grant. */
  function LiveUntil(t: Table, k: Key): Option<int> {
    var r := Latest(t, k, false);
    if r.Some? && t[r.value].revokedAt.None? then Some(t[r.value].expiresAt) else None
  }

  predicate Alive(live: Option<int>, now: int) {
    live.Some? && live.value > now
  }

  predicate HasActiveTrust(t: Table, k: Key, now: int) {
    Alive(LiveUntil(t, k), now)
  }

  // --- the effects of the trust events ---

  function Granted(t: Table, k: Key, at: int, expiresAt: int): Table {
    t + [Grant(NextId(t), k, at, expiresAt, None)]
  }

  /** Renewal and revocation act on the latest grant that is not revoked, if there is one. */
  function Renewed(t: Table, k: Key, expiresAt: int): Table {
    var r := Latest(t, k, true);
    if r.Some? then t[r.value := t[r.value].(expiresAt := expiresAt)] else t
  }

  function Revoked(t: Table, k: Key, at: int): Table {
    var r := Latest(t, k, true);
    if r.Some? then t[r.value := t[r.value].(revokedAt := Some(at))] else t
  }

  datatype Action = InsufficientSamples | Granting | Renewing | Revoking | Nothing

  /** What an evaluation measured: too few samples, or a score on the good or the bad side of the threshold. */
  datatype Score = TooFew | Good | Bad

  /** The action taken at `now`, which reads the table before anything is emitted. */
  function Decide(t: Table, k: Key, score: Score, now: int): Action {
    match score
    case TooFew => InsufficientSamples
    case Good => if HasActiveTrust(t, k, now) then Renewing else Granting
    case Bad => if HasActiveTrust(t, k, now) then Revoking else Nothing
  }

  function Acted(t: Table, k: Key, a: Action, at: int, expiresAt: int): Table {
    match a
    case Granting => Granted(t, k, at, expiresAt)
    case Renewing => Renewed(t, k, expiresAt)
    case Revoking => Revoked(t, k, at)
    case _ => t
  }

  function Evaluated(t: Table, k: Key, score: Score, now: int, at: int, expiry: int): Table {
    Acted(t, k, Decide(t, k, score, now), at, at + expiry)
  }

  // --- what trust is ---

  /** The latest grant of a key as a row: no other of its grants beats it by time, then by id. */
  ghost predicate IsLatest(t: Table, k: Key, g: Grant) {
    g in t && g.key == k &&
    forall h :: h in t && h.key == k ==> h.grantedAt < g.grantedAt || (h.grantedAt == g.grantedAt && h.rowId <= g.rowId)
  }

  /** The key's latest grant is not revoked and not over. */
  ghost predicate Trusted(t: Table, k: Key, now: int) {
    exists g :: IsLatest(t, k, g) && g.revokedAt.None? && g.expiresAt > now
  }

  /**
   What an evaluation concludes about later times: a good score leaves its key trusted until the expiry from now,
   a bad one leaves it untrusted, and too few samples and other keys are as they were.
   */
  ghost predicate Concluded(t: Table, k: Key, score: Score, at: int, expiry: int, next: Table) {
    forall other, later :: at <= later ==>
      (Trusted(next, other, later) <==>
        if other != k || score == TooFew then Trusted(t, other, later) else score == Good && later < at + expiry)
  }

  // --- pruning ---

  /** Expired and not revoked. */
  predicate Prunable(g: Grant, at: int) {
    g.revokedAt.None? && g.expiresAt < at
  }

  /** The rows an authorized prune removes. */
  function Expired(t: Table, at: int): Table {
    if t == [] then []
    else Expired(t[..|t| - 1], at) + if Prunable(t[|t| - 1], at) then [t[|t| - 1]] else []
  }

  /** The rows it leaves. */
  function Pruned(t: Table, at: int): Table {
    if t == [] then []
    else Pruned(t[..|t| - 1], at) + if Prunable(t[|t| - 1], at) then [] else [t[|t| - 1]]
  }

  /** The rows whose ids are not among those deleted. */
  function Without(t: Table, ids: set<nat>): Table {
    if t == [] then []
    else Without(t[..|t| - 1], ids) + if t[|t| - 1].rowId in ids then [] else [t[|t| - 1]]
  }

  function Ids(rows: Table): set<nat> {
    set g | g in rows :: g.rowId
  }

  datatype PruneError = NoAuthorization | NoReason

  class TrustStore {
    var grants: Table

    constructor ()
      ensures grants == []
    {
      grants := [];
    }

    /** Reads trust at `now` and then emits at `at`, with the expiry the configuration gives. */
    method EvaluateTrust(k: Key, score: Score, now: int, at: int, expiry: int) returns (a: Action)
      requires Ordered(grants)
      modifies this
      ensures Ordered(grants)
      ensures score == TooFew ==> a == InsufficientSamples && grants == old(grants)
      ensures score == Good ==> a == if Trusted(old(grants), k, now) then Renewing else Granting
      ensures score == Bad ==> a == if Trusted(old(grants), k, now) then Revoking else Nothing
      ensures Settled(old(grants), now) && now <= at ==> Concluded(old(grants), k, score, at, expiry, grants)
      ensures a == Decide(old(grants), k, score, now)
      ensures grants == Evaluated(old(grants), k, score, now, at, expiry)
    {
      EvaluationMeans(grants, k, score, now, at, expiry);
      if score == TooFew {
        return InsufficientSamples;
      }
      var trusted := HasActiveTrust(grants, k, now);
      if score == Good {
        if trusted {
          grants := Renewed(grants, k, at + expiry);
          return Renewing;
        }
        grants := Granted(grants, k, at, at + expiry);
        return Granting;
      }
      if trusted {
        grants := Revoked(grants, k, at);
        return Revoking;
      }
      a := Nothing;
    }

    /** One deletion by row id after another. */
    method DeleteRows(rows: Table)
      modifies this
      ensures grants == Without(old(grants), Ids(rows))
    {
      WithoutNone(grants);
      assert Ids(rows[..0]) == {};
      for i := 0 to |rows|
        invariant grants == Without(old(grants), Ids(rows[..i]))
      {
        assert rows[..i + 1] == rows[..i] + [rows[i]];
        assert Ids(rows[..i + 1]) == Ids(rows[..i]) + {rows[i].rowId};
        WithoutMore(old(grants), Ids(rows[..i]), rows[i].rowId);
        grants := Without(grants, {rows[i].rowId});
      }
      assert rows[..|rows|] == rows;
    }

    /** Deletes every expired, unrevoked grant by its id; refuses without an authorization and a reason. */
    method PruneExpired(authorizedBy: string, reason: string, at: int) returns (r: Result<nat, PruneError>)
      requires Ordered(grants)
      modifies this
      ensures Ordered(grants)
      ensures Strip(authorizedBy) == "" ==> r == Err(NoAuthorization) && grants == old(grants)
      ensures Strip(authorizedBy) != "" && Strip(reason) == "" ==> r == Err(NoReason) && grants == old(grants)
      ensures Strip(authorizedBy) != "" && Strip(reason) != "" ==>
                grants == Pruned(old(grants), at) && r == Ok(|Expired(old(grants), at)|)
      ensures r.Ok? ==> |grants| + r.value == |old(grants)| && forall g ::
                g in grants <==> g in old(grants) && (g.revokedAt.Some? || g.expiresAt >= at)
    {
      if Strip(authorizedBy) == "" {
        return Err(NoAuthorization);
      }
      if Strip(reason) == "" {
        return Err(NoReason);
      }
      var expired := Expired(grants, at);
      DeleteRows(expired);
      DeletingExpiredPrunes(old(grants), at);
      PrunedOrdered(old(grants), at);
      PrunedIn(old(grants), at);
      PrunedCounts(old(grants), at);
      r := Ok(|expired|);
    }
  }

  lemma {:induction false} WithoutNone(t: Table)
    ensures Without(t, {}) == t
  {
    if t != [] {
      WithoutNone(t[..|t| - 1]);
    }
  }

  lemma {:induction false} WithoutMore(t: Table, ids: set<nat>, id: nat)
    ensures Without(Without(t, ids), {id}) == Without(t, ids + {id})
  {
    if t != [] {
      var front, last := t[..|t| - 1], t[|t| - 1];
      WithoutMore(front, ids, id);
      if last.rowId in ids {
        assert Without(t, ids) == Without(front, ids);
      } else {
        assert Without(t, ids)[..|Without(t, ids)| - 1] == Without(front, ids);
      }
    }
  }

  lemma {:induction false} ExpiredIn(t: Table, at: int)
    ensures forall g :: g in Expired(t, at) <==> g in t && Prunable(g, at)
  {
    if t != [] {
      ExpiredIn(t[..|t| - 1], at);
      assert t == t[..|t| - 1] + [t[|t| - 1]];
    }
  }

  lemma {:induction false} PrunedIn(t: Table, at: int)
    ensures forall g :: g in Pruned(t, at) <==> g in t && !Prunable(g, at)
  {
    if t != [] {
      PrunedIn(t[..|t| - 1], at);
      assert t == t[..|t| - 1] + [t[|t| - 1]];
    }
  }

  lemma {:induction false} PrunedCounts(t: Table, at: int)
    ensures |Pruned(t, at)| + |Expired(t, at)| == |t|
  {
    if t != [] {
      PrunedCounts(t[..|t| - 1], at);
    }
  }

  lemma {:induction false} WithoutPrunable(t: Table, at: int, ids: set<nat>)
    requires forall g :: g in t ==> (g.rowId in ids <==> Prunable(g, at))
    ensures Without(t, ids) == Pruned(t, at)
  {
    if t != [] {
      WithoutPrunable(t[..|t| - 1], at, ids);
    }
  }

  /** With unique ids, deleting the expired rows by id leaves exactly the others. */
  lemma DeletingExpiredPrunes(t: Table, at: int)
    requires Ordered(t)
    ensures Without(t, Ids(Expired(t, at))) == Pruned(t, at)
  {
    ExpiredIn(t, at);
    forall g | g in t && g.rowId in Ids(Expired(t, at)) ensures Prunable(g, at) {
      var h :| h in Expired(t, at) && h.rowId == g.rowId;
      var i :| 0 <= i < |t| && t[i] == g;
      var j :| 0 <= j < |t| && t[j] == h;
    }
    WithoutPrunable(t, at, Ids(Expired(t, at)));
  }

  // --- what a run keeps ---

  /** Revoked, or expired by now. */
  predicate Dead(g: Grant, now: int) {
    g.revokedAt.Some? || g.expiresAt <= now
  }

  /** The row is its key's latest, or dead. */
  predicate LatestOrDead(t: Table, i: nat, now: int)
    requires i < |t|
  {
    Latest(t, t[i].key, false) == Some(i) || Dead(t[i], now)
  }

  /** Nothing was granted in the future, and only the latest grant of a key can be alive. */
  ghost predicate Settled(t: Table, now: int) {
    Ordered(t) && NotFuture(t, now) && forall i: nat :: i < |t| ==> LatestOrDead(t, i, now)
  }

  ghost predicate NotFuture(t: Table, now: int) {
    forall i :: 0 <= i < |t| ==> t[i].grantedAt <= now
  }

  /** A trusted key's latest grant is not revoked, so renewal and revocation act on it. */
  lemma ActiveIsLatest(t: Table, k: Key, now: int)
    requires HasActiveTrust(t, k, now)
    ensures Latest(t, k, false).Some? && Latest(t, k, true) == Latest(t, k, false)
  {
    var r := Latest(t, k, false).value;
    forall i: nat | i < |t| && Eligible(t[i], k, true) ensures NoLater(t, i, r) {
      LatestBeats(t, |t|, k, false, i);
    }
    LatestUnique(t, k, true, r);
  }

  lemma {:induction false} LatestPrefix(t: Table, next: Table, n: nat, k: Key)
    requires n <= |t| && n <= |next| && t[..n] == next[..n]
    ensures LatestOf(next, n, k, false) == LatestOf(t, n, k, false)
  {
    if n > 0 {
      assert t[n - 1] == t[..n][n - 1] && next[n - 1] == next[..n][n - 1];
      assert t[..n - 1] == t[..n][..n - 1] && next[..n - 1] == next[..n][..n - 1];
      LatestPrefix(t, next, n - 1, k);
    }
  }

  /** A new grant is its key's latest. */
  lemma GrantedIsLatest(t: Table, k: Key, other: Key, at: int, expiresAt: int)
    requires NotFuture(t, at)
    ensures Latest(Granted(t, k, at, expiresAt), other, false) == if other == k then Some(|t|) else Latest(t, other, false)
  {
    LatestPrefix(t, Granted(t, k, at, expiresAt), |t|, other);
  }

  lemma OlderIsDead(t: Table, k: Key, now: int, at: int, expiresAt: int, i: nat)
    requires Settled(t, now) && now <= at && !HasActiveTrust(t, k, now) && i < |t|
    ensures LatestOrDead(Granted(t, k, at, expiresAt), i, at)
  {
    GrantedIsLatest(t, k, t[i].key, at, expiresAt);
    assert LatestOrDead(t, i, now);
  }

  lemma GrantedSettled(t: Table, k: Key, now: int, at: int, expiresAt: int)
    requires Settled(t, now) && now <= at && !HasActiveTrust(t, k, now)
    ensures Settled(Granted(t, k, at, expiresAt), at)
  {
    var next := Granted(t, k, at, expiresAt);
    forall i: nat | i < |next| ensures LatestOrDead(next, i, at) {
      if i < |t| {
        OlderIsDead(t, k, now, at, expiresAt, i);
      } else {
        GrantedIsLatest(t, k, k, at, expiresAt);
      }
    }
  }

  /** Changing the expiry or the revocation of a row moves no key's latest grant. */
  lemma {:induction false} LatestKept(t: Table, r: nat, g: Grant, n: nat, k: Key)
    requires n <= |t| && r < |t| && g.key == t[r].key && g.grantedAt == t[r].grantedAt
    ensures LatestOf(t[r := g], n, k, false) == LatestOf(t, n, k, false)
  {
    if n > 0 {
      LatestKept(t, r, g, n - 1, k);
    }
  }

  /** The row with which renewal or revocation replaces the latest grant. */
  ghost predicate Replaces(t: Table, r: nat, g: Grant) {
    r < |t| && Latest(t, t[r].key, false) == Some(r) &&
    g.rowId == t[r].rowId && g.key == t[r].key && g.grantedAt == t[r].grantedAt
  }

  lemma ReplacedRow(t: Table, r: nat, g: Grant, now: int, at: int, i: nat)
    requires Settled(t, now) && now <= at && Replaces(t, r, g) && i < |t|
    ensures LatestOrDead(t[r := g], i, at)
  {
    LatestKept(t, r, g, |t|, t[i].key);
    assert LatestOrDead(t, i, now);
  }

  lemma ReplacedSettled(t: Table, r: nat, g: Grant, now: int, at: int)
    requires Settled(t, now) && now <= at && Replaces(t, r, g)
    ensures Settled(t[r := g], at)
  {
    var next := t[r := g];
    forall i: nat | i < |next| ensures LatestOrDead(next, i, at) {
      ReplacedRow(t, r, g, now, at, i);
    }
  }

  /** Only the trust of one key moves. */
  ghost predicate Moves(t: Table, next: Table, k: Key, live: Option<int>) {
    forall other :: LiveUntil(next, other) == if other == k then live else LiveUntil(t, other)
  }

  lemma GrantMoves(t: Table, k: Key, at: int, expiresAt: int)
    requires NotFuture(t, at)
    ensures Moves(t, Granted(t, k, at, expiresAt), k, Some(expiresAt))
  {
    var next := Granted(t, k, at, expiresAt);
    forall other ensures LiveUntil(next, other) == if other == k then Some(expiresAt) else LiveUntil(t, other) {
      GrantedIsLatest(t, k, other, at, expiresAt);
    }
  }

  function LiveOf(g: Grant): Option<int> {
    if g.revokedAt.None? then Some(g.expiresAt) else None
  }

  lemma ReplaceMovesOne(t: Table, r: nat, g: Grant, other: Key)
    requires Replaces(t, r, g)
    ensures LiveUntil(t[r := g], other) == if other == g.key then LiveOf(g) else LiveUntil(t, other)
  {
    LatestKept(t, r, g, |t|, other);
    var l := Latest(t, other, false);
    if other == g.key {
      assert l == Some(r);
    } else if l.Some? {
      assert Eligible(t[l.value], other, false);
    }
  }

  lemma ReplaceMoves(t: Table, r: nat, g: Grant)
    requires Replaces(t, r, g)
    ensures Moves(t, t[r := g], g.key, LiveOf(g))
  {
    var next := t[r := g];
    forall other ensures LiveUntil(next, other) == if other == g.key then LiveOf(g) else LiveUntil(t, other) {
      ReplaceMovesOne(t, r, g, other);
    }
  }

  /** The latest expiry of a key after an action: what trust depends on. */
  function LiveAfter(live: Option<int>, a: Action, expiresAt: int): Option<int> {
    match a
    case Granting | Renewing => Some(expiresAt)
    case Revoking => None
    case _ => live
  }

  lemma RenewedIs(t: Table, k: Key, now: int, at: int, expiresAt: int)
    requires Settled(t, now) && now <= at && HasActiveTrust(t, k, now)
    ensures Settled(Renewed(t, k, expiresAt), at) && Moves(t, Renewed(t, k, expiresAt), k, Some(expiresAt))
  {
    ActiveIsLatest(t, k, now);
    var r := Latest(t, k, false).value;
    var g := t[r].(expiresAt := expiresAt);
    ReplacedSettled(t, r, g, now, at);
    ReplaceMoves(t, r, g);
  }

  lemma RevokedIs(t: Table, k: Key, now: int, at: int)
    requires Settled(t, now) && now <= at && HasActiveTrust(t, k, now)
    ensures Settled(Revoked(t, k, at), at) && Moves(t, Revoked(t, k, at), k, None)
  {
    ActiveIsLatest(t, k, now);
    var r := Latest(t, k, false).value;
    var g := t[r].(revokedAt := Some(at));
    ReplacedSettled(t, r, g, now, at);
    ReplaceMoves(t, r, g);
  }

  lemma ActedIs(t: Table, k: Key, a: Action, now: int, at: int, expiresAt: int)
    requires Settled(t, now) && now <= at
    requires a.Granting? ==> !HasActiveTrust(t, k, now)
    requires a.Renewing? || a.Revoking? ==> HasActiveTrust(t, k, now)
    ensures Settled(Acted(t, k, a, at, expiresAt), at)
    ensures Moves(t, Acted(t, k, a, at, expiresAt), k, LiveAfter(LiveUntil(t, k), a, expiresAt))
  {
    match a {
      case Granting =>
        GrantedSettled(t, k, now, at, expiresAt);
        GrantMoves(t, k, at, expiresAt);
      case Renewing => RenewedIs(t, k, now, at, expiresAt);
      case Revoking => RevokedIs(t, k, now, at);
      case _ => SettledLater(t, now, at);
    }
  }

  /** An evaluation keeps a settled table settled, and moves only the trust of its key. */
  lemma EvaluatedIs(t: Table, k: Key, score: Score, now: int, at: int, expiry: int)
    requires Settled(t, now) && now <= at
    ensures Settled(Evaluated(t, k, score, now, at, expiry), at)
    ensures Moves(t, Evaluated(t, k, score, now, at, expiry), k,
                  LiveAfter(LiveUntil(t, k), Decide(t, k, score, now), at + expiry))
  {
    ActedIs(t, k, Decide(t, k, score, now), now, at, at + expiry);
  }

  lemma SettledLater(t: Table, now: int, later: int)
    requires Settled(t, now) && now <= later
    ensures Settled(t, later)
  {
    forall i: nat | i < |t| ensures LatestOrDead(t, i, later) {
      assert LatestOrDead(t, i, now);
    }
  }

  /** The trust that is read off the latest grant's position is that of the latest grant as a row. */
  lemma TrustedExact(t: Table, k: Key, now: int)
    requires Ordered(t)
    ensures Trusted(t, k, now) <==> HasActiveTrust(t, k, now)
  {
    LatestRow(t, k);
    var r := Latest(t, k, false);
    if r.Some? {
      assert IsLatest(t, k, t[r.value]);
      forall g | IsLatest(t, k, g) ensures g == t[r.value] {
        OneLatestRow(t, k, g, t[r.value]);
      }
    }
  }

  lemma MovedTrust(t: Table, next: Table, k: Key, live: Option<int>, other: Key, later: int)
    requires Moves(t, next, k, live) && Ordered(t) && Ordered(next)
    ensures Trusted(next, other, later) <==> if other == k then Alive(live, later) else Trusted(t, other, later)
  {
    TrustedExact(t, other, later);
    TrustedExact(next, other, later);
  }

  /** On a settled table every evaluation has the conclusion that its score stands for. */
  lemma EvaluationConcludes(t: Table, k: Key, score: Score, now: int, at: int, expiry: int)
    requires Settled(t, now) && now <= at
    ensures Concluded(t, k, score, at, expiry, Evaluated(t, k, score, now, at, expiry))
  {
    var next := Evaluated(t, k, score, now, at, expiry);
    EvaluatedIs(t, k, score, now, at, expiry);
    var live := LiveAfter(LiveUntil(t, k), Decide(t, k, score, now), at + expiry);
    forall other, later | at <= later
      ensures Trusted(next, other, later) <==>
        if other != k || score == TooFew then Trusted(t, other, later) else score == Good && later < at + expiry
    {
      MovedTrust(t, next, k, live, other, later);
    }
  }

  /** The action by the score and the trust before the call, and the conclusion. */
  lemma EvaluationMeans(t: Table, k: Key, score: Score, now: int, at: int, expiry: int)
    requires Ordered(t)
    ensures score == TooFew ==> Decide(t, k, score, now) == InsufficientSamples
    ensures score == Good ==> Decide(t, k, score, now) == if Trusted(t, k, now) then Renewing else Granting
    ensures score == Bad ==> Decide(t, k, score, now) == if Trusted(t, k, now) then Revoking else Nothing
    ensures Settled(t, now) && now <= at ==> Concluded(t, k, score, at, expiry, Evaluated(t, k, score, now, at, expiry))
  {
    TrustedExact(t, k, now);
    if Settled(t, now) && now <= at {
      EvaluationConcludes(t, k, score, now, at, expiry);
    }
  }

  // --- pruning in a run ---

  /** What pruning keeps: order, and which rows are the latest ones unless they are pruned. */
  lemma {:induction false} PrunedOrdered(t: Table, at: int)
    requires Ordered(t)
    ensures Ordered(Pruned(t, at))
  {
    if t != [] {
      var front, last := t[..|t| - 1], t[|t| - 1];
      assert t == front + [last];
      PrunedOrdered(front, at);
      PrunedIn(front, at);
      var kept := Pruned(front, at);
      forall i | 0 <= i < |kept| ensures kept[i].rowId < last.rowId {
        assert kept[i] in front;
        var j :| 0 <= j < |front| && front[j] == kept[i];
        assert t[j].rowId < t[|front|].rowId;
      }
    }
  }

  lemma LatestRow(t: Table, k: Key)
    requires Ordered(t)
    ensures var r := Latest(t, k, false);
            if r.Some? then IsLatest(t, k, t[r.value]) else forall h :: h in t ==> h.key != k
  {
    var r := Latest(t, k, false);
    forall h | h in t && h.key == k
      ensures r.Some? && (h.grantedAt < t[r.value].grantedAt ||
                          (h.grantedAt == t[r.value].grantedAt && h.rowId <= t[r.value].rowId))
    {
      var i: nat :| i < |t| && t[i] == h;
      LatestBeats(t, |t|, k, false, i);
    }
  }

  lemma RowIdsDiffer(t: Table, g: Grant, h: Grant)
    requires Ordered(t) && g in t && h in t && g != h
    ensures g.rowId != h.rowId
  {
    var i :| 0 <= i < |t| && t[i] == g;
    var j :| 0 <= j < |t| && t[j] == h;
    assert i != j;
  }

  lemma OneLatestRow(t: Table, k: Key, g: Grant, h: Grant)
    requires Ordered(t) && IsLatest(t, k, g) && IsLatest(t, k, h)
    ensures g == h
  {
    if g != h {
      RowIdsDiffer(t, g, h);
    }
  }

  /** A latest row that is not pruned stays the latest. */
  lemma LatestSurvives(t: Table, k: Key, at: int)
    requires Ordered(t) && Latest(t, k, false).Some? && !Prunable(t[Latest(t, k, false).value], at)
    ensures LiveUntil(Pruned(t, at), k) == LiveUntil(t, k)
  {
    var g := t[Latest(t, k, false).value];
    var p := Pruned(t, at);
    PrunedIn(t, at);
    PrunedOrdered(t, at);
    LatestRow(t, k);
    LatestRow(p, k);
    assert IsLatest(p, k, g);
    OneLatestRow(p, k, g, p[Latest(p, k, false).value]);
  }

  lemma NoRowNoLatest(t: Table, k: Key)
    requires forall g :: g in t ==> g.key != k
    ensures LiveUntil(t, k) == None
  {
    assert forall i: nat :: i < |t| ==> t[i] in t;
  }

  lemma NotLatestIsDead(t: Table, now: int, g: Grant, k: Key)
    requires Settled(t, now) && g in t && g.key == k && Latest(t, k, false).Some? && g != t[Latest(t, k, false).value]
    ensures Dead(g, now)
  {
    var i: nat :| i < |t| && t[i] == g;
    assert LatestOrDead(t, i, now);
  }

  /** When the latest grant is pruned, what is left of the key is dead. */
  lemma RestIsDead(t: Table, k: Key, now: int, at: int)
    requires Settled(t, now) && Latest(t, k, false).Some? && Prunable(t[Latest(t, k, false).value], at)
    ensures forall g :: g in Pruned(t, at) && g.key == k ==> Dead(g, now)
  {
    PrunedIn(t, at);
    forall g | g in Pruned(t, at) && g.key == k ensures Dead(g, now) {
      NotLatestIsDead(t, now, g, k);
    }
  }

  /** On a settled table pruning takes trust from no key and gives it to none, now or later. */
  lemma PruneKeepsTrust(t: Table, k: Key, now: int, at: int, later: int)
    requires Settled(t, now) && now <= at <= later
    ensures HasActiveTrust(Pruned(t, at), k, later) == HasActiveTrust(t, k, later)
  {
    var p := Pruned(t, at);
    PrunedIn(t, at);
    LatestRow(t, k);
    if Latest(t, k, false).None? {
      NoRowNoLatest(p, k);
    } else if Prunable(t[Latest(t, k, false).value], at) {
      RestIsDead(t, k, now, at);
    } else {
      LatestSurvives(t, k, at);
    }
  }

  lemma LatestOfPruned(t: Table, at: int, g: Grant)
    requires Ordered(t) && IsLatest(t, g.key, g) && g in Pruned(t, at)
    ensures Latest(Pruned(t, at), g.key, false).Some?
    ensures Pruned(t, at)[Latest(Pruned(t, at), g.key, false).value] == g
  {
    var p := Pruned(t, at);
    PrunedIn(t, at);
    PrunedOrdered(t, at);
    LatestRow(p, g.key);
  }

  lemma SameRow(t: Table, i: nat, j: nat)
    requires Ordered(t) && i < |t| && j < |t| && t[i] == t[j]
    ensures i == j
  {
  }

  /** A row that pruning leaves is its key's latest, or dead. */
  lemma PrunedRow(t: Table, now: int, at: int, i: nat)
    requires Settled(t, now) && now <= at && Ordered(Pruned(t, at)) && i < |Pruned(t, at)|
    ensures LatestOrDead(Pruned(t, at), i, at)
  {
    var p := Pruned(t, at);
    var g := p[i];
    PrunedIn(t, at);
    assert g in p;
    LatestRow(t, g.key);
    if t[Latest(t, g.key, false).value] == g {
      LatestOfPruned(t, at, g);
      SameRow(p, i, Latest(p, g.key, false).value);
    } else {
      NotLatestIsDead(t, now, g, g.key);
    }
  }

  lemma PrunedSettled(t: Table, now: int, at: int)
    requires Settled(t, now) && now <= at
    ensures Settled(Pruned(t, at), at)
  {
    var p := Pruned(t, at);
    PrunedIn(t, at);
    PrunedOrdered(t, at);
    forall i | 0 <= i < |p| ensures p[i].grantedAt <= at {
      assert p[i] in p;
      assert p[i] in t;
    }
    forall i: nat | i < |p| ensures LatestOrDead(p, i, at) {
      PrunedRow(t, now, at, i);
    }
  }

  // --- runs ---

  /** One step: an evaluation that reads at `now` and emits at `at`, or an authorized prune. */
  datatype Step =
    | Evaluate(key: Key, score: Score, now: int, at: int, expiry: int)
    | Prune(at: int)

  function Next(t: Table, s: Step): Table {
    match s
    case Evaluate(k, score, now, at, expiry) => Evaluated(t, k, score, now, at, expiry)
    case Prune(at) => Pruned(t, at)
  }

  function Run(steps: seq<Step>): Table {
    if steps == [] then [] else Next(Run(steps[..|steps| - 1]), steps[|steps| - 1])
  }

  /** The actions the evaluations of a run take. */
  function Actions(steps: seq<Step>): seq<Action> {
    if steps == [] then []
    else
      var front := steps[..|steps| - 1];
      Actions(front) +
      match steps[|steps| - 1]
      case Evaluate(k, score, now, _, _) => [Decide(Run(front), k, score, now)]
      case Prune(_) => []
  }

  /** The same run without its prunes. */
  function Unpruned(steps: seq<Step>): seq<Step> {
    if steps == [] then []
    else
      Unpruned(steps[..|steps| - 1]) + if steps[|steps| - 1].Prune? then [] else [steps[|steps| - 1]]
  }

  /** The clock never goes back. */
  ghost predicate Clocked(steps: seq<Step>, start: int) {
    (forall i :: 0 <= i < |steps| ==> start <= From(steps[i]) <= steps[i].at) &&
    forall i, j :: 0 <= i < j < |steps| ==> steps[i].at <= From(steps[j])
  }

  function From(s: Step): int {
    match s
    case Evaluate(_, _, now, _, _) => now
    case Prune(at) => at
  }

  function Clock(steps: seq<Step>, start: int): int {
    if steps == [] then start else steps[|steps| - 1].at
  }

  /** Two tables that trust the same keys from now on. */
  ghost predicate TrustAlike(a: Table, b: Table, now: int) {
    forall k, later :: now <= later ==> HasActiveTrust(a, k, later) == HasActiveTrust(b, k, later)
  }

  lemma MovesAlike(a: Table, b: Table, a': Table, b': Table, k: Key, liveA: Option<int>, liveB: Option<int>, now: int)
    requires TrustAlike(a, b, now) && Moves(a, a', k, liveA) && Moves(b, b', k, liveB)
    requires forall later :: now <= later ==> Alive(liveA, later) == Alive(liveB, later)
    ensures TrustAlike(a', b', now)
  {
    forall other, later | now <= later ensures HasActiveTrust(a', other, later) == HasActiveTrust(b', other, later) {
      assert HasActiveTrust(a, other, later) == HasActiveTrust(b, other, later);
    }
  }

  lemma LiveAlike(a: Table, b: Table, k: Key, act: Action, expiresAt: int, now: int)
    requires TrustAlike(a, b, now)
    ensures forall later :: now <= later ==>
              Alive(LiveAfter(LiveUntil(a, k), act, expiresAt), later) == Alive(LiveAfter(LiveUntil(b, k), act, expiresAt), later)
  {
    forall later | now <= later
      ensures Alive(LiveAfter(LiveUntil(a, k), act, expiresAt), later) == Alive(LiveAfter(LiveUntil(b, k), act, expiresAt), later)
    {
      assert HasActiveTrust(a, k, later) == HasActiveTrust(b, k, later);
    }
  }

  lemma AlikeLater(a: Table, b: Table, now: int, later: int)
    requires TrustAlike(a, b, now) && now <= later
    ensures TrustAlike(a, b, later)
  {
  }

  /** Both tables are settled and trust alike. */
  ghost predicate Paired(a: Table, b: Table, now: int) {
    Settled(a, now) && Settled(b, now) && TrustAlike(a, b, now)
  }

  /** Tables that trust alike take the same action, and trust alike after it. */
  lemma EvaluateAlike(a: Table, b: Table, k: Key, score: Score, clock: int, now: int, at: int, expiry: int)
    requires Paired(a, b, clock) && clock <= now <= at
    ensures Decide(a, k, score, now) == Decide(b, k, score, now)
    ensures Paired(Evaluated(a, k, score, now, at, expiry), Evaluated(b, k, score, now, at, expiry), at)
  {
    assert HasActiveTrust(a, k, now) == HasActiveTrust(b, k, now);
    var act := Decide(a, k, score, now);
    SettledLater(a, clock, now);
    SettledLater(b, clock, now);
    EvaluatedIs(a, k, score, now, at, expiry);
    EvaluatedIs(b, k, score, now, at, expiry);
    AlikeLater(a, b, clock, at);
    LiveAlike(a, b, k, act, at + expiry, at);
    MovesAlike(a, b, Evaluated(a, k, score, now, at, expiry), Evaluated(b, k, score, now, at, expiry), k,
               LiveAfter(LiveUntil(a, k), act, at + expiry), LiveAfter(LiveUntil(b, k), act, at + expiry), at);
  }

  lemma PruneAlike(a: Table, b: Table, clock: int, at: int)
    requires Paired(a, b, clock) && clock <= at
    ensures Paired(Pruned(a, at), b, at)
  {
    PrunedSettled(a, clock, at);
    SettledLater(b, clock, at);
    forall k, later | at <= later ensures HasActiveTrust(Pruned(a, at), k, later) == HasActiveTrust(b, k, later) {
      PruneKeepsTrust(a, k, clock, at, later);
      assert HasActiveTrust(a, k, later) == HasActiveTrust(b, k, later);
    }
  }

  lemma {:induction false} RunsPaired(steps: seq<Step>, start: int)
    requires Clocked(steps, start)
    ensures Paired(Run(steps), Run(Unpruned(steps)), Clock(steps, start))
    ensures Actions(steps) == Actions(Unpruned(steps))
  {
    if steps != [] {
      var front, last := steps[..|steps| - 1], steps[|steps| - 1];
      RunsPaired(front, start);
      var a, b, clock := Run(front), Run(Unpruned(front)), Clock(front, start);
      match last {
        case Evaluate(k, score, now, at, expiry) =>
          EvaluateAlike(a, b, k, score, clock, now, at, expiry);
          assert Unpruned(steps)[..|Unpruned(steps)| - 1] == Unpruned(front);
        case Prune(at) =>
          PruneAlike(a, b, clock, at);
          assert Unpruned(steps) == Unpruned(front);
      }
    }
  }

  /**
   Pruning at any time is storage tidiness: a run takes the same actions with and without its prunes,
   and afterwards trusts the same keys, now and later.
   */
  lemma PruningChangesNothing(steps: seq<Step>, start: int, k: Key, later: int)
    requires Clocked(steps, start) && Clock(steps, start) <= later
    ensures Actions(steps) == Actions(Unpruned(steps))
    ensures HasActiveTrust(Run(steps), k, later) == HasActiveTrust(Run(Unpruned(steps)), k, later)
  {
    RunsPaired(steps, start);
  }

  // --- tables that no run produces ---

  /** The grant was made later, or at the same time under a larger id. */
  predicate Beats(h: Grant, g: Grant) {
    h.grantedAt > g.grantedAt || (h.grantedAt == g.grantedAt && h.rowId > g.rowId)
  }

  /** A grant of the key that is alive has later ones of the key above it, all of them prunable. */
  predicate Buried(t: Table, k: Key, at: int, g: Grant) {
    && g.key == k && g.revokedAt.None? && g.expiresAt > at
    && (exists h :: h in t && h.key == k && Beats(h, g))
    && forall h :: h in t && h.key == k && Beats(h, g) ==> Prunable(h, at)
  }

  predicate Buries(t: Table, k: Key, at: int) {
    exists g :: g in t && Buried(t, k, at, g)
  }

  lemma LatestBeatsRest(t: Table, k: Key, l: Grant, h: Grant, g: Grant)
    requires IsLatest(t, k, l) && h in t && h.key == k && Beats(h, g)
    ensures Beats(l, g)
  {
  }

  lemma KeptLatestBuriesNone(t: Table, k: Key, at: int, l: Grant)
    requires IsLatest(t, k, l) && !Prunable(l, at)
    ensures !Buries(t, k, at)
  {
    forall g | g in t ensures !Buried(t, k, at, g) {
      if h :| h in t && h.key == k && Beats(h, g) {
        LatestBeatsRest(t, k, l, h, g);
      }
    }
  }

  /** A buried grant is what pruning leaves on top. */
  lemma BuriedIsUncovered(t: Table, k: Key, at: int, g: Grant)
    requires Ordered(t) && g in t && Buried(t, k, at, g)
    ensures HasActiveTrust(Pruned(t, at), k, at)
  {
    var p := Pruned(t, at);
    PrunedIn(t, at);
    PrunedOrdered(t, at);
    LatestRow(p, k);
    assert g in p && IsLatest(p, k, g);
    OneLatestRow(p, k, g, p[Latest(p, k, false).value]);
  }

  /** What pruning leaves alive on top was buried, when the latest grant went. */
  lemma UncoveredWasBuried(t: Table, k: Key, at: int, later: int, l: Grant)
    requires Ordered(t) && IsLatest(t, k, l) && Prunable(l, at) && at <= later
    requires HasActiveTrust(Pruned(t, at), k, later)
    ensures Buries(t, k, at)
  {
    var p := Pruned(t, at);
    PrunedIn(t, at);
    PrunedOrdered(t, at);
    LatestRow(p, k);
    var g := p[Latest(p, k, false).value];
    assert g in p && g in t && l in t && l != g;
    RowIdsDiffer(t, l, g);
    forall h | h in t && h.key == k && Beats(h, g) ensures Prunable(h, at) {
      assert h !in p;
    }
    assert Beats(l, g) && Buried(t, k, at, g);
  }

  lemma PrunableIsInactive(t: Table, k: Key, at: int, later: int)
    requires Latest(t, k, false).Some? && Prunable(t[Latest(t, k, false).value], at) && at <= later
    ensures !HasActiveTrust(t, k, later)
  {
  }

  /**
   On an arbitrary table pruning keeps the trust of a key, now and later, exactly when no grant of the
   key that is alive lies under later grants of the key all of which are prunable.
   */
  lemma PruneKeepsTrustIff(t: Table, k: Key, at: int)
    requires Ordered(t)
    ensures (forall later :: at <= later ==> HasActiveTrust(Pruned(t, at), k, later) == HasActiveTrust(t, k, later))
            <==> !Buries(t, k, at)
  {
    var p := Pruned(t, at);
    var r := Latest(t, k, false);
    PrunedIn(t, at);
    LatestRow(t, k);
    if r.None? {
      NoRowNoLatest(p, k);
    } else if !Prunable(t[r.value], at) {
      LatestSurvives(t, k, at);
      KeptLatestBuriesNone(t, k, at, t[r.value]);
    } else if g :| g in t && Buried(t, k, at, g) {
      BuriedIsUncovered(t, k, at, g);
      PrunableIsInactive(t, k, at, at);
    } else {
      forall later | at <= later ensures !HasActiveTrust(t, k, later) && !HasActiveTrust(p, k, later) {
        PrunableIsInactive(t, k, at, later);
        if HasActiveTrust(p, k, later) {
          UncoveredWasBuried(t, k, at, later, t[r.value]);
        }
      }
    }
  }

  /**
   A short grant on top of a long one: pruning brings the long one back. Evaluations never make such a
   table (`PruningChangesNothing`), and nothing else in the runtime or its scripts calls `grant`; it
   takes two direct calls.
   */
  lemma PruneRevives(k: Key)
    ensures var t := [Grant(1, k, 0, 100, None), Grant(2, k, 1, 10, None)];
            !HasActiveTrust(t, k, 50) && HasActiveTrust(Pruned(t, 50), k, 50)
  {
    var long, short := Grant(1, k, 0, 100, None), Grant(2, k, 1, 10, None);
    var t := [long, short];
    assert t[..1] == [long] && [long][..0] == [];
    assert Pruned([long], 50) == [long];
    assert Pruned(t, 50) == [long];
    LatestUnique(t, k, false, 1);
    LatestUnique([long], k, false, 0);
  }
}
