/** What Kahn's algorithm with a sorted ready list computes: always the least task that is ready. */
module TopoSpec {
  import opened Results
  import opened PlanGraph
  import opened Sequences

  /** All of the task's dependencies inside the plan are done. */
  predicate Ready(tasks: seq<Task>, done: seq<nat>, j: nat)
    requires j < |tasks|
  {
    j !in done && forall i :: 0 <= i < |tasks| && Edge(tasks, i, j) ==> i in done
  }

  function LeastReady(tasks: seq<Task>, done: seq<nat>, start: nat): (r: Option<nat>)
    requires start <= |tasks|
    ensures r.Some? ==> start <= r.value < |tasks| && Ready(tasks, done, r.value)
    ensures forall j :: start <= j < (if r.Some? then r.value else |tasks|) ==> !Ready(tasks, done, j)
    decreases |tasks| - start
  {
    if start == |tasks| then None
    else if Ready(tasks, done, start) then Some(start)
    else LeastReady(tasks, done, start + 1)
  }

  /** The completion of `done` by repeatedly taking the least ready task, as far as that goes. */
  function Greedy(tasks: seq<Task>, done: seq<nat>): (p: seq<nat>)
    requires |done| <= |tasks|
    ensures done <= p && |p| <= |tasks|
    decreases |tasks| - |done|
  {
    if |done| == |tasks| then done
    else match LeastReady(tasks, done, 0)
      case None => done
      case Some(j) => Greedy(tasks, done + [j])
  }

  datatype PlanError = CyclicPlan

  /** `_topo_order` on positions. */
  function Order(tasks: seq<Task>): Result<seq<nat>, PlanError> {
    var p := Greedy(tasks, []);
    if |p| == |tasks| then Ok(p) else Err(CyclicPlan)
  }

  /** A partial order that is closed under dependencies. */
  ghost predicate Prefix(tasks: seq<Task>, done: seq<nat>) {
    && |done| <= |tasks| && Within(done, |tasks|) && Distinct(done)
    && forall a, i :: 0 <= a < |done| && Edge(tasks, i, done[a]) ==> i in done[..a]
  }

  lemma PrefixGrows(tasks: seq<Task>, done: seq<nat>, j: nat)
    requires Prefix(tasks, done) && j < |tasks| && Ready(tasks, done, j)
    ensures Prefix(tasks, done + [j])
  {
    var more := done + [j];
    DistinctBounded(more, |tasks|);
    forall a, i | 0 <= a < |more| && Edge(tasks, i, more[a]) ensures i in more[..a] {
      if a < |done| {
        assert i in done[..a];
        assert more[..a] == done[..a];
      } else {
        assert more[..a] == done;
      }
    }
  }

  lemma {:induction false} GreedyIsPrefix(tasks: seq<Task>, done: seq<nat>)
    requires Prefix(tasks, done)
    ensures Prefix(tasks, Greedy(tasks, done))
    ensures var p := Greedy(tasks, done);
      |p| < |tasks| ==> forall j :: 0 <= j < |tasks| ==> !Ready(tasks, p, j)
    decreases |tasks| - |done|
  {
    if |done| < |tasks| {
      var next := LeastReady(tasks, done, 0);
      if next.Some? {
        PrefixGrows(tasks, done, next.value);
        GreedyIsPrefix(tasks, done + [next.value]);
      }
    }
  }

  lemma PrefixIsOrder(tasks: seq<Task>, p: seq<nat>)
    requires Prefix(tasks, p) && |p| == |tasks|
    ensures IsOrder(tasks, p)
  {
    forall a, b | 0 <= a < |p| && 0 <= b < |p| && Edge(tasks, p[a], p[b]) ensures a < b {
      assert p[a] in p[..b];
      var c :| 0 <= c < b && p[c] == p[a];
    }
  }

  // --- the least topological order ---

  lemma NextIsReady(tasks: seq<Task>, q: seq<nat>, k: nat)
    requires IsOrder(tasks, q) && k < |q|
    ensures Ready(tasks, q[..k], q[k])
  {
    forall i | 0 <= i < |tasks| && Edge(tasks, i, q[k]) ensures i in q[..k] {
      AllPositions(q, |tasks|, i);
      var a :| 0 <= a < |q| && q[a] == i;
      assert a < k;
      assert q[..k][a] == i;
    }
  }

  lemma {:induction false} GreedyIsLeast(tasks: seq<Task>, done: seq<nat>, q: seq<nat>)
    requires IsOrder(tasks, q) && |done| <= |q| && done == q[..|done|]
    ensures LexLe(Greedy(tasks, done), q)
    decreases |tasks| - |done|
  {
    var p, k := Greedy(tasks, done), |done|;
    if k == |tasks| {
      assert q[..k] == q;
    } else {
      NextIsReady(tasks, q, k);
      var j := LeastReady(tasks, done, 0).value;
      assert p == Greedy(tasks, done + [j]);
      assert p[..k] == done && p[k] == j;
      if j == q[k] {
        assert q[..k + 1] == done + [j];
        GreedyIsLeast(tasks, done + [j], q);
      }
    }
  }

  // --- cycles ---

  /** When no task is ready, every waiting task waits for another one. */
  lemma {:induction false} WaitingWalk(tasks: seq<Task>, done: seq<nat>, j: nat, length: nat) returns (w: seq<nat>)
    requires j < |tasks| && j !in done
    requires forall i :: 0 <= i < |tasks| ==> !Ready(tasks, done, i)
    ensures |w| == length + 1 && Within(w, |tasks|) && w[0] == j
    ensures forall k :: 0 <= k < length ==> Edge(tasks, w[k + 1], w[k])
    decreases length
  {
    if length == 0 {
      w := [j];
    } else {
      assert !Ready(tasks, done, j);
      var i :| 0 <= i < |tasks| && Edge(tasks, i, j) && i !in done;
      var rest := WaitingWalk(tasks, done, i, length - 1);
      w := [j] + rest;
    }
  }

  lemma StuckIsCyclic(tasks: seq<Task>, done: seq<nat>) returns (c: seq<nat>)
    requires Prefix(tasks, done) && |done| < |tasks|
    requires forall i :: 0 <= i < |tasks| ==> !Ready(tasks, done, i)
    ensures IsCycle(tasks, c)
  {
    var j := Missing(done, |tasks|);
    var w := WaitingWalk(tasks, done, j, |tasks|);
    var a, b := Pigeonhole(w, |tasks|);
    c := w[a..b];
    forall k | 0 <= k < |c| - 1 ensures Edge(tasks, c[k + 1], c[k]) {
      assert c[k] == w[a + k] && c[k + 1] == w[a + k + 1];
    }
    assert c[0] == w[b] && c[|c| - 1] == w[b - 1];
  }

  lemma Missing(done: seq<nat>, n: nat) returns (j: nat)
    requires |done| < n
    ensures j < n && j !in done
  {
    if forall i :: 0 <= i < n ==> i in done {
      var w := seq(n, i requires 0 <= i < n => IndexIn(done, i));
      var a, b := Pigeonhole(w, |done|);
      assert false;
    }
    j :| 0 <= j < n && j !in done;
  }

  ghost function IndexIn(s: seq<nat>, x: nat): (k: nat)
    ensures x in s ==> k < |s| && s[k] == x
  {
    if x in s then
      var k :| 0 <= k < |s| && s[k] == x;
      k
    else 0
  }

  lemma {:induction false} OrderDescends(tasks: seq<Task>, q: seq<nat>, c: seq<nat>, k: nat)
    requires IsOrder(tasks, q) && IsCycle(tasks, c) && k < |c|
    requires forall i :: 0 <= i < |tasks| ==> i in q
    ensures c[k] < |tasks| && IndexIn(q, c[k]) <= IndexIn(q, c[0])
  {
    if k > 0 {
      OrderDescends(tasks, q, c, k - 1);
      assert Edge(tasks, c[k], c[k - 1]);
      assert IndexIn(q, c[k]) < IndexIn(q, c[k - 1]);
    }
  }

  lemma OrderHasNoCycle(tasks: seq<Task>, q: seq<nat>, c: seq<nat>)
    requires IsOrder(tasks, q)
    ensures !IsCycle(tasks, c)
  {
    if IsCycle(tasks, c) {
      forall i | 0 <= i < |tasks| ensures i in q {
        AllPositions(q, |tasks|, i);
      }
      OrderDescends(tasks, q, c, |c| - 1);
    }
  }

  // --- the main results ---

  /** An order is returned exactly when there is no dependency cycle, and then it is the least topological order. */
  lemma OrderDecides(tasks: seq<Task>)
    ensures Order(tasks).Err? <==> exists c :: IsCycle(tasks, c)
    ensures Order(tasks).Err? <==> !exists q :: IsOrder(tasks, q)
    ensures Order(tasks).Ok? ==> IsOrder(tasks, Order(tasks).value)
    ensures Order(tasks).Ok? ==> forall q :: IsOrder(tasks, q) ==> LexLe(Order(tasks).value, q)
  {
    var p := Greedy(tasks, []);
    GreedyIsPrefix(tasks, []);
    if |p| == |tasks| {
      PrefixIsOrder(tasks, p);
      forall c ensures !IsCycle(tasks, c) {
        OrderHasNoCycle(tasks, p, c);
      }
      forall q | IsOrder(tasks, q) ensures LexLe(p, q) {
        GreedyIsLeast(tasks, [], q);
      }
    } else {
      var c := StuckIsCyclic(tasks, p);
      forall q ensures !IsOrder(tasks, q) {
        if IsOrder(tasks, q) {
          OrderHasNoCycle(tasks, q, c);
        }
      }
    }
  }

  /** A plan that already lists its tasks in dependency order is merged in exactly that order. */
  lemma PlanOrderKept(tasks: seq<Task>)
    requires IsOrder(tasks, seq(|tasks|, i => i))
    ensures Order(tasks) == Ok(seq(|tasks|, i => i))
  {
    var plain := seq(|tasks|, i => i);
    OrderDecides(tasks);
    var p := Order(tasks).value;
    forall k | 0 <= k < |p| && p[..k] == plain[..k] ensures p[k] >= k {
      forall x: nat | x < k ensures x in p[..k] {
        assert plain[..k][x] == x;
      }
      assert p[k] !in p[..k];
    }
  }
}
