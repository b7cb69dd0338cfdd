/**
 The dependency graph of a plan, in which a task is named by its position in the plan: edges, topological
 orders, cycles, the lexicographic order on orders, and what counting distinct positions gives.
 */
module PlanGraph {
  import opened Results
  import opened Sequences

  datatype Task = Task(id: string, deps: seq<string>)

  predicate DistinctIds(tasks: seq<Task>) {
    forall i, j :: 0 <= i < j < |tasks| ==> tasks[i].id != tasks[j].id
  }

  predicate HasId(tasks: seq<Task>, id: string) {
    exists i :: 0 <= i < |tasks| && tasks[i].id == id
  }

  /** Task `j` declares task `i` as a dependency. */
  predicate Edge(tasks: seq<Task>, i: nat, j: nat) {
    i < |tasks| && j < |tasks| && tasks[i].id in tasks[j].deps
  }

  /** The first position of an id in the plan, if the plan has it. */
  function Position(tasks: seq<Task>, id: string): (r: Option<nat>)
    ensures r.Some? ==> r.value < |tasks| && tasks[r.value].id == id && forall i :: 0 <= i < r.value ==> tasks[i].id != id
    ensures r.None? ==> forall i :: 0 <= i < |tasks| ==> tasks[i].id != id
  {
    if tasks == [] then None
    else if tasks[0].id == id then Some(0)
    else match Position(tasks[1..], id)
      case Some(k) => Some(k + 1)
      case None => None
  }

  predicate Within(p: seq<nat>, n: nat) {
    forall a :: 0 <= a < |p| ==> p[a] < n
  }

  /** A topological order: every task once, each after the tasks of the plan that it depends on. */
  ghost predicate IsOrder(tasks: seq<Task>, p: seq<nat>) {
    && |p| == |tasks| && Within(p, |tasks|) && Distinct(p)
    && forall a, b :: 0 <= a < |p| && 0 <= b < |p| && Edge(tasks, p[a], p[b]) ==> a < b
  }

  /** Tasks that each depend on the next one, the last on the first. */
  ghost predicate IsCycle(tasks: seq<Task>, c: seq<nat>) {
    && c != []
    && (forall k :: 0 <= k < |c| - 1 ==> Edge(tasks, c[k + 1], c[k]))
    && Edge(tasks, c[0], c[|c| - 1])
  }

  /** The first difference, if there is one, is in favour of `a`. */
  ghost predicate LexLe(a: seq<nat>, b: seq<nat>) {
    a == b || exists k :: 0 <= k < |a| && k < |b| && a[..k] == b[..k] && a[k] < b[k]
  }

  // --- counting ---

  lemma {:induction false} Pigeonhole(w: seq<nat>, n: nat) returns (a: nat, b: nat)
    requires Within(w, n) && |w| > n
    ensures a < b < |w| && w[a] == w[b]
    decreases n
  {
    var last := w[|w| - 1];
    if i :| 0 <= i < |w| - 1 && w[i] == last {
      a, b := i, |w| - 1;
    } else {
      var front := w[..|w| - 1];
      var v := seq(|front|, i requires 0 <= i < |front| => if front[i] > last then front[i] - 1 else front[i]);
      a, b := Pigeonhole(v, n - 1);
    }
  }

  /** `n` distinct positions below `n` are all of them. */
  lemma AllPositions(p: seq<nat>, n: nat, i: nat)
    requires Within(p, n) && Distinct(p) && |p| >= n && i < n
    ensures i in p
  {
    if i !in p {
      var a, b := Pigeonhole(p + [i], n);
    }
  }

  lemma DistinctBounded(p: seq<nat>, n: nat)
    requires Within(p, n) && Distinct(p)
    ensures |p| <= n
  {
    if |p| > n {
      var a, b := Pigeonhole(p, n);
    }
  }
}
