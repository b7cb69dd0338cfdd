/** Kahn's algorithm as `_topo_order` runs it, with a ready list kept sorted (console/assemble.py). */
module TopoOrder {
  import opened Results
  import opened PlanGraph
  import opened Sequences
  import opened TopoSpec

  // --- counting the dependencies that a task still waits for ---

  predicate Waits(tasks: seq<Task>, done: seq<nat>, dep: string) {
    Position(tasks, dep).Some? && Position(tasks, dep).value !in done
  }

  /** The entries of a dependency list that name an unfinished task of the plan, counted with repetition. */
  function Pending(tasks: seq<Task>, done: seq<nat>, deps: seq<string>): nat {
    if deps == [] then 0
    else Pending(tasks, done, deps[..|deps| - 1]) + if Waits(tasks, done, deps[|deps| - 1]) then 1 else 0
  }

  /** The entries of a dependency list that name task `i`. */
  function Occurs(tasks: seq<Task>, i: nat, deps: seq<string>): nat {
    if deps == [] then 0
    else Occurs(tasks, i, deps[..|deps| - 1]) + if Position(tasks, deps[|deps| - 1]) == Some(i) then 1 else 0
  }

  lemma {:induction false} PendingZero(tasks: seq<Task>, done: seq<nat>, deps: seq<string>)
    ensures Pending(tasks, done, deps) == 0 <==> forall k :: 0 <= k < |deps| ==> !Waits(tasks, done, deps[k])
  {
    if deps != [] {
      PendingZero(tasks, done, deps[..|deps| - 1]);
      assert deps == deps[..|deps| - 1] + [deps[|deps| - 1]];
    }
  }

  lemma {:induction false} PositionOfTask(tasks: seq<Task>, i: nat)
    requires DistinctIds(tasks) && i < |tasks|
    ensures Position(tasks, tasks[i].id) == Some(i)
  {
  }

  /** A task is ready when it is not done and waits for nothing. */
  lemma ReadyIsNoPending(tasks: seq<Task>, done: seq<nat>, j: nat)
    requires DistinctIds(tasks) && j < |tasks|
    ensures Ready(tasks, done, j) <==> j !in done && Pending(tasks, done, tasks[j].deps) == 0
  {
    var deps := tasks[j].deps;
    PendingZero(tasks, done, deps);
    if j !in done && Pending(tasks, done, deps) == 0 {
      forall i | 0 <= i < |tasks| && Edge(tasks, i, j) ensures i in done {
        PositionOfTask(tasks, i);
        var k :| 0 <= k < |deps| && deps[k] == tasks[i].id;
        assert !Waits(tasks, done, deps[k]);
      }
    }
    if Ready(tasks, done, j) {
      forall k | 0 <= k < |deps| ensures !Waits(tasks, done, deps[k]) {
        var p := Position(tasks, deps[k]);
        assert p.Some? ==> Edge(tasks, p.value, j);
      }
    }
  }

  lemma {:induction false} PendingDrops(tasks: seq<Task>, done: seq<nat>, i: nat, deps: seq<string>)
    requires i !in done
    ensures Pending(tasks, done, deps) == Pending(tasks, done + [i], deps) + Occurs(tasks, i, deps)
  {
    if deps != [] {
      PendingDrops(tasks, done, i, deps[..|deps| - 1]);
    }
  }

  /** What finishing `tid` does to every counter. */
  lemma AllPendingDrop(tasks: seq<Task>, done: seq<nat>, tid: nat)
    requires tid !in done
    ensures forall j :: 0 <= j < |tasks| ==>
      Pending(tasks, done, tasks[j].deps) == Pending(tasks, done + [tid], tasks[j].deps) + Occurs(tasks, tid, tasks[j].deps)
  {
    forall j | 0 <= j < |tasks|
      ensures Pending(tasks, done, tasks[j].deps)
        == Pending(tasks, done + [tid], tasks[j].deps) + Occurs(tasks, tid, tasks[j].deps)
    {
      PendingDrops(tasks, done, tid, tasks[j].deps);
    }
  }

  lemma AllReady(tasks: seq<Task>, done: seq<nat>)
    requires DistinctIds(tasks)
    ensures forall j :: 0 <= j < |tasks| ==>
      (Ready(tasks, done, j) <==> j !in done && Pending(tasks, done, tasks[j].deps) == 0)
  {
    forall j | 0 <= j < |tasks|
      ensures Ready(tasks, done, j) <==> j !in done && Pending(tasks, done, tasks[j].deps) == 0
    {
      ReadyIsNoPending(tasks, done, j);
    }
  }

  lemma DoneWaitsForNothing(tasks: seq<Task>, done: seq<nat>)
    requires DistinctIds(tasks) && Prefix(tasks, done)
    ensures forall j :: j in done ==> j < |tasks| && Pending(tasks, done, tasks[j].deps) == 0
  {
    forall j | j in done ensures j < |tasks| && Pending(tasks, done, tasks[j].deps) == 0 {
      var a :| 0 <= a < |done| && done[a] == j;
      PendingZero(tasks, done, tasks[j].deps);
      forall k | 0 <= k < |tasks[j].deps| ensures !Waits(tasks, done, tasks[j].deps[k]) {
        var p := Position(tasks, tasks[j].deps[k]);
        if p.Some? {
          assert Edge(tasks, p.value, done[a]);
          assert p.value in done[..a];
        }
      }
    }
  }

  // --- the ready list ---

  predicate Ascending(s: seq<nat>) {
    forall a, b :: 0 <= a < b < |s| ==> s[a] < s[b]
  }

  function Insert(x: nat, s: seq<nat>): seq<nat> {
    if s == [] || x <= s[0] then [x] + s else [s[0]] + Insert(x, s[1..])
  }

  /** `sorted(..., key=original_index.get)` on positions. */
  function Sort(s: seq<nat>): seq<nat> {
    if s == [] then [] else Insert(s[0], Sort(s[1..]))
  }

  lemma {:induction false} InsertAscends(x: nat, s: seq<nat>)
    requires Ascending(s) && x !in s
    ensures Ascending(Insert(x, s))
    ensures forall y :: y in Insert(x, s) <==> y == x || y in s
  {
    if s != [] && x > s[0] {
      assert s == [s[0]] + s[1..];
      InsertAscends(x, s[1..]);
      var rest := Insert(x, s[1..]);
      assert forall b :: 0 <= b < |rest| ==> rest[b] in rest;
    }
  }

  lemma {:induction false} SortAscends(s: seq<nat>)
    requires Distinct(s)
    ensures Ascending(Sort(s))
    ensures forall y :: y in Sort(s) <==> y in s
  {
    if s != [] {
      assert s == [s[0]] + s[1..];
      SortAscends(s[1..]);
      InsertAscends(s[0], Sort(s[1..]));
    }
  }

  /** The ready list holds exactly the ready tasks, in plan order. */
  ghost predicate ListsReady(tasks: seq<Task>, done: seq<nat>, ready: seq<nat>) {
    && Ascending(ready) && Within(ready, |tasks|)
    && forall j: nat :: j < |tasks| ==> (j in ready <==> Ready(tasks, done, j))
  }

  lemma FirstIsLeast(tasks: seq<Task>, done: seq<nat>, ready: seq<nat>)
    requires ListsReady(tasks, done, ready)
    ensures LeastReady(tasks, done, 0) == if ready == [] then None else Some(ready[0])
  {
    var least := LeastReady(tasks, done, 0);
    if least.Some? {
      assert least.value in ready;
      assert ready[0] in ready;
    }
    if ready != [] {
      assert ready[0] in ready;
    }
  }

  // --- the tables ---

  /** The counters agree with what every task still waits for. */
  ghost predicate Counts(tasks: seq<Task>, done: seq<nat>, indegree: seq<nat>) {
    |indegree| == |tasks| && forall j: nat :: j < |tasks| ==> indegree[j] == Pending(tasks, done, tasks[j].deps)
  }

  /** The dependencies read so far: all of the tasks before `t`, and the first `d` of task `t`. */
  function DepsRead(tasks: seq<Task>, t: nat, d: nat, j: nat): seq<string>
    requires j < |tasks|
    requires t < |tasks| ==> d <= |tasks[t].deps|
  {
    if j < t then tasks[j].deps else if j == t then tasks[j].deps[..d] else []
  }

  ghost predicate Tables(tasks: seq<Task>, t: nat, d: nat, indegree: seq<nat>, children: seq<seq<nat>>)
    requires t < |tasks| ==> d <= |tasks[t].deps|
  {
    && |indegree| == |tasks| && |children| == |tasks|
    && (forall j: nat :: j < |tasks| ==> indegree[j] == Pending(tasks, [], DepsRead(tasks, t, d, j)))
    && (forall i: nat :: i < |tasks| ==> Within(children[i], |tasks|))
    && (forall i: nat, j: nat :: i < |tasks| && j < |tasks| ==>
          multiset(children[i])[j] == Occurs(tasks, i, DepsRead(tasks, t, d, j)))
  }

  lemma IndegreeStep(tasks: seq<Task>, t: nat, d: nat, j: nat)
    requires t < |tasks| && d < |tasks[t].deps| && j < |tasks|
    ensures var p := Position(tasks, tasks[t].deps[d]);
      Pending(tasks, [], DepsRead(tasks, t, d + 1, j))
      == Pending(tasks, [], DepsRead(tasks, t, d, j)) + if j == t && p.Some? then 1 else 0
  {
    var deps := tasks[t].deps;
    assert deps[..d + 1][..d] == deps[..d];
    if j == t {
      assert deps[..d + 1][d] == deps[d];
    }
  }

  lemma ChildrenStep(tasks: seq<Task>, t: nat, d: nat, i: nat, j: nat)
    requires t < |tasks| && d < |tasks[t].deps| && i < |tasks| && j < |tasks|
    ensures var p := Position(tasks, tasks[t].deps[d]);
      Occurs(tasks, i, DepsRead(tasks, t, d + 1, j))
      == Occurs(tasks, i, DepsRead(tasks, t, d, j)) + if j == t && p == Some(i) then 1 else 0
  {
    var deps := tasks[t].deps;
    assert deps[..d + 1][..d] == deps[..d];
    if j == t {
      assert deps[..d + 1][d] == deps[d];
    }
  }

  lemma TablesStart(tasks: seq<Task>)
    ensures Tables(tasks, 0, 0, seq(|tasks|, i => 0), seq(|tasks|, i => []))
  {
    forall j: nat | j < |tasks| ensures DepsRead(tasks, 0, 0, j) == [] {
    }
  }

  lemma TablesStep(tasks: seq<Task>, t: nat, d: nat, indegree: seq<nat>, children: seq<seq<nat>>,
                   indegree': seq<nat>, children': seq<seq<nat>>)
    requires t < |tasks| && d < |tasks[t].deps| && Tables(tasks, t, d, indegree, children)
    requires match Position(tasks, tasks[t].deps[d])
      case None => indegree' == indegree && children' == children
      case Some(p) => indegree' == indegree[t := indegree[t] + 1] && children' == children[p := children[p] + [t]]
    ensures Tables(tasks, t, d + 1, indegree', children')
  {
    forall j: nat | j < |tasks| ensures indegree'[j] == Pending(tasks, [], DepsRead(tasks, t, d + 1, j)) {
      IndegreeStep(tasks, t, d, j);
    }
    forall i: nat, j: nat | i < |tasks| && j < |tasks|
      ensures multiset(children'[i])[j] == Occurs(tasks, i, DepsRead(tasks, t, d + 1, j))
    {
      ChildrenStep(tasks, t, d, i, j);
    }
  }

  lemma TablesNext(tasks: seq<Task>, t: nat, indegree: seq<nat>, children: seq<seq<nat>>)
    requires t < |tasks| && Tables(tasks, t, |tasks[t].deps|, indegree, children)
    ensures Tables(tasks, t + 1, 0, indegree, children)
  {
    forall j: nat | j < |tasks| ensures DepsRead(tasks, t + 1, 0, j) == DepsRead(tasks, t, |tasks[t].deps|, j) {
      assert tasks[t].deps[..|tasks[t].deps|] == tasks[t].deps;
    }
    forall j: nat | j < |tasks| ensures indegree[j] == Pending(tasks, [], DepsRead(tasks, t + 1, 0, j)) {
      assert DepsRead(tasks, t + 1, 0, j) == DepsRead(tasks, t, |tasks[t].deps|, j);
    }
    forall i: nat, j: nat | i < |tasks| && j < |tasks|
      ensures multiset(children[i])[j] == Occurs(tasks, i, DepsRead(tasks, t + 1, 0, j))
    {
      assert DepsRead(tasks, t + 1, 0, j) == DepsRead(tasks, t, |tasks[t].deps|, j);
    }
  }

  /** The dependencies of task `t` entered into the tables, one entry for each occurrence. */
  method EnterTask(tasks: seq<Task>, t: nat, indegree0: seq<nat>, children0: seq<seq<nat>>)
    returns (indegree: seq<nat>, children: seq<seq<nat>>)
    requires t < |tasks| && Tables(tasks, t, 0, indegree0, children0)
    ensures Tables(tasks, t + 1, 0, indegree, children)
  {
    indegree, children := indegree0, children0;
    for d := 0 to |tasks[t].deps|
      invariant Tables(tasks, t, d, indegree, children)
    {
      ghost var wereIndegree, wereChildren := indegree, children;
      match Position(tasks, tasks[t].deps[d]) {
        case None =>
        case Some(p) =>
          children := children[p := children[p] + [t]];
          indegree := indegree[t := indegree[t] + 1];
      }
      TablesStep(tasks, t, d, wereIndegree, wereChildren, indegree, children);
    }
    TablesNext(tasks, t, indegree, children);
  }

  /** The tables `indegree` and `children` for the whole plan. */
  method BuildTables(tasks: seq<Task>) returns (indegree: seq<nat>, children: seq<seq<nat>>)
    ensures Tables(tasks, |tasks|, 0, indegree, children)
  {
    TablesStart(tasks);
    indegree, children := seq(|tasks|, i => 0), seq(|tasks|, i => []);
    for t := 0 to |tasks|
      invariant Tables(tasks, t, 0, indegree, children)
    {
      indegree, children := EnterTask(tasks, t, indegree, children);
    }
  }

  /** Some decrements have freed exactly these tasks. */
  ghost predicate Freed(before: seq<nat>, indegree: seq<nat>, newlyReady: seq<nat>)
    requires |before| == |indegree|
  {
    && Distinct(newlyReady) && Within(newlyReady, |before|)
    && forall j: nat :: j < |before| ==> (j in newlyReady <==> indegree[j] == 0 && before[j] > 0)
  }

  /** One decrement for each of the child entries read so far. */
  ghost predicate Decremented(before: seq<nat>, children: seq<nat>, k: nat, indegree: seq<nat>)
    requires k <= |children|
  {
    |before| == |indegree| && forall j: nat :: j < |before| ==> indegree[j] + multiset(children[..k])[j] == before[j]
  }

  lemma PrefixCount(c: seq<nat>, k: nat, x: nat)
    requires k < |c|
    ensures multiset(c[..k + 1])[x] == multiset(c[..k])[x] + if x == c[k] then 1 else 0
    ensures multiset(c[..k + 1])[x] <= multiset(c)[x]
  {
    assert c[..k + 1] == c[..k] + [c[k]];
    assert c == c[..k + 1] + c[k + 1..];
  }

  /** A counter that still has a child entry to come is positive, so the decrement is safe. */
  lemma DecrementStep(before: seq<nat>, children: seq<nat>, k: nat, indegree: seq<nat>)
    requires k < |children| && children[k] < |before| && Decremented(before, children, k, indegree)
    requires multiset(children)[children[k]] <= before[children[k]]
    ensures 0 < indegree[children[k]] <= before[children[k]]
    ensures Decremented(before, children, k + 1, indegree[children[k] := indegree[children[k]] - 1])
  {
    var child := children[k];
    PrefixCount(children, k, child);
    var next := indegree[child := indegree[child] - 1];
    forall j: nat | j < |before| ensures next[j] + multiset(children[..k + 1])[j] == before[j] {
      PrefixCount(children, k, j);
    }
  }

  lemma FreedStep(before: seq<nat>, indegree: seq<nat>, newlyReady: seq<nat>, child: nat)
    requires |before| == |indegree| && child < |indegree| && 0 < indegree[child] <= before[child]
    requires Freed(before, indegree, newlyReady)
    ensures Freed(before, indegree[child := indegree[child] - 1],
                  if indegree[child] == 1 then newlyReady + [child] else newlyReady)
  {
  }

  /** The counters after task `tid`: one decrement for each of its child entries, and the tasks that it frees. */
  method Release(tasks: seq<Task>, ghost done: seq<nat>, tid: nat, before: seq<nat>, children: seq<nat>)
    returns (indegree: seq<nat>, newlyReady: seq<nat>)
    requires tid < |tasks| && tid !in done && Counts(tasks, done, before) && Within(children, |tasks|)
    requires forall j: nat :: j < |tasks| ==> multiset(children)[j] == Occurs(tasks, tid, tasks[j].deps)
    ensures Counts(tasks, done + [tid], indegree) && Freed(before, indegree, newlyReady)
  {
    AllPendingDrop(tasks, done, tid);
    indegree, newlyReady := before, [];
    for k := 0 to |children|
      invariant Decremented(before, children, k, indegree) && Freed(before, indegree, newlyReady)
    {
      var child := children[k];
      DecrementStep(before, children, k, indegree);
      FreedStep(before, indegree, newlyReady, child);
      indegree := indegree[child := indegree[child] - 1];
      if indegree[child] == 0 {
        newlyReady := newlyReady + [child];
      }
    }
    assert children[..|children|] == children;
  }

  /** The ready list after task `tid`: the rest of the old one and what `tid` freed. */
  lemma ReadyAfter(tasks: seq<Task>, done: seq<nat>, tid: nat, ready: seq<nat>,
                   before: seq<nat>, after: seq<nat>, newlyReady: seq<nat>)
    requires DistinctIds(tasks) && Prefix(tasks, done) && tid < |tasks|
    requires ListsReady(tasks, done, ready) && ready != [] && ready[0] == tid
    requires Counts(tasks, done, before) && Counts(tasks, done + [tid], after) && Freed(before, after, newlyReady)
    ensures ListsReady(tasks, done + [tid], Sort(ready[1..] + newlyReady))
  {
    var rest := ready[1..] + newlyReady;
    assert ready == [tid] + ready[1..];
    DoneWaitsForNothing(tasks, done);
    forall j: nat | j < |tasks|
      ensures j in ready[1..] ==> j !in newlyReady
      ensures j in rest <==> Ready(tasks, done + [tid], j)
    {
      ReadyIsNoPending(tasks, done, j);
      ReadyIsNoPending(tasks, done + [tid], j);
      if tid !in done {
        PendingDrops(tasks, done, tid, tasks[j].deps);
      }
      assert j in ready <==> j == tid || j in ready[1..];
    }
    assert forall x :: x in ready[1..] ==> x in ready && x < |tasks|;
    DistinctConcat(ready[1..], newlyReady);
    SortAscends(rest);
    assert forall a :: 0 <= a < |Sort(rest)| ==> Sort(rest)[a] in Sort(rest);
  }

  method InitialReady(tasks: seq<Task>, indegree: seq<nat>) returns (ready: seq<nat>)
    requires DistinctIds(tasks) && Counts(tasks, [], indegree)
    ensures ListsReady(tasks, [], ready)
  {
    ready := [];
    for j := 0 to |tasks|
      invariant Ascending(ready) && Within(ready, j)
      invariant forall i: nat :: i < j ==> (i in ready <==> indegree[i] == 0)
    {
      if indegree[j] == 0 {
        ready := ready + [j];
      }
    }
    AllReady(tasks, []);
  }

  /** The tasks at the given positions. */
  function TasksAt(tasks: seq<Task>, p: seq<nat>): seq<Task>
    requires Within(p, |tasks|)
  {
    seq(|p|, k requires 0 <= k < |p| => tasks[p[k]])
  }

  // --- repeated ids ---

  /**
   The entries of the tables, which are keyed by id: an id that comes again gets its entry moved to the
   later position and the dependencies of both.
   */
  function Entries(tasks: seq<Task>): seq<Task> {
    if tasks == [] then []
    else Entered(Entries(tasks[..|tasks| - 1]), tasks[|tasks| - 1])
  }

  function Entered(nodes: seq<Task>, t: Task): seq<Task> {
    match Position(nodes, t.id)
    case None => nodes + [t]
    case Some(i) => nodes[..i] + nodes[i + 1..] + [Task(t.id, nodes[i].deps + t.deps)]
  }

  lemma EnteredDistinct(nodes: seq<Task>, t: Task)
    requires DistinctIds(nodes)
    ensures DistinctIds(Entered(nodes, t))
    ensures |Entered(nodes, t)| == |nodes| + if HasId(nodes, t.id) then 0 else 1
    ensures !HasId(nodes, t.id) ==> Entered(nodes, t) == nodes + [t]
    ensures forall id :: HasId(Entered(nodes, t), id) <==> HasId(nodes, id) || id == t.id
  {
    var next := Entered(nodes, t);
    assert next[|next| - 1].id == t.id;
    match Position(nodes, t.id) {
      case None =>
        forall id | HasId(nodes, id) ensures HasId(next, id) {
          var k :| 0 <= k < |nodes| && nodes[k].id == id;
          assert next[k].id == id;
        }
      case Some(i) =>
        assert forall k :: 0 <= k < |next| - 1 ==> next[k] == nodes[if k < i then k else k + 1];
        forall id | HasId(nodes, id) ensures HasId(next, id) {
          var k :| 0 <= k < |nodes| && nodes[k].id == id;
          assert k != i ==> next[if k < i then k else k - 1].id == id;
        }
    }
  }

  lemma {:induction false} EntriesIds(tasks: seq<Task>)
    ensures DistinctIds(Entries(tasks))
    ensures forall id :: HasId(Entries(tasks), id) <==> HasId(tasks, id)
  {
    if tasks != [] {
      var front, last := tasks[..|tasks| - 1], tasks[|tasks| - 1];
      EntriesIds(front);
      EnteredDistinct(Entries(front), last);
      assert tasks == front + [last];
      HasIdNext(front, last);
    }
  }

  lemma EntriesNext(front: seq<Task>, last: Task)
    ensures |Entries(front + [last])| == |Entries(front)| + if HasId(front, last.id) then 0 else 1
    ensures !HasId(front, last.id) ==> Entries(front + [last]) == Entries(front) + [last]
  {
    assert (front + [last])[..|front|] == front;
    EntriesIds(front);
    EnteredDistinct(Entries(front), last);
  }

  lemma {:induction false} EntriesSame(tasks: seq<Task>)
    requires DistinctIds(tasks)
    ensures Entries(tasks) == tasks
  {
    if tasks != [] {
      var front, last := tasks[..|tasks| - 1], tasks[|tasks| - 1];
      assert tasks == front + [last];
      DistinctNext(front, last);
      EntriesSame(front);
      EntriesNext(front, last);
    }
  }

  /** There is one entry for each id, so fewer than tasks when an id repeats. */
  lemma {:induction false} EntriesFewer(tasks: seq<Task>)
    ensures |Entries(tasks)| <= |tasks|
    ensures !DistinctIds(tasks) ==> |Entries(tasks)| < |tasks|
  {
    if tasks != [] {
      var front, last := tasks[..|tasks| - 1], tasks[|tasks| - 1];
      assert tasks == front + [last];
      DistinctNext(front, last);
      EntriesFewer(front);
      EntriesNext(front, last);
    }
  }

  lemma DistinctNext(front: seq<Task>, last: Task)
    ensures DistinctIds(front + [last]) <==> DistinctIds(front) && !HasId(front, last.id)
  {
    var tasks := front + [last];
    assert tasks[|front|] == last;
    assert forall k :: 0 <= k < |front| ==> tasks[k] == front[k];
  }

  lemma HasIdNext(front: seq<Task>, last: Task)
    ensures forall id :: HasId(front + [last], id) <==> HasId(front, id) || id == last.id
  {
    var tasks := front + [last];
    assert tasks[|front|] == last;
    assert forall k :: 0 <= k < |front| ==> tasks[k] == front[k];
  }

  method EnterAll(tasks: seq<Task>) returns (nodes: seq<Task>)
    ensures nodes == Entries(tasks)
  {
    nodes := [];
    for t := 0 to |tasks|
      invariant nodes == Entries(tasks[..t])
    {
      assert tasks[..t + 1][..t] == tasks[..t];
      nodes := Entered(nodes, tasks[t]);
    }
    assert tasks[..|tasks|] == tasks;
  }

  // --- the loop ---

  /** The loop over the ready list always takes the least ready entry, as far as that goes. */
  method Kahn(tasks: seq<Task>) returns (result: seq<nat>)
    requires DistinctIds(tasks)
    ensures result == Greedy(tasks, []) && Prefix(tasks, result)
  {
    var indegree, children := BuildTables(tasks);
    ghost var full := indegree;
    assert forall j: nat :: j < |tasks| ==> DepsRead(tasks, |tasks|, 0, j) == tasks[j].deps;
    var ready := InitialReady(tasks, indegree);
    result := [];
    while ready != []
      invariant Prefix(tasks, result) && Greedy(tasks, []) == Greedy(tasks, result)
      invariant Counts(tasks, result, indegree) && ListsReady(tasks, result, ready)
      invariant Tables(tasks, |tasks|, 0, full, children)
      decreases |tasks| - |result|
    {
      var tid := ready[0];
      FirstIsLeast(tasks, result, ready);
      PrefixGrows(tasks, result, tid);
      var after, newlyReady := Release(tasks, result, tid, indegree, children[tid]);
      ReadyAfter(tasks, result, tid, ready, indegree, after, newlyReady);
      indegree, ready := after, Sort(ready[1..] + newlyReady);
      result := result + [tid];
    }
    FirstIsLeast(tasks, result, ready);
  }

  /**
   `_topo_order`: the tasks in dependency order, or the report of a cycle, which a plan with a repeated
   id gets too, because it has fewer entries than tasks.
   */
  method TopoOrder(tasks: seq<Task>) returns (r: Result<seq<Task>, PlanError>)
    ensures r.Ok? <==> DistinctIds(tasks) && Order(tasks).Ok?
    ensures r.Ok? ==> Within(Order(tasks).value, |tasks|) && r == Ok(TasksAt(tasks, Order(tasks).value))
    ensures r.Err? ==> r == Err(CyclicPlan)
  {
    var nodes := EnterAll(tasks);
    EntriesIds(tasks);
    EntriesFewer(tasks);
    var result := Kahn(nodes);
    if DistinctIds(tasks) {
      EntriesSame(tasks);
    }
    if |result| != |tasks| {
      return Err(CyclicPlan);
    }
    r := Ok(TasksAt(nodes, result));
  }
}
