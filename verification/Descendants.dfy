/** The tasks that depend on a task, directly or transitively (console/developer.py). */
module Descendants {
  import opened PlanGraph

  /** Some task of the plan called `to` lists `from` among its dependencies. */
  ghost predicate Link(tasks: seq<Task>, from: string, to: string) {
    exists t :: t in tasks && t.id == to && from in t.deps
  }

  ghost predicate IsPath(tasks: seq<Task>, path: seq<string>) {
    path != [] && forall k :: 0 <= k < |path| - 1 ==> Link(tasks, path[k], path[k + 1])
  }

  /** There is a dependency path, possibly empty, from one id to another. */
  ghost predicate Reaches(tasks: seq<Task>, from: string, to: string) {
    exists path :: IsPath(tasks, path) && path[0] == from && path[|path| - 1] == to
  }

  predicate Touches(t: Task, ids: set<string>) {
    exists d :: d in t.deps && d in ids
  }

  /** No task outside the set depends on a task inside it. */
  ghost predicate Closed(tasks: seq<Task>, ids: set<string>) {
    forall t :: t in tasks && Touches(t, ids) ==> t.id in ids
  }

  lemma ReachesItself(tasks: seq<Task>, id: string)
    ensures Reaches(tasks, id, id)
  {
    assert IsPath(tasks, [id]);
  }

  lemma ReachesFurther(tasks: seq<Task>, from: string, via: string, to: string)
    requires Reaches(tasks, from, via) && Link(tasks, via, to)
    ensures Reaches(tasks, from, to)
  {
    var path :| IsPath(tasks, path) && path[0] == from && path[|path| - 1] == via;
    var longer := path + [to];
    assert IsPath(tasks, longer);
  }

  lemma {:induction false} ClosedContainsPath(tasks: seq<Task>, ids: set<string>, path: seq<string>)
    requires Closed(tasks, ids) && IsPath(tasks, path) && path[0] in ids
    ensures path[|path| - 1] in ids
  {
    if |path| > 1 {
      var front := path[..|path| - 1];
      assert IsPath(tasks, front);
      ClosedContainsPath(tasks, ids, front);
      assert Link(tasks, path[|path| - 2], path[|path| - 1]);
    }
  }

  function Ids(tasks: seq<Task>): set<string> {
    set t | t in tasks :: t.id
  }

  /** Everything in the set depends on the task. */
  ghost predicate AllReached(tasks: seq<Task>, taskId: string, ids: set<string>) {
    forall id :: id in ids ==> Reaches(tasks, taskId, id)
  }

  /** One scan of the plan, which adds to the set that it tests against. */
  method ScanOnce(tasks: seq<Task>, taskId: string, before: set<string>) returns (excluded: set<string>, changed: bool)
    requires AllReached(tasks, taskId, before)
    ensures before <= excluded && AllReached(tasks, taskId, excluded)
    ensures !changed ==> excluded == before && Closed(tasks, before)
    ensures changed ==> |Ids(tasks) - excluded| < |Ids(tasks) - before|
  {
    excluded, changed := before, false;
    for i := 0 to |tasks|
      invariant before <= excluded && AllReached(tasks, taskId, excluded)
      invariant !changed ==> excluded == before && Closed(tasks[..i], before)
      invariant changed ==> Ids(tasks) - excluded < Ids(tasks) - before
    {
      var t := tasks[i];
      if t.id !in excluded && Touches(t, excluded) {
        ghost var d :| d in t.deps && d in excluded;
        assert Link(tasks, d, t.id);
        ReachesFurther(tasks, taskId, d, t.id);
        assert t.id in Ids(tasks) - excluded;
        excluded := excluded + {t.id};
        changed := true;
      }
    }
    if changed {
      SmallerSet(Ids(tasks) - excluded, Ids(tasks) - before);
    }
    assert tasks[..|tasks|] == tasks;
  }

  /** `_transitive_descendants`: the set grows while it is scanned, until a scan adds nothing. */
  method TransitiveDescendants(tasks: seq<Task>, taskId: string) returns (excluded: set<string>)
    ensures forall id :: id in excluded <==> Reaches(tasks, taskId, id)
  {
    excluded := {taskId};
    ReachesItself(tasks, taskId);
    var changed := true;
    while changed
      invariant taskId in excluded && AllReached(tasks, taskId, excluded)
      invariant !changed ==> Closed(tasks, excluded)
      decreases |Ids(tasks) - excluded|, changed
    {
      excluded, changed := ScanOnce(tasks, taskId, excluded);
    }
    forall id | Reaches(tasks, taskId, id) ensures id in excluded {
      var path :| IsPath(tasks, path) && path[0] == taskId && path[|path| - 1] == id;
      ClosedContainsPath(tasks, excluded, path);
    }
  }

  lemma SmallerSet(a: set<string>, b: set<string>)
    requires a < b
    ensures |a| < |b|
  {
    assert |b - a| > 0;
    assert a + (b - a) == b;
  }

  /** The same set as a value: the closure is unique, so one function describes it. */
  ghost function DescendantsOf(tasks: seq<Task>, taskId: string): (ids: set<string>)
    ensures forall id :: id in ids <==> Reaches(tasks, taskId, id)
  {
    ReachedAreKnown(tasks, taskId);
    set id | id in Ids(tasks) + {taskId} && Reaches(tasks, taskId, id)
  }

  lemma ReachedAreKnown(tasks: seq<Task>, taskId: string)
    ensures forall id :: Reaches(tasks, taskId, id) ==> id in Ids(tasks) + {taskId}
  {
    forall id | Reaches(tasks, taskId, id) ensures id in Ids(tasks) + {taskId} {
      var path :| IsPath(tasks, path) && path[0] == taskId && path[|path| - 1] == id;
      if |path| > 1 {
        assert Link(tasks, path[|path| - 2], path[|path| - 1]);
      }
    }
  }
}
