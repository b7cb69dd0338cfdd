/** Laws of jqlite evaluation: streams compose, and the filters obey jq's definitions of them. */
module JqLaws {
  import opened Results
  import opened Ordering
  import opened JqSyntax
  import opened JqEval

  /** The same values, or both a failure; which of several failures is raised first may differ. */
  predicate Same(a: Stream, b: Stream) {
    if a.Ok? then b == a else b.Err?
  }

  /** One stream after another; it fails when either does. */
  function Join(a: Stream, b: Stream): Stream {
    if a.Err? then a else Appended(a.value, b)
  }

  lemma {:induction false} SpreadJoins(xs: seq<Json>, ys: seq<Json>, st: Step)
    ensures Spread(xs + ys, st) == Join(Spread(xs, st), Spread(ys, st))
  {
    if xs == [] {
      assert xs + ys == ys;
      AppendedNil(Spread(ys, st));
    } else {
      assert (xs + ys)[0] == xs[0] && (xs + ys)[1..] == xs[1..] + ys;
      SpreadJoins(xs[1..], ys, st);
      var head, tail := Apply(xs[0], st), Spread(xs[1..], st);
      if head.Ok? && tail.Ok? {
        AppendedAssociates(head.value, tail.value, Spread(ys, st));
      }
    }
  }

  /** Evaluating two streams together is evaluating each, whatever the order of the work. */
  lemma {:induction false} EvalJoins(xs: seq<Json>, ys: seq<Json>, steps: seq<Step>)
    ensures Same(EvalOn(xs + ys, steps), Join(EvalOn(xs, steps), EvalOn(ys, steps)))
    decreases steps
  {
    if steps != [] {
      SpreadJoins(xs, ys, steps[0]);
      var a, b := Spread(xs, steps[0]), Spread(ys, steps[0]);
      if a.Ok? && b.Ok? {
        EvalJoins(a.value, b.value, steps[1..]);
      }
    }
  }

  /** Breadth-first evaluation of a stream agrees with evaluating each of its values by itself. */
  lemma {:induction false} EvalCollects(xs: seq<Json>, steps: seq<Step>)
    ensures Same(EvalOn(xs, steps), Collect(xs, steps))
  {
    if xs == [] {
      NoValues(steps);
    } else {
      assert xs == [xs[0]] + xs[1..];
      EvalJoins([xs[0]], xs[1..], steps);
      EvalCollects(xs[1..], steps);
    }
  }

  lemma {:induction false} NoValues(steps: seq<Step>)
    ensures EvalOn([], steps) == Ok([])
  {
    if steps != [] {
      NoValues(steps[1..]);
    }
  }

  /** The second part of a query over all the results of the first. */
  function Then(r: Stream, steps: seq<Step>): Stream {
    if r.Ok? then Collect(r.value, steps) else r
  }

  lemma {:induction false} EvalOnSplits(xs: seq<Json>, a: seq<Step>, b: seq<Step>)
    ensures EvalOn(xs, a + b) == if EvalOn(xs, a).Ok? then EvalOn(EvalOn(xs, a).value, b) else EvalOn(xs, a)
    decreases a
  {
    if a == [] {
      assert a + b == b;
    } else {
      assert (a + b)[0] == a[0] && (a + b)[1..] == a[1..] + b;
      var next := Spread(xs, a[0]);
      if next.Ok? {
        EvalOnSplits(next.value, a[1..], b);
      }
    }
  }

  /** A concatenated query flat-maps its second part over the results of its first. */
  lemma StreamsCompose(v: Json, a: seq<Step>, b: seq<Step>)
    ensures Same(EvalStream(v, a + b), Then(EvalStream(v, a), b))
  {
    EvalOnSplits([v], a, b);
    if EvalStream(v, a).Ok? {
      EvalCollects(EvalStream(v, a).value, b);
    }
  }

  lemma {:induction false} CollectJoins(xs: seq<Json>, ys: seq<Json>, steps: seq<Step>)
    ensures Collect(xs + ys, steps) == Join(Collect(xs, steps), Collect(ys, steps))
  {
    if xs == [] {
      assert xs + ys == ys;
      AppendedNil(Collect(ys, steps));
    } else {
      assert (xs + ys)[0] == xs[0] && (xs + ys)[1..] == xs[1..] + ys;
      CollectJoins(xs[1..], ys, steps);
      var head, tail := EvalStream(xs[0], steps), Collect(xs[1..], steps);
      if head.Ok? && tail.Ok? {
        AppendedAssociates(head.value, tail.value, Collect(ys, steps));
      }
    }
  }

  lemma {:induction false} CollectComposes(xs: seq<Json>, f: seq<Step>, g: seq<Step>)
    ensures Same(Collect(xs, f + g), Then(Collect(xs, f), g))
  {
    if xs != [] {
      StreamsCompose(xs[0], f, g);
      CollectComposes(xs[1..], f, g);
      var head, tail := EvalStream(xs[0], f), Collect(xs[1..], f);
      if head.Ok? && tail.Ok? {
        CollectJoins(head.value, tail.value, g);
      }
    }
  }

  lemma OneStep(v: Json, st: Step)
    ensures EvalStream(v, [st]) == Apply(v, st)
  {
    var r := Apply(v, st);
    assert [v][1..] == [] && [st][1..] == [];
    assert Spread([], st) == Ok([]);
    assert r.Ok? ==> r.value + [] == r.value;
    assert Spread([v], st) == r;
    assert EvalOn([v], [st]) == if r.Ok? then EvalOn(r.value, []) else r;
  }

  /** Mapping twice is mapping the composed query once. */
  lemma MapFuses(v: Json, f: seq<Step>, g: seq<Step>)
    ensures Same(EvalStream(v, [Map(f), Map(g)]), EvalStream(v, [Map(f + g)]))
  {
    assert [Map(f), Map(g)] == [Map(f)] + [Map(g)];
    EvalOnSplits([v], [Map(f)], [Map(g)]);
    OneStep(v, Map(f));
    OneStep(v, Map(f + g));
    if v.Array? {
      CollectComposes(v.xs, f, g);
      if Collect(v.xs, f).Ok? {
        OneStep(Array(Collect(v.xs, f).value), Map(g));
      }
    }
  }

  /** jq's own definition, `def map(f): [.[] | f];`, on arrays. */
  lemma MapIsIterate(xs: seq<Json>, f: seq<Step>)
    ensures var r := EvalStream(Array(xs), [Iterate] + f);
      Same(EvalStream(Array(xs), [Map(f)]), if r.Ok? then Ok([Array(r.value)]) else r)
  {
    StreamsCompose(Array(xs), [Iterate], f);
    OneStep(Array(xs), Iterate);
    OneStep(Array(xs), Map(f));
  }

  function Repeat(v: Json, n: nat): seq<Json> {
    seq(n, i => v)
  }

  function CountTruthy(results: seq<Json>): nat {
    if results == [] then 0 else (if Truthy(results[0]) then 1 else 0) + CountTruthy(results[1..])
  }

  lemma {:induction false} KeptRepeats(v: Json, results: seq<Json>)
    ensures Kept(v, results) == Repeat(v, CountTruthy(results))
  {
    if results != [] {
      KeptRepeats(v, results[1..]);
    }
  }

  lemma {:induction false} SpreadRepeats(v: Json, n: nat, st: Step, k: nat)
    requires Apply(v, st) == Ok(Repeat(v, k))
    ensures Spread(Repeat(v, n), st) == Ok(Repeat(v, n * k))
  {
    if n > 0 {
      assert Repeat(v, n)[1..] == Repeat(v, n - 1);
      SpreadRepeats(v, n - 1, st, k);
      assert n * k == k + (n - 1) * k;
      assert Repeat(v, k) + Repeat(v, (n - 1) * k) == Repeat(v, n * k);
    }
  }

  /** Filters multiply: the input comes out once for each pair of truthy results, in either order. */
  lemma SelectsMultiply(v: Json, f: seq<Step>, g: seq<Step>)
    requires EvalStream(v, f).Ok? && EvalStream(v, g).Ok?
    ensures var n, k := CountTruthy(EvalStream(v, f).value), CountTruthy(EvalStream(v, g).value);
      EvalStream(v, [Select(f), Select(g)]) == Ok(Repeat(v, n * k))
      && EvalStream(v, [Select(g), Select(f)]) == EvalStream(v, [Select(f), Select(g)])
  {
    SelectTwice(v, f, g);
    SelectTwice(v, g, f);
  }

  lemma SelectOnce(v: Json, f: seq<Step>)
    requires EvalStream(v, f).Ok?
    ensures Apply(v, Select(f)) == Ok(Repeat(v, CountTruthy(EvalStream(v, f).value)))
  {
    KeptRepeats(v, EvalStream(v, f).value);
  }

  lemma TwoSteps(v: Json, a: Step, b: Step)
    requires Apply(v, a).Ok?
    ensures EvalStream(v, [a, b]) == Spread(Apply(v, a).value, b)
  {
    assert [a, b] == [a] + [b];
    EvalOnSplits([v], [a], [b]);
    OneStep(v, a);
    assert [b][1..] == [];
  }

  lemma SelectTwice(v: Json, f: seq<Step>, g: seq<Step>)
    requires EvalStream(v, f).Ok? && EvalStream(v, g).Ok?
    ensures EvalStream(v, [Select(f), Select(g)])
      == Ok(Repeat(v, CountTruthy(EvalStream(v, f).value) * CountTruthy(EvalStream(v, g).value)))
  {
    SelectOnce(v, f);
    SelectOnce(v, g);
    TwoSteps(v, Select(f), Select(g));
    SpreadRepeats(v, CountTruthy(EvalStream(v, f).value), Select(g), CountTruthy(EvalStream(v, g).value));
  }

  /** Without iteration and `select`, a query that succeeds has exactly one result. */
  lemma {:induction false} SingleResult(v: Json, steps: seq<Step>)
    requires forall i :: 0 <= i < |steps| ==> !steps[i].Iterate? && !steps[i].Select?
    ensures EvalStream(v, steps).Ok? ==> |EvalStream(v, steps).value| == 1
    decreases steps
  {
    if steps != [] {
      var r := Apply(v, steps[0]);
      OneStep(v, steps[0]);
      assert steps == [steps[0]] + steps[1..];
      EvalOnSplits([v], [steps[0]], steps[1..]);
      if r.Ok? {
        assert r.value == [r.value[0]];
        SingleResult(r.value[0], steps[1..]);
      }
    }
  }

  /** `keys` of an object lists exactly its names, in order. */
  lemma KeysSorted(fields: seq<(string, Json)>) returns (names: seq<string>)
    ensures SortedStrings(names) && multiset(names) == multiset(Names(fields))
    ensures var r := Apply(Object(fields), Keys);
      r.Ok? && |r.value| == 1 && r.value[0].Array? && |r.value[0].xs| == |names|
      && forall i :: 0 <= i < |names| ==> r.value[0].xs[i] == String(names[i])
  {
    names := SortStrings(Names(fields));
    SortSorts(Names(fields));
  }
}
