/** Evaluation of parsed queries over JSON values (jqlite/eval.py). */
module JqEval {
  import opened Results
  import opened Ordering
  import opened JqSyntax

  /** A decoded JSON value; an object keeps its fields in input order. Numbers are exact. */
  datatype Json =
    | Null
    | Bool(b: bool)
    | Number(r: real)
    | String(s: string)
    | Array(xs: seq<Json>)
    | Object(fields: seq<(string, Json)>)

  datatype EvalError = WrongType(st: Step, value: Json) | WrongKeyType(key: Key, value: Json)

  type Stream = Result<seq<Json>, EvalError>

  predicate Truthy(v: Json) {
    v != Null && v != Bool(false)
  }

  function TypeName(v: Json): string {
    match v
    case Null => "null"
    case Bool(_) => "boolean"
    case Number(_) => "number"
    case String(_) => "string"
    case Array(_) => "array"
    case Object(_) => "object"
  }

  function Lookup(fields: seq<(string, Json)>, name: string): Json {
    if fields == [] then Null
    else if fields[0].0 == name then fields[0].1
    else Lookup(fields[1..], name)
  }

  function Names(fields: seq<(string, Json)>): seq<string> {
    seq(|fields|, i requires 0 <= i < |fields| => fields[i].0)
  }

  function Values(fields: seq<(string, Json)>): seq<Json> {
    seq(|fields|, i requires 0 <= i < |fields| => fields[i].1)
  }

  /** The input once for each truthy result of the inner query. */
  function Kept(v: Json, results: seq<Json>): seq<Json> {
    if results == [] then []
    else (if Truthy(results[0]) then [v] else []) + Kept(v, results[1..])
  }

  function HasKey(v: Json, key: Key): Result<bool, EvalError> {
    match v
    case Object(fields) => if key.StrKey? then Ok(key.text in Names(fields)) else Err(WrongKeyType(key, v))
    case Array(xs) => if key.IntKey? then Ok(0 <= key.n < |xs|) else Err(WrongKeyType(key, v))
    case _ => Err(WrongType(Has(key), v))
  }

  /** The handlers without a loop or an inner query: field, index, keys, length, type and has. */
  function Straight(v: Json, st: Step): Stream
    requires !st.Iterate? && !st.Select? && !st.Map?
  {
    match st
    case Field(name) =>
      if v.Object? then Ok([Lookup(v.fields, name)]) else Err(WrongType(st, v))
    case Index(n) =>
      if !v.Array? then Err(WrongType(st, v))
      else
        var at := if n < 0 then |v.xs| + n else n;
        Ok([if 0 <= at < |v.xs| then v.xs[at] else Null])
    case Keys =>
      if v.Object? then
        var names := SortStrings(Names(v.fields));
        Ok([Array(seq(|names|, i requires 0 <= i < |names| => String(names[i])))])
      else if v.Array? then Ok([Array(seq(|v.xs|, i => Number(i as real)))])
      else Err(WrongType(st, v))
    case Length =>
      (match v
       case Null => Ok([Number(0.0)])
       case Bool(_) => Err(WrongType(st, v))
       case Number(r) => Ok([Number(if r < 0.0 then -r else r)])
       case String(s) => Ok([Number(|s| as real)])
       case Array(xs) => Ok([Number(|xs| as real)])
       case Object(fields) => Ok([Number(|fields| as real)]))
    case Type => Ok([String(TypeName(v))])
    case Has(key) =>
      var found :- HasKey(v, key);
      Ok([Bool(found)])
  }

  /** The values that one value expands into at one step. */
  function Apply(v: Json, st: Step): Stream
    decreases st, 0
  {
    match st
    case Iterate =>
      if v.Array? then Ok(v.xs)
      else if v.Object? then Ok(Values(v.fields))
      else Err(WrongType(st, v))
    case Select(inner) =>
      var results :- EvalStream(v, inner);
      Ok(Kept(v, results))
    case Map(inner) =>
      if !v.Array? then Err(WrongType(st, v))
      else
        var elements :- Collect(v.xs, inner);
        Ok([Array(elements)])
    case _ => Straight(v, st)
  }

  /** One step over a whole stream. */
  function Spread(results: seq<Json>, st: Step): Stream
    decreases st, 1, |results|
  {
    if results == [] then Ok([])
    else
      var head :- Apply(results[0], st);
      var tail :- Spread(results[1..], st);
      Ok(head + tail)
  }

  /** The steps over a stream, one step at a time. */
  function EvalOn(results: seq<Json>, steps: seq<Step>): Stream
    decreases steps, 0
  {
    if steps == [] then Ok(results)
    else
      var next :- Spread(results, steps[0]);
      EvalOn(next, steps[1..])
  }

  /** `evaluate_stream`: the results of a query on a value. */
  function EvalStream(v: Json, steps: seq<Step>): Stream
    decreases steps, 1
  {
    EvalOn([v], steps)
  }

  /** The results of a query on each value in turn, one value at a time. */
  function Collect(xs: seq<Json>, steps: seq<Step>): Stream
    decreases steps, 2, |xs|
  {
    if xs == [] then Ok([])
    else
      var head :- EvalStream(xs[0], steps);
      var tail :- Collect(xs[1..], steps);
      Ok(head + tail)
  }

  // --- the loops of the source ---

  method EvaluateStream(v: Json, steps: seq<Step>) returns (r: Stream)
    ensures r == EvalStream(v, steps)
    decreases steps, 1
  {
    var results := [v];
    for i := 0 to |steps|
      invariant EvalStream(v, steps) == EvalOn(results, steps[i..])
    {
      var next := [];
      AppendedNil(Spread(results, steps[i]));
      assert results[0..] == results;
      for j := 0 to |results|
        invariant Spread(results, steps[i]) == Appended(next, Spread(results[j..], steps[i]))
      {
        var values := ApplyStep(results[j], steps[i]);
        assert results[j..][1..] == results[j + 1..];
        if values.Err? {
          return Err(values.error);
        }
        AppendedAssociates(next, values.value, Spread(results[j + 1..], steps[i]));
        next := next + values.value;
      }
      assert next + [] == next;
      assert steps[i..][1..] == steps[i + 1..];
      results := next;
    }
    r := Ok(results);
  }

  /** The handler that a step is dispatched to: the ones that repeat something do it in a loop. */
  method ApplyStep(v: Json, st: Step) returns (r: Stream)
    ensures r == Apply(v, st)
    decreases st, 0
  {
    match st {
      case Iterate =>
        if v.Array? {
          return Ok(v.xs);
        }
        if !v.Object? {
          return Err(WrongType(st, v));
        }
        var values := FieldValues(v.fields);
        r := Ok(values);
      case Select(inner) =>
        var results := EvaluateStream(v, inner);
        if results.Err? {
          return results;
        }
        var kept := KeepTruthy(v, results.value);
        r := Ok(kept);
      case Map(inner) =>
        if !v.Array? {
          return Err(WrongType(st, v));
        }
        r := CollectAll(v.xs, inner);
        if r.Ok? {
          r := Ok([Array(r.value)]);
        }
      case _ => r := Straight(v, st);
    }
  }

  /** The values of an object, in input order. */
  method FieldValues(fields: seq<(string, Json)>) returns (values: seq<Json>)
    ensures values == Values(fields)
  {
    values := [];
    for j := 0 to |fields|
      invariant |values| == j
      invariant forall i :: 0 <= i < j ==> values[i] == fields[i].1
    {
      values := values + [fields[j].1];
    }
  }

  /** The comprehension of `select`: the input once for each truthy result. */
  method KeepTruthy(v: Json, results: seq<Json>) returns (kept: seq<Json>)
    ensures kept == Kept(v, results)
  {
    kept := [];
    assert results[0..] == results;
    for j := 0 to |results|
      invariant Kept(v, results) == kept + Kept(v, results[j..])
    {
      assert results[j..][1..] == results[j + 1..];
      if Truthy(results[j]) {
        assert kept + ([v] + Kept(v, results[j + 1..])) == kept + [v] + Kept(v, results[j + 1..]);
        kept := kept + [v];
      } else {
        assert [] + Kept(v, results[j + 1..]) == Kept(v, results[j + 1..]);
      }
    }
    assert kept + [] == kept;
  }

  /** The loop of `map`: all results of the inner query on each element in turn. */
  method CollectAll(xs: seq<Json>, inner: seq<Step>) returns (r: Stream)
    ensures r == Collect(xs, inner)
    decreases inner, 2
  {
    var elements := [];
    AppendedNil(Collect(xs, inner));
    assert xs[0..] == xs;
    for j := 0 to |xs|
      invariant Collect(xs, inner) == Appended(elements, Collect(xs[j..], inner))
    {
      var values := EvaluateStream(xs[j], inner);
      assert xs[j..][1..] == xs[j + 1..];
      if values.Err? {
        return values;
      }
      AppendedAssociates(elements, values.value, Collect(xs[j + 1..], inner));
      elements := elements + values.value;
    }
    assert elements + [] == elements;
    r := Ok(elements);
  }

  function Appended(done: seq<Json>, r: Stream): Stream {
    if r.Ok? then Ok(done + r.value) else r
  }

  lemma AppendedNil(r: Stream)
    ensures Appended([], r) == r
  {
    assert r.Ok? ==> [] + r.value == r.value;
  }

  lemma AppendedAssociates(a: seq<Json>, b: seq<Json>, r: Stream)
    ensures Appended(a, Appended(b, r)) == Appended(a + b, r)
  {
    if r.Ok? {
      assert a + (b + r.value) == a + b + r.value;
    }
  }
}
