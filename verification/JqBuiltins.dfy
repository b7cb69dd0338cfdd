/** What the single steps answer, told through one another and through the values they read (jqlite/eval.py). */
module JqBuiltins {
  import opened Results
  import opened Ordering
  import opened JqSyntax
  import opened JqEval
  import opened JqLaws

  /** The single answer of a one-step query, if it has one. */
  function Answer(v: Json, st: Step): Option<Json> {
    match EvalStream(v, [st])
    case Ok(rs) => if |rs| == 1 then Some(rs[0]) else None
    case Err(_) => None
  }

  lemma AnswerIs(v: Json, st: Step)
    ensures EvalStream(v, [st]) == Apply(v, st)
  {
    OneStep(v, st);
  }

  /** Whether `value` is listed by `keys`. */
  predicate Listed(v: Json, value: Json) {
    match Answer(v, Keys)
    case Some(Array(ks)) => value in ks
    case _ => false
  }

  /** Whether `value` stands at position `i` of what `keys` lists. */
  predicate ListedAt(v: Json, value: Json, i: int) {
    match Answer(v, Keys)
    case Some(Array(ks)) => 0 <= i < |ks| && ks[i] == value
    case _ => false
  }

  lemma NamesSorted(fields: seq<(string, Json)>, name: string)
    ensures name in SortStrings(Names(fields)) <==> name in Names(fields)
    ensures name in Names(fields) <==> exists i :: 0 <= i < |fields| && fields[i].0 == name
  {
    SortSorts(Names(fields));
    var names, sorted := Names(fields), SortStrings(Names(fields));
    assert name in sorted <==> name in multiset(sorted);
    assert name in names <==> name in multiset(names);
    if name in names {
      var i :| 0 <= i < |names| && names[i] == name;
      assert fields[i].0 == name;
    }
    forall i | 0 <= i < |fields| && fields[i].0 == name ensures name in names {
      assert names[i] == name;
    }
  }

  /** `has(k)` of an object says whether `keys` lists the name, and that is whether a field has it. */
  lemma HasName(fields: seq<(string, Json)>, name: string)
    ensures var v := Object(fields);
            && Answer(v, Has(StrKey(name))) == Some(Bool(Listed(v, String(name))))
            && (Listed(v, String(name)) <==> exists i :: 0 <= i < |fields| && fields[i].0 == name)
  {
    var v, names := Object(fields), SortStrings(Names(fields));
    AnswerIs(v, Has(StrKey(name)));
    AnswerIs(v, Keys);
    NamesSorted(fields, name);
    var ks := seq(|names|, i requires 0 <= i < |names| => String(names[i]));
    assert Answer(v, Keys) == Some(Array(ks));
    if name in names {
      var i :| 0 <= i < |names| && names[i] == name;
      assert ks[i] == String(name);
    }
  }

  /** `has(n)` of an array says whether `keys` lists the index, in its place, and that is whether it has such an element. */
  lemma HasIndex(xs: seq<Json>, n: int)
    ensures var v := Array(xs);
            && Answer(v, Has(IntKey(n))) == Some(Bool(Listed(v, Number(n as real))))
            && (Listed(v, Number(n as real)) <==> 0 <= n < |xs|)
            && (ListedAt(v, Number(n as real), n) <==> 0 <= n < |xs|)
  {
    var v := Array(xs);
    AnswerIs(v, Has(IntKey(n)));
    AnswerIs(v, Keys);
    var ks := seq(|xs|, i => Number(i as real));
    assert Answer(v, Keys) == Some(Array(ks));
    if 0 <= n < |xs| {
      assert ks[n] == Number(n as real);
    }
  }

  /** `.name` is the value of the first field of that name, and null without one. */
  lemma FieldFinds(fields: seq<(string, Json)>, name: string, i: nat)
    requires i <= |fields| && forall j :: 0 <= j < i ==> fields[j].0 != name
    requires i < |fields| ==> fields[i].0 == name
    ensures Answer(Object(fields), Field(name)) == Some(if i < |fields| then fields[i].1 else Null)
  {
    AnswerIs(Object(fields), Field(name));
    LookupFinds(fields, name, i);
  }

  lemma {:induction false} LookupFinds(fields: seq<(string, Json)>, name: string, i: nat)
    requires i <= |fields| && forall j :: 0 <= j < i ==> fields[j].0 != name
    requires i < |fields| ==> fields[i].0 == name
    ensures Lookup(fields, name) == if i < |fields| then fields[i].1 else Null
  {
    if i > 0 {
      LookupFinds(fields[1..], name, i - 1);
    }
  }

  /** An element is found by its index from the front and from the end, and there is null at any other index. */
  lemma IndexFinds(xs: seq<Json>, n: int)
    ensures 0 <= n < |xs| ==> Answer(Array(xs), Index(n)) == Answer(Array(xs), Index(n - |xs|)) == Some(xs[n])
    ensures n < -|xs| || n >= |xs| ==> Answer(Array(xs), Index(n)) == Some(Null)
  {
    AnswerIs(Array(xs), Index(n));
    AnswerIs(Array(xs), Index(n - |xs|));
  }

  /** `length` counts what `keys` lists, and the characters of a string; a number gives its magnitude. */
  lemma LengthCounts(v: Json)
    ensures match Answer(v, Keys)
            case Some(Array(ks)) => Answer(v, Length) == Some(Number(|ks| as real))
            case Some(_) => false
            case None => !v.Array? && !v.Object?
    ensures v.String? ==> Answer(v, Length) == Some(Number(|v.s| as real))
    ensures v.Null? ==> Answer(v, Length) == Some(Number(0.0))
    ensures v.Number? ==> exists m :: m >= 0.0 && (m == v.r || m == -v.r) && Answer(v, Length) == Some(Number(m))
  {
    AnswerIs(v, Keys);
    AnswerIs(v, Length);
    if v.Object? {
      var names := SortStrings(Names(v.fields));
      SortSorts(Names(v.fields));
      assert |multiset(names)| == |names| && |multiset(Names(v.fields))| == |v.fields|;
    }
    if v.Number? {
      var m := if v.r < 0.0 then -v.r else v.r;
      assert m >= 0.0 && Answer(v, Length) == Some(Number(m));
    }
  }

  /** `type` names the kind of a value, one name for each. */
  lemma TypeNames(v: Json)
    ensures Answer(v, Type).Some? && Answer(v, Type).value.String?
    ensures Answer(v, Type) == Some(String("null")) <==> v.Null?
    ensures Answer(v, Type) == Some(String("boolean")) <==> v.Bool?
    ensures Answer(v, Type) == Some(String("number")) <==> v.Number?
    ensures Answer(v, Type) == Some(String("string")) <==> v.String?
    ensures Answer(v, Type) == Some(String("array")) <==> v.Array?
    ensures Answer(v, Type) == Some(String("object")) <==> v.Object?
  {
    AnswerIs(v, Type);
    assert "null"[1] == 'u' && "number"[1] == 'u' && "null"[0] == "number"[0] && |"null"| != |"number"|;
  }

  /** `select(.)` keeps every value but null and false. */
  lemma SelectDrops(v: Json)
    ensures EvalStream(v, [Select([])]) == Ok(if v == Null || v == Bool(false) then [] else [v])
  {
    AnswerIs(v, Select([]));
    assert EvalStream(v, []) == Ok([v]);
    assert [v][1..] == [] && [v] + [] == [v];
    assert Kept(v, [v]) == (if Truthy(v) then [v] else []) + Kept(v, []);
  }

  /** The values a step without an inner query is made for. */
  predicate MadeFor(st: Step, v: Json) {
    match st
    case Field(_) => v.Object?
    case Index(_) => v.Array?
    case Iterate => v.Array? || v.Object?
    case Keys => v.Array? || v.Object?
    case Length => !v.Bool?
    case Has(key) => if key.StrKey? then v.Object? else v.Array?
    case _ => true
  }

  /** Such a step fails exactly on the values it is not made for, and names itself and the value or its key. */
  lemma FailsExactly(v: Json, st: Step)
    requires !st.Select? && !st.Map?
    ensures EvalStream(v, [st]).Ok? <==> MadeFor(st, v)
    ensures !MadeFor(st, v) ==>
              EvalStream(v, [st]) == Err(if st.Has? && (v.Object? || v.Array?) then WrongKeyType(st.key, v) else WrongType(st, v))
  {
    AnswerIs(v, st);
  }

  /** `[]` gives the elements of an array and the values of an object, in order. */
  lemma IterateGives(v: Json, rs: seq<Json>)
    requires EvalStream(v, [Iterate]) == Ok(rs)
    ensures v.Array? ==> rs == v.xs
    ensures v.Object? ==> |rs| == |v.fields| && forall i :: 0 <= i < |rs| ==> rs[i] == v.fields[i].1
  {
    AnswerIs(v, Iterate);
  }

  lemma {:induction false} CollectPlaces(xs: seq<Json>, f: seq<Step>, ys: seq<Json>)
    requires |ys| == |xs| && forall i :: 0 <= i < |xs| ==> EvalStream(xs[i], f) == Ok([ys[i]])
    ensures Collect(xs, f) == Ok(ys)
  {
    if xs != [] {
      CollectPlaces(xs[1..], f, ys[1..]);
      assert [ys[0]] + ys[1..] == ys;
    }
  }

  /** A query with one result for each element of an array maps it place by place, as an array or as a stream. */
  lemma MapPlaces(xs: seq<Json>, f: seq<Step>, ys: seq<Json>)
    requires |ys| == |xs| && forall i :: 0 <= i < |xs| ==> EvalStream(xs[i], f) == Ok([ys[i]])
    ensures EvalStream(Array(xs), [Map(f)]) == Ok([Array(ys)])
    ensures EvalStream(Array(xs), [Iterate] + f) == Ok(ys)
  {
    CollectPlaces(xs, f, ys);
    AnswerIs(Array(xs), Map(f));
    MapIsIterate(xs, f);
  }
}
