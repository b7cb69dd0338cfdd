/**
 Which construct a rejected query names: an operator after an operand, in front of one, and inside
 brackets, for operands in any spelling that parses (jqlite/parser.py).
 */
module JqOperators {
  import opened Results
  import opened Decimal
  import opened JqSyntax
  import opened Text
  import opened JqParser
  import opened JqRoundTrip

  /** The operator that begins the text, symbolic or a word. */
  function Operator(t: string): Option<Construct>
    requires t != ""
  {
    if Classify(t).Some? then Classify(t)
    else if IdentStart(t[0]) && WordOperator(t[..IdentEnd(t)]) then Some(Word(t[..IdentEnd(t)]))
    else None
  }

  predicate AllGap(s: string) {
    forall i :: 0 <= i < |s| ==> IsGap(s[i])
  }

  lemma {:induction false} SkipsGap(gap: string, u: string)
    requires AllGap(gap) && u != "" && !IsGap(u[0])
    ensures SkipGap(gap + u) == u
  {
    if gap == "" {
      assert gap + u == u;
    } else {
      assert (gap + u)[1..] == gap[1..] + u;
      SkipsGap(gap[1..], u);
    }
  }

  lemma {:induction false} StripRightTail(a: string, b: string)
    requires StripRight(b) != ""
    ensures StripRight(a + b) == a + StripRight(b)
  {
    if IsSpace(b[|b| - 1]) {
      assert (a + b)[..|a + b| - 1] == a + b[..|b| - 1];
      StripRightTail(a, b[..|b| - 1]);
    }
  }

  lemma {:induction false} StripRightKeeps(u: string)
    requires u != "" && !IsSpace(u[0])
    ensures StripRight(u) != ""
    ensures |StripRight(u)| < |u| ==> IsSpace(u[|StripRight(u)|])
  {
    if IsSpace(u[|u| - 1]) {
      StripRightKeeps(u[..|u| - 1]);
    }
  }

  lemma {:induction false} IdentEndOfPrefix(t: string, m: nat)
    requires m <= |t|
    requires m < |t| ==> !IdentCont(t[m])
    ensures IdentEnd(t[..m]) == IdentEnd(t)
  {
    if m > 0 && IdentCont(t[0]) {
      assert t[..m][1..] == t[1..][..m - 1];
      IdentEndOfPrefix(t[1..], m - 1);
    }
  }

  /** Stripping the end of the query does not change the operator that is named. */
  lemma OperatorStripped(u: string)
    requires u != "" && Operator(u).Some?
    ensures !IsSpace(u[0])
    ensures var v := StripRight(u); v != "" && v[0] == u[0] && Operator(v) == Operator(u)
  {
    StripRightKeeps(u);
    var m := |StripRight(u)|;
    assert StripRight(u) == u[..m];
    IdentEndOfPrefix(u, m);
    IdentEndMaximal(u);
    assert IdentEnd(u) <= m;
    assert u[..m][..IdentEnd(u)] == u[..IdentEnd(u)];
    if m == 1 {
      assert Classify(u).Some? ==> u[..1] == u[..m][..1];
    } else {
      assert u[..m][..2] == u[..2] && u[..m][..1] == u[..1];
    }
  }

  lemma RejectNames(gap: string, v: string)
    requires AllGap(gap) && v != "" && Operator(v).Some?
    requires gap != "" || Classify(v).Some?
    ensures var t := gap + v;
      t[0] != '.' && t[0] != '[' && t[0] != '(' && !IdentCont(t[0]) && Reject(t) == Unsupported(Operator(v).value)
  {
    assert !IsGap(v[0]);
    SkipsGap(gap, v);
    assert (gap + v)[0] == if gap == "" then v[0] else gap[0];
  }

  // --- what is read does not depend on what follows it ---

  lemma {:induction false} IdentEndMore(t: string, tail: string)
    requires tail == "" || !IdentCont(tail[0]) || IdentEnd(t) < |t|
    ensures IdentEnd(t + tail) == IdentEnd(t)
  {
    if t == "" {
      assert t + tail == tail;
    } else if IdentCont(t[0]) {
      assert (t + tail)[1..] == t[1..] + tail;
      IdentEndMore(t[1..], tail);
    }
  }

  lemma {:induction false} FindBracketMore(t: string, tail: string)
    requires FindBracket(t).Some?
    ensures FindBracket(t + tail) == FindBracket(t)
  {
    if t[0] != ']' {
      assert (t + tail)[1..] == t[1..] + tail;
      FindBracketMore(t[1..], tail);
    }
  }

  lemma {:induction false} CloseParenMore(t: string, tail: string, depth: nat)
    requires depth > 0 && CloseParen(t, depth).Some?
    ensures CloseParen(t + tail, depth) == CloseParen(t, depth)
  {
    if !(t[0] == ')' && depth == 1) {
      assert (t + tail)[1..] == t[1..] + tail;
      CloseParenMore(t[1..], tail, if t[0] == '(' then depth + 1 else if t[0] == ')' then depth - 1 else depth);
    }
  }

  function Longer<T>(r: Result<(T, string), QueryError>, tail: string): Result<(T, string), QueryError>
    requires r.Ok?
  {
    Ok((r.value.0, r.value.1 + tail))
  }

  lemma ReadBracketMore(t: string, tail: string)
    requires t != "" && t[0] == '[' && ReadBracket(t).Ok?
    ensures ReadBracket(t + tail) == Longer(ReadBracket(t), tail)
  {
    FindBracketMore(t, tail);
    var close := FindBracket(t).value;
    assert (t + tail)[1..close] == t[1..close];
    assert (t + tail)[close + 1..] == t[close + 1..] + tail;
  }

  lemma ReadParensMore(t: string, tail: string)
    requires t != "" && t[0] == '(' && ReadParens(t).Ok?
    ensures ReadParens(t + tail) == Longer(ReadParens(t), tail)
  {
    assert (t + tail)[1..] == t[1..] + tail;
    CloseParenMore(t[1..], tail, 1);
    var k := CloseParen(t[1..], 1).value;
    assert (t + tail)[1..1 + k] == t[1..1 + k];
    assert (t + tail)[2 + k..] == t[2 + k..] + tail;
  }

  /** A text that neither continues an identifier nor opens a call. */
  predicate Apart(tail: string) {
    tail == "" || (!IdentCont(tail[0]) && tail[0] != '(')
  }

  /** A text that ends in a bracket or a call, after which anything may follow. */
  predicate Closed(t: string) {
    t != "" && (t[|t| - 1] == ']' || t[|t| - 1] == ')')
  }

  predicate Joins(t: string, tail: string) {
    Apart(tail) || Closed(t)
  }

  lemma NamedStepMore(name: string, after: string, tail: string)
    requires Joins(after, tail) && NamedStep(name, after).Ok?
    ensures NamedStep(name, after + tail) == Longer(NamedStep(name, after), tail)
  {
    if after == "" {
      assert after + tail == tail;
    } else if after[0] == '(' && ReadParens(after).Ok? {
      ReadParensMore(after, tail);
    }
  }

  lemma ClosedName(t: string)
    requires Closed(t)
    ensures IdentEnd(t) < |t| && Closed(t[IdentEnd(t)..])
  {
    IdentEndMaximal(t);
    assert !IdentCont(t[|t| - 1]);
  }

  lemma NameMore(t: string, tail: string)
    requires Joins(t, tail)
    ensures IdentEnd(t + tail) == IdentEnd(t)
    ensures (t + tail)[..IdentEnd(t)] == t[..IdentEnd(t)]
    ensures (t + tail)[IdentEnd(t)..] == t[IdentEnd(t)..] + tail
    ensures Joins(t[IdentEnd(t)..], tail)
  {
    if Closed(t) {
      ClosedName(t);
    }
    IdentEndMore(t, tail);
  }

  lemma ReadNamedMore(t: string, tail: string)
    requires Joins(t, tail) && t != "" && IdentStart(t[0]) && ReadNamed(t).Ok?
    ensures ReadNamed(t + tail) == Longer(ReadNamed(t), tail)
  {
    NameMore(t, tail);
    assert (t + tail)[0] == t[0];
    NamedStepMore(t[..IdentEnd(t)], t[IdentEnd(t)..], tail);
  }

  lemma DottedBracketMore(t: string, tail: string)
    requires |t| > 1 && t[0] == '.' && t[1] == '[' && ReadBracket(t[1..]).Ok?
    ensures ReadStep(t) == ReadBracket(t[1..])
    ensures ReadStep(t + tail) == Longer(ReadStep(t), tail)
  {
    ReadBracketMore(t[1..], tail);
    assert (t + tail)[1..] == t[1..] + tail;
  }

  lemma DottedNameMore(t: string, tail: string)
    requires Joins(t, tail) && |t| > 1 && t[0] == '.' && IdentStart(t[1])
    ensures ReadStep(t).Ok?
    ensures ReadStep(t + tail) == Longer(ReadStep(t), tail)
  {
    TailOfConcat(t, tail);
    assert (t + tail)[1] == t[1];
    NameMore(t[1..], tail);
    DottedName(t);
    DottedName(t + tail);
  }

  lemma ReadStepMore(t: string, tail: string)
    requires Joins(t, tail) && t != "" && t != "." && ReadStep(t).Ok?
    ensures ReadStep(t + tail) == Longer(ReadStep(t), tail)
  {
    StepStarts(t);
    if IdentStart(t[0]) {
      NamedMore(t, tail);
    } else if t[0] == '[' {
      ReadBracketMore(t, tail);
    } else if t[1] == '[' {
      DottedBracketMore(t, tail);
    } else {
      DottedNameMore(t, tail);
    }
  }

  lemma NamedMore(t: string, tail: string)
    requires Joins(t, tail) && t != "" && IdentStart(t[0]) && ReadNamed(t).Ok?
    ensures ReadStep(t) == ReadNamed(t)
    ensures ReadStep(t + tail) == Longer(ReadNamed(t), tail)
  {
    ReadNamedMore(t, tail);
    StartsNamed(t);
    assert (t + tail)[0] == t[0];
    StartsNamed(t + tail);
  }

  predicate SameEnd(rest: string, t: string) {
    rest != "" ==> t != "" && rest[|rest| - 1] == t[|t| - 1]
  }

  lemma NamedStepEnd(name: string, after: string)
    requires NamedStep(name, after).Ok?
    ensures SameEnd(NamedStep(name, after).value.1, after)
  {
  }

  lemma BracketEnd(t: string)
    requires t != "" && t[0] == '[' && ReadBracket(t).Ok?
    ensures SameEnd(ReadBracket(t).value.1, t)
  {
  }

  /** What a step leaves over is the end of the text. */
  lemma StepEnd(t: string)
    requires t != "" && t != "." && ReadStep(t).Ok?
    ensures SameEnd(ReadStep(t).value.1, t)
  {
    StepStarts(t);
    if IdentStart(t[0]) {
      NamedStepEnd(t[..IdentEnd(t)], t[IdentEnd(t)..]);
    } else if t[0] == '[' {
      BracketEnd(t);
    } else if t[1] == '[' {
      BracketEnd(t[1..]);
    } else {
      DottedName(t);
    }
  }

  /** A text that parses is read to its end first, whatever comes after it. */
  lemma {:induction false} ParseStepsMore(t: string, tail: string, first: bool)
    requires (t == "" || Joins(t, tail)) && t != "." && ParseSteps(t, first).Ok?
    ensures ParseSteps(t + tail, first) ==
            Follow(ParseSteps(t, first).value, ParseSteps(tail, first && t == ""))
    decreases |t|
  {
    var r := ParseSteps(tail, first && t == "");
    if t == "" {
      assert t + tail == tail;
      assert r.Ok? ==> [] + r.value == r.value;
    } else {
      var (st, rest) := ReadStep(t).value;
      ReadStepMore(t, tail);
      StepEnd(t);
      ParseOne(t, st, rest, first);
      ParseOne(t + tail, st, rest + tail, first);
      ParseStepsMore(rest, tail, false);
      FollowCons(st, ParseSteps(rest, false).value, r);
    }
  }

  // --- operators after an operand, in front of one and inside one ---

  /** A query text without whitespace around it, which may hold whitespace anywhere else. */
  predicate Stripped(p: string) {
    p != "" && !IsSpace(p[0]) && !IsSpace(p[|p| - 1])
  }

  /**
   An operator after any operand that parses, however it is written, is rejected by its name when the
   operand has at least one step; after the identity query `.` the rejection asks for a field name
   instead. Without a gap an operator word would run into an operand that does not end in a bracket or a call.
   */
  lemma OperatorNamed(p: string, gap: string, u: string)
    requires Stripped(p) && ParseQuery(p).Ok? && AllGap(gap)
    requires u != "" && Operator(u).Some? && (gap != "" || Classify(u).Some? || Closed(p))
    ensures ParseQuery(p + gap + u) ==
            Err(if ParseQuery(p).value == [] then ExpectedFieldName else Unsupported(Operator(u).value))
  {
    var v := StripRight(u);
    TightIsStripped(p);
    OperatorStripped(u);
    OperatorFails(gap, v);
    StrippedTogether(p, gap, u);
    if p == "." {
      DotThen(gap + v);
    } else {
      OperandThen(p, gap + v, Unsupported(Operator(u).value));
    }
  }

  lemma StrippedTogether(p: string, gap: string, u: string)
    requires Stripped(p) && (p[0] == '.' || IdentStart(p[0])) && StripRight(u) != ""
    ensures ParseQuery(p + gap + u) == ParseSteps(p + (gap + StripRight(u)), true)
  {
    StripRightTail(gap, u);
    StripRightTail(p, gap + u);
    QueryTail(p, gap + u);
    Regroup(p, gap, u);
  }

  lemma DotThen(t: string)
    requires t != "" && t[0] != '.' && t[0] != '[' && !IdentStart(t[0])
    ensures ParseSteps("." + t, true) == Err(ExpectedFieldName)
  {
    assert ("." + t)[1] == t[0];
  }

  lemma OperandThen(p: string, t: string, e: QueryError)
    requires p != "" && p != "." && Joins(p, t) && ParseSteps(p, true).Ok? && ParseSteps(t, false) == Err(e)
    ensures ParseSteps(p + t, true) == Err(e) && ParseSteps(p, true).value != []
  {
    ParseStepsMore(p, t, true);
    NoStepsIsDot(p);
  }

  lemma OperatorFails(gap: string, v: string)
    requires AllGap(gap) && v != "" && Operator(v).Some?
    ensures var t := gap + v;
            && t != "" && t[0] != '.' && t[0] != '[' && ParseSteps(t, false) == Err(Unsupported(Operator(v).value))
            && (gap != "" || Classify(v).Some? ==> Apart(t) && !IdentStart(t[0]))
  {
    if gap != "" || Classify(v).Some? {
      RejectNames(gap, v);
      ParseRejected(gap + v);
    } else {
      assert gap + v == v;
      WordFails(v);
    }
  }

  lemma WordFails(v: string)
    requires v != "" && Operator(v).Some? && Classify(v).None?
    ensures v[0] != '.' && v[0] != '[' && ReadStep(v) == Err(Unsupported(Operator(v).value))
    ensures v != "." && ParseSteps(v, false) == Err(Unsupported(Operator(v).value))
  {
    var n := IdentEnd(v);
    assert NamedStep(v[..n], v[n..]) == Err(Unsupported(Word(v[..n])));
    StartsNamed(v);
  }

  lemma NoStepsIsDot(p: string)
    requires p != "" && p != "." && ParseSteps(p, true).Ok?
    ensures ParseSteps(p, true).value != []
  {
    assert ReadStep(p).Ok?;
  }

  lemma OperatorIsKept(v: string)
    requires v != "" && !IsSpace(v[0]) && StripRight(v) == v && Operator(v).Some?
    ensures ParseQuery(v) == Err(Unsupported(Operator(v).value))
  {
    assert StripLeft(v) == v;
    if Classify(v).None? {
      WordFails(v);
    }
  }

  /** An operator with no operand in front of it is rejected by its name too. */
  lemma LeadingOperatorNamed(u: string)
    requires u != "" && Operator(u).Some?
    ensures ParseQuery(u) == Err(Unsupported(Operator(u).value))
  {
    var v := StripRight(u);
    OperatorStripped(u);
    assert StripLeft(u) == u;
    StripTwice(u);
    assert StripLeft(v) == v;
    OperatorIsKept(v);
    assert Strip(u) == Strip(v);
  }

  lemma {:induction false} StripTwice(u: string)
    ensures StripRight(StripRight(u)) == StripRight(u)
  {
    if u != "" && IsSpace(u[|u| - 1]) {
      StripTwice(u[..|u| - 1]);
    }
  }

  lemma IndexRejected(w: string)
    requires ']' !in w && Strip(w) != "" && PyInt(Strip(w)) == None
    ensures ReadBracket("[" + w + "]" + "") == Err(BadIndex(Strip(w)))
  {
    FindBracketStops("[" + w, "");
    assert ("[" + w + "]" + "")[1..1 + |w|] == w;
  }

  lemma StepRejected(t: string, e: QueryError)
    requires t != "" && t != "." && t[0] == '.' && !IsSpace(t[|t| - 1]) && ReadStep(t) == Err(e)
    ensures ParseQuery(t) == Err(e)
  {
    TightIsStripped(t);
  }

  /** What stands between brackets is only ever read as an index: an operator there is not named. */
  lemma OperatorInBracket(w: string)
    requires ']' !in w && Strip(w) != "" && PyInt(Strip(w)) == None
    ensures ParseQuery("." + ("[" + w + "]")) == Err(BadIndex(Strip(w)))
  {
    var b := "[" + w + "]";
    IndexRejected(w);
    DottedBracket(b, "");
    assert "." + b + "" == "." + b && b + "" == b;
    StepRejected("." + b, BadIndex(Strip(w)));
  }

  lemma QueryTail(p: string, tail: string)
    requires p != "" && !IsSpace(p[0]) && (p[0] == '.' || IdentStart(p[0])) && StripRight(p + tail) != ""
    ensures ParseQuery(p + tail) == ParseSteps(StripRight(p + tail), true)
  {
    assert (p + tail)[0] == p[0];
    assert StripLeft(p + tail) == p + tail;
    assert StripRight(p + tail)[0] == p[0];
  }

  lemma ParseRejected(t: string)
    requires t != "" && t[0] != '.' && t[0] != '[' && !IdentStart(t[0])
    ensures ParseSteps(t, false) == Err(Reject(t))
  {
    assert t != ".";
  }
}
