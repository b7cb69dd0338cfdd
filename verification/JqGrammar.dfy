/** The query language as a grammar, and that the parser recognizes exactly its texts (jqlite/parser.py). */
module JqGrammar {
  import opened Results
  import opened Decimal
  import opened JqSyntax
  import opened Text
  import opened JqParser
  import opened JqRoundTrip
  import opened JqCalls
  import opened JqBlanks

  // --- the grammar ---

  /** `[x]` or `.[x]`, where `x` holds no closing bracket. */
  predicate Bracketed(u: string, x: string) {
    ']' !in x && (u == "[" + x + "]" || u == "." + ("[" + x + "]"))
  }

  /** A call whose argument has balanced parentheses. */
  ghost predicate Calls(u: string, name: string, x: string) {
    u == Call(name, x) && Neutral(x)
  }

  /** The text of one step. */
  ghost predicate Spells(u: string, st: Step)
    decreases |u|, 0
  {
    match st
    case Field(name) => IsIdent(name) && u == "." + name
    case Index(n) => exists x :: Bracketed(u, x) && Strip(x) != "" && PyInt(Strip(x)) == Some(n)
    case Iterate => exists x :: Bracketed(u, x) && Strip(x) == ""
    case Keys => u == "keys"
    case Length => u == "length"
    case Type => u == "type"
    case Has(key) => exists x :: Calls(u, "has", x) && ParseHasArg(x) == Ok(key)
    case Select(inner) => exists x :: |x| < |u| && Calls(u, "select", x) && IsQuery(x, inner)
    case Map(inner) => exists x :: |x| < |u| && Calls(u, "map", x) && IsQuery(x, inner)
  }

  /** A text after `u` does not prolong an identifier that `u` ends in. */
  predicate Ends(u: string, rest: string) {
    u != "" && rest != "" && IdentCont(u[|u| - 1]) ==> !IdentCont(rest[0])
  }

  /** The text is that of the step and then the rest. */
  ghost predicate Front(t: string, u: string, st: Step, rest: string)
    decreases |t|, 1
  {
    t == u + rest && u != "" && Ends(u, rest) && Spells(u, st)
  }

  /** The texts of the steps, one right after another. */
  ghost predicate AreSteps(t: string, steps: seq<Step>)
    decreases |t|, 2
  {
    if steps == [] then t == ""
    else exists u, rest :: Front(t, u, steps[0], rest) && AreSteps(rest, steps[1..])
  }

  /** `.` alone, or steps of which the first has a dot or a name in front, with any spaces around. */
  ghost predicate IsQuery(q: string, steps: seq<Step>)
    decreases |q|, 3
  {
    var s := Strip(q);
    (s == "." && steps == []) || (steps != [] && (s != "" ==> s[0] != '[') && AreSteps(s, steps))
  }

  // --- what the parser accepts is in the grammar ---

  lemma {:induction false} FindBracketFirst(t: string)
    ensures match FindBracket(t) case None => true case Some(k) => ']' !in t[..k]
  {
    if t != "" && t[0] != ']' {
      FindBracketFirst(t[1..]);
      if FindBracket(t).Some? {
        var k := FindBracket(t).value;
        assert t[..k] == [t[0]] + t[1..][..k - 1];
      }
    }
  }

  lemma BracketSplits(t: string) returns (x: string)
    requires t != "" && t[0] == '[' && ReadBracket(t).Ok?
    ensures ']' !in x && t == "[" + x + "]" + ReadBracket(t).value.1
    ensures ReadBracket(t).value.0 ==
            if Strip(x) == "" then Iterate else if PyInt(Strip(x)).Some? then Index(PyInt(Strip(x)).value) else Iterate
    ensures Strip(x) != "" ==> PyInt(Strip(x)).Some?
  {
    var close := FindBracket(t).value;
    FindBracketFirst(t);
    x := t[1..close];
    assert forall c :: c in x ==> c in t[..close];
    assert t == "[" + x + "]" + t[close + 1..];
  }

  lemma {:induction false} DepthShifts(x: string, d: nat, e: nat, m: nat)
    requires Depth(x, d) == Some(e)
    ensures Depth(x, d + m) == Some(e + m)
  {
    if x != "" {
      DepthShifts(x[1..], if x[0] == '(' then d + 1 else if x[0] == ')' then d - 1 else d, e, m);
    }
  }

  lemma {:induction false} CloseIsBalanced(t: string, d: nat)
    requires CloseParen(t, d + 1).Some?
    ensures Depth(t[..CloseParen(t, d + 1).value], d) == Some(0)
  {
    var k := CloseParen(t, d + 1).value;
    if !(t[0] == ')' && d == 0) {
      CloseIsBalanced(t[1..], if t[0] == '(' then d + 1 else if t[0] == ')' then d - 1 else d);
      assert t[..k][1..] == t[1..][..k - 1];
    }
  }

  lemma ParensSplit(t: string)
    requires t != "" && t[0] == '(' && ReadParens(t).Ok?
    ensures Neutral(ReadParens(t).value.0) && t == "(" + ReadParens(t).value.0 + ")" + ReadParens(t).value.1
  {
    var k := CloseParen(t[1..], 1).value;
    var x := t[1..1 + k];
    CloseIsBalanced(t[1..], 0);
    assert t[1..][..k] == x;
    forall d: nat ensures Depth(x, d) == Some(d) {
      DepthShifts(x, 0, 0, d);
    }
    assert t[1 + k] == t[1..][k];
    assert t == "(" + x + ")" + t[2 + k..];
  }

  /** On texts shorter than `m` parser and grammar agree. */
  ghost predicate Agree(m: nat) {
    forall x, steps :: |x| < m ==> (IsQuery(x, steps) <==> ParseQuery(x) == Ok(steps))
  }

  lemma BracketSpelled(u: string, x: string, st: Step)
    requires Bracketed(u, x)
    requires if Strip(x) == "" then st == Iterate else PyInt(Strip(x)).Some? && st == Index(PyInt(Strip(x)).value)
    ensures Spells(u, st)
  {
  }

  /** A step is read with `rest` left over, behind its own text. */
  ghost predicate ReadsIn(t: string, r: Result<(Step, string), QueryError>) {
    r.Ok? && exists u :: Front(t, u, r.value.0, r.value.1)
  }

  lemma BracketFront(d: string, x: string, st: Step, rest: string)
    requires (d == "" || d == ".") && ']' !in x
    requires if Strip(x) == "" then st == Iterate else PyInt(Strip(x)).Some? && st == Index(PyInt(Strip(x)).value)
    ensures Front(d + ("[" + x + "]" + rest), d + ("[" + x + "]"), st, rest)
  {
    var b := "[" + x + "]";
    assert d == "" ==> d + b == b;
    BracketSpelled(d + b, x, st);
    Regroup(d, b, rest);
  }

  lemma BracketReads(d: string, t: string)
    requires (d == "" || d == ".") && t != "" && t[0] == '[' && ReadBracket(t).Ok?
    ensures ReadsIn(d + t, ReadBracket(t))
  {
    var x := BracketSplits(t);
    BracketFront(d, x, ReadBracket(t).value.0, ReadBracket(t).value.1);
  }

  lemma FieldFront(name: string, rest: string)
    requires IsIdent(name) && (rest == "" || !IdentCont(rest[0]))
    ensures Front("." + (name + rest), "." + name, Field(name), rest)
  {
    assert "." + (name + rest) == "." + name + rest;
  }

  lemma FieldReads(w: string)
    requires w != "" && IdentStart(w[0])
    ensures ReadsIn("." + w, Ok((Field(w[..IdentEnd(w)]), w[IdentEnd(w)..])))
  {
    var n := IdentEnd(w);
    IdentIsIdent(w);
    assert w == w[..n] + w[n..];
    FieldFront(w[..n], w[n..]);
  }

  lemma DotReads(w: string)
    requires w != "" && (w[0] == '[' || IdentStart(w[0])) && ReadStep("." + w).Ok?
    ensures ReadsIn("." + w, ReadStep("." + w))
  {
    var t := "." + w;
    assert t[1..] == w;
    if w[0] == '[' {
      StepStarts(t);
      BracketReads(".", w);
    } else {
      DottedName(t);
      FieldReads(w);
    }
  }

  lemma NullaryReads(name: string, after: string, st: Step)
    requires after != "" ==> !IdentCont(after[0])
    requires (st == Keys && name == "keys") || (st == Length && name == "length") || (st == Type && name == "type")
    ensures ReadsIn(name + after, Ok((st, after)))
  {
    assert Front(name + after, name, st, after);
  }

  /** What a call of the name with this argument means. */
  ghost predicate Argument(name: string, x: string, st: Step) {
    match st
    case Has(key) => name == "has" && ParseHasArg(x) == Ok(key)
    case Select(inner) => name == "select" && IsQuery(x, inner)
    case Map(inner) => name == "map" && IsQuery(x, inner)
    case _ => false
  }

  lemma CallReads(t: string, name: string, x: string, rest: string, st: Step)
    requires t == name + ("(" + x + ")" + rest) && Neutral(x) && Argument(name, x, st)
    ensures ReadsIn(t, Ok((st, rest)))
  {
    var u := Call(name, x);
    assert t == u + rest;
    assert Calls(u, name, x) && |x| < |u|;
    assert Front(t, u, st, rest);
  }

  /** A call that is read gets its meaning from its argument. */
  lemma CalledArgument(name: string, after: string, m: nat)
    requires name != "keys" && name != "length" && name != "type" && NamedStep(name, after).Ok?
    requires Agree(m) && |after| <= m
    ensures after != "" && after[0] == '(' && ReadParens(after).Ok?
    ensures NamedStep(name, after).value.1 == ReadParens(after).value.1
    ensures Argument(name, ReadParens(after).value.0, NamedStep(name, after).value.0)
  {
  }

  lemma NullaryStep(name: string, after: string)
    requires name == "keys" || name == "length" || name == "type"
    requires NamedStep(name, after).Ok?
    ensures NamedStep(name, after) ==
            Ok((if name == "keys" then Keys else if name == "length" then Length else Type, after))
  {
  }

  lemma NameReads(name: string, after: string)
    requires NamedStep(name, after).Ok? && Agree(|after|) && (after != "" ==> !IdentCont(after[0]))
    ensures ReadsIn(name + after, NamedStep(name, after))
  {
    var r := NamedStep(name, after);
    if name == "keys" || name == "length" || name == "type" {
      NullaryStep(name, after);
      NullaryReads(name, after, r.value.0);
    } else {
      CalledArgument(name, after, |after|);
      ParensSplit(after);
      CallReads(name + after, name, ReadParens(after).value.0, r.value.1, r.value.0);
    }
  }

  lemma NameSplits(t: string) returns (name: string, after: string)
    requires t != "" && IdentStart(t[0])
    ensures t == name + after && ReadNamed(t) == NamedStep(name, after) && |after| < |t|
    ensures after != "" ==> !IdentCont(after[0])
  {
    name, after := t[..IdentEnd(t)], t[IdentEnd(t)..];
    IdentIsIdent(t);
  }

  lemma NamedReads(t: string)
    requires t != "" && IdentStart(t[0]) && ReadNamed(t).Ok? && Agree(|t|)
    ensures ReadsIn(t, ReadNamed(t))
  {
    var name, after := NameSplits(t);
    NameReads(name, after);
  }

  /** What is read as a step is its text. */
  lemma StepReads(t: string)
    requires t != "" && t != "." && ReadStep(t).Ok? && Agree(|t|)
    ensures ReadsIn(t, ReadStep(t))
  {
    StepStarts(t);
    if IdentStart(t[0]) {
      NamedReads(t);
    } else if t[0] == '[' {
      BracketReads("", t);
      assert "" + t == t;
    } else {
      assert "." + t[1..] == t;
      DotReads(t[1..]);
    }
  }

  // --- what is in the grammar is accepted ---

  predicate Starts(t: string) {
    t == "" || t[0] == '.' || t[0] == '[' || IdentStart(t[0])
  }

  lemma SpelledStarts(u: string, st: Step)
    requires Spells(u, st)
    ensures u != "" && u != "." && Starts(u)
  {
  }

  lemma StepsStart(t: string, steps: seq<Step>)
    requires AreSteps(t, steps)
    ensures Starts(t) && t != "." && (t == "" <==> steps == [])
  {
    if steps != [] {
      var u, rest :| Front(t, u, steps[0], rest) && AreSteps(rest, steps[1..]);
      SpelledStarts(u, steps[0]);
      assert t[0] == u[0];
    }
  }

  lemma BracketAccepted(u: string, x: string, rest: string, st: Step)
    requires Bracketed(u, x)
    requires if Strip(x) == "" then st == Iterate else PyInt(Strip(x)).Some? && st == Index(PyInt(Strip(x)).value)
    ensures u + rest != "" && u + rest != "." && ReadStep(u + rest) == Ok((st, rest))
  {
    var b := "[" + x + "]";
    BracketRead(x, rest);
    if u == b {
      assert (b + rest)[0] == '[';
    } else {
      DottedBracket(b, rest);
    }
  }

  lemma NameAccepted(u: string, rest: string, st: Step)
    requires (st == Keys && u == "keys") || (st == Length && u == "length") || (st == Type && u == "type")
    requires rest != "" ==> !IdentCont(rest[0]) && rest[0] != '('
    ensures u + rest != "" && u + rest != "." && ReadStep(u + rest) == Ok((st, rest))
  {
    NameFirst(u, rest);
  }

  lemma NameFirst(name: string, after: string)
    requires IsIdent(name) && (after == "" || !IdentCont(after[0]))
    ensures name + after != "" && name + after != "." && ReadStep(name + after) == NamedStep(name, after)
  {
    NameRead(name, after);
    assert (name + after)[0] == name[0];
    StartsNamed(name + after);
  }

  lemma ArgumentAccepted(name: string, after: string, x: string, rest: string, st: Step)
    requires after != "" && after[0] == '(' && ReadParens(after) == Ok((x, rest))
    requires Argument(name, x, st) && Agree(|x| + 1)
    ensures NamedStep(name, after) == Ok((st, rest))
  {
    CalledStep(after, x, rest);
  }

  lemma CallThen(name: string, x: string, rest: string)
    ensures Call(name, x) + rest == name + ("(" + x + ")" + rest)
  {
  }

  lemma CallIsIdent(name: string)
    requires name == "has" || Filter(name)
    ensures IsIdent(name)
  {
  }

  lemma CallAccepted(u: string, name: string, x: string, rest: string, st: Step)
    requires (name == "has" || Filter(name)) && Calls(u, name, x) && Argument(name, x, st) && Agree(|u|)
    ensures u + rest != "" && u + rest != "." && ReadStep(u + rest) == Ok((st, rest))
  {
    var after := "(" + x + ")" + rest;
    CallIsIdent(name);
    CallThen(name, x, rest);
    ParensRead(x, rest);
    ArgumentAccepted(name, after, x, rest, st);
    NameFirst(name, after);
  }

  lemma IndexAccepted(u: string, rest: string, st: Step)
    requires (st.Index? || st.Iterate?) && Spells(u, st)
    ensures u + rest != "" && u + rest != "." && ReadStep(u + rest) == Ok((st, rest))
  {
    var x :| Bracketed(u, x) && if st.Iterate? then Strip(x) == "" else Strip(x) != "" && PyInt(Strip(x)) == Some(st.n);
    BracketAccepted(u, x, rest, st);
  }

  lemma HasAccepted(u: string, rest: string, key: Key)
    requires Spells(u, Has(key)) && Agree(|u|)
    ensures u + rest != "" && u + rest != "." && ReadStep(u + rest) == Ok((Has(key), rest))
  {
    var x :| Calls(u, "has", x) && ParseHasArg(x) == Ok(key);
    CallAccepted(u, "has", x, rest, Has(key));
  }

  lemma SelectAccepted(u: string, rest: string, inner: seq<Step>)
    requires Spells(u, Select(inner)) && Agree(|u|)
    ensures u + rest != "" && u + rest != "." && ReadStep(u + rest) == Ok((Select(inner), rest))
  {
    var x :| |x| < |u| && Calls(u, "select", x) && IsQuery(x, inner);
    CallAccepted(u, "select", x, rest, Select(inner));
  }

  lemma MapAccepted(u: string, rest: string, inner: seq<Step>)
    requires Spells(u, Map(inner)) && Agree(|u|)
    ensures u + rest != "" && u + rest != "." && ReadStep(u + rest) == Ok((Map(inner), rest))
  {
    var x :| |x| < |u| && Calls(u, "map", x) && IsQuery(x, inner);
    CallAccepted(u, "map", x, rest, Map(inner));
  }

  lemma FieldAccepted(u: string, rest: string, st: Step)
    requires st.Field? && Spells(u, st) && Ends(u, rest) && Starts(rest)
    ensures u + rest != "" && u + rest != "." && ReadStep(u + rest) == Ok((st, rest))
  {
    assert u[|u| - 1] == st.name[|st.name| - 1];
    FieldRead(st.name, rest);
  }

  /** The text of a step is read as that step where another step, or nothing, follows. */
  lemma StepAccepted(t: string, u: string, st: Step, rest: string)
    requires Front(t, u, st, rest) && Starts(rest) && Agree(|u|)
    ensures t != "" && t != "." && ReadStep(t) == Ok((st, rest))
  {
    if st.Field? {
      FieldAccepted(u, rest, st);
    } else if st.Index? || st.Iterate? {
      IndexAccepted(u, rest, st);
    } else if st.Has? {
      HasAccepted(u, rest, st.key);
    } else if st.Select? {
      SelectAccepted(u, rest, st.inner);
    } else if st.Map? {
      MapAccepted(u, rest, st.inner);
    } else {
      NameAccepted(u, rest, st);
    }
  }

  // --- the parser is the grammar ---

  lemma ParsesFront(t: string, st: Step, rest: string, more: seq<Step>)
    requires t != "" && t != "." && ReadStep(t) == Ok((st, rest)) && ParseSteps(rest, false) == Ok(more)
    ensures ParseSteps(t, false) == Ok([st] + more)
  {
    ParseOne(t, st, rest, false);
  }

  lemma FrontAccepted(t: string, steps: seq<Step>) returns (rest: string)
    requires Agree(|t|) && AreSteps(t, steps) && steps != []
    ensures |rest| < |t| && AreSteps(rest, steps[1..])
    ensures t != "." && ReadStep(t) == Ok((steps[0], rest))
  {
    var u: string;
    u, rest :| Front(t, u, steps[0], rest) && AreSteps(rest, steps[1..]);
    StepsStart(rest, steps[1..]);
    StepAccepted(t, u, steps[0], rest);
  }

  lemma {:induction false} StepsAccepted(t: string, steps: seq<Step>)
    requires Agree(|t|) && AreSteps(t, steps)
    ensures ParseSteps(t, false) == Ok(steps)
    decreases |t|
  {
    if steps == [] {
      NoMore();
    } else {
      var rest := FrontAccepted(t, steps);
      StepsAccepted(rest, steps[1..]);
      ParsesFront(t, steps[0], rest, steps[1..]);
      assert [steps[0]] + steps[1..] == steps;
    }
  }

  lemma SplitParse(t: string, first: bool)
    requires t != "" && t != "." && ParseSteps(t, first).Ok?
    ensures ReadStep(t).Ok?
    ensures var (st, rest) := ReadStep(t).value;
            ParseSteps(rest, false).Ok? && ParseSteps(t, first) == Ok([st] + ParseSteps(rest, false).value)
  {
  }

  lemma {:induction false} StepsRecognized(t: string, first: bool)
    requires Agree(|t|) && ParseSteps(t, first).Ok? && t != "."
    ensures AreSteps(t, ParseSteps(t, first).value)
    decreases |t|
  {
    if t != "" {
      SplitParse(t, first);
      var (st, rest) := ReadStep(t).value;
      StepReads(t);
      var u :| Front(t, u, st, rest);
      assert rest != "." by {
        DotIsNoStep();
      }
      StepsRecognized(rest, false);
      var steps := ParseSteps(t, first).value;
      assert steps[0] == st && steps[1..] == ParseSteps(rest, false).value;
    }
  }

  lemma DotIsNoStep()
    ensures ParseSteps(".", false) == Err(TrailingDot)
  {
  }

  lemma QueryOnce(q: string)
    requires Strip(q) != "" && (Strip(q)[0] == '.' || IdentStart(Strip(q)[0]))
    ensures ParseQuery(q) == ParseSteps(Strip(q), true)
  {
  }

  lemma DotIsIdentity()
    ensures ParseSteps(".", true) == Ok([])
  {
  }

  lemma FirstStep(t: string)
    requires t != "."
    ensures ParseSteps(t, true) == ParseSteps(t, false)
  {
  }

  lemma QueryAgrees(q: string, steps: seq<Step>)
    requires Agree(|q|)
    ensures IsQuery(q, steps) <==> ParseQuery(q) == Ok(steps)
  {
    var s := Strip(q);
    if s == "" || !(s[0] == '.' || IdentStart(s[0])) {
      assert ParseQuery(q).Err?;
      if AreSteps(s, steps) {
        StepsStart(s, steps);
      }
    } else if s == "." {
      QueryOnce(q);
      DotIsIdentity();
      if AreSteps(s, steps) {
        StepsStart(s, steps);
      }
    } else {
      QueryOnce(q);
      FirstStep(s);
      TextAgrees(s, steps);
    }
  }

  lemma TextAgrees(s: string, steps: seq<Step>)
    requires Agree(|s|) && s != "" && s != "."
    ensures AreSteps(s, steps) <==> ParseSteps(s, false) == Ok(steps)
  {
    if AreSteps(s, steps) {
      StepsAccepted(s, steps);
    }
    if ParseSteps(s, false).Ok? {
      StepsRecognized(s, false);
    }
  }

  lemma {:induction false} AgreeUpTo(m: nat)
    ensures Agree(m)
  {
    if m > 0 {
      AgreeUpTo(m - 1);
      forall x, steps | |x| < m ensures IsQuery(x, steps) <==> ParseQuery(x) == Ok(steps) {
        if |x| == m - 1 {
          QueryAgrees(x, steps);
        }
      }
    }
  }

  /** The parser accepts exactly the texts of the grammar, each as the step list whose text it is. */
  lemma ParserIsGrammar(q: string, steps: seq<Step>)
    ensures IsQuery(q, steps) <==> ParseQuery(q) == Ok(steps)
  {
    AgreeUpTo(|q| + 1);
  }
}
