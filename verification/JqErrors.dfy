/** Why a text that is no query is rejected, form by form (jqlite/parser.py). */
module JqErrors {
  import opened Results
  import opened JqSyntax
  import opened Text
  import opened JqParser
  import opened JqRoundTrip
  import opened JqOperators
  import opened JqCalls
  import opened JqGrammar

  predicate Filters(name: string) {
    name == "has" || Filter(name)
  }

  /** A dot must be followed by a name, a bracket or the end, and a bracket must be closed. */
  lemma DotErrors(t: string)
    requires t != "" && t != "."
    ensures t[0] == '.' && t[1] == '.' ==> ReadStep(t) == Err(Unsupported(RecursiveDescent))
    ensures t[0] == '.' && t[1] != '.' && t[1] != '[' && !IdentStart(t[1]) ==> ReadStep(t) == Err(ExpectedFieldName)
    ensures t[0] == '[' && ']' !in t ==> ReadStep(t) == Err(UnclosedBracket)
    ensures t[0] == '.' && t[1] == '[' && ']' !in t ==> ReadStep(t) == Err(UnclosedBracket)
  {
  }

  /** A call is not closed when no parenthesis after the opening one leaves a balanced argument in front of it. */
  ghost predicate Unclosed(after: string) {
    after != "" && after[0] == '(' &&
    forall k :: 1 <= k < |after| && after[k] == ')' ==> !Neutral(after[1..k])
  }

  lemma UnclosedExact(after: string)
    requires after != "" && after[0] == '('
    ensures Unclosed(after) <==> ReadParens(after) == Err(UnclosedParen)
  {
    if ReadParens(after).Ok? {
      ParensSplit(after);
      var x := ReadParens(after).value.0;
      var k := 1 + |x|;
      assert after[1..k] == x && after[k] == ')';
    }
    if k :| 1 <= k < |after| && after[k] == ')' && Neutral(after[1..k]) {
      ParensRead(after[1..k], after[k + 1..]);
      assert after == "(" + after[1..k] + ")" + after[k + 1..];
    }
  }

  /** A name that calls for an argument without one, with an unclosed one, or that is no builtin. */
  lemma NameErrors(name: string, after: string)
    requires IsIdent(name) && (after == "" || !IdentCont(after[0]))
    ensures name + after != "" && name + after != "."
    ensures Filters(name) && (after == "" || after[0] != '(') ==> ReadStep(name + after) == Err(RequiresArgument(name))
    ensures Filters(name) && Unclosed(after) ==> ReadStep(name + after) == Err(UnclosedParen)
    ensures !Filters(name) && name != "keys" && name != "length" && name != "type" ==>
              ReadStep(name + after) == Err(if WordOperator(name) then Unsupported(Word(name)) else UnknownName(name))
  {
    NameFirst(name, after);
    if after != "" && after[0] == '(' {
      UnclosedExact(after);
    }
  }

  /** What is not even the start of a step is rejected by the operator it is, after a gap or not, or by its first character. */
  lemma OtherErrors(gap: string, u: string)
    requires AllGap(gap) && u != "" && !IsGap(u[0])
    requires var c := (gap + u)[0]; c != '.' && c != '[' && !IdentStart(c)
    ensures gap + u != "."
    ensures ReadStep(gap + u) ==
            Err(if Operator(u).Some? then Unsupported(Operator(u).value) else UnexpectedChar((gap + u)[0]))
  {
    SkipsGap(gap, u);
  }

  lemma GapErrors(gap: string)
    requires AllGap(gap) && gap != ""
    ensures gap != "." && ReadStep(gap) == Err(UnexpectedChar(gap[0]))
  {
    AllGapSkipped(gap);
  }

  lemma {:induction false} AllGapSkipped(gap: string)
    requires AllGap(gap)
    ensures SkipGap(gap) == ""
  {
    if gap != "" {
      AllGapSkipped(gap[1..]);
    }
  }

  lemma BlankStrips(q: string)
    ensures Strip(q) == "" <==> Blank(q)
  {
    var a, b := StripSplits(q);
    if Blank(q) {
      StripsTo(q, "", "");
      assert q + "" + "" == q;
    }
  }

  /** A query is rejected at once when it is blank or begins with neither a dot nor a name. */
  lemma StartErrors(q: string)
    ensures Blank(q) ==> ParseQuery(q) == Err(Empty)
    ensures var s := Strip(q);
            s != "" && s[0] != '.' && !IdentStart(s[0]) ==>
              ParseQuery(q) == Err(if Classify(s).Some? then Unsupported(Classify(s).value) else BadStart)
  {
    BlankStrips(q);
  }

  lemma StepsFail(t: string, e: QueryError)
    requires t != "" && (if t == "." then e == TrailingDot else ReadStep(t) == Err(e))
    ensures ParseSteps(t, false) == Err(e)
  {
  }

  /** After steps that are read, the first one that is not decides the error of the whole query; so does a dot at the end. */
  lemma FirstFailure(p: string, t: string, e: QueryError)
    requires Stripped(p) && ParseQuery(p).Ok? && ParseQuery(p).value != [] && Joins(p, t)
    requires t != "" && !IsSpace(t[|t| - 1]) && (if t == "." then e == TrailingDot else ReadStep(t) == Err(e))
    ensures ParseQuery(p + t) == Err(e)
  {
    TightIsStripped(p);
    StepsFail(t, e);
    assert (p + t)[|p + t| - 1] == t[|t| - 1];
    QueryTail(p, t);
    DotIsIdentity();
    OperandThen(p, t, e);
  }
}
