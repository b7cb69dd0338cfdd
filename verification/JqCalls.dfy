/** What a query with a call whose argument goes wrong is rejected with (jqlite/parser.py). */
module JqCalls {
  import opened Results
  import opened JqSyntax
  import opened Text
  import opened JqParser
  import opened JqRoundTrip
  import opened JqOperators

  /** A call by its name and the text between its parentheses. */
  function Call(name: string, x: string): string {
    name + ("(" + x + ")")
  }

  lemma CallStarts(name: string, x: string)
    requires IsIdent(name)
    ensures var q := Call(name, x);
            q != "" && IdentStart(q[0]) && q[|q| - 1] == ')' && q != "."
  {
  }

  /** A query that is one call fails as its step does. */
  lemma CallFails(name: string, x: string, e: QueryError)
    requires IsIdent(name) && NamedStep(name, "(" + x + ")") == Err(e)
    ensures ParseSteps(Call(name, x), false) == Err(e) && ParseQuery(Call(name, x)) == Err(e)
  {
    var q := Call(name, x);
    CallStarts(name, x);
    NameRead(name, "(" + x + ")");
    StartsNamed(q);
    TightIsStripped(q);
  }

  lemma ArgumentRead(x: string)
    requires Neutral(x)
    ensures ReadParens("(" + x + ")") == Ok((x, ""))
  {
    ParensRead(x, "");
    assert "(" + x + ")" + "" == "(" + x + ")";
  }

  /** No call of a builtin without arguments is looked into. */
  lemma NullaryCallFails(name: string, x: string)
    requires name == "keys" || name == "length" || name == "type"
    ensures ParseQuery(Call(name, x)) == Err(TakesNoArgument(name))
  {
    CallFails(name, x, TakesNoArgument(name));
  }

  /** What `has` is called with is only ever read as a key: an operator there is not named. */
  lemma HasCallFails(x: string)
    requires Neutral(x) && ParseHasArg(x).Err?
    ensures ParseQuery(Call("has", x)) == Err(if Strip(x) == "" then MissingKey else BadKey(Strip(x)))
  {
    ArgumentRead(x);
    HasArgument("(" + x + ")", x);
    CallFails("has", x, ParseHasArg(x).error);
  }

  lemma HasArgument(after: string, x: string)
    requires after != "" && after[0] == '(' && ReadParens(after) == Ok((x, "")) && ParseHasArg(x).Err?
    ensures NamedStep("has", after) == Err(ParseHasArg(x).error)
  {
  }

  predicate Filter(name: string) {
    name == "select" || name == "map"
  }

  lemma FilterArgument(name: string, after: string, x: string)
    requires Filter(name) && after != "" && after[0] == '(' && ReadParens(after) == Ok((x, "")) && ParseQuery(x).Err?
    ensures NamedStep(name, after) == Err(ParseQuery(x).error)
  {
  }

  /** A filter call fails as the query inside it does. */
  lemma FilterCallFails(name: string, x: string, e: QueryError)
    requires Filter(name) && Neutral(x) && ParseQuery(x) == Err(e)
    ensures ParseQuery(Call(name, x)) == Err(e)
  {
    ArgumentRead(x);
    FilterArgument(name, "(" + x + ")", x);
    CallFails(name, x, e);
  }

  /** A query inside filter calls, the first name outermost. */
  function Nest(names: seq<string>, x: string): string {
    if names == [] then x else Call(names[0], Nest(names[1..], x))
  }

  lemma FilterIsNeutral(name: string, x: string)
    requires Filter(name) && Neutral(x)
    ensures Neutral(Call(name, x))
  {
    CallIsNeutral(name, x);
    assert Call(name, x) == name + "(" + x + ")";
  }

  /** The error of the innermost query comes out of any depth of filter calls. */
  lemma {:induction false} NestFails(names: seq<string>, x: string, e: QueryError)
    requires (forall i :: 0 <= i < |names| ==> Filter(names[i])) && Neutral(x) && ParseQuery(x) == Err(e)
    ensures Neutral(Nest(names, x)) && ParseQuery(Nest(names, x)) == Err(e)
  {
    if names != [] {
      NestFails(names[1..], x, e);
      FilterIsNeutral(names[0], Nest(names[1..], x));
      FilterCallFails(names[0], Nest(names[1..], x), e);
    }
  }

  /** So an operator inside filters, at any depth, is named as it would be at the top. */
  lemma OperatorInFilters(names: seq<string>, p: string, gap: string, u: string)
    requires forall i :: 0 <= i < |names| ==> Filter(names[i])
    requires Stripped(p) && ParseQuery(p).Ok? && ParseQuery(p).value != [] && AllGap(gap)
    requires u != "" && Operator(u).Some? && (gap != "" || Classify(u).Some? || Closed(p))
    requires Neutral(p + gap + u)
    ensures ParseQuery(Nest(names, p + gap + u)) == Err(Unsupported(Operator(u).value))
  {
    OperatorNamed(p, gap, u);
    NestFails(names, p + gap + u, Unsupported(Operator(u).value));
  }

  /** A failing call after an operand that ends in a bracket or a call fails the whole query in the same way. */
  lemma CallAfterOperand(p: string, name: string, x: string, e: QueryError)
    requires Stripped(p) && Closed(p) && ParseQuery(p).Ok?
    requires IsIdent(name) && NamedStep(name, "(" + x + ")") == Err(e)
    ensures ParseQuery(p + Call(name, x)) == Err(e)
  {
    var q := Call(name, x);
    CallFails(name, x, e);
    CallStarts(name, x);
    TightIsStripped(p);
    QueryTail(p, q);
    assert (p + q)[|p + q| - 1] == ')';
    OperandThen(p, q, e);
  }
}
