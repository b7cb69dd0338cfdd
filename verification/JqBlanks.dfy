/** Spaces around a query, an index, a key or the query inside a filter change nothing (jqlite/parser.py). */
module JqBlanks {
  import opened Results
  import opened Decimal
  import opened JqSyntax
  import opened Text
  import opened JqParser
  import opened JqRoundTrip
  import opened JqCalls

  /** A query means, or is rejected for, the same with any spaces around it. */
  lemma BlanksAroundQuery(a: string, q: string, b: string)
    requires Blank(a) && Blank(b)
    ensures ParseQuery(a + q + b) == ParseQuery(q)
  {
    StripIgnoresBlanks(a, q, b);
  }

  lemma BlanksAroundKey(a: string, x: string, b: string)
    requires Blank(a) && Blank(b)
    ensures ParseHasArg(a + x + b) == ParseHasArg(x)
  {
    StripIgnoresBlanks(a, x, b);
  }

  lemma BracketRead(x: string, rest: string)
    requires ']' !in x
    ensures ReadBracket("[" + x + "]" + rest) ==
            if Strip(x) == "" then Ok((Iterate, rest))
            else match PyInt(Strip(x)) case Some(n) => Ok((Index(n), rest)) case None => Err(BadIndex(Strip(x)))
  {
    var t := "[" + x + "]" + rest;
    FindBracketStops("[" + x, rest);
    assert t[1..1 + |x|] == x && t[2 + |x|..] == rest;
  }

  lemma TightParse(t: string)
    requires t != "" && (t[0] == '.' || IdentStart(t[0])) && !IsSpace(t[|t| - 1])
    ensures ParseQuery(t) == ParseSteps(t, true)
  {
    TightIsStripped(t);
  }

  lemma StepFails(t: string, e: QueryError)
    requires t != "" && t != "." && ReadStep(t) == Err(e)
    ensures ParseSteps(t, true) == Err(e)
  {
  }

  lemma NoMore()
    ensures ParseSteps("", false) == Ok([])
  {
  }

  lemma StepReads(t: string, st: Step)
    requires t != "" && t != "." && ReadStep(t) == Ok((st, ""))
    ensures ParseSteps(t, true) == Ok([st])
  {
    ParseOne(t, st, "", true);
    NoMore();
    assert [st] + [] == [st];
  }

  /** A query that is one step. */
  lemma StepAlone(t: string, r: Result<(Step, string), QueryError>)
    requires t != "" && t != "." && (t[0] == '.' || IdentStart(t[0])) && !IsSpace(t[|t| - 1])
    requires ReadStep(t) == r && (r.Ok? ==> r.value.1 == "")
    ensures ParseQuery(t) == if r.Ok? then Ok([r.value.0]) else Err(r.error)
  {
    TightParse(t);
    match r {
      case Err(e) => StepFails(t, e);
      case Ok((st, _)) => StepReads(t, st);
    }
  }

  /** The same index or iteration, or the same rejected index, is read with any spaces inside the brackets. */
  lemma BlanksInBracket(a: string, x: string, b: string, rest: string)
    requires Blank(a) && Blank(b) && ']' !in x
    ensures ReadBracket("[" + (a + x + b) + "]" + rest) == ReadBracket("[" + x + "]" + rest)
  {
    var padded := a + x + b;
    assert ']' !in padded;
    StripIgnoresBlanks(a, x, b);
    BracketRead(x, rest);
    BracketRead(padded, rest);
  }

  lemma BlanksInIndex(a: string, x: string, b: string)
    requires Blank(a) && Blank(b) && ']' !in x
    ensures ParseQuery("." + ("[" + (a + x + b) + "]")) == ParseQuery("." + ("[" + x + "]"))
  {
    var padded := a + x + b;
    assert ']' !in padded;
    BlanksInBracket(a, x, b, "");
    BracketAlone(x);
    BracketAlone(padded);
  }

  lemma BracketAlone(x: string)
    requires ']' !in x
    ensures var r := ReadBracket("[" + x + "]" + "");
            ParseQuery("." + ("[" + x + "]")) == if r.Ok? then Ok([r.value.0]) else Err(r.error)
  {
    var b := "[" + x + "]";
    BracketRead(x, "");
    DottedBracket(b, "");
    assert "." + b + "" == "." + b && b + "" == b;
    StepAlone("." + b, ReadBracket(b + ""));
  }

  lemma {:induction false} BlankIsNeutral(s: string)
    requires Blank(s)
    ensures Neutral(s)
  {
    PlainIsNeutral(s);
  }

  /** The argument of a call is read with any spaces around it, a key as well as the query of a filter. */
  lemma BlanksInCall(name: string, a: string, x: string, b: string)
    requires (name == "has" || Filter(name)) && Blank(a) && Blank(b) && Neutral(x)
    ensures ParseQuery(Call(name, a + x + b)) == ParseQuery(Call(name, x))
  {
    BlankIsNeutral(a);
    BlankIsNeutral(b);
    NeutralConcat(a, x);
    NeutralConcat(a + x, b);
    CallAlone(name, x);
    CallAlone(name, a + x + b);
    BlanksAroundQuery(a, x, b);
    BlanksAroundKey(a, x, b);
  }

  /** The step of a call, from what its argument is read as. */
  function Called(name: string, x: string): Result<Step, QueryError> {
    if name == "has" then
      match ParseHasArg(x) case Ok(k) => Ok(Has(k)) case Err(e) => Err(e)
    else
      match ParseQuery(x) case Ok(steps) => Ok(if name == "select" then Select(steps) else Map(steps)) case Err(e) => Err(e)
  }

  lemma CallAlone(name: string, x: string)
    requires (name == "has" || Filter(name)) && Neutral(x)
    ensures ParseQuery(Call(name, x)) == match Called(name, x) case Ok(st) => Ok([st]) case Err(e) => Err(e)
  {
    var q, after := Call(name, x), "(" + x + ")";
    CallStarts(name, x);
    ArgumentRead(x);
    NameRead(name, after);
    StartsNamed(q);
    assert NamedStep(name, after) == match Called(name, x) case Ok(st) => Ok((st, "")) case Err(e) => Err(e);
    StepAlone(q, NamedStep(name, after));
  }
}
