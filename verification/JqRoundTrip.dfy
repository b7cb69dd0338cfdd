/** Parsing inverts the canonical printer, and its image is exactly the well-formed step lists. */
module JqRoundTrip {
  import opened Results
  import opened Decimal
  import opened JqSyntax
  import opened Text
  import opened JqParser
  import opened JqPrinter

  // --- parenthesis depth ---

  /** The depth after reading `x` from depth `d`; None when it falls below zero on the way. */
  function Depth(x: string, d: nat): Option<nat> {
    if x == "" then Some(d)
    else if x[0] == '(' then Depth(x[1..], d + 1)
    else if x[0] == ')' then (if d == 0 then None else Depth(x[1..], d - 1))
    else Depth(x[1..], d)
  }

  /** Text that leaves every depth as it was. */
  ghost predicate Neutral(x: string) {
    forall d: nat :: Depth(x, d) == Some(d)
  }

  lemma {:induction false} DepthOfConcat(x: string, y: string, d: nat)
    ensures Depth(x + y, d) == match Depth(x, d) { case None => None case Some(e) => Depth(y, e) }
  {
    if x == "" {
      assert x + y == y;
    } else {
      assert (x + y)[1..] == x[1..] + y;
      DepthOfConcat(x[1..], y, if x[0] == '(' then d + 1 else if x[0] == ')' && d > 0 then d - 1 else d);
    }
  }

  function Shift(r: Option<nat>, n: nat): Option<nat> {
    match r case None => None case Some(k) => Some(n + k)
  }

  lemma CloseStep(t: string, depth: nat)
    requires t != "" && depth > 0 && !(t[0] == ')' && depth == 1)
    ensures CloseParen(t, depth) ==
            Shift(CloseParen(t[1..], if t[0] == '(' then depth + 1 else if t[0] == ')' then depth - 1 else depth), 1)
  {
  }

  lemma DepthStep(x: string, d: nat)
    requires x != "" && Depth(x, d).Some?
    ensures x[0] == ')' ==> d > 0
    ensures Depth(x, d) == Depth(x[1..], if x[0] == '(' then d + 1 else if x[0] == ')' then d - 1 else d)
  {
  }

  lemma {:induction false} CloseAfterDepth(x: string, y: string, d: nat, e: nat)
    requires Depth(x, d) == Some(e)
    ensures CloseParen(x + y, d + 1) == Shift(CloseParen(y, e + 1), |x|)
  {
    if x == "" {
      assert x + y == y;
    } else {
      TailOfConcat(x, y);
      DepthStep(x, d);
      CloseStep(x + y, d + 1);
      CloseAfterDepth(x[1..], y, if x[0] == '(' then d + 1 else if x[0] == ')' then d - 1 else d, e);
    }
  }

  /** The scan for the matching parenthesis stops right after a neutral argument. */
  lemma ParensRead(x: string, rest: string)
    requires Neutral(x)
    ensures ReadParens("(" + x + ")" + rest) == Ok((x, rest))
  {
    var t := "(" + x + ")" + rest;
    assert Depth(x, 0) == Some(0);
    CloseAfterDepth(x, ")" + rest, 0, 0);
    assert t[1..] == x + (")" + rest);
    assert t[1..1 + |x|] == x && t[2 + |x|..] == rest;
  }

  lemma NeutralConcat(x: string, y: string)
    requires Neutral(x) && Neutral(y)
    ensures Neutral(x + y)
  {
    forall d: nat ensures Depth(x + y, d) == Some(d) {
      DepthOfConcat(x, y, d);
    }
  }

  lemma {:induction false} PlainIsNeutral(x: string)
    requires forall i :: 0 <= i < |x| ==> !IsParen(x[i])
    ensures Neutral(x)
  {
    if x != "" {
      PlainIsNeutral(x[1..]);
      forall d: nat ensures Depth(x, d) == Some(d) {
        assert Depth(x[1..], d) == Some(d);
      }
    }
  }

  lemma CallIsNeutral(name: string, x: string)
    requires Neutral(x)
    requires forall i :: 0 <= i < |name| ==> !IsParen(name[i])
    ensures Neutral(name + "(" + x + ")")
  {
    PlainIsNeutral(name);
    forall d: nat ensures Depth("(" + x + ")", d) == Some(d) {
      assert Depth(x, d + 1) == Some(d + 1);
      DepthOfConcat(x, ")", d + 1);
      assert ("(" + x + ")")[1..] == x + ")";
    }
    NeutralConcat(name, "(" + x + ")");
    assert name + ("(" + x + ")") == name + "(" + x + ")";
  }

  lemma {:induction false} EncodedIsNeutral(k: string)
    ensures Neutral(EncodeBody(k, true))
  {
    if k != "" {
      EncodedIsNeutral(k[1..]);
      PlainIsNeutral(EncodeChar(k[0], true));
      NeutralConcat(EncodeChar(k[0], true), EncodeBody(k[1..], true));
    }
  }

  lemma KeyIsNeutral(key: Key)
    ensures Neutral(PrintKey(key))
  {
    match key
    case IntKey(n) =>
      DecReads(n);
      PlainIsNeutral(Dec(n));
    case StrKey(k) =>
      EncodedIsNeutral(k);
      PlainIsNeutral("\"");
      NeutralConcat("\"", EncodeBody(k, true));
      NeutralConcat("\"" + EncodeBody(k, true), "\"");
  }

  lemma NumberIsNeutral(d: string)
    requires forall i :: 0 <= i < |d| ==> d[i] == '-' || IsDigit(d[i])
    ensures Neutral("." + ("[" + d + "]"))
  {
    PlainIsNeutral("." + ("[" + d + "]"));
  }

  lemma {:induction false} StepIsNeutral(st: Step)
    requires WellFormedStep(st)
    ensures Neutral(PrintStep(st))
    decreases st
  {
    match st
    case Field(name) => PlainIsNeutral("." + name);
    case Index(n) =>
      DecReads(n);
      NumberIsNeutral(Dec(n));
    case Select(inner) =>
      QueryIsNeutral(inner);
      CallIsNeutral("select", PrintQuery(inner));
    case Map(inner) =>
      QueryIsNeutral(inner);
      CallIsNeutral("map", PrintQuery(inner));
    case Has(key) =>
      KeyIsNeutral(key);
      CallIsNeutral("has", PrintKey(key));
    case _ => PlainIsNeutral(PrintStep(st));
  }

  /** A printed query has balanced parentheses, so it can stand as an argument. */
  lemma {:induction false} QueryIsNeutral(steps: seq<Step>)
    requires WellFormed(steps)
    ensures Neutral(PrintQuery(steps))
    decreases steps
  {
    if steps == [] {
      PlainIsNeutral(".");
    } else {
      StepIsNeutral(steps[0]);
      QueryIsNeutral(steps[1..]);
      if steps[1..] == [] {
        assert PrintSteps(steps) == PrintStep(steps[0]);
      } else {
        NeutralConcat(PrintStep(steps[0]), PrintSteps(steps[1..]));
      }
    }
  }

  // --- reading back the pieces ---

  lemma {:induction false} IdentEndStops(name: string, rest: string)
    requires forall i :: 0 <= i < |name| ==> IdentCont(name[i])
    requires rest == "" || !IdentCont(rest[0])
    ensures IdentEnd(name + rest) == |name|
  {
    if name == "" {
      assert name + rest == rest;
    } else {
      assert (name + rest)[1..] == name[1..] + rest;
      IdentEndStops(name[1..], rest);
    }
  }

  lemma {:induction false} FindBracketStops(x: string, rest: string)
    requires forall i :: 0 <= i < |x| ==> x[i] != ']'
    ensures FindBracket(x + "]" + rest) == Some(|x|)
  {
    if x != "" {
      assert (x + "]" + rest)[1..] == x[1..] + "]" + rest;
      FindBracketStops(x[1..], rest);
    }
  }

  lemma TightIsStripped(s: string)
    requires s != "" && !IsSpace(s[0]) && !IsSpace(s[|s| - 1])
    ensures Strip(s) == s
  {
  }

  lemma IndexRead(n: int, rest: string)
    ensures ReadBracket("[" + Dec(n) + "]" + rest) == Ok((Index(n), rest))
  {
    DecReads(n);
    NumberRead(Dec(n), n, rest);
  }

  lemma NumberRead(d: string, n: int, rest: string)
    requires d != "" && PyInt(d) == Some(n)
    requires forall i :: 0 <= i < |d| ==> d[i] == '-' || IsDigit(d[i])
    ensures ReadBracket("[" + d + "]" + rest) == Ok((Index(n), rest))
  {
    var t := "[" + d + "]" + rest;
    FindBracketStops("[" + d, rest);
    assert t[1..1 + |d|] == d;
    TightIsStripped(d);
    assert t[2 + |d|..] == rest;
  }

  lemma IterateRead(rest: string)
    ensures ReadBracket("[]" + rest) == Ok((Iterate, rest))
  {
    FindBracketStops("[", rest);
    assert "[" + "]" + rest == "[]" + rest;
    assert ("[]" + rest)[1..1] == "";
    assert ("[]" + rest)[2..] == rest;
  }

  lemma EscapeRead(c: char, rest: string)
    requires c as int < 0x80
    ensures Escape((UnicodeEscape(c) + rest)[1..]) == Some((c, 5))
  {
    var t := (UnicodeEscape(c) + rest)[1..];
    var a, b := c as int / 16, c as int % 16;
    assert t[0] == 'u' && t[1] == '0' && t[2] == '0' && t[3] == HexDigit(a) && t[4] == HexDigit(b);
    assert HexVal(HexDigit(a)) == Some(a) && HexVal(HexDigit(b)) == Some(b);
    assert Hex4(t[1..]) == Some(c as int);
  }

  lemma CharRead(c: char, escapeParens: bool, k: string, tail: string, rest: string)
    requires StringBody(tail) == Some((k, rest))
    ensures StringBody(EncodeChar(c, escapeParens) + tail) == Some(([c] + k, rest))
  {
    var e := EncodeChar(c, escapeParens);
    if e == [c] {
      assert (e + tail)[1..] == tail;
    } else if |e| == 2 {
      assert (e + tail)[1..][0] == e[1];
      assert (e + tail)[2..] == tail;
    } else {
      EscapeRead(c, tail);
      assert (e + tail)[6..] == tail;
    }
  }

  /** A JSON literal reads back as its string, with or without escaped parentheses. */
  lemma {:induction false} BodyRead(k: string, escapeParens: bool, rest: string)
    ensures StringBody(EncodeBody(k, escapeParens) + "\"" + rest) == Some((k, rest))
  {
    if k != "" {
      var e, body := EncodeChar(k[0], escapeParens), EncodeBody(k[1..], escapeParens);
      BodyRead(k[1..], escapeParens, rest);
      CharRead(k[0], escapeParens, k[1..], body + "\"" + rest, rest);
      RegroupTail(e, body, "\"", rest);
      assert [k[0]] + k[1..] == k;
    }
  }

  lemma QuotedRead(k: string, escapeParens: bool)
    ensures ParseHasArg(Quote(k, escapeParens)) == Ok(StrKey(k))
  {
    var t := Quote(k, escapeParens);
    TightIsStripped(t);
    BodyRead(k, escapeParens, "");
    assert t[1..] == EncodeBody(k, escapeParens) + "\"" + "";
  }

  lemma KeyRead(key: Key)
    ensures ParseHasArg(PrintKey(key)) == Ok(key)
  {
    match key
    case IntKey(n) =>
      DecReads(n);
      TightIsStripped(Dec(n));
    case StrKey(k) => QuotedRead(k, true);
  }

  // --- one step, then the list ---

  /** The text after a step does not run on into it. */
  predicate Stops(st: Step, rest: string) {
    EndsInIdent(st) ==> rest == "" || (!IdentCont(rest[0]) && rest[0] != '(')
  }

  lemma WordRead(name: string, rest: string)
    requires IsIdent(name)
    requires rest == "" || !IdentCont(rest[0])
    ensures (name + rest)[..IdentEnd(name + rest)] == name
    ensures (name + rest)[IdentEnd(name + rest)..] == rest
  {
    IdentEndStops(name, rest);
  }

  lemma NameRead(name: string, after: string)
    requires IsIdent(name)
    requires after == "" || !IdentCont(after[0])
    ensures ReadNamed(name + after) == NamedStep(name, after)
  {
    WordRead(name, after);
  }

  lemma CalledStep(after: string, x: string, rest: string)
    requires after != "" && after[0] == '(' && ReadParens(after) == Ok((x, rest))
    ensures ParseQuery(x).Ok? ==> NamedStep("select", after) == Ok((Select(ParseQuery(x).value), rest))
    ensures ParseQuery(x).Ok? ==> NamedStep("map", after) == Ok((Map(ParseQuery(x).value), rest))
    ensures ParseHasArg(x).Ok? ==> NamedStep("has", after) == Ok((Has(ParseHasArg(x).value), rest))
  {
  }

  /** A call is read as its name and its argument, whatever follows it. */
  lemma CallRead(name: string, x: string, rest: string)
    requires IsIdent(name) && Neutral(x)
    ensures ReadNamed(name + "(" + x + ")" + rest) == NamedStep(name, "(" + x + ")" + rest)
    ensures ReadParens("(" + x + ")" + rest) == Ok((x, rest))
  {
    var after := "(" + x + ")" + rest;
    assert name + "(" + x + ")" + rest == name + after;
    NameRead(name, after);
    ParensRead(x, rest);
  }

  lemma FilterRead(name: string, x: string, rest: string)
    requires (name == "select" || name == "map") && Neutral(x) && ParseQuery(x).Ok?
    ensures var st := if name == "select" then Select(ParseQuery(x).value) else Map(ParseQuery(x).value);
            ReadNamed(name + "(" + x + ")" + rest) == Ok((st, rest))
  {
    CallRead(name, x, rest);
    CalledStep("(" + x + ")" + rest, x, rest);
  }

  lemma HasRead(x: string, key: Key, rest: string)
    requires Neutral(x) && ParseHasArg(x) == Ok(key)
    ensures ReadNamed("has" + "(" + x + ")" + rest) == Ok((Has(key), rest))
  {
    CallRead("has", x, rest);
    CalledStep("(" + x + ")" + rest, x, rest);
  }

  lemma NullaryRead(st: Step, rest: string)
    requires st.Keys? || st.Length? || st.Type?
    requires Stops(st, rest)
    ensures ReadNamed(PrintStep(st) + rest) == Ok((st, rest))
  {
    NameRead(PrintStep(st), rest);
  }

  /** A named step is read back from its text, whatever follows. */
  lemma {:induction false} NamedRead(st: Step, rest: string)
    requires WellFormedStep(st) && Named(st) && Stops(st, rest)
    ensures ReadNamed(PrintStep(st) + rest) == Ok((st, rest))
    decreases st, 0
  {
    match st
    case Select(inner) =>
      QueryIsNeutral(inner);
      QueryReads(inner);
      FilterRead("select", PrintQuery(inner), rest);
    case Map(inner) =>
      QueryIsNeutral(inner);
      QueryReads(inner);
      FilterRead("map", PrintQuery(inner), rest);
    case Has(key) =>
      KeyIsNeutral(key);
      KeyRead(key);
      HasRead(PrintKey(key), key, rest);
    case _ => NullaryRead(st, rest);
  }

  lemma FieldRead(name: string, rest: string)
    requires IsIdent(name) && Stops(Field(name), rest)
    ensures ReadStep("." + name + rest) == Ok((Field(name), rest))
  {
    var t := "." + name + rest;
    assert t[1..] == name + rest;
    WordRead(name, rest);
  }

  lemma DottedBracket(b: string, rest: string)
    requires b != "" && b[0] == '['
    ensures ReadStep("." + b + rest) == ReadBracket(b + rest)
  {
    assert ("." + b + rest)[1..] == b + rest;
  }

  /** A well-formed step is read back from its text. */
  lemma {:induction false} StepRead(st: Step, rest: string)
    requires WellFormedStep(st) && Stops(st, rest)
    ensures ReadStep(PrintStep(st) + rest) == Ok((st, rest))
    decreases st, 1
  {
    match st
    case Field(name) => FieldRead(name, rest);
    case Index(n) =>
      IndexRead(n, rest);
      DottedBracket("[" + Dec(n) + "]", rest);
    case Iterate =>
      IterateRead(rest);
      DottedBracket("[]", rest);
    case _ =>
      NamedRead(st, rest);
      NamedFirst(st, rest);
  }

  lemma NamedFirst(st: Step, rest: string)
    requires Named(st)
    ensures ReadStep(PrintStep(st) + rest) == ReadNamed(PrintStep(st) + rest)
  {
    assert IdentStart(PrintStep(st)[0]);
    StartsNamed(PrintStep(st) + rest);
  }

  lemma StartsNamed(t: string)
    requires t != "" && IdentStart(t[0])
    ensures ReadStep(t) == ReadNamed(t)
  {
  }

  lemma ParseOne(t: string, st: Step, rest: string, first: bool)
    requires t != "" && t != "." && ReadStep(t) == Ok((st, rest))
    ensures ParseSteps(t, first) == Prepend(st, ParseSteps(rest, false))
  {
  }

  /** What follows a well-formed list's first step never runs on into it. */
  lemma StopsBefore(steps: seq<Step>, rest: string)
    requires WellFormed(steps) && steps != []
    requires rest == "" || (!IdentCont(rest[0]) && rest[0] != '(')
    ensures Stops(steps[0], PrintSteps(steps[1..]) + rest)
  {
    if |steps| > 1 {
      var next := steps[1];
      assert steps[1..][0] == next;
      assert PrintSteps(steps[1..]) == PrintStep(next) + PrintSteps(steps[1..][1..]);
      assert !Named(next) ==> PrintStep(next)[0] == '.';
    } else {
      assert PrintSteps(steps[1..]) + rest == rest;
    }
  }

  lemma FollowCons(st: Step, steps: seq<Step>, r: Parsed)
    ensures Prepend(st, Follow(steps, r)) == Follow([st] + steps, r)
  {
    if r.Ok? {
      assert [st] + (steps + r.value) == [st] + steps + r.value;
    }
  }

  /** The steps of a printed list come back in order, followed by whatever the rest of the text holds. */
  lemma {:induction false} StepsRead(steps: seq<Step>, rest: string, first: bool)
    requires WellFormed(steps)
    requires rest == "" || (!IdentCont(rest[0]) && rest[0] != '(')
    ensures ParseSteps(PrintSteps(steps) + rest, first) == Follow(steps, ParseSteps(rest, first && steps == []))
    decreases steps, 1
  {
    var r := ParseSteps(rest, first && steps == []);
    if steps == [] {
      assert PrintSteps(steps) + rest == rest;
      assert r.Ok? ==> steps + r.value == r.value;
    } else {
      var tail := PrintSteps(steps[1..]) + rest;
      Regroup(PrintStep(steps[0]), PrintSteps(steps[1..]), rest);
      StopsBefore(steps, rest);
      StepRead(steps[0], tail);
      ParseOne(PrintStep(steps[0]) + tail, steps[0], tail, first);
      StepsRead(steps[1..], rest, false);
      FollowCons(steps[0], steps[1..], r);
      assert [steps[0]] + steps[1..] == steps;
    }
  }

  predicate Tight(s: string) {
    s != "" && !IsSpace(s[0]) && !IsSpace(s[|s| - 1]) && (s[0] == '.' || IdentStart(s[0]))
  }

  lemma {:induction false} PrintedIsTight(steps: seq<Step>)
    requires WellFormed(steps)
    ensures Tight(PrintQuery(steps))
    decreases steps
  {
    if steps != [] {
      var p := PrintStep(steps[0]);
      assert Tight(p);
      if steps[1..] == [] {
        assert PrintSteps(steps) == p;
      } else {
        PrintedIsTight(steps[1..]);
      }
    }
  }

  /** Parsing inverts the canonical printer on every well-formed step list. */
  lemma {:induction false} QueryReads(steps: seq<Step>)
    requires WellFormed(steps)
    ensures ParseQuery(PrintQuery(steps)) == Ok(steps)
    decreases steps, 2
  {
    PrintedIsTight(steps);
    TightIsStripped(PrintQuery(steps));
    if steps != [] {
      StepsRead(steps, "", true);
      assert PrintSteps(steps) + "" == PrintSteps(steps);
      assert steps + [] == steps;
    }
  }

  // --- the image of the parser ---

  lemma {:induction false} IdentEndMaximal(t: string)
    ensures forall i :: 0 <= i < IdentEnd(t) ==> IdentCont(t[i])
    ensures IdentEnd(t) < |t| ==> !IdentCont(t[IdentEnd(t)])
  {
    if t != "" && IdentCont(t[0]) {
      IdentEndMaximal(t[1..]);
    }
  }

  /** A named step is well formed, and only a nullary builtin leaves the text right after its name. */
  lemma {:induction false} NamedStepWellFormed(name: string, after: string)
    requires NamedStep(name, after).Ok?
    ensures var (st, rest) := NamedStep(name, after).value;
      Named(st) && WellFormedStep(st) && (EndsInIdent(st) ==> rest == after)
    decreases |after|, 4
  {
    if name == "select" || name == "map" {
      var inner := ReadParens(after).value.0;
      ParsedWellFormed(inner);
    }
  }

  /** A step read from a text is well formed; it is named only if the text starts a name. */
  lemma DottedName(t: string)
    requires |t| > 1 && t[0] == '.' && IdentStart(t[1])
    ensures ReadStep(t) == Ok((Field(t[1..][..IdentEnd(t[1..])]), t[1..][IdentEnd(t[1..])..]))
  {
  }

  lemma IdentIsIdent(t: string)
    requires t != "" && IdentStart(t[0])
    ensures IsIdent(t[..IdentEnd(t)])
    ensures t[IdentEnd(t)..] == "" || !IdentCont(t[IdentEnd(t)..][0])
  {
    IdentEndMaximal(t);
  }

  lemma DottedWellFormed(t: string)
    requires |t| > 1 && t[0] == '.' && IdentStart(t[1])
    ensures ReadStep(t).Ok? && ReadStep(t).value.0.Field? && WellFormedStep(ReadStep(t).value.0)
    ensures var rest := ReadStep(t).value.1; rest == "" || !IdentCont(rest[0])
  {
    DottedName(t);
    IdentIsIdent(t[1..]);
  }

  lemma BracketWellFormed(t: string)
    requires t != "" && t[0] == '[' && ReadBracket(t).Ok?
    ensures ReadBracket(t).value.0.Index? || ReadBracket(t).value.0.Iterate?
  {
  }

  /** The three ways a step begins. */
  lemma StepStarts(t: string)
    requires t != "" && t != "." && ReadStep(t).Ok?
    ensures t[0] == '.' || t[0] == '[' || IdentStart(t[0])
    ensures t[0] == '.' ==> t[1] == '[' || IdentStart(t[1])
    ensures t[0] == '.' && t[1] == '[' ==> ReadStep(t) == ReadBracket(t[1..])
    ensures t[0] == '[' ==> ReadStep(t) == ReadBracket(t)
    ensures IdentStart(t[0]) ==> ReadStep(t) == ReadNamed(t)
  {
  }

  lemma {:induction false} ReadStepWellFormed(t: string)
    requires t != "" && t != "." && ReadStep(t).Ok?
    ensures var (st, rest) := ReadStep(t).value;
      WellFormedStep(st) && (EndsInIdent(st) ==> rest == "" || !IdentCont(rest[0])) && (Named(st) ==> IdentStart(t[0]))
    decreases |t|, 1
  {
    StepStarts(t);
    if IdentStart(t[0]) {
      IdentIsIdent(t);
      NamedStepWellFormed(t[..IdentEnd(t)], t[IdentEnd(t)..]);
    } else if t[0] == '[' {
      BracketWellFormed(t);
    } else if t[1] == '[' {
      BracketWellFormed(t[1..]);
    } else {
      DottedWellFormed(t);
    }
  }

  lemma {:induction false} StepsWellFormed(t: string, first: bool)
    requires ParseSteps(t, first).Ok?
    ensures var steps := ParseSteps(t, first).value;
      WellFormed(steps) && (steps != [] && Named(steps[0]) ==> t != "" && IdentStart(t[0]))
    decreases |t|, 2
  {
    if t != "" && t != "." {
      var (st, rest) := ReadStep(t).value;
      ReadStepWellFormed(t);
      StepsWellFormed(rest, false);
    }
  }

  /** Every list that a query parses to is well formed. */
  lemma {:induction false} ParsedWellFormed(query: string)
    ensures ParseQuery(query).Ok? ==> WellFormed(ParseQuery(query).value)
    decreases |query|, 3
  {
    if ParseQuery(query).Ok? {
      StepsWellFormed(Strip(query), true);
    }
  }

  /** The parser's image is exactly the well-formed lists. */
  lemma ImageExact(steps: seq<Step>)
    ensures WellFormed(steps) <==> exists query :: ParseQuery(query) == Ok(steps)
  {
    if WellFormed(steps) {
      QueryReads(steps);
    }
    forall query | ParseQuery(query) == Ok(steps) ensures WellFormed(steps) {
      ParsedWellFormed(query);
    }
  }

  /** Printing what was parsed gives a query that means the same, and prints as itself from then on. */
  lemma NormalForm(query: string)
    requires ParseQuery(query).Ok?
    ensures var text := PrintQuery(ParseQuery(query).value);
      ParseQuery(text) == ParseQuery(query) && PrintQuery(ParseQuery(text).value) == text
  {
    ParsedWellFormed(query);
    QueryReads(ParseQuery(query).value);
  }
}
