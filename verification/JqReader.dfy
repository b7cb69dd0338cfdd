/** The parser as jqlite/parser.py runs it: an index moved over the text by loops. */
module JqReader {
  import opened Results
  import opened Decimal
  import opened JqSyntax
  import opened Text
  import opened JqParser
  import opened JqRoundTrip

  /** `_read_ident` and `_peek_ident`: the identifier at `s[i]` and the index after it. */
  method ReadIdent(s: string, i: nat) returns (r: Result<(string, nat), QueryError>)
    requires i <= |s|
    ensures r.Err? <==> i == |s| || !IdentStart(s[i])
    ensures r.Err? ==> r.error == ExpectedFieldName
    ensures r.Ok? ==> r.value == (s[i..][..IdentEnd(s[i..])], i + IdentEnd(s[i..]))
    ensures r.Ok? ==> i < r.value.1 <= |s|
  {
    if i >= |s| || !IdentStart(s[i]) {
      return Err(ExpectedFieldName);
    }
    var j := i + 1;
    while j < |s| && IdentCont(s[j])
      invariant i < j <= |s|
      invariant forall k :: i <= k < j ==> IdentCont(s[k])
    {
      j := j + 1;
    }
    assert s[i..] == s[i..j] + s[j..];
    IdentEndStops(s[i..j], s[j..]);
    r := Ok((s[i..j], j));
  }

  /** `_read_parens`: the text inside the parentheses opened at `s[i]` and the index after them. */
  method ReadParensAt(s: string, i: nat) returns (r: Result<(string, nat), QueryError>)
    requires i < |s| && s[i] == '('
    ensures match ReadParens(s[i..])
      case Err(e) => r == Err(e)
      case Ok((inner, rest)) => r.Ok? && r.value.0 == inner && i < r.value.1 <= |s| && s[r.value.1..] == rest
  {
    var depth: nat, j := 0, i;
    while j < |s|
      invariant i <= j <= |s|
      invariant j == i ==> depth == 0
      invariant j > i ==> depth > 0 && Scanned(s, i, j, depth)
      decreases |s| - j
    {
      ghost var before := depth;
      if s[j] == '(' {
        depth := depth + 1;
      } else if s[j] == ')' {
        depth := depth - 1;
        if depth == 0 {
          ParensEnd(s, i, j);
          return Ok((s[i + 1..j], j + 1));
        }
      }
      if j > i {
        ScanStep(s, i, j, before);
      }
      j := j + 1;
    }
    ParensUnclosed(s, i, depth);
    r := Err(UnclosedParen);
  }

  /** The scan has read `s[i + 1..j]` and is `depth` deep. */
  ghost predicate Scanned(s: string, i: nat, j: nat, depth: nat)
    requires i < j <= |s| && depth > 0
  {
    CloseParen(s[i + 1..], 1) == Shift(CloseParen(s[j..], depth), j - i - 1)
  }

  /** One turn of the scan that does not close the argument. */
  lemma ScanStep(s: string, i: nat, j: nat, depth: nat)
    requires i < j < |s| && depth > 0 && Scanned(s, i, j, depth)
    requires !(s[j] == ')' && depth == 1)
    ensures Scanned(s, i, j + 1, if s[j] == '(' then depth + 1 else if s[j] == ')' then depth - 1 else depth)
  {
    assert s[j..][1..] == s[j + 1..];
  }

  lemma ParensUnclosed(s: string, i: nat, depth: nat)
    requires i < |s| && s[i] == '(' && depth > 0 && Scanned(s, i, |s|, depth)
    ensures ReadParens(s[i..]) == Err(UnclosedParen)
  {
    assert s[i..][1..] == s[i + 1..];
  }

  lemma ParensEnd(s: string, i: nat, j: nat)
    requires i < j < |s| && s[i] == '(' && s[j] == ')'
    requires Scanned(s, i, j, 1)
    ensures ReadParens(s[i..]) == Ok((s[i + 1..j], s[j + 1..]))
  {
    var t := s[i..];
    var k := j - i - 1;
    assert CloseParen(s[j..], 1) == Some(0);
    assert t[1..] == s[i + 1..];
    assert t[1..1 + k] == s[i + 1..j];
    assert t[2 + k..] == s[j + 1..];
  }

  method ReadBracketAt(s: string, i: nat) returns (r: Result<(Step, nat), QueryError>)
    requires i < |s| && s[i] == '['
    ensures match ReadBracket(s[i..])
      case Err(e) => r == Err(e)
      case Ok((st, rest)) => r.Ok? && r.value.0 == st && i < r.value.1 <= |s| && s[r.value.1..] == rest
  {
    match FindBracket(s[i..]) {
      case None => r := Err(UnclosedBracket);
      case Some(k) =>
        var close := i + k;
        assert s[i + 1..close] == s[i..][1..k];
        assert s[close + 1..] == s[i..][k + 1..];
        var inner := Strip(s[i + 1..close]);
        if inner == "" {
          return Ok((Iterate, close + 1));
        }
        match PyInt(inner) {
          case Some(n) => r := Ok((Index(n), close + 1));
          case None => r := Err(BadIndex(inner));
        }
    }
  }

  /** `_read_filter`: the named step at `s[i]`. */
  method ReadNamedAt(s: string, i: nat) returns (r: Result<(Step, nat), QueryError>)
    requires i < |s| && IdentStart(s[i])
    ensures match ReadNamed(s[i..])
      case Err(e) => r == Err(e)
      case Ok((st, rest)) => r.Ok? && r.value.0 == st && i < r.value.1 <= |s| && s[r.value.1..] == rest
    decreases |s| - i, 0
  {
    var ident := ReadIdent(s, i);
    var (name, j) := ident.value;
    ghost var after := s[i..][IdentEnd(s[i..])..];
    assert s[j..] == after;
    assert ReadNamed(s[i..]) == NamedStep(name, after);
    var called := j < |s| && s[j] == '(';
    if name == "keys" || name == "length" || name == "type" {
      if called {
        return Err(TakesNoArgument(name));
      }
      return Ok((if name == "keys" then Keys else if name == "length" then Length else Type, j));
    }
    if name == "has" || name == "select" || name == "map" {
      if !called {
        return Err(RequiresArgument(name));
      }
      var parens := ReadParensAt(s, j);
      if parens.Err? {
        return Err(parens.error);
      }
      var (inner, next) := parens.value;
      if name == "has" {
        var key := ParseHasArg(inner);
        return if key.Ok? then Ok((Has(key.value), next)) else Err(key.error);
      }
      var steps := ReadQuery(inner);
      if steps.Err? {
        return Err(steps.error);
      }
      return Ok((if name == "select" then Select(steps.value) else Map(steps.value), next));
    }
    if WordOperator(name) {
      return Err(Unsupported(Word(name)));
    }
    r := Err(UnknownName(name));
  }

  /** `_unsupported_or_unexpected`: the rejection of `s[i]`. */
  method RejectAt(s: string, i: nat) returns (e: QueryError)
    requires i < |s|
    ensures e == Reject(s[i..])
  {
    var j := i;
    while j < |s| && IsGap(s[j])
      invariant i <= j <= |s|
      invariant SkipGap(s[i..]) == SkipGap(s[j..])
    {
      assert s[j..][1..] == s[j + 1..];
      j := j + 1;
    }
    assert SkipGap(s[i..]) == s[j..];
    if j < |s| {
      if Classify(s[j..]).Some? {
        return Unsupported(Classify(s[j..]).value);
      }
      if IdentStart(s[j]) {
        var word := ReadIdent(s, j);
        if WordOperator(word.value.0) {
          return Unsupported(Word(word.value.0));
        }
      }
    }
    e := UnexpectedChar(s[i]);
  }

  /** The branches of the loop that read a step which does not start with a dot. */
  method ReadUndotted(s: string, i: nat) returns (r: Result<(Step, nat), QueryError>)
    requires i < |s| && s[i] != '.'
    ensures match ReadStep(s[i..])
      case Err(e) => r == Err(e)
      case Ok((st, rest)) => r.Ok? && r.value.0 == st && i < r.value.1 <= |s| && s[r.value.1..] == rest
    decreases |s| - i, 1
  {
    if s[i] == '[' {
      r := ReadBracketAt(s, i);
    } else if IdentStart(s[i]) {
      r := ReadNamedAt(s, i);
    } else {
      var e := RejectAt(s, i);
      r := Err(e);
    }
  }

  /** The steps read so far and what the rest of the text parses to. */
  function Remaining(s: string, i: nat, steps: seq<Step>): Parsed
    requires i <= |s|
  {
    Follow(steps, ParseSteps(s[i..], steps == []))
  }

  /** A loop turn that reads one step and moves to `next`. */
  lemma TurnReads(s: string, i: nat, steps: seq<Step>, st: Step, next: nat)
    requires i < next <= |s| && s[i..] != "."
    requires ReadStep(s[i..]) == Ok((st, s[next..]))
    ensures Remaining(s, i, steps) == Remaining(s, next, steps + [st])
  {
    var r := ParseSteps(s[next..], false);
    if r.Ok? {
      assert steps + ([st] + r.value) == steps + [st] + r.value;
    }
  }

  lemma TurnFails(s: string, i: nat, steps: seq<Step>)
    requires i < |s| && s[i..] != "." && ReadStep(s[i..]).Err?
    ensures Remaining(s, i, steps) == Err(ReadStep(s[i..]).error)
  {
  }

  lemma FieldAt(s: string, i: nat)
    requires i + 1 < |s| && s[i] == '.' && IdentStart(s[i + 1])
    ensures var u := s[i + 1..]; ReadStep(s[i..]) == Ok((Field(u[..IdentEnd(u)]), u[IdentEnd(u)..]))
  {
    var t := s[i..];
    assert t[0] == '.' && t[1] == s[i + 1] && t[1..] == s[i + 1..];
    DottedName(t);
  }

  /** A loop turn that reads a field after its dot. */
  lemma TurnField(s: string, i: nat, steps: seq<Step>, next: nat)
    requires i + 1 < |s| && s[i] == '.' && IdentStart(s[i + 1]) && next == i + 1 + IdentEnd(s[i + 1..])
    ensures Remaining(s, i, steps) == Remaining(s, next, steps + [Field(s[i + 1..][..IdentEnd(s[i + 1..])])])
  {
    FieldAt(s, i);
    assert s[i + 1..][IdentEnd(s[i + 1..])..] == s[next..];
    TurnReads(s, i, steps, Field(s[i + 1..][..IdentEnd(s[i + 1..])]), next);
  }

  lemma TurnDot(s: string, i: nat, steps: seq<Step>)
    requires i + 1 < |s| && s[i] == '.' && !IdentStart(s[i + 1])
    ensures s[i + 1] == '.' ==> Remaining(s, i, steps) == Err(Unsupported(RecursiveDescent))
    ensures s[i + 1] == '[' ==> Remaining(s, i, steps) == Remaining(s, i + 1, steps)
    ensures s[i + 1] != '.' && s[i + 1] != '[' ==> Remaining(s, i, steps) == Err(ExpectedFieldName)
  {
    var t := s[i..];
    assert t[0] == '.' && t[1] == s[i + 1] && t[1..] == s[i + 1..];
    if s[i + 1] == '[' {
      assert ReadStep(t) == ReadStep(t[1..]);
      assert t[1..] != ".";
    } else {
      assert |t| > 1;
      TurnFails(s, i, steps);
    }
  }

  lemma TurnEnds(s: string, steps: seq<Step>)
    ensures Remaining(s, |s|, steps) == Ok(steps)
    ensures s != "" && s[|s| - 1] == '.' ==> Remaining(s, |s| - 1, steps) == if steps == [] then Ok([]) else Err(TrailingDot)
  {
    assert steps + [] == steps;
    if s != "" && s[|s| - 1] == '.' {
      assert s[|s| - 1..] == ".";
    }
  }

  lemma TurnStarts(s: string)
    ensures Remaining(s, 0, []) == ParseSteps(s, true)
  {
    assert s[0..] == s;
    assert ParseSteps(s, true).Ok? ==> [] + ParseSteps(s, true).value == ParseSteps(s, true).value;
  }

  /** The loop of `parse_query`: it appends one step at a time. */
  method ReadSteps(s: string) returns (r: Parsed)
    ensures r == ParseSteps(s, true)
    decreases |s|, 2
  {
    var steps, i := [], 0;
    TurnStarts(s);
    while i < |s|
      invariant i <= |s|
      invariant ParseSteps(s, true) == Remaining(s, i, steps)
      decreases |s| - i
    {
      if s[i] == '.' {
        i := i + 1;
        TurnEnds(s, steps);
        if i >= |s| {
          if steps == [] {
            break;
          }
          return Err(TrailingDot);
        }
        if !IdentStart(s[i]) {
          TurnDot(s, i - 1, steps);
        }
        if s[i] == '.' {
          return Err(Unsupported(RecursiveDescent));
        }
        if s[i] == '[' {
          continue;
        }
        var ident := ReadIdent(s, i);
        if ident.Err? {
          return Err(ident.error);
        }
        TurnField(s, i - 1, steps, ident.value.1);
        steps, i := steps + [Field(ident.value.0)], ident.value.1;
      } else {
        var step := ReadUndotted(s, i);
        if step.Err? {
          TurnFails(s, i, steps);
          return Err(step.error);
        }
        TurnReads(s, i, steps, step.value.0, step.value.1);
        steps, i := steps + [step.value.0], step.value.1;
      }
    }
    TurnEnds(s, steps);
    r := Ok(steps);
  }

  /** `parse_query` */
  method ReadQuery(query: string) returns (r: Parsed)
    ensures r == ParseQuery(query)
    decreases |query|, 3
  {
    var s := Strip(query);
    if s == "" {
      return Err(Empty);
    }
    if s[0] != '.' && !IdentStart(s[0]) {
      match Classify(s) {
        case Some(construct) => return Err(Unsupported(construct));
        case None => return Err(BadStart);
      }
    }
    r := ReadSteps(s);
  }
}
