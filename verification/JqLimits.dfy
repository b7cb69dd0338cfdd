/**
 Where a query written in the ordinary way does not do what it seems to say: keys of `has` in plain JSON
 quotes, whose own parentheses the scan for the closing one counts (jqlite/parser.py).
 */
module JqLimits {
  import opened Results
  import opened JqSyntax
  import opened Text
  import opened JqParser
  import opened JqPrinter
  import opened JqRoundTrip

  // --- has(k) with an ordinary JSON literal ---

  lemma {:induction false} EncodedDepth(k: string, d: nat)
    ensures Depth(EncodeBody(k, false), d) == Depth(k, d)
  {
    if k != "" {
      var e := EncodeChar(k[0], false);
      if IsParen(k[0]) {
        DepthOfConcat(e, EncodeBody(k[1..], false), d);
        EncodedDepth(k[1..], if k[0] == '(' then d + 1 else if d > 0 then d - 1 else d);
      } else {
        PlainIsNeutral(e);
        assert Depth(e, d) == Some(d);
        DepthOfConcat(e, EncodeBody(k[1..], false), d);
        EncodedDepth(k[1..], d);
      }
    }
  }

  lemma {:induction false} EncodedConcat(a: string, b: string, escapeParens: bool)
    ensures EncodeBody(a + b, escapeParens) == EncodeBody(a, escapeParens) + EncodeBody(b, escapeParens)
  {
    if a == "" {
      assert a + b == b;
    } else {
      assert (a + b)[1..] == a[1..] + b;
      EncodedConcat(a[1..], b, escapeParens);
    }
  }

  /** A depth that falls below zero does so at some closing parenthesis. */
  lemma {:induction false} FirstUnderflow(k: string, d: nat) returns (m: string, n: string)
    requires Depth(k, d) == None
    ensures k == m + ")" + n && Depth(m, d) == Some(0)
  {
    if k[0] == ')' && d == 0 {
      m, n := "", k[1..];
    } else {
      var rest;
      rest, n := FirstUnderflow(k[1..], if k[0] == '(' then d + 1 else if k[0] == ')' then d - 1 else d);
      m := [k[0]] + rest;
      assert m[1..] == rest;
    }
  }

  /** A literal without its closing quote is no string. */
  lemma {:induction false} Unterminated(m: string)
    ensures StringBody(EncodeBody(m, false)) == None
  {
    if m != "" {
      var e, tail := EncodeChar(m[0], false), EncodeBody(m[1..], false);
      Unterminated(m[1..]);
      assert EncodeBody(m, false) == e + tail;
      if e == [m[0]] {
        assert (e + tail)[1..] == tail;
      } else if |e| == 2 {
        assert (e + tail)[1..][0] == e[1];
        assert (e + tail)[2..] == tail;
      } else {
        EscapeRead(m[0], tail);
        assert (e + tail)[6..] == tail;
      }
    }
  }

  lemma LiteralEnds(front: string, last: char)
    ensures "\"" + EncodeBody(front + [last], false) == "\"" + EncodeBody(front, false) + EncodeChar(last, false)
  {
    EncodedConcat(front, [last], false);
    EncodedLast(last);
    Regroup("\"", EncodeBody(front, false), EncodeChar(last, false));
  }

  lemma EncodedLast(c: char)
    ensures EncodeBody([c], false) == EncodeChar(c, false)
  {
    assert EncodeBody([], false) == "";
  }

  lemma StripLast(s: string, c: char)
    ensures StripRight(s + [c]) == if IsSpace(c) then StripRight(s) else s + [c]
  {
    assert (s + [c])[..|s|] == s;
  }

  lemma StripEscape(s: string, e: string)
    requires e != "" && !IsSpace(e[|e| - 1])
    ensures StripRight(s + e) == s + e
  {
  }

  lemma {:induction false} StrippedLiteral(m: string) returns (m': string)
    ensures StripRight("\"" + EncodeBody(m, false)) == "\"" + EncodeBody(m', false)
  {
    m' := m;
    if m != "" {
      var front, last := m[..|m| - 1], m[|m| - 1];
      assert m == front + [last];
      LiteralEnds(front, last);
      var s, e := "\"" + EncodeBody(front, false), EncodeChar(last, false);
      if IsSpace(last) && e == [last] {
        StripLast(s, last);
        m' := StrippedLiteral(front);
      } else {
        StripEscape(s, e);
      }
    }
  }

  lemma TruncatedKey(m: string)
    ensures ParseHasArg("\"" + EncodeBody(m, false)).Err?
  {
    var s := "\"" + EncodeBody(m, false);
    var m' := StrippedLiteral(m);
    Unterminated(m');
    assert StripLeft(s) == s;
    assert ("\"" + EncodeBody(m', false))[1..] == EncodeBody(m', false);
  }

  lemma ClosedQueryStripped(s: string)
    requires s != "" && IdentStart(s[0]) && s[|s| - 1] == ')'
    ensures ParseQuery(s) == ParseSteps(s, true)
  {
    TightIsStripped(s);
  }

  lemma HasEnds(after: string)
    requires after != ""
    ensures var q := "has" + after; q != "" && IdentStart(q[0]) && q[|q| - 1] == after[|after| - 1]
  {
  }

  lemma HasQuery(after: string)
    requires after != "" && after[|after| - 1] == ')'
    ensures ParseQuery("has" + after) == ParseSteps("has" + after, true)
  {
    HasEnds(after);
    ClosedQueryStripped("has" + after);
  }

  lemma HasNamed(after: string)
    requires after != "" && after[0] == '('
    ensures ReadStep("has" + after) == NamedStep("has", after)
  {
    NameRead("has", after);
    assert ("has" + after)[0] == 'h';
    StartsNamed("has" + after);
  }

  lemma HasReads(after: string, inner: string, key: Key)
    requires after != "" && after[0] == '(' && after[|after| - 1] == ')'
    requires ReadParens(after) == Ok((inner, "")) && ParseHasArg(inner) == Ok(key)
    ensures ParseQuery("has" + after) == Ok([Has(key)])
  {
    HasQuery(after);
    HasNamed(after);
    HasStep(after);
    LastStep("has" + after, Has(key));
  }

  lemma LastStep(t: string, st: Step)
    requires t != "" && t != "." && ReadStep(t) == Ok((st, ""))
    ensures ParseSteps(t, true) == Ok([st])
  {
    assert ParseSteps("", false) == Ok([]);
    assert [st] + [] == [st];
  }

  lemma HasFails(after: string)
    requires after != "" && after[0] == '(' && after[|after| - 1] == ')'
    requires ReadParens(after).Err? || ParseHasArg(ReadParens(after).value.0).Err?
    ensures ParseQuery("has" + after).Err?
  {
    HasQuery(after);
    HasNamed(after);
    HasStep(after);
    StepFails("has" + after);
  }

  lemma StepFails(t: string)
    requires t != "" && t != "." && ReadStep(t).Err?
    ensures ParseSteps(t, true).Err?
  {
  }

  lemma HasStep(after: string)
    requires after != "" && after[0] == '('
    ensures NamedStep("has", after) == match ReadParens(after)
      case Err(e) => Err(e)
      case Ok((inner, rest)) =>
        (match ParseHasArg(inner) case Err(e) => Err(e) case Ok(key) => Ok((Has(key), rest)))
  {
  }

  lemma PlainDepth(k: string)
    ensures Depth(Quote(k, false), 0) == Depth(k, 0)
  {
    var body := EncodeBody(k, false);
    EncodedDepth(k, 0);
    DepthOfConcat(body, "\"", 0);
    assert Quote(k, false) == "\"" + (body + "\"");
    assert Quote(k, false)[1..] == body + "\"";
  }

  lemma PlainKeyBalanced(k: string)
    requires Depth(k, 0) == Some(0)
    ensures ParseQuery("has" + ("(" + Quote(k, false) + ")")) == Ok([Has(StrKey(k))])
  {
    var x := Quote(k, false);
    PlainDepth(k);
    CutParens(x, "");
    assert "(" + x + ")" + "" == "(" + x + ")";
    QuotedRead(k, false);
    HasReads("(" + x + ")", x, StrKey(k));
  }

  lemma PlainKeyOpen(k: string)
    requires Depth(k, 0).Some? && Depth(k, 0) != Some(0)
    ensures ParseQuery("has" + ("(" + Quote(k, false) + ")")).Err?
  {
    var x := Quote(k, false);
    PlainDepth(k);
    OpenParens(x);
    HasFails("(" + x + ")");
  }

  /**
   `has` with the key written as an ordinary JSON string literal reads that key back exactly when the
   key's own parentheses balance: the scan for the closing parenthesis does not skip strings.
   */
  lemma PlainKeyRead(k: string)
    ensures ParseQuery("has" + ("(" + Quote(k, false) + ")")) == Ok([Has(StrKey(k))]) <==> Depth(k, 0) == Some(0)
  {
    if Depth(k, 0) == None {
      PlainKeyCut(k);
    } else if Depth(k, 0) == Some(0) {
      PlainKeyBalanced(k);
    } else {
      PlainKeyOpen(k);
    }
  }

  /** A key whose depth falls below zero is cut short by the scan, and the cut literal is rejected. */
  lemma PlainKeyCut(k: string)
    requires Depth(k, 0) == None
    ensures ParseQuery("has" + ("(" + Quote(k, false) + ")")).Err?
  {
    var m, n := FirstUnderflow(k, 0);
    var head, tail := "\"" + EncodeBody(m, false), EncodeBody(n, false) + "\"";
    QuoteSplit(m, n);
    HeadDepth(m);
    TruncatedKey(m);
    CutFails(Quote(k, false), head, tail);
  }

  lemma HeadDepth(m: string)
    requires Depth(m, 0) == Some(0)
    ensures Depth("\"" + EncodeBody(m, false), 0) == Some(0)
  {
    EncodedDepth(m, 0);
    assert ("\"" + EncodeBody(m, false))[1..] == EncodeBody(m, false);
  }

  lemma CutFails(x: string, head: string, tail: string)
    requires x == head + ")" + tail && Depth(head, 0) == Some(0) && ParseHasArg(head).Err?
    ensures ParseQuery("has" + ("(" + x + ")")).Err?
  {
    CutParens(head, tail + ")");
    assert "(" + x + ")" == "(" + head + ")" + (tail + ")");
    HasFails("(" + x + ")");
  }

  lemma Requoted(a: string, b: string)
    ensures "\"" + (a + ")" + b) + "\"" == "\"" + a + ")" + (b + "\"")
  {
  }

  lemma QuoteSplit(m: string, n: string)
    ensures Quote(m + ")" + n, false) == "\"" + EncodeBody(m, false) + ")" + (EncodeBody(n, false) + "\"")
  {
    EncodedConcat(m + ")", n, false);
    EncodedConcat(m, ")", false);
    assert EncodeBody(")", false) == ")";
    Requoted(EncodeBody(m, false), EncodeBody(n, false));
  }

  lemma OpenParens(x: string)
    requires Depth(x, 0).Some? && Depth(x, 0) != Some(0)
    ensures ReadParens("(" + x + ")").Err?
  {
    CloseAfterDepth(x, ")", 0, Depth(x, 0).value);
    assert ("(" + x + ")")[1..] == x + ")";
  }

  lemma CutParens(head: string, rest: string)
    requires Depth(head, 0) == Some(0)
    ensures ReadParens("(" + head + ")" + rest) == Ok((head, rest))
  {
    var t := "(" + head + ")" + rest;
    CloseAfterDepth(head, ")" + rest, 0, 0);
    assert t[1..] == head + (")" + rest);
    assert t[1..1 + |head|] == head && t[2 + |head|..] == rest;
  }
}
