/** The table of the operators that a rejection names (jqlite/parser.py). */
module JqTable {
  import opened Results
  import opened JqSyntax
  import opened JqParser
  import opened JqRoundTrip
  import opened JqOperators

  function LongSymbols(): set<string> {
    {"==", "!=", "<=", ">=", "|=", "+=", "-=", "*=", "/=", "//"}
  }

  function ShortSymbols(): set<string> {
    {"|", "+", "-", "*", "/", "%", "<", ">", "=", "!", "\\"}
  }

  function Words(): set<string> {
    {"and", "or", "not"}
  }

  lemma LongExact(op: string)
    requires |op| == 2
    ensures TwoCharOperator(op[0], op[1]) <==> op in LongSymbols()
  {
    assert op == [op[0], op[1]];
  }

  lemma ShortExact(op: string)
    requires |op| == 1
    ensures OneCharOperator(op[0]) <==> op in ShortSymbols()
  {
    assert op == [op[0]];
  }

  /** The operator of the table that a text begins with; two characters go before one. */
  ghost predicate Begins(u: string, c: Construct) {
    match c
    case Symbol(op) => op <= u && (op in LongSymbols() || (op in ShortSymbols() && (|u| >= 2 ==> u[..2] !in LongSymbols())))
    case Word(w) => w in Words() && w <= u && (|w| < |u| ==> !IdentCont(u[|w|]))
    case RecursiveDescent => false
  }

  lemma SymbolFound(u: string, op: string)
    requires u != ""
    ensures Classify(u) == Some(Symbol(op)) <==>
              op <= u && (op in LongSymbols() || (op in ShortSymbols() && (|u| >= 2 ==> u[..2] !in LongSymbols())))
  {
    if |u| >= 2 {
      LongExact(u[..2]);
    }
    ShortExact(u[..1]);
    assert op in LongSymbols() ==> |op| == 2;
    assert op in ShortSymbols() ==> |op| == 1;
    assert op <= u && |op| == 1 ==> op == u[..1];
    assert op <= u && |op| == 2 ==> op == u[..2];
  }

  lemma WordIsIdent(w: string)
    requires w in Words()
    ensures w != "" && IdentStart(w[0]) && forall i :: 0 <= i < |w| ==> IdentCont(w[i])
  {
  }

  lemma NameIsNoSymbol(u: string)
    requires u != "" && IdentStart(u[0])
    ensures Classify(u).None?
  {
  }

  lemma WordLength(w: string, u: string)
    requires w in Words() && w <= u && (|w| < |u| ==> !IdentCont(u[|w|]))
    ensures IdentEnd(u) == |w| && u != "" && IdentStart(u[0]) && Classify(u).None?
  {
    WordIsIdent(w);
    assert u == w + u[|w|..];
    IdentEndStops(w, u[|w|..]);
    assert u[0] == w[0];
    NameIsNoSymbol(u);
  }

  lemma WordFound(u: string, w: string)
    requires u != ""
    ensures Operator(u) == Some(Word(w)) <==> w in Words() && w <= u && (|w| < |u| ==> !IdentCont(u[|w|]))
  {
    if w in Words() && w <= u && (|w| < |u| ==> !IdentCont(u[|w|])) {
      WordLength(w, u);
      assert u[..|w|] == w;
    }
    if Operator(u) == Some(Word(w)) {
      IdentEndMaximal(u);
    }
  }

  lemma SymbolOrWord(u: string)
    requires u != "" && Operator(u).Some?
    ensures Operator(u).value.Symbol? <==> Classify(u).Some?
    ensures !Operator(u).value.RecursiveDescent?
  {
  }

  /** What is named is what the text begins with in the table. */
  lemma OperatorExact(u: string, c: Construct)
    requires u != ""
    ensures Operator(u) == Some(c) <==> Begins(u, c)
  {
    match c {
      case Symbol(op) =>
        SymbolFound(u, op);
        if Operator(u).Some? {
          SymbolOrWord(u);
        }
      case Word(w) => WordFound(u, w);
      case RecursiveDescent =>
        if Operator(u).Some? {
          SymbolOrWord(u);
        }
    }
  }
}
