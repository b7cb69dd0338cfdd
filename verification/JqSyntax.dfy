/**
 The jqlite query language (jqlite/parser.py): its step lists, the errors a query is rejected with, the character
 classes its scanners test, the operators and keywords it names when it rejects them, and which step lists are
 well formed, that is, can be written at all.
 */
module JqSyntax {
  import opened Results

  /** The literal argument of `has(k)`. */
  datatype Key = StrKey(text: string) | IntKey(n: int)

  /** One access step of a parsed query. */
  datatype Step =
    | Field(name: string)
    | Index(n: int)
    | Iterate
    | Select(inner: seq<Step>)
    | Map(inner: seq<Step>)
    | Keys
    | Length
    | Type
    | Has(key: Key)

  /** A construct outside the language, as the rejection names it. */
  datatype Construct = Symbol(op: string) | Word(word: string) | RecursiveDescent

  /** What a rejected query is rejected for; the position that the message also reports is not kept. */
  datatype QueryError =
    | Empty
    | BadStart
    | TrailingDot
    | ExpectedFieldName
    | UnexpectedChar(c: char)
    | Unsupported(construct: Construct)
    | UnclosedBracket
    | BadIndex(text: string)
    | TakesNoArgument(name: string)
    | RequiresArgument(name: string)
    | UnknownName(name: string)
    | UnclosedParen
    | MissingKey
    | BadKey(text: string)

  type Parsed = Result<seq<Step>, QueryError>

  // --- character classes ---

  predicate IdentStart(c: char) {
    'a' <= c <= 'z' || 'A' <= c <= 'Z' || c == '_'
  }

  predicate IdentCont(c: char) {
    IdentStart(c) || '0' <= c <= '9'
  }

  /** The ASCII gap tolerated between an operand and a following operator. */
  predicate IsGap(c: char) {
    c == ' ' || 9 <= c as int <= 13
  }

  predicate IsIdent(name: string) {
    name != "" && IdentStart(name[0]) && forall i :: 0 <= i < |name| ==> IdentCont(name[i])
  }

  // --- operators outside the language ---

  predicate TwoCharOperator(a: char, b: char) {
    || (b == '=' && (a == '=' || a == '!' || a == '<' || a == '>' || a == '|' || a == '+' || a == '-' || a == '*' || a == '/'))
    || (a == '/' && b == '/')
  }

  predicate OneCharOperator(c: char) {
    || c == '|' || c == '+' || c == '-' || c == '*' || c == '/' || c == '%'
    || c == '<' || c == '>' || c == '=' || c == '!' || c == '\\'
  }

  /** The construct named when a symbolic operator begins the text; two characters before one. */
  function Classify(t: string): Option<Construct>
    requires t != ""
  {
    if |t| >= 2 && TwoCharOperator(t[0], t[1]) then Some(Symbol(t[..2]))
    else if OneCharOperator(t[0]) then Some(Symbol(t[..1]))
    else None
  }

  predicate WordOperator(word: string) {
    word == "and" || word == "or" || word == "not"
  }

  // --- well-formed step lists ---

  /** Steps written as an identifier, so that they cannot follow another identifier. */
  predicate Named(st: Step) {
    st.Select? || st.Map? || st.Keys? || st.Length? || st.Type? || st.Has?
  }

  /** Steps whose text ends in an identifier. */
  predicate EndsInIdent(st: Step) {
    st.Field? || st.Keys? || st.Length? || st.Type?
  }

  predicate WellFormedStep(st: Step)
    decreases st
  {
    match st
    case Field(name) => IsIdent(name)
    case Select(inner) => WellFormed(inner)
    case Map(inner) => WellFormed(inner)
    case _ => true
  }

  /** The step lists that a query text can denote: no named step directly after an identifier, at every level. */
  predicate WellFormed(steps: seq<Step>)
    decreases steps
  {
    steps == [] ||
    (WellFormedStep(steps[0])
     && (|steps| > 1 && EndsInIdent(steps[0]) ==> !Named(steps[1]))
     && WellFormed(steps[1..]))
  }
}
