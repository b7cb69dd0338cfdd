/**
 Parsing of jqlite queries (jqlite/parser.py), on suffixes of the text: every function takes the text that is left
 and gives back what it read and the text after that, which is shorter, so that the recursion through filter
 arguments ends. The methods of `JqReader` walk an index over the whole text with the loops of the source and are
 proved to compute the same.
 */
module JqParser {
  import opened Results
  import opened Decimal
  import opened JqSyntax
  import opened Text

  // --- scanning ---

  /** The number of leading identifier characters. */
  function IdentEnd(t: string): (n: nat)
    ensures n <= |t|
    ensures t != "" && IdentStart(t[0]) ==> n >= 1
  {
    if t != "" && IdentCont(t[0]) then 1 + IdentEnd(t[1..]) else 0
  }

  /** The first index of `]`. */
  function FindBracket(t: string): (r: Option<nat>)
    ensures r.Some? ==> r.value < |t| && t[r.value] == ']'
  {
    if t == "" then None
    else if t[0] == ']' then Some(0)
    else match FindBracket(t[1..])
      case Some(k) => Some(k + 1)
      case None => None
  }

  /** The index of the `)` that closes `depth` open parentheses. */
  function CloseParen(t: string, depth: nat): (r: Option<nat>)
    requires depth > 0
    ensures r.Some? ==> r.value < |t| && t[r.value] == ')'
  {
    if t == "" then None
    else if t[0] == ')' && depth == 1 then Some(0)
    else
      var deeper := if t[0] == '(' then depth + 1 else if t[0] == ')' then depth - 1 else depth;
      match CloseParen(t[1..], deeper)
      case Some(k) => Some(k + 1)
      case None => None
  }

  function SkipGap(t: string): (r: string)
    ensures |r| <= |t|
  {
    if t != "" && IsGap(t[0]) then SkipGap(t[1..]) else t
  }

  // --- JSON string literals (RFC 8259, section 7) ---

  function HexVal(c: char): Option<nat> {
    if '0' <= c <= '9' then Some(c as int - '0' as int)
    else if 'a' <= c <= 'f' then Some(c as int - 'a' as int + 10)
    else if 'A' <= c <= 'F' then Some(c as int - 'A' as int + 10)
    else None
  }

  /** The value of four hexadecimal digits at the front of the text. */
  function Hex4(t: string): (r: Option<nat>)
    ensures r.Some? ==> |t| >= 4 && r.value < 0x10000
  {
    if |t| < 4 then None
    else match (HexVal(t[0]), HexVal(t[1]), HexVal(t[2]), HexVal(t[3]))
      case (Some(a), Some(b), Some(c), Some(d)) =>
        if a < 16 && b < 16 && c < 16 && d < 16 then Some(((a * 16 + b) * 16 + c) * 16 + d) else None
      case _ => None
  }

  function ShortEscape(c: char): Option<char> {
    match c
    case '"' => Some('"')
    case '\\' => Some('\\')
    case '/' => Some('/')
    case 'b' => Some(8 as char)
    case 'f' => Some(12 as char)
    case 'n' => Some(10 as char)
    case 'r' => Some(13 as char)
    case 't' => Some(9 as char)
    case _ => None
  }

  /**
   One escape after its backslash: the character and how much text it took. A surrogate pair is one
   character; a surrogate on its own has no character value here.
   */
  function Escape(t: string): (r: Option<(char, nat)>)
    ensures r.Some? ==> 0 < r.value.1 <= |t|
  {
    if t == "" then None
    else if t[0] != 'u' then
      match ShortEscape(t[0])
      case Some(c) => Some((c, 1))
      case None => None
    else
      match Hex4(t[1..])
      case None => None
      case Some(v) =>
        if 0xD800 <= v < 0xDC00 then
          if |t| >= 7 && t[5] == '\\' && t[6] == 'u' then
            match Hex4(t[7..])
            case Some(w) =>
              if 0xDC00 <= w < 0xE000 then
                Some(((0x10000 + (v - 0xD800) * 0x400 + (w - 0xDC00)) as char, 11))
              else None
            case None => None
          else None
        else if 0xDC00 <= v < 0xE000 then None
        else Some((v as char, 5))
  }

  /** The string that ends at the next unescaped quote, and the text after it. */
  function StringBody(t: string): (r: Option<(string, string)>)
    ensures r.Some? ==> |r.value.1| < |t|
    decreases |t|
  {
    if t == "" then None
    else if t[0] == '"' then Some(("", t[1..]))
    else if t[0] == '\\' then
      match Escape(t[1..])
      case None => None
      case Some((c, n)) =>
        (match StringBody(t[1 + n..])
         case Some((k, rest)) => Some(([c] + k, rest))
         case None => None)
    else if (t[0] as int) < 0x20 then None
    else
      match StringBody(t[1..])
      case Some((k, rest)) => Some(([t[0]] + k, rest))
      case None => None
  }

  /** The literal key of `has(k)`: a JSON string or a JSON integer and nothing else. */
  function ParseHasArg(src: string): Result<Key, QueryError> {
    var text := Strip(src);
    if text == "" then
      Err(MissingKey)
    else if text[0] == '"' then
      match StringBody(text[1..])
      case Some((k, rest)) => if rest == "" then Ok(StrKey(k)) else Err(BadKey(text))
      case None => Err(BadKey(text))
    else
      match JsonInt(text)
      case Some(n) => Ok(IntKey(n))
      case None => Err(BadKey(text))
  }

  // --- the grammar ---

  /** A bracket step at the front of the text, and the text after it. */
  function ReadBracket(t: string): (r: Result<(Step, string), QueryError>)
    requires t != "" && t[0] == '['
    ensures r.Ok? ==> |r.value.1| < |t|
  {
    match FindBracket(t)
    case None => Err(UnclosedBracket)
    case Some(close) =>
      var inner := Strip(t[1..close]);
      if inner == "" then
        Ok((Iterate, t[close + 1..]))
      else
        match PyInt(inner)
        case Some(n) => Ok((Index(n), t[close + 1..]))
        case None => Err(BadIndex(inner))
  }

  /** The parenthesised argument at the front of the text, and the text after it. */
  function ReadParens(t: string): (r: Result<(string, string), QueryError>)
    requires t != "" && t[0] == '('
    ensures r.Ok? ==> |r.value.0| < |t| && |r.value.1| < |t|
  {
    match CloseParen(t[1..], 1)
    case None => Err(UnclosedParen)
    case Some(k) => Ok((t[1..1 + k], t[2 + k..]))
  }

  /** The step that a name introduces, given the text after the name, and the text after the step. */
  function NamedStep(name: string, after: string): (r: Result<(Step, string), QueryError>)
    ensures r.Ok? ==> |r.value.1| <= |after|
    decreases |after|, 4
  {
    var called := after != "" && after[0] == '(';
    if name == "keys" || name == "length" || name == "type" then
      if called then Err(TakesNoArgument(name))
      else Ok((if name == "keys" then Keys else if name == "length" then Length else Type, after))
    else if name == "has" then
      if !called then Err(RequiresArgument(name))
      else
        var (inner, rest) :- ReadParens(after);
        var key :- ParseHasArg(inner);
        Ok((Has(key), rest))
    else if name == "select" || name == "map" then
      if !called then Err(RequiresArgument(name))
      else
        var (inner, rest) :- ReadParens(after);
        var steps :- ParseQuery(inner);
        Ok((if name == "select" then Select(steps) else Map(steps), rest))
    else if WordOperator(name) then
      Err(Unsupported(Word(name)))
    else
      Err(UnknownName(name))
  }

  /** A named step at the front of the text, and the text after it. */
  function ReadNamed(t: string): (r: Result<(Step, string), QueryError>)
    requires t != "" && IdentStart(t[0])
    ensures r.Ok? ==> |r.value.1| < |t|
    decreases |t|, 0
  {
    NamedStep(t[..IdentEnd(t)], t[IdentEnd(t)..])
  }

  /** The rejection of a character that begins no step. */
  function Reject(t: string): QueryError
    requires t != ""
  {
    var rest := SkipGap(t);
    if rest != "" && Classify(rest).Some? then
      Unsupported(Classify(rest).value)
    else if rest != "" && IdentStart(rest[0]) && WordOperator(rest[..IdentEnd(rest)]) then
      Unsupported(Word(rest[..IdentEnd(rest)]))
    else
      UnexpectedChar(t[0])
  }

  function Prepend(st: Step, tail: Parsed): Parsed {
    if tail.Ok? then Ok([st] + tail.value) else tail
  }

  function Follow(steps: seq<Step>, r: Parsed): Parsed {
    if r.Ok? then Ok(steps + r.value) else r
  }

  /** The step at the front of the text, and the text after it. */
  function ReadStep(t: string): (r: Result<(Step, string), QueryError>)
    requires t != "" && t != "."
    ensures r.Ok? ==> |r.value.1| < |t|
    decreases |t|, 1
  {
    if t[0] == '.' then
      if t[1] == '.' then Err(Unsupported(RecursiveDescent))
      else if t[1] == '[' then ReadBracket(t[1..])
      else if !IdentStart(t[1]) then Err(ExpectedFieldName)
      else
        var u := t[1..];
        Ok((Field(u[..IdentEnd(u)]), u[IdentEnd(u)..]))
    else if t[0] == '[' then ReadBracket(t)
    else if IdentStart(t[0]) then ReadNamed(t)
    else Err(Reject(t))
  }

  /** The steps of the remaining text; `first` says that no step has been read before it. */
  function ParseSteps(t: string, first: bool): Parsed
    decreases |t|, 2
  {
    if t == "" then
      Ok([])
    else if t == "." then
      (if first then Ok([]) else Err(TrailingDot))
    else
      var (st, rest) :- ReadStep(t);
      Prepend(st, ParseSteps(rest, false))
  }

  /** The step list that a query text denotes, or why it denotes none. */
  function ParseQuery(query: string): Parsed
    decreases |query|, 3
  {
    var s := Strip(query);
    if s == "" then Err(Empty)
    else if s[0] != '.' && !IdentStart(s[0]) then
      match Classify(s)
      case Some(construct) => Err(Unsupported(construct))
      case None => Err(BadStart)
    else ParseSteps(s, true)
  }
}
