/** A canonical text for every well-formed step list. */
module JqPrinter {
  import opened Decimal
  import opened JqSyntax

  function HexDigit(d: nat): char
    requires d < 16
  {
    if d < 10 then ('0' as int + d) as char else ('a' as int + d - 10) as char
  }

  /** `\u00XX` */
  function UnicodeEscape(c: char): string
    requires c as int < 0x80
  {
    "\\u00" + [HexDigit(c as int / 16), HexDigit(c as int % 16)]
  }

  predicate IsParen(c: char) {
    c == '(' || c == ')'
  }

  /**
   A character inside a JSON string literal. The scan for the closing parenthesis of `has(...)` does
   not know about strings, so a printer that wants to be read back has to escape parentheses too.
   */
  function EncodeChar(c: char, escapeParens: bool): string {
    if c == '"' then "\\\""
    else if c == '\\' then "\\\\"
    else if c as int < 0x20 || (escapeParens && IsParen(c)) then UnicodeEscape(c)
    else [c]
  }

  function EncodeBody(k: string, escapeParens: bool): string {
    if k == "" then "" else EncodeChar(k[0], escapeParens) + EncodeBody(k[1..], escapeParens)
  }

  function Quote(k: string, escapeParens: bool): string {
    "\"" + EncodeBody(k, escapeParens) + "\""
  }

  function PrintKey(key: Key): string {
    match key
    case StrKey(k) => Quote(k, true)
    case IntKey(n) => Dec(n)
  }

  function PrintStep(st: Step): string
    decreases st
  {
    match st
    case Field(name) => "." + name
    case Index(n) => "." + ("[" + Dec(n) + "]")
    case Iterate => "." + "[]"
    case Select(inner) => "select" + "(" + PrintQuery(inner) + ")"
    case Map(inner) => "map" + "(" + PrintQuery(inner) + ")"
    case Keys => "keys"
    case Length => "length"
    case Type => "type"
    case Has(key) => "has" + "(" + PrintKey(key) + ")"
  }

  function PrintSteps(steps: seq<Step>): string
    decreases steps, 0
  {
    if steps == [] then "" else PrintStep(steps[0]) + PrintSteps(steps[1..])
  }

  /** The canonical query text; the empty list is the identity query. */
  function PrintQuery(steps: seq<Step>): string
    decreases steps, 1
  {
    if steps == [] then "." else PrintSteps(steps)
  }
}
