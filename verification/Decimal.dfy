/**
 Decimal numerals as Python reads and writes them: `str` of an integer, `int` of a text with an optional sign
 and single underscores between digits, and the integers of JSON, which allow neither of these nor a leading zero.
 */
module Decimal {
  import opened Results

  predicate IsDigit(c: char) {
    '0' <= c <= '9'
  }

  function DigitChar(d: nat): (c: char)
    requires d < 10
    ensures IsDigit(c) && DigitVal(c) == d
  {
    ('0' as int + d) as char
  }

  function DigitVal(c: char): (d: nat)
    requires IsDigit(c)
    ensures d < 10
  {
    c as int - '0' as int
  }

  predicate AllDigits(s: string) {
    forall i :: 0 <= i < |s| ==> IsDigit(s[i])
  }

  /** The value of a digit string, most significant digit first. */
  function ValNat(s: string): nat
    requires AllDigits(s)
  {
    if s == "" then 0 else 10 * ValNat(s[..|s| - 1]) + DigitVal(s[|s| - 1])
  }

  function DecNat(n: nat): string {
    if n < 10 then [DigitChar(n)] else DecNat(n / 10) + [DigitChar(n % 10)]
  }

  /** `str(n)` for an integer. */
  function Dec(n: int): string {
    if n < 0 then "-" + DecNat(-n) else DecNat(n)
  }

  /** The body of an `int()` literal: digits, with single underscores allowed between two digits. */
  function PyDigits(b: string): Option<nat> {
    if b == "" || !IsDigit(b[|b| - 1]) then
      None
    else
      var d := DigitVal(b[|b| - 1]);
      var rest := b[..|b| - 1];
      if rest == "" then
        Some(d)
      else
        var high := if rest[|rest| - 1] == '_' then rest[..|rest| - 1] else rest;
        match PyDigits(high)
        case Some(v) => Some(10 * v + d)
        case None => None
  }

  /** `int(t)` for stripped text: an optional sign and a digit body. */
  function PyInt(t: string): Option<int> {
    if t != "" && (t[0] == '-' || t[0] == '+') then
      match PyDigits(t[1..])
      case Some(v) =>
        var n: int := v;
        Some(if t[0] == '-' then -n else n)
      case None => None
    else
      match PyDigits(t)
      case Some(v) => Some(v)
      case None => None
  }

  /** A JSON number that is an integer: no leading zero, fraction or exponent (RFC 8259, section 6). */
  function JsonInt(t: string): Option<int> {
    var body := if t != "" && t[0] == '-' then t[1..] else t;
    if body == "" || !AllDigits(body) || (|body| > 1 && body[0] == '0') then
      None
    else
      var n: int := ValNat(body);
      Some(if t[0] == '-' then -n else n)
  }

  lemma {:induction false} DecNatReads(n: nat)
    ensures DecNat(n) != "" && AllDigits(DecNat(n))
    ensures ValNat(DecNat(n)) == n
    ensures PyDigits(DecNat(n)) == Some(n)
    ensures |DecNat(n)| > 1 ==> DecNat(n)[0] != '0'
    ensures n > 0 ==> DecNat(n)[0] != '0'
  {
    var s := DecNat(n);
    if n >= 10 {
      DecNatReads(n / 10);
      assert s[..|s| - 1] == DecNat(n / 10);
      assert s[0] == DecNat(n / 10)[0];
    }
  }

  /** `int(str(n))` and `json.loads(str(n))` both give back `n`. */
  lemma DecReads(n: int)
    ensures PyInt(Dec(n)) == Some(n)
    ensures JsonInt(Dec(n)) == Some(n)
    ensures Dec(n) != ""
    ensures forall i :: 0 <= i < |Dec(n)| ==> Dec(n)[i] == '-' || IsDigit(Dec(n)[i])
  {
    DecNatReads(if n < 0 then -n else n);
    if n < 0 {
      assert Dec(n)[1..] == DecNat(-n);
    } else {
      assert IsDigit(Dec(n)[0]);
    }
  }
}
