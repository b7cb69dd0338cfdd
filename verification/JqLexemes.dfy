/** The literals of a query, told by their spelling: indices, and the JSON integers and strings of keys (jqlite/parser.py). */
module JqLexemes {
  import opened Results
  import opened Decimal
  import opened JqSyntax
  import opened Text
  import opened JqParser

  // --- integers ---

  /** Digits, with single underscores between two of them. */
  ghost predicate Underscored(b: string) {
    && b != "" && IsDigit(b[0]) && IsDigit(b[|b| - 1])
    && (forall i :: 0 <= i < |b| ==> IsDigit(b[i]) || b[i] == '_')
    && forall i :: 0 <= i < |b| - 1 && b[i] == '_' ==> b[i + 1] != '_'
  }

  function Digits(b: string): (d: string)
    ensures (forall i :: 0 <= i < |b| ==> IsDigit(b[i]) || b[i] == '_') ==> AllDigits(d)
  {
    if b == "" then ""
    else Digits(b[..|b| - 1]) + if b[|b| - 1] == '_' then "" else [b[|b| - 1]]
  }

  lemma {:induction false} DigitsExact(b: string)
    ensures PyDigits(b).Some? <==> Underscored(b)
    ensures PyDigits(b).Some? ==> AllDigits(Digits(b)) && PyDigits(b).value == ValNat(Digits(b))
  {
    if b != "" && IsDigit(b[|b| - 1]) {
      var rest := b[..|b| - 1];
      if rest == "" {
        assert Digits(b) == b;
      } else {
        var high := if rest[|rest| - 1] == '_' then rest[..|rest| - 1] else rest;
        DigitsExact(high);
        HighExact(b, rest, high);
      }
    }
  }

  lemma HighExact(b: string, rest: string, high: string)
    requires |b| > 1 && IsDigit(b[|b| - 1]) && rest == b[..|b| - 1]
    requires high == if rest[|rest| - 1] == '_' then rest[..|rest| - 1] else rest
    ensures Underscored(b) <==> Underscored(high)
    ensures Digits(b) == Digits(high) + [b[|b| - 1]]
  {
    assert Digits(b) == Digits(rest) + [b[|b| - 1]];
    if rest[|rest| - 1] == '_' {
      assert Digits(rest) == Digits(high) + "";
    }
    if Underscored(high) {
      forall i | 0 <= i < |b| ensures IsDigit(b[i]) || b[i] == '_' {
        assert i < |high| ==> b[i] == high[i];
      }
      forall i | 0 <= i < |b| - 1 && b[i] == '_' ensures b[i + 1] != '_' {
        assert i < |high| - 1 ==> high[i] == b[i] && high[i + 1] == b[i + 1];
      }
    }
  }

  /** A sign or none, and such digits. */
  ghost predicate IndexText(t: string, sign: string, b: string, n: int) {
    && (sign == "" || sign == "+" || sign == "-") && t == sign + b && Underscored(b)
    && var v: int := ValNat(Digits(b)); n == if sign == "-" then -v else v
  }

  lemma IndexSpelled(t: string, n: int) returns (sign: string, b: string)
    requires PyInt(t) == Some(n)
    ensures IndexText(t, sign, b, n)
  {
    var signed := t[0] == '-' || t[0] == '+';
    sign, b := if signed then t[..1] else "", if signed then t[1..] else t;
    DigitsExact(b);
    assert t == sign + b;
  }

  lemma IndexReads(t: string, sign: string, b: string, n: int)
    requires IndexText(t, sign, b, n)
    ensures PyInt(t) == Some(n)
  {
    DigitsExact(b);
    if sign == "" {
      assert t == b;
    } else {
      assert t[0] == sign[0] && t[1..] == b;
    }
  }

  /** What is read as an index, and as which. */
  lemma IndexExact(t: string, n: int)
    ensures PyInt(t) == Some(n) <==> exists sign, b :: IndexText(t, sign, b, n)
  {
    if PyInt(t) == Some(n) {
      var sign, b := IndexSpelled(t, n);
    }
    if sign, b :| IndexText(t, sign, b, n) {
      IndexReads(t, sign, b, n);
    }
  }

  lemma {:induction false} NoLeadingZero(b: string)
    requires b != "" && AllDigits(b) && (|b| > 1 ==> b[0] != '0')
    ensures b == DecNat(ValNat(b))
    ensures |b| > 1 ==> ValNat(b) >= 10
  {
    if |b| > 1 {
      var front := b[..|b| - 1];
      NoLeadingZero(front);
      if |front| == 1 {
        assert front[..0] == "";
      }
    } else {
      assert b[..0] == "";
    }
  }

  lemma JsonIntSpelled(t: string, n: int)
    requires JsonInt(t) == Some(n)
    ensures t == Dec(n) || (t == "-0" && n == 0)
  {
    NoLeadingZero(if t[0] == '-' then t[1..] else t);
    if t[0] == '-' {
      assert t == "-" + t[1..];
    }
  }

  lemma MinusZero()
    ensures JsonInt("-0") == Some(0)
  {
    assert "-0"[1..] == "0" && "0"[..0] == "";
  }

  /** The JSON integers are the decimal numerals as they are written, and `-0`. */
  lemma JsonIntExact(t: string, n: int)
    ensures JsonInt(t) == Some(n) <==> t == Dec(n) || (t == "-0" && n == 0)
  {
    DecReads(n);
    MinusZero();
    if JsonInt(t) == Some(n) {
      JsonIntSpelled(t, n);
    }
  }

  // --- JSON strings ---

  /** The hexadecimal digit of this value, in either case. */
  predicate HexDigit(c: char, v: nat) {
    || (v < 10 && c as int == '0' as int + v)
    || (10 <= v < 16 && (c as int == 'a' as int + v - 10 || c as int == 'A' as int + v - 10))
  }

  ghost predicate Hex(u: string, v: nat) {
    |u| == 4 && exists a: nat, b: nat, c: nat, d: nat ::
      HexDigit(u[0], a) && HexDigit(u[1], b) && HexDigit(u[2], c) && HexDigit(u[3], d) &&
      v == a * 4096 + b * 256 + c * 16 + d
  }

  predicate ShortFor(e: char, c: char) {
    || (e == '"' && c == '"') || (e == '\\' && c == '\\') || (e == '/' && c == '/')
    || (e == 'b' && c as int == 8) || (e == 'f' && c as int == 12) || (e == 'n' && c as int == 10)
    || (e == 'r' && c as int == 13) || (e == 't' && c as int == 9)
  }

  /** How one character of a string is written: as itself, by a short escape, by its code, or by a surrogate pair. */
  ghost predicate CharText(u: string, c: char) {
    || (|u| == 1 && u[0] == c && c as int >= 0x20 && c != '"' && c != '\\')
    || (|u| == 2 && u[0] == '\\' && ShortFor(u[1], c))
    || (|u| == 6 && u[..2] == "\\u" && Hex(u[2..], c as int))
    || (|u| == 12 && u[..2] == "\\u" && u[6..8] == "\\u" && exists v: nat, w: nat ::
          Hex(u[2..6], v) && Hex(u[8..], w) && 0xD800 <= v < 0xDC00 <= w < 0xE000 &&
          c as int == 0x10000 + (v - 0xD800) * 0x400 + (w - 0xDC00))
  }

  /** A text made of one piece for each character, as `spells` says. */
  ghost predicate Spelled(spells: (string, char) -> bool, u: string, k: string)
    decreases |k|
  {
    if k == "" then u == ""
    else exists n: nat :: n <= |u| && spells(u[..n], k[0]) && Spelled(spells, u[n..], k[1..])
  }

  ghost function CharTexts(): (string, char) -> bool {
    (u, c) => CharText(u, c)
  }

  /** How a string is written between its quotes. */
  ghost predicate BodyText(u: string, k: string) {
    Spelled(CharTexts(), u, k)
  }

  lemma HexValExact(c: char, v: nat)
    ensures HexVal(c) == Some(v) <==> HexDigit(c, v)
  {
  }

  lemma HexDigitOne(c: char, v: nat, w: nat)
    requires HexDigit(c, v) && HexDigit(c, w)
    ensures v == w
  {
    HexValExact(c, v);
    HexValExact(c, w);
  }

  lemma Hex4Spelled(t: string)
    requires Hex4(t).Some?
    ensures |t| >= 4 && Hex(t[..4], Hex4(t).value)
  {
    var a, b, c, d := HexVal(t[0]).value, HexVal(t[1]).value, HexVal(t[2]).value, HexVal(t[3]).value;
    HexValExact(t[0], a);
    HexValExact(t[1], b);
    HexValExact(t[2], c);
    HexValExact(t[3], d);
    assert Hex4(t).value == a * 4096 + b * 256 + c * 16 + d;
  }

  lemma Hex4Reads(t: string, v: nat)
    requires |t| >= 4 && Hex(t[..4], v)
    ensures Hex4(t) == Some(v)
  {
    var a: nat, b: nat, c: nat, d: nat :|
      HexDigit(t[0], a) && HexDigit(t[1], b) && HexDigit(t[2], c) && HexDigit(t[3], d) &&
      v == a * 4096 + b * 256 + c * 16 + d;
    HexValExact(t[0], a);
    HexValExact(t[1], b);
    HexValExact(t[2], c);
    HexValExact(t[3], d);
  }

  lemma ShortExact(e: char, c: char)
    ensures ShortEscape(e) == Some(c) <==> ShortFor(e, c)
    ensures ShortFor(e, c) ==> e != 'u'
  {
  }

  lemma CodeSpelled(t: string, u: string)
    requires Escape(t).Some? && t[0] == 'u' && Escape(t).value.1 == 5 && u == "\\" + t[..5]
    ensures CharText(u, Escape(t).value.0)
  {
    Hex4Spelled(t[1..]);
    assert u[2..] == t[1..][..4] && u[..2] == "\\u";
  }

  lemma PairSpelled(t: string, u: string)
    requires Escape(t).Some? && t[0] == 'u' && Escape(t).value.1 == 11 && u == "\\" + t[..11]
    ensures CharText(u, Escape(t).value.0)
  {
    Hex4Spelled(t[1..]);
    Hex4Spelled(t[7..]);
    assert u[2..6] == t[1..][..4] && u[8..] == t[7..][..4] && u[6..8] == "\\u" && u[..2] == "\\u";
  }

  /** What an escape reads is the text of its character, and how much it takes is the length of that. */
  lemma EscapeSpells(t: string)
    requires Escape(t).Some?
    ensures Escape(t).value.1 <= |t| && CharText("\\" + t[..Escape(t).value.1], Escape(t).value.0)
  {
    var (c, n) := Escape(t).value;
    if t[0] != 'u' {
      ShortExact(t[0], c);
    } else if n == 5 {
      CodeSpelled(t, "\\" + t[..5]);
    } else {
      PairSpelled(t, "\\" + t[..11]);
    }
  }

  lemma CodeRead(u: string, c: char, rest: string)
    requires |u| == 6 && u[..2] == "\\u" && Hex(u[2..], c as int)
    ensures Escape((u + rest)[1..]) == Some((c, 5))
  {
    var t := (u + rest)[1..];
    assert t[0] == u[1] == u[..2][1] && t[1..][..4] == u[2..];
    Hex4Reads(t[1..], c as int);
  }

  lemma PairRead(u: string, c: char, v: nat, w: nat, rest: string)
    requires |u| == 12 && u[..2] == "\\u" && u[6..8] == "\\u"
    requires Hex(u[2..6], v) && Hex(u[8..], w) && 0xD800 <= v < 0xDC00 <= w < 0xE000
    requires c as int == 0x10000 + (v - 0xD800) * 0x400 + (w - 0xDC00)
    ensures Escape((u + rest)[1..]) == Some((c, 11))
  {
    var t := (u + rest)[1..];
    assert t[0] == u[..2][1] && t[5] == u[6..8][0] && t[6] == u[6..8][1];
    assert t[1..][..4] == u[2..6] && t[7..][..4] == u[8..];
    Hex4Reads(t[1..], v);
    Hex4Reads(t[7..], w);
    EscapePair(t, v, w);
  }

  lemma EscapePair(t: string, v: nat, w: nat)
    requires |t| >= 7 && t[0] == 'u' && t[5] == '\\' && t[6] == 'u'
    requires Hex4(t[1..]) == Some(v) && Hex4(t[7..]) == Some(w) && 0xD800 <= v < 0xDC00 <= w < 0xE000
    ensures Escape(t) == Some(((0x10000 + (v - 0xD800) * 0x400 + (w - 0xDC00)) as char, 11))
  {
  }

  lemma CharReads(u: string, c: char, rest: string)
    requires CharText(u, c)
    ensures u != "" && u[0] != '"' && (|u| == 1 ==> u[0] != '\\' && u[0] as int >= 0x20)
    ensures |u| > 1 ==> u[0] == '\\' && Escape((u + rest)[1..]) == Some((c, |u| - 1))
  {
    if |u| == 2 {
      assert (u + rest)[1] == u[1];
      ShortExact(u[1], c);
    } else if |u| == 6 {
      CodeRead(u, c, rest);
      assert u[..2][0] == u[0];
    } else if |u| == 12 {
      var v: nat, w: nat :| Hex(u[2..6], v) && Hex(u[8..], w) && 0xD800 <= v < 0xDC00 <= w < 0xE000 &&
                            c as int == 0x10000 + (v - 0xD800) * 0x400 + (w - 0xDC00);
      PairRead(u, c, v, w, rest);
      assert u[..2][0] == u[0];
    }
  }

  /** The text of a character at the front is read as that character. */
  lemma CharInBody(u: string, c: char, rest: string)
    requires CharText(u, c)
    ensures StringBody(u + rest) ==
            match StringBody(rest) case Some((k, tail)) => Some(([c] + k, tail)) case None => None
  {
    CharReads(u, c, rest);
    var t := u + rest;
    assert t[0] == u[0] && t[|u|..] == rest;
    if |u| > 1 {
      assert t[1 + (|u| - 1)..] == rest;
    } else {
      assert t[1..] == rest;
    }
  }

  lemma ReadMore(u: string, c: char, v: string, k: string, rest: string)
    requires CharText(u, c) && StringBody(v) == Some((k, rest))
    ensures StringBody(u + v) == Some(([c] + k, rest))
  {
    CharInBody(u, c, v);
  }

  lemma SpelledCut(spells: (string, char) -> bool, u: string, k: string) returns (n: nat)
    requires k != "" && Spelled(spells, u, k)
    ensures n <= |u| && spells(u[..n], k[0]) && Spelled(spells, u[n..], k[1..])
  {
    n :| n <= |u| && spells(u[..n], k[0]) && Spelled(spells, u[n..], k[1..]);
  }

  lemma BodyCut(u: string, k: string) returns (n: nat)
    requires k != "" && BodyText(u, k)
    ensures n <= |u| && CharText(u[..n], k[0]) && BodyText(u[n..], k[1..])
  {
    n := SpelledCut(CharTexts(), u, k);
    assert CharTexts()(u[..n], k[0]);
  }

  lemma ReadBefore(u: string, n: nat, k: string, end: string, rest: string)
    requires n <= |u| && k != "" && CharText(u[..n], k[0]) && StringBody(u[n..] + end) == Some((k[1..], rest))
    ensures StringBody(u + end) == Some((k, rest))
  {
    ReadMore(u[..n], k[0], u[n..] + end, k[1..], rest);
    assert u + end == u[..n] + (u[n..] + end);
    assert k == [k[0]] + k[1..];
  }

  lemma {:induction false} BodyBefore(u: string, k: string, end: string, rest: string)
    requires BodyText(u, k) && StringBody(end) == Some(("", rest))
    ensures StringBody(u + end) == Some((k, rest))
    decreases |k|
  {
    if k == "" {
      assert u + end == end;
    } else {
      var n := BodyCut(u, k);
      BodyBefore(u[n..], k[1..], end, rest);
      ReadBefore(u, n, k, end, rest);
    }
  }

  lemma BodyReads(u: string, k: string, rest: string)
    requires BodyText(u, k)
    ensures StringBody(u + ("\"" + rest)) == Some((k, rest))
  {
    assert ("\"" + rest)[1..] == rest;
    BodyBefore(u, k, "\"" + rest, rest);
  }

  lemma SpelledGrows(spells: (string, char) -> bool, u: string, c: char, v: string, k: string)
    requires spells(u, c) && Spelled(spells, v, k)
    ensures Spelled(spells, u + v, [c] + k)
  {
    assert (u + v)[..|u|] == u && (u + v)[|u|..] == v && ([c] + k)[1..] == k;
  }

  lemma BodyGrows(u: string, c: char, v: string, k: string)
    requires CharText(u, c) && BodyText(v, k)
    ensures BodyText(u + v, [c] + k)
  {
    SpelledGrows(CharTexts(), u, c, v, k);
  }

  lemma CharSpelled(t: string) returns (n: nat, c: char)
    requires StringBody(t).Some? && t[0] != '"'
    ensures 0 < n <= |t| && CharText(t[..n], c) && StringBody(t[n..]).Some?
    ensures StringBody(t) == Some(([c] + StringBody(t[n..]).value.0, StringBody(t[n..]).value.1))
  {
    n, c := 1, t[0];
    if t[0] == '\\' {
      EscapeSpells(t[1..]);
      c, n := Escape(t[1..]).value.0, 1 + Escape(t[1..]).value.1;
      assert t[..n] == "\\" + t[1..][..n - 1];
    }
  }

  lemma SpelledMore(t: string, n: nat, c: char, v: string, k: string, rest: string)
    requires n <= |t| && CharText(t[..n], c) && BodyText(v, k) && t[n..] == v + ("\"" + rest)
    ensures BodyText(t[..n] + v, [c] + k) && t == t[..n] + v + ("\"" + rest)
  {
    BodyGrows(t[..n], c, v, k);
    assert t == t[..n] + t[n..];
  }

  lemma NothingSpelled(t: string, k: string, rest: string)
    requires StringBody(t) == Some((k, rest)) && t[0] == '"'
    ensures k == "" && t == "" + ("\"" + rest)
  {
    assert t == "\"" + t[1..];
  }

  lemma {:induction false} BodySpelled(t: string, k: string, rest: string) returns (u: string)
    requires StringBody(t) == Some((k, rest))
    ensures BodyText(u, k) && t == u + ("\"" + rest)
    decreases |t|
  {
    if t[0] == '"' {
      u := "";
      NothingSpelled(t, k, rest);
    } else {
      var n, c := CharSpelled(t);
      var (more, _) := StringBody(t[n..]).value;
      var v := BodySpelled(t[n..], more, rest);
      SpelledMore(t, n, c, v, more, rest);
      u := t[..n] + v;
    }
  }

  /** What is read up to the closing quote is exactly the spellings of the string. */
  lemma StringExact(t: string, k: string, rest: string)
    ensures StringBody(t) == Some((k, rest)) <==> exists u :: BodyText(u, k) && t == u + ("\"" + rest)
  {
    if StringBody(t) == Some((k, rest)) {
      var u := BodySpelled(t, k, rest);
    }
    if u :| BodyText(u, k) && t == u + ("\"" + rest) {
      BodyReads(u, k, rest);
    }
  }

  /** A key is a JSON string or a JSON integer, with any spaces around it. */
  lemma KeyExact(x: string, key: Key)
    ensures ParseHasArg(x) == Ok(key) <==>
            match key
            case IntKey(n) => Strip(x) == Dec(n) || (Strip(x) == "-0" && n == 0)
            case StrKey(k) => exists u :: BodyText(u, k) && Strip(x) == "\"" + (u + "\"")
  {
    var s := Strip(x);
    match key {
      case IntKey(n) =>
        JsonIntExact(s, n);
        DecReads(n);
        assert Dec(n)[0] == '-' || IsDigit(Dec(n)[0]);
      case StrKey(k) =>
        StringKeyExact(s, k);
    }
  }

  lemma StringKeyExact(s: string, k: string)
    ensures s != "" && s[0] == '"' && StringBody(s[1..]) == Some((k, "")) <==>
            exists u :: BodyText(u, k) && s == "\"" + (u + "\"")
  {
    if s != "" && s[0] == '"' && StringBody(s[1..]) == Some((k, "")) {
      var u := BodySpelled(s[1..], k, "");
      assert s == "\"" + (u + "\"");
    }
    if u :| BodyText(u, k) && s == "\"" + (u + "\"") {
      BodyReads(u, k, "");
      assert s[1..] == u + ("\"" + "");
    }
  }
}
