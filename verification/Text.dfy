/**
 Python's `str.strip` as the parsers and the authorization checks use it: the whitespace it removes, from the
 left, from the right and from both ends, and that what is in between is kept as it is.
 */
module Text {

  /** The characters that Python's `str.strip` removes. */
  predicate IsSpace(c: char) {
    var n := c as int;
    || 9 <= n <= 13 || 28 <= n <= 32 || n == 0x85 || n == 0xA0 || n == 0x1680
    || 0x2000 <= n <= 0x200A || n == 0x2028 || n == 0x2029 || n == 0x202F || n == 0x205F || n == 0x3000
  }

  function StripLeft(s: string): (r: string)
    ensures |r| <= |s|
    ensures r != "" ==> !IsSpace(r[0])
  {
    if s != "" && IsSpace(s[0]) then StripLeft(s[1..]) else s
  }

  function StripRight(s: string): (r: string)
    ensures |r| <= |s|
    ensures r <= s
  {
    if s != "" && IsSpace(s[|s| - 1]) then StripRight(s[..|s| - 1]) else s
  }

  function Strip(s: string): (r: string)
    ensures |r| <= |s|
  {
    StripRight(StripLeft(s))
  }

  // --- what stripping keeps ---

  ghost predicate Blank(s: string) {
    forall i :: 0 <= i < |s| ==> IsSpace(s[i])
  }

  /** The text neither begins nor ends in a space. */
  predicate Trimmed(s: string) {
    s != "" ==> !IsSpace(s[0]) && !IsSpace(s[|s| - 1])
  }

  lemma {:induction false} StripLeftSplits(s: string) returns (a: string)
    ensures Blank(a) && s == a + StripLeft(s)
  {
    a := "";
    if s != "" && IsSpace(s[0]) {
      var more := StripLeftSplits(s[1..]);
      a := [s[0]] + more;
    }
  }

  lemma {:induction false} StripRightSplits(s: string) returns (b: string)
    ensures Blank(b) && s == StripRight(s) + b
    ensures StripRight(s) != "" ==> !IsSpace(StripRight(s)[|StripRight(s)| - 1])
  {
    b := "";
    if s != "" && IsSpace(s[|s| - 1]) {
      var more := StripRightSplits(s[..|s| - 1]);
      b := more + [s[|s| - 1]];
    }
  }

  /** Stripping removes spaces in front and behind and nothing else, and leaves none at the ends. */
  lemma StripSplits(s: string) returns (a: string, b: string)
    ensures Blank(a) && Blank(b) && s == a + Strip(s) + b && Trimmed(Strip(s))
  {
    a := StripLeftSplits(s);
    b := StripRightSplits(StripLeft(s));
    Regroup(a, Strip(s), b);
  }

  lemma {:induction false} StripLeftSkips(a: string, s: string)
    requires Blank(a)
    ensures StripLeft(a + s) == StripLeft(s)
  {
    if a == "" {
      assert a + s == s;
    } else {
      TailOfConcat(a, s);
      StripLeftSkips(a[1..], s);
    }
  }

  lemma {:induction false} StripRightSkips(s: string, b: string)
    requires Blank(b)
    ensures StripRight(s + b) == StripRight(s)
  {
    if b == "" {
      assert s + b == s;
    } else {
      assert (s + b)[..|s + b| - 1] == s + b[..|b| - 1];
      StripRightSkips(s, b[..|b| - 1]);
    }
  }

  /** A text without spaces at its ends is what is left of it between any spaces. */
  lemma StripsTo(a: string, c: string, b: string)
    requires Blank(a) && Blank(b) && Trimmed(c)
    ensures Strip(a + c + b) == c
  {
    Regroup(a, c, b);
    StripLeftSkips(a, c + b);
    if c == "" {
      assert c + b == b && b + "" == b;
      StripLeftSkips(b, "");
    } else {
      StripRightSkips(c, b);
    }
  }

  /** Spaces around a text do not change what is stripped of it. */
  lemma StripIgnoresBlanks(a: string, s: string, b: string)
    requires Blank(a) && Blank(b)
    ensures Strip(a + s + b) == Strip(s)
  {
    var front, back := StripSplits(s);
    assert a + s + b == (a + front) + Strip(s) + (back + b);
    StripsTo(a + front, Strip(s), back + b);
  }

  lemma TailOfConcat(x: string, y: string)
    requires x != ""
    ensures x + y != "" && (x + y)[0] == x[0] && (x + y)[1..] == x[1..] + y
  {
    assert (x + y)[1..] == x[1..] + y;
  }

  lemma Regroup(a: string, b: string, c: string)
    ensures a + (b + c) == a + b + c
  {
  }

  lemma RegroupTail(a: string, b: string, c: string, d: string)
    ensures a + b + c + d == a + (b + c + d)
  {
  }
}
