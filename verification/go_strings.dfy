/**
 * The parts of Go's `strings` and `strconv` packages, and of Go's numeric conversions, that the
 * Gerber interpreter and rasterizer rely on, written out over `string` (a sequence of runes).
 * Number parsing follows the Go code's habit of discarding the error: callers use `GetOr(0)`.
 */
module GoStrings {
  import opened Optional

  /** `unicode.IsSpace`: the Unicode White_Space characters. */
  predicate IsSpace(c: char)
  {
    var n := c as int;
    (0x09 <= n <= 0x0D) || n == 0x20 || n == 0x85 || n == 0xA0 || n == 0x1680
    || (0x2000 <= n <= 0x200A) || n == 0x2028 || n == 0x2029 || n == 0x202F || n == 0x205F || n == 0x3000
  }

  predicate IsDigit(c: char)
  {
    '0' <= c <= '9'
  }

  /** Every character of `s` is in the class `p`. */
  predicate All(s: string, p: char -> bool)
  {
    forall i :: 0 <= i < |s| ==> p(s[i])
  }

  /** Length of the longest prefix of `s` whose characters are all in the class `p`. */
  function Span(s: string, p: char -> bool): (n: nat)
    ensures n <= |s|
  {
    if s == [] || !p(s[0]) then 0 else 1 + Span(s[1..], p)
  }

  /** The prefix `Span` measures lies in the class, and the character after it (if any) does not. */
  lemma {:induction false} SpanFacts(s: string, p: char -> bool)
    ensures All(s[..Span(s, p)], p)
    ensures Span(s, p) == |s| || !p(s[Span(s, p)])
  {
    if s != [] && p(s[0]) {
      SpanFacts(s[1..], p);
      var n := Span(s[1..], p);
      assert s[..n + 1] == [s[0]] + s[1..][..n];
    }
  }

  /** The span of a class over `a + b` is all of `a` when `a` lies in the class and `b` does not start in it. */
  lemma SpanOfConcat(a: string, b: string, p: char -> bool)
    requires All(a, p)
    requires b == [] || !p(b[0])
    ensures Span(a + b, p) == |a|
  {
    assert (a + b)[..|a|] == a;
    SpanUnique(a + b, p, |a|);
  }

  /** The three facts `Span` ensures determine it. */
  lemma {:induction false} SpanUnique(s: string, p: char -> bool, k: nat)
    requires k <= |s| && All(s[..k], p)
    requires k == |s| || !p(s[k])
    ensures Span(s, p) == k
  {
    if k > 0 {
      assert s[..k][0] == s[0];
      assert s[1..][..k - 1] == s[..k][1..];
      SpanUnique(s[1..], p, k - 1);
    }
  }

  /** Index of the first `c` in `s`, or `|s|` when there is none. */
  function IndexOf(s: string, c: char): (i: nat)
    ensures i <= |s|
    ensures c !in s[..i]
    ensures i < |s| ==> s[i] == c
  {
    if s == [] || s[0] == c then 0 else 1 + IndexOf(s[1..], c)
  }

  // ---------------------------------------------------------------- trimming

  function TrimLeftSpace(s: string): (r: string)
    ensures |r| <= |s|
    ensures r == [] || !IsSpace(r[0])
  {
    if s != [] && IsSpace(s[0]) then TrimLeftSpace(s[1..]) else s
  }

  function TrimRightSpace(s: string): (r: string)
    ensures |r| <= |s|
    ensures r != [] ==> r[0] == s[0]
    ensures r == [] || !IsSpace(r[|r| - 1])
  {
    if s != [] && IsSpace(s[|s| - 1]) then TrimRightSpace(s[..|s| - 1]) else s
  }

  /** `strings.TrimSpace`: `s` without its leading and trailing white space. */
  function TrimSpace(s: string): (r: string)
    ensures |r| <= |s|
    ensures r == [] || (!IsSpace(r[0]) && !IsSpace(r[|r| - 1]))
  {
    TrimRightSpace(TrimLeftSpace(s))
  }

  /** A string that neither starts nor ends with white space is its own `TrimSpace`. */
  lemma TrimSpaceOfTrimmed(s: string)
    requires s == [] || (!IsSpace(s[0]) && !IsSpace(s[|s| - 1]))
    ensures TrimSpace(s) == s
  {
  }

  /** Trimming removes exactly the surrounding white space: a text padded on both sides comes back. */
  lemma TrimSpacePadded(ws1: string, t: string, ws2: string)
    requires All(ws1, IsSpace) && All(ws2, IsSpace)
    requires t == [] || (!IsSpace(t[0]) && !IsSpace(t[|t| - 1]))
    ensures TrimSpace(ws1 + t + ws2) == t
  {
    if t == [] {
      assert ws1 + t + ws2 == (ws1 + ws2) + [];
      TrimLeftPadded(ws1 + ws2, []);
    } else {
      assert ws1 + t + ws2 == ws1 + (t + ws2);
      TrimLeftPadded(ws1, t + ws2);
      TrimRightPadded(t, ws2);
    }
  }

  /** `TrimLeftSpace` drops leading white space and stops at the first other character. */
  lemma {:induction false} TrimLeftPadded(ws: string, u: string)
    requires All(ws, IsSpace) && (u == [] || !IsSpace(u[0]))
    ensures TrimLeftSpace(ws + u) == u
    decreases |ws|
  {
    if ws == [] {
      assert ws + u == u;
    } else {
      assert (ws + u)[0] == ws[0];
      assert (ws + u)[1..] == ws[1..] + u;
      TrimLeftPadded(ws[1..], u);
    }
  }

  /** `TrimRightSpace` drops trailing white space and stops at the last other character. */
  lemma {:induction false} TrimRightPadded(u: string, ws: string)
    requires All(ws, IsSpace) && (u == [] || !IsSpace(u[|u| - 1]))
    ensures TrimRightSpace(u + ws) == u
    decreases |ws|
  {
    if ws == [] {
      assert u + ws == u;
    } else {
      var n := |u + ws|;
      assert (u + ws)[n - 1] == ws[|ws| - 1];
      assert (u + ws)[..n - 1] == u + ws[..|ws| - 1];
      TrimRightPadded(u, ws[..|ws| - 1]);
    }
  }

  /** `strings.TrimPrefix`. */
  function TrimPrefix(s: string, prefix: string): string
  {
    if prefix <= s then s[|prefix|..] else s
  }

  /** `strings.TrimSuffix` with a one-character suffix. */
  function TrimSuffix(s: string, suffix: char): string
  {
    if s != [] && s[|s| - 1] == suffix then s[..|s| - 1] else s
  }

  /** Trimming a prefix undoes prepending it. */
  lemma TrimPrefixOfConcat(prefix: string, s: string)
    ensures TrimPrefix(prefix + s, prefix) == s
  {
    assert prefix <= prefix + s;
  }

  /** Trimming a suffix undoes appending it. */
  lemma TrimSuffixOfConcat(s: string, suffix: char)
    ensures TrimSuffix(s + [suffix], suffix) == s
  {
    assert (s + [suffix])[..|s|] == s;
  }

  /** `strings.Contains`. */
  predicate Contains(s: string, sub: string)
    decreases |s|
  {
    sub <= s || (s != [] && Contains(s[1..], sub))
  }

  /** Containing a one-character string is containing that character. */
  lemma {:induction false} ContainsChar(s: string, c: char)
    ensures Contains(s, [c]) <==> c in s
    decreases |s|
  {
    if s != [] {
      ContainsChar(s[1..], c);
      assert s == [s[0]] + s[1..];
    }
  }

  // ---------------------------------------------------------------- splitting

  /** The inverse of `Split`: the parts glued back together with `sep` between them. */
  function Join(parts: seq<string>, sep: char): string
  {
    if |parts| == 0 then ""
    else if |parts| == 1 then parts[0]
    else parts[0] + [sep] + Join(parts[1..], sep)
  }

  /**
   * `strings.Split` on a one-character separator: the pieces of `s` between the separators,
   * always at least one (the empty string splits into one empty piece).
   */
  function Split(s: string, sep: char): (parts: seq<string>)
    ensures |parts| >= 1
    decreases |s|
  {
    var i := IndexOf(s, sep);
    if i == |s| then [s] else [s[..i]] + Split(s[i + 1..], sep)
  }

  /** The pieces `Split` returns hold no separator, and joining them gives back `s`. */
  lemma {:induction false} SplitParts(s: string, sep: char)
    ensures forall i :: 0 <= i < |Split(s, sep)| ==> sep !in Split(s, sep)[i]
    ensures Join(Split(s, sep), sep) == s
    decreases |s|
  {
    var i := IndexOf(s, sep);
    if i < |s| {
      var rest := Split(s[i + 1..], sep);
      SplitParts(s[i + 1..], sep);
      assert ([s[..i]] + rest)[1..] == rest;
      assert s[..i] + [sep] + s[i + 1..] == s;
    }
  }

  /** Splitting undoes joining: pieces that do not contain the separator come back unchanged. */
  lemma {:induction false} SplitJoin(parts: seq<string>, sep: char)
    requires |parts| >= 1
    requires forall i :: 0 <= i < |parts| ==> sep !in parts[i]
    ensures Split(Join(parts, sep), sep) == parts
  {
    if |parts| > 1 {
      SplitCons(parts[0], Join(parts[1..], sep), sep);
      SplitJoin(parts[1..], sep);
      assert [parts[0]] + parts[1..] == parts;
    } else {
      assert sep !in parts[0];
      assert parts[0][..|parts[0]|] == parts[0];
      IndexOfFirst(parts[0], sep, |parts[0]|);
    }
  }

  /** A piece without the separator, then the separator: `Split` cuts exactly there. */
  lemma SplitCons(piece: string, rest: string, sep: char)
    requires sep !in piece
    ensures Split(piece + [sep] + rest, sep) == [piece] + Split(rest, sep)
  {
    var s := piece + [sep] + rest;
    assert s[..|piece|] == piece;
    assert s[|piece|] == sep;
    IndexOfFirst(s, sep, |piece|);
    assert s[|piece| + 1..] == rest;
  }

  /** The facts `IndexOf` ensures determine it. */
  lemma {:induction false} IndexOfFirst(s: string, c: char, i: nat)
    requires i <= |s| && c !in s[..i]
    requires i == |s| || s[i] == c
    ensures IndexOf(s, c) == i
  {
    if i > 0 {
      assert s[..i][0] == s[0];
      assert s[1..][..i - 1] == s[..i][1..];
      IndexOfFirst(s[1..], c, i - 1);
    }
  }

  // ---------------------------------------------------------------- numbers

  function DigitValue(c: char): nat
    requires IsDigit(c)
  {
    c as int - '0' as int
  }

  /** The value of a string of decimal digits (0 for the empty string). */
  function DigitsValue(s: string): nat
    requires All(s, IsDigit)
  {
    if s == [] then 0
    else
      10 * DigitsValue(s[..|s| - 1]) + DigitValue(s[|s| - 1])
  }

  /** `s` without its optional leading sign. */
  function Unsigned(s: string): string
  {
    if |s| > 0 && (s[0] == '+' || s[0] == '-') then s[1..] else s
  }

  predicate IsNegative(s: string)
  {
    |s| > 0 && s[0] == '-'
  }

  /** `strconv.Atoi`: an optional sign and one or more decimal digits; anything else is an error. */
  function Atoi(s: string): Option<int>
  {
    var d := Unsigned(s);
    if |d| > 0 && All(d, IsDigit) then
      var magnitude: int := DigitsValue(d);
      Some(if IsNegative(s) then -magnitude else magnitude)
    else None
  }

  /** A non-empty string of decimal digits converts to its value. */
  lemma AtoiDigits(s: string)
    requires |s| > 0 && All(s, IsDigit)
    ensures Atoi(s) == Some(DigitsValue(s))
  {
    assert Unsigned(s) == s;
  }

  /** A single decimal digit converts to its value. */
  lemma AtoiDigit(c: char)
    requires IsDigit(c)
    ensures Atoi([c]) == Some(DigitValue(c))
  {
    assert Unsigned([c]) == [c];
    assert [c][..0] == [];
    assert DigitsValue([c]) == 10 * DigitsValue([]) + DigitValue(c);
  }

  function IntPow10(n: nat): (p: nat)
    ensures p >= 1
  {
    if n == 0 then 1 else 10 * IntPow10(n - 1)
  }

  /** 10^e as a real. */
  function Pow10(e: int): (p: real)
    ensures p > 0.0
  {
    if e >= 0 then IntPow10(e) as real else 1.0 / IntPow10(-e) as real
  }

  /** `m` times 10^e, one factor of ten at a time: how `ParseFloat` places a fraction and an exponent. */
  function Scale(m: real, e: int): real
    decreases if e >= 0 then e else -e
  {
    if e == 0 then m else if e > 0 then Scale(m, e - 1) * 10.0 else Scale(m, e + 1) / 10.0
  }

  /** `Scale` is multiplication by 10^e. */
  lemma {:induction false} ScaleIsPow10(m: real, e: int)
    ensures Scale(m, e) == m * Pow10(e)
    decreases if e >= 0 then e else -e
  {
    if e > 0 {
      ScaleIsPow10(m, e - 1);
      Pow10Up(e);
      TimesTen(m, Pow10(e - 1), Scale(m, e - 1));
    } else if e < 0 {
      ScaleIsPow10(m, e + 1);
      Pow10Down(e);
      DivideByTen(m, IntPow10(-e - 1) as real, Scale(m, e + 1));
    }
  }

  /** One more factor of ten on a non-negative exponent. */
  lemma Pow10Up(e: int)
    requires e > 0
    ensures Pow10(e) == 10.0 * Pow10(e - 1)
  {
  }

  /** One more factor of ten on a negative exponent, both sides written over 10^(-e - 1). */
  lemma Pow10Down(e: int)
    requires e < 0
    ensures Pow10(e + 1) == 1.0 / IntPow10(-e - 1) as real
    ensures Pow10(e) == 1.0 / (10.0 * IntPow10(-e - 1) as real)
  {
    assert IntPow10(-e) == 10 * IntPow10(-e - 1);
  }

  lemma TimesTen(m: real, p: real, s: real)
    requires s == m * p
    ensures s * 10.0 == m * (10.0 * p)
  {
  }

  lemma DivideByTen(m: real, p: real, s: real)
    requires p > 0.0 && s == m * (1.0 / p)
    ensures s / 10.0 == m * (1.0 / (10.0 * p))
  {
  }

  /** The mantissa of a decimal literal: digits with at most one '.', and at least one digit. */
  predicate IsMantissa(m: string)
  {
    var dot := IndexOf(m, '.');
    && All(m[..dot], IsDigit)
    && (dot == |m| || All(m[dot + 1..], IsDigit))
    && (if dot == |m| then |m| >= 1 else |m| >= 2)
  }

  function MantissaValue(m: string): real
    requires IsMantissa(m)
  {
    var dot := IndexOf(m, '.');
    var fraction := if dot == |m| then "" else m[dot + 1..];
    DigitsValue(m[..dot]) as real + Scale(DigitsValue(fraction) as real, -|fraction|)
  }

  predicate IsMantissaChar(c: char)
  {
    c != 'e' && c != 'E'
  }

  /**
   * `strconv.ParseFloat` on decimal literals: an optional sign, a mantissa and an optional
   * exponent `e`/`E` followed by a signed integer; the whole string must be consumed.
   */
  function ParseFloat(s: string): Option<real>
  {
    var body := Unsigned(s);
    var e := Span(body, IsMantissaChar);
    var mantissa := body[..e];
    var exponent := if e < |body| then Atoi(body[e + 1..]) else Some(0);
    if IsMantissa(mantissa) && exponent.Some? then
      var magnitude := Scale(MantissaValue(mantissa), exponent.value);
      Some(if IsNegative(s) then -magnitude else magnitude)
    else None
  }

  /** `val, _ := strconv.ParseFloat(s, 64)`: the value, or 0 when `s` does not parse. */
  function FloatOr0(s: string): real
  {
    var parsed := ParseFloat(s);
    if parsed.Some? then parsed.value else 0.0
  }

  /** A string of digits parses, as a float, to its integer value. */
  lemma ParseFloatOfDigits(s: string)
    requires |s| > 0 && All(s, IsDigit)
    ensures ParseFloat(s) == Some(DigitsValue(s) as real)
  {
    assert Unsigned(s) == s && !IsNegative(s);
    assert s[..|s|] == s;
    SpanUnique(s, IsMantissaChar, |s|);
    IndexOfFirst(s, '.', |s|);
    assert IsMantissa(s);
    assert MantissaValue(s) == DigitsValue(s) as real + Scale(DigitsValue("") as real, 0);
    assert Scale(MantissaValue(s), 0) == DigitsValue(s) as real;
  }

  /** `FloatOr0` of a string of digits is its integer value. */
  lemma FloatOfDigits(s: string)
    requires |s| > 0 && All(s, IsDigit)
    ensures FloatOr0(s) == DigitsValue(s) as real
  {
    ParseFloatOfDigits(s);
  }

  /** A string of digits has no decimal point. */
  lemma DigitsHaveNoPoint(s: string)
    requires All(s, IsDigit)
    ensures !Contains(s, ".")
  {
    ContainsChar(s, '.');
  }

  /** Go's `int(f)` for a float `f`: truncation toward zero. */
  function Trunc(r: real): (n: int)
    ensures 0.0 <= r ==> 0 <= n && n as real <= r < n as real + 1.0
    ensures r < 0.0 ==> n <= 0 && n as real - 1.0 < r <= n as real
  {
    if r >= 0.0 then r.Floor else -((-r).Floor)
  }

  /** Go's `n / 2` on ints: the quotient truncated toward zero. */
  function Half(n: int): (h: int)
    ensures 0 <= n ==> 0 <= h && (n == 2 * h || n == 2 * h + 1)
    ensures n < 0 ==> h <= 0 && (n == 2 * h || n == 2 * h - 1)
  {
    if n >= 0 then n / 2 else -((-n) / 2)
  }
}
