/**
 * The three regular expressions of the interpreter (gerber.go:82-86), written out as explicit
 * matchers. Go's regexp package reports the leftmost match and, among the matches starting
 * there, the submatches a backtracking matcher would pick; each matcher below does the same
 * for its one pattern.
 */
module GerberSyntax {
  import opened Optional
  import opened GoStrings

  // ------------------------------------------------ `([XYD])([\d\.\-]+)`, every match

  predicate IsAxisLetter(c: char)
  {
    c == 'X' || c == 'Y' || c == 'D'
  }

  predicate IsNumberChar(c: char)
  {
    IsDigit(c) || c == '.' || c == '-'
  }

  /** One match of the coordinate pattern: the letter and the number text after it. */
  datatype Field = Field(letter: char, value: string)

  /** A match of the coordinate pattern starts at position `i` of `s`. */
  predicate FieldAt(s: string, i: int)
  {
    0 <= i < |s| - 1 && IsAxisLetter(s[i]) && IsNumberChar(s[i + 1])
  }

  /**
   * All matches of the coordinate pattern, left to right and not overlapping; the number text
   * of each is the longest run of number characters after its letter.
   */
  function CoordFields(s: string): (fields: seq<Field>)
    ensures forall k :: 0 <= k < |fields| ==>
      IsAxisLetter(fields[k].letter) && |fields[k].value| > 0 && All(fields[k].value, IsNumberChar)
    ensures fields == [] <==> forall i :: !FieldAt(s, i)
    decreases |s|
  {
    if |s| < 2 then
      []
    else if IsAxisLetter(s[0]) && IsNumberChar(s[1]) then
      var n := 1 + Span(s[1..], IsNumberChar);
      SpanFacts(s[1..], IsNumberChar);
      assert s[1..n] == s[1..][..n - 1];
      assert FieldAt(s, 0);
      [Field(s[0], s[1..n])] + CoordFields(s[n..])
    else
      FieldShift(s);
      CoordFields(s[1..])
  }

  /** A match at position i + 1 of `s` is a match at position i of `s[1..]`. */
  lemma FieldAtShift(s: string, i: int)
    requires |s| >= 1 && 0 <= i
    ensures FieldAt(s, i + 1) <==> FieldAt(s[1..], i)
  {
    if 0 <= i < |s| - 2 {
      assert s[1..][i] == s[i + 1] && s[1..][i + 1] == s[i + 2];
    }
  }

  /** When no match starts at position 0, a match starts somewhere in `s` iff one starts in `s[1..]`. */
  lemma FieldShift(s: string)
    requires |s| >= 2 && !FieldAt(s, 0)
    ensures (forall i :: !FieldAt(s, i)) <==> (forall i :: !FieldAt(s[1..], i))
  {
    if exists i :: FieldAt(s, i) {
      var i :| FieldAt(s, i);
      FieldAtShift(s, i - 1);
    }
    if exists i :: FieldAt(s[1..], i) {
      var i :| FieldAt(s[1..], i);
      FieldAtShift(s, i);
    }
  }

  /** A letter followed by a run of number characters is a single match covering the whole text. */
  lemma SingleField(letter: char, number: string)
    requires IsAxisLetter(letter) && |number| > 0 && All(number, IsNumberChar)
    ensures CoordFields([letter] + number) == [Field(letter, number)]
  {
    var s := [letter] + number;
    assert s[1..] == number;
    assert number[..|number|] == number;
    SpanUnique(number, IsNumberChar, |number|);
    assert s[1..|s|] == number;
    assert s[|s|..] == [];
  }

  // ------------------------------------------------ `%FSLAX(\d)(\d)Y(\d)(\d)\*%`

  /** The four one-digit submatches of the format pattern. */
  datatype FormatDigits = FormatDigits(xInteger: string, xDecimal: string, yInteger: string, yDecimal: string)

  /** The format pattern matches at the start of `s`. */
  predicate FormatAt(s: string)
  {
    && |s| >= 13
    && s[..6] == "%FSLAX" && IsDigit(s[6]) && IsDigit(s[7])
    && s[8] == 'Y' && IsDigit(s[9]) && IsDigit(s[10])
    && s[11..13] == "*%"
  }

  function FormatGroups(s: string): FormatDigits
    requires FormatAt(s)
  {
    FormatDigits(s[6..7], s[7..8], s[9..10], s[10..11])
  }

  /**
   * The leftmost position at or after `i` where a pattern matches, `matchesAt` telling whether
   * it matches at the start of a suffix of `s`.
   */
  function Leftmost(s: string, i: nat, matchesAt: string -> bool): (p: Option<nat>)
    requires i <= |s|
    ensures p.Some? ==> i <= p.value <= |s| && matchesAt(s[p.value..])
    ensures p.Some? ==> forall j :: i <= j < p.value ==> !matchesAt(s[j..])
    ensures p.None? ==> forall j :: i <= j <= |s| ==> !matchesAt(s[j..])
    decreases |s| - i
  {
    if matchesAt(s[i..]) then Some(i)
    else if i == |s| then None
    else Leftmost(s, i + 1, matchesAt)
  }

  /** The submatches of the leftmost match of the format pattern in `s`, if there is one. */
  function MatchFormat(s: string): Option<FormatDigits>
  {
    match Leftmost(s, 0, FormatAt)
    case Some(p) => Some(FormatGroups(s[p..]))
    case None => None
  }

  /** A format statement written out in full yields its four digits. */
  lemma MatchFormatCanonical(a: char, b: char, c: char, d: char)
    requires IsDigit(a) && IsDigit(b) && IsDigit(c) && IsDigit(d)
    ensures MatchFormat("%FSLAX" + [a, b] + "Y" + [c, d] + "*%") == Some(FormatDigits([a], [b], [c], [d]))
  {
    var s := "%FSLAX" + [a, b] + "Y" + [c, d] + "*%";
    assert s[0..] == s && s[..6] == "%FSLAX" && s[11..13] == "*%";
    assert FormatAt(s[0..]);
    assert s[6..7] == [a] && s[7..8] == [b] && s[9..10] == [c] && s[10..11] == [d];
  }

  // ------------------------------------------------ `%ADD(\d+)([A-Za-z0-9_]+),?([\d\.X]+)?\*%`

  predicate IsWordChar(c: char)
  {
    'A' <= c <= 'Z' || 'a' <= c <= 'z' || IsDigit(c) || c == '_'
  }

  predicate IsModifierChar(c: char)
  {
    IsDigit(c) || c == '.' || c == 'X'
  }

  /** The submatches of the aperture-definition pattern; an unmatched group 3 is "". */
  datatype DefinitionText = DefinitionText(code: string, kind: string, modifiers: string)

  /**
   * Group 3 when `,?([\d\.X]+)?\*%` matches `rest` at `t`. A comma is taken when there is one
   * (leaving it out cannot succeed, since the rest must then start at the comma); group 3 can
   * only be the longest modifier run, as any shorter run is followed by a modifier character
   * and not by `*`.
   */
  function DefinitionTail(rest: string, t: nat): (g: Option<string>)
    requires t <= |rest|
  {
    var u := if t < |rest| && rest[t] == ',' then t + 1 else t;
    var m := u + Span(rest[u..], IsModifierChar);
    if m + 2 <= |rest| && rest[m] == '*' && rest[m + 1] == '%' then Some(rest[u..m]) else None
  }

  /** Group 3 of the tail is made of modifier characters. */
  lemma DefinitionTailModifiers(rest: string, t: nat)
    requires t <= |rest| && DefinitionTail(rest, t).Some?
    ensures All(DefinitionTail(rest, t).value, IsModifierChar)
  {
    var u := if t < |rest| && rest[t] == ',' then t + 1 else t;
    var m := u + Span(rest[u..], IsModifierChar);
    SpanFacts(rest[u..], IsModifierChar);
    assert rest[u..m] == rest[u..][..m - u];
  }

  /** Group 3 of the tail really follows position `t`, after an optional comma, and is closed by `*%`. */
  lemma DefinitionTailPlace(rest: string, t: nat)
    requires t <= |rest| && DefinitionTail(rest, t).Some?
    ensures var g := DefinitionTail(rest, t).value;
      g + "*%" <= rest[t..] || "," + g + "*%" <= rest[t..]
  {
    var u := if t < |rest| && rest[t] == ',' then t + 1 else t;
    var m := u + Span(rest[u..], IsModifierChar);
    assert rest[u..m + 2] == rest[u..m] + "*%";
    assert rest[u..] == rest[u..m + 2] + rest[m + 2..];
    assert u == t + 1 ==> rest[t..] == "," + rest[u..];
  }

  /** The largest `t` in `[2, hi]` at which the tail matches, and its group 3. */
  function LastTail(rest: string, hi: nat): (r: Option<(nat, string)>)
    requires hi <= |rest|
    ensures r.Some? ==> 2 <= r.value.0 <= hi && DefinitionTail(rest, r.value.0) == Some(r.value.1)
    decreases hi
  {
    if hi < 2 then None
    else
      match DefinitionTail(rest, hi)
      case Some(g) => Some((hi, g))
      case None => LastTail(rest, hi - 1)
  }

  /** `LastTail` finds the largest position: the tail matches at no position after it. */
  lemma {:induction false} LastTailLargest(rest: string, hi: nat, t: nat)
    requires 2 <= t <= hi <= |rest|
    requires LastTail(rest, hi).None? || LastTail(rest, hi).value.0 < t
    ensures DefinitionTail(rest, t).None?
    decreases hi
  {
    if DefinitionTail(rest, hi).None? && t < hi {
      LastTailLargest(rest, hi - 1, t);
    }
  }

  /**
   * The pattern after its literal `%ADD`, matched at the start of `rest`. A backtracking matcher
   * tries the code `\d+` from longest to shortest and, for each, the type `[A-Za-z0-9_]+` from
   * longest to shortest. The type always ends inside the word run `e` that starts `rest`
   * (digits are word characters), and whether the tail matches after the type depends only on
   * where the type ends. So the match ends the type at the largest `t` where the tail matches,
   * and the code keeps the whole digit run `d` unless that leaves no character for the type.
   */
  function MatchDefinitionAt(rest: string): Option<DefinitionText>
  {
    var d := Span(rest, IsDigit);
    var tail := LastTail(rest, Span(rest, IsWordChar));
    if d == 0 || tail.None? then None
    else
      var t := tail.value.0;
      var k := if d < t - 1 then d else t - 1;
      Some(DefinitionText(rest[..k], rest[k..t], tail.value.1))
  }

  /**
   * What a match of the aperture-definition pattern reports is really there: a non-empty code
   * of digits, a non-empty type of word characters, then an optional comma, the modifier text
   * and `*%`.
   */
  predicate ReportedIn(c: DefinitionText, rest: string)
  {
    && |c.code| > 0 && All(c.code, IsDigit)
    && |c.kind| > 0 && All(c.kind, IsWordChar)
    && All(c.modifiers, IsModifierChar)
    && (c.code + c.kind + c.modifiers + "*%" <= rest || c.code + c.kind + "," + c.modifiers + "*%" <= rest)
  }

  lemma MatchDefinitionAtSound(rest: string)
    requires MatchDefinitionAt(rest).Some?
    ensures ReportedIn(MatchDefinitionAt(rest).value, rest)
  {
    var d := Span(rest, IsDigit);
    var e := Span(rest, IsWordChar);
    var t := LastTail(rest, e).value.0;
    var k := if d < t - 1 then d else t - 1;
    SpanFacts(rest, IsDigit);
    SpanFacts(rest, IsWordChar);
    AllSlice(rest, IsDigit, d, 0, k);
    assert rest[0..k] == rest[..k];
    AllSlice(rest, IsWordChar, e, k, t);
    DefinitionTailModifiers(rest, t);
    DefinitionTailPlace(rest, t);
    ReportedFrom(rest, k, t, LastTail(rest, e).value.1);
  }

  /** The pieces `rest[..k]`, `rest[k..t]` and a tail found at `t` are reported correctly. */
  lemma ReportedFrom(rest: string, k: nat, t: nat, g: string)
    requires 0 < k < t <= |rest|
    requires All(rest[..k], IsDigit) && All(rest[k..t], IsWordChar) && All(g, IsModifierChar)
    requires g + "*%" <= rest[t..] || "," + g + "*%" <= rest[t..]
    ensures ReportedIn(DefinitionText(rest[..k], rest[k..t], g), rest)
  {
    assert rest[..k] + rest[k..t] + rest[t..] == rest;
    PrefixAfter(rest[..k] + rest[k..t], rest[t..], g);
  }

  /** A tail found after `head` is a prefix of what follows `head` in the whole string. */
  lemma PrefixAfter(head: string, after: string, g: string)
    requires g + "*%" <= after || "," + g + "*%" <= after
    ensures head + g + "*%" <= head + after || head + "," + g + "*%" <= head + after
  {
    assert head + g + "*%" == head + (g + "*%");
    assert head + "," + g + "*%" == head + ("," + g + "*%");
  }

  /** A slice of a stretch whose characters are all in a class is in the class too. */
  lemma AllSlice(s: string, p: char -> bool, n: nat, i: nat, j: nat)
    requires i <= j <= n <= |s| && All(s[..n], p)
    ensures All(s[i..j], p)
  {
    forall m | 0 <= m < j - i
      ensures p(s[i..j][m])
    {
      assert s[i..j][m] == s[..n][i + m];
    }
  }

  /** The aperture-definition pattern matches at the start of `s`. */
  predicate DefinitionAt(s: string)
  {
    "%ADD" <= s && MatchDefinitionAt(s[4..]).Some?
  }

  /** The submatches of the leftmost match of the aperture-definition pattern in `s`. */
  function MatchDefinition(s: string): Option<DefinitionText>
  {
    match Leftmost(s, 0, DefinitionAt)
    case Some(p) => MatchDefinitionAt(s[p + 4..])
    case None => None
  }

  /**
   * A definition written the usual way, `%ADD<code><type>,<modifiers>*%` (or `%ADD<code><type>*%`
   * without modifiers), yields exactly its code, type and modifier text, provided the type does
   * not start with a digit.
   */
  lemma MatchDefinitionCanonical(code: string, kind: string, comma: bool, modifiers: string)
    requires |code| > 0 && All(code, IsDigit)
    requires |kind| > 0 && All(kind, IsWordChar) && !IsDigit(kind[0])
    requires All(modifiers, IsModifierChar)
    requires !comma ==> modifiers == ""
    ensures MatchDefinition("%ADD" + code + kind + (if comma then "," else "") + modifiers + "*%")
         == Some(DefinitionText(code, kind, modifiers))
  {
    var rest := code + kind + ((if comma then "," else "") + modifiers + "*%");
    assert "%ADD" + code + kind + (if comma then "," else "") + modifiers + "*%" == "%ADD" + rest;
    CanonicalRest(code, kind, comma, modifiers);
    MatchDefinitionAtStart(rest);
  }

  /** The canonical form after `%ADD`, matched at the start. */
  lemma CanonicalRest(code: string, kind: string, comma: bool, modifiers: string)
    requires |code| > 0 && All(code, IsDigit)
    requires |kind| > 0 && All(kind, IsWordChar) && !IsDigit(kind[0])
    requires All(modifiers, IsModifierChar)
    requires !comma ==> modifiers == ""
    ensures MatchDefinitionAt(code + kind + ((if comma then "," else "") + modifiers + "*%"))
         == Some(DefinitionText(code, kind, modifiers))
  {
    var tail := (if comma then "," else "") + modifiers + "*%";
    assert tail[0] == (if comma then ',' else '*');
    assert |code + kind| == |code| + |kind|;
    CanonicalTail(code + kind, comma, modifiers);
    CanonicalParts(code, kind, tail, modifiers);
  }

  /** The match at the start of `code + kind + tail`, once the tail is known to match after the type. */
  lemma CanonicalParts(code: string, kind: string, tail: string, modifiers: string)
    requires |code| > 0 && All(code, IsDigit)
    requires |kind| > 0 && All(kind, IsWordChar) && !IsDigit(kind[0])
    requires |tail| > 0 && !IsWordChar(tail[0])
    requires LastTail(code + kind + tail, |code| + |kind|) == Some((|code| + |kind|, modifiers))
    ensures MatchDefinitionAt(code + kind + tail) == Some(DefinitionText(code, kind, modifiers))
  {
    ConcatPieces(code, kind, tail);
    MatchFromPieces(code + kind + tail, code, kind, tail, modifiers);
  }

  /** A three-piece concatenation, sliced back into its pieces. */
  lemma ConcatPieces(a: string, b: string, c: string)
    ensures |a + b + c| == |a| + |b| + |c|
    ensures (a + b + c)[..|a|] == a
    ensures (a + b + c)[|a|..|a| + |b|] == b
    ensures (a + b + c)[..|a| + |b|] == a + b
    ensures (a + b + c)[|a| + |b|..] == c
  {
    assert (a + b + c)[..|a|] == a;
    assert (a + b + c)[|a|..|a| + |b|] == b;
    assert (a + b + c)[..|a| + |b|] == a + b;
    assert (a + b + c)[|a| + |b|..] == c;
  }

  /** The match at the start of `rest`, known only through its three pieces. */
  lemma MatchFromPieces(rest: string, code: string, kind: string, tail: string, modifiers: string)
    requires |code| > 0 && All(code, IsDigit)
    requires |kind| > 0 && All(kind, IsWordChar) && !IsDigit(kind[0])
    requires |tail| > 0 && !IsWordChar(tail[0])
    requires |rest| == |code| + |kind| + |tail|
    requires rest[..|code|] == code && rest[|code|..|code| + |kind|] == kind
    requires rest[..|code| + |kind|] == code + kind && rest[|code| + |kind|..] == tail
    requires LastTail(rest, |code| + |kind|) == Some((|code| + |kind|, modifiers))
    ensures MatchDefinitionAt(rest) == Some(DefinitionText(code, kind, modifiers))
  {
    PiecesSpans(rest, code, kind, tail);
    MatchDefinitionAtParts(rest, DefinitionText(code, kind, modifiers));
  }

  /** The digit run of `rest` is the code, and its word run the code and the type. */
  lemma PiecesSpans(rest: string, code: string, kind: string, tail: string)
    requires All(code, IsDigit)
    requires |kind| > 0 && All(kind, IsWordChar) && !IsDigit(kind[0])
    requires |tail| > 0 && !IsWordChar(tail[0])
    requires |rest| == |code| + |kind| + |tail|
    requires rest[..|code|] == code && rest[|code|..|code| + |kind|] == kind
    requires rest[..|code| + |kind|] == code + kind && rest[|code| + |kind|..] == tail
    ensures Span(rest, IsDigit) == |code|
    ensures Span(rest, IsWordChar) == |code| + |kind|
  {
    var n := |code| + |kind|;
    assert rest[|code|] == kind[0] by {
      assert rest[|code|..n][0] == rest[|code|];
    }
    assert rest[n] == tail[0] by {
      assert rest[n..][0] == rest[n];
    }
    SpanUnique(rest, IsDigit, |code|);
    assert All(code + kind, IsWordChar) by {
      forall i | 0 <= i < n
        ensures IsWordChar((code + kind)[i])
      {
        if i >= |code| {
          assert (code + kind)[i] == kind[i - |code|];
        }
      }
    }
    SpanUnique(rest, IsWordChar, n);
  }

  /** The match at the start of `rest` from its digit run, its word run and the last tail. */
  lemma MatchDefinitionAtParts(rest: string, c: DefinitionText)
    requires |c.code| > 0 && Span(rest, IsDigit) == |c.code|
    requires Span(rest, IsWordChar) == |c.code| + |c.kind| && |c.kind| > 0
    requires LastTail(rest, |c.code| + |c.kind|) == Some((|c.code| + |c.kind|, c.modifiers))
    requires rest[..|c.code|] == c.code && rest[|c.code|..|c.code| + |c.kind|] == c.kind
    ensures MatchDefinitionAt(rest) == Some(c)
  {
  }

  /** A definition matching right after a leading `%ADD` is the leftmost match. */
  lemma MatchDefinitionAtStart(rest: string)
    requires MatchDefinitionAt(rest).Some?
    ensures MatchDefinition("%ADD" + rest) == MatchDefinitionAt(rest)
  {
    var line := "%ADD" + rest;
    assert line[0..] == line && line[4..] == rest;
    assert DefinitionAt(line[0..]);
  }

  /** After the type of a canonical definition, the tail matches with the modifier text as group 3. */
  lemma CanonicalTail(head: string, comma: bool, modifiers: string)
    requires |head| >= 2
    requires All(modifiers, IsModifierChar)
    requires !comma ==> modifiers == ""
    ensures var rest := head + ((if comma then "," else "") + modifiers + "*%");
      LastTail(rest, |head|) == Some((|head|, modifiers))
  {
    var rest := head + ((if comma then "," else "") + modifiers + "*%");
    assert rest[|head|..] == (if comma then "," else "") + modifiers + "*%";
    TailAt(rest, |head|, comma, modifiers);
  }

  /** The tail `<modifiers>*%`, or `,<modifiers>*%`, found at `t`. */
  lemma TailAt(rest: string, t: nat, comma: bool, modifiers: string)
    requires t <= |rest| && rest[t..] == (if comma then "," else "") + modifiers + "*%"
    requires All(modifiers, IsModifierChar)
    requires !comma ==> modifiers == ""
    ensures DefinitionTail(rest, t) == Some(modifiers)
  {
    var u := if comma then t + 1 else t;
    assert rest[t] == if comma then ',' else '*';
    assert rest[u..] == modifiers + "*%";
    SpanOfConcat(modifiers, "*%", IsModifierChar);
    assert rest[u + |modifiers|..] == "*%";
    assert rest[u..u + |modifiers|] == modifiers;
  }
}
