/**
 * The statement interpreter of gerber.go (`ParseGerber`, gerber.go:71-210, and `parseCoordinate`,
 * gerber.go:212-220). The input is the file as a sequence of lines; each is trimmed of white
 * space as the scanner loop does. The result is the command list and the interpreter state.
 *
 * `Interpret` is the reference definition, one line (or one macro block) at a time;
 * `ParseGerber` is the loop of the Go code, proved to compute it.
 */
module GerberParse {
  import opened Optional
  import opened GoStrings
  import opened GerberTypes
  import opened GerberSyntax

  // ------------------------------------------------------------ coordinates

  /**
   * `parseCoordinate`: a value written with a decimal point is taken as it is; any other value
   * is an integer count of 10^-decimal units of the axis format.
   */
  function ParseCoordinate(value: string, format: Format): real
  {
    if Contains(value, ".") then FloatOr0(value) else FloatOr0(value) / Pow10(format.decimal)
  }

  /**
   * Without a decimal point, a run of digits is scaled down by the format's decimal digits,
   * and a sign in front of it carries over to the scaled value.
   */
  lemma ParseCoordinateImplicit(digits: string, format: Format)
    requires |digits| > 0 && All(digits, IsDigit)
    ensures ParseCoordinate(digits, format) == DigitsValue(digits) as real / Pow10(format.decimal)
    ensures ParseCoordinate("-" + digits, format) == -(DigitsValue(digits) as real) / Pow10(format.decimal)
    ensures ParseCoordinate("+" + digits, format) == DigitsValue(digits) as real / Pow10(format.decimal)
  {
    DigitsHaveNoPoint(digits);
    FloatOfDigits(digits);
    SignedDigits("-", digits);
    SignedDigits("+", digits);
  }

  /** A signed run of digits parses as its signed value and has no decimal point. */
  lemma SignedDigits(sign: string, digits: string)
    requires sign == "-" || sign == "+"
    requires |digits| > 0 && All(digits, IsDigit)
    ensures !Contains(sign + digits, ".")
    ensures FloatOr0(sign + digits) == if sign == "-" then -(DigitsValue(digits) as real) else DigitsValue(digits) as real
  {
    var s := sign + digits;
    assert s[1..] == digits;
    assert Unsigned(s) == digits && IsNegative(s) == (sign == "-");
    assert Unsigned(digits) == digits && !IsNegative(digits);
    ParseFloatOfDigits(digits);
    ContainsChar(s, '.');
  }

  /** The worked case: "1234" under a format with four decimal digits is 0.1234. */
  lemma ParseCoordinateExample()
    ensures ParseCoordinate("1234", Format(2, 4)) == 0.1234
  {
    ParseCoordinateImplicit("1234", Format(2, 4));
    DigitsOf1234();
    assert Pow10(4) == 10000.0;
  }

  lemma DigitsOf1234()
    ensures DigitsValue("1234") == 1234
  {
    assert "1234"[..3] == "123" && "123"[..2] == "12" && "12"[..1] == "1" && "1"[..0] == "";
  }

  /** With a decimal point, the value is the literal one: no format scales it. */
  lemma ParseCoordinateLiteral(value: string, format: Format)
    requires '.' in value
    ensures ParseCoordinate(value, format) == FloatOr0(value)
  {
    ContainsChar(value, '.');
  }

  // ------------------------------------------------------------ coordinate statements

  /** The integer a `D` field carries: the float it parses to, truncated (gerber.go:192-193). */
  function DCode(value: string): int
  {
    Trunc(FloatOr0(value))
  }

  /**
   * One field of a coordinate statement applied to the command built so far: `X` and `Y` set
   * their axis, `D` sets the code and, for 1, 2 and 3, the command type (gerber.go:184-202).
   */
  function ApplyField(cmd: Command, f: Field, st: GerberState): Command
  {
    if f.letter == 'X' then cmd.(x := Some(ParseCoordinate(f.value, st.formatX)))
    else if f.letter == 'Y' then cmd.(y := Some(ParseCoordinate(f.value, st.formatY)))
    else if f.letter == 'D' then
      var d := DCode(f.value);
      cmd.(d := Some(d), kind := if d == 1 then Draw else if d == 2 then Move else if d == 3 then Flash else cmd.kind)
    else cmd
  }

  /** The command a coordinate statement builds: a MOVE with no axes, then each field in order. */
  function FieldsCommand(fields: seq<Field>, st: GerberState): Command
  {
    if fields == [] then Command(Move, None, None, None)
    else ApplyField(FieldsCommand(fields[..|fields| - 1], st), fields[|fields| - 1], st)
  }

  /** The field loop of gerber.go:180-203. */
  method BuildCommand(fields: seq<Field>, st: GerberState) returns (cmd: Command)
    ensures cmd == FieldsCommand(fields, st)
  {
    cmd := Command(Move, None, None, None);
    for i := 0 to |fields|
      invariant cmd == FieldsCommand(fields[..i], st)
    {
      assert fields[..i + 1][..i] == fields[..i];
      var f := fields[i];
      if f.letter == 'X' {
        cmd := cmd.(x := Some(ParseCoordinate(f.value, st.formatX)));
      } else if f.letter == 'Y' {
        cmd := cmd.(y := Some(ParseCoordinate(f.value, st.formatY)));
      } else if f.letter == 'D' {
        var d := DCode(f.value);
        cmd := cmd.(d := Some(d));
        if d == 1 {
          cmd := cmd.(kind := Draw);
        } else if d == 2 {
          cmd := cmd.(kind := Move);
        } else if d == 3 {
          cmd := cmd.(kind := Flash);
        }
      }
    }
    assert fields[..|fields|] == fields;
  }

  predicate IsXField(f: Field) { f.letter == 'X' }
  predicate IsYField(f: Field) { f.letter == 'Y' }
  predicate IsDField(f: Field) { f.letter == 'D' }

  /** A `D` field with an operation code: 1 (draw), 2 (move) or 3 (flash). */
  predicate IsOperationField(f: Field) { f.letter == 'D' && 1 <= DCode(f.value) <= 3 }

  /** The index of the last field with property `p`, or -1 when there is none. */
  function LastWhere(fields: seq<Field>, p: Field -> bool): (k: int)
    ensures -1 <= k < |fields|
    ensures 0 <= k ==> p(fields[k])
  {
    if fields == [] then -1
    else if p(fields[|fields| - 1]) then |fields| - 1
    else LastWhere(fields[..|fields| - 1], p)
  }

  /** No field after the one `LastWhere` finds has the property. */
  lemma {:induction false} LastWhereIsLast(fields: seq<Field>, p: Field -> bool, j: int)
    requires LastWhere(fields, p) < j < |fields|
    ensures !p(fields[j])
  {
    if j < |fields| - 1 {
      LastWhereIsLast(fields[..|fields| - 1], p, j);
    }
  }

  /** The axis a coordinate statement sets: the last `X` field's value, or none when there is no `X`. */
  lemma {:induction false} FieldsCommandX(fields: seq<Field>, st: GerberState)
    ensures var k := LastWhere(fields, IsXField);
      FieldsCommand(fields, st).x == if k < 0 then None else Some(ParseCoordinate(fields[k].value, st.formatX))
  {
    if fields != [] {
      var init := fields[..|fields| - 1];
      FieldsCommandX(init, st);
      var k := LastWhere(init, IsXField);
      assert 0 <= k ==> init[k] == fields[k];
    }
  }

  /** The same for `Y`: the last `Y` field, scaled by the Y format. */
  lemma {:induction false} FieldsCommandY(fields: seq<Field>, st: GerberState)
    ensures var k := LastWhere(fields, IsYField);
      FieldsCommand(fields, st).y == if k < 0 then None else Some(ParseCoordinate(fields[k].value, st.formatY))
  {
    if fields != [] {
      var init := fields[..|fields| - 1];
      FieldsCommandY(init, st);
      var k := LastWhere(init, IsYField);
      assert 0 <= k ==> init[k] == fields[k];
    }
  }

  /** The code a coordinate statement carries is that of its last `D` field, whatever its value. */
  lemma {:induction false} FieldsCommandD(fields: seq<Field>, st: GerberState)
    ensures var k := LastWhere(fields, IsDField);
      FieldsCommand(fields, st).d == if k < 0 then None else Some(DCode(fields[k].value))
  {
    if fields != [] {
      var init := fields[..|fields| - 1];
      FieldsCommandD(init, st);
      var k := LastWhere(init, IsDField);
      assert 0 <= k ==> init[k] == fields[k];
    }
  }

  /**
   * The type of a coordinate statement is decided by its last `D` field with code 1, 2 or 3
   * (draw, move, flash); other codes leave it alone, and with none it stays a MOVE.
   */
  lemma {:induction false} FieldsCommandKind(fields: seq<Field>, st: GerberState)
    ensures var k := LastWhere(fields, IsOperationField);
      FieldsCommand(fields, st).kind == if k < 0 then Move else OperationKind(DCode(fields[k].value))
  {
    if fields != [] {
      var init := fields[..|fields| - 1];
      var last := fields[|fields| - 1];
      FieldsCommandKind(init, st);
      ApplyFieldKind(FieldsCommand(init, st), last, st);
      if !IsOperationField(last) {
        var k := LastWhere(init, IsOperationField);
        assert LastWhere(fields, IsOperationField) == k;
        assert 0 <= k ==> init[k] == fields[k];
      }
    }
  }

  /** One field changes the type only when it is an operation `D` field. */
  lemma ApplyFieldKind(cmd: Command, f: Field, st: GerberState)
    ensures ApplyField(cmd, f, st).kind == if IsOperationField(f) then OperationKind(DCode(f.value)) else cmd.kind
  {
  }

  /** The command type of operation code 1, 2 or 3. */
  function OperationKind(d: int): CommandType
  {
    if d == 1 then Draw else if d == 2 then Move else Flash
  }

  // ------------------------------------------------------------ statements of a line

  /** The code a part `D<n>` selects: n when the text after `D` is an integer of at least 10. */
  function SelectCode(part: string): Option<int>
  {
    if |part| >= 2 && part[0] == 'D' then
      match Atoi(part[1..])
      case Some(n) => if n >= 10 then Some(n) else None
      case None => None
    else None
  }

  /**
   * The command one `*`-separated part appends, if any (gerber.go:157-205): an aperture select,
   * else the coordinate statement its fields build, else nothing.
   */
  function PartCommand(part: string, st: GerberState): Option<Command>
  {
    var p := TrimSpace(part);
    if p == [] then None
    else
      match SelectCode(p)
      case Some(n) => Some(Command(SelectAperture, None, None, Some(n)))
      case None =>
        var fields := CoordFields(p);
        if fields == [] then None else Some(FieldsCommand(fields, st))
  }

  function OptionList(c: Option<Command>): seq<Command>
  {
    match c
    case Some(v) => [v]
    case None => []
  }

  /** The commands a sequence of parts appends, in order. */
  function PartsCommands(parts: seq<string>, st: GerberState): seq<Command>
  {
    if parts == [] then []
    else PartsCommands(parts[..|parts| - 1], st) + OptionList(PartCommand(parts[|parts| - 1], st))
  }

  /** The commands a geometry line appends: one per part that is a statement. */
  function LineCommands(line: string, st: GerberState): seq<Command>
  {
    PartsCommands(Split(line, '*'), st)
  }

  /** The part loop of gerber.go:156-206. */
  method AppendStatements(line: string, st: GerberState, cmds: seq<Command>) returns (out: seq<Command>)
    ensures out == cmds + LineCommands(line, st)
  {
    var parts := Split(line, '*');
    out := cmds;
    for i := 0 to |parts|
      invariant out == cmds + PartsCommands(parts[..i], st)
    {
      var cmd := Statement(parts[i], st);
      PartsCommandsStep(cmds, parts, i, st, out);
      if cmd.Some? {
        out := out + [cmd.value];
      }
    }
    assert parts[..|parts|] == parts;
  }

  /** One more part: its command, if any, follows those of the parts before it. */
  lemma PartsCommandsStep(cmds: seq<Command>, parts: seq<string>, i: nat, st: GerberState, out: seq<Command>)
    requires i < |parts| && out == cmds + PartsCommands(parts[..i], st)
    ensures cmds + PartsCommands(parts[..i + 1], st) == out + OptionList(PartCommand(parts[i], st))
  {
    assert parts[..i + 1][..i] == parts[..i];
  }

  /** The body of the part loop (gerber.go:158-205): the command one part appends, if any. */
  method Statement(part: string, st: GerberState) returns (cmd: Option<Command>)
    ensures cmd == PartCommand(part, st)
  {
    var p := TrimSpace(part);
    if p == "" {
      return None;
    }
    if |p| >= 2 && p[0] == 'D' {
      var code := Atoi(p[1..]);
      if code.Some? && code.value >= 10 {
        return Some(Command(SelectAperture, None, None, Some(code.value)));
      }
    }
    var fields := CoordFields(p);
    if |fields| > 0 {
      var c := BuildCommand(fields, st);
      return Some(c);
    }
    return None;
  }

  /** `D<n>` with n >= 10 appends exactly one aperture select of n, with no axes. */
  lemma SelectPart(digits: string, st: GerberState)
    requires |digits| > 0 && All(digits, IsDigit) && DigitsValue(digits) >= 10
    ensures PartCommand("D" + digits, st) == Some(Command(SelectAperture, None, None, Some(DigitsValue(digits))))
  {
    var p := "D" + digits;
    assert p[|p| - 1] == digits[|digits| - 1];
    TrimSpaceOfTrimmed(p);
    assert p[1..] == digits;
    AtoiDigits(digits);
    assert SelectCode(p) == Some(DigitsValue(digits));
  }

  /**
   * `D01`, `D02` and `D03` are not selects: each becomes a statement of type DRAW, MOVE or FLASH
   * with that code and no axes.
   */
  lemma OperationPart(c: char, st: GerberState)
    requires '1' <= c <= '3'
    ensures PartCommand(['D', '0', c], st) == Some(Command(OperationKind(DigitValue(c)), None, None, Some(DigitValue(c))))
  {
    OperationPartFields(c, st);
    OperationFieldCommand(c, st);
  }

  /** `D0<c>` is not a select, and its only field is `D` with the number `0<c>`. */
  lemma OperationPartFields(c: char, st: GerberState)
    requires '1' <= c <= '3'
    ensures PartCommand(['D', '0', c], st) == Some(FieldsCommand([Field('D', ['0', c])], st))
  {
    var p := ['D', '0', c];
    TrimSpaceOfTrimmed(p);
    assert p[1..] == ['0', c];
    TwoDigits('0', c);
    assert SelectCode(p) == None;
    SingleField('D', ['0', c]);
    assert p == ['D'] + ['0', c];
  }

  /** The statement of the single field `D0<c>`. */
  lemma OperationFieldCommand(c: char, st: GerberState)
    requires '1' <= c <= '3'
    ensures FieldsCommand([Field('D', ['0', c])], st) == Command(OperationKind(DigitValue(c)), None, None, Some(DigitValue(c)))
  {
    var f := Field('D', ['0', c]);
    assert [f][..0] == [];
    assert FieldsCommand([f], st) == ApplyField(Command(Move, None, None, None), f, st);
    TwoDigits('0', c);
    FloatOfDigits(['0', c]);
  }

  /** Two digits have the value 10 * first + second. */
  lemma TwoDigits(a: char, b: char)
    requires IsDigit(a) && IsDigit(b)
    ensures Atoi([a, b]) == Some(10 * DigitValue(a) + DigitValue(b))
    ensures DigitsValue([a, b]) == 10 * DigitValue(a) + DigitValue(b)
  {
    assert [a, b][..1] == [a];
    assert [a][..0] == [];
    assert DigitsValue([a]) == DigitValue(a);
    assert All([a, b], IsDigit);
    assert Unsigned([a, b]) == [a, b];
  }

  /** A statement that is not a select never has the select type. */
  lemma {:induction false} FieldsCommandNotSelect(fields: seq<Field>, st: GerberState)
    ensures FieldsCommand(fields, st).kind != SelectAperture
  {
    if fields != [] {
      FieldsCommandNotSelect(fields[..|fields| - 1], st);
    }
  }

  /**
   * Every aperture select a part appends carries its code, of at least 10, and no axes; this is
   * what the rasterizer relies on when it reads the code of a select.
   */
  predicate SelectsWellFormed(cmds: seq<Command>)
  {
    forall k :: 0 <= k < |cmds| && cmds[k].kind == SelectAperture ==>
      cmds[k].d.Some? && cmds[k].d.value >= 10 && cmds[k].x.None? && cmds[k].y.None?
  }

  lemma {:induction false} PartsCommandsWellFormed(parts: seq<string>, st: GerberState)
    ensures SelectsWellFormed(PartsCommands(parts, st))
  {
    if parts != [] {
      PartsCommandsWellFormed(parts[..|parts| - 1], st);
      var p := TrimSpace(parts[|parts| - 1]);
      if p != [] && SelectCode(p).None? && CoordFields(p) != [] {
        FieldsCommandNotSelect(CoordFields(p), st);
      }
    }
  }

  // ------------------------------------------------------------ parameter lines

  /** `%FS`: the four digit counts, set only when the whole format pattern matches (gerber.go:96-103). */
  function ApplyFormat(line: string, st: GerberState): GerberState
  {
    match MatchFormat(line)
    case Some(g) =>
      st.(formatX := Format(Atoi(g.xInteger).GetOr(0), Atoi(g.xDecimal).GetOr(0)),
          formatY := Format(Atoi(g.yInteger).GetOr(0), Atoi(g.yDecimal).GetOr(0)))
    case None => st
  }

  /** `f` applied to every element, in order (the `for ... append` loops of the parser). */
  function Map<A, B>(f: A -> B, xs: seq<A>): seq<B>
  {
    if xs == [] then [] else Map(f, xs[..|xs| - 1]) + [f(xs[|xs| - 1])]
  }

  /** One result per element, in the same order. */
  lemma {:induction false} MapAt<A, B>(f: A -> B, xs: seq<A>)
    ensures |Map(f, xs)| == |xs|
    ensures forall i :: 0 <= i < |xs| ==> Map(f, xs)[i] == f(xs[i])
  {
    if xs != [] {
      var init := xs[..|xs| - 1];
      MapAt(f, init);
      forall i | 0 <= i < |init|
        ensures Map(f, xs)[i] == f(xs[i])
      {
        assert Map(f, xs)[i] == Map(f, init)[i];
        assert init[i] == xs[i];
      }
    }
  }

  lemma MapSnoc<A, B>(f: A -> B, xs: seq<A>, x: A)
    ensures Map(f, xs + [x]) == Map(f, xs) + [f(x)]
  {
    assert (xs + [x])[..|xs|] == xs;
  }

  /** The values of a list of number texts, each 0 when it does not parse. */
  function FloatsOf(parts: seq<string>): seq<real>
  {
    Map(FloatOr0, parts)
  }

  /** The modifier loops of gerber.go:112-115 and 136-139. */
  method ParseFloats(parts: seq<string>) returns (values: seq<real>)
    ensures values == FloatsOf(parts)
  {
    values := [];
    for i := 0 to |parts|
      invariant values == FloatsOf(parts[..i])
    {
      assert parts[..i + 1] == parts[..i] + [parts[i]];
      MapSnoc(FloatOr0, parts[..i], parts[i]);
      values := values + [FloatOr0(parts[i])];
    }
    assert parts[..|parts|] == parts;
  }

  /** The modifiers of an aperture definition: the `X`-separated values, none when the text is empty. */
  function DefinitionModifiers(text: string): seq<real>
  {
    if text == "" then [] else FloatsOf(Split(text, 'X'))
  }

  /** `%AD`: bind the code to the aperture, replacing any earlier binding (gerber.go:104-118). */
  function ApplyDefinition(line: string, st: GerberState): GerberState
  {
    match MatchDefinition(line)
    case Some(c) =>
      st.(apertures := st.apertures[Atoi(c.code).GetOr(0) := Aperture(c.kind, DefinitionModifiers(c.modifiers))])
    case None => st
  }

  /** `%MO`: inches when the line mentions `IN` anywhere, millimetres otherwise (gerber.go:144-149). */
  function ApplyUnits(line: string, st: GerberState): GerberState
  {
    st.(units := if Contains(line, "IN") then "IN" else "MM")
  }

  /** The macro name: the line without its leading `%AM` and one trailing `*` (gerber.go:121-122). */
  function MacroName(line: string): string
  {
    TrimSuffix(TrimPrefix(line, "%AM"), '*')
  }

  /**
   * One primitive line of a macro (already trimmed): without a trailing `*`, split at commas;
   * the first piece is the code and the rest the modifiers (gerber.go:131-141).
   */
  function PrimitiveOf(line: string): MacroPrimitive
  {
    var parts := Split(TrimSuffix(line, '*'), ',');
    MacroPrimitive(Atoi(parts[0]).GetOr(0), FloatsOf(parts[1..]))
  }

  /** The primitives of a list of (trimmed) primitive lines, in order. */
  function PrimitivesOf(texts: seq<string>): seq<MacroPrimitive>
  {
    Map(PrimitiveOf, texts)
  }

  lemma PrimitivesOfSnoc(texts: seq<string>, text: string)
    ensures PrimitivesOf(texts + [text]) == PrimitivesOf(texts) + [PrimitiveOf(text)]
  {
    MapSnoc(PrimitiveOf, texts, text);
  }

  /**
   * The body of the macro that starts at line `j`: the trimmed lines up to the first one that
   * trims to `%`, and the line after that `%` line. A file that ends first ends the macro
   * (gerber.go:126-142).
   */
  function MacroLines(lines: seq<string>, j: nat): (r: (seq<string>, nat))
    requires j <= |lines|
    ensures j <= r.1 <= |lines|
    decreases |lines| - j
  {
    if j == |lines| then ([], j)
    else if TrimSpace(lines[j]) == "%" then ([], j + 1)
    else
      var rest := MacroLines(lines, j + 1);
      ([TrimSpace(lines[j])] + rest.0, rest.1)
  }

  /** The macro loop of gerber.go:126-142, sharing the line cursor with the outer loop. */
  method ReadMacro(lines: seq<string>, start: nat) returns (primitives: seq<MacroPrimitive>, next: nat)
    requires start <= |lines|
    ensures next == MacroLines(lines, start).1
    ensures primitives == PrimitivesOf(MacroLines(lines, start).0)
  {
    primitives := [];
    next := start;
    ghost var texts: seq<string> := [];
    assert [] + MacroLines(lines, start).0 == MacroLines(lines, start).0;
    while next < |lines|
      invariant start <= next <= |lines|
      invariant MacroLines(lines, start) == (texts + MacroLines(lines, next).0, MacroLines(lines, next).1)
      invariant primitives == PrimitivesOf(texts)
    {
      var mLine := TrimSpace(lines[next]);
      if mLine == "%" {
        MacroLinesEnd(lines, start, next, texts);
        next := next + 1;
        return;
      }
      var primitive := ReadPrimitive(mLine);
      MacroLinesStep(lines, start, next, texts);
      PrimitivesOfSnoc(texts, mLine);
      primitives := primitives + [primitive];
      texts := texts + [mLine];
      next := next + 1;
    }
    assert texts + [] == texts;
  }

  /** A line that is not `%` joins the macro body, and reading goes on after it. */
  lemma MacroLinesStep(lines: seq<string>, start: nat, next: nat, texts: seq<string>)
    requires start <= next < |lines| && TrimSpace(lines[next]) != "%"
    requires MacroLines(lines, start) == (texts + MacroLines(lines, next).0, MacroLines(lines, next).1)
    ensures MacroLines(lines, start)
         == ((texts + [TrimSpace(lines[next])]) + MacroLines(lines, next + 1).0, MacroLines(lines, next + 1).1)
  {
    var rest := MacroLines(lines, next + 1);
    assert MacroLines(lines, next) == ([TrimSpace(lines[next])] + rest.0, rest.1);
    assert texts + ([TrimSpace(lines[next])] + rest.0) == (texts + [TrimSpace(lines[next])]) + rest.0;
  }

  /** A `%` line ends the macro body; reading resumes after it. */
  lemma MacroLinesEnd(lines: seq<string>, start: nat, next: nat, texts: seq<string>)
    requires start <= next < |lines| && TrimSpace(lines[next]) == "%"
    requires MacroLines(lines, start) == (texts + MacroLines(lines, next).0, MacroLines(lines, next).1)
    ensures MacroLines(lines, start) == (texts, next + 1)
  {
    assert MacroLines(lines, next) == ([], next + 1);
    assert texts + [] == texts;
  }

  /** One primitive line of the macro loop (gerber.go:131-140). */
  method ReadPrimitive(mLine: string) returns (primitive: MacroPrimitive)
    ensures primitive == PrimitiveOf(mLine)
  {
    var parts := Split(TrimSuffix(mLine, '*'), ',');
    var code := Atoi(parts[0]).GetOr(0);
    var mods := ParseFloats(parts[1..]);
    primitive := MacroPrimitive(code, mods);
  }

  // ------------------------------------------------------------ the file

  /**
   * The effect of the line at `i`: the new file contents and the next line to read. Blank lines
   * are skipped; `%` lines change only the state; other lines append their statements.
   */
  function LineEffect(lines: seq<string>, i: nat, gf: GerberFile): (r: (GerberFile, nat))
    requires i < |lines|
    ensures i < r.1 <= |lines|
  {
    var line := TrimSpace(lines[i]);
    if line == "" then (gf, i + 1)
    else if "%" <= line then
      if "%FS" <= line then (gf.(state := ApplyFormat(line, gf.state)), i + 1)
      else if "%AD" <= line then (gf.(state := ApplyDefinition(line, gf.state)), i + 1)
      else if "%AM" <= line then
        var body := MacroLines(lines, i + 1);
        var name := MacroName(line);
        (gf.(state := gf.state.(macros := gf.state.macros[name := Macro(name, PrimitivesOf(body.0))])), body.1)
      else if "%MO" <= line then (gf.(state := ApplyUnits(line, gf.state)), i + 1)
      else (gf, i + 1)
    else (gf.(commands := gf.commands + LineCommands(line, gf.state)), i + 1)
  }

  /** The file after interpreting the lines from `i` on, starting from `gf`. */
  function InterpretFrom(lines: seq<string>, i: nat, gf: GerberFile): GerberFile
    requires i <= |lines|
    decreases |lines| - i
  {
    if i == |lines| then gf
    else
      var r := LineEffect(lines, i, gf);
      InterpretFrom(lines, r.1, r.0)
  }

  /** The interpretation of a whole file. */
  function Interpret(lines: seq<string>): GerberFile
  {
    InterpretFrom(lines, 0, NewGerberFile())
  }

  /** `ParseGerber`: the scanner loop of gerber.go:88-207, over the lines of the file. */
  method ParseGerber(lines: seq<string>) returns (gf: GerberFile)
    ensures gf == Interpret(lines)
  {
    gf := NewGerberFile();
    var i := 0;
    while i < |lines|
      invariant 0 <= i <= |lines|
      invariant InterpretFrom(lines, i, gf) == Interpret(lines)
      decreases |lines| - i
    {
      ghost var effect := LineEffect(lines, i, gf);
      var line := TrimSpace(lines[i]);
      i := i + 1;
      if line == "" {
        continue;
      }
      if "%" <= line {
        if "%FS" <= line {
          var matches := MatchFormat(line);
          if matches.Some? {
            var g := matches.value;
            gf := gf.(state := gf.state.(
              formatX := Format(Atoi(g.xInteger).GetOr(0), Atoi(g.xDecimal).GetOr(0)),
              formatY := Format(Atoi(g.yInteger).GetOr(0), Atoi(g.yDecimal).GetOr(0))));
          }
        } else if "%AD" <= line {
          var matches := MatchDefinition(line);
          if matches.Some? {
            var code := Atoi(matches.value.code).GetOr(0);
            var mods: seq<real> := [];
            if matches.value.modifiers != "" {
              mods := ParseFloats(Split(matches.value.modifiers, 'X'));
            }
            gf := gf.(state := gf.state.(apertures := gf.state.apertures[code := Aperture(matches.value.kind, mods)]));
          }
        } else if "%AM" <= line {
          var name := MacroName(line);
          var primitives;
          primitives, i := ReadMacro(lines, i);
          gf := gf.(state := gf.state.(macros := gf.state.macros[name := Macro(name, primitives)]));
        } else if "%MO" <= line {
          gf := gf.(state := gf.state.(units := if Contains(line, "IN") then "IN" else "MM"));
        }
        assert effect == (gf, i);
        continue;
      }
      var commands := AppendStatements(line, gf.state, gf.commands);
      gf := gf.(commands := commands);
      assert effect == (gf, i);
    }
  }

  // ------------------------------------------------------------ properties of the interpreter

  /** A canonical `%FSLAX<a><b>Y<c><d>*%` line sets the digit counts of both axes, and nothing else. */
  lemma FormatLine(a: char, b: char, c: char, d: char, st: GerberState)
    requires IsDigit(a) && IsDigit(b) && IsDigit(c) && IsDigit(d)
    ensures ApplyFormat("%FSLAX" + [a, b] + "Y" + [c, d] + "*%", st)
         == st.(formatX := Format(DigitValue(a), DigitValue(b)), formatY := Format(DigitValue(c), DigitValue(d)))
  {
    MatchFormatCanonical(a, b, c, d);
    AtoiDigit(a);
    AtoiDigit(b);
    AtoiDigit(c);
    AtoiDigit(d);
  }

  /**
   * A canonical `%ADD<code><type>[,<modifiers>]*%` line binds the code to an aperture of that type,
   * replacing whatever the code was bound to before; nothing else in the state changes.
   */
  lemma DefinitionLine(code: string, kind: string, comma: bool, modifiers: string, st: GerberState)
    requires |code| > 0 && All(code, IsDigit)
    requires |kind| > 0 && All(kind, IsWordChar) && !IsDigit(kind[0])
    requires All(modifiers, IsModifierChar)
    requires !comma ==> modifiers == ""
    ensures ApplyDefinition("%ADD" + code + kind + (if comma then "," else "") + modifiers + "*%", st)
         == st.(apertures := st.apertures[DigitsValue(code) := Aperture(kind, DefinitionModifiers(modifiers))])
  {
    var line := "%ADD" + code + kind + (if comma then "," else "") + modifiers + "*%";
    MatchDefinitionCanonical(code, kind, comma, modifiers);
    var c := MatchDefinition(line).value;
    assert c == DefinitionText(code, kind, modifiers);
    AtoiDigits(code);
    assert Atoi(c.code).GetOr(0) == DigitsValue(code);
  }

  /** The modifiers of a definition are the values of its `X`-separated texts, in order. */
  lemma DefinitionModifiersOfJoin(texts: seq<string>)
    requires |texts| >= 1 && Join(texts, 'X') != ""
    requires forall i :: 0 <= i < |texts| ==> 'X' !in texts[i]
    ensures DefinitionModifiers(Join(texts, 'X')) == FloatsOf(texts)
  {
    SplitJoin(texts, 'X');
  }

  /**
   * A primitive line `<code>,<m1>,...,<mk>*` reads as the primitive whose code is the first
   * comma-separated field and whose modifiers are the values of the others, in order.
   */
  lemma PrimitiveOfJoin(pieces: seq<string>)
    requires |pieces| >= 1
    requires forall i :: 0 <= i < |pieces| ==> ',' !in pieces[i]
    ensures PrimitiveOf(Join(pieces, ',') + "*") == MacroPrimitive(Atoi(pieces[0]).GetOr(0), FloatsOf(pieces[1..]))
  {
    TrimSuffixOfConcat(Join(pieces, ','), '*');
    SplitJoin(pieces, ',');
  }

  /** The macro name of `%AM<name>*` is `<name>`. */
  lemma MacroNameOf(name: string)
    ensures MacroName("%AM" + name + "*") == name
  {
    assert "%AM" + name + "*" == "%AM" + (name + "*");
    TrimPrefixOfConcat("%AM", name + "*");
    TrimSuffixOfConcat(name, '*');
  }

  /**
   * The body of a macro: the lines from `j` up to the first one that trims to `%` (or the end of
   * the file), each trimmed and in order; reading resumes after that `%` line.
   */
  lemma {:induction false} MacroLinesSpec(lines: seq<string>, j: nat)
    requires j <= |lines|
    ensures var end := j + |MacroLines(lines, j).0|;
      && end <= |lines|
      && (forall k :: j <= k < end ==> TrimSpace(lines[k]) != "%" && MacroLines(lines, j).0[k - j] == TrimSpace(lines[k]))
      && (if end == |lines| then MacroLines(lines, j).1 == end
          else TrimSpace(lines[end]) == "%" && MacroLines(lines, j).1 == end + 1)
    decreases |lines| - j
  {
    if j < |lines| && TrimSpace(lines[j]) != "%" {
      MacroLinesSpec(lines, j + 1);
    }
  }

  /**
   * Parameter lines (those starting with `%`) append no commands, and only `%MO` lines change the
   * units. A `%MO` line changes nothing but the units, and a parameter line other than `%FS`,
   * `%AD`, `%AM` and `%MO` changes nothing at all; each of these moves on to the next line.
   */
  lemma ParameterLine(lines: seq<string>, i: nat, gf: GerberFile)
    requires i < |lines| && "%" <= TrimSpace(lines[i])
    ensures var line := TrimSpace(lines[i]);
      && LineEffect(lines, i, gf).0.commands == gf.commands
      && LineEffect(lines, i, gf).0.state.units
         == (if "%MO" <= line then (if Contains(line, "IN") then "IN" else "MM") else gf.state.units)
      && ("%MO" <= line ==>
           LineEffect(lines, i, gf) == (gf.(state := gf.state.(units := if Contains(line, "IN") then "IN" else "MM")), i + 1))
      && (!("%FS" <= line) && !("%AD" <= line) && !("%AM" <= line) && !("%MO" <= line) ==>
           LineEffect(lines, i, gf) == (gf, i + 1))
  {
    var line := TrimSpace(lines[i]);
    assert line != "";
    if "%FS" <= line {
      assert !("%MO" <= line) by {
        assert line[1] == 'F';
      }
    } else if "%AD" <= line || "%AM" <= line {
      assert !("%MO" <= line) by {
        assert line[1] == 'A';
      }
    }
  }

  /** A `%FS` line that the whole format pattern does not match changes nothing: neither commands nor state. */
  lemma FormatMismatch(lines: seq<string>, i: nat, gf: GerberFile)
    requires i < |lines| && "%FS" <= TrimSpace(lines[i]) && MatchFormat(TrimSpace(lines[i])).None?
    ensures LineEffect(lines, i, gf) == (gf, i + 1)
  {
    assert "%" <= TrimSpace(lines[i]);
  }

  /**
   * A `%AM<name>*` line stores, under `<name>`, the primitives of the lines up to the closing `%`
   * in file order, and reading resumes after that `%`; no command is appended and no other macro
   * or aperture changes.
   */
  lemma MacroLine(lines: seq<string>, i: nat, gf: GerberFile, name: string)
    requires i < |lines| && TrimSpace(lines[i]) == "%AM" + name + "*"
    ensures var r := LineEffect(lines, i, gf); var body := MacroLines(lines, i + 1);
      && r.0.commands == gf.commands
      && r.0.state == gf.state.(macros := gf.state.macros[name := Macro(name, PrimitivesOf(body.0))])
      && r.1 == body.1
  {
    var line := TrimSpace(lines[i]);
    assert line[..3] == "%AM";
    assert "%" <= line && "%AM" <= line;
    assert !("%FS" <= line) by { assert line[1] == 'A'; }
    assert !("%AD" <= line) by { assert line[2] == 'M'; }
    MacroNameOf(name);
  }

  /** A part that is not an aperture select and holds no coordinate match appends nothing (gerber.go:178-179). */
  lemma NoFieldPart(part: string, st: GerberState)
    requires SelectCode(TrimSpace(part)).None? && forall i :: !FieldAt(TrimSpace(part), i)
    ensures PartCommand(part, st) == None
  {
  }

  /** Concatenation keeps selects well formed. */
  lemma SelectsWellFormedAppend(a: seq<Command>, b: seq<Command>)
    requires SelectsWellFormed(a) && SelectsWellFormed(b)
    ensures SelectsWellFormed(a + b)
  {
    forall k | 0 <= k < |a + b| && (a + b)[k].kind == SelectAperture
      ensures (a + b)[k].d.Some? && (a + b)[k].d.value >= 10 && (a + b)[k].x.None? && (a + b)[k].y.None?
    {
      if k >= |a| {
        assert (a + b)[k] == b[k - |a|];
      }
    }
  }

  /**
   * One line keeps the interpretation's invariants: commands are only appended, selects stay
   * well formed, and the state's aperture and position fields are never written.
   */
  lemma LineEffectKeeps(lines: seq<string>, i: nat, gf: GerberFile)
    requires i < |lines| && SelectsWellFormed(gf.commands)
    ensures var r := LineEffect(lines, i, gf).0;
      && gf.commands <= r.commands
      && SelectsWellFormed(r.commands)
      && r.state.currentAperture == gf.state.currentAperture && r.state.x == gf.state.x && r.state.y == gf.state.y
  {
    var line := TrimSpace(lines[i]);
    if line != "" && !("%" <= line) {
      PartsCommandsWellFormed(Split(line, '*'), gf.state);
      SelectsWellFormedAppend(gf.commands, LineCommands(line, gf.state));
    }
  }

  /** The invariants of `LineEffectKeeps` hold from line `i` to the end of the file. */
  lemma {:induction false} InterpretFromKeeps(lines: seq<string>, i: nat, gf: GerberFile)
    requires i <= |lines| && SelectsWellFormed(gf.commands)
    ensures var r := InterpretFrom(lines, i, gf);
      && gf.commands <= r.commands
      && SelectsWellFormed(r.commands)
      && r.state.currentAperture == gf.state.currentAperture && r.state.x == gf.state.x && r.state.y == gf.state.y
    decreases |lines| - i
  {
    if i < |lines| {
      var e := LineEffect(lines, i, gf);
      LineEffectKeeps(lines, i, gf);
      InterpretFromKeeps(lines, e.1, e.0);
    }
  }

  /**
   * Every aperture select of an interpreted file carries a code of at least 10 and no axes, and
   * the state's current aperture and position keep their initial zero values.
   */
  lemma InterpretWellFormed(lines: seq<string>)
    ensures SelectsWellFormed(Interpret(lines).commands)
    ensures Interpret(lines).state.currentAperture == 0
    ensures Interpret(lines).state.x == 0.0 && Interpret(lines).state.y == 0.0
  {
    InterpretFromKeeps(lines, 0, NewGerberFile());
  }
}
