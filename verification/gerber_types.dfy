/**
 * The vocabulary shared by the interpreter and the rasterizer: apertures, macros, the
 * coordinate format, geometry commands and the interpreter state (gerber.go:15-68).
 */
module GerberTypes {
  import opened Optional

  /** Aperture types the rasterizer draws directly; any other type names a macro. */
  const CircleType := "C"
  const RectType := "R"
  const ObroundType := "O"

  /** A tool shape: its type and its modifiers (diameter, or width and height, ...). */
  datatype Aperture = Aperture(kind: string, modifiers: seq<real>)

  /** One primitive of an aperture macro: its primitive code and its modifiers. */
  datatype MacroPrimitive = MacroPrimitive(code: int, modifiers: seq<real>)

  datatype Macro = Macro(name: string, primitives: seq<MacroPrimitive>)

  /** Digit counts of one axis of the format specification. */
  datatype Format = Format(integer: int, decimal: int)

  /**
   * The interpreter state. `currentAperture`, `x` and `y` belong to the Go state record but are
   * never written by the interpreter: the rasterizer keeps its own pen and aperture selection.
   */
  datatype GerberState = GerberState(
    apertures: map<int, Aperture>,
    macros: map<string, Macro>,
    currentAperture: int,
    x: real,
    y: real,
    formatX: Format,
    formatY: Format,
    units: string)

  /** The command types the Go code writes as "APERTURE", "MOVE", "DRAW" and "FLASH". */
  datatype CommandType = SelectAperture | Move | Draw | Flash

  /** One geometry command; an absent axis keeps the pen's coordinate on that axis. */
  datatype Command = Command(kind: CommandType, x: Option<real>, y: Option<real>, d: Option<int>)

  datatype GerberFile = GerberFile(commands: seq<Command>, state: GerberState)

  /** An empty file: no commands, no apertures or macros, format 0/0 on both axes, millimetres. */
  function NewGerberFile(): GerberFile
  {
    GerberFile([], GerberState(map[], map[], 0, 0.0, 0.0, Format(0, 0), Format(0, 0), "MM"))
  }
}
