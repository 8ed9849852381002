# pcb-to-stencil core, modelled in Dafny

pcb-to-stencil turns a Gerber solder-paste layer into a 3D-printable stencil. The pipeline has
three parts, and the model covers all three.

1. **Parsing.** `ParseGerber` reads the file line by line into a list of geometry commands and
   an interpreter state: apertures, macros, the coordinate format and the units.
   - A `%` line is a parameter: `%FS` sets the format, `%AD` defines an aperture, `%AM` starts a
     macro that runs until a `%` line, and `%MO` sets the units.
   - Any other line is split at `*`. Each part is either an aperture select `D<n>` with n >= 10,
     or a coordinate statement built from its `X`, `Y` and `D` fields.
2. **Rasterizing.** `CalculateBounds` computes the box around every flashed or drawn point,
   padded by 2 mm. `Render` then paints a black grid of that size and clears the aperture's
   shapes:
   - at every FLASH;
   - along every DRAW, one stamp per pixel step, by `drawLine`.

   `drawAperture` handles circles, rectangles, obrounds (drawn as rectangles) and the
   circle (code 1) and center-line (code 21) primitives of macros.
3. **Meshing.** `GenerateMeshFromImage` scans each row of the grid for runs of solid pixels.
   `AddBox` appends one 12-triangle box per run, one pixel tall, from z = 0 to the stencil
   height.

## Module layout

| module | contents |
|---|---|
| `Optional` | the `Option` type |
| `GoStrings` | the Go library functions the parser uses (`TrimSpace`, `Split`, `Atoi`, `ParseFloat`, `int(f)`, integer `/ 2`), written out |
| `GerberTypes` | the data model |
| `GerberSyntax` | the three regular expressions as explicit matchers |
| `GerberParse` | the interpreter: `ParseGerber` as a method, specified by the function `Interpret` |
| `PenBounds` | `CalculateBounds` |
| `Raster` | the grid, `drawCircle`, the rectangle fill and pixel writes |
| `Render` | `drawAperture`, `drawLine` and `Render` |
| `RenderProperties` | properties of the rasterizer |
| `Mesh` | `AddBox` on the triangle list and `GenerateMeshFromImage` |

### Conventions

- **The grid.** The image is an `array2<bool>` indexed `img[x, y]`. `true` is a black (solid)
  pixel and `false` a white one (a hole).
- **Rasterizer contracts.** Every drawing method ensures that each pixel ends up white exactly
  when it was white before or one of the shapes it stamps covers it. The shapes are given by
  functions (`ApertureShapes`, `LineShapes`, `RenderShapes`), and `RenderProperties` proves
  facts about those functions.
- **The mesher.** `GenerateMeshFromImage` is proved equal to `MeshOf`, a row-by-row function
  built on the run scan `ScanRow`/`RowRuns`. The `Mesh` lemmas prove that the scan is lossless:
  - every run is solid and maximal;
  - runs are ordered and separated;
  - a pixel is solid exactly when a run holds it;
  - the runs hold as many pixels as the row has solid ones.

## Model

| member | source | states |
|---|---|---|
| GoStrings.IndexOf | gerber.go:111 | the index of the first separator, or the length: no separator before it, the separator at it |
| GoStrings.TrimSpace | gerber.go:89 | the trimmed line is no longer than the input and neither starts nor ends with Unicode white space |
| GoStrings.TrimSpacePadded | gerber.go:89 | trimming removes exactly the surrounding white space: any text with no white space at either end comes back from between any two runs of white space, and a line of white space alone trims to the empty string |
| GoStrings.TrimSpaceOfTrimmed | gerber.go:89 | a line with no white space at either end is left unchanged (trimming is idempotent) |
| GoStrings.Split | gerber.go:156 | `strings.Split` returns at least one piece, even for the empty string |
| GoStrings.SplitParts | gerber.go:111 | no piece contains the separator, and joining the pieces with it gives back the input |
| GoStrings.SplitJoin | gerber.go:132 | splitting undoes joining for pieces without the separator |
| GoStrings.AtoiDigits | gerber.go:99-102 | `Atoi` of a non-empty digit string is its decimal value |
| GoStrings.ScaleIsPow10 | gerber.go:214 | `ParseFloat`'s scaling of a fraction or exponent by ten e times is multiplication by 10^e, for negative e as well |
| GoStrings.ParseFloatOfDigits | gerber.go:217 | `ParseFloat` of a digit string is its integer value |
| GoStrings.FloatOfDigits | gerber.go:113 | the value-or-zero reading of a digit string is its integer value |
| GoStrings.Trunc | gerber.go:193 | `int(f)` truncates toward zero: within one unit of f, on the side of zero |
| GoStrings.Half | gerber.go:368 | integer `n / 2` truncates toward zero: n is 2h or 2h plus or minus 1, with h on n's side of zero |
| GerberSyntax.CoordFields | gerber.go:82 | every match is an axis letter and a non-empty number run, and there are no matches exactly when the pattern matches nowhere |
| GerberSyntax.SingleField | gerber.go:178 | a letter followed by a number run is exactly one match |
| GerberSyntax.Leftmost | gerber.go:97 | the leftmost match position: the pattern matches there and at no earlier position, or at no position at all |
| GerberSyntax.MatchFormatCanonical | gerber.go:86 | `%FSLAX<a><b>Y<c><d>*%` yields its four digits as the four submatches |
| GerberSyntax.MatchDefinitionAtSound | gerber.go:84 | a reported aperture-definition match really occurs: digit code, word-character type, optional comma, modifier text, then `*%` |
| GerberSyntax.MatchDefinitionCanonical | gerber.go:84 | `%ADD<code><type>[,<mods>]*%` yields exactly its code, type and modifier text when the type does not start with a digit |
| GerberSyntax.LastTailLargest | gerber.go:84 | the type ends at the largest position where the rest of the pattern can still match |
| GerberParse.ParseCoordinateImplicit | gerber.go:217-219 | a run of digits without a decimal point, unsigned or signed with `-` or `+`, is its signed integer value divided by 10^decimal digits |
| GerberParse.ParseCoordinateExample | gerber.go:212-220 | "1234" under a format with 4 decimal digits is 0.1234 |
| GerberParse.ParseCoordinateLiteral | gerber.go:213-215 | a value with a decimal point is taken literally, whatever the format |
| GerberParse.BuildCommand | gerber.go:180-203 | the field loop builds the command that folding the fields over a MOVE with no axes gives |
| GerberParse.LastWhereIsLast | gerber.go:181 | the index found is the last field with the property: no later field has it |
| GerberParse.FieldsCommandX | gerber.go:185-187 | the statement's X is the last X field scaled by the X format, and absent when there is no X field |
| GerberParse.FieldsCommandY | gerber.go:188-190 | the statement's Y is the last Y field scaled by the Y format, and absent when there is no Y field |
| GerberParse.FieldsCommandD | gerber.go:191-194 | the statement's code is the truncated value of the last D field, whatever that value is |
| GerberParse.FieldsCommandKind | gerber.go:195-201 | the statement's type is set by the last D field with code 1, 2 or 3 (DRAW, MOVE, FLASH), and is MOVE when there is none |
| GerberParse.AppendStatements | gerber.go:156-206 | the part loop appends exactly the commands of the line's parts, in order, after the existing ones |
| GerberParse.Statement | gerber.go:158-205 | one part becomes an aperture select, a coordinate statement or nothing, as its text decides |
| GerberParse.SelectPart | gerber.go:167-173 | `D<n>` with n >= 10 is one aperture select of n with no axes |
| GerberParse.OperationPart | gerber.go:167-201 | `D01`, `D02` and `D03` are not selects: each is a DRAW, MOVE or FLASH statement with that code and no axes |
| GerberParse.FieldsCommandNotSelect | gerber.go:180-201 | a coordinate statement never has the select type |
| GerberParse.PartsCommandsWellFormed | gerber.go:167-205 | every select the parts append carries a code of at least 10 and no axes |
| GerberParse.MapAt | gerber.go:112-115 | the append loops give one value per element, in order |
| GerberParse.ParseFloats | gerber.go:136-139 | the modifier loop yields each piece's float value, or 0 where it does not parse, in order |
| GerberParse.ReadMacro | gerber.go:126-142 | the macro loop reads the primitives of the trimmed lines up to the first `%` line, and resumes after it |
| GerberParse.ReadPrimitive | gerber.go:131-140 | a primitive line is split at commas after dropping its `*`: the first piece is the code, the rest the modifiers |
| GerberParse.PrimitiveOfJoin | gerber.go:131-140 | a primitive line `<code>,<m1>,...,<mk>*` reads as the code of its first comma-separated field and the values of the others as modifiers, in order |
| GerberParse.MacroLinesSpec | gerber.go:126-130 | the macro body is every line up to the first that trims to `%` (or the end of the file), trimmed and in order; reading resumes after that `%` |
| GerberParse.ParseGerber | gerber.go:71-210 | the scanner loop computes the interpretation of the whole file, line by line from an empty file |
| GerberParse.FormatLine | gerber.go:96-103 | a canonical `%FS` line sets the integer and decimal digit counts of both axes and nothing else |
| GerberParse.DefinitionLine | gerber.go:104-118 | a canonical `%AD` line binds its code to its type and modifiers, replacing any earlier binding; nothing else changes |
| GerberParse.DefinitionModifiersOfJoin | gerber.go:110-116 | the modifiers of `X`-joined texts are their values, in order |
| GerberParse.MacroNameOf | gerber.go:121-122 | the macro name of `%AM<name>*` is `<name>` |
| GerberParse.ParameterLine | gerber.go:95-152 | a parameter line appends no command; a `%MO` line sets the units to IN when the line mentions IN and to MM otherwise, and changes nothing else; a parameter line other than `%FS`, `%AD`, `%AM` and `%MO` changes nothing at all |
| GerberParse.FormatMismatch | gerber.go:96-103 | an `%FS` line the whole format pattern does not match changes neither commands nor state |
| GerberParse.MacroLine | gerber.go:119-143 | `%AM<name>*` stores, under `<name>`, the primitives of the lines up to the closing `%` and resumes after it; nothing else changes |
| GerberParse.NoFieldPart | gerber.go:178-179 | a part that is neither a select nor holds any coordinate match appends nothing |
| GerberParse.LineEffectKeeps | gerber.go:88-207 | one line only appends commands, keeps selects well formed and never writes the state's current aperture or position |
| GerberParse.InterpretWellFormed | gerber.go:60-68 | every select of a parsed file is well formed, and the state's current aperture and position stay at their zero defaults |
| PenBounds.Include | gerber.go:230-243 | the first point starts the box and every later point widens it to take the point in |
| PenBounds.CalculateBounds | gerber.go:226-277 | the loop returns the padded extent of every flashed and drawn point, or the default box when there is none |
| PenBounds.ExtentTight | gerber.go:230-243 | every point lies in the extent, and each of its four edges is reached by some point |
| PenBounds.BoundsContain | gerber.go:246-276 | each contributor lies at least 2 mm inside every edge, and each edge is exactly 2 mm beyond some contributor |
| PenBounds.BoundsDefault | gerber.go:263-274 | with nothing flashed or drawn the box is (-2, -2) to (12, 12) |
| PenBounds.BoundsSpan | gerber.go:269-274 | the box is always at least 4 mm wide and 4 mm tall |
| PenBounds.ContributorsOfMove | gerber.go:246-260 | a MOVE or select moves the pen along the axes it names and adds no point |
| PenBounds.SentinelMissesFlash | gerber.go:227-228 | as written, a flash at x = 1e9 yields the default box, which does not contain it |
| PenBounds.SentinelCapsMaximum | gerber.go:227-242 | as written, a flash at x = -2e9 leaves the right edge at -1e9 plus padding, 1e9 beyond the flash, where the corrected box is tight |
| PenBounds.GrowAllFromSentinel | gerber.go:227-243 | for points strictly within plus or minus 1e9 the sentinel start gives exactly the extent |
| Raster.Rect | gerber.go:368 | `image.Rect` orders the corners: the box spans the same two x and two y values, smallest first |
| Raster.StampedAppend | gerber.go:319-349 | a pixel is cleared by two rounds of stamping exactly when either round clears it |
| Raster.StampedExists | gerber.go:319-349 | a pixel is cleared exactly when some stamped shape covers it |
| Raster.DiskIsRound | gerber.go:440-442 | the square loop bounds add nothing: a disk covers exactly the pixels within distance r, and none when r < 0 |
| Raster.DrawCircle | gerber.go:438-447 | exactly the pixels of the disk turn white; every other pixel is unchanged |
| Raster.Set | gerber.go:443 | a write inside the grid clears that one pixel, and a write outside it changes nothing |
| Raster.FillRect | gerber.go:369 | exactly the pixels of the box, clipped to the grid, turn white |
| Render.RadiusIsHalfDiameter | gerber.go:359 | the radius is half the truncated pixel diameter, halved toward zero |
| Render.NormalizeRotation | gerber.go:411-415 | the normalised rotation lies in [0, 360) |
| Render.DrawAperture | gerber.go:354-436 | exactly the pixels the aperture's shapes cover turn white |
| Render.DrawPrimitive | gerber.go:387-433 | exactly the pixels of one macro primitive's shapes turn white |
| Render.ISqrtIsRoot | gerber.go:458-459 | the step count is the integer square root: its square is at most n, and the next square exceeds n |
| Render.CentresAt | gerber.go:466-469 | the centres are listed in step order, centre i lying i/steps of the way along on each axis |
| Render.LineStep | gerber.go:466-471 | one more step stamps the aperture at the next centre after the earlier stamps |
| Render.DrawLine | gerber.go:449-472 | exactly the pixels of the aperture stamped at every centre of the segment turn white |
| Render.DrawCentres | gerber.go:466-471 | the step loop stamps the aperture at centres 0 to steps, and nothing else changes |
| Render.RenderSnoc | gerber.go:319-349 | one more command advances the pen one step and adds that command's stamps to the earlier ones |
| Render.DrawCommand | gerber.go:333-347 | a FLASH or DRAW clears exactly its stamps, given the pen and code before it |
| Render.Render | gerber.go:280-352 | the grid has the frame's size in pixels and is black except where some FLASH or DRAW stamps |
| RenderProperties.ObroundIsRect | gerber.go:372-381 | an obround aperture draws exactly what the rectangle with the same modifiers draws |
| RenderProperties.TooFewModifiers | gerber.go:358-404 | too few modifiers (or an unknown primitive code) stamp nothing |
| RenderProperties.UnknownTypeStampsNothing | gerber.go:384-385 | a type that is not C, R, O or a defined macro stamps nothing |
| RenderProperties.CircleApertureClears | gerber.go:356-362 | a circle clears exactly the pixels within half the truncated diameter of the centre |
| RenderProperties.RectApertureClears | gerber.go:363-371 | a rectangle clears the box from half its width left of the centre up to, but not including, half its width right of it, and likewise vertically; a negative size acts as its absolute value |
| RenderProperties.NormalizeRotationIsMod | gerber.go:411-415 | normalisation is the remainder of floored division by 360 |
| RenderProperties.NormalizeRotationPeriodic | gerber.go:411-415 | whole turns do not change the normalised rotation |
| RenderProperties.QuarterTurnHalfTurn | gerber.go:417-420 | a rotation and its half-turn opposite swap width and height alike |
| RenderProperties.QuarterTurnExamples | gerber.go:417-420 | rotations near 90 and 270 swap, while 0, 180, 91 and 360 do not |
| RenderProperties.StepsIsLength | gerber.go:456-459 | the step count is the segment's length, truncated |
| RenderProperties.StepsZero | gerber.go:461-464 | there are no steps exactly when both ends are the same pixel |
| RenderProperties.LineCount | gerber.go:461-471 | a segment is stamped once more than it has steps |
| RenderProperties.LineEnds | gerber.go:461-471 | the first stamp is at the start and the last at the end |
| RenderProperties.LerpBetween | gerber.go:467-469 | every interpolated coordinate lies between the segment's two ends |
| RenderProperties.LineInBox | gerber.go:466-471 | every stamp centre lies in the bounding box of the segment |
| RenderProperties.SelectOnlyChangesCode | gerber.go:320-323 | a select changes only the selected code and stamps nothing |
| RenderProperties.MoveStampsNothing | gerber.go:325-331 | a MOVE moves the pen along the axes it names, keeps the code and stamps nothing |
| RenderProperties.UndefinedCodeStampsNothing | gerber.go:335-346 | nothing is stamped while the selected code has no aperture |
| RenderProperties.DrawInPlace | gerber.go:340-347 | a DRAW with no axes stamps the aperture once, where the pen stands |
| RenderProperties.RenderPenAt | gerber.go:316-331 | the rasterizer's pen visits the same positions as the bounds loop's pen |
| RenderProperties.OnlyFlashAndDrawStamp | gerber.go:319-349 | without a FLASH or a DRAW the grid stays black everywhere |
| Mesh.BoxTriangles | main.go:51-76 | a box is 12 triangles |
| Mesh.BoxShape | main.go:51-76 | every vertex is one of the box's eight corners, and every triangle lies in one face |
| Mesh.BoxUsesEveryCorner | main.go:51-76 | each of the eight corners is a vertex of some triangle |
| Mesh.TriangleList.constructor | main.go:84 | a new list is empty |
| Mesh.TriangleList.AddQuad | main.go:65-68 | a quad appends its two triangles (a, b, c) and (c, d, a) and keeps the earlier ones |
| Mesh.TriangleList.AddBox | main.go:51-76 | appends the box's 12 triangles after every earlier one |
| Mesh.ScanRowShape | main.go:90-117 | after any prefix, the closed runs are solid, maximal and ordered, and lie before the open one |
| Mesh.ScanRowCover | main.go:90-117 | the closed runs cover exactly the solid pixels passed so far, outside the open run |
| Mesh.ScanRowCount | main.go:90-117 | the closed runs and the open one hold as many pixels as the prefix has solid ones |
| Mesh.RowRunsShape | main.go:90-128 | each run of a row is solid and maximal, and the runs are ordered with gaps between them |
| Mesh.RowRunsCover | main.go:90-128 | a pixel is solid exactly when some run of its row holds it |
| Mesh.RowRunsCount | main.go:90-128 | the runs hold exactly the row's solid pixels, so the scan is lossless |
| Mesh.ClearRowNoRuns | main.go:90-117 | a row with no solid pixel has no run |
| Mesh.SolidRowOneRun | main.go:90-128 | a fully solid row is one run from column 0 across the whole width |
| Mesh.RunBoxesLayout | main.go:103-127 | triangles 12k to 12k + 11 of a row are the box of its run k |
| Mesh.MeshSize | main.go:87-129 | the mesh has exactly 12 triangles per run |
| Mesh.ClearGridNoMesh | main.go:80-131 | an image with no solid pixel gives no triangles |
| Mesh.AddStrip | main.go:103-115 | closing a run appends exactly that run's box |
| Mesh.MeshRow | main.go:87-129 | one row appends the boxes of that row's runs, left to right |
| Mesh.GenerateMeshFromImage | main.go:80-131 | the mesh is each row's run boxes, top row first |

## Left out

- File I/O is not modelled. `ParseGerber` takes the file's lines, and `bufio.Scanner`'s line
  splitting and its errors are not part of this model.
- `WriteSTL`, `main` and the PNG output are not part of this model.
- Integers are unbounded, so `strconv.Atoi`'s range error on huge numbers is not modelled.
- Floating point is modelled with exact reals. `ParseFloat` accepts decimal literals only, and
  `inf`, `nan` and hexadecimal floats read as failures.
- `Render.DrawLine`: the centres are interpolated with exact reals, so where Go's float64
  product lands just below a whole number (such as (1/49)*49) and `int(...)` truncates it, a
  centre of the model can lie one pixel away from Go's.
- `Render.ISqrt`: `int(math.Sqrt(n))` is the exact integer square root, with no floating-point
  rounding.
- The grid is `bool`: black or white. Colours and the `r, g, b < 10000` threshold of main.go:92-96
  become "solid is black", which is all `Render` produces.
- `Mesh.GenerateMeshFromImage` takes the stencil height as a parameter rather than the global
  `StencilHeight`.
- main.go:163 calls `Render` with one argument, where gerber.go:280 takes two. The model follows
  gerber.go; passing no bounds is `None`.
- `Render.Render`: a frame with a negative width or height gives an empty grid. Go's `image.Rect`
  would swap the corners and paint at negative coordinates.
- `Render.Render` requires every select to carry its code. The parser guarantees this
  (`GerberParse.InterpretWellFormed`). Go would panic on a nil code otherwise.
- Strings are sequences of characters. Go's byte-oriented `part[1:]` and `len(part)` agree
  with this for the ASCII text of Gerber commands.
- The macro exposure modifier is ignored, as it is in the source: every primitive clears.

## Findings

| source | as written | input that shows it | evidently intended | confidence | as-written member | corrected member |
|---|---|---|---|---|---|---|
| gerber.go:227-228, 263 | "nothing drawn" is detected by `minX` still equalling its 1e9 starting value | a file whose only command is a FLASH at X = 1e9, Y = 0: the default box (-2, -2)..(12, 12) comes out, which excludes the flash. The same start value also means a point below -1e9 on an axis never raises that axis's maximum above -1e9 (gerber.go:237-242), so such a box is not tight (`PenBounds.SentinelCapsMaximum`); `PenBounds.GrowAllFromSentinel` proves the sentinel harmless only for points strictly within plus or minus 1e9 | the box around every flashed or drawn point, with the default only when there is none | not executed | PenBounds.SentinelMissesFlash | PenBounds.CalculateBounds |
