# K1DE, modelled and proved in Dafny

K1DE is the display server of K1OS: it scans out a display, runs a shell behind a
pseudo-terminal, shows the shell's output on a character grid, and forwards keys.
This project models its core and proves what the code does on every input and every
run. It verifies as a whole with `dafny verify dfyconfig.toml`.

## How it is put together

* `Palette`, `Sgr` - the 16-colour palette, the reduction of other colours onto it, and
  what an SGR parameter list does.
* `Control` - the escape-sequence automaton. It reads bytes, never sees the screen, and
  requests at most one screen action per byte. `Screen` - the grid as rows of cells and
  what each action does to it.
* `Terminal` - `TerminalSpec` joins the two; `TerminalObject` is the terminal as the
  program has it, flat fields over one flat array updated in place, proved equal to the
  join.
* `ControlLaws`, `CsiParameters`, `SgrStreams`, `ScreenLaws`, `Document`, `Repaint` - laws
  of all byte streams: resynchronisation, control strings, parameters, colour sequences,
  erasing, scrolling, painting. `Wire` - what each kind of byte sequence does to the cells
  of any screen, said without the automaton.
* `Framebuffer` - the font, the picture of a grid as a function of the pixel, and the
  loops that draw it into a pitched byte buffer.
* `Drm` - choosing a mode, building and tearing down a scanout against a kernel whose
  every call may fail, with a ledger of what is live; `DrmObject` is the card object.
* `Keyboard` - from key events to bytes. `KeyboardLaws` - the layout, by character.
* `EventLoop` - the main loop as a transition system; `Machine` - one turn of it over
  the real objects. `CacheLaws`, `KeyLaws`, `IdleLaws`, `LoopLaws` - laws of all runs of it.

## Main results

* The framebuffer is a correct cache of the terminal over every run of the main loop, with
  the exact exception (`CacheAgrees`, `CacheAgreesExactlyUnlessStale`), and what it shows is
  the picture of the size changes and shell bytes so far, replayed (`ScreenIsHistory`).
* The terminal's fused code over a flat array is a parser that never sees the screen, driving
  a grid of rows (`ProcessByte`), rendering is a function of the pixel (`Render`,
  `RenderedShows`), and turns over the objects are runs of the loop (`Turns`).
* Scrolling shows the end of an unbounded document (`ScreenShowsDocument`,
  `EscapeFreeScreen`, `PlainTextLayout`); painting cell by cell in any order, from any state, gives exactly the
  picture painted (`RepaintRoundTrip`).
* Parameters round-trip through the parser, for every parameter string (`ControlSequence`,
  `ParametersRoundTrip`); control strings are swallowed exactly (`StringIsSwallowedExactly`);
  three bytes resynchronise the parser and no fewer do (`ResetReachesGround`,
  `ResetIsShortest`).
* SGR lists can be split exactly when the first part is closed
  (`ComposesExactlyWhenClosed`, `StreamsComposeExactlyWhenClosed`).
* The kernel's ledger is exact over every run with any failures (`LedgerIsExact`,
  `LoopBalances`), with the exact condition for nothing to be left behind
  (`LedgerIsCleanExactlyWhen`, `LoopIsCleanExactlyWhen`), and all parts agree on the size
  of the screen, which the grid fills (`RunLoop`, `GridFillsTheScreen`).
* Keys are conserved across the screensaver (`KeysFromTheStart`, `KeysAreConserved`,
  `ActivationsBalance`, `KeysAddUp`), their bytes are uniquely decodable
  (`OutputsAreDecodable`), and every character has one key (`OneKeyForEachCharacter`).

## Where the code is not what one would expect

* The framebuffer is repainted only when the terminal is dirty. After a scanout could not
  be built, `mode` keeps its old value, so a rebuild at that size asks for no repaint and
  the screen stays black. `CacheAgreesExactlyUnlessStale` is the exact condition,
  `CacheCanDisagree` a run.
* Joining two SGR lists changes their meaning when the first ends inside or right after an
  extended-colour introducer, or is empty. `ComposesExactlyWhenClosed` is exact.
* ED 1 with a wrap pending blanks one cell of the next row. `EraseUpToCursor` is exact,
  `EraseCanSpill` a byte stream.
* An empty last CSI parameter is dropped, unlike section 5.4.2 of ECMA-48, and parameters
  wrap around at 2^32. `ControlSequence` covers all parameter bytes. Dropping can be seen
  in SGR (`TrailingZeroShowsInSgr`) and nowhere else (`TrailingZeroShowsOnlyInSgr`).
* Inside a control string ESC takes the next byte along, so ESC ESC `\` does not end it.
  `ReadingIsUnique` and `StringIsSwallowedExactly` are about that grammar, and
  `StringEndsExactlyAt` says where a string ends.
* The log line at packages/k1de/src/main.rs:608 says an exited shell is respawned; the code
  does so only at the next change of mode. `ShellReturnsOnlyOnModeChange` is exact,
  `ExitedShellStaysGone` a run.
* A scanout whose MAP_DUMB, mmap or SETCRTC step fails leaves resources live.
  `LedgerIsExact` accounts for each, `LedgerIsCleanExactlyWhen` is exact and
  `LedgerCanLeak` is a run.
* The background fill tests only the left edge of a pixel row, so on a mode less high than
  one character cell it can index past the buffer. `CellFitsExactlyWhen` and
  `FillsStayExactlyWhen` are exact, `SmallModeOverruns` is a mode.
* `shift` and `ctrl` are the last event on either of two keys, not "some key is held".
  `ModifiersMatchHeldKeys` is exact, `ShiftCanBeLost` an event sequence.

## Modelling decisions

* Bytes, u16 and u32 are bounded integers; digit accumulation wraps at 2^32 as in a release
  build. `usize` is 64-bit in the program and unbounded here: sizes come from 16-bit modes,
  so no product or sum in the code comes near 2^64.
* Kernel calls, the clock, the shell and the keyboards are inputs of a step. Within one
  refresh each kernel answer is used only if the code makes that call. The kernel is
  assumed not to hand out an id that is live (`KernelOk`), and, where pixels matter, to
  return a buffer of at least four bytes per pixel (`Roomy`). Laws of pixels are about runs
  in which every repaint can be drawn (`SafeRun`): a row holds the columns of the grid, and
  no cell with a background overruns the buffer, where the code panics. For modes with room
  for one character cell that is always so (`WholeModesAreSafe`).
* Setting the window size of a live pseudo-terminal and writing keys to it succeed.
* `Terminal.lines` and `Card.ledger` are ghost fields: what the flat array holds as rows,
  and the kernel's books.

## Model

| member | source | states |
|---|---|---|
| `Palette.NearestIsLowestMinimum` | packages/k1de/src/main.rs:441-462 | the reduced colour is the lowest palette index at the least squared distance |
| `Palette.NearestScan` | packages/k1de/src/main.rs:441-462 | the scan, whose running minimum starts at the largest i32, returns that index |
| `Palette.PaletteIsVga` | packages/k1de/src/main.rs:44-61 | the sixteen colours are the VGA text colours: three colour bits, intensity, and brown for dark yellow |
| `Palette.DistanceOfChannels` | packages/k1de/src/main.rs:450-457 | the distance is the sum of the squares of the channel differences |
| `Palette.Distance` | packages/k1de/src/main.rs:455 | a squared distance is at most 195075, so no i32 overflows, and is 0 only between equal colours |
| `Palette.NearestIsIdentityOnPalette` | packages/k1de/src/main.rs:421-462 | reduction is the identity on the palette, also through the 256-colour table |
| `Palette.CubeEntry` | packages/k1de/src/main.rs:424-431 | every entry of the 256-colour cube is 16+36r+6g+b and has the levels of its digits r, g and b, level 0 being 0 and level k being 55+40k |
| `Palette.GreyEntry` | packages/k1de/src/main.rs:432-435 | entry 232+k is the grey 8+10k |
| `Palette.RgbChannels` | packages/k1de/src/main.rs:415-417 | packing a colour and taking its channels apart gives them back |
| `SgrState.ComposesExactlyWhenClosed` | packages/k1de/src/main.rs:223-282 | applying A++B equals applying A then B, for every nonempty B and every colour state, if and only if A is nonempty and no group of A looks past its end |
| `SgrState.FoldAppend` | packages/k1de/src/main.rs:230-281 | a closed parameter list can be split off the front of the loop |
| `SgrState.SeparatorSeparates` | packages/k1de/src/main.rs:247-277 | for every unclosed A there is a continuation whose bold code is swallowed as colour data when joined and obeyed when sent apart |
| `SgrState.IndexedColorIsBasicColor` | packages/k1de/src/main.rs:241-262 | 38;5;N and 48;5;N with N below 16 act as the matching 30-37/90-97 and 40-47/100-107 codes, from any state |
| `SgrState.TrueColorIsNearest` | packages/k1de/src/main.rs:263-274 | 38;2;R;G;B and 48;2;R;G;B, for all 32-bit R, G and B, set the foreground or background to the lowest palette index nearest to the colour of the values truncated to bytes, and nothing else |
| `SgrState.IndexedColorIsNearest` | packages/k1de/src/main.rs:250-262 | 38;5;N and 48;5;N, for every 32-bit N, select the lowest palette index nearest to entry N modulo 256 of the xterm palette, and change nothing else |
| `SgrState.PlainCodes` | packages/k1de/src/main.rs:224-246 | an empty list and 0 reset, 1 and 22 turn bold on and off, 30-37, 40-47, 90-97 and 100-107 select the sixteen colours, 39 and 49 the default |
| `SgrState.OtherCodes` | packages/k1de/src/main.rs:232-279 | a lone 38 or 48 and every other code change nothing |
| `SgrState.IntroducerAlone` | packages/k1de/src/main.rs:247-276 | 38 or 48 not followed by 2 or 5 is skipped and what follows is obeyed |
| `SgrState.ShortColors` | packages/k1de/src/main.rs:250-275 | 38;5 without an index selects nothing, and missing channels of 38;2 are zero |
| `SgrState.ApplyKeepsIndices` | packages/k1de/src/main.rs:223-282 | colour indices stay below 16 for any parameters |
| `Control.StepKeepsIndices` | packages/k1de/src/main.rs:284-316 | every cell a byte asks to print is a printable character in palette colours |
| `ControlLaws.ResetReachesGround` | packages/k1de/src/main.rs:298-381 | after any stream, the bytes `\` ESC `\` leave the parser in ground state with the colours unchanged |
| `ControlLaws.ParserForgetsThePast` | packages/k1de/src/main.rs:298-381 | the parser state after a stream, pending parameters of a control sequence included, depends only on what follows such a word |
| `ControlLaws.ResetIsShortest` | packages/k1de/src/main.rs:319-379 | no word of fewer than three bytes brings every state to ground |
| `ControlLaws.ReadIsWell` | packages/k1de/src/main.rs:350-376 | every stream reads as pieces (plain bytes, or ESC with the byte it takes along) followed by a terminator and a rest, or stays open |
| `ControlLaws.ReadSpells` | packages/k1de/src/main.rs:350-376 | the reading of a stream spells exactly that stream |
| `ControlLaws.ReadingIsUnique` | packages/k1de/src/main.rs:350-376 | the grammar is unambiguous: any well-formed reading is the one found |
| `ControlLaws.StringRun` | packages/k1de/src/main.rs:350-376 | the parser reaches ground at the terminator of the reading and goes on with the rest; an open string leaves it inside |
| `ControlLaws.StringIsSwallowedExactly` | packages/k1de/src/main.rs:350-376 | ground is reached at the last byte of the terminator and not before, and until then nothing but the parser mode moves and nothing is requested of the screen |
| `ControlLaws.StringEndsExactlyAt` | packages/k1de/src/main.rs:350-376 | in a form its sender can check: the string ends at byte n if and only if n is the first byte that is a backslash after an odd run of ESC or, for OSC, BEL after an even one |
| `ControlLaws.AlikeForever` | packages/k1de/src/main.rs:319-325 | parameters left over outside a control sequence can never be observed |
| `CsiParameters.ControlSequence` | packages/k1de/src/main.rs:319-349 | for any bytes without a final byte between ESC [ and a final byte: ground state, parameters the decimal values of the semicolon-separated digit strings modulo 2^32 (empty is 0, an empty last one is dropped, all other bytes ignored), and exactly the action of the final byte |
| `CsiParameters.TrailingZeroActsAlike` | packages/k1de/src/main.rs:170-216 | no screen action can tell the dropped empty last parameter from a zero, for any list and final byte |
| `CsiParameters.TrailingZeroShowsOnlyInSgr` | packages/k1de/src/main.rs:339-344 | nor can any later byte, unless the final byte is m |
| `CsiParameters.TrailingZeroShowsInSgr` | packages/k1de/src/main.rs:223-240 | there it shows: ESC[1;m leaves bold on and ESC[1;0m off, from every state |
| `CsiParameters.JoinOfFields` | packages/k1de/src/main.rs:333-348 | the fields joined by semicolons are the digits and semicolons of the string |
| `CsiParameters.FieldsOfJoin` | packages/k1de/src/main.rs:333-348 | and digit strings are recovered from their join |
| `CsiParameters.ParametersRoundTrip` | packages/k1de/src/main.rs:332-344 | any list of 32-bit values written in decimal and joined by semicolons reads back as that list |
| `CsiParameters.WrittenSequence` | packages/k1de/src/main.rs:319-344 | the same end to end: the sequence ends in ground state with that list and performs its action |
| `CsiParameters.Decimal` | packages/k1de/src/main.rs:334-336 | the decimal digits of a number have its value |
| `Screen.PerformKeepsValid` | packages/k1de/src/main.rs:153-216 | no action, whatever its arguments, moves the cursor out of range, changes the shape, or stores a cell that is not printable in palette colours |
| `Screen.ResizeKeepsValid` | packages/k1de/src/main.rs:141-151 | nor does any resize, to any size |
| `ScreenLaws.ForwardThenBackward` | packages/k1de/src/main.rs:195-202 | moving right and back by n returns if and only if the move right is not cut short or starts in column 0 |
| `ScreenLaws.ColumnIsPosition` | packages/k1de/src/main.rs:203-212 | CHA is CUP on the cursor's own row |
| `ScreenLaws.LineHalves` | packages/k1de/src/main.rs:173-178 | EL 0 then EL 1 is EL 2 |
| `ScreenLaws.DisplayHalves` | packages/k1de/src/main.rs:179-194 | ED 0 then ED 1 blanks the same cells as ED 2, which are all |
| `ScreenLaws.EraseUpToCursor` | packages/k1de/src/main.rs:184-187 | ED 1 blanks the rows above plus what EL 1 blanks if and only if no wrap is pending above a row whose first cell is not blank |
| `ScreenLaws.EraseCanSpill` | packages/k1de/src/main.rs:184-187 | a byte stream to a fresh 1x2 terminal after which ESC[1J blanks a cell of the row below the cursor |
| `ScreenLaws.OtherErasures` | packages/k1de/src/main.rs:173-193 | other arguments of EL and ED change nothing |
| `TerminalSpec.FeedFactors` | packages/k1de/src/main.rs:298-381 | a run splits into the run of the parser alone and the screen actions it requests |
| `TerminalSpec.ReplayIsSafe` | packages/k1de/src/main.rs:141-381 | safety of every interleaving of bytes and resizes: shape, cursor bounds, printable cells, colour indices below 16 |
| `TerminalSpec.ControlIgnoresScreen` | packages/k1de/src/main.rs:141-381 | parser, parameter and colour state depend on the bytes alone, with resizes anywhere in the history |
| `TerminalSpec.AgreementSurvives` | packages/k1de/src/main.rs:141-381 | two terminals of any size and contents that agree on that state stay in agreement on the same bytes, with different resizes in each |
| `TerminalSpec.FeedAppend` | packages/k1de/src/main.rs:647-651 | feeding a stream in two batches is feeding it at once |
| `TerminalObject.HoldsScroll` | packages/k1de/src/main.rs:155-159 | shifting the flat array down by one row and blanking the end scrolls the rows by one |
| `TerminalObject.HoldsUpdate` | packages/k1de/src/main.rs:289-294 | writing index row*cols+col changes that one cell of the rows |
| `TerminalObject.HoldsLineErase` | packages/k1de/src/main.rs:171-178 | the flat ranges of EL blank exactly the cells EL names |
| `TerminalObject.HoldsDisplayErase` | packages/k1de/src/main.rs:179-194 | the flat ranges of ED blank exactly the cells ED names, the extra cell of ED 1 with a wrap pending included |
| `TerminalObject.Terminal.constructor` | packages/k1de/src/main.rs:115-130 | a new terminal is blank, home, dirty and in ground state; well formed for sizes of at least 1 |
| `TerminalObject.Terminal.Resize` | packages/k1de/src/main.rs:141-151 | a different size blanks the grid, homes the cursor and marks it dirty, keeping parser and colours; the same size changes nothing |
| `TerminalObject.Terminal.Newline` | packages/k1de/src/main.rs:153-163 | moves down, or scrolls the array in place on the last row, blanking the row that appears |
| `TerminalObject.Terminal.Put` | packages/k1de/src/main.rs:284-296 | wraps first if the cursor is past the last column, stores the character in the current colours (bold brightens the foreground) and moves right |
| `TerminalObject.Terminal.EraseInLine` | packages/k1de/src/main.rs:173-178 | EL in place |
| `TerminalObject.Terminal.EraseInDisplay` | packages/k1de/src/main.rs:179-194 | ED in place, homing the cursor for arguments 2 and 3 |
| `TerminalObject.Terminal.SgrLoop` | packages/k1de/src/main.rs:230-281 | the loop of variable stride terminates and equals the fold over parameter groups |
| `TerminalObject.Terminal.ApplySgr` | packages/k1de/src/main.rs:223-282 | an empty list resets, any other is the loop |
| `TerminalObject.Terminal.ExtendedColor` | packages/k1de/src/main.rs:247-277 | an extended colour spans three or five parameters, present or not, and sets the reduced colour |
| `TerminalObject.Terminal.MoveCursor` | packages/k1de/src/main.rs:195-212 | CUF, CUB, CHA, CUP and HVP with saturation at the edges |
| `TerminalObject.Terminal.ApplyCsi` | packages/k1de/src/main.rs:170-216 | each final byte performs its action and only SGR changes colours |
| `TerminalObject.Terminal.Tab` | packages/k1de/src/main.rs:304-309 | the loop prints blanks up to the next multiple of 8 or the last column, nothing with a wrap pending |
| `TerminalObject.Terminal.CsiByte` | packages/k1de/src/main.rs:332-349 | one byte of a control sequence, with digits accumulated modulo 2^32 |
| `TerminalObject.Terminal.ProcessByte` | packages/k1de/src/main.rs:298-381 | the fused code over flat fields and one flat array equals the parser automaton and the grid of rows it drives, run side by side |
| `TerminalObject.Terminal.ProcessBytes` | packages/k1de/src/main.rs:647-651 | a batch of bytes, in order |
| `TerminalObject.Terminal.Render` | packages/k1de/src/main.rs:383-412 | on any buffer whose rows hold the columns and that no coloured cell overruns, every byte afterwards: background on the visible pixels that fit, the cells clipped by the buffer on top, the old byte elsewhere; all writes in bounds; the dirty flag cleared |
| `SgrStreams.StreamsComposeExactlyWhenClosed` | packages/k1de/src/main.rs:223-344 | ESC[A;Bm and ESC[Am ESC[Bm leave terminals that no later event can tell apart, for every nonempty B and every terminal in ground state, if and only if A is nonempty and closed |
| `SgrStreams.AlikeTermsForever` | packages/k1de/src/main.rs:141-381 | such terminals stay alike under every later history of bytes and resizes |
| `SgrStreams.SgrSequence` | packages/k1de/src/main.rs:213-282 | a colour sequence changes nothing on the screen |
| `Document.ScreenShowsDocument` | packages/k1de/src/main.rs:153-163 | from a blank screen, any stream whose sequences neither address nor erase shows the last rows of an unbounded document of ragged lines that does not depend on the number of rows |
| `Document.ActionShows` | packages/k1de/src/main.rs:284-317 | showing the end of the document commutes with every such action |
| `Document.EscapeFreeScreen` | packages/k1de/src/main.rs:284-318 | every escape-free stream, from a blank screen with the cursor home: the grid is the last rows lines, padded with blanks, of the document that its bytes type (LF breaks the line, CR returns to its start and later characters overwrite, TAB strikes spaces up to a multiple of eight or the last column, BS and DEL step back, full lines wrap), and the cursor row is min(lines-1, rows-1) |
| `Document.PlainTextLayout` | packages/k1de/src/main.rs:284-317 | plain text on a fresh screen is its paragraphs cut every cols characters, the last rows of that in view, the cursor right after the last character even when its line is exactly full |
| `Document.ChunksSnoc` | packages/k1de/src/main.rs:284-296 | one more character goes onto the last line, or onto a new one if that is full |
| `Wire.Returns` | packages/k1de/src/main.rs:303 | CR goes to column 0, from any screen |
| `Wire.StepsBack` | packages/k1de/src/main.rs:310-314 | BS and DEL go one column back |
| `Wire.LineFeeds` | packages/k1de/src/main.rs:302 | LF goes to column 0 of the next row; on the last row the others move up and a blank one appears |
| `Wire.Prints` | packages/k1de/src/main.rs:284-296 | a printable byte leaves its character at the cursor in the current colours, bold making dark foregrounds bright, and moves right |
| `Wire.WrapsFirst` | packages/k1de/src/main.rs:285-287 | with a wrap pending it is a line feed and then that |
| `Wire.Tabs` | packages/k1de/src/main.rs:304-309 | TAB goes to the next multiple of eight or past the last column and leaves spaces in the current colours on the way |
| `Wire.OtherBytes` | packages/k1de/src/main.rs:301-318 | every other byte but ESC does nothing |
| `Wire.CharsetSwallowsOne` | packages/k1de/src/main.rs:328-379 | ESC and one of ( ) * + swallow exactly one more byte |
| `Wire.OtherEscapes` | packages/k1de/src/main.rs:319-330 | ESC and a byte that introduces nothing are ignored together |
| `Wire.Introduces` | packages/k1de/src/main.rs:315-327 | from ground state ESC P and ESC ] enter a control string, and request nothing |
| `Wire.ControlStringOnTheWire` | packages/k1de/src/main.rs:315-376 | from its introducer to the first byte that closes it, a control string leaves the terminal as it was |
| `Wire.OpenStringOnTheWire` | packages/k1de/src/main.rs:350-376 | one that nothing closes swallows everything |
| `Wire.FinalBytes` | packages/k1de/src/main.rs:338-348 | a control sequence ends at a byte from @ to ~ and at no other |
| `Wire.CursorSequences` | packages/k1de/src/main.rs:195-212 | CUF, CUB, CHA, CUP and HVP with any parameters, absent and zero ones counting as 1: where the cursor goes, and nothing else changes |
| `Wire.EraseInLineOnTheWire` | packages/k1de/src/main.rs:173-178 | EL with any parameters: which cells become blank, and nothing else changes |
| `Wire.EraseInDisplayOnTheWire` | packages/k1de/src/main.rs:179-194 | ED with any parameters: the cells from the cursor on, up to it, or all, in reading order; ED 2 and 3 bring the cursor home |
| `Wire.OtherSequences` | packages/k1de/src/main.rs:214 | every other final byte but m does nothing |
| `Wire.BoldBrightens` | packages/k1de/src/main.rs:288 | after ESC[1;3Nm or ESC[1;9Nm a character is printed in colour N+8 |
| `Wire.Resizes` | packages/k1de/src/main.rs:141-151 | a different size gives a blank screen of at least one cell with the cursor home and keeps the parser; the same size changes nothing |
| `Wire.Begins` | packages/k1de/src/main.rs:115-130 | a new terminal is blank, home, in ground state and default colours |
| `Repaint.RepaintRoundTrip` | packages/k1de/src/main.rs:170-349 | for every picture of printable characters in palette colours and any order of strokes that covers it, the reset word and one decimal CUP, SGR and character per stroke leave exactly that picture on any terminal of its size in any state |
| `Repaint.CellPainted` | packages/k1de/src/main.rs:207-212 | one such stroke sets one cell and no other |
| `Repaint.CodesSelect` | packages/k1de/src/main.rs:233-246 | the codes emitted for a cell select exactly its colours from any colour state |
| `Repaint.ReadingOrderCovers` | packages/k1de/src/main.rs:395-408 | going row by row is one such order |
| `Framebuffer.RenderedShows` | packages/k1de/src/main.rs:383-412 | on any mode whose rows are in the buffer and at least one cell wide, every visible pixel is the glyph bit's foreground, else the cell's background, else the default background, whatever was there before |
| `Framebuffer.PixelsOfCell` | packages/k1de/src/main.rs:395-408 | in that picture, pixel (dx, dy) of cell (r, c) is its foreground or light grey where the glyph is set, else its background or that of the screen |
| `Framebuffer.PixelsOutside` | packages/k1de/src/main.rs:387-394 | and pixels beyond the grid have the background of the screen |
| `Framebuffer.RenderedKeepsPadding` | packages/k1de/src/main.rs:387-394 | bytes of a row past the visible pixels, and past the grid if that is wider, are unchanged |
| `Framebuffer.Clear` | packages/k1de/src/main.rs:387-394 | for any pitch and width, the chunk loop paints background on the first width pixels of every row of the buffer that fit in it, short last row included, and touches nothing else |
| `Framebuffer.FillCell` | packages/k1de/src/main.rs:464-476 | fills exactly the rows of the rectangle before the first whose left part is past the buffer |
| `Framebuffer.BlitGlyph` | packages/k1de/src/main.rs:478-494 | paints exactly the set pixels of the glyph that fit in the buffer |
| `Framebuffer.FillsStayExactlyWhen` | packages/k1de/src/main.rs:466-474 | filling the backgrounds of all cells, of a grid of one column or as wide as a row at most, stays in the buffer unless, and only unless, the buffer has fewer whole rows than the grid and its last, partial row has room for one cell and not for all columns |
| `Framebuffer.CellFitsExactlyWhen` | packages/k1de/src/main.rs:464-476 | the same for one cell: its fill stays in the buffer unless, and only unless, the buffer ends in one of its pixel rows, after room for one cell and before its right edge |
| `Framebuffer.NoOverrunGridFits` | packages/k1de/src/main.rs:395-408 | a buffer that the grid does not overrun can be drawn on, whatever the contents |
| `Framebuffer.WholeRowsDoNotOverrun` | packages/k1de/src/main.rs:464-476 | a buffer with all pixel rows of the grid is not overrun |
| `Framebuffer.SmallModeOverruns` | packages/k1de/src/main.rs:464-476 | a mode 100 wide and 10 high with an 8x16 font and a 4096-byte buffer is |
| `Framebuffer.DrawCell` | packages/k1de/src/main.rs:396-407 | background then glyph, both clipped by the buffer: one more cell of the picture, in row-major order, no other pixel changed |
| `Framebuffer.PixelBytes` | packages/k1de/src/main.rs:472-473 | a byte belongs to a pixel exactly when it is one of its four, so distinct pixels never overlap |
| `Framebuffer.GlyphRowIsBinary` | packages/k1de/src/font.rs:80-86 | for every font width from 1 to 8, the pixels of a glyph row, left to right, are the leading binary digits of its byte, most significant first |
| `Framebuffer.LeIsLittleEndian` | packages/k1de/src/main.rs:392 | the four bytes of a pixel are the little-endian digits of its colour |
| `DrmSpec.FirstPreferred` | packages/k1de/src/drm.rs:373-375 | the index of the first preferred mode, if any |
| `DrmSpec.LastLargest` | packages/k1de/src/drm.rs:376-380 | the last among the modes of largest area |
| `DrmSpec.AreaIs32Bit` | packages/k1de/src/drm.rs:379 | the area product fits 32 bits |
| `DrmSpec.RefreshPicks` | packages/k1de/src/drm.rs:392-417 | success names the first mode with bit 3 of its type set, else the last of those with most pixels, with a scanout of that size; no display leaves no scanout |
| `DrmSpec.OutcomeExactlyWhen` | packages/k1de/src/drm.rs:392-493 | which of the three outcomes a refresh has, for all answers of the kernel |
| `DrmSpec.RefreshedScanOut` | packages/k1de/src/drm.rs:392-493 | what it does to the scanout: unchanged without a rebuild or disconnect; after a successful rebuild the kernel's buffer, zeroed, with its handles, address and pitch and the size of the mode; none otherwise |
| `DrmSpec.RefreshIsIdempotent` | packages/k1de/src/drm.rs:401-408 | with an unchanged probe, refreshing again returns the same mode and keeps handles, mapping and pixels, whatever else the kernel would answer |
| `DrmSpec.RefreshBalances` | packages/k1de/src/drm.rs:392-493 | one refresh: live resources are exactly the scanout's plus those left behind before and in this call, and nothing that is not live is released |
| `DrmSpec.LedgerIsExact` | packages/k1de/src/drm.rs:392-531 | the same over every run from opening the card with arbitrary failures, and after the drop only the leftovers remain |
| `DrmSpec.LeakExactlyWhen` | packages/k1de/src/drm.rs:392-505 | after one refresh from any balanced ledger the live resources are exactly the scanout's and those left behind before if and only if, of the calls it makes, all releases of the old scanout succeed and the build either fails to create its buffer, or undoes it, or passes MAP_DUMB, mmap and SETCRTC |
| `DrmSpec.TeardownLeaves` | packages/k1de/src/drm.rs:495-505 | a teardown takes away exactly the resources whose release succeeds |
| `DrmSpec.FailedBuildLeaves` | packages/k1de/src/drm.rs:419-493 | what a failed build leaves live, by the step that fails |
| `DrmSpec.LedgerIsCleanExactlyWhen` | packages/k1de/src/drm.rs:392-531 | over every run from opening the card the live resources are exactly the scanout's if and only if every refresh of the run is clean in that sense, and after the drop nothing is live if and only if the last teardown is, too |
| `DrmSpec.LedgerCanLeak` | packages/k1de/src/drm.rs:419-493 | a run of one refresh, whose MAP_DUMB fails, that leaves a buffer and a framebuffer live without a scanout |
| `DrmObject.Card.TeardownScanOut` | packages/k1de/src/drm.rs:495-505 | unmaps, removes and destroys in that order, once, ignoring failures |
| `DrmObject.Card.ScanOutAt` | packages/k1de/src/drm.rs:419-493 | each step and each error path, with the clean-up the code does and no more; a new mapping is zeroed |
| `DrmObject.Card.Refresh` | packages/k1de/src/drm.rs:392-417 | the in-place refresh equals the transition function; any new memory is fresh |
| `Keyboard.Decoder.ReadEvent` | packages/k1de/src/input.rs:160-214 | modifier update and output of every event |
| `Keyboard.BaseChar` | packages/k1de/src/input.rs:90-147 | no key of the table produces the escape byte |
| `Keyboard.LettersAndControl` | packages/k1de/src/input.rs:206-211 | shifted letters are the capitals, and with control a letter gives 1 to 26 whether shifted or not |
| `KeyboardLaws.OneKeyForEachCharacter` | packages/k1de/src/input.rs:90-147 | without control, each visible character is sent by exactly one key with exactly one state of shift, and that is the key of the US layout |
| `KeyboardLaws.OneLetterKey` | packages/k1de/src/input.rs:90-147 | each small letter is sent by exactly one key on a plain press |
| `KeyboardLaws.CapitalIsSent` | packages/k1de/src/input.rs:206-207 | which sends the capital with shift |
| `KeyboardLaws.LetterWithControl` | packages/k1de/src/input.rs:206-211 | and 1 to 26 with control, shifted or not |
| `KeyboardLaws.ControlChangesLettersOnly` | packages/k1de/src/input.rs:208-211 | control changes nothing else |
| `KeyboardLaws.EditingKeys` | packages/k1de/src/input.rs:105-144 | backspace, tab, both enter keys and space, with any modifiers |
| `KeyboardLaws.NavigationKeys` | packages/k1de/src/input.rs:192-204 | the seven navigation keys send their sequences, with any modifiers |
| `KeyboardLaws.SilentKeys` | packages/k1de/src/input.rs:145-213 | no other key sends anything |
| `KeyboardLaws.OtherEvents` | packages/k1de/src/input.rs:166-188 | repeats send what presses do; releases and events that are no keys send nothing |
| `KeyboardLaws.ModifierKeys` | packages/k1de/src/input.rs:172-184 | shift and ctrl follow their keys and no others |
| `Keyboard.OutputsAreWellFormed` | packages/k1de/src/input.rs:190-213 | an output is empty, one byte other than ESC, or one of the seven sequences |
| `Keyboard.OutputsAreDecodable` | packages/k1de/src/input.rs:160-214 | the bytes of any event sequence cut back into exactly its non-empty outputs |
| `Keyboard.ModsAreLastEvents` | packages/k1de/src/input.rs:172-184 | shift and ctrl are the direction of the last event on either of their keys |
| `Keyboard.ModifiersMatchHeldKeys` | packages/k1de/src/input.rs:172-184 | shift (keys 42, 54) and ctrl (29, 97) are on exactly while one of their keys is held, if and only if the last event on the two keys is not a release of one while the other is down |
| `Keyboard.ShiftCanBeLost` | packages/k1de/src/input.rs:172-184 | three events after which a shift key is held and shift is off |
| `EventLoop.RefreshStepIsOk` | packages/k1de/src/main.rs:556-593 | sizes agree after every refresh outcome, errors at any point included |
| `EventLoop.ColumnsFit16` | packages/k1de/src/main.rs:566-576 | the casts of columns and rows to u16 do not truncate |
| `EventLoop.RunLoop` | packages/k1de/src/main.rs:553-691 | over every run: a scanout has the size recorded in mode, the terminal has its grid, a live shell has the terminal's size, and the terminal is well formed |
| `LoopLaws.GridFillsTheScreen` | packages/k1de/src/main.rs:560-583 | over every run: a scanout has the size of the mode, the grid has as many columns and rows of the font's size as fit, but at least one, and a live shell has been told just that |
| `LoopLaws.NoRefreshBeforeItIsDue` | packages/k1de/src/main.rs:556 | within 500 ms of the last refresh nothing the kernel would answer makes a difference |
| `LoopLaws.RefreshWhenDue` | packages/k1de/src/main.rs:556-593 | after that: a failure keeps the mode, a disconnect forgets it and keeps terminal and shell, a new mode sizes both, starts what is missing and asks for a repaint |
| `IdleLaws.ClockIsLastKey` | packages/k1de/src/main.rs:656-675 | over every run the idle clock stands at the last key with output, or at the start |
| `IdleLaws.SavesExactlyWhenIdle` | packages/k1de/src/main.rs:656-682 | after an iteration the screensaver is on if and only if 600 s have passed since the last key with output, or it was on and there was none |
| `CacheLaws.CacheAgrees` | packages/k1de/src/main.rs:553-691 | if building a scanout never fails, then after every run with the screensaver off and a scanout present the visible pixels are the picture of the terminal, on every run whose repaints can be drawn |
| `CacheLaws.CacheAgreesExactlyUnlessStale` | packages/k1de/src/main.rs:553-691 | in general they are, after every run, if and only if the run is not stale (a scanout rebuilt at the size still recorded in mode and not repainted since) or the picture is all black |
| `CacheLaws.WholeCellsAreDrawable` | packages/k1de/src/main.rs:566-567 | on a mode with room for one character cell, four bytes per pixel are all that drawing needs, whatever the contents |
| `CacheLaws.WholeModesAreSafe` | packages/k1de/src/main.rs:553-691 | so with such modes only, every run whose buffers hold their pixels is safe to draw |
| `CacheLaws.CacheCanDisagree` | packages/k1de/src/main.rs:585-592 | a run of three iterations on which they are not |
| `CacheLaws.FailureThenRecoveryBlanks` | packages/k1de/src/drm.rs:410-412 | whatever is shown, a change of size whose build fails at any step and the change back leave a black screen |
| `CacheLaws.RefreshKeepsOrRecovers` | packages/k1de/src/main.rs:556-593 | a refresh that asks for no repaint kept the scanout or rebuilt it at the recorded size |
| `CacheLaws.RepaintAgrees` | packages/k1de/src/main.rs:686-690 | a repaint that can be drawn makes the visible pixels the picture, whatever was there |
| `KeyLaws.KeysAreConserved` | packages/k1de/src/main.rs:656-687 | over every run: what reaches the shell is exactly the outputs, in order, that find a shell and do not come right after an activation; the screensaver is on exactly when an activation came last, and never starts twice without a key between |
| `KeyLaws.KeysFromTheStart` | packages/k1de/src/main.rs:553-691 | all of it from the start of the program: the keys are the decoder's outputs, the shell gets those that pass, activations exceed swallowed keys by one exactly while the screensaver is on, and every key is forwarded, swallowed or dropped |
| `KeyLaws.ActivationsBalance` | packages/k1de/src/main.rs:656-682 | activations minus swallowed keys is 1 if the screensaver is on and 0 otherwise |
| `KeyLaws.KeysAddUp` | packages/k1de/src/main.rs:661-675 | every key is forwarded, swallowed or dropped for want of a shell, and none is dropped while there is one |
| `KeyLaws.TraceIsDecoded` | packages/k1de/src/main.rs:656-664 | the keys of a run are the decoder's non-empty outputs on all its events |
| `LoopLaws.ShellReturnsOnlyOnModeChange` | packages/k1de/src/main.rs:572-611 | after the shell has exited an iteration brings one back if and only if the mode changes in it, the spawn succeeds and it does not exit at once |
| `LoopLaws.NoModeChangeNoShell` | packages/k1de/src/main.rs:606-611 | on a display that keeps its mode an exited shell is never replaced, although the log says so |
| `LoopLaws.ExitedShellStaysGone` | packages/k1de/src/main.rs:572-611 | a run in which a shell comes up and exits, and in every continuation that keeps the display there is none again |
| `LoopLaws.LoopBalances` | packages/k1de/src/main.rs:553-691 | the ledger balances over every run of the loop, drawing included |
| `LoopLaws.LoopIsCleanExactlyWhen` | packages/k1de/src/main.rs:553-691 | from the start of the program, over every run of the loop, the live resources are exactly the scanout's if and only if every refresh that was due left nothing behind |
| `LoopLaws.TermIsHistory` | packages/k1de/src/main.rs:553-691 | the terminal after any run is its size changes and shell bytes replayed in order: batching, keys, screensaver and kernel failures leave no trace in it |
| `LoopLaws.ScreenIsHistory` | packages/k1de/src/main.rs:553-691 | end to end, over every run with any failures: the pixels on the screen are the picture of the replayed history if and only if the run is not stale or that picture is all black |
| `Machine.DisplayServer.FollowMode` | packages/k1de/src/main.rs:560-583 | a new mode creates or resizes terminal and shell and marks a repaint |
| `Machine.DisplayServer.RefreshDisplay` | packages/k1de/src/main.rs:556-593 | the refresh timer and all outcomes |
| `Machine.DisplayServer.TakeOutput` | packages/k1de/src/main.rs:634-655 | shell output goes to the terminal byte by byte |
| `Machine.DisplayServer.TakeKey` | packages/k1de/src/main.rs:661-675 | a key with output wakes the screen or goes to the shell |
| `Machine.DisplayServer.Paint` | packages/k1de/src/main.rs:684-690 | screensaver, or terminal if dirty, into the mapped memory |
| `Machine.DisplayServer.Turn` | packages/k1de/src/main.rs:553-691 | one turn over the objects, updated in place, is one step of the transition system |
| `Machine.DisplayServer.Turns` | packages/k1de/src/main.rs:553-691 | turn after turn, the objects go through a run of it, so the laws of runs are laws of the objects |

## Left out

- Real ioctl, mmap, poll and file calls and the C layouts of their arguments: replaced by the answers of a step.
- `find_connector`, `probe_connector` and `resolve_crtc`: only their success and result are modelled; of a mode only size and type are kept, its timings being passed through.
- `Pty::spawn` and the child process: only success and the window size are modelled.
- Keyboard discovery and rescanning, the raw event read, and loading the font: an iteration is given its decoded events; a font is any of width 1 to 8 and height 1 to 32 with 256 glyphs.
- `render_screensaver` and `draw_string`: the screensaver overwrites the pixels with arbitrary bytes.
- `flush` and taking or dropping DRM mastership: no effect on the modelled state.
- Logging and the debug output of shell bytes.
- Build scripts, configuration, the K1K kernel and WARP.
- TerminalObject.Terminal.Render: requires that no cell with a background overruns the buffer, which is where the code panics, and that a row holds the columns of the grid; only a mode less wide than one character cell can have shorter rows, and there the cells of one pixel row run into the next. The transition system leaves the pixels of such a mode arbitrary.
- Framebuffer.FillCell: requires every reached pixel to end in the buffer, without which the code panics, and a row to hold the rectangle, without which its rows run into each other.
- Framebuffer.BlitGlyph: requires a row of the buffer to hold the glyph; a glyph drawn across the end of a row, as the screensaver may, is not specified.
- Framebuffer.DrawCell: requires what TerminalObject.Terminal.Render does.
- Machine.DisplayServer.Paint: requires what TerminalObject.Terminal.Render does, if the terminal is to be drawn.
- Machine.DisplayServer.Turn: requires a newly built buffer to have four bytes per pixel and a repaint, if one is due, to be drawable; the transition system itself has no such condition.
- Machine.DisplayServer.Turns: requires that of every turn.
- CacheLaws.CacheAgrees: for repaints that TerminalObject.Terminal.Render is specified for (`Drawable`); on others the code panics, or the rows are shorter than one character cell.
- CacheLaws.CacheAgreesExactlyUnlessStale: for repaints that TerminalObject.Terminal.Render is specified for (`Drawable`); on others the code panics, or the rows are shorter than one character cell.
- CacheLaws.RepaintAgrees: for repaints that TerminalObject.Terminal.Render is specified for (`Drawable`); on others the code panics, or the rows are shorter than one character cell.
- LoopLaws.ScreenIsHistory: for repaints that TerminalObject.Terminal.Render is specified for (`Drawable`); on others the code panics, or the rows are shorter than one character cell.
- The endless loop around one turn: a run is a finite sequence of turns, one for each input.
- Keyboard.BaseChar: its contract states only that no entry is the escape byte, which decoding needs; OneKeyForEachCharacter and EditingKeys state the entries.
- Repaint.RepaintRoundTrip: for grids of fewer than 2^32 rows and columns, the range of a parameter; display modes give fewer than 2^16.
