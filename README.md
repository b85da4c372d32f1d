# reprodT terminal video player: a Dafny model of its core

reprodT plays a video in a terminal. An `ffmpeg` decoder writes raw
`rgb24` frames to a pipe. The player reshapes each frame into pixel rows
and draws it with U+2584 LOWER HALF BLOCK glyphs: the upper pixel of each
pair of rows sets the foreground colour and the lower pixel the background.
The colour is 24-bit when the terminal supports it; otherwise it is an index
into the xterm 256-colour palette. The model covers:

- **Ansi** (`ansi.dfy`): the palette quantizer `_rgb_to_ansi256` and the four
  SGR formatters. A parser for the escapes they write shows each escape reads
  back as the layer and colour it selects.
- **Render** and **RenderProperties** (`render.dfy`, `render_properties.dfy`):
  the differential renderer `_render_frame`. It writes a colour escape only
  where a column's colour differs from its left neighbour's. A row equal to
  the one drawn at the same index in the previous frame becomes a
  cursor-next-line escape. The imperative column, row and output loops are
  proved equal to a piece-level specification. The properties cover row
  shape, tokenising a row back into its pieces, escape counts, and the
  cached and uncached outputs.
- **Keys** (`keys.dfy`): the `KeyInput` state machine. Space toggles pause,
  `q` quits, and up/down step the speed by 0.1 within 0.5..2.0. The speed is
  held as tenths 5..20. Keys arrive in three encodings, each with its decoder:
  keyboard-hook key names, Windows console bytes, and cbreak terminal
  characters (ESC `[A` / ESC `[B`).
- **FrameSource** (`frame_source.dfy`): `_read_exact` over a pipe whose reads
  may come back short, and the reshape of `w*h*3` bytes into pixel rows.
- **Pacing** (`pacing.dfy`): the `while True` loop of `play_video_file`. A
  pass quits, pauses (moving the schedule to now), or runs. A running pass
  catches up by skipping at most five frames, reads a frame and advances the
  schedule by one interval at the current speed. The pure `PaceStep` states
  what a pass does. `Player.Step` is the imperative pass and is proved against
  it. `Player.Present` renders the frame a pass read and remembers its rows.
- **Geometry** (`geometry.dfy`): `_compute_scaled_wh`,
  `_cap_dimensions_by_rows`, the frame-rate cap and the centring pads.

## Model

| member | source | states |
|---|---|---|
| Ansi.Rgb256 | source/reprodT.py:262-270 | every result is a palette code in 16..255 |
| Ansi.CubeLevel | source/reprodT.py:267-268 | a channel maps to cube level 0..5, and that level's value 51*l lies within 25 of the channel |
| Ansi.GrayStep | source/reprodT.py:266 | a grey channel of 8..248 maps to ramp step 0..23, the nearest step on the 8..255 scale |
| Ansi.Rgb256Neutral | source/reprodT.py:263-266 | greys below 8 give 16, above 248 give 231, and the rest give 232..255 |
| Ansi.Rgb256Cube | source/reprodT.py:267-270 | a non-grey colour gets a cube code 16..231, and the code decodes back to the three channel levels |
| Ansi.Preimage | source/reprodT.py:262-270 | every code 16..255 has a colour that quantizes to it |
| Ansi.Rgb256Surjective | source/reprodT.py:262-270 | the quantizer reaches all of 16..255 |
| Ansi.DecimalDigits | source/reprodT.py:272-282 | the decimal numeral of n is digits only, non-empty, with no leading zero |
| Ansi.DecimalRoundTrip | source/reprodT.py:272-282 | reading a numeral's digits gives back n |
| Ansi.ParseNatDecimal | source/reprodT.py:272-282 | a numeral followed by a non-digit parses back to n and the rest |
| Ansi.EscapeShape | source/reprodT.py:272-282 | each of the four formatters, picked by layer and colour kind, writes ESC, then only SGR characters, then `m` |
| Ansi.ParseTripleOf | source/reprodT.py:272-276 | the `r;g;b` part of a true-colour escape parses back to the three channels |
| Ansi.ParseTrueColorRoundTrip | source/reprodT.py:272-276 | a true-colour escape parses back to its layer and triple, whatever follows it |
| Ansi.ParseIndexedRoundTrip | source/reprodT.py:278-282 | a palette escape parses back to its layer and code, whatever follows it |
| Ansi.ParseColorEscapeRoundTrip | source/reprodT.py:272-282 | every escape the renderer writes is unambiguous: it parses back to what it selects |
| Common.JoinAppend | source/reprodT.py:710 | joining a concatenation joins the parts |
| Common.JoinConstant | source/reprodT.py:716-718 | joining n equal parts repeats the part n times |
| Render.CoversRow | source/reprodT.py:680-684 | terminal row y reads pixel rows 2y and 2y+1, which exist and hold `width` pixels |
| Render.RowTextsStep | source/reprodT.py:688-709 | one column pass appends exactly that column's pieces, and its colours become the last written |
| Render.RenderColumn | source/reprodT.py:689-709 | a column writes a foreground escape iff its upper colour differs from the last one, likewise a background escape, then the glyph; in both colour modes |
| Render.RenderRow | source/reprodT.py:685-710 | the column loop builds exactly the row string `RowLine` of the specification |
| Render.JoinRowParts | source/reprodT.py:716-724 | the parts one row adds to the output list join to that row's output |
| Render.JoinRowsParts | source/reprodT.py:716-724 | the parts the output loop collects join to the per-row output |
| Render.ComposeParts | source/reprodT.py:712-726 | header, row parts and reset join to the composed output |
| Render.ComposeOutput | source/reprodT.py:712-726 | the output loop yields `Compose`: home, top move, each row as next-line when cached or (column move, row, newline), then reset |
| Render.LinesBeforeLength | source/reprodT.py:680-711 | the first n rendered rows are n strings |
| Render.LinesBeforeAt | source/reprodT.py:680-711 | entry y of the first n rendered rows is row y's string |
| Render.RenderLines | source/reprodT.py:680-711 | the row loop yields `FrameLines`: row y is the string of pixel rows 2y and 2y+1 |
| Render.RenderFrame | source/reprodT.py:677-726 | returns the height/2 rows of the frame and the output composed against the old cache |
| RenderProperties.TokenizePiece | source/reprodT.py:694-709 | one escape or glyph reads back off the front of any string |
| RenderProperties.TokenizeText | source/reprodT.py:694-710 | any sequence of pieces is recovered from the string it is written as |
| RenderProperties.RowLineTokens | source/reprodT.py:685-710 | a row string reads back as exactly its row's pieces |
| RenderProperties.EscapeHasNoGlyph | source/reprodT.py:272-282 | no colour escape contains the half-block glyph |
| RenderProperties.TextGlyphs | source/reprodT.py:694-709 | a piece string holds as many glyphs as it has glyph pieces |
| RenderProperties.RowPiecesGlyphs | source/reprodT.py:688-709 | the first n columns hold n glyph pieces |
| RenderProperties.RowLineGlyphs | source/reprodT.py:685-710 | a row string holds exactly `width` glyphs |
| RenderProperties.FrameLinesShape | source/reprodT.py:677-711 | a frame renders to height/2 rows of `width` glyphs each |
| RenderProperties.ChangesStep | source/reprodT.py:694-708 | one more column adds one colour change iff it differs from its left neighbour |
| RenderProperties.ColumnEscapes | source/reprodT.py:694-708 | a column holds one escape per layer whose colour changed, or one each at column 0 |
| RenderProperties.ForegroundEscapes | source/reprodT.py:686-699 | a row's foreground escapes are one plus the changes between neighbouring upper colours |
| RenderProperties.BackgroundEscapes | source/reprodT.py:687-708 | a row's background escapes are one plus the changes between neighbouring lower colours |
| RenderProperties.EscapeCounts | source/reprodT.py:686-708 | both counts together, the empty row having none |
| RenderProperties.SolidPieces | source/reprodT.py:686-709 | a row of one upper and one lower colour is two escapes and then only glyphs |
| RenderProperties.SolidRow | source/reprodT.py:685-710 | such a row's string is the two escapes followed by `width` glyphs |
| RenderProperties.RowPiecesStart | source/reprodT.py:686-699 | a non-empty row starts with a foreground then a background escape of its first column |
| RenderProperties.RowLineStart | source/reprodT.py:685-710 | the same on the row string |
| RenderProperties.RowsOutputPerRow | source/reprodT.py:716-724 | the rows' output is each row's own part, joined in order |
| RenderProperties.ComposeFrame | source/reprodT.py:712-725 | the output starts with home, then the top move iff topPad > 0, and ends with the reset |
| RenderProperties.ComposeUncached | source/reprodT.py:716-724 | with no cache, every row is redrawn with its column move and newline |
| RenderProperties.ComposeSelfCached | source/reprodT.py:716-718 | against its own rows as cache, every row is one next-line escape |
| RenderProperties.RerenderSameFrame | source/reprodT.py:677-726 | drawing the same frame again writes no row text at all |
| Keys.Speed | source/reprodT.py:407 | the speed in range 5..20 tenths is a factor 0.5..2.0 |
| Keys.Apply | source/reprodT.py:422-431 | toggles pause iff the action is toggle, sets quit and never clears it, steps speed by a tenth clamped to 0.5..2.0, and keeps speed in range |
| Keys.KeyNameAction | source/reprodT.py:423-431 | space toggles pause, q quits, up/uparrow speeds up, down/downarrow slows down, each iff that name; every other name is ignored |
| Keys.ConsoleByteAction | source/reprodT.py:440-448 | space toggles pause, q quits, H speeds up and P slows down, each iff that byte; every other byte is ignored |
| Keys.TtyNext | source/reprodT.py:459-469 | one character is used, or ESC with up to two more; space toggles pause and q quits, each iff it is the character read; ESC `[A` speeds up and ESC `[B` slows down, each iff those three characters were read |
| Keys.TtyRunAdvance | source/reprodT.py:456-469 | reading the key at an offset moves the remaining run past it |
| Keys.ApplyAllInRange | source/reprodT.py:427-429 | any sequence of keys keeps the speed in 0.5..2.0 |
| Keys.SpeedUpSaturates | source/reprodT.py:427 | n presses of up raise the speed n tenths, saturating at 2.0 |
| Keys.SpeedDownSaturates | source/reprodT.py:429 | n presses of down lower it n tenths, saturating at 0.5 |
| Keys.ConsoleRunProperties | source/reprodT.py:438-448 | a console run keeps speed in range, reads nothing once quit is set, and stops exactly at the first q: it is the last byte read |
| Keys.TtyRunProperties | source/reprodT.py:456-469 | a terminal run keeps speed in range, reads nothing once quit is set, and when it sets quit the last character read is the q |
| Keys.KeyInput.constructor | source/reprodT.py:405-409 | starts unpaused, at speed 1.0, not quitting, running |
| Keys.KeyInput.OnKey | source/reprodT.py:422-431 | the hook callback applies the named key's action |
| Keys.KeyInput.RunConsole | source/reprodT.py:438-448 | the console loop ends in the state and the read count of `ConsoleRun` |
| Keys.KeyInput.RunTty | source/reprodT.py:456-469 | the terminal loop ends in the state and the read count of `TtyRun` |
| Keys.KeyInput.TtyKey | source/reprodT.py:457-469 | one terminal pass applies `TtyNext`'s action and moves past its characters |
| Keys.KeyInput.Stop | source/reprodT.py:473-474 | clears `running` and changes nothing else |
| Geometry.ScaledWh | source/reprodT.py:353-359 | width is the column count; height even, at least 2 and the rounded height or one more; unknown size falls back to 16:9 |
| Geometry.ScaledKeepsAspect | source/reprodT.py:356-358 | the scaled height is within 1.5 pixels of the exact proportional height |
| Geometry.CapByRows | source/reprodT.py:361-378 | changes the size iff a positive cap is exceeded, then to exactly 2*maxRows high and the rounded width, or 2 when that is below 2 |
| Geometry.CapNarrows | source/reprodT.py:366-370 | capping never makes a picture at least 2 wide any wider |
| Geometry.LayoutFits | source/reprodT.py:353-378 | scaling then capping gives an even height of at least 2 within the row budget |
| Geometry.FpsCap | source/reprodT.py:1068-1076 | the rate is at least 1, at most the source's rate when known, and otherwise the request |
| Geometry.BaseFrameTime | source/reprodT.py:1077 | the base interval is in (0, 1] and times the rate is one second |
| Geometry.LeftPad | source/reprodT.py:1044 | the left pad is non-negative and centres the picture to within one column, none if too wide |
| Geometry.TopPad | source/reprodT.py:1045 | the same for rows, with a picture h pixels high filling h/2 rows |
| FrameSource.Pipe.Read | source/reprodT.py:731 | a read returns the next bytes, at most n, at least one before end of stream |
| FrameSource.ReadExact | source/reprodT.py:728-735 | exactly `size` next bytes when that many remain; otherwise None with the pipe drained |
| FrameSource.Reshape | source/reprodT.py:1134-1135 | w*h*3 bytes become h rows of w pixels |
| FrameSource.ReshapeCovers | source/reprodT.py:1134-1137 | a reshaped frame holds every pixel the renderer reads |
| FrameSource.ReshapeRow | source/reprodT.py:1134-1135 | row y's bytes are the y-th stretch of 3w input bytes |
| FrameSource.ReshapeTail | source/reprodT.py:1134-1135 | dropping the first row is reshaping the bytes after it |
| FrameSource.ReshapeRoundTrip | source/reprodT.py:1134-1135 | flattening the reshaped frame gives back the bytes read: nothing is lost or reordered |
| Pacing.TargetDt | source/reprodT.py:1111 | the interval at the current speed is positive, and times the speed is the base interval |
| Pacing.SkipWanted | source/reprodT.py:1113-1122 | at most five; positive iff more than one interval behind; the skipped intervals never pass the clock; below the cap, exactly the whole intervals behind are skipped, so less than one interval is left |
| Pacing.PaceStep | source/reprodT.py:1097-1133 | a pass never consumes more bytes than remain |
| Pacing.StopAndPause | source/reprodT.py:1098-1106 | quit wins and changes nothing; pause moves the schedule to now and reads nothing; otherwise the pass ends or shows after the wanted skips |
| Pacing.ShownIffEnoughFrames | source/reprodT.py:1117-1133 | a pass shows a frame iff the skipped frames and one more remain, then consumes exactly those; otherwise it ends with the pipe drained |
| Pacing.ShownCatchesUp | source/reprodT.py:1117-1133 | showing advances the schedule one interval per frame consumed; below the skip cap the schedule is no longer behind the clock |
| Pacing.ResumeSkipsNothing | source/reprodT.py:1100-1118 | after a pause, a pass within one interval of the reset skips nothing |
| Pacing.RunningStep | source/reprodT.py:1111-1133 | a running pass, case by case: stream ends while skipping, ends at the frame read, or shows |
| Pacing.FetchOutcome | source/reprodT.py:1113-1133 | what the catch-up and the frame read did adds up to `PaceStep` |
| Pacing.Player.constructor | source/reprodT.py:1044-1078 | from the input object and the pipe; the pads centre the picture in the terminal, the base interval is one over the capped rate, no cached rows, the schedule at the start time |
| Pacing.Player.SkipFrames | source/reprodT.py:1123-1127 | reads n frames when they remain; otherwise it reports failure with the pipe drained |
| Pacing.Player.CatchUp | source/reprodT.py:1113-1128 | the catch-up branch: skips the wanted frames and advances the schedule by them; if the stream ends, it counts none and keeps the schedule |
| Pacing.Player.Fetch | source/reprodT.py:1111-1133 | a running pass gives `PaceStep`'s outcome, schedule and bytes consumed; a shown frame is the last frame's bytes read |
| Pacing.Player.Hold | source/reprodT.py:1098-1106 | a quitting or pausing pass gives `PaceStep`'s outcome and reads nothing |
| Pacing.Player.Step | source/reprodT.py:1097-1133 | any pass gives exactly `PaceStep`'s outcome, new schedule and bytes consumed, and returns the frame to show |
| Pacing.Player.Present | source/reprodT.py:1134-1141 | draws the frame against the last rows, stores its rows as the new cache and counts it |

## Left out

- Audio: `AudioPlayer`, WAV extraction, and the pause and resume calls in the loop.
- The decoder process, the settings and menus, `_normalize_path`, terminal size
  queries, screen and cursor control, and signals.
- Threads: the input loop and the render loop share `KeyInput`. The model reads
  the transport state once per pass, and keys arrive between passes.
- Platform input: the keyboard hook, `msvcrt` and `select` are not modelled.
  Each run method is given the keys that arrive. The hook's idle loop (lines
  433-434) only sleeps.
- Clocks and sleeping: each pass is given the clock reading `now`. An early pass
  renders at once, as it would after its sleep. The reading taken after the
  sleep is not used again.
- Floating point: `round(...)` results in the geometry are parameters, and the
  lemmas assume each is within one half of the exact value. Time is `real`. The
  speed is held as tenths, since each step is rounded to two decimals and so
  stays on the 0.1 grid.
- `int(fps_limit)` and `int(round(src_fps))` are given as integers. A missing
  `max_rows` is any value of 0 or less.
- The `np.zeros_like` fallback of `_render_frame` cannot run. Terminal row y is
  below height // 2, so pixel row 2y+1 is below the height and always exists;
  the model indexes it directly.
- The "odd new height" branch of `_cap_dimensions_by_rows` cannot run, since
  2*maxRows is even. It is modelled but never taken.
- The `skip_n > 0` guard always holds once the skip is more than one interval.
  It is kept in `Player.CatchUp`.
- The loop itself: `while True` is a sequence of `Player.Step` passes, each
  followed by `Player.Present` when it shows a frame. No single method runs the
  whole loop, and the writes to standard output are not modelled.
- Pacing.PaceStep: its own contract says only that no more bytes are consumed
  than remain. Its meaning is stated by `StopAndPause`, `ShownIffEnoughFrames`,
  `ShownCatchesUp` and `RunningStep`.
