# Circle text layout of geelyButtonsESP, in Dafny

The firmware drives a round 240x240 display. It writes status and event
strings onto it with a small word wrapper, CircleText. That wrapper is the
core modelled here.

- **Row span.** For each pixel row the usable span is the chord of the circle
  at that row, inset by a margin on each side (`circleLineBounds`). A row has
  no span when it lies on or outside the circle, or when the margins leave
  nothing of its chord.
- **Measure pass.** `layoutHeight` wraps the text greedily from the top of the
  band `[topY, bottomY]` and returns the height the block takes.
- **Start row.** That height and the alignment (Top, Center, Bottom) choose the
  row the block starts on.
- **Draw pass.** The draw pass in `drawWrappedTextCircle` wraps the text again
  from the start row. It prints line by line and stops silently at the first
  row with no span, or at the first line that would reach below `bottomY`.
- **Long words.** A word too wide for a fresh row is cut into chunks by
  `fitCharsIntoWidth`.

The model also covers these:

- the configuration record and its defaults, and the alignment enum;
- the module-wide configuration that `setConfig` writes and `draw` reads;
- the event-string selectors and the two `snprintf` formatters of namespace
  `Evt`;
- the two band presets of namespace `TftTextCfg`.

## Layout of the project

| module | file | what it holds |
|---|---|---|
| `Optional` | optional.dfy | the `Option` datatype |
| `Gfx` | gfx.dfy | metrics as a function value `(string, textSize) -> Size`, the `Display` class recording what is printed, a fixed-pitch font stand-in |
| `Geometry` | geometry.dfy | exact integer rounded square root, `RowBounds` (circleLineBounds) |
| `CircleTextConfig` | circle_text_config.dfy | `Pos`, `Config`, the defaults, and when every row of a band is usable |
| `WordRuns` | words.dfy | words as runs of characters other than space and line break; `Spaced`, the words joined by single spaces |
| `MeasureSpec` | measure_spec.dfy | recursive reference definitions of fitCharsIntoWidth and the measure pass |
| `DrawSpec` | draw_spec.dfy | recursive reference definition of the lines the draw pass prints and of how it ends (`Halt`: finished, or stopped on a row before a refused text) |
| `DrawLines` | draw_lines.dfy | the layout vocabulary: `Placed`, `Stacked`, `Render`, `ReformsPrefix`, and the pass's state predicates |
| `DrawLayout` | draw_layout.dfy | proofs that the draw pass keeps to that vocabulary |
| `CircleText` | circle_text.dfy | the two passes as imperative methods with loops, each proved equal to its reference definition |
| `CircleTextApi` | circle_text_api.dfy | `drawWrappedTextCircle`, `drawWithConfig`, and the `Settings` class for `g_cfg`, `setConfig` and `draw` |
| `Evt`, `TftTextCfg` | app_config.dfy | the event strings and the two presets of AppConfig.h |
| `WorkedExample` | worked_example.dfy | "EVT:BOOT" in the status band, aligned to the top and to the bottom |

Each imperative method in `CircleText` carries an `ensures` tying its result
to a recursive function of `MeasureSpec` or `DrawSpec`. The layout properties
are proved about those functions in `DrawLayout`. The entry point
`DrawWrappedTextCircle` then states all of them about what it appends to the
display.

## Model

| member | source | states |
|---|---|---|
| CircleText.TextLineHeight | src/CircleText.cpp:18-22 | the line height is positive: the measured height of "Ay" when positive, otherwise 8 |
| CircleText.FitChars | src/CircleText.cpp:24-39 | an empty string gives 0. A non-empty one gives 1..min(len, 95). A first character already wider than maxW still gives 1. Otherwise every kept prefix fits, and the loop stopped at the end, at a full buffer or at a prefix too wide. The result equals `FitCount` |
| MeasureSpec.FitFrom | src/CircleText.cpp:29-37 | the chunk length stays within the string and is at least 1 for a non-empty string |
| MeasureSpec.FitFromBounds | src/CircleText.cpp:24-39 | the same bounds and stopping reasons, about the reference definition for every state of the loop |
| MeasureSpec.SpacesEnd | src/CircleText.cpp:85 | skipping spaces stops at the end or at a character that is not a space |
| MeasureSpec.WordStop | src/CircleText.cpp:103 | a word ends inside the text, at or after its start |
| CircleText.SkipSpaces | src/CircleText.cpp:85 | the loop stops at `SpacesEnd`, and everything it passes over is a space |
| CircleText.WordEnd | src/CircleText.cpp:102-104 | the loop stops at `WordStop`: at a separator or the end, past no separator, and past at least one character when the word starts with one |
| CircleText.MeasureFlush | src/CircleText.cpp:71-80 | an empty line leaves the cursor. Otherwise the cursor moves down by the line height plus the gap, the line is cleared, and ok says whether the cursor is still at or above bottomY |
| CircleText.MeasureChunks | src/CircleText.cpp:137-150 | the chunk loop's cursor equals `Chunks`, which stops at the end of the word, at a row with no span, or after the first flush below bottomY |
| CircleText.MeasureWord | src/CircleText.cpp:107-135 | one word of the measure pass equals `WordStep`, both when the scan goes on and when it stops |
| CircleText.MeasureStep | src/CircleText.cpp:84-151 | one turn of the main loop either advances the position and keeps `Scan` unchanged, or stops with `Final` equal to `Scan` |
| CircleText.LayoutHeight | src/CircleText.cpp:60-166 | the height returned is `MeasuredHeight`, which is never negative |
| MeasureSpec.BlankHeight | src/CircleText.cpp:84-165 | empty or space-only text measures 0 |
| MeasureSpec.OutsideTopHeight | src/CircleText.cpp:84-165 | a band whose top row has no span measures 0 |
| CircleText.HalfTowardZero | src/CircleText.cpp:183 | halving truncates toward zero as C's `/` does: `a - 2q` is 0 or 1 for a non-negative value and 0 or -1 for a negative one |
| CircleText.StartY | src/CircleText.cpp:176-187 | the start row is never above topY. Top gives topY. Bottom ends the block on bottomY when it fits. Center leaves equal room above and below, the odd pixel below. A block taller than the band starts at topY |
| CircleText.DrawFlush | src/CircleText.cpp:194-207 | an empty line changes nothing. A line reaching below bottomY is refused: nothing changes, and the pass ends on the cursor's row with that line refused. Otherwise it is printed at (xLeft, cursorY) and the cursor moves down (`FlushLine`) |
| DrawSpec.ChunkTurnsStep | src/CircleText.cpp:265-278 | a chunk is non-empty, fits its row or is one character, ends at or above bottomY, is printed at the row's left end, and the cursor moves down by its height plus the gap. When the turn ends the pass, it ends on the cursor's row, either with no span and nothing refused, or refusing that chunk because it would reach below bottomY |
| CircleText.DrawChunk | src/CircleText.cpp:266-277 | one chunk turn advances by at least one character and keeps `ChunkTurns` unchanged, or ends it on the cursor's row refusing the chunk it computed (none on a row with no span) |
| CircleText.DrawChunks | src/CircleText.cpp:265-278 | the chunk loop ends as `ChunkTurns` does: with its cursor and lines when the word is done, and with its lines and cursor row when a refused chunk or a row with no span ends the pass |
| CircleText.BreakLine | src/CircleText.cpp:250-255 | breaking before a word follows `LineBreak`: the pending line is printed and the cursor moves to a row with a span (`Fresh`), or the pass ends with `Broken`'s lines and row |
| CircleText.DrawWord | src/CircleText.cpp:238-278 | one word follows `WordTurn` (exactly when the pass goes on; its lines and row when the pass ends): it is appended if it fits behind the line; otherwise the line is broken and the word starts a fresh row whole, or is chunked only when it alone does not fit that row |
| CircleText.DrawNewline | src/CircleText.cpp:214-221 | a line break follows `NewlineTurn` (exactly when the pass goes on; its lines and row when it ends): the pass ends on a row with no span even with an empty line, or on a refused flush; otherwise one more line gap is added |
| CircleText.DrawLast | src/CircleText.cpp:281-285 | the final flush prints the lines of `LastLine` |
| CircleText.DrawNewlineAt | src/CircleText.cpp:212-221 | at a line break the pass either ends with `DrawScan`'s lines or moves one past it with `DrawScan` unchanged |
| CircleText.DrawWordAt | src/CircleText.cpp:223-263 | at a word the pass ends on a row with no span, or reads the word and keeps `DrawScan` unchanged |
| CircleText.DrawStep | src/CircleText.cpp:211-279 | one turn of the main loop advances and keeps `DrawScan` unchanged, or ends with its lines |
| CircleText.DrawPass | src/CircleText.cpp:189-285 | the lines printed are exactly `DrawnLines` from startY |
| DrawLayout.FlushLaid | src/CircleText.cpp:194-207 | a printed line is placed on its row's span, ends at or above bottomY, and the cursor stays below it. A refused line ends the pass (`Ended`) on the cursor's row, with that line as the text refused; the lines so far followed by it read back as a prefix of what was pending |
| DrawLayout.ChunkTurnsLaid | src/CircleText.cpp:265-278 | chunks printed stay laid out, and concatenated they give a prefix of the word. A word is recorded as split only when it alone is wider than the row its first chunk is on. When the loop ends the pass, the row and the refused chunk carried by `Ended` are the reason: a row with no span, or a chunk reaching below bottomY |
| DrawLayout.LineBreakLaid | src/CircleText.cpp:250-255 | breaking the line keeps the layout, and the text read back grows by the pending line. When it ends the pass (`Broken`), the row it carries has no span, or the pending line it carries would reach below bottomY |
| DrawLayout.WordTurnLaid | src/CircleText.cpp:238-278 | after a word, the printed lines plus the pending line read back as the words so far with this one appended. The word is chunked only when it alone does not fit the fresh row. When the word ends the pass, `Ended` carries the row and the refused line or chunk, and they are the reason it ended; the lines read back a prefix |
| DrawLayout.NewlineTurnLaid | src/CircleText.cpp:214-221 | a line break keeps the layout and reads back the pending line. When it ends the pass, `Ended` carries the cursor's row, which has no span, or the refused line |
| DrawLayout.LastLineLaid | src/CircleText.cpp:281-285 | the last line keeps the layout. `LastLine` is `Finished` exactly when everything pending is read back; when it is `Stopped`, it carries the row with no span or the refused line |
| DrawLayout.DrawScanLaid | src/CircleText.cpp:211-285 | from any word boundary, the lines printed by the end are laid out, and only words too wide for their row are split. When `DrawScan` is `Finished` they read back as all the text's spaced words; when it is `Stopped` they read back as a prefix, and the row and text it carries are the reason |
| DrawLayout.LaidStacked | src/CircleText.cpp:199-205 | with a non-negative gap, every earlier line ends, gap included, at or above every later one |
| DrawLayout.LaidMeans | src/CircleText.cpp:199-205 | the line-by-line layout gives `Placed` for every line, `ChunksJoined`, and `Stacked` |
| DrawLayout.DrawnLinesLaid | src/CircleText.cpp:189-285 | each printed line is placed. Each starts at the left end of its row's span, fits the row's width unless it is a single character, and ends at or above bottomY. With a non-negative gap the lines are stacked below startY. Read in order, with one space at each word boundary, they reform the text's words joined by single spaces, and only a word's chunks are joined without a space. A word is split only when it alone is wider than the row it starts on. When the pass reaches the end of the text (`DrawEnd` is `Finished`) every word is read back. When it returns early (`Stopped`) a prefix is read back, and the cursor row and refused text it carries give the reason: the row has no span, or that text would reach below bottomY. A text without words prints nothing |
| CircleTextApi.DrawWrappedTextCircle | src/CircleText.cpp:168-286 | sets the text size and colour, and appends to the display exactly `DrawnLines` from `StartY` of the measured height. The ghost `halt` is `DrawEnd` of the pass, and every layout property of `DrawnLinesLaid` holds of it: the whole text when finished, and when stopped, the row and text that stopped it |
| CircleTextApi.DrawWithConfig | src/CircleText.cpp:288-290 | draws with the given configuration, with the guarantees of `DrawWrappedTextCircle`; the alignment defaults to Top (`DefaultPos`), as declared at src/CircleText.h:30 |
| CircleTextApi.Settings.constructor | src/CircleText.cpp:4 | the stored configuration starts as the record's defaults |
| CircleTextApi.Settings.SetConfig | src/CircleText.cpp:6-8 | the stored configuration becomes the one given |
| CircleTextApi.Settings.Draw | src/CircleText.cpp:292-294 | draws with the stored configuration, leaves it unchanged, and gives the same guarantees as `DrawWrappedTextCircle` |
| CircleTextConfig.DefaultConfig | src/CircleText.h:11-25 | the default band [20, 220] is non-empty and lies inside the circle's vertical extent [2, 238]; margin and gap are non-negative, text size at least 1 |
| CircleTextConfig.DefaultBandUsable | src/CircleText.h:13-21 | every row of the default band has a usable span |
| CircleTextConfig.BandUsableWithin | src/CircleText.cpp:44-53 | a band within `reach` rows of the centre, where the squared half-chord exceeds margin² + margin, has a span on every row |
| CircleTextConfig.HalfChordExceeds | src/CircleText.cpp:49-53 | the rounded half-chord exceeds the margin once its square exceeds margin² + margin |
| Geometry.SquareIsProduct | src/CircleText.cpp:45-46 | the squares used for dy² and R² are the products |
| Geometry.ISqrtBounds | src/CircleText.cpp:49 | the integer square root k satisfies k² ≤ n < (k+1)² |
| Geometry.RoundSqrtCorrect | src/CircleText.cpp:49-51 | `RoundSqrt(n)` is sqrt(n) rounded to nearest: d² - d < n ≤ d² + d |
| Geometry.RoundedSqrtUnique | src/CircleText.cpp:49-51 | that rounding has exactly one result |
| Geometry.RowBounds | src/CircleText.cpp:41-57 | a span has xLeft < xRight and is symmetric about cx |
| Geometry.RowBoundsChord | src/CircleText.cpp:44-56 | a row has a span exactly when dy² < R² and the rounded half-chord exceeds the margin; then xLeft = cx - round(dx) + margin |
| Geometry.StatusBandRows | src/CircleText.cpp:41-57 | rows 6, 16 and 24 of the status circle span [98, 142], [72, 168] and [59, 181] |
| WordRuns.WordsAreWords | src/CircleText.cpp:229-230 | every word is non-empty and holds neither a space nor a line break |
| WordRuns.NoWordsIffAllSeps | src/CircleText.cpp:211-230 | a text has no words exactly when it is made of spaces and line breaks only |
| WordRuns.WordsPrefix | src/CircleText.cpp:211-230 | cutting the text between words keeps the words before the cut, in order |
| WordRuns.SpacedWordsPrefix | src/CircleText.cpp:211-230 | the spaced words of a cut text are a prefix of the spaced words of the whole |
| Evt.BtnClickTable | src/AppConfig.h:103-120 | the table has 16 entries; exactly entries 1 and 2 are empty; the others start with "EVT:" and are pairwise distinct |
| Evt.EncStep | src/AppConfig.h:123-126 | encoder 1 gives TEMP_MAIN and any other gives TEMP_PASS; "+1" exactly when delta > 0, so 0 gives "-1" |
| Evt.BtnClickByIdx | src/AppConfig.h:128-131 | an index of 16 or more gives the unknown-button event, and only then; otherwise the table entry, empty exactly for 1 and 2 |
| Evt.EncKey | src/AppConfig.h:133-136 | encoder 1 gives CLIMATE_SW or DUAL_SW, any other REAR_DEFROST or ELECTRIC_DEFROST; the long variant exactly when isLong |
| Evt.Truncate | src/AppConfig.h:139-145 | snprintf into n bytes: nothing for n = 0; otherwise a prefix of the full text of at most n - 1 characters, the whole text when it fits |
| Evt.DecimalRoundTrip | src/AppConfig.h:140 | `%d` of an integer reads back as that integer |
| Evt.Int16DecimalLength | src/AppConfig.h:139-141 | `%d` of a 16-bit value takes at most 6 characters |
| Evt.TouchXY | src/AppConfig.h:139-141 | the buffer holds a prefix of "EVT:TOUCH:X=x,Y=y", of length exactly min(length, n - 1); the whole text when n ≥ 28, nothing when n = 0 |
| Evt.TouchRoundTrip | src/AppConfig.h:139-141 | the whole touch text reads back as the two coordinates |
| Evt.Hex2 | src/AppConfig.h:144 | `%02X` of a byte is exactly two upper-case hex digits whose value is the byte |
| Evt.OledAddr | src/AppConfig.h:143-145 | the buffer holds a prefix of "EVT:OLED:0x" plus two hex digits, of length exactly min(length, n - 1); the whole text when n ≥ 14, nothing when n = 0 |
| Evt.OledRoundTrip | src/AppConfig.h:143-145 | the address text reads back as the address, so distinct addresses give distinct texts |
| TftTextCfg.Status | src/AppConfig.h:152-166 | the status band [6, 52] is non-empty, inside the circle and above its centre |
| TftTextCfg.Bottom | src/AppConfig.h:169-182 | the bottom band [188, 236] is non-empty, inside the circle and below its centre |
| TftTextCfg.PresetsShareCircle | src/AppConfig.h:152-182 | the presets differ only in their bands, and the bands do not overlap |
| TftTextCfg.PresetsUsable | src/AppConfig.h:152-182 | every row of both bands has a usable span |
| WorkedExample.BootChunks | src/CircleText.cpp:24-39 | with 12-pixel glyphs "EVT:BOOT" is cut after 3 characters on a 44-pixel row, and the remaining 5 fit a 122-pixel row |
| WorkedExample.StatusRows | src/AppConfig.h:152-166 | in the status band, row 6 spans [98, 142] and row 24 spans [59, 181] |
| WorkedExample.BootMeasuredHeight | src/CircleText.cpp:60-166 | "EVT:BOOT" in the status band measures 36: two chunks of 16, each followed by the gap of 2 |
| WorkedExample.BootDrawnTop | src/CircleText.cpp:168-286 | aligned to the top, the draw pass prints "EVT" at (98, 6) and ":BOOT" at (59, 24) and reaches the end of the text |
| WorkedExample.BootDrawnWhole | src/CircleText.cpp:176-187 | aligned to the bottom, the start row is 16, where the whole word fits but not on row 6 |
| WorkedExample.BootDrawnBottom | src/CircleText.cpp:168-286 | aligned to the bottom, the draw pass prints "EVT:BOOT" whole at (72, 16) and reaches the end of the text, so the two passes break the text differently |

## Notes on the code

- **Worked example, "EVT:BOOT" in the status band.** On row 24 the half-chord
  is sqrt(4708) ≈ 68.6, which the code rounds to 69. The row therefore spans
  [59, 181] and the second line is drawn at x = 59. The measure pass's chunk
  flush adds the line gap after every chunk, the last one included, so the
  block measures 16 + 2 + 16 + 2 = 36.
- **Two line breakers.** The measure pass and the draw pass each carry their
  own copy of the wrapping logic, and the copies differ. The model keeps each:
  - the measure flush moves the cursor before checking bottomY, while the draw
    flush checks first and prints only if the line fits;
  - the measure pass ignores the flush result at a line break;
  - a refused chunk in the measure pass leaves only the chunk loop, and the
    next word is still measured, while the draw pass returns;
  - the measure pass's final flush adds the height with no gap and no
    bottomY check;
  - the measure pass starts at topY, the draw pass at the aligned start row,
    so the two can break lines differently (`BootDrawnBottom`).
- **Line buffer.** The pending line is a growing `String` with no capacity
  limit, so no flush is forced by a full buffer; the model uses an unbounded
  sequence. The only fixed capacity is the 96-byte buffer of
  fitCharsIntoWidth, which the model keeps.

## Left out

- Floating point: `sqrtf` and `roundf` in circleLineBounds are modelled as
  exact rounding of the integer square root. The square root of an integer is
  never a half-integer, so no rounding tie arises. The model does not capture
  single-precision error on very large squares.
- 16-bit arithmetic: coordinates, heights and the config fields are unbounded
  integers. The `int16_t` casts of the measured size and of the row bounds, and
  any wrap-around in `cursorY`, are not modelled.
- Text metrics: `getTextBounds` is a parameter (`Metrics`). Its x1/y1 outputs
  are unused by the source and left out. The model assumes nothing about the
  metrics beyond being a function.
- Display side effects: `setCursor` followed by `print` is recorded as one
  `Print(x, y, text)` entry. Colour and text size are fields of `Display`.
  Nothing is rendered.
- C strings: the text is a sequence without a terminator. A NUL inside the
  text, which would end the C string early, is not modelled.
- `String.reserve(160)` and the word and chunk copies are allocation details
  and are left out. The `maxW` argument of both `flushLine` lambdas is unused
  by the source and is left out.
- `lineH` in layoutHeight is computed and never used. `LayoutHeight` computes
  it with `TextLineHeight` and discards it.
- The `len == 0` branches at src/CircleText.cpp:105 and :232 cannot be taken:
  a word starts at a character that is neither a space nor a line break.
- The `if (!*p) break;` at lines 96 and 223 is the end-of-text case of the
  main loop, reached right after skipping spaces.
- DrawLayout.DrawnLinesLaid: the vertical order is stated only for a
  non-negative lineGap, because a negative gap lets lines overlap. It is stated
  as each line ending at or above the next, which gives strictly increasing y
  only when line height plus gap is positive.
- Evt.TouchXY and Evt.OledAddr: only the `%d` and `%02X` conversions they use
  are modelled, not snprintf in general. The caller's buffer is the returned
  string, not a memory write.
- src/main.cpp (BLE, encoder interrupts, button debouncing, the OLED logger,
  timing) and the pin, timing and UUID constants of AppConfig.h are outside
  the wrapper and are not part of this model. The static event strings other
  than those the selectors return (BOOT, READY and the others) are plain
  constants; only BOOT appears, in the worked example.
- Gfx.FixedPitch is a stand-in font for the worked example, not part of the
  source.
- Gfx.Display.constructor: the text size and colour the display library
  starts in are not part of this model, so the constructor takes them as
  parameters.
- CircleText.DrawChunks: on an early end it states the lines and the cursor row
  of `ChunkTurns`, not the refused chunk, which the C++ code discards.
- CircleText.BreakLine: on an early end it states the lines and the cursor row
  of `LineBreak`, not the refused line, which the C++ code discards.
- CircleText.DrawWord: on an early end it states the lines and the cursor row
  of `WordTurn`, not the refused text, which the C++ code discards.
- CircleText.DrawNewline: on an early end it states the lines and the cursor
  row of `NewlineTurn`, not the refused line, which the C++ code discards.
