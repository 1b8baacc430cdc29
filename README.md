# luatsm line batching, modelled in Dafny

luatsm is the Lua binding of libtsm, a terminal-emulator state machine. When
Lua calls `draw` on a `VTState` object, libtsm hands the visible screen to the
C callback `draw_cb` one cell at a time, row by row. The binding turns that
cell stream into draw commands, one batch per row. For the row in progress it
keeps two runs open:

- a background rectangle: origin, accumulated display width and colour;
- a foreground text run: origin, the UTF-8 bytes written so far into a line
  buffer of `rows * cols * 4` bytes, and colour.

A run is closed into its row's list when the next cell's colour breaks it.
When the row changes, and once more at the end of the stream, both runs are
closed and the row's two lists go to the Lua draw callback.

This project models that engine and the object that holds it.

- `utf8.dfy`, module `Utf8`: the UTF-8 encoding of one codepoint, and a
  validating decoder used for the round-trip lemmas. The encoding is
  libtsm's `tsm_ucs4_to_utf8`, modelled after section 3 of RFC 3629.
- `severity.dfy`, module `Severity`: `sev2str`, the names of libtsm's log
  severities.
- `batch.dfy`, module `LineBatch`: the engine as a state machine on values.
  - `CloseRect` and `CloseText` are `add_rect` and `add_textrun`; `Flush` is
    `flush_line`.
  - `Step` is `draw_cb`, in the same four parts: row change, background
    break, foreground break, append.
  - `Pass` is `f_draw`: set up, feed every cell, flush once more.
  - The reference definitions `Rows`, `SumWidth`, `RowText`, `BgBreaks` and
    `FgBreaks` say what a row is and what its line must add up to. The
    lemmas prove what a whole pass delivers.
- `luatsm.dfy`, module `LuaTsm`: the `vts_t` struct as the class `Vts`.
  - Its fields are updated in place, and the line buffer is an
    `array<byte>` written at offset `ti`.
  - The per-cell and pass methods (`AddRect`, `AddTextRun`, `FlushLine`,
    the parts of `DrawCell`, `Reset`, `DrawCells`, `DrawPass`, `Draw`) are
    proved against the `LineBatch` function for the same C code:
    `Abstract()` of the new state is that function applied to the old one.
  - Also here, with contracts of their own: the argument conversion, checks
    and defaults of `f_new` (`New`, the constructor), the buffer re-sizing
    of `f_set_size` (`SetSize`), and the buffer write of
    `tsm_ucs4_to_utf8` (`Ucs4ToUtf8`).

The colour-break test is modelled as the code writes it (`luatsm.c:229` and
`luatsm.c:234`): a run is closed only when ALL THREE channels differ from the
tracked colour. A change in one or two channels closes nothing, and the cell
joins the open run. The tracked colour is then overwritten with the cell's
colour (`luatsm.c:239-240`), and the run is delivered in the tracked colour
(`luatsm.c:166-168`, `luatsm.c:182-184`). So an open run is delivered in the
colour of its LAST cell, and its earlier cells lose theirs.

- `PartialChangeKeepsRun` states the rule for backgrounds.
- `PartialChangeRecolours` states it for text.
- `PassRecoloursEarlierText` shows it on a two-cell row.
- `PassCounts` counts runs by the same rule. A zero-width cell, such as
  the cell after a wide character, adds nothing to a rectangle, so a row
  with one may get fewer rectangles than breaks; `PassCounts` gives the
  exact count for rows of positive-width cells and a bound otherwise.

Other points about the code:

- `draw_cb` encodes only a cell's first codepoint, or a space for a blank
  cell (`luatsm.c:242`). Any further codepoints of the cell, such as
  combining marks, are dropped. `Glyph` does the same, so the round trip in
  `PassTextRoundTrip` gives back one codepoint per cell.
- `f_new` stores each Lua integer argument in a C `int` before checking it
  (`luatsm.c:73-75`). `ToCInt` models the conversion as wrapping modulo
  2^32. For example, -4294967295 rows becomes 1 row and is accepted
  (`WrappedRowsAccepted`). `f_set_size` converts its two arguments the
  same way (`luatsm.c:124-125`), and `SetSize` applies `ToCInt` to both.
- `f_draw` starts both origins at column 0 of row 0 (`luatsm.c:254`), and
  only a break (`luatsm.c:229-237`) or a row change (`luatsm.c:223`) moves
  them. So when libtsm skips the start of row 0, the first rectangle of
  that row still begins at column 0 unless its background breaks against
  black. `StartAnchorsRect` states this for the first cell, and
  `PassLeadingColumnsAnchored` shows it on one cell at column 3.
- `f_draw` checks that its second argument is a function (`luatsm.c:250`).
  It then registers the value on top of the stack (`luatsm.c:252`), which
  is the last argument. If `draw` is given more than the object and the
  callback, as in `vt:draw(f, 0)`, the check passes, but a non-function is
  registered. Every row of that pass is then dropped silently. `Draw`
  models this: it registers the last argument, and its contract states
  that nothing is delivered in that case.

- `f_set_size` does not itself check that the new dimensions are positive. It
  leaves that to `tsm_screen_resize`, and only resets the write offset and
  re-sizes the buffer when the resize succeeds.
- The engine does not check that cells come in increasing column order; it
  delivers runs in the order libtsm feeds the cells. `PassIncreasing`
  therefore takes increasing columns within each row as a hypothesis.

## Model

| member | source | states |
|---|---|---|
| Severity.Sev2Str | luatsm.c:27-42 | severities 0 to 7 map to their table name, and the result is "UNKNOWN" exactly when the severity exceeds 7 |
| LuaTsm.ToCInt | luatsm.c:73-75 | the converted argument is a C int, congruent to the Lua integer modulo 2^32, and equal to it when it is already in the int range |
| LuaTsm.WrappedRowsAccepted | luatsm.c:73-77 | -4294967295 rows is converted to 1 row, which passes f_new's checks |
| LuaTsm.NewArgsError | luatsm.c:77-78 | arguments are accepted exactly when rows > 0, cols > 0 and scrollback >= 0; a non-positive dimension reports the dimensions message first, and a negative scrollback the scrollback message |
| LuaTsm.Vts.constructor | luatsm.c:83-97 | a new object has every colour, origin and counter zero, no callback registered, and a line buffer of exactly rows * cols * 4 bytes |
| LuaTsm.Vts.New | luatsm.c:72-113 | rows, columns and scrollback default to 24, 80 and 0 and are converted to C ints before the checks; a rejected argument yields its error and no object; accepted arguments yield a fresh object in the start state with a rows * cols * 4 byte buffer |
| LuaTsm.Vts.SetSize | luatsm.c:122-135 | both arguments are converted to C ints; a refused resize changes nothing; a successful one sets the converted size, resets the write offset to 0 and gives a fresh buffer of rows * cols * 4 bytes |
| LuaTsm.Ucs4ToUtf8 | luatsm.c:242 | writes 1 to 4 bytes, the UTF-8 encoding of the codepoint, at the offset, leaves the bytes before it unchanged, and returns how many it wrote |
| LuaTsm.Vts.AddRect | luatsm.c:160-172 | a run of zero width is dropped; otherwise the open rectangle with its origin, width and colour is appended to the row's list; either way the width is 0 afterwards |
| LuaTsm.Vts.AddTextRun | luatsm.c:174-188 | an empty run is dropped; otherwise buf[0..ti) with the run's origin and colour is appended to the row's list; either way the write offset is 0 afterwards |
| LuaTsm.Vts.FlushLine | luatsm.c:190-204 | both runs are closed; the row's line is delivered only when the callback is a function; the result is 1 when the callback is not a function or raises, and 0 otherwise |
| LuaTsm.Vts.EnterRow | luatsm.c:221-227 | a cell on a new row flushes the row in progress and starts both runs and both lists at the cell; a cell on the current row changes nothing |
| LuaTsm.Vts.StartRow | luatsm.c:223-226 | both run origins move to the cell and both lists are emptied; nothing else changes |
| LuaTsm.Vts.BreakRect | luatsm.c:229-232 | the background run is closed and restarted at the cell exactly when all three channels of the cell's background differ from the tracked colour |
| LuaTsm.Vts.BreakText | luatsm.c:234-237 | the text run is closed and restarted at the cell exactly when all three channels of the cell's foreground differ from the tracked colour |
| LuaTsm.Vts.AppendCell | luatsm.c:239-243 | the tracked colours become the cell's; the cell's encoding (a space for a blank cell) is written after the open text; its width is added to the open rectangle |
| LuaTsm.Vts.DrawCell | luatsm.c:206-246 | the new state is the reference step for one cell: row change, background break, foreground break, then append |
| LuaTsm.Vts.ZeroCounters | luatsm.c:254 | both runs' origins, the open width and the write offset become 0; nothing else changes |
| LuaTsm.Vts.Reset | luatsm.c:252-257 | the callback is registered and the engine is in the start state: colours black, origins and counters 0, both lists empty, earlier deliveries kept |
| LuaTsm.Vts.DrawCells | luatsm.c:258 | feeding the cells in order leaves the engine in the reference state after the whole stream, and the buffer never overflows |
| LuaTsm.Vts.Draw | luatsm.c:248-263 | a second argument that is not a function is refused and nothing changes, buffer contents included; otherwise the last argument is registered and the pass leaves exactly the state of the reference pass with it (set up, every cell, one final flush); the callback is unregistered, the buffer keeps its rows * cols * 4 size, and when the last argument is not a function nothing is delivered |
| LuaTsm.Vts.DrawPass | luatsm.c:252-260 | with the callback accepted, the engine ends in the state of the reference pass (set up, every cell, one final flush), earlier deliveries kept, and the callback unregistered |
| Utf8.Encode | luatsm.c:242 | a codepoint's encoding is 1 to 4 bytes long, as many as RFC 3629 assigns to it |
| Utf8.DecodeEncode | luatsm.c:242 | decoding the encoding of a codepoint gives that codepoint back and consumes exactly its bytes, whatever follows |
| Utf8.DecodeEncodeAll | luatsm.c:242 | decoding the concatenated encodings of a sequence of codepoints gives the sequence back |
| LineBatch.FlushDelivers | luatsm.c:190-204 | a flush delivers exactly one line, the pending one, when the callback is a function and nothing otherwise, and leaves both runs empty |
| LineBatch.StepTracksColors | luatsm.c:239-240 | after every cell the tracked colours are that cell's, whether or not a run was closed |
| LineBatch.StepBackground | luatsm.c:229-232 | on the current row, a full background break appends the open rectangle if it has width and starts a new run of the cell's width at the cell; otherwise the cell's width extends the open run |
| LineBatch.StepForeground | luatsm.c:234-237 | on the current row, a full foreground break appends the open text run if non-empty and starts a new run holding just the cell's encoding; otherwise the encoding is appended to the open run |
| LineBatch.PartialChangeKeepsRun | luatsm.c:229-232 | a background change in only one or two channels closes nothing; the cell joins the open rectangle, which keeps its origin |
| LineBatch.PartialChangeRecolours | luatsm.c:234-240 | a foreground change in one or two channels closes no text run; the cell's encoding joins the open run, which is delivered in the cell's colour |
| LineBatch.PassRecoloursEarlierText | luatsm.c:229-243 | a white "a" followed by a red "b" on one black row is delivered as one black rectangle of width 2 and one text run "ab" in red |
| LineBatch.StepKeepsOut | luatsm.c:221 | a cell on the current row delivers nothing |
| LineBatch.StepRowChange | luatsm.c:221-227 | a cell on a new row delivers the previous row's line (when the callback is a function), and both runs and lists start afresh at the cell |
| LineBatch.AppendOn | luatsm.c:242-243 | each cell adds exactly its width to the row's rectangle widths and exactly its encoding to the row's text |
| LineBatch.StepTextGrowth | luatsm.c:242 | one cell adds at most four bytes to the open text run |
| LineBatch.RowsPartition | luatsm.c:221 | the reference row split cuts the stream into groups that each lie on one row, neighbouring groups on different rows, and only the first possibly empty |
| LineBatch.PassDeliversRows | luatsm.c:206-263 | with a function callback, a pass delivers one line per row after the earlier lines; each line's rectangle widths sum to its row's cell widths, its texts concatenate to its row's UTF-8 text, and no rectangle or text is empty |
| LineBatch.PassTextRoundTrip | luatsm.c:242 | decoding the concatenated texts of a delivered line gives back the first codepoint of each of its row's cells, blanks as spaces |
| LineBatch.PassWithoutFunction | luatsm.c:194-196 | when the callback is not a function, a pass delivers nothing |
| LineBatch.PassEmptyStream | luatsm.c:252-259 | a pass over no cells still calls the callback once, with two empty lists |
| LineBatch.PassLeadingEmptyRow | luatsm.c:221-227 | since the engine starts on row 0, a stream whose first cell is on another row first delivers an empty line |
| LineBatch.StartAnchorsRect | luatsm.c:229-254 | a first cell on row 0 whose background does not break against black leaves the rectangle origin at column 0, whatever the cell's column |
| LineBatch.PassLeadingColumnsAnchored | luatsm.c:229-254 | a white "a" on black at column 3 of row 0 is delivered as a rectangle from column 0 of width 1 and a text run at column 3 |
| LineBatch.PassIncreasing | luatsm.c:206-246 | when cells come at increasing columns within each row, every delivered line has its rectangles, and separately its text runs, at strictly increasing start columns |
| LineBatch.PassCounts | luatsm.c:229-237 | every non-empty row is delivered with one more text run than it has foreground breaks, the last run in the last cell's colour; a row gets at most one more rectangle than it has background breaks, exactly that many when all its cells have positive width, and when it has that many the last is in the last cell's background |
| LineBatch.PassUniformBackground | luatsm.c:229-232 | a row of positive total width whose cells share one background is delivered as a single rectangle in that colour, as wide as the row, zero-width cells included |
| LineBatch.PassAlternatingBackground | luatsm.c:229-232 | a row of positive-width cells whose neighbouring backgrounds differ in all three channels is delivered as one rectangle per cell |

## Left out

- bel.c (a bell player using libcanberra, or `PlaySoundA` on Windows) and luaterm.c (which registers the `tsm` and `bel` modules under one table) are not part of this model.
- libtsm internals are not modelled.
  - `tsm_screen_draw` is the sequence of cells it feeds `draw_cb`.
  - `tsm_ucs4_to_utf8` is modelled as the RFC 3629 encoder.
  - The outcome of `tsm_screen_resize` in `f_set_size` is a boolean parameter.
  - `tsm_screen_new`, `tsm_screen_resize`, `tsm_screen_set_max_sb` and `tsm_vte_new` in `f_new` are assumed to succeed. Their failure paths only release memory and raise. The object already carries its metatable (`luatsm.c:81`) with `L` set (`luatsm.c:84`), so its later `__gc` frees `buf` and releases the screen a second time. That is memory management, which is left out.
- The Lua stack and registry are not modelled. The row's two tables become sequences, the registered callback becomes the `Sink` value, and delivery is recorded in `delivered`.
- Re-entrant calls are not modelled. The draw callback is assumed not to call `draw`, `set_size`, `write` or `__gc` on the same object during a pass.
  - A nested `draw` would leave the registry slot at `LUA_NOREF` (`luatsm.c:260`), so the outer pass's later flushes would drop their rows.
  - A nested `draw` would also zero the open runs mid-row (`luatsm.c:253-254`), and a nested `set_size` would reset `ti` (`luatsm.c:130`).
- The Lua arguments of `draw` are a sequence of `Sink` values: every non-function value is `NotFunction`, and a call with no argument after the object has an empty sequence. The error `luaL_checktype` raises is the `false` result of `Draw`. A non-function reaches `flush_line` during a pass only when `draw` is given extra arguments, as described above, or through re-entrant calls.
- Only whether the callback raises is modelled. What it draws, and the error it raises, are not.
- `log_cb`, `write_cb`, `f_write`, `f_get_size`, `f_get_cursor`, `f_set_palette` and `f_gc` are outside the batching engine.
- The `L == NULL` guard of `draw_cb` is left out, together with `f_gc`. `L` is cleared only by `f_gc` (`luatsm.c:312`), and the guard covers use of the object after `__gc`. `__gc` can be called as a method because the metatable is its own `__index` (`luatsm.c:334-335`).
- Memory management is left out:
  - `malloc` or `realloc` returning NULL;
  - the first buffer allocated in `f_new`, which is overwritten without being freed;
  - the buffer contents `realloc` preserves. The model gives `SetSize` a fresh buffer, and the write offset is reset anyway.
- LuaTsm.Vts.constructor: requires `rows * cols * 4` to fit in a C int. The model does not follow the overflowed allocation size.
- LuaTsm.Vts.New: requires the same bound for the converted dimensions. An argument that is not an integer makes `luaL_optinteger` raise, which is not modelled; arguments are integers here.
- Cell codepoints are Unicode scalar values, the only inputs the RFC 3629 encoder is defined on. libtsm hands over any `uint32_t`, and a surrogate or a value above U+10FFFF in a cell is not modelled.
- LuaTsm.Vts.SetSize: the same bound is required for the converted new dimensions. When `tsm_screen_resize` succeeds, both dimensions are assumed positive; that is a property of libtsm, which is not part of this model.
- The C fields `tx, ty, ti, rx, ry, rw` are `unsigned int`, and their wrap-around is not modelled. Widths and offsets are bounded by the screen size.
- LuaTsm.Vts.Draw: requires that libtsm feeds at most `rows * cols` cells, the size of the screen. That bounds the line buffer's use.
- LineBatch.PassIncreasing: takes increasing columns within each row as a hypothesis. The engine never checks it.
- The return value of `flush_line` is ignored by `draw_cb` and `f_draw`, so only `FlushLine` exposes it.
