/**
 * The line batching engine of luatsm.c as a state machine on values.
 *
 * libtsm pushes the screen to draw_cb one cell at a time, row by row. For
 * the row in progress the engine keeps two independent runs open: a
 * background rectangle (origin rx, ry, accumulated width rw, colour rc) and
 * a foreground text run (origin tx, ty, the UTF-8 bytes written so far,
 * colour tc). A run is closed into the row's list when the next cell's
 * colour differs from the tracked one in all three channels, and both are
 * closed and the row handed to the draw callback when the row changes and
 * once more when the stream ends.
 *
 * Step, Flush and Pass are the reference the imperative class in module
 * LuaTsm is proved against; the lemmas below say what a pass delivers.
 */
module LineBatch {
  import opened Utf8

  datatype Rgb = Rgb(r: byte, g: byte, b: byte)

  const Black := Rgb(0, 0, 0)

  /**
   * One screen cell as libtsm hands it to draw_cb: the codepoints of the
   * cell (empty for a blank cell), its display width, its column and row,
   * and its foreground and background colours.
   */
  datatype Cell = Cell(ch: seq<Scalar>, width: nat, posx: nat, posy: nat, fg: Rgb, bg: Rgb)

  /** A background fill of `w` columns starting at column `x` of row `y`. */
  datatype Rect = Rect(x: nat, y: nat, w: nat, color: Rgb)

  /** UTF-8 text drawn from column `x` of row `y`. */
  datatype TextRun = TextRun(x: nat, y: nat, text: seq<byte>, color: Rgb)

  /** What the draw callback receives for one row: its rectangles and its text runs. */
  datatype Line = Line(rects: seq<Rect>, runs: seq<TextRun>)

  /**
   * The value registered as the draw callback: either not a function, or a
   * function that raises an error on some lines.
   */
  datatype Sink = NotFunction | Function(raises: Line -> bool)

  /**
   * The engine's fields: the tracked colours, the two open runs, the bytes
   * of the open text run (the buffer up to ti), the row's two lists, and the
   * lines delivered to the callback so far.
   */
  datatype State = State(rc: Rgb, tc: Rgb,
                         rx: nat, ry: nat, rw: nat,
                         tx: nat, ty: nat, text: seq<byte>,
                         rects: seq<Rect>, runs: seq<TextRun>,
                         out: seq<Line>)

  const Space: Scalar := 0x20

  /** The codepoint a cell draws: its first codepoint, or a space for a blank cell. */
  function Glyph(c: Cell): Scalar {
    if |c.ch| == 0 then Space else c.ch[0]
  }

  /**
   * The colour-break test as luatsm.c writes it: a run is closed only when
   * all three channels differ from the tracked colour.
   */
  predicate Breaks(tracked: Rgb, next: Rgb) {
    tracked.r != next.r && tracked.g != next.g && tracked.b != next.b
  }

  /** add_rect: close the open background run if it has any width. */
  function CloseRect(s: State): State {
    if s.rw == 0 then s
    else s.(rects := s.rects + [Rect(s.rx, s.ry, s.rw, s.rc)], rw := 0)
  }

  /** add_textrun: close the open text run if it has any bytes. */
  function CloseText(s: State): State {
    if |s.text| == 0 then s
    else s.(runs := s.runs + [TextRun(s.tx, s.ty, s.text, s.tc)], text := [])
  }

  /** The line a flush would hand to the callback now. */
  function Pending(s: State): Line {
    var t := CloseText(CloseRect(s));
    Line(t.rects, t.runs)
  }

  /** flush_line: close both runs and deliver the row if the callback is a function. */
  function Flush(s: State, sink: Sink): State {
    var t := CloseText(CloseRect(s));
    if sink.Function? then t.(out := t.out + [Line(t.rects, t.runs)]) else t
  }

  /** draw_cb, first part: on a row change, flush and start the new row's runs and lists at the cell. */
  function EnterRow(s: State, c: Cell, sink: Sink): State {
    if s.ry != c.posy then
      Flush(s, sink).(rx := c.posx, tx := c.posx, ry := c.posy, ty := c.posy, rects := [], runs := [])
    else s
  }

  /** draw_cb, second part: close the background run and restart it at the cell if its colour breaks. */
  function BreakRect(s: State, c: Cell): State {
    if Breaks(s.rc, c.bg) then CloseRect(s).(rx := c.posx, ry := c.posy) else s
  }

  /** draw_cb, third part: close the text run and restart it at the cell if its colour breaks. */
  function BreakText(s: State, c: Cell): State {
    if Breaks(s.tc, c.fg) then CloseText(s).(tx := c.posx, ty := c.posy) else s
  }

  /** draw_cb, last part: track the cell's colours and add its encoding and its width. */
  function Append(s: State, c: Cell): State {
    s.(rc := c.bg, tc := c.fg, text := s.text + Encode(Glyph(c)), rw := s.rw + c.width)
  }

  /** draw_cb for one cell. */
  function Step(s: State, c: Cell, sink: Sink): State {
    Append(BreakText(BreakRect(EnterRow(s, c, sink), c), c), c)
  }

  /** The state f_draw sets up before the pass: all colours, origins and counters zero. */
  function Start(out: seq<Line>): State {
    State(Black, Black, 0, 0, 0, 0, 0, [], [], [], out)
  }

  /** draw_cb applied to every cell of the stream, in order. */
  function Run(s: State, cells: seq<Cell>, sink: Sink): State
    decreases |cells|
  {
    if cells == [] then s
    else Step(Run(s, cells[..|cells| - 1], sink), cells[|cells| - 1], sink)
  }

  /** f_draw: set up, feed every cell, then flush the last row. */
  function Pass(cells: seq<Cell>, sink: Sink, out: seq<Line>): State {
    Flush(Run(Start(out), cells, sink), sink)
  }

  // ---------------------------------------------------------------------
  // Reference definitions: what a row is and what it should add up to.

  /** The total display width of some cells. */
  function SumWidth(cells: seq<Cell>): nat
    decreases |cells|
  {
    if cells == [] then 0 else SumWidth(cells[..|cells| - 1]) + cells[|cells| - 1].width
  }

  /** The codepoints some cells draw, blanks as spaces. */
  function Glyphs(cells: seq<Cell>): (r: seq<Scalar>)
    ensures |r| == |cells|
    ensures forall i :: 0 <= i < |cells| ==> r[i] == Glyph(cells[i])
  {
    seq(|cells|, i requires 0 <= i < |cells| => Glyph(cells[i]))
  }

  /** The UTF-8 text some cells draw. */
  function RowText(cells: seq<Cell>): seq<byte> {
    EncodeAll(Glyphs(cells))
  }

  /** The total width of some rectangles. */
  function SumW(rects: seq<Rect>): nat
    decreases |rects|
  {
    if rects == [] then 0 else SumW(rects[..|rects| - 1]) + rects[|rects| - 1].w
  }

  /** The texts of some runs, concatenated in order. */
  function Texts(runs: seq<TextRun>): seq<byte>
    decreases |runs|
  {
    if runs == [] then [] else Texts(runs[..|runs| - 1]) + runs[|runs| - 1].text
  }

  /** The groups of a sequence of groups, concatenated in order. */
  function Flatten(groups: seq<seq<Cell>>): seq<Cell>
    decreases |groups|
  {
    if groups == [] then [] else Flatten(groups[..|groups| - 1]) + groups[|groups| - 1]
  }

  /** The row the stream is on after `cells`, starting on row `y0`. */
  function CurY(cells: seq<Cell>, y0: nat): nat {
    if cells == [] then y0 else cells[|cells| - 1].posy
  }

  /** The row a group of cells lies on (`y0` for the empty first group). */
  function RowOf(group: seq<Cell>, y0: nat): nat {
    if group == [] then y0 else group[0].posy
  }

  /**
   * The rows of a stream that starts on row `y0`: the stream cut wherever
   * the row changes. The first group holds the cells on row `y0` before the
   * first change and may be empty; every other group is non-empty
   * (RowsPartition).
   */
  function Rows(cells: seq<Cell>, y0: nat): (r: seq<seq<Cell>>)
    decreases |cells|
    ensures |r| >= 1
  {
    if cells == [] then [[]]
    else
      var init, c := cells[..|cells| - 1], cells[|cells| - 1];
      var g := Rows(init, y0);
      if c.posy == CurY(init, y0) then g[..|g| - 1] + [g[|g| - 1] + [c]]
      else g + [[c]]
  }

  /** A cell on the current row joins the last group. */
  lemma RowsSameRow(init: seq<Cell>, c: Cell, y0: nat)
    requires c.posy == CurY(init, y0)
    ensures var g := Rows(init, y0);
      Rows(init + [c], y0) == g[..|g| - 1] + [g[|g| - 1] + [c]]
  {
    assert (init + [c])[..|init|] == init;
  }

  /** A cell on another row starts a group of its own. */
  lemma RowsNewRow(init: seq<Cell>, c: Cell, y0: nat)
    requires c.posy != CurY(init, y0)
    ensures Rows(init + [c], y0) == Rows(init, y0) + [[c]]
  {
    assert (init + [c])[..|init|] == init;
  }

  /** All cells of a group lie on the group's row. */
  ghost predicate OnRow(group: seq<Cell>, y: nat) {
    forall i :: 0 <= i < |group| ==> group[i].posy == y
  }

  /** Concatenating the rows gives back the stream. */
  lemma {:induction false} RowsFlatten(cells: seq<Cell>, y0: nat)
    ensures Flatten(Rows(cells, y0)) == cells
    decreases |cells|
  {
    if cells != [] {
      var init, c := cells[..|cells| - 1], cells[|cells| - 1];
      RowsFlatten(init, y0);
      var g := Rows(init, y0);
      assert init + [c] == cells;
      if c.posy == CurY(init, y0) {
        RowsSameRow(init, c, y0);
        FlattenExtendLast(g[..|g| - 1], g[|g| - 1], c);
        assert g[..|g| - 1] + [g[|g| - 1]] == g;
      } else {
        RowsNewRow(init, c, y0);
        FlattenSnoc(g, [c]);
      }
    }
  }

  lemma FlattenSnoc(groups: seq<seq<Cell>>, group: seq<Cell>)
    ensures Flatten(groups + [group]) == Flatten(groups) + group
  {
    assert (groups + [group])[..|groups|] == groups;
  }

  /** Adding a cell to the last group adds it at the end of the flattening. */
  lemma FlattenExtendLast(front: seq<seq<Cell>>, last: seq<Cell>, c: Cell)
    ensures Flatten(front + [last + [c]]) == Flatten(front + [last]) + [c]
  {
    FlattenSnoc(front, last + [c]);
    FlattenSnoc(front, last);
    var f := Flatten(front);
    assert f + (last + [c]) == (f + last) + [c];
  }

  /**
   * The last row is the row the stream is on; it is empty only for an empty
   * stream, and then ends with the stream's last cell.
   */
  lemma {:induction false} RowsLast(cells: seq<Cell>, y0: nat)
    ensures var r := Rows(cells, y0);
      && RowOf(r[|r| - 1], y0) == CurY(cells, y0)
      && (cells != [] ==> r[|r| - 1] != [] && r[|r| - 1][|r[|r| - 1]| - 1] == cells[|cells| - 1])
    decreases |cells|
  {
    if cells != [] {
      RowsLast(cells[..|cells| - 1], y0);
    }
  }

  /**
   * Rows cuts the stream into maximal same-row groups: each group lies on
   * one row, neighbouring groups lie on different rows, and only the first
   * group may be empty.
   */
  lemma {:induction false} RowsPartition(cells: seq<Cell>, y0: nat)
    ensures var r := Rows(cells, y0);
      && (forall k :: 0 < k < |r| ==> r[k] != [])
      && (forall k :: 0 <= k < |r| ==> OnRow(r[k], RowOf(r[k], y0)))
      && (forall k :: 0 < k < |r| ==> RowOf(r[k], y0) != RowOf(r[k - 1], y0))
    decreases |cells|
  {
    if cells != [] {
      var init, c := cells[..|cells| - 1], cells[|cells| - 1];
      RowsPartition(init, y0);
      RowsLast(init, y0);
      var g := Rows(init, y0);
      var r := Rows(cells, y0);
      var n := |g|;
      if c.posy == CurY(init, y0) {
        assert r == g[..n - 1] + [g[n - 1] + [c]];
        forall k | 0 <= k < |r| ensures OnRow(r[k], RowOf(r[k], y0)) {
          if k < n - 1 { assert r[k] == g[k]; }
          else { assert OnRow(g[n - 1], RowOf(g[n - 1], y0)); }
        }
        forall k | 0 < k < |r| ensures RowOf(r[k], y0) != RowOf(r[k - 1], y0) {
          assert r[k - 1] == g[k - 1];
          if k < n - 1 { assert r[k] == g[k]; }
        }
      } else {
        assert r == g + [[c]];
        forall k | 0 <= k < |r| ensures OnRow(r[k], RowOf(r[k], y0)) {
          if k < n { assert r[k] == g[k]; }
        }
        forall k | 0 < k < |r| ensures RowOf(r[k], y0) != RowOf(r[k - 1], y0) {
          assert r[k - 1] == g[k - 1];
          if k < n { assert r[k] == g[k]; }
        }
      }
    }
  }

  // ---------------------------------------------------------------------
  // What a pass delivers.

  /** Every rectangle has positive width and lies on row `y`. */
  ghost predicate RectsOn(rects: seq<Rect>, y: nat) {
    forall i :: 0 <= i < |rects| ==> rects[i].w > 0 && rects[i].y == y
  }

  /** Every text run has some text and lies on row `y`. */
  ghost predicate RunsOn(runs: seq<TextRun>, y: nat) {
    forall i :: 0 <= i < |runs| ==> runs[i].text != [] && runs[i].y == y
  }

  /**
   * `line` accounts exactly for the cells `row` of row `y`: its rectangles'
   * widths add up to the cells' widths, its texts concatenated are the
   * cells' UTF-8 text, no rectangle is empty and no text is empty, and all
   * of them lie on row `y`.
   */
  ghost predicate Accounts(line: Line, row: seq<Cell>, y: nat) {
    && SumW(line.rects) == SumWidth(row)
    && Texts(line.runs) == RowText(row)
    && RectsOn(line.rects, y)
    && RunsOn(line.runs, y)
  }

  /**
   * The open state accounts for the cells `row` of row `y`: both runs are on
   * row `y`, and the closed runs plus the open ones add up to the row.
   */
  ghost predicate OpenOn(s: State, row: seq<Cell>, y: nat) {
    && s.ry == y && s.ty == y
    && SumW(s.rects) + s.rw == SumWidth(row)
    && Texts(s.runs) + s.text == RowText(row)
    && RectsOn(s.rects, y)
    && RunsOn(s.runs, y)
  }

  /** `out` is `out0` followed by one line per row of `rows`, each accounting for its row. */
  ghost predicate Delivered(out: seq<Line>, out0: seq<Line>, rows: seq<seq<Cell>>) {
    && |out| == |out0| + |rows|
    && out[..|out0|] == out0
    && forall k :: 0 <= k < |rows| ==> Accounts(out[|out0| + k], rows[k], RowOf(rows[k], 0))
  }

  /**
   * The state after feeding `cells` from Start(out0): the open state
   * accounts for the current row, and every earlier row was delivered (or
   * dropped, if the callback is not a function).
   */
  ghost predicate Midway(s: State, cells: seq<Cell>, sink: Sink, out0: seq<Line>) {
    var g := Rows(cells, 0);
    && OpenOn(s, g[|g| - 1], CurY(cells, 0))
    && (sink.NotFunction? ==> s.out == out0)
    && (sink.Function? ==> Delivered(s.out, out0, g[..|g| - 1]))
  }

  lemma SumWidthSnoc(row: seq<Cell>, c: Cell)
    ensures SumWidth(row + [c]) == SumWidth(row) + c.width
  {
    assert (row + [c])[..|row|] == row;
  }

  lemma RowTextSnoc(row: seq<Cell>, c: Cell)
    ensures RowText(row + [c]) == RowText(row) + Encode(Glyph(c))
  {
    assert Glyphs(row + [c]) == Glyphs(row) + [Glyph(c)];
    EncodeAllSnoc(Glyphs(row), Glyph(c));
  }

  lemma SumWSnoc(rects: seq<Rect>, r: Rect)
    ensures SumW(rects + [r]) == SumW(rects) + r.w
  {
    assert (rects + [r])[..|rects|] == rects;
  }

  lemma TextsSnoc(runs: seq<TextRun>, r: TextRun)
    ensures Texts(runs + [r]) == Texts(runs) + r.text
  {
    assert (runs + [r])[..|runs|] == runs;
  }

  /** An open state that accounts for a row is a pending line that accounts for it. */
  lemma OpenPending(s: State, row: seq<Cell>, y: nat)
    requires OpenOn(s, row, y)
    ensures Accounts(Pending(s), row, y)
  {
    var r := CloseRect(s);
    CloseRectOn(s, row, y, s.rx);
    assert CloseRect(s).(rx := s.rx, ry := y) == r;
    var t := CloseText(r);
    CloseTextOn(r, row, y, r.tx);
    assert CloseText(r).(tx := r.tx, ty := y) == t;
    ClosedAccounts(t, row, y);
  }

  /** With both runs closed, the closed lists alone account for the row. */
  lemma ClosedAccounts(t: State, row: seq<Cell>, y: nat)
    requires OpenOn(t, row, y) && t.rw == 0 && t.text == []
    ensures Accounts(Line(t.rects, t.runs), row, y)
  {
    assert Texts(t.runs) + t.text == Texts(t.runs);
  }

  /** add_rect keeps the row's accounts, wherever the next run starts on the row. */
  lemma CloseRectOn(s: State, row: seq<Cell>, y: nat, x: nat)
    requires OpenOn(s, row, y)
    ensures OpenOn(CloseRect(s).(rx := x, ry := y), row, y)
  {
    if s.rw != 0 { SumWSnoc(s.rects, Rect(s.rx, s.ry, s.rw, s.rc)); }
  }

  /** add_textrun keeps the row's accounts, wherever the next run starts on the row. */
  lemma CloseTextOn(s: State, row: seq<Cell>, y: nat, x: nat)
    requires OpenOn(s, row, y)
    ensures OpenOn(CloseText(s).(tx := x, ty := y), row, y)
  {
    if |s.text| != 0 { TextsSnoc(s.runs, TextRun(s.tx, s.ty, s.text, s.tc)); }
  }

  /** Appending a cell's width and encoding accounts for that cell. */
  lemma AppendOn(s: State, row: seq<Cell>, y: nat, c: Cell)
    requires OpenOn(s, row, y)
    ensures OpenOn(Append(s, c), row + [c], y)
  {
    SumWidthSnoc(row, c);
    RowTextSnoc(row, c);
  }

  /** What a flush hands to the callback, and that nothing else is delivered. */
  lemma FlushDelivers(s: State, sink: Sink)
    ensures Flush(s, sink).out == if sink.Function? then s.out + [Pending(s)] else s.out
    ensures Flush(s, sink).rw == 0 && Flush(s, sink).text == []
  {
  }

  /**
   * A cell on the current row extends the open state by exactly its width
   * and its encoding, and delivers nothing.
   */
  lemma {:induction false} StepSameRow(s: State, c: Cell, sink: Sink, row: seq<Cell>, y: nat)
    requires c.posy == y
    requires OpenOn(s, row, y)
    ensures Step(s, c, sink).out == s.out
    ensures OpenOn(Step(s, c, sink), row + [c], y)
  {
    var s2 := BreakRect(s, c);
    if Breaks(s.rc, c.bg) { CloseRectOn(s, row, y, c.posx); }
    var s3 := BreakText(s2, c);
    if Breaks(s2.tc, c.fg) { CloseTextOn(s2, row, y, c.posx); }
    AppendOn(s3, row, y, c);
  }

  /**
   * A cell on another row flushes the previous row and starts an open state
   * that accounts for just this cell.
   */
  lemma {:induction false} StepNewRow(s: State, c: Cell, sink: Sink)
    requires c.posy != s.ry
    ensures Step(s, c, sink).out == Flush(s, sink).out
    ensures OpenOn(Step(s, c, sink), [c], c.posy)
  {
    var y := c.posy;
    var s1 := EnterRow(s, c, sink);
    assert OpenOn(s1, [], y);
    var s2 := BreakRect(s1, c);
    if Breaks(s1.rc, c.bg) { CloseRectOn(s1, [], y, c.posx); }
    var s3 := BreakText(s2, c);
    if Breaks(s2.tc, c.fg) { CloseTextOn(s2, [], y, c.posx); }
    AppendOn(s3, [], y, c);
    assert [] + [c] == [c];
  }

  /** Feeding one more cell keeps Midway, on the same row. */
  lemma MidwaySameRow(s: State, init: seq<Cell>, c: Cell, sink: Sink, out0: seq<Line>)
    requires Midway(s, init, sink, out0)
    requires c.posy == CurY(init, 0)
    ensures Midway(Step(s, c, sink), init + [c], sink, out0)
  {
    var g := Rows(init, 0);
    StepSameRow(s, c, sink, g[|g| - 1], c.posy);
    MidwayExtendSame(s, Step(s, c, sink), init, c, sink, out0);
  }

  /** Midway after a cell on the current row, from what the step did: the open state accounts for the cell too. */
  lemma MidwayExtendSame(s: State, t: State, init: seq<Cell>, c: Cell, sink: Sink, out0: seq<Line>)
    requires Midway(s, init, sink, out0)
    requires c.posy == CurY(init, 0)
    requires var g := Rows(init, 0); OpenOn(t, g[|g| - 1] + [c], c.posy)
    requires t.out == s.out
    ensures Midway(t, init + [c], sink, out0)
  {
    var g := Rows(init, 0);
    var n := |g|;
    var r := g[..n - 1] + [g[n - 1] + [c]];
    RowsSameRow(init, c, 0);
    assert r[..n - 1] == g[..n - 1];
  }

  /** Feeding one more cell keeps Midway, on a new row. */
  lemma MidwayNewRow(s: State, init: seq<Cell>, c: Cell, sink: Sink, out0: seq<Line>)
    requires Midway(s, init, sink, out0)
    requires c.posy != CurY(init, 0)
    ensures Midway(Step(s, c, sink), init + [c], sink, out0)
  {
    StepNewRow(s, c, sink);
    FlushDelivers(s, sink);
    MidwayExtendNew(s, Step(s, c, sink), init, c, sink, out0);
  }

  /**
   * Midway after the first cell of a new row, from what the step did: the
   * open state accounts for the cell, and the row it closes was delivered.
   */
  lemma MidwayExtendNew(s: State, t: State, init: seq<Cell>, c: Cell, sink: Sink, out0: seq<Line>)
    requires Midway(s, init, sink, out0)
    requires c.posy != CurY(init, 0)
    requires OpenOn(t, [c], c.posy)
    requires t.out == if sink.Function? then s.out + [Pending(s)] else s.out
    ensures Midway(t, init + [c], sink, out0)
  {
    var g := Rows(init, 0);
    var r := g + [[c]];
    RowsNewRow(init, c, 0);
    assert r[..|g|] == g;
    if sink.Function? {
      DeliverLast(s, init, sink, out0);
    }
  }

  /** Flushing midway delivers the current row after the earlier ones. */
  lemma DeliverLast(s: State, init: seq<Cell>, sink: Sink, out0: seq<Line>)
    requires Midway(s, init, sink, out0) && sink.Function?
    ensures Delivered(s.out + [Pending(s)], out0, Rows(init, 0))
  {
    var g := Rows(init, 0);
    var n := |g|;
    RowsLast(init, 0);
    OpenPending(s, g[n - 1], CurY(init, 0));
    DeliveredSnoc(s.out, out0, g[..n - 1], Pending(s), g[n - 1]);
    assert g[..n - 1] + [g[n - 1]] == g;
  }

  /** Midway holds before the first cell and after every cell. */
  lemma {:induction false} RunMidway(cells: seq<Cell>, sink: Sink, out0: seq<Line>)
    ensures Midway(Run(Start(out0), cells, sink), cells, sink, out0)
    decreases |cells|
  {
    if cells == [] {
      assert OpenOn(Start(out0), [], 0);
    } else {
      var init, c := cells[..|cells| - 1], cells[|cells| - 1];
      assert init + [c] == cells;
      RunMidway(init, sink, out0);
      var s := Run(Start(out0), init, sink);
      if c.posy == CurY(init, 0) {
        MidwaySameRow(s, init, c, sink, out0);
      } else {
        MidwayNewRow(s, init, c, sink, out0);
      }
    }
  }

  /** Delivering one more line that accounts for the next row extends Delivered. */
  lemma DeliveredSnoc(out: seq<Line>, out0: seq<Line>, rows: seq<seq<Cell>>, line: Line, row: seq<Cell>)
    requires Delivered(out, out0, rows)
    requires Accounts(line, row, RowOf(row, 0))
    ensures Delivered(out + [line], out0, rows + [row])
  {
    var out', rows' := out + [line], rows + [row];
    forall k | 0 <= k < |rows'| ensures Accounts(out'[|out0| + k], rows'[k], RowOf(rows'[k], 0)) {
      if k < |rows| {
        assert out'[|out0| + k] == out[|out0| + k] && rows'[k] == rows[k];
      }
    }
    assert out'[..|out0|] == out[..|out0|];
  }

  /**
   * Conservation per row. When the callback is a function, a pass delivers
   * exactly one line per row of the stream (the first row being row 0, on
   * which the engine starts), after whatever was delivered before; each
   * line's rectangle widths add up to the row's cell widths, its texts
   * concatenate to the row's UTF-8 text, and no rectangle or text is empty.
   */
  lemma PassDeliversRows(cells: seq<Cell>, raises: Line -> bool, out0: seq<Line>)
    ensures Delivered(Pass(cells, Function(raises), out0).out, out0, Rows(cells, 0))
  {
    var sink := Function(raises);
    var s := Run(Start(out0), cells, sink);
    RunMidway(cells, sink, out0);
    FlushDelivers(s, sink);
    DeliverLast(s, cells, sink, out0);
  }

  /** When the callback is not a function, a pass delivers nothing. */
  lemma PassWithoutFunction(cells: seq<Cell>, out0: seq<Line>)
    ensures Pass(cells, NotFunction, out0).out == out0
  {
    RunMidway(cells, NotFunction, out0);
  }

  /**
   * One cell adds at most four bytes to the open text run, so a pass over
   * n cells never holds more than 4n bytes in the buffer.
   */
  lemma StepTextGrowth(s: State, c: Cell, sink: Sink)
    ensures |Step(s, c, sink).text| <= |s.text| + 4
  {
  }

  /** Feeding one more cell is one more step. */
  lemma RunSnoc(s: State, cells: seq<Cell>, c: Cell, sink: Sink)
    ensures Run(s, cells + [c], sink) == Step(Run(s, cells, sink), c, sink)
  {
    assert (cells + [c])[..|cells|] == cells;
  }

  // ---------------------------------------------------------------------
  // One cell at a time.

  /** After every cell the tracked colours are that cell's, whether or not a run was closed. */
  lemma StepTracksColors(s: State, c: Cell, sink: Sink)
    ensures Step(s, c, sink).rc == c.bg && Step(s, c, sink).tc == c.fg
  {
  }

  /**
   * The background break rule on the current row: the open run is closed
   * (and appended, when it has width) exactly when all three channels of
   * the cell's background differ from the tracked colour; the new run then
   * starts at the cell. Otherwise the cell extends the open run. Either
   * way the cell's width is added.
   */
  lemma StepBackground(s: State, c: Cell, sink: Sink)
    requires c.posy == s.ry
    ensures var t := Step(s, c, sink);
      && (Breaks(s.rc, c.bg) ==>
            && t.rects == (if s.rw > 0 then s.rects + [Rect(s.rx, s.ry, s.rw, s.rc)] else s.rects)
            && t.rx == c.posx && t.rw == c.width)
      && (!Breaks(s.rc, c.bg) ==> t.rects == s.rects && t.rx == s.rx && t.rw == s.rw + c.width)
  {
  }

  /**
   * The foreground break rule on the current row, independent of the
   * background: the open text run is closed (and appended, when it has
   * bytes) exactly when all three channels of the cell's foreground differ;
   * the cell's encoding is then the whole new run, and otherwise it is
   * appended to the open run.
   */
  lemma StepForeground(s: State, c: Cell, sink: Sink)
    requires c.posy == s.ry
    ensures var t := Step(s, c, sink);
      && (Breaks(s.tc, c.fg) ==>
            && t.runs == (if s.text != [] then s.runs + [TextRun(s.tx, s.ty, s.text, s.tc)] else s.runs)
            && t.tx == c.posx && t.text == Encode(Glyph(c)))
      && (!Breaks(s.tc, c.fg) ==> t.runs == s.runs && t.tx == s.tx && t.text == s.text + Encode(Glyph(c)))
  {
  }

  /**
   * A colour change in one or two channels only does not close a run: the
   * cell joins the open background run, which keeps its origin.
   */
  lemma PartialChangeKeepsRun(s: State, c: Cell, sink: Sink)
    requires c.posy == s.ry
    requires c.bg.r == s.rc.r || c.bg.g == s.rc.g || c.bg.b == s.rc.b
    ensures Step(s, c, sink).rects == s.rects && Step(s, c, sink).rx == s.rx
    ensures Step(s, c, sink).rw == s.rw + c.width
  {
    StepBackground(s, c, sink);
  }

  /**
   * A foreground change in one or two channels does not close the text run
   * either: the cell's encoding joins the open run, and the run now carries
   * the cell's colour, which is the colour a flush delivers it in. The text
   * of the earlier cells loses its own colour.
   */
  lemma PartialChangeRecolours(s: State, c: Cell, sink: Sink)
    requires c.posy == s.ry
    requires c.fg.r == s.tc.r || c.fg.g == s.tc.g || c.fg.b == s.tc.b
    ensures var t := Step(s, c, sink);
      && t.runs == s.runs && t.tc == c.fg
      && Pending(t).runs == s.runs + [TextRun(s.tx, s.ty, s.text + Encode(Glyph(c)), c.fg)]
  {
    StepForeground(s, c, sink);
  }

  const White := Rgb(255, 255, 255)
  const Red := Rgb(255, 0, 0)

  /**
   * An instance of the rule above: "a" in white and then "b" in red on one
   * black row. White and red share their red channel, so one text run holds
   * both letters and the callback receives it in red.
   */
  lemma PassRecoloursEarlierText(raises: Line -> bool)
    ensures var a, b := Cell([0x61], 1, 0, 0, White, Black), Cell([0x62], 1, 1, 0, Red, Black);
      Pass([a, b], Function(raises), []).out == [Line([Rect(0, 0, 2, Black)], [TextRun(0, 0, [0x61, 0x62], Red)])]
  {
    var a, b := Cell([0x61], 1, 0, 0, White, Black), Cell([0x62], 1, 1, 0, Red, Black);
    var sink := Function(raises);
    var s1 := Step(Start([]), a, sink);
    assert s1 == State(Black, White, 0, 0, 1, 0, 0, [0x61], [], [], []);
    var s2 := Step(s1, b, sink);
    assert s2 == State(Black, Red, 0, 0, 2, 0, 0, [0x61, 0x62], [], [], []);
    assert [a][..0] == [];
    assert Run(Start([]), [a], sink) == s1;
    assert [a, b][..1] == [a];
    assert Run(Start([]), [a, b], sink) == s2;
    var r := CloseRect(s2);
    assert r.rects == [Rect(0, 0, 2, Black)] && r.runs == [] && r.text == [0x61, 0x62];
    assert CloseText(r).runs == [TextRun(0, 0, [0x61, 0x62], Red)];
    assert Flush(s2, sink).out == [Line([Rect(0, 0, 2, Black)], [TextRun(0, 0, [0x61, 0x62], Red)])];
  }

  /**
   * The engine starts with both origins at column 0 of row 0, and only a
   * break or a row change moves them. So when the first cell lies on row 0
   * and its background breaks nothing against the start colour, the first
   * rectangle still begins at column 0, whatever the cell's column.
   */
  lemma StartAnchorsRect(c: Cell, sink: Sink, out0: seq<Line>)
    requires c.posy == 0 && !Breaks(Black, c.bg)
    ensures var t := Step(Start(out0), c, sink);
      t.rx == 0 && t.rw == c.width && t.rects == [] && t.out == out0
  {
  }

  /**
   * An instance: a white "a" on black at column 3 of row 0 is delivered as
   * a rectangle from column 0, one column wide, and a text run at column 3.
   * The foreground breaks against the start colour and moves the text
   * origin; the background does not and leaves the rectangle at column 0.
   */
  lemma PassLeadingColumnsAnchored(raises: Line -> bool)
    ensures var a := Cell([0x61], 1, 3, 0, White, Black);
      Pass([a], Function(raises), []).out == [Line([Rect(0, 0, 1, Black)], [TextRun(3, 0, [0x61], White)])]
  {
    var a := Cell([0x61], 1, 3, 0, White, Black);
    var sink := Function(raises);
    var s1 := Step(Start([]), a, sink);
    StartAnchorsRect(a, sink, []);
    assert s1 == State(Black, White, 0, 0, 1, 3, 0, [0x61], [], [], []);
    assert [a][..0] == [];
    assert Run(Start([]), [a], sink) == s1;
    var r := CloseRect(s1);
    assert r.rects == [Rect(0, 0, 1, Black)] && r.runs == [] && r.text == [0x61];
    assert CloseText(r).runs == [TextRun(3, 0, [0x61], White)];
    assert Flush(s1, sink).out == [Line([Rect(0, 0, 1, Black)], [TextRun(3, 0, [0x61], White)])];
  }

  /** A cell on the current row delivers nothing. */
  lemma StepKeepsOut(s: State, c: Cell, sink: Sink)
    requires c.posy == s.ry
    ensures Step(s, c, sink).out == s.out
  {
  }

  /** A cell on the current row enters no new row. */
  lemma StepOnRow(s: State, c: Cell, sink: Sink)
    requires c.posy == s.ry
    ensures Step(s, c, sink) == Append(BreakText(BreakRect(s, c), c), c)
  {
  }

  /**
   * A row change hands the previous row to the callback (when it is a
   * function) and starts both runs and both lists afresh at the cell.
   */
  lemma StepRowChange(s: State, c: Cell, sink: Sink)
    requires c.posy != s.ry
    ensures var t := Step(s, c, sink);
      && t.out == (if sink.Function? then s.out + [Pending(s)] else s.out)
      && t.rects == [] && t.runs == []
      && t.rx == c.posx && t.ry == c.posy && t.tx == c.posx && t.ty == c.posy
      && t.rw == c.width && t.text == Encode(Glyph(c))
  {
    FlushDelivers(s, sink);
  }

  // ---------------------------------------------------------------------
  // Consequences for whole passes.

  /** Rectangles of positive width cover a positive width. */
  lemma SumWPositive(rects: seq<Rect>, y: nat)
    ensures rects != [] && RectsOn(rects, y) ==> SumW(rects) > 0
  {
  }

  /** Non-empty texts concatenate to a non-empty text. */
  lemma TextsNonEmpty(runs: seq<TextRun>, y: nat)
    ensures runs != [] && RunsOn(runs, y) ==> Texts(runs) != []
  {
  }

  /** A line that accounts for no cells is empty. */
  lemma AccountsEmpty(line: Line, y: nat)
    requires Accounts(line, [], y)
    ensures line == Line([], [])
  {
    SumWPositive(line.rects, y);
    TextsNonEmpty(line.runs, y);
  }

  /** A pass over no cells still calls the callback once, with two empty lists. */
  lemma PassEmptyStream(raises: Line -> bool, out0: seq<Line>)
    ensures Pass([], Function(raises), out0).out == out0 + [Line([], [])]
  {
  }

  /** The first row, when it has cells, is the row the stream starts on. */
  lemma {:induction false} RowsFirst(cells: seq<Cell>, y0: nat)
    ensures Rows(cells, y0)[0] == [] || Rows(cells, y0)[0][0].posy == y0
    decreases |cells|
  {
    if cells != [] {
      var init, c := cells[..|cells| - 1], cells[|cells| - 1];
      RowsFirst(init, y0);
      RowsFlatten(init, y0);
      var g := Rows(init, y0);
      if |g| == 1 && g[0] == [] {
        assert Flatten(g) == Flatten(g[..0]) + g[0] == [];
        assert init == [];
      }
    }
  }

  /** A stream whose first cell is not on row 0 has an empty first row. */
  lemma RowsLeadingEmpty(cells: seq<Cell>)
    requires cells != [] && cells[0].posy != 0
    ensures Rows(cells, 0)[0] == []
  {
    RowsFirst(cells, 0);
    RowsFlatten(cells, 0);
    FlattenHead(Rows(cells, 0));
  }

  /**
   * A stream whose first cell is not on row 0 first delivers an empty line
   * for row 0, where the engine starts.
   */
  lemma PassLeadingEmptyRow(cells: seq<Cell>, raises: Line -> bool, out0: seq<Line>)
    requires cells != [] && cells[0].posy != 0
    ensures var out := Pass(cells, Function(raises), out0).out;
      |out| > |out0| && out[|out0|] == Line([], [])
  {
    PassDeliversRows(cells, raises, out0);
    RowsLeadingEmpty(cells);
    AccountsEmpty(Pass(cells, Function(raises), out0).out[|out0|], 0);
  }

  /** The first cell of a flattened sequence of groups is the first cell of its first group. */
  lemma {:induction false} FlattenHead(groups: seq<seq<Cell>>)
    ensures groups != [] && groups[0] != [] ==> Flatten(groups) != [] && Flatten(groups)[0] == groups[0][0]
    decreases |groups|
  {
    if |groups| > 1 {
      FlattenHead(groups[..|groups| - 1]);
    }
  }

  /**
   * Round trip: decoding the concatenated texts of each delivered line
   * gives back the codepoints its row's cells draw, blanks as spaces.
   */
  lemma PassTextRoundTrip(cells: seq<Cell>, raises: Line -> bool, out0: seq<Line>, k: nat)
    requires k < |Rows(cells, 0)|
    ensures var out := Pass(cells, Function(raises), out0).out;
      |out0| + k < |out| && DecodeAll(Texts(out[|out0| + k].runs)) == Some(Glyphs(Rows(cells, 0)[k]))
  {
    PassDeliversRows(cells, raises, out0);
    DecodeEncodeAll(Glyphs(Rows(cells, 0)[k]));
  }

  // ---------------------------------------------------------------------
  // Ordering within a row.

  /** A line's rectangles, and separately its text runs, start at strictly increasing columns. */
  ghost predicate Increasing(line: Line) {
    && (forall i, j :: 0 <= i < j < |line.rects| ==> line.rects[i].x < line.rects[j].x)
    && (forall i, j :: 0 <= i < j < |line.runs| ==> line.runs[i].x < line.runs[j].x)
  }

  /** Within each row, the cells come at strictly increasing columns. */
  ghost predicate ColumnsIncrease(cells: seq<Cell>) {
    forall i :: 0 < i < |cells| && cells[i].posy == cells[i - 1].posy ==> cells[i - 1].posx < cells[i].posx
  }

  /**
   * The closed rectangles of the row so far start at increasing columns,
   * all left of the open run, which starts no later than the row's last
   * cell (at column 0 before any cell).
   */
  ghost predicate RectsOrdered(s: State, row: seq<Cell>) {
    && (forall i, j :: 0 <= i < j < |s.rects| ==> s.rects[i].x < s.rects[j].x)
    && (forall i :: 0 <= i < |s.rects| ==> s.rects[i].x < s.rx)
    && (row == [] ==> s.rx == 0)
    && (row != [] ==> s.rx <= row[|row| - 1].posx)
  }

  /** The same for the text runs and the open text run. */
  ghost predicate RunsOrdered(s: State, row: seq<Cell>) {
    && (forall i, j :: 0 <= i < j < |s.runs| ==> s.runs[i].x < s.runs[j].x)
    && (forall i :: 0 <= i < |s.runs| ==> s.runs[i].x < s.tx)
    && (row == [] ==> s.tx == 0)
    && (row != [] ==> s.tx <= row[|row| - 1].posx)
  }

  /** An ordered open state gives an ordered pending line. */
  lemma OrderedPending(s: State, row: seq<Cell>)
    requires RectsOrdered(s, row) && RunsOrdered(s, row)
    ensures Increasing(Pending(s))
  {
  }

  /** Nothing open and nothing closed. */
  ghost predicate Blank(s: State) {
    s.rw == 0 && s.rects == [] && s.text == [] && s.runs == []
  }

  /** An open state that accounts for no cells is blank. */
  lemma OpenOnEmpty(s: State, row: seq<Cell>, y: nat)
    requires OpenOn(s, row, y)
    ensures row == [] ==> Blank(s)
  {
    if row == [] {
      SumWPositive(s.rects, y);
      TextsNonEmpty(s.runs, y);
    }
  }

  /** The background part of a step on the current row keeps the rectangles ordered. */
  lemma RectsOrderedBreak(s: State, c: Cell, row: seq<Cell>)
    requires RectsOrdered(s, row) && (row == [] ==> s.rw == 0 && s.rects == [])
    requires row != [] ==> row[|row| - 1].posx < c.posx
    ensures var t := BreakRect(s, c);
      && (forall i, j :: 0 <= i < j < |t.rects| ==> t.rects[i].x < t.rects[j].x)
      && (forall i :: 0 <= i < |t.rects| ==> t.rects[i].x < t.rx)
      && t.rx <= c.posx
  {
    if Breaks(s.rc, c.bg) && s.rw != 0 {
      assert BreakRect(s, c).rects == s.rects + [Rect(s.rx, s.ry, s.rw, s.rc)];
    }
  }

  /** The foreground part of a step on the current row keeps the text runs ordered. */
  lemma RunsOrderedBreak(s: State, c: Cell, row: seq<Cell>)
    requires RunsOrdered(s, row) && (row == [] ==> s.text == [] && s.runs == [])
    requires row != [] ==> row[|row| - 1].posx < c.posx
    ensures var t := BreakText(s, c);
      && (forall i, j :: 0 <= i < j < |t.runs| ==> t.runs[i].x < t.runs[j].x)
      && (forall i :: 0 <= i < |t.runs| ==> t.runs[i].x < t.tx)
      && t.tx <= c.posx
  {
    if Breaks(s.tc, c.fg) && s.text != [] {
      assert BreakText(s, c).runs == s.runs + [TextRun(s.tx, s.ty, s.text, s.tc)];
    }
  }

  /** A cell further right on the current row keeps both lists ordered. */
  lemma OrderedSameRow(s: State, c: Cell, sink: Sink, row: seq<Cell>)
    requires (row == [] ==> Blank(s)) && RectsOrdered(s, row) && RunsOrdered(s, row) && c.posy == s.ry
    requires row != [] ==> row[|row| - 1].posx < c.posx
    ensures RectsOrdered(Step(s, c, sink), row + [c]) && RunsOrdered(Step(s, c, sink), row + [c])
  {
    StepOnRow(s, c, sink);
    RectsOrderedBreak(s, c, row);
    RunsOrderedBreak(BreakRect(s, c), c, row);
  }

  /** The first cell of a new row starts both lists ordered. */
  lemma OrderedNewRow(s: State, c: Cell, sink: Sink)
    requires c.posy != s.ry
    ensures RectsOrdered(Step(s, c, sink), [c]) && RunsOrdered(Step(s, c, sink), [c])
  {
    StepRowChange(s, c, sink);
  }

  /** The ordering part of the state after feeding `cells` from Start(out0). */
  ghost predicate MidwayOrdered(s: State, cells: seq<Cell>, out0: seq<Line>) {
    var g := Rows(cells, 0);
    && RectsOrdered(s, g[|g| - 1]) && RunsOrdered(s, g[|g| - 1])
    && |out0| <= |s.out|
    && forall k :: |out0| <= k < |s.out| ==> Increasing(s.out[k])
  }

  /** Feeding one more cell on the same row, further right, keeps MidwayOrdered. */
  lemma MidwayOrderedSameRow(s: State, init: seq<Cell>, c: Cell, sink: Sink, out0: seq<Line>)
    requires var g := Rows(init, 0); (g[|g| - 1] == [] ==> Blank(s)) && s.ry == CurY(init, 0)
    requires MidwayOrdered(s, init, out0)
    requires c.posy == CurY(init, 0)
    requires init != [] ==> init[|init| - 1].posx < c.posx
    ensures MidwayOrdered(Step(s, c, sink), init + [c], out0)
  {
    var g := Rows(init, 0);
    var n := |g|;
    RowsLast(init, 0);
    OrderedSameRow(s, c, sink, g[n - 1]);
    StepKeepsOut(s, c, sink);
    OrderedExtend(s, Step(s, c, sink), init, c, out0);
  }

  /** Feeding the first cell of a new row keeps MidwayOrdered. */
  lemma MidwayOrderedNewRow(s: State, init: seq<Cell>, c: Cell, sink: Sink, out0: seq<Line>)
    requires s.ry == CurY(init, 0) && MidwayOrdered(s, init, out0)
    requires c.posy != CurY(init, 0)
    ensures MidwayOrdered(Step(s, c, sink), init + [c], out0)
  {
    var g := Rows(init, 0);
    OrderedNewRow(s, c, sink);
    OrderedPending(s, g[|g| - 1]);
    OrderedExtend(s, Step(s, c, sink), init, c, out0);
  }

  /**
   * MidwayOrdered after one more cell, from what the step did: the open
   * state is ordered for the new last row, and any line it delivered is
   * increasing.
   */
  lemma OrderedExtend(s: State, t: State, init: seq<Cell>, c: Cell, out0: seq<Line>)
    requires MidwayOrdered(s, init, out0)
    requires var g := Rows(init, 0);
      var last := if c.posy == CurY(init, 0) then g[|g| - 1] + [c] else [c];
      RectsOrdered(t, last) && RunsOrdered(t, last)
    requires t.out == s.out || (t.out == s.out + [Pending(s)] && Increasing(Pending(s)))
    ensures MidwayOrdered(t, init + [c], out0)
  {
    if c.posy == CurY(init, 0) {
      RowsSameRow(init, c, 0);
    } else {
      RowsNewRow(init, c, 0);
    }
    forall k | |out0| <= k < |t.out| ensures Increasing(t.out[k]) {
      if k < |s.out| {
        assert t.out[k] == s.out[k];
      }
    }
  }

  /** MidwayOrdered holds before the first cell and after every cell of a stream whose columns increase. */
  lemma {:induction false} RunOrdered(cells: seq<Cell>, sink: Sink, out0: seq<Line>)
    requires ColumnsIncrease(cells)
    ensures MidwayOrdered(Run(Start(out0), cells, sink), cells, out0)
    decreases |cells|
  {
    if cells != [] {
      var init, c := cells[..|cells| - 1], cells[|cells| - 1];
      assert init + [c] == cells;
      assert ColumnsIncrease(init);
      RunOrdered(init, sink, out0);
      OrderedStep(init, c, sink, out0);
    }
  }

  /** The inductive step of RunOrdered: one more cell, right of its row's last one. */
  lemma OrderedStep(init: seq<Cell>, c: Cell, sink: Sink, out0: seq<Line>)
    requires MidwayOrdered(Run(Start(out0), init, sink), init, out0)
    requires c.posy == CurY(init, 0) && init != [] ==> init[|init| - 1].posx < c.posx
    ensures MidwayOrdered(Step(Run(Start(out0), init, sink), c, sink), init + [c], out0)
  {
    RunMidway(init, sink, out0);
    var s := Run(Start(out0), init, sink);
    var g := Rows(init, 0);
    OpenOnEmpty(s, g[|g| - 1], CurY(init, 0));
    if c.posy == CurY(init, 0) {
      MidwayOrderedSameRow(s, init, c, sink, out0);
    } else {
      assert s.ry == CurY(init, 0);
      MidwayOrderedNewRow(s, init, c, sink, out0);
    }
  }

  /**
   * Ordering: when each row's cells come at increasing columns, every line a
   * pass delivers has its rectangles, and its text runs, at strictly
   * increasing start columns.
   */
  lemma PassIncreasing(cells: seq<Cell>, sink: Sink, out0: seq<Line>)
    requires ColumnsIncrease(cells)
    ensures var out := Pass(cells, sink, out0).out;
      |out0| <= |out| && forall k :: |out0| <= k < |out| ==> Increasing(out[k])
  {
    var s := Run(Start(out0), cells, sink);
    RunOrdered(cells, sink, out0);
    FlushDelivers(s, sink);
    var g := Rows(cells, 0);
    OrderedPending(s, g[|g| - 1]);
  }

  // ---------------------------------------------------------------------
  // How many runs a row is cut into.

  /** The number of neighbouring cells in `row` whose backgrounds break a run. */
  function BgBreaks(row: seq<Cell>): nat
    decreases |row|
  {
    if |row| <= 1 then 0
    else BgBreaks(row[..|row| - 1]) + (if Breaks(row[|row| - 2].bg, row[|row| - 1].bg) then 1 else 0)
  }

  /** The number of neighbouring cells in `row` whose foregrounds break a run. */
  function FgBreaks(row: seq<Cell>): nat
    decreases |row|
  {
    if |row| <= 1 then 0
    else FgBreaks(row[..|row| - 1]) + (if Breaks(row[|row| - 2].fg, row[|row| - 1].fg) then 1 else 0)
  }

  /** Every cell has a positive display width. */
  ghost predicate PositiveWidths(cells: seq<Cell>) {
    forall i :: 0 <= i < |cells| ==> cells[i].width > 0
  }

  /**
   * A line delivered for the non-empty `row` has one text run more than the
   * row has foreground breaks, the last of them in the colour of the row's
   * last cell. It has at most one rectangle more than the row has background
   * breaks, and when it has that many the last is in the row's last
   * background; when every cell of the row has a positive width, it has
   * exactly that many.
   */
  ghost predicate LineCounts(line: Line, row: seq<Cell>) {
    row != [] ==>
      && |line.runs| == FgBreaks(row) + 1
      && line.runs[|line.runs| - 1].color == row[|row| - 1].fg
      && |line.rects| <= BgBreaks(row) + 1
      && (|line.rects| == BgBreaks(row) + 1 ==> line.rects[|line.rects| - 1].color == row[|row| - 1].bg)
      && (PositiveWidths(row) ==> |line.rects| == BgBreaks(row) + 1)
  }

  /** The open state of a non-empty row: the counts so far and the tracked colours. */
  ghost predicate CountsOn(s: State, row: seq<Cell>) {
    row != [] ==>
      && s.tc == row[|row| - 1].fg && s.text != [] && |s.runs| == FgBreaks(row)
      && s.rc == row[|row| - 1].bg && |s.rects| <= BgBreaks(row)
      && (PositiveWidths(row) ==> s.rw > 0 && |s.rects| == BgBreaks(row))
  }

  /** A row of positive widths stays one when its last cell is dropped. */
  lemma PositiveWidthsInit(row: seq<Cell>, c: Cell)
    requires PositiveWidths(row + [c])
    ensures PositiveWidths(row) && c.width > 0
  {
    assert (row + [c])[|row|] == c;
    assert forall i :: 0 <= i < |row| ==> (row + [c])[i] == row[i];
  }

  lemma BgBreaksSnoc(row: seq<Cell>, c: Cell)
    ensures BgBreaks(row + [c]) == BgBreaks(row) + (if row != [] && Breaks(row[|row| - 1].bg, c.bg) then 1 else 0)
  {
    assert (row + [c])[..|row|] == row;
  }

  lemma FgBreaksSnoc(row: seq<Cell>, c: Cell)
    ensures FgBreaks(row + [c]) == FgBreaks(row) + (if row != [] && Breaks(row[|row| - 1].fg, c.fg) then 1 else 0)
  {
    assert (row + [c])[..|row|] == row;
  }

  lemma CountsPending(s: State, row: seq<Cell>)
    requires CountsOn(s, row)
    ensures LineCounts(Pending(s), row)
  {
  }

  /** A cell on the current row: one more run exactly when its colour breaks. */
  lemma CountsSameRow(s: State, c: Cell, sink: Sink, row: seq<Cell>, y: nat)
    requires (row == [] ==> Blank(s)) && CountsOn(s, row) && c.posy == y && s.ry == y
    ensures CountsOn(Step(s, c, sink), row + [c])
  {
    StepOnRow(s, c, sink);
    BgBreaksSnoc(row, c);
    FgBreaksSnoc(row, c);
    if PositiveWidths(row + [c]) {
      PositiveWidthsInit(row, c);
    }
  }

  /** The first cell of a new row: one run of each kind. */
  lemma CountsNewRow(s: State, c: Cell, sink: Sink)
    requires c.posy != s.ry
    ensures CountsOn(Step(s, c, sink), [c])
  {
    StepRowChange(s, c, sink);
    if PositiveWidths([c]) {
      assert [c][0].width > 0;
    }
  }

  /** The counting part of the state after feeding `cells` from Start(out0) with a callable sink. */
  ghost predicate MidwayCounts(s: State, cells: seq<Cell>, out0: seq<Line>) {
    var g := Rows(cells, 0);
    && CountsOn(s, g[|g| - 1])
    && CountsDelivered(s.out, out0, g[..|g| - 1])
  }

  /** After the first |out0| lines, `out` holds one line per row of `rows`, each with the counts of its row. */
  ghost predicate CountsDelivered(out: seq<Line>, out0: seq<Line>, rows: seq<seq<Cell>>) {
    && |out| == |out0| + |rows|
    && forall k :: 0 <= k < |rows| ==> LineCounts(out[|out0| + k], rows[k])
  }

  lemma CountsDeliveredSnoc(out: seq<Line>, out0: seq<Line>, rows: seq<seq<Cell>>, line: Line, row: seq<Cell>)
    requires CountsDelivered(out, out0, rows)
    requires LineCounts(line, row)
    ensures CountsDelivered(out + [line], out0, rows + [row])
  {
    var out', rows' := out + [line], rows + [row];
    forall k | 0 <= k < |rows'| ensures LineCounts(out'[|out0| + k], rows'[k]) {
      if k < |rows| {
        assert out'[|out0| + k] == out[|out0| + k] && rows'[k] == rows[k];
      }
    }
  }

  /** Feeding one more cell on the same row keeps MidwayCounts. */
  lemma MidwayCountsSameRow(s: State, init: seq<Cell>, c: Cell, raises: Line -> bool, out0: seq<Line>)
    requires var g := Rows(init, 0); (g[|g| - 1] == [] ==> Blank(s)) && s.ry == CurY(init, 0)
    requires MidwayCounts(s, init, out0)
    requires c.posy == CurY(init, 0)
    ensures MidwayCounts(Step(s, c, Function(raises)), init + [c], out0)
  {
    var g := Rows(init, 0);
    var n := |g|;
    CountsSameRow(s, c, Function(raises), g[n - 1], c.posy);
    StepKeepsOut(s, c, Function(raises));
    CountsExtendSame(s, Step(s, c, Function(raises)), init, c, out0);
  }

  /** Feeding the first cell of a new row keeps MidwayCounts. */
  lemma MidwayCountsNewRow(s: State, init: seq<Cell>, c: Cell, raises: Line -> bool, out0: seq<Line>)
    requires s.ry == CurY(init, 0) && MidwayCounts(s, init, out0)
    requires c.posy != CurY(init, 0)
    ensures MidwayCounts(Step(s, c, Function(raises)), init + [c], out0)
  {
    var g := Rows(init, 0);
    CountsNewRow(s, c, Function(raises));
    CountsPending(s, g[|g| - 1]);
    CountsExtendNew(s, Step(s, c, Function(raises)), init, c, out0);
  }

  /** MidwayCounts after a cell on the current row, from what the step did. */
  lemma CountsExtendSame(s: State, t: State, init: seq<Cell>, c: Cell, out0: seq<Line>)
    requires MidwayCounts(s, init, out0)
    requires c.posy == CurY(init, 0)
    requires var g := Rows(init, 0); CountsOn(t, g[|g| - 1] + [c])
    requires t.out == s.out
    ensures MidwayCounts(t, init + [c], out0)
  {
    var g := Rows(init, 0);
    var n := |g|;
    RowsSameRow(init, c, 0);
    var r := g[..n - 1] + [g[n - 1] + [c]];
    assert r[..|r| - 1] == g[..n - 1];
  }

  /**
   * MidwayCounts after the first cell of a new row, from what the step did:
   * the line it delivered counts the row it closes.
   */
  lemma CountsExtendNew(s: State, t: State, init: seq<Cell>, c: Cell, out0: seq<Line>)
    requires MidwayCounts(s, init, out0)
    requires c.posy != CurY(init, 0)
    requires CountsOn(t, [c])
    requires t.out == s.out + [Pending(s)]
    requires var g := Rows(init, 0); LineCounts(Pending(s), g[|g| - 1])
    ensures MidwayCounts(t, init + [c], out0)
  {
    var g := Rows(init, 0);
    var n := |g|;
    RowsNewRow(init, c, 0);
    var r := g + [[c]];
    CountsDeliveredSnoc(s.out, out0, g[..n - 1], Pending(s), g[n - 1]);
    assert g[..n - 1] + [g[n - 1]] == g;
    assert r[..|r| - 1] == g && r[|r| - 1] == [c];
  }

  /** MidwayCounts holds before the first cell and after every cell. */
  lemma {:induction false} RunCounts(cells: seq<Cell>, raises: Line -> bool, out0: seq<Line>)
    ensures MidwayCounts(Run(Start(out0), cells, Function(raises)), cells, out0)
    decreases |cells|
  {
    if cells != [] {
      var init, c := cells[..|cells| - 1], cells[|cells| - 1];
      assert init + [c] == cells;
      RunCounts(init, raises, out0);
      RunMidway(init, Function(raises), out0);
      var s := Run(Start(out0), init, Function(raises));
      var g := Rows(init, 0);
      OpenOnEmpty(s, g[|g| - 1], CurY(init, 0));
      if c.posy == CurY(init, 0) {
        MidwayCountsSameRow(s, init, c, raises, out0);
      } else {
        assert s.ry == CurY(init, 0);
        MidwayCountsNewRow(s, init, c, raises, out0);
      }
    }
  }

  /**
   * Run boundaries. Every non-empty row is delivered with exactly one more
   * text run than it has foreground breaks between neighbouring cells, the
   * last run in the colour of the row's last cell. The same holds of its
   * rectangles and the background when every cell of that row has a
   * positive width; otherwise there are at most that many rectangles.
   */
  lemma PassCounts(cells: seq<Cell>, raises: Line -> bool, out0: seq<Line>)
    ensures var out, g := Pass(cells, Function(raises), out0).out, Rows(cells, 0);
      |out| == |out0| + |g| && forall k :: 0 <= k < |g| ==> LineCounts(out[|out0| + k], g[k])
  {
    var s := Run(Start(out0), cells, Function(raises));
    RunCounts(cells, raises, out0);
    FlushDelivers(s, Function(raises));
    var g := Rows(cells, 0);
    var n := |g|;
    CountsPending(s, g[n - 1]);
    CountsDeliveredSnoc(s.out, out0, g[..n - 1], Pending(s), g[n - 1]);
    assert g[..n - 1] + [g[n - 1]] == g;
  }

  lemma {:induction false} BgBreaksUniform(row: seq<Cell>, b: Rgb)
    requires forall i :: 0 <= i < |row| ==> row[i].bg == b
    ensures BgBreaks(row) == 0
    decreases |row|
  {
    if |row| > 1 {
      BgBreaksUniform(row[..|row| - 1], b);
    }
  }

  lemma {:induction false} BgBreaksEverywhere(row: seq<Cell>)
    requires row != []
    requires forall i :: 1 <= i < |row| ==> Breaks(row[i - 1].bg, row[i].bg)
    ensures BgBreaks(row) == |row| - 1
    decreases |row|
  {
    if |row| > 1 {
      BgBreaksEverywhere(row[..|row| - 1]);
    }
  }

  /**
   * A row of positive total width whose cells all share one background is
   * delivered as a single rectangle in that colour, as wide as the row;
   * zero-width cells in it, such as the cell after a wide character, do
   * not split it.
   */
  lemma PassUniformBackground(cells: seq<Cell>, raises: Line -> bool, out0: seq<Line>, k: nat, b: Rgb)
    requires k < |Rows(cells, 0)| && SumWidth(Rows(cells, 0)[k]) > 0
    requires forall i :: 0 <= i < |Rows(cells, 0)[k]| ==> Rows(cells, 0)[k][i].bg == b
    ensures var out := Pass(cells, Function(raises), out0).out;
      |out| == |out0| + |Rows(cells, 0)| &&
      |out[|out0| + k].rects| == 1 &&
      out[|out0| + k].rects[0].color == b &&
      out[|out0| + k].rects[0].w == SumWidth(Rows(cells, 0)[k])
  {
    var g := Rows(cells, 0);
    var out := Pass(cells, Function(raises), out0).out;
    PassCounts(cells, raises, out0);
    PassDeliversRows(cells, raises, out0);
    var line := out[|out0| + k];
    assert Accounts(line, g[k], RowOf(g[k], 0));
    assert g[k] != [];
    assert LineCounts(line, g[k]);
    BgBreaksUniform(g[k], b);
    assert line.rects != [];
    assert |line.rects| == 1;
    assert line.rects[..0] == [];
    assert SumW(line.rects) == line.rects[0].w;
  }

  /**
   * A row of positive-width cells whose neighbouring backgrounds differ in
   * all three channels is cut into one rectangle per cell: the most a row
   * can be fragmented.
   */
  lemma PassAlternatingBackground(cells: seq<Cell>, raises: Line -> bool, out0: seq<Line>, k: nat)
    requires k < |Rows(cells, 0)| && Rows(cells, 0)[k] != [] && PositiveWidths(Rows(cells, 0)[k])
    requires forall i :: 1 <= i < |Rows(cells, 0)[k]| ==> Breaks(Rows(cells, 0)[k][i - 1].bg, Rows(cells, 0)[k][i].bg)
    ensures var out := Pass(cells, Function(raises), out0).out;
      |out| == |out0| + |Rows(cells, 0)| &&
      |out[|out0| + k].rects| == |Rows(cells, 0)[k]|
  {
    PassCounts(cells, raises, out0);
    BgBreaksEverywhere(Rows(cells, 0)[k]);
  }
}
