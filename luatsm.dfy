/**
 * The VTState object of luatsm.c (the C struct vts_t) and the functions that
 * change it: construction and resizing of its line buffer, the two run
 * closers, the row flush, the per-cell callback and the draw pass.
 *
 * The Lua tables of the row in progress are the sequences `rect` and
 * `textrun`; the lines handed to the Lua draw callback are recorded in
 * `delivered`. The per-cell methods and the draw pass are proved against
 * the value-level engine of module LineBatch, whose lemmas say what a pass
 * delivers; construction and resizing carry contracts of their own.
 */
module LuaTsm {
  import opened Utf8
  import opened LineBatch

  /** The largest C int: the buffer size rows * cols * 4 is computed in int. */
  const IntMax := 0x7fff_ffff

  const DefaultRows := 24
  const DefaultCols := 80
  const DefaultScrollback := 0

  const DimensionsMessage := "rows and columns must be positive"
  const ScrollbackMessage := "scrollback size must be positive"

  /** The smallest C int. */
  const IntMin := -0x8000_0000

  /**
   * The conversion of a Lua integer to a C int, as f_new's `int rows =
   * luaL_optinteger(...)` makes it on two's-complement targets: the value
   * modulo 2^32, read as a signed 32-bit number.
   */
  function ToCInt(v: int): (r: int)
    ensures IntMin <= r <= IntMax
    ensures (v - r) % 0x1_0000_0000 == 0
    ensures IntMin <= v <= IntMax ==> r == v
  {
    var m := v % 0x1_0000_0000;
    assert v == (v / 0x1_0000_0000) * 0x1_0000_0000 + m;
    if m > IntMax then m - 0x1_0000_0000 else m
  }

  /**
   * An argument outside the int range is wrapped before f_new checks it:
   * -4294967295 rows becomes 1 row, which f_new accepts.
   */
  lemma WrappedRowsAccepted()
    ensures ToCInt(-4294967295) == 1
    ensures NewArgsError(ToCInt(-4294967295), DefaultCols, DefaultScrollback).None?
  {
  }

  /** luaL_optinteger: the argument if given, else the default. */
  function ArgOr(arg: Option<int>, default: int): int {
    match arg
    case Some(v) => v
    case None => default
  }

  /**
   * The argument checks of f_new, in the order it makes them: the error it
   * raises, or None when the arguments are accepted.
   */
  function NewArgsError(rows: int, cols: int, sb: int): (e: Option<string>)
    ensures e.None? <==> rows > 0 && cols > 0 && sb >= 0
    ensures (rows <= 0 || cols <= 0) ==> e == Some(DimensionsMessage)
    ensures rows > 0 && cols > 0 && sb < 0 ==> e == Some(ScrollbackMessage)
  {
    if !(rows > 0 && cols > 0) then Some(DimensionsMessage)
    else if !(sb >= 0) then Some(ScrollbackMessage)
    else None
  }

  /**
   * tsm_ucs4_to_utf8: write the UTF-8 encoding of `cp` into `buf` at offset
   * `at` and return how many bytes were written; the bytes before `at` are
   * left alone.
   */
  method Ucs4ToUtf8(cp: Scalar, buf: array<byte>, at: nat) returns (n: nat)
    requires at + |Encode(cp)| <= buf.Length
    modifies buf
    ensures n == |Encode(cp)| && 1 <= n <= 4
    ensures buf[..at + n] == old(buf[..at]) + Encode(cp)
  {
    var e := Encode(cp);
    n := |e|;
    for j := 0 to n
      invariant buf[..at] == old(buf[..at])
      invariant buf[at..at + j] == e[..j]
    {
      buf[at + j] := e[j];
    }
    assert buf[..at + n] == buf[..at] + buf[at..at + n];
  }

  /** A buffer of rows * cols * 4 bytes holds four bytes for each of at most rows * cols cells. */
  lemma ScreenFitsBuffer(n: nat, rows: nat, cols: nat, len: nat)
    requires n <= rows * cols && len == rows * cols * 4
    ensures 4 * n <= len
  {
  }

  class Vts {
    /** The screen size libtsm was last given, and its scrollback limit. */
    var rows: nat
    var cols: nat
    var sb: nat
    /** What the registry slot draw_cb refers to. */
    var drawCb: Sink
    /** The tracked background (rr, rg, rb) and foreground (tr, tg, tb) colours. */
    var rc: Rgb
    var tc: Rgb
    /** The open background run and the open text run. */
    var rx: nat
    var ry: nat
    var rw: nat
    var tx: nat
    var ty: nat
    var ti: nat
    /** The Lua tables of the row in progress. */
    var rect: seq<Rect>
    var textrun: seq<TextRun>
    /** The lines the Lua draw callback has received. */
    var delivered: seq<Line>
    /** The line buffer: the open text run is buf[0..ti). */
    var buf: array<byte>

    /** The open text run lies within the line buffer. */
    ghost predicate Fits()
      reads this`ti, this`buf
    {
      ti <= buf.Length
    }

    /** The screen is non-empty and the line buffer holds four bytes per cell. */
    ghost predicate Valid()
      reads this`rows, this`cols, this`ti, this`buf
    {
      rows > 0 && cols > 0 && buf.Length == rows * cols * 4 && Fits()
    }

    /** The engine state of module LineBatch that the fields represent. */
    ghost function Abstract(): State
      reads this`rc, this`tc, this`rx, this`ry, this`rw, this`tx, this`ty, this`ti,
            this`rect, this`textrun, this`delivered, this`buf, buf
      requires Fits()
    {
      State(rc, tc, rx, ry, rw, tx, ty, buf[..ti], rect, textrun, delivered)
    }

    /**
     * The part of f_new after its argument checks: every field zero, no
     * callback registered, and a line buffer of rows * cols * 4 bytes.
     */
    constructor (rows: int, cols: int, sb: int)
      requires NewArgsError(rows, cols, sb).None?
      requires rows * cols * 4 <= IntMax
      ensures Valid() && fresh(buf)
      ensures this.rows == rows && this.cols == cols && this.sb == sb
      ensures drawCb == NotFunction && Abstract() == Start([])
    {
      this.rows, this.cols, this.sb := rows, cols, sb;
      drawCb := NotFunction;
      rc, tc := Black, Black;
      rx, ry, rw, tx, ty, ti := 0, 0, 0, 0, 0, 0;
      rect, textrun, delivered := [], [], [];
      buf := new byte[rows * cols * 4];
    }

    /**
     * f_new: rows, columns and scrollback default to 24, 80 and 0, and are
     * converted to C ints; they are checked before anything is allocated.
     */
    static method New(rowsArg: Option<int>, colsArg: Option<int>, sbArg: Option<int>)
      returns (err: Option<string>, vt: Vts?)
      requires var rows, cols := ToCInt(ArgOr(rowsArg, DefaultRows)), ToCInt(ArgOr(colsArg, DefaultCols));
        rows > 0 && cols > 0 ==> rows * cols * 4 <= IntMax
      ensures var rows, cols, sb := ToCInt(ArgOr(rowsArg, DefaultRows)), ToCInt(ArgOr(colsArg, DefaultCols)),
                                    ToCInt(ArgOr(sbArg, DefaultScrollback));
        && err == NewArgsError(rows, cols, sb)
        && (err.Some? ==> vt == null)
        && (err.None? ==> vt != null && fresh(vt) && fresh(vt.buf) && vt.Valid()
                          && vt.rows == rows && vt.cols == cols && vt.sb == sb
                          && vt.drawCb == NotFunction && vt.Abstract() == Start([]))
    {
      var rows := ToCInt(ArgOr(rowsArg, DefaultRows));
      var cols := ToCInt(ArgOr(colsArg, DefaultCols));
      var sb := ToCInt(ArgOr(sbArg, DefaultScrollback));
      err := NewArgsError(rows, cols, sb);
      if err.Some? {
        vt := null;
        return;
      }
      vt := new Vts(rows, cols, sb);
    }

    /**
     * f_set_size. `newRows` and `newCols` are the Lua integers passed in;
     * like f_new, it stores them in C ints first. `screenResized` is whether
     * tsm_screen_resize accepted the converted size; when it did not,
     * nothing changes. Otherwise the write offset goes back to 0 and the
     * buffer is re-sized to rows * cols * 4.
     */
    method SetSize(newRows: int, newCols: int, screenResized: bool) returns (ok: bool)
      requires Valid()
      requires screenResized ==>
        ToCInt(newRows) > 0 && ToCInt(newCols) > 0 && ToCInt(newRows) * ToCInt(newCols) * 4 <= IntMax
      modifies this`rows, this`cols, this`ti, this`buf
      ensures Valid() && ok == screenResized
      ensures !ok ==> rows == old(rows) && cols == old(cols) && ti == old(ti) && buf == old(buf)
      ensures ok ==> rows == ToCInt(newRows) && cols == ToCInt(newCols) && ti == 0
                     && fresh(buf) && buf.Length == rows * cols * 4
    {
      if !screenResized {
        return false;
      }
      rows, cols := ToCInt(newRows), ToCInt(newCols);
      ti := 0;
      buf := new byte[rows * cols * 4];
      return true;
    }

    /**
     * add_rect: when the open background run has width, append it to the
     * row's rectangles; either way its width is 0 afterwards.
     */
    method AddRect()
      requires Fits()
      modifies this`rect, this`rw
      ensures Fits() && Abstract() == CloseRect(old(Abstract()))
      ensures old(rw) == 0 ==> rect == old(rect)
      ensures old(rw) != 0 ==> rect == old(rect) + [Rect(rx, ry, old(rw), rc)]
      ensures rw == 0
    {
      if rw == 0 {
        return;
      }
      rect := rect + [Rect(rx, ry, rw, rc)];
      rw := 0;
    }

    /**
     * add_textrun: when the open text run has bytes, append buf[0..ti) to
     * the row's text runs; either way the write offset is 0 afterwards.
     */
    method AddTextRun()
      requires Fits()
      modifies this`textrun, this`ti
      ensures Fits() && Abstract() == CloseText(old(Abstract()))
      ensures old(ti) == 0 ==> textrun == old(textrun)
      ensures old(ti) != 0 ==> textrun == old(textrun) + [TextRun(tx, ty, buf[..old(ti)], tc)]
      ensures ti == 0
    {
      if ti == 0 {
        return;
      }
      textrun := textrun + [TextRun(tx, ty, buf[..ti], tc)];
      ti := 0;
    }

    /**
     * flush_line: close both runs, then hand the row's two lists to the
     * callback. Returns 1 when the callback is not a function (the row is
     * dropped) or when it raises, and 0 otherwise.
     */
    method FlushLine() returns (code: int)
      requires Fits()
      modifies this`rect, this`rw, this`textrun, this`ti, this`delivered
      ensures Fits() && Abstract() == Flush(old(Abstract()), drawCb)
      ensures code == if drawCb.NotFunction? || drawCb.raises(Pending(old(Abstract()))) then 1 else 0
    {
      AddRect();
      AddTextRun();
      if drawCb.NotFunction? {
        return 1;
      }
      var line := Line(rect, textrun);
      delivered := delivered + [line];
      if drawCb.raises(line) {
        return 1;
      }
      return 0;
    }

    /** The first part of draw_cb: on a row change, flush the row and start new lists. */
    method EnterRow(c: Cell)
      requires Fits()
      modifies this`rx, this`ry, this`rw, this`tx, this`ty, this`ti, this`rect, this`textrun, this`delivered
      ensures Fits() && Abstract() == LineBatch.EnterRow(old(Abstract()), c, drawCb)
    {
      if ry != c.posy {
        var code := FlushLine();
        StartRow(c);
      }
    }

    /** Start both runs at the cell and give the new row two empty lists. */
    method StartRow(c: Cell)
      requires Fits()
      modifies this`rx, this`ry, this`tx, this`ty, this`rect, this`textrun
      ensures Fits()
      ensures Abstract() == old(Abstract()).(rx := c.posx, tx := c.posx, ry := c.posy, ty := c.posy, rects := [], runs := [])
    {
      rx, tx := c.posx, c.posx;
      ry, ty := c.posy, c.posy;
      rect, textrun := [], [];
    }

    /** The second part of draw_cb: close the background run and restart it at the cell if its colour breaks. */
    method BreakRect(c: Cell)
      requires Fits()
      modifies this`rx, this`ry, this`rw, this`rect
      ensures Fits() && Abstract() == LineBatch.BreakRect(old(Abstract()), c)
    {
      if Breaks(rc, c.bg) {
        AddRect();
        rx, ry := c.posx, c.posy;
      }
    }

    /** The third part of draw_cb: close the text run and restart it at the cell if its colour breaks. */
    method BreakText(c: Cell)
      requires Fits()
      modifies this`tx, this`ty, this`ti, this`textrun
      ensures Fits() && Abstract() == LineBatch.BreakText(old(Abstract()), c)
    {
      if Breaks(tc, c.fg) {
        AddTextRun();
        tx, ty := c.posx, c.posy;
      }
    }

    /** The last part of draw_cb: track the cell's colours, write its encoding at buf + ti, add its width. */
    method AppendCell(c: Cell)
      requires Fits()
      requires ti + |Encode(Glyph(c))| <= buf.Length
      modifies this`rc, this`tc, this`rw, this`ti, buf
      ensures Fits() && Abstract() == Append(old(Abstract()), c)
    {
      rc, tc := c.bg, c.fg;
      var n := Ucs4ToUtf8(Glyph(c), buf, ti);
      ti := ti + n;
      rw := rw + c.width;
    }

    /**
     * draw_cb for one cell: flush on a row change, close a run whose colour
     * breaks, track the cell's colours, then add its width and its encoding
     * at buf + ti. The buffer must have room for the text the open run
     * will hold.
     */
    method DrawCell(c: Cell)
      requires Fits()
      requires |Step(Abstract(), c, drawCb).text| <= buf.Length
      modifies this`rc, this`tc, this`rx, this`ry, this`rw, this`tx, this`ty, this`ti,
               this`rect, this`textrun, this`delivered, buf
      ensures Fits() && Abstract() == Step(old(Abstract()), c, drawCb)
    {
      ghost var s0 := Abstract();
      EnterRow(c);
      BreakRect(c);
      BreakText(c);
      assert |Abstract().text| + |Encode(Glyph(c))| == |Step(s0, c, drawCb).text|;
      AppendCell(c);
    }

    /** The set-up of f_draw: register the callback, zero every colour, origin and counter, start two empty lists. */
    method Reset(sink: Sink)
      requires Fits()
      modifies this`drawCb, this`rc, this`tc, this`rx, this`ry, this`rw, this`tx, this`ty, this`ti,
               this`rect, this`textrun
      ensures Fits() && drawCb == sink && Abstract() == Start(delivered)
    {
      drawCb := sink;
      rc, tc := Black, Black;
      ZeroCounters();
      rect, textrun := [], [];
    }

    /** Zero both runs' origins, the open width and the write offset. */
    method ZeroCounters()
      requires Fits()
      modifies this`rx, this`ry, this`rw, this`tx, this`ty, this`ti
      ensures Fits()
      ensures Abstract() == old(Abstract()).(rx := 0, ry := 0, rw := 0, tx := 0, ty := 0, text := [])
    {
      tx, ty, ti, rx, ry, rw := 0, 0, 0, 0, 0, 0;
    }

    /**
     * f_draw, called as vt:draw(...) with `args` the arguments after the
     * object. luaL_checktype refuses a second argument that is not a
     * function, before anything changes. Otherwise luaL_ref registers the
     * value on top of the stack, which is the LAST argument: the callback
     * when it is the only one. Then zero all colours, origins and counters,
     * start two empty lists, feed every cell libtsm draws to draw_cb, flush
     * the last row, and unregister the callback. The screen holds
     * rows * cols cells, and no pass delivers more.
     */
    method Draw(cells: seq<Cell>, args: seq<Sink>) returns (ok: bool)
      requires Valid()
      requires |cells| <= rows * cols
      modifies this`drawCb, this`rc, this`tc, this`rx, this`ry, this`rw, this`tx, this`ty, this`ti,
               this`rect, this`textrun, this`delivered, buf
      ensures Valid() && ok == (|args| > 0 && args[0].Function?)
      ensures !ok ==> Abstract() == old(Abstract()) && drawCb == old(drawCb) && buf[..] == old(buf[..])
      ensures ok ==> Abstract() == Pass(cells, args[|args| - 1], old(delivered)) && drawCb == NotFunction
      ensures ok && args[|args| - 1].NotFunction? ==> delivered == old(delivered)
    {
      if !(|args| > 0 && args[0].Function?) {
        return false;
      }
      var sink := args[|args| - 1];
      ScreenFitsBuffer(|cells|, rows, cols, buf.Length);
      DrawPass(cells, sink);
      if sink.NotFunction? {
        PassWithoutFunction(cells, old(delivered));
      }
      return true;
    }

    /**
     * The pass of f_draw once the callback is accepted: set up, feed every
     * cell, flush the last row, unregister the callback.
     */
    method DrawPass(cells: seq<Cell>, sink: Sink)
      requires Fits() && 4 * |cells| <= buf.Length
      modifies this`drawCb, this`rc, this`tc, this`rx, this`ry, this`rw, this`tx, this`ty, this`ti,
               this`rect, this`textrun, this`delivered, buf
      ensures Fits() && Abstract() == Pass(cells, sink, old(delivered)) && drawCb == NotFunction
    {
      Reset(sink);
      DrawCells(cells);
      ghost var fed := Abstract();
      assert fed == Run(Start(old(delivered)), cells, sink);
      var code := FlushLine();
      assert Abstract() == Flush(fed, sink);
      drawCb := NotFunction;
    }

    /** tsm_screen_draw: feed every cell to draw_cb, in order. Each cell takes at most 4 bytes. */
    method DrawCells(cells: seq<Cell>)
      requires Fits() && ti + 4 * |cells| <= buf.Length
      modifies this`rc, this`tc, this`rx, this`ry, this`rw, this`tx, this`ty, this`ti,
               this`rect, this`textrun, this`delivered, buf
      ensures Fits() && Abstract() == Run(old(Abstract()), cells, drawCb)
    {
      ghost var start := Abstract();
      assert cells[..0] == [];
      for i := 0 to |cells|
        invariant Fits() && Abstract() == Run(start, cells[..i], drawCb)
        invariant ti <= old(ti) + 4 * i
      {
        StepTextGrowth(Abstract(), cells[i], drawCb);
        DrawCell(cells[i]);
        assert cells[..i + 1] == cells[..i] + [cells[i]];
        RunSnoc(start, cells[..i], cells[i], drawCb);
      }
      assert cells[..|cells|] == cells;
    }
  }
}
