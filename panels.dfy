/** The layout arithmetic of render_frame (Todo.py:517-926): the split of the
    terminal into the Topics, Todos, Info and Notes panels, the scroll window
    that keeps the selected row visible, and the per-cell caret and selection
    rule of the notes panel. */
module PanelLayout {
  import opened Base
  import opened Styled
  import Boxes
  import Canvas
  import TextGeometry

  /** Rows of the Info panel, borders included. */
  const INFO_HEIGHT: int := 7

  datatype Panels = Panels(side: int, main: int, sideHeight: int, filesHeight: int, mainHeight: int)

  /** `min(max(20, tw // 4), tw // 3)`. Dafny's `/` agrees with Python's `//`
      for a positive divisor. */
  function SideWidth(tw: int): int
  {
    Min(Max(20, tw / 4), tw / 3)
  }

  /** Panel sizes for a terminal `tw` wide and `th` high; the last row is kept
      for help text or the input prompt (Todo.py:520-530). */
  function Layout(tw: int, th: int): Panels
  {
    var usable := th - 1;
    var side := SideWidth(tw);
    Panels(side, tw - side, usable / 2, usable - usable / 2, usable - INFO_HEIGHT)
  }

  /** The left column and the right column fill the width; the Topics and Todos
      panels, and the Info and Notes panels, each fill the height above the
      help row; the left column takes at most a third of the width, and at
      least 20 columns from 60 columns on. */
  lemma LayoutSplit(tw: int, th: int)
    ensures var p := Layout(tw, th);
      p.side + p.main == tw
      && p.sideHeight + p.filesHeight == th - 1
      && INFO_HEIGHT + p.mainHeight == th - 1
      && p.side <= tw / 3
      && (tw >= 0 ==> 0 <= p.side)
      && (tw >= 60 ==> 20 <= p.side)
      && (th >= 1 ==> p.sideHeight <= p.filesHeight <= p.sideHeight + 1)
  {
  }

  /** The asserts of draw_box hold for all four panels exactly when the
      terminal is at least 30 columns wide: below that the Topics box cannot
      hold its title and render_frame fails. */
  lemma BoxesFitIff(tw: int, th: int)
    ensures var p := Layout(tw, th);
      (p.side >= |Boxes.TitleSpace("Topics")| + 2 && p.side >= |Boxes.TitleSpace("Todos")| + 2
       && p.main >= |Boxes.TitleSpace("Info")| + 2 && p.main >= |Boxes.TitleSpace("Notes")| + 2)
      <==> tw >= 30
  {
    var p := Layout(tw, th);
    assert |Boxes.TitleSpace("Topics")| == 8 && |Boxes.TitleSpace("Todos")| == 7;
    assert |Boxes.TitleSpace("Info")| == 6 && |Boxes.TitleSpace("Notes")| == 7;
    if tw >= 30 {
      assert tw / 3 >= 10 && Max(20, tw / 4) >= 10;
      assert p.side <= tw / 3 <= tw - 20;
    } else {
      assert tw / 3 < 10;
    }
  }

  // ---------------------------------------------------------------------------
  // Scroll windows (Todo.py:623-628 and Todo.py:670-673)

  /** Rows a panel of height `h` shows between its borders; at least one. */
  function VisibleRows(h: int): (v: int)
    ensures v >= 1 && (h >= 3 ==> v == h - 2)
  {
    Max(1, h - 2)
  }

  /** The first row shown: the selection is centred where possible, and the
      window keeps to the list. */
  function WindowStart(sel: int, total: int, visible: int): int
  {
    if total > 0 then Max(0, Min(sel - visible / 2, Max(0, total - visible))) else 0
  }

  /** The selected row is always inside the window, and every row the window
      shows is an entry of the list; it shows `min(visible, total)` rows. */
  lemma WindowShowsSelection(sel: int, total: int, visible: int)
    requires visible >= 1 && 0 <= sel < total
    ensures var start := WindowStart(sel, total, visible);
      0 <= start <= sel < start + visible
      && start + Min(visible, total) <= total
  {
  }

  /** Centring: when the selection is far enough from both ends of the list it
      sits at row `visible // 2` of the window. */
  lemma WindowCentres(sel: int, total: int, visible: int)
    requires visible >= 1 && visible / 2 <= sel && sel - visible / 2 <= total - visible
    ensures WindowStart(sel, total, visible) + visible / 2 == sel
  {
  }

  /** Where the selected todo appears in the sorted list: on the Todos tab, the
      first display row holding storage index `sel`; otherwise, or when no row
      holds it, row 0 (Todo.py:662-668). */
  method SelectedDisplayPos(order: seq<int>, sel: int, onTodosTab: bool) returns (pos: nat)
    ensures onTodosTab && sel in order ==>
      pos < |order| && order[pos] == sel && (forall e :: 0 <= e < pos ==> order[e] != sel)
    ensures !(onTodosTab && sel in order) ==> pos == 0
  {
    pos := 0;
    if onTodosTab {
      var di := 0;
      while di < |order|
        invariant 0 <= di <= |order|
        invariant forall e :: 0 <= e < di ==> order[e] != sel
      {
        if order[di] == sel {
          pos := di;
          return;
        }
        di := di + 1;
      }
    }
  }

  // ---------------------------------------------------------------------------
  // The notes panel (Todo.py:864-893)

  /** Raw offset `off` lies in the selection [min(anchor, cursor), max(anchor, cursor)). */
  predicate InSelection(anchor: Option<int>, cursor: int, off: int)
  {
    anchor.Some? && Min(anchor.value, cursor) <= off < Max(anchor.value, cursor)
  }

  /** What the cell of raw offset `off`, holding `ch`, shows: the caret when the
      cursor is there and the caret is on (in reverse video inside the
      selection), otherwise the character, in reverse video inside the
      selection. `caretOn` stands for the notes tab being focused, the topic
      list non-empty and the blink phase visible. */
  function NoteCell(off: int, ch: char, cursor: int, anchor: Option<int>, caretOn: bool): string
  {
    if off == cursor && caretOn then
      (if InSelection(anchor, cursor, cursor) then REVERSE + "|" + NORMAL else SELECTED_COLOR + "|" + NORMAL)
    else if InSelection(anchor, cursor, off) then REVERSE + [ch] + NORMAL
    else [ch]
  }

  /** Every notes cell takes exactly one column: the caret replaces the
      character, and a cell is in reverse video exactly when its offset is in
      the selection. */
  lemma NoteCellFacts(off: int, ch: char, cursor: int, anchor: Option<int>, caretOn: bool)
    requires ch != ESC
    ensures var ts := Lex(NoteCell(off, ch, cursor, anchor, caretOn));
      WellFormed(ts)
      && Visible(ts) == [if off == cursor && caretOn then '|' else ch]
      && (ts[0] == Style(REVERSE) <==> InSelection(anchor, cursor, off))
  {
    ColorsAreCodes();
    var s := NoteCell(off, ch, cursor, anchor, caretOn);
    if off == cursor && caretOn {
      var color := if InSelection(anchor, cursor, cursor) then REVERSE else SELECTED_COLOR;
      assert s == Canvas.Cell(color, '|');
      Canvas.CellIsOneColumn(color, '|');
    } else if InSelection(anchor, cursor, off) {
      assert s == Canvas.Cell(REVERSE, ch);
      Canvas.CellIsOneColumn(REVERSE, ch);
    } else {
      assert s == [ch];
      assert Lex(s) == [Ch(ch)] + Lex([]);
    }
  }

  /** The caret itself is in reverse video exactly when the anchor lies to its
      right. */
  lemma CaretReversedIff(anchor: Option<int>, cursor: int)
    ensures InSelection(anchor, cursor, cursor) <==> anchor.Some? && anchor.value > cursor
  {
  }

  /** Start offset of display line `i`, 0 past the list of starts. */
  function StartOf(starts: seq<int>, i: int): int
  {
    if 0 <= i < |starts| then starts[i] else 0
  }

  /** Cell (r, c) after the notes loop: row i of the shown lines goes to canvas
      row y0 + i, and character j of it, up to `width`, to column x0 + j. */
  function NotesCellAt(shown: seq<string>, starts: seq<int>, x0: int, y0: int, width: int,
                       cursor: int, anchor: Option<int>, caretOn: bool, r: int, c: int, before: string): string
  {
    if y0 <= r < y0 + |shown| && x0 <= c < x0 + Min(width, |shown[r - y0]|)
    then NoteCell(StartOf(starts, r - y0) + (c - x0), shown[r - y0][c - x0], cursor, anchor, caretOn)
    else before
  }

  /** One line of the notes loop: line i of `shown` goes to canvas row y0 + i,
      cut at `width`. */
  method DrawNotesRow(canvas: array2<string>, shown: seq<string>, starts: seq<int>, x0: int, y0: int,
                      width: int, cursor: int, anchor: Option<int>, caretOn: bool, i: int)
    requires 0 <= x0 && 0 <= y0 && 0 <= width && x0 + width <= canvas.Length1
    requires 0 <= i < |shown| && y0 + i < canvas.Length0
    modifies canvas
    ensures forall r, c :: 0 <= r < canvas.Length0 && 0 <= c < canvas.Length1 ==>
      canvas[r, c] == if r == y0 + i then NotesCellAt(shown, starts, x0, y0, width, cursor, anchor, caretOn, r, c, old(canvas[r, c]))
                      else old(canvas[r, c])
  {
    var line := shown[i];
    var startOff := StartOf(starts, i);
    var n := Min(width, |line|);
    var j := 0;
    while j < n
      invariant 0 <= j <= n
      invariant forall r, c :: 0 <= r < canvas.Length0 && 0 <= c < canvas.Length1 ==>
        canvas[r, c] == if r == y0 + i && c < x0 + j
                        then NotesCellAt(shown, starts, x0, y0, width, cursor, anchor, caretOn, r, c, old(canvas[r, c]))
                        else old(canvas[r, c])
    {
      canvas[y0 + i, x0 + j] := NoteCell(startOff + j, line[j], cursor, anchor, caretOn);
      j := j + 1;
    }
  }

  /** The notes loop: the first `height` display lines (Python's `[:height]`,
      so a negative height drops lines from the end), each cut at `width`. */
  method DrawNotes(canvas: array2<string>, lines: seq<string>, starts: seq<int>, x0: int, y0: int,
                   width: int, height: int, cursor: int, anchor: Option<int>, caretOn: bool)
    requires 0 <= x0 && 0 <= y0 && 0 <= width && x0 + width <= canvas.Length1
    requires y0 + |Prefix(lines, height)| <= canvas.Length0
    modifies canvas
    ensures forall r, c :: 0 <= r < canvas.Length0 && 0 <= c < canvas.Length1 ==>
      canvas[r, c] == NotesCellAt(Prefix(lines, height), starts, x0, y0, width, cursor, anchor, caretOn, r, c, old(canvas[r, c]))
  {
    var shown := Prefix(lines, height);
    var i := 0;
    while i < |shown|
      invariant 0 <= i <= |shown|
      invariant forall r, c :: 0 <= r < canvas.Length0 && 0 <= c < canvas.Length1 ==>
        canvas[r, c] == if r < y0 + i then NotesCellAt(shown, starts, x0, y0, width, cursor, anchor, caretOn, r, c, old(canvas[r, c]))
                        else old(canvas[r, c])
    {
      DrawNotesRow(canvas, shown, starts, x0, y0, width, cursor, anchor, caretOn, i);
      i := i + 1;
    }
  }

  /** Where the caret goes when the cursor is at the end of the text: after
      the last shown line. */
  function EndCaretCell(lines: seq<string>, height: int): (rc: (int, int))
    requires lines != [] && height >= 1
    ensures 0 <= rc.0 < Min(|lines|, height) && rc.1 == |lines[rc.0]|
  {
    var lastRow := Min(|lines| - 1, height - 1);
    (lastRow, |lines[lastRow]|)
  }

  /** The end caret (Todo.py:888-893): drawn after the last shown line when the
      caret is on, the cursor is at the end of the text, and that line leaves a
      free column. */
  method DrawEndCaret(canvas: array2<string>, raw: string, lines: seq<string>, x0: int, y0: int,
                      width: int, height: int, cursor: int, caretOn: bool)
    requires 0 <= x0 && 0 <= y0 && 0 <= width && x0 + width <= canvas.Length1
    requires height >= 1 && y0 + Min(|lines|, height) <= canvas.Length0
    modifies canvas
    ensures caretOn && cursor == |raw| && lines != [] && EndCaretCell(lines, height).1 < width ==>
      var (er, ec) := EndCaretCell(lines, height);
      forall r, c :: 0 <= r < canvas.Length0 && 0 <= c < canvas.Length1 ==>
        canvas[r, c] == if r == y0 + er && c == x0 + ec then SELECTED_COLOR + "|" + NORMAL else old(canvas[r, c])
    ensures !(caretOn && cursor == |raw| && lines != [] && EndCaretCell(lines, height).1 < width) ==>
      forall r, c :: 0 <= r < canvas.Length0 && 0 <= c < canvas.Length1 ==> canvas[r, c] == old(canvas[r, c])
  {
    if caretOn && cursor == |raw| && lines != [] {
      var lastRow := Min(|lines| - 1, height - 1);
      var lastCol := |lines[lastRow]|;
      if lastCol < width {
        canvas[y0 + lastRow, x0 + lastCol] := SELECTED_COLOR + "|" + NORMAL;
      }
    }
  }

  /** No character cell of the notes panel has the offset of the end of the
      text, so when the cursor is at the end the in-text caret never shows and
      the end caret is the only one. */
  lemma NoTextCellAtEnd(raw: string, width: int, i: int, j: int)
    requires width >= 1
    requires 0 <= i < |TextGeometry.DisplayLines(raw, width)| && 0 <= j < |TextGeometry.DisplayLines(raw, width)[i]|
    ensures StartOf(TextGeometry.DisplayStarts(raw, width), i) + j < |raw|
  {
    TextGeometry.DisplayLinesLaid(raw, width);
  }
}
