/** The cell canvas of render_frame: a grid of strings, one per terminal cell,
    each holding one visible character, possibly wrapped in a style escape and a
    reset. color_cell_write (Todo.py:327-336) and write_box_to_canvas
    (Todo.py:535-555) copy text into it, clipping at the grid's right edge, and
    write_box_to_canvas also at its bottom edge. */
module Canvas {
  import opened Base
  import opened Styled
  import Boxes

  /** A written cell: the character wrapped in `color` and a reset. */
  function Cell(color: string, c: char): string
  {
    color + [c] + NORMAL
  }

  /** A cell takes up exactly one column. */
  lemma CellIsOneColumn(color: string, c: char)
    requires IsCode(color) && c != ESC
    ensures Lex(Cell(color, c)) == [Style(color), Ch(c), Style(NORMAL)]
    ensures Visible(Lex(Cell(color, c))) == [c]
  {
    ColorsAreCodes();
    var ts := [Style(color), Ch(c), Style(NORMAL)];
    assert WellFormed(ts);
    assert Render(ts[2..]) == NORMAL + Render([]);
    assert Render(ts[1..]) == [c] + Render(ts[2..]);
    assert Render(ts) == color + Render(ts[1..]);
    assert Cell(color, c) == color + ([c] + (NORMAL + []));
    LexRender(ts);
    assert Visible(ts) == Visible(ts[1..]) == [c] + Visible(ts[2..]);
  }

  // ---------------------------------------------------------------------------
  // color_cell_write (Todo.py:327-336)

  /** Writes `text` from column `col` of row `row`, one cell per character, and
      stops at the right edge. It has no caller in the program. */
  method ColorCellWrite(canvas: array2<string>, row: int, col: int, text: string, color: string)
    requires 0 <= row < canvas.Length0 && 0 <= col
    modifies canvas
    ensures forall r, c :: 0 <= r < canvas.Length0 && 0 <= c < canvas.Length1 ==>
      canvas[r, c] == if r == row && col <= c < col + |text| then Cell(color, text[c - col]) else old(canvas[r, c])
  {
    var k := 0;
    while k < |text|
      invariant 0 <= k <= |text|
      invariant forall r, c :: 0 <= r < canvas.Length0 && 0 <= c < canvas.Length1 ==>
        canvas[r, c] == if r == row && col <= c < col + k then Cell(color, text[c - col]) else old(canvas[r, c])
    {
      if col + k >= canvas.Length1 {
        break;
      }
      canvas[row, col + k] := color + [text[k]] + NORMAL;
      k := k + 1;
    }
  }

  // ---------------------------------------------------------------------------
  // write_box_to_canvas (Todo.py:535-555)

  /** The cells one line writes when scanned as tokens `ts` with `room` columns
      left, starting in style `color`: an escape takes no column and changes the
      style, a character takes one; the scan stops when no room is left. */
  function LineCells(ts: seq<Token>, room: int, color: string): seq<string>
    decreases |ts|
  {
    if ts == [] || room <= 0 then []
    else
      match ts[0]
      case Style(code) => LineCells(ts[1..], room, code)
      case Ch(c) => [Cell(color, c)] + LineCells(ts[1..], room - 1, color)
  }

  /** The style in effect when that scan stops; escapes past the right edge are
      never read. */
  function LineEndColor(ts: seq<Token>, room: int, color: string): string
    decreases |ts|
  {
    if ts == [] || room <= 0 then color
    else
      match ts[0]
      case Style(code) => LineEndColor(ts[1..], room, code)
      case Ch(_) => LineEndColor(ts[1..], room - 1, color)
  }

  /** The style row `k` of a box starts in: NORMAL, then whatever the previous
      row left in effect. */
  function RowStartColor(box: seq<string>, k: nat, room: int): string
    requires k <= |box|
  {
    if k == 0 then NORMAL
    else LineEndColor(Lex(box[k - 1]), room, RowStartColor(box, k - 1, room))
  }

  function RowCells(box: seq<string>, k: nat, room: int): seq<string>
    requires k < |box|
  {
    LineCells(Lex(box[k]), room, RowStartColor(box, k, room))
  }

  /** Cell (r, c) after write_box_to_canvas(box, x, y) on a canvas `tw` wide. */
  function BoxCell(box: seq<string>, x: int, y: int, tw: int, r: int, c: int, before: string): string
  {
    if y <= r < y + |box| && x <= c < x + |RowCells(box, r - y, tw - x)|
    then RowCells(box, r - y, tw - x)[c - x]
    else before
  }

  lemma CodeLenOfScan(code: string, rest: string)
    requires code != [] && code[0] == ESC && 'm' !in code
    ensures rest == [] ==> CodeLen(code + rest) == |code|
    ensures rest != [] && rest[0] == 'm' ==> CodeLen(code + rest) == |code| + 1
  {
    var s := code + rest;
    CodeLenFacts(s);
    assert s[..|code|] == code;
    if rest != [] && rest[0] == 'm' {
      assert s[|code|] == 'm';
      assert s[..|code| + 1] == code + ['m'];
    } else if rest == [] {
      assert s == code;
    }
  }

  /** The inner `while chars and chars[0] != 'm'` loop: pops an escape off the
      front of `chars`. */
  method ScanEscape(chars: string) returns (code: string, rest: string)
    requires chars != [] && chars[0] == ESC
    ensures Lex(chars) == [Style(code)] + Lex(rest) && |rest| < |chars|
  {
    rest := chars;
    code := [];
    while rest != [] && rest[0] != 'm'
      invariant code + rest == chars && 'm' !in code
      invariant code == [] ==> rest == chars
      decreases |rest|
    {
      code := code + [rest[0]];
      rest := rest[1..];
    }
    assert code != [] && code[0] == ESC;
    CodeLenOfScan(code, rest);
    if rest != [] {
      AppendAssoc(code, [rest[0]], rest[1..]);
      assert rest == [rest[0]] + rest[1..];
      code := code + [rest[0]];
      rest := rest[1..];
    }
    LexOfSplit(chars, code, rest);
  }

  /** An escape of length |code| at the front of `chars` is one token. */
  lemma LexOfSplit(chars: string, code: string, rest: string)
    requires chars == code + rest && chars != [] && chars[0] == ESC && CodeLen(chars) == |code|
    ensures Lex(chars) == [Style(code)] + Lex(rest)
  {
    assert chars[..|code|] == code && chars[|code|..] == rest;
  }

  /** One character of the scan, when there is room for it. */
  lemma LineStepChar(chars: string, room: int, color: string)
    requires chars != [] && chars[0] != ESC && room > 0
    ensures LineCells(Lex(chars), room, color) == [Cell(color, chars[0])] + LineCells(Lex(chars[1..]), room - 1, color)
    ensures LineEndColor(Lex(chars), room, color) == LineEndColor(Lex(chars[1..]), room - 1, color)
  {
    assert Lex(chars) == [Ch(chars[0])] + Lex(chars[1..]);
    assert Lex(chars)[1..] == Lex(chars[1..]);
  }

  /** One escape of the scan, when there is room left. */
  lemma LineStepStyle(chars: string, code: string, rest: string, room: int, color: string)
    requires Lex(chars) == [Style(code)] + Lex(rest) && room > 0
    ensures LineCells(Lex(chars), room, color) == LineCells(Lex(rest), room, code)
    ensures LineEndColor(Lex(chars), room, color) == LineEndColor(Lex(rest), room, code)
  {
    assert Lex(chars)[1..] == Lex(rest);
  }

  /** The cells written so far plus those the rest of the line writes stay the
      cells of the whole line when one more character is written. */
  lemma CharStep(cells: seq<string>, written: seq<string>, chars: string, room: int, color: string)
    requires chars != [] && chars[0] != ESC && room > 0
    requires cells == written + LineCells(Lex(chars), room, color)
    ensures cells == (written + [Cell(color, chars[0])]) + LineCells(Lex(chars[1..]), room - 1, color)
    ensures LineEndColor(Lex(chars), room, color) == LineEndColor(Lex(chars[1..]), room - 1, color)
  {
    LineStepChar(chars, room, color);
    AppendAssoc(written, [Cell(color, chars[0])], LineCells(Lex(chars[1..]), room - 1, color));
  }

  /** The inner `while chars and canvas_x < terminal_width` loop for one line,
      written at row `row` from column `x`. */
  method WriteLine(canvas: array2<string>, line: string, x: int, row: int, color: string)
    returns (endColor: string)
    requires 0 <= x && 0 <= row < canvas.Length0
    modifies canvas
    ensures endColor == LineEndColor(Lex(line), canvas.Length1 - x, color)
    ensures forall r, c :: 0 <= r < canvas.Length0 && 0 <= c < canvas.Length1 ==>
      canvas[r, c] == if r == row && x <= c < x + |LineCells(Lex(line), canvas.Length1 - x, color)|
                      then LineCells(Lex(line), canvas.Length1 - x, color)[c - x]
                      else old(canvas[r, c])
  {
    var tw := canvas.Length1;
    var canvasX := x;
    var chars := line;
    endColor := color;
    ghost var written: seq<string> := [];
    while chars != [] && canvasX < tw
      invariant x <= canvasX && (canvasX <= tw || canvasX == x)
      invariant |written| == canvasX - x
      invariant LineCells(Lex(line), tw - x, color) == written + LineCells(Lex(chars), tw - canvasX, endColor)
      invariant LineEndColor(Lex(line), tw - x, color) == LineEndColor(Lex(chars), tw - canvasX, endColor)
      invariant forall r, c :: 0 <= r < canvas.Length0 && 0 <= c < canvas.Length1 ==>
        canvas[r, c] == if r == row && x <= c < canvasX then written[c - x] else old(canvas[r, c])
      decreases |chars|
    {
      if chars[0] == ESC {
        var code, rest := ScanEscape(chars);
        LineStepStyle(chars, code, rest, tw - canvasX, endColor);
        chars := rest;
        endColor := code;
      } else {
        CharStep(LineCells(Lex(line), tw - x, color), written, chars, tw - canvasX, endColor);
        if canvasX < tw {
          canvas[row, canvasX] := endColor + [chars[0]] + NORMAL;
        }
        written := written + [Cell(endColor, chars[0])];
        chars := chars[1..];
        canvasX := canvasX + 1;
      }
    }
    assert LineCells(Lex(chars), tw - canvasX, endColor) == [];
  }

  /** write_box_to_canvas: row k of `box` goes to canvas row y + k until the
      bottom edge; the style carries over from one row to the next. */
  method WriteBox(canvas: array2<string>, box: seq<string>, x: int, y: int)
    requires 0 <= x && 0 <= y
    modifies canvas
    ensures forall r, c :: 0 <= r < canvas.Length0 && 0 <= c < canvas.Length1 ==>
      canvas[r, c] == BoxCell(box, x, y, canvas.Length1, r, c, old(canvas[r, c]))
  {
    var th, tw := canvas.Length0, canvas.Length1;
    var currentColor := NORMAL;
    var boxY := 0;
    while boxY < |box|
      invariant 0 <= boxY <= |box|
      invariant currentColor == RowStartColor(box, boxY, tw - x)
      invariant forall r, c :: 0 <= r < th && 0 <= c < tw ==>
        canvas[r, c] == if r < y + boxY then BoxCell(box, x, y, tw, r, c, old(canvas[r, c])) else old(canvas[r, c])
    {
      if y + boxY >= th {
        break;
      }
      currentColor := WriteLine(canvas, box[boxY], x, y + boxY, currentColor);
      boxY := boxY + 1;
    }
  }

  // ---------------------------------------------------------------------------
  // Properties of the scan

  /** A line writes one cell per visible character, up to the room left; cell k
      holds the k-th visible character in the style of the last escape before
      it (or the incoming style). */
  lemma {:induction false} LineCellsShape(ts: seq<Token>, room: int, color: string)
    ensures |LineCells(ts, room, color)| == Min(Max(room, 0), |Visible(ts)|)
    ensures forall k :: 0 <= k < |LineCells(ts, room, color)| ==>
              LineCells(ts, room, color)[k] == Cell(StyleAt(ts, k, color), Visible(ts)[k])
  {
    LineCellsLength(ts, room, color);
    LineCellsAt(ts, room, color);
  }

  lemma {:induction false} LineCellsLength(ts: seq<Token>, room: int, color: string)
    ensures |LineCells(ts, room, color)| == Min(Max(room, 0), |Visible(ts)|)
    decreases |ts|
  {
    if ts != [] && room > 0 {
      match ts[0]
      case Style(code) => LineCellsLength(ts[1..], room, code);
      case Ch(_) => LineCellsLength(ts[1..], room - 1, color);
    }
  }

  lemma {:induction false} LineCellsAt(ts: seq<Token>, room: int, color: string)
    ensures |LineCells(ts, room, color)| <= |Visible(ts)|
    ensures forall k :: 0 <= k < |LineCells(ts, room, color)| ==>
              LineCells(ts, room, color)[k] == Cell(StyleAt(ts, k, color), Visible(ts)[k])
    decreases |ts|
  {
    LineCellsLength(ts, room, color);
    if ts != [] && room > 0 {
      match ts[0]
      case Style(code) =>
        LineCellsAt(ts[1..], room, code);
      case Ch(ch) =>
        var tail := LineCells(ts[1..], room - 1, color);
        LineCellsAt(ts[1..], room - 1, color);
        var cells := LineCells(ts, room, color);
        assert cells == [Cell(color, ch)] + tail;
        forall k | 0 <= k < |cells| ensures cells[k] == Cell(StyleAt(ts, k, color), Visible(ts)[k]) {
          if k > 0 {
            assert cells[k] == tail[k - 1];
          }
        }
    }
  }

  /** Wherever the line does not reach the right edge, the style the next row
      starts in is the last escape of the line (or the incoming style). */
  lemma {:induction false} LineEndColorUnclipped(ts: seq<Token>, room: int, color: string)
    requires room > |Visible(ts)|
    ensures LineEndColor(ts, room, color) == LastStyle(ts, color)
    decreases |ts|
  {
    if ts != [] {
      match ts[0]
      case Style(code) => LineEndColorUnclipped(ts[1..], room, code);
      case Ch(_) => LineEndColorUnclipped(ts[1..], room - 1, color);
    }
  }

  /** A line that starts with an escape writes the same cells whatever style the
      previous rows left in effect. */
  lemma StartsWithStyle(ts: seq<Token>, room: int, c1: string, c2: string)
    requires |ts| >= 1 && ts[0].Style?
    ensures LineCells(ts, room, c1) == LineCells(ts, room, c2)
  {
  }

  /** A row of draw_box put at column x with its full width inside the canvas
      fills exactly `width` cells, holding the row's visible characters; the
      style the previous rows left in effect does not matter. */
  lemma BoxRowOnCanvas(row: string, color: string, width: int, v: string, room: int, incoming: string)
    requires Boxes.RowScan(row, color, width, v) && room >= width
    ensures var cells := LineCells(Lex(row), room, incoming);
      |cells| == width
      && (forall k :: 0 <= k < width ==> cells[k] == Cell(StyleAt(Lex(row), k, incoming), v[k]))
      && cells == LineCells(Lex(row), room, NORMAL)
  {
    LineCellsShape(Lex(row), room, incoming);
    StartsWithStyle(Lex(row), room, incoming, NORMAL);
  }

  /** A box row scanned from a string with an unterminated escape loses the rest
      of the line: "ab" after a bare ESC is never written. */
  lemma UnterminatedEscapeWritesNothing(room: int)
    requires room >= 1
    ensures LineCells(Lex("\U{1B}[31ab"), room, NORMAL) == []
  {
    var s := "\U{1B}[31ab";
    assert 'm' !in s;
    CodeLenFacts(s);
    assert CodeLen(s) == |s|;
    assert s[..|s|] == s && s[|s|..] == [];
    assert Lex(s) == [Style(s)] + Lex([]);
  }
}
