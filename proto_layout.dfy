/** The prototype's layout (src/layout.py): `make_box` draws the outline of a
    frame as text lines, and `update` splits the terminal into five frames
    (two topic/todo lists on the left, the info bar, the notes editor and the
    status bar on the right), giving each its size, position and outline. */
module PrototypeLayout {
  import opened Base
  import Boxes
  import opened PrototypeFrame

  // ---------------------------------------------------------------------------
  // make_box (src/layout.py:5-9)

  function TopRow(width: int, title: string): string
  {
    [Boxes.TOP_LEFT] + title + Repeat(Boxes.HORIZONTAL, width - |title| - 2) + [Boxes.TOP_RIGHT]
  }

  function MiddleRow(width: int): string
  {
    [Boxes.VERTICAL] + Repeat(' ', width - 2) + [Boxes.VERTICAL]
  }

  function BottomRow(width: int): string
  {
    [Boxes.BOTTOM_LEFT] + Repeat(Boxes.HORIZONTAL, width - 2) + [Boxes.BOTTOM_RIGHT]
  }

  /** The outline: a top row carrying the title, `height - 2` middle rows and a
      bottom row. Python's repetition by a negative count is empty, so a box is
      never less than two rows high or two characters wide. */
  function MakeBox(width: int, height: int, title: string := ""): (rows: seq<string>)
    ensures |rows| == Max(2, height)
  {
    [TopRow(width, title)] + Repeat(MiddleRow(width), height - 2) + [BottomRow(width)]
  }

  /** The rows of a box, character by character. */
  lemma MakeBoxShape(width: int, height: int, title: string)
    ensures var rows := MakeBox(width, height, title);
      height >= 2 ==> |rows| == height
    ensures var top := MakeBox(width, height, title)[0];
      |top| == Max(|title| + 2, width)
      && top[0] == Boxes.TOP_LEFT && top[1..|title| + 1] == title && top[|top| - 1] == Boxes.TOP_RIGHT
      && forall k :: |title| + 1 <= k < |top| - 1 ==> top[k] == Boxes.HORIZONTAL
    ensures var rows := MakeBox(width, height, title);
      forall k :: 1 <= k < |rows| - 1 ==>
        |rows[k]| == Max(2, width) && rows[k][0] == Boxes.VERTICAL && rows[k][|rows[k]| - 1] == Boxes.VERTICAL
        && forall c :: 1 <= c < |rows[k]| - 1 ==> rows[k][c] == ' '
    ensures var bottom := MakeBox(width, height, title)[Max(2, height) - 1];
      |bottom| == Max(2, width) && bottom[0] == Boxes.BOTTOM_LEFT && bottom[|bottom| - 1] == Boxes.BOTTOM_RIGHT
      && forall c :: 1 <= c < |bottom| - 1 ==> bottom[c] == Boxes.HORIZONTAL
  {
    var rows := MakeBox(width, height, title);
    var top := TopRow(width, title);
    var dashes := Repeat(Boxes.HORIZONTAL, width - |title| - 2);
    assert top == [Boxes.TOP_LEFT] + title + dashes + [Boxes.TOP_RIGHT];
    assert rows[0] == top;
    assert top[1..|title| + 1] == title;
    assert forall k :: |title| + 1 <= k < |top| - 1 ==> top[k] == dashes[k - |title| - 1];
    var middle := Repeat(MiddleRow(width), height - 2);
    assert forall k :: 1 <= k < |rows| - 1 ==> rows[k] == middle[k - 1];
    assert rows[|rows| - 1] == BottomRow(width);
  }

  /** Every row is exactly `width` long precisely when the title leaves room
      for both corners; otherwise the title widens the top row. */
  lemma MakeBoxWidths(width: int, height: int, title: string)
    ensures var rows := MakeBox(width, height, title);
      (forall k :: 0 <= k < |rows| ==> |rows[k]| == width) <==> |title| <= width - 2
    ensures |title| > width - 2 ==> |MakeBox(width, height, title)[0]| == |title| + 2
  {
    var rows := MakeBox(width, height, title);
    MakeBoxShape(width, height, title);
    if |title| <= width - 2 {
      forall k | 0 <= k < |rows|
        ensures |rows[k]| == width
      {
        if k == 0 {
        } else if k == |rows| - 1 {
        } else {
        }
      }
    }
  }

  /** A box passes the frame's `init` check for its own size exactly when it
      is at least two rows high and the title fits between the corners. */
  lemma BoxFitsIff(width: int, height: int, title: string)
    ensures Fits(MakeBox(width, height, title), width, height) <==> height >= 2 && |title| <= width - 2
  {
    MakeBoxWidths(width, height, title);
  }

  // ---------------------------------------------------------------------------
  // update (src/layout.py:12-50)

  const TOP_BAR_HEIGHT := 4
  const BOTTOM_BAR_HEIGHT := 3

  /** What `update` gives one frame: size, position as fractions of the
      terminal, and the title of its outline. */
  datatype Placement = Placement(width: int, height: int, x: real, y: real, title: string)

  /** The five placements, in the order of `frames`. */
  function Plan(cols: int, rows: int): (p: seq<Placement>)
    requires cols != 0 && rows != 0
    ensures |p| == 5
  {
    var left := cols / 3;
    var right := cols - left - 1;
    var top := rows / 2;
    var main := rows - TOP_BAR_HEIGHT - BOTTOM_BAR_HEIGHT;
    var rightX := (left + 1) as real / cols as real;
    [ Placement(left, top, 0.0, 0.0, "Select-Topic"),
      Placement(left, rows - top, 0.0, top as real / rows as real, "Select-Todo"),
      Placement(right, TOP_BAR_HEIGHT, rightX, 0.0, "Todo-Info"),
      Placement(right, main, rightX, TOP_BAR_HEIGHT as real / rows as real, "Notes"),
      Placement(right, BOTTOM_BAR_HEIGHT, rightX, (TOP_BAR_HEIGHT + main) as real / rows as real, "Status") ]
  }

  /** The frame has the placement's size and position, and its outline. */
  predicate Placed(f: Frame, p: Placement)
    reads f
  {
    f.width == p.width && f.height == p.height && f.x == p.x && f.y == p.y
    && f.content == MakeBox(p.width, p.height, p.title)
  }

  /** The left column and the right column share the width with a one-cell
      gap; the left frames share the height, and so do the three right ones;
      each frame below another starts where the one above ends. */
  lemma PlanSplits(cols: int, rows: int)
    requires cols != 0 && rows != 0
    ensures var p := Plan(cols, rows);
      p[0].width == p[1].width && p[2].width == p[3].width == p[4].width
      && p[0].width + 1 + p[2].width == cols
      && p[0].height + p[1].height == rows
      && p[2].height + p[3].height + p[4].height == rows
    ensures var p := Plan(cols, rows);
      p[0].x == p[1].x == 0.0 && p[2].x == p[3].x == p[4].x == (p[0].width + 1) as real / cols as real
      && p[0].y == p[2].y == 0.0
      && p[1].y == p[0].height as real / rows as real
      && p[3].y == p[2].height as real / rows as real
      && p[4].y == (p[2].height + p[3].height) as real / rows as real
    ensures cols > 0 ==> 3 * Plan(cols, rows)[0].width <= cols < 3 * Plan(cols, rows)[0].width + 3
  {
  }

  /** Every frame's outline fits the size it is given, so that its `init`
      succeeds, exactly when the terminal is at least 42 columns wide (the
      "Select-Topic" title needs a left column of 14) and 9 rows high (the
      notes frame needs 2 rows). */
  lemma PlanFitsIff(cols: int, rows: int)
    requires cols > 0 && rows > 0
    ensures var p := Plan(cols, rows);
      (forall i :: 0 <= i < 5 ==> Fits(MakeBox(p[i].width, p[i].height, p[i].title), p[i].width, p[i].height))
      <==> cols >= 42 && rows >= 9
  {
    var p := Plan(cols, rows);
    forall i | 0 <= i < 5
      ensures Fits(MakeBox(p[i].width, p[i].height, p[i].title), p[i].width, p[i].height)
        <==> p[i].height >= 2 && |p[i].title| <= p[i].width - 2
    {
      BoxFitsIff(p[i].width, p[i].height, p[i].title);
    }
    assert |p[0].title| == 12 && |p[1].title| == 11 && |p[2].title| == 9;
    assert |p[3].title| == 5 && |p[4].title| == 6;
  }

  /** One frame's `set_size`, `set_position` and `set_content` calls. */
  method Place(f: Frame, p: Placement)
    modifies f
    ensures Placed(f, p) && f.initialized == old(f.initialized)
  {
    f.SetSize(p.width, p.height);
    f.SetPosition(p.x, p.y);
    f.SetContent(MakeBox(p.width, p.height, p.title));
  }

  /** The five `set_size`, `set_position`, `set_content` blocks of `update`,
      frame by frame. */
  method PlaceFive(frames: seq<Frame>, plan: seq<Placement>)
    requires |frames| >= 5 && |plan| == 5
    requires forall i, j :: 0 <= i < j < 5 ==> frames[i] != frames[j]
    modifies frames[0], frames[1], frames[2], frames[3], frames[4]
    ensures forall i :: 0 <= i < 5 ==> Placed(frames[i], plan[i])
    ensures forall i :: 0 <= i < 5 ==> frames[i].initialized == old(frames[i].initialized)
  {
    Place(frames[0], plan[0]);
    Place(frames[1], plan[1]);
    assert Placed(frames[0], plan[0]);
    Place(frames[2], plan[2]);
    assert Placed(frames[0], plan[0]) && Placed(frames[1], plan[1]);
    Place(frames[3], plan[3]);
    assert Placed(frames[0], plan[0]) && Placed(frames[1], plan[1]) && Placed(frames[2], plan[2]);
    Place(frames[4], plan[4]);
  }

  /** `update` places the first five frames as Plan says. Dividing by a zero
      size raises in the source, hence the precondition; the five frames are
      distinct objects. */
  method Update(cols: int, rows: int, frames: seq<Frame>)
    requires cols != 0 && rows != 0 && |frames| >= 5
    requires forall i, j :: 0 <= i < j < 5 ==> frames[i] != frames[j]
    modifies frames[0], frames[1], frames[2], frames[3], frames[4]
    ensures forall i :: 0 <= i < 5 ==> Placed(frames[i], Plan(cols, rows)[i])
    ensures forall i :: 0 <= i < 5 ==> frames[i].initialized == old(frames[i].initialized)
  {
    var plan := Plan(cols, rows);
    PlaceFive(frames, plan);
  }
}
