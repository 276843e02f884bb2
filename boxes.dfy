/** draw_box (Todo.py:384-411): the rows of a bordered box as styled strings,
    with the border coloured by the box's focus state and the title shown as a
    tab. */
module Boxes {
  import opened Base
  import opened Styled

  const TOP_LEFT: char := '\U{250C}'
  const TOP_RIGHT: char := '\U{2510}'
  const BOTTOM_LEFT: char := '\U{2514}'
  const BOTTOM_RIGHT: char := '\U{2518}'
  const VERTICAL: char := '\U{2502}'
  const HORIZONTAL: char := '\U{2500}'

  /** Active beats selected; otherwise the border is uncoloured. */
  function BorderColor(isSelected: bool, isActive: bool): string
  {
    if isActive then ACTIVE_COLOR else if isSelected then SELECTED_COLOR else NORMAL
  }

  /** The title padded with one space on each side; nothing for no title. */
  function TitleSpace(title: string): string
  {
    if title == [] then [] else [' '] + title + [' ']
  }

  function TitleDisplay(title: string, isSelected: bool, isActive: bool): string
  {
    var ts := TitleSpace(title);
    if title == [] then ts
    else if isActive then TAB_BG + TAB_FG + ts + NORMAL
    else if isSelected then INFO_LABEL_COLOR + ts + NORMAL
    else ts
  }

  function TopRow(width: int, title: string, isSelected: bool, isActive: bool): string
  {
    var color := BorderColor(isSelected, isActive);
    color + [TOP_LEFT] + TitleDisplay(title, isSelected, isActive) + color
      + Repeat(HORIZONTAL, width - |TitleSpace(title)| - 2) + [TOP_RIGHT] + NORMAL
  }

  function MiddleRow(width: int, color: string): string
  {
    color + [VERTICAL] + Repeat(' ', width - 2) + [VERTICAL] + NORMAL
  }

  function BottomRow(width: int, color: string): string
  {
    color + [BOTTOM_LEFT] + Repeat(HORIZONTAL, width - 2) + [BOTTOM_RIGHT] + NORMAL
  }

  /** `ts` is well formed, prints as `s` and shows `v`. */
  ghost predicate Shows(ts: seq<Token>, s: string, v: string)
  {
    WellFormed(ts) && Render(ts) == s && Visible(ts) == v
  }

  lemma ShowsCat(t1: seq<Token>, s1: string, v1: string, t2: seq<Token>, s2: string, v2: string)
    requires Shows(t1, s1, v1) && Shows(t2, s2, v2)
    ensures Shows(t1 + t2, s1 + s2, v1 + v2)
  {
    WellFormedAppend(t1, t2);
    RenderAppend(t1, t2);
    VisibleAppend(t1, t2);
  }

  lemma ShowsCode(code: string)
    requires IsCode(code)
    ensures Shows([Style(code)], code, "")
  {
    assert [Style(code)][1..] == [];
    assert Render([Style(code)]) == code + Render([]);
  }

  lemma ShowsPlain(s: string)
    requires ESC !in s
    ensures Shows(Plain(s), s, s)
  {
    PlainFacts(s);
  }

  /** The title as tokens, with the visible title space. */
  lemma TitleShows(title: string, isSelected: bool, isActive: bool) returns (ts: seq<Token>)
    requires ESC !in title
    ensures Shows(ts, TitleDisplay(title, isSelected, isActive), TitleSpace(title))
  {
    ColorsAreCodes();
    var space := TitleSpace(title);
    assert ESC !in space;
    ShowsPlain(space);
    ts := Plain(space);
    if title != [] {
      ShowsCode(NORMAL);
      ShowsCat(Plain(space), space, space, [Style(NORMAL)], NORMAL, "");
      if isActive {
        ShowsCode(TAB_BG);
        ShowsCode(TAB_FG);
        ShowsCat([Style(TAB_BG)], TAB_BG, "", [Style(TAB_FG)], TAB_FG, "");
        ShowsCat([Style(TAB_BG)] + [Style(TAB_FG)], TAB_BG + TAB_FG, "",
                 Plain(space) + [Style(NORMAL)], space + NORMAL, space);
        ts := [Style(TAB_BG)] + [Style(TAB_FG)] + (Plain(space) + [Style(NORMAL)]);
        assert TAB_BG + TAB_FG + (space + NORMAL) == TAB_BG + TAB_FG + space + NORMAL;
      } else if isSelected {
        ShowsCode(INFO_LABEL_COLOR);
        ShowsCat([Style(INFO_LABEL_COLOR)], INFO_LABEL_COLOR, "",
                 Plain(space) + [Style(NORMAL)], space + NORMAL, space);
        ts := [Style(INFO_LABEL_COLOR)] + (Plain(space) + [Style(NORMAL)]);
        assert INFO_LABEL_COLOR + (space + NORMAL) == INFO_LABEL_COLOR + space + NORMAL;
      }
    }
  }

  /** A row `color`, `left`, `inner`, `right`, NORMAL as tokens: it starts in
      `color` and ends by resetting the style. */
  lemma FrameRowShows(color: string, left: char, inner: seq<Token>, iShown: string, iSpace: string, right: char)
    returns (ts: seq<Token>)
    requires IsCode(color) && left != ESC && right != ESC
    requires Shows(inner, iShown, iSpace)
    ensures Shows(ts, color + [left] + iShown + [right] + NORMAL, [left] + iSpace + [right])
    ensures |ts| >= 1 && ts[0] == Style(color) && ts[|ts| - 1] == Style(NORMAL)
  {
    ColorsAreCodes();
    ShowsCode(color);
    ShowsCode(NORMAL);
    ShowsPlain([left]);
    ShowsPlain([right]);
    ShowsCat([Style(color)], color, "", Plain([left]), [left], [left]);
    var t1 := [Style(color)] + Plain([left]);
    ShowsCat(t1, color + [left], [left], inner, iShown, iSpace);
    var t2 := t1 + inner;
    ShowsCat(t2, color + [left] + iShown, [left] + iSpace, Plain([right]), [right], [right]);
    var t3 := t2 + Plain([right]);
    ShowsCat(t3, color + [left] + iShown + [right], [left] + iSpace + [right], [Style(NORMAL)], NORMAL, "");
    ts := t3 + [Style(NORMAL)];
    assert [left] + iSpace + [right] + "" == [left] + iSpace + [right];
    assert ts[0] == t1[0];
  }

  /** What the scan reads from one row: well-formed tokens that start with the
      border colour, end by resetting the style and show `v`, which is `width`
      characters long. */
  ghost predicate RowScan(row: string, color: string, width: int, v: string)
  {
    var ts := Lex(row);
    WellFormed(ts) && Visible(ts) == v && |v| == width
    && |ts| >= 1 && ts[0] == Style(color) && ts[|ts| - 1] == Style(NORMAL)
  }

  function TopVisible(width: int, title: string): string
  {
    [TOP_LEFT] + TitleSpace(title) + Repeat(HORIZONTAL, width - |TitleSpace(title)| - 2) + [TOP_RIGHT]
  }

  function MiddleVisible(width: int): string
  {
    [VERTICAL] + Repeat(' ', width - 2) + [VERTICAL]
  }

  function BottomVisible(width: int): string
  {
    [BOTTOM_LEFT] + Repeat(HORIZONTAL, width - 2) + [BOTTOM_RIGHT]
  }

  /** The part of the top row between the corners. */
  lemma TopInner(width: int, title: string, isSelected: bool, isActive: bool) returns (inner: seq<Token>)
    requires ESC !in title
    requires width >= |TitleSpace(title)| + 2
    ensures Shows(inner, TitleDisplay(title, isSelected, isActive) + BorderColor(isSelected, isActive)
                         + Repeat(HORIZONTAL, width - |TitleSpace(title)| - 2),
                  TitleSpace(title) + Repeat(HORIZONTAL, width - |TitleSpace(title)| - 2))
  {
    ColorsAreCodes();
    var color := BorderColor(isSelected, isActive);
    var tt := TitleShows(title, isSelected, isActive);
    var shown, space := TitleDisplay(title, isSelected, isActive), TitleSpace(title);
    var fill := Repeat(HORIZONTAL, width - |space| - 2);
    ShowsCode(color);
    ShowsPlain(fill);
    ShowsCat(tt, shown, space, [Style(color)], color, "");
    assert space + "" == space;
    ShowsCat(tt + [Style(color)], shown + color, space, Plain(fill), fill, fill);
    inner := tt + [Style(color)] + Plain(fill);
  }

  /** The top row regrouped as corner, inner part, corner. */
  lemma TopRowParts(width: int, title: string, isSelected: bool, isActive: bool)
    requires width >= |TitleSpace(title)| + 2
    ensures var color, space := BorderColor(isSelected, isActive), TitleSpace(title);
      var fill := Repeat(HORIZONTAL, width - |space| - 2);
      && TopRow(width, title, isSelected, isActive)
         == color + [TOP_LEFT] + (TitleDisplay(title, isSelected, isActive) + color + fill) + [TOP_RIGHT] + NORMAL
      && TopVisible(width, title) == [TOP_LEFT] + (space + fill) + [TOP_RIGHT]
      && |TopVisible(width, title)| == width
  {
  }

  lemma TopFacts(width: int, title: string, isSelected: bool, isActive: bool)
    requires ESC !in title
    requires width >= |TitleSpace(title)| + 2
    ensures RowScan(TopRow(width, title, isSelected, isActive), BorderColor(isSelected, isActive), width,
                    TopVisible(width, title))
  {
    var color := BorderColor(isSelected, isActive);
    assert IsCode(color) by { ColorsAreCodes(); }
    var inner := TopInner(width, title, isSelected, isActive);
    var shown, space := TitleDisplay(title, isSelected, isActive), TitleSpace(title);
    var fill := Repeat(HORIZONTAL, width - |space| - 2);
    var top := FrameRowShows(color, TOP_LEFT, inner, shown + color + fill, space + fill, TOP_RIGHT);
    TopRowParts(width, title, isSelected, isActive);
    ScanOfShown(TopRow(width, title, isSelected, isActive), top, color, width, TopVisible(width, title));
  }

  lemma ScanOfShown(row: string, ts: seq<Token>, color: string, width: int, v: string)
    requires Shows(ts, row, v) && |v| == width
    requires |ts| >= 1 && ts[0] == Style(color) && ts[|ts| - 1] == Style(NORMAL)
    ensures RowScan(row, color, width, v)
  {
    LexRender(ts);
  }

  lemma MiddleFacts(width: int, color: string)
    requires width >= 2 && IsCode(color)
    ensures RowScan(MiddleRow(width, color), color, width, MiddleVisible(width))
  {
    var fill := Repeat(' ', width - 2);
    ShowsPlain(fill);
    var mid := FrameRowShows(color, VERTICAL, Plain(fill), fill, fill, VERTICAL);
    LexRender(mid);
  }

  lemma BottomFacts(width: int, color: string)
    requires width >= 2 && IsCode(color)
    ensures RowScan(BottomRow(width, color), color, width, BottomVisible(width))
  {
    var fill := Repeat(HORIZONTAL, width - 2);
    ShowsPlain(fill);
    var bot := FrameRowShows(color, BOTTOM_LEFT, Plain(fill), fill, fill, BOTTOM_RIGHT);
    LexRender(bot);
  }

  /** draw_box. Its asserts (Todo.py:405-407) demand that the title fit between
      the corners, which needs a width of at least 2, or len(title) + 4 with a
      title. Every row, read by the scan, is `width` columns wide, starts in the
      border colour and ends by resetting the style. */
  function DrawBox(width: int, height: int, title: string, isSelected: bool, isActive: bool): (box: seq<string>)
    requires ESC !in title
    requires width >= |TitleSpace(title)| + 2
    ensures |box| == 2 + Max(0, height - 2)
    ensures height >= 2 ==> |box| == height
    ensures RowScan(box[0], BorderColor(isSelected, isActive), width, TopVisible(width, title))
    ensures forall r :: 0 < r < |box| - 1 ==>
              RowScan(box[r], BorderColor(isSelected, isActive), width, MiddleVisible(width))
    ensures RowScan(box[|box| - 1], BorderColor(isSelected, isActive), width, BottomVisible(width))
  {
    var color := BorderColor(isSelected, isActive);
    ColorsAreCodes();
    TopFacts(width, title, isSelected, isActive);
    MiddleFacts(width, color);
    BottomFacts(width, color);
    var middles := Repeat(MiddleRow(width, color), height - 2);
    var box := [TopRow(width, title, isSelected, isActive)] + middles + [BottomRow(width, color)];
    assert forall r :: 0 < r < |box| - 1 ==> box[r] == middles[r - 1];
    box
  }
}
