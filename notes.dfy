/** The notes editor of handle_input (Todo.py:1003-1027 and Todo.py:1033-1124):
    the selected todo's notes text with a caret offset, an optional selection
    anchor and a clipboard. Every edit uses Python slicing on the caret, which
    matters because the caret can leave [0, len(notes)] (see UpCanMakeCursorNegative). */
module NotesEditor {
  import opened Base
  import TextGeometry

  datatype Editor = Editor(text: string, cursor: int, anchor: Option<int>, clipboard: string)

  /** Caret and anchor inside the text. */
  predicate InBounds(e: Editor)
  {
    0 <= e.cursor <= |e.text| && (e.anchor.Some? ==> 0 <= e.anchor.value <= |e.text|)
  }

  function SelStart(e: Editor): int
    requires e.anchor.Some?
  {
    Min(e.anchor.value, e.cursor)
  }

  function SelEnd(e: Editor): int
    requires e.anchor.Some?
  {
    Max(e.anchor.value, e.cursor)
  }

  /** Python `t[:at] + ins + t[at:]`. */
  function Splice(t: string, at: int, ins: string): string
  {
    Prefix(t, at) + ins + Suffix(t, at)
  }

  /** A printable character other than 'v' (Todo.py:1117-1122): spliced in at
      the caret, which moves past it; the selection is dropped. */
  function InsertChar(e: Editor, c: char): Editor
  {
    Editor(Splice(e.text, e.cursor, [c]), e.cursor + 1, None, e.clipboard)
  }

  /** Enter (Todo.py:1088-1091): a newline at the caret; the anchor is kept. */
  function Newline(e: Editor): Editor
  {
    Editor(Splice(e.text, e.cursor, "\n"), e.cursor + 1, e.anchor, e.clipboard)
  }

  /** Backspace (Todo.py:1094-1106): deletes the selection if there is one,
      otherwise the character before the caret; nothing at offset 0. */
  function Backspace(e: Editor): Editor
  {
    if e.anchor.Some? then
      Editor(Prefix(e.text, SelStart(e)) + Suffix(e.text, SelEnd(e)), SelStart(e), None, e.clipboard)
    else if e.cursor > 0 then
      Editor(Prefix(e.text, e.cursor - 1) + Suffix(e.text, e.cursor), e.cursor - 1, None, e.clipboard)
    else e
  }

  /** 'v' (Todo.py:1109-1114): sets the anchor at the caret, or clears it. */
  function ToggleAnchor(e: Editor): Editor
  {
    if e.anchor.None? then e.(anchor := Some(e.cursor)) else e.(anchor := None)
  }

  /** Ctrl-C (Todo.py:1052-1063): copies the selection, or the whole text. */
  function Copy(e: Editor): Editor
  {
    if e.anchor.None? then e.(clipboard := e.text)
    else e.(clipboard := Slice(e.text, SelStart(e), SelEnd(e)))
  }

  /** Ctrl-X (Todo.py:1066-1077): moves the selection to the clipboard; without
      a selection it does nothing. */
  function Cut(e: Editor): Editor
  {
    if e.anchor.None? then e
    else Editor(Prefix(e.text, SelStart(e)) + Suffix(e.text, SelEnd(e)), SelStart(e), None,
                Slice(e.text, SelStart(e), SelEnd(e)))
  }

  /** Ctrl-V (Todo.py:1080-1085): the clipboard at the caret, which moves past
      it; an empty clipboard does nothing. The anchor is kept. */
  function Paste(e: Editor): Editor
  {
    if e.clipboard == [] then e
    else e.(text := Splice(e.text, e.cursor, e.clipboard), cursor := e.cursor + |e.clipboard|)
  }

  /** Left and Right arrows (Todo.py:1024-1027). */
  function Left(e: Editor): Editor
  {
    e.(cursor := Max(0, e.cursor - 1))
  }

  function Right(e: Editor): Editor
  {
    e.(cursor := Min(|e.text|, e.cursor + 1))
  }

  /** Up and Down arrows (Todo.py:1015-1022): through the display coordinates
      of a layout `width` wide; the column is kept as computed. */
  function Up(e: Editor, width: int): Editor
    requires width >= 1
  {
    var (r, c) := TextGeometry.RowColOf(e.text, width, e.cursor);
    e.(cursor := TextGeometry.OffsetAt(e.text, width, Max(0, r - 1), c))
  }

  function Down(e: Editor, width: int): Editor
    requires width >= 1
  {
    var (r, c) := TextGeometry.RowColOf(e.text, width, e.cursor);
    e.(cursor := TextGeometry.OffsetAt(e.text, width, r + 1, c))
  }

  // ---------------------------------------------------------------------------
  // Properties

  /** Typing a character puts it at the caret, and Backspace takes it out
      again, restoring text and caret. */
  lemma InsertThenBackspace(e: Editor, c: char)
    requires InBounds(e)
    ensures var e1 := InsertChar(e, c);
      InBounds(e1) && |e1.text| == |e.text| + 1 && e1.text[e.cursor] == c
      && e1.text[..e.cursor] == e.text[..e.cursor] && e1.text[e.cursor + 1..] == e.text[e.cursor..]
    ensures Backspace(InsertChar(e, c)) == e.(anchor := None)
  {
    var t, k := e.text, e.cursor;
    var t1 := t[..k] + [c] + t[k..];
    assert InsertChar(e, c).text == t1;
    assert t1[..k] == t[..k] && t1[k + 1..] == t[k..];
    assert t1[..k] + t1[k + 1..] == t;
  }

  /** Enter puts a newline at the caret and keeps the selection; without a
      selection Backspace undoes it. */
  lemma NewlineThenBackspace(e: Editor)
    requires InBounds(e)
    ensures var e1 := Newline(e);
      InBounds(e1) && e1.anchor == e.anchor && e1.cursor == e.cursor + 1
      && e1.text == e.text[..e.cursor] + "\n" + e.text[e.cursor..]
    ensures e.anchor.None? ==> Backspace(Newline(e)) == e
  {
    var t, k := e.text, e.cursor;
    var t1 := t[..k] + "\n" + t[k..];
    assert Newline(e).text == t1;
    assert t1[..k] + t1[k + 1..] == t;
  }

  /** Backspace with a selection removes exactly the selected range and puts
      the caret at its start; without one it removes the character before the
      caret, and at offset 0 it does nothing. */
  lemma BackspaceFacts(e: Editor)
    requires InBounds(e)
    ensures InBounds(Backspace(e)) && Backspace(e).anchor.None?
    ensures e.anchor.Some? ==>
      Backspace(e).text == e.text[..SelStart(e)] + e.text[SelEnd(e)..]
      && |Backspace(e).text| == |e.text| - (SelEnd(e) - SelStart(e))
      && Backspace(e).cursor == SelStart(e)
    ensures e.anchor.None? && e.cursor == 0 ==> Backspace(e) == e
    ensures e.anchor.None? && e.cursor > 0 ==>
      Backspace(e).text == e.text[..e.cursor - 1] + e.text[e.cursor..] && Backspace(e).cursor == e.cursor - 1
  {
  }

  /** Cut and then Paste at the caret it leaves gives back the text and puts
      the caret at the end of the old selection. */
  lemma CutThenPaste(e: Editor)
    requires InBounds(e) && e.anchor.Some?
    ensures Paste(Cut(e)).text == e.text
    ensures Paste(Cut(e)).cursor == SelEnd(e) && Paste(Cut(e)).anchor.None?
    ensures Cut(e).clipboard == e.text[SelStart(e)..SelEnd(e)]
  {
    var t, a, b := e.text, SelStart(e), SelEnd(e);
    var c := Cut(e);
    assert c.text == t[..a] + t[b..] && c.cursor == a;
    assert c.text[..a] == t[..a] && c.text[a..] == t[b..];
    if a < b {
      assert c.clipboard == t[a..b] != [];
      assert Paste(c).text == t[..a] + t[a..b] + t[b..];
      assert t[..a] + t[a..b] + t[b..] == t;
    } else {
      assert t[..a] + t[b..] == t;
    }
  }

  /** Without a selection Cut changes nothing. */
  lemma CutWithoutSelection(e: Editor)
    requires e.anchor.None?
    ensures Cut(e) == e
  {
  }

  /** Copy never changes the text, the caret or the anchor; it copies the
      selection, or the whole text. */
  lemma CopyFacts(e: Editor)
    requires InBounds(e)
    ensures Copy(e).text == e.text && Copy(e).cursor == e.cursor && Copy(e).anchor == e.anchor
    ensures Copy(e).clipboard == if e.anchor.None? then e.text else e.text[SelStart(e)..SelEnd(e)]
  {
  }

  /** Pasting inserts the clipboard at the caret and moves past it; an empty
      clipboard does nothing. */
  lemma PasteFacts(e: Editor)
    requires InBounds(e)
    ensures InBounds(Paste(e))
    ensures e.clipboard == [] ==> Paste(e) == e
    ensures e.clipboard != [] ==>
      Paste(e).text == e.text[..e.cursor] + e.clipboard + e.text[e.cursor..]
      && Paste(e).cursor == e.cursor + |e.clipboard|
  {
  }

  /** Pressing 'v' twice with no selection comes back to no selection, the
      caret unmoved. */
  lemma ToggleTwice(e: Editor)
    requires e.anchor.None?
    ensures ToggleAnchor(e).anchor == Some(e.cursor)
    ensures ToggleAnchor(ToggleAnchor(e)) == e
  {
  }

  /** Left and Right keep the caret inside the text, and undo each other away
      from the ends. */
  lemma LeftRightFacts(e: Editor)
    requires InBounds(e)
    ensures InBounds(Left(e)) && InBounds(Right(e))
    ensures e.cursor > 0 ==> Right(Left(e)) == e
    ensures e.cursor < |e.text| ==> Left(Right(e)) == e
  {
  }

  /** Every command but Up and Down keeps caret and anchor inside the text. */
  lemma EditsKeepInBounds(e: Editor, c: char)
    requires InBounds(e)
    ensures InBounds(InsertChar(e, c)) && InBounds(Newline(e)) && InBounds(Backspace(e))
    ensures InBounds(ToggleAnchor(e)) && InBounds(Copy(e)) && InBounds(Cut(e)) && InBounds(Paste(e))
  {
    InsertThenBackspace(e, c);
    NewlineThenBackspace(e);
    BackspaceFacts(e);
    PasteFacts(e);
  }

  /** On a single line that does not wrap, Up keeps the caret where it is and
      Down moves it to the end of the text. */
  lemma SingleLineUpDown(e: Editor, width: int)
    requires width >= 1 && '\n' !in e.text && |e.text| <= width && InBounds(e)
    ensures Up(e, width).cursor == e.cursor
    ensures Down(e, width).cursor == |e.text|
  {
    TextGeometry.SingleLineRowCol(e.text, width, e.cursor);
    TextGeometry.SingleLineOffset(e.text, width, 0, e.cursor);
    TextGeometry.SingleLineOffset(e.text, width, 1, e.cursor);
  }

  /** Up from the second row of a wrapped paragraph can put the caret before
      the start of the text. At width 10, the narrowest notes panel, offset 12
      of a 15-character line is reported at (1, -8), and row 0, column -8
      maps to -8. */
  lemma UpCanMakeCursorNegative()
    ensures Up(Editor("abcdefghijklmno", 12, None, ""), 10).cursor == -8
  {
    var t := "abcdefghijklmno";
    assert '\n' !in t;
    assert TextGeometry.Split(t) == [t];
    assert TextGeometry.ChunkScan(15, 10, 10, 12, 1, 10) == TextGeometry.Found(1, -8);
    assert TextGeometry.RowColOf(t, 10, 12) == (1, -8);
    assert TextGeometry.ChunkFind(15, 0, 10, 0, -8, 0, 0) == TextGeometry.At(-8);
  }

  /** Down can put the caret past the end: at width 10, from offset 2 of a
      15-character line it goes to 17. */
  lemma DownCanPassTheEnd()
    ensures Down(Editor("abcdefghijklmno", 2, None, ""), 10).cursor == 17
  {
    var t := "abcdefghijklmno";
    assert '\n' !in t;
    assert TextGeometry.Split(t) == [t];
    assert TextGeometry.RowColOf(t, 10, 2) == (0, 2);
    assert TextGeometry.ChunkFind(15, 10, 10, 1, 2, 1, 5) == TextGeometry.At(17);
  }

  /** With the caret at -8 after such an Up, typing follows Python's negative
      slicing: the character goes in eight places before the end. */
  lemma InsertAtNegativeCursor()
    ensures InsertChar(Editor("abcdefghijklmno", -8, None, ""), 'x').text == "abcdefgxhijklmno"
  {
    assert Prefix("abcdefghijklmno", -8) == "abcdefg" && Suffix("abcdefghijklmno", -8) == "hijklmno";
  }
}
