/** The prototype's frame object (src/frame.py): a size, a position, the
    content lines and an initialized flag, held by closures and changed by its
    setters and by `init`. Here the frame is a class whose fields are that
    state; the size and position vectors become pairs of fields, since each
    setter overwrites both of their components. */
module PrototypeFrame {

  /** The content has `height` lines, each `width` characters long: what
      `init` checks before the renderer may use the frame. */
  predicate Fits(content: seq<string>, width: int, height: int)
  {
    |content| == height && forall k :: 0 <= k < |content| ==> |content[k]| == width
  }

  class Frame {
    var width: int
    var height: int
    var x: real
    var y: real
    var content: seq<string>
    var initialized: bool

    /** `new(content)`: size (0, 0), position (0, 0), not initialized. */
    constructor(content: seq<string>)
      ensures width == 0 && height == 0 && x == 0.0 && y == 0.0
      ensures this.content == content && !initialized
    {
      width, height := 0, 0;
      x, y := 0.0, 0.0;
      this.content := content;
      initialized := false;
    }

    method GetSize() returns (w: int, h: int)
      ensures w == width && h == height
    {
      w, h := width, height;
    }

    method GetPosition() returns (px: real, py: real)
      ensures px == x && py == y
    {
      px, py := x, y;
    }

    method GetContent() returns (c: seq<string>)
      ensures c == content
    {
      c := content;
    }

    method IsInitialized() returns (b: bool)
      ensures b == initialized
    {
      b := initialized;
    }

    /** The setters change their own part of the state and nothing else; in
        particular none of them clears the initialized flag. */
    method SetSize(w: int, h: int)
      modifies this
      ensures width == w && height == h
      ensures x == old(x) && y == old(y) && content == old(content) && initialized == old(initialized)
    {
      width, height := w, h;
    }

    method SetPosition(px: real, py: real)
      modifies this
      ensures x == px && y == py
      ensures width == old(width) && height == old(height) && content == old(content)
      ensures initialized == old(initialized)
    {
      x, y := px, py;
    }

    method SetContent(c: seq<string>)
      modifies this
      ensures content == c
      ensures width == old(width) && height == old(height) && x == old(x) && y == old(y)
      ensures initialized == old(initialized)
    {
      content := c;
    }

    /** `init`: true exactly when the content fits the size, in which case the
        frame becomes initialized; a failed check leaves the flag as it was.
        Size, position and content never change. */
    method Init() returns (ok: bool)
      modifies this
      ensures ok == Fits(old(content), old(width), old(height))
      ensures initialized == (old(initialized) || ok)
      ensures width == old(width) && height == old(height) && x == old(x) && y == old(y)
      ensures content == old(content)
    {
      if |content| != height {
        return false;
      }
      var i := 0;
      while i < |content|
        invariant 0 <= i <= |content|
        invariant forall k :: 0 <= k < i ==> |content[k]| == width
      {
        if |content[i]| != width {
          return false;
        }
        i := i + 1;
      }
      initialized := true;
      return true;
    }
  }

  // ---------------------------------------------------------------------------
  // Properties

  /** A fresh frame passes `init` only when its content is empty: the size
      starts at (0, 0). */
  lemma FreshFrameFits(content: seq<string>)
    ensures Fits(content, 0, 0) <==> content == []
  {
  }

  /** Fitting pins the size down: content fits at most one size (any width
      when it has no lines). */
  lemma FitsDeterminesSize(content: seq<string>, w1: int, h1: int, w2: int, h2: int)
    requires Fits(content, w1, h1) && Fits(content, w2, h2)
    ensures h1 == h2
    ensures content != [] ==> w1 == w2
  {
    if content != [] {
      assert |content[0]| == w1 && |content[0]| == w2;
    }
  }

  /** Fitting content still fits after one line is replaced by another of the
      same length. */
  lemma FitsAfterLineReplace(content: seq<string>, w: int, h: int, k: int, line: string)
    requires Fits(content, w, h) && 0 <= k < |content| && |line| == w
    ensures Fits(content[k := line], w, h)
  {
  }

  /** Resizing, moving and refilling a frame keeps its initialized flag, even
      when the new content no longer fits the new size. */
  method NoSetterClearsTheFlag(f: Frame, w: int, h: int, px: real, py: real, c: seq<string>)
    modifies f
    ensures f.initialized == old(f.initialized)
    ensures f.width == w && f.height == h && f.x == px && f.y == py && f.content == c
  {
    f.SetSize(w, h);
    f.SetPosition(px, py);
    f.SetContent(c);
  }

  /** Setting a size and a content that fits it, `init` succeeds and marks the
      frame initialized. */
  method SetThenInit(f: Frame, w: int, h: int, c: seq<string>) returns (ok: bool)
    requires Fits(c, w, h)
    modifies f
    ensures ok && f.initialized
    ensures f.width == w && f.height == h && f.content == c
  {
    f.SetSize(w, h);
    f.SetContent(c);
    ok := f.Init();
  }
}
