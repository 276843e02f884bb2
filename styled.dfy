/** Styled terminal text. The program colours text by embedding SGR escape
    sequences ("select graphic rendition", ESC '[' parameters 'm', section 8.3.117
    of ECMA-48) in ordinary strings. A styled string is modelled as a sequence of
    tokens: a style escape, which occupies no column, or one visible character.
    `Lex` is the scan the canvas writer performs on a string (Todo.py:545-551):
    an ESC starts an escape that runs up to and including the next 'm', or to the
    end of the string when there is none. */
module Styled {

  const ESC: char := '\U{1B}'

  /** The colour constants of Todo.py:25-34 and the reverse-video escape of
      Todo.py:879. */
  const NORMAL: string := "\U{1B}[0m"
  const BLUE: string := "\U{1B}[34m"
  const GREEN: string := "\U{1B}[32m"
  const RED: string := "\U{1B}[31m"
  const YELLOW: string := "\U{1B}[33m"
  const CYAN: string := "\U{1B}[36m"
  const MAGENTA: string := "\U{1B}[35m"
  const GRAY: string := "\U{1B}[90m"
  const WHITE: string := "\U{1B}[97m"
  const BLUE_BG: string := "\U{1B}[44m"
  const REVERSE: string := "\U{1B}[7m"

  /** The colour groups of Todo.py:37-46. */
  const SELECTED_COLOR: string := BLUE
  const ACTIVE_COLOR: string := GREEN
  const PRIORITY_COLORS: seq<string> := [RED, YELLOW, GREEN, WHITE]
  const INFO_LABEL_COLOR: string := CYAN
  const DEADLINE_COLOR: string := GRAY
  const CREATED_COLOR: string := GRAY
  const STATUS_OK: string := GREEN
  const STATUS_WARN: string := YELLOW
  const TAB_BG: string := BLUE_BG
  const TAB_FG: string := WHITE

  datatype Token = Style(code: string) | Ch(c: char)

  /** A complete escape: ESC, then no 'm' until the final 'm'. */
  predicate IsCode(code: string)
  {
    |code| >= 2 && code[0] == ESC && code[|code| - 1] == 'm' && 'm' !in code[..|code| - 1]
  }

  /** Tokens that print back to a string the scan reads as the same tokens:
      complete escapes, and no visible ESC. */
  predicate WellFormed(ts: seq<Token>)
  {
    forall i :: 0 <= i < |ts| ==>
      match ts[i]
      case Style(code) => IsCode(code)
      case Ch(c) => c != ESC
  }

  /** The string a token sequence prints as. */
  function Render(ts: seq<Token>): string
  {
    if ts == [] then [] else
      match ts[0]
      case Style(code) => code + Render(ts[1..])
      case Ch(c) => [c] + Render(ts[1..])
  }

  /** The characters that take up columns. */
  function Visible(ts: seq<Token>): string
  {
    if ts == [] then [] else
      match ts[0]
      case Style(_) => Visible(ts[1..])
      case Ch(c) => [c] + Visible(ts[1..])
  }

  /** Plain text, one token per character. */
  function Plain(s: string): seq<Token>
  {
    if s == [] then [] else [Ch(s[0])] + Plain(s[1..])
  }

  /** Length of the escape at the start of `s` (which starts with ESC): up to and
      including the first 'm', or all of `s`. */
  function CodeLen(s: string): (n: nat)
    requires s != [] && s[0] == ESC
    ensures 1 <= n <= |s|
  {
    FirstM(s, 1)
  }

  /** The escape ends at its first 'm', or runs to the end of `s` when there is
      none. */
  lemma CodeLenFacts(s: string)
    requires s != [] && s[0] == ESC
    ensures var n := CodeLen(s);
      && (n < |s| || 'm' !in s[..n - 1])
      && (n == |s| ==> 'm' !in s[..n - 1] || s[n - 1] == 'm')
      && (n >= 2 && s[n - 1] == 'm' ==> 'm' !in s[..n - 1])
      && (n < |s| ==> n >= 2 && s[n - 1] == 'm')
  {
    FirstMFacts(s, 1);
  }

  /** Index of the first 'm' at or after `i`, plus one; |s| when there is none. */
  function FirstM(s: string, i: nat): (n: nat)
    requires 1 <= i <= |s|
    ensures i <= n <= |s|
    decreases |s| - i
  {
    if i == |s| then |s|
    else if s[i] == 'm' then i + 1
    else FirstM(s, i + 1)
  }

  lemma {:induction false} FirstMFacts(s: string, i: nat)
    requires 1 <= i <= |s| && 'm' !in s[..i]
    ensures var n := FirstM(s, i);
      && (n > i || n == |s|)
      && (n < |s| ==> s[n - 1] == 'm' && 'm' !in s[..n - 1])
      && (n == |s| ==> 'm' !in s[..n - 1] || s[n - 1] == 'm')
      && (n > i && s[n - 1] == 'm' ==> 'm' !in s[..n - 1])
    decreases |s| - i
  {
    if i < |s| && s[i] != 'm' {
      assert s[..i + 1] == s[..i] + [s[i]];
      FirstMFacts(s, i + 1);
    }
  }

  /** How the canvas writer splits a string into escapes and characters. */
  function Lex(s: string): seq<Token>
    decreases |s|
  {
    if s == [] then []
    else if s[0] == ESC then
      var n := CodeLen(s);
      [Style(s[..n])] + Lex(s[n..])
    else [Ch(s[0])] + Lex(s[1..])
  }

  lemma {:induction false} RenderAppend(a: seq<Token>, b: seq<Token>)
    ensures Render(a + b) == Render(a) + Render(b)
    decreases |a|
  {
    if a != [] {
      RenderAppend(a[1..], b);
      assert (a + b)[0] == a[0] && (a + b)[1..] == a[1..] + b;
      match a[0]
      case Style(code) => assert Render(a + b) == code + Render(a[1..] + b);
      case Ch(c) => assert Render(a + b) == [c] + Render(a[1..] + b);
    } else {
      assert a + b == b;
    }
  }

  lemma {:induction false} VisibleAppend(a: seq<Token>, b: seq<Token>)
    ensures Visible(a + b) == Visible(a) + Visible(b)
    decreases |a|
  {
    if a != [] {
      VisibleAppend(a[1..], b);
      assert (a + b)[0] == a[0] && (a + b)[1..] == a[1..] + b;
      match a[0]
      case Style(code) => assert Visible(a + b) == Visible(a[1..] + b);
      case Ch(c) => assert Visible(a + b) == [c] + Visible(a[1..] + b);
    } else {
      assert a + b == b;
    }
  }

  /** Plain text prints as itself, shows as itself and is well formed when it
      holds no ESC. */
  lemma {:induction false} PlainFacts(s: string)
    ensures Render(Plain(s)) == s && Visible(Plain(s)) == s && |Plain(s)| == |s|
    ensures ESC !in s ==> WellFormed(Plain(s))
    decreases |s|
  {
    if s != [] {
      PlainFacts(s[1..]);
      var p := Plain(s);
      assert p[1..] == Plain(s[1..]);
      if ESC !in s {
        assert ESC !in s[1..] by {
          forall i | 0 <= i < |s[1..]| ensures s[1..][i] != ESC { assert s[1..][i] == s[i + 1]; }
        }
        forall i | 0 <= i < |p|
          ensures match p[i] case Style(code) => IsCode(code) case Ch(c) => c != ESC
        {
          if i > 0 { assert p[i] == Plain(s[1..])[i - 1]; } else { assert p[0] == Ch(s[0]); }
        }
      }
    }
  }

  lemma PlainAppend(a: string, b: string)
    ensures Plain(a + b) == Plain(a) + Plain(b)
    decreases |a|
  {
    if a != [] {
      PlainAppend(a[1..], b);
      assert (a + b)[0] == a[0] && (a + b)[1..] == a[1..] + b;
      assert Plain(a + b) == [Ch(a[0])] + Plain(a[1..] + b);
    } else {
      assert a + b == b;
    }
  }

  /** The scan loses nothing: the pieces it cuts a string into print back to it. */
  lemma {:induction false} RenderLex(s: string)
    ensures Render(Lex(s)) == s
    decreases |s|
  {
    if s != [] {
      if s[0] == ESC {
        var n := CodeLen(s);
        RenderLex(s[n..]);
        assert ([Style(s[..n])] + Lex(s[n..]))[1..] == Lex(s[n..]);
        assert s == s[..n] + s[n..];
      } else {
        RenderLex(s[1..]);
        assert ([Ch(s[0])] + Lex(s[1..]))[1..] == Lex(s[1..]);
        assert s == [s[0]] + s[1..];
      }
    }
  }

  lemma CodeLenOfCode(code: string, rest: string)
    requires IsCode(code)
    ensures (code + rest)[0] == ESC && CodeLen(code + rest) == |code|
  {
    var s := code + rest;
    CodeLenFacts(s);
    assert s[..|code|] == code;
  }

  /** Well-formed tokens survive printing and scanning unchanged. */
  lemma {:induction false} LexRender(ts: seq<Token>)
    requires WellFormed(ts)
    ensures Lex(Render(ts)) == ts
    decreases |ts|
  {
    if ts != [] {
      assert WellFormed(ts[1..]) by {
        forall i | 0 <= i < |ts[1..]| ensures ts[1..][i] == ts[i + 1] { }
      }
      LexRender(ts[1..]);
      var s := Render(ts);
      match ts[0]
      case Style(code) =>
        assert s == code + Render(ts[1..]);
        CodeLenOfCode(code, Render(ts[1..]));
        assert s[..|code|] == code && s[|code|..] == Render(ts[1..]);
      case Ch(c) =>
        assert s == [c] + Render(ts[1..]);
        assert s[1..] == Render(ts[1..]);
    }
  }

  /** The escape of a well-formed token sequence in effect before its k-th
      visible character, starting from `color`. */
  function StyleAt(ts: seq<Token>, k: nat, color: string): string
    decreases |ts|
  {
    if ts == [] then color else
      match ts[0]
      case Style(code) => StyleAt(ts[1..], k, code)
      case Ch(_) => if k == 0 then color else StyleAt(ts[1..], k - 1, color)
  }

  /** The escape in effect after all of `ts`, starting from `color`. */
  function LastStyle(ts: seq<Token>, color: string): string
    decreases |ts|
  {
    if ts == [] then color else
      match ts[0]
      case Style(code) => LastStyle(ts[1..], code)
      case Ch(_) => LastStyle(ts[1..], color)
  }

  lemma {:induction false} LastStyleAppend(a: seq<Token>, b: seq<Token>, color: string)
    ensures LastStyle(a + b, color) == LastStyle(b, LastStyle(a, color))
    decreases |a|
  {
    if a != [] {
      assert (a + b)[0] == a[0] && (a + b)[1..] == a[1..] + b;
      match a[0]
      case Style(code) => LastStyleAppend(a[1..], b, code);
      case Ch(_) => LastStyleAppend(a[1..], b, color);
    } else {
      assert a + b == b;
    }
  }

  /** A sequence ending in a style escape leaves that escape in effect. */
  lemma LastStyleEndsWith(a: seq<Token>, code: string, color: string)
    ensures LastStyle(a + [Style(code)], color) == code
  {
    LastStyleAppend(a, [Style(code)], color);
    assert [Style(code)][1..] == [];
  }

  lemma {:induction false} WellFormedAppend(a: seq<Token>, b: seq<Token>)
    requires WellFormed(a) && WellFormed(b)
    ensures WellFormed(a + b)
  {
    forall i | 0 <= i < |a + b|
      ensures match (a + b)[i] case Style(code) => IsCode(code) case Ch(c) => c != ESC
    {
      if i < |a| { assert (a + b)[i] == a[i]; } else { assert (a + b)[i] == b[i - |a|]; }
    }
  }

  /** The escapes used by the program are complete SGR escapes. */
  lemma ColorsAreCodes()
    ensures IsCode(NORMAL) && IsCode(BLUE) && IsCode(GREEN) && IsCode(RED) && IsCode(YELLOW)
    ensures IsCode(CYAN) && IsCode(MAGENTA) && IsCode(GRAY) && IsCode(WHITE) && IsCode(BLUE_BG)
    ensures IsCode(REVERSE)
    ensures forall i :: 0 <= i < |PRIORITY_COLORS| ==> IsCode(PRIORITY_COLORS[i])
  {
    assert NORMAL[..|NORMAL| - 1] == "\U{1B}[0";
    assert BLUE[..|BLUE| - 1] == "\U{1B}[34";
    assert GREEN[..|GREEN| - 1] == "\U{1B}[32";
    assert RED[..|RED| - 1] == "\U{1B}[31";
    assert YELLOW[..|YELLOW| - 1] == "\U{1B}[33";
    assert CYAN[..|CYAN| - 1] == "\U{1B}[36";
    assert MAGENTA[..|MAGENTA| - 1] == "\U{1B}[35";
    assert GRAY[..|GRAY| - 1] == "\U{1B}[90";
    assert WHITE[..|WHITE| - 1] == "\U{1B}[97";
    assert BLUE_BG[..|BLUE_BG| - 1] == "\U{1B}[44";
    assert REVERSE[..|REVERSE| - 1] == "\U{1B}[7";
  }

  /** An escape without a closing 'm' swallows the rest of the string, visible
      characters included. */
  lemma UnterminatedEscapeSwallowsText()
    ensures Lex("\U{1B}[31abc") == [Style("\U{1B}[31abc")]
    ensures Visible(Lex("\U{1B}[31abc")) == ""
  {
    var s := "\U{1B}[31abc";
    assert 'm' !in s;
    CodeLenFacts(s);
    assert CodeLen(s) == |s|;
    assert s[..|s|] == s && s[|s|..] == [];
  }
}
