/** Text geometry of the notes editor (Todo.py:239-324): a raw notes buffer is
    split on '\n' into paragraphs, every paragraph is hard-cut into display lines
    of at most `width` characters, and raw offsets are mapped to and from
    (row, col) display coordinates.

    Each source helper is a method with the source's loops, proved equal to a
    recursive specification function; the lemmas are about those functions.
    The two coordinate mappings are modelled as written: they agree only on a
    single line that does not wrap (see the counterexample lemmas at the end). */
module TextGeometry {
  import opened Base

  // ---------------------------------------------------------------------------
  // Paragraphs: Python's raw.split('\n')

  /** Index of the first '\n' in `s`, or |s| when there is none. */
  function FirstNewline(s: string): (k: nat)
    ensures k <= |s|
    ensures k < |s| ==> s[k] == '\n'
  {
    if s == [] then 0 else if s[0] == '\n' then 0 else 1 + FirstNewline(s[1..])
  }

  /** No newline comes before the first one. */
  lemma {:induction false} BeforeFirstNewline(s: string)
    ensures '\n' !in s[..FirstNewline(s)]
    decreases |s|
  {
    if s != [] && s[0] != '\n' {
      BeforeFirstNewline(s[1..]);
      assert s[..FirstNewline(s)] == [s[0]] + s[1..][..FirstNewline(s[1..])];
    }
  }

  /** Python `s.split('\n')`: never empty; "" gives [""]. */
  function Split(s: string): (ps: seq<string>)
    ensures |ps| >= 1
    ensures '\n' !in s ==> ps == [s]
    decreases |s|
  {
    var k := FirstNewline(s);
    if k == |s| then [s] else [s[..k]] + Split(s[k + 1..])
  }

  /** Sum of |p| + 1 over the paragraphs: each paragraph plus the newline after it. */
  function SpanOf(ps: seq<string>): nat
  {
    if ps == [] then 0 else |ps[0]| + 1 + SpanOf(ps[1..])
  }

  /** The paragraphs of `s` with the newlines between them cover `s` exactly. */
  lemma {:induction false} SplitSpan(s: string)
    ensures SpanOf(Split(s)) == |s| + 1
    decreases |s|
  {
    var k := FirstNewline(s);
    if k == |s| {
      assert Split(s) == [s];
      assert SpanOf([s]) == |s| + 1 + SpanOf([]);
    } else {
      var ps, rest := Split(s), Split(s[k + 1..]);
      SplitSpan(s[k + 1..]);
      assert ps == [s[..k]] + rest;
      assert ps[0] == s[..k] && ps[1..] == rest;
    }
  }

  /** No paragraph of `s` contains a newline. */
  lemma {:induction false} SplitNoNewline(s: string)
    ensures forall i :: 0 <= i < |Split(s)| ==> '\n' !in Split(s)[i]
    decreases |s|
  {
    var k := FirstNewline(s);
    BeforeFirstNewline(s);
    if k == |s| {
      assert s[..k] == s;
      assert Split(s) == [s];
    } else {
      var ps, rest := Split(s), Split(s[k + 1..]);
      SplitNoNewline(s[k + 1..]);
      assert ps == [s[..k]] + rest;
      forall i | 0 <= i < |ps| ensures '\n' !in ps[i] {
        if i > 0 { assert ps[i] == rest[i - 1]; }
      }
    }
  }

  /** The paragraphs of `s` contain no newline and, with the newlines between
      them, cover `s` exactly. */
  lemma SplitFacts(s: string)
    ensures SpanOf(Split(s)) == |s| + 1
    ensures forall i :: 0 <= i < |Split(s)| ==> '\n' !in Split(s)[i]
  {
    SplitSpan(s);
    SplitNoNewline(s);
  }

  // ---------------------------------------------------------------------------
  // build_display_lines (Todo.py:239-261)

  /** Chunks `p[i:i+width]` for i = 0, width, 2*width, ... while i < |p|. */
  function ChunkTexts(p: string, width: int): seq<string>
    requires width >= 1
    decreases |p|
  {
    if p == [] then []
    else if |p| <= width then [p]
    else [p[..width]] + ChunkTexts(p[width..], width)
  }

  /** The raw offsets of those chunks, when `p` starts at raw offset `off`. */
  function ChunkStarts(p: string, width: int, off: int): seq<int>
    requires width >= 1
    decreases |p|
  {
    if p == [] then []
    else if |p| <= width then [off]
    else [off] + ChunkStarts(p[width..], width, off + width)
  }

  /** Display lines of one paragraph: its chunks, or one "" when it is empty. */
  function ParaTexts(p: string, width: int): seq<string>
    requires width >= 1
  {
    if p == [] then [""] else ChunkTexts(p, width)
  }

  function ParaStarts(p: string, width: int, off: int): seq<int>
    requires width >= 1
  {
    if p == [] then [off] else ChunkStarts(p, width, off)
  }

  function LinesOf(ps: seq<string>, width: int): seq<string>
    requires width >= 1
  {
    if ps == [] then [] else ParaTexts(ps[0], width) + LinesOf(ps[1..], width)
  }

  function StartsOf(ps: seq<string>, width: int, off: int): seq<int>
    requires width >= 1
  {
    if ps == [] then []
    else ParaStarts(ps[0], width, off) + StartsOf(ps[1..], width, off + |ps[0]| + 1)
  }

  /** The `lines` result of build_display_lines. */
  function DisplayLines(raw: string, width: int): seq<string>
    requires width >= 1
  {
    LinesOf(Split(raw), width)
  }

  /** The `starts` result of build_display_lines. */
  function DisplayStarts(raw: string, width: int): seq<int>
    requires width >= 1
  {
    StartsOf(Split(raw), width, 0)
  }

  /** `p[i:]` for a loop counter that may step past the end. */
  function Rest(p: string, i: nat): string
  {
    if i <= |p| then p[i..] else []
  }

  /** The inner `while i < len(paragraph)` loop of build_display_lines: appends
      the chunks of `paragraph`, which starts at raw offset `off`. */
  method AppendChunks(lines0: seq<string>, starts0: seq<int>, paragraph: string, width: int, off: int)
    returns (lines: seq<string>, starts: seq<int>)
    requires width >= 1
    ensures lines == lines0 + ChunkTexts(paragraph, width)
    ensures starts == starts0 + ChunkStarts(paragraph, width, off)
  {
    lines, starts := lines0, starts0;
    var i := 0;
    while i < |paragraph|
      invariant lines0 + ChunkTexts(paragraph, width) == lines + ChunkTexts(Rest(paragraph, i), width)
      invariant starts0 + ChunkStarts(paragraph, width, off)
             == starts + ChunkStarts(Rest(paragraph, i), width, off + i)
      decreases |paragraph| - i
    {
      var q := paragraph[i..];
      if |q| <= width {
        assert paragraph[i..Min(i + width, |paragraph|)] == q;
        assert Rest(paragraph, i + width) == [];
      } else {
        assert paragraph[i..Min(i + width, |paragraph|)] == q[..width];
        assert Rest(paragraph, i + width) == q[width..];
      }
      lines := lines + [paragraph[i..Min(i + width, |paragraph|)]];
      starts := starts + [off + i];
      i := i + width;
    }
    assert Rest(paragraph, i) == [];
  }

  /** `acc` followed by the display lines of the paragraphs `ps`, built the way
      the loop of build_display_lines appends them. */
  function LinesFrom(acc: seq<string>, ps: seq<string>, width: int): seq<string>
    requires width >= 1
    decreases |ps|
  {
    if ps == [] then acc else LinesFrom(acc + ParaTexts(ps[0], width), ps[1..], width)
  }

  function StartsFrom(acc: seq<int>, ps: seq<string>, width: int, off: int): seq<int>
    requires width >= 1
    decreases |ps|
  {
    if ps == [] then acc
    else StartsFrom(acc + ParaStarts(ps[0], width, off), ps[1..], width, off + |ps[0]| + 1)
  }

  lemma {:induction false} LinesFromIs(acc: seq<string>, ps: seq<string>, width: int)
    requires width >= 1
    ensures LinesFrom(acc, ps, width) == acc + LinesOf(ps, width)
    decreases |ps|
  {
    if ps != [] {
      var head, tail := ParaTexts(ps[0], width), LinesOf(ps[1..], width);
      LinesFromIs(acc + head, ps[1..], width);
      assert LinesOf(ps, width) == head + tail;
      AppendAssoc(acc, head, tail);
    }
  }

  lemma {:induction false} StartsFromIs(acc: seq<int>, ps: seq<string>, width: int, off: int)
    requires width >= 1
    ensures StartsFrom(acc, ps, width, off) == acc + StartsOf(ps, width, off)
    decreases |ps|
  {
    if ps != [] {
      var next := off + |ps[0]| + 1;
      var head, tail := ParaStarts(ps[0], width, off), StartsOf(ps[1..], width, next);
      StartsFromIs(acc + head, ps[1..], width, next);
      assert StartsOf(ps, width, off) == head + tail;
      AppendAssoc(acc, head, tail);
    }
  }

  method BuildDisplayLines(raw: string, width: int) returns (lines: seq<string>, starts: seq<int>)
    requires width >= 1
    ensures lines == DisplayLines(raw, width)
    ensures starts == DisplayStarts(raw, width)
  {
    var paras := Split(raw);
    lines, starts := [], [];
    var off := 0;
    LinesFromIs([], paras, width);
    StartsFromIs([], paras, width, 0);
    for k := 0 to |paras|
      invariant LinesFrom(lines, paras[k..], width) == DisplayLines(raw, width)
      invariant StartsFrom(starts, paras[k..], width, off) == DisplayStarts(raw, width)
    {
      var paragraph := paras[k];
      assert paras[k..][0] == paragraph && paras[k..][1..] == paras[k + 1..];
      ghost var lines0, starts0 := lines, starts;
      lines, starts := AppendChunks(lines, starts, paragraph, width, off);
      if |paragraph| == 0 {
        lines := lines + [""];
        starts := starts + [off + |paragraph|];
        assert lines == lines0 + ParaTexts(paragraph, width);
        assert starts == starts0 + ParaStarts(paragraph, width, off);
      }
      off := off + |paragraph| + 1;
    }
  }

  // ---------------------------------------------------------------------------
  // offset_to_rowcol (Todo.py:264-298)

  /** State of a scan: the answer, or the (row, cur) counters to carry on with. */
  datatype Scan = Found(row: int, col: int) | Going(row: int, cur: int)

  /** The inner `while i < plen` loop of offset_to_rowcol from chunk position `i`.
      The column it reports subtracts `i` although `cur` already counts it
      (Todo.py:278). */
  function ChunkScan(plen: nat, i: nat, width: int, offset: int, row: int, cur: int): Scan
    requires width >= 1
    decreases plen - i
  {
    if i >= plen then Going(row, cur)
    else
      var lineLen := Min(width, plen - i);
      if cur + lineLen >= offset then Found(row, offset - cur - i)
      else ChunkScan(plen, i + lineLen, width, offset, row + 1, cur + lineLen)
  }

  /** The loop over paragraphs of offset_to_rowcol; an empty paragraph never
      advances `row` (Todo.py:288-292). */
  function ParaScan(ps: seq<string>, width: int, offset: int, row: int, cur: int): Scan
    requires width >= 1
    decreases |ps|
  {
    if ps == [] then Going(row, cur)
    else
      match ChunkScan(|ps[0]|, 0, width, offset, row, cur)
      case Found(r, c) => Found(r, c)
      case Going(r, c) =>
        if c + 1 > offset then Found(r + 1, 0)
        else if |ps[0]| == 0 && c + 1 >= offset then Found(r, 0)
        else ParaScan(ps[1..], width, offset, r, c + 1)
  }

  /** What offset_to_rowcol returns. */
  function RowColOf(raw: string, width: int, offset: int): (rc: (int, int))
    requires width >= 1
    ensures offset <= 0 ==> rc == (0, 0)
  {
    if offset <= 0 then (0, 0)
    else
      match ParaScan(Split(raw), width, offset, 0, 0)
      case Found(r, c) => (r, c)
      case Going(_, _) =>
        var lines := DisplayLines(raw, width);
        if lines == [] then (0, 0) else (|lines| - 1, |lines[|lines| - 1]|)
  }

  method OffsetToRowCol(raw: string, width: int, offset: int) returns (row: int, col: int)
    requires width >= 1
    ensures (row, col) == RowColOf(raw, width, offset)
  {
    if offset <= 0 {
      return 0, 0;
    }
    row, col := 0, 0;
    var cur := 0;
    var paras := Split(raw);
    for k := 0 to |paras|
      invariant ParaScan(paras, width, offset, 0, 0) == ParaScan(paras[k..], width, offset, row, cur)
    {
      var paragraph := paras[k];
      var plen := |paragraph|;
      assert paras[k..][0] == paragraph && paras[k..][1..] == paras[k + 1..];
      ghost var row0, cur0 := row, cur;
      var i := 0;
      while i < plen
        invariant i <= plen
        invariant ChunkScan(plen, 0, width, offset, row0, cur0) == ChunkScan(plen, i, width, offset, row, cur)
        decreases plen - i
      {
        var lineLen := Min(width, plen - i);
        if cur + lineLen >= offset {
          return row, offset - cur - i;
        }
        i := i + lineLen;
        row := row + 1;
        cur := cur + lineLen;
      }
      if cur + 1 > offset {
        return row + 1, 0;
      }
      cur := cur + 1;
      if plen == 0 {
        if cur >= offset {
          return row, 0;
        }
      }
    }
    var lines, starts := BuildDisplayLines(raw, width);
    if |lines| == 0 {
      return 0, 0;
    }
    return |lines| - 1, |lines[|lines| - 1]|;
  }

  // ---------------------------------------------------------------------------
  // rowcol_to_offset (Todo.py:301-324)

  datatype Find = At(offset: int) | Searching(r: int, cur: int)

  /** The inner loop of rowcol_to_offset from chunk position `i`; it advances `cur`
      by the length of the chunk after the one it steps over (Todo.py:316-317). */
  function ChunkFind(plen: nat, i: nat, width: int, row: int, col: int, r: int, cur: int): Find
    requires width >= 1
    decreases plen - i
  {
    if i >= plen then Searching(r, cur)
    else if r == row then At(Min(cur + i + col, cur + plen))
    else
      var i' := i + Min(width, plen - i);
      ChunkFind(plen, i', width, row, col, r + 1, cur + Min(width, plen - i'))
  }

  function ParaFind(ps: seq<string>, width: int, row: int, col: int, total: int, r: int, cur: int): Find
    requires width >= 1
    decreases |ps|
  {
    if ps == [] then Searching(r, cur)
    else
      match ChunkFind(|ps[0]|, 0, width, row, col, r, cur)
      case At(o) => At(o)
      case Searching(r', c') =>
        if r' == row then At(Min(c' + |ps[0]|, total))
        else ParaFind(ps[1..], width, row, col, total, r', c' + 1)
  }

  /** What rowcol_to_offset returns. */
  function OffsetAt(raw: string, width: int, row: int, col: int): (o: int)
    requires width >= 1
    ensures row < 0 ==> o == 0
  {
    if row < 0 then 0
    else
      match ParaFind(Split(raw), width, row, col, |raw|, 0, 0)
      case At(o) => o
      case Searching(_, _) => |raw|
  }

  method RowColToOffset(raw: string, width: int, row: int, col: int) returns (o: int)
    requires width >= 1
    ensures o == OffsetAt(raw, width, row, col)
  {
    if row < 0 {
      return 0;
    }
    var cur := 0;
    var r := 0;
    var paras := Split(raw);
    for k := 0 to |paras|
      invariant ParaFind(paras, width, row, col, |raw|, 0, 0) == ParaFind(paras[k..], width, row, col, |raw|, r, cur)
    {
      var paragraph := paras[k];
      var plen := |paragraph|;
      assert paras[k..][0] == paragraph && paras[k..][1..] == paras[k + 1..];
      ghost var r0, cur0 := r, cur;
      var i := 0;
      while i < plen
        invariant i <= plen
        invariant ChunkFind(plen, 0, width, row, col, r0, cur0) == ChunkFind(plen, i, width, row, col, r, cur)
        decreases plen - i
      {
        if r == row {
          return Min(cur + i + col, cur + plen);
        }
        i := i + Min(width, plen - i);
        cur := cur + Min(width, plen - i);
        r := r + 1;
      }
      if r == row {
        return Min(cur + plen, |raw|);
      }
      cur := cur + 1;
    }
    return |raw|;
  }

  // ---------------------------------------------------------------------------
  // Properties of build_display_lines

  /** Concatenation of a list of strings. */
  function Concat(ls: seq<string>): string
  {
    if ls == [] then [] else ls[0] + Concat(ls[1..])
  }

  /** `line` is the slice of `raw` at `start`, at most `width` long, with `start`
      in [lo, hi]; an empty line stands between two newlines (or the ends of `raw`). */
  ghost predicate LineAt(raw: string, line: string, start: int, lo: int, hi: int, width: int)
  {
    0 <= lo <= start <= hi && start + |line| <= |raw| && |line| <= width
    && line == raw[start..start + |line|]
    && (line == [] ==> (start == |raw| || raw[start] == '\n') && (start == 0 || raw[start - 1] == '\n'))
  }

  ghost predicate Increasing(ss: seq<int>)
  {
    forall i, j :: 0 <= i < j < |ss| ==> ss[i] < ss[j]
  }

  /** `ls`/`ss` are display lines laid over `raw`, with strictly increasing starts. */
  ghost predicate Laid(raw: string, ls: seq<string>, ss: seq<int>, lo: int, hi: int, width: int)
  {
    |ls| == |ss|
    && (forall i :: 0 <= i < |ls| ==> LineAt(raw, ls[i], ss[i], lo, hi, width))
    && Increasing(ss)
  }

  lemma LaidConcat(raw: string, a: seq<string>, sa: seq<int>, b: seq<string>, sb: seq<int>,
                   lo: int, aHi: int, bLo: int, hi: int, width: int)
    requires Laid(raw, a, sa, lo, aHi, width) && Laid(raw, b, sb, bLo, hi, width)
    requires 0 <= lo <= bLo && aHi < bLo && aHi <= hi
    ensures Laid(raw, a + b, sa + sb, lo, hi, width)
  {
    var ls, ss := a + b, sa + sb;
    forall i | 0 <= i < |ls| ensures LineAt(raw, ls[i], ss[i], lo, hi, width) {
      if i >= |a| {
        assert ls[i] == b[i - |a|] && ss[i] == sb[i - |a|];
        assert LineAt(raw, b[i - |a|], sb[i - |a|], bLo, hi, width);
      } else {
        assert ls[i] == a[i] && ss[i] == sa[i];
        assert LineAt(raw, a[i], sa[i], lo, aHi, width);
      }
    }
    forall i, j | 0 <= i < j < |ss| ensures ss[i] < ss[j] {
      if j < |a| {
        assert ss[i] == sa[i] && ss[j] == sa[j];
      } else if i >= |a| {
        assert ss[i] == sb[i - |a|] && ss[j] == sb[j - |a|];
      } else {
        assert ss[i] == sa[i] && ss[j] == sb[j - |a|];
      }
    }
  }

  /** The chunks of a paragraph: each 1..width characters, all but the last
      exactly `width`, concatenating back to the paragraph. */
  lemma {:induction false} ChunkShape(p: string, width: int)
    requires width >= 1
    ensures forall i :: 0 <= i < |ChunkTexts(p, width)| ==> 1 <= |ChunkTexts(p, width)[i]| <= width
    ensures forall i :: 0 <= i < |ChunkTexts(p, width)| - 1 ==> |ChunkTexts(p, width)[i]| == width
    ensures Concat(ChunkTexts(p, width)) == p
    ensures p != [] ==> |ChunkTexts(p, width)| >= 1
    decreases |p|
  {
    if p == [] {
    } else if |p| <= width {
      assert ChunkTexts(p, width) == [p];
      assert Concat([p]) == p + Concat([]);
    } else {
      var q := p[width..];
      ChunkShape(q, width);
      var cs := ChunkTexts(p, width);
      assert cs == [p[..width]] + ChunkTexts(q, width);
      assert cs[1..] == ChunkTexts(q, width);
      assert Concat(cs) == p[..width] + q;
      forall i | 0 <= i < |cs| ensures 1 <= |cs[i]| <= width {
        if i > 0 { assert cs[i] == ChunkTexts(q, width)[i - 1]; }
      }
      forall i | 0 <= i < |cs| - 1 ensures |cs[i]| == width {
        if i > 0 { assert cs[i] == ChunkTexts(q, width)[i - 1]; }
      }
    }
  }

  /** The chunks of a paragraph lying at `off` in `raw` are laid over `raw`. */
  lemma {:induction false} ChunkLaid(raw: string, p: string, width: int, off: int)
    requires width >= 1 && 0 <= off && off + |p| <= |raw| && raw[off..off + |p|] == p
    ensures Laid(raw, ChunkTexts(p, width), ChunkStarts(p, width, off), off, off + |p|, width)
    decreases |p|
  {
    ChunkShape(p, width);
    if p == [] {
    } else if |p| <= width {
      assert ChunkTexts(p, width) == [p] && ChunkStarts(p, width, off) == [off];
    } else {
      assert raw[off..off + width] == p[..width];
      assert Laid(raw, [p[..width]], [off], off, off, width);
      assert raw[off + width..off + |p|] == p[width..];
      ChunkRest(raw, p, width, off);
    }
  }

  /** The step of ChunkLaid past the first full chunk of `p`. */
  lemma {:induction false} ChunkRest(raw: string, p: string, width: int, off: int)
    requires width >= 1 && 0 <= off && |p| > width && off + |p| <= |raw|
    requires raw[off + width..off + |p|] == p[width..]
    requires Laid(raw, [p[..width]], [off], off, off, width)
    ensures Laid(raw, ChunkTexts(p, width), ChunkStarts(p, width, off), off, off + |p|, width)
    decreases |p|, 0
  {
    var q := p[width..];
    ChunkLaid(raw, q, width, off + width);
    LaidConcat(raw, [p[..width]], [off], ChunkTexts(q, width), ChunkStarts(q, width, off + width),
               off, off, off + width, off + |p|, width);
    assert ChunkTexts(p, width) == [p[..width]] + ChunkTexts(q, width);
    assert ChunkStarts(p, width, off) == [off] + ChunkStarts(q, width, off + width);
  }

  /** The display lines of one paragraph lying at `off` in `raw`, between two
      newlines or ends of `raw`. */
  lemma ParaLaid(raw: string, p: string, width: int, off: int)
    requires width >= 1 && 0 <= off && off + |p| <= |raw| && raw[off..off + |p|] == p
    requires off == 0 || raw[off - 1] == '\n'
    requires off + |p| == |raw| || raw[off + |p|] == '\n'
    ensures Laid(raw, ParaTexts(p, width), ParaStarts(p, width, off), off, off + |p|, width)
    ensures |ParaTexts(p, width)| >= 1
  {
    ChunkShape(p, width);
    if p == [] {
      assert LineAt(raw, "", off, off, off, width);
    } else {
      ChunkLaid(raw, p, width, off);
    }
  }

  /** The display lines of the text `s` that ends `raw` at offset `off`. */
  lemma {:induction false} WrapFacts(raw: string, s: string, width: int, off: int)
    requires width >= 1 && 0 <= off && off + |s| == |raw| && raw[off..] == s
    requires off == 0 || raw[off - 1] == '\n'
    ensures Laid(raw, LinesOf(Split(s), width), StartsOf(Split(s), width, off), off, |raw|, width)
    ensures |LinesOf(Split(s), width)| >= 1
    decreases |s|
  {
    var k := FirstNewline(s);
    var p := s[..k];
    assert raw[off..off + |p|] == p;
    if k == |s| {
      assert Split(s) == [s] && p == s;
      ParaLaid(raw, p, width, off);
      assert [s][1..] == [];
      assert LinesOf([s], width) == ParaTexts(p, width) + LinesOf([], width);
      assert StartsOf([s], width, off) == ParaStarts(p, width, off) + StartsOf([], width, off + |s| + 1);
    } else {
      assert raw[off + k] == '\n';
      assert raw[off + k + 1..] == s[k + 1..];
      ParaLaid(raw, p, width, off);
      WrapRest(raw, s, width, off, k);
    }
  }

  /** Past the first newline at `k`, the lines of `s` are those of its first
      paragraph followed by those of the rest. */
  lemma SplitStep(s: string, width: int, off: int, k: nat)
    requires width >= 1 && k == FirstNewline(s) < |s|
    ensures LinesOf(Split(s), width) == ParaTexts(s[..k], width) + LinesOf(Split(s[k + 1..]), width)
    ensures StartsOf(Split(s), width, off) == ParaStarts(s[..k], width, off) + StartsOf(Split(s[k + 1..]), width, off + k + 1)
  {
    var ps, tail := Split(s), Split(s[k + 1..]);
    assert ps == [s[..k]] + tail;
    assert ps[0] == s[..k];
    assert ps[1..] == tail;
    assert ps != [];
  }

  /** The step of WrapFacts past the first newline of `s`, which lies at
      `off + k` in `raw`. */
  lemma {:induction false} WrapRest(raw: string, s: string, width: int, off: int, k: nat)
    requires width >= 1 && 0 <= off && off + |s| == |raw|
    requires k == FirstNewline(s) < |s| && raw[off + k] == '\n' && raw[off + k + 1..] == s[k + 1..]
    requires Laid(raw, ParaTexts(s[..k], width), ParaStarts(s[..k], width, off), off, off + k, width)
    ensures Laid(raw, LinesOf(Split(s), width), StartsOf(Split(s), width, off), off, |raw|, width)
    ensures |LinesOf(Split(s), width)| >= 1
    decreases |s|, 0
  {
    var rest := s[k + 1..];
    WrapFacts(raw, rest, width, off + k + 1);
    SplitStep(s, width, off, k);
    LaidConcat(raw, ParaTexts(s[..k], width), ParaStarts(s[..k], width, off),
               LinesOf(Split(rest), width), StartsOf(Split(rest), width, off + k + 1),
               off, off + k, off + k + 1, |raw|, width);
  }

  /** build_display_lines returns equally long `lines` and `starts`; every line is
      the slice raw[starts[i] : starts[i] + len(lines[i])] and at most `width`
      long; an empty line only stands for an empty paragraph; the starts
      strictly increase. */
  lemma DisplayLinesLaid(raw: string, width: int)
    requires width >= 1
    ensures var lines, starts := DisplayLines(raw, width), DisplayStarts(raw, width);
      |lines| == |starts| >= 1
      && (forall i :: 0 <= i < |lines| ==>
            0 <= starts[i] && starts[i] + |lines[i]| <= |raw| && |lines[i]| <= width
            && lines[i] == raw[starts[i]..starts[i] + |lines[i]|])
      && (forall i :: 0 <= i < |lines| && lines[i] == [] ==>
            (starts[i] == |raw| || raw[starts[i]] == '\n') && (starts[i] == 0 || raw[starts[i] - 1] == '\n'))
      && (forall i, j :: 0 <= i < j < |starts| ==> starts[i] < starts[j])
  {
    WrapFacts(raw, raw, width, 0);
  }

  /** Per paragraph: an empty paragraph yields exactly one "", a non-empty one
      yields chunks of 1..width characters (all but the last full) that
      concatenate back to it. */
  lemma ParagraphLines(p: string, width: int)
    requires width >= 1
    ensures p == [] ==> ParaTexts(p, width) == [""]
    ensures p != [] ==> |ParaTexts(p, width)| >= 1 && Concat(ParaTexts(p, width)) == p
    ensures p != [] ==> forall i :: 0 <= i < |ParaTexts(p, width)| ==> 1 <= |ParaTexts(p, width)[i]| <= width
    ensures forall i :: 0 <= i < |ParaTexts(p, width)| - 1 ==> |ParaTexts(p, width)[i]| == width
  {
    ChunkShape(p, width);
  }

  // ---------------------------------------------------------------------------
  // Properties of offset_to_rowcol

  lemma {:induction false} ChunkScanBounds(plen: nat, i: nat, width: int, offset: int, row: int, cur: int)
    requires width >= 1 && row >= 0
    ensures match ChunkScan(plen, i, width, offset, row, cur)
      case Found(r, c) => r >= 0 && c <= width
      case Going(r, _) => r >= row
    decreases plen - i
  {
    if i < plen {
      var lineLen := Min(width, plen - i);
      if cur + lineLen < offset {
        ChunkScanBounds(plen, i + lineLen, width, offset, row + 1, cur + lineLen);
      }
    }
  }

  lemma {:induction false} ParaScanBounds(ps: seq<string>, width: int, offset: int, row: int, cur: int)
    requires width >= 1 && row >= 0
    ensures match ParaScan(ps, width, offset, row, cur)
      case Found(r, c) => r >= 0 && c <= width
      case Going(r, _) => r >= 0
    decreases |ps|
  {
    if ps != [] {
      ChunkScanBounds(|ps[0]|, 0, width, offset, row, cur);
      match ChunkScan(|ps[0]|, 0, width, offset, row, cur)
      case Found(_, _) =>
      case Going(r, c) =>
        if !(c + 1 > offset) && !(|ps[0]| == 0 && c + 1 >= offset) {
          ParaScanBounds(ps[1..], width, offset, r, c + 1);
        }
    }
  }

  /** offset_to_rowcol never reports a negative row nor a column past `width`. */
  lemma RowColBounds(raw: string, width: int, offset: int)
    requires width >= 1
    ensures RowColOf(raw, width, offset).0 >= 0 && RowColOf(raw, width, offset).1 <= width
  {
    if offset > 0 {
      ParaScanBounds(Split(raw), width, offset, 0, 0);
      DisplayLinesLaid(raw, width);
    }
  }

  /** On newline-free text that fits in one display line, offset_to_rowcol puts
      an offset o on row 0 at column o, clamped to [0, len(raw)]. */
  lemma SingleLineRowCol(raw: string, width: int, offset: int)
    requires width >= 1 && '\n' !in raw && |raw| <= width
    ensures RowColOf(raw, width, offset) == (0, Max(0, Min(offset, |raw|)))
  {
    if offset > 0 {
      assert Split(raw) == [raw];
      assert [raw][1..] == [];
      if raw != [] {
        assert ChunkTexts(raw, width) == [raw];
        assert DisplayLines(raw, width) == [raw] + LinesOf([], width);
        if offset > |raw| {
          assert ChunkScan(|raw|, 0, width, offset, 0, 0) == Going(1, |raw|);
          assert ParaScan([raw], width, offset, 0, 0) == ParaScan([], width, offset, 1, |raw| + 1);
        }
      } else {
        assert [raw][1..] == [];
        assert DisplayLines(raw, width) == [""] + LinesOf([], width);
        assert ParaScan([raw], width, offset, 0, 0)
            == if offset == 1 then Found(0, 0) else ParaScan([], width, offset, 0, 1);
      }
    }
  }

  // ---------------------------------------------------------------------------
  // Properties of rowcol_to_offset

  /** On newline-free text that fits in one display line, rowcol_to_offset maps
      (0, col) to min(col, len(raw)) and any later row to len(raw). */
  lemma SingleLineOffset(raw: string, width: int, row: int, col: int)
    requires width >= 1 && '\n' !in raw && |raw| <= width
    ensures row == 0 ==> OffsetAt(raw, width, row, col) == (if raw == [] then 0 else Min(col, |raw|))
    ensures row >= 1 ==> OffsetAt(raw, width, row, col) == |raw|
  {
    assert Split(raw) == [raw];
    assert [raw][1..] == [];
    if raw != [] && row != 0 {
      assert ChunkFind(|raw|, 0, width, row, col, 0, 0) == ChunkFind(|raw|, |raw|, width, row, col, 1, 0);
      assert ParaFind([raw], width, row, col, |raw|, 0, 0)
          == if row == 1 then At(|raw|) else ParaFind([], width, row, col, |raw|, 1, 1);
    } else if raw == [] && row != 0 {
      assert ChunkFind(0, 0, width, row, col, 0, 0) == Searching(0, 0);
      assert ParaFind([raw], width, row, col, |raw|, 0, 0) == ParaFind([], width, row, col, |raw|, 0, 1);
    }
  }

  /** The round trip holds on a single line that does not wrap, in both directions. */
  lemma SingleLineRoundTrip(raw: string, width: int, offset: int, col: int)
    requires width >= 1 && '\n' !in raw && |raw| <= width
    ensures 0 <= offset <= |raw| ==>
      OffsetAt(raw, width, RowColOf(raw, width, offset).0, RowColOf(raw, width, offset).1) == offset
    ensures 0 <= col <= |raw| ==> RowColOf(raw, width, OffsetAt(raw, width, 0, col)) == (0, col)
  {
    SingleLineRowCol(raw, width, offset);
    SingleLineOffset(raw, width, 0, offset);
    SingleLineOffset(raw, width, 0, col);
    SingleLineRowCol(raw, width, col);
  }

  lemma {:induction false} ChunkFindNonNegative(plen: nat, i: nat, width: int, row: int, col: int, r: int, cur: int)
    requires width >= 1 && col >= 0 && cur >= 0
    ensures match ChunkFind(plen, i, width, row, col, r, cur)
      case At(o) => o >= 0
      case Searching(_, c) => c >= 0
    decreases plen - i
  {
    if i < plen && r != row {
      var i' := i + Min(width, plen - i);
      ChunkFindNonNegative(plen, i', width, row, col, r + 1, cur + Min(width, plen - i'));
    }
  }

  lemma {:induction false} ParaFindNonNegative(ps: seq<string>, width: int, row: int, col: int, total: nat, r: int, cur: int)
    requires width >= 1 && col >= 0 && cur >= 0
    ensures match ParaFind(ps, width, row, col, total, r, cur)
      case At(o) => o >= 0
      case Searching(_, _) => true
    decreases |ps|
  {
    if ps != [] {
      ChunkFindNonNegative(|ps[0]|, 0, width, row, col, r, cur);
      match ChunkFind(|ps[0]|, 0, width, row, col, r, cur)
      case At(_) =>
      case Searching(r', c') =>
        if r' != row {
          ParaFindNonNegative(ps[1..], width, row, col, total, r', c' + 1);
        }
    }
  }

  /** rowcol_to_offset returns 0 for a negative row and never a negative offset
      for a non-negative column. */
  lemma OffsetAtNonNegative(raw: string, width: int, row: int, col: int)
    requires width >= 1 && col >= 0
    ensures OffsetAt(raw, width, row, col) >= 0
  {
    if row >= 0 {
      ParaFindNonNegative(Split(raw), width, row, col, |raw|, 0, 0);
    }
  }

  /** On a paragraph that does not wrap, the inner loop leaves `cur` where it was
      (it adds the length of a next chunk that does not exist). */
  lemma ChunkFindUnwrapped(plen: nat, width: int, row: int, col: int, r: int, cur: int)
    requires width >= 1 && plen <= width
    ensures ChunkFind(plen, 0, width, row, col, r, cur)
         == if plen == 0 then Searching(r, cur)
            else if r == row then At(Min(cur + col, cur + plen))
            else Searching(r + 1, cur)
  {
    if plen > 0 && r != row {
      assert ChunkFind(plen, 0, width, row, col, r, cur) == ChunkFind(plen, plen, width, row, col, r + 1, cur);
    }
  }

  lemma {:induction false} ParaFindUnwrapped(ps: seq<string>, width: int, row: int, col: int, total: int, r: int, cur: int)
    requires width >= 1 && 0 <= cur && cur + SpanOf(ps) <= total + 1
    requires forall i :: 0 <= i < |ps| ==> |ps[i]| <= width
    ensures match ParaFind(ps, width, row, col, total, r, cur)
      case At(o) => o <= total
      case Searching(_, _) => true
    decreases |ps|
  {
    if ps != [] {
      ChunkFindUnwrapped(|ps[0]|, width, row, col, r, cur);
      match ChunkFind(|ps[0]|, 0, width, row, col, r, cur)
      case At(_) =>
      case Searching(r', c') =>
        if r' != row {
          assert c' == cur;
          ParaFindUnwrapped(ps[1..], width, row, col, total, r', c' + 1);
        }
    }
  }

  /** When no paragraph is longer than `width`, rowcol_to_offset stays within
      [0, len(raw)] (for a non-negative column). */
  lemma OffsetAtUnwrappedBound(raw: string, width: int, row: int, col: int)
    requires width >= 1 && col >= 0
    requires forall i :: 0 <= i < |Split(raw)| ==> |Split(raw)[i]| <= width
    ensures 0 <= OffsetAt(raw, width, row, col) <= |raw|
  {
    OffsetAtNonNegative(raw, width, row, col);
    if row >= 0 {
      SplitFacts(raw);
      ParaFindUnwrapped(Split(raw), width, row, col, |raw|, 0, 0);
    }
  }

  // ---------------------------------------------------------------------------
  // The two mappings are not inverses beyond a single unwrapped line

  /** Two short lines: offset 3 (the start of "cd") maps to (1, 0), which maps
      back to 2, because the row test after the inner loop fires before the
      next paragraph is reached. */
  lemma NotInverseAcrossParagraphs()
    ensures RowColOf("ab\ncd", 3, 3) == (1, 0)
    ensures OffsetAt("ab\ncd", 3, 1, 0) == 2
  {
    assert Split("ab\ncd") == ["ab", "cd"] by {
      assert FirstNewline("ab\ncd") == 2;
      assert "ab\ncd"[3..] == "cd";
      assert "ab\ncd"[..2] == "ab";
    }
  }

  /** A wrapped paragraph: the end offset 7 of "abcdefg" at width 3 is reported
      at column -5 of row 2, and (2, -5) maps back to 5. */
  lemma NotInverseOnceWrapped()
    ensures RowColOf("abcdefg", 3, 7) == (2, -5)
    ensures OffsetAt("abcdefg", 3, 2, -5) == 5
  {
    assert Split("abcdefg") == ["abcdefg"];
  }

  /** rowcol_to_offset can exceed len(raw): row 1, col 2 of "abcdef" at width 3. */
  lemma OffsetAtCanExceedLength()
    ensures OffsetAt("abcdef", 3, 1, 2) == 8 > |"abcdef"|
  {
    assert Split("abcdef") == ["abcdef"];
  }

  /** offset_to_rowcol can name a row that build_display_lines does not produce:
      the end of "ab\n" is put on row 2 of a two-line layout. */
  lemma RowPastLastLine()
    ensures |DisplayLines("ab\n", 3)| == 2
    ensures RowColOf("ab\n", 3, 3) == (2, 0)
  {
    assert Split("ab\n") == ["ab", ""] by {
      assert FirstNewline("ab\n") == 2;
      assert "ab\n"[3..] == "";
      assert "ab\n"[..2] == "ab";
    }
  }
}
