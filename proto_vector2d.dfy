/** The integer part of the prototype's 2-D vector helper (src/core/vector2d.py).
    A vector is a Python list [x, y]. The pure helpers build fresh lists and are
    functions on `seq<int>`; `set`, `set_x` and `set_y` write into the caller's
    list and are methods on an `array<int>`. Each helper indexes its arguments
    directly, so it demands as many components as it reads. */
module Vector2D {

  /** `new(x, y)`: a fresh two-component vector. */
  function New(x: int := 0, y: int := 0): (v: seq<int>)
    ensures |v| == 2 && v[0] == x && v[1] == y
  {
    [x, y]
  }

  function X(a: seq<int>): int
    requires |a| >= 1
  {
    a[0]
  }

  function Y(a: seq<int>): int
    requires |a| >= 2
  {
    a[1]
  }

  function Area(a: seq<int>): int
    requires |a| >= 2
  {
    a[0] * a[1]
  }

  /** `add`, `sub` and `mul` read the first two components of each argument
      and build a new two-component list. */
  function Add(a: seq<int>, b: seq<int>): (r: seq<int>)
    requires |a| >= 2 && |b| >= 2
    ensures |r| == 2 && X(r) == X(a) + X(b) && Y(r) == Y(a) + Y(b)
  {
    [a[0] + b[0], a[1] + b[1]]
  }

  function Sub(a: seq<int>, b: seq<int>): (r: seq<int>)
    requires |a| >= 2 && |b| >= 2
    ensures |r| == 2 && X(r) == X(a) - X(b) && Y(r) == Y(a) - Y(b)
  {
    [a[0] - b[0], a[1] - b[1]]
  }

  function Mul(a: seq<int>, b: seq<int>): (r: seq<int>)
    requires |a| >= 2 && |b| >= 2
    ensures |r| == 2 && X(r) == X(a) * X(b) && Y(r) == Y(a) * Y(b)
  {
    [a[0] * b[0], a[1] * b[1]]
  }

  /** `flatten(a, x_size)`: the row-major index of the point. */
  function Flatten(a: seq<int>, width: int): int
    requires |a| >= 2
  {
    a[1] * width + a[0]
  }

  /** `set(a, x, y)` overwrites both components in place; anything after
      them stays. */
  method Set(a: array<int>, x: int, y: int)
    requires a.Length >= 2
    modifies a
    ensures a[..] == old(a[..])[0 := x][1 := y]
  {
    a[0] := x;
    a[1] := y;
  }

  method SetX(a: array<int>, x: int)
    requires a.Length >= 1
    modifies a
    ensures a[..] == old(a[..])[0 := x]
  {
    a[0] := x;
  }

  method SetY(a: array<int>, y: int)
    requires a.Length >= 2
    modifies a
    ensures a[..] == old(a[..])[1 := y]
  {
    a[1] := y;
  }

  // ---------------------------------------------------------------------------
  // Properties

  /** The default vector is the origin, and `x` and `y` read back what `new`
      was given. */
  lemma NewFacts(x: int, y: int)
    ensures New() == [0, 0]
    ensures X(New(x, y)) == x && Y(New(x, y)) == y
    ensures Area(New(x, y)) == x * y
  {
  }

  /** Subtracting what was added gives back the first two components. */
  lemma SubAdd(a: seq<int>, b: seq<int>)
    requires |a| >= 2 && |b| >= 2
    ensures Sub(Add(a, b), b) == a[..2]
    ensures |a| == 2 ==> Sub(Add(a, b), b) == a
  {
  }

  /** Adding and multiplying do not depend on the order of the arguments. */
  lemma AddMulCommute(a: seq<int>, b: seq<int>)
    requires |a| >= 2 && |b| >= 2
    ensures Add(a, b) == Add(b, a) && Mul(a, b) == Mul(b, a)
  {
  }

  /** The area of a componentwise product is the product of the areas. */
  lemma AreaOfMul(a: seq<int>, b: seq<int>)
    requires |a| >= 2 && |b| >= 2
    ensures Area(Mul(a, b)) == Area(a) * Area(b)
  {
    calc {
      Area(Mul(a, b));
      (a[0] * b[0]) * (a[1] * b[1]);
      { MulRegroup(a[0], b[0], a[1], b[1]); }
      (a[0] * a[1]) * (b[0] * b[1]);
    }
  }

  lemma MulRegroup(p: int, q: int, r: int, s: int)
    ensures (p * q) * (r * s) == (p * r) * (q * s)
  {
  }

  /** Inside a row of `width` cells, flattening is one-to-one, and the row and
      column come back as quotient and remainder. */
  lemma FlattenInjective(a: seq<int>, b: seq<int>, width: int)
    requires |a| >= 2 && |b| >= 2
    requires 0 <= a[0] < width && 0 <= b[0] < width
    ensures Flatten(a, width) == Flatten(b, width) <==> a[..2] == b[..2]
  {
    FlattenDivMod(a, width);
    FlattenDivMod(b, width);
    assert a[..2] == [a[0], a[1]] && b[..2] == [b[0], b[1]];
  }

  lemma FlattenDivMod(a: seq<int>, width: int)
    requires |a| >= 2 && 0 <= a[0] < width
    ensures Flatten(a, width) / width == a[1] && Flatten(a, width) % width == a[0]
  {
    var n := Flatten(a, width);
    var q, r := n / width, n % width;
    assert (q - a[1]) * width == a[0] - r;
    ZeroMultiple(q - a[1], width);
  }

  /** The only multiple of `width` strictly between -width and width is 0. */
  lemma ZeroMultiple(k: int, width: int)
    requires width >= 1 && -width < k * width < width
    ensures k == 0
  {
    if k >= 1 {
      ScaleUp(k, width);
      assert false;
    } else if k <= -1 {
      ScaleUp(-k, width);
      assert false;
    }
  }

  lemma ScaleUp(k: int, width: int)
    requires k >= 1 && width >= 1
    ensures k * width >= width
  {
  }

  /** After `set` on a two-component list it equals `new` of the same values;
      `set_x` keeps `y` and `set_y` keeps `x`. */
  lemma SetMatchesNew(v: seq<int>, x: int, y: int)
    requires |v| == 2
    ensures v[0 := x][1 := y] == New(x, y)
    ensures Y(v[0 := x]) == Y(v) && X(v[1 := y]) == X(v)
  {
  }
}
