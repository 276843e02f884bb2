/** Small building blocks shared by the whole model: an optional value, bytes as
    they come from the keyboard, and Python's rules for slicing a string. */
module Base {

  datatype Option<T> = None | Some(value: T)

  /** One byte as returned by a raw keyboard read. */
  type byte = b: int | 0 <= b < 256

  function Min(a: int, b: int): int { if a <= b then a else b }
  function Max(a: int, b: int): int { if a >= b then a else b }

  /** The position Python uses for the slice bound `k` of a sequence of length `n`:
      a negative bound counts from the end, and the result is clamped to [0, n]. */
  function PyIndex(n: nat, k: int): (r: nat)
    ensures r <= n
    ensures 0 <= k <= n ==> r == k
    ensures k > n ==> r == n
    ensures k < 0 ==> r == Max(0, n + k)
  {
    if k < 0 then (if n + k < 0 then 0 else n + k)
    else if k > n then n
    else k
  }

  /** Python `s[:k]`. */
  function Prefix<T>(s: seq<T>, k: int): (r: seq<T>)
    ensures 0 <= k <= |s| ==> r == s[..k]
    ensures |r| <= |s|
  {
    s[..PyIndex(|s|, k)]
  }

  /** Python `s[k:]`. */
  function Suffix<T>(s: seq<T>, k: int): (r: seq<T>)
    ensures 0 <= k <= |s| ==> r == s[k..]
    ensures |r| <= |s|
  {
    s[PyIndex(|s|, k)..]
  }

  /** Python `s[a:b]`: empty when the normalised bounds cross. */
  function Slice<T>(s: seq<T>, a: int, b: int): (r: seq<T>)
    ensures 0 <= a <= b <= |s| ==> r == s[a..b]
    ensures |r| <= |s|
  {
    var i, j := PyIndex(|s|, a), PyIndex(|s|, b);
    if i <= j then s[i..j] else []
  }

  /** `i` is a valid Python list index for a list of length `n`: negative
      indices count from the end; anything else raises IndexError. */
  predicate PyValid(n: nat, i: int)
  {
    0 <= n + i && i < n
  }

  /** The position a valid Python index names. */
  function PyNorm(n: nat, i: int): (k: nat)
    requires PyValid(n, i)
    ensures k < n && (i >= 0 ==> k == i) && (i < 0 ==> k == n + i)
  {
    if i < 0 then n + i else i
  }

  /** Python `c * n` for a one-character string: empty when n <= 0. */
  function Repeat<T>(c: T, n: int): (r: seq<T>)
    ensures |r| == Max(0, n)
    ensures forall i :: 0 <= i < |r| ==> r[i] == c
    decreases n
  {
    if n <= 0 then [] else [c] + Repeat(c, n - 1)
  }

  lemma AppendAssoc<T>(a: seq<T>, b: seq<T>, c: seq<T>)
    ensures a + b + c == a + (b + c)
  {
  }

  lemma MapUpdateTwice<K, V>(m: map<K, V>, k: K, a: V, b: V)
    ensures m[k := a][k := b] == m[k := b]
  {
  }

  lemma MultisetAppend<T>(s: seq<T>, x: T)
    ensures multiset(s + [x]) == multiset(s) + multiset{x}
  {
  }
}
