/** get_todo_display_order (Todo.py:358-382): the order in which a topic's todos
    are listed, as storage indices, sorted stably by a key that depends on the
    sort mode. The stored list itself is never reordered. */
module SortProjection {
  import opened Base
  import opened Todos

  datatype SortMode = ByPriority | ByDeadline | ByCreated

  /** Python's `<` on strings: code point by code point, a proper prefix first. */
  predicate StrLess(a: string, b: string)
    decreases |a|
  {
    if a == [] then b != []
    else if b == [] then false
    else if a[0] != b[0] then a[0] < b[0]
    else StrLess(a[1..], b[1..])
  }

  lemma {:induction false} StrLessIrreflexive(a: string)
    ensures !StrLess(a, a)
    decreases |a|
  {
    if a != [] {
      StrLessIrreflexive(a[1..]);
    }
  }

  lemma {:induction false} StrLessTransitive(a: string, b: string, c: string)
    requires StrLess(a, b) && StrLess(b, c)
    ensures StrLess(a, c)
    decreases |a|
  {
    if a != [] && b != [] && c != [] && a[0] == b[0] && b[0] == c[0] {
      StrLessTransitive(a[1..], b[1..], c[1..]);
    }
  }

  lemma {:induction false} StrLessTotal(a: string, b: string)
    ensures a == b || StrLess(a, b) || StrLess(b, a)
    decreases |a|
  {
    if a != [] && b != [] && a[0] == b[0] {
      StrLessTotal(a[1..], b[1..]);
      if a[1..] == b[1..] {
        assert a == [a[0]] + a[1..] && b == [b[0]] + b[1..];
      }
    }
  }

  /** One component of a sort key. */
  datatype Atom = Num(n: int) | Str(s: string)

  predicate AtomLess(a: Atom, b: Atom)
  {
    match (a, b)
    case (Num(x), Num(y)) => x < y
    case (Str(x), Str(y)) => StrLess(x, y)
    case (Num(_), Str(_)) => true
    case (Str(_), Num(_)) => false
  }

  /** A sort key, compared as a Python pair. */
  datatype Key = Key(first: Atom, second: Atom)

  predicate KeyLess(a: Key, b: Key)
  {
    AtomLess(a.first, b.first) || (a.first == b.first && AtomLess(a.second, b.second))
  }

  lemma AtomOrder(a: Atom, b: Atom, c: Atom)
    ensures !AtomLess(a, a)
    ensures AtomLess(a, b) && AtomLess(b, c) ==> AtomLess(a, c)
    ensures a == b || AtomLess(a, b) || AtomLess(b, a)
  {
    if a.Str? {
      StrLessIrreflexive(a.s);
      if b.Str? {
        StrLessTotal(a.s, b.s);
        if c.Str? && AtomLess(a, b) && AtomLess(b, c) {
          StrLessTransitive(a.s, b.s, c.s);
        }
      }
    }
  }

  /** Key order is a strict total order: so sorting by it is well defined. */
  lemma KeyOrder(a: Key, b: Key, c: Key)
    ensures !KeyLess(a, a)
    ensures KeyLess(a, b) && KeyLess(b, c) ==> KeyLess(a, c)
    ensures a == b || KeyLess(a, b) || KeyLess(b, a)
  {
    AtomOrder(a.first, b.first, c.first);
    AtomOrder(a.second, b.second, c.second);
    AtomOrder(a.first, a.first, a.first);
    AtomOrder(b.first, b.first, b.first);
  }

  /** The deadline part of a key: a missing or empty deadline counts as
      "9999-12-31". */
  const FAR_FUTURE: string := "9999-12-31"

  function DeadlineKey(t: Todo): string
  {
    var d := DeadlineText(t);
    if d != [] then d else FAR_FUTURE
  }

  /** The sort key of one todo. The created mode sorts by the creation string
      alone, which orders like a pair with a constant second part. */
  function KeyOf(mode: SortMode, t: Todo): Key
  {
    match mode
    case ByPriority => Key(Num(t.priority), Str(DeadlineKey(t)))
    case ByDeadline => Key(Str(DeadlineKey(t)), Num(t.priority))
    case ByCreated => Key(Str(t.createdAt), Num(0))
  }

  /** In created mode the key order is exactly the string order of `createdAt`. */
  lemma CreatedKeyOrder(t: Todo, u: Todo)
    ensures KeyLess(KeyOf(ByCreated, t), KeyOf(ByCreated, u)) <==> StrLess(t.createdAt, u.createdAt)
  {
  }

  function Keys(mode: SortMode, todos: seq<Todo>): (ks: seq<Key>)
    ensures |ks| == |todos|
  {
    if todos == [] then [] else [KeyOf(mode, todos[0])] + Keys(mode, todos[1..])
  }

  lemma {:induction false} KeysAt(mode: SortMode, todos: seq<Todo>)
    ensures forall i :: 0 <= i < |todos| ==> Keys(mode, todos)[i] == KeyOf(mode, todos[i])
    decreases |todos|
  {
    if todos != [] {
      KeysAt(mode, todos[1..]);
    }
  }

  /** Inserts index `x` into `order` after every index whose key is not
      greater than that of `x`. The orders built here only list indices
      that have a key (SortIndicesBound); the guard spares every caller
      that fact. */
  function Insert(ks: seq<Key>, order: seq<nat>, x: nat): (r: seq<nat>)
    requires x < |ks|
    ensures |r| == |order| + 1
  {
    if order == [] then [x]
    else if order[0] < |ks| && KeyLess(ks[x], ks[order[0]]) then [x] + order
    else [order[0]] + Insert(ks, order[1..], x)
  }

  /** Indices 0..n-1 inserted one after the other: a stable insertion sort. */
  function SortIndices(ks: seq<Key>, n: nat): (r: seq<nat>)
    requires n <= |ks|
    ensures |r| == n
  {
    if n == 0 then []
    else
      Insert(ks, SortIndices(ks, n - 1), n - 1)
  }

  lemma {:induction false} SortIndicesBound(ks: seq<Key>, n: nat)
    requires n <= |ks|
    ensures forall i :: 0 <= i < n ==> SortIndices(ks, n)[i] < n
  {
    if n > 0 {
      var prev := SortIndices(ks, n - 1);
      SortIndicesBound(ks, n - 1);
      InsertMembers(ks, prev, n - 1);
    }
  }

  /** get_todo_display_order for one topic's todos. */
  function DisplayOrder(mode: SortMode, todos: seq<Todo>): seq<nat>
  {
    SortIndices(Keys(mode, todos), |todos|)
  }

  /** `order` lists storage indices by non-decreasing key, and indices with
      equal keys in storage order. */
  ghost predicate StablySorted(ks: seq<Key>, order: seq<nat>)
  {
    (forall i :: 0 <= i < |order| ==> order[i] < |ks|)
    && forall i, j :: 0 <= i < j < |order| ==>
         !KeyLess(ks[order[j]], ks[order[i]]) && (ks[order[i]] == ks[order[j]] ==> order[i] < order[j])
  }

  /** An index whose key is below the first one's may go in front. */
  lemma PutInFront(ks: seq<Key>, order: seq<nat>, x: nat)
    requires x < |ks| && StablySorted(ks, order) && order != [] && KeyLess(ks[x], ks[order[0]])
    ensures StablySorted(ks, [x] + order)
  {
    var r, y := [x] + order, order[0];
    forall i, j | 0 <= i < j < |r|
      ensures !KeyLess(ks[r[j]], ks[r[i]]) && (ks[r[i]] == ks[r[j]] ==> r[i] < r[j])
    {
      if i == 0 {
        var z := r[j];
        assert z == order[j - 1];
        KeyOrder(ks[y], ks[z], ks[y]);
        assert !KeyLess(ks[z], ks[y]);
        KeyOrder(ks[x], ks[y], ks[z]);
        KeyOrder(ks[z], ks[x], ks[z]);
      } else {
        assert r[i] == order[i - 1] && r[j] == order[j - 1];
      }
    }
  }

  /** The first index stays in front of the rest with `x` inserted, when the
      key of `x` is not below its own and `x` comes later in storage. */
  lemma KeepInFront(ks: seq<Key>, y: nat, rest: seq<nat>, tail: seq<nat>, x: nat)
    requires y < x < |ks| && StablySorted(ks, [y] + rest) && StablySorted(ks, tail)
    requires !KeyLess(ks[x], ks[y])
    requires forall k :: 0 <= k < |tail| ==> tail[k] == x || tail[k] in rest
    ensures StablySorted(ks, [y] + tail)
  {
    var order, r := [y] + rest, [y] + tail;
    forall i, j | 0 <= i < j < |r|
      ensures !KeyLess(ks[r[j]], ks[r[i]]) && (ks[r[i]] == ks[r[j]] ==> r[i] < r[j])
    {
      if i == 0 {
        assert r[i] == y && r[j] == tail[j - 1];
        if r[j] != x {
          var k :| 0 <= k < |rest| && rest[k] == r[j];
          assert order[0] == y && order[k + 1] == r[j];
        }
      } else {
        assert r[i] == tail[i - 1] && r[j] == tail[j - 1];
      }
    }
  }

  /** Inserting adds exactly one occurrence of `x`. */
  lemma {:induction false} InsertPerm(ks: seq<Key>, order: seq<nat>, x: nat)
    requires x < |ks| && forall i :: 0 <= i < |order| ==> order[i] < |ks|
    ensures multiset(Insert(ks, order, x)) == multiset(order) + multiset{x}
    decreases |order|
  {
    if order != [] && !KeyLess(ks[x], ks[order[0]]) {
      var rest := order[1..];
      InsertPerm(ks, rest, x);
      assert order == [order[0]] + rest;
      assert Insert(ks, order, x) == [order[0]] + Insert(ks, rest, x);
    }
  }

  /** Every index in the result is `x` or was already listed. */
  lemma {:induction false} InsertMembers(ks: seq<Key>, order: seq<nat>, x: nat)
    requires x < |ks| && forall i :: 0 <= i < |order| ==> order[i] < |ks|
    ensures forall i :: 0 <= i < |order| + 1 ==> Insert(ks, order, x)[i] == x || Insert(ks, order, x)[i] in order
    decreases |order|
  {
    if order != [] && !KeyLess(ks[x], ks[order[0]]) {
      var rest := order[1..];
      InsertMembers(ks, rest, x);
      var r := Insert(ks, order, x);
      assert r == [order[0]] + Insert(ks, rest, x);
      forall i | 0 <= i < |order| + 1 ensures r[i] == x || r[i] in order {
        if i > 0 {
          assert r[i] == Insert(ks, rest, x)[i - 1];
          if r[i] != x {
            var j :| 0 <= j < |rest| && rest[j] == r[i];
            assert order[j + 1] == r[i];
          }
        }
      }
    }
  }

  lemma {:induction false} InsertFacts(ks: seq<Key>, order: seq<nat>, x: nat)
    requires x < |ks| && StablySorted(ks, order)
    requires forall i :: 0 <= i < |order| ==> order[i] < x
    ensures multiset(Insert(ks, order, x)) == multiset(order) + multiset{x}
    ensures StablySorted(ks, Insert(ks, order, x))
    decreases |order|
  {
    InsertPerm(ks, order, x);
    if order != [] {
      var y := order[0];
      if KeyLess(ks[x], ks[y]) {
        PutInFront(ks, order, x);
      } else {
        var rest := order[1..];
        assert StablySorted(ks, rest) by {
          forall i, j | 0 <= i < j < |rest|
            ensures !KeyLess(ks[rest[j]], ks[rest[i]]) && (ks[rest[i]] == ks[rest[j]] ==> rest[i] < rest[j])
          {
            assert rest[i] == order[i + 1] && rest[j] == order[j + 1];
          }
        }
        InsertFacts(ks, rest, x);
        InsertMembers(ks, rest, x);
        var tail := Insert(ks, rest, x);
        assert order == [y] + rest;
        KeepInFront(ks, y, rest, tail, x);
        assert Insert(ks, order, x) == [y] + tail;
      }
    }
  }

  /** The storage indices sorted so far are exactly range(n). */
  lemma {:induction false} SortIndicesPerm(ks: seq<Key>, n: nat)
    requires n <= |ks|
    ensures multiset(SortIndices(ks, n)) == multiset(Range(n))
  {
    if n > 0 {
      var x: nat := n - 1;
      var prev, next := SortIndices(ks, x), SortIndices(ks, n);
      assert multiset(next) == multiset(prev) + multiset{x} by {
        SortIndicesBound(ks, n - 1);
        InsertPerm(ks, prev, n - 1);
      }
      SortIndicesPerm(ks, n - 1);
      PermStep(prev, next, Range(n - 1), n - 1);
    }
  }

  lemma PermStep(prev: seq<nat>, next: seq<nat>, r: seq<nat>, x: nat)
    requires multiset(prev) == multiset(r) && multiset(next) == multiset(prev) + multiset{x}
    ensures multiset(next) == multiset(r + [x])
  {
    MultisetAppend(r, x);
  }

  /** The sorted indices list by non-decreasing key, ties in storage order. */
  lemma {:induction false} SortIndicesSorted(ks: seq<Key>, n: nat)
    requires n <= |ks|
    ensures StablySorted(ks, SortIndices(ks, n))
  {
    if n > 0 {
      var prev := SortIndices(ks, n - 1);
      SortIndicesSorted(ks, n - 1);
      SortIndicesBound(ks, n - 1);
      InsertFacts(ks, prev, n - 1);
      assert SortIndices(ks, n) == Insert(ks, prev, n - 1);
    }
  }

  /** The display order is a permutation of range(n), by non-decreasing key,
      with ties in storage order. */
  lemma SortIndicesFacts(ks: seq<Key>, n: nat)
    requires n <= |ks|
    ensures multiset(SortIndices(ks, n)) == multiset(Range(n))
    ensures StablySorted(ks, SortIndices(ks, n))
  {
    SortIndicesPerm(ks, n);
    SortIndicesSorted(ks, n);
  }

  /** Python `list(range(n))`. */
  function Range(n: nat): (r: seq<nat>)
    ensures |r| == n
  {
    if n == 0 then [] else Range(n - 1) + [n - 1]
  }

  lemma RangeMembers(n: nat, x: nat)
    requires x in multiset(Range(n))
    ensures x < n
  {
    RangeCount(n, x);
  }

  /** What get_todo_display_order promises: a permutation of the storage
      indices, listed by non-decreasing key of the mode with ties in storage
      order. */
  lemma DisplayOrderFacts(mode: SortMode, todos: seq<Todo>)
    ensures var order := DisplayOrder(mode, todos);
      |order| == |todos| && (forall i :: 0 <= i < |order| ==> order[i] < |todos|)
      && multiset(order) == multiset(Range(|todos|))
      && (forall i, j :: 0 <= i < j < |order| ==>
            !KeyLess(KeyOf(mode, todos[order[j]]), KeyOf(mode, todos[order[i]]))
            && (KeyOf(mode, todos[order[i]]) == KeyOf(mode, todos[order[j]]) ==> order[i] < order[j]))
  {
    var ks := Keys(mode, todos);
    var order := SortIndices(ks, |todos|);
    assert order == DisplayOrder(mode, todos);
    SortIndicesBound(ks, |todos|);
    SortIndicesFacts(ks, |todos|);
    KeysAt(mode, todos);
    forall i, j | 0 <= i < j < |order|
      ensures !KeyLess(KeyOf(mode, todos[order[j]]), KeyOf(mode, todos[order[i]]))
        && (KeyOf(mode, todos[order[i]]) == KeyOf(mode, todos[order[j]]) ==> order[i] < order[j])
    {
      assert ks[order[i]] == KeyOf(mode, todos[order[i]]) && ks[order[j]] == KeyOf(mode, todos[order[j]]);
    }
  }

  /** Since the order is a permutation of the storage indices, every stored
      todo is listed exactly once. */
  lemma DisplayOrderListsEach(mode: SortMode, todos: seq<Todo>, k: nat)
    requires k < |todos|
    ensures multiset(DisplayOrder(mode, todos))[k] == 1
  {
    DisplayOrderFacts(mode, todos);
    RangeCount(|todos|, k);
  }

  lemma {:induction false} RangeCount(n: nat, k: nat)
    ensures multiset(Range(n))[k] == if k < n then 1 else 0
  {
    if n == 0 {
      assert Range(n) == [];
    } else {
      var x: nat := n - 1;
      var r := Range(x);
      RangeCount(x, k);
      MultisetAppend(r, x);
      assert multiset(Range(n)) == multiset(r) + multiset{x};
      assert multiset{x}[k] == if k == x then 1 else 0;
    }
  }

  /** Deadlines are written DD-MM-YYYY but sorted as strings, so the order is
      not the calendar order: 1 February 2025 sorts before 2 January 2025. */
  lemma DeadlineOrderIsNotChronological()
    ensures StrLess("01-02-2025", "02-01-2025")
  {
    assert "01-02-2025"[0] == "02-01-2025"[0];
    assert "01-02-2025"[1..] == "1-02-2025" && "02-01-2025"[1..] == "2-01-2025";
  }

  /** A todo without a deadline sorts after every deadline that starts with a
      day digit, as every DD-MM-YYYY date does. */
  lemma NoDeadlineSortsLast(t: Todo, u: Todo)
    requires t.deadline.None? && DeadlineText(u) != [] && DeadlineText(u)[0] < '9'
    ensures StrLess(DeadlineKey(u), DeadlineKey(t))
  {
  }
}
