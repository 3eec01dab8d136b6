/** Sorting over an arbitrary strict order: the one answer a sort can give, whatever order its input came in. */
module Order {
  ghost predicate Strict<T(!new)>(less: (T, T) -> bool) {
    && (forall x :: !less(x, x))
    && (forall x, y, z :: less(x, y) && less(y, z) ==> less(x, z))
  }

  ghost predicate TotalOn<T(!new)>(less: (T, T) -> bool, s: set<T>) {
    forall x, y | x in s && y in s && x != y :: less(x, y) || less(y, x)
  }

  ghost predicate Sorted<T>(xs: seq<T>, less: (T, T) -> bool) {
    forall i, j | 0 <= i < j < |xs| :: less(xs[i], xs[j])
  }

  function Elements<T>(xs: seq<T>): set<T> {
    set x | x in xs
  }

  lemma SortedCons<T(!new)>(x: T, xs: seq<T>, less: (T, T) -> bool)
    requires Sorted(xs, less) && forall y | y in xs :: less(x, y)
    ensures Sorted([x] + xs, less)
  {
    var out := [x] + xs;
    forall i, j | 0 <= i < j < |out| ensures less(out[i], out[j]) {
      assert out[j] == xs[j - 1];
    }
  }

  lemma ElementsOfCons<T>(x: T, xs: seq<T>)
    ensures Elements([x] + xs) == {x} + Elements(xs)
  {
    var out := [x] + xs;
    assert forall y | y in xs :: y in out;
  }

  lemma ElementsOfTail<T(!new)>(xs: seq<T>, less: (T, T) -> bool)
    requires forall x :: !less(x, x)
    requires Sorted(xs, less) && xs != []
    ensures Elements(xs[1..]) == Elements(xs) - {xs[0]}
    ensures Sorted(xs[1..], less)
    ensures forall x | x in xs[1..] :: less(xs[0], x)
  {
    forall x | x in Elements(xs) - {xs[0]} ensures x in xs[1..] {
      var i :| 0 <= i < |xs| && xs[i] == x;
      assert xs[1..][i - 1] == x;
    }
  }

  lemma {:induction false} SortedSize<T(!new)>(xs: seq<T>, less: (T, T) -> bool)
    requires (forall x :: !less(x, x)) && Sorted(xs, less)
    ensures |Elements(xs)| == |xs|
    decreases |xs|
  {
    if xs != [] {
      ElementsOfTail(xs, less);
      SortedSize(xs[1..], less);
      assert xs[0] in Elements(xs);
    }
  }

  ghost predicate IsLeast<T>(m: T, s: set<T>, less: (T, T) -> bool) {
    m in s && forall x | x in s && x != m :: less(m, x)
  }

  lemma {:induction false} LeastExists<T(!new)>(s: set<T>, less: (T, T) -> bool)
    requires Strict(less) && TotalOn(less, s) && s != {}
    ensures exists m :: IsLeast(m, s, less)
    decreases |s|
  {
    var y :| y in s;
    var rest := s - {y};
    if rest == {} {
      assert s == {y};
      assert IsLeast(y, s, less);
    } else {
      LeastExists(rest, less);
      var m :| IsLeast(m, rest, less);
      assert IsLeast(if less(m, y) then m else y, s, less);
    }
  }

  /** The elements of `s` in ascending order. */
  ghost function Sort<T(!new)>(s: set<T>, less: (T, T) -> bool): (xs: seq<T>)
    requires Strict(less) && TotalOn(less, s)
    ensures Sorted(xs, less) && Elements(xs) == s && |xs| == |s|
    decreases |s|
  {
    if s == {} then
      []
    else
      LeastExists(s, less);
      var m :| IsLeast(m, s, less);
      var rest := Sort(s - {m}, less);
      SortStep(m, s, rest, less);
      [m] + rest
  }

  lemma SortStep<T(!new)>(m: T, s: set<T>, rest: seq<T>, less: (T, T) -> bool)
    requires IsLeast(m, s, less)
    requires Sorted(rest, less) && Elements(rest) == s - {m}
    ensures Sorted([m] + rest, less) && Elements([m] + rest) == s
  {
    assert forall x | x in rest :: x in Elements(rest);
    SortedCons(m, rest, less);
    ElementsOfCons(m, rest);
  }

  /** Two sorted sequences with the same elements are the same sequence. */
  lemma {:induction false} SortedUnique<T(!new)>(xs: seq<T>, ys: seq<T>, less: (T, T) -> bool)
    requires Strict(less) && Sorted(xs, less) && Sorted(ys, less)
    requires Elements(xs) == Elements(ys)
    ensures xs == ys
    decreases |xs|
  {
    assert |xs| > 0 ==> xs[0] in Elements(xs);
    assert |ys| > 0 ==> ys[0] in Elements(ys);
    if |xs| > 0 && |ys| > 0 {
      var x, y := xs[0], ys[0];
      ElementsOfTail(xs, less);
      ElementsOfTail(ys, less);
      assert x in Elements(ys) && y in Elements(xs);
      assert forall z | z in Elements(xs) && z != x :: z in Elements(xs[1..]) && less(x, z);
      assert forall z | z in Elements(ys) && z != y :: z in Elements(ys[1..]) && less(y, z);
      assert x == y;
      SortedUnique(xs[1..], ys[1..], less);
      assert xs == [x] + xs[1..] && ys == [y] + ys[1..];
    }
  }

  /** A sorted sequence lists exactly what `Sort` lists. */
  lemma SortIs<T(!new)>(xs: seq<T>, less: (T, T) -> bool)
    requires Strict(less) && Sorted(xs, less) && TotalOn(less, Elements(xs))
    ensures Sort(Elements(xs), less) == xs
  {
    SortedUnique(Sort(Elements(xs), less), xs, less);
  }

  /** The position at which an insertion sort places `x`. */
  function InsertSorted<T>(x: T, xs: seq<T>, less: (T, T) -> bool): seq<T> {
    if xs == [] || less(x, xs[0]) then [x] + xs else [xs[0]] + InsertSorted(x, xs[1..], less)
  }

  lemma {:induction false} InsertKeepsSorted<T(!new)>(x: T, xs: seq<T>, less: (T, T) -> bool)
    requires Strict(less) && Sorted(xs, less) && x !in xs
    requires TotalOn(less, Elements(xs) + {x})
    ensures Sorted(InsertSorted(x, xs, less), less)
    ensures Elements(InsertSorted(x, xs, less)) == Elements(xs) + {x}
    decreases |xs|
  {
    if xs == [] {
      assert InsertSorted(x, xs, less) == [x];
    } else if less(x, xs[0]) {
      ElementsOfTail(xs, less);
      ElementsOfCons(x, xs);
      assert forall y | y in xs :: y in Elements(xs) && (y == xs[0] || y in Elements(xs[1..]));
      SortedCons(x, xs, less);
    } else {
      var tail := xs[1..];
      ElementsOfTail(xs, less);
      InsertKeepsSorted(x, tail, less);
      var rec := InsertSorted(x, tail, less);
      assert xs[0] in Elements(xs);
      assert forall y | y in rec :: y in Elements(rec) && (y == x || y in Elements(tail));
      SortedCons(xs[0], rec, less);
      ElementsOfCons(xs[0], rec);
    }
  }

  /** A Go map is ranged over in any order and the values are then sorted. */
  method SortSet<T(==, !new)>(s: set<T>, less: (T, T) -> bool) returns (out: seq<T>)
    requires Strict(less) && TotalOn(less, s)
    ensures out == Sort(s, less)
  {
    out := [];
    var rest := s;
    while rest != {}
      invariant rest <= s
      invariant Sorted(out, less) && Elements(out) == s - rest
      decreases |rest|
    {
      var x :| x in rest;
      assert x in out ==> x in Elements(out);
      InsertKeepsSorted(x, out, less);
      out := InsertSorted(x, out, less);
      rest := rest - {x};
    }
    assert Elements(out) == s;
    SortIs(out, less);
  }

  /** What follows position `k` in a sorted list is what is greater than the element before `k`. */
  lemma SuffixIsGreater<T(!new)>(xs: seq<T>, k: nat, less: (T, T) -> bool)
    requires Strict(less) && Sorted(xs, less) && 0 < k <= |xs|
    ensures Elements(xs[k..]) == set x | x in xs && less(xs[k - 1], x)
    ensures Sorted(xs[k..], less)
  {
    assert forall i | 0 <= i < k - 1 :: less(xs[i], xs[k - 1]);
    forall x | x in xs && less(xs[k - 1], x) ensures x in xs[k..] {
      var i :| 0 <= i < |xs| && xs[i] == x;
      assert i >= k;
      assert xs[k..][i - k] == x;
    }
  }
}
