/** qsort and the comparison functions given to it. */
module Sorting {
  import opened Text

  // ---------- qsort ----------

  /** The comparison function is a total preorder on the elements: what qsort asks of its caller. */
  ghost predicate Orders<T>(cmp: (T, T) -> int, xs: seq<T>) {
    && (forall a, b :: a in xs && b in xs ==> cmp(a, b) <= 0 || cmp(b, a) <= 0)
    && (forall a, b, c :: a in xs && b in xs && c in xs && cmp(a, b) <= 0 && cmp(b, c) <= 0 ==> cmp(a, c) <= 0)
  }

  ghost predicate Ordered<T>(cmp: (T, T) -> int, xs: seq<T>) {
    forall i, j :: 0 <= i < j < |xs| ==> cmp(xs[i], xs[j]) <= 0
  }

  function Insert<T>(cmp: (T, T) -> int, x: T, xs: seq<T>): seq<T> {
    if xs == [] || cmp(x, xs[0]) <= 0 then [x] + xs else [xs[0]] + Insert(cmp, x, xs[1..])
  }

  lemma {:induction false} InsertAdds<T>(cmp: (T, T) -> int, x: T, xs: seq<T>)
    ensures multiset(Insert(cmp, x, xs)) == multiset(xs) + multiset{x}
  {
    if !(xs == [] || cmp(x, xs[0]) <= 0) {
      InsertAdds(cmp, x, xs[1..]);
      assert xs == [xs[0]] + xs[1..];
    }
  }

  lemma SameMembers<T>(xs: seq<T>, ys: seq<T>)
    requires multiset(xs) == multiset(ys)
    ensures |xs| == |ys| && forall z :: z in xs <==> z in ys
  {
    assert |multiset(xs)| == |xs| && |multiset(ys)| == |ys|;
    assert forall z :: z in xs <==> z in multiset(xs);
    assert forall z :: z in ys <==> z in multiset(ys);
  }

  lemma ConsOrdered<T>(cmp: (T, T) -> int, x: T, xs: seq<T>)
    requires Ordered(cmp, xs) && forall y :: y in xs ==> cmp(x, y) <= 0
    ensures Ordered(cmp, [x] + xs)
  {
  }

  lemma {:induction false} InsertKeepsOrder<T>(cmp: (T, T) -> int, x: T, xs: seq<T>)
    requires Orders(cmp, [x] + xs) && Ordered(cmp, xs)
    ensures Ordered(cmp, Insert(cmp, x, xs))
  {
    if xs == [] {
    } else if cmp(x, xs[0]) <= 0 {
      forall y | y in xs
        ensures cmp(x, y) <= 0
      {
        FirstIsLess(cmp, x, xs, y);
      }
      ConsOrdered(cmp, x, xs);
    } else {
      var tail := Insert(cmp, x, xs[1..]);
      FewerToOrder(cmp, x, xs);
      InsertKeepsOrder(cmp, x, xs[1..]);
      forall y | y in tail
        ensures cmp(xs[0], y) <= 0
      {
        InsertedMembers(cmp, x, xs[1..], y);
        FirstIsLeast(cmp, x, xs, y);
      }
      ConsOrdered(cmp, xs[0], tail);
    }
  }

  lemma FewerToOrder<T>(cmp: (T, T) -> int, x: T, xs: seq<T>)
    requires xs != [] && Orders(cmp, [x] + xs)
    ensures Orders(cmp, [x] + xs[1..])
  {
    assert forall a :: a in [x] + xs[1..] ==> a in [x] + xs;
  }

  lemma InsertedMembers<T>(cmp: (T, T) -> int, x: T, xs: seq<T>, y: T)
    requires y in Insert(cmp, x, xs)
    ensures y in [x] + xs
  {
    InsertAdds(cmp, x, xs);
    SameMembers(Insert(cmp, x, xs), [x] + xs);
  }

  lemma FirstIsLess<T>(cmp: (T, T) -> int, x: T, xs: seq<T>, y: T)
    requires Orders(cmp, [x] + xs) && Ordered(cmp, xs) && y in xs && cmp(x, xs[0]) <= 0
    ensures cmp(x, y) <= 0
  {
    assert x in [x] + xs && xs[0] in [x] + xs && y in [x] + xs;
  }

  lemma FirstIsLeast<T>(cmp: (T, T) -> int, x: T, xs: seq<T>, y: T)
    requires Orders(cmp, [x] + xs) && Ordered(cmp, xs) && xs != [] && cmp(x, xs[0]) > 0
    requires y in [x] + xs[1..]
    ensures cmp(xs[0], y) <= 0
  {
    assert x in [x] + xs && xs[0] in [x] + xs;
    if y != x {
      assert y in xs[1..];
    }
  }

  /** Sorts with an arbitrary comparison function: a permutation always, in order if the function orders the
      elements. */
  method Qsort<T>(xs: seq<T>, cmp: (T, T) -> int) returns (ys: seq<T>)
    ensures multiset(ys) == multiset(xs)
    ensures Orders(cmp, xs) ==> Ordered(cmp, ys)
  {
    ys := [];
    var i := |xs|;
    while i > 0
      invariant 0 <= i <= |xs| && multiset(ys) == multiset(xs[i..])
      invariant Orders(cmp, xs) ==> Ordered(cmp, ys)
    {
      i := i - 1;
      InsertAdds(cmp, xs[i], ys);
      assert xs[i..] == [xs[i]] + xs[i + 1..];
      if Orders(cmp, xs) {
        SameMembers(ys, xs[i + 1..]);
        assert forall a :: a in [xs[i]] + ys ==> a in xs;
        InsertKeepsOrder(cmp, xs[i], ys);
      }
      ys := Insert(cmp, xs[i], ys);
    }
    assert xs[0..] == xs;
  }

  // ---------- comparing ints by subtraction ----------

  datatype SortDirection = Ascending | Descending

  const INT_MIN: int := -0x8000_0000

  predicate FitsInt(n: int) {
    INT_MIN <= n <= INT_MAX
  }

  /** What a 32-bit subtraction leaves of a difference (two's complement). */
  function Wrapped(n: int): (w: int)
    ensures FitsInt(w)
    ensures FitsInt(n) ==> w == n
  {
    (n - INT_MIN) % 0x1_0000_0000 + INT_MIN
  }

  function Difference(dir: SortDirection, a: int, b: int): int {
    if dir.Ascending? then a - b else b - a
  }

  /** kvtree_cmp_fn_int_asc and kvtree_cmp_fn_int_desc. */
  function CmpInt(dir: SortDirection, a: int, b: int): int {
    Wrapped(Difference(dir, a, b))
  }

  predicate InOrder(dir: SortDirection, a: int, b: int) {
    if dir.Ascending? then a <= b else b <= a
  }

  /** All pairwise differences can be represented. */
  ghost predicate DifferencesFit(keys: seq<int>) {
    forall i, j :: 0 <= i < |keys| && 0 <= j < |keys| ==> FitsInt(keys[i] - keys[j])
  }

  /** The comparison agrees with the order of the numbers. */
  ghost predicate ComparesByValue(dir: SortDirection, keys: seq<int>) {
    forall i, j :: 0 <= i < |keys| && 0 <= j < |keys| ==>
        (CmpInt(dir, keys[i], keys[j]) <= 0 <==> InOrder(dir, keys[i], keys[j]))
  }

  /** Comparing by subtraction follows the numbers exactly when every difference fits in an int. */
  lemma SubtractionComparesByValue(dir: SortDirection, keys: seq<int>)
    requires forall i :: 0 <= i < |keys| ==> FitsInt(keys[i])
    ensures ComparesByValue(dir, keys) <==> DifferencesFit(keys)
  {
    forall i, j | 0 <= i < |keys| && 0 <= j < |keys|
      ensures FitsInt(Difference(dir, keys[i], keys[j])) <==>
                (CmpInt(dir, keys[i], keys[j]) <= 0 <==> InOrder(dir, keys[i], keys[j]))
    {
      OverflowReverses(Difference(dir, keys[i], keys[j]));
    }
    if ComparesByValue(dir, keys) {
      forall i, j | 0 <= i < |keys| && 0 <= j < |keys|
        ensures FitsInt(keys[i] - keys[j])
      {
        assert FitsInt(Difference(dir, keys[i], keys[j])) && FitsInt(Difference(dir, keys[j], keys[i]));
      }
    }
  }

  /** A difference that does not fit comes out with the wrong sign. */
  lemma OverflowReverses(n: int)
    requires 2 * INT_MIN < n < -2 * INT_MIN
    ensures n > INT_MAX ==> Wrapped(n) < 0
    ensures n < INT_MIN ==> Wrapped(n) > 0
  {
  }

  /** With overflow the comparison need not even be an order: three keys in a cycle. */
  lemma OverflowMakesCycles()
    ensures CmpInt(Ascending, INT_MIN, 0) < 0 && CmpInt(Ascending, 0, INT_MAX) < 0
              && CmpInt(Ascending, INT_MAX, INT_MIN) < 0
    ensures !Orders((a, b) => CmpInt(Ascending, a, b), [INT_MIN, 0, INT_MAX])
  {
    var keys := [INT_MIN, 0, INT_MAX];
    assert keys[0] in keys && keys[1] in keys && keys[2] in keys;
  }

  // ---------- comparing strings ----------

  /** strcmp on unsigned bytes. */
  function Strcmp(a: string, b: string): int {
    if a == "" then (if b == "" then 0 else -1)
    else if b == "" then 1
    else if a[0] != b[0] then a[0] as int - b[0] as int
    else Strcmp(a[1..], b[1..])
  }

  /** kvtree_cmp_fn_str_asc and kvtree_cmp_fn_str_desc. */
  function CmpStr(dir: SortDirection, a: string, b: string): int {
    if dir.Ascending? then Strcmp(a, b) else Strcmp(b, a)
  }

  ghost predicate Agree(a: string, b: string, p: nat) {
    p <= |a| && p <= |b| && forall i :: 0 <= i < p ==> a[i] == b[i]
  }

  /** a comes before b: they agree up to some place, where a ends and b does not, or a has the lower character. */
  ghost predicate TextBefore(a: string, b: string) {
    exists p: nat :: Agree(a, b, p) && p < |b| && (p == |a| || a[p] < b[p])
  }

  /** strcmp is negative exactly for text that comes before. */
  lemma {:induction false} StrcmpIsText(a: string, b: string)
    ensures Strcmp(a, b) < 0 <==> TextBefore(a, b)
    decreases |a|
  {
    if a == "" || b == "" || a[0] != b[0] {
      assert Agree(a, b, 0);
    } else {
      StrcmpIsText(a[1..], b[1..]);
      SameFirst(a, b, a[1..], b[1..]);
    }
  }

  lemma SameFirst(a: string, b: string, c: string, d: string)
    requires a != "" && b != "" && a[0] == b[0] && c == a[1..] && d == b[1..]
    ensures TextBefore(a, b) <==> TextBefore(c, d)
  {
    if TextBefore(a, b) {
      var p: nat :| Agree(a, b, p) && p < |b| && (p == |a| || a[p] < b[p]);
      assert Agree(c, d, p - 1);
    }
    if TextBefore(c, d) {
      var q: nat :| Agree(c, d, q) && q < |d| && (q == |c| || c[q] < d[q]);
      assert Agree(a, b, q + 1);
    }
  }

  lemma {:induction false} StrcmpFlips(a: string, b: string)
    ensures Strcmp(a, b) == -Strcmp(b, a)
    ensures Strcmp(a, b) == 0 <==> a == b
    decreases |a|
  {
    if a != "" && b != "" && a[0] == b[0] {
      StrcmpFlips(a[1..], b[1..]);
      assert a == [a[0]] + a[1..] && b == [b[0]] + b[1..];
    }
  }

  lemma {:induction false} StrcmpChains(a: string, b: string, c: string)
    requires Strcmp(a, b) <= 0 && Strcmp(b, c) <= 0
    ensures Strcmp(a, c) <= 0
    decreases |a|
  {
    if a != "" && b != "" && c != "" && a[0] == b[0] == c[0] {
      StrcmpChains(a[1..], b[1..], c[1..]);
    }
  }
}
