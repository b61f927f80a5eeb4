/**
 Sorting as JavaScript does it: strings compare by UTF-16 code units, and a sort whose
 comparison never ties on different elements has exactly one possible outcome.
 */
module Ordering {
  /** Places a character where its UTF-16 encoding puts it: surrogate pairs sort below U+E000. */
  function CodeUnitRank(c: char): int {
    var n := c as int;
    if 0xE000 <= n < 0x10000 then n + 0x110000 else n
  }

  predicate TextLeq(a: string, b: string) {
    if a == "" then true
    else if b == "" then false
    else if a[0] == b[0] then TextLeq(a[1..], b[1..])
    else CodeUnitRank(a[0]) < CodeUnitRank(b[0])
  }

  ghost predicate TotalPreorder<T(!new)>(leq: (T, T) -> bool) {
    && (forall x, y :: leq(x, y) || leq(y, x))
    && (forall x, y, z :: leq(x, y) && leq(y, z) ==> leq(x, z))
  }

  ghost predicate TieFree<T>(leq: (T, T) -> bool, xs: seq<T>) {
    forall x, y :: x in xs && y in xs && leq(x, y) && leq(y, x) ==> x == y
  }

  ghost predicate Sorted<T>(leq: (T, T) -> bool, xs: seq<T>) {
    forall i, j :: 0 <= i < j < |xs| ==> leq(xs[i], xs[j])
  }

  function Insert<T>(leq: (T, T) -> bool, x: T, xs: seq<T>): seq<T> {
    if xs == [] then [x]
    else if leq(x, xs[0]) then [x] + xs
    else [xs[0]] + Insert(leq, x, xs[1..])
  }

  function Sort<T>(leq: (T, T) -> bool, xs: seq<T>): seq<T> {
    if xs == [] then [] else Insert(leq, xs[0], Sort(leq, xs[1..]))
  }

  lemma {:induction false} TextLeqTotal(a: string, b: string)
    ensures TextLeq(a, b) || TextLeq(b, a)
    ensures TextLeq(a, b) && TextLeq(b, a) ==> a == b
  {
    if a != "" && b != "" && a[0] == b[0] {
      TextLeqTotal(a[1..], b[1..]);
      assert a == [a[0]] + a[1..] && b == [b[0]] + b[1..];
    }
  }

  lemma {:induction false} TextLeqTransitive(a: string, b: string, c: string)
    requires TextLeq(a, b) && TextLeq(b, c)
    ensures TextLeq(a, c)
  {
    if a != "" && b != "" && c != "" && a[0] == b[0] == c[0] {
      TextLeqTransitive(a[1..], b[1..], c[1..]);
    }
  }

  lemma {:induction false} InsertPermutes<T>(leq: (T, T) -> bool, x: T, xs: seq<T>)
    ensures multiset(Insert(leq, x, xs)) == multiset{x} + multiset(xs)
  {
    if xs != [] {
      assert xs == [xs[0]] + xs[1..];
      if !leq(x, xs[0]) {
        InsertPermutes(leq, x, xs[1..]);
      }
    }
  }

  lemma {:induction false} InsertSorts<T(!new)>(leq: (T, T) -> bool, x: T, xs: seq<T>)
    requires TotalPreorder(leq) && Sorted(leq, xs)
    ensures Sorted(leq, Insert(leq, x, xs))
  {
    if xs != [] {
      if leq(x, xs[0]) {
        forall i | 0 <= i < |xs| ensures leq(x, xs[i]) {
          assert i == 0 || leq(xs[0], xs[i]);
        }
      } else {
        var rest := Insert(leq, x, xs[1..]);
        InsertSorts(leq, x, xs[1..]);
        InsertPermutes(leq, x, xs[1..]);
        forall i | 0 <= i < |rest| ensures leq(xs[0], rest[i]) {
          assert rest[i] in multiset(rest);
        }
      }
    }
  }

  /** Sorting keeps exactly the elements and puts them in order. */
  lemma {:induction false} SortIsSortedPermutation<T(!new)>(leq: (T, T) -> bool, xs: seq<T>)
    requires TotalPreorder(leq)
    ensures Sorted(leq, Sort(leq, xs))
    ensures multiset(Sort(leq, xs)) == multiset(xs)
  {
    if xs != [] {
      SortIsSortedPermutation(leq, xs[1..]);
      InsertSorts(leq, xs[0], Sort(leq, xs[1..]));
      InsertPermutes(leq, xs[0], Sort(leq, xs[1..]));
      assert xs == [xs[0]] + xs[1..];
    }
  }

  lemma SortedHeadsAgree<T>(leq: (T, T) -> bool, xs: seq<T>, ys: seq<T>)
    requires Sorted(leq, xs) && Sorted(leq, ys) && TieFree(leq, xs)
    requires multiset(xs) == multiset(ys) && xs != [] && ys != []
    ensures xs[0] == ys[0]
  {
    assert xs[0] in multiset(ys) && ys[0] in multiset(xs);
    var i :| 0 <= i < |ys| && ys[i] == xs[0];
    var j :| 0 <= j < |xs| && xs[j] == ys[0];
    assert i == 0 || leq(ys[0], ys[i]);
    assert j == 0 || leq(xs[0], xs[j]);
  }

  lemma TailElements<T>(xs: seq<T>)
    requires xs != []
    ensures multiset(xs[1..]) == multiset(xs) - multiset{xs[0]}
  {
    assert xs == [xs[0]] + xs[1..];
  }

  lemma {:induction false} SortedUnique<T>(leq: (T, T) -> bool, xs: seq<T>, ys: seq<T>)
    requires Sorted(leq, xs) && Sorted(leq, ys) && TieFree(leq, xs) && TieFree(leq, ys)
    requires multiset(xs) == multiset(ys)
    ensures xs == ys
    decreases |xs|
  {
    SameElements(xs, ys);
    if xs != [] {
      SortedHeadsAgree(leq, xs, ys);
      TailElements(xs);
      TailElements(ys);
      SortedUnique(leq, xs[1..], ys[1..]);
      assert xs == [xs[0]] + xs[1..] && ys == [ys[0]] + ys[1..];
    }
  }

  /** When no two elements tie, the outcome does not depend on the order they came in. */
  lemma SortIgnoresOrder<T(!new)>(leq: (T, T) -> bool, xs: seq<T>, ys: seq<T>)
    requires TotalPreorder(leq) && TieFree(leq, xs) && multiset(xs) == multiset(ys)
    ensures Sort(leq, xs) == Sort(leq, ys)
  {
    SortIsSortedPermutation(leq, xs);
    SortIsSortedPermutation(leq, ys);
    SameElements(xs, Sort(leq, xs));
    SameElements(xs, Sort(leq, ys));
    SortedUnique(leq, Sort(leq, xs), Sort(leq, ys));
  }

  /** Without repetitions the multiset only says which elements there are. */
  lemma {:induction false} NoRepeats<T>(xs: seq<T>)
    requires forall i, j :: 0 <= i < j < |xs| ==> xs[i] != xs[j]
    ensures forall x :: multiset(xs)[x] == if x in xs then 1 else 0
  {
    if xs != [] {
      assert xs == [xs[0]] + xs[1..];
      NoRepeats(xs[1..]);
    }
  }

  lemma SameElements<T>(xs: seq<T>, ys: seq<T>)
    requires multiset(xs) == multiset(ys)
    ensures |xs| == |ys| && forall x :: x in xs <==> x in ys
  {
    assert |multiset(xs)| == |xs| && |multiset(ys)| == |ys|;
    forall x ensures x in xs <==> x in ys {
      assert x in xs <==> x in multiset(xs);
      assert x in ys <==> x in multiset(ys);
    }
  }

  /** A sequence already in order is left alone. */
  lemma SortKeepsSorted<T(!new)>(leq: (T, T) -> bool, xs: seq<T>)
    requires TotalPreorder(leq) && TieFree(leq, xs) && Sorted(leq, xs)
    ensures Sort(leq, xs) == xs
  {
    SortIsSortedPermutation(leq, xs);
    SameElements(xs, Sort(leq, xs));
    SortedUnique(leq, xs, Sort(leq, xs));
  }

  // ---------------------------------------------------------------- UTF-16 code units

  function Utf16(c: char): seq<int> {
    var n := c as int;
    if n < 0x1_0000 then [n] else [0xD800 + (n - 0x1_0000) / 0x400, 0xDC00 + (n - 0x1_0000) % 0x400]
  }

  function Units(s: string): seq<int> {
    if s == "" then [] else Utf16(s[0]) + Units(s[1..])
  }

  predicate SmallerAt(a: seq<int>, b: seq<int>, i: nat) {
    i < |a| && i < |b| && (forall k :: 0 <= k < i ==> a[k] == b[k]) && a[i] < b[i]
  }

  /** The order of section 3.2.3 of RFC 8785: a prefix comes first, else the first difference decides. */
  ghost predicate UnitsLeq(a: seq<int>, b: seq<int>) {
    a <= b || exists i: nat :: SmallerAt(a, b, i)
  }

  lemma SmallerIsStrict(a: seq<int>, b: seq<int>, i: nat)
    requires SmallerAt(a, b, i)
    ensures !UnitsLeq(b, a)
  {
  }

  lemma HeadsDecide(c: char, d: char, a: seq<int>, b: seq<int>)
    requires c != d
    ensures UnitsLeq(Utf16(c) + a, Utf16(d) + b) <==> CodeUnitRank(c) < CodeUnitRank(d)
  {
    var u, v := Utf16(c) + a, Utf16(d) + b;
    var i := if u[0] == v[0] then 1 else 0;
    if CodeUnitRank(c) < CodeUnitRank(d) {
      assert SmallerAt(u, v, i);
    } else {
      assert SmallerAt(v, u, i);
      SmallerIsStrict(v, u, i);
    }
  }

  lemma SharedPrefix(p: seq<int>, a: seq<int>, b: seq<int>)
    ensures UnitsLeq(p + a, p + b) <==> UnitsLeq(a, b)
  {
    var n := |p|;
    if a <= b {
      assert p + a <= p + b;
    } else if i: nat :| SmallerAt(a, b, i) {
      assert SmallerAt(p + a, p + b, n + i);
    }
    if p + a <= p + b {
      assert a == (p + a)[n..] && b == (p + b)[n..];
      assert a <= b;
    } else if i: nat :| SmallerAt(p + a, p + b, i) {
      assert a == (p + a)[n..] && b == (p + b)[n..];
      assert i >= n;
      assert SmallerAt(a, b, i - n);
    }
  }

  /** Strings compare as their UTF-16 code units do. */
  lemma {:induction false} TextOrderIsUtf16(a: string, b: string)
    ensures TextLeq(a, b) <==> UnitsLeq(Units(a), Units(b))
  {
    if a == "" {
      assert Units(a) <= Units(b);
    } else if b == "" {
      assert !(Units(a) <= Units(b));
    } else if a[0] == b[0] {
      SharedPrefix(Utf16(a[0]), Units(a[1..]), Units(b[1..]));
      TextOrderIsUtf16(a[1..], b[1..]);
    } else {
      HeadsDecide(a[0], b[0], Units(a[1..]), Units(b[1..]));
    }
  }
}
