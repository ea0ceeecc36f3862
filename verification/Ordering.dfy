/** Text order, stable sorting and sums shared by the other modules. */
module Ordering {

  datatype Option<+T> = None | Some(value: T)

  // ---------------------------------------------------------------- text order

  /** JavaScript's `<` on strings: lexicographic by code unit. */
  predicate UnitsLess(a: seq<int>, b: seq<int>) {
    if |b| == 0 then false
    else if |a| == 0 then true
    else a[0] < b[0] || (a[0] == b[0] && UnitsLess(a[1..], b[1..]))
  }

  lemma {:induction false} UnitsLessTrichotomy(a: seq<int>, b: seq<int>)
    ensures !(UnitsLess(a, b) && UnitsLess(b, a))
    ensures a != b ==> UnitsLess(a, b) || UnitsLess(b, a)
    ensures !UnitsLess(a, a)
  {
    if |a| > 0 {
      UnitsLessTrichotomy(a[1..], a[1..]);
      if |b| > 0 {
        UnitsLessTrichotomy(a[1..], b[1..]);
        if a[0] == b[0] && a[1..] == b[1..] {
          assert a == [a[0]] + a[1..] && b == [b[0]] + b[1..];
        }
      }
    }
  }

  lemma {:induction false} UnitsLessTransitive(a: seq<int>, b: seq<int>, c: seq<int>)
    requires UnitsLess(a, b) && UnitsLess(b, c)
    ensures UnitsLess(a, c)
  {
    if |a| > 0 && a[0] == b[0] && b[0] == c[0] {
      UnitsLessTransitive(a[1..], b[1..], c[1..]);
    }
  }

  function Units(s: string): (u: seq<int>)
    ensures |u| == |s|
  {
    seq(|s|, i requires 0 <= i < |s| => s[i] as int)
  }

  predicate Less(a: string, b: string) {
    UnitsLess(Units(a), Units(b))
  }

  predicate AtMost(a: string, b: string) {
    !Less(b, a)
  }

  lemma UnitsInjective(a: string, b: string)
    requires Units(a) == Units(b)
    ensures a == b
  {
    assert |Units(a)| == |Units(b)|;
    forall i | 0 <= i < |a|
      ensures a[i] == b[i]
    {
      assert Units(a)[i] == Units(b)[i];
    }
  }

  /** `AtMost` is a total order on strings. */
  lemma AtMostTotalOrder(a: string, b: string, c: string)
    ensures AtMost(a, b) || AtMost(b, a)
    ensures AtMost(a, b) && AtMost(b, a) ==> a == b
    ensures AtMost(a, b) && AtMost(b, c) ==> AtMost(a, c)
  {
    UnitsLessTrichotomy(Units(a), Units(b));
    UnitsLessTrichotomy(Units(b), Units(c));
    UnitsLessTrichotomy(Units(a), Units(c));
    if Units(a) == Units(b) {
      UnitsInjective(a, b);
    }
    if AtMost(a, b) && AtMost(b, c) && Less(c, a) {
      if Units(a) == Units(b) || Units(b) == Units(c) {
      } else {
        UnitsLessTransitive(Units(a), Units(b), Units(c));
      }
    }
  }

  // ------------------------------------------------------------------- sorting

  ghost predicate TotalPreorder<T(!new)>(leq: (T, T) -> bool) {
    && (forall a, b :: leq(a, b) || leq(b, a))
    && (forall a, b, c :: leq(a, b) && leq(b, c) ==> leq(a, c))
  }

  ghost predicate Sorted<T>(s: seq<T>, leq: (T, T) -> bool) {
    forall i, j :: 0 <= i < j < |s| ==> leq(s[i], s[j])
  }

  function Insert<T>(x: T, s: seq<T>, leq: (T, T) -> bool): seq<T> {
    if s == [] || leq(x, s[0]) then [x] + s else [s[0]] + Insert(x, s[1..], leq)
  }

  /** `Array.prototype.sort` with a comparator: stable, ascending. */
  function Sort<T>(s: seq<T>, leq: (T, T) -> bool): seq<T> {
    if s == [] then [] else Insert(s[0], Sort(s[1..], leq), leq)
  }

  lemma {:induction false} InsertPermutes<T>(x: T, s: seq<T>, leq: (T, T) -> bool)
    ensures multiset(Insert(x, s, leq)) == multiset(s) + multiset{x}
  {
    if s == [] || leq(x, s[0]) {
    } else {
      InsertPermutes(x, s[1..], leq);
      assert s == [s[0]] + s[1..];
    }
  }

  lemma {:induction false} SortPermutes<T>(s: seq<T>, leq: (T, T) -> bool)
    ensures multiset(Sort(s, leq)) == multiset(s)
    ensures |Sort(s, leq)| == |s|
    ensures forall x :: x in Sort(s, leq) <==> x in s
  {
    if s != [] {
      SortPermutes(s[1..], leq);
      InsertPermutes(s[0], Sort(s[1..], leq), leq);
      assert s == [s[0]] + s[1..];
    }
    SameMembers(Sort(s, leq), s);
  }

  lemma SameMembers<T>(a: seq<T>, b: seq<T>)
    requires multiset(a) == multiset(b)
    ensures |a| == |b|
    ensures forall x :: x in a <==> x in b
  {
    assert |multiset(a)| == |multiset(b)|;
    forall x
      ensures x in a <==> x in b
    {
      assert x in a <==> x in multiset(a);
      assert x in b <==> x in multiset(b);
    }
  }

  lemma {:induction false} InsertSorted<T(!new)>(x: T, s: seq<T>, leq: (T, T) -> bool)
    requires TotalPreorder(leq) && Sorted(s, leq)
    ensures Sorted(Insert(x, s, leq), leq)
  {
    if s == [] || leq(x, s[0]) {
    } else {
      var rest := Insert(x, s[1..], leq);
      InsertSorted(x, s[1..], leq);
      InsertPermutes(x, s[1..], leq);
      forall j | 0 <= j < |rest|
        ensures leq(s[0], rest[j])
      {
        assert rest[j] in multiset(rest);
      }
    }
  }

  lemma {:induction false} SortSorts<T(!new)>(s: seq<T>, leq: (T, T) -> bool)
    requires TotalPreorder(leq)
    ensures Sorted(Sort(s, leq), leq)
  {
    if s != [] {
      SortSorts(s[1..], leq);
      InsertSorted(s[0], Sort(s[1..], leq), leq);
    }
  }

  lemma SortedHeads<T>(a: seq<T>, b: seq<T>, leq: (T, T) -> bool)
    requires a != [] && multiset(a) == multiset(b)
    requires Sorted(a, leq) && Sorted(b, leq)
    ensures b != [] && (a[0] == b[0] || (leq(a[0], b[0]) && leq(b[0], a[0])))
    ensures a[0] in b && b[0] in a
  {
    SameMembers(a, b);
    assert a[0] in b;
    var i :| 0 <= i < |b| && b[i] == a[0];
    assert b[0] in a;
    var j :| 0 <= j < |a| && a[j] == b[0];
    assert i > 0 ==> leq(b[0], b[i]);
    assert j > 0 ==> leq(a[0], a[j]);
  }

  lemma TailPermutes<T>(a: seq<T>, b: seq<T>)
    requires a != [] && b != [] && a[0] == b[0] && multiset(a) == multiset(b)
    ensures multiset(a[1..]) == multiset(b[1..])
  {
    assert a == [a[0]] + a[1..] && b == [b[0]] + b[1..];
    assert multiset(a) == multiset{a[0]} + multiset(a[1..]);
    assert multiset(b) == multiset{b[0]} + multiset(b[1..]);
    assert multiset(a[1..]) == multiset(a) - multiset{a[0]};
    assert multiset(b[1..]) == multiset(b) - multiset{b[0]};
  }

  /** Two ascending arrangements of the same elements agree when ties are equal. */
  lemma {:induction false} SortedUnique<T>(a: seq<T>, b: seq<T>, leq: (T, T) -> bool)
    requires multiset(a) == multiset(b)
    requires Sorted(a, leq) && Sorted(b, leq)
    requires forall x, y :: x in a && y in a && leq(x, y) && leq(y, x) ==> x == y
    ensures a == b
  {
    SameMembers(a, b);
    if a != [] {
      SortedHeads(a, b, leq);
      TailPermutes(a, b);
      assert forall x :: x in a[1..] ==> x in a;
      SortedUnique(a[1..], b[1..], leq);
      assert a == [a[0]] + a[1..] && b == [b[0]] + b[1..];
    }
  }

  /** Sorting permuted inputs gives one and the same list when ties are equal. */
  lemma SortCanonical<T(!new)>(a: seq<T>, b: seq<T>, leq: (T, T) -> bool)
    requires TotalPreorder(leq)
    requires multiset(a) == multiset(b)
    requires forall x, y :: x in a && y in a && leq(x, y) && leq(y, x) ==> x == y
    ensures Sort(a, leq) == Sort(b, leq)
  {
    SortPermutes(a, leq);
    SortPermutes(b, leq);
    SortSorts(a, leq);
    SortSorts(b, leq);
    SortedUnique(Sort(a, leq), Sort(b, leq), leq);
  }

  // ------------------------------------------------------------ map and filter

  function Map<T, U>(f: T -> U, s: seq<T>): (r: seq<U>)
    ensures |r| == |s|
    ensures forall i :: 0 <= i < |s| ==> r[i] == f(s[i])
  {
    if s == [] then [] else [f(s[0])] + Map(f, s[1..])
  }

  function Filter<T>(p: T -> bool, s: seq<T>): (r: seq<T>)
    ensures forall i :: 0 <= i < |r| ==> r[i] in s && p(r[i])
    ensures forall i :: 0 <= i < |s| && p(s[i]) ==> s[i] in r
    ensures |r| <= |s|
  {
    if s == [] then [] else (if p(s[0]) then [s[0]] else []) + Filter(p, s[1..])
  }

  lemma {:induction false} FilterConcat<T>(p: T -> bool, a: seq<T>, b: seq<T>)
    ensures Filter(p, a + b) == Filter(p, a) + Filter(p, b)
  {
    if a == [] {
      assert a + b == b;
    } else {
      assert (a + b)[1..] == a[1..] + b;
      FilterConcat(p, a[1..], b);
    }
  }

  lemma WithoutAt<T>(s: seq<T>, i: nat, k: nat)
    requires i < |s| && k < |s| - 1
    ensures Without(s, i)[k] == s[if k < i then k else k + 1]
  {
  }

  lemma MapWithout<T, U>(f: T -> U, s: seq<T>, i: nat)
    requires i < |s|
    ensures Map(f, Without(s, i)) == Without(Map(f, s), i)
  {
    forall k | 0 <= k < |s| - 1
      ensures Map(f, Without(s, i))[k] == Without(Map(f, s), i)[k]
    {
      WithoutAt(s, i, k);
      WithoutAt(Map(f, s), i, k);
    }
  }

  lemma {:induction false} FilterCount<T>(p: T -> bool, s: seq<T>, x: T)
    ensures multiset(Filter(p, s))[x] == if p(x) then multiset(s)[x] else 0
  {
    if s != [] {
      FilterCount(p, s[1..], x);
      var rest := Filter(p, s[1..]);
      assert s == [s[0]] + s[1..];
      assert multiset(s)[x] == (if s[0] == x then 1 else 0) + multiset(s[1..])[x];
      if p(s[0]) {
        assert multiset([s[0]] + rest)[x] == (if s[0] == x then 1 else 0) + multiset(rest)[x];
      } else {
        assert [] + rest == rest;
      }
    }
  }

  lemma {:induction false} MapPermutes<T, U>(f: T -> U, a: seq<T>, b: seq<T>)
    requires multiset(a) == multiset(b)
    ensures multiset(Map(f, a)) == multiset(Map(f, b))
  {
    SameMembers(a, b);
    if a != [] {
      assert a[0] in b;
      var i :| 0 <= i < |b| && b[i] == a[0];
      WithoutPermutes(a, 0);
      WithoutPermutes(b, i);
      assert Without(a, 0) == a[1..];
      MapPermutes(f, a[1..], Without(b, i));
      MapWithout(f, b, i);
      WithoutPermutes(Map(f, b), i);
    }
  }

  lemma FilterPermutes<T>(p: T -> bool, a: seq<T>, b: seq<T>)
    requires multiset(a) == multiset(b)
    ensures multiset(Filter(p, a)) == multiset(Filter(p, b))
  {
    forall x
      ensures multiset(Filter(p, a))[x] == multiset(Filter(p, b))[x]
    {
      FilterCount(p, a, x);
      FilterCount(p, b, x);
    }
  }

  lemma {:induction false} InsertMap<T, U>(f: T -> U, x: T, s: seq<T>, leq: (U, U) -> bool) returns (t: seq<T>)
    ensures Insert(f(x), Map(f, s), leq) == Map(f, t)
    ensures multiset(t) == multiset(s) + multiset{x}
  {
    if s == [] || leq(f(x), f(s[0])) {
      t := [x] + s;
    } else {
      var rest := InsertMap(f, x, s[1..], leq);
      assert Map(f, s)[1..] == Map(f, s[1..]);
      assert s == [s[0]] + s[1..];
      t := [s[0]] + rest;
    }
  }

  lemma MapTail<T, U>(f: T -> U, s: seq<T>)
    requires s != []
    ensures Map(f, s)[0] == f(s[0]) && Map(f, s)[1..] == Map(f, s[1..])
  {
  }

  lemma HeadCounted<T>(s: seq<T>)
    requires s != []
    ensures multiset(s) == multiset(s[1..]) + multiset{s[0]}
  {
    assert s == [s[0]] + s[1..];
  }

  /** Sorting mapped values is mapping some arrangement of the originals. */
  lemma {:induction false} SortMap<T, U>(f: T -> U, s: seq<T>, leq: (U, U) -> bool) returns (t: seq<T>)
    ensures Sort(Map(f, s), leq) == Map(f, t)
    ensures multiset(t) == multiset(s)
  {
    if s == [] {
      t := [];
    } else {
      var rest := SortMap(f, s[1..], leq);
      MapTail(f, s);
      HeadCounted(s);
      t := InsertMap(f, s[0], rest, leq);
    }
  }

  lemma {:induction false} InsertMapKeyed<T(!new), U(!new)>(f: T -> U, x: T, s: seq<T>, leq: (T, T) -> bool, leq': (U, U) -> bool)
    requires forall a, b :: leq'(f(a), f(b)) == leq(a, b)
    ensures Insert(f(x), Map(f, s), leq') == Map(f, Insert(x, s, leq))
  {
    if s == [] || leq(x, s[0]) {
    } else {
      InsertMapKeyed(f, x, s[1..], leq, leq');
      assert Map(f, s)[1..] == Map(f, s[1..]);
    }
  }

  /** A map that keeps the sort key commutes with sorting. */
  lemma {:induction false} SortMapKeyed<T(!new), U(!new)>(f: T -> U, s: seq<T>, leq: (T, T) -> bool, leq': (U, U) -> bool)
    requires forall a, b :: leq'(f(a), f(b)) == leq(a, b)
    ensures Sort(Map(f, s), leq') == Map(f, Sort(s, leq))
  {
    if s != [] {
      SortMapKeyed(f, s[1..], leq, leq');
      InsertMapKeyed(f, s[0], Sort(s[1..], leq), leq, leq');
      assert Map(f, s)[1..] == Map(f, s[1..]);
    }
  }

  // ---------------------------------------------------------------- duplicates

  ghost predicate NoDuplicates<T>(s: seq<T>) {
    forall i, j :: 0 <= i < j < |s| ==> s[i] != s[j]
  }

  lemma {:induction false} OnceEach<T>(s: seq<T>, x: T)
    requires NoDuplicates(s)
    ensures multiset(s)[x] <= 1
  {
    if s != [] {
      assert s == [s[0]] + s[1..];
      OnceEach(s[1..], x);
      assert multiset(s)[x] == (if s[0] == x then 1 else 0) + multiset(s[1..])[x];
      if s[0] == x {
        assert x !in s[1..];
      }
    }
  }

  lemma TwiceThere<T>(s: seq<T>, i: nat, j: nat)
    requires i < j < |s| && s[i] == s[j]
    ensures multiset(s)[s[i]] >= 2
  {
    assert s == s[..j] + s[j..];
    assert multiset(s) == multiset(s[..j]) + multiset(s[j..]);
    assert s[..j][i] == s[i] && s[j..][0] == s[i];
    assert s[i] in multiset(s[..j]) && s[i] in multiset(s[j..]);
  }

  lemma NoDuplicatesPermutes<T>(a: seq<T>, b: seq<T>)
    requires NoDuplicates(a) && multiset(a) == multiset(b)
    ensures NoDuplicates(b)
  {
    forall i, j | 0 <= i < j < |b|
      ensures b[i] != b[j]
    {
      if b[i] == b[j] {
        TwiceThere(b, i, j);
        OnceEach(a, b[i]);
      }
    }
  }

  /** Distinct elements all found in a list of the same length are that list, rearranged. */
  lemma SameLengthCover<T>(a: seq<T>, b: seq<T>)
    requires NoDuplicates(a) && |a| == |b|
    requires forall i :: 0 <= i < |a| ==> a[i] in b
    ensures multiset(a) == multiset(b)
  {
    forall x
      ensures multiset(a)[x] <= multiset(b)[x]
    {
      OnceEach(a, x);
      if x in multiset(a) {
        assert x in a;
        assert x in b;
      }
    }
    var rest := multiset(b) - multiset(a);
    assert multiset(b) == multiset(a) + rest;
    assert |multiset(a)| == |a| && |multiset(b)| == |b|;
    assert |rest| == 0;
  }

  // ---------------------------------------------------------------------- sums

  function Sum(s: seq<int>): int {
    if s == [] then 0 else s[0] + Sum(s[1..])
  }

  lemma {:induction false} SumAdd(a: seq<int>, b: seq<int>, c: seq<int>)
    requires |a| == |b| == |c|
    requires forall i :: 0 <= i < |a| ==> c[i] == a[i] + b[i]
    ensures Sum(c) == Sum(a) + Sum(b)
  {
    if a != [] {
      SumAdd(a[1..], b[1..], c[1..]);
    }
  }

  lemma {:induction false} SumUpdate(s: seq<int>, i: nat, v: int)
    requires i < |s|
    ensures Sum(s[i := v]) == Sum(s) - s[i] + v
  {
    if i == 0 {
      assert s[0 := v][1..] == s[1..];
    } else {
      SumUpdate(s[1..], i - 1, v);
      assert s[i := v][1..] == s[1..][i - 1 := v];
    }
  }

  lemma {:induction false} SumMonotone(a: seq<int>, b: seq<int>)
    requires |a| == |b|
    requires forall i :: 0 <= i < |a| ==> a[i] <= b[i]
    ensures Sum(a) <= Sum(b)
    ensures Sum(a) == Sum(b) ==> a == b
  {
    if a != [] {
      SumMonotone(a[1..], b[1..]);
      if Sum(a) == Sum(b) {
        assert a == [a[0]] + a[1..] && b == [b[0]] + b[1..];
      }
    }
  }

  function Without<T>(s: seq<T>, i: nat): (r: seq<T>)
    requires i < |s|
    ensures |r| == |s| - 1
  {
    s[..i] + s[i + 1..]
  }

  lemma WithoutPermutes<T>(s: seq<T>, i: nat)
    requires i < |s|
    ensures multiset(Without(s, i)) == multiset(s) - multiset{s[i]}
    ensures multiset(s) == multiset{s[i]} + multiset(Without(s, i))
  {
    assert s == s[..i] + [s[i]] + s[i + 1..];
    assert multiset(s) == multiset(s[..i]) + multiset{s[i]} + multiset(s[i + 1..]);
  }

  lemma {:induction false} SumWithout(s: seq<int>, i: nat)
    requires i < |s|
    ensures Sum(s) == s[i] + Sum(Without(s, i))
  {
    if i == 0 {
      assert Without(s, 0) == s[1..];
    } else {
      SumWithout(s[1..], i - 1);
      assert Without(s, i) == [s[0]] + Without(s[1..], i - 1);
    }
  }

  lemma {:induction false} SumPermutation(a: seq<int>, b: seq<int>)
    requires multiset(a) == multiset(b)
    ensures Sum(a) == Sum(b)
  {
    SameMembers(a, b);
    if a != [] {
      assert a[0] in b;
      var i :| 0 <= i < |b| && b[i] == a[0];
      WithoutPermutes(a, 0);
      WithoutPermutes(b, i);
      SumWithout(b, i);
      assert Without(a, 0) == a[1..];
      SumPermutation(a[1..], Without(b, i));
    }
  }

  lemma {:induction false} SumZero(s: seq<int>)
    requires forall i :: 0 <= i < |s| ==> s[i] == 0
    ensures Sum(s) == 0
  {
    if s != [] {
      SumZero(s[1..]);
    }
  }

  function Zeros(n: nat): (z: seq<int>)
    ensures |z| == n
    ensures forall i :: 0 <= i < n ==> z[i] == 0
  {
    seq(n, i => 0)
  }

  lemma {:induction false} SumAtLeast(s: seq<int>, low: int)
    requires forall i :: 0 <= i < |s| ==> s[i] >= low
    ensures Sum(s) >= |s| * low
  {
    if s != [] {
      SumAtLeast(s[1..], low);
      assert |s| * low == |s[1..]| * low + low;
    }
  }

  // ------------------------------------------------------- products, quotients

  lemma ProductNext(a: int, n: int)
    ensures a * (n + 1) == a * n + a
  {
  }

  lemma ProductOrder(b: int, k: int, j: int)
    requires b > 0 && k >= j
    ensures b * k >= b * j
  {
  }

  lemma NegatedProduct(n: int, k: int)
    ensures n * -k == -(n * k)
  {
  }

  lemma SameProduct(a: int, b: int, c: int)
    requires c != 0 ==> a == b
    ensures a * c == b * c
  {
  }

  function CeilDiv(a: nat, b: nat): nat
    requires b > 0
  {
    (a + b - 1) / b
  }

  lemma CeilDivBound(x: nat, a: nat, b: nat)
    requires b > 0 && b * x < a + b
    ensures x <= CeilDiv(a, b)
  {
    var q := (a + b - 1) / b;
    ProductNext(b, q);
    if x >= q + 1 {
      ProductOrder(b, x, q + 1);
      assert false;
    }
  }
}
