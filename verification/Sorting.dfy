// The contract of the built-in stable sort that the search code relies on:
// a permutation, ordered by the key, that keeps the input order of ties.

module Sorting {

  ghost predicate TotalPreorder<T(!new)>(le: (T, T) -> bool) {
    && (forall x, y :: le(x, y) || le(y, x))
    && (forall x, y, z :: le(x, y) && le(y, z) ==> le(x, z))
  }

  ghost predicate Sorted<T(!new)>(s: seq<T>, le: (T, T) -> bool) {
    forall i, j :: 0 <= i < j < |s| ==> le(s[i], s[j])
  }

  function Filter<T(!new)>(s: seq<T>, p: T -> bool): (r: seq<T>)
    ensures forall x :: x in r <==> x in s && p(x)
    ensures |r| <= |s|
  {
    if s == [] then []
    else (if p(s[0]) then [s[0]] else []) + Filter(s[1..], p)
  }

  function Insert<T(!new)>(x: T, s: seq<T>, le: (T, T) -> bool): (r: seq<T>)
    ensures multiset(r) == multiset{x} + multiset(s)
  {
    if s == [] then [x]
    else if le(x, s[0]) then [x] + s
    else
      assert s == [s[0]] + s[1..];
      [s[0]] + Insert(x, s[1..], le)
  }

  function SortBy<T(!new)>(s: seq<T>, le: (T, T) -> bool): (r: seq<T>)
    ensures multiset(r) == multiset(s)
    ensures |r| == |s|
  {
    if s == [] then []
    else
      assert s == [s[0]] + s[1..];
      var r := Insert(s[0], SortBy(s[1..], le), le);
      assert |r| == |multiset(r)| && |s| == |multiset(s)|;
      r
  }

  lemma MembersOfPermutation<T(!new)>(a: seq<T>, b: seq<T>)
    requires multiset(a) == multiset(b)
    ensures |a| == |b|
    ensures forall x :: x in a <==> x in b
  {
    assert |multiset(a)| == |a| && |multiset(b)| == |b|;
    forall x ensures x in a <==> x in b {
      assert x in a <==> x in multiset(a);
      assert x in b <==> x in multiset(b);
    }
  }

  lemma InsertSorted<T(!new)>(x: T, s: seq<T>, le: (T, T) -> bool)
    requires TotalPreorder(le) && Sorted(s, le)
    ensures Sorted(Insert(x, s, le), le)
  {
    if s != [] && !le(x, s[0]) {
      InsertSorted(x, s[1..], le);
      var rest := Insert(x, s[1..], le);
      forall j | 0 <= j < |rest| ensures le(s[0], rest[j]) {
        assert rest[j] in multiset(rest);
        assert rest[j] == x || rest[j] in s[1..];
      }
    } else if s != [] {
      var r := [x] + s;
      forall j | 0 <= j < |s| ensures le(x, s[j]) {
        assert j > 0 ==> le(s[0], s[j]);
      }
    }
  }

  /** The result is ordered. */
  lemma {:induction false} SortBySorted<T(!new)>(s: seq<T>, le: (T, T) -> bool)
    requires TotalPreorder(le)
    ensures Sorted(SortBy(s, le), le)
  {
    if s != [] {
      SortBySorted(s[1..], le);
      InsertSorted(s[0], SortBy(s[1..], le), le);
    }
  }

  lemma FilterCons<T(!new)>(x: T, s: seq<T>, p: T -> bool)
    ensures Filter([x] + s, p) == if p(x) then [x] + Filter(s, p) else Filter(s, p)
  {
    assert [] + Filter(s, p) == Filter(s, p);
    assert ([x] + s)[1..] == s;
  }

  lemma InsertAbove<T(!new)>(x: T, y: T, s: seq<T>, le: (T, T) -> bool)
    requires !le(x, y)
    ensures Insert(x, [y] + s, le) == [y] + Insert(x, s, le)
  {
    assert ([y] + s)[1..] == s;
  }

  lemma BelowFilter<T(!new)>(x: T, s: seq<T>, le: (T, T) -> bool, p: T -> bool)
    requires TotalPreorder(le) && Sorted(s, le) && s != [] && le(x, s[0])
    ensures forall y :: y in Filter(s, p) ==> le(x, y)
  {
    forall y | y in Filter(s, p) ensures le(x, y) {
      var k :| 0 <= k < |s| && s[k] == y;
      assert k == 0 || le(s[0], s[k]);
    }
  }

  lemma {:induction false} FilterInsert<T(!new)>(x: T, s: seq<T>, le: (T, T) -> bool, p: T -> bool)
    requires TotalPreorder(le) && Sorted(s, le)
    ensures Filter(Insert(x, s, le), p) == if p(x) then Insert(x, Filter(s, p), le) else Filter(s, p)
  {
    if s == [] {
    } else if le(x, s[0]) {
      FilterCons(x, s, p);
      BelowFilter(x, s, le, p);
      InsertBelow(x, Filter(s, p), le);
    } else {
      var (y, rest) := (s[0], s[1..]);
      FilterInsert(x, rest, le, p);
      assert s == [y] + rest;
      InsertAbove(x, y, rest, le);
      FilterCons(y, Insert(x, rest, le), p);
      FilterCons(y, rest, p);
      InsertAbove(x, y, Filter(rest, p), le);
    }
  }

  lemma InsertBelow<T(!new)>(x: T, s: seq<T>, le: (T, T) -> bool)
    requires forall y :: y in s ==> le(x, y)
    ensures Insert(x, s, le) == [x] + s
  {
    if s != [] {
      assert s[0] in s;
    }
  }

  /** Stability: filtering and sorting commute, so any part of the input is
      sorted among itself as if the rest were not there. */
  lemma {:induction false} FilterSort<T(!new)>(s: seq<T>, le: (T, T) -> bool, p: T -> bool)
    requires TotalPreorder(le)
    ensures Filter(SortBy(s, le), p) == SortBy(Filter(s, p), le)
  {
    if s != [] {
      FilterSort(s[1..], le, p);
      FilterSortStep(s[0], s[1..], le, p);
      assert s == [s[0]] + s[1..];
    }
  }

  lemma FilterSortStep<T(!new)>(x: T, rest: seq<T>, le: (T, T) -> bool, p: T -> bool)
    requires TotalPreorder(le)
    requires Filter(SortBy(rest, le), p) == SortBy(Filter(rest, p), le)
    ensures Filter(SortBy([x] + rest, le), p) == SortBy(Filter([x] + rest, p), le)
  {
    var (sorted, kept) := (SortBy(rest, le), Filter(rest, p));
    SortBySorted(rest, le);
    calc {
      Filter(SortBy([x] + rest, le), p);
      { SortCons(x, rest, le); }
      Filter(Insert(x, sorted, le), p);
      { FilterInsert(x, sorted, le, p); }
      if p(x) then Insert(x, Filter(sorted, p), le) else Filter(sorted, p);
      if p(x) then Insert(x, SortBy(kept, le), le) else SortBy(kept, le);
      { SortCons(x, kept, le); }
      if p(x) then SortBy([x] + kept, le) else SortBy(kept, le);
      { FilterCons(x, rest, p); }
      SortBy(Filter([x] + rest, p), le);
    }
  }

  lemma SortCons<T(!new)>(x: T, s: seq<T>, le: (T, T) -> bool)
    ensures SortBy([x] + s, le) == Insert(x, SortBy(s, le), le)
  {
    assert ([x] + s)[1..] == s;
  }

  /** Sorting an ordered sequence changes nothing. */
  lemma {:induction false} SortFixed<T(!new)>(s: seq<T>, le: (T, T) -> bool)
    requires Sorted(s, le)
    ensures SortBy(s, le) == s
  {
    if s != [] {
      SortFixed(s[1..], le);
      forall y | y in s[1..] ensures le(s[0], y) {
        var k :| 0 <= k < |s[1..]| && s[1..][k] == y;
        assert le(s[0], s[k + 1]);
      }
      InsertBelow(s[0], s[1..], le);
    }
  }

  lemma SortedHead<T(!new)>(a: seq<T>, b: seq<T>, le: (T, T) -> bool)
    requires a != [] && Sorted(b, le) && a[0] in b && b[0] in a
    requires Sorted(a, le)
    requires le(a[0], a[0]) && le(b[0], b[0])
    ensures le(a[0], b[0]) && le(b[0], a[0])
  {
    var i :| 0 <= i < |b| && b[i] == a[0];
    var j :| 0 <= j < |a| && a[j] == b[0];
  }

  lemma TailMultiset<T(!new)>(a: seq<T>)
    requires a != []
    ensures multiset(a[1..]) == multiset(a) - multiset{a[0]}
  {
    assert a == [a[0]] + a[1..];
  }

  /** A sorted arrangement is unique once no two distinct elements tie. */
  lemma {:induction false} SortedUnique<T(!new)>(a: seq<T>, b: seq<T>, le: (T, T) -> bool)
    requires Sorted(a, le) && Sorted(b, le)
    requires multiset(a) == multiset(b)
    requires forall x :: x in a ==> le(x, x)
    requires forall x, y :: x in a && y in a && le(x, y) && le(y, x) ==> x == y
    ensures a == b
  {
    MembersOfPermutation(a, b);
    if a != [] {
      assert a[0] in b && b[0] in a;
      SortedHead(a, b, le);
      TailMultiset(a);
      TailMultiset(b);
      SortedUnique(a[1..], b[1..], le);
      assert a == [a[0]] + a[1..] && b == [b[0]] + b[1..];
    }
  }

  lemma {:induction false} FilterConcat<T(!new)>(a: seq<T>, b: seq<T>, p: T -> bool)
    ensures Filter(a + b, p) == Filter(a, p) + Filter(b, p)
  {
    if a == [] {
      assert a + b == b;
    } else {
      assert (a + b)[1..] == a[1..] + b;
      FilterConcat(a[1..], b, p);
    }
  }

  lemma {:induction false} FilterMultiset<T(!new)>(s: seq<T>, p: T -> bool, x: T)
    ensures multiset(Filter(s, p))[x] == if p(x) then multiset(s)[x] else 0
  {
    if s != [] {
      FilterMultiset(s[1..], p, x);
      assert s == [s[0]] + s[1..];
    }
  }

  /** Two filters give the same sequence exactly when they agree on every element. */
  lemma {:induction false} FilterEqIff<T(!new)>(s: seq<T>, p: T -> bool, q: T -> bool)
    ensures Filter(s, p) == Filter(s, q) <==> forall x :: x in s ==> p(x) == q(x)
  {
    if forall x :: x in s ==> p(x) == q(x) {
      FilterCong(s, p, q);
    } else {
      var x :| x in s && p(x) != q(x);
      assert (x in Filter(s, p)) != (x in Filter(s, q));
    }
  }

  lemma {:induction false} FilterCong<T(!new)>(s: seq<T>, p: T -> bool, q: T -> bool)
    requires forall x :: x in s ==> p(x) == q(x)
    ensures Filter(s, p) == Filter(s, q)
  {
    if s != [] {
      assert s[0] in s;
      FilterCong(s[1..], p, q);
    }
  }

  lemma FilterSnoc<T(!new)>(s: seq<T>, x: T, p: T -> bool)
    ensures Filter(s + [x], p) == Filter(s, p) + (if p(x) then [x] else [])
  {
    FilterConcat(s, [x], p);
    assert Filter([x], p) == if p(x) then [x] else [];
  }

  lemma {:induction false} FilterDistinct<T(!new)>(s: seq<T>, p: T -> bool)
    requires forall i, j :: 0 <= i < j < |s| ==> s[i] != s[j]
    ensures var r := Filter(s, p); forall i, j :: 0 <= i < j < |r| ==> r[i] != r[j]
  {
    if s != [] {
      var (x, rest) := (s[0], s[1..]);
      FilterDistinct(rest, p);
      assert s == [x] + rest;
      FilterCons(x, rest, p);
      assert x !in rest;
    }
  }

  lemma FilterAll<T(!new)>(s: seq<T>, p: T -> bool)
    requires forall x :: x in s ==> p(x)
    ensures Filter(s, p) == s
  {
    if s != [] {
      assert s[0] in s;
      FilterAll(s[1..], p);
    }
  }

  lemma FilterNone<T(!new)>(s: seq<T>, p: T -> bool)
    requires forall x :: x in s ==> !p(x)
    ensures Filter(s, p) == []
  {
  }

  lemma {:induction false} FilterFilter<T(!new)>(s: seq<T>, p: T -> bool, q: T -> bool, both: T -> bool)
    requires forall x :: x in s ==> both(x) == (p(x) && q(x))
    ensures Filter(Filter(s, p), q) == Filter(s, both)
  {
    if s != [] {
      var (x, rest) := (s[0], s[1..]);
      assert s == [x] + rest;
      FilterFilter(rest, p, q, both);
      FilterCons(x, rest, p);
      FilterCons(x, Filter(rest, p), q);
      FilterCons(x, rest, both);
    }
  }

  // ----- mapping -----

  function Map<T, U>(f: T -> U, s: seq<T>): (r: seq<U>)
    ensures |r| == |s|
    ensures forall i :: 0 <= i < |s| ==> r[i] == f(s[i])
  {
    seq(|s|, i requires 0 <= i < |s| => f(s[i]))
  }

  lemma MapCons<T, U>(f: T -> U, x: T, s: seq<T>)
    ensures Map(f, [x] + s) == [f(x)] + Map(f, s)
  {
  }

  lemma InsertHead<T(!new)>(x: T, y: T, s: seq<T>, le: (T, T) -> bool)
    requires le(x, y)
    ensures Insert(x, [y] + s, le) == [x] + ([y] + s)
  {
  }

  lemma {:induction false} MapInsert<T(!new), U(!new)>(f: T -> U, x: T, s: seq<T>, le: (T, T) -> bool, leU: (U, U) -> bool)
    requires forall a, b :: le(a, b) == leU(f(a), f(b))
    ensures Map(f, Insert(x, s, le)) == Insert(f(x), Map(f, s), leU)
  {
    if s == [] {
      assert Map(f, [x]) == [f(x)];
    } else {
      var (y, rest) := (s[0], s[1..]);
      assert s == [y] + rest;
      MapCons(f, y, rest);
      if le(x, y) {
        InsertHead(x, y, rest, le);
        InsertHead(f(x), f(y), Map(f, rest), leU);
        MapCons(f, x, [y] + rest);
      } else {
        MapInsert(f, x, rest, le, leU);
        InsertAbove(x, y, rest, le);
        InsertAbove(f(x), f(y), Map(f, rest), leU);
        MapCons(f, y, Insert(x, rest, le));
      }
    }
  }

  /** Sorting by a key is sorting the keys. */
  lemma {:induction false} MapSort<T(!new), U(!new)>(f: T -> U, s: seq<T>, le: (T, T) -> bool, leU: (U, U) -> bool)
    requires forall a, b :: le(a, b) == leU(f(a), f(b))
    ensures Map(f, SortBy(s, le)) == SortBy(Map(f, s), leU)
  {
    if s != [] {
      var (x, rest) := (s[0], s[1..]);
      assert s == [x] + rest;
      MapSort(f, rest, le, leU);
      MapInsert(f, x, SortBy(rest, le), le, leU);
      MapCons(f, x, rest);
      SortCons(f(x), Map(f, rest), leU);
    }
  }

  lemma {:induction false} MapMultisetInsert<T(!new), U>(f: T -> U, x: T, s: seq<T>, le: (T, T) -> bool)
    ensures multiset(Map(f, Insert(x, s, le))) == multiset{f(x)} + multiset(Map(f, s))
  {
    MapCons(f, x, s);
    if s == [] {
      assert [x] + s == [x];
    } else {
      var (y, rest) := (s[0], s[1..]);
      assert s == [y] + rest;
      if le(x, y) {
        InsertHead(x, y, rest, le);
      } else {
        MapMultisetInsert(f, x, rest, le);
        InsertAbove(x, y, rest, le);
        MapCons(f, y, Insert(x, rest, le));
        MapCons(f, y, rest);
      }
    }
  }

  /** Sorting permutes the images of any function too. */
  lemma {:induction false} MapMultisetSort<T(!new), U>(f: T -> U, s: seq<T>, le: (T, T) -> bool)
    ensures multiset(Map(f, SortBy(s, le))) == multiset(Map(f, s))
  {
    if s != [] {
      var (x, rest) := (s[0], s[1..]);
      assert s == [x] + rest;
      MapMultisetSort(f, rest, le);
      MapMultisetInsert(f, x, SortBy(rest, le), le);
      SortCons(x, rest, le);
      MapCons(f, x, rest);
    }
  }

  lemma {:induction false} MapFilter<T(!new), U(!new)>(f: T -> U, s: seq<T>, p: T -> bool, q: U -> bool)
    requires forall x :: x in s ==> p(x) == q(f(x))
    ensures Map(f, Filter(s, p)) == Filter(Map(f, s), q)
  {
    if s != [] {
      var (x, rest) := (s[0], s[1..]);
      assert s == [x] + rest;
      MapFilter(f, rest, p, q);
      FilterCons(x, rest, p);
      MapCons(f, x, rest);
      FilterCons(f(x), Map(f, rest), q);
      MapCons(f, x, Filter(rest, p));
    }
  }
}
