/** Ordering vocabulary shared by every component that sorts: a stable sort by a
    strict relation, what it does to filters, and strictly increasing sequences,
    which are determined by their elements alone. */
module Sorting {

  /** `less` is "key(x) < key(y)" for some totally ordered key; equal keys are allowed. */
  ghost predicate WeakOrder<T(!new)>(less: (T, T) -> bool) {
    && (forall x, y :: less(x, y) ==> !less(y, x))
    && (forall x, y, z :: !less(y, x) && !less(z, y) ==> !less(z, x))
  }

  lemma WeakOrderTransitive<T(!new)>(less: (T, T) -> bool)
    requires WeakOrder(less)
    ensures forall x, y, z :: less(x, y) && less(y, z) ==> less(x, z)
  {
  }

  /** `less` orders the members of `S` totally: no two of them have equal keys. */
  ghost predicate StrictTotalOn<T(!new)>(S: set<T>, less: (T, T) -> bool) {
    && (forall x | x in S :: !less(x, x))
    && (forall x, y | x in S && y in S :: x == y || less(x, y) || less(y, x))
    && (forall x, y, z | x in S && y in S && z in S && less(x, y) && less(y, z) :: less(x, z))
  }

  ghost predicate Ordered<T>(s: seq<T>, less: (T, T) -> bool) {
    forall i, j | 0 <= i < j < |s| :: !less(s[j], s[i])
  }

  ghost predicate Increasing<T>(s: seq<T>, less: (T, T) -> bool) {
    forall i, j | 0 <= i < j < |s| :: less(s[i], s[j])
  }

  ghost predicate Distinct<T>(s: seq<T>) {
    forall i, j | 0 <= i < j < |s| :: s[i] != s[j]
  }

  function Elems<T>(s: seq<T>): set<T> {
    set x | x in s
  }

  lemma SubsetSize<T>(a: set<T>, b: set<T>)
    requires a <= b
    ensures |a| <= |b|
    ensures |a| == |b| ==> a == b
  {
    assert b == a + (b - a);
  }

  lemma LastElem<T(!new)>(s: seq<T>)
    requires s != []
    ensures Elems(s) == Elems(s[..|s| - 1]) + {s[|s| - 1]}
    ensures Distinct(s) ==> s[|s| - 1] !in Elems(s[..|s| - 1])
  {
    assert s == s[..|s| - 1] + [s[|s| - 1]];
  }

  lemma {:induction false} ElemsSize<T(!new)>(s: seq<T>)
    ensures |Elems(s)| <= |s| && (Distinct(s) ==> |Elems(s)| == |s|)
  {
    if s != [] {
      LastElem(s);
      ElemsSize(s[..|s| - 1]);
    }
  }

  lemma Inhabited(s: set<int>)
    requires s != {}
    ensures exists x :: x in s
  {
    assert (forall x :: x !in s) ==> s == {};
  }

  function Smaller(m: nat, n: nat): nat {
    if m <= n then m else n
  }

  function Reversed<T>(s: seq<T>): (r: seq<T>)
    ensures |r| == |s|
  {
    if s == [] then [] else Reversed(s[1..]) + [s[0]]
  }

  lemma {:induction false} ReversedAppend<T>(a: seq<T>, b: seq<T>)
    ensures Reversed(a + b) == Reversed(b) + Reversed(a)
  {
    if a == [] {
      assert a + b == b;
    } else {
      assert (a + b)[1..] == a[1..] + b;
      ReversedAppend(a[1..], b);
    }
  }

  /** `items[:n]`; a negative `n` drops elements from the end. */
  function Slice<T>(items: seq<T>, n: int): seq<T> {
    if n >= |items| then items
    else if n >= 0 then items[..n]
    else if |items| + n >= 0 then items[..|items| + n]
    else []
  }

  lemma TakeOneMore<T(!new)>(s: seq<T>, i: nat)
    requires i < |s|
    ensures s[..i + 1] == s[..i] + [s[i]]
    ensures forall x :: x in s[..i + 1] <==> x in s[..i] || x == s[i]
    ensures Distinct(s) ==> s[i] !in s[..i]
  {
  }

  function Filter<T(!new)>(p: T -> bool, s: seq<T>): (r: seq<T>)
    ensures forall x :: x in r <==> x in s && p(x)
    ensures |r| <= |s|
  {
    if s == [] then []
    else if p(s[0]) then [s[0]] + Filter(p, s[1..])
    else Filter(p, s[1..])
  }

  lemma {:induction false} FilterAppend<T(!new)>(p: T -> bool, a: seq<T>, b: seq<T>)
    ensures Filter(p, a + b) == Filter(p, a) + Filter(p, b)
  {
    if a == [] {
      assert a + b == b;
    } else {
      assert (a + b)[1..] == a[1..] + b;
      FilterAppend(p, a[1..], b);
    }
  }

  /** Places `x` before the first element that is not smaller. */
  function Insert<T>(x: T, s: seq<T>, less: (T, T) -> bool): (r: seq<T>)
    ensures multiset(r) == multiset(s) + multiset{x}
    ensures |r| == |s| + 1
  {
    if s == [] then [x]
    else if !less(s[0], x) then [x] + s
    else
      var r := [s[0]] + Insert(x, s[1..], less);
      assert s == [s[0]] + s[1..];
      r
  }

  /** The stable sort of `s`: elements with equal keys keep their order. */
  function Sort<T>(s: seq<T>, less: (T, T) -> bool): (r: seq<T>)
    ensures multiset(r) == multiset(s)
    ensures |r| == |s|
  {
    if s == [] then []
    else
      assert s == [s[0]] + s[1..];
      Insert(s[0], Sort(s[1..], less), less)
  }

  lemma SameMembers<T>(a: seq<T>, b: seq<T>)
    requires multiset(a) == multiset(b)
    ensures Elems(a) == Elems(b) && |a| == |b|
  {
    forall x ensures x in a <==> x in b {
      assert x in multiset(a) <==> x in multiset(b);
    }
    assert |multiset(a)| == |multiset(b)|;
  }

  lemma {:induction false} InsertOrdered<T(!new)>(x: T, s: seq<T>, less: (T, T) -> bool)
    requires WeakOrder(less) && Ordered(s, less)
    ensures Ordered(Insert(x, s, less), less)
  {
    if s != [] && less(s[0], x) {
      InsertOrdered(x, s[1..], less);
      var r := Insert(x, s[1..], less);
      forall y | y in r ensures !less(y, s[0]) {
        assert y in multiset(r);
        if y != x {
          assert y in s[1..];
        }
      }
    }
  }

  lemma {:induction false} SortOrders<T(!new)>(s: seq<T>, less: (T, T) -> bool)
    requires WeakOrder(less)
    ensures Ordered(Sort(s, less), less)
  {
    if s != [] {
      SortOrders(s[1..], less);
      InsertOrdered(s[0], Sort(s[1..], less), less);
    }
  }

  /** `kept` is in order, and only a limit that is used up keeps an element of `s` out, behind all that are kept. */
  ghost predicate KeptBest<T(!new)>(kept: seq<T>, s: seq<T>, less: (T, T) -> bool, n: int) {
    && Ordered(kept, less) && |kept| <= |s|
    && (forall x | x in kept :: x in s)
    && (forall x | x in s && x !in kept :: n < |s| && (n >= 0 ==> |kept| == n) && forall k | k in kept :: !less(x, k))
  }

  lemma SliceKeepsBest<T(!new)>(s: seq<T>, less: (T, T) -> bool, n: int)
    requires WeakOrder(less)
    ensures KeptBest(Slice(Sort(s, less), n), s, less, n)
  {
    var sorted := Sort(s, less);
    var kept := Slice(sorted, n);
    SortOrders(s, less);
    SameMembers(sorted, s);
    hide Sort, Slice, WeakOrder;
    assert forall x :: x in s <==> x in Elems(sorted);
    assert forall i | 0 <= i < |kept| :: kept[i] == sorted[i] && sorted[i] in sorted && kept[i] in kept by {
      SliceIsFirst(sorted, n);
    }
    SliceIsFirst(sorted, n);
    forall x | x in s && x !in kept
      ensures |kept| < |s| && forall k | k in kept :: !less(x, k)
    {
      assert x in Elems(sorted);
      var j :| 0 <= j < |sorted| && sorted[j] == x;
      assert j >= |kept|;
    }
  }

  lemma SliceIsFirst<T>(s: seq<T>, n: int)
    ensures Slice(s, n) <= s && (|Slice(s, n)| < |s| ==> n < |s| && (n >= 0 ==> |Slice(s, n)| == n))
  {
  }

  lemma {:induction false} InsertInFront<T(!new)>(x: T, s: seq<T>, less: (T, T) -> bool)
    requires forall y | y in s :: !less(y, x)
    ensures Insert(x, s, less) == [x] + s
  {
  }

  lemma {:induction false} FilterInsert<T(!new)>(p: T -> bool, x: T, s: seq<T>, less: (T, T) -> bool)
    requires WeakOrder(less) && Ordered(s, less)
    ensures Filter(p, Insert(x, s, less)) == if p(x) then Insert(x, Filter(p, s), less) else Filter(p, s)
  {
    if s != [] {
      if !less(s[0], x) {
        assert ([x] + s)[1..] == s;
        forall y | y in Filter(p, s) ensures !less(y, x) {
          assert y in s;
        }
        InsertInFront(x, Filter(p, s), less);
      } else {
        FilterInsert(p, x, s[1..], less);
        var t := Insert(x, s[1..], less);
        assert ([s[0]] + t)[1..] == t;
        if p(s[0]) && p(x) {
          assert Filter(p, s) == [s[0]] + Filter(p, s[1..]);
          assert Filter(p, s)[1..] == Filter(p, s[1..]);
        }
      }
    }
  }

  /** A stable sort commutes with dropping elements: filtering before or after gives the same list. */
  lemma {:induction false} SortFilter<T(!new)>(p: T -> bool, s: seq<T>, less: (T, T) -> bool)
    requires WeakOrder(less)
    ensures Filter(p, Sort(s, less)) == Sort(Filter(p, s), less)
  {
    if s != [] {
      SortFilter(p, s[1..], less);
      SortOrders(s[1..], less);
      FilterInsert(p, s[0], Sort(s[1..], less), less);
      if p(s[0]) {
        assert Filter(p, s)[1..] == Filter(p, s[1..]);
      }
    }
  }

  /** `x` may stand at position `n` of an ordered list: nothing before is greater, nothing after is smaller. */
  ghost predicate Admits<T>(s: seq<T>, n: int, x: T, less: (T, T) -> bool) {
    && 0 <= n <= |s|
    && (forall i | 0 <= i < n :: !less(x, s[i]))
    && (forall i | n <= i < |s| :: !less(s[i], x))
  }

  /** `s` with `x` inserted at position `n`. */
  function With<T>(s: seq<T>, n: nat, x: T): seq<T>
    requires n <= |s|
  {
    if n == 0 then [x] + s else [s[0]] + With(s[1..], n - 1, x)
  }

  lemma {:induction false} WithSlices<T>(s: seq<T>, n: nat, x: T)
    requires n <= |s|
    ensures With(s, n, x) == s[..n] + ([x] + s[n..])
  {
    if n > 0 {
      WithSlices(s[1..], n - 1, x);
      assert s[1..][..n - 1] == s[1..n] && s[1..][n - 1..] == s[n..];
      assert s[..n] == [s[0]] + s[1..n];
    }
  }

  lemma InsertUnfolds<T>(y: T, h: T, t: seq<T>, less: (T, T) -> bool)
    ensures Insert(y, [h] + t, less) == if !less(h, y) then [y] + ([h] + t) else [h] + Insert(y, t, less)
  {
    assert ([h] + t)[1..] == t;
  }

  lemma WithUnfolds<T>(h: T, t: seq<T>, n: nat, x: T)
    requires 0 < n <= |t| + 1
    ensures With([h] + t, n, x) == [h] + With(t, n - 1, x)
  {
    assert ([h] + t)[1..] == t;
  }

  lemma TailAdmits<T>(h: T, t: seq<T>, n: int, x: T, less: (T, T) -> bool)
    requires n > 0 && Ordered([h] + t, less) && Admits([h] + t, n, x, less)
    ensures Ordered(t, less) && Admits(t, n - 1, x, less) && !less(x, h)
  {
    var s := [h] + t;
    assert forall i | 0 <= i < |t| :: t[i] == s[i + 1];
    assert s[0] == h;
  }

  lemma InsertBefore<T(!new)>(y: T, s: seq<T>, x: T, less: (T, T) -> bool)
    requires WeakOrder(less) && Admits(s, 0, x, less)
    ensures Insert(y, [x] + s, less) == if less(x, y) then [x] + Insert(y, s, less) else [y] + ([x] + s)
    ensures !less(x, y) ==> Insert(y, s, less) == [y] + s
  {
    InsertUnfolds(y, x, s, less);
    if !less(x, y) {
      forall z | z in s ensures !less(z, y) {
        assert !less(z, x);
      }
      InsertInFront(y, s, less);
    }
  }

  lemma InsertAroundFirst<T(!new)>(y: T, s: seq<T>, x: T, less: (T, T) -> bool)
    requires WeakOrder(less) && Admits(s, 0, x, less)
    ensures Insert(y, With(s, 0, x), less) == With(Insert(y, s, less), if less(x, y) then 0 else 1, x)
  {
    InsertBefore(y, s, x, less);
    hide Insert, WeakOrder, Admits;
    assert With(s, 0, x) == [x] + s;
    if !less(x, y) {
      WithUnfolds(y, s, 1, x);
      assert With([y] + s, 1, x) == [y] + ([x] + s);
    }
  }

  lemma {:induction false} InsertAround<T(!new)>(y: T, s: seq<T>, n: nat, x: T, less: (T, T) -> bool)
    requires WeakOrder(less) && Ordered(s, less) && n <= |s| && Admits(s, n, x, less)
    ensures Insert(y, With(s, n, x), less) == With(Insert(y, s, less), if less(x, y) then n else n + 1, x)
    decreases s
  {
    hide Ordered, Admits, Insert, With;
    if n == 0 {
      InsertAroundFirst(y, s, x, less);
    } else {
      var h, t := s[0], s[1..];
      assert s == [h] + t;
      TailAdmits(h, t, n, x, less);
      assert !less(h, y) ==> !less(x, y);
      hide WeakOrder;
      var m := if less(x, y) then n else n + 1;
      InsertAround(y, t, n - 1, x, less);
      WithUnfolds(h, t, n, x);
      InsertUnfolds(y, h, With(t, n - 1, x), less);
      InsertUnfolds(y, h, t, less);
      if less(h, y) {
        WithUnfolds(h, Insert(y, t, less), m, x);
      } else {
        WithUnfolds(y, s, n + 1, x);
      }
    }
  }

  lemma {:induction false} InsertAdmitted<T(!new)>(y: T, s: seq<T>, n: nat, x: T, less: (T, T) -> bool)
    requires WeakOrder(less) && Ordered(s, less) && Admits(s, n, x, less)
    ensures Admits(Insert(y, s, less), if less(x, y) then n else n + 1, x, less)
    decreases s
  {
    if n == 0 {
      if less(x, y) {
        InsertAdmits(y, s, x, less);
      } else {
        forall z | z in s ensures !less(z, y) {
          assert !less(z, x);
        }
        InsertInFront(y, s, less);
      }
    } else if !less(s[0], y) {
      assert !less(x, s[0]);
    } else {
      InsertAdmitted(y, s[1..], n - 1, x, less);
    }
  }

  lemma InsertAdmits<T(!new)>(y: T, s: seq<T>, x: T, less: (T, T) -> bool)
    requires WeakOrder(less) && Admits(s, 0, x, less) && less(x, y)
    ensures Admits(Insert(y, s, less), 0, x, less)
  {
    var r := Insert(y, s, less);
    forall i | 0 <= i < |r| ensures !less(r[i], x) {
      assert r[i] in multiset(r);
      assert r[i] == y || r[i] in s;
    }
  }

  lemma {:induction false} SortFirst<T(!new)>(x: T, s: seq<T>, less: (T, T) -> bool) returns (n: nat)
    requires WeakOrder(less) && Ordered(s, less)
    ensures n <= |s| && Insert(x, s, less) == With(s, n, x) && Admits(s, n, x, less)
  {
    if s == [] {
      n := 0;
    } else {
      assert s == [s[0]] + s[1..];
      InsertUnfolds(x, s[0], s[1..], less);
      hide Insert;
      if !less(s[0], x) {
        n := 0;
        forall i | 0 <= i < |s| ensures !less(s[i], x) {
          assert i > 0 ==> !less(s[i], s[0]);
        }
      } else {
        n := SortFirst(x, s[1..], less);
        WithUnfolds(s[0], s[1..], n + 1, x);
        hide With;
        n := n + 1;
      }
    }
  }

  /** One more element leaves the relative order of the others unchanged. */
  lemma {:induction false} SortOneMore<T(!new)>(a: seq<T>, x: T, b: seq<T>, less: (T, T) -> bool) returns (n: nat)
    requires WeakOrder(less)
    ensures n <= |a| + |b| && Sort(a + [x] + b, less) == With(Sort(a + b, less), n, x)
    ensures Admits(Sort(a + b, less), n, x, less)
  {
    hide WeakOrder, Ordered, Admits, Insert, With;
    SortOrders(a + b, less);
    if a == [] {
      assert a + [x] + b == [x] + b && a + b == b && ([x] + b)[1..] == b;
      n := SortFirst(x, Sort(b, less), less);
    } else {
      assert (a + [x] + b)[1..] == a[1..] + [x] + b && (a + b)[1..] == a[1..] + b;
      n := SortOneMore(a[1..], x, b, less);
      var rest := Sort(a[1..] + b, less);
      SortOrders(a[1..] + b, less);
      InsertAround(a[0], rest, n, x, less);
      InsertAdmitted(a[0], rest, n, x, less);
      n := if less(x, a[0]) then n else n + 1;
    }
  }

  function Mapped<A, B>(f: A -> B, s: seq<A>): (r: seq<B>)
    ensures |r| == |s| && forall i | 0 <= i < |s| :: r[i] == f(s[i])
  {
    if s == [] then [] else [f(s[0])] + Mapped(f, s[1..])
  }

  lemma {:induction false} MappedAppend<A, B>(f: A -> B, a: seq<A>, b: seq<A>)
    ensures Mapped(f, a + b) == Mapped(f, a) + Mapped(f, b)
  {
    if a == [] {
      assert a + b == b;
    } else {
      assert (a + b)[1..] == a[1..] + b;
      MappedAppend(f, a[1..], b);
    }
  }

  lemma SliceMapped<A, B>(f: A -> B, s: seq<A>, n: int)
    ensures Mapped(f, Slice(s, n)) == Slice(Mapped(f, s), n)
  {
  }

  lemma {:induction false} MappedOneOut<A, B>(f: A -> B, s: seq<A>, i: nat)
    requires i < |s|
    ensures multiset(s) == multiset(s[..i] + s[i + 1..]) + multiset{s[i]}
    ensures multiset(Mapped(f, s)) == multiset(Mapped(f, s[..i] + s[i + 1..])) + multiset{f(s[i])}
  {
    assert s == s[..i] + ([s[i]] + s[i + 1..]);
    MappedAppend(f, s[..i], [s[i]] + s[i + 1..]);
    MappedAppend(f, s[..i], s[i + 1..]);
    assert ([s[i]] + s[i + 1..])[1..] == s[i + 1..];
  }

  lemma CancelOne<A>(p: multiset<A>, q: multiset<A>, x: A)
    requires p + multiset{x} == q + multiset{x}
    ensures p == q
  {
    assert p == p + multiset{x} - multiset{x};
    assert q == q + multiset{x} - multiset{x};
  }

  lemma FirstOut<A, B>(f: A -> B, s: seq<A>)
    requires s != []
    ensures multiset(s) == multiset(s[1..]) + multiset{s[0]}
    ensures multiset(Mapped(f, s)) == multiset(Mapped(f, s[1..])) + multiset{f(s[0])}
  {
    assert s == [s[0]] + s[1..];
  }

  /** Mapping does not care about order. */
  lemma {:induction false} MappedMultiset<A, B>(f: A -> B, a: seq<A>, b: seq<A>)
    requires multiset(a) == multiset(b)
    ensures multiset(Mapped(f, a)) == multiset(Mapped(f, b))
    decreases |a|
  {
    hide Mapped;
    if a == [] {
      assert |multiset(b)| == 0;
    } else {
      assert a[0] in multiset(b);
      var i :| 0 <= i < |b| && b[i] == a[0];
      var rest := b[..i] + b[i + 1..];
      FirstOut(f, a);
      MappedOneOut(f, b, i);
      CancelOne(multiset(a[1..]), multiset(rest), a[0]);
      MappedMultiset(f, a[1..], rest);
    }
  }

  lemma {:induction false} InsertMapped<A(!new), B>(f: A -> B, x: A, s: seq<A>, less: (A, A) -> bool,
                                                    lessKey: (B, B) -> bool)
    requires forall a, b :: less(a, b) == lessKey(f(a), f(b))
    ensures Mapped(f, Insert(x, s, less)) == Insert(f(x), Mapped(f, s), lessKey)
  {
    if s != [] && less(s[0], x) {
      InsertMapped(f, x, s[1..], less, lessKey);
      assert Insert(x, s, less)[1..] == Insert(x, s[1..], less);
    }
  }

  /** Sorting by a key and taking the keys is taking the keys and sorting them. */
  lemma {:induction false} SortMapped<A(!new), B>(f: A -> B, s: seq<A>, less: (A, A) -> bool, lessKey: (B, B) -> bool)
    requires forall a, b :: less(a, b) == lessKey(f(a), f(b))
    ensures Mapped(f, Sort(s, less)) == Sort(Mapped(f, s), lessKey)
  {
    if s != [] {
      SortMapped(f, s[1..], less, lessKey);
      InsertMapped(f, s[0], Sort(s[1..], less), less, lessKey);
      assert Mapped(f, s)[1..] == Mapped(f, s[1..]);
    }
  }

  /** An ordered list without equal keys is strictly increasing. */
  lemma OrderedIncreasing<T(!new)>(s: seq<T>, less: (T, T) -> bool)
    requires StrictTotalOn(Elems(s), less) && Ordered(s, less) && Distinct(s)
    ensures Increasing(s, less)
  {
  }

  lemma NoElems<T(!new)>(s: seq<T>)
    ensures Elems(s) == {} <==> s == []
  {
    if s != [] {
      assert s[0] in Elems(s);
    }
  }

  lemma {:induction false} IncreasingUnique<T(!new)>(a: seq<T>, b: seq<T>, less: (T, T) -> bool)
    requires StrictTotalOn(Elems(a), less)
    requires Increasing(a, less) && Increasing(b, less) && Elems(a) == Elems(b)
    ensures a == b
  {
    NoElems(a);
    NoElems(b);
    if a != [] {
      assert a[0] in Elems(a);
      assert a[0] in Elems(b);
      assert b[0] in Elems(b);
      assert a[0] == b[0];
      forall x ensures x in Elems(a[1..]) <==> x in Elems(b[1..]) {
        assert x in Elems(a) <==> x in Elems(b);
        assert a == [a[0]] + a[1..] && b == [b[0]] + b[1..];
        if x in a[1..] {
          assert less(a[0], x);
        }
        if x in b[1..] {
          assert less(b[0], x);
        }
      }
      IncreasingUnique(a[1..], b[1..], less);
      assert a == [a[0]] + a[1..] && b == [b[0]] + b[1..];
    }
  }

  lemma {:induction false} FilterIncreasing<T(!new)>(p: T -> bool, s: seq<T>, less: (T, T) -> bool)
    requires Increasing(s, less)
    ensures Increasing(Filter(p, s), less)
  {
    if s != [] {
      FilterIncreasing(p, s[1..], less);
      forall x | x in Filter(p, s[1..]) ensures less(s[0], x) {
        assert x in s[1..];
      }
    }
  }

  lemma {:induction false} InsertIncreasing<T(!new)>(x: T, s: seq<T>, less: (T, T) -> bool)
    requires StrictTotalOn(Elems(s) + {x}, less) && Increasing(s, less) && x !in s
    ensures Increasing(Insert(x, s, less), less)
    ensures Elems(Insert(x, s, less)) == Elems(s) + {x}
  {
    var r := Insert(x, s, less);
    forall y ensures y in r <==> y in s || y == x {
      assert y in multiset(r) <==> y in multiset(s) || y == x;
    }
    if s != [] {
      assert s[0] in Elems(s);
      if less(s[0], x) {
        assert Elems(s[1..]) <= Elems(s);
        InsertIncreasing(x, s[1..], less);
        var t := Insert(x, s[1..], less);
        forall y | y in t ensures less(s[0], y) {
          assert y in Elems(t);
        }
      } else {
        forall y | y in s ensures less(x, y) {
          assert y in Elems(s);
          var i :| 0 <= i < |s| && s[i] == y;
          assert i > 0 ==> less(s[0], y);
        }
      }
    }
  }

  /** The members of `S` in increasing order. */
  ghost function Enumerate<T(!new)>(S: set<T>, less: (T, T) -> bool): (r: seq<T>)
    requires StrictTotalOn(S, less)
    ensures Increasing(r, less) && Elems(r) == S
  {
    if S == {} then []
    else
      var x :| x in S;
      var rest := Enumerate(S - {x}, less);
      assert x !in Elems(rest) && Elems(rest) + {x} == S;
      InsertIncreasing(x, rest, less);
      Insert(x, rest, less)
  }

  /** Sorting a duplicate-free list enumerates its elements. */
  lemma SortEnumerates<T(!new)>(s: seq<T>, less: (T, T) -> bool)
    requires WeakOrder(less) && StrictTotalOn(Elems(s), less) && Distinct(s)
    ensures Sort(s, less) == Enumerate(Elems(s), less)
  {
    var r := Sort(s, less);
    SortOrders(s, less);
    SameMembers(r, s);
    DistinctMultiset(s);
    MultisetDistinct(r);
    OrderedIncreasing(r, less);
    IncreasingUnique(r, Enumerate(Elems(s), less), less);
  }

  lemma {:induction false} DistinctMultiset<T(!new)>(s: seq<T>)
    requires Distinct(s)
    ensures forall x :: multiset(s)[x] <= 1
  {
    if s != [] {
      assert s == [s[0]] + s[1..];
      DistinctMultiset(s[1..]);
      assert s[0] !in multiset(s[1..]);
    }
  }

  lemma MultisetDistinct<T(!new)>(s: seq<T>)
    requires forall x :: multiset(s)[x] <= 1
    ensures Distinct(s)
  {
    forall i, j | 0 <= i < j < |s| ensures s[i] != s[j] {
      assert s == s[..i] + [s[i]] + s[i + 1..j] + [s[j]] + s[j + 1..];
      assert multiset(s)[s[i]] >= multiset{s[i]}[s[i]] + multiset{s[j]}[s[i]];
    }
  }

  // Strings compare by code point, as Python compares them.

  predicate StrLess(a: string, b: string) {
    b != "" && (a == "" || a[0] < b[0] || (a[0] == b[0] && StrLess(a[1..], b[1..])))
  }

  /** `a` and `b` agree on their first `n` characters; there `a` ends or has the smaller character. */
  ghost predicate SmallerAt(a: string, b: string, n: nat) {
    && n < |b| && n <= |a| && (forall i | 0 <= i < n :: a[i] == b[i])
    && (n < |a| ==> a[n] < b[n])
  }

  /** Strings compare at the first character in which they differ; a string comes after its proper beginnings. */
  lemma {:induction false} StrLessMeans(a: string, b: string)
    ensures StrLess(a, b) <==> exists n: nat :: SmallerAt(a, b, n)
  {
    if b != "" && (a == "" || a[0] < b[0]) {
      assert SmallerAt(a, b, 0);
    }
    if b != "" && a != "" && a[0] == b[0] {
      StrLessMeans(a[1..], b[1..]);
      if m: nat :| SmallerAt(a[1..], b[1..], m) {
        forall i | 0 <= i < m + 1 ensures a[i] == b[i] {
          assert i > 0 ==> a[1..][i - 1] == b[1..][i - 1];
        }
        assert SmallerAt(a, b, m + 1);
      }
      if n: nat :| SmallerAt(a, b, n) {
        assert SmallerAt(a[1..], b[1..], n - 1);
      }
    }
  }

  lemma {:induction false} StrTrichotomy(a: string, b: string)
    ensures a == b || StrLess(a, b) || StrLess(b, a)
    ensures !(StrLess(a, b) && StrLess(b, a)) && !StrLess(a, a)
  {
    if a != "" && b != "" {
      StrTrichotomy(a[1..], b[1..]);
      assert a == [a[0]] + a[1..] && b == [b[0]] + b[1..];
    }
    if a != "" {
      StrIrreflexive(a);
    }
  }

  lemma {:induction false} StrIrreflexive(a: string)
    ensures !StrLess(a, a)
  {
    if a != "" {
      StrIrreflexive(a[1..]);
    }
  }

  lemma {:induction false} StrTransitive(a: string, b: string, c: string)
    requires StrLess(a, b) && StrLess(b, c)
    ensures StrLess(a, c)
  {
    if a != "" && a[0] == b[0] == c[0] {
      StrTransitive(a[1..], b[1..], c[1..]);
    }
  }

  lemma StrWeakOrder()
    ensures WeakOrder(StrLess)
  {
    forall x, y | StrLess(x, y) ensures !StrLess(y, x) {
      StrTrichotomy(x, y);
    }
    forall x, y, z | !StrLess(y, x) && !StrLess(z, y) ensures !StrLess(z, x) {
      StrNotLessTransitive(x, y, z);
    }
  }

  lemma StrNotLessTransitive(a: string, b: string, c: string)
    requires !StrLess(b, a) && !StrLess(c, b)
    ensures !StrLess(c, a)
  {
    StrTrichotomy(a, b);
    StrTrichotomy(b, c);
    StrTrichotomy(a, c);
    if StrLess(a, b) && StrLess(b, c) {
      StrTransitive(a, b, c);
    }
  }

  /** A common prefix does not change how two strings compare. */
  lemma {:induction false} StrPrefix(p: string, a: string, b: string)
    ensures StrLess(p + a, p + b) == StrLess(a, b)
  {
    if p == "" {
      assert p + a == a && p + b == b;
    } else {
      assert (p + a)[1..] == p[1..] + a && (p + b)[1..] == p[1..] + b;
      StrPrefix(p[1..], a, b);
    }
  }
}
