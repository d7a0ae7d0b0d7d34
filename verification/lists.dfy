/**
 * Sequence operations the storefront uses on arrays of ids, reviews and
 * products: `Array.prototype.filter`, a filter that drops one id, and the
 * guarded `push` of the favourites route.
 */
module Lists {

  /** `a` is obtained from `b` by dropping elements and keeping the rest in order. */
  predicate IsSubsequence<T(==,!new)>(a: seq<T>, b: seq<T>)
    decreases |b|
  {
    a == [] || (b != [] && if a[0] == b[0] then IsSubsequence(a[1..], b[1..]) else IsSubsequence(a, b[1..]))
  }

  /** No value occurs twice. */
  ghost predicate Distinct<T(!new)>(s: seq<T>) {
    forall x :: multiset(s)[x] <= 1
  }

  /** `Array.prototype.filter`: the elements that `keep` accepts, every copy of them, in their original order. */
  function Filter<T(==,!new)>(s: seq<T>, keep: T -> bool): (r: seq<T>)
    ensures |r| <= |s|
    ensures forall x :: x in r <==> x in s && keep(x)
    ensures forall x :: multiset(r)[x] == if keep(x) then multiset(s)[x] else 0
    ensures IsSubsequence(r, s)
    ensures (forall x :: x in s ==> keep(x)) ==> r == s
    decreases |s|
  {
    if s == [] then []
    else
      assert s == [s[0]] + s[1..];
      if keep(s[0]) then [s[0]] + Filter(s[1..], keep) else Filter(s[1..], keep)
  }

  /** Filtering a concatenation filters each part. */
  lemma {:induction false} FilterAppend<T(!new)>(s: seq<T>, t: seq<T>, keep: T -> bool)
    ensures Filter(s + t, keep) == Filter(s, keep) + Filter(t, keep)
    decreases |s|
  {
    if s == [] {
      assert s + t == t;
    } else {
      assert (s + t)[0] == s[0];
      assert (s + t)[1..] == s[1..] + t;
      FilterAppend(s[1..], t, keep);
    }
  }

  /** Tests that agree on every element of `s` filter it alike. */
  lemma {:induction false} FilterSameTest<T(!new)>(s: seq<T>, keep: T -> bool, keep': T -> bool)
    requires forall x :: x in s ==> keep(x) == keep'(x)
    ensures Filter(s, keep) == Filter(s, keep')
    decreases |s|
  {
    if s != [] {
      assert forall x :: x in s[1..] ==> x in s;
      FilterSameTest(s[1..], keep, keep');
    }
  }

  /** `s.filter(y => y !== x)`: every occurrence of `x` removed, the other elements kept in order. */
  function Without<T(==,!new)>(s: seq<T>, x: T): (r: seq<T>)
    ensures x !in r
    ensures forall y :: y != x ==> multiset(r)[y] == multiset(s)[y]
    ensures IsSubsequence(r, s)
    ensures x !in s ==> r == s
  {
    Filter(s, y => y != x)
  }

  /** Removing `x` from a concatenation removes it from each part. */
  lemma WithoutAppend<T(!new)>(s: seq<T>, t: seq<T>, x: T)
    ensures Without(s + t, x) == Without(s, x) + Without(t, x)
  {
    FilterAppend(s, t, y => y != x);
  }

  /** `if (!s.includes(x)) s.push(x)`: `x` is appended only when it is absent. */
  function AppendIfAbsent<T(==,!new)>(s: seq<T>, x: T): (r: seq<T>)
    ensures x in r
    ensures forall y :: y in r <==> y in s || y == x
    ensures s <= r && |r| <= |s| + 1
    ensures multiset(r)[x] == if x in s then multiset(s)[x] else 1
    ensures x in s ==> r == s
    ensures x !in s ==> r == s + [x]
  {
    if x in s then s else s + [x]
  }

  /** Adding twice is adding once. */
  lemma AppendIfAbsentIdempotent<T(!new)>(s: seq<T>, x: T)
    ensures AppendIfAbsent(AppendIfAbsent(s, x), x) == AppendIfAbsent(s, x)
  {
  }

  /** Neither operation can introduce a duplicate. */
  lemma DistinctPreserved<T(!new)>(s: seq<T>, x: T)
    requires Distinct(s)
    ensures Distinct(AppendIfAbsent(s, x))
    ensures Distinct(Without(s, x))
  {
    var a := AppendIfAbsent(s, x);
    forall y ensures multiset(a)[y] <= 1 {
      if x !in s {
        assert a == s + [x];
        assert multiset(a) == multiset(s) + multiset{x};
      }
    }
    var w := Without(s, x);
    forall y ensures multiset(w)[y] <= 1 {
      if y != x {
        assert multiset(w)[y] == multiset(s)[y];
      }
    }
  }
}
