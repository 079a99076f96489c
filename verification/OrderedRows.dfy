/** SELECT ... WHERE p ORDER BY key, as functions on sequences. */
module OrderedRows {

  /** A two-column sort key. */
  type SortKey = (int, nat)

  predicate Below(a: SortKey, b: SortKey) {
    a.0 < b.0 || (a.0 == b.0 && a.1 < b.1)
  }

  function Filter<T(!new)>(p: T -> bool, s: seq<T>): (r: seq<T>)
    ensures |r| <= |s|
    ensures forall x :: x in r <==> x in s && p(x)
  {
    if s == [] then []
    else
      assert s == [s[0]] + s[1..];
      if p(s[0]) then [s[0]] + Filter(p, s[1..]) else Filter(p, s[1..])
  }

  function Insert<T(!new)>(key: T -> SortKey, x: T, s: seq<T>): seq<T> {
    if s == [] || Below(key(x), key(s[0])) then [x] + s
    else [s[0]] + Insert(key, x, s[1..])
  }

  function Sort<T(!new)>(key: T -> SortKey, s: seq<T>): seq<T> {
    if s == [] then [] else Insert(key, s[0], Sort(key, s[1..]))
  }

  ghost predicate Sorted<T(!new)>(key: T -> SortKey, s: seq<T>) {
    forall i, j | 0 <= i < j < |s| :: !Below(key(s[j]), key(s[i]))
  }

  lemma {:induction false} InsertSorted<T(!new)>(key: T -> SortKey, x: T, s: seq<T>)
    requires Sorted(key, s)
    ensures Sorted(key, Insert(key, x, s))
    ensures multiset(Insert(key, x, s)) == multiset(s) + multiset{x}
  {
    if !(s == [] || Below(key(x), key(s[0]))) {
      InsertSorted(key, x, s[1..]);
      var r := Insert(key, x, s[1..]);
      assert s == [s[0]] + s[1..];
      forall j | 0 <= j < |r|
        ensures !Below(key(r[j]), key(s[0]))
      {
        assert r[j] in multiset(r);
        if r[j] != x {
          assert r[j] in s[1..];
        }
      }
    } else {
      assert multiset([x] + s) == multiset{x} + multiset(s);
    }
  }

  /** Sort is ORDER BY: the same rows, in key order. */
  lemma {:induction false} SortSorts<T(!new)>(key: T -> SortKey, s: seq<T>)
    ensures Sorted(key, Sort(key, s))
    ensures multiset(Sort(key, s)) == multiset(s)
    ensures |Sort(key, s)| == |s|
  {
    if s != [] {
      SortSorts(key, s[1..]);
      InsertSorted(key, s[0], Sort(key, s[1..]));
      assert s == [s[0]] + s[1..];
      assert |multiset(Sort(key, s))| == |multiset(s)|;
    }
  }

  lemma SortMembers<T(!new)>(key: T -> SortKey, s: seq<T>, x: T)
    ensures x in Sort(key, s) <==> x in s
  {
    SortSorts(key, s);
    assert x in multiset(Sort(key, s)) <==> x in multiset(s);
  }

  lemma {:induction false} FilterInsert<T(!new)>(p: T -> bool, key: T -> SortKey, x: T, s: seq<T>)
    requires Sorted(key, s)
    ensures Filter(p, Insert(key, x, s)) == if p(x) then Insert(key, x, Filter(p, s)) else Filter(p, s)
  {
    if s == [] {
    } else if Below(key(x), key(s[0])) {
      assert ([x] + s)[1..] == s;
      var f := Filter(p, s);
      if f != [] {
        assert f[0] in s;
        assert Below(key(x), key(f[0]));
      }
    } else {
      var r := Insert(key, x, s[1..]);
      assert ([s[0]] + r)[1..] == r;
      FilterInsert(p, key, x, s[1..]);
      if p(s[0]) {
        assert ([s[0]] + Filter(p, s[1..]))[1..] == Filter(p, s[1..]);
      }
    }
  }

  /** Restricting an ordered query is ordering the restricted query. */
  lemma {:induction false} FilterSort<T(!new)>(p: T -> bool, key: T -> SortKey, s: seq<T>)
    ensures Filter(p, Sort(key, s)) == Sort(key, Filter(p, s))
  {
    if s != [] {
      FilterSort(p, key, s[1..]);
      SortSorts(key, s[1..]);
      FilterInsert(p, key, s[0], Sort(key, s[1..]));
      if p(s[0]) {
        assert ([s[0]] + Filter(p, s[1..]))[1..] == Filter(p, s[1..]);
      }
    }
  }

  lemma {:induction false} FilterFilter<T(!new)>(p: T -> bool, q: T -> bool, s: seq<T>)
    requires forall x | x in s && p(x) :: q(x)
    ensures Filter(p, Filter(q, s)) == Filter(p, s)
  {
    if s != [] {
      assert s == [s[0]] + s[1..];
      FilterFilter(p, q, s[1..]);
      if q(s[0]) {
        assert ([s[0]] + Filter(q, s[1..]))[1..] == Filter(q, s[1..]);
      }
    }
  }

  /** Rows outside p may change freely. */
  lemma {:induction false} FilterSame<T(!new)>(p: T -> bool, a: seq<T>, b: seq<T>)
    requires |a| == |b|
    requires forall i | 0 <= i < |a| :: a[i] == b[i] || (!p(a[i]) && !p(b[i]))
    ensures Filter(p, a) == Filter(p, b)
  {
    if a != [] {
      FilterSame(p, a[1..], b[1..]);
    }
  }

  lemma {:induction false} FilterAppend<T(!new)>(p: T -> bool, a: seq<T>, b: seq<T>)
    ensures Filter(p, a + b) == Filter(p, a) + Filter(p, b)
  {
    if a == [] {
      assert a + b == b;
    } else {
      assert (a + b)[1..] == a[1..] + b;
      FilterAppend(p, a[1..], b);
    }
  }

  lemma FilterNext<T(!new)>(p: T -> bool, s: seq<T>, n: nat)
    requires n < |s|
    ensures Filter(p, s[..n + 1]) == Filter(p, s[..n]) + if p(s[n]) then [s[n]] else []
  {
    assert s[..n + 1] == s[..n] + [s[n]];
    FilterAppend(p, s[..n], [s[n]]);
  }

  lemma FilterCountUpdate<T(!new)>(p: T -> bool, s: seq<T>, i: nat, x: T)
    requires i < |s|
    ensures |Filter(p, s[i := x])| == |Filter(p, s)| - (if p(s[i]) then 1 else 0) + (if p(x) then 1 else 0)
  {
    var l, r := s[..i], s[i + 1..];
    assert s == l + ([s[i]] + r);
    assert s[i := x] == l + ([x] + r);
    FilterAppend(p, l, [s[i]] + r);
    FilterAppend(p, l, [x] + r);
    FilterAppend(p, [s[i]], r);
    FilterAppend(p, [x], r);
  }

  lemma {:induction false} FilterNone<T(!new)>(p: T -> bool, s: seq<T>)
    requires forall x | x in s :: !p(x)
    ensures Filter(p, s) == []
  {
    if s != [] {
      FilterNone(p, s[1..]);
    }
  }
}
