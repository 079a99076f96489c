/** SELECT ... WHERE key > cursor ORDER BY key LIMIT n: one page of a keyset scan. */
module Keyset {
  import opened OrderedRows

  function First<T>(s: seq<T>, n: nat): seq<T> {
    if |s| <= n then s else s[..n]
  }

  function Page<T(!new)>(key: T -> nat, rows: seq<T>, cursor: nat, limit: nat): seq<T> {
    First(Sort(x => (key(x), 0), Filter(x => key(x) > cursor, rows)), limit)
  }

  ghost predicate DistinctKeys<T(!new)>(key: T -> nat, rows: seq<T>) {
    forall i, j | 0 <= i < j < |rows| :: key(rows[i]) != key(rows[j])
  }

  /** Everything the scan has still to see: a page holds the smallest keys above the cursor, each once, and
      if it is short there is nothing else. */
  ghost predicate IsPage<T(!new)>(page: seq<T>, key: T -> nat, rows: seq<T>, cursor: nat, limit: nat) {
    && |page| <= limit
    && (forall i, j | 0 <= i < j < |page| :: key(page[i]) < key(page[j]))
    && (forall x | x in page :: x in rows && key(x) > cursor)
    && (forall x | x in rows && key(x) > cursor ::
          x in page || (|page| == limit && forall y | y in page :: key(y) < key(x)))
  }

  lemma {:induction false} FilterDistinct<T(!new)>(key: T -> nat, p: T -> bool, rows: seq<T>)
    requires DistinctKeys(key, rows)
    ensures DistinctKeys(key, Filter(p, rows))
  {
    if rows != [] {
      assert rows == [rows[0]] + rows[1..];
      FilterDistinct(key, p, rows[1..]);
      forall x | x in Filter(p, rows[1..])
        ensures key(x) != key(rows[0])
      {
        assert x in rows[1..];
      }
    }
  }

  lemma {:induction false} InsertDistinct<T(!new)>(key: T -> nat, k: T -> SortKey, x: T, s: seq<T>)
    requires DistinctKeys(key, s) && forall y | y in s :: key(y) != key(x)
    ensures DistinctKeys(key, Insert(k, x, s)) && forall y | y in Insert(k, x, s) :: y == x || y in s
  {
    if s == [] || Below(k(x), k(s[0])) {
      assert Insert(k, x, s) == [x] + s;
    } else {
      assert s == [s[0]] + s[1..];
      var r := Insert(k, x, s[1..]);
      InsertDistinct(key, k, x, s[1..]);
      assert Insert(k, x, s) == [s[0]] + r;
      forall y | y in r
        ensures key(y) != key(s[0])
      {
        assert y == x || y in s[1..];
      }
    }
  }

  lemma {:induction false} SortDistinct<T(!new)>(key: T -> nat, k: T -> SortKey, s: seq<T>)
    requires DistinctKeys(key, s)
    ensures DistinctKeys(key, Sort(k, s))
  {
    if s != [] {
      assert s == [s[0]] + s[1..];
      assert Sort(k, s) == Insert(k, s[0], Sort(k, s[1..]));
      SortDistinct(key, k, s[1..]);
      forall y | y in Sort(k, s[1..])
        ensures key(y) != key(s[0])
      {
        SortMembers(k, s[1..], y);
      }
      InsertDistinct(key, k, s[0], Sort(k, s[1..]));
    }
  }

  lemma PageIsPage<T(!new)>(key: T -> nat, rows: seq<T>, cursor: nat, limit: nat)
    requires DistinctKeys(key, rows)
    ensures IsPage(Page(key, rows, cursor, limit), key, rows, cursor, limit)
  {
    var k := (x: T) => (key(x) as int, 0 as nat);
    var above := Filter(x => key(x) > cursor, rows);
    SameSort(k, x => (key(x), 0), above);
    var sorted := Sort(k, above);
    FilterDistinct(key, x => key(x) > cursor, rows);
    SortDistinct(key, k, above);
    SortSorts(k, above);
    forall x
      ensures x in sorted <==> x in rows && key(x) > cursor
    {
      SortMembers(k, above, x);
    }
    assert forall i, j | 0 <= i < j < |sorted| :: !Below(k(sorted[j]), k(sorted[i]));
  }

  lemma {:induction false} SameSort<T(!new)>(a: T -> SortKey, b: T -> SortKey, s: seq<T>)
    requires forall x :: a(x) == b(x)
    ensures Sort(a, s) == Sort(b, s)
  {
    if s != [] {
      SameSort(a, b, s[1..]);
      SameInsert(a, b, s[0], Sort(a, s[1..]));
    }
  }

  lemma {:induction false} SameInsert<T(!new)>(a: T -> SortKey, b: T -> SortKey, x: T, s: seq<T>)
    requires forall x :: a(x) == b(x)
    ensures Insert(a, x, s) == Insert(b, x, s)
  {
    if s != [] {
      SameInsert(a, b, x, s[1..]);
    }
  }
}
