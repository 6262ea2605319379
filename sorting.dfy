/**
 * Sorting by a string key and filtering by a predicate, the two list
 * operations the controllers apply to fetched rows (`Array.prototype.sort`
 * with a `localeCompare` comparator, `Array.prototype.filter`) and the
 * search applies through `ORDER BY`.
 */
module Sorting {
  import opened Text

  /** Every pair of elements is in non-decreasing key order. */
  predicate SortedBy<T>(s: seq<T>, key: T -> string) {
    forall i, j :: 0 <= i < j < |s| ==> Compare(key(s[i]), key(s[j])) <= 0
  }

  /** Putting in front an element no greater than any other keeps a sequence sorted. */
  lemma SortedPrepend<T>(x: T, s: seq<T>, key: T -> string)
    requires SortedBy(s, key)
    requires forall y | y in multiset(s) :: Compare(key(x), key(y)) <= 0
    ensures SortedBy([x] + s, key)
  {
    forall i, j | 0 <= i < j < |[x] + s| ensures Compare(key(([x] + s)[i]), key(([x] + s)[j])) <= 0 {
      if i == 0 {
        assert s[j - 1] in multiset(s);
      }
    }
  }

  /** The first element of a sorted sequence is no greater than any of its elements. */
  lemma SortedHead<T>(s: seq<T>, key: T -> string)
    requires SortedBy(s, key) && s != []
    ensures forall y | y in multiset(s) :: Compare(key(s[0]), key(y)) <= 0
  {
    forall y | y in multiset(s) ensures Compare(key(s[0]), key(y)) <= 0 {
      var m :| 0 <= m < |s| && s[m] == y;
      if m == 0 { CompareZeroIffEqual(key(y), key(y)); }
    }
  }

  /** Places `x` before the first element whose key is not smaller. */
  function Insert<T>(x: T, s: seq<T>, key: T -> string): (r: seq<T>)
    requires SortedBy(s, key)
    ensures multiset(r) == multiset(s) + multiset{x}
    ensures SortedBy(r, key)
  {
    if s == [] then [x]
    else if Compare(key(x), key(s[0])) <= 0 then
      assert SortedBy([x] + s, key) by {
        SortedHead(s, key);
        forall y | y in multiset(s) ensures Compare(key(x), key(y)) <= 0 {
          CompareTransitive(key(x), key(s[0]), key(y));
        }
        SortedPrepend(x, s, key);
      }
      [x] + s
    else
      assert s == [s[0]] + s[1..];
      var rest := Insert(x, s[1..], key);
      assert SortedBy([s[0]] + rest, key) by {
        CompareAntisymmetric(key(x), key(s[0]));
        SortedHead(s, key);
        SortedPrepend(s[0], rest, key);
      }
      [s[0]] + rest
  }

  /** An insertion sort: the result is the input rearranged into key order. */
  function SortBy<T>(s: seq<T>, key: T -> string): (r: seq<T>)
    ensures multiset(r) == multiset(s)
    ensures SortedBy(r, key)
  {
    if s == [] then []
    else
      assert s == [s[0]] + s[1..];
      Insert(s[0], SortBy(s[1..], key), key)
  }

  /** The elements that `keep` accepts, in their original order. */
  function Filter<T>(s: seq<T>, keep: T -> bool): (r: seq<T>)
    ensures multiset(r) <= multiset(s)
    ensures forall i :: 0 <= i < |r| ==> keep(r[i])
  {
    if s == [] then []
    else
      assert s == [s[0]] + s[1..];
      if keep(s[0]) then [s[0]] + Filter(s[1..], keep) else Filter(s[1..], keep)
  }

  /** Filtering keeps every accepted element as often as it occurs, and no other. */
  lemma {:induction false} FilterCount<T>(s: seq<T>, keep: T -> bool, x: T)
    ensures multiset(Filter(s, keep))[x] == if keep(x) then multiset(s)[x] else 0
  {
    if s != [] {
      FilterCount(s[1..], keep, x);
      assert s == [s[0]] + s[1..];
    }
  }

  lemma {:induction false} FilterAppend<T>(a: seq<T>, b: seq<T>, keep: T -> bool)
    ensures Filter(a + b, keep) == Filter(a, keep) + Filter(b, keep)
  {
    if a != [] {
      FilterAppend(a[1..], b, keep);
      assert (a + b)[0] == a[0];
      assert (a + b)[1..] == a[1..] + b;
    } else {
      assert a + b == b;
    }
  }

  /** Filtering keeps a sequence whose every element is accepted as it is. */
  lemma {:induction false} FilterAll<T>(s: seq<T>, keep: T -> bool)
    requires forall i :: 0 <= i < |s| ==> keep(s[i])
    ensures Filter(s, keep) == s
  {
    if s != [] {
      FilterAll(s[1..], keep);
      assert s == [s[0]] + s[1..];
    }
  }

  /** Filtering empties a sequence whose every element is rejected. */
  lemma {:induction false} FilterNone<T>(s: seq<T>, keep: T -> bool)
    requires forall i :: 0 <= i < |s| ==> !keep(s[i])
    ensures Filter(s, keep) == []
  {
    if s != [] {
      FilterNone(s[1..], keep);
    }
  }

  /** Filtering a sorted sequence leaves it sorted. */
  lemma {:induction false} FilterSorted<T>(s: seq<T>, keep: T -> bool, key: T -> string)
    requires SortedBy(s, key)
    ensures SortedBy(Filter(s, keep), key)
  {
    if s != [] {
      FilterSorted(s[1..], keep, key);
      if keep(s[0]) {
        var rest := Filter(s[1..], keep);
        forall j | 0 <= j < |rest| ensures Compare(key(s[0]), key(rest[j])) <= 0 {
          assert rest[j] in multiset(s[1..]);
          var m :| 0 <= m < |s[1..]| && s[1..][m] == rest[j];
          assert s[m + 1] == rest[j];
        }
      }
    }
  }

  /** Every element that has a key comes before every element that lacks one. */
  predicate KeyedFirst<T>(s: seq<T>, hasKey: T -> bool) {
    forall i, j :: 0 <= i < j < |s| && hasKey(s[j]) ==> hasKey(s[i])
  }

  /** Every pair of elements that both have a key is in non-decreasing key order. */
  predicate KeyedSorted<T>(s: seq<T>, hasKey: T -> bool, key: T -> string) {
    forall i, j :: 0 <= i < j < |s| && hasKey(s[i]) && hasKey(s[j]) ==> Compare(key(s[i]), key(s[j])) <= 0
  }

  /** Splitting by a predicate and its negation loses and duplicates nothing. */
  lemma {:induction false} FilterPartition<T>(s: seq<T>, keep: T -> bool, drop: T -> bool)
    requires forall x :: drop(x) == !keep(x)
    ensures multiset(Filter(s, keep)) + multiset(Filter(s, drop)) == multiset(s)
  {
    if s != [] {
      FilterPartition(s[1..], keep, drop);
      assert s == [s[0]] + s[1..];
    }
  }

  /** Keyed elements followed by unkeyed ones: keyed elements come first, and sorted ones stay sorted. */
  lemma KeyedAppend<T>(a: seq<T>, b: seq<T>, hasKey: T -> bool, key: T -> string)
    requires SortedBy(a, key)
    requires forall i :: 0 <= i < |a| ==> hasKey(a[i])
    requires forall i :: 0 <= i < |b| ==> !hasKey(b[i])
    ensures KeyedFirst(a + b, hasKey)
    ensures KeyedSorted(a + b, hasKey, key)
  {
    forall i, j | 0 <= i < j < |a + b| && hasKey((a + b)[j])
      ensures hasKey((a + b)[i]) && Compare(key((a + b)[i]), key((a + b)[j])) <= 0
    {
      assert j < |a|;
    }
  }

  /**
   * An ascending sort with nulls last: the elements that have a key in key
   * order, then those without one.
   */
  function SortByNullsLast<T>(s: seq<T>, hasKey: T -> bool, key: T -> string): (r: seq<T>)
    ensures multiset(r) == multiset(s)
    ensures KeyedFirst(r, hasKey)
    ensures KeyedSorted(r, hasKey, key)
  {
    var lacksKey := (x: T) => !hasKey(x);
    var keyed := SortBy(Filter(s, hasKey), key);
    var rest := Filter(s, lacksKey);
    FilterPartition(s, hasKey, lacksKey);
    assert forall i :: 0 <= i < |keyed| ==> keyed[i] in multiset(Filter(s, hasKey));
    KeyedAppend(keyed, rest, hasKey, key);
    keyed + rest
  }
}
