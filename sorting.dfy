/** A stable sort by an integer key. It stands for JavaScript's
    `Array.prototype.sort` with a numeric comparator (stable since ES2019)
    and for Swift's `sorted(by:)` with a `<` comparator on one key. */
module Sorting {
  import opened Common

  /** Keys never decrease from left to right. */
  ghost predicate SortedBy<T>(s: seq<T>, key: T -> int) {
    forall i, j | 0 <= i < j < |s| :: key(s[i]) <= key(s[j])
  }

  /** The elements whose key equals `v`. */
  function KeyIs<T>(key: T -> int, v: int): T -> bool {
    (x: T) => key(x) == v
  }

  /** Inserts `x` into the sorted `s` after every element whose key is not
      greater than its own. */
  function Insert<T>(x: T, s: seq<T>, key: T -> int): seq<T> {
    if s == [] then [x]
    else if key(x) < key(s[0]) then [x] + s
    else [s[0]] + Insert(x, s[1..], key)
  }

  /** Insertion sort, taking the input from left to right. */
  function SortBy<T>(s: seq<T>, key: T -> int): (r: seq<T>)
    ensures |r| == |s|
    ensures SortedBy(r, key)
    ensures multiset(r) == multiset(s)
    decreases |s|
  {
    if s == [] then []
    else
      var sorted := SortBy(s[..|s| - 1], key);
      InsertLast(s, sorted, key);
      Insert(s[|s| - 1], sorted, key)
  }

  /** Inserting the last element into the sorted rest sorts the whole. */
  lemma InsertLast<T>(s: seq<T>, sorted: seq<T>, key: T -> int)
    requires s != [] && |sorted| == |s| - 1
    requires SortedBy(sorted, key) && multiset(sorted) == multiset(s[..|s| - 1])
    ensures |Insert(s[|s| - 1], sorted, key)| == |s|
    ensures SortedBy(Insert(s[|s| - 1], sorted, key), key)
    ensures multiset(Insert(s[|s| - 1], sorted, key)) == multiset(s)
  {
    var init, x := s[..|s| - 1], s[|s| - 1];
    InsertSorted(x, sorted, key);
    InsertPermutes(x, sorted, key);
    assert s == init + [x];
  }

  lemma {:induction false} InsertPermutes<T>(x: T, s: seq<T>, key: T -> int)
    ensures multiset(Insert(x, s, key)) == multiset(s) + multiset{x}
    ensures |Insert(x, s, key)| == |s| + 1
  {
    if s != [] && key(x) >= key(s[0]) {
      InsertPermutes(x, s[1..], key);
      assert s == [s[0]] + s[1..];
    }
  }

  /** Every element of an insertion into the tail of `s` is at least the
      head's key, when `x` is. */
  lemma InsertTailBound<T>(x: T, s: seq<T>, key: T -> int)
    requires s != [] && SortedBy(s, key) && key(x) >= key(s[0])
    ensures forall y | y in Insert(x, s[1..], key) :: key(s[0]) <= key(y)
  {
    var rest := Insert(x, s[1..], key);
    InsertPermutes(x, s[1..], key);
    forall y | y in rest ensures key(s[0]) <= key(y) {
      assert y in multiset(rest);
      assert y in multiset(s[1..]) + multiset{x};
      if y != x {
        var k :| 0 <= k < |s[1..]| && s[1..][k] == y;
        assert s[k + 1] == y;
      }
    }
  }

  /** A sorted sequence with a head no greater than all the rest. */
  lemma ConsSorted<T>(h: T, rest: seq<T>, key: T -> int)
    requires SortedBy(rest, key)
    requires forall y | y in rest :: key(h) <= key(y)
    ensures SortedBy([h] + rest, key)
  {
    var r := [h] + rest;
    forall i, j | 0 <= i < j < |r| ensures key(r[i]) <= key(r[j]) {
      if i == 0 {
        assert r[j] in rest;
      } else {
        assert r[i] == rest[i - 1] && r[j] == rest[j - 1];
      }
    }
  }

  lemma {:induction false} InsertSorted<T>(x: T, s: seq<T>, key: T -> int)
    requires SortedBy(s, key)
    ensures SortedBy(Insert(x, s, key), key)
  {
    if s == [] {
    } else if key(x) < key(s[0]) {
      forall y | y in s ensures key(x) <= key(y) {
        var k :| 0 <= k < |s| && s[k] == y;
      }
      ConsSorted(x, s, key);
    } else {
      assert SortedBy(s[1..], key);
      InsertSorted(x, s[1..], key);
      InsertTailBound(x, s, key);
      ConsSorted(s[0], Insert(x, s[1..], key), key);
    }
  }

  /** Inserting `x` in front of a sorted sequence whose keys all exceed its
      own leaves the other keys' elements alone. */
  lemma InsertStableFront<T>(x: T, s: seq<T>, key: T -> int, v: int)
    requires SortedBy(s, key) && s != [] && key(x) < key(s[0])
    ensures Filter([x] + s, KeyIs(key, v)) == Filter(s, KeyIs(key, v)) + (if key(x) == v then [x] else [])
  {
    var p := KeyIs(key, v);
    FilterCons(x, s, p);
    if key(x) == v {
      forall k | 0 <= k < |s| ensures !p(s[k]) {
        assert key(s[0]) <= key(s[k]);
      }
      FilterNone(s, p);
    }
  }

  /** Inserting `x` into a sorted sequence appends it to the elements that
      share its key and leaves the elements with any other key in order. */
  lemma {:induction false} InsertStable<T>(x: T, s: seq<T>, key: T -> int, v: int)
    requires SortedBy(s, key)
    ensures Filter(Insert(x, s, key), KeyIs(key, v))
         == Filter(s, KeyIs(key, v)) + (if key(x) == v then [x] else [])
  {
    var p := KeyIs(key, v);
    if s == [] {
      FilterCons(x, [], p);
      assert [x] + [] == [x];
    } else if key(x) < key(s[0]) {
      InsertStableFront(x, s, key, v);
    } else {
      var rest := s[1..];
      assert SortedBy(rest, key);
      InsertStable(x, rest, key, v);
      FilterConsBoth(s[0], Insert(x, rest, key), rest, if key(x) == v then [x] else [], p);
      assert s == [s[0]] + rest;
    }
  }

  /** A common head stays in front of both sides of a filter equation. */
  lemma FilterConsBoth<T>(h: T, a: seq<T>, b: seq<T>, tail: seq<T>, p: T -> bool)
    requires Filter(a, p) == Filter(b, p) + tail
    ensures Filter([h] + a, p) == Filter([h] + b, p) + tail
  {
    FilterCons(h, a, p);
    FilterCons(h, b, p);
    AppendAssociates(if p(h) then [h] else [], Filter(b, p), tail);
  }

  /** Stability: the elements sharing any one key keep their input order. */
  lemma {:induction false} SortByStable<T>(s: seq<T>, key: T -> int, v: int)
    ensures Filter(SortBy(s, key), KeyIs(key, v)) == Filter(s, KeyIs(key, v))
    decreases |s|
  {
    if s != [] {
      var init := s[..|s| - 1];
      SortByStable(init, key, v);
      InsertStable(s[|s| - 1], SortBy(init, key), key, v);
    }
  }

  /** A filter of a sorted sequence is sorted. */
  lemma {:induction false} FilterSorted<T>(s: seq<T>, p: T -> bool, key: T -> int)
    requires SortedBy(s, key)
    ensures SortedBy(Filter(s, p), key)
    decreases |s|
  {
    if s != [] {
      var init, last := s[..|s| - 1], s[|s| - 1];
      FilterSorted(init, p, key);
      var f := Filter(init, p);
      forall i | 0 <= i < |f| ensures key(f[i]) <= key(last) {
        FilterMembers(init, p, f[i]);
      }
    }
  }

  /** A prefix of a sorted sequence is sorted. */
  lemma PrefixSorted<T>(s: seq<T>, n: nat, key: T -> int)
    requires SortedBy(s, key) && n <= |s|
    ensures SortedBy(s[..n], key)
  {
  }

  /** Filtering a prefix keeps the filter's sortedness. */
  lemma FilterPrefixSorted<T>(s: seq<T>, n: nat, p: T -> bool, key: T -> int)
    requires n <= |s| && SortedBy(Filter(s, p), key)
    ensures SortedBy(Filter(s[..n], p), key)
  {
    assert s == s[..n] + s[n..];
    FilterAppend(s[..n], s[n..], p);
    var f := Filter(s[..n], p);
    assert f == Filter(s, p)[..|f|];
    PrefixSorted(Filter(s, p), |f|, key);
  }
}
