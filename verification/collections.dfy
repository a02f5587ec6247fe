/**
 * Sequence helpers shared by the store and the queries: an optional value,
 * order-preserving filtering, lookup of the first match, bounded prefixes,
 * uniqueness of a key, and a stable insertion sort under a total preorder.
 */
module Collections {

  datatype Option<+T> = None | Some(value: T)

  /** Elements of `s` that satisfy `keep`, in their original order. */
  function Filter<T(!new)>(s: seq<T>, keep: T -> bool): (r: seq<T>)
    ensures |r| <= |s|
    ensures forall x :: x in r <==> x in s && keep(x)
    ensures forall x :: multiset(r)[x] == if keep(x) then multiset(s)[x] else 0
    decreases |s|
  {
    if |s| == 0 then []
    else
      var rest := Filter(s[1..], keep);
      assert s == [s[0]] + s[1..];
      if keep(s[0]) then [s[0]] + rest else rest
  }

  /** Filtering with a predicate every element passes changes nothing. */
  lemma {:induction false} FilterKeepsAll<T(!new)>(s: seq<T>, keep: T -> bool)
    requires forall x :: x in s ==> keep(x)
    ensures Filter(s, keep) == s
    decreases |s|
  {
    if |s| > 0 {
      FilterKeepsAll(s[1..], keep);
    }
  }

  /** Filtering distributes over appending one element. */
  lemma {:induction false} FilterAppend<T(!new)>(s: seq<T>, x: T, keep: T -> bool)
    ensures Filter(s + [x], keep) == Filter(s, keep) + (if keep(x) then [x] else [])
    decreases |s|
  {
    if |s| == 0 {
      assert [] + [x] == [x];
    } else {
      assert (s + [x])[1..] == s[1..] + [x];
      FilterAppend(s[1..], x, keep);
    }
  }

  /** The first element of `s` that satisfies `hit`, if there is one. */
  function FindFirst<T>(s: seq<T>, hit: T -> bool): (r: Option<T>)
    ensures r.Some? ==> r.value in s && hit(r.value)
    ensures r.None? <==> forall x :: x in s ==> !hit(x)
    ensures r.Some? && |s| > 0 && hit(s[0]) ==> r.value == s[0]
    decreases |s|
  {
    if |s| == 0 then None
    else if hit(s[0]) then Some(s[0])
    else
      assert s == [s[0]] + s[1..];
      FindFirst(s[1..], hit)
  }

  /** The first `n` elements of `s`, or all of `s` when it is shorter. */
  function Take<T>(s: seq<T>, n: nat): (r: seq<T>)
    ensures |r| == if |s| <= n then |s| else n
    ensures r == s[..|r|]
    ensures multiset(r) <= multiset(s)
  {
    if |s| <= n then s
    else
      assert s == s[..n] + s[n..];
      s[..n]
  }

  /** No two positions of `s` carry the same key. */
  predicate UniqueBy<T, K(==)>(s: seq<T>, key: T -> K) {
    forall i, j :: 0 <= i < j < |s| ==> key(s[i]) != key(s[j])
  }

  /** Under unique keys, an element is determined by its key. */
  lemma UniqueKeyDeterminesElement<T, K>(s: seq<T>, key: T -> K, x: T, y: T)
    requires UniqueBy(s, key)
    requires x in s && y in s && key(x) == key(y)
    ensures x == y
  {
  }

  /** Filtering keeps keys unique. */
  lemma {:induction false} FilterKeepsUnique<T(!new), K>(s: seq<T>, keep: T -> bool, key: T -> K)
    requires UniqueBy(s, key)
    ensures UniqueBy(Filter(s, keep), key)
    decreases |s|
  {
    if |s| > 0 {
      var rest := Filter(s[1..], keep);
      assert UniqueBy(s[1..], key) by {
        forall i, j | 0 <= i < j < |s[1..]|
          ensures key(s[1..][i]) != key(s[1..][j])
        {
          assert s[1..][i] == s[i + 1] && s[1..][j] == s[j + 1];
        }
      }
      FilterKeepsUnique(s[1..], keep, key);
      if keep(s[0]) {
        var r := [s[0]] + rest;
        forall i, j | 0 <= i < j < |r|
          ensures key(r[i]) != key(r[j])
        {
          if i == 0 {
            assert r[j] in s[1..];
            var k :| 0 <= k < |s[1..]| && s[1..][k] == r[j];
            assert s[k + 1] == r[j];
          } else {
            assert r[i] == rest[i - 1] && r[j] == rest[j - 1];
          }
        }
      }
    }
  }

  /** `le` relates every pair, in at least one direction. */
  ghost predicate Total<T(!new)>(le: (T, T) -> bool) {
    forall a, b :: le(a, b) || le(b, a)
  }

  ghost predicate Transitive<T(!new)>(le: (T, T) -> bool) {
    forall a, b, c :: le(a, b) && le(b, c) ==> le(a, c)
  }

  /** The orders the listings are sorted by: total and transitive, with ties allowed. */
  ghost predicate TotalPreorder<T(!new)>(le: (T, T) -> bool) {
    Total(le) && Transitive(le)
  }

  /** Every earlier element is `le` every later one. */
  predicate SortedBy<T>(s: seq<T>, le: (T, T) -> bool) {
    forall i, j :: 0 <= i < j < |s| ==> le(s[i], s[j])
  }

  lemma SortedTail<T>(s: seq<T>, le: (T, T) -> bool)
    requires |s| > 0 && SortedBy(s, le)
    ensures SortedBy(s[1..], le)
  {
  }

  lemma SortedCons<T>(a: T, t: seq<T>, le: (T, T) -> bool)
    requires SortedBy(t, le)
    requires forall y :: y in t ==> le(a, y)
    ensures SortedBy([a] + t, le)
  {
  }

  /** Places `x` before the first element it is `le`. */
  function Insert<T(!new)>(x: T, s: seq<T>, le: (T, T) -> bool): (r: seq<T>)
    requires TotalPreorder(le)
    requires SortedBy(s, le)
    ensures multiset(r) == multiset(s) + multiset{x}
    ensures SortedBy(r, le)
    decreases |s|
  {
    if |s| == 0 then [x]
    else if le(x, s[0]) then
      assert forall y :: y in s ==> le(x, y) by {
        forall y | y in s
          ensures le(x, y)
        {
          var k :| 0 <= k < |s| && s[k] == y;
          if k > 0 {
            assert le(s[0], s[k]);
          }
        }
      }
      SortedCons(x, s, le);
      [x] + s
    else
      SortedTail(s, le);
      var rest := Insert(x, s[1..], le);
      assert s == [s[0]] + s[1..];
      assert forall y :: y in rest ==> le(s[0], y) by {
        forall y | y in rest
          ensures le(s[0], y)
        {
          assert y in multiset(rest);
          if y != x {
            assert y in s[1..];
            var k :| 0 <= k < |s[1..]| && s[1..][k] == y;
            assert s[k + 1] == y;
          }
        }
      }
      SortedCons(s[0], rest, le);
      [s[0]] + rest
  }

  /** A permutation of `s` sorted by `le` (stable insertion sort). */
  function SortBy<T(!new)>(s: seq<T>, le: (T, T) -> bool): (r: seq<T>)
    requires TotalPreorder(le)
    ensures multiset(r) == multiset(s)
    ensures |r| == |s|
    ensures SortedBy(r, le)
    decreases |s|
  {
    if |s| == 0 then []
    else
      assert s == [s[0]] + s[1..];
      var sorted := SortBy(s[1..], le);
      assert |multiset(Insert(s[0], sorted, le))| == |s|;
      Insert(s[0], sorted, le)
  }

  /**
   * A bounded prefix of a sorted sequence holds its least elements: whatever
   * is left out is `le`-after everything that is kept.
   */
  lemma TakeOfSortedIsLeast<T>(s: seq<T>, n: nat, le: (T, T) -> bool)
    requires SortedBy(s, le)
    ensures forall x, y :: x in s && x !in Take(s, n) && y in Take(s, n) ==> le(y, x)
  {
  }

  /** The first `n` elements, in `le` order, of the elements of `s` that satisfy `keep`. */
  function FirstSorted<T(!new)>(s: seq<T>, keep: T -> bool, le: (T, T) -> bool, n: nat): (r: seq<T>)
    requires TotalPreorder(le)
    ensures |r| <= n
    ensures forall x :: x in r ==> x in s && keep(x)
    ensures forall x :: multiset(r)[x] <= multiset(s)[x]
    ensures SortedBy(r, le)
    ensures |r| < n ==> forall x :: x in s && keep(x) ==> x in r
    ensures forall x, y :: x in s && keep(x) && x !in r && y in r ==> le(y, x)
  {
    var kept := Filter(s, keep);
    var listing := SortBy(kept, le);
    TakeOfSortedIsLeast(listing, n, le);
    assert forall x :: x in s && keep(x) ==> x in multiset(listing);
    var r := Take(listing, n);
    assert forall x :: x in r ==> x in multiset(kept);
    assert SortedBy(r, le);
    r
  }

  /** The elements of `s` that satisfy `keep`, sorted by `le`. */
  function FilterSorted<T(!new)>(s: seq<T>, keep: T -> bool, le: (T, T) -> bool): (r: seq<T>)
    requires TotalPreorder(le)
    ensures forall x :: x in r <==> x in s && keep(x)
    ensures forall x :: multiset(r)[x] == if keep(x) then multiset(s)[x] else 0
    ensures SortedBy(r, le)
  {
    var kept := Filter(s, keep);
    var r := SortBy(kept, le);
    assert forall x :: x in r <==> x in multiset(kept);
    r
  }
}
