/** The ordering MongoDB applies for a `.sort({ ... })` on up to three keys, and `.limit(n)`.
    A record is mapped to a triple of integers, and records come out with the triples in
    descending lexicographic order; an ascending key is given negated. */
module Sorting {

  type Key = (int, int, int)

  /** `a` may be listed before `b`. */
  predicate KeyGe(a: Key, b: Key) {
    a.0 > b.0 || (a.0 == b.0 && (a.1 > b.1 || (a.1 == b.1 && a.2 >= b.2)))
  }

  lemma KeyGeTotal(a: Key, b: Key)
    ensures KeyGe(a, b) || KeyGe(b, a)
  {
  }

  lemma KeyGeTransitive(a: Key, b: Key, c: Key)
    requires KeyGe(a, b) && KeyGe(b, c)
    ensures KeyGe(a, c)
  {
  }

  predicate SortedDesc<T>(s: seq<T>, key: T -> Key) {
    forall i, j :: 0 <= i < j < |s| ==> KeyGe(key(s[i]), key(s[j]))
  }

  /** Inserts `x` into a sorted list after every element that ranks at least as high. */
  function Insert<T>(x: T, s: seq<T>, key: T -> Key): (r: seq<T>)
    requires SortedDesc(s, key)
    ensures SortedDesc(r, key)
    ensures multiset(r) == multiset(s) + multiset{x}
    ensures |r| == |s| + 1
    decreases |s|
  {
    if |s| == 0 then [x]
    else if !KeyGe(key(s[0]), key(x)) then
      KeyGeTotal(key(s[0]), key(x));
      forall j | 0 <= j < |s| ensures KeyGe(key(x), key(s[j])) {
        if j > 0 { KeyGeTransitive(key(x), key(s[0]), key(s[j])); }
      }
      ConsSorted(x, s, key);
      [x] + s
    else
      var tail := s[1..];
      assert SortedDesc(tail, key) by {
        forall i, j | 0 <= i < j < |tail| ensures KeyGe(key(tail[i]), key(tail[j])) {
          assert tail[i] == s[i + 1] && tail[j] == s[j + 1];
        }
      }
      var rest := Insert(x, tail, key);
      HeadBoundsInsert(s, x, rest, key);
      ConsSorted(s[0], rest, key);
      assert s == [s[0]] + tail;
      [s[0]] + rest
  }

  /** A head that ranks at least as high as every element keeps a sorted list sorted. */
  lemma ConsSorted<T>(h: T, s: seq<T>, key: T -> Key)
    requires SortedDesc(s, key)
    requires forall j :: 0 <= j < |s| ==> KeyGe(key(h), key(s[j]))
    ensures SortedDesc([h] + s, key)
  {
    var r := [h] + s;
    forall i, j | 0 <= i < j < |r| ensures KeyGe(key(r[i]), key(r[j])) {
      assert r[j] == s[j - 1];
      if i > 0 {
        assert r[i] == s[i - 1];
      }
    }
  }

  /** The head of a sorted list ranks at least as high as everything in the tail with `x`
      inserted, when it ranks at least as high as `x`. */
  lemma HeadBoundsInsert<T>(s: seq<T>, x: T, rest: seq<T>, key: T -> Key)
    requires |s| > 0 && SortedDesc(s, key) && KeyGe(key(s[0]), key(x))
    requires multiset(rest) == multiset(s[1..]) + multiset{x}
    ensures forall j :: 0 <= j < |rest| ==> KeyGe(key(s[0]), key(rest[j]))
  {
    forall j | 0 <= j < |rest| ensures KeyGe(key(s[0]), key(rest[j])) {
      assert rest[j] in multiset(rest);
      if rest[j] != x {
        assert rest[j] in multiset(s[1..]);
        var k :| 0 <= k < |s[1..]| && s[1..][k] == rest[j];
        assert s[k + 1] == rest[j];
      }
    }
  }

  /** `.sort(...)`: a sorted permutation of the matching records. */
  function SortDesc<T>(s: seq<T>, key: T -> Key): (r: seq<T>)
    ensures SortedDesc(r, key)
    ensures multiset(r) == multiset(s)
    ensures |r| == |s|
    decreases |s|
  {
    if |s| == 0 then []
    else
      var r := Insert(s[|s| - 1], SortDesc(s[..|s| - 1], key), key);
      assert s == s[..|s| - 1] + [s[|s| - 1]];
      r
  }

  /** `.limit(n)`; MongoDB reads a limit of 0 as no limit. */
  function Take<T>(s: seq<T>, limit: nat): (r: seq<T>)
    ensures limit == 0 || |s| <= limit ==> r == s
    ensures limit > 0 && |s| > limit ==> r == s[..limit]
    ensures limit > 0 ==> |r| <= limit
  {
    if limit == 0 || |s| <= limit then s else s[..limit]
  }

  /** A prefix of a sorted list is sorted, and holds only its elements. */
  lemma TakeSorted<T>(s: seq<T>, limit: nat, key: T -> Key)
    requires SortedDesc(s, key)
    ensures SortedDesc(Take(s, limit), key)
    ensures forall i :: 0 <= i < |Take(s, limit)| ==> Take(s, limit)[i] == s[i]
  {
  }

  /** `r` is what `.sort(...).limit(limit)` may return for `s`: sorted, `limit` of the
      elements of `s` (all of them for 0 or when there are fewer), and every element left out
      ranks no higher than every element returned. */
  ghost predicate IsListing<T>(r: seq<T>, s: seq<T>, limit: nat, key: T -> Key) {
    && SortedDesc(r, key)
    && |r| == (if limit == 0 || |s| <= limit then |s| else limit)
    && multiset(r) <= multiset(s)
    && (forall x, i :: x in multiset(s) - multiset(r) && 0 <= i < |r| ==> KeyGe(key(r[i]), key(x)))
  }

  /** `.sort(...).limit(n)` of `s`. */
  function TopK<T>(s: seq<T>, key: T -> Key, limit: nat): (r: seq<T>)
    ensures IsListing(r, s, limit, key)
    ensures limit == 0 || |s| <= limit ==> multiset(r) == multiset(s)
  {
    var sorted := SortDesc(s, key);
    var r := Take(sorted, limit);
    TakeSorted(sorted, limit, key);
    var k := |r|;
    assert r == sorted[..k];
    assert sorted == sorted[..k] + sorted[k..];
    assert multiset(sorted) == multiset(r) + multiset(sorted[k..]);
    forall x, i | x in multiset(s) - multiset(r) && 0 <= i < |r| ensures KeyGe(key(r[i]), key(x)) {
      assert x in multiset(sorted[k..]);
      var j :| 0 <= j < |sorted[k..]| && sorted[k..][j] == x;
      assert sorted[k + j] == x;
    }
    r
  }
}
