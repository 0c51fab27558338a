/** `Array.prototype.sort` with a comparator, as the sources use it: on the
    result list of `searchPosts` (newest first) and of `createUniqueItems`
    (by name). The comparator is a total preorder `leq`; the sort is an
    insertion sort that places an element before the first one it is not
    after, so equal elements keep their order, as JavaScript's stable sort does. */
module Sorting {

  /** `leq` is total and transitive. */
  ghost predicate TotalPreorder<T(!new)>(leq: (T, T) -> bool) {
    (forall a, b :: leq(a, b) || leq(b, a))
    && (forall a, b, c :: leq(a, b) && leq(b, c) ==> leq(a, c))
  }

  ghost predicate SortedBy<T>(s: seq<T>, leq: (T, T) -> bool) {
    forall i, j :: 0 <= i < j < |s| ==> leq(s[i], s[j])
  }

  function Insert<T(!new)>(x: T, s: seq<T>, leq: (T, T) -> bool): (r: seq<T>)
    requires TotalPreorder(leq)
    requires SortedBy(s, leq)
    ensures SortedBy(r, leq)
    ensures multiset(r) == multiset(s) + multiset{x}
  {
    if s == [] || leq(x, s[0]) then
      ConsSorted(x, s, leq);
      [x] + s
    else
      var rest := Insert(x, s[1..], leq);
      BoundAfterInsert(x, s, rest, leq);
      ConsSorted(s[0], rest, leq);
      SplitHead(s);
      ConsMultiset(s[0], rest);
      [s[0]] + rest
  }

  /** Splitting off the head of a list splits off one of its elements. */
  lemma ConsMultiset<T>(h: T, t: seq<T>)
    ensures multiset([h] + t) == multiset(t) + multiset{h}
  {
  }

  lemma SplitHead<T>(s: seq<T>)
    requires s != []
    ensures multiset(s) == multiset(s[1..]) + multiset{s[0]}
  {
    assert s == [s[0]] + s[1..];
  }

  /** A head no greater than any element of a sorted tail keeps it sorted. */
  lemma ConsSorted<T(!new)>(h: T, t: seq<T>, leq: (T, T) -> bool)
    requires TotalPreorder(leq)
    requires SortedBy(t, leq)
    requires t == [] || leq(h, t[0])
    ensures SortedBy([h] + t, leq)
    ensures multiset([h] + t) == multiset(t) + multiset{h}
  {
    var r := [h] + t;
    forall i, j | 0 <= i < j < |r| ensures leq(r[i], r[j]) {
      if i == 0 && j > 1 {
        assert r[1] == t[0] && r[j] == t[j - 1];
      }
    }
  }

  /** When `x` goes after the head, the head stays below everything in the
      rest with `x` inserted. */
  lemma BoundAfterInsert<T(!new)>(x: T, s: seq<T>, rest: seq<T>, leq: (T, T) -> bool)
    requires TotalPreorder(leq)
    requires SortedBy(s, leq)
    requires s != [] && !leq(x, s[0])
    requires multiset(rest) == multiset(s[1..]) + multiset{x}
    requires SortedBy(rest, leq)
    ensures rest == [] || leq(s[0], rest[0])
  {
    if rest != [] {
      var y := rest[0];
      assert y in multiset(rest);
      if y != x {
        assert y in multiset(s[1..]);
        var k :| 0 <= k < |s[1..]| && s[1..][k] == y;
        assert s[k + 1] == y;
      }
    }
  }

  /** The list sorted by `leq`: sorted, and a permutation of the input. */
  function InsertionSort<T(!new)>(s: seq<T>, leq: (T, T) -> bool): (r: seq<T>)
    requires TotalPreorder(leq)
    ensures SortedBy(r, leq)
    ensures multiset(r) == multiset(s)
    ensures |r| == |s|
  {
    if s == [] then []
    else
      var r := Insert(s[0], InsertionSort(s[1..], leq), leq);
      SplitHead(s);
      assert |r| == |multiset(r)| == |multiset(s)| == |s|;
      r
  }
}
