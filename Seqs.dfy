/** List operations the sources get from `Array.prototype` (`filter`,
    `findIndex`) and from insertion-ordered `Set`s and `Map`s. */
module Seqs {

  /** `r` is `s` with some of its elements left out and the others in the
      order `s` has them. */
  ghost predicate IsSubsequence<T>(r: seq<T>, s: seq<T>)
    decreases |s|
  {
    r == [] || (s != [] && ((r[0] == s[0] && IsSubsequence(r[1..], s[1..])) || IsSubsequence(r, s[1..])))
  }

  lemma {:induction false} SubsequenceRefl<T>(s: seq<T>)
    ensures IsSubsequence(s, s)
  {
    if s != [] {
      SubsequenceRefl(s[1..]);
    }
  }

  lemma {:induction false} SubsequenceTrans<T>(a: seq<T>, b: seq<T>, c: seq<T>)
    requires IsSubsequence(a, b) && IsSubsequence(b, c)
    ensures IsSubsequence(a, c)
    decreases |c|
  {
    if a != [] {
      if b[0] == c[0] && IsSubsequence(b[1..], c[1..]) {
        if a[0] == b[0] && IsSubsequence(a[1..], b[1..]) {
          SubsequenceTrans(a[1..], b[1..], c[1..]);
        } else {
          SubsequenceTrans(a, b[1..], c[1..]);
        }
      } else {
        SubsequenceTrans(a, b, c[1..]);
      }
    }
  }

  /** A subsequence holds no element more often than the sequence does. */
  lemma {:induction false} SubsequenceMultiset<T>(r: seq<T>, s: seq<T>)
    ensures IsSubsequence(r, s) ==> multiset(r) <= multiset(s)
    decreases |s|
  {
    if r != [] && s != [] {
      SubsequenceMultiset(r[1..], s[1..]);
      SubsequenceMultiset(r, s[1..]);
      assert r == [r[0]] + r[1..];
      assert s == [s[0]] + s[1..];
    }
  }

  /** `s.filter(keep)`: the kept elements, each as often as `s` holds it,
      in the order of `s`. */
  function Filter<T(!new)>(s: seq<T>, keep: T -> bool): (r: seq<T>)
    ensures |r| <= |s|
    ensures forall x :: x in r <==> x in s && keep(x)
  {
    if s == [] then []
    else
      var rest := Filter(s[1..], keep);
      assert forall x :: x in s <==> x == s[0] || x in s[1..];
      if keep(s[0]) then [s[0]] + rest else rest
  }

  /** A filter keeps the order of `s` and holds each kept element as often
      as `s` does. */
  lemma {:induction false} FilterOrder<T(!new)>(s: seq<T>, keep: T -> bool)
    ensures IsSubsequence(Filter(s, keep), s)
    ensures forall x :: multiset(Filter(s, keep))[x] == if keep(x) then multiset(s)[x] else 0
  {
    if s != [] {
      FilterOrder(s[1..], keep);
      var rest := Filter(s[1..], keep);
      assert s == [s[0]] + s[1..];
      if keep(s[0]) {
        assert ([s[0]] + rest)[1..] == rest;
      }
    }
  }

  /** Order and multiplicities determine a filter: a subsequence of `s`
      that holds each kept element as often as `s` does, and nothing
      else, is `Filter(s, keep)`. */
  lemma {:induction false} FilterUnique<T(!new)>(s: seq<T>, keep: T -> bool, r: seq<T>)
    requires IsSubsequence(r, s)
    requires forall x :: multiset(r)[x] == if keep(x) then multiset(s)[x] else 0
    ensures r == Filter(s, keep)
    decreases |s|
  {
    if s != [] {
      var x := s[0];
      assert s == [x] + s[1..];
      assert r != [] ==> r == [r[0]] + r[1..] && r[0] in multiset(r);
      FilterOrder(s, keep);
      if keep(x) {
        SubsequenceMultiset(r, s[1..]);
        assert multiset(r)[x] > multiset(s[1..])[x];
        FilterUnique(s[1..], keep, r[1..]);
      } else {
        FilterUnique(s[1..], keep, r);
      }
    }
  }

  /** `s.map(f)`. */
  function Map<A, B>(s: seq<A>, f: A -> B): (r: seq<B>)
    ensures |r| == |s|
    ensures forall i :: 0 <= i < |s| ==> r[i] == f(s[i])
  {
    if s == [] then [] else [f(s[0])] + Map(s[1..], f)
  }

  /** What `s.filter(keep).map(f)` holds: the images of the kept elements. */
  lemma MapFilterMembers<A(!new), B>(s: seq<A>, keep: A -> bool, f: A -> B)
    ensures forall y :: y in Map(Filter(s, keep), f) <==> exists i :: 0 <= i < |s| && keep(s[i]) && f(s[i]) == y
  {
    var kept := Filter(s, keep);
    var r := Map(kept, f);
    forall y ensures y in r <==> exists i :: 0 <= i < |s| && keep(s[i]) && f(s[i]) == y {
      if y in r {
        var j :| 0 <= j < |r| && r[j] == y;
        assert kept[j] in kept;
        var i :| 0 <= i < |s| && s[i] == kept[j];
      }
      if exists i :: 0 <= i < |s| && keep(s[i]) && f(s[i]) == y {
        var i :| 0 <= i < |s| && keep(s[i]) && f(s[i]) == y;
        assert s[i] in kept;
        var j :| 0 <= j < |kept| && kept[j] == s[i];
        assert r[j] == y;
      }
    }
  }

  /** The first element a filter keeps is the first element of `s` that
      satisfies `keep`. */
  lemma {:induction false} FilterHead<T(!new)>(s: seq<T>, keep: T -> bool)
    ensures Filter(s, keep) != [] ==> FirstIndex(s, keep) >= 0 && Filter(s, keep)[0] == s[FirstIndex(s, keep)]
  {
    if s != [] && !keep(s[0]) {
      FilterHead(s[1..], keep);
    }
  }

  /** Filtering with a predicate that holds of every element changes nothing. */
  lemma {:induction false} FilterKeepsAll<T(!new)>(s: seq<T>, keep: T -> bool)
    requires forall i :: 0 <= i < |s| ==> keep(s[i])
    ensures Filter(s, keep) == s
  {
    if s != [] {
      FilterKeepsAll(s[1..], keep);
      assert [s[0]] + s[1..] == s;
    }
  }

  lemma FilterEmpty<T(!new)>(keep: T -> bool)
    ensures Filter([], keep) == []
  {
  }

  /** Filtering distributes over appending one element. */
  lemma {:induction false} FilterAppend<T(!new)>(s: seq<T>, x: T, keep: T -> bool)
    ensures Filter(s + [x], keep) == Filter(s, keep) + (if keep(x) then [x] else [])
  {
    if s == [] {
      assert [] + [x] == [x];
      assert [x][1..] == [];
    } else {
      var t := s + [x];
      assert t[0] == s[0];
      assert t[1..] == s[1..] + [x];
      FilterAppend(s[1..], x, keep);
    }
  }

  /** Filtering one more element of `s`, as a loop over `s` sees it. */
  lemma FilterPrefixStep<T(!new)>(s: seq<T>, i: nat, keep: T -> bool)
    requires i < |s|
    ensures Filter(s[..i + 1], keep) == Filter(s[..i], keep) + (if keep(s[i]) then [s[i]] else [])
  {
    assert s[..i + 1] == s[..i] + [s[i]];
    FilterAppend(s[..i], s[i], keep);
  }

  /** Appending after a non-empty sequence, seen from its first element. */
  lemma ConsAppend<T>(w: seq<T>, t: seq<T>)
    requires w != []
    ensures w + t == [w[0]] + (w[1..] + t)
  {
  }

  lemma HeadTail<T>(s: seq<T>)
    requires s != []
    ensures [s[0]] + s[1..] == s
  {
  }

  lemma AppendAssoc<T>(a: seq<T>, b: seq<T>, c: seq<T>)
    ensures (a + b) + c == a + (b + c)
  {
  }

  lemma EmptyAppend<T>(a: seq<T>)
    ensures [] + a == a && a + [] == a
  {
  }

  lemma InitLast<T>(s: seq<T>)
    requires s != []
    ensures s == s[..|s| - 1] + [s[|s| - 1]]
  {
  }

  /** One more element of `s`, as a loop over `s` sees it. */
  lemma PrefixStep<T>(s: seq<T>, i: int)
    requires 0 <= i < |s|
    ensures s[..i + 1] == s[..i] + [s[i]]
  {
  }

  lemma PrefixAll<T>(s: seq<T>)
    ensures s[..|s|] == s
  {
  }

  /** One more element of `s` after `a`, as a loop over `s` sees it. */
  lemma AppendPrefixStep<T>(a: seq<T>, s: seq<T>, j: int)
    requires 0 <= j < |s|
    ensures a + s[..j + 1] == (a + s[..j]) + [s[j]]
  {
    assert s[..j + 1] == s[..j] + [s[j]];
  }

  lemma AppendPrefixEnds<T>(a: seq<T>, s: seq<T>)
    ensures a + s[..0] == a && s[..|s|] == s
  {
    assert s[..0] == [];
  }

  /** `s.findIndex(p)`: the first index whose element satisfies `p`, or -1. */
  function FirstIndex<T>(s: seq<T>, p: T -> bool): (r: int)
    ensures -1 <= r < |s|
    ensures r >= 0 ==> p(s[r]) && forall j :: 0 <= j < r ==> !p(s[j])
    ensures r == -1 ==> forall j :: 0 <= j < |s| ==> !p(s[j])
  {
    if s == [] then -1
    else if p(s[0]) then 0
    else
      var r := FirstIndex(s[1..], p);
      if r == -1 then -1 else r + 1
  }

  predicate NoDuplicates<T(==)>(s: seq<T>) {
    forall i, j :: 0 <= i < j < |s| ==> s[i] != s[j]
  }

  /** The position of the first occurrence of `x` in `s`. */
  function IndexOf<T(==)>(s: seq<T>, x: T): (r: nat)
    requires x in s
    ensures r < |s| && s[r] == x
    ensures forall j :: 0 <= j < r ==> s[j] != x
  {
    if s[0] == x then 0 else 1 + IndexOf(s[1..], x)
  }

  lemma {:induction false} IndexOfPrefix<T>(s: seq<T>, n: nat, x: T)
    requires n <= |s| && x in s[..n]
    ensures x in s && IndexOf(s, x) == IndexOf(s[..n], x)
  {
    var k := IndexOf(s[..n], x);
    assert s[k] == x;
    var m := IndexOf(s, x);
    assert m <= k;
  }

  /** The distinct elements of `s` in the order they are first seen, as
      `Array.from(new Set(s))` lists them. */
  function Dedup<T(==,!new)>(s: seq<T>): (r: seq<T>)
    ensures NoDuplicates(r)
    ensures forall x :: x in r <==> x in s
    ensures forall i, j :: 0 <= i < j < |r| ==> IndexOf(s, r[i]) < IndexOf(s, r[j])
    ensures |r| <= |s|
  {
    if s == [] then []
    else
      var init := s[..|s| - 1];
      var last := s[|s| - 1];
      var r := Dedup(init);
      assert s == init + [last];
      assert forall i :: 0 <= i < |r| ==> IndexOf(s, r[i]) == IndexOf(init, r[i]) by {
        forall i | 0 <= i < |r| ensures IndexOf(s, r[i]) == IndexOf(init, r[i]) {
          IndexOfPrefix(s, |s| - 1, r[i]);
        }
      }
      if last in r then r
      else
        assert IndexOf(s, last) == |s| - 1 by {
          assert last !in init;
        }
        r + [last]
  }

  /** One more element: kept when it is new, dropped when it was seen. */
  lemma DedupSnoc<T(!new)>(s: seq<T>, x: T)
    ensures Dedup(s + [x]) == if x in Dedup(s) then Dedup(s) else Dedup(s) + [x]
  {
    var t := s + [x];
    assert t[..|t| - 1] == s;
  }

  /** The elements of a list without duplicates are its first occurrences:
      deduplicating it changes nothing. */
  lemma {:induction false} DedupOfDistinct<T(!new)>(s: seq<T>)
    requires NoDuplicates(s)
    ensures Dedup(s) == s
  {
    if s != [] {
      var init := s[..|s| - 1];
      assert NoDuplicates(init);
      DedupOfDistinct(init);
      assert s[|s| - 1] !in init;
      assert init + [s[|s| - 1]] == s;
    }
  }
}
