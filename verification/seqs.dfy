/**
 * `Array.prototype.filter` and friends, with the facts about them that the
 * cart store, the cart view and the maintenance panel rely on.
 */
module Seqs {

  /** `s.filter(keep)`: the elements that pass, in their original order. */
  function Filter<T(==)>(s: seq<T>, keep: T -> bool): (r: seq<T>)
    ensures |r| <= |s|
    ensures forall i :: 0 <= i < |r| ==> r[i] in s && keep(r[i])
    ensures forall i :: 0 <= i < |s| && keep(s[i]) ==> s[i] in r
  {
    if s == [] then [] else (if keep(s[0]) then [s[0]] else []) + Filter(s[1..], keep)
  }

  /** Filtering distributes over concatenation, so order is kept across both parts. */
  lemma {:induction false} FilterConcat<T>(a: seq<T>, b: seq<T>, keep: T -> bool)
    ensures Filter(a + b, keep) == Filter(a, keep) + Filter(b, keep)
  {
    if a == [] {
      assert a + b == b;
    } else {
      assert (a + b)[1..] == a[1..] + b;
      FilterConcat(a[1..], b, keep);
    }
  }

  /** A filter that every element passes changes nothing. */
  lemma {:induction false} FilterKeepsAll<T>(s: seq<T>, keep: T -> bool)
    requires forall i :: 0 <= i < |s| ==> keep(s[i])
    ensures Filter(s, keep) == s
  {
    if s != [] {
      FilterKeepsAll(s[1..], keep);
      assert [s[0]] + s[1..] == s;
    }
  }

  /** A filter that no element passes leaves nothing. */
  lemma {:induction false} FilterDropsAll<T>(s: seq<T>, keep: T -> bool)
    requires forall i :: 0 <= i < |s| ==> !keep(s[i])
    ensures Filter(s, keep) == []
  {
    if s != [] {
      FilterDropsAll(s[1..], keep);
    }
  }

  /** The number of elements that pass `keep`. */
  function Count<T(==)>(s: seq<T>, keep: T -> bool): (n: nat)
    ensures n <= |s|
    ensures n == 0 <==> forall i :: 0 <= i < |s| ==> !keep(s[i])
  {
    var r := Filter(s, keep);
    assert r != [] ==> r[0] in s && keep(r[0]);
    |r|
  }

  /** No two elements share a key. */
  predicate DistinctBy<T, K(==)>(s: seq<T>, key: T -> K) {
    forall i, j :: 0 <= i < j < |s| ==> key(s[i]) != key(s[j])
  }

  /** Filtering keeps keys distinct. */
  lemma {:induction false} FilterDistinct<T, K>(s: seq<T>, keep: T -> bool, key: T -> K)
    requires DistinctBy(s, key)
    ensures DistinctBy(Filter(s, keep), key)
  {
    if s != [] {
      var tail := Filter(s[1..], keep);
      FilterDistinct(s[1..], keep, key);
      if keep(s[0]) {
        var r := [s[0]] + tail;
        forall i, j | 0 <= i < j < |r| ensures key(r[i]) != key(r[j]) {
          if i == 0 {
            assert r[j] in s[1..];
            var k :| 0 <= k < |s[1..]| && s[1..][k] == r[j];
            assert s[k + 1] == r[j];
          } else {
            assert r[i] == tail[i - 1] && r[j] == tail[j - 1];
          }
        }
      }
    }
  }

  /** Filtering twice, where the second test implies the first, is filtering once by the second. */
  lemma {:induction false} FilterThenFilter<T>(s: seq<T>, first: T -> bool, second: T -> bool)
    requires forall i :: 0 <= i < |s| && second(s[i]) ==> first(s[i])
    ensures Filter(Filter(s, first), second) == Filter(s, second)
  {
    if s != [] {
      FilterThenFilter(s[1..], first, second);
      if first(s[0]) {
        assert Filter(s, first) == [s[0]] + Filter(s[1..], first);
        var f := Filter(s, first);
        assert f[0] == s[0] && f[1..] == Filter(s[1..], first);
        assert Filter(f, second) == (if second(s[0]) then [s[0]] else []) + Filter(f[1..], second);
      } else {
        assert Filter(s, first) == Filter(s[1..], first);
      }
    }
  }

  /** Two key-distinct sequences whose keys never meet concatenate to a key-distinct sequence. */
  lemma DistinctConcat<T, K>(a: seq<T>, b: seq<T>, key: T -> K)
    requires DistinctBy(a, key) && DistinctBy(b, key)
    requires forall i, j :: 0 <= i < |a| && 0 <= j < |b| ==> key(a[i]) != key(b[j])
    ensures DistinctBy(a + b, key)
  {
    var ab := a + b;
    forall i, j | 0 <= i < j < |ab| ensures key(ab[i]) != key(ab[j]) {
      if j < |a| {
        assert ab[i] == a[i] && ab[j] == a[j];
      } else if i < |a| {
        assert ab[i] == a[i] && ab[j] == b[j - |a|];
      } else {
        assert ab[i] == b[i - |a|] && ab[j] == b[j - |a|];
      }
    }
  }

  /** `Array.prototype.map`, building the result from the front. */
  function Map<A, B>(f: A -> B, xs: seq<A>): seq<B>
  {
    if xs == [] then [] else Map(f, xs[..|xs| - 1]) + [f(xs[|xs| - 1])]
  }

  /** The mapped sequence has one element per input, the `j`-th being `f` of the `j`-th input. */
  lemma {:induction false} MapAt<A, B>(f: A -> B, xs: seq<A>, j: nat)
    requires j < |xs|
    ensures |Map(f, xs)| == |xs| && Map(f, xs)[j] == f(xs[j])
  {
    if j < |xs| - 1 {
      MapAt(f, xs[..|xs| - 1], j);
    } else if |xs| > 1 {
      MapAt(f, xs[..|xs| - 1], 0);
    }
  }

  /** An element of a prefix is an element of the whole. */
  lemma InPrefix<T>(p: seq<T>, q: seq<T>, x: T)
    requires p <= q && x in p
    ensures x in q
  {
    var j :| 0 <= j < |p| && p[j] == x;
    assert q[j] == x;
  }
}
