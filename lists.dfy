/** The two array operations the component builds its list updates and views
    from: JavaScript's Array.prototype.map and Array.prototype.filter, on
    sequences. */
module Lists {

  /** `s.map(f)`: one result per element, in the same order. */
  function Map<T, U>(s: seq<T>, f: T -> U): (r: seq<U>)
    ensures |r| == |s|
    ensures forall i :: 0 <= i < |s| ==> r[i] == f(s[i])
  {
    if s == [] then [] else [f(s[0])] + Map(s[1..], f)
  }

  /** `a` can be obtained from `b` by deleting elements, without reordering.
      Matching each element of `a` to the first equal element left in `b`
      finds such a deletion whenever one exists. */
  predicate IsSubsequence<T(==)>(a: seq<T>, b: seq<T>)
    decreases |b|
  {
    if a == [] then true
    else if b == [] then false
    else if a[0] == b[0] then IsSubsequence(a[1..], b[1..])
    else IsSubsequence(a, b[1..])
  }

  /** `s.filter(keep)`: the elements that satisfy keep, in their original order. */
  function Filter<T>(s: seq<T>, keep: T -> bool): (r: seq<T>)
    ensures |r| <= |s|
    ensures forall i :: 0 <= i < |r| ==> r[i] in s && keep(r[i])
    ensures forall i :: 0 <= i < |s| && keep(s[i]) ==> s[i] in r
  {
    if s == [] then [] else (if keep(s[0]) then [s[0]] else []) + Filter(s[1..], keep)
  }

  /** Filtering keeps order: the result is a subsequence of the input. */
  lemma {:induction false} FilterIsSubsequence<T>(s: seq<T>, keep: T -> bool)
    ensures IsSubsequence(Filter(s, keep), s)
  {
    if s != [] {
      var r := Filter(s, keep);
      FilterIsSubsequence(s[1..], keep);
      if keep(s[0]) {
        assert r[0] == s[0] && r[1..] == Filter(s[1..], keep);
      } else if r != [] {
        assert r == Filter(s[1..], keep);
        assert keep(r[0]) && r[0] != s[0];
      }
    }
  }

  /** Filtering a concatenation filters each part. */
  lemma {:induction false} FilterConcat<T>(a: seq<T>, b: seq<T>, keep: T -> bool)
    ensures Filter(a + b, keep) == Filter(a, keep) + Filter(b, keep)
  {
    if a != [] {
      assert (a + b)[0] == a[0] && (a + b)[1..] == a[1..] + b;
      FilterConcat(a[1..], b, keep);
    } else {
      assert a + b == b;
    }
  }

  /** A filter that keeps every element returns the sequence itself. */
  lemma {:induction false} FilterKeepsAll<T>(s: seq<T>, keep: T -> bool)
    requires forall i :: 0 <= i < |s| ==> keep(s[i])
    ensures Filter(s, keep) == s
  {
    if s != [] {
      FilterKeepsAll(s[1..], keep);
      assert [s[0]] + s[1..] == s;
    }
  }

  /** Filtering twice by the same predicate is filtering once. */
  lemma FilterIdempotent<T>(s: seq<T>, keep: T -> bool)
    ensures Filter(Filter(s, keep), keep) == Filter(s, keep)
  {
    var r := Filter(s, keep);
    FilterKeepsAll(r, keep);
  }

  /** Two complementary filters split a sequence: their lengths add up to its length. */
  lemma {:induction false} FilterPartition<T>(s: seq<T>, p: T -> bool, q: T -> bool)
    requires forall x :: q(x) == !p(x)
    ensures |Filter(s, p)| + |Filter(s, q)| == |s|
  {
    if s != [] {
      FilterPartition(s[1..], p, q);
    }
  }

  /** Two complementary filters split a sequence element by element: together
      they hold every element exactly as often as the sequence does. With the
      membership facts of Filter, this fixes how often each element occurs in
      a filtered sequence. */
  lemma {:induction false} FilterPartitionMultiset<T>(s: seq<T>, p: T -> bool, q: T -> bool)
    requires forall x :: q(x) == !p(x)
    ensures multiset(Filter(s, p)) + multiset(Filter(s, q)) == multiset(s)
  {
    if s != [] {
      var rest := s[1..];
      FilterPartitionMultiset(rest, p, q);
      assert s == [s[0]] + rest;
      if p(s[0]) {
        assert Filter(s, p) == [s[0]] + Filter(rest, p) && Filter(s, q) == Filter(rest, q);
        ConsMultiset(s[0], Filter(rest, p), Filter(rest, q), rest);
      } else {
        assert Filter(s, p) == Filter(rest, p) && Filter(s, q) == [s[0]] + Filter(rest, q);
        ConsMultiset(s[0], Filter(rest, q), Filter(rest, p), rest);
      }
    }
  }

  /** Putting one more element in front of one part of a split. */
  lemma ConsMultiset<T>(x: T, a: seq<T>, b: seq<T>, rest: seq<T>)
    requires multiset(a) + multiset(b) == multiset(rest)
    ensures multiset([x] + a) + multiset(b) == multiset([x] + rest)
  {
    assert multiset([x] + a) == multiset{x} + multiset(a);
    assert multiset([x] + rest) == multiset{x} + multiset(rest);
  }
}
