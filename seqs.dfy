/** Generic facts about sequences used by several modules: order-preserving
    filtering (JavaScript's Array.prototype.filter) and duplicate-freedom. */
module Seqs {

  /** The elements of `s` that satisfy `p`, in their original order. */
  function Filter<T(!new)>(s: seq<T>, p: T -> bool): (r: seq<T>)
    ensures |r| <= |s|
    ensures forall x :: x in r <==> x in s && p(x)
    ensures forall i :: 0 <= i < |r| ==> p(r[i])
  {
    if s == [] then []
    else if p(s[0]) then [s[0]] + Filter(s[1..], p)
    else Filter(s[1..], p)
  }

  /** Filtering distributes over concatenation: it keeps the relative order of
      what it keeps. */
  lemma {:induction false} FilterAppend<T(!new)>(a: seq<T>, b: seq<T>, p: T -> bool)
    ensures Filter(a + b, p) == Filter(a, p) + Filter(b, p)
  {
    if a == [] {
      assert a + b == b;
    } else {
      assert (a + b)[1..] == a[1..] + b;
      FilterAppend(a[1..], b, p);
    }
  }

  /** Two filters in a row are one filter by the conjunction. */
  lemma {:induction false} FilterFilter<T(!new)>(s: seq<T>, p: T -> bool, q: T -> bool)
    ensures Filter(Filter(s, p), q) == Filter(s, x => p(x) && q(x))
  {
    if s != [] {
      FilterFilter(s[1..], p, q);
    }
  }

  /** A filter whose predicate holds everywhere keeps the sequence as it is. */
  lemma {:induction false} FilterAll<T(!new)>(s: seq<T>, p: T -> bool)
    requires forall x :: x in s ==> p(x)
    ensures Filter(s, p) == s
  {
    if s != [] {
      FilterAll(s[1..], p);
    }
  }

  /** The elements kept and the elements dropped together make up the input. */
  lemma {:induction false} FilterPartition<T(!new)>(s: seq<T>, p: T -> bool)
    ensures multiset(Filter(s, p)) + multiset(Filter(s, x => !p(x))) == multiset(s)
    ensures |Filter(s, p)| + |Filter(s, x => !p(x))| == |s|
  {
    if s != [] {
      FilterPartition(s[1..], p);
      assert s == [s[0]] + s[1..];
    }
  }

  ghost predicate NoDuplicates<T>(s: seq<T>) {
    forall i, j :: 0 <= i < j < |s| ==> s[i] != s[j]
  }

  /** Filtering a duplicate-free sequence leaves it duplicate-free. */
  lemma {:induction false} FilterNoDuplicates<T(!new)>(s: seq<T>, p: T -> bool)
    requires NoDuplicates(s)
    ensures NoDuplicates(Filter(s, p))
  {
    if s != [] {
      FilterNoDuplicates(s[1..], p);
      var r := Filter(s[1..], p);
      assert s[0] !in s[1..] by {
        forall k | 0 <= k < |s[1..]| ensures s[1..][k] != s[0] {
          assert s[1..][k] == s[k + 1];
        }
      }
      assert s[0] !in r;
    }
  }

  /** Two duplicate-free sequences with no element in common concatenate to a
      duplicate-free sequence. */
  lemma NoDuplicatesAppend<T>(a: seq<T>, b: seq<T>)
    requires NoDuplicates(a) && NoDuplicates(b)
    requires forall x :: x in a ==> x !in b
    ensures NoDuplicates(a + b)
  {
    forall i, j | 0 <= i < j < |a + b| ensures (a + b)[i] != (a + b)[j] {
      if j >= |a| && i < |a| {
        assert (a + b)[i] in a && (a + b)[j] in b;
      }
    }
  }

  /** A filter whose predicate holds nowhere keeps nothing. */
  lemma {:induction false} FilterNone<T(!new)>(s: seq<T>, p: T -> bool)
    requires forall x :: x in s ==> !p(x)
    ensures Filter(s, p) == []
  {
    if s != [] {
      FilterNone(s[1..], p);
    }
  }

  /** Filtering out every occurrence of `x` removes exactly those from the
      multiset and keeps every other element as often as before. */
  lemma {:induction false} FilterOutMultiset<T(!new)>(s: seq<T>, x: T, p: T -> bool)
    requires forall y :: p(y) <==> y != x
    ensures multiset(Filter(s, p)) == multiset(s)[x := 0]
  {
    if s != [] {
      var t := s[1..];
      FilterOutMultiset(t, x, p);
      assert s == [s[0]] + t;
      var f := Filter(s, p);
      if s[0] == x {
        assert f == Filter(t, p);
      } else {
        assert f == [s[0]] + Filter(t, p);
      }
      forall y
        ensures multiset(f)[y] == multiset(s)[x := 0][y]
      {
      }
    }
  }

  /** A duplicate-free sequence has as many elements as its set. */
  lemma {:induction false} DistinctCard<T>(s: seq<T>)
    requires NoDuplicates(s)
    ensures |(set x | x in s)| == |s|
  {
    if s != [] {
      DistinctCard(s[1..]);
      assert (set x | x in s) == (set x | x in s[1..]) + {s[0]};
      assert s[0] !in s[1..] by {
        forall k | 0 <= k < |s| - 1 ensures s[1..][k] != s[0] { assert s[1..][k] == s[k + 1]; }
      }
    }
  }

  /** Array.prototype.map. */
  function Map<T, U>(s: seq<T>, f: T -> U): (r: seq<U>)
    ensures |r| == |s|
    ensures forall i :: 0 <= i < |s| ==> r[i] == f(s[i])
  {
    if s == [] then [] else [f(s[0])] + Map(s[1..], f)
  }

  /** Extending a prefix of `added` by its next element. */
  lemma PrefixSnoc<T>(done: seq<T>, added: seq<T>, j: nat)
    requires j < |added|
    ensures done + added[..j] + [added[j]] == done + added[..j + 1]
  {
    assert added[..j + 1] == added[..j] + [added[j]];
  }

  lemma MapSingle<T, U>(s: seq<T>, x: T, f: T -> U)
    requires s == [x]
    ensures Map(s, f) == [f(x)]
  {
  }

  /** Array.prototype.some. */
  function Any<T(!new)>(s: seq<T>, p: T -> bool): (r: bool)
    ensures r <==> exists x :: x in s && p(x)
  {
    if s == [] then false else p(s[0]) || Any(s[1..], p)
  }

  /** Filters by predicates that agree on the elements are the same filter. */
  lemma {:induction false} FilterSame<T(!new)>(s: seq<T>, p: T -> bool, q: T -> bool)
    requires forall x :: x in s ==> p(x) == q(x)
    ensures Filter(s, p) == Filter(s, q)
  {
    if s != [] {
      FilterSame(s[1..], p, q);
    }
  }

  /** One more optional filter step: filtering what `keep` left by `f`,
      when the step applies, is filtering the input once by `next`. */
  lemma Narrow<T(!new)>(s: seq<T>, keep: T -> bool, applied: bool, f: T -> bool, next: T -> bool, t: seq<T>)
    requires t == if applied then Filter(Filter(s, keep), f) else Filter(s, keep)
    requires forall x :: next(x) == (keep(x) && (applied ==> f(x)))
    ensures t == Filter(s, next)
  {
    if applied {
      FilterFilter(s, keep, f);
      FilterSame(s, x => keep(x) && f(x), next);
    } else {
      FilterSame(s, keep, next);
    }
  }

  /** `a` is `b` with some elements left out and the rest in their order. */
  predicate IsSubsequence<T(==)>(a: seq<T>, b: seq<T>)
    decreases |b|
  {
    if a == [] then true
    else if b == [] then false
    else (a[0] == b[0] && IsSubsequence(a[1..], b[1..])) || IsSubsequence(a, b[1..])
  }

  /** A filter only leaves elements out. */
  lemma {:induction false} FilterIsSubsequence<T(!new)>(s: seq<T>, p: T -> bool)
    ensures IsSubsequence(Filter(s, p), s)
  {
    if s != [] {
      FilterIsSubsequence(s[1..], p);
      if p(s[0]) {
        assert Filter(s, p)[1..] == Filter(s[1..], p);
      }
    }
  }
}
