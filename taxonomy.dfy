/**
 * The taxonomy routes: every tag used by some recipe, once each, sorted;
 * and every category, sorted.
 */
module Taxonomy {
  import opened Seqs

  // ------------------------------------------------------- string order

  /** The default order of Array.prototype.sort on strings: character by
      character, a proper prefix first. */
  predicate Precedes(a: string, b: string)
    decreases |a|
  {
    if a == [] then b != []
    else if b == [] then false
    else if a[0] != b[0] then a[0] < b[0]
    else Precedes(a[1..], b[1..])
  }

  lemma {:induction false} PrecedesIrreflexive(a: string)
    ensures !Precedes(a, a)
    decreases |a|
  {
    if a != [] {
      PrecedesIrreflexive(a[1..]);
    }
  }

  lemma {:induction false} PrecedesTransitive(a: string, b: string, c: string)
    requires Precedes(a, b) && Precedes(b, c)
    ensures Precedes(a, c)
    decreases |a|
  {
    if a != [] && b != [] && c != [] && a[0] == b[0] && b[0] == c[0] {
      PrecedesTransitive(a[1..], b[1..], c[1..]);
    }
  }

  /** Two different strings are ordered one way or the other. */
  lemma {:induction false} PrecedesTotal(a: string, b: string)
    requires a != b
    ensures Precedes(a, b) || Precedes(b, a)
    decreases |a|
  {
    if a != [] && b != [] && a[0] == b[0] {
      assert a == [a[0]] + a[1..] && b == [b[0]] + b[1..];
      PrecedesTotal(a[1..], b[1..]);
    }
  }

  lemma PrecedesAsymmetric(a: string, b: string)
    requires Precedes(a, b)
    ensures !Precedes(b, a)
  {
    if Precedes(b, a) {
      PrecedesTransitive(a, b, a);
      PrecedesIrreflexive(a);
    }
  }

  /** "Not after" is transitive. */
  lemma NotAfterTransitive(a: string, b: string, c: string)
    requires !Precedes(b, a) && !Precedes(c, b)
    ensures !Precedes(c, a)
  {
    if a != b && b != c {
      PrecedesTotal(a, b);
      PrecedesTotal(b, c);
      PrecedesTransitive(a, b, c);
      PrecedesAsymmetric(a, c);
    }
  }

  /** No element is preceded by a later one. */
  ghost predicate Ordered(s: seq<string>) {
    forall i, j :: 0 <= i < j < |s| ==> !Precedes(s[j], s[i])
  }

  /** Strictly increasing: sorted and without duplicates. */
  ghost predicate Strict(s: seq<string>) {
    forall i, j :: 0 <= i < j < |s| ==> Precedes(s[i], s[j])
  }

  // ------------------------------------------------------------- sorting

  /** `x` placed before the first element it does not follow. */
  function Insert(x: string, s: seq<string>): (r: seq<string>)
    ensures multiset(r) == multiset(s) + multiset{x}
  {
    if s == [] then [x]
    else if !Precedes(s[0], x) then [x] + s
    else
      assert s == [s[0]] + s[1..];
      [s[0]] + Insert(x, s[1..])
  }

  /** Array.prototype.sort with the default comparison. */
  function Sort(xs: seq<string>): (r: seq<string>)
    ensures multiset(r) == multiset(xs)
  {
    if xs == [] then []
    else
      assert xs == [xs[0]] + xs[1..];
      Insert(xs[0], Sort(xs[1..]))
  }

  lemma {:induction false} InsertOrdered(x: string, s: seq<string>)
    requires Ordered(s)
    ensures Ordered(Insert(x, s))
  {
    if s != [] {
      var r := Insert(x, s);
      if !Precedes(s[0], x) {
        forall j | 0 < j < |r| ensures !Precedes(r[j], x) {
          assert r[j] == s[j - 1];
          PrecedesIrreflexive(s[0]);
          NotAfterTransitive(x, s[0], s[j - 1]);
        }
      } else {
        PrecedesAsymmetric(s[0], x);
        assert Ordered(s[1..]);
        InsertOrdered(x, s[1..]);
        var t := Insert(x, s[1..]);
        forall k | 0 <= k < |t| ensures !Precedes(t[k], s[0]) {
          assert t[k] in multiset(t);
          assert t[k] == x || t[k] in s[1..];
        }
        assert r == [s[0]] + t;
      }
    }
  }

  lemma {:induction false} SortOrdered(xs: seq<string>)
    ensures Ordered(Sort(xs))
  {
    if xs != [] {
      SortOrdered(xs[1..]);
      InsertOrdered(xs[0], Sort(xs[1..]));
    }
  }

  /** Sorting a list without duplicates gives a strictly increasing list
      with the same elements. */
  lemma SortStrict(xs: seq<string>)
    requires NoDuplicates(xs)
    ensures Strict(Sort(xs))
    ensures forall x :: x in Sort(xs) <==> x in xs
  {
    var r := Sort(xs);
    SortOrdered(xs);
    forall x ensures x in r <==> x in xs {
      assert x in r <==> x in multiset(r);
    }
    forall i, j | 0 <= i < j < |r| ensures Precedes(r[i], r[j]) {
      if r[i] == r[j] {
        RepeatedCount(r, i, j);
        SingleCount(xs, r[i]);
        assert false;
      }
      PrecedesTotal(r[i], r[j]);
    }
  }

  lemma RepeatedCount(s: seq<string>, i: nat, j: nat)
    requires i < j < |s| && s[i] == s[j]
    ensures multiset(s)[s[i]] >= 2
  {
    assert s == s[..i] + [s[i]] + s[i + 1..j] + [s[j]] + s[j + 1..];
  }

  lemma {:induction false} SingleCount(s: seq<string>, x: string)
    requires NoDuplicates(s)
    ensures multiset(s)[x] <= 1
  {
    if s != [] {
      assert s == [s[0]] + s[1..];
      assert NoDuplicates(s[1..]);
      SingleCount(s[1..], x);
      if x == s[0] {
        assert x !in s[1..] by {
          forall k | 0 <= k < |s[1..]| ensures s[1..][k] != s[0] {
            assert s[1..][k] == s[k + 1];
          }
        }
      }
    }
  }

  /** A strictly increasing list is fixed by its elements. */
  lemma {:induction false} StrictUnique(a: seq<string>, b: seq<string>)
    requires Strict(a) && Strict(b)
    requires forall x :: x in a <==> x in b
    ensures a == b
  {
    SameElementsEmpty(a, b);
    if a != [] {
      assert a[0] in b;
      assert b[0] in a;
      if a[0] != b[0] {
        var k :| 0 <= k < |b| && b[k] == a[0];
        var m :| 0 <= m < |a| && a[m] == b[0];
        assert Precedes(b[0], a[0]);
        assert Precedes(a[0], b[0]);
        PrecedesAsymmetric(a[0], b[0]);
      }
      StrictTail(a);
      StrictTail(b);
      StrictUnique(a[1..], b[1..]);
    }
  }

  lemma SameElementsEmpty(a: seq<string>, b: seq<string>)
    requires forall x :: x in a <==> x in b
    ensures a == [] <==> b == []
  {
    if a != [] {
      assert a[0] in a;
    }
    if b != [] {
      assert b[0] in b;
    }
  }

  lemma StrictTail(a: seq<string>)
    requires Strict(a) && a != []
    ensures Strict(a[1..])
    ensures forall x :: x in a[1..] <==> x in a && x != a[0]
  {
    forall x | x in a[1..] ensures x != a[0] {
      var k :| 0 <= k < |a[1..]| && a[1..][k] == x;
      assert Precedes(a[0], a[k + 1]);
      PrecedesIrreflexive(a[0]);
    }
    assert a == [a[0]] + a[1..];
  }

  // ----------------------------------------------------- collecting tags

  /** A Set filled in order: each element once, where it first appears. */
  function Distinct(s: seq<string>): (r: seq<string>)
    ensures NoDuplicates(r)
    ensures forall x :: x in r <==> x in s
  {
    if s == [] then []
    else
      var d := Distinct(s[..|s| - 1]);
      assert s == s[..|s| - 1] + [s[|s| - 1]];
      if s[|s| - 1] in d then d
      else
        NoDuplicatesAppend(d, [s[|s| - 1]]);
        d + [s[|s| - 1]]
  }

  /** The tags of the recipes, recipe after recipe. */
  function Flatten(tagLists: seq<seq<string>>): seq<string> {
    if tagLists == [] then []
    else Flatten(tagLists[..|tagLists| - 1]) + tagLists[|tagLists| - 1]
  }

  lemma {:induction false} FlattenMember(tagLists: seq<seq<string>>, t: string)
    ensures t in Flatten(tagLists) <==> exists tags :: tags in tagLists && t in tags
  {
    if tagLists != [] {
      var init := tagLists[..|tagLists| - 1];
      FlattenMember(init, t);
      assert tagLists == init + [tagLists[|tagLists| - 1]];
      assert forall tags :: tags in tagLists <==> tags in init || tags == tagLists[|tagLists| - 1];
    }
  }

  lemma DistinctSnoc(s: seq<string>, x: string)
    ensures Distinct(s + [x]) == if x in Distinct(s) then Distinct(s) else Distinct(s) + [x]
  {
    assert (s + [x])[..|s|] == s;
  }

  /** GET /tags: every tag of every recipe is added to a Set, and the Set
      is returned sorted. */
  method ListTags(tagLists: seq<seq<string>>) returns (tags: seq<string>)
    ensures tags == Sort(Distinct(Flatten(tagLists)))
    ensures Strict(tags)
    ensures forall t :: t in tags <==> exists recipeTags :: recipeTags in tagLists && t in recipeTags
  {
    var all: seq<string> := [];
    var i := 0;
    while i < |tagLists|
      invariant 0 <= i <= |tagLists|
      invariant all == Distinct(Flatten(tagLists[..i]))
    {
      var recipeTags := tagLists[i];
      ghost var before := Flatten(tagLists[..i]);
      var j := 0;
      assert before + recipeTags[..0] == before;
      while j < |recipeTags|
        invariant 0 <= j <= |recipeTags|
        invariant all == Distinct(before + recipeTags[..j])
      {
        var tag := recipeTags[j];
        PrefixSnoc(before, recipeTags, j);
        DistinctSnoc(before + recipeTags[..j], tag);
        if tag !in all {
          all := all + [tag];
        }
        j := j + 1;
      }
      assert tagLists[..i + 1][..i] == tagLists[..i];
      assert recipeTags[..j] == recipeTags;
      i := i + 1;
    }
    assert tagLists[..i] == tagLists;
    tags := Sort(all);
    SortStrict(all);
    forall t ensures t in tags <==> exists recipeTags :: recipeTags in tagLists && t in recipeTags {
      FlattenMember(tagLists, t);
    }
  }

  /** The tag list depends only on which tags are in use: recipes listed in
      another order, or with their tags repeated or rearranged, give the
      same response. */
  lemma TagsDependOnlyOnTagSet(a: seq<seq<string>>, b: seq<seq<string>>)
    requires forall t :: t in Flatten(a) <==> t in Flatten(b)
    ensures Sort(Distinct(Flatten(a))) == Sort(Distinct(Flatten(b)))
  {
    SortStrict(Distinct(Flatten(a)));
    SortStrict(Distinct(Flatten(b)));
    StrictUnique(Sort(Distinct(Flatten(a))), Sort(Distinct(Flatten(b))));
  }

  // ------------------------------------------------------ the categories

  /** GET /categories: the distinct categories, sorted. The database
      returns each category once; that is `Distinct` here. */
  function ListCategories(categories: seq<string>): seq<string> {
    Sort(Distinct(categories))
  }

  /** Each used category appears exactly once, in increasing order, and
      nothing else appears. */
  lemma CategoriesListed(categories: seq<string>)
    ensures Strict(ListCategories(categories))
    ensures forall c :: c in ListCategories(categories) <==> c in categories
  {
    SortStrict(Distinct(categories));
  }
}
