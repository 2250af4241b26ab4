/** Python's `sorted` and `list.sort`: a stable sort by a total preorder.

    The sort itself is a library call in the program, so it is a function here; what the other
    modules rely on is stated by the lemmas: the result is a sorted permutation, a second stable sort
    refines the first, and a sorted permutation is unique when ties are identical. */
module Sorting {
  import opened Sequences

  ghost predicate Total<T(!new)>(le: (T, T) -> bool) {
    forall x, y :: le(x, y) || le(y, x)
  }

  ghost predicate Transitive<T(!new)>(le: (T, T) -> bool) {
    forall x, y, z :: le(x, y) && le(y, z) ==> le(x, z)
  }

  ghost predicate Preorder<T(!new)>(le: (T, T) -> bool) {
    Total(le) && Transitive(le)
  }

  ghost predicate SortedBy<T>(s: seq<T>, le: (T, T) -> bool) {
    forall i, j :: 0 <= i < j < |s| ==> le(s[i], s[j])
  }

  /** Inserts `x` before the first element it may precede. */
  function Insert<T>(x: T, s: seq<T>, le: (T, T) -> bool): seq<T> {
    if s == [] || le(x, s[0]) then [x] + s else [s[0]] + Insert(x, s[1..], le)
  }

  function StableSort<T>(s: seq<T>, le: (T, T) -> bool): seq<T> {
    if s == [] then [] else Insert(s[0], StableSort(s[1..], le), le)
  }

  lemma {:induction false} InsertPermutes<T>(x: T, s: seq<T>, le: (T, T) -> bool)
    ensures multiset(Insert(x, s, le)) == multiset{x} + multiset(s)
  {
    if !(s == [] || le(x, s[0])) {
      InsertPermutes(x, s[1..], le);
      assert s == [s[0]] + s[1..];
    }
  }

  lemma {:induction false} StableSortPermutes<T>(s: seq<T>, le: (T, T) -> bool)
    ensures multiset(StableSort(s, le)) == multiset(s)
    ensures |StableSort(s, le)| == |s|
  {
    if s != [] {
      StableSortPermutes(s[1..], le);
      InsertPermutes(s[0], StableSort(s[1..], le), le);
      assert s == [s[0]] + s[1..];
    }
    assert |multiset(StableSort(s, le))| == |multiset(s)|;
  }

  lemma SameElements<T>(s: seq<T>, le: (T, T) -> bool)
    ensures |StableSort(s, le)| == |s|
    ensures forall x :: x in StableSort(s, le) <==> x in s
  {
    StableSortPermutes(s, le);
    forall x ensures x in StableSort(s, le) <==> x in s {
      assert x in StableSort(s, le) <==> x in multiset(StableSort(s, le));
    }
  }

  lemma StableSortNoDuplicates<T>(s: seq<T>, le: (T, T) -> bool)
    requires NoDuplicates(s)
    ensures NoDuplicates(StableSort(s, le))
  {
    StableSortPermutes(s, le);
    NoDuplicatesByMultiset(s);
    NoDuplicatesByMultiset(StableSort(s, le));
  }

  /** Ordered by `le1`, and ties of `le1` ordered by `le2`. */
  ghost predicate RefinedBy<T>(s: seq<T>, le1: (T, T) -> bool, le2: (T, T) -> bool) {
    forall i, j :: 0 <= i < j < |s| ==> Refined(le1, le2, s[i], s[j])
  }

  ghost predicate Refined<T>(le1: (T, T) -> bool, le2: (T, T) -> bool, x: T, y: T) {
    le1(x, y) && (le1(y, x) ==> le2(x, y))
  }

  lemma RefinedByPrepend<T>(x: T, s: seq<T>, le1: (T, T) -> bool, le2: (T, T) -> bool)
    requires RefinedBy(s, le1, le2)
    requires forall y :: y in s ==> Refined(le1, le2, x, y)
    ensures RefinedBy([x] + s, le1, le2)
  {
    var r := [x] + s;
    forall i, j | 0 <= i < j < |r| ensures Refined(le1, le2, r[i], r[j]) {
      if i > 0 { assert r[i] == s[i - 1]; }
      assert r[j] == s[j - 1];
    }
  }

  lemma {:induction false} InsertRefines<T(!new)>(x: T, s: seq<T>, le1: (T, T) -> bool, le2: (T, T) -> bool)
    requires Preorder(le1)
    requires forall y :: y in s ==> le2(x, y)
    requires RefinedBy(s, le1, le2)
    ensures RefinedBy(Insert(x, s, le1), le1, le2)
    ensures forall y :: y in Insert(x, s, le1) <==> y == x || y in s
  {
    if s == [] {
    } else if le1(x, s[0]) {
      forall y | y in s ensures Refined(le1, le2, x, y) {
        var k :| 0 <= k < |s| && s[k] == y;
        if k > 0 { assert Refined(le1, le2, s[0], s[k]); }
      }
      RefinedByPrepend(x, s, le1, le2);
    } else {
      var t := s[1..];
      assert s == [s[0]] + t;
      forall i, j | 0 <= i < j < |t| ensures Refined(le1, le2, t[i], t[j]) {
        assert Refined(le1, le2, s[i + 1], s[j + 1]);
      }
      InsertRefines(x, t, le1, le2);
      var r := Insert(x, t, le1);
      forall y | y in r ensures Refined(le1, le2, s[0], y) {
        if y != x {
          var k :| 0 <= k < |t| && t[k] == y;
          assert Refined(le1, le2, s[0], s[k + 1]);
        }
      }
      RefinedByPrepend(s[0], r, le1, le2);
    }
  }

  /** Sorting by `le1` a list already sorted by `le2` orders it by `le1`, ties by `le2`: what
      stability is for. */
  lemma {:induction false} StableSortRefines<T(!new)>(s: seq<T>, le1: (T, T) -> bool, le2: (T, T) -> bool)
    requires Preorder(le1)
    requires SortedBy(s, le2)
    ensures RefinedBy(StableSort(s, le1), le1, le2)
  {
    if s != [] {
      StableSortRefines(s[1..], le1, le2);
      SameElements(s[1..], le1);
      InsertRefines(s[0], StableSort(s[1..], le1), le1, le2);
    }
  }

  lemma StableSortSorts<T(!new)>(s: seq<T>, le: (T, T) -> bool)
    requires Preorder(le)
    ensures SortedBy(StableSort(s, le), le)
  {
    var any := (x: T, y: T) => true;
    StableSortRefines(s, le, any);
    var r := StableSort(s, le);
    forall i, j | 0 <= i < j < |r| ensures le(r[i], r[j]) {
      assert Refined(le, any, r[i], r[j]);
    }
  }

  lemma TailMultiset<T>(s: seq<T>)
    requires s != []
    ensures multiset(s[1..]) == multiset(s) - multiset{s[0]}
  {
    assert s == [s[0]] + s[1..];
  }

  /** Tied elements are identical. */
  ghost predicate TiesIdentical<T>(s: seq<T>, le: (T, T) -> bool) {
    forall x, y :: x in s && y in s && le(x, y) && le(y, x) ==> x == y
  }

  lemma SortedTail<T>(s: seq<T>, le: (T, T) -> bool)
    requires s != [] && SortedBy(s, le)
    ensures SortedBy(s[1..], le) && (TiesIdentical(s, le) ==> TiesIdentical(s[1..], le))
  {
    assert forall x :: x in s[1..] ==> x in s;
  }

  lemma SameTails<T>(a: seq<T>, b: seq<T>)
    requires multiset(a) == multiset(b) && a != [] && b != [] && a[0] == b[0]
    ensures multiset(a[1..]) == multiset(b[1..]) && (a[1..] == b[1..] ==> a == b)
  {
    TailMultiset(a);
    TailMultiset(b);
    assert a == [a[0]] + a[1..] && b == [b[0]] + b[1..];
  }

  lemma SameLength<T>(a: seq<T>, b: seq<T>)
    requires multiset(a) == multiset(b)
    ensures |a| == |b|
  {
    assert |multiset(a)| == |a| && |multiset(b)| == |b|;
  }

  /** A sorted permutation is unique when tied elements are identical. */
  lemma {:induction false} SortedPermutationUnique<T>(a: seq<T>, b: seq<T>, le: (T, T) -> bool)
    requires multiset(a) == multiset(b) && SortedBy(a, le) && SortedBy(b, le) && TiesIdentical(a, le)
    ensures a == b
  {
    SameLength(a, b);
    if a != [] {
      SameHead(a, b, le);
      SameTails(a, b);
      SortedTail(a, le);
      SortedTail(b, le);
      SortedPermutationUnique(a[1..], b[1..], le);
    }
  }

  lemma SameHead<T>(a: seq<T>, b: seq<T>, le: (T, T) -> bool)
    requires multiset(a) == multiset(b) && a != [] && b != []
    requires SortedBy(a, le) && SortedBy(b, le) && TiesIdentical(a, le)
    ensures a[0] == b[0]
  {
    assert a[0] in multiset(b) && b[0] in multiset(a);
    var i :| 0 <= i < |b| && b[i] == a[0];
    var j :| 0 <= j < |a| && a[j] == b[0];
    if i > 0 && j > 0 {
      assert le(a[0], a[j]) && le(b[0], b[i]);
    }
  }

  lemma {:induction false} InsertKeepsPairwise<T(!new)>(x: T, s: seq<T>, le: (T, T) -> bool, rel: (T, T) -> bool)
    requires Symmetric(rel)
    ensures Pairwise(Insert(x, s, le), rel) <==> Pairwise(s, rel) && forall y :: y in s ==> rel(x, y)
    ensures forall y :: y in Insert(x, s, le) <==> y == x || y in s
  {
    if s == [] || le(x, s[0]) {
      PairwiseCons(x, s, rel);
    } else {
      assert s == [s[0]] + s[1..];
      PairwiseCons(s[0], s[1..], rel);
      InsertKeepsPairwise(x, s[1..], le, rel);
      PairwiseCons(s[0], Insert(x, s[1..], le), rel);
    }
  }

  /** A symmetric relation holds between all pairs before sorting exactly when it does after. */
  lemma {:induction false} StableSortKeepsPairwise<T(!new)>(s: seq<T>, le: (T, T) -> bool, rel: (T, T) -> bool)
    requires Symmetric(rel)
    ensures Pairwise(StableSort(s, le), rel) <==> Pairwise(s, rel)
  {
    if s != [] {
      assert s == [s[0]] + s[1..];
      PairwiseCons(s[0], s[1..], rel);
      StableSortKeepsPairwise(s[1..], le, rel);
      SameElements(s[1..], le);
      InsertKeepsPairwise(s[0], StableSort(s[1..], le), le, rel);
    }
  }
}
