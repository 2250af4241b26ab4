/** Facts about sequences that several components use: filtering, absence of duplicates, relations
    between all pairs of elements. */
module Sequences {

  /** The elements that pass a test, in order. */
  function Select<T(!new)>(s: seq<T>, keep: T -> bool): (r: seq<T>)
    ensures forall x :: x in r <==> x in s && keep(x)
    ensures |r| <= |s|
  {
    if s == [] then []
    else
      assert s == [s[0]] + s[1..];
      (if keep(s[0]) then [s[0]] else []) + Select(s[1..], keep)
  }

  lemma {:induction false} SelectAll<T(!new)>(s: seq<T>, keep: T -> bool)
    requires forall x :: x in s ==> keep(x)
    ensures Select(s, keep) == s
  {
    if s != [] {
      assert s == [s[0]] + s[1..];
      SelectAll(s[1..], keep);
    }
  }

  /** The positions of the elements that pass a test. */
  ghost function Hits<T(!new)>(s: seq<T>, keep: T -> bool): set<int> {
    set i | 0 <= i < |s| && keep(s[i])
  }

  lemma {:induction false} SelectAppend<T(!new)>(a: seq<T>, b: seq<T>, keep: T -> bool)
    ensures Select(a + b, keep) == Select(a, keep) + Select(b, keep)
  {
    if a == [] {
      assert a + b == b;
    } else {
      assert (a + b)[1..] == a[1..] + b;
      SelectAppend(a[1..], b, keep);
    }
  }

  lemma SelectLast<T(!new)>(s: seq<T>, x: T, keep: T -> bool)
    ensures Select(s + [x], keep) == Select(s, keep) + if keep(x) then [x] else []
  {
    SelectAppend(s, [x], keep);
    assert Select([x][1..], keep) == [];
  }

  lemma HitsLast<T(!new)>(s: seq<T>, x: T, keep: T -> bool)
    ensures |Hits(s + [x], keep)| == |Hits(s, keep)| + if keep(x) then 1 else 0
  {
    assert Hits(s + [x], keep) == Hits(s, keep) + if keep(x) then {|s|} else {};
  }

  lemma {:induction false} SelectCounts<T(!new)>(s: seq<T>, keep: T -> bool)
    ensures |Select(s, keep)| == |Hits(s, keep)|
  {
    if s == [] {
      assert Hits(s, keep) == {};
    } else {
      var t, x := s[..|s| - 1], s[|s| - 1];
      assert s == t + [x];
      SelectCounts(t, keep);
      SelectLast(t, x, keep);
      HitsLast(t, x, keep);
    }
  }

  /** The first element that passes comes first. */
  lemma {:induction false} SelectFirst<T(!new)>(s: seq<T>, keep: T -> bool)
    ensures Select(s, keep) == [] <==> forall i :: 0 <= i < |s| ==> !keep(s[i])
    ensures forall i :: 0 <= i < |s| && keep(s[i]) && (forall j :: 0 <= j < i ==> !keep(s[j])) ==>
      Select(s, keep) != [] && Select(s, keep)[0] == s[i]
  {
    if s != [] {
      var t := s[1..];
      assert s == [s[0]] + t;
      SelectFirst(t, keep);
      forall i | 0 <= i < |s| && keep(s[i]) && (forall j :: 0 <= j < i ==> !keep(s[j]))
        ensures Select(s, keep) != [] && Select(s, keep)[0] == s[i]
      {
        if i > 0 {
          assert forall j :: 0 <= j < i - 1 ==> t[j] == s[j + 1];
          assert t[i - 1] == s[i] && Select(t, keep) != [];
        }
      }
    }
  }

  lemma {:induction false} SelectNone<T(!new)>(s: seq<T>, keep: T -> bool)
    requires forall x :: x in s ==> !keep(x)
    ensures Select(s, keep) == []
  {
    if s != [] {
      assert s == [s[0]] + s[1..];
      SelectNone(s[1..], keep);
    }
  }

  ghost predicate NoDuplicates<T>(s: seq<T>) {
    forall i, j :: 0 <= i < j < |s| ==> s[i] != s[j]
  }

  lemma NoDuplicatesCons<T>(x: T, s: seq<T>)
    ensures NoDuplicates([x] + s) <==> NoDuplicates(s) && x !in s
  {
    var r := [x] + s;
    assert forall i :: 0 <= i < |s| ==> r[i + 1] == s[i];
    if NoDuplicates(r) {
      forall i, j | 0 <= i < j < |s| ensures s[i] != s[j] { assert r[i + 1] != r[j + 1]; }
      forall y | y in s ensures y != x {
        var k :| 0 <= k < |s| && s[k] == y;
        assert r[0] != r[k + 1];
      }
    }
  }

  lemma NoDuplicatesAppend<T>(a: seq<T>, b: seq<T>)
    requires NoDuplicates(a) && NoDuplicates(b) && forall x :: x in a ==> x !in b
    ensures NoDuplicates(a + b)
  {
    var r := a + b;
    forall i, j | 0 <= i < j < |r| ensures r[i] != r[j] {
      if i < |a| <= j { assert r[i] in a && r[j] in b; }
    }
  }

  lemma NoDuplicatesByMultiset<T>(s: seq<T>)
    ensures NoDuplicates(s) <==> forall x :: multiset(s)[x] <= 1
  {
    if NoDuplicates(s) {
      forall x ensures multiset(s)[x] <= 1 { AtMostOnce(s, x); }
    } else {
      var i, j :| 0 <= i < j < |s| && s[i] == s[j];
      assert s == s[..j] + s[j..];
      assert s[i] == s[..j][i] && s[j] == s[j..][0];
      assert s[i] in multiset(s[..j]) && s[i] in multiset(s[j..]);
      assert multiset(s)[s[i]] >= 2;
    }
  }

  lemma {:induction false} AtMostOnce<T>(s: seq<T>, x: T)
    requires NoDuplicates(s)
    ensures multiset(s)[x] <= 1
  {
    if s != [] {
      AtMostOnce(s[1..], x);
      assert s == [s[0]] + s[1..];
      if s[0] == x { assert x !in s[1..]; }
    }
  }

  /** Lists without duplicates and with the same members are permutations of each other. */
  lemma SameMembersSameMultiset<T>(a: seq<T>, b: seq<T>)
    requires NoDuplicates(a) && NoDuplicates(b)
    requires forall x :: x in a <==> x in b
    ensures multiset(a) == multiset(b)
  {
    NoDuplicatesByMultiset(a);
    NoDuplicatesByMultiset(b);
    forall x ensures multiset(a)[x] == multiset(b)[x] {
      assert x in multiset(a) <==> x in a;
      assert x in multiset(b) <==> x in b;
    }
  }

  ghost predicate Pairwise<T>(s: seq<T>, rel: (T, T) -> bool) {
    forall i, j :: 0 <= i < j < |s| ==> rel(s[i], s[j])
  }

  ghost predicate Symmetric<T(!new)>(rel: (T, T) -> bool) {
    forall x, y :: rel(x, y) ==> rel(y, x)
  }

  lemma PairwiseCons<T>(x: T, s: seq<T>, rel: (T, T) -> bool)
    ensures Pairwise([x] + s, rel) <==> Pairwise(s, rel) && forall y :: y in s ==> rel(x, y)
  {
    var r := [x] + s;
    assert forall i :: 0 <= i < |s| ==> r[i + 1] == s[i];
    if Pairwise(r, rel) {
      forall i, j | 0 <= i < j < |s| ensures rel(s[i], s[j]) { assert rel(r[i + 1], r[j + 1]); }
      forall y | y in s ensures rel(x, y) {
        var k :| 0 <= k < |s| && s[k] == y;
        assert rel(r[0], r[k + 1]);
      }
    }
  }

  lemma PairwiseAppend<T>(a: seq<T>, b: seq<T>, rel: (T, T) -> bool)
    requires Pairwise(a, rel) && Pairwise(b, rel) && forall x, y :: x in a && y in b ==> rel(x, y)
    ensures Pairwise(a + b, rel)
  {
    var r := a + b;
    forall i, j | 0 <= i < j < |r| ensures rel(r[i], r[j]) {
      if j < |a| {
        assert rel(a[i], a[j]);
      } else if i < |a| {
        assert r[i] in a && r[j] in b;
      } else {
        assert rel(b[i - |a|], b[j - |a|]);
      }
    }
  }

  lemma PairwiseSplit<T>(a: seq<T>, b: seq<T>, rel: (T, T) -> bool)
    requires forall x, y :: x in a && y in b ==> rel(x, y)
    ensures Pairwise(a + b, rel) <==> Pairwise(a, rel) && Pairwise(b, rel)
  {
    var r := a + b;
    if Pairwise(r, rel) {
      forall i, j | 0 <= i < j < |a| ensures rel(a[i], a[j]) { assert rel(r[i], r[j]); }
      forall i, j | 0 <= i < j < |b| ensures rel(b[i], b[j]) { assert rel(r[i + |a|], r[j + |a|]); }
    } else if Pairwise(a, rel) && Pairwise(b, rel) {
      PairwiseAppend(a, b, rel);
    }
  }

  lemma ConcatAssociates<T>(a: seq<T>, b: seq<T>, c: seq<T>)
    ensures a + (b + c) == (a + b) + c
  {}
}
