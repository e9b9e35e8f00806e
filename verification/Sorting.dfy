/** Sorting by a strict order, as the library sorts of the original do: the result has the members
    of the input and is in order, and only one list is and has. That uniqueness is what lets the
    proofs replace one sort by another and forget how the input was arranged, which is all that is
    needed to speak about ranks. */
module Sorting {

  /** `before` puts any two different members of `s` in one order or the other. */
  ghost predicate StrictOn<T(!new)>(before: (T, T) -> bool, s: seq<T>) {
    && (forall a | a in s :: !before(a, a))
    && (forall a, b | a in s && b in s :: a == b || before(a, b) || before(b, a))
    && (forall a, b, c | a in s && b in s && c in s :: before(a, b) && before(b, c) ==> before(a, c))
  }

  ghost predicate Sorted<T(!new)>(before: (T, T) -> bool, s: seq<T>) {
    forall i, j | 0 <= i < j < |s| :: before(s[i], s[j])
  }

  ghost predicate Distinct<T>(s: seq<T>) {
    forall i, j | 0 <= i < j < |s| :: s[i] != s[j]
  }

  function InsertInto<T>(before: (T, T) -> bool, x: T, s: seq<T>): seq<T> {
    if s == [] || before(x, s[0]) then [x] + s else [s[0]] + InsertInto(before, x, s[1..])
  }

  function Sort<T>(before: (T, T) -> bool, s: seq<T>): seq<T> {
    if s == [] then [] else InsertInto(before, s[0], Sort(before, s[1..]))
  }

  lemma {:induction false} InsertIntoMembers<T(!new)>(before: (T, T) -> bool, x: T, s: seq<T>)
    ensures |InsertInto(before, x, s)| == |s| + 1
    ensures multiset(InsertInto(before, x, s)) == multiset{x} + multiset(s)
    ensures forall y :: y in InsertInto(before, x, s) <==> y == x || y in s
  {
    if s != [] && !before(x, s[0]) {
      InsertIntoMembers(before, x, s[1..]);
      assert s == [s[0]] + s[1..];
    }
  }

  lemma {:induction false} InsertIntoSorted<T(!new)>(before: (T, T) -> bool, x: T, s: seq<T>)
    requires Sorted(before, s) && StrictOn(before, [x] + s) && x !in s
    ensures Sorted(before, InsertInto(before, x, s))
  {
    InsertIntoMembers(before, x, s);
    if s != [] {
      assert forall y | y in s :: y in [x] + s;
      assert x in [x] + s;
      if before(x, s[0]) {
        forall j | 0 <= j < |s| ensures before(x, s[j]) {
          assert s[j] in [x] + s && s[0] in [x] + s;
        }
      } else {
        var t := s[1..];
        assert forall y | y in [x] + t :: y in [x] + s;
        InsertIntoSorted(before, x, t);
        InsertIntoMembers(before, x, t);
        var r := InsertInto(before, x, t);
        forall j | 0 <= j < |r| ensures before(s[0], r[j]) {
          assert r[j] in r;
          if r[j] in t { var k :| 0 <= k < |t| && t[k] == r[j]; assert s[k + 1] == r[j]; }
        }
      }
    }
  }

  /** The sort is a permutation and, over distinct members, strictly ordered. */
  lemma {:induction false} SortSorts<T(!new)>(before: (T, T) -> bool, s: seq<T>)
    requires StrictOn(before, s) && Distinct(s)
    ensures multiset(Sort(before, s)) == multiset(s) && |Sort(before, s)| == |s|
    ensures Sorted(before, Sort(before, s))
  {
    if s != [] {
      var t := s[1..];
      assert s == [s[0]] + t;
      assert forall y | y in t :: y in s;
      SortSorts(before, t);
      var r := Sort(before, t);
      forall y | y in r ensures y in t { assert y in multiset(r); }
      assert forall y | y in [s[0]] + r :: y in s;
      InsertIntoMembers(before, s[0], r);
      InsertIntoSorted(before, s[0], r);
    }
  }

  lemma {:induction false} SortMembers<T(!new)>(before: (T, T) -> bool, s: seq<T>)
    ensures |Sort(before, s)| == |s| && multiset(Sort(before, s)) == multiset(s)
    ensures forall y :: y in Sort(before, s) <==> y in s
  {
    if s != [] {
      SortMembers(before, s[1..]);
      InsertIntoMembers(before, s[0], Sort(before, s[1..]));
      assert s == [s[0]] + s[1..];
    }
  }

  lemma SortedFirst<T(!new)>(before: (T, T) -> bool, a: seq<T>, b: seq<T>)
    requires Sorted(before, a) && Sorted(before, b) && StrictOn(before, a) && a != [] && b != []
    requires forall y :: y in a <==> y in b
    ensures a[0] == b[0]
  {
    assert a[0] in b && b[0] in a;
    var i :| 0 <= i < |b| && b[i] == a[0];
    var j :| 0 <= j < |a| && a[j] == b[0];
  }

  lemma SameMembers<T>(a: seq<T>, b: seq<T>)
    requires multiset(a) == multiset(b)
    ensures |a| == |b| && forall y :: y in a <==> y in b
  {
    assert |a| == |multiset(a)| && |b| == |multiset(b)|;
    forall y ensures y in a <==> y in b {
      assert y in a <==> y in multiset(a);
      assert y in b <==> y in multiset(b);
    }
  }

  lemma SameTails<T>(a: seq<T>, b: seq<T>)
    requires multiset(a) == multiset(b) && a != [] && b != [] && a[0] == b[0]
    ensures multiset(a[1..]) == multiset(b[1..])
  {
    assert a == [a[0]] + a[1..] && b == [b[0]] + b[1..];
    assert multiset(a[1..]) == multiset(a) - multiset{a[0]};
    assert multiset(b[1..]) == multiset(b) - multiset{b[0]};
  }

  /** One multiset has only one strictly sorted arrangement. */
  lemma {:induction false} SortedUnique<T(!new)>(before: (T, T) -> bool, a: seq<T>, b: seq<T>)
    requires Sorted(before, a) && Sorted(before, b) && StrictOn(before, a) && multiset(a) == multiset(b)
    ensures a == b
  {
    SameMembers(a, b);
    if a != [] {
      SortedFirst(before, a, b);
      SameTails(a, b);
      SortedUnique(before, a[1..], b[1..]);
    }
  }

  /** Sorting depends on the members only, not on the order they came in. */
  lemma SortInvariant<T(!new)>(before: (T, T) -> bool, a: seq<T>, b: seq<T>)
    requires StrictOn(before, a) && Distinct(a) && Distinct(b) && multiset(a) == multiset(b)
    ensures Sort(before, a) == Sort(before, b)
  {
    SameMembers(a, b);
    SortSorts(before, a);
    SortSorts(before, b);
    SortMembers(before, a);
    SortedUnique(before, Sort(before, a), Sort(before, b));
  }

  lemma {:induction false} DistinctCounts<T>(s: seq<T>, x: T)
    requires Distinct(s)
    ensures multiset(s)[x] == if x in s then 1 else 0
  {
    if s != [] {
      var n := |s| - 1;
      assert s == s[..n] + [s[n]];
      DistinctCounts(s[..n], x);
    }
  }

  /** Repetition-free sequences with the same members are rearrangements of each other. */
  lemma DistinctSame<T>(a: seq<T>, b: seq<T>)
    requires Distinct(a) && Distinct(b) && forall x :: x in a <==> x in b
    ensures multiset(a) == multiset(b)
  {
    forall x ensures multiset(a)[x] == multiset(b)[x] {
      DistinctCounts(a, x);
      DistinctCounts(b, x);
    }
  }

  lemma RearrangedDistinct<T>(a: seq<T>, b: seq<T>)
    requires Distinct(a) && multiset(a) == multiset(b)
    ensures Distinct(b)
  {
    forall i, j | 0 <= i < j < |b| ensures b[i] != b[j] {
      DistinctCounts(a, b[i]);
      assert b == b[..j] + [b[j]] + b[j + 1..];
      assert b[i] in b[..j];
    }
  }
}
