/** Lists read as bags: two lists are alike when one rearranges the other. Mapping and flattening
    respect any rearrangement of their inputs, which is what makes it meaningful to say that a query
    returns the rows of a plan without saying in which order. Nothing here depends on what a row is,
    and filters and joins are flattenings. */
module RowBags {

  function Map<A, B>(f: A -> B, s: seq<A>): (r: seq<B>)
    ensures |r| == |s| && forall i | 0 <= i < |s| :: r[i] == f(s[i])
  {
    if s == [] then [] else [f(s[0])] + Map(f, s[1..])
  }

  function FlatMap<A, B>(f: A -> seq<B>, s: seq<A>): seq<B> {
    if s == [] then [] else f(s[0]) + FlatMap(f, s[1..])
  }

  ghost predicate SameBag<A>(a: seq<A>, b: seq<A>) {
    multiset(a) == multiset(b)
  }

  lemma SameBagMembers<A>(a: seq<A>, b: seq<A>)
    requires SameBag(a, b)
    ensures |a| == |b| && forall x :: x in a <==> x in b
  {
    assert |a| == |multiset(a)| && |b| == |multiset(b)|;
    forall x ensures x in a <==> x in b {
      assert x in a <==> x in multiset(a);
      assert x in b <==> x in multiset(b);
    }
  }

  lemma {:induction false} FlatMapConcat<A, B>(f: A -> seq<B>, a: seq<A>, b: seq<A>)
    ensures FlatMap(f, a + b) == FlatMap(f, a) + FlatMap(f, b)
  {
    if a == [] {
      assert a + b == b;
    } else {
      assert (a + b)[1..] == a[1..] + b;
      FlatMapConcat(f, a[1..], b);
    }
  }

  /** Taking one element out takes its images out. */
  lemma FlatMapWithout<A, B>(f: A -> seq<B>, s: seq<A>, k: nat)
    requires k < |s|
    ensures multiset(FlatMap(f, s)) == multiset(f(s[k])) + multiset(FlatMap(f, s[..k] + s[k + 1..]))
  {
    assert s == s[..k] + ([s[k]] + s[k + 1..]);
    FlatMapConcat(f, s[..k], [s[k]] + s[k + 1..]);
    FlatMapConcat(f, [s[k]], s[k + 1..]);
    FlatMapConcat(f, s[..k], s[k + 1..]);
    assert FlatMap(f, [s[k]]) == f(s[k]);
  }

  lemma TakeOut<A>(s: seq<A>, x: A) returns (rest: seq<A>)
    requires x in s
    ensures SameBag([x] + rest, s)
  {
    var k :| 0 <= k < |s| && s[k] == x;
    rest := s[..k] + s[k + 1..];
    assert s == s[..k] + ([x] + s[k + 1..]);
  }

  lemma WithoutSameBag<A>(a: seq<A>, b: seq<A>) returns (k: nat)
    requires SameBag(a, b) && a != []
    ensures k < |b| && b[k] == a[0] && SameBag(a[1..], b[..k] + b[k + 1..])
  {
    SameBagMembers(a, b);
    assert a[0] in b;
    k :| 0 <= k < |b| && b[k] == a[0];
    assert a == [a[0]] + a[1..];
    assert b == b[..k] + ([b[k]] + b[k + 1..]);
    assert multiset(b[..k] + b[k + 1..]) == multiset(b) - multiset{b[k]};
    assert multiset(a[1..]) == multiset(a) - multiset{a[0]};
  }

  lemma {:induction false} FlatMapBag<A, B>(f: A -> seq<B>, a: seq<A>, b: seq<A>)
    requires SameBag(a, b)
    ensures SameBag(FlatMap(f, a), FlatMap(f, b))
  {
    if a == [] {
      SameBagMembers(a, b);
    } else {
      var k := WithoutSameBag(a, b);
      FlatMapBag(f, a[1..], b[..k] + b[k + 1..]);
      FlatMapWithout(f, b, k);
    }
  }

  lemma {:induction false} FlatMapAgrees<A, B, C>(f: A -> seq<B>, out: B -> C, encode: A -> A, g: A -> seq<C>, s: seq<A>)
    requires forall x | x in s :: SameBag(g(encode(x)), Map(out, f(x)))
    ensures SameBag(FlatMap(g, Map(encode, s)), Map(out, FlatMap(f, s)))
  {
    if s != [] {
      forall x | x in s[1..] ensures x in s {}
      FlatMapAgrees(f, out, encode, g, s[1..]);
      MapConcat(out, f(s[0]), FlatMap(f, s[1..]));
      assert s[0] in s;
    }
  }

  lemma {:induction false} MapConcat<A, B>(f: A -> B, a: seq<A>, b: seq<A>)
    ensures Map(f, a + b) == Map(f, a) + Map(f, b)
  {
  }

  /** A remote operator `g`, seeing encoded rows in any order, does what the local
    * operator `f` does when it agrees with `f` on every single row. */
  lemma FlatMapSimulates<A, B, C>(f: A -> seq<B>, out: B -> C, encode: A -> A, g: A -> seq<C>, s: seq<A>, remote: seq<A>)
    requires SameBag(remote, Map(encode, s))
    requires forall x | x in s :: SameBag(g(encode(x)), Map(out, f(x)))
    ensures SameBag(FlatMap(g, remote), Map(out, FlatMap(f, s)))
  {
    FlatMapBag(g, remote, Map(encode, s));
    FlatMapAgrees(f, out, encode, g, s);
  }

  lemma {:induction false} MapFlat<A, B>(f: A -> B, s: seq<A>)
    ensures Map(f, s) == FlatMap(x => [f(x)], s)
  {
    if s != [] { MapFlat(f, s[1..]); }
  }

  lemma MapBag<A, B>(f: A -> B, a: seq<A>, b: seq<A>)
    requires SameBag(a, b)
    ensures SameBag(Map(f, a), Map(f, b))
  {
    MapFlat(f, a);
    MapFlat(f, b);
    FlatMapBag(x => [f(x)], a, b);
  }
}
