/** How old each cached relation may be: a view's limit also binds everything it reads. */
module Freshness {
  import opened EngineLineage
  import opened Graphs
  import opened Relations
  import opened Sets

  type Ages = map<string, nat>

  // ---- The relations a query needs ----

  ghost predicate NeededBy(m: Content, roots: set<string>, n: string) {
    exists r :: r in roots && Reaches(ViewGraph(m), r, n)
  }

  ghost predicate AllNeeded(m: Content, roots: set<string>, names: set<string>) {
    forall n | n in names :: NeededBy(m, roots, n)
  }

  lemma NeededStep(m: Content, roots: set<string>, n: string, d: string)
    requires NeededBy(m, roots, n) && d in Deps(ViewGraph(m), n)
    ensures NeededBy(m, roots, d)
  {
    var r :| r in roots && Reaches(ViewGraph(m), r, n);
    ReachesStep(ViewGraph(m), r, n, d);
  }

  ghost predicate Closed(m: Content, names: set<string>) {
    forall n, d | n in names && d in Deps(ViewGraph(m), n) :: d in names
  }

  lemma {:induction false} ClosedHoldsWalk(m: Content, names: set<string>, p: seq<string>)
    requires Closed(m, names) && IsWalk(ViewGraph(m), p) && p[0] in names
    ensures p[|p| - 1] in names
  {
    if |p| > 1 {
      assert p[1] in Deps(ViewGraph(m), p[0]);
      ClosedHoldsWalk(m, names, p[1..]);
    }
  }

  lemma ClosedIsAll(m: Content, roots: set<string>, names: set<string>)
    requires Closed(m, names) && roots <= names && AllNeeded(m, roots, names)
    ensures forall n :: n in names <==> NeededBy(m, roots, n)
  {
    forall n | NeededBy(m, roots, n) ensures n in names {
      var r :| r in roots && Reaches(ViewGraph(m), r, n);
      var p :| IsWalk(ViewGraph(m), p) && p[0] == r && p[|p| - 1] == n;
      ClosedHoldsWalk(m, names, p);
    }
  }

  /** One sweep over a copy of the set, adding the dependencies of every view in it. */
  method Sweep(m: Content, names: set<string>) returns (grown: set<string>)
    ensures names <= grown
    ensures forall n, d | n in names && d in Deps(ViewGraph(m), n) :: d in grown
    ensures forall d | d in grown :: d in names || exists n :: n in names && d in Deps(ViewGraph(m), n)
  {
    grown := names;
    var todo := names;
    while todo != {}
      invariant todo <= names <= grown
      invariant forall n, d | n in names - todo && d in Deps(ViewGraph(m), n) :: d in grown
      invariant forall d | d in grown :: d in names || exists n :: n in names && d in Deps(ViewGraph(m), n)
    {
      var n :| n in todo;
      if n in m && m[n].kind.View? { grown := grown + set d | d in m[n].kind.dependencies; }
      todo := todo - {n};
    }
  }

  lemma SweptNeeded(m: Content, rank: map<string, nat>, roots: set<string>, before: set<string>, d: string)
    requires Layered(m, rank) && AllNeeded(m, roots, before) && before <= roots + m.Keys
    requires d in before || exists n :: n in before && d in Deps(ViewGraph(m), n)
    ensures NeededBy(m, roots, d) && d in roots + m.Keys
  {
    if d !in before {
      var n :| n in before && d in Deps(ViewGraph(m), n);
      NeededStep(m, roots, n, d);
    }
  }

  lemma SweepNeeded(m: Content, rank: map<string, nat>, roots: set<string>, before: set<string>, grown: set<string>)
    requires Layered(m, rank) && AllNeeded(m, roots, before) && before <= roots + m.Keys
    requires forall d | d in grown :: d in before || exists n :: n in before && d in Deps(ViewGraph(m), n)
    ensures AllNeeded(m, roots, grown) && grown <= roots + m.Keys
  {
    forall d | d in grown ensures NeededBy(m, roots, d) && d in roots + m.Keys { SweptNeeded(m, rank, roots, before, d); }
  }

  lemma RootsNeeded(m: Content, roots: set<string>)
    ensures AllNeeded(m, roots, roots)
  {
    forall n | n in roots ensures NeededBy(m, roots, n) { ReachesSelf(ViewGraph(m), n); }
  }

  lemma Grew(a: set<string>, b: set<string>, all: set<string>)
    requires a <= b <= all && a != b
    ensures all - b < all - a
  {
    var x :| x in b && x !in a;
    assert x in all - a && x !in all - b;
  }

  /** Grows the set until its size stops changing. */
  method Needed(m: Content, roots: set<string>, ghost rank: map<string, nat>) returns (needed: set<string>)
    requires Layered(m, rank)
    ensures forall n :: n in needed <==> NeededBy(m, roots, n)
    ensures Closed(m, needed)
  {
    needed := roots;
    RootsNeeded(m, roots);
    while true
      invariant roots <= needed && AllNeeded(m, roots, needed) && needed <= roots + m.Keys
      decreases roots + m.Keys - needed
    {
      var before := needed;
      needed := Sweep(m, before);
      SweepNeeded(m, rank, roots, before, needed);
      if |before| == |needed| {
        SameSize(before, needed);
        ClosedIsAll(m, roots, needed);
        return;
      }
      Grew(before, needed, roots + m.Keys);
    }
  }

  // ---- The age each of them may have ----

  /** `n` is policied, needed, and reads `x`. */
  ghost predicate Binds(m: Content, limits: Ages, n: string, x: string) {
    n in limits && Reaches(ViewGraph(m), n, x)
  }

  /** Each age comes from some limit that binds the relation. */
  ghost predicate Justified(m: Content, limits: Ages, ages: Ages) {
    forall x | x in ages :: Limits(m, limits, x, ages[x])
  }

  /** Ages only ever appear and fall. */
  predicate AtMost(a: Ages, b: Ages) {
    forall x | x in b :: x in a && a[x] <= b[x]
  }

  ghost predicate Limits(m: Content, limits: Ages, x: string, age: nat) {
    exists n :: Binds(m, limits, n, x) && limits[n] == age
  }

  ghost predicate Below(m: Content, limits: Ages, ages: Ages, x: string) {
    forall n | Binds(m, limits, n, x) :: x in ages && ages[x] <= limits[n]
  }

  /** The strictest limit among those that bind `x`, and none when nothing binds it. */
  ghost predicate IsStrictest(m: Content, limits: Ages, ages: Ages, x: string) {
    && Below(m, limits, ages, x)
    && (x in ages ==> Limits(m, limits, x, ages[x]))
  }

  ghost predicate Settled(m: Content, ages: Ages) {
    forall n, d | n in ages && d in Deps(ViewGraph(m), n) :: d in ages && ages[d] <= ages[n]
  }

  lemma {:induction false} SettledAlongWalk(m: Content, ages: Ages, p: seq<string>)
    requires Settled(m, ages) && IsWalk(ViewGraph(m), p) && p[0] in ages
    ensures p[|p| - 1] in ages && ages[p[|p| - 1]] <= ages[p[0]]
  {
    if |p| > 1 {
      assert p[1] in Deps(ViewGraph(m), p[0]);
      SettledAlongWalk(m, ages, p[1..]);
    }
  }

  lemma SettledBelow(m: Content, limits: Ages, ages: Ages, n: string, x: string)
    requires Settled(m, ages) && AtMost(ages, limits) && Binds(m, limits, n, x)
    ensures x in ages && ages[x] <= limits[n]
  {
    var p :| IsWalk(ViewGraph(m), p) && p[0] == n && p[|p| - 1] == x;
    SettledAlongWalk(m, ages, p);
  }

  lemma SettledIsBelow(m: Content, limits: Ages, ages: Ages, x: string)
    requires Settled(m, ages) && AtMost(ages, limits)
    ensures Below(m, limits, ages, x)
  {
    forall n | Binds(m, limits, n, x) ensures x in ages && ages[x] <= limits[n] {
      SettledBelow(m, limits, ages, n, x);
    }
  }

  /** What every age still to fall, or to appear, adds up to. */
  ghost function Slack(names: set<string>, ages: Ages, top: nat): nat {
    if names == {} then 0
    else
      var x :| x in names;
      (if x in ages && ages[x] <= top then ages[x] else top + 1) + Slack(names - {x}, ages, top)
  }

  ghost function SlackOf(ages: Ages, top: nat, x: string): nat {
    if x in ages && ages[x] <= top then ages[x] else top + 1
  }

  lemma {:induction false} SlackSplit(names: set<string>, ages: Ages, top: nat, x: string)
    requires x in names
    ensures Slack(names, ages, top) == SlackOf(ages, top, x) + Slack(names - {x}, ages, top)
  {
    var y :| y in names && Slack(names, ages, top) == SlackOf(ages, top, y) + Slack(names - {y}, ages, top);
    if y != x {
      SlackSplit(names - {y}, ages, top, x);
      SlackSplit(names - {x}, ages, top, y);
      assert names - {y} - {x} == names - {x} - {y};
    }
  }

  lemma {:induction false} SlackFalls(names: set<string>, a: Ages, b: Ages, top: nat)
    requires AtMost(a, b)
    ensures Slack(names, a, top) <= Slack(names, b, top)
    ensures (exists x :: x in names && SlackOf(a, top, x) < SlackOf(b, top, x)) ==> Slack(names, a, top) < Slack(names, b, top)
  {
    if x :| x in names && SlackOf(a, top, x) < SlackOf(b, top, x) {
      SlackSplit(names, a, top, x);
      SlackSplit(names, b, top, x);
      SlackFalls(names - {x}, a, b, top);
    } else if x :| x in names {
      SlackSplit(names, a, top, x);
      SlackSplit(names, b, top, x);
      SlackFalls(names - {x}, a, b, top);
    }
  }

  function Lowered(ages: Ages, d: string, age: nat): Ages {
    ages[d := if d in ages && ages[d] <= age then ages[d] else age]
  }

  lemma LoweredJustified(m: Content, limits: Ages, ages: Ages, n: string, d: string, age: nat)
    requires Justified(m, limits, ages) && d in Deps(ViewGraph(m), n)
    requires Limits(m, limits, n, age)
    ensures Justified(m, limits, Lowered(ages, d, age))
  {
    var k :| Binds(m, limits, k, n) && limits[k] == age;
    ReachesStep(ViewGraph(m), k, n, d);
    assert Binds(m, limits, k, d);
  }

  ghost predicate Passed(m: Content, ages: Ages, n: string, age: nat) {
    forall d | d in Deps(ViewGraph(m), n) :: d in ages && ages[d] <= age
  }

  /** Passes one age on to the relations a view reads. */
  method PassOn(m: Content, ghost limits: Ages, ghost names: set<string>, n: string, age: nat, ages: Ages) returns (lower: Ages)
    requires Justified(m, limits, ages) && Closed(m, names) && ages.Keys <= names && n in names
    requires Limits(m, limits, n, age)
    ensures AtMost(lower, ages) && Justified(m, limits, lower) && lower.Keys <= names
    ensures Passed(m, lower, n, age)
  {
    lower := ages;
    if n !in m || !m[n].kind.View? { return; }
    var list := m[n].kind.dependencies;
    for i := 0 to |list|
      invariant AtMost(lower, ages) && Justified(m, limits, lower) && lower.Keys <= names
      invariant forall d | d in list[..i] :: d in lower && lower[d] <= age
    {
      assert list[i] in Deps(ViewGraph(m), n);
      LoweredJustified(m, limits, lower, n, list[i], age);
      lower := Lowered(lower, list[i], age);
    }
    assert list[..|list|] == list;
  }

  lemma PassedKept(m: Content, a: Ages, b: Ages, n: string, age: nat)
    requires AtMost(a, b) && Passed(m, b, n, age)
    ensures Passed(m, a, n, age)
  {
  }

  /** One round: every age of the previous round is passed on once. */
  method Round(m: Content, ghost limits: Ages, ghost names: set<string>, previous: Ages) returns (ages: Ages)
    requires Justified(m, limits, previous) && Closed(m, names) && previous.Keys <= names
    ensures AtMost(ages, previous) && Justified(m, limits, ages) && ages.Keys <= names
    ensures forall n | n in previous :: Passed(m, ages, n, previous[n])
  {
    ages := previous;
    var todo := previous.Keys;
    while todo != {}
      invariant todo <= previous.Keys
      invariant AtMost(ages, previous) && Justified(m, limits, ages) && ages.Keys <= names
      invariant forall n | n in previous && n !in todo :: Passed(m, ages, n, previous[n])
    {
      var n :| n in todo;
      var before := ages;
      ages := PassOn(m, limits, names, n, previous[n], ages);
      forall k | k in previous && k !in todo ensures Passed(m, ages, k, previous[k]) { PassedKept(m, ages, before, k, previous[k]); }
      todo := todo - {n};
    }
  }

  lemma RoundFalls(names: set<string>, a: Ages, b: Ages, top: nat)
    requires AtMost(a, b) && a.Keys <= names && a != b && forall x | x in a :: a[x] <= top
    ensures Slack(names, a, top) < Slack(names, b, top)
  {
    if a.Keys == b.Keys {
      var x :| x in a && x in b && a[x] != b[x];
      assert SlackOf(a, top, x) < SlackOf(b, top, x);
    } else {
      var x :| x in a && x !in b;
      assert SlackOf(a, top, x) < SlackOf(b, top, x);
    }
    SlackFalls(names, a, b, top);
  }

  lemma JustifiedBelow(m: Content, limits: Ages, ages: Ages, top: nat)
    requires Justified(m, limits, ages) && forall n | n in limits :: limits[n] <= top
    ensures forall x | x in ages :: ages[x] <= top
  {
    forall x | x in ages ensures ages[x] <= top {
      var n :| Binds(m, limits, n, x) && limits[n] == ages[x];
    }
  }

  lemma LimitsJustified(m: Content, limits: Ages)
    ensures Justified(m, limits, limits)
  {
    forall x | x in limits ensures Binds(m, limits, x, x) { ReachesSelf(ViewGraph(m), x); }
  }

  lemma StillIsStrictest(m: Content, limits: Ages, ages: Ages)
    requires Justified(m, limits, ages) && AtMost(ages, limits)
    requires forall n | n in ages :: Passed(m, ages, n, ages[n])
    ensures forall x :: IsStrictest(m, limits, ages, x)
  {
    assert Settled(m, ages);
    forall x ensures IsStrictest(m, limits, ages, x) { SettledIsBelow(m, limits, ages, x); }
  }

  /** The sum of some limits, which none of them exceeds. */
  ghost function Top(names: set<string>, limits: Ages): nat
    requires names <= limits.Keys
  {
    if names == {} then 0
    else
      var n :| n in names;
      limits[n] + Top(names - {n}, limits)
  }

  lemma {:induction false} TopExceeds(names: set<string>, limits: Ages, n: string)
    requires n in names && names <= limits.Keys
    ensures limits[n] <= Top(names, limits)
  {
    var k :| k in names && Top(names, limits) == limits[k] + Top(names - {k}, limits);
    var rest: nat := Top(names - {k}, limits);
    if k != n { TopExceeds(names - {k}, limits, n); }
  }

  lemma RoundShrinks(m: Content, limits: Ages, names: set<string>, a: Ages, b: Ages)
    requires AtMost(a, b) && a.Keys <= names && a != b && Justified(m, limits, a)
    ensures Slack(names, a, Top(limits.Keys, limits)) < Slack(names, b, Top(limits.Keys, limits))
  {
    forall n | n in limits ensures limits[n] <= Top(limits.Keys, limits) { TopExceeds(limits.Keys, limits, n); }
    JustifiedBelow(m, limits, a, Top(limits.Keys, limits));
    RoundFalls(names, a, b, Top(limits.Keys, limits));
  }

  /** Repeats until nothing changes; then every relation has the strictest age that binds it. */
  method AllowedAges(m: Content, names: set<string>, limits: Ages) returns (ages: Ages)
    requires Closed(m, names) && limits.Keys <= names
    ensures forall x :: IsStrictest(m, limits, ages, x)
  {
    ages := limits;
    LimitsJustified(m, limits);
    while true
      invariant AtMost(ages, limits) && Justified(m, limits, ages) && ages.Keys <= names
      decreases Slack(names, ages, Top(limits.Keys, limits))
    {
      var previous := ages;
      ages := Round(m, limits, names, previous);
      if previous == ages {
        StillIsStrictest(m, limits, ages);
        return;
      }
      RoundShrinks(m, limits, names, ages, previous);
    }
  }
}
