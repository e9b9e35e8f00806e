/** Dependency graphs: walks, cycles, and the two certificates about them that the
    graph algorithms produce (a dependency-first order, or a set in which everyone waits). */
module Graphs {

  /** Each node with what it depends on. Names outside the domain depend on nothing. */
  type Graph = map<string, set<string>>

  function Deps(g: Graph, n: string): set<string> {
    if n in g then g[n] else {}
  }

  /** `p` follows dependencies from its first to its last node. */
  ghost predicate IsWalk(g: Graph, p: seq<string>) {
    |p| >= 1 && forall i | 0 <= i < |p| - 1 :: p[i + 1] in Deps(g, p[i])
  }

  ghost predicate IsCycle(g: Graph, p: seq<string>) {
    IsWalk(g, p) && |p| >= 2 && p[0] == p[|p| - 1]
  }

  ghost predicate HasCycle(g: Graph) {
    exists p :: IsCycle(g, p)
  }

  /** Following dependencies from `n` one can get into a cycle. */
  ghost predicate EndsInCycle(g: Graph, n: string) {
    exists p :: IsCycle(g, p) && Reaches(g, n, p[0])
  }

  ghost predicate Reaches(g: Graph, a: string, b: string) {
    exists p :: IsWalk(g, p) && p[0] == a && p[|p| - 1] == b
  }

  /** Every ranked node depends only on nodes of lower rank. */
  ghost predicate Ranked(g: Graph, rank: map<string, nat>) {
    forall n | n in rank :: forall d | d in Deps(g, n) :: d in rank && rank[d] < rank[n]
  }

  /** A node whose dependencies are all ranked may be ranked next. */
  lemma RankNext(g: Graph, rank: map<string, nat>, round: nat, name: string)
    requires Ranked(g, rank) && (forall n | n in rank :: rank[n] < round)
    requires name !in rank && Deps(g, name) <= rank.Keys
    ensures Ranked(g, rank[name := round]) && rank[name := round].Keys == rank.Keys + {name}
  {
  }

  lemma {:induction false} WalkDescends(g: Graph, rank: map<string, nat>, p: seq<string>)
    requires Ranked(g, rank) && IsWalk(g, p) && |p| >= 2 && p[0] in rank
    ensures p[|p| - 1] in rank && rank[p[|p| - 1]] < rank[p[0]]
  {
    assert p[1] in Deps(g, p[0]);
    if |p| > 2 { WalkDescends(g, rank, p[1..]); }
  }

  /** A cycle never passes through a ranked node. */
  lemma {:induction false} CycleAvoidsRanked(g: Graph, rank: map<string, nat>, p: seq<string>, i: nat)
    requires Ranked(g, rank) && IsCycle(g, p) && i < |p|
    ensures p[i] !in rank
  {
    if p[i] in rank {
      if i < |p| - 1 { WalkDescends(g, rank, p[i..]); }
      WalkDescends(g, rank, p);
    }
  }

  lemma FullyRankedIsAcyclic(g: Graph, rank: map<string, nat>)
    requires Ranked(g, rank) && g.Keys <= rank.Keys
    ensures !HasCycle(g)
  {
    if HasCycle(g) {
      var p :| IsCycle(g, p);
      assert p[1] in Deps(g, p[0]);
      CycleAvoidsRanked(g, rank, p, 0);
    }
  }

  /** Walking inside a finite set where every node still waits for another must meet itself.
      `unseen` holds the waiting nodes the walk has not visited. */
  lemma {:induction false} WalkMeetsItself(g: Graph, waiting: set<string>, p: seq<string>, unseen: set<string>)
    requires forall n | n in waiting :: Deps(g, n) * waiting != {}
    requires IsWalk(g, p) && p[|p| - 1] in waiting && forall n | n in waiting :: n in p || n in unseen
    ensures EndsInCycle(g, p[0])
    decreases unseen
  {
    var d :| d in Deps(g, p[|p| - 1]) * waiting;
    var q := p + [d];
    assert IsWalk(g, q);
    if d in p {
      var i :| 0 <= i < |p| && p[i] == d;
      assert IsCycle(g, q[i..]) && IsWalk(g, q[..i + 1]);
    } else {
      WalkMeetsItself(g, waiting, q, unseen - {d});
    }
  }

  lemma WaitingHasCycle(g: Graph, waiting: set<string>)
    requires waiting != {} && forall n | n in waiting :: Deps(g, n) * waiting != {}
    ensures HasCycle(g) && forall n | n in waiting :: EndsInCycle(g, n)
  {
    forall n | n in waiting ensures EndsInCycle(g, n) { WalkMeetsItself(g, waiting, [n], waiting); }
    var n :| n in waiting;
    var p :| IsCycle(g, p) && Reaches(g, n, p[0]);
  }

  lemma RankedEndsNowhere(g: Graph, rank: map<string, nat>, n: string)
    requires Ranked(g, rank) && n in rank
    ensures !EndsInCycle(g, n)
  {
    if p :| IsCycle(g, p) && Reaches(g, n, p[0]) {
      var q :| IsWalk(g, q) && q[0] == n && q[|q| - 1] == p[0];
      if |q| > 1 { WalkDescends(g, rank, q); }
      CycleAvoidsRanked(g, rank, p, 0);
    }
  }

  lemma ReachesSelf(g: Graph, n: string)
    ensures Reaches(g, n, n)
  {
    assert IsWalk(g, [n]);
  }

  lemma ReachesStep(g: Graph, a: string, b: string, c: string)
    requires Reaches(g, a, b) && c in Deps(g, b)
    ensures Reaches(g, a, c)
  {
    var p :| IsWalk(g, p) && p[0] == a && p[|p| - 1] == b;
    assert IsWalk(g, p + [c]);
  }

  lemma ReachesFirst(g: Graph, a: string, b: string, c: string)
    requires b in Deps(g, a) && Reaches(g, b, c)
    ensures Reaches(g, a, c)
  {
    var p :| IsWalk(g, p) && p[0] == b && p[|p| - 1] == c;
    assert IsWalk(g, [a] + p);
  }

  lemma StepBackIsCycle(g: Graph, a: string, b: string)
    requires Reaches(g, a, b) && a in Deps(g, b)
    ensures HasCycle(g) && EndsInCycle(g, a)
  {
    var p :| IsWalk(g, p) && p[0] == a && p[|p| - 1] == b;
    assert IsCycle(g, p + [a]);
    ReachesSelf(g, a);
    assert Reaches(g, a, (p + [a])[0]);
  }

  lemma ReachesBefore(g: Graph, a: string, b: string)
    requires Reaches(g, a, b) && EndsInCycle(g, b)
    ensures EndsInCycle(g, a)
  {
    var c :| IsCycle(g, c) && Reaches(g, b, c[0]);
    var p :| IsWalk(g, p) && p[0] == a && p[|p| - 1] == b;
    var q :| IsWalk(g, q) && q[0] == b && q[|q| - 1] == c[0];
    WalksJoin(g, p, q);
    assert Reaches(g, a, c[0]);
  }

  lemma WalksJoin(g: Graph, p: seq<string>, q: seq<string>)
    requires IsWalk(g, p) && IsWalk(g, q) && p[|p| - 1] == q[0]
    ensures IsWalk(g, p + q[1..]) && (p + q[1..])[0] == p[0] && (p + q[1..])[|p + q[1..]| - 1] == q[|q| - 1]
  {
    var w := p + q[1..];
    forall i | 0 <= i < |w| - 1 ensures w[i + 1] in Deps(g, w[i]) {
      if i >= |p| - 1 { assert w[i] == q[i - |p| + 1] && w[i + 1] == q[i - |p| + 2]; }
    }
  }
}
