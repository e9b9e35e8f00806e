/** The order in which an engine registers the relations of a catalog. */
module RegistrationOrder {
  import opened Graphs
  import opened Names
  import opened Relations
  import opened ReverseIndex
  import opened Validation
  import opened Wrappers

  datatype OrderError = MissingDependency(view: string, dependency: string) | CyclicViews(names: set<string>)

  /** Dependencies are read from the SQL again; `lineage` stands for the parser. */
  function LineageOf(r: Relation, lineage: string -> seq<string>): set<string> {
    set d | r.kind.View? && d in lineage(r.kind.sql)
  }

  function LineageGraph(m: Content, lineage: string -> seq<string>): (g: Graph)
    ensures g.Keys == m.Keys && forall n | n in m :: g[n] == LineageOf(m[n], lineage)
  {
    map n | n in m :: LineageOf(m[n], lineage)
  }

  function Placed(order: seq<string>): set<string> {
    set n | n in order
  }

  predicate CanFollow(g: Graph, done: set<string>, n: string) {
    n in g && n !in done && g[n] <= done
  }

  /** Of the names whose dependencies are all in `done`, the first alphabetically. */
  ghost predicate NextIn(g: Graph, done: set<string>, n: string) {
    CanFollow(g, done, n) && forall k | CanFollow(g, done, k) :: k == n || Less(n, k)
  }

  ghost predicate Greedy(g: Graph, order: seq<string>) {
    forall i | 0 <= i < |order| :: NextIn(g, Placed(order[..i]), order[i])
  }

  /** All names, dependencies first, alphabetical where there is a choice. */
  ghost predicate IsOrder(g: Graph, order: seq<string>) {
    Greedy(g, order) && Placed(order) == g.Keys
  }

  lemma {:induction false} GreedyPrefix(g: Graph, a: seq<string>, b: seq<string>, i: nat)
    requires Greedy(g, a) && Greedy(g, b) && i <= |a| && i <= |b|
    ensures a[..i] == b[..i]
  {
    if i > 0 {
      GreedyPrefix(g, a, b, i - 1);
      assert NextIn(g, Placed(a[..i - 1]), a[i - 1]);
      assert NextIn(g, Placed(b[..i - 1]), b[i - 1]);
      if a[i - 1] != b[i - 1] { LessAsymmetric(a[i - 1], b[i - 1]); }
      assert a[..i] == a[..i - 1] + [a[i - 1]] && b[..i] == b[..i - 1] + [b[i - 1]];
    }
  }

  lemma LongerContinues(g: Graph, a: seq<string>, b: seq<string>)
    requires Greedy(g, a) && Greedy(g, b)
    ensures |a| < |b| ==> exists n :: NextIn(g, Placed(a), n)
  {
    if |a| < |b| {
      GreedyPrefix(g, a, b, |a|);
      assert NextIn(g, Placed(b[..|a|]), b[|a|]);
      assert a[..|a|] == a;
    }
  }

  lemma NothingFollows(g: Graph, order: seq<string>)
    requires IsOrder(g, order)
    ensures !exists n :: NextIn(g, Placed(order), n)
  {
  }

  /** A catalog has at most one registration order, whatever order it is listed in. */
  lemma OrderUnique(g: Graph, a: seq<string>, b: seq<string>)
    requires IsOrder(g, a) && IsOrder(g, b)
    ensures a == b
  {
    NothingFollows(g, a);
    NothingFollows(g, b);
    LongerContinues(g, a, b);
    LongerContinues(g, b, a);
    GreedyPrefix(g, a, b, |a|);
    assert a[..|a|] == a && b[..|b|] == b;
  }

  lemma DependenciesFirst(g: Graph, order: seq<string>, i: nat, d: string)
    requires IsOrder(g, order) && i < |order| && d in Deps(g, order[i])
    ensures d in order[..i] && order[i] !in order[..i]
  {
    assert NextIn(g, Placed(order[..i]), order[i]);
  }

  /** The smallest of a set of names. */
  method PopFirst(ready: set<string>) returns (first: string)
    requires ready != {}
    ensures first in ready && forall k | k in ready :: k == first || Less(first, k)
  {
    first :| first in ready;
    var todo := ready - {first};
    while todo != {}
      invariant todo <= ready && first in ready
      invariant forall k | k in ready && k !in todo :: k == first || Less(first, k)
    {
      var k :| k in todo;
      LessTotal(first, k);
      if Less(k, first) {
        forall j | j in ready && j !in todo - {k} ensures j == k || Less(k, j) {
          if Less(first, j) { LessTransitive(k, first, j); }
        }
        first := k;
      }
      todo := todo - {k};
    }
  }

  lemma NextIsReady(g: Graph, rank: map<string, nat>, round: nat, indegree: map<string, nat>, ready: set<string>, name: string)
    requires Emitting(g, rank, round, indegree) && ReadyIs(indegree, ready)
    requires name in ready && forall k | k in ready :: k == name || Less(name, k)
    ensures NextIn(g, rank.Keys, name)
  {
    NothingLeft(g[name], rank.Keys);
    forall k | CanFollow(g, rank.Keys, k) ensures k in ready {
      NothingLeft(g[k], rank.Keys);
    }
  }

  lemma GreedyAppend(g: Graph, order: seq<string>, name: string)
    requires Greedy(g, order) && NextIn(g, Placed(order), name)
    ensures Greedy(g, order + [name]) && Placed(order + [name]) == Placed(order) + {name}
  {
    var longer := order + [name];
    forall i | 0 <= i < |longer| ensures NextIn(g, Placed(longer[..i]), longer[i]) {
      assert longer[..i] == order[..i];
      if i == |order| { assert order[..i] == order; }
    }
    assert Placed(order + [name]) == Placed(order) + {name};
  }

  /** A view whose lineage names an unknown relation, or exactly those from which lineage leads into a cycle. */
  ghost predicate Explains(m: Content, lineage: string -> seq<string>, error: OrderError) {
    match error
    case MissingDependency(n, d) => n in m && d in LineageOf(m[n], lineage) && d !in m
    case CyclicViews(names) => names != {} && forall n :: n in names <==> n in m && EndsInCycle(LineageGraph(m, lineage), n)
  }

  /** Succeeds exactly when every dependency is registered and none is circular. */
  method RegistrationOrder(m: Content, lineage: string -> seq<string>) returns (r: Result<seq<string>, OrderError>)
    requires Named(m)
    ensures r.Ok? <==> (forall n | n in m :: LineageOf(m[n], lineage) <= m.Keys) && !HasCycle(LineageGraph(m, lineage))
    ensures r.Ok? ==> IsOrder(LineageGraph(m, lineage), r.value)
    ensures r.Err? ==> Explains(m, lineage, r.error)
  {
    var g := LineageGraph(m, lineage);
    var dependents: ReverseEdges := map[];
    var todo := m.Keys;
    while todo != {}
      invariant todo <= m.Keys && NoneEmpty(dependents)
      invariant forall n | n in m.Keys - todo :: g[n] <= m.Keys
      invariant forall d, n :: EdgeIn(dependents, d, n) <==> n in m.Keys - todo && d in g[n]
    {
      var n :| n in todo;
      var missing := g[n] - m.Keys;
      if missing != {} {
        var d :| d in missing;
        return Err(OrderError.MissingDependency(n, d));
      }
      forall d | d in g[n] ensures d in m { assert d !in missing; }
      var added := AddTargets(m, n, g[n], dependents);
      dependents := added.value;
      todo := todo - {n};
    }
    var order, pending := Emission(g, dependents);
    if pending != {} { return Err(CyclicViews(pending)); }
    return Ok(order);
  }

  ghost predicate Ordering(g: Graph, order: seq<string>, rank: map<string, nat>, indegree: map<string, nat>, ready: set<string>) {
    && Emitting(g, rank, |order|, indegree) && ReadyIs(indegree, ready)
    && Greedy(g, order) && Placed(order) == rank.Keys
  }

  method PlaceNext(g: Graph, dependents: ReverseEdges, order: seq<string>, ghost rank: map<string, nat>, indegree: map<string, nat>, ready: set<string>)
    returns (name: string, indegree': map<string, nat>, ready': set<string>)
    requires Reverses(dependents, g) && Ordering(g, order, rank, indegree, ready) && ready != {}
    ensures Ordering(g, order + [name], rank[name := |order|], indegree', ready')
    ensures name in indegree && indegree'.Keys == indegree.Keys - {name}
  {
    name := PopFirst(ready);
    NextIsReady(g, rank, |order|, indegree, ready, name);
    GreedyAppend(g, order, name);
    indegree', ready' := Emit(g, dependents, indegree, ready, name, rank, |order|);
  }

  method StartOrder(g: Graph) returns (indegree: map<string, nat>, ready: set<string>)
    ensures Ordering(g, [], map[], indegree, ready)
  {
    indegree := map n | n in g :: |g[n]|;
    ready := set n | n in indegree && indegree[n] == 0;
    NothingEmitted(g, indegree);
  }

  method Emission(g: Graph, dependents: ReverseEdges) returns (order: seq<string>, pending: set<string>)
    requires Reverses(dependents, g) && forall n | n in g :: g[n] <= g.Keys
    ensures pending == {} <==> !HasCycle(g)
    ensures forall n :: n in pending <==> n in g && EndsInCycle(g, n)
    ensures Greedy(g, order) && Placed(order) == g.Keys - pending
  {
    var indegree, ready := StartOrder(g);
    ghost var rank: map<string, nat> := map[];
    order := [];
    while ready != {}
      invariant Ordering(g, order, rank, indegree, ready)
      decreases indegree.Keys
    {
      var name;
      name, indegree, ready := PlaceNext(g, dependents, order, rank, indegree, ready);
      rank := rank[name := |order|];
      order := order + [name];
    }
    LoopVerdict(g, rank, |order|, indegree);
    pending := indegree.Keys;
  }
}
