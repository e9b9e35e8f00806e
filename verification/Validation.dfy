/** From-scratch validation of a catalog: every edge, Kahn's loop over the view graph, and
    every definition. It also builds the reverse index that later edits start from. */
module Validation {
  import opened Graphs
  import opened Relations
  import opened ReverseIndex
  import opened Wrappers

  datatype PublicationError =
    | Conflict
    | InvalidDefinition(relation: string)
    | MissingDependency(relation: string, dependency: string)
    | Cycle(blocked: set<string>)
    | MissingRelation(name: string)

  // ---- Definitions ----

  method CheckKeyPairs(own: Relation, right: Relation, pairs: seq<KeyPair>) returns (ok: bool)
    ensures ok <==> forall k | k in pairs :: KeyPairOk(own, right, k)
  {
    for i := 0 to |pairs|
      invariant forall j | 0 <= j < i :: KeyPairOk(own, right, pairs[j])
    {
      if !KeyPairOk(own, right, pairs[i]) { return false; }
    }
    return true;
  }

  method CheckMetric(m: Content, own: Relation, s: Semantics, metric: Metric) returns (ok: bool)
    ensures ok <==> MetricOk(m, own, s, metric)
  {
    for i := 0 to |metric.fields|
      invariant forall j | 0 <= j < i :: FieldOf(own, metric.fields[j]).Some?
    {
      if FieldOf(own, metric.fields[i]).None? { return false; }
    }
    for i := 0 to |metric.lookups|
      invariant forall j | 0 <= j < i :: LookupOk(m, s, metric.lookups[j])
    {
      if !LookupOk(m, s, metric.lookups[i]) { return false; }
    }
    return true;
  }

  /** Adds one edge per target, or names a target that does not exist. */
  method AddTargets(m: Content, name: string, targets: set<string>, reverse: ReverseEdges)
    returns (r: Result<ReverseEdges, PublicationError>)
    requires NoneEmpty(reverse)
    ensures r.Ok? <==> targets <= m.Keys
    ensures r.Err? ==> exists d :: d in targets && d !in m && r.error == MissingDependency(name, d)
    ensures r.Ok? ==> NoneEmpty(r.value) && forall d, n ::
              EdgeIn(r.value, d, n) <==> EdgeIn(reverse, d, n) || (n == name && d in targets)
  {
    var out, todo := reverse, targets;
    while todo != {}
      invariant todo <= targets && targets - todo <= m.Keys && NoneEmpty(out)
      invariant forall d, n :: EdgeIn(out, d, n) <==> EdgeIn(reverse, d, n) || (n == name && d in targets - todo)
    {
      var d :| d in todo;
      if d !in m { return Err(MissingDependency(name, d)); }
      EdgeAdded(out, d, name);
      out := AddEdge(out, d, name);
      todo := todo - {d};
    }
    return Ok(out);
  }

  lemma EdgeAdded(reverse: ReverseEdges, d: string, name: string)
    requires NoneEmpty(reverse)
    ensures NoneEmpty(AddEdge(reverse, d, name))
    ensures forall e, n :: EdgeIn(AddEdge(reverse, d, name), e, n) <==> EdgeIn(reverse, e, n) || (e == d && n == name)
  {
  }

  method CheckRelationships(m: Content, own: Relation, s: Semantics) returns (ok: bool)
    ensures ok <==> forall k | k in s.relationships :: RelationshipOk(m, own, s.relationships[k])
  {
    var todo := s.relationships.Keys;
    while todo != {}
      invariant todo <= s.relationships.Keys
      invariant forall k | k in s.relationships.Keys - todo :: RelationshipOk(m, own, s.relationships[k])
    {
      var k :| k in todo;
      var rel := s.relationships[k];
      if rel.right !in m { return false; }
      var pairsOk := CheckKeyPairs(own, m[rel.right], rel.keyPairs);
      if !pairsOk { return false; }
      todo := todo - {k};
    }
    return true;
  }

  method CheckMetrics(m: Content, own: Relation, s: Semantics) returns (ok: bool)
    ensures ok <==> forall k | k in s.metrics :: MetricOk(m, own, s, s.metrics[k])
  {
    var todo := s.metrics.Keys;
    while todo != {}
      invariant todo <= s.metrics.Keys
      invariant forall k | k in s.metrics.Keys - todo :: MetricOk(m, own, s, s.metrics[k])
    {
      var k :| k in todo;
      var metricOk := CheckMetric(m, own, s, s.metrics[k]);
      if !metricOk { return false; }
      todo := todo - {k};
    }
    return true;
  }

  /** Checks one relation's definitions and records the edges they declare. */
  method ValidateDefinition(m: Content, local: Relation -> bool, r: Relation, reverse: ReverseEdges)
    returns (out: Result<ReverseEdges, PublicationError>)
    requires NoneEmpty(reverse)
    ensures out.Ok? <==> DefinitionOk(m, local, r)
    ensures out.Ok? ==> NoneEmpty(out.value) && forall d, n ::
              EdgeIn(out.value, d, n) <==>
              EdgeIn(reverse, d, n) || (n == r.name && d in DefinitionTargets(r))
    ensures out.Err? ==>
              || out.error == InvalidDefinition(r.name)
              || exists d :: d in DefinitionTargets(r) && d !in m && out.error == MissingDependency(r.name, d)
  {
    if r.semantics.None? { return Ok(reverse); }
    var s := r.semantics.value;
    if !local(r) { return Err(InvalidDefinition(r.name)); }
    var contracts := AddTargets(m, r.name, ContractTargets(s), reverse);
    if contracts.Err? { return contracts; }
    var metricsOk := CheckMetrics(m, r, s);
    if !metricsOk { return Err(InvalidDefinition(r.name)); }
    var relationshipsOk := CheckRelationships(m, r, s);
    if !relationshipsOk { return Err(InvalidDefinition(r.name)); }
    assert RelationshipTargets(s) <= m.Keys;
    out := AddTargets(m, r.name, RelationshipTargets(s), contracts.value);
  }

  ghost function DefinitionTargets(r: Relation): set<string> {
    if r.semantics.Some? then RelationshipTargets(r.semantics.value) + ContractTargets(r.semantics.value) else {}
  }

  // ---- Kahn's loop ----

  ghost predicate Reverses(reverse: ReverseEdges, g: Graph) {
    forall d, n :: EdgeIn(reverse, d, n) <==> n in g && d in g[n]
  }

  /** Between emissions: who has left, and what each of the others still waits for. */
  ghost predicate Emitting(g: Graph, rank: map<string, nat>, round: nat, indegree: map<string, nat>) {
    && Ranked(g, rank) && (forall n | n in rank :: rank[n] < round)
    && indegree.Keys == g.Keys - rank.Keys && rank.Keys <= g.Keys
    && (forall n | n in indegree :: indegree[n] == Waits(g[n], rank.Keys))
  }

  /** How many of `needs` are not done yet. */
  ghost function Waits(needs: set<string>, done: set<string>): nat {
    if needs == {} then 0
    else
      var x :| x in needs;
      (if x in done then 0 else 1) + Waits(needs - {x}, done)
  }

  lemma {:induction false} WaitsForAll(needs: set<string>)
    ensures Waits(needs, {}) == |needs|
  {
    if needs != {} {
      var x :| x in needs && Waits(needs, {}) == 1 + Waits(needs - {x}, {});
      WaitsForAll(needs - {x});
    }
  }

  lemma {:induction false} OneFewer(needs: set<string>, done: set<string>, n: string)
    requires n !in done
    ensures Waits(needs, done) == Waits(needs, done + {n}) + (if n in needs then 1 else 0)
  {
    if needs != {} {
      var x :| x in needs && Waits(needs, done) == (if x in done then 0 else 1) + Waits(needs - {x}, done)
                          && Waits(needs, done + {n}) == (if x in done + {n} then 0 else 1) + Waits(needs - {x}, done + {n});
      OneFewer(needs - {x}, done, n);
    }
  }

  lemma {:induction false} NothingLeft(needs: set<string>, done: set<string>)
    ensures Waits(needs, done) == 0 <==> needs <= done
  {
    if needs != {} {
      var x :| x in needs && Waits(needs, done) == (if x in done then 0 else 1) + Waits(needs - {x}, done);
      NothingLeft(needs - {x}, done);
    }
  }

  /** Releases the dependents of `name`; every counter it touches exists and is positive. */
  method Release(indegree: map<string, nat>, ready: set<string>, children: set<string>)
    returns (indegree': map<string, nat>, ready': set<string>)
    requires forall n | n in children :: n in indegree && indegree[n] > 0
    requires ReadyIs(indegree, ready)
    ensures indegree'.Keys == indegree.Keys
    ensures forall n | n in indegree :: indegree'[n] == indegree[n] - (if n in children then 1 else 0)
    ensures ReadyIs(indegree', ready')
  {
    indegree', ready' := indegree, ready;
    var todo := children;
    while todo != {}
      invariant todo <= children && indegree'.Keys == indegree.Keys
      invariant forall n | n in indegree :: indegree'[n] == indegree[n] - (if n in children - todo then 1 else 0)
      invariant ReadyIs(indegree', ready')
    {
      var child :| child in todo;
      var degree := indegree'[child] - 1;
      indegree' := indegree'[child := degree];
      todo := todo - {child};
      if degree == 0 { ready' := ready' + {child}; }
    }
  }

  ghost predicate ReadyIs(indegree: map<string, nat>, ready: set<string>) {
    forall n :: n in ready <==> n in indegree && indegree[n] == 0
  }

  lemma RecordedDependents(g: Graph, reverse: ReverseEdges, name: string)
    requires Reverses(reverse, g)
    ensures forall n | n in DependentsOf(reverse, name) :: n in g && name in g[n]
    ensures forall n | n in g && name in g[n] :: n in DependentsOf(reverse, name)
  {
    forall n ensures n in DependentsOf(reverse, name) <==> n in g && name in g[n] {
      assert EdgeIn(reverse, name, n) <==> n in g && name in g[n];
    }
  }

  function DependentsOf(reverse: ReverseEdges, name: string): set<string> {
    if name in reverse then reverse[name] else {}
  }

  /** Dependents of a ready node are still waiting, and not only for nothing. */
  lemma DependentsWait(g: Graph, reverse: ReverseEdges, rank: map<string, nat>, round: nat, indegree: map<string, nat>, name: string, n: string)
    requires Reverses(reverse, g) && Emitting(g, rank, round, indegree) && name in indegree && indegree[name] == 0
    requires n in DependentsOf(reverse, name)
    ensures n in indegree && n != name && indegree[n] > 0
  {
    RecordedDependents(g, reverse, name);
    NothingLeft(g[n], rank.Keys);
    NothingLeft(g[name], rank.Keys);
  }

  lemma LoweredCounts(g: Graph, reverse: ReverseEdges, done: set<string>, name: string, n: string)
    requires Reverses(reverse, g) && name !in done && n in g
    ensures Waits(g[n], done + {name}) == Waits(g[n], done) - (if n in DependentsOf(reverse, name) then 1 else 0)
  {
    RecordedDependents(g, reverse, name);
    OneFewer(g[n], done, name);
  }

  /** One round of the loop: `name` leaves, its dependents are released. */
  method Emit(g: Graph, reverse: ReverseEdges, indegree: map<string, nat>, ready: set<string>, name: string,
              ghost rank: map<string, nat>, ghost round: nat)
    returns (indegree': map<string, nat>, ready': set<string>)
    requires Reverses(reverse, g) && Emitting(g, rank, round, indegree) && ReadyIs(indegree, ready) && name in ready
    ensures Emitting(g, rank[name := round], round + 1, indegree') && ReadyIs(indegree', ready')
    ensures indegree'.Keys == indegree.Keys - {name}
  {
    forall n | n in DependentsOf(reverse, name) ensures n in indegree && n != name && indegree[n] > 0 {
      DependentsWait(g, reverse, rank, round, indegree, name, n);
    }
    indegree', ready' := Release(indegree - {name}, ready - {name}, DependentsOf(reverse, name));
    EmitKeeps(g, reverse, rank, round, indegree, name, indegree');
  }

  lemma EmitKeeps(g: Graph, reverse: ReverseEdges, rank: map<string, nat>, round: nat, indegree: map<string, nat>, name: string, next: map<string, nat>)
    requires Reverses(reverse, g) && Emitting(g, rank, round, indegree) && name in indegree && indegree[name] == 0
    requires next.Keys == indegree.Keys - {name}
    requires forall n | n in next :: next[n] + (if n in DependentsOf(reverse, name) then 1 else 0) == indegree[n]
    ensures Emitting(g, rank[name := round], round + 1, next)
  {
    NothingLeft(g[name], rank.Keys);
    RankNext(g, rank, round, name);
    forall n | n in next ensures next[n] == Waits(g[n], rank.Keys + {name}) {
      LoweredCounts(g, reverse, rank.Keys, name, n);
    }
  }

  /** What an error says of the catalog it was found in. */
  ghost predicate Blames(m: Content, local: Relation -> bool, error: PublicationError) {
    match error
    case InvalidDefinition(n) => n in m && !DefinitionOk(m, local, m[n])
    case MissingDependency(n, d) => n in m && d in Dependencies(m[n]) && d !in m
    case Cycle(names) => names != {} && forall n | n in names :: EndsInCycle(ViewGraph(m), n)
    case _ => false
  }

  lemma LoopVerdict(g: Graph, rank: map<string, nat>, round: nat, indegree: map<string, nat>)
    requires Emitting(g, rank, round, indegree) && ReadyIs(indegree, {}) && forall n | n in g :: g[n] <= g.Keys
    ensures indegree.Keys == {} <==> !HasCycle(g)
    ensures forall n :: n in indegree <==> n in g && EndsInCycle(g, n)
  {
    if indegree.Keys == {} {
      FullyRankedIsAcyclic(g, rank);
    } else {
      AllWait(g, rank, round, indegree);
      WaitingHasCycle(g, indegree.Keys);
    }
    forall n ensures n in indegree <==> n in g && EndsInCycle(g, n) {
      if n in rank { RankedEndsNowhere(g, rank, n); }
    }
  }

  lemma AllWait(g: Graph, rank: map<string, nat>, round: nat, indegree: map<string, nat>)
    requires Emitting(g, rank, round, indegree) && ReadyIs(indegree, {}) && forall n | n in g :: g[n] <= g.Keys
    ensures forall n | n in indegree.Keys :: Deps(g, n) * indegree.Keys != {}
  {
    forall n | n in indegree.Keys ensures Deps(g, n) * indegree.Keys != {} {
      assert n !in {};
      NothingLeft(g[n], rank.Keys);
      var d :| d in g[n] && d !in rank;
      assert d in Deps(g, n) * indegree.Keys;
    }
  }

  lemma NothingEmitted(g: Graph, indegree: map<string, nat>)
    requires indegree.Keys == g.Keys && forall n | n in g :: indegree[n] == |g[n]|
    ensures Emitting(g, map[], 0, indegree)
  {
    var none: map<string, nat> := map[];
    assert none.Keys == {};
    forall n | n in g ensures Waits(g[n], {}) == |g[n]| { WaitsForAll(g[n]); }
  }

  /** What is left when nothing is ready: exactly the relations from which one gets into a cycle. */
  method Kahn(g: Graph, reverse: ReverseEdges) returns (blocked: set<string>)
    requires Reverses(reverse, g) && forall n | n in g :: g[n] <= g.Keys
    ensures blocked == {} <==> !HasCycle(g)
    ensures forall n :: n in blocked <==> n in g && EndsInCycle(g, n)
  {
    var indegree: map<string, nat> := map n | n in g :: |g[n]|;
    var ready := set n | n in indegree && indegree[n] == 0;
    ghost var rank: map<string, nat>, round := map[], 0;
    NothingEmitted(g, indegree);
    while ready != {}
      invariant Emitting(g, rank, round, indegree) && ReadyIs(indegree, ready)
      decreases indegree.Keys
    {
      var name :| name in ready;
      indegree, ready := Emit(g, reverse, indegree, ready, name, rank, round);
      rank, round := rank[name := round], round + 1;
    }
    LoopVerdict(g, rank, round, indegree);
    blocked := indegree.Keys;
  }

  // ---- The whole catalog ----

  method ViewEdges(m: Content) returns (r: Result<ReverseEdges, PublicationError>)
    requires Named(m)
    ensures r.Ok? <==> forall n | n in m :: ViewDependencies(m[n]) <= m.Keys
    ensures r.Ok? ==> NoneEmpty(r.value) && Reverses(r.value, ViewGraph(m))
    ensures r.Err? ==> exists n, d :: n in m && d in ViewDependencies(m[n]) && d !in m && r.error == MissingDependency(n, d)
  {
    var reverse: ReverseEdges := map[];
    var todo := m.Keys;
    while todo != {}
      invariant todo <= m.Keys && NoneEmpty(reverse)
      invariant forall n | n in m.Keys - todo :: ViewDependencies(m[n]) <= m.Keys
      invariant forall d, n :: EdgeIn(reverse, d, n) <==> n in m.Keys - todo && d in ViewDependencies(m[n])
    {
      var n :| n in todo;
      var added := AddTargets(m, n, ViewDependencies(m[n]), reverse);
      if added.Err? { return added; }
      reverse := added.value;
      todo := todo - {n};
    }
    return Ok(reverse);
  }

  /** Accepts exactly the valid catalogs, and returns all their reverse edges. */
  method Validate(m: Content, local: Relation -> bool) returns (r: Result<ReverseEdges, PublicationError>)
    requires Named(m)
    ensures r.Ok? <==> Valid(m, local)
    ensures r.Ok? ==> r.value == ReverseOf(m)
    ensures r.Err? ==> Blames(m, local, r.error)
    ensures r.Err? && r.error.Cycle? ==> forall n | n in m && EndsInCycle(ViewGraph(m), n) :: n in r.error.blocked
  {
    var views := ViewEdges(m);
    if views.Err? { return views; }
    var reverse := views.value;
    var blocked := Kahn(ViewGraph(m), reverse);
    if blocked != {} { return Err(Cycle(blocked)); }
    var todo := m.Keys;
    while todo != {}
      invariant todo <= m.Keys && NoneEmpty(reverse)
      invariant forall n | n in m.Keys - todo :: DefinitionOk(m, local, m[n])
      invariant forall d, n :: EdgeIn(reverse, d, n) <==>
                  n in m && (d in ViewDependencies(m[n]) || (n !in todo && d in DefinitionTargets(m[n])))
    {
      var n :| n in todo;
      var checked := ValidateDefinition(m, local, m[n], reverse);
      if checked.Err? { return checked; }
      reverse := checked.value;
      todo := todo - {n};
    }
    ReverseEdgesOf(m);
    forall d, n ensures EdgeIn(reverse, d, n) <==> EdgeIn(ReverseOf(m), d, n) {
      if n in m { assert Dependencies(m[n]) == ViewDependencies(m[n]) + DefinitionTargets(m[n]); }
    }
    SameEdges(reverse, ReverseOf(m));
    return Ok(reverse);
  }
}
