/** Incremental revalidation: only relations a change can reach are looked at again, and yet
    the verdict, the reverse index and the affected set are those of a full validation. */
module Incremental {
  import opened CycleSearch
  import opened Graphs
  import opened Relations
  import opened ReverseIndex
  import opened Treap
  import opened Validation
  import opened Wrappers

  // ---- The affected set ----

  /** Who depends on whom, counting the edges of both generations. */
  function Influence(before: Content, draft: Content): Graph {
    map d | d in ReverseOf(before).Keys + ReverseOf(draft).Keys :: Dependents(before, d) + Dependents(draft, d)
  }

  /** Every relation that a changed one can reach over old and new edges. */
  ghost predicate IsAffected(g: Graph, changed: set<string>, n: string) {
    exists c | c in changed :: Reaches(g, c, n)
  }

  ghost predicate IsAffectedSet(before: Content, draft: Content, changed: set<string>, affected: set<string>) {
    forall n :: n in affected <==> IsAffected(Influence(before, draft), changed, n)
  }

  lemma InfluenceOf(before: Content, draft: Content, d: string)
    ensures Deps(Influence(before, draft), d) == Dependents(before, d) + Dependents(draft, d)
    ensures forall n | n in Deps(Influence(before, draft), d) :: n in before || n in draft
  {
    forall n | n in Dependents(before, d) ensures d in ReverseOf(before) {}
    forall n | n in Dependents(draft, d) ensures d in ReverseOf(draft) {}
  }

  lemma ReverseAt(m: Content, d: string)
    ensures (if d in ReverseOf(m) then ReverseOf(m)[d] else {}) == Dependents(m, d)
  {
    forall n | n in Dependents(m, d) ensures d in ReverseOf(m) {}
  }

  /** Halfway through the closure: everything collected is reachable, and the dependents of
      everything not queued are collected. */
  ghost predicate Closing(g: Graph, changed: set<string>, affected: set<string>, open: set<string>) {
    && changed <= affected
    && (forall a | a in affected :: IsAffected(g, changed, a))
    && (forall a | a in affected :: a in open || Deps(g, a) <= affected)
  }

  lemma {:induction false} ClosedUnderWalks(g: Graph, affected: set<string>, p: seq<string>)
    requires IsWalk(g, p) && p[0] in affected && forall a | a in affected :: Deps(g, a) <= affected
    ensures p[|p| - 1] in affected
  {
    if |p| > 1 {
      assert p[1] in Deps(g, p[0]);
      ClosedUnderWalks(g, affected, p[1..]);
    }
  }

  lemma AffectedIsCollected(g: Graph, changed: set<string>, affected: set<string>, n: string)
    requires Closing(g, changed, affected, {}) && IsAffected(g, changed, n)
    ensures n in affected
  {
    var c :| c in changed && Reaches(g, c, n);
    var p :| IsWalk(g, p) && p[0] == c && p[|p| - 1] == n;
    ClosedUnderWalks(g, affected, p);
  }

  lemma ClosingStart(g: Graph, changed: set<string>)
    ensures Closing(g, changed, changed, changed)
  {
    forall a | a in changed { ReachesSelf(g, a); }
  }

  lemma AffectedStep(g: Graph, changed: set<string>, name: string, a: string)
    requires IsAffected(g, changed, name) && a in Deps(g, name)
    ensures IsAffected(g, changed, a)
  {
    var c :| c in changed && Reaches(g, c, name);
    ReachesStep(g, c, name, a);
  }

  lemma ClosingStep(g: Graph, changed: set<string>, affected: set<string>, open: set<string>, name: string, after: set<string>)
    requires Closing(g, changed, affected, open) && name in affected
    requires forall a | a in open :: a == name || a in after
    requires forall a | a in Deps(g, name) :: a in affected || a in after
    ensures Closing(g, changed, affected + Deps(g, name), after)
  {
    forall a | a in Deps(g, name) { AffectedStep(g, changed, name, a); }
  }

  method ToQueue(s: set<string>) returns (q: seq<string>)
    ensures forall n :: n in q <==> n in s
  {
    q := [];
    var todo := s;
    while todo != {}
      invariant todo <= s && forall n :: n in q <==> n in s - todo
    {
      var n :| n in todo;
      q := q + [n];
      todo := todo - {n};
    }
  }

  function Queued(q: seq<string>): set<string> {
    set n | n in q
  }

  /** Collects the dependents of one name, queueing those not met before. */
  method Collect(names: set<string>, affected: set<string>, queue: seq<string>) returns (affected': set<string>, queue': seq<string>)
    ensures affected' == affected + names
    ensures names <= affected ==> queue' == queue
    ensures forall n :: n in queue' <==> n in queue || (n in names && n !in affected)
  {
    affected', queue' := affected, queue;
    var todo := names;
    while todo != {}
      invariant todo <= names && affected' == affected + (names - todo)
      invariant names - todo <= affected ==> queue' == queue
      invariant forall n :: n in queue' <==> n in queue || (n in names - todo && n !in affected)
    {
      var dependent :| dependent in todo;
      if dependent !in affected' {
        affected' := affected' + {dependent};
        queue' := queue' + [dependent];
      }
      todo := todo - {dependent};
    }
  }

  ghost predicate Sweeping(g: Graph, changed: set<string>, affected: set<string>, queue: seq<string>) {
    Closing(g, changed, affected, Queued(queue)) && Queued(queue) <= affected
  }

  /** What is left to meet; it shrinks whenever a round queues anything. */
  ghost function Unmet(universe: set<string>, affected: set<string>): set<string> {
    universe - affected
  }

  method Visit(ghost g: Graph, ghost changed: set<string>, ghost universe: set<string>, names: set<string>, affected: set<string>, queue: seq<string>)
    returns (affected': set<string>, queue': seq<string>)
    requires queue != [] && Sweeping(g, changed, affected, queue) && affected <= universe
    requires names == Deps(g, queue[0]) && names <= universe
    ensures Sweeping(g, changed, affected', queue') && affected' <= universe
    ensures Unmet(universe, affected') < Unmet(universe, affected) || (affected' == affected && |queue'| < |queue|)
  {
    if !(names <= affected) { ShrinksBy(universe, affected, names); }
    affected', queue' := Collect(names, affected, queue[1..]);
    assert queue[0] in Queued(queue);
    forall a | a in Queued(queue) ensures a == queue[0] || a in Queued(queue') {
      assert a in queue;
    }
    ClosingStep(g, changed, affected, Queued(queue), queue[0], Queued(queue'));
  }

  lemma SweepDone(before: Content, draft: Content, changed: set<string>, affected: set<string>)
    requires Sweeping(Influence(before, draft), changed, affected, [])
    ensures IsAffectedSet(before, draft, changed, affected)
  {
    var g := Influence(before, draft);
    assert Queued([]) == {};
    forall n | IsAffected(g, changed, n) { AffectedIsCollected(g, changed, affected, n); }
  }

  /** Closes `changed` over old and new edges, breadth first. */
  method CloseOver(oldNames: string -> set<string>, newNames: string -> set<string>, ghost before: Content, ghost draft: Content,
                   changed: set<string>)
    returns (affected: set<string>)
    requires forall d :: oldNames(d) == Dependents(before, d) && newNames(d) == Dependents(draft, d)
    ensures IsAffectedSet(before, draft, changed, affected)
  {
    ghost var g := Influence(before, draft);
    ghost var universe := changed + before.Keys + draft.Keys;
    affected := changed;
    var queue := ToQueue(changed);
    assert Queued(queue) == changed;
    ClosingStart(g, changed);
    while queue != []
      invariant Sweeping(g, changed, affected, queue) && affected <= universe
      decreases Unmet(universe, affected), |queue|
    {
      InfluenceOf(before, draft, queue[0]);
      var names := oldNames(queue[0]) + newNames(queue[0]);
      affected, queue := Visit(g, changed, universe, names, affected, queue);
    }
    SweepDone(before, draft, changed, affected);
  }

  lemma ShrinksBy(universe: set<string>, met: set<string>, names: set<string>)
    requires names <= universe && !(names <= met)
    ensures Unmet(universe, met + names) < Unmet(universe, met)
  {
    var n :| n in names && n !in met;
    assert n in Unmet(universe, met);
  }

  // ---- Verdicts ----

  ghost predicate ChangedOnly(before: Content, draft: Content, changed: set<string>) {
    forall n | n !in changed :: (n in before <==> n in draft) && (n in before ==> before[n] == draft[n])
  }

  ghost predicate AgreeOn(a: Content, b: Content, names: set<string>) {
    forall d | d in names :: (d in a <==> d in b) && (d in a ==> a[d] == b[d])
  }

  /** A verdict reads nothing beyond the relation and what it depends on. */
  lemma SameVerdict(a: Content, b: Content, local: Relation -> bool, r: Relation)
    requires AgreeOn(a, b, Dependencies(r)) && RelationOk(a, local, r)
    ensures RelationOk(b, local, r)
  {
    if r.semantics.Some? {
      var s := r.semantics.value;
      forall k | k in s.relationships ensures RelationshipOk(b, r, s.relationships[k]) {
        assert RelationshipOk(a, r, s.relationships[k]) && s.relationships[k].right in RelationshipTargets(s);
      }
      forall k | k in s.metrics ensures MetricOk(b, r, s, s.metrics[k]) {
        assert MetricOk(a, r, s, s.metrics[k]);
        SameMetric(a, b, r, s, s.metrics[k]);
      }
    }
  }

  lemma SameMetric(a: Content, b: Content, r: Relation, s: Semantics, metric: Metric)
    requires AgreeOn(a, b, RelationshipTargets(s)) && MetricOk(a, r, s, metric)
    ensures MetricOk(b, r, s, metric)
  {
    forall l | l in metric.lookups ensures LookupOk(b, s, l) {
      assert LookupOk(a, s, l) && s.relationships[l.relationship].right in RelationshipTargets(s);
    }
  }

  /** Outside the affected set nothing changed, and nothing depended on has changed either. */
  lemma UnreachedIsUntouched(before: Content, draft: Content, changed: set<string>, affected: set<string>, n: string)
    requires IsAffectedSet(before, draft, changed, affected) && ChangedOnly(before, draft, changed)
    requires n in draft && n !in affected
    ensures n in before && before[n] == draft[n] && AgreeOn(before, draft, Dependencies(draft[n]))
  {
    var g := Influence(before, draft);
    if n in changed { ReachesSelf(g, n); }
    forall d | d in Dependencies(draft[n]) ensures d !in changed {
      if d in changed {
        InfluenceOf(before, draft, d);
        ReachesSelf(g, d);
        AffectedStep(g, changed, d, n);
      }
    }
  }

  /** Looks again at the affected relations, and only at those. */
  method Revalidate(draft: Content, local: Relation -> bool, affected: set<string>) returns (r: Result<(), PublicationError>)
    requires Named(draft)
    ensures r.Ok? <==> forall n | n in affected && n in draft :: RelationOk(draft, local, draft[n])
    ensures r.Err? ==> Blames(draft, local, r.error)
  {
    var todo := affected;
    while todo != {}
      invariant todo <= affected
      invariant forall n | n in affected - todo && n in draft :: RelationOk(draft, local, draft[n])
    {
      var name :| name in todo;
      if name in draft {
        var missing := Dependencies(draft[name]) - draft.Keys;
        if missing != {} {
          var dependency :| dependency in missing;
          DependenciesNeeded(draft, local, draft[name], dependency);
          return Err(MissingDependency(name, dependency));
        }
        forall d | d in Dependencies(draft[name]) ensures d in draft {
          assert d !in missing;
        }
        var checked := ValidateDefinition(draft, local, draft[name], map[]);
        if checked.Err? { return Err(checked.error); }
      }
      todo := todo - {name};
    }
    return Ok(());
  }

  lemma DependenciesNeeded(m: Content, local: Relation -> bool, r: Relation, d: string)
    requires d in Dependencies(r) && d !in m
    ensures !RelationOk(m, local, r)
  {
    if r.semantics.Some? && d in RelationshipTargets(r.semantics.value) {
      var k :| k in r.semantics.value.relationships && r.semantics.value.relationships[k].right == d;
      assert !RelationshipOk(m, r, r.semantics.value.relationships[k]);
    }
  }

  lemma AffectedDecide(before: Content, draft: Content, changed: set<string>, affected: set<string>, local: Relation -> bool)
    requires IsAffectedSet(before, draft, changed, affected) && ChangedOnly(before, draft, changed)
    requires forall n | n in before :: RelationOk(before, local, before[n])
    requires forall n | n in affected && n in draft :: RelationOk(draft, local, draft[n])
    ensures forall n | n in draft :: RelationOk(draft, local, draft[n])
  {
    forall n | n in draft && n !in affected ensures RelationOk(draft, local, draft[n]) {
      UnreachedIsUntouched(before, draft, changed, affected, n);
      SameVerdict(before, draft, local, draft[n]);
    }
  }

  // ---- The two ways to validate a draft ----

  /** Both branches of a publication promise this, and it leaves them nothing to differ in. */
  ghost predicate Analysed(h: Hashing<set<string>>, before: Content, draft: Content, changed: set<string>,
                           reverse: Tree<set<string>>, affected: set<string>)
  {
    Exact(h, reverse, draft) && IsAffectedSet(before, draft, changed, affected)
  }

  lemma AnalysisUnique(h: Hashing<set<string>>, before: Content, draft: Content, changed: set<string>,
                       r1: Tree<set<string>>, a1: set<string>, r2: Tree<set<string>>, a2: set<string>)
    requires Analysed(h, before, draft, changed, r1, a1) && Analysed(h, before, draft, changed, r2, a2)
    ensures r1 == r2 && a1 == a2
  {
    ExactUnique(h, r1, r2, draft);
    assert forall n :: n in a1 <==> n in a2;
  }

  function NamesIn(t: Tree<set<string>>, d: string): set<string> {
    var entry := Find(t, d);
    if entry.Some? then entry.value else {}
  }

  lemma ExactNames(h: Hashing<set<string>>, t: Tree<set<string>>, m: Content, d: string)
    requires Exact(h, t, m)
    ensures NamesIn(t, d) == Dependents(m, d)
  {
    ContentsFind(h, t, d);
    ReverseAt(m, d);
  }

  /** The warm path: edit the index, revalidate what the changes reach, search from them for cycles. */
  method Incrementally(h: Hashing<set<string>>, before: Content, draft: Content, previous: Tree<set<string>>, changed: set<string>, local: Relation -> bool)
    returns (r: Result<(Tree<set<string>>, set<string>), PublicationError>)
    requires Valid(before, local) && Exact(h, previous, before) && ChangedOnly(before, draft, changed) && Named(draft)
    ensures r.Ok? <==> Valid(draft, local)
    ensures r.Ok? ==> Analysed(h, before, draft, changed, r.value.0, r.value.1)
    ensures r.Err? ==> Blames(draft, local, r.error)
  {
    var analysis := new DependencyAnalysis.Clone(h, previous);
    EditChanged(before, draft, analysis, changed);
    var edited := analysis.reverse;
    forall d ensures NamesIn(previous, d) == Dependents(before, d) && NamesIn(edited, d) == Dependents(draft, d) {
      ExactNames(h, previous, before, d);
      ExactNames(h, edited, draft, d);
    }
    var affected := CloseOver(d => NamesIn(previous, d), d => NamesIn(edited, d), before, draft, changed);
    var checked := Revalidate(draft, local, affected);
    if checked.Err? { return Err(checked.error); }
    AffectedDecide(before, draft, changed, affected, local);
    var blamed := FindCycle(before, draft, changed);
    if blamed != {} { return Err(Cycle(blamed)); }
    return Ok((edited, affected));
  }

  /** The cold path: validate everything, then close over the edges of both generations. */
  method FromScratch(h: Hashing<set<string>>, before: Content, draft: Content, changed: set<string>, local: Relation -> bool)
    returns (r: Result<(Tree<set<string>>, set<string>), PublicationError>)
    requires Named(draft)
    ensures r.Ok? <==> Valid(draft, local)
    ensures r.Ok? ==> Analysed(h, before, draft, changed, r.value.0, r.value.1)
    ensures r.Err? ==> Blames(draft, local, r.error)
  {
    var validated := Validate(draft, local);
    if validated.Err? { return Err(validated.error); }
    var dependents, oldReverse := validated.value, ReverseOf(before);
    var analysis := new DependencyAnalysis.FromReverse(h, dependents);
    forall d ensures DependentsOf(oldReverse, d) == Dependents(before, d) && DependentsOf(dependents, d) == Dependents(draft, d) {
      ReverseAt(before, d);
      ReverseAt(draft, d);
    }
    var affected := CloseOver(d => DependentsOf(oldReverse, d), d => DependentsOf(dependents, d), before, draft, changed);
    return Ok((analysis.reverse, affected));
  }
}
