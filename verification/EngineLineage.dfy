/** View lineage inside an engine: which base relations a query reads, and what may be cached. */
module EngineLineage {
  import opened Graphs
  import opened Relations
  import opened Wrappers

  // ---- Catalogs an engine can reach ----

  /** Every view depends only on relations registered before it. */
  ghost predicate Layered(m: Content, rank: map<string, nat>) {
    rank.Keys == m.Keys && forall n, d | n in m && d in ViewList(m[n]) :: d in m && rank[d] < rank[n]
  }

  lemma LayeredRanks(m: Content, rank: map<string, nat>)
    requires Layered(m, rank)
    ensures Ranked(ViewGraph(m), rank) && !HasCycle(ViewGraph(m))
  {
    FullyRankedIsAcyclic(ViewGraph(m), rank);
  }

  /** Registering a relation whose dependencies already exist keeps the layering. */
  lemma LayeredNext(m: Content, rank: map<string, nat>, r: Relation, round: nat)
    requires Layered(m, rank) && r.name !in m && ViewDependencies(r) <= m.Keys && forall n | n in rank :: rank[n] < round
    ensures Layered(m[r.name := r], rank[r.name := round])
  {
    forall d | d in ViewList(r) ensures d in m { assert d in ViewDependencies(r); }
  }

  // ---- Termination of the worklist ----

  /** The number of visits the worklist makes below `n`, shared views counted each time. */
  ghost function Visits(m: Content, rank: map<string, nat>, n: string): nat
    requires Layered(m, rank)
    decreases if n in m then rank[n] + 1 else 0, 0
  {
    if n in m then 1 + VisitsAll(m, rank, n, ViewList(m[n])) else 1
  }

  ghost function VisitsAll(m: Content, rank: map<string, nat>, n: string, names: seq<string>): nat
    requires Layered(m, rank) && n in m && forall d | d in names :: d in ViewList(m[n])
    decreases rank[n], |names| + 1
  {
    if names == [] then 0
    else Visits(m, rank, names[|names| - 1]) + VisitsAll(m, rank, n, names[..|names| - 1])
  }

  ghost function Work(m: Content, rank: map<string, nat>, pending: seq<string>): nat
    requires Layered(m, rank)
  {
    if pending == [] then 0 else Visits(m, rank, pending[|pending| - 1]) + Work(m, rank, pending[..|pending| - 1])
  }

  lemma {:induction false} VisitsAreWork(m: Content, rank: map<string, nat>, n: string, names: seq<string>)
    requires Layered(m, rank) && n in m && forall d | d in names :: d in ViewList(m[n])
    ensures VisitsAll(m, rank, n, names) == Work(m, rank, names)
  {
    if names != [] { VisitsAreWork(m, rank, n, names[..|names| - 1]); }
  }

  lemma {:induction false} WorkConcat(m: Content, rank: map<string, nat>, a: seq<string>, b: seq<string>)
    requires Layered(m, rank)
    ensures Work(m, rank, a + b) == Work(m, rank, a) + Work(m, rank, b)
  {
    if b == [] {
      assert a + b == a;
    } else {
      assert (a + b)[..|a + b| - 1] == a + b[..|b| - 1];
      WorkConcat(m, rank, a, b[..|b| - 1]);
    }
  }

  /** Replacing a view by its dependencies leaves less to do, even though none is remembered. */
  lemma ExpandingShrinks(m: Content, rank: map<string, nat>, rest: seq<string>, n: string)
    requires Layered(m, rank) && n in m
    ensures Work(m, rank, rest + ViewList(m[n])) < Work(m, rank, rest + [n])
  {
    WorkConcat(m, rank, rest, ViewList(m[n]));
    VisitsAreWork(m, rank, n, ViewList(m[n]));
    assert (rest + [n])[..|rest|] == rest;
  }

  // ---- What the worklist collects ----

  ghost predicate BaseUnder(m: Content, n: string, b: string) {
    b in m && m[b].kind.Base? && Reaches(ViewGraph(m), n, b)
  }

  ghost predicate BaseUnderAny(m: Content, names: seq<string>, b: string) {
    exists n :: n in names && BaseUnder(m, n, b)
  }

  lemma AnyConcat(m: Content, names: seq<string>, more: seq<string>, b: string)
    ensures BaseUnderAny(m, names + more, b) <==> BaseUnderAny(m, names, b) || BaseUnderAny(m, more, b)
  {
    if n :| n in names && BaseUnder(m, n, b) { assert n in names + more; }
    if n :| n in more && BaseUnder(m, n, b) { assert n in names + more; }
  }

  lemma BaseUnderStep(m: Content, n: string, b: string)
    requires n in m
    ensures BaseUnder(m, n, b) <==> (n == b && m[n].kind.Base?) || BaseUnderAny(m, ViewList(m[n]), b)
  {
    var g := ViewGraph(m);
    if BaseUnder(m, n, b) && n != b {
      var p :| IsWalk(g, p) && p[0] == n && p[|p| - 1] == b;
      assert p[1] in Deps(g, p[0]);
      assert IsWalk(g, p[1..]);
      assert BaseUnder(m, p[1], b);
    }
    if d :| d in ViewList(m[n]) && BaseUnder(m, d, b) {
      assert d in Deps(g, n);
      ReachesFirst(g, n, d, b);
    }
    if n == b { ReachesSelf(g, n); }
  }

  /** Popping a name: what is under it is itself, or under what it is replaced by. */
  lemma PopStep(m: Content, rest: seq<string>, n: string, b: string)
    requires n in m
    ensures BaseUnderAny(m, rest + [n], b) <==> (n == b && m[n].kind.Base?) || BaseUnderAny(m, rest + ViewList(m[n]), b)
  {
    AnyConcat(m, rest, [n], b);
    AnyConcat(m, rest, ViewList(m[n]), b);
    BaseUnderStep(m, n, b);
    assert BaseUnderAny(m, [n], b) <==> BaseUnder(m, n, b) by { assert n in [n]; }
  }

  ghost predicate Collecting(m: Content, references: seq<string>, pending: seq<string>, bases: set<string>) {
    forall b :: BaseUnderAny(m, references, b) <==> b in bases || BaseUnderAny(m, pending, b)
  }

  lemma CollectStep(m: Content, references: seq<string>, rest: seq<string>, n: string, bases: set<string>)
    requires Collecting(m, references, rest + [n], bases) && n in m
    ensures m[n].kind.View? ==> Collecting(m, references, rest + ViewList(m[n]), bases)
    ensures m[n].kind.Base? ==> Collecting(m, references, rest, bases + {n})
  {
    forall b ensures BaseUnderAny(m, references, b) <==> b in bases || (n == b && m[n].kind.Base?) || BaseUnderAny(m, rest + ViewList(m[n]), b) {
      PopStep(m, rest, n, b);
    }
    if m[n].kind.Base? { assert rest + ViewList(m[n]) == rest; }
  }

  ghost predicate AllIn(m: Content, names: seq<string>) {
    forall n | n in names :: n in m
  }

  lemma AllInStep(m: Content, rank: map<string, nat>, rest: seq<string>, n: string)
    requires Layered(m, rank) && n in m
    ensures AllIn(m, rest + [n]) <==> AllIn(m, rest)
    ensures AllIn(m, rest) <==> AllIn(m, rest + ViewList(m[n]))
  {
    if AllIn(m, rest + [n]) {
      forall k | k in rest ensures k in m { assert k in rest + [n]; }
    }
    if AllIn(m, rest + ViewList(m[n])) {
      forall k | k in rest ensures k in m { assert k in rest + ViewList(m[n]); }
    }
  }

  /** The base relations a query reads, found without remembering visited views. */
  method BaseDependencies(m: Content, references: seq<string>, ghost rank: map<string, nat>) returns (r: Option<set<string>>)
    requires Layered(m, rank)
    ensures r.Some? <==> forall n | n in references :: n in m
    ensures r.Some? ==> forall b :: b in r.value <==> BaseUnderAny(m, references, b)
  {
    var pending := references;
    var bases: set<string> := {};
    while pending != []
      invariant Collecting(m, references, pending, bases)
      invariant AllIn(m, references) <==> AllIn(m, pending)
      decreases Work(m, rank, pending)
    {
      var n := pending[|pending| - 1];
      var rest := pending[..|pending| - 1];
      assert pending == rest + [n];
      if n !in m { return None; }
      CollectStep(m, references, rest, n, bases);
      AllInStep(m, rank, rest, n);
      ExpandingShrinks(m, rank, rest, n);
      if m[n].kind.View? {
        pending := rest + m[n].kind.dependencies;
      } else {
        assert rest + ViewList(m[n]) == rest;
        pending := rest;
        bases := bases + {n};
      }
    }
    return Some(bases);
  }

  // ---- Cache exclusion ----

  datatype Identity = Identity(namespace: string, domain: Option<string>, resource: Option<string>)

  datatype Bindings = Bindings(writes: set<string>, identities: map<string, Identity>)

  /** Nothing proves that the two are different physical resources. */
  predicate MayCoincide(r: Identity, w: Identity) {
    && r.namespace == w.namespace
    && (r.domain.None? || r.domain != w.domain || r.resource.None? || r.resource == w.resource)
  }

  /** The relation itself is, or may be, written through a binding. */
  ghost predicate Written(b: Bindings, n: string) {
    || n in b.writes
    || (n in b.identities && exists w :: w in b.writes && w in b.identities && MayCoincide(b.identities[n], b.identities[w]))
  }

  ghost predicate CacheExcluded(m: Content, rank: map<string, nat>, b: Bindings, n: string)
    requires Layered(m, rank)
    decreases if n in m then rank[n] + 1 else 0
  {
    Written(b, n) || (n in m && exists d :: d in ViewList(m[n]) && CacheExcluded(m, rank, b, d))
  }

  /** Exclusion finds exactly the relations below which something may be written. */
  lemma {:induction false} ExcludedReachesWritten(m: Content, rank: map<string, nat>, b: Bindings, n: string)
    requires Layered(m, rank)
    ensures CacheExcluded(m, rank, b, n) <==> exists x :: Reaches(ViewGraph(m), n, x) && Written(b, x)
    decreases if n in m then rank[n] + 1 else 0
  {
    var g := ViewGraph(m);
    if n in m {
      forall d | d in ViewList(m[n]) ensures CacheExcluded(m, rank, b, d) <==> exists x :: Reaches(g, d, x) && Written(b, x) {
        ExcludedReachesWritten(m, rank, b, d);
      }
    }
    if Written(b, n) { ReachesSelf(g, n); }
    if n in m {
      if d :| d in ViewList(m[n]) && CacheExcluded(m, rank, b, d) {
        var x :| Reaches(g, d, x) && Written(b, x);
        ReachesFirst(g, n, d, x);
      }
    }
    if x :| Reaches(g, n, x) && Written(b, x) {
      if x != n { FirstStep(m, n, x); }
    }
  }

  /** Two resources are told apart by their namespaces, or by different names in one known domain. */
  ghost predicate Apart(r: Identity, w: Identity) {
    r.namespace != w.namespace || exists d, x :: r.domain == Some(d) && w.domain == Some(d) && r.resource == Some(x) && w.resource != Some(x)
  }

  lemma ApartExactly(r: Identity, w: Identity)
    ensures Apart(r, w) <==> !MayCoincide(r, w)
  {
    if !MayCoincide(r, w) && r.namespace == w.namespace {
      assert r.domain == Some(r.domain.value) && r.resource == Some(r.resource.value);
    }
  }

  /** A relation is kept out of the cache exactly when something it reads through views is written, or
    * cannot be told apart from something that is. */
  lemma ExcludedExactly(m: Content, rank: map<string, nat>, b: Bindings, n: string)
    requires Layered(m, rank)
    ensures CacheExcluded(m, rank, b, n) <==>
      exists x :: Reaches(ViewGraph(m), n, x) &&
        (x in b.writes || exists w :: w in b.writes && x in b.identities && w in b.identities && !Apart(b.identities[x], b.identities[w]))
  {
    ExcludedReachesWritten(m, rank, b, n);
    forall r, w ensures Apart(r, w) <==> !MayCoincide(r, w) { ApartExactly(r, w); }
  }

  lemma FirstStep(m: Content, n: string, x: string)
    requires Reaches(ViewGraph(m), n, x) && n != x
    ensures n in m && exists d :: d in ViewList(m[n]) && Reaches(ViewGraph(m), d, x)
  {
    var g := ViewGraph(m);
    var p :| IsWalk(g, p) && p[0] == n && p[|p| - 1] == x;
    assert p[1] in Deps(g, p[0]);
    assert IsWalk(g, p[1..]);
  }

  /** Bindings and identities are attached to base relations only. */
  ghost predicate OnBases(m: Content, b: Bindings) {
    forall n | n in b.writes || n in b.identities :: n in m && m[n].kind.Base?
  }

  /** A relation is excluded exactly when one of the base relations it reads is. */
  lemma ExcludedByBases(m: Content, rank: map<string, nat>, b: Bindings, n: string)
    requires Layered(m, rank) && OnBases(m, b)
    ensures CacheExcluded(m, rank, b, n) <==> exists x :: BaseUnder(m, n, x) && CacheExcluded(m, rank, b, x)
  {
    ExcludedReachesWritten(m, rank, b, n);
    if x :| Reaches(ViewGraph(m), n, x) && Written(b, x) {
      assert BaseUnder(m, n, x) && CacheExcluded(m, rank, b, x);
    }
    if x :| BaseUnder(m, n, x) && CacheExcluded(m, rank, b, x) {
      assert Written(b, x);
    }
  }
}
