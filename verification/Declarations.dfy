/** What an accepted catalog is, and what its index holds, read off the declarations. */
module Declarations {
  import opened Graphs
  import opened Incremental
  import opened Relations
  import opened ReverseIndex
  import opened Treap
  import opened Wrappers

  // ---- References ----

  /** The view lists `d`, or a relationship, allocation, currency rate or calendar points to it. */
  ghost predicate Declares(r: Relation, d: string) {
    || (r.kind.View? && d in r.kind.dependencies)
    || (r.semantics.Some? &&
        var s := r.semantics.value;
        || (exists k :: k in s.relationships && s.relationships[k].right == d)
        || (exists k :: k in s.allocations && s.allocations[k] == d)
        || (exists k :: k in s.currencyRates && s.currencyRates[k] == d)
        || (exists k :: k in s.calendars && s.calendars[k] == d))
  }

  lemma DependsExactly(r: Relation, d: string)
    ensures d in Dependencies(r) <==> Declares(r, d)
  {
  }

  /** In an exact reverse index, `d` has the dependent `n` exactly when `n` declares it. */
  lemma IndexedExactly(h: Hashing<set<string>>, t: Tree<set<string>>, m: Content, d: string, n: string)
    requires Exact(h, t, m)
    ensures Find(t, d).Some? && n in Find(t, d).value <==> n in m && Declares(m[n], d)
  {
    ContentsFind(h, t, d);
    ReverseEdgesOf(m);
    assert EdgeIn(Contents(t), d, n) <==> Find(t, d).Some? && n in Find(t, d).value;
    if n in m { DependsExactly(m[n], d); }
  }

  // ---- Influence ----

  /** `n` declares `d` in the old catalog or in the new one. */
  ghost predicate Listens(before: Content, draft: Content, n: string, d: string) {
    (n in before && Declares(before[n], d)) || (n in draft && Declares(draft[n], d))
  }

  /** A change spreads along `p`, each relation declaring the one before it. */
  ghost predicate Spreads(before: Content, draft: Content, p: seq<string>) {
    |p| >= 1 && forall i | 0 <= i < |p| - 1 :: Listens(before, draft, p[i + 1], p[i])
  }

  lemma ListensExactly(before: Content, draft: Content, n: string, d: string)
    ensures Listens(before, draft, n, d) <==> n in Deps(Influence(before, draft), d)
  {
    InfluenceOf(before, draft, d);
    if n in before { DependsExactly(before[n], d); }
    if n in draft { DependsExactly(draft[n], d); }
  }

  lemma SpreadsIsWalk(before: Content, draft: Content, p: seq<string>)
    ensures Spreads(before, draft, p) <==> IsWalk(Influence(before, draft), p)
  {
    forall n, d ensures Listens(before, draft, n, d) <==> n in Deps(Influence(before, draft), d) { ListensExactly(before, draft, n, d); }
    if IsWalk(Influence(before, draft), p) {
      forall i | 0 <= i < |p| - 1 ensures Listens(before, draft, p[i + 1], p[i]) {
        assert p[i + 1] in Deps(Influence(before, draft), p[i]);
      }
    }
    if Spreads(before, draft, p) {
      forall i | 0 <= i < |p| - 1 ensures p[i + 1] in Deps(Influence(before, draft), p[i]) {
        assert Listens(before, draft, p[i + 1], p[i]);
      }
    }
  }

  /** The affected relations are exactly those a change spreads to. */
  lemma AffectedExactly(before: Content, draft: Content, changed: set<string>, affected: set<string>, n: string)
    requires IsAffectedSet(before, draft, changed, affected)
    ensures n in affected <==> exists p :: Spreads(before, draft, p) && p[0] in changed && p[|p| - 1] == n
  {
    var g := Influence(before, draft);
    if n in affected {
      var c :| c in changed && Reaches(g, c, n);
      var p :| IsWalk(g, p) && p[0] == c && p[|p| - 1] == n;
      SpreadsIsWalk(before, draft, p);
    }
    if p :| Spreads(before, draft, p) && p[0] in changed && p[|p| - 1] == n {
      SpreadsIsWalk(before, draft, p);
      assert Reaches(g, p[0], n);
    }
  }

  // ---- Fields ----

  /** The only field of that name. */
  predicate OnlyField(r: Relation, name: string, i: nat) {
    i < |r.fields| && r.fields[i].name == name && forall j | 0 <= j < |r.fields| && j != i :: r.fields[j].name != name
  }

  lemma {:induction false} CountNone(fields: seq<Field>, name: string)
    ensures Count(fields, name) == 0 <==> forall i | 0 <= i < |fields| :: fields[i].name != name
  {
    if fields != [] {
      CountNone(fields[1..], name);
      forall i | 0 < i < |fields| ensures fields[i] == fields[1..][i - 1] {}
    }
  }

  lemma {:induction false} CountOne(fields: seq<Field>, name: string, i: nat)
    requires i < |fields| && fields[i].name == name && forall j | 0 <= j < |fields| && j != i :: fields[j].name != name
    ensures Count(fields, name) == 1 && FirstField(fields, name) == Some(fields[i])
  {
    if i == 0 { CountNone(fields[1..], name); } else { CountOne(fields[1..], name, i - 1); }
  }

  lemma {:induction false} OneCounted(fields: seq<Field>, name: string) returns (i: nat)
    requires Count(fields, name) == 1
    ensures i < |fields| && fields[i].name == name && forall j | 0 <= j < |fields| && j != i :: fields[j].name != name
  {
    if fields[0].name == name {
      CountNone(fields[1..], name);
      forall j | 0 < j < |fields| ensures fields[j].name != name { assert fields[j] == fields[1..][j - 1]; }
      i := 0;
    } else {
      var k := OneCounted(fields[1..], name);
      forall j | 0 < j < |fields| ensures fields[j] == fields[1..][j - 1] {}
      i := k + 1;
    }
  }

  /** A name finds a field exactly when it is the name of one field only. */
  lemma FieldFound(r: Relation, name: string)
    ensures FieldOf(r, name).Some? <==> exists i: nat :: OnlyField(r, name, i)
    ensures forall i: nat | OnlyField(r, name, i) :: FieldOf(r, name) == Some(r.fields[i])
  {
    if FieldOf(r, name).Some? {
      var i := OneCounted(r.fields, name);
      assert OnlyField(r, name, i);
    }
    forall i: nat | OnlyField(r, name, i) ensures FieldOf(r, name) == Some(r.fields[i]) { CountOne(r.fields, name, i); }
  }

  // ---- What is accepted ----

  /** Both fields are there once and of one type, and both or neither carry a reference system, the same one. */
  ghost predicate PairFits(own: Relation, right: Relation, k: KeyPair) {
    && (exists i: nat, j: nat :: OnlyField(own, k.left, i) && OnlyField(right, k.right, j) && own.fields[i].dataType == right.fields[j].dataType)
    && var carries := own.semantics.Some? && k.left in own.semantics.value.referenceSystems;
       && (carries <==> right.semantics.Some? && k.right in right.semantics.value.referenceSystems)
       && (carries ==> own.semantics.value.referenceSystems[k.left] == right.semantics.value.referenceSystems[k.right])
  }

  lemma PairFitsExactly(own: Relation, right: Relation, k: KeyPair)
    ensures KeyPairOk(own, right, k) <==> PairFits(own, right, k)
  {
    FieldFound(own, k.left);
    FieldFound(right, k.right);
  }

  /** The field is found on the right side of one of the relation's own relationships. */
  ghost predicate Reachable(m: Content, s: Semantics, l: Lookup) {
    && l.relationship in s.relationships && s.relationships[l.relationship].right in m
    && exists i: nat :: OnlyField(m[s.relationships[l.relationship].right], l.field, i)
  }

  ghost predicate MetricFits(m: Content, own: Relation, s: Semantics, metric: Metric) {
    && (forall f | f in metric.fields :: exists i: nat :: OnlyField(own, f, i))
    && (forall l | l in metric.lookups :: Reachable(m, s, l))
  }

  ghost predicate RelationFits(m: Content, local: Relation -> bool, r: Relation) {
    && (r.kind.View? ==> forall d | d in r.kind.dependencies :: d in m)
    && (r.semantics.Some? ==>
          var s := r.semantics.value;
          && local(r)
          && (forall k | k in s.allocations :: s.allocations[k] in m)
          && (forall k | k in s.currencyRates :: s.currencyRates[k] in m)
          && (forall k | k in s.calendars :: s.calendars[k] in m)
          && (forall k | k in s.relationships ::
                s.relationships[k].right in m && forall p | p in s.relationships[k].keyPairs :: PairFits(r, m[s.relationships[k].right], p))
          && (forall k | k in s.metrics :: MetricFits(m, r, s, s.metrics[k])))
  }

  lemma TargetsExist(m: Content, s: Semantics)
    ensures ContractTargets(s) <= m.Keys <==>
      && (forall k | k in s.allocations :: s.allocations[k] in m)
      && (forall k | k in s.currencyRates :: s.currencyRates[k] in m)
      && (forall k | k in s.calendars :: s.calendars[k] in m)
  {
    if ContractTargets(s) <= m.Keys {
      forall k | k in s.allocations ensures s.allocations[k] in m { assert s.allocations[k] in s.allocations.Values; }
      forall k | k in s.currencyRates ensures s.currencyRates[k] in m { assert s.currencyRates[k] in s.currencyRates.Values; }
      forall k | k in s.calendars ensures s.calendars[k] in m { assert s.calendars[k] in s.calendars.Values; }
    }
  }

  lemma MetricFitsExactly(m: Content, own: Relation, s: Semantics, metric: Metric)
    ensures MetricOk(m, own, s, metric) <==> MetricFits(m, own, s, metric)
  {
    forall f | f in metric.fields ensures FieldOf(own, f).Some? <==> exists i: nat :: OnlyField(own, f, i) { FieldFound(own, f); }
    forall l | l in metric.lookups ensures LookupOk(m, s, l) <==> Reachable(m, s, l) {
      if l.relationship in s.relationships && s.relationships[l.relationship].right in m {
        FieldFound(m[s.relationships[l.relationship].right], l.field);
      }
    }
  }

  lemma RelationFitsExactly(m: Content, local: Relation -> bool, r: Relation)
    ensures RelationOk(m, local, r) <==> RelationFits(m, local, r)
  {
    assert ViewDependencies(r) <= m.Keys <==> (r.kind.View? ==> forall d | d in r.kind.dependencies :: d in m);
    if r.semantics.Some? {
      var s := r.semantics.value;
      TargetsExist(m, s);
      forall k | k in s.metrics ensures MetricOk(m, r, s, s.metrics[k]) <==> MetricFits(m, r, s, s.metrics[k]) {
        MetricFitsExactly(m, r, s, s.metrics[k]);
      }
      forall k, p | k in s.relationships && s.relationships[k].right in m && p in s.relationships[k].keyPairs
        ensures KeyPairOk(r, m[s.relationships[k].right], p) <==> PairFits(r, m[s.relationships[k].right], p)
      {
        PairFitsExactly(r, m[s.relationships[k].right], p);
      }
    }
  }

  /** Views that read each other in a circle. */
  ghost predicate IsViewCircle(m: Content, p: seq<string>) {
    && |p| >= 2 && p[0] == p[|p| - 1]
    && forall i | 0 <= i < |p| - 1 :: p[i] in m && m[p[i]].kind.View? && p[i + 1] in m[p[i]].kind.dependencies
  }

  lemma CircleIsCycle(m: Content, p: seq<string>)
    ensures IsCycle(ViewGraph(m), p) <==> IsViewCircle(m, p)
  {
    forall i | 0 <= i < |p| - 1 && IsWalk(ViewGraph(m), p)
      ensures p[i] in m && m[p[i]].kind.View? && p[i + 1] in m[p[i]].kind.dependencies
    {
      assert p[i + 1] in Deps(ViewGraph(m), p[i]);
    }
  }

  /** A catalog is valid exactly when every reference of every relation leads to something that
    * fits, and no views read each other in a circle. */
  lemma ValidExactly(m: Content, local: Relation -> bool)
    ensures Valid(m, local) <==> (forall n | n in m :: RelationFits(m, local, m[n])) && forall p :: !IsViewCircle(m, p)
  {
    forall n | n in m ensures RelationOk(m, local, m[n]) <==> RelationFits(m, local, m[n]) { RelationFitsExactly(m, local, m[n]); }
    forall p ensures IsCycle(ViewGraph(m), p) <==> IsViewCircle(m, p) { CircleIsCycle(m, p); }
  }
}
