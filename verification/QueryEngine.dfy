/** The engine's catalog and bindings, and the methods that may change them. */
module QueryEngine {
  import opened EngineLineage
  import opened Graphs
  import opened RegistrationOrder
  import opened Relations
  import opened Validation
  import opened Wrappers

  /** Lower-case identifiers. */
  predicate ValidName(name: string) {
    && name != ""
    && ('a' <= name[0] <= 'z' || name[0] == '_')
    && forall c | c in name[1..] :: 'a' <= c <= 'z' || '0' <= c <= '9' || c == '_'
  }

  /** Which names are valid: ASCII small letters, underscores and, after the first place, digits. */
  lemma ValidNameExactly(name: string)
    ensures ValidName(name) <==>
      |name| > 0 && forall i | 0 <= i < |name| :: 97 <= name[i] as int <= 122 || name[i] as int == 95 || (i > 0 && 48 <= name[i] as int <= 57)
  {
    if name != "" {
      forall i | 1 <= i < |name| ensures name[i] == name[1..][i - 1] && name[i] in name[1..] {}
    }
  }

  /** The relation as an engine stores it, its lineage read from its SQL. */
  function Restated(r: Relation, lineage: string -> seq<string>): Relation {
    if r.kind.View? then r.(kind := View(r.kind.sql, lineage(r.kind.sql))) else r
  }

  function RestatedAll(m: Content, lineage: string -> seq<string>): Content {
    map n | n in m :: Restated(m[n], lineage)
  }

  /** `resolves` stands for finding a provider, or planning a view, with the declared schema. */
  ghost predicate Loadable(m: Content, lineage: string -> seq<string>, resolves: Relation -> bool) {
    && (forall n | n in m :: ValidName(n) && resolves(m[n]))
    && (forall n | n in m :: LineageOf(m[n], lineage) <= m.Keys)
    && !HasCycle(LineageGraph(m, lineage))
  }

  class Engine {
    var catalog: Content
    var bindings: Bindings
    var policies: set<string>
    ghost var rank: map<string, nat>
    ghost var round: nat

    ghost predicate Valid()
      reads this
    {
      && Layered(catalog, rank) && Named(catalog) && OnBases(catalog, bindings)
      && forall n | n in rank :: rank[n] < round
    }

    constructor ()
      ensures Valid() && catalog == map[] && bindings == Bindings({}, map[]) && policies == {}
    {
      catalog, bindings, policies := map[], Bindings({}, map[]), {};
      rank, round := map[], 0;
    }

    /** Adds a relation whose dependencies are registered already. */
    method RegisterProvider(relation: Relation, resolves: bool) returns (ok: bool)
      requires Valid() && ViewDependencies(relation) <= catalog.Keys
      modifies this`catalog, this`rank, this`round
      ensures Valid()
      ensures ok <==> ValidName(relation.name) && relation.name !in old(catalog) && resolves
      ensures catalog == if ok then old(catalog)[relation.name := relation] else old(catalog)
    {
      if !ValidName(relation.name) || relation.name in catalog || !resolves { return false; }
      LayeredNext(catalog, rank, relation, round);
      rank, round := rank[relation.name := round], round + 1;
      catalog := catalog[relation.name := relation];
      return true;
    }

    method RegisterTable(relation: Relation, resolves: bool) returns (ok: bool)
      requires Valid()
      modifies this`catalog, this`rank, this`round
      ensures Valid()
      ensures ok <==> relation.kind.Base? && ValidName(relation.name) && relation.name !in old(catalog) && resolves
      ensures catalog == if ok then old(catalog)[relation.name := relation] else old(catalog)
    {
      if !relation.kind.Base? { return false; }
      ok := RegisterProvider(relation, resolves);
    }

    /** Fails on a name in use, a dependency not in the catalog, or SQL that does not plan. */
    method CreateView(relation: Relation, lineage: string -> seq<string>, resolves: bool) returns (ok: bool)
      requires Valid() && relation.kind.View?
      modifies this`catalog, this`rank, this`round
      ensures Valid()
      ensures ok <==> ValidName(relation.name) && relation.name !in old(catalog) && LineageOf(relation, lineage) <= old(catalog).Keys && resolves
      ensures catalog == if ok then old(catalog)[relation.name := Restated(relation, lineage)] else old(catalog)
    {
      if !ValidName(relation.name) || relation.name in catalog { return false; }
      if !(LineageOf(relation, lineage) <= catalog.Keys) { return false; }
      assert ViewDependencies(Restated(relation, lineage)) == LineageOf(relation, lineage);
      ok := RegisterProvider(Restated(relation, lineage), resolves);
    }

    /** Attaches a write binding and drops the cache policy of everything it may reach. */
    method AttachWrite(name: string, identity: Identity) returns (ok: bool)
      requires Valid()
      modifies this`bindings, this`policies
      ensures Valid()
      ensures ok <==> name in catalog && catalog[name].kind.Base?
      ensures !ok ==> unchanged(this)
      ensures ok ==> bindings == Bindings(old(bindings).writes + {name}, old(bindings).identities[name := identity])
      ensures ok ==> policies <= old(policies)
      ensures ok ==> forall n | n in old(policies) :: n in policies <==> !exists x :: Reaches(ViewGraph(catalog), n, x) && Written(bindings, x)
    {
      if name !in catalog || !catalog[name].kind.Base? { return false; }
      bindings := Bindings(bindings.writes + {name}, bindings.identities[name := identity]);
      policies := Eligible(policies);
      return true;
    }

    /** Of some relations, those below which nothing may be written. */
    method Eligible(names: set<string>) returns (kept: set<string>)
      requires Valid()
      ensures kept <= names
      ensures forall n | n in names :: n in kept <==> !exists x :: Reaches(ViewGraph(catalog), n, x) && Written(bindings, x)
    {
      var todo := names;
      kept := {};
      while todo != {}
        invariant todo <= names && kept <= names - todo
        invariant forall n | n in names - todo :: n in kept <==> !exists x :: Reaches(ViewGraph(catalog), n, x) && Written(bindings, x)
      {
        var n :| n in todo;
        var excluded := Excluded(n);
        if !excluded { kept := kept + {n}; }
        todo := todo - {n};
      }
    }

    method AttachIdentity(name: string, identity: Identity) returns (ok: bool)
      requires Valid()
      modifies this`bindings
      ensures Valid()
      ensures ok <==> name in catalog && catalog[name].kind.Base?
      ensures bindings == if ok then old(bindings).(identities := old(bindings).identities[name := identity]) else old(bindings)
    {
      if name !in catalog || !catalog[name].kind.Base? { return false; }
      bindings := bindings.(identities := bindings.identities[name := identity]);
      return true;
    }

    method MayBeWritten(name: string) returns (written: bool)
      ensures written <==> Written(bindings, name)
    {
      if name in bindings.writes { return true; }
      if name !in bindings.identities { return false; }
      var todo := bindings.writes;
      while todo != {}
        invariant todo <= bindings.writes
        invariant forall w | w in bindings.writes - todo && w in bindings.identities :: !MayCoincide(bindings.identities[name], bindings.identities[w])
      {
        var w :| w in todo;
        if w in bindings.identities && MayCoincide(bindings.identities[name], bindings.identities[w]) { return true; }
        todo := todo - {w};
      }
      return false;
    }

    /** Recurses through view definitions; it ends because the catalog is layered. */
    method Excluded(name: string) returns (excluded: bool)
      requires Valid()
      ensures excluded <==> exists x :: Reaches(ViewGraph(catalog), name, x) && Written(bindings, x)
    {
      ExcludedReachesWritten(catalog, rank, bindings, name);
      excluded := IsExcluded(name);
    }

    method IsExcluded(name: string) returns (excluded: bool)
      requires Valid()
      ensures excluded <==> CacheExcluded(catalog, rank, bindings, name)
      decreases if name in catalog then rank[name] + 1 else 0
    {
      excluded := MayBeWritten(name);
      if excluded || name !in catalog || !catalog[name].kind.View? { return; }
      var dependencies := catalog[name].kind.dependencies;
      for i := 0 to |dependencies|
        invariant forall d | d in dependencies[..i] :: !CacheExcluded(catalog, rank, bindings, d)
      {
        var below := IsExcluded(dependencies[i]);
        if below { return true; }
        assert dependencies[..i + 1] == dependencies[..i] + [dependencies[i]];
      }
      assert dependencies[..|dependencies|] == dependencies;
      return false;
    }

    /** Loads a whole catalog in registration order. No load that passed the ordering
      * fails for a missing or repeated relation. */
    static method FromCatalog(m: Content, lineage: string -> seq<string>, resolves: Relation -> bool, local: Relation -> bool)
      returns (r: Option<Engine>)
      requires Named(m)
      ensures r.Some? <==> Loadable(m, lineage, resolves) && Relations.Valid(RestatedAll(m, lineage), local)
      ensures r.Some? ==> fresh(r.value) && r.value.Valid() && r.value.catalog.Keys == m.Keys
      ensures r.Some? ==> forall n | n in m :: r.value.catalog[n] == Restated(m[n], lineage)
    {
      if n :| n in m && !ValidName(n) { return None; }
      var ordered := RegistrationOrder.RegistrationOrder(m, lineage);
      if ordered.Err? { return None; }
      var loaded := Load(m, lineage, resolves, ordered.value);
      if loaded.None? { return None; }
      SameValidity(loaded.value.catalog, RestatedAll(m, lineage), local);
      var checked := Validate(loaded.value.catalog, local);
      if checked.Err? { return None; }
      return loaded;
    }

    static method Load(m: Content, lineage: string -> seq<string>, resolves: Relation -> bool, order: seq<string>)
      returns (r: Option<Engine>)
      requires Named(m) && IsOrder(LineageGraph(m, lineage), order) && forall n | n in m :: ValidName(n)
      ensures r.Some? <==> forall n | n in m :: resolves(m[n])
      ensures r.Some? ==> fresh(r.value) && r.value.Valid() && r.value.catalog.Keys == m.Keys
      ensures r.Some? ==> forall n | n in m :: r.value.catalog[n] == Restated(m[n], lineage)
    {
      var engine := new Engine();
      for i := 0 to |order|
        invariant fresh(engine) && engine.Loading(m, lineage, resolves, order[..i])
      {
        var ok := engine.LoadNext(m, lineage, resolves, order, i);
        if !ok { return None; }
      }
      assert order[..|order|] == order;
      return Some(engine);
    }

    ghost predicate Loading(m: Content, lineage: string -> seq<string>, resolves: Relation -> bool, done: seq<string>)
      reads this
    {
      && Valid() && catalog.Keys == Placed(done) && catalog.Keys <= m.Keys
      && forall n | n in catalog :: catalog[n] == Restated(m[n], lineage) && resolves(m[n])
    }

    method LoadNext(m: Content, lineage: string -> seq<string>, resolves: Relation -> bool, order: seq<string>, i: nat) returns (ok: bool)
      requires Named(m) && IsOrder(LineageGraph(m, lineage), order) && i < |order| && (forall n | n in m :: ValidName(n))
      requires Loading(m, lineage, resolves, order[..i])
      modifies this`catalog, this`rank, this`round
      ensures order[i] in m && (ok <==> resolves(m[order[i]]))
      ensures ok ==> Loading(m, lineage, resolves, order[..i + 1])
    {
      NextLoads(m, lineage, order, i);
      ok := RegisterProvider(Restated(m[order[i]], lineage), resolves(m[order[i]]));
    }
  }

  /** The next name in order is new, and its dependencies are loaded. */
  lemma NextLoads(m: Content, lineage: string -> seq<string>, order: seq<string>, i: nat)
    requires IsOrder(LineageGraph(m, lineage), order) && i < |order|
    ensures order[i] in m && order[i] !in Placed(order[..i])
    ensures ViewDependencies(Restated(m[order[i]], lineage)) <= Placed(order[..i])
    ensures Placed(order[..i + 1]) == Placed(order[..i]) + {order[i]}
  {
    assert NextIn(LineageGraph(m, lineage), Placed(order[..i]), order[i]);
    assert ViewDependencies(Restated(m[order[i]], lineage)) == LineageOf(m[order[i]], lineage);
    assert order[..i + 1] == order[..i] + [order[i]];
  }

  lemma SameValidity(a: Content, b: Content, local: Relation -> bool)
    requires a.Keys == b.Keys && forall n | n in a :: a[n] == b[n]
    ensures Relations.Valid(a, local) <==> Relations.Valid(b, local)
  {
    assert a == b;
  }

  /** The view graph of every catalog an engine can reach is acyclic. */
  lemma ReachableIsAcyclic(engine: Engine)
    requires engine.Valid()
    ensures !HasCycle(ViewGraph(engine.catalog))
  {
    LayeredRanks(engine.catalog, engine.rank);
  }
}
