/** Relations as the catalog declares them, and what makes a set of declarations valid. */
module Relations {
  import opened Graphs
  import opened Wrappers

  datatype Field = Field(name: string, dataType: string)

  datatype Kind = Base(source: string) | View(sql: string, dependencies: seq<string>)

  datatype KeyPair = KeyPair(left: string, right: string)

  datatype Relationship = Relationship(id: string, role: string, right: string, keyPairs: seq<KeyPair>)

  /** A dimension read from the right side of one of the relation's own relationships. */
  datatype Lookup = Lookup(relationship: string, field: string)

  datatype Metric = Metric(id: string, fields: seq<string>, lookups: seq<Lookup>)

  /** Allocations, currency rates and calendars are kept as the relation each one points to. */
  datatype Semantics = Semantics(
    relationships: map<string, Relationship>,
    metrics: map<string, Metric>,
    allocations: map<string, string>,
    currencyRates: map<string, string>,
    calendars: map<string, string>,
    referenceSystems: map<string, string>)

  datatype Relation = Relation(
    name: string, fields: seq<Field>, kind: Kind, semantics: Option<Semantics>, description: string)

  type Content = map<string, Relation>

  ghost predicate Named(m: Content) {
    forall n | n in m :: m[n].name == n
  }

  /** Exact-case lookup; a missing and an ambiguous name both find nothing. */
  function FieldOf(r: Relation, name: string): Option<Field> {
    if Count(r.fields, name) == 1 then FirstField(r.fields, name) else None
  }

  function Count(fields: seq<Field>, name: string): nat {
    if fields == [] then 0 else (if fields[0].name == name then 1 else 0) + Count(fields[1..], name)
  }

  function FirstField(fields: seq<Field>, name: string): Option<Field> {
    if fields == [] then None
    else if fields[0].name == name then Some(fields[0])
    else FirstField(fields[1..], name)
  }

  // ---- Dependencies ----

  function ViewList(r: Relation): seq<string> {
    if r.kind.View? then r.kind.dependencies else []
  }

  function ViewDependencies(r: Relation): set<string> {
    set d | d in ViewList(r)
  }

  function RelationshipTargets(s: Semantics): set<string> {
    set k | k in s.relationships :: s.relationships[k].right
  }

  function ContractTargets(s: Semantics): set<string> {
    s.allocations.Values + s.currencyRates.Values + s.calendars.Values
  }

  /** Everything whose change can make this relation's declaration invalid. */
  function Dependencies(r: Relation): set<string> {
    ViewDependencies(r)
    + (if r.semantics.Some? then RelationshipTargets(r.semantics.value) + ContractTargets(r.semantics.value) else {})
  }

  function DependenciesIn(m: Content, n: string): set<string> {
    if n in m then Dependencies(m[n]) else {}
  }

  function ViewGraph(m: Content): Graph {
    map n | n in m :: ViewDependencies(m[n])
  }

  /** The reverse index of all dependency edges; only names with dependents appear. */
  function ReverseOf(m: Content): map<string, set<string>> {
    map d | d in (set n, d | n in m && d in Dependencies(m[n]) :: d) :: Dependents(m, d)
  }

  function Dependents(m: Content, d: string): set<string> {
    set n | n in m && d in Dependencies(m[n])
  }

  // ---- Definition checks that look at other relations ----

  predicate SystemsCompatible(left: Relation, leftField: string, right: Relation, rightField: string) {
    SystemOf(left, leftField) == SystemOf(right, rightField)
  }

  function SystemOf(r: Relation, field: string): Option<string> {
    if r.semantics.Some? && field in r.semantics.value.referenceSystems
    then Some(r.semantics.value.referenceSystems[field]) else None
  }

  predicate KeyPairOk(own: Relation, right: Relation, k: KeyPair) {
    var l, r := FieldOf(own, k.left), FieldOf(right, k.right);
    && l.Some? && r.Some? && l.value.dataType == r.value.dataType
    && SystemsCompatible(own, k.left, right, k.right)
  }

  predicate RelationshipOk(m: Content, own: Relation, rel: Relationship) {
    rel.right in m && forall k | k in rel.keyPairs :: KeyPairOk(own, m[rel.right], k)
  }

  predicate LookupOk(m: Content, s: Semantics, l: Lookup) {
    && l.relationship in s.relationships
    && var target := s.relationships[l.relationship].right;
       target in m && FieldOf(m[target], l.field).Some?
  }

  predicate MetricOk(m: Content, own: Relation, s: Semantics, metric: Metric) {
    && (forall f | f in metric.fields :: FieldOf(own, f).Some?)
    && (forall l | l in metric.lookups :: LookupOk(m, s, l))
  }

  predicate SemanticsOk(m: Content, own: Relation, s: Semantics) {
    && ContractTargets(s) <= m.Keys
    && (forall k | k in s.relationships :: RelationshipOk(m, own, s.relationships[k]))
    && (forall k | k in s.metrics :: MetricOk(m, own, s, s.metrics[k]))
  }

  /** `local` stands for the checks that read nothing but the relation itself. */
  ghost predicate DefinitionOk(m: Content, local: Relation -> bool, r: Relation) {
    r.semantics.Some? ==> local(r) && SemanticsOk(m, r, r.semantics.value)
  }

  ghost predicate RelationOk(m: Content, local: Relation -> bool, r: Relation) {
    ViewDependencies(r) <= m.Keys && DefinitionOk(m, local, r)
  }

  /** What a from-scratch validation accepts. */
  ghost predicate Valid(m: Content, local: Relation -> bool) {
    && (forall n | n in m :: RelationOk(m, local, m[n]))
    && !HasCycle(ViewGraph(m))
  }
}
