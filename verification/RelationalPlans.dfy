/** Values, expressions and logical plans, and what a plan means locally. */
module RelationalPlans {
  import opened Names
  import opened RowBags
  import opened Wrappers

  datatype Value = Null | Bool(b: bool) | Int(i: int) | Text(s: string) | Ratio(sum: int, count: nat)

  type Row = seq<Value>

  // ---- Expressions over references of any kind ----

  datatype Op = And | Or | Eq | NotEq | Lt | LtEq | Gt | GtEq

  datatype Expr<R> =
    | Ref(ref: R)
    | Lit(value: Value)
    | Alias(inner: Expr<R>, name: string)
    | Not(operand: Expr<R>)
    | IsNull(operand: Expr<R>)
    | IsNotNull(operand: Expr<R>)
    | Binary(op: Op, left: Expr<R>, right: Expr<R>)
    | Call(fn: string, arg: Expr<R>)

  /** Scalar functions by name. */
  type Functions = (string, Value) -> Value

  predicate IsTrue(v: Value) {
    v == Bool(true)
  }

  function Not3(v: Value): Value {
    if v.Bool? then Bool(!v.b) else Null
  }

  function And3(a: Value, b: Value): Value {
    if a == Bool(false) || b == Bool(false) then Bool(false)
    else if a == Bool(true) && b == Bool(true) then Bool(true)
    else Null
  }

  function Or3(a: Value, b: Value): Value {
    if a == Bool(true) || b == Bool(true) then Bool(true)
    else if a == Bool(false) && b == Bool(false) then Bool(false)
    else Null
  }

  function KindRank(v: Value): nat {
    match v
    case Null => 0
    case Bool(_) => 1
    case Int(_) => 2
    case Text(_) => 3
    case Ratio(_, _) => 4
  }

  /** One order for all values; a typed column only ever compares values of one kind. */
  predicate Below(a: Value, b: Value) {
    match (a, b)
    case (Bool(x), Bool(y)) => !x && y
    case (Int(x), Int(y)) => x < y
    case (Text(x), Text(y)) => Less(x, y)
    case (Ratio(x, m), Ratio(y, n)) => x < y || (x == y && m < n)
    case _ => KindRank(a) < KindRank(b)
  }

  lemma BelowTotal(a: Value, b: Value)
    ensures a == b || Below(a, b) || Below(b, a)
    ensures !(Below(a, b) && Below(b, a))
  {
    if a.Text? && b.Text? {
      LessTotal(a.s, b.s);
      if Less(a.s, b.s) { LessAsymmetric(a.s, b.s); }
    }
  }

  lemma BelowTransitive(a: Value, b: Value, c: Value)
    requires Below(a, b) && Below(b, c)
    ensures Below(a, c)
  {
    if a.Text? && b.Text? && c.Text? { LessTransitive(a.s, b.s, c.s); }
  }

  function Apply(op: Op, a: Value, b: Value): Value {
    match op
    case And => And3(a, b)
    case Or => Or3(a, b)
    case _ =>
      if a.Null? || b.Null? then Null
      else match op
        case Eq => Bool(a == b)
        case NotEq => Bool(a != b)
        case Lt => Bool(Below(a, b))
        case LtEq => Bool(a == b || Below(a, b))
        case Gt => Bool(Below(b, a))
        case _ => Bool(a == b || Below(b, a))
  }

  function Eval<R>(e: Expr<R>, env: R -> Value, fns: Functions): Value {
    match e
    case Ref(ref) => env(ref)
    case Lit(v) => v
    case Alias(inner, _) => Eval(inner, env, fns)
    case Not(a) => Not3(Eval(a, env, fns))
    case IsNull(a) => Bool(Eval(a, env, fns).Null?)
    case IsNotNull(a) => Bool(!Eval(a, env, fns).Null?)
    case Binary(op, a, b) => Apply(op, Eval(a, env, fns), Eval(b, env, fns))
    case Call(fn, a) => fns(fn, Eval(a, env, fns))
  }

  // ---- Plans ----

  datatype Column = Column(relation: Option<string>, name: string)

  type Schema = seq<Column>

  datatype JoinKind = Inner | LeftOuter | RightOuter | FullOuter | LeftSemi | LeftAnti | RightSemi | RightAnti

  datatype AggregateFn = Count | Sum | Avg | Min | Max

  /** `arg` is None for the star of COUNT(*). */
  datatype Aggregate<R> = Aggregate(fn: AggregateFn, distinct: bool, arg: Option<Expr<R>>, filter: Option<Expr<R>>)

  datatype Key = Key(left: Expr<Column>, right: Expr<Column>)

  datatype Plan =
    | Scan(table: string, source: seq<string>, projection: seq<nat>, filters: seq<Expr<Column>>, schema: Schema)
    | SubqueryAlias(input: Plan, schema: Schema)
    | Projection(exprs: seq<Expr<Column>>, input: Plan, schema: Schema)
    | Filter(predicate_: Expr<Column>, input: Plan)
    | Aggregation(groups: seq<Expr<Column>>, aggregates: seq<Aggregate<Column>>, input: Plan, schema: Schema)
    | Join(kind: JoinKind, on: seq<Key>, filter: Option<Expr<Column>>, left: Plan, right: Plan)
    | Union(inputs: seq<Plan>)
    | EmptyRelation(oneRow: bool, schema: Schema)

  function SchemaOf(p: Plan): Schema {
    match p
    case Filter(_, input) => SchemaOf(input)
    case Union(inputs) => if inputs == [] then [] else SchemaOf(inputs[0])
    case Join(kind, _, _, left, right) =>
      if kind.LeftSemi? || kind.LeftAnti? then SchemaOf(left)
      else if kind.RightSemi? || kind.RightAnti? then SchemaOf(right)
      else SchemaOf(left) + SchemaOf(right)
    case _ => p.schema
  }

  function Width(p: Plan): nat {
    |SchemaOf(p)|
  }

  predicate Matches(c: Column, f: Column) {
    c.name == f.name && (c.relation.None? || c.relation == f.relation)
  }

  /** The first field that a column reference names. */
  function IndexOf(schema: Schema, c: Column): Option<nat> {
    if schema == [] then None
    else if Matches(c, schema[0]) then Some(0)
    else
      var rest := IndexOf(schema[1..], c);
      if rest.Some? then Some(rest.value + 1) else None
  }

  /** Reading a column of a row; an unknown column reads as NULL. */
  function Field(row: Row, i: Option<nat>): Value {
    if i.Some? && i.value < |row| then row[i.value] else Null
  }

  function RowEnv(schema: Schema, row: Row): Column -> Value {
    (c: Column) => Field(row, IndexOf(schema, c))
  }

  // ---- Local meaning ----

  type Database = string -> seq<Row>

  function Nulls(n: nat): Row {
    seq(n, i => Null)
  }

  /** The fields of a table, for filters that name them without a qualifier. */
  function SourceEnv(source: seq<string>, row: Row): Column -> Value {
    (c: Column) => Field(row, NameIndex(source, c.name))
  }

  function NameIndex(names: seq<string>, name: string): Option<nat> {
    if names == [] then None
    else if names[0] == name then Some(0)
    else
      var rest := NameIndex(names[1..], name);
      if rest.Some? then Some(rest.value + 1) else None
  }

  predicate AllTrue<R(==)>(exprs: seq<Expr<R>>, env: R -> Value, fns: Functions) {
    forall e | e in exprs :: IsTrue(Eval(e, env, fns))
  }

  function EvalAll<R>(exprs: seq<Expr<R>>, env: R -> Value, fns: Functions): (r: Row)
    ensures |r| == |exprs| && forall i | 0 <= i < |exprs| :: r[i] == Eval(exprs[i], env, fns)
  {
    seq(|exprs|, i requires 0 <= i < |exprs| => Eval(exprs[i], env, fns))
  }

  function Pick(row: Row, indices: seq<nat>): (r: Row)
    ensures |r| == |indices| && forall i | 0 <= i < |indices| :: r[i] == Field(row, Some(indices[i]))
  {
    seq(|indices|, i requires 0 <= i < |indices| => Field(row, Some(indices[i])))
  }

  // Joins, over any notion of a matching pair and of an output row.

  type Match = (Row, Row) -> bool
  type Combine = (Row, Row) -> Row

  predicate MatchesRight(l: Row, right: seq<Row>, match_: Match) {
    exists r :: r in right && match_(l, r)
  }

  predicate MatchesLeft(r: Row, left: seq<Row>, match_: Match) {
    exists l :: l in left && match_(l, r)
  }

  function WithRight(l: Row, match_: Match, out: Combine): Row -> seq<Row> {
    (r: Row) => if match_(l, r) then [out(l, r)] else []
  }

  function WithLeft(r: Row, match_: Match, out: Combine): Row -> seq<Row> {
    (l: Row) => if match_(l, r) then [out(l, r)] else []
  }

  function InnerStep(right: seq<Row>, match_: Match, out: Combine): Row -> seq<Row> {
    (l: Row) => FlatMap(WithRight(l, match_, out), right)
  }

  function LeftStep(right: seq<Row>, match_: Match, out: Combine, noRight: Row): Row -> seq<Row> {
    (l: Row) => if MatchesRight(l, right, match_) then FlatMap(WithRight(l, match_, out), right) else [out(l, noRight)]
  }

  function RightStep(left: seq<Row>, match_: Match, out: Combine, noLeft: Row): Row -> seq<Row> {
    (r: Row) => if MatchesLeft(r, left, match_) then FlatMap(WithLeft(r, match_, out), left) else [out(noLeft, r)]
  }

  /** The left rows with a partner, or those without one. */
  function LeftOnly(right: seq<Row>, match_: Match, out: Combine, noRight: Row, partner: bool): Row -> seq<Row> {
    (l: Row) => if MatchesRight(l, right, match_) == partner then [out(l, noRight)] else []
  }

  function RightOnly(left: seq<Row>, match_: Match, out: Combine, noLeft: Row, partner: bool): Row -> seq<Row> {
    (r: Row) => if MatchesLeft(r, left, match_) == partner then [out(noLeft, r)] else []
  }

  function JoinRows(kind: JoinKind, left: seq<Row>, right: seq<Row>, match_: Match, out: Combine, noLeft: Row, noRight: Row): seq<Row> {
    match kind
    case Inner => FlatMap(InnerStep(right, match_, out), left)
    case LeftOuter => FlatMap(LeftStep(right, match_, out, noRight), left)
    case RightOuter => FlatMap(RightStep(left, match_, out, noLeft), right)
    case FullOuter => FlatMap(LeftStep(right, match_, out, noRight), left) + FlatMap(RightOnly(left, match_, out, noLeft, false), right)
    case LeftSemi => FlatMap(LeftOnly(right, match_, out, noRight, true), left)
    case LeftAnti => FlatMap(LeftOnly(right, match_, out, noRight, false), left)
    case RightSemi => FlatMap(RightOnly(left, match_, out, noLeft, true), right)
    case RightAnti => FlatMap(RightOnly(left, match_, out, noLeft, false), right)
  }

  // Aggregates, over the argument values of the rows that pass the filter.

  function NonNull(values: seq<Value>): seq<Value> {
    if values == [] then [] else (if values[0].Null? then [] else [values[0]]) + NonNull(values[1..])
  }

  function Total(values: seq<Value>): int {
    if values == [] then 0 else (if values[0].Int? then values[0].i else 0) + Total(values[1..])
  }

  function Extreme(values: seq<Value>, least: bool): Value {
    if values == [] then Null
    else if |values| == 1 then values[0]
    else
      var rest := Extreme(values[1..], least);
      if (if least then Below(rest, values[0]) else Below(values[0], rest)) then rest else values[0]
  }

  function AggregateOf(fn: AggregateFn, distinct: bool, values: seq<Value>): Value {
    var present := NonNull(values);
    match fn
    case Count => if distinct then Int(|set v | v in present|) else Int(|present|)
    case Sum => if present == [] then Null else Int(Total(present))
    case Avg => if present == [] then Null else Ratio(Total(present), |present|)
    case Min => Extreme(present, true)
    case Max => Extreme(present, false)
  }

  // Grouping, over any notion of a key and of what a group is summarised to.

  function Without<A(==)>(s: seq<A>, x: A): seq<A> {
    if s == [] then [] else (if s[0] == x then [] else [s[0]]) + Without(s[1..], x)
  }

  function Dedup<A(==)>(s: seq<A>): seq<A> {
    if s == [] then [] else [s[0]] + Without(Dedup(s[1..]), s[0])
  }

  function InGroup(key: Row -> Row, k: Row): Row -> seq<Row> {
    (row: Row) => if key(row) == k then [row] else []
  }

  function Summaries(n: nat, summary: (nat, seq<Row>) -> Value, rows: seq<Row>): (r: Row)
    ensures |r| == n && forall i | 0 <= i < n :: r[i] == summary(i, rows)
  {
    seq(n, i requires 0 <= i < n => summary(i, rows))
  }

  function GroupRow(rows: seq<Row>, key: Row -> Row, n: nat, summary: (nat, seq<Row>) -> Value): Row -> Row {
    (k: Row) => k + Summaries(n, summary, FlatMap(InGroup(key, k), rows))
  }

  function Grouped(global: bool, rows: seq<Row>, key: Row -> Row, n: nat, summary: (nat, seq<Row>) -> Value): seq<Row> {
    if global then [Summaries(n, summary, rows)] else Map(GroupRow(rows, key, n, summary), Dedup(Map(key, rows)))
  }

  /** What a row contributes to an aggregate. */
  function Contribution<R>(a: Aggregate<R>, env: R -> Value, fns: Functions): seq<Value> {
    if a.filter.Some? && !IsTrue(Eval(a.filter.value, env, fns)) then []
    else [if a.arg.Some? then Eval(a.arg.value, env, fns) else Int(1)]
  }

  function Contributions(a: Aggregate<Column>, schema: Schema, fns: Functions): Row -> seq<Value> {
    (row: Row) => Contribution(a, RowEnv(schema, row), fns)
  }

  function Summary(aggregates: seq<Aggregate<Column>>, schema: Schema, fns: Functions): (nat, seq<Row>) -> Value {
    (i: nat, rows: seq<Row>) =>
      if i < |aggregates| then
        AggregateOf(aggregates[i].fn, aggregates[i].distinct, FlatMap(Contributions(aggregates[i], schema, fns), rows))
      else Null
  }

  function GroupKey(groups: seq<Expr<Column>>, schema: Schema, fns: Functions): Row -> Row {
    (row: Row) => EvalAll(groups, RowEnv(schema, row), fns)
  }

  /** A pair joins when every key pair is equal, NULL never being, and the filter holds. */
  function JoinMatch(on: seq<Key>, filter: Option<Expr<Column>>, left: Schema, right: Schema, fns: Functions): Match {
    (l: Row, r: Row) =>
      && (forall k | k in on :: IsTrue(Apply(Eq, Eval(k.left, RowEnv(left, l), fns), Eval(k.right, RowEnv(right, r), fns))))
      && (filter.Some? ==> IsTrue(Eval(filter.value, RowEnv(left + right, l + r), fns)))
  }

  function JoinOut(kind: JoinKind): Combine {
    (l: Row, r: Row) =>
      if kind.LeftSemi? || kind.LeftAnti? then l else if kind.RightSemi? || kind.RightAnti? then r else l + r
  }

  function ScanStep(filters: seq<Expr<Column>>, source: seq<string>, projection: seq<nat>, fns: Functions): Row -> seq<Row> {
    (row: Row) => if AllTrue(filters, SourceEnv(source, row), fns) then [Pick(row, projection)] else []
  }

  function ProjectStep(exprs: seq<Expr<Column>>, schema: Schema, fns: Functions): Row -> seq<Row> {
    (row: Row) => [EvalAll(exprs, RowEnv(schema, row), fns)]
  }

  function FilterStep(e: Expr<Column>, schema: Schema, fns: Functions): Row -> seq<Row> {
    (row: Row) => if IsTrue(Eval(e, RowEnv(schema, row), fns)) then [row] else []
  }

  /** The rows a plan produces; their order carries no meaning. */
  function Rows(p: Plan, db: Database, fns: Functions): seq<Row>
    decreases p, if p.Union? then |p.inputs| + 2 else 0
  {
    match p
    case Scan(table, source, projection, filters, _) => FlatMap(ScanStep(filters, source, projection, fns), db(table))
    case SubqueryAlias(input, _) => Rows(input, db, fns)
    case Projection(exprs, input, _) => FlatMap(ProjectStep(exprs, SchemaOf(input), fns), Rows(input, db, fns))
    case Filter(e, input) => FlatMap(FilterStep(e, SchemaOf(input), fns), Rows(input, db, fns))
    case Aggregation(groups, aggregates, input, _) =>
      Grouped(groups == [], Rows(input, db, fns), GroupKey(groups, SchemaOf(input), fns), |aggregates|, Summary(aggregates, SchemaOf(input), fns))
    case Join(kind, on, filter, left, right) =>
      JoinRows(kind, Rows(left, db, fns), Rows(right, db, fns), JoinMatch(on, filter, SchemaOf(left), SchemaOf(right), fns), JoinOut(kind),
        Nulls(Width(left)), Nulls(Width(right)))
    case Union(inputs) => UnionRows(p, inputs, db, fns)
    case EmptyRelation(oneRow, schema) => if oneRow then [Nulls(|schema|)] else []
  }

  function UnionRows(p: Plan, inputs: seq<Plan>, db: Database, fns: Functions): seq<Row>
    requires p.Union? && inputs <= p.inputs
    decreases p, 1 + |inputs|
  {
    if inputs == [] then []
    else UnionRows(p, inputs[..|inputs| - 1], db, fns) + Rows(inputs[|inputs| - 1], db, fns)
  }
}
