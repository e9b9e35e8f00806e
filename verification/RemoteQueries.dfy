/** The nested SELECTs sent to ClickHouse, and what they mean there. */
module RemoteQueries {
  import opened RelationalPlans
  import opened RowBags
  import opened Wrappers

  /** `C(i)` is the positional name `__ci`, `SemanticRow` is `__semantic_row`, and
    * `Named` a column of a stored table or of the final result. */
  datatype Label = C(index: nat) | SemanticRow | Named(name: string)

  /** The table aliases of rendered queries; `Bare` is an unqualified name. */
  datatype From = Bare | Q | L | R | Result

  datatype Name = Name(from: From, column: Label)

  type RemoteExpr = Expr<Name>

  datatype Item = Item(expr: RemoteExpr, column: Label)

  /** Aggregate functions by their ClickHouse base name; `conditional` is the -If combinator. */
  datatype RemoteFn = RCount | RUniqExact | RSum | RAvg | RMin | RMax | RSumOrNull | RAvgOrNull | RMinOrNull | RMaxOrNull

  datatype RemoteCall = RemoteCall(fn: RemoteFn, conditional: bool, distinct: bool, args: seq<RemoteExpr>, filter: Option<RemoteExpr>)

  datatype Query =
    | Table(table: string, columns: seq<string>)
    | Select(items: seq<Item>, from: Query, where_: seq<RemoteExpr>)
    | SelectAll(from: Query, where_: seq<RemoteExpr>)
    | SelectGroups(keys: seq<RemoteExpr>, calls: seq<RemoteCall>, from: Query)
    | SelectJoin(kind: JoinKind, items: seq<Item>, left: Query, right: Query, on: seq<RemoteExpr>)
    | UnionAll(inputs: seq<Query>)
    | SelectOne(keep: bool)

  function Positions(n: nat): (r: seq<Label>)
    ensures |r| == n && forall i | 0 <= i < n :: r[i] == C(i)
  {
    seq(n, i requires 0 <= i < n => C(i))
  }

  function ItemLabels(items: seq<Item>): (r: seq<Label>)
    ensures |r| == |items| && forall i | 0 <= i < |items| :: r[i] == items[i].column
  {
    seq(|items|, i requires 0 <= i < |items| => items[i].column)
  }

  function ItemExprs(items: seq<Item>): (r: seq<RemoteExpr>)
    ensures |r| == |items| && forall i | 0 <= i < |items| :: r[i] == items[i].expr
  {
    seq(|items|, i requires 0 <= i < |items| => items[i].expr)
  }

  function Labels(q: Query): seq<Label> {
    match q
    case Table(_, columns) => seq(|columns|, i requires 0 <= i < |columns| => Named(columns[i]))
    case Select(items, _, _) => ItemLabels(items)
    case SelectAll(from, _) => Labels(from)
    case SelectGroups(keys, calls, _) => Positions(|keys| + |calls|)
    case SelectJoin(_, items, _, _, _) => ItemLabels(items)
    case UnionAll(inputs) => if inputs == [] then [] else Labels(inputs[0])
    case SelectOne(_) => [SemanticRow]
  }

  function LabelIndex(labels: seq<Label>, x: Label): Option<nat> {
    if labels == [] then None
    else if labels[0] == x then Some(0)
    else
      var rest := LabelIndex(labels[1..], x);
      if rest.Some? then Some(rest.value + 1) else None
  }

  /** Names inside a query over one subquery. */
  function SubEnv(labels: seq<Label>, row: Row): Name -> Value {
    (name: Name) => Field(row, LabelIndex(labels, name.column))
  }

  /** Names inside a join, by the alias of their side. */
  function JoinEnv(left: seq<Label>, right: seq<Label>, l: Row, r: Row): Name -> Value {
    (name: Name) =>
      if name.from.R? then Field(r, LabelIndex(right, name.column)) else Field(l, LabelIndex(left, name.column))
  }

  /** The order in which each subquery happens to deliver its rows. */
  type Delivery = (Query, seq<Row>) -> seq<Row>

  ghost predicate Rearranges(order: Delivery) {
    forall q, rows :: SameBag(order(q, rows), rows)
  }

  // ---- Aggregate functions ----

  predicate Passes(call: RemoteCall, env: Name -> Value, fns: Functions) {
    && (call.filter.Some? ==> IsTrue(Eval(call.filter.value, env, fns)))
    && (call.conditional ==> call.args != [] && IsTrue(Eval(call.args[|call.args| - 1], env, fns)))
  }

  /** The -If combinator takes its condition from the last argument. */
  function CallArgs(call: RemoteCall): seq<RemoteExpr> {
    if call.conditional && call.args != [] then call.args[..|call.args| - 1] else call.args
  }

  function CallInput(call: RemoteCall, env: Name -> Value, fns: Functions): seq<Value> {
    if !Passes(call, env, fns) then []
    else [if CallArgs(call) != [] then Eval(CallArgs(call)[0], env, fns) else Int(1)]
  }

  /** ClickHouse's defaults for no input: zero for the plain functions, NULL for the -OrNull ones. */
  function RemoteAggregate(fn: RemoteFn, distinct: bool, values: seq<Value>): Value {
    match fn
    case RCount => AggregateOf(Count, distinct, values)
    case RUniqExact => AggregateOf(Count, true, values)
    case RSumOrNull => AggregateOf(Sum, distinct, values)
    case RAvgOrNull => AggregateOf(Avg, distinct, values)
    case RMinOrNull => AggregateOf(Min, distinct, values)
    case RMaxOrNull => AggregateOf(Max, distinct, values)
    case RSum => if NonNull(values) == [] then Int(0) else AggregateOf(Sum, distinct, values)
    case RAvg => if NonNull(values) == [] then Ratio(0, 0) else AggregateOf(Avg, distinct, values)
    case RMin => if NonNull(values) == [] then Int(0) else AggregateOf(Min, distinct, values)
    case RMax => if NonNull(values) == [] then Int(0) else AggregateOf(Max, distinct, values)
  }

  function CallInputs(call: RemoteCall, labels: seq<Label>, fns: Functions): Row -> seq<Value> {
    (row: Row) => CallInput(call, SubEnv(labels, row), fns)
  }

  function RemoteSummary(calls: seq<RemoteCall>, labels: seq<Label>, fns: Functions): (nat, seq<Row>) -> Value {
    (i: nat, rows: seq<Row>) =>
      if i < |calls| then
        RemoteAggregate(calls[i].fn, calls[i].distinct, FlatMap(CallInputs(calls[i], labels, fns), rows))
      else Null
  }

  function RemoteKey(keys: seq<RemoteExpr>, labels: seq<Label>, fns: Functions): Row -> Row {
    (row: Row) => EvalAll(keys, SubEnv(labels, row), fns)
  }

  // ---- Queries ----

  function RemoteMatch(on: seq<RemoteExpr>, left: seq<Label>, right: seq<Label>, fns: Functions): Match {
    (l: Row, r: Row) => AllTrue(on, JoinEnv(left, right, l, r), fns)
  }

  function RemoteOut(items: seq<Item>, left: seq<Label>, right: seq<Label>, fns: Functions): Combine {
    (l: Row, r: Row) => EvalAll(ItemExprs(items), JoinEnv(left, right, l, r), fns)
  }

  function SelectStep(items: seq<Item>, where_: seq<RemoteExpr>, labels: seq<Label>, fns: Functions): Row -> seq<Row> {
    (row: Row) => if AllTrue(where_, SubEnv(labels, row), fns) then [EvalAll(ItemExprs(items), SubEnv(labels, row), fns)] else []
  }

  function WhereStep(where_: seq<RemoteExpr>, labels: seq<Label>, fns: Functions): Row -> seq<Row> {
    (row: Row) => if AllTrue(where_, SubEnv(labels, row), fns) then [row] else []
  }

  /** With join_use_nulls set, the missing side of an outer join reads as NULL. */
  function RemoteRows(q: Query, db: Database, fns: Functions, order: Delivery): seq<Row>
    decreases q, if q.UnionAll? then |q.inputs| + 2 else 0
  {
    match q
    case Table(table, _) => order(q, db(table))
    case Select(items, from, where_) => order(q, FlatMap(SelectStep(items, where_, Labels(from), fns), RemoteRows(from, db, fns, order)))
    case SelectAll(from, where_) => order(q, FlatMap(WhereStep(where_, Labels(from), fns), RemoteRows(from, db, fns, order)))
    case SelectGroups(keys, calls, from) =>
      order(q, Grouped(keys == [], RemoteRows(from, db, fns, order), RemoteKey(keys, Labels(from), fns), |calls|, RemoteSummary(calls, Labels(from), fns)))
    case SelectJoin(kind, items, left, right, on) =>
      order(q, JoinRows(kind, RemoteRows(left, db, fns, order), RemoteRows(right, db, fns, order),
        RemoteMatch(on, Labels(left), Labels(right), fns), RemoteOut(items, Labels(left), Labels(right), fns),
        Nulls(|Labels(left)|), Nulls(|Labels(right)|)))
    case UnionAll(inputs) => order(q, RemoteUnion(q, inputs, db, fns, order))
    case SelectOne(keep) => if keep then [[Int(1)]] else []
  }

  function RemoteUnion(q: Query, inputs: seq<Query>, db: Database, fns: Functions, order: Delivery): seq<Row>
    requires q.UnionAll? && inputs <= q.inputs
    decreases q, 1 + |inputs|
  {
    if inputs == [] then []
    else RemoteUnion(q, inputs[..|inputs| - 1], db, fns, order) + RemoteRows(inputs[|inputs| - 1], db, fns, order)
  }
}
