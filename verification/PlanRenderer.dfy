/** Rendering a logical plan to nested SELECTs whose columns are named by position. */
module PlanRenderer {
  import opened RelationalPlans
  import opened RemoteQueries
  import opened Wrappers

  // ---- Expressions ----

  type Resolver = Column -> Option<Name>

  /** A plain column of the only input, by position. */
  function InputNames(schema: Schema): Resolver {
    (c: Column) =>
      var i := IndexOf(schema, c);
      if i.Some? then Some(Name(Q, C(i.value))) else None
  }

  /** Both sides of a join see both inputs, the left one first. */
  function JoinNames(left: Schema, right: Schema): Resolver {
    (c: Column) =>
      var i, j := IndexOf(left, c), IndexOf(right, c);
      if i.Some? then Some(Name(L, C(i.value)))
      else if j.Some? then Some(Name(R, C(j.value)))
      else None
  }

  /** Filters pushed into a scan use the table's own names. */
  function ScanNames(): Resolver {
    (c: Column) => Some(Name(Bare, Named(c.name)))
  }

  /** ClickHouse's case mapping of full Unicode text goes by another name. */
  function RemoteFunction(fn: string): string {
    if fn == "lower" then "lowerUTF8" else if fn == "upper" then "upperUTF8" else fn
  }

  /** The names that only ClickHouse has are not functions of a plan. */
  predicate IsLocal(fn: string) {
    fn != "lowerUTF8" && fn != "upperUTF8"
  }

  function RenderExpr(e: Expr<Column>, names: Resolver): Option<RemoteExpr> {
    match e
    case Ref(c) => (match names(c) case Some(name) => Some(Ref(name)) case None => None)
    case Lit(v) => Some(Lit(v))
    case Alias(inner, _) => RenderExpr(inner, names)
    case Not(a) => (match RenderExpr(a, names) case Some(x) => Some(Not(x)) case None => None)
    case IsNull(a) => (match RenderExpr(a, names) case Some(x) => Some(IsNull(x)) case None => None)
    case IsNotNull(a) => (match RenderExpr(a, names) case Some(x) => Some(IsNotNull(x)) case None => None)
    case Binary(op, a, b) =>
      (match (RenderExpr(a, names), RenderExpr(b, names))
       case (Some(x), Some(y)) => Some(Binary(op, x, y))
       case _ => None)
    case Call(fn, a) =>
      if !IsLocal(fn) then None
      else match RenderExpr(a, names) case Some(x) => Some(Call(RemoteFunction(fn), x)) case None => None
  }

  function RenderAll(exprs: seq<Expr<Column>>, names: Resolver): (r: Option<seq<RemoteExpr>>)
    ensures r.Some? ==> |r.value| == |exprs| && forall i | 0 <= i < |exprs| :: RenderExpr(exprs[i], names) == Some(r.value[i])
  {
    if exprs == [] then Some([])
    else
      match (RenderAll(exprs[..|exprs| - 1], names), RenderExpr(exprs[|exprs| - 1], names))
      case (Some(xs), Some(x)) => Some(xs + [x])
      case _ => None
  }

  // ---- Aggregates ----

  function BaseFn(fn: AggregateFn): RemoteFn {
    match fn case Count => RCount case Sum => RSum case Avg => RAvg case Min => RMin case Max => RMax
  }

  function BaseCall(a: Aggregate<Column>, names: Resolver): Option<RemoteCall> {
    var args := if a.arg.Some? then RenderAll([a.arg.value], names) else Some([]);
    var filter := if a.filter.Some? then RenderAll([a.filter.value], names) else Some([]);
    if args.None? || filter.None? then None
    else Some(RemoteCall(BaseFn(a.fn), false, a.distinct, args.value, if a.filter.Some? then Some(filter.value[0]) else None))
  }

  /** Names by which ClickHouse keeps SQL's NULL for an empty input and exact distinct counts. */
  function RenamedCall(call: RemoteCall): RemoteCall {
    match call.fn
    case RCount => if call.distinct then call.(fn := RUniqExact, distinct := false) else call
    case RSum => call.(fn := RSumOrNull)
    case RAvg => call.(fn := RAvgOrNull)
    case RMin => call.(fn := RMinOrNull)
    case RMax => call.(fn := RMaxOrNull)
    case _ => call
  }

  function Both(a: RemoteExpr, b: RemoteExpr): RemoteExpr {
    Binary(And, a, b)
  }

  /** FILTER becomes the -If combinator with a condition that is never NULL. */
  function RewriteCall(original: RemoteCall): RemoteCall {
    var call := RenamedCall(original);
    if call.filter.None? then call
    else
      var condition := Both(IsNotNull(call.filter.value), call.filter.value);
      if call.fn.RCount? then
        call.(conditional := true, filter := None,
              args := [if call.args != [] then Both(IsNotNull(call.args[0]), condition) else condition])
      else call.(conditional := true, filter := None, args := call.args + [condition])
  }

  function RenderCalls(aggregates: seq<Aggregate<Column>>, names: Resolver): (r: Option<seq<RemoteCall>>)
    ensures r.Some? ==> |r.value| == |aggregates|
    ensures r.Some? ==> forall i | 0 <= i < |aggregates| ::
              BaseCall(aggregates[i], names).Some? && r.value[i] == RewriteCall(BaseCall(aggregates[i], names).value)
  {
    if aggregates == [] then Some([])
    else
      match (RenderCalls(aggregates[..|aggregates| - 1], names), BaseCall(aggregates[|aggregates| - 1], names))
      case (Some(xs), Some(x)) => Some(xs + [RewriteCall(x)])
      case _ => None
  }

  // ---- Plans ----

  function Positional(exprs: seq<RemoteExpr>): (r: seq<Item>)
    ensures |r| == |exprs| && forall i | 0 <= i < |exprs| :: r[i] == Item(exprs[i], C(i))
  {
    seq(|exprs|, i requires 0 <= i < |exprs| => Item(exprs[i], C(i)))
  }

  /** A select list is never empty: without columns it is a constant row. */
  function SelectList(exprs: seq<RemoteExpr>): seq<Item> {
    if exprs == [] then [Item(Lit(Int(1)), SemanticRow)] else Positional(exprs)
  }

  function SideColumns(from: From, n: nat): (r: seq<RemoteExpr>)
    ensures |r| == n && forall i | 0 <= i < n :: r[i] == Ref(Name(from, C(i)))
  {
    seq(n, i requires 0 <= i < n => Ref(Name(from, C(i))))
  }

  function JoinColumns(kind: JoinKind, left: nat, right: nat): seq<RemoteExpr> {
    if kind.LeftSemi? || kind.LeftAnti? then SideColumns(L, left)
    else if kind.RightSemi? || kind.RightAnti? then SideColumns(R, right)
    else SideColumns(L, left) + SideColumns(R, right)
  }

  function SourceColumns(source: seq<string>, projection: seq<nat>): Option<seq<RemoteExpr>> {
    if projection == [] then Some([])
    else
      var last := projection[|projection| - 1];
      var rest := SourceColumns(source, projection[..|projection| - 1]);
      if rest.None? || last >= |source| then None else Some(rest.value + [Ref(Name(Bare, Named(source[last])))])
  }

  function RenderKeys(on: seq<Key>, names: Resolver): (r: Option<seq<RemoteExpr>>)
    ensures r.Some? ==> |r.value| == |on| && forall i | 0 <= i < |on| ::
              && RenderExpr(on[i].left, names).Some? && RenderExpr(on[i].right, names).Some?
              && r.value[i] == Binary(Eq, RenderExpr(on[i].left, names).value, RenderExpr(on[i].right, names).value)
  {
    if on == [] then Some([])
    else
      var last := on[|on| - 1];
      match (RenderKeys(on[..|on| - 1], names), RenderExpr(last.left, names), RenderExpr(last.right, names))
      case (Some(xs), Some(l), Some(r)) => Some(xs + [Binary(Eq, l, r)])
      case _ => None
  }

  function RenderOptional(e: Option<Expr<Column>>, names: Resolver): Option<seq<RemoteExpr>> {
    if e.Some? then RenderAll([e.value], names) else Some([])
  }

  function Render(p: Plan): Option<Query>
    decreases p, if p.Union? then |p.inputs| + 2 else 0
  {
    match p
    case Scan(table, source, projection, filters, _) =>
      (match (SourceColumns(source, projection), RenderAll(filters, ScanNames()))
       case (Some(columns), Some(where_)) => Some(Select(SelectList(columns), Table(table, source), where_))
       case _ => None)
    case SubqueryAlias(input, _) => Render(input)
    case Projection(exprs, input, _) =>
      (match (Render(input), RenderAll(exprs, InputNames(SchemaOf(input))))
       case (Some(from), Some(columns)) => Some(Select(SelectList(columns), from, []))
       case _ => None)
    case Filter(e, input) =>
      (match (Render(input), RenderAll([e], InputNames(SchemaOf(input))))
       case (Some(from), Some(where_)) => Some(SelectAll(from, where_))
       case _ => None)
    case Aggregation(groups, aggregates, input, _) =>
      (match (Render(input), RenderAll(groups, InputNames(SchemaOf(input))), RenderCalls(aggregates, InputNames(SchemaOf(input))))
       case (Some(from), Some(keys), Some(calls)) => Some(SelectGroups(keys, calls, from))
       case _ => None)
    case Join(kind, on, filter, left, right) =>
      var names := JoinNames(SchemaOf(left), SchemaOf(right));
      (match (Render(left), Render(right), RenderKeys(on, names), RenderOptional(filter, names))
       case (Some(l), Some(r), Some(keys), Some(extra)) =>
         Some(SelectJoin(kind, Positional(JoinColumns(kind, Width(left), Width(right))), l, r, keys + extra))
       case _ => None)
    case Union(inputs) => (match RenderInputs(p, inputs) case Some(queries) => Some(UnionAll(queries)) case None => None)
    case EmptyRelation(oneRow, _) => Some(SelectOne(oneRow))
  }

  function RenderInputs(p: Plan, inputs: seq<Plan>): (r: Option<seq<Query>>)
    requires p.Union? && inputs <= p.inputs
    ensures r.Some? ==> |r.value| == |inputs|
    decreases p, 1 + |inputs|
  {
    if inputs == [] then Some([])
    else
      match (RenderInputs(p, inputs[..|inputs| - 1]), Render(inputs[|inputs| - 1]))
      case (Some(qs), Some(q)) => Some(qs + [q])
      case _ => None
  }

  /** The statement that is sent: positions are given their field names back. */
  function Statement(p: Plan): Option<Query> {
    match Render(p)
    case None => None
    case Some(q) =>
      var schema := SchemaOf(p);
      if schema == [] then Some(Select([Item(Lit(Int(1)), SemanticRow)], q, []))
      else Some(Select(seq(|schema|, i requires 0 <= i < |schema| => Item(Ref(Name(Result, C(i))), Named(schema[i].name))), q, []))
  }
}
