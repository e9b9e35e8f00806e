/** Which plans are rendered at all. */
module RendererScope {
  import opened ExpressionMeaning
  import opened PlanRenderer
  import opened RelationalPlans
  import opened RemoteQueries
  import opened RendererMeaning

  function Calls(e: Expr<Column>): set<string> {
    match e
    case Ref(_) => {}
    case Lit(_) => {}
    case Alias(a, _) => Calls(a)
    case Not(a) => Calls(a)
    case IsNull(a) => Calls(a)
    case IsNotNull(a) => Calls(a)
    case Binary(_, a, b) => Calls(a) + Calls(b)
    case Call(fn, a) => {fn} + Calls(a)
  }

  /** The names that only ClickHouse has are not functions of a plan. */
  predicate CallsLocally(e: Expr<Column>) {
    "lowerUTF8" !in Calls(e) && "upperUTF8" !in Calls(e)
  }

  lemma {:induction false} ExprRenders(e: Expr<Column>, names: Resolver)
    ensures RenderExpr(e, names).Some? <==> CallsLocally(e) && forall c | c in Columns(e) :: names(c).Some?
  {
    match e {
      case Ref(_) =>
      case Lit(_) =>
      case Alias(a, _) => ExprRenders(a, names);
      case Not(a) => ExprRenders(a, names);
      case IsNull(a) => ExprRenders(a, names);
      case IsNotNull(a) => ExprRenders(a, names);
      case Binary(_, a, b) =>
        ExprRenders(a, names);
        ExprRenders(b, names);
      case Call(_, a) => ExprRenders(a, names);
    }
  }

  ghost predicate Found(schema: Schema, c: Column) {
    exists i :: 0 <= i < |schema| && Refers(c, schema[i])
  }

  /** Every column refers to a field of the schema. */
  ghost predicate Reads(e: Expr<Column>, schema: Schema) {
    CallsLocally(e) && forall c | c in Columns(e) :: Found(schema, c)
  }

  lemma FoundExactly(schema: Schema, c: Column)
    ensures Found(schema, c) <==> IndexOf(schema, c).Some?
  {
    IndexIsFirst(schema, c);
  }

  lemma MembersSplit<A>(s: seq<A>)
    requires s != []
    ensures forall x :: x in s <==> x in s[..|s| - 1] || x == s[|s| - 1]
  {
    assert s == s[..|s| - 1] + [s[|s| - 1]];
  }

  lemma ReadsExactly(e: Expr<Column>, schema: Schema)
    ensures RenderExpr(e, InputNames(schema)).Some? <==> Reads(e, schema)
  {
    ExprRenders(e, InputNames(schema));
    forall c | c in Columns(e) ensures InputNames(schema)(c).Some? <==> Found(schema, c) { FoundExactly(schema, c); }
  }

  lemma JoinReadsExactly(e: Expr<Column>, left: Schema, right: Schema)
    ensures RenderExpr(e, JoinNames(left, right)).Some? <==> Reads(e, left + right)
  {
    ExprRenders(e, JoinNames(left, right));
    forall c | c in Columns(e) ensures JoinNames(left, right)(c).Some? <==> Found(left + right, c) {
      FoundExactly(left + right, c);
      IndexConcat(left, right, c);
    }
  }

  lemma {:induction false} AllRender(exprs: seq<Expr<Column>>, names: Resolver)
    ensures RenderAll(exprs, names).Some? <==> forall e | e in exprs :: RenderExpr(e, names).Some?
  {
    if exprs != [] {
      var n := |exprs| - 1;
      AllRender(exprs[..n], names);
      MembersSplit(exprs);
      assert RenderAll(exprs, names).Some? <==> RenderAll(exprs[..n], names).Some? && RenderExpr(exprs[n], names).Some?;
    }
  }

  lemma {:induction false} SourceRenders(source: seq<string>, projection: seq<nat>)
    ensures SourceColumns(source, projection).Some? <==> forall k | 0 <= k < |projection| :: projection[k] < |source|
  {
    if projection != [] {
      var n := |projection| - 1;
      SourceRenders(source, projection[..n]);
      assert SourceColumns(source, projection).Some? <==> SourceColumns(source, projection[..n]).Some? && projection[n] < |source|;
    }
  }

  ghost predicate AggregateReads(a: Aggregate<Column>, schema: Schema) {
    (a.arg.Some? ==> Reads(a.arg.value, schema)) && (a.filter.Some? ==> Reads(a.filter.value, schema))
  }

  lemma CallRenders(a: Aggregate<Column>, schema: Schema)
    ensures BaseCall(a, InputNames(schema)).Some? <==> AggregateReads(a, schema)
  {
    if a.arg.Some? {
      ReadsExactly(a.arg.value, schema);
      AllRender([a.arg.value], InputNames(schema));
    }
    if a.filter.Some? {
      ReadsExactly(a.filter.value, schema);
      AllRender([a.filter.value], InputNames(schema));
    }
  }

  lemma {:induction false} CallsRender(aggregates: seq<Aggregate<Column>>, schema: Schema)
    ensures RenderCalls(aggregates, InputNames(schema)).Some? <==> forall a | a in aggregates :: AggregateReads(a, schema)
  {
    if aggregates != [] {
      var n := |aggregates| - 1;
      CallsRender(aggregates[..n], schema);
      CallRenders(aggregates[n], schema);
      MembersSplit(aggregates);
    }
  }

  ghost predicate KeyReads(k: Key, schema: Schema) {
    Reads(k.left, schema) && Reads(k.right, schema)
  }

  lemma {:induction false} KeysRender(on: seq<Key>, left: Schema, right: Schema)
    ensures RenderKeys(on, JoinNames(left, right)).Some? <==> forall k | k in on :: KeyReads(k, left + right)
  {
    if on != [] {
      var n := |on| - 1;
      KeysRender(on[..n], left, right);
      JoinReadsExactly(on[n].left, left, right);
      JoinReadsExactly(on[n].right, left, right);
      MembersSplit(on);
      assert RenderKeys(on, JoinNames(left, right)).Some? <==> RenderKeys(on[..n], JoinNames(left, right)).Some? && KeyReads(on[n], left + right);
    }
  }

  lemma AllReadExactly(exprs: seq<Expr<Column>>, schema: Schema)
    ensures RenderAll(exprs, InputNames(schema)).Some? <==> forall e | e in exprs :: Reads(e, schema)
  {
    AllRender(exprs, InputNames(schema));
    forall e | e in exprs ensures RenderExpr(e, InputNames(schema)).Some? <==> Reads(e, schema) { ReadsExactly(e, schema); }
  }

  /** Every expression of the plan reads fields of its input, and every projected column is stored. */
  ghost predicate Resolves(p: Plan) {
    match p
    case Scan(_, source, projection, filters, _) => (forall k | 0 <= k < |projection| :: projection[k] < |source|) && forall e | e in filters :: CallsLocally(e)
    case SubqueryAlias(input, _) => Resolves(input)
    case Projection(exprs, input, _) => Resolves(input) && forall e | e in exprs :: Reads(e, SchemaOf(input))
    case Filter(e, input) => Resolves(input) && Reads(e, SchemaOf(input))
    case Aggregation(groups, aggregates, input, _) =>
      && Resolves(input) && (forall e | e in groups :: Reads(e, SchemaOf(input)))
      && forall a | a in aggregates :: AggregateReads(a, SchemaOf(input))
    case Join(_, on, filter, left, right) =>
      var both := SchemaOf(left) + SchemaOf(right);
      && Resolves(left) && Resolves(right) && (forall k | k in on :: KeyReads(k, both))
      && (filter.Some? ==> Reads(filter.value, both))
    case Union(inputs) => forall i | 0 <= i < |inputs| :: Resolves(inputs[i])
    case EmptyRelation(_, _) => true
  }

  /** A plan is rendered exactly when all its references resolve. */
  lemma {:induction false} RendersExactly(p: Plan)
    ensures Render(p).Some? <==> Resolves(p)
    decreases p, if p.Union? then |p.inputs| + 1 else 0
  {
    match p {
      case Scan(_, source, projection, filters, _) =>
        SourceRenders(source, projection);
        AllRender(filters, ScanNames());
        forall e | e in filters ensures RenderExpr(e, ScanNames()).Some? <==> CallsLocally(e) { ExprRenders(e, ScanNames()); }
      case SubqueryAlias(input, _) => RendersExactly(input);
      case Projection(exprs, input, _) =>
        RendersExactly(input);
        AllReadExactly(exprs, SchemaOf(input));
      case Filter(e, input) =>
        RendersExactly(input);
        AllReadExactly([e], SchemaOf(input));
      case Aggregation(groups, aggregates, input, _) =>
        RendersExactly(input);
        AllReadExactly(groups, SchemaOf(input));
        CallsRender(aggregates, SchemaOf(input));
      case Join(_, on, filter, left, right) =>
        RendersExactly(left);
        RendersExactly(right);
        KeysRender(on, SchemaOf(left), SchemaOf(right));
        if filter.Some? {
          JoinReadsExactly(filter.value, SchemaOf(left), SchemaOf(right));
          AllRender([filter.value], JoinNames(SchemaOf(left), SchemaOf(right)));
        }
      case Union(inputs) => InputsRender(p, inputs);
      case EmptyRelation(_, _) =>
    }
  }

  lemma {:induction false} InputsRender(p: Plan, inputs: seq<Plan>)
    requires p.Union? && inputs <= p.inputs
    ensures RenderInputs(p, inputs).Some? <==> forall i | 0 <= i < |inputs| :: Resolves(inputs[i])
    decreases p, |inputs|
  {
    if inputs != [] {
      var n := |inputs| - 1;
      InputsRender(p, inputs[..n]);
      assert p.inputs[n] == inputs[n];
      RendersExactly(inputs[n]);
      forall i | 0 <= i < n ensures inputs[..n][i] == inputs[i] {}
    }
  }

  /** ClickHouse's plain aggregates of no value are not SQL's, those they are renamed to are. */
  lemma DefaultsDiffer()
    ensures RemoteAggregate(RSum, false, []) == Int(0) && RemoteAggregate(RSumOrNull, false, []) == Null
    ensures RemoteAggregate(RMin, false, []) == Int(0) && RemoteAggregate(RMinOrNull, false, []) == Null
    ensures RemoteAggregate(RMax, false, []) == Int(0) && RemoteAggregate(RMaxOrNull, false, []) == Null
    ensures RemoteAggregate(RAvg, false, []) != Null && RemoteAggregate(RAvgOrNull, false, []) == Null
    ensures RemoteAggregate(RCount, false, []) == Int(0) == AggregateOf(Count, false, [])
  {
  }
}
