/** Scans, projections and filters: the rendered query returns the rows of the plan. The names of a
    rendered query are positions, so the heart of the matter is that a rendered expression reads, in
    the row that arrives, what the qualified columns of the plan read in theirs; on both sides of a
    join, too. */
module RendererMeaning {
  import opened PlanRenderer
  import opened RelationalPlans
  import opened RemoteQueries
  import opened RowBags
  import opened Sorting
  import opened Wrappers

  // ---- Plans the renderer serves ----

  function Columns(e: Expr<Column>): set<Column> {
    match e
    case Ref(c) => {c}
    case Lit(_) => {}
    case Alias(a, _) => Columns(a)
    case Not(a) => Columns(a)
    case IsNull(a) => Columns(a)
    case IsNotNull(a) => Columns(a)
    case Binary(_, a, b) => Columns(a) + Columns(b)
    case Call(_, a) => Columns(a)
  }

  predicate KeyOk(k: Key, left: Schema) {
    && (forall c | c in Columns(k.left) :: IndexOf(left, c).Some?)
    && (forall c | c in Columns(k.right) :: IndexOf(left, c).None?)
  }

  /** Every key that is split off a join condition names a column on either side. */
  predicate NamesBothSides(on: seq<Key>) {
    exists k :: k in on && Columns(k.left) != {} && Columns(k.right) != {}
  }

  predicate AggregateOk(a: Aggregate<Column>) {
    (a.distinct ==> a.fn.Count? && a.arg.Some?) && (a.arg.None? ==> a.fn.Count?)
  }

  /** Right key columns must not resolve on the left; a join without a key over both sides
    * and an aggregation must have an output column; an empty relation must have none. */
  ghost predicate Renderable(p: Plan) {
    match p
    case Scan(_, source, projection, _, schema) => Distinct(source) && (forall i | i in projection :: i < |source|) && |schema| == |projection|
    case SubqueryAlias(input, schema) => Renderable(input) && |schema| == Width(input)
    case Projection(exprs, input, schema) => Renderable(input) && |schema| == |exprs|
    case Filter(_, input) => Renderable(input)
    case Aggregation(groups, aggregates, input, schema) =>
      Renderable(input) && |schema| == |groups| + |aggregates| > 0 && forall a | a in aggregates :: AggregateOk(a)
    case Join(_, on, _, left, right) =>
      Renderable(left) && Renderable(right) && (NamesBothSides(on) || Width(p) > 0) && forall k | k in on :: KeyOk(k, SchemaOf(left))
    case Union(inputs) => inputs != [] && forall i | 0 <= i < |inputs| :: Renderable(inputs[i]) && Width(inputs[i]) == Width(inputs[0])
    case EmptyRelation(_, schema) => schema == []
  }

  /** The tables, the functions on either side, and the order rows arrive in. */
  datatype World = World(db: Database, fns: Functions, remote: Functions, order: Delivery)

  /** ClickHouse's lowerUTF8 and upperUTF8 map case as a plan's lower and upper do, while its own lower
    * and upper may do anything; every other function is the same under the same name. */
  ghost predicate Faithful(w: World) {
    && Rearranges(w.order)
    && (forall v :: w.remote("lowerUTF8", v) == w.fns("lower", v))
    && (forall v :: w.remote("upperUTF8", v) == w.fns("upper", v))
    && forall fn, v | fn != "lower" && fn != "upper" && fn != "lowerUTF8" && fn != "upperUTF8" :: w.remote(fn, v) == w.fns(fn, v)
  }

  /** A row without columns travels as a constant. */
  function Encode(n: nat): Row -> Row {
    (row: Row) => if n == 0 then [Int(1)] else row
  }

  function LabelsFor(n: nat): seq<Label> {
    if n == 0 then [SemanticRow] else Positions(n)
  }

  ghost predicate Wide(rows: seq<Row>, n: nat) {
    forall row | row in rows :: |row| == n
  }

  ghost predicate Means(p: Plan, q: Query, w: World) {
    && Labels(q) == LabelsFor(Width(p))
    && Wide(Rows(p, w.db, w.fns), Width(p))
    && SameBag(RemoteRows(q, w.db, w.remote, w.order), Map(Encode(Width(p)), Rows(p, w.db, w.fns)))
  }

  // ---- Names and positions ----

  lemma {:induction false} LabelIndexAt(labels: seq<Label>, i: nat)
    requires i < |labels| && forall j | 0 <= j < i :: labels[j] != labels[i]
    ensures LabelIndex(labels, labels[i]) == Some(i)
  {
    if i > 0 { LabelIndexAt(labels[1..], i - 1); }
  }

  lemma PositionFound(n: nat, i: nat)
    requires i < n
    ensures LabelIndex(LabelsFor(n), C(i)) == Some(i)
  {
    LabelIndexAt(Positions(n), i);
  }

  lemma {:induction false} IndexBound(schema: Schema, c: Column)
    ensures IndexOf(schema, c).Some? ==> IndexOf(schema, c).value < |schema|
  {
    if schema != [] { IndexBound(schema[1..], c); }
  }

  lemma {:induction false} IndexConcat(a: Schema, b: Schema, c: Column)
    ensures IndexOf(a, c).Some? ==> IndexOf(a + b, c) == IndexOf(a, c)
    ensures IndexOf(a, c).None? && IndexOf(b, c).Some? ==> IndexOf(a + b, c) == Some(|a| + IndexOf(b, c).value)
    ensures IndexOf(a, c).None? && IndexOf(b, c).None? ==> IndexOf(a + b, c) == None
  {
    if a == [] {
      assert a + b == b;
    } else {
      assert (a + b)[1..] == a[1..] + b;
      IndexConcat(a[1..], b, c);
    }
  }

  /** Each rendered name reads what its column reads. */
  ghost predicate NamesAgree(names: Resolver, columns: set<Column>, env: Column -> Value, renv: Name -> Value) {
    forall c | c in columns && names(c).Some? :: renv(names(c).value) == env(c)
  }

  lemma InputAgrees(schema: Schema, row: Row, columns: set<Column>)
    requires |row| == |schema|
    ensures NamesAgree(InputNames(schema), columns, RowEnv(schema, row), SubEnv(LabelsFor(|schema|), Encode(|schema|)(row)))
  {
    forall c | c in columns && IndexOf(schema, c).Some?
      ensures SubEnv(LabelsFor(|schema|), Encode(|schema|)(row))(Name(Q, C(IndexOf(schema, c).value))) == RowEnv(schema, row)(c)
    {
      IndexBound(schema, c);
      PositionFound(|schema|, IndexOf(schema, c).value);
    }
  }

  lemma SideReads(schema: Schema, row: Row, c: Column)
    requires |row| == |schema| && IndexOf(schema, c).Some?
    ensures Field(Encode(|schema|)(row), LabelIndex(LabelsFor(|schema|), C(IndexOf(schema, c).value))) == Field(row, IndexOf(schema, c))
  {
    IndexBound(schema, c);
    PositionFound(|schema|, IndexOf(schema, c).value);
  }

  function Joined(left: Schema, right: Schema, l: Row, r: Row): Name -> Value {
    JoinEnv(LabelsFor(|left|), LabelsFor(|right|), Encode(|left|)(l), Encode(|right|)(r))
  }

  /** A join filter reads the concatenated row. */
  lemma JoinedAgrees(left: Schema, right: Schema, l: Row, r: Row, columns: set<Column>)
    requires |l| == |left| && |r| == |right|
    ensures NamesAgree(JoinNames(left, right), columns, RowEnv(left + right, l + r), Joined(left, right, l, r))
  {
    var names := JoinNames(left, right);
    forall c | c in columns && names(c).Some? ensures Joined(left, right, l, r)(names(c).value) == RowEnv(left + right, l + r)(c) {
      IndexConcat(left, right, c);
      if IndexOf(left, c).Some? {
        SideReads(left, l, c);
        IndexBound(left, c);
      } else {
        SideReads(right, r, c);
        IndexBound(right, c);
      }
    }
  }

  lemma LeftKeyAgrees(left: Schema, right: Schema, l: Row, r: Row, columns: set<Column>)
    requires |l| == |left| && forall c | c in columns :: IndexOf(left, c).Some?
    ensures NamesAgree(JoinNames(left, right), columns, RowEnv(left, l), Joined(left, right, l, r))
  {
    forall c | c in columns ensures Joined(left, right, l, r)(JoinNames(left, right)(c).value) == RowEnv(left, l)(c) {
      SideReads(left, l, c);
    }
  }

  lemma RightKeyAgrees(left: Schema, right: Schema, l: Row, r: Row, columns: set<Column>)
    requires |r| == |right| && forall c | c in columns :: IndexOf(left, c).None?
    ensures NamesAgree(JoinNames(left, right), columns, RowEnv(right, r), Joined(left, right, l, r))
  {
    var names := JoinNames(left, right);
    forall c | c in columns && names(c).Some? ensures Joined(left, right, l, r)(names(c).value) == RowEnv(right, r)(c) {
      SideReads(right, r, c);
    }
  }

  // ---- Expressions ----

  /** The function that a call is rendered to does what the plan's function does. */
  lemma FunctionMeans(fn: string, v: Value, w: World)
    requires Faithful(w) && RenderExpr(Call(fn, Lit(v)), ScanNames()).Some?
    ensures w.remote(RenderExpr(Call(fn, Lit(v)), ScanNames()).value.fn, v) == w.fns(fn, v)
  {
    if fn == "lower" {
      assert w.remote("lowerUTF8", v) == w.fns("lower", v);
    } else if fn == "upper" {
      assert w.remote("upperUTF8", v) == w.fns("upper", v);
    }
  }

  lemma {:induction false} ExprMeans(e: Expr<Column>, names: Resolver, q: RemoteExpr, env: Column -> Value, renv: Name -> Value, w: World)
    requires RenderExpr(e, names) == Some(q) && NamesAgree(names, Columns(e), env, renv) && Faithful(w)
    ensures Eval(q, renv, w.remote) == Eval(e, env, w.fns)
    decreases e
  {
    match e {
      case Ref(_) =>
      case Lit(_) =>
      case Alias(a, _) => ExprMeans(a, names, q, env, renv, w);
      case Not(a) => ExprMeans(a, names, q.operand, env, renv, w);
      case IsNull(a) => ExprMeans(a, names, q.operand, env, renv, w);
      case IsNotNull(a) => ExprMeans(a, names, q.operand, env, renv, w);
      case Binary(_, a, b) =>
        ExprMeans(a, names, q.left, env, renv, w);
        ExprMeans(b, names, q.right, env, renv, w);
      case Call(fn, a) =>
        ExprMeans(a, names, q.arg, env, renv, w);
        FunctionMeans(fn, Eval(a, env, w.fns), w);
    }
  }

  function AllColumns(exprs: seq<Expr<Column>>): set<Column> {
    set e, c | e in exprs && c in Columns(e) :: c
  }

  lemma AllMean(exprs: seq<Expr<Column>>, names: Resolver, qs: seq<RemoteExpr>, env: Column -> Value, renv: Name -> Value, w: World)
    requires RenderAll(exprs, names) == Some(qs) && NamesAgree(names, AllColumns(exprs), env, renv) && Faithful(w)
    ensures EvalAll(qs, renv, w.remote) == EvalAll(exprs, env, w.fns)
    ensures AllTrue(qs, renv, w.remote) <==> AllTrue(exprs, env, w.fns)
  {
    forall i | 0 <= i < |exprs| ensures Eval(qs[i], renv, w.remote) == Eval(exprs[i], env, w.fns) {
      assert exprs[i] in exprs;
      ExprMeans(exprs[i], names, qs[i], env, renv, w);
    }
    AllTrueAt(qs, renv, w.remote);
    AllTrueAt(exprs, env, w.fns);
  }

  lemma AllTrueAt<R>(exprs: seq<Expr<R>>, env: R -> Value, fns: Functions)
    ensures AllTrue(exprs, env, fns) <==> forall i | 0 <= i < |exprs| :: IsTrue(Eval(exprs[i], env, fns))
  {
    if forall i | 0 <= i < |exprs| :: IsTrue(Eval(exprs[i], env, fns)) {
      forall e | e in exprs ensures IsTrue(Eval(e, env, fns)) {}
    }
  }

  // ---- Select lists ----

  lemma SelectListEvaluates(qs: seq<RemoteExpr>, env: Name -> Value, w: World)
    ensures EvalAll(ItemExprs(SelectList(qs)), env, w.remote) == Encode(|qs|)(EvalAll(qs, env, w.remote))
  {
    if qs == [] {
      assert EvalAll(ItemExprs(SelectList(qs)), env, w.remote) == [Int(1)];
    } else {
      assert ItemExprs(Positional(qs)) == qs;
    }
  }

  lemma ItemLabelsFor(qs: seq<RemoteExpr>)
    ensures ItemLabels(SelectList(qs)) == LabelsFor(|qs|)
  {
  }

  lemma OneMapped(n: nat, row: Row)
    ensures Map(Encode(n), [row]) == [Encode(n)(row)] && Map(Encode(n), []) == []
  {
  }

  lemma {:induction false} FlatWide(f: Row -> seq<Row>, rows: seq<Row>, n: nat)
    requires forall row | row in rows :: Wide(f(row), n)
    ensures Wide(FlatMap(f, rows), n)
  {
    if rows != [] {
      assert rows[0] in rows;
      forall row | row in rows[1..] ensures row in rows {}
      FlatWide(f, rows[1..], n);
    }
  }

  // ---- Operators over one input ----

  lemma ProjectRow(exprs: seq<Expr<Column>>, schema: Schema, qs: seq<RemoteExpr>, row: Row, w: World)
    requires RenderAll(exprs, InputNames(schema)) == Some(qs) && |row| == |schema| && Faithful(w)
    ensures SelectStep(SelectList(qs), [], LabelsFor(|schema|), w.remote)(Encode(|schema|)(row))
         == Map(Encode(|exprs|), ProjectStep(exprs, schema, w.fns)(row))
  {
    var env := SubEnv(LabelsFor(|schema|), Encode(|schema|)(row));
    InputAgrees(schema, row, AllColumns(exprs));
    AllMean(exprs, InputNames(schema), qs, RowEnv(schema, row), env, w);
    SelectListEvaluates(qs, env, w);
    NothingToCheck(env, w.remote);
    OneMapped(|exprs|, EvalAll(exprs, RowEnv(schema, row), w.fns));
  }

  lemma NothingToCheck(env: Name -> Value, fns: Functions)
    ensures AllTrue([], env, fns)
  {
  }

  lemma ProjectionBag(exprs: seq<Expr<Column>>, schema: Schema, qs: seq<RemoteExpr>, rows: seq<Row>, remote: seq<Row>, w: World)
    requires RenderAll(exprs, InputNames(schema)) == Some(qs) && Faithful(w)
    requires Wide(rows, |schema|) && SameBag(remote, Map(Encode(|schema|), rows))
    ensures SameBag(FlatMap(SelectStep(SelectList(qs), [], LabelsFor(|schema|), w.remote), remote),
                    Map(Encode(|exprs|), FlatMap(ProjectStep(exprs, schema, w.fns), rows)))
    ensures Wide(FlatMap(ProjectStep(exprs, schema, w.fns), rows), |exprs|)
  {
    var f := ProjectStep(exprs, schema, w.fns);
    var g := SelectStep(SelectList(qs), [], LabelsFor(|schema|), w.remote);
    forall row | row in rows ensures SameBag(g(Encode(|schema|)(row)), Map(Encode(|exprs|), f(row))) {
      ProjectRow(exprs, schema, qs, row, w);
    }
    FlatMapSimulates(f, Encode(|exprs|), Encode(|schema|), g, rows, remote);
    FlatWide(f, rows, |exprs|);
  }

  lemma FilterRow(e: Expr<Column>, schema: Schema, qs: seq<RemoteExpr>, row: Row, w: World)
    requires RenderAll([e], InputNames(schema)) == Some(qs) && |row| == |schema| && Faithful(w)
    ensures WhereStep(qs, LabelsFor(|schema|), w.remote)(Encode(|schema|)(row)) == Map(Encode(|schema|), FilterStep(e, schema, w.fns)(row))
  {
    InputAgrees(schema, row, AllColumns([e]));
    AllMean([e], InputNames(schema), qs, RowEnv(schema, row), SubEnv(LabelsFor(|schema|), Encode(|schema|)(row)), w);
    AllTrueAt([e], RowEnv(schema, row), w.fns);
    OneMapped(|schema|, row);
  }

  lemma FilterBag(e: Expr<Column>, schema: Schema, qs: seq<RemoteExpr>, rows: seq<Row>, remote: seq<Row>, w: World)
    requires RenderAll([e], InputNames(schema)) == Some(qs) && Faithful(w)
    requires Wide(rows, |schema|) && SameBag(remote, Map(Encode(|schema|), rows))
    ensures SameBag(FlatMap(WhereStep(qs, LabelsFor(|schema|), w.remote), remote), Map(Encode(|schema|), FlatMap(FilterStep(e, schema, w.fns), rows)))
    ensures Wide(FlatMap(FilterStep(e, schema, w.fns), rows), |schema|)
  {
    var f := FilterStep(e, schema, w.fns);
    var g := WhereStep(qs, LabelsFor(|schema|), w.remote);
    forall row | row in rows ensures SameBag(g(Encode(|schema|)(row)), Map(Encode(|schema|), f(row))) {
      FilterRow(e, schema, qs, row, w);
    }
    FlatMapSimulates(f, Encode(|schema|), Encode(|schema|), g, rows, remote);
    FlatWide(f, rows, |schema|);
  }

  // ---- Scans ----

  lemma {:induction false} NamedFound(columns: seq<string>, name: string)
    ensures LabelIndex(Labels(Table("", columns)), Named(name)) == NameIndex(columns, name)
  {
    if columns != [] {
      assert Labels(Table("", columns))[1..] == Labels(Table("", columns[1..]));
      NamedFound(columns[1..], name);
    }
  }

  lemma {:induction false} DistinctFound(columns: seq<string>, i: nat)
    requires Distinct(columns) && i < |columns|
    ensures NameIndex(columns, columns[i]) == Some(i)
  {
    if i > 0 { DistinctFound(columns[1..], i - 1); }
  }

  lemma SourceAgrees(source: seq<string>, row: Row, columns: set<Column>)
    ensures NamesAgree(ScanNames(), columns, SourceEnv(source, row), SubEnv(Labels(Table("", source)), row))
  {
    forall c | c in columns ensures SubEnv(Labels(Table("", source)), row)(ScanNames()(c).value) == SourceEnv(source, row)(c) {
      NamedFound(source, c.name);
    }
  }

  lemma {:induction false} SourceColumnAt(source: seq<string>, projection: seq<nat>, i: nat)
    requires SourceColumns(source, projection).Some? && i < |projection|
    ensures |SourceColumns(source, projection).value| == |projection| && projection[i] < |source|
    ensures SourceColumns(source, projection).value[i] == Ref(Name(Bare, Named(source[projection[i]])))
  {
    var n := |projection| - 1;
    if i < n {
      SourceColumnAt(source, projection[..n], i);
    } else if n > 0 {
      SourceColumnAt(source, projection[..n], 0);
    }
  }

  lemma SourceColumnsPick(source: seq<string>, projection: seq<nat>, row: Row, w: World)
    requires Distinct(source) && SourceColumns(source, projection).Some?
    ensures |SourceColumns(source, projection).value| == |projection|
    ensures EvalAll(SourceColumns(source, projection).value, SubEnv(Labels(Table("", source)), row), w.remote) == Pick(row, projection)
  {
    var columns := SourceColumns(source, projection).value;
    if projection != [] { SourceColumnAt(source, projection, 0); }
    forall i | 0 <= i < |projection| ensures Eval(columns[i], SubEnv(Labels(Table("", source)), row), w.remote) == Field(row, Some(projection[i])) {
      SourceColumnAt(source, projection, i);
      NamedFound(source, source[projection[i]]);
      DistinctFound(source, projection[i]);
    }
  }

  lemma {:induction false} MapIdentity(s: seq<Row>)
    ensures Map(Encode(1), s) == s
  {
  }

  lemma ScanRow(source: seq<string>, projection: seq<nat>, filters: seq<Expr<Column>>, qs: seq<RemoteExpr>, row: Row, w: World)
    requires Distinct(source) && SourceColumns(source, projection).Some? && RenderAll(filters, ScanNames()) == Some(qs) && Faithful(w)
    ensures SelectStep(SelectList(SourceColumns(source, projection).value), qs, Labels(Table("", source)), w.remote)(Encode(1)(row))
         == Map(Encode(|projection|), ScanStep(filters, source, projection, w.fns)(row))
  {
    var env := SubEnv(Labels(Table("", source)), row);
    SourceAgrees(source, row, AllColumns(filters));
    AllMean(filters, ScanNames(), qs, SourceEnv(source, row), env, w);
    SourceColumnsPick(source, projection, row, w);
    SelectListEvaluates(SourceColumns(source, projection).value, env, w);
    OneMapped(|projection|, Pick(row, projection));
  }

  lemma ScanBag(source: seq<string>, projection: seq<nat>, filters: seq<Expr<Column>>, qs: seq<RemoteExpr>, rows: seq<Row>, remote: seq<Row>, w: World)
    requires Distinct(source) && SourceColumns(source, projection).Some? && RenderAll(filters, ScanNames()) == Some(qs) && Faithful(w)
    requires SameBag(remote, rows)
    ensures SameBag(FlatMap(SelectStep(SelectList(SourceColumns(source, projection).value), qs, Labels(Table("", source)), w.remote), remote),
                    Map(Encode(|projection|), FlatMap(ScanStep(filters, source, projection, w.fns), rows)))
    ensures Wide(FlatMap(ScanStep(filters, source, projection, w.fns), rows), |projection|)
  {
    var f := ScanStep(filters, source, projection, w.fns);
    var g := SelectStep(SelectList(SourceColumns(source, projection).value), qs, Labels(Table("", source)), w.remote);
    forall row | row in rows ensures SameBag(g(Encode(1)(row)), Map(Encode(|projection|), f(row))) {
      ScanRow(source, projection, filters, qs, row, w);
    }
    MapIdentity(rows);
    FlatMapSimulates(f, Encode(|projection|), Encode(1), g, rows, remote);
    FlatWide(f, rows, |projection|);
  }
}
