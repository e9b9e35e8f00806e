/** Rendered aggregate calls compute the plan's aggregates over rows in any order. Calls are renamed,
    and FILTER becomes an If-aggregate whose condition is two-valued: NULL counts as false there, as
    it does in the filter. For COUNT the condition also asks whether the counted value is present.
    DISTINCT applies to what the filter lets through. */
module RendererAggregates {
  import opened OperatorBags
  import opened PlanRenderer
  import opened RelationalPlans
  import opened RemoteQueries
  import opened RendererMeaning
  import opened RowBags
  import opened Wrappers

  // ---- The condition of the -If combinator ----

  /** The rewritten condition is never NULL, and true exactly where the filter is. */
  lemma ConditionIsTwoValued(filter: RemoteExpr, env: Name -> Value, fns: Functions)
    requires Eval(filter, env, fns).Bool? || Eval(filter, env, fns).Null?
    ensures Eval(Both(IsNotNull(filter), filter), env, fns).Bool?
    ensures IsTrue(Eval(Both(IsNotNull(filter), filter), env, fns)) <==> IsTrue(Eval(filter, env, fns))
  {
  }

  lemma ConditionIsTrue(filter: RemoteExpr, env: Name -> Value, fns: Functions)
    ensures IsTrue(Eval(Both(IsNotNull(filter), filter), env, fns)) <==> IsTrue(Eval(filter, env, fns))
  {
  }

  /** COUNT(x) FILTER f counts the rows where x is not NULL and f is true. */
  lemma CountConditionIsTrue(value: RemoteExpr, filter: RemoteExpr, env: Name -> Value, fns: Functions)
    ensures IsTrue(Eval(Both(IsNotNull(value), Both(IsNotNull(filter), filter)), env, fns))
      <==> !Eval(value, env, fns).Null? && IsTrue(Eval(filter, env, fns))
  {
    ConditionIsTrue(filter, env, fns);
    BothIsTrue(IsNotNull(value), Both(IsNotNull(filter), filter), env, fns);
    assert Eval(IsNotNull(value), env, fns) == Bool(!Eval(value, env, fns).Null?);
  }

  lemma BothIsTrue(a: RemoteExpr, b: RemoteExpr, env: Name -> Value, fns: Functions)
    ensures IsTrue(Eval(Both(a, b), env, fns)) <==> IsTrue(Eval(a, env, fns)) && IsTrue(Eval(b, env, fns))
  {
  }

  // ---- One row's contribution ----

  predicate CountsConditionally(a: Aggregate<Column>) {
    a.fn.Count? && !a.distinct && a.filter.Some?
  }

  ghost predicate RowsAgree(a: Aggregate<Column>, base: RemoteCall, env: Column -> Value, renv: Name -> Value, w: World) {
    && base.fn == BaseFn(a.fn) && !base.conditional && base.distinct == a.distinct
    && |base.args| == (if a.arg.Some? then 1 else 0)
    && (a.arg.Some? ==> Eval(base.args[0], renv, w.remote) == Eval(a.arg.value, env, w.fns))
    && base.filter.Some? == a.filter.Some?
    && (a.filter.Some? ==> Eval(base.filter.value, renv, w.remote) == Eval(a.filter.value, env, w.fns))
  }

  function AggregateColumns(a: Aggregate<Column>): set<Column> {
    (if a.arg.Some? then Columns(a.arg.value) else {}) + (if a.filter.Some? then Columns(a.filter.value) else {})
  }

  lemma BaseAgrees(a: Aggregate<Column>, names: Resolver, env: Column -> Value, renv: Name -> Value, w: World)
    requires BaseCall(a, names).Some? && NamesAgree(names, AggregateColumns(a), env, renv) && Faithful(w)
    ensures RowsAgree(a, BaseCall(a, names).value, env, renv, w)
  {
    if a.arg.Some? {
      assert [a.arg.value][0] == a.arg.value;
      ExprMeans(a.arg.value, names, BaseCall(a, names).value.args[0], env, renv, w);
    }
    if a.filter.Some? {
      assert [a.filter.value][0] == a.filter.value;
      ExprMeans(a.filter.value, names, BaseCall(a, names).value.filter.value, env, renv, w);
    }
  }

  lemma ContributesAlike(a: Aggregate<Column>, base: RemoteCall, env: Column -> Value, renv: Name -> Value, w: World)
    requires RowsAgree(a, base, env, renv, w) && AggregateOk(a) && !CountsConditionally(a)
    ensures CallInput(RewriteCall(base), renv, w.remote) == Contribution(a, env, w.fns)
  {
    if base.filter.Some? { FilteredAlike(a, base, env, renv, w); }
  }

  lemma FilteredAlike(a: Aggregate<Column>, base: RemoteCall, env: Column -> Value, renv: Name -> Value, w: World)
    requires RowsAgree(a, base, env, renv, w) && AggregateOk(a) && !CountsConditionally(a) && base.filter.Some?
    ensures CallInput(RewriteCall(base), renv, w.remote) == Contribution(a, env, w.fns)
  {
    ConditionIsTrue(base.filter.value, renv, w.remote);
    assert CallArgs(RewriteCall(base)) == base.args;
  }

  function One(): Value -> Value {
    (v: Value) => Int(1)
  }

  /** A one for every value a row adds to a count. */
  function Marks(a: Aggregate<Column>, env: Column -> Value, fns: Functions): seq<Value> {
    Map(One(), NonNull(Contribution(a, env, fns)))
  }

  lemma ContributesMarks(a: Aggregate<Column>, base: RemoteCall, env: Column -> Value, renv: Name -> Value, w: World)
    requires RowsAgree(a, base, env, renv, w) && CountsConditionally(a)
    ensures CallInput(RewriteCall(base), renv, w.remote) == Marks(a, env, w.fns)
  {
    ConditionIsTrue(base.filter.value, renv, w.remote);
    if base.args != [] { CountConditionIsTrue(base.args[0], base.filter.value, renv, w.remote); }
    assert CallArgs(RewriteCall(base)) == [];
    if a.arg.Some? { MarkOne(Eval(a.arg.value, env, w.fns)); } else { MarkOne(Int(1)); }
  }

  lemma MarkOne(v: Value)
    ensures Map(One(), NonNull([v])) == if v.Null? then [] else [Int(1)]
  {
    assert NonNull([v]) == if v.Null? then [] else [v];
  }

  // ---- A whole group ----

  function Same(): Value -> Value {
    (v: Value) => v
  }

  lemma MapSame(s: seq<Value>)
    ensures Map(Same(), s) == s
  {
  }

  function MarkSteps(a: Aggregate<Column>, schema: Schema, fns: Functions): Row -> seq<Value> {
    (row: Row) => Marks(a, RowEnv(schema, row), fns)
  }

  lemma {:induction false} NonNullConcat(a: seq<Value>, b: seq<Value>)
    ensures NonNull(a + b) == NonNull(a) + NonNull(b)
  {
    NonNullIsFlat(a + b);
    NonNullIsFlat(a);
    NonNullIsFlat(b);
    FlatMapConcat(Present(), a, b);
  }

  lemma {:induction false} OnesAreNonNull(s: seq<Value>)
    requires forall v | v in s :: v == Int(1)
    ensures NonNull(s) == s
  {
    if s != [] {
      assert s[0] in s;
      forall v | v in s[1..] ensures v in s {}
      OnesAreNonNull(s[1..]);
    }
  }

  lemma {:induction false} MarksCount(a: Aggregate<Column>, schema: Schema, fns: Functions, rows: seq<Row>)
    ensures |NonNull(FlatMap(MarkSteps(a, schema, fns), rows))| == |NonNull(FlatMap(Contributions(a, schema, fns), rows))|
  {
    if rows != [] {
      var marks := MarkSteps(a, schema, fns)(rows[0]);
      MarksCount(a, schema, fns, rows[1..]);
      NonNullConcat(marks, FlatMap(MarkSteps(a, schema, fns), rows[1..]));
      NonNullConcat(Contributions(a, schema, fns)(rows[0]), FlatMap(Contributions(a, schema, fns), rows[1..]));
      OnesAreNonNull(marks);
    }
  }

  function LocalSteps(a: Aggregate<Column>, schema: Schema, fns: Functions): Row -> seq<Value> {
    if CountsConditionally(a) then MarkSteps(a, schema, fns) else Contributions(a, schema, fns)
  }

  lemma CallsBag(a: Aggregate<Column>, schema: Schema, base: RemoteCall, rows: seq<Row>, remote: seq<Row>, w: World)
    requires BaseCall(a, InputNames(schema)) == Some(base) && AggregateOk(a) && Faithful(w)
    requires Wide(rows, |schema|) && SameBag(remote, Map(Encode(|schema|), rows))
    ensures SameBag(FlatMap(CallInputs(RewriteCall(base), LabelsFor(|schema|), w.remote), remote), FlatMap(LocalSteps(a, schema, w.fns), rows))
  {
    var f := LocalSteps(a, schema, w.fns);
    var g := CallInputs(RewriteCall(base), LabelsFor(|schema|), w.remote);
    forall row | row in rows ensures SameBag(g(Encode(|schema|)(row)), Map(Same(), f(row))) {
      CallOnRow(a, schema, base, row, w);
      MapSame(f(row));
    }
    FlatMapSimulates(f, Same(), Encode(|schema|), g, rows, remote);
    MapSame(FlatMap(f, rows));
  }

  lemma RenamedMeans(a: Aggregate<Column>, base: RemoteCall, values: seq<Value>)
    requires base.fn == BaseFn(a.fn) && base.distinct == a.distinct && AggregateOk(a)
    ensures RemoteAggregate(RewriteCall(base).fn, RewriteCall(base).distinct, values) == AggregateOf(a.fn, a.distinct, values)
  {
  }

  /** The remote call over encoded rows in any order gives the plan's aggregate. */
  lemma AggregateMeans(a: Aggregate<Column>, schema: Schema, base: RemoteCall, rows: seq<Row>, remote: seq<Row>, w: World)
    requires BaseCall(a, InputNames(schema)) == Some(base) && AggregateOk(a) && Faithful(w)
    requires Wide(rows, |schema|) && SameBag(remote, Map(Encode(|schema|), rows))
    ensures RemoteAggregate(RewriteCall(base).fn, RewriteCall(base).distinct, FlatMap(CallInputs(RewriteCall(base), LabelsFor(|schema|), w.remote), remote))
         == AggregateOf(a.fn, a.distinct, FlatMap(Contributions(a, schema, w.fns), rows))
  {
    CallsBag(a, schema, base, rows, remote, w);
    RenamedMeans(a, base, FlatMap(CallInputs(RewriteCall(base), LabelsFor(|schema|), w.remote), remote));
    AggregateBag(a.fn, a.distinct, FlatMap(CallInputs(RewriteCall(base), LabelsFor(|schema|), w.remote), remote), FlatMap(LocalSteps(a, schema, w.fns), rows));
    if CountsConditionally(a) { MarksCount(a, schema, w.fns, rows); }
  }

  lemma CallOnRow(a: Aggregate<Column>, schema: Schema, base: RemoteCall, row: Row, w: World)
    requires BaseCall(a, InputNames(schema)) == Some(base) && AggregateOk(a) && Faithful(w) && |row| == |schema|
    ensures CallInputs(RewriteCall(base), LabelsFor(|schema|), w.remote)(Encode(|schema|)(row))
         == LocalSteps(a, schema, w.fns)(row)
  {
    var env := RowEnv(schema, row);
    var renv := SubEnv(LabelsFor(|schema|), Encode(|schema|)(row));
    InputAgrees(schema, row, AggregateColumns(a));
    BaseAgrees(a, InputNames(schema), env, renv, w);
    if CountsConditionally(a) { ContributesMarks(a, base, env, renv, w); } else { ContributesAlike(a, base, env, renv, w); }
  }
}
