/** Rendering preserves the bag of rows of every plan. Grouping and joins first, then one lemma per
    plan node that assumes its inputs are delivered, then the induction over plans and the statement
    around it, with the field names of the plan. Join keys are the delicate part: they are rendered
    like expressions over both inputs, the left one first. */
module RenderPreserves {
  import opened OperatorBags
  import opened PlanRenderer
  import opened RelationalPlans
  import opened RemoteQueries
  import opened RendererAggregates
  import opened RendererMeaning
  import opened RowBags
  import opened Wrappers

  // ---- Aggregations ----

  lemma {:induction false} GroupSummaries(aggregates: seq<Aggregate<Column>>, schema: Schema, calls: seq<RemoteCall>, rows: seq<Row>, w: World)
    requires RenderCalls(aggregates, InputNames(schema)) == Some(calls) && (forall a | a in aggregates :: AggregateOk(a))
    requires Faithful(w) && Wide(rows, |schema|)
    ensures SummariesAgree(rows, Encode(|schema|), |aggregates|, Summary(aggregates, schema, w.fns), RemoteSummary(calls, LabelsFor(|schema|), w.remote))
  {
    forall i, g, h | 0 <= i < |aggregates| && (forall x | x in g :: x in rows) && SameBag(h, Map(Encode(|schema|), g))
      ensures RemoteSummary(calls, LabelsFor(|schema|), w.remote)(i, h) == Summary(aggregates, schema, w.fns)(i, g)
    {
      assert aggregates[i] in aggregates;
      AggregateMeans(aggregates[i], schema, BaseCall(aggregates[i], InputNames(schema)).value, g, h, w);
    }
  }

  lemma GroupBag(groups: seq<Expr<Column>>, aggregates: seq<Aggregate<Column>>, schema: Schema, keys: seq<RemoteExpr>, calls: seq<RemoteCall>,
                 rows: seq<Row>, remote: seq<Row>, w: World)
    requires RenderAll(groups, InputNames(schema)) == Some(keys) && RenderCalls(aggregates, InputNames(schema)) == Some(calls)
    requires (forall a | a in aggregates :: AggregateOk(a)) && Faithful(w)
    requires Wide(rows, |schema|) && SameBag(remote, Map(Encode(|schema|), rows))
    ensures SameBag(
      Grouped(keys == [], remote, RemoteKey(keys, LabelsFor(|schema|), w.remote), |calls|, RemoteSummary(calls, LabelsFor(|schema|), w.remote)),
      Grouped(groups == [], rows, GroupKey(groups, schema, w.fns), |aggregates|, Summary(aggregates, schema, w.fns)))
  {
    forall row | row in rows
      ensures RemoteKey(keys, LabelsFor(|schema|), w.remote)(Encode(|schema|)(row)) == GroupKey(groups, schema, w.fns)(row)
    {
      InputAgrees(schema, row, AllColumns(groups));
      AllMean(groups, InputNames(schema), keys, RowEnv(schema, row), SubEnv(LabelsFor(|schema|), Encode(|schema|)(row)), w);
    }
    GroupSummaries(aggregates, schema, calls, rows, w);
    GroupedSimulates(groups == [], rows, remote, Encode(|schema|), GroupKey(groups, schema, w.fns), RemoteKey(keys, LabelsFor(|schema|), w.remote),
      |aggregates|, Summary(aggregates, schema, w.fns), RemoteSummary(calls, LabelsFor(|schema|), w.remote));
  }

  lemma KeysWide(groups: seq<Expr<Column>>, rows: seq<Row>, schema: Schema, fns: Functions, k: Row)
    requires k in Map(GroupKey(groups, schema, fns), rows)
    ensures |k| == |groups|
  {
    var i :| 0 <= i < |rows| && Map(GroupKey(groups, schema, fns), rows)[i] == k;
  }

  lemma {:induction false} MapWide(f: Row -> Row, rows: seq<Row>, n: nat)
    requires forall row | row in rows :: |f(row)| == n
    ensures Wide(Map(f, rows), n)
  {
    forall row | row in Map(f, rows) ensures |row| == n {
      var i :| 0 <= i < |rows| && Map(f, rows)[i] == row;
      assert rows[i] in rows;
    }
  }

  lemma GroupWide(groups: seq<Expr<Column>>, rows: seq<Row>, schema: Schema, n: nat, summary: (nat, seq<Row>) -> Value, fns: Functions)
    ensures Wide(Grouped(groups == [], rows, GroupKey(groups, schema, fns), n, summary), |groups| + n)
  {
    var key := GroupKey(groups, schema, fns);
    DedupMembers(Map(key, rows));
    forall k | k in Dedup(Map(key, rows)) ensures |GroupRow(rows, key, n, summary)(k)| == |groups| + n {
      KeysWide(groups, rows, schema, fns, k);
    }
    MapWide(GroupRow(rows, key, n, summary), Dedup(Map(key, rows)), |groups| + n);
  }

  lemma EncodeNothing(n: nat, rows: seq<Row>)
    requires n > 0
    ensures Map(Encode(n), rows) == rows
  {
  }

  // ---- Joins ----

  lemma SideValues(from: From, n: nat, row: Row, env: Name -> Value, fns: Functions)
    requires |row| == n && forall i | 0 <= i < n :: env(Name(from, C(i))) == row[i]
    ensures EvalAll(SideColumns(from, n), env, fns) == row
  {
  }

  lemma EvalConcat(a: seq<RemoteExpr>, b: seq<RemoteExpr>, env: Name -> Value, fns: Functions)
    ensures EvalAll(a + b, env, fns) == EvalAll(a, env, fns) + EvalAll(b, env, fns)
  {
  }

  lemma PositionalExprs(exprs: seq<RemoteExpr>)
    ensures ItemExprs(Positional(exprs)) == exprs && ItemLabels(Positional(exprs)) == Positions(|exprs|)
  {
  }

  /** The output columns read the pair, whatever stands in for a side without columns. */
  lemma OutMeans(kind: JoinKind, nl: nat, nr: nat, l: Row, r: Row, el: Row, er: Row, w: World)
    requires |l| == nl && |r| == nr && (nl > 0 ==> el == l) && (nr > 0 ==> er == r)
    ensures RemoteOut(Positional(JoinColumns(kind, nl, nr)), LabelsFor(nl), LabelsFor(nr), w.remote)(el, er) == JoinOut(kind)(l, r)
  {
    var env := JoinEnv(LabelsFor(nl), LabelsFor(nr), el, er);
    forall i | 0 <= i < nl ensures env(Name(L, C(i))) == l[i] { PositionFound(nl, i); }
    forall i | 0 <= i < nr ensures env(Name(R, C(i))) == r[i] { PositionFound(nr, i); }
    SideValues(L, nl, l, env, w.remote);
    SideValues(R, nr, r, env, w.remote);
    EvalConcat(SideColumns(L, nl), SideColumns(R, nr), env, w.remote);
    PositionalExprs(JoinColumns(kind, nl, nr));
  }

  lemma KeysMean(on: seq<Key>, left: Schema, right: Schema, keys: seq<RemoteExpr>, l: Row, r: Row, w: World)
    requires RenderKeys(on, JoinNames(left, right)) == Some(keys) && (forall k | k in on :: KeyOk(k, left)) && Faithful(w)
    requires |l| == |left| && |r| == |right|
    ensures AllTrue(keys, Joined(left, right, l, r), w.remote)
      <==> forall k | k in on :: IsTrue(Apply(Eq, Eval(k.left, RowEnv(left, l), w.fns), Eval(k.right, RowEnv(right, r), w.fns)))
  {
    forall i | 0 <= i < |on|
      ensures Eval(keys[i], Joined(left, right, l, r), w.remote) == Apply(Eq, Eval(on[i].left, RowEnv(left, l), w.fns), Eval(on[i].right, RowEnv(right, r), w.fns))
    {
      assert on[i] in on;
      KeyMeans(on[i], left, right, keys[i], l, r, w);
    }
    AllTrueAt(keys, Joined(left, right, l, r), w.remote);
    KeysAt(on, left, right, l, r, w);
  }

  lemma KeyMeans(k: Key, left: Schema, right: Schema, key: RemoteExpr, l: Row, r: Row, w: World)
    requires RenderExpr(k.left, JoinNames(left, right)).Some? && RenderExpr(k.right, JoinNames(left, right)).Some?
    requires key == Binary(Eq, RenderExpr(k.left, JoinNames(left, right)).value, RenderExpr(k.right, JoinNames(left, right)).value)
    requires KeyOk(k, left) && Faithful(w) && |l| == |left| && |r| == |right|
    ensures Eval(key, Joined(left, right, l, r), w.remote) == Apply(Eq, Eval(k.left, RowEnv(left, l), w.fns), Eval(k.right, RowEnv(right, r), w.fns))
  {
    LeftKeyAgrees(left, right, l, r, Columns(k.left));
    RightKeyAgrees(left, right, l, r, Columns(k.right));
    ExprMeans(k.left, JoinNames(left, right), key.left, RowEnv(left, l), Joined(left, right, l, r), w);
    ExprMeans(k.right, JoinNames(left, right), key.right, RowEnv(right, r), Joined(left, right, l, r), w);
  }

  lemma KeysAt(on: seq<Key>, left: Schema, right: Schema, l: Row, r: Row, w: World)
    ensures (forall k | k in on :: IsTrue(Apply(Eq, Eval(k.left, RowEnv(left, l), w.fns), Eval(k.right, RowEnv(right, r), w.fns))))
      <==> forall i | 0 <= i < |on| :: IsTrue(Apply(Eq, Eval(on[i].left, RowEnv(left, l), w.fns), Eval(on[i].right, RowEnv(right, r), w.fns)))
  {
    forall i | 0 <= i < |on| ensures on[i] in on {}
  }

  lemma AllTrueConcat(a: seq<RemoteExpr>, b: seq<RemoteExpr>, env: Name -> Value, fns: Functions)
    ensures AllTrue(a + b, env, fns) <==> AllTrue(a, env, fns) && AllTrue(b, env, fns)
  {
    forall e | e in a || e in b ensures e in a + b {}
  }

  lemma MatchMeans(on: seq<Key>, filter: Option<Expr<Column>>, left: Schema, right: Schema, keys: seq<RemoteExpr>, extra: seq<RemoteExpr>,
                   l: Row, r: Row, w: World)
    requires RenderKeys(on, JoinNames(left, right)) == Some(keys) && RenderOptional(filter, JoinNames(left, right)) == Some(extra)
    requires (forall k | k in on :: KeyOk(k, left)) && Faithful(w) && |l| == |left| && |r| == |right|
    ensures RemoteMatch(keys + extra, LabelsFor(|left|), LabelsFor(|right|), w.remote)(Encode(|left|)(l), Encode(|right|)(r))
      == JoinMatch(on, filter, left, right, w.fns)(l, r)
  {
    var env := Joined(left, right, l, r);
    KeysMean(on, left, right, keys, l, r, w);
    AllTrueConcat(keys, extra, env, w.remote);
    if filter.Some? {
      JoinedAgrees(left, right, l, r, AllColumns([filter.value]));
      AllMean([filter.value], JoinNames(left, right), extra, RowEnv(left + right, l + r), env, w);
      AllTrueAt([filter.value], RowEnv(left + right, l + r), w.fns);
    }
  }

  lemma JoinBag(kind: JoinKind, on: seq<Key>, filter: Option<Expr<Column>>, left: Schema, right: Schema, keys: seq<RemoteExpr>, extra: seq<RemoteExpr>,
                s: Sides, t: Sides, w: World)
    requires RenderKeys(on, JoinNames(left, right)) == Some(keys) && RenderOptional(filter, JoinNames(left, right)) == Some(extra)
    requires (forall k | k in on :: KeyOk(k, left)) && Faithful(w) && Wide(s.left, |left|) && Wide(s.right, |right|)
    requires s.noLeft == Nulls(|left|) && s.noRight == Nulls(|right|)
    requires t.noLeft == Nulls(|LabelsFor(|left|)|) && t.noRight == Nulls(|LabelsFor(|right|)|)
    requires SameBag(t.left, Map(Encode(|left|), s.left)) && SameBag(t.right, Map(Encode(|right|), s.right))
    ensures SameBag(
      JoinRows(kind, t.left, t.right, RemoteMatch(keys + extra, LabelsFor(|left|), LabelsFor(|right|), w.remote),
        RemoteOut(Positional(JoinColumns(kind, |left|, |right|)), LabelsFor(|left|), LabelsFor(|right|), w.remote), t.noLeft, t.noRight),
      Map(Encode(1), JoinRows(kind, s.left, s.right, JoinMatch(on, filter, left, right, w.fns), JoinOut(kind), s.noLeft, s.noRight)))
  {
    var n := JoinMatch(on, filter, left, right, w.fns);
    var m := RemoteMatch(keys + extra, LabelsFor(|left|), LabelsFor(|right|), w.remote);
    var o := RemoteOut(Positional(JoinColumns(kind, |left|, |right|)), LabelsFor(|left|), LabelsFor(|right|), w.remote);
    forall l, r | l in s.left && r in s.right
      ensures m(Encode(|left|)(l), Encode(|right|)(r)) == n(l, r) && o(Encode(|left|)(l), Encode(|right|)(r)) == Encode(1)(JoinOut(kind)(l, r))
    {
      MatchMeans(on, filter, left, right, keys, extra, l, r, w);
      OutMeans(kind, |left|, |right|, l, r, Encode(|left|)(l), Encode(|right|)(r), w);
    }
    forall l | l in s.left ensures o(Encode(|left|)(l), t.noRight) == Encode(1)(JoinOut(kind)(l, s.noRight)) {
      OutMeans(kind, |left|, |right|, l, s.noRight, Encode(|left|)(l), t.noRight, w);
    }
    forall r | r in s.right ensures o(t.noLeft, Encode(|right|)(r)) == Encode(1)(JoinOut(kind)(s.noLeft, r)) {
      OutMeans(kind, |left|, |right|, s.noLeft, r, t.noLeft, Encode(|right|)(r), w);
    }
    JoinSimulates(kind, s, t, Encode(|left|), Encode(|right|), Encode(1), n, JoinOut(kind), m, o);
  }

  lemma InnerWide(kind: JoinKind, s: Sides, nl: nat, nr: nat, m: Match)
    requires Wide(s.left, nl) && Wide(s.right, nr)
    ensures forall l | l in s.left :: Wide(FlatMap(WithRight(l, m, JoinOut(kind)), s.right), |JoinColumns(kind, nl, nr)|)
    ensures forall r | r in s.right :: Wide(FlatMap(WithLeft(r, m, JoinOut(kind)), s.left), |JoinColumns(kind, nl, nr)|)
  {
    var n := |JoinColumns(kind, nl, nr)|;
    forall l | l in s.left ensures Wide(FlatMap(WithRight(l, m, JoinOut(kind)), s.right), n) { FlatWide(WithRight(l, m, JoinOut(kind)), s.right, n); }
    forall r | r in s.right ensures Wide(FlatMap(WithLeft(r, m, JoinOut(kind)), s.left), n) { FlatWide(WithLeft(r, m, JoinOut(kind)), s.left, n); }
  }

  lemma OuterWide(kind: JoinKind, s: Sides, nl: nat, nr: nat, m: Match)
    requires Wide(s.left, nl) && Wide(s.right, nr) && |s.noLeft| == nl && |s.noRight| == nr
    ensures Wide(FlatMap(InnerStep(s.right, m, JoinOut(kind)), s.left), |JoinColumns(kind, nl, nr)|)
    ensures Wide(FlatMap(LeftStep(s.right, m, JoinOut(kind), s.noRight), s.left), |JoinColumns(kind, nl, nr)|)
    ensures Wide(FlatMap(RightStep(s.left, m, JoinOut(kind), s.noLeft), s.right), |JoinColumns(kind, nl, nr)|)
  {
    var n := |JoinColumns(kind, nl, nr)|;
    InnerWide(kind, s, nl, nr, m);
    FlatWide(InnerStep(s.right, m, JoinOut(kind)), s.left, n);
    FlatWide(LeftStep(s.right, m, JoinOut(kind), s.noRight), s.left, n);
    FlatWide(RightStep(s.left, m, JoinOut(kind), s.noLeft), s.right, n);
  }

  lemma OnlyWide(kind: JoinKind, s: Sides, nl: nat, nr: nat, m: Match, partner: bool)
    requires Wide(s.left, nl) && Wide(s.right, nr) && |s.noLeft| == nl && |s.noRight| == nr
    ensures Wide(FlatMap(LeftOnly(s.right, m, JoinOut(kind), s.noRight, partner), s.left), |JoinColumns(kind, nl, nr)|)
    ensures Wide(FlatMap(RightOnly(s.left, m, JoinOut(kind), s.noLeft, partner), s.right), |JoinColumns(kind, nl, nr)|)
  {
    FlatWide(LeftOnly(s.right, m, JoinOut(kind), s.noRight, partner), s.left, |JoinColumns(kind, nl, nr)|);
    FlatWide(RightOnly(s.left, m, JoinOut(kind), s.noLeft, partner), s.right, |JoinColumns(kind, nl, nr)|);
  }

  lemma JoinWide(kind: JoinKind, s: Sides, nl: nat, nr: nat, m: Match)
    requires Wide(s.left, nl) && Wide(s.right, nr) && |s.noLeft| == nl && |s.noRight| == nr
    ensures Wide(JoinRows(kind, s.left, s.right, m, JoinOut(kind), s.noLeft, s.noRight), |JoinColumns(kind, nl, nr)|)
  {
    OuterWide(kind, s, nl, nr, m);
    OnlyWide(kind, s, nl, nr, m, true);
    OnlyWide(kind, s, nl, nr, m, false);
  }

  // ---- Each operator on top of rendered inputs ----

  lemma Delivered(w: World, q: Query, rows: seq<Row>, expected: seq<Row>)
    requires Faithful(w) && SameBag(rows, expected)
    ensures SameBag(w.order(q, rows), expected)
  {
    assert SameBag(w.order(q, rows), rows);
  }

  lemma ScanMeans(p: Plan, w: World)
    requires p.Scan? && Renderable(p) && Faithful(w) && Render(p).Some?
    ensures Means(p, Render(p).value, w)
  {
    var q := Render(p).value;
    var rows := w.db(p.table);
    var remote := RemoteRows(q.from, w.db, w.remote, w.order);
    assert Labels(q.from) == Labels(Table("", p.source));
    Delivered(w, q.from, rows, rows);
    ScanBag(p.source, p.projection, p.filters, q.where_, rows, remote, w);
    Delivered(w, q, FlatMap(SelectStep(q.items, q.where_, Labels(q.from), w.remote), remote), Map(Encode(Width(p)), Rows(p, w.db, w.fns)));
    if p.projection != [] { SourceColumnAt(p.source, p.projection, 0); }
    ItemLabelsFor(SourceColumns(p.source, p.projection).value);
  }

  lemma ProjectionMeans(p: Plan, q: Query, w: World)
    requires p.Projection? && Renderable(p) && Faithful(w) && q.Select? && Means(p.input, q.from, w)
    requires q.where_ == [] && exists qs :: RenderAll(p.exprs, InputNames(SchemaOf(p.input))) == Some(qs) && q.items == SelectList(qs)
    ensures Means(p, q, w)
  {
    var qs :| RenderAll(p.exprs, InputNames(SchemaOf(p.input))) == Some(qs) && q.items == SelectList(qs);
    var rows := Rows(p.input, w.db, w.fns);
    var remote := RemoteRows(q.from, w.db, w.remote, w.order);
    ProjectionBag(p.exprs, SchemaOf(p.input), qs, rows, remote, w);
    Delivered(w, q, FlatMap(SelectStep(q.items, [], Labels(q.from), w.remote), remote), Map(Encode(Width(p)), Rows(p, w.db, w.fns)));
    ItemLabelsFor(qs);
  }

  lemma FilterMeans(p: Plan, q: Query, w: World)
    requires p.Filter? && Faithful(w) && q.SelectAll? && Means(p.input, q.from, w)
    requires RenderAll([p.predicate_], InputNames(SchemaOf(p.input))) == Some(q.where_)
    ensures Means(p, q, w)
  {
    var rows := Rows(p.input, w.db, w.fns);
    var remote := RemoteRows(q.from, w.db, w.remote, w.order);
    FilterBag(p.predicate_, SchemaOf(p.input), q.where_, rows, remote, w);
    Delivered(w, q, FlatMap(WhereStep(q.where_, Labels(q.from), w.remote), remote), Map(Encode(Width(p)), Rows(p, w.db, w.fns)));
  }

  lemma AggregationBag(groups: seq<Expr<Column>>, aggregates: seq<Aggregate<Column>>, schema: Schema, keys: seq<RemoteExpr>, calls: seq<RemoteCall>,
                       rows: seq<Row>, remote: seq<Row>, n: nat, w: World)
    requires RenderAll(groups, InputNames(schema)) == Some(keys) && RenderCalls(aggregates, InputNames(schema)) == Some(calls)
    requires (forall a | a in aggregates :: AggregateOk(a)) && Faithful(w) && n == |groups| + |aggregates| > 0
    requires Wide(rows, |schema|) && SameBag(remote, Map(Encode(|schema|), rows))
    ensures SameBag(
      Grouped(keys == [], remote, RemoteKey(keys, LabelsFor(|schema|), w.remote), |calls|, RemoteSummary(calls, LabelsFor(|schema|), w.remote)),
      Map(Encode(n), Grouped(groups == [], rows, GroupKey(groups, schema, w.fns), |aggregates|, Summary(aggregates, schema, w.fns))))
    ensures Wide(Grouped(groups == [], rows, GroupKey(groups, schema, w.fns), |aggregates|, Summary(aggregates, schema, w.fns)), n)
  {
    GroupBag(groups, aggregates, schema, keys, calls, rows, remote, w);
    GroupWide(groups, rows, schema, |aggregates|, Summary(aggregates, schema, w.fns), w.fns);
    EncodeNothing(n, Grouped(groups == [], rows, GroupKey(groups, schema, w.fns), |aggregates|, Summary(aggregates, schema, w.fns)));
  }

  lemma AggregationMeans(p: Plan, q: Query, w: World)
    requires p.Aggregation? && Renderable(p) && Faithful(w) && q.SelectGroups? && Means(p.input, q.from, w)
    requires RenderAll(p.groups, InputNames(SchemaOf(p.input))) == Some(q.keys)
    requires RenderCalls(p.aggregates, InputNames(SchemaOf(p.input))) == Some(q.calls)
    ensures Means(p, q, w)
  {
    var remote := RemoteRows(q.from, w.db, w.remote, w.order);
    AggregationBag(p.groups, p.aggregates, SchemaOf(p.input), q.keys, q.calls, Rows(p.input, w.db, w.fns), remote, Width(p), w);
    Delivered(w, q,
      Grouped(q.keys == [], remote, RemoteKey(q.keys, Labels(q.from), w.remote), |q.calls|, RemoteSummary(q.calls, Labels(q.from), w.remote)),
      Map(Encode(Width(p)), Rows(p, w.db, w.fns)));
  }

  lemma {:induction false} ColumnsResolve(e: Expr<Column>, names: Resolver)
    requires RenderExpr(e, names).Some?
    ensures forall c | c in Columns(e) :: names(c).Some?
  {
    match e {
      case Ref(_) =>
      case Lit(_) =>
      case Alias(a, _) => ColumnsResolve(a, names);
      case Not(a) => ColumnsResolve(a, names);
      case IsNull(a) => ColumnsResolve(a, names);
      case IsNotNull(a) => ColumnsResolve(a, names);
      case Binary(_, a, b) =>
        ColumnsResolve(a, names);
        ColumnsResolve(b, names);
      case Call(_, a) => ColumnsResolve(a, names);
    }
  }

  lemma {:induction false} KeyedSidesHaveColumns(on: seq<Key>, left: Schema, right: Schema)
    requires NamesBothSides(on) && (forall k | k in on :: KeyOk(k, left)) && RenderKeys(on, JoinNames(left, right)).Some?
    ensures left != [] && right != []
  {
    var k :| k in on && Columns(k.left) != {} && Columns(k.right) != {};
    var i :| 0 <= i < |on| && on[i] == k;
    var a :| a in Columns(k.left);
    var b :| b in Columns(k.right);
    ColumnsResolve(k.right, JoinNames(left, right));
    assert IndexOf(left, a).Some? && IndexOf(right, b).Some?;
  }

  /** A join on a key over both sides selects something, whatever its kind. */
  lemma {:induction false} KeyedJoinHasOutput(p: Plan)
    requires p.Join? && NamesBothSides(p.on) && (forall k | k in p.on :: KeyOk(k, SchemaOf(p.left)))
    requires RenderKeys(p.on, JoinNames(SchemaOf(p.left), SchemaOf(p.right))).Some?
    ensures Width(p) > 0 && Positional(JoinColumns(p.kind, Width(p.left), Width(p.right))) != []
  {
    KeyedSidesHaveColumns(p.on, SchemaOf(p.left), SchemaOf(p.right));
  }

  lemma JoinMeans(p: Plan, q: Query, extra: seq<RemoteExpr>, keys: seq<RemoteExpr>, w: World)
    requires p.Join? && Renderable(p) && Width(p) > 0 && Faithful(w) && q.SelectJoin? && Means(p.left, q.left, w) && Means(p.right, q.right, w)
    requires RenderKeys(p.on, JoinNames(SchemaOf(p.left), SchemaOf(p.right))) == Some(keys)
    requires RenderOptional(p.filter, JoinNames(SchemaOf(p.left), SchemaOf(p.right))) == Some(extra)
    requires q.on == keys + extra && q.kind == p.kind && q.items == Positional(JoinColumns(p.kind, Width(p.left), Width(p.right)))
    ensures Means(p, q, w)
  {
    var nl, nr := Width(p.left), Width(p.right);
    var s := Sides(Rows(p.left, w.db, w.fns), Rows(p.right, w.db, w.fns), Nulls(nl), Nulls(nr));
    var t := Sides(RemoteRows(q.left, w.db, w.remote, w.order), RemoteRows(q.right, w.db, w.remote, w.order),
                   Nulls(|LabelsFor(nl)|), Nulls(|LabelsFor(nr)|));
    JoinBag(p.kind, p.on, p.filter, SchemaOf(p.left), SchemaOf(p.right), keys, extra, s, t, w);
    JoinWide(p.kind, s, nl, nr, JoinMatch(p.on, p.filter, SchemaOf(p.left), SchemaOf(p.right), w.fns));
    PositionalExprs(JoinColumns(p.kind, nl, nr));
    EncodeNothing(1, Rows(p, w.db, w.fns));
    EncodeNothing(Width(p), Rows(p, w.db, w.fns));
    Delivered(w, q,
      JoinRows(q.kind, t.left, t.right, RemoteMatch(q.on, Labels(q.left), Labels(q.right), w.remote),
        RemoteOut(q.items, Labels(q.left), Labels(q.right), w.remote), t.noLeft, t.noRight),
      Map(Encode(Width(p)), Rows(p, w.db, w.fns)));
  }

  // ---- The theorem ----

  lemma {:induction false} UnionMeans(p: Plan, inputs: seq<Plan>, q: Query, queries: seq<Query>, w: World)
    requires p.Union? && Renderable(p) && inputs <= p.inputs && Faithful(w)
    requires q.UnionAll? && queries <= q.inputs && RenderInputs(p, inputs) == Some(queries)
    ensures Wide(UnionRows(p, inputs, w.db, w.fns), Width(p))
    ensures SameBag(RemoteUnion(q, queries, w.db, w.remote, w.order), Map(Encode(Width(p)), UnionRows(p, inputs, w.db, w.fns)))
    ensures inputs != [] ==> Labels(queries[0]) == LabelsFor(Width(p))
    decreases p, 1 + |inputs|, 0
  {
    if inputs != [] {
      var n := |inputs| - 1;
      assert inputs[n] == p.inputs[n] && Width(inputs[n]) == Width(p);
      UnionMeans(p, inputs[..n], q, queries[..n], w);
      RenderMeans(inputs[n], w);
      MapConcat(Encode(Width(p)), UnionRows(p, inputs[..n], w.db, w.fns), Rows(inputs[n], w.db, w.fns));
    }
  }

  /** Rendering preserves the bag of rows: for every database, however the remote
    * side orders intermediate results, and for plans without columns as well. */
  lemma {:induction false} RenderMeans(p: Plan, w: World)
    requires Renderable(p) && Faithful(w) && Render(p).Some?
    ensures Means(p, Render(p).value, w)
    decreases p, if p.Union? then |p.inputs| + 2 else 0, 1
  {
    if p.Scan? {
      ScanMeans(p, w);
    } else if p.Join? {
      JoinInputs(p);
      RenderMeans(p.left, w);
      RenderMeans(p.right, w);
      BinaryMeans(p, w);
    } else if p.Union? {
      UnionWhole(p, w);
    } else if p.EmptyRelation? {
      EmptyMeans(p, w);
    } else {
      OnlyInput(p);
      RenderMeans(p.input, w);
      UnaryMeans(p, w);
    }
  }

  lemma UnionWhole(p: Plan, w: World)
    requires p.Union? && Renderable(p) && Faithful(w) && Render(p).Some?
    ensures Means(p, Render(p).value, w)
    decreases p, |p.inputs| + 2, 0
  {
    var queries := RenderInputs(p, p.inputs).value;
    UnionMeans(p, p.inputs, UnionAll(queries), queries, w);
    UnionDelivered(p, queries, w);
  }

  lemma UnionDelivered(p: Plan, queries: seq<Query>, w: World)
    requires p.Union? && p.inputs != [] && Faithful(w) && |queries| == |p.inputs| && Labels(queries[0]) == LabelsFor(Width(p))
    requires Wide(UnionRows(p, p.inputs, w.db, w.fns), Width(p))
    requires SameBag(RemoteUnion(UnionAll(queries), queries, w.db, w.remote, w.order), Map(Encode(Width(p)), UnionRows(p, p.inputs, w.db, w.fns)))
    ensures Means(p, UnionAll(queries), w)
  {
    var q := UnionAll(queries);
    var remote := RemoteUnion(q, queries, w.db, w.remote, w.order);
    var rows := UnionRows(p, p.inputs, w.db, w.fns);
    UnionUnfolds(p, queries, w);
    Delivered(w, q, remote, Map(Encode(Width(p)), rows));
    MeansFrom(p, q, rows, w.order(q, remote), w);
  }

  lemma UnionUnfolds(p: Plan, queries: seq<Query>, w: World)
    requires p.Union? && queries != []
    ensures Rows(p, w.db, w.fns) == UnionRows(p, p.inputs, w.db, w.fns)
    ensures RemoteRows(UnionAll(queries), w.db, w.remote, w.order)
      == w.order(UnionAll(queries), RemoteUnion(UnionAll(queries), queries, w.db, w.remote, w.order))
    ensures Labels(UnionAll(queries)) == Labels(queries[0])
  {
  }

  lemma MeansFrom(p: Plan, q: Query, rows: seq<Row>, remote: seq<Row>, w: World)
    requires Rows(p, w.db, w.fns) == rows && RemoteRows(q, w.db, w.remote, w.order) == remote
    requires Labels(q) == LabelsFor(Width(p)) && Wide(rows, Width(p)) && SameBag(remote, Map(Encode(Width(p)), rows))
    ensures Means(p, q, w)
  {
  }

  lemma JoinInputs(p: Plan)
    requires p.Join? && Renderable(p) && Render(p).Some?
    ensures Renderable(p.left) && Renderable(p.right) && Render(p.left).Some? && Render(p.right).Some?
  {
  }

  lemma OnlyInput(p: Plan)
    requires p.SubqueryAlias? || p.Projection? || p.Filter? || p.Aggregation?
    requires Renderable(p) && Render(p).Some?
    ensures Renderable(p.input) && Render(p.input).Some?
  {
  }

  lemma UnaryMeans(p: Plan, w: World)
    requires p.SubqueryAlias? || p.Projection? || p.Filter? || p.Aggregation?
    requires Renderable(p) && Faithful(w) && Render(p).Some? && Means(p.input, Render(p.input).value, w)
    ensures Means(p, Render(p).value, w)
  {
    var q := Render(p).value;
    match p {
      case SubqueryAlias(_, _) =>
      case Projection(_, _, _) => ProjectionMeans(p, q, w);
      case Filter(_, _) => FilterMeans(p, q, w);
      case Aggregation(_, _, _, _) => AggregationMeans(p, q, w);
    }
  }

  lemma BinaryMeans(p: Plan, w: World)
    requires p.Join? && Renderable(p) && Faithful(w) && Render(p).Some?
    requires Means(p.left, Render(p.left).value, w) && Means(p.right, Render(p.right).value, w)
    ensures Means(p, Render(p).value, w)
  {
    var names := JoinNames(SchemaOf(p.left), SchemaOf(p.right));
    if NamesBothSides(p.on) { KeyedJoinHasOutput(p); }
    JoinMeans(p, Render(p).value, RenderOptional(p.filter, names).value, RenderKeys(p.on, names).value, w);
  }

  lemma EmptyMeans(p: Plan, w: World)
    requires p.EmptyRelation? && Renderable(p)
    ensures Means(p, Render(p).value, w)
  {
    assert Nulls(0) == [];
    OneMapped(0, []);
  }

  // ---- The whole statement ----

  function FieldNames(schema: Schema): (r: seq<Label>)
    ensures |r| == |schema| && forall i | 0 <= i < |schema| :: r[i] == Named(schema[i].name)
  {
    seq(|schema|, i requires 0 <= i < |schema| => Named(schema[i].name))
  }

  lemma StatementRow(p: Plan, q: Query, row: Row, w: World)
    requires q.Select? && |row| == Width(p)
    requires Width(p) == 0 ==> q.items == [Item(Lit(Int(1)), SemanticRow)]
    requires Width(p) > 0 ==> |q.items| == Width(p) && forall i | 0 <= i < Width(p) :: q.items[i].expr == Ref(Name(Result, C(i)))
    ensures SelectStep(q.items, [], LabelsFor(Width(p)), w.remote)(Encode(Width(p))(row)) == [Encode(Width(p))(row)]
  {
    var env := SubEnv(LabelsFor(Width(p)), Encode(Width(p))(row));
    if Width(p) == 0 {
      assert EvalAll(ItemExprs(q.items), env, w.remote) == [Int(1)];
    } else {
      forall i | 0 <= i < Width(p) ensures env(Name(Result, C(i))) == row[i] { PositionFound(Width(p), i); }
      assert EvalAll(ItemExprs(q.items), env, w.remote) == row;
    }
  }

  lemma {:induction false} FlatMapIdentity(f: Row -> seq<Row>, s: seq<Row>)
    requires forall row | row in s :: f(row) == [row]
    ensures FlatMap(f, s) == s
  {
    if s != [] {
      assert s[0] in s;
      forall row | row in s[1..] ensures row in s {}
      FlatMapIdentity(f, s[1..]);
    }
  }

  lemma StatementBag(p: Plan, q: Query, inner: seq<Row>, w: World)
    requires q.Select? && SameBag(inner, Map(Encode(Width(p)), Rows(p, w.db, w.fns))) && Wide(Rows(p, w.db, w.fns), Width(p))
    requires Width(p) == 0 ==> q.items == [Item(Lit(Int(1)), SemanticRow)]
    requires Width(p) > 0 ==> |q.items| == Width(p) && forall i | 0 <= i < Width(p) :: q.items[i].expr == Ref(Name(Result, C(i)))
    ensures FlatMap(SelectStep(q.items, [], LabelsFor(Width(p)), w.remote), inner) == inner
  {
    var rows := Rows(p, w.db, w.fns);
    SameBagMembers(inner, Map(Encode(Width(p)), rows));
    forall e | e in inner ensures SelectStep(q.items, [], LabelsFor(Width(p)), w.remote)(e) == [e] {
      var i :| 0 <= i < |rows| && Map(Encode(Width(p)), rows)[i] == e;
      assert rows[i] in rows;
      StatementRow(p, q, rows[i], w);
    }
    FlatMapIdentity(SelectStep(q.items, [], LabelsFor(Width(p)), w.remote), inner);
  }

  lemma SelectDelivers(q: Query, inner: seq<Row>, w: World)
    requires q.Select? && Faithful(w) && inner == RemoteRows(q.from, w.db, w.remote, w.order)
    requires FlatMap(SelectStep(q.items, q.where_, Labels(q.from), w.remote), inner) == inner
    ensures SameBag(RemoteRows(q, w.db, w.remote, w.order), inner)
  {
    assert RemoteRows(q, w.db, w.remote, w.order) == w.order(q, inner);
  }

  /** The statement that is sent returns the plan's rows under the plan's field
    * names; a plan without columns returns one constant per row. */
  lemma StatementMeans(p: Plan, w: World)
    requires Renderable(p) && Faithful(w) && Statement(p).Some?
    ensures SameBag(RemoteRows(Statement(p).value, w.db, w.remote, w.order), Map(Encode(Width(p)), Rows(p, w.db, w.fns)))
    ensures Labels(Statement(p).value) == if Width(p) == 0 then [SemanticRow] else FieldNames(SchemaOf(p))
  {
    RenderMeans(p, w);
    StatementOver(p, Statement(p).value, w);
  }

  lemma StatementOver(p: Plan, q: Query, w: World)
    requires Faithful(w) && q.Select? && q.where_ == [] && Means(p, q.from, w)
    requires Width(p) == 0 ==> q.items == [Item(Lit(Int(1)), SemanticRow)]
    requires Width(p) > 0 ==> |q.items| == Width(p) && forall i | 0 <= i < Width(p) :: q.items[i] == Item(Ref(Name(Result, C(i))), Named(SchemaOf(p)[i].name))
    ensures SameBag(RemoteRows(q, w.db, w.remote, w.order), Map(Encode(Width(p)), Rows(p, w.db, w.fns)))
    ensures Labels(q) == if Width(p) == 0 then [SemanticRow] else FieldNames(SchemaOf(p))
  {
    var inner := RemoteRows(q.from, w.db, w.remote, w.order);
    StatementBag(p, q, inner, w);
    SelectDelivers(q, inner, w);
  }
}
