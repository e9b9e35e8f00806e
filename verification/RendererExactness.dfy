/** Where rendering stops preserving a plan, exactly. A join on a column key is rendered faithfully if
    and only if its right column does not resolve on the left: row by row for any two schemas, and
    for whole plans of every join kind over two subqueries that read a table each. An empty relation
    is rendered faithfully if and only if it declares no column. */
module RendererExactness {
  import opened PlanRenderer
  import opened RelationalPlans
  import opened RemoteQueries
  import opened RendererMeaning
  import opened RenderPreserves
  import opened RowBags
  import opened Wrappers

  function Filled(n: nat, v: int): Row {
    seq(n, _ => Int(v))
  }

  /** What a join on the columns `a` and `b` is rendered to. */
  function ColumnKey(left: Schema, right: Schema, a: Column, b: Column): RemoteExpr
    requires IndexOf(left, a).Some? && IndexOf(right, b).Some?
  {
    Binary(Eq, Ref(JoinNames(left, right)(a).value), Ref(JoinNames(left, right)(b).value))
  }

  lemma OneKey(left: Schema, right: Schema, a: Column, b: Column)
    requires IndexOf(left, a).Some? && IndexOf(right, b).Some?
    ensures RenderKeys([Key(Ref(a), Ref(b))], JoinNames(left, right)) == Some([ColumnKey(left, right, a, b)])
  {
    var k := Key(Ref(a), Ref(b));
    assert [k][..0] == [] && RenderKeys([k][..0], JoinNames(left, right)) == Some([]);
    assert [] + [ColumnKey(left, right, a, b)] == [ColumnKey(left, right, a, b)];
  }

  lemma {:induction false} OnesRead(left: Schema, right: Schema, c: Column)
    requires IndexOf(left, c).Some?
    ensures Joined(left, right, Filled(|left|, 1), Filled(|right|, 2))(JoinNames(left, right)(c).value) == Int(1)
  {
    LeftKeyAgrees(left, right, Filled(|left|, 1), Filled(|right|, 2), {c});
    IndexBound(left, c);
  }

  lemma EqualOnes(key: RemoteExpr, env: Name -> Value, fns: Functions)
    requires key.Binary? && key.op == Eq && key.left.Ref? && key.right.Ref? && env(key.left.ref) == Int(1) && env(key.right.ref) == Int(1)
    ensures AllTrue([key], env, fns)
  {
    assert IsTrue(Eval(key, env, fns));
  }

  /** The pair that tells a shadowed key: ones on the left, twos on the right. */
  lemma {:induction false} ShadowedRemotely(left: Schema, right: Schema, a: Column, b: Column, w: World)
    requires IndexOf(left, a).Some? && IndexOf(right, b).Some? && IndexOf(left, b).Some?
    ensures RemoteMatch([ColumnKey(left, right, a, b)], LabelsFor(|left|), LabelsFor(|right|), w.remote)
              (Encode(|left|)(Filled(|left|, 1)), Encode(|right|)(Filled(|right|, 2)))
  {
    OnesRead(left, right, a);
    OnesRead(left, right, b);
    EqualOnes(ColumnKey(left, right, a, b), Joined(left, right, Filled(|left|, 1), Filled(|right|, 2)), w.remote);
  }

  lemma {:induction false} ShadowedLocally(left: Schema, right: Schema, a: Column, b: Column, w: World)
    requires IndexOf(left, a).Some? && IndexOf(right, b).Some?
    ensures !JoinMatch([Key(Ref(a), Ref(b))], None, left, right, w.fns)(Filled(|left|, 1), Filled(|right|, 2))
  {
    var k := Key(Ref(a), Ref(b));
    IndexBound(left, a);
    IndexBound(right, b);
    assert k in [k];
    assert RowEnv(left, Filled(|left|, 1))(a) == Int(1) && RowEnv(right, Filled(|right|, 2))(b) == Int(2);
    assert !IsTrue(Apply(Eq, Eval(k.left, RowEnv(left, Filled(|left|, 1)), w.fns), Eval(k.right, RowEnv(right, Filled(|right|, 2)), w.fns)));
  }

  ghost predicate SameMatch(left: Schema, right: Schema, a: Column, b: Column, l: Row, r: Row, w: World)
    requires IndexOf(left, a).Some? && IndexOf(right, b).Some?
  {
    RemoteMatch([ColumnKey(left, right, a, b)], LabelsFor(|left|), LabelsFor(|right|), w.remote)(Encode(|left|)(l), Encode(|right|)(r))
      == JoinMatch([Key(Ref(a), Ref(b))], None, left, right, w.fns)(l, r)
  }

  /** Over any two schemas, a column key matches the same pairs on both sides exactly when
    * the right column does not resolve on the left. */
  lemma ColumnKeyExact(left: Schema, right: Schema, a: Column, b: Column, w: World)
    requires IndexOf(left, a).Some? && IndexOf(right, b).Some? && Faithful(w)
    ensures (forall l, r | |l| == |left| && |r| == |right| :: SameMatch(left, right, a, b, l, r, w)) <==> IndexOf(left, b).None?
  {
    var on := [Key(Ref(a), Ref(b))];
    if IndexOf(left, b).None? {
      OneKey(left, right, a, b);
      forall l, r | |l| == |left| && |r| == |right| ensures SameMatch(left, right, a, b, l, r, w) {
        MatchMeans(on, None, left, right, [ColumnKey(left, right, a, b)], [], l, r, w);
        assert [ColumnKey(left, right, a, b)] + [] == [ColumnKey(left, right, a, b)];
      }
    } else {
      ShadowedRemotely(left, right, a, b, w);
      ShadowedLocally(left, right, a, b, w);
      assert !SameMatch(left, right, a, b, Filled(|left|, 1), Filled(|right|, 2), w);
    }
  }

  // ---- Whole plans ----

  /** A table read whole, under any aliases and any choice and renaming of its columns. */
  predicate IsSide(p: Plan) {
    match p
    case Scan(_, _, _, filters, _) => filters == []
    case SubqueryAlias(input, _) => IsSide(input)
    case Projection(exprs, input, _) => IsSide(input) && forall e | e in exprs :: IsColumn(e, SchemaOf(input))
    case _ => false
  }

  predicate IsColumn(e: Expr<Column>, schema: Schema) {
    match e
    case Ref(c) => IndexOf(schema, c).Some?
    case Alias(inner, _) => IsColumn(inner, schema)
    case _ => false
  }

  /** The table a side reads. */
  function TableOf(p: Plan): Plan
    requires IsSide(p)
    ensures TableOf(p).Scan?
  {
    if p.Scan? then p else TableOf(p.input)
  }

  /** A join of two sides over different tables on one pair of columns. */
  ghost predicate IsColumnJoin(p: Plan, a: Column, b: Column) {
    && p.Join? && p.on == [Key(Ref(a), Ref(b))] && p.filter == None
    && IsSide(p.left) && IsSide(p.right) && TableOf(p.left).table != TableOf(p.right).table
    && Renderable(p.left) && Renderable(p.right)
    && IndexOf(SchemaOf(p.left), a).Some? && IndexOf(SchemaOf(p.right), b).Some?
  }

  /** Ones in one table, twos in all others, one row each; rows arrive as they come. */
  ghost function Witness(ones: string, n: nat, m: nat): World {
    World(
      (table: string) => if table == ones then [Filled(n, 1)] else [Filled(m, 2)],
      (fn: string, v: Value) => Null, (fn: string, v: Value) => Null, (q: Query, rows: seq<Row>) => rows)
  }

  lemma {:induction false} SourceColumnsExist(source: seq<string>, projection: seq<nat>)
    requires forall i | i in projection :: 0 <= i < |source|
    ensures SourceColumns(source, projection).Some?
  {
    if projection != [] {
      var first := projection[..|projection| - 1];
      forall i | i in first ensures i in projection {}
      assert projection[|projection| - 1] in projection;
      SourceColumnsExist(source, first);
    }
  }

  lemma {:induction false} ColumnRenders(e: Expr<Column>, schema: Schema)
    requires IsColumn(e, schema)
    ensures RenderExpr(e, InputNames(schema)).Some?
  {
    if e.Alias? { ColumnRenders(e.inner, schema); }
  }

  lemma {:induction false} ColumnsRender(exprs: seq<Expr<Column>>, schema: Schema)
    requires forall e | e in exprs :: IsColumn(e, schema)
    ensures RenderAll(exprs, InputNames(schema)).Some?
  {
    if exprs != [] {
      var first := exprs[..|exprs| - 1];
      assert exprs[|exprs| - 1] in exprs;
      forall e | e in first ensures e in exprs {}
      ColumnRenders(exprs[|exprs| - 1], schema);
      ColumnsRender(first, schema);
    }
  }

  lemma {:induction false} SideRenders(p: Plan)
    requires IsSide(p) && Renderable(p)
    ensures Render(p).Some?
  {
    match p {
      case Scan(_, source, projection, _, _) => SourceColumnsExist(source, projection);
      case SubqueryAlias(input, _) => SideRenders(input);
      case Projection(exprs, input, _) =>
        SideRenders(input);
        ColumnsRender(exprs, SchemaOf(input));
    }
  }

  lemma ColumnJoinRenders(p: Plan, a: Column, b: Column)
    requires IsColumnJoin(p, a, b)
    ensures Render(p).Some? && Render(p.left).Some? && Render(p.right).Some?
    ensures Render(p).value == SelectJoin(p.kind, Positional(JoinColumns(p.kind, Width(p.left), Width(p.right))),
              Render(p.left).value, Render(p.right).value, [ColumnKey(SchemaOf(p.left), SchemaOf(p.right), a, b)])
  {
    SideRenders(p.left);
    SideRenders(p.right);
    OneKey(SchemaOf(p.left), SchemaOf(p.right), a, b);
    assert [ColumnKey(SchemaOf(p.left), SchemaOf(p.right), a, b)] + [] == [ColumnKey(SchemaOf(p.left), SchemaOf(p.right), a, b)];
  }

  lemma ScanOfOne(p: Plan, v: int, w: World)
    requires p.Scan? && Renderable(p) && p.filters == [] && w.db(p.table) == [Filled(|p.source|, v)]
    ensures Rows(p, w.db, w.fns) == [Filled(Width(p), v)]
  {
    var row := Filled(|p.source|, v);
    var step := ScanStep(p.filters, p.source, p.projection, w.fns);
    assert w.db(p.table)[1..] == [];
    assert FlatMap(step, [row]) == step(row) + FlatMap(step, []);
    assert AllTrue(p.filters, SourceEnv(p.source, row), w.fns);
    forall i | 0 <= i < |p.projection| ensures Pick(row, p.projection)[i] == Int(v) {
      assert p.projection[i] in p.projection;
    }
    assert Pick(row, p.projection) == Filled(Width(p), v);
  }

  lemma {:induction false} FlatMapOne<A, B>(f: A -> seq<B>, x: A)
    ensures FlatMap(f, [x]) == f(x)
  {
    assert [x][1..] == [];
  }

  lemma {:induction false} ColumnReads(e: Expr<Column>, schema: Schema, v: int, fns: Functions)
    requires IsColumn(e, schema)
    ensures Eval(e, RowEnv(schema, Filled(|schema|, v)), fns) == Int(v)
  {
    if e.Alias? { ColumnReads(e.inner, schema, v, fns); } else { IndexBound(schema, e.ref); }
  }

  /** A column of ones or twos stays one under renaming. */
  lemma ProjectionOfOne(p: Plan, v: int, w: World)
    requires p.Projection? && IsSide(p) && Renderable(p) && Rows(p.input, w.db, w.fns) == [Filled(Width(p.input), v)]
    ensures Rows(p, w.db, w.fns) == [Filled(Width(p), v)]
  {
    var schema := SchemaOf(p.input);
    var row := Filled(|schema|, v);
    var out := EvalAll(p.exprs, RowEnv(schema, row), w.fns);
    forall i | 0 <= i < |p.exprs| ensures out[i] == Int(v) {
      assert p.exprs[i] in p.exprs;
      ColumnReads(p.exprs[i], schema, v, w.fns);
    }
    assert out == Filled(Width(p), v);
    FlatMapOne(ProjectStep(p.exprs, schema, w.fns), row);
  }

  lemma {:induction false} SideOfOne(p: Plan, v: int, w: World)
    requires IsSide(p) && Renderable(p) && w.db(TableOf(p).table) == [Filled(|TableOf(p).source|, v)]
    ensures Rows(p, w.db, w.fns) == [Filled(Width(p), v)]
  {
    match p {
      case Scan(_, _, _, _, _) => ScanOfOne(p, v, w);
      case SubqueryAlias(input, _) => SideOfOne(input, v, w);
      case Projection(_, input, _) =>
        SideOfOne(input, v, w);
        ProjectionOfOne(p, v, w);
    }
  }

  /** Both output rows of an unmatched full outer join, and what other joins make of it. */
  function Unmatched(kind: JoinKind, l: Row, r: Row, out: Combine, noLeft: Row, noRight: Row): seq<Row> {
    match kind
    case Inner => []
    case LeftOuter => [out(l, noRight)]
    case RightOuter => [out(noLeft, r)]
    case FullOuter => [out(l, noRight), out(noLeft, r)]
    case LeftSemi => []
    case LeftAnti => [out(l, noRight)]
    case RightSemi => []
    case RightAnti => [out(noLeft, r)]
  }

  function Matched(kind: JoinKind, l: Row, r: Row, out: Combine, noLeft: Row, noRight: Row): seq<Row> {
    match kind
    case LeftSemi => [out(l, noRight)]
    case LeftAnti => []
    case RightSemi => [out(noLeft, r)]
    case RightAnti => []
    case _ => [out(l, r)]
  }

  lemma PairJoined(kind: JoinKind, l: Row, r: Row, m: Match, out: Combine, noLeft: Row, noRight: Row)
    ensures JoinRows(kind, [l], [r], m, out, noLeft, noRight)
      == if m(l, r) then Matched(kind, l, r, out, noLeft, noRight) else Unmatched(kind, l, r, out, noLeft, noRight)
  {
    assert r in [r] && l in [l];
    assert MatchesRight(l, [r], m) == m(l, r) && MatchesLeft(r, [l], m) == m(l, r);
    FlatMapOne(WithRight(l, m, out), r);
    FlatMapOne(WithLeft(r, m, out), l);
    FlatMapOne(InnerStep([r], m, out), l);
    FlatMapOne(LeftStep([r], m, out, noRight), l);
    FlatMapOne(RightStep([l], m, out, noLeft), r);
    OnlyJoined(l, r, m, out, noLeft, noRight, true);
    OnlyJoined(l, r, m, out, noLeft, noRight, false);
  }

  lemma OnlyJoined(l: Row, r: Row, m: Match, out: Combine, noLeft: Row, noRight: Row, partner: bool)
    ensures FlatMap(LeftOnly([r], m, out, noRight, partner), [l]) == if m(l, r) == partner then [out(l, noRight)] else []
    ensures FlatMap(RightOnly([l], m, out, noLeft, partner), [r]) == if m(l, r) == partner then [out(noLeft, r)] else []
  {
    assert r in [r] && l in [l];
    assert MatchesRight(l, [r], m) == m(l, r) && MatchesLeft(r, [l], m) == m(l, r);
    FlatMapOne(LeftOnly([r], m, out, noRight, partner), l);
    FlatMapOne(RightOnly([l], m, out, noLeft, partner), r);
  }

  lemma OneRow(remote: seq<Row>, row: Row)
    requires SameBag(remote, [row])
    ensures remote == [row]
  {
    SameBagMembers(remote, [row]);
    assert remote[0] in remote;
  }

  /** Every kind of join tells a matched pair of ones and twos from an unmatched one. */
  lemma KindsTellApart(kind: JoinKind, n: nat, m: nat, out: Combine, remoteOut: Combine, noLeft: Row, noRight: Row)
    requires n > 0 && m > 0
    requires kind.Inner? || kind.LeftOuter? || kind.RightOuter? || kind.FullOuter? ==>
      && remoteOut(Filled(n, 1), Filled(m, 2)) == Filled(n, 1) + Filled(m, 2)
      && out(Filled(n, 1), noRight) == Filled(n, 1) + Nulls(m)
      && out(noLeft, Filled(m, 2)) == Nulls(n) + Filled(m, 2)
    ensures !SameBag(Matched(kind, Filled(n, 1), Filled(m, 2), remoteOut, noLeft, noRight),
                     Unmatched(kind, Filled(n, 1), Filled(m, 2), out, noLeft, noRight))
  {
    var remote := Matched(kind, Filled(n, 1), Filled(m, 2), remoteOut, noLeft, noRight);
    var local := Unmatched(kind, Filled(n, 1), Filled(m, 2), out, noLeft, noRight);
    var whole := Filled(n, 1) + Filled(m, 2);
    assert whole[n] == Int(2) && (Filled(n, 1) + Nulls(m))[n] == Null;
    assert whole[0] == Int(1) && (Nulls(n) + Filled(m, 2))[0] == Null;
    assert whole in [whole];
    if SameBag(remote, local) { SameBagMembers(remote, local); }
  }

  lemma PairDelivered(p: Plan, v: int, w: World)
    requires IsSide(p) && Renderable(p) && Width(p) > 0 && Faithful(w) && Render(p).Some?
    requires w.db(TableOf(p).table) == [Filled(|TableOf(p).source|, v)]
    ensures RemoteRows(Render(p).value, w.db, w.remote, w.order) == [Filled(Width(p), v)]
    ensures Rows(p, w.db, w.fns) == [Filled(Width(p), v)] && Labels(Render(p).value) == LabelsFor(Width(p))
  {
    RenderMeans(p, w);
    SideOfOne(p, v, w);
    EncodeNothing(Width(p), [Filled(Width(p), v)]);
    OneRow(RemoteRows(Render(p).value, w.db, w.remote, w.order), Filled(Width(p), v));
  }

  /** The local side sees no match in the witness. */
  lemma WitnessLocally(p: Plan, a: Column, b: Column, w: World)
    requires IsColumnJoin(p, a, b)
    requires Rows(p.left, w.db, w.fns) == [Filled(Width(p.left), 1)] && Rows(p.right, w.db, w.fns) == [Filled(Width(p.right), 2)]
    ensures Rows(p, w.db, w.fns) == Unmatched(p.kind, Filled(Width(p.left), 1), Filled(Width(p.right), 2),
                                              JoinOut(p.kind), Nulls(Width(p.left)), Nulls(Width(p.right)))
  {
    var left, right := SchemaOf(p.left), SchemaOf(p.right);
    ShadowedLocally(left, right, a, b, w);
    PairJoined(p.kind, Filled(|left|, 1), Filled(|right|, 2), JoinMatch(p.on, None, left, right, w.fns), JoinOut(p.kind), Nulls(|left|), Nulls(|right|));
  }

  /** The remote side does see one. */
  lemma WitnessRemotely(q: Query, left: Schema, right: Schema, a: Column, b: Column, w: World)
    requires IndexOf(left, a).Some? && IndexOf(right, b).Some? && IndexOf(left, b).Some? && left != [] && right != []
    requires q.SelectJoin? && q.on == [ColumnKey(left, right, a, b)] && Labels(q.left) == LabelsFor(|left|) && Labels(q.right) == LabelsFor(|right|)
    requires RemoteRows(q.left, w.db, w.remote, w.order) == [Filled(|left|, 1)] && RemoteRows(q.right, w.db, w.remote, w.order) == [Filled(|right|, 2)]
    requires forall rows :: w.order(q, rows) == rows
    ensures RemoteRows(q, w.db, w.remote, w.order) == Matched(q.kind, Filled(|left|, 1), Filled(|right|, 2),
              RemoteOut(q.items, LabelsFor(|left|), LabelsFor(|right|), w.remote), Nulls(|left|), Nulls(|right|))
  {
    ShadowedRemotely(left, right, a, b, w);
    PairJoined(q.kind, Filled(|left|, 1), Filled(|right|, 2), RemoteMatch(q.on, LabelsFor(|left|), LabelsFor(|right|), w.remote),
      RemoteOut(q.items, LabelsFor(|left|), LabelsFor(|right|), w.remote), Nulls(|left|), Nulls(|right|));
  }

  lemma WitnessFaithful(ones: string, n: nat, m: nat)
    ensures Faithful(Witness(ones, n, m))
  {
  }

  /** A shadowed key changes the rows of the join, whatever its kind. */
  lemma ShadowedJoinDiffers(p: Plan, a: Column, b: Column) returns (w: World)
    requires IsColumnJoin(p, a, b) && IndexOf(SchemaOf(p.left), b).Some?
    ensures Faithful(w) && Render(p).Some? && !Means(p, Render(p).value, w)
  {
    var left, right := TableOf(p.left), TableOf(p.right);
    w := Witness(left.table, |left.source|, |right.source|);
    ColumnJoinRenders(p, a, b);
    var q := Render(p).value;
    WitnessFaithful(left.table, |left.source|, |right.source|);
    IndexBound(SchemaOf(p.left), a);
    IndexBound(SchemaOf(p.right), b);
    PairDelivered(p.left, 1, w);
    PairDelivered(p.right, 2, w);
    WitnessLocally(p, a, b, w);
    WitnessRemotely(q, SchemaOf(p.left), SchemaOf(p.right), a, b, w);
    RowsDiffer(p, q, w);
  }

  lemma RowsDiffer(p: Plan, q: Query, w: World)
    requires p.Join? && q.SelectJoin? && q.kind == p.kind && Width(p.left) > 0 && Width(p.right) > 0
    requires q.items == Positional(JoinColumns(p.kind, Width(p.left), Width(p.right)))
    requires Rows(p, w.db, w.fns) == Unmatched(p.kind, Filled(Width(p.left), 1), Filled(Width(p.right), 2),
                                               JoinOut(p.kind), Nulls(Width(p.left)), Nulls(Width(p.right)))
    requires RemoteRows(q, w.db, w.remote, w.order) == Matched(p.kind, Filled(Width(p.left), 1), Filled(Width(p.right), 2),
               RemoteOut(q.items, LabelsFor(Width(p.left)), LabelsFor(Width(p.right)), w.remote), Nulls(Width(p.left)), Nulls(Width(p.right)))
    ensures !Means(p, q, w)
  {
    var n, m := Width(p.left), Width(p.right);
    var l, r := Filled(n, 1), Filled(m, 2);
    OutMeans(p.kind, n, m, l, r, l, r, w);
    KindsTellApart(p.kind, n, m, JoinOut(p.kind), RemoteOut(q.items, LabelsFor(n), LabelsFor(m), w.remote), Nulls(n), Nulls(m));
    EncodeNothing(Width(p), Rows(p, w.db, w.fns));
  }

  lemma UnshadowedRenderable(p: Plan, a: Column, b: Column)
    requires IsColumnJoin(p, a, b) && IndexOf(SchemaOf(p.left), b).None?
    ensures Renderable(p)
  {
    var k := p.on[0];
    assert a in Columns(k.left) && b in Columns(k.right) && k in p.on;
    assert NamesBothSides(p.on);
  }

  /** A join of two tables on a pair of columns is rendered faithfully, for every database,
    * exactly when the right column does not resolve on the left. */
  lemma {:induction false} ColumnJoinExact(p: Plan, a: Column, b: Column)
    requires IsColumnJoin(p, a, b)
    ensures Render(p).Some?
    ensures (forall w | Faithful(w) :: Means(p, Render(p).value, w)) <==> IndexOf(SchemaOf(p.left), b).None?
  {
    ColumnJoinRenders(p, a, b);
    if IndexOf(SchemaOf(p.left), b).None? {
      UnshadowedRenderable(p, a, b);
      forall w | Faithful(w) ensures Means(p, Render(p).value, w) { RenderMeans(p, w); }
    } else {
      var w := ShadowedJoinDiffers(p, a, b);
    }
  }

  /** `SELECT table.column AS id FROM table`, whose output has no qualifier. */
  function RenamedColumn(table: string, column: string): Plan {
    var c := Column(Some(table), column);
    Projection([Alias(Ref(c), "id")], Scan(table, [column], [0], [], [c]), [Column(None, "id")])
  }

  lemma RenamedColumnIsSide(table: string, column: string)
    ensures IsSide(RenamedColumn(table, column)) && Renderable(RenamedColumn(table, column))
    ensures TableOf(RenamedColumn(table, column)).table == table
  {
    var p := RenamedColumn(table, column);
    assert IndexOf(SchemaOf(p.input), Column(Some(table), column)) == Some(0);
    assert IsSide(p.input) && Renderable(p.input);
  }

  /** A semi join of two subqueries on the output column both call `id`: remotely, every left
    * row with an `id` is returned. */
  lemma {:induction false} ShadowedSemiJoinExample(p: Plan)
    requires var id := Column(None, "id");
             p == Join(LeftSemi, [Key(Ref(id), Ref(id))], None, RenamedColumn("t", "a"), RenamedColumn("u", "b"))
    ensures Render(p).Some? && exists w :: Faithful(w) && !Means(p, Render(p).value, w)
  {
    var id := Column(None, "id");
    assert "t"[0] != "u"[0];
    RenamedColumnIsSide("t", "a");
    RenamedColumnIsSide("u", "b");
    assert IndexOf([id], id) == Some(0);
    var w := ShadowedJoinDiffers(p, id, id);
  }

  // ---- Empty relations ----

  /** An empty relation is rendered faithfully exactly when it declares no column. */
  lemma EmptyRelationExact(p: Plan, w: World)
    requires p.EmptyRelation?
    ensures Means(p, Render(p).value, w) <==> p.schema == []
  {
    if p.schema == [] {
      EmptyMeans(p, w);
    } else {
      assert LabelsFor(Width(p))[0] == C(0);
    }
  }
}
