/** How often each row appears in what an operator returns. */
module OperatorMeaning {
  import opened RelationalPlans
  import opened RowBags

  /** How many members of a list satisfy a condition. */
  function CountOf<A>(s: seq<A>, p: A -> bool): nat {
    if s == [] then 0 else (if p(s[0]) then 1 else 0) + CountOf(s[1..], p)
  }

  /** How many pairs satisfy a condition. */
  function PairsOf<A, B>(a: seq<A>, b: seq<B>, p: (A, B) -> bool): nat {
    if a == [] then 0 else CountOf(b, From(p, a[0])) + PairsOf(a[1..], b, p)
  }

  function From<A, B>(p: (A, B) -> bool, x: A): B -> bool {
    (y: B) => p(x, y)
  }

  function To<A, B>(p: (A, B) -> bool, y: B): A -> bool {
    (x: A) => p(x, y)
  }

  function Is<A(==)>(x: A): A -> bool {
    (y: A) => y == x
  }

  lemma FlatMapCount<A, B>(f: A -> seq<B>, s: seq<A>, x: B)
    requires s != []
    ensures multiset(FlatMap(f, s))[x] == multiset(f(s[0]))[x] + multiset(FlatMap(f, s[1..]))[x]
  {
  }

  // ---- Rows taken one at a time ----

  /** Row `l` becomes `x`, if it is kept at all. */
  ghost function Becomes<A(!new), B(!new)>(f: A -> seq<B>, x: B): A -> bool {
    (a: A) => f(a) == [x]
  }

  lemma {:induction false} OneEach<A(!new), B(!new)>(f: A -> seq<B>, s: seq<A>, x: B)
    requires forall a | a in s :: |f(a)| <= 1
    ensures multiset(FlatMap(f, s))[x] == CountOf(s, Becomes(f, x))
  {
    if s != [] {
      FlatMapCount(f, s, x);
      assert s[0] in s;
      forall a | a in s[1..] ensures a in s {}
      OneEach(f, s[1..], x);
      if |f(s[0])| == 1 { assert f(s[0]) == [f(s[0])[0]]; }
    }
  }

  lemma {:induction false} SameCount<A(!new)>(s: seq<A>, p: A -> bool, q: A -> bool)
    requires forall a | a in s :: p(a) == q(a)
    ensures CountOf(s, p) == CountOf(s, q)
  {
    if s != [] {
      assert s[0] in s;
      forall a | a in s[1..] ensures a in s {}
      SameCount(s[1..], p, q);
    }
  }

  ghost function PassesAs(filters: seq<Expr<Column>>, source: seq<string>, projection: seq<nat>, fns: Functions, x: Row): Row -> bool {
    (row: Row) =>
      && (forall e | e in filters :: Eval(e, SourceEnv(source, row), fns) == Bool(true))
      && |x| == |projection|
      && forall k | 0 <= k < |projection| :: x[k] == if projection[k] < |row| then row[projection[k]] else Null
  }

  /** A scan returns a row as often as the table has rows that pass every filter and look like it in the
    * projected columns. */
  lemma ScanExactly(p: Plan, db: Database, fns: Functions, x: Row)
    requires p.Scan?
    ensures multiset(Rows(p, db, fns))[x] == CountOf(db(p.table), PassesAs(p.filters, p.source, p.projection, fns, x))
  {
    var step := ScanStep(p.filters, p.source, p.projection, fns);
    OneEach(step, db(p.table), x);
    forall row | row in db(p.table) ensures Becomes(step, x)(row) == PassesAs(p.filters, p.source, p.projection, fns, x)(row) {
      PickIs(row, p.projection, x);
    }
    SameCount(db(p.table), Becomes(step, x), PassesAs(p.filters, p.source, p.projection, fns, x));
  }

  lemma PickIs(row: Row, indices: seq<nat>, x: Row)
    ensures Pick(row, indices) == x <==> |x| == |indices| && forall k | 0 <= k < |indices| :: x[k] == if indices[k] < |row| then row[indices[k]] else Null
  {
    if |x| == |indices| && forall k | 0 <= k < |indices| :: x[k] == if indices[k] < |row| then row[indices[k]] else Null {
      assert Pick(row, indices) == x;
    }
  }

  lemma {:induction false} KeptCount(e: Expr<Column>, schema: Schema, fns: Functions, rows: seq<Row>, x: Row)
    ensures multiset(FlatMap(FilterStep(e, schema, fns), rows))[x] ==
      if Eval(e, RowEnv(schema, x), fns) == Bool(true) then multiset(rows)[x] else 0
  {
    if rows != [] {
      FlatMapCount(FilterStep(e, schema, fns), rows, x);
      KeptCount(e, schema, fns, rows[1..], x);
      assert rows == [rows[0]] + rows[1..];
    }
  }

  /** A filter keeps every copy of the rows for which its condition is true, and nothing else. */
  lemma FilterExactly(p: Plan, db: Database, fns: Functions, x: Row)
    requires p.Filter?
    ensures multiset(Rows(p, db, fns))[x] ==
      if Eval(p.predicate_, RowEnv(SchemaOf(p.input), x), fns) == Bool(true) then multiset(Rows(p.input, db, fns))[x] else 0
  {
    KeptCount(p.predicate_, SchemaOf(p.input), fns, Rows(p.input, db, fns), x);
  }

  lemma {:induction false} ProjectedAt(exprs: seq<Expr<Column>>, schema: Schema, fns: Functions, rows: seq<Row>, i: nat)
    requires i < |rows|
    ensures |FlatMap(ProjectStep(exprs, schema, fns), rows)| == |rows|
    ensures FlatMap(ProjectStep(exprs, schema, fns), rows)[i] == EvalAll(exprs, RowEnv(schema, rows[i]), fns)
  {
    if i > 0 { ProjectedAt(exprs, schema, fns, rows[1..], i - 1); }
    else if |rows| > 1 { ProjectedAt(exprs, schema, fns, rows[1..], 0); }
  }

  /** A projection evaluates each expression on each row. */
  lemma ProjectionExactly(p: Plan, db: Database, fns: Functions, i: nat, k: nat)
    requires p.Projection? && i < |Rows(p.input, db, fns)| && k < |p.exprs|
    ensures |Rows(p, db, fns)| == |Rows(p.input, db, fns)| && |Rows(p, db, fns)[i]| == |p.exprs|
    ensures Rows(p, db, fns)[i][k] == Eval(p.exprs[k], RowEnv(SchemaOf(p.input), Rows(p.input, db, fns)[i]), fns)
  {
    ProjectedAt(p.exprs, SchemaOf(p.input), fns, Rows(p.input, db, fns), i);
  }

  /** How often the inputs return `x`, all together. */
  function TimesIn(inputs: seq<Plan>, db: Database, fns: Functions, x: Row): nat {
    if inputs == [] then 0 else TimesIn(inputs[..|inputs| - 1], db, fns, x) + multiset(Rows(inputs[|inputs| - 1], db, fns))[x]
  }

  lemma {:induction false} UnionCount(p: Plan, inputs: seq<Plan>, db: Database, fns: Functions, x: Row)
    requires p.Union? && inputs <= p.inputs
    ensures multiset(UnionRows(p, inputs, db, fns))[x] == TimesIn(inputs, db, fns, x)
    decreases |inputs|
  {
    if inputs != [] { UnionCount(p, inputs[..|inputs| - 1], db, fns, x); }
  }

  /** A union returns all that its inputs do. */
  lemma {:induction false} UnionExactly(p: Plan, db: Database, fns: Functions, x: Row)
    requires p.Union?
    ensures multiset(Rows(p, db, fns))[x] == TimesIn(p.inputs, db, fns, x)
  {
    UnionCount(p, p.inputs, db, fns, x);
  }

  /** An alias changes nothing; an empty relation has no row, or one of NULLs. */
  lemma {:induction false} OthersExactly(p: Plan, db: Database, fns: Functions)
    ensures p.SubqueryAlias? ==> Rows(p, db, fns) == Rows(p.input, db, fns)
    ensures p.EmptyRelation? && !p.oneRow ==> Rows(p, db, fns) == []
    ensures p.EmptyRelation? && p.oneRow ==> |Rows(p, db, fns)| == 1 && Rows(p, db, fns)[0] == seq(|p.schema|, i => Null)
  {
  }

  // ---- Joins ----

  ghost function PairGives(m: Match, out: Combine, x: Row): (Row, Row) -> bool {
    (l: Row, r: Row) => m(l, r) && out(l, r) == x
  }

  ghost function LeftGives(right: seq<Row>, m: Match, out: Combine, noRight: Row, partner: bool, x: Row): Row -> bool {
    (l: Row) => ((exists r :: r in right && m(l, r)) <==> partner) && out(l, noRight) == x
  }

  ghost function RightGives(left: seq<Row>, m: Match, out: Combine, noLeft: Row, partner: bool, x: Row): Row -> bool {
    (r: Row) => ((exists l :: l in left && m(l, r)) <==> partner) && out(noLeft, r) == x
  }

  lemma {:induction false} WithRightCount(l: Row, m: Match, out: Combine, right: seq<Row>, x: Row)
    ensures multiset(FlatMap(WithRight(l, m, out), right))[x] == CountOf(right, From(PairGives(m, out, x), l))
  {
    if right != [] {
      FlatMapCount(WithRight(l, m, out), right, x);
      WithRightCount(l, m, out, right[1..], x);
    }
  }

  lemma {:induction false} WithLeftCount(r: Row, m: Match, out: Combine, left: seq<Row>, x: Row)
    ensures multiset(FlatMap(WithLeft(r, m, out), left))[x] == CountOf(left, To(PairGives(m, out, x), r))
  {
    if left != [] {
      FlatMapCount(WithLeft(r, m, out), left, x);
      WithLeftCount(r, m, out, left[1..], x);
    }
  }

  lemma {:induction false} NoneCounted<A(!new)>(s: seq<A>, p: A -> bool)
    requires forall a | a in s :: !p(a)
    ensures CountOf(s, p) == 0
  {
    if s != [] {
      assert s[0] in s;
      forall a | a in s[1..] ensures a in s {}
      NoneCounted(s[1..], p);
    }
  }

  lemma {:induction false} InnerCount(left: seq<Row>, right: seq<Row>, m: Match, out: Combine, x: Row)
    ensures multiset(FlatMap(InnerStep(right, m, out), left))[x] == PairsOf(left, right, PairGives(m, out, x))
  {
    if left != [] {
      FlatMapCount(InnerStep(right, m, out), left, x);
      WithRightCount(left[0], m, out, right, x);
      InnerCount(left[1..], right, m, out, x);
    }
  }

  lemma LeftStepCount(l: Row, right: seq<Row>, m: Match, out: Combine, noRight: Row, x: Row)
    ensures multiset(LeftStep(right, m, out, noRight)(l))[x] ==
      CountOf(right, From(PairGives(m, out, x), l)) + if LeftGives(right, m, out, noRight, false, x)(l) then 1 else 0
  {
    WithRightCount(l, m, out, right, x);
    if !MatchesRight(l, right, m) { NoneCounted(right, From(PairGives(m, out, x), l)); }
  }

  lemma RightStepCount(r: Row, left: seq<Row>, m: Match, out: Combine, noLeft: Row, x: Row)
    ensures multiset(RightStep(left, m, out, noLeft)(r))[x] ==
      CountOf(left, To(PairGives(m, out, x), r)) + if RightGives(left, m, out, noLeft, false, x)(r) then 1 else 0
  {
    WithLeftCount(r, m, out, left, x);
    if !MatchesLeft(r, left, m) { NoneCounted(left, To(PairGives(m, out, x), r)); }
  }

  lemma {:induction false} LeftOuterCount(left: seq<Row>, right: seq<Row>, m: Match, out: Combine, noRight: Row, x: Row)
    ensures multiset(FlatMap(LeftStep(right, m, out, noRight), left))[x] ==
      PairsOf(left, right, PairGives(m, out, x)) + CountOf(left, LeftGives(right, m, out, noRight, false, x))
  {
    if left != [] {
      FlatMapCount(LeftStep(right, m, out, noRight), left, x);
      LeftStepCount(left[0], right, m, out, noRight, x);
      LeftOuterCount(left[1..], right, m, out, noRight, x);
    }
  }

  /** Pairs counted from the other side. */
  function PairsTo<A, B>(a: seq<A>, b: seq<B>, p: (A, B) -> bool): nat {
    if b == [] then 0 else CountOf(a, To(p, b[0])) + PairsTo(a, b[1..], p)
  }

  lemma {:induction false} PairsToStep<A, B>(a: seq<A>, b: seq<B>, p: (A, B) -> bool)
    requires a != []
    ensures PairsTo(a, b, p) == CountOf(b, From(p, a[0])) + PairsTo(a[1..], b, p)
  {
    if b != [] { PairsToStep(a, b[1..], p); }
  }

  lemma {:induction false} NoPairs<A, B>(b: seq<B>, p: (A, B) -> bool)
    ensures PairsTo([], b, p) == 0
  {
    if b != [] { NoPairs(b[1..], p); }
  }

  lemma {:induction false} PairsEitherWay<A, B>(a: seq<A>, b: seq<B>, p: (A, B) -> bool)
    ensures PairsTo(a, b, p) == PairsOf(a, b, p)
  {
    if a == [] { NoPairs(b, p); } else {
      PairsToStep(a, b, p);
      PairsEitherWay(a[1..], b, p);
    }
  }

  lemma {:induction false} RightOuterCount(left: seq<Row>, right: seq<Row>, m: Match, out: Combine, noLeft: Row, x: Row)
    ensures multiset(FlatMap(RightStep(left, m, out, noLeft), right))[x] ==
      PairsTo(left, right, PairGives(m, out, x)) + CountOf(right, RightGives(left, m, out, noLeft, false, x))
  {
    if right != [] {
      FlatMapCount(RightStep(left, m, out, noLeft), right, x);
      RightStepCount(right[0], left, m, out, noLeft, x);
      RightOuterCount(left, right[1..], m, out, noLeft, x);
    }
  }

  lemma LeftOnlyStep(l: Row, right: seq<Row>, m: Match, out: Combine, noRight: Row, partner: bool, x: Row)
    ensures multiset(LeftOnly(right, m, out, noRight, partner)(l))[x] == if LeftGives(right, m, out, noRight, partner, x)(l) then 1 else 0
  {
    assert MatchesRight(l, right, m) <==> exists r :: r in right && m(l, r);
  }

  lemma RightOnlyStep(r: Row, left: seq<Row>, m: Match, out: Combine, noLeft: Row, partner: bool, x: Row)
    ensures multiset(RightOnly(left, m, out, noLeft, partner)(r))[x] == if RightGives(left, m, out, noLeft, partner, x)(r) then 1 else 0
  {
    assert MatchesLeft(r, left, m) <==> exists l :: l in left && m(l, r);
  }

  lemma {:induction false} LeftOnlyCount(left: seq<Row>, right: seq<Row>, m: Match, out: Combine, noRight: Row, partner: bool, x: Row)
    ensures multiset(FlatMap(LeftOnly(right, m, out, noRight, partner), left))[x] == CountOf(left, LeftGives(right, m, out, noRight, partner, x))
  {
    if left != [] {
      FlatMapCount(LeftOnly(right, m, out, noRight, partner), left, x);
      LeftOnlyStep(left[0], right, m, out, noRight, partner, x);
      LeftOnlyCount(left[1..], right, m, out, noRight, partner, x);
    }
  }

  lemma {:induction false} RightOnlyCount(left: seq<Row>, right: seq<Row>, m: Match, out: Combine, noLeft: Row, partner: bool, x: Row)
    ensures multiset(FlatMap(RightOnly(left, m, out, noLeft, partner), right))[x] == CountOf(right, RightGives(left, m, out, noLeft, partner, x))
  {
    if right != [] {
      FlatMapCount(RightOnly(left, m, out, noLeft, partner), right, x);
      RightOnlyStep(right[0], left, m, out, noLeft, partner, x);
      RightOnlyCount(left, right[1..], m, out, noLeft, partner, x);
    }
  }

  /** What each kind of join returns: the matching pairs, the rows of either side that have no partner, or
    * the rows of one side that have one. */
  lemma JoinExactly(kind: JoinKind, left: seq<Row>, right: seq<Row>, m: Match, out: Combine, noLeft: Row, noRight: Row, x: Row)
    ensures
      var pairs := PairsOf(left, right, PairGives(m, out, x));
      var leftAlone := CountOf(left, LeftGives(right, m, out, noRight, false, x));
      var rightAlone := CountOf(right, RightGives(left, m, out, noLeft, false, x));
      multiset(JoinRows(kind, left, right, m, out, noLeft, noRight))[x] ==
        match kind
        case Inner => pairs
        case LeftOuter => pairs + leftAlone
        case RightOuter => pairs + rightAlone
        case FullOuter => pairs + leftAlone + rightAlone
        case LeftSemi => CountOf(left, LeftGives(right, m, out, noRight, true, x))
        case LeftAnti => leftAlone
        case RightSemi => CountOf(right, RightGives(left, m, out, noLeft, true, x))
        case RightAnti => rightAlone
  {
    match kind {
      case Inner => InnerCount(left, right, m, out, x);
      case LeftOuter => LeftOuterCount(left, right, m, out, noRight, x);
      case RightOuter =>
        RightOuterCount(left, right, m, out, noLeft, x);
        PairsEitherWay(left, right, PairGives(m, out, x));
      case FullOuter =>
        LeftOuterCount(left, right, m, out, noRight, x);
        RightOnlyCount(left, right, m, out, noLeft, false, x);
      case LeftSemi => LeftOnlyCount(left, right, m, out, noRight, true, x);
      case LeftAnti => LeftOnlyCount(left, right, m, out, noRight, false, x);
      case RightSemi => RightOnlyCount(left, right, m, out, noLeft, true, x);
      case RightAnti => RightOnlyCount(left, right, m, out, noLeft, false, x);
    }
  }

  /** Every pair of keys is equal and not NULL, and the filter, which sees both rows, is true. */
  ghost predicate Joins(p: Plan, fns: Functions, l: Row, r: Row)
    requires p.Join?
  {
    && (forall k | k in p.on ::
          var a, b := Eval(k.left, RowEnv(SchemaOf(p.left), l), fns), Eval(k.right, RowEnv(SchemaOf(p.right), r), fns);
          a != Null && a == b)
    && (p.filter.Some? ==> Eval(p.filter.value, RowEnv(SchemaOf(p.left) + SchemaOf(p.right), l + r), fns) == Bool(true))
  }

  function NullRow(n: nat): Row {
    seq(n, i => Null)
  }

  ghost function JoinedAs(p: Plan, fns: Functions, x: Row): (Row, Row) -> bool
    requires p.Join?
  {
    (l: Row, r: Row) => Joins(p, fns, l, r) && x == l + r
  }

  /** A left row with or without a partner, alone or beside NULLs. */
  ghost function LeftAs(p: Plan, right: seq<Row>, fns: Functions, partner: bool, beside: Row, x: Row): Row -> bool
    requires p.Join?
  {
    (l: Row) => ((exists r :: r in right && Joins(p, fns, l, r)) <==> partner) && x == l + beside
  }

  ghost function RightAs(p: Plan, left: seq<Row>, fns: Functions, partner: bool, beside: Row, x: Row): Row -> bool
    requires p.Join?
  {
    (r: Row) => ((exists l :: l in left && Joins(p, fns, l, r)) <==> partner) && x == beside + r
  }

  lemma JoinsExactly(p: Plan, fns: Functions, l: Row, r: Row)
    requires p.Join?
    ensures JoinMatch(p.on, p.filter, SchemaOf(p.left), SchemaOf(p.right), fns)(l, r) <==> Joins(p, fns, l, r)
  {
    var left, right := RowEnv(SchemaOf(p.left), l), RowEnv(SchemaOf(p.right), r);
    forall k | k in p.on
      ensures IsTrue(Apply(Eq, Eval(k.left, left, fns), Eval(k.right, right, fns)))
        <==> Eval(k.left, left, fns) != Null && Eval(k.left, left, fns) == Eval(k.right, right, fns)
    {
      EqualIsTrue(Eval(k.left, left, fns), Eval(k.right, right, fns));
    }
    if Joins(p, fns, l, r) {
      forall k | k in p.on ensures Eval(k.left, left, fns) != Null && Eval(k.left, left, fns) == Eval(k.right, right, fns) {}
    }
  }

  lemma EqualIsTrue(a: Value, b: Value)
    ensures IsTrue(Apply(Eq, a, b)) <==> a != Null && a == b
  {
  }

  lemma {:induction false} SamePairs<A(!new), B(!new)>(a: seq<A>, b: seq<B>, p: (A, B) -> bool, q: (A, B) -> bool)
    requires forall x, y :: p(x, y) == q(x, y)
    ensures PairsOf(a, b, p) == PairsOf(a, b, q)
  {
    if a != [] {
      SameCount(b, From(p, a[0]), From(q, a[0]));
      SamePairs(a[1..], b, p, q);
    }
  }

  lemma LeftAlike(p: Plan, left: seq<Row>, right: seq<Row>, fns: Functions, partner: bool, beside: Row, x: Row)
    requires p.Join? && (forall l: Row :: JoinOut(p.kind)(l, Nulls(Width(p.right))) == l + beside)
    ensures CountOf(left, LeftGives(right, JoinMatch(p.on, p.filter, SchemaOf(p.left), SchemaOf(p.right), fns), JoinOut(p.kind), Nulls(Width(p.right)), partner, x))
         == CountOf(left, LeftAs(p, right, fns, partner, beside, x))
  {
    var m := JoinMatch(p.on, p.filter, SchemaOf(p.left), SchemaOf(p.right), fns);
    var a, b := LeftGives(right, m, JoinOut(p.kind), Nulls(Width(p.right)), partner, x), LeftAs(p, right, fns, partner, beside, x);
    forall l | l in left ensures a(l) == b(l) {
      forall r | r in right ensures m(l, r) <==> Joins(p, fns, l, r) { JoinsExactly(p, fns, l, r); }
      assert (exists r :: r in right && m(l, r)) <==> exists r :: r in right && Joins(p, fns, l, r);
    }
    SameCount(left, a, b);
  }

  lemma RightAlike(p: Plan, left: seq<Row>, right: seq<Row>, fns: Functions, partner: bool, beside: Row, x: Row)
    requires p.Join? && (forall r: Row :: JoinOut(p.kind)(Nulls(Width(p.left)), r) == beside + r)
    ensures CountOf(right, RightGives(left, JoinMatch(p.on, p.filter, SchemaOf(p.left), SchemaOf(p.right), fns), JoinOut(p.kind), Nulls(Width(p.left)), partner, x))
         == CountOf(right, RightAs(p, left, fns, partner, beside, x))
  {
    var m := JoinMatch(p.on, p.filter, SchemaOf(p.left), SchemaOf(p.right), fns);
    var a, b := RightGives(left, m, JoinOut(p.kind), Nulls(Width(p.left)), partner, x), RightAs(p, left, fns, partner, beside, x);
    forall r | r in right ensures a(r) == b(r) {
      forall l | l in left ensures m(l, r) <==> Joins(p, fns, l, r) { JoinsExactly(p, fns, l, r); }
      assert (exists l :: l in left && m(l, r)) <==> exists l :: l in left && Joins(p, fns, l, r);
    }
    SameCount(right, a, b);
  }

  lemma PairsAlike(p: Plan, left: seq<Row>, right: seq<Row>, fns: Functions, x: Row)
    requires p.Join? && p.kind in {Inner, LeftOuter, RightOuter, FullOuter}
    ensures PairsOf(left, right, PairGives(JoinMatch(p.on, p.filter, SchemaOf(p.left), SchemaOf(p.right), fns), JoinOut(p.kind), x))
         == PairsOf(left, right, JoinedAs(p, fns, x))
  {
    var m := JoinMatch(p.on, p.filter, SchemaOf(p.left), SchemaOf(p.right), fns);
    forall l, r ensures PairGives(m, JoinOut(p.kind), x)(l, r) == JoinedAs(p, fns, x)(l, r) { JoinsExactly(p, fns, l, r); }
    SamePairs(left, right, PairGives(m, JoinOut(p.kind), x), JoinedAs(p, fns, x));
  }

  ghost predicate JoinCounts(p: Plan, left: seq<Row>, right: seq<Row>, fns: Functions, x: Row, times: nat)
    requires p.Join?
  {
    var pairs := PairsOf(left, right, JoinedAs(p, fns, x));
    var leftAlone := CountOf(left, LeftAs(p, right, fns, false, NullRow(Width(p.right)), x));
    var rightAlone := CountOf(right, RightAs(p, left, fns, false, NullRow(Width(p.left)), x));
    times ==
      match p.kind
      case Inner => pairs
      case LeftOuter => pairs + leftAlone
      case RightOuter => pairs + rightAlone
      case FullOuter => pairs + leftAlone + rightAlone
      case LeftSemi => CountOf(left, LeftAs(p, right, fns, true, [], x))
      case LeftAnti => CountOf(left, LeftAs(p, right, fns, false, [], x))
      case RightSemi => CountOf(right, RightAs(p, left, fns, true, [], x))
      case RightAnti => CountOf(right, RightAs(p, left, fns, false, [], x))
  }

  /** How often a join returns a row: once for each matching pair that makes it up and, in an outer join,
    * once for each row without a partner that does beside NULLs; semi and anti joins return the rows of
    * one side that have a partner, or have none, as they are. */
  lemma JoinPlanExactly(p: Plan, db: Database, fns: Functions, x: Row)
    requires p.Join?
    ensures JoinCounts(p, Rows(p.left, db, fns), Rows(p.right, db, fns), fns, x, multiset(Rows(p, db, fns))[x])
  {
    var left, right := Rows(p.left, db, fns), Rows(p.right, db, fns);
    JoinedRows(p, db, fns);
    JoinRowsCount(p, left, right, fns, x);
  }

  function RowsJoined(p: Plan, left: seq<Row>, right: seq<Row>, fns: Functions): seq<Row>
    requires p.Join?
  {
    JoinRows(p.kind, left, right, JoinMatch(p.on, p.filter, SchemaOf(p.left), SchemaOf(p.right), fns), JoinOut(p.kind),
             Nulls(Width(p.left)), Nulls(Width(p.right)))
  }

  lemma {:induction false} JoinedRows(p: Plan, db: Database, fns: Functions)
    requires p.Join?
    ensures Rows(p, db, fns) == RowsJoined(p, Rows(p.left, db, fns), Rows(p.right, db, fns), fns)
  {
  }

  lemma JoinRowsCount(p: Plan, left: seq<Row>, right: seq<Row>, fns: Functions, x: Row)
    requires p.Join?
    ensures JoinCounts(p, left, right, fns, x, multiset(RowsJoined(p, left, right, fns))[x])
  {
    JoinExactly(p.kind, left, right, JoinMatch(p.on, p.filter, SchemaOf(p.left), SchemaOf(p.right), fns), JoinOut(p.kind),
                Nulls(Width(p.left)), Nulls(Width(p.right)), x);
    match p.kind {
      case Inner => PairsAlike(p, left, right, fns, x);
      case LeftOuter =>
        PairsAlike(p, left, right, fns, x);
        LeftAlike(p, left, right, fns, false, NullRow(Width(p.right)), x);
      case RightOuter =>
        PairsAlike(p, left, right, fns, x);
        RightAlike(p, left, right, fns, false, NullRow(Width(p.left)), x);
      case FullOuter =>
        PairsAlike(p, left, right, fns, x);
        LeftAlike(p, left, right, fns, false, NullRow(Width(p.right)), x);
        RightAlike(p, left, right, fns, false, NullRow(Width(p.left)), x);
      case LeftSemi => LeftAlike(p, left, right, fns, true, [], x);
      case LeftAnti => LeftAlike(p, left, right, fns, false, [], x);
      case RightSemi => RightAlike(p, left, right, fns, true, [], x);
      case RightAnti => RightAlike(p, left, right, fns, false, [], x);
    }
  }
}
