/** What aggregates and groups of a plan hold. */
module GroupMeaning {
  import opened OperatorMeaning
  import opened RelationalPlans
  import opened RowBags

  // ---- Aggregates ----

  function IsPresent(): Value -> bool {
    (v: Value) => v != Null
  }

  lemma {:induction false} PresentCount(values: seq<Value>)
    ensures |NonNull(values)| == CountOf(values, IsPresent())
    ensures forall v :: v in NonNull(values) <==> v in values && v != Null
  {
    if values != [] {
      PresentCount(values[1..]);
      assert values == [values[0]] + values[1..];
    }
  }

  /** Counting skips NULLs; counting distinct values counts each once. */
  lemma CountExactly(values: seq<Value>)
    ensures AggregateOf(Count, false, values) == Int(CountOf(values, IsPresent()))
    ensures AggregateOf(Count, true, values) == Int(|set v | v in values && v != Null|)
  {
    PresentCount(values);
    assert (set v | v in NonNull(values)) == set v | v in values && v != Null;
  }

  /** The integers of a list added up. */
  function SumOf(values: seq<Value>): int {
    if values == [] then 0 else SumOf(values[..|values| - 1]) + (if values[|values| - 1].Int? then values[|values| - 1].i else 0)
  }

  lemma {:induction false} SumFront(values: seq<Value>)
    requires values != []
    ensures SumOf(values) == (if values[0].Int? then values[0].i else 0) + SumOf(values[1..])
  {
    var n := |values| - 1;
    if n > 0 {
      SumFront(values[..n]);
      assert values[..n][1..] == values[1..][..n - 1];
    } else {
      assert values[..0] == [] && values[1..] == [];
    }
  }

  lemma {:induction false} TotalIsSum(values: seq<Value>)
    ensures Total(NonNull(values)) == SumOf(values)
  {
    if values != [] {
      SumFront(values);
      TotalIsSum(values[1..]);
      if values[0].Null? {
        assert NonNull(values) == [] + NonNull(values[1..]) == NonNull(values[1..]);
      } else {
        assert ([values[0]] + NonNull(values[1..]))[1..] == NonNull(values[1..]);
      }
    }
  }

  /** Sum and average of no value are NULL; the average is kept as the sum and the number of values. */
  lemma SumExactly(values: seq<Value>)
    ensures
      var n := CountOf(values, IsPresent());
      && AggregateOf(Sum, false, values) == (if n == 0 then Null else Int(SumOf(values)))
      && AggregateOf(Avg, false, values) == (if n == 0 then Null else Ratio(SumOf(values), n))
  {
    PresentCount(values);
    TotalIsSum(values);
  }

  lemma {:induction false} ExtremeIs(values: seq<Value>, least: bool)
    requires values != []
    ensures Extreme(values, least) in values
    ensures forall v | v in values :: if least then !Below(v, Extreme(values, least)) else !Below(Extreme(values, least), v)
  {
    BelowTotal(values[0], values[0]);
    if |values| > 1 {
      ExtremeIs(values[1..], least);
      var rest := Extreme(values[1..], least);
      BelowTotal(rest, values[0]);
      forall v | v in values ensures if least then !Below(v, Extreme(values, least)) else !Below(Extreme(values, least), v) {
        assert values == [values[0]] + values[1..];
        assert v == values[0] || v in values[1..];
        BelowTotal(v, values[0]);
        BelowTotal(v, rest);
        if least && Below(v, values[0]) && Below(values[0], rest) { BelowTransitive(v, values[0], rest); }
        if !least && Below(values[0], v) && Below(rest, values[0]) { BelowTransitive(rest, values[0], v); }
      }
    }
  }

  /** No other value of the list goes before `v`, or none goes after it. */
  ghost predicate IsExtreme(values: seq<Value>, v: Value, op: Op) {
    v in values && v != Null && forall u | u in values && u != Null :: Apply(op, v, u) == Bool(true)
  }

  lemma ExtremeAmong(present: seq<Value>, least: bool)
    requires present != [] && Null !in present
    ensures IsExtreme(present, Extreme(present, least), if least then LtEq else GtEq)
  {
    ExtremeIs(present, least);
    forall u | u in present ensures Apply(if least then LtEq else GtEq, Extreme(present, least), u) == Bool(true) {
      BelowTotal(u, Extreme(present, least));
    }
  }

  /** The least and the greatest of the values that are not NULL; NULL if there is none. */
  lemma ExtremesExactly(values: seq<Value>)
    ensures (forall v | v in values :: v == Null) ==> AggregateOf(Min, false, values) == Null && AggregateOf(Max, false, values) == Null
    ensures (exists v :: v in values && v != Null) ==>
      IsExtreme(values, AggregateOf(Min, false, values), LtEq) && IsExtreme(values, AggregateOf(Max, false, values), GtEq)
  {
    PresentCount(values);
    var present := NonNull(values);
    if present != [] {
      ExtremeAmong(present, true);
      ExtremeAmong(present, false);
      assert present[0] in present;
    }
  }

  // ---- Groups ----

  ghost predicate Once<A(!new)>(s: seq<A>) {
    forall i, j | 0 <= i < j < |s| :: s[i] != s[j]
  }

  lemma OnceMore<A(!new)>(s: seq<A>, x: A)
    requires Once(s) && x !in s
    ensures Once([x] + s)
  {
  }

  lemma {:induction false} WithoutMembers<A(!new)>(s: seq<A>, x: A)
    ensures forall y :: y in Without(s, x) <==> y in s && y != x
    ensures Once(s) ==> Once(Without(s, x))
  {
    if s != [] {
      WithoutMembers(s[1..], x);
      assert s == [s[0]] + s[1..];
      if Once(s) {
        assert Once(s[1..]) && s[0] !in s[1..];
        OnceMore(Without(s[1..], x), s[0]);
        assert [] + Without(s[1..], x) == Without(s[1..], x);
      }
    }
  }

  /** Every member once. */
  lemma {:induction false} DedupMembers<A(!new)>(s: seq<A>)
    ensures forall y :: y in Dedup(s) <==> y in s
    ensures Once(Dedup(s))
  {
    if s != [] {
      DedupMembers(s[1..]);
      WithoutMembers(Dedup(s[1..]), s[0]);
      OnceMore(Without(Dedup(s[1..]), s[0]), s[0]);
      assert s == [s[0]] + s[1..];
    }
  }

  /** The grouping expressions have these values in a row. */
  ghost predicate KeyIs(groups: seq<Expr<Column>>, schema: Schema, fns: Functions, row: Row, k: Row) {
    |k| == |groups| && forall g | 0 <= g < |groups| :: k[g] == Eval(groups[g], RowEnv(schema, row), fns)
  }

  /** The values that an aggregate sees in the group of a key: those of the rows that pass its filter. */
  ghost function ValuesOf(a: Aggregate<Column>, groups: seq<Expr<Column>>, schema: Schema, fns: Functions, rows: seq<Row>, k: Row): seq<Value> {
    if rows == [] then []
    else
      var row := rows[0];
      var counts := KeyIs(groups, schema, fns, row, k) && (a.filter.Some? ==> Eval(a.filter.value, RowEnv(schema, row), fns) == Bool(true));
      (if counts then [if a.arg.Some? then Eval(a.arg.value, RowEnv(schema, row), fns) else Int(1)] else [])
      + ValuesOf(a, groups, schema, fns, rows[1..], k)
  }

  lemma KeyExactly(groups: seq<Expr<Column>>, schema: Schema, fns: Functions, row: Row, k: Row)
    ensures GroupKey(groups, schema, fns)(row) == k <==> KeyIs(groups, schema, fns, row, k)
  {
    if KeyIs(groups, schema, fns, row, k) { assert GroupKey(groups, schema, fns)(row) == k; }
  }

  lemma {:induction false} ValuesExactly(a: Aggregate<Column>, groups: seq<Expr<Column>>, schema: Schema, fns: Functions, rows: seq<Row>, k: Row)
    ensures FlatMap(Contributions(a, schema, fns), FlatMap(InGroup(GroupKey(groups, schema, fns), k), rows))
         == ValuesOf(a, groups, schema, fns, rows, k)
  {
    if rows != [] {
      var rest := FlatMap(InGroup(GroupKey(groups, schema, fns), k), rows[1..]);
      ValuesExactly(a, groups, schema, fns, rows[1..], k);
      KeyExactly(groups, schema, fns, rows[0], k);
      if GroupKey(groups, schema, fns)(rows[0]) == k {
        assert ([rows[0]] + rest)[1..] == rest;
      } else {
        assert [] + rest == rest;
        assert [] + ValuesOf(a, groups, schema, fns, rows[1..], k) == ValuesOf(a, groups, schema, fns, rows[1..], k);
      }
    }
  }

  lemma {:induction false} AllInGroup(schema: Schema, fns: Functions, rows: seq<Row>)
    ensures FlatMap(InGroup(GroupKey([], schema, fns), []), rows) == rows
  {
    if rows != [] {
      AllInGroup(schema, fns, rows[1..]);
      assert GroupKey([], schema, fns)(rows[0]) == [];
      assert rows == [rows[0]] + rows[1..];
    }
  }

  /** A result row: its key, and each aggregate of the rows of that key. */
  ghost predicate IsGroup(p: Plan, input: seq<Row>, fns: Functions, row: Row)
    requires p.Aggregation?
  {
    var n := |p.groups|;
    && |row| == n + |p.aggregates|
    && forall j | 0 <= j < |p.aggregates| ::
         var a := p.aggregates[j];
         row[n + j] == AggregateOf(a.fn, a.distinct, ValuesOf(a, p.groups, SchemaOf(p.input), fns, input, row[..n]))
  }

  lemma GroupRowIs(p: Plan, input: seq<Row>, fns: Functions, k: Row)
    requires p.Aggregation? && |k| == |p.groups|
    ensures
      var schema := SchemaOf(p.input);
      var row := GroupRow(input, GroupKey(p.groups, schema, fns), |p.aggregates|, Summary(p.aggregates, schema, fns))(k);
      IsGroup(p, input, fns, row) && row[..|p.groups|] == k
  {
    var schema := SchemaOf(p.input);
    forall j | 0 <= j < |p.aggregates|
      ensures Summary(p.aggregates, schema, fns)(j, FlatMap(InGroup(GroupKey(p.groups, schema, fns), k), input))
           == AggregateOf(p.aggregates[j].fn, p.aggregates[j].distinct, ValuesOf(p.aggregates[j], p.groups, schema, fns, input, k))
    {
      ValuesExactly(p.aggregates[j], p.groups, schema, fns, input, k);
    }
  }

  ghost predicate HasKey(rows: seq<Row>, n: nat, k: Row) {
    exists i :: 0 <= i < |rows| && n <= |rows[i]| && rows[i][..n] == k
  }

  ghost predicate KeyOfSome(p: Plan, input: seq<Row>, fns: Functions, k: Row)
    requires p.Aggregation?
  {
    exists r :: r in input && KeyIs(p.groups, SchemaOf(p.input), fns, r, k)
  }

  ghost predicate KeysApart(rows: seq<Row>, n: nat) {
    forall i, j | 0 <= i < j < |rows| && n <= |rows[i]| && n <= |rows[j]| :: rows[i][..n] != rows[j][..n]
  }

  function KeysOf(p: Plan, input: seq<Row>, fns: Functions): seq<Row>
    requires p.Aggregation?
  {
    Dedup(Map(GroupKey(p.groups, SchemaOf(p.input), fns), input))
  }

  lemma KeysAre(p: Plan, input: seq<Row>, fns: Functions, k: Row)
    requires p.Aggregation?
    ensures k in KeysOf(p, input, fns) <==> KeyOfSome(p, input, fns, k)
  {
    var key := GroupKey(p.groups, SchemaOf(p.input), fns);
    DedupMembers(Map(key, input));
    if k in Map(key, input) {
      var i :| 0 <= i < |input| && Map(key, input)[i] == k;
      KeyExactly(p.groups, SchemaOf(p.input), fns, input[i], k);
      assert input[i] in input;
    }
    if r :| r in input && KeyIs(p.groups, SchemaOf(p.input), fns, r, k) {
      KeyExactly(p.groups, SchemaOf(p.input), fns, r, k);
      var i :| 0 <= i < |input| && input[i] == r;
      assert Map(key, input)[i] == k;
    }
  }

  lemma KeyedAt(p: Plan, db: Database, fns: Functions, i: nat)
    requires p.Aggregation? && p.groups != []
    ensures |Rows(p, db, fns)| == |KeysOf(p, Rows(p.input, db, fns), fns)|
    ensures i < |Rows(p, db, fns)| ==>
      IsGroup(p, Rows(p.input, db, fns), fns, Rows(p, db, fns)[i])
      && Rows(p, db, fns)[i][..|p.groups|] == KeysOf(p, Rows(p.input, db, fns), fns)[i]
  {
    var input := Rows(p.input, db, fns);
    var keys := KeysOf(p, input, fns);
    if i < |keys| {
      assert keys[i] in keys;
      KeysAre(p, input, fns, keys[i]);
      GroupRowIs(p, input, fns, keys[i]);
    }
  }

  /** With grouping expressions there is one row for each key of an input row. */
  lemma GroupsExactly(p: Plan, db: Database, fns: Functions, k: Row)
    requires p.Aggregation? && p.groups != []
    ensures forall i | 0 <= i < |Rows(p, db, fns)| :: IsGroup(p, Rows(p.input, db, fns), fns, Rows(p, db, fns)[i])
    ensures KeysApart(Rows(p, db, fns), |p.groups|)
    ensures HasKey(Rows(p, db, fns), |p.groups|, k) <==> KeyOfSome(p, Rows(p.input, db, fns), fns, k)
  {
    var input := Rows(p.input, db, fns);
    forall i: nat | i < |Rows(p, db, fns)| ensures IsGroup(p, input, fns, Rows(p, db, fns)[i]) { KeyedAt(p, db, fns, i); }
    GroupsApart(p, db, fns);
    KeysAre(p, input, fns, k);
    GroupHasKey(p, db, fns, k);
  }

  lemma GroupsApart(p: Plan, db: Database, fns: Functions)
    requires p.Aggregation? && p.groups != []
    ensures KeysApart(Rows(p, db, fns), |p.groups|)
  {
    var rows, keys := Rows(p, db, fns), KeysOf(p, Rows(p.input, db, fns), fns);
    KeysOnce(p, Rows(p.input, db, fns), fns);
    KeyedAt(p, db, fns, 0);
    forall i: nat | i < |rows| ensures |p.groups| <= |rows[i]| && rows[i][..|p.groups|] == keys[i] { KeyedAt(p, db, fns, i); }
    ApartByKeys(rows, keys, |p.groups|);
  }

  lemma KeysOnce(p: Plan, input: seq<Row>, fns: Functions)
    requires p.Aggregation?
    ensures Once(KeysOf(p, input, fns))
  {
    DedupMembers(Map(GroupKey(p.groups, SchemaOf(p.input), fns), input));
  }

  lemma ApartByKeys(rows: seq<Row>, keys: seq<Row>, n: nat)
    requires |rows| == |keys| && Once(keys) && forall i: nat | i < |rows| :: n <= |rows[i]| && rows[i][..n] == keys[i]
    ensures KeysApart(rows, n)
  {
    forall i, j | 0 <= i < j < |rows| ensures rows[i][..n] != rows[j][..n] {
      assert rows[i][..n] == keys[i] && rows[j][..n] == keys[j];
    }
  }

  lemma GroupHasKey(p: Plan, db: Database, fns: Functions, k: Row)
    requires p.Aggregation? && p.groups != []
    ensures HasKey(Rows(p, db, fns), |p.groups|, k) <==> k in KeysOf(p, Rows(p.input, db, fns), fns)
  {
    var keys := KeysOf(p, Rows(p.input, db, fns), fns);
    KeyedAt(p, db, fns, 0);
    if k in keys {
      var i :| 0 <= i < |keys| && keys[i] == k;
      KeyedAt(p, db, fns, i);
    }
    if HasKey(Rows(p, db, fns), |p.groups|, k) {
      var i :| 0 <= i < |Rows(p, db, fns)| && |p.groups| <= |Rows(p, db, fns)[i]| && Rows(p, db, fns)[i][..|p.groups|] == k;
      KeyedAt(p, db, fns, i);
    }
  }

  /** Without them there is one row over the whole input, empty or not. */
  lemma AloneExactly(p: Plan, db: Database, fns: Functions)
    requires p.Aggregation? && p.groups == []
    ensures |Rows(p, db, fns)| == 1 && IsGroup(p, Rows(p.input, db, fns), fns, Rows(p, db, fns)[0])
  {
    var input := Rows(p.input, db, fns);
    AllInGroup(SchemaOf(p.input), fns, input);
    GroupRowIs(p, input, fns, []);
  }
}
