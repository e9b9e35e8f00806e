/** What expressions and columns of a plan read, case by case. */
module ExpressionMeaning {
  import opened Names
  import opened RelationalPlans
  import opened Wrappers

  // ---- Three-valued logic ----

  lemma AndExactly(a: Value, b: Value)
    ensures Apply(And, a, b) == Bool(true) <==> a == Bool(true) && b == Bool(true)
    ensures Apply(And, a, b) == Bool(false) <==> a == Bool(false) || b == Bool(false)
    ensures Apply(And, a, b) in {Bool(true), Bool(false), Null}
  {
  }

  lemma OrExactly(a: Value, b: Value)
    ensures Apply(Or, a, b) == Bool(true) <==> a == Bool(true) || b == Bool(true)
    ensures Apply(Or, a, b) == Bool(false) <==> a == Bool(false) && b == Bool(false)
    ensures Apply(Or, a, b) in {Bool(true), Bool(false), Null}
  {
  }

  /** Comparing with NULL gives NULL, comparing two values of a kind what its order says. */
  lemma ComparesExactly(op: Op, a: Value, b: Value)
    requires op != And && op != Or
    ensures Apply(op, a, b).Null? <==> a.Null? || b.Null?
    ensures !a.Null? && !b.Null? ==> (Apply(op, a, b) == Bool(true) || Apply(op, a, b) == Bool(false))
    ensures !a.Null? && !b.Null? ==> (Apply(Eq, a, b) == Bool(true) <==> a == b) && (Apply(NotEq, a, b) == Bool(true) <==> a != b)
    ensures a.Int? && b.Int? ==>
      && (Apply(Lt, a, b) == Bool(true) <==> a.i < b.i) && (Apply(LtEq, a, b) == Bool(true) <==> a.i <= b.i)
      && (Apply(Gt, a, b) == Bool(true) <==> a.i > b.i) && (Apply(GtEq, a, b) == Bool(true) <==> a.i >= b.i)
    ensures a.Text? && b.Text? ==>
      && (Apply(Lt, a, b) == Bool(true) <==> exists i: nat :: FirstDiffers(a.s, b.s, i))
      && (Apply(Gt, a, b) == Bool(true) <==> exists i: nat :: FirstDiffers(b.s, a.s, i))
      && (Apply(LtEq, a, b) == Bool(true) <==> Apply(Gt, a, b) == Bool(false))
      && (Apply(GtEq, a, b) == Bool(true) <==> Apply(Lt, a, b) == Bool(false))
  {
    if a.Text? && b.Text? {
      LessExactly(a.s, b.s);
      LessExactly(b.s, a.s);
      BelowTotal(a, b);
    }
  }

  /** Negation and the tests for NULL. */
  lemma UnaryExactly<R>(e: Expr<R>, env: R -> Value, fns: Functions)
    ensures Eval(Not(e), env, fns) == Bool(true) <==> Eval(e, env, fns) == Bool(false)
    ensures Eval(Not(e), env, fns) == Bool(false) <==> Eval(e, env, fns) == Bool(true)
    ensures Eval(Not(e), env, fns) in {Bool(true), Bool(false), Null}
    ensures Eval(IsNull(e), env, fns) == Bool(Eval(e, env, fns) == Null)
    ensures Eval(IsNotNull(e), env, fns) == Bool(Eval(e, env, fns) != Null)
  {
  }

  // ---- Columns ----

  /** A reference without a relation names a field of any relation. */
  predicate Refers(c: Column, f: Column) {
    c.name == f.name && (c.relation == None || f.relation == c.relation)
  }

  predicate FirstReferred(schema: Schema, c: Column, i: nat) {
    i < |schema| && Refers(c, schema[i]) && forall j | 0 <= j < i :: !Refers(c, schema[j])
  }

  lemma {:induction false} IndexIsFirst(schema: Schema, c: Column)
    ensures IndexOf(schema, c).Some? ==> FirstReferred(schema, c, IndexOf(schema, c).value)
    ensures IndexOf(schema, c).None? ==> forall i | 0 <= i < |schema| :: !Refers(c, schema[i])
  {
    if schema != [] {
      IndexIsFirst(schema[1..], c);
      forall i | 0 < i < |schema| ensures schema[i] == schema[1..][i - 1] {}
    }
  }

  /** A column reads the first field it refers to. */
  lemma ColumnReads(schema: Schema, row: Row, c: Column, i: nat, fns: Functions)
    requires |row| == |schema| && FirstReferred(schema, c, i)
    ensures Eval(Ref(c), RowEnv(schema, row), fns) == row[i]
  {
    IndexIsFirst(schema, c);
  }

  /** In a row of a join a column reads what it reads on its own side, the left one first. */
  lemma JoinedReads(p: Plan, l: Row, r: Row, c: Column, i: nat, fns: Functions)
    requires p.Join? && p.kind in {Inner, LeftOuter, RightOuter, FullOuter}
    requires |l| == Width(p.left) && |r| == Width(p.right)
    ensures FirstReferred(SchemaOf(p.left), c, i) ==> Eval(Ref(c), RowEnv(SchemaOf(p), l + r), fns) == l[i]
    ensures FirstReferred(SchemaOf(p.right), c, i) && (forall j | 0 <= j < Width(p.left) :: !Refers(c, SchemaOf(p.left)[j])) ==>
      Eval(Ref(c), RowEnv(SchemaOf(p), l + r), fns) == r[i]
  {
    var left, right := SchemaOf(p.left), SchemaOf(p.right);
    if FirstReferred(left, c, i) {
      assert FirstReferred(left + right, c, i);
      ColumnReads(left + right, l + r, c, i, fns);
    } else if FirstReferred(right, c, i) && forall j | 0 <= j < |left| :: !Refers(c, left[j]) {
      forall j | 0 <= j < |left| + i ensures !Refers(c, (left + right)[j]) {
        if j >= |left| { assert (left + right)[j] == right[j - |left|]; }
      }
      ColumnReads(left + right, l + r, c, |left| + i, fns);
    }
  }

  /** A filter pushed into a scan reads the first stored column of that name. */
  lemma SourceReads(source: seq<string>, row: Row, c: Column, i: nat, fns: Functions)
    requires |row| == |source| && i < |source| && source[i] == c.name && forall j | 0 <= j < i :: source[j] != c.name
    ensures Eval(Ref(c), SourceEnv(source, row), fns) == row[i]
  {
    NameIndexIs(source, c.name, i);
  }

  lemma {:induction false} NameIndexIs(names: seq<string>, name: string, i: nat)
    requires i < |names| && names[i] == name && forall j | 0 <= j < i :: names[j] != name
    ensures NameIndex(names, name) == Some(i)
  {
    if i > 0 { NameIndexIs(names[1..], name, i - 1); }
  }
}
