/** Joins, groups and aggregates see their inputs as bags. Each operator is followed by the lemma
    that rearranged inputs give a rearranged result, so that a database may order intermediate rows
    as it likes. Wherever only the members of a list matter (groups, extremes, distinct values) that
    is stated on the members. */
module OperatorBags {
  import opened RelationalPlans
  import opened RowBags
  import opened Sorting

  // ---- Joins ----

  /** `m` and `o` on encoded rows do what `n` and `p` do on plain ones. */
  ghost predicate PairsAgree(left: seq<Row>, right: seq<Row>, encL: Row -> Row, encR: Row -> Row, encO: Row -> Row,
                             n: Match, p: Combine, m: Match, o: Combine)
  {
    forall l, r | l in left && r in right :: m(encL(l), encR(r)) == n(l, r) && o(encL(l), encR(r)) == encO(p(l, r))
  }

  lemma MatchesRightAgree(l: Row, left: seq<Row>, right: seq<Row>, remote: seq<Row>, encL: Row -> Row, encR: Row -> Row, encO: Row -> Row,
                          n: Match, p: Combine, m: Match, o: Combine)
    requires PairsAgree(left, right, encL, encR, encO, n, p, m, o) && l in left && SameBag(remote, Map(encR, right))
    ensures MatchesRight(encL(l), remote, m) <==> MatchesRight(l, right, n)
  {
    SameBagMembers(remote, Map(encR, right));
    if MatchesRight(encL(l), remote, m) {
      var e :| e in remote && m(encL(l), e);
      var i :| 0 <= i < |right| && Map(encR, right)[i] == e;
      assert right[i] in right;
    }
    if MatchesRight(l, right, n) {
      var r :| r in right && n(l, r);
      var i :| 0 <= i < |right| && right[i] == r;
      assert Map(encR, right)[i] in remote;
    }
  }

  lemma MatchesLeftAgree(r: Row, left: seq<Row>, right: seq<Row>, remote: seq<Row>, encL: Row -> Row, encR: Row -> Row, encO: Row -> Row,
                         n: Match, p: Combine, m: Match, o: Combine)
    requires PairsAgree(left, right, encL, encR, encO, n, p, m, o) && r in right && SameBag(remote, Map(encL, left))
    ensures MatchesLeft(encR(r), remote, m) <==> MatchesLeft(r, left, n)
  {
    SameBagMembers(remote, Map(encL, left));
    if MatchesLeft(encR(r), remote, m) {
      var e :| e in remote && m(e, encR(r));
      var i :| 0 <= i < |left| && Map(encL, left)[i] == e;
      assert left[i] in left;
    }
    if MatchesLeft(r, left, n) {
      var l :| l in left && n(l, r);
      var i :| 0 <= i < |left| && left[i] == l;
      assert Map(encL, left)[i] in remote;
    }
  }

  lemma MapOne<A, B>(f: A -> B, x: A)
    ensures Map(f, [x]) == [f(x)] && Map(f, []) == []
  {
  }

  lemma InnerAgree(l: Row, left: seq<Row>, right: seq<Row>, remote: seq<Row>, encL: Row -> Row, encR: Row -> Row, encO: Row -> Row,
                   n: Match, p: Combine, m: Match, o: Combine)
    requires PairsAgree(left, right, encL, encR, encO, n, p, m, o) && l in left && SameBag(remote, Map(encR, right))
    ensures SameBag(FlatMap(WithRight(encL(l), m, o), remote), Map(encO, FlatMap(WithRight(l, n, p), right)))
  {
    forall r | r in right ensures SameBag(WithRight(encL(l), m, o)(encR(r)), Map(encO, WithRight(l, n, p)(r))) {
      MapOne(encO, p(l, r));
    }
    FlatMapSimulates(WithRight(l, n, p), encO, encR, WithRight(encL(l), m, o), right, remote);
  }

  lemma InnerAgreeLeft(r: Row, left: seq<Row>, right: seq<Row>, remote: seq<Row>, encL: Row -> Row, encR: Row -> Row, encO: Row -> Row,
                       n: Match, p: Combine, m: Match, o: Combine)
    requires PairsAgree(left, right, encL, encR, encO, n, p, m, o) && r in right && SameBag(remote, Map(encL, left))
    ensures SameBag(FlatMap(WithLeft(encR(r), m, o), remote), Map(encO, FlatMap(WithLeft(r, n, p), left)))
  {
    forall l | l in left ensures SameBag(WithLeft(encR(r), m, o)(encL(l)), Map(encO, WithLeft(r, n, p)(l))) {
      MapOne(encO, p(l, r));
    }
    FlatMapSimulates(WithLeft(r, n, p), encO, encL, WithLeft(encR(r), m, o), left, remote);
  }

  /** The two sides of a join, locally and remotely, with their NULL rows. */
  datatype Sides = Sides(left: seq<Row>, right: seq<Row>, noLeft: Row, noRight: Row)

  ghost predicate SidesAgree(s: Sides, t: Sides, encL: Row -> Row, encR: Row -> Row, encO: Row -> Row, n: Match, p: Combine, m: Match, o: Combine) {
    && SameBag(t.left, Map(encL, s.left)) && SameBag(t.right, Map(encR, s.right))
    && PairsAgree(s.left, s.right, encL, encR, encO, n, p, m, o)
    && (forall l | l in s.left :: o(encL(l), t.noRight) == encO(p(l, s.noRight)))
    && (forall r | r in s.right :: o(t.noLeft, encR(r)) == encO(p(s.noLeft, r)))
  }

  lemma InnerSimulates(s: Sides, t: Sides, encL: Row -> Row, encR: Row -> Row, encO: Row -> Row, n: Match, p: Combine, m: Match, o: Combine)
    requires SidesAgree(s, t, encL, encR, encO, n, p, m, o)
    ensures SameBag(FlatMap(InnerStep(t.right, m, o), t.left), Map(encO, FlatMap(InnerStep(s.right, n, p), s.left)))
  {
    forall l | l in s.left ensures SameBag(InnerStep(t.right, m, o)(encL(l)), Map(encO, InnerStep(s.right, n, p)(l))) {
      InnerAgree(l, s.left, s.right, t.right, encL, encR, encO, n, p, m, o);
    }
    FlatMapSimulates(InnerStep(s.right, n, p), encO, encL, InnerStep(t.right, m, o), s.left, t.left);
  }

  lemma LeftSimulates(s: Sides, t: Sides, encL: Row -> Row, encR: Row -> Row, encO: Row -> Row, n: Match, p: Combine, m: Match, o: Combine)
    requires SidesAgree(s, t, encL, encR, encO, n, p, m, o)
    ensures SameBag(FlatMap(LeftStep(t.right, m, o, t.noRight), t.left), Map(encO, FlatMap(LeftStep(s.right, n, p, s.noRight), s.left)))
  {
    forall l | l in s.left ensures SameBag(LeftStep(t.right, m, o, t.noRight)(encL(l)), Map(encO, LeftStep(s.right, n, p, s.noRight)(l))) {
      InnerAgree(l, s.left, s.right, t.right, encL, encR, encO, n, p, m, o);
      MatchesRightAgree(l, s.left, s.right, t.right, encL, encR, encO, n, p, m, o);
      MapOne(encO, p(l, s.noRight));
    }
    FlatMapSimulates(LeftStep(s.right, n, p, s.noRight), encO, encL, LeftStep(t.right, m, o, t.noRight), s.left, t.left);
  }

  lemma RightSimulates(s: Sides, t: Sides, encL: Row -> Row, encR: Row -> Row, encO: Row -> Row, n: Match, p: Combine, m: Match, o: Combine)
    requires SidesAgree(s, t, encL, encR, encO, n, p, m, o)
    ensures SameBag(FlatMap(RightStep(t.left, m, o, t.noLeft), t.right), Map(encO, FlatMap(RightStep(s.left, n, p, s.noLeft), s.right)))
  {
    forall r | r in s.right ensures SameBag(RightStep(t.left, m, o, t.noLeft)(encR(r)), Map(encO, RightStep(s.left, n, p, s.noLeft)(r))) {
      InnerAgreeLeft(r, s.left, s.right, t.left, encL, encR, encO, n, p, m, o);
      MatchesLeftAgree(r, s.left, s.right, t.left, encL, encR, encO, n, p, m, o);
      MapOne(encO, p(s.noLeft, r));
    }
    FlatMapSimulates(RightStep(s.left, n, p, s.noLeft), encO, encR, RightStep(t.left, m, o, t.noLeft), s.right, t.right);
  }

  lemma LeftOnlySimulates(s: Sides, t: Sides, partner: bool, encL: Row -> Row, encR: Row -> Row, encO: Row -> Row, n: Match, p: Combine, m: Match, o: Combine)
    requires SidesAgree(s, t, encL, encR, encO, n, p, m, o)
    ensures SameBag(FlatMap(LeftOnly(t.right, m, o, t.noRight, partner), t.left), Map(encO, FlatMap(LeftOnly(s.right, n, p, s.noRight, partner), s.left)))
  {
    forall l | l in s.left
      ensures SameBag(LeftOnly(t.right, m, o, t.noRight, partner)(encL(l)), Map(encO, LeftOnly(s.right, n, p, s.noRight, partner)(l)))
    {
      MatchesRightAgree(l, s.left, s.right, t.right, encL, encR, encO, n, p, m, o);
      MapOne(encO, p(l, s.noRight));
    }
    FlatMapSimulates(LeftOnly(s.right, n, p, s.noRight, partner), encO, encL, LeftOnly(t.right, m, o, t.noRight, partner), s.left, t.left);
  }

  lemma RightOnlySimulates(s: Sides, t: Sides, partner: bool, encL: Row -> Row, encR: Row -> Row, encO: Row -> Row, n: Match, p: Combine, m: Match, o: Combine)
    requires SidesAgree(s, t, encL, encR, encO, n, p, m, o)
    ensures SameBag(FlatMap(RightOnly(t.left, m, o, t.noLeft, partner), t.right), Map(encO, FlatMap(RightOnly(s.left, n, p, s.noLeft, partner), s.right)))
  {
    forall r | r in s.right
      ensures SameBag(RightOnly(t.left, m, o, t.noLeft, partner)(encR(r)), Map(encO, RightOnly(s.left, n, p, s.noLeft, partner)(r)))
    {
      MatchesLeftAgree(r, s.left, s.right, t.left, encL, encR, encO, n, p, m, o);
      MapOne(encO, p(s.noLeft, r));
    }
    FlatMapSimulates(RightOnly(s.left, n, p, s.noLeft, partner), encO, encR, RightOnly(t.left, m, o, t.noLeft, partner), s.right, t.right);
  }

  /** A join over encoded and rearranged inputs yields the encoded join. */
  lemma JoinSimulates(kind: JoinKind, s: Sides, t: Sides, encL: Row -> Row, encR: Row -> Row, encO: Row -> Row, n: Match, p: Combine, m: Match, o: Combine)
    requires SidesAgree(s, t, encL, encR, encO, n, p, m, o)
    ensures SameBag(JoinRows(kind, t.left, t.right, m, o, t.noLeft, t.noRight), Map(encO, JoinRows(kind, s.left, s.right, n, p, s.noLeft, s.noRight)))
  {
    match kind {
      case Inner => InnerSimulates(s, t, encL, encR, encO, n, p, m, o);
      case LeftOuter => LeftSimulates(s, t, encL, encR, encO, n, p, m, o);
      case RightOuter => RightSimulates(s, t, encL, encR, encO, n, p, m, o);
      case FullOuter =>
        LeftSimulates(s, t, encL, encR, encO, n, p, m, o);
        RightOnlySimulates(s, t, false, encL, encR, encO, n, p, m, o);
        MapConcat(encO, FlatMap(LeftStep(s.right, n, p, s.noRight), s.left), FlatMap(RightOnly(s.left, n, p, s.noLeft, false), s.right));
      case LeftSemi => LeftOnlySimulates(s, t, true, encL, encR, encO, n, p, m, o);
      case LeftAnti => LeftOnlySimulates(s, t, false, encL, encR, encO, n, p, m, o);
      case RightSemi => RightOnlySimulates(s, t, true, encL, encR, encO, n, p, m, o);
      case RightAnti => RightOnlySimulates(s, t, false, encL, encR, encO, n, p, m, o);
    }
  }

  // ---- Groups ----

  lemma {:induction false} WithoutMembers<A>(s: seq<A>, x: A)
    requires Distinct(s)
    ensures Distinct(Without(s, x)) && forall y :: y in Without(s, x) <==> y in s && y != x
  {
    if s != [] {
      WithoutMembers(s[1..], x);
      assert s == [s[0]] + s[1..];
      assert s[0] !in s[1..];
    }
  }

  lemma {:induction false} DedupMembers<A>(s: seq<A>)
    ensures Distinct(Dedup(s)) && forall y :: y in Dedup(s) <==> y in s
  {
    if s != [] {
      DedupMembers(s[1..]);
      WithoutMembers(Dedup(s[1..]), s[0]);
      var w := Without(Dedup(s[1..]), s[0]);
      forall j | 0 <= j < |w| ensures w[j] != s[0] { assert w[j] in w; }
      assert s == [s[0]] + s[1..];
    }
  }

  lemma DedupBag<A>(a: seq<A>, b: seq<A>)
    requires SameBag(a, b)
    ensures SameBag(Dedup(a), Dedup(b))
  {
    SameBagMembers(a, b);
    DedupMembers(a);
    DedupMembers(b);
    DistinctSame(Dedup(a), Dedup(b));
  }

  lemma {:induction false} MapCompose<A, B, C>(f: A -> B, g: B -> C, h: A -> C, s: seq<A>)
    requires forall x | x in s :: g(f(x)) == h(x)
    ensures Map(g, Map(f, s)) == Map(h, s)
  {
    forall i | 0 <= i < |s| ensures Map(g, Map(f, s))[i] == Map(h, s)[i] {
      assert s[i] in s;
    }
  }

  lemma KeysAgree(rows: seq<Row>, remote: seq<Row>, enc: Row -> Row, key: Row -> Row, rkey: Row -> Row)
    requires SameBag(remote, Map(enc, rows)) && forall x | x in rows :: rkey(enc(x)) == key(x)
    ensures SameBag(Dedup(Map(rkey, remote)), Dedup(Map(key, rows)))
  {
    MapBag(rkey, remote, Map(enc, rows));
    MapCompose(enc, rkey, key, rows);
    DedupBag(Map(rkey, remote), Map(key, rows));
  }

  lemma GroupAgrees(rows: seq<Row>, remote: seq<Row>, enc: Row -> Row, key: Row -> Row, rkey: Row -> Row, k: Row)
    requires SameBag(remote, Map(enc, rows)) && forall x | x in rows :: rkey(enc(x)) == key(x)
    ensures SameBag(FlatMap(InGroup(rkey, k), remote), Map(enc, FlatMap(InGroup(key, k), rows)))
    ensures forall x | x in FlatMap(InGroup(key, k), rows) :: x in rows
  {
    forall x | x in rows ensures SameBag(InGroup(rkey, k)(enc(x)), Map(enc, InGroup(key, k)(x))) {
      MapOne(enc, x);
    }
    FlatMapSimulates(InGroup(key, k), enc, enc, InGroup(rkey, k), rows, remote);
    InGroupMembers(rows, key, k);
  }

  lemma {:induction false} InGroupMembers(rows: seq<Row>, key: Row -> Row, k: Row)
    ensures forall x | x in FlatMap(InGroup(key, k), rows) :: x in rows
  {
    if rows != [] { InGroupMembers(rows[1..], key, k); }
  }

  /** Summaries that agree on every group, however the remote side orders it. */
  ghost predicate SummariesAgree(rows: seq<Row>, enc: Row -> Row, n: nat, summary: (nat, seq<Row>) -> Value, rsummary: (nat, seq<Row>) -> Value) {
    forall i, g, h | 0 <= i < n && (forall x | x in g :: x in rows) && SameBag(h, Map(enc, g)) :: rsummary(i, h) == summary(i, g)
  }

  lemma SameSummaries(rows: seq<Row>, enc: Row -> Row, n: nat, summary: (nat, seq<Row>) -> Value, rsummary: (nat, seq<Row>) -> Value,
                      g: seq<Row>, h: seq<Row>)
    requires SummariesAgree(rows, enc, n, summary, rsummary) && (forall x | x in g :: x in rows) && SameBag(h, Map(enc, g))
    ensures Summaries(n, rsummary, h) == Summaries(n, summary, g)
  {
    forall i | 0 <= i < n ensures Summaries(n, rsummary, h)[i] == Summaries(n, summary, g)[i] {
      assert rsummary(i, h) == summary(i, g);
    }
  }

  lemma GroupRowAgrees(rows: seq<Row>, remote: seq<Row>, enc: Row -> Row, key: Row -> Row, rkey: Row -> Row,
                       n: nat, summary: (nat, seq<Row>) -> Value, rsummary: (nat, seq<Row>) -> Value, k: Row)
    requires SameBag(remote, Map(enc, rows)) && forall x | x in rows :: rkey(enc(x)) == key(x)
    requires SummariesAgree(rows, enc, n, summary, rsummary)
    ensures GroupRow(remote, rkey, n, rsummary)(k) == GroupRow(rows, key, n, summary)(k)
  {
    GroupAgrees(rows, remote, enc, key, rkey, k);
    SameSummaries(rows, enc, n, summary, rsummary, FlatMap(InGroup(key, k), rows), FlatMap(InGroup(rkey, k), remote));
  }

  lemma SameMap<A, B>(f: A -> B, g: A -> B, s: seq<A>)
    requires forall x :: f(x) == g(x)
    ensures Map(f, s) == Map(g, s)
  {
  }

  /** Grouping encoded and rearranged rows yields the same groups. */
  lemma GroupedSimulates(global: bool, rows: seq<Row>, remote: seq<Row>, enc: Row -> Row, key: Row -> Row, rkey: Row -> Row,
                         n: nat, summary: (nat, seq<Row>) -> Value, rsummary: (nat, seq<Row>) -> Value)
    requires SameBag(remote, Map(enc, rows)) && forall x | x in rows :: rkey(enc(x)) == key(x)
    requires SummariesAgree(rows, enc, n, summary, rsummary)
    ensures SameBag(Grouped(global, remote, rkey, n, rsummary), Grouped(global, rows, key, n, summary))
  {
    SameSummaries(rows, enc, n, summary, rsummary, rows, remote);
    forall k ensures GroupRow(remote, rkey, n, rsummary)(k) == GroupRow(rows, key, n, summary)(k) {
      GroupRowAgrees(rows, remote, enc, key, rkey, n, summary, rsummary, k);
    }
    KeysAgree(rows, remote, enc, key, rkey);
    MapBag(GroupRow(remote, rkey, n, rsummary), Dedup(Map(rkey, remote)), Dedup(Map(key, rows)));
    SameMap(GroupRow(remote, rkey, n, rsummary), GroupRow(rows, key, n, summary), Dedup(Map(key, rows)));
  }

  // ---- Aggregates ----

  function Present(): Value -> seq<Value> {
    (v: Value) => if v.Null? then [] else [v]
  }

  lemma {:induction false} NonNullIsFlat(values: seq<Value>)
    ensures NonNull(values) == FlatMap(Present(), values)
  {
    if values != [] { NonNullIsFlat(values[1..]); }
  }

  lemma {:induction false} TotalConcat(a: seq<Value>, b: seq<Value>)
    ensures Total(a + b) == Total(a) + Total(b)
  {
    if a == [] {
      assert a + b == b;
    } else {
      assert (a + b)[1..] == a[1..] + b;
      TotalConcat(a[1..], b);
    }
  }

  lemma {:induction false} TotalBag(a: seq<Value>, b: seq<Value>)
    requires SameBag(a, b)
    ensures Total(a) == Total(b)
  {
    if a == [] {
      SameBagMembers(a, b);
    } else {
      var k := WithoutSameBag(a, b);
      TotalBag(a[1..], b[..k] + b[k + 1..]);
      assert b == b[..k] + ([b[k]] + b[k + 1..]);
      TotalConcat(b[..k], [b[k]] + b[k + 1..]);
      TotalConcat([b[k]], b[k + 1..]);
      TotalConcat(b[..k], b[k + 1..]);
    }
  }

  predicate Beats(least: bool, a: Value, b: Value) {
    if least then Below(a, b) else Below(b, a)
  }

  /** The extreme is a member that no member beats. */
  lemma {:induction false} ExtremeIs(values: seq<Value>, least: bool)
    requires values != []
    ensures Extreme(values, least) in values && forall v | v in values :: !Beats(least, v, Extreme(values, least))
  {
    BelowTotal(values[0], values[0]);
    if |values| > 1 {
      ExtremeIs(values[1..], least);
      var rest := Extreme(values[1..], least);
      forall v | v in values ensures !Beats(least, v, Extreme(values, least)) {
        BelowTotal(values[0], rest);
        if v in values[1..] && !Beats(least, rest, values[0]) { NotBeaten(least, v, rest, values[0]); }
      }
    }
  }

  lemma NotBeaten(least: bool, v: Value, rest: Value, first: Value)
    requires !Beats(least, v, rest) && !Beats(least, rest, first)
    ensures !Beats(least, v, first)
  {
    BelowTotal(v, rest);
    BelowTotal(rest, first);
    if Beats(least, v, first) && v != rest && rest != first {
      if least { BelowTransitive(rest, v, first); } else { BelowTransitive(first, v, rest); }
    }
  }

  lemma ExtremeBag(a: seq<Value>, b: seq<Value>, least: bool)
    requires SameBag(a, b)
    ensures Extreme(a, least) == Extreme(b, least)
  {
    SameBagMembers(a, b);
    if a != [] {
      ExtremeIs(a, least);
      ExtremeIs(b, least);
      BelowTotal(Extreme(a, least), Extreme(b, least));
    }
  }

  /** An aggregate does not depend on the order of its input. */
  lemma AggregateBag(fn: AggregateFn, distinct: bool, a: seq<Value>, b: seq<Value>)
    requires SameBag(a, b)
    ensures AggregateOf(fn, distinct, a) == AggregateOf(fn, distinct, b) && SameBag(NonNull(a), NonNull(b))
  {
    NonNullIsFlat(a);
    NonNullIsFlat(b);
    FlatMapBag(Present(), a, b);
    SameBagMembers(NonNull(a), NonNull(b));
    assert (set v | v in NonNull(a)) == (set v | v in NonNull(b));
    TotalBag(NonNull(a), NonNull(b));
    ExtremeBag(NonNull(a), NonNull(b), true);
    ExtremeBag(NonNull(a), NonNull(b), false);
  }
}
