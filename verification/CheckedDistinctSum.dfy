/** The exact sum of distinct values. A partial state travels as the list of its values, and merging
  * adds them one by one; so which rows repeat, and where, makes no difference. */
module CheckedDistinctSum {
  import opened AggregateRuns
  import opened Sets
  import opened Widths
  import opened Wrappers

  type Cell = Option<I128>

  datatype DistinctSum = DistinctSum(values: set<I128>, total: I256, seen: bool)

  /** A known value changes nothing. */
  function AddValue(s: DistinctSum, v: I128): Option<DistinctSum> {
    if v in s.values then Some(s)
    else if I256_MIN <= s.total + v <= I256_MAX then Some(DistinctSum(s.values + {v}, s.total + v, true))
    else None
  }

  function AddCell(s: DistinctSum, v: Cell): Option<DistinctSum> {
    if v.None? then Some(s) else AddValue(s, v.value)
  }

  function AddAll(s: DistinctSum, list: seq<I128>): Option<DistinctSum> {
    if list == [] then Some(s)
    else
      match AddAll(s, list[..|list| - 1])
      case None => None
      case Some(t) => AddValue(t, list[|list| - 1])
  }

  /** The values of a state in some order; none is preferred. */
  ghost function Listing(values: set<I128>): seq<I128> {
    if values == {} then []
    else
      var v :| v in values;
      [v] + Listing(values - {v})
  }

  ghost function DistinctSumOf(): Accumulator<Cell, DistinctSum> {
    Accumulator(DistinctSum({}, 0, false), (s: DistinctSum, v: Cell) => AddCell(s, v),
                (s: DistinctSum, t: DistinctSum) => AddAll(s, Listing(t.values)))
  }

  // ---- What a state means ----

  ghost function Sum(values: set<I128>): int {
    if values == {} then 0
    else
      var v :| v in values;
      v + Sum(values - {v})
  }

  lemma {:induction false} SumWithout(values: set<I128>, v: I128)
    requires v in values
    ensures Sum(values) == v + Sum(values - {v})
  {
    var u :| u in values && Sum(values) == u + Sum(values - {u});
    if u != v {
      SumWithout(values - {u}, v);
      SumWithout(values - {v}, u);
      assert values - {u} - {v} == values - {v} - {u};
    }
  }

  lemma {:induction false} SumBound(values: set<I128>)
    ensures Abs(Sum(values)) <= |values| * (I128_MAX + 1)
  {
    if values != {} {
      var v :| v in values && Sum(values) == v + Sum(values - {v});
      SumBound(values - {v});
    }
  }

  /** The exact state of a set of values. */
  ghost predicate Holds(s: DistinctSum, values: set<I128>) {
    s.values == values && s.total == Sum(values) && (s.seen <==> values != {})
  }

  function Seen(rows: seq<Cell>): set<I128> {
    set v | v in rows && v.Some? :: v.value
  }

  function Members(list: seq<I128>): set<I128> {
    set v | v in list
  }

  lemma SeenConcat(a: seq<Cell>, b: seq<Cell>)
    ensures Seen(a + b) == Seen(a) + Seen(b)
  {
    forall v | v in Seen(a) + Seen(b) ensures v in Seen(a + b) { assert Some(v) in a + b; }
  }

  lemma {:induction false} SeenSize(rows: seq<Cell>)
    ensures |Seen(rows)| <= |rows|
  {
    if rows != [] {
      var n := |rows| - 1;
      SeenSize(rows[..n]);
      SeenConcat(rows[..n], [rows[n]]);
      assert rows == rows[..n] + [rows[n]];
      assert Seen([rows[n]]) == if rows[n].Some? then {rows[n].value} else {};
      SubsetSize(Seen(rows), Seen(rows[..n]) + if rows[n].Some? then {rows[n].value} else {});
    }
  }

  lemma {:induction false} ListingMembers(values: set<I128>)
    ensures Members(Listing(values)) == values
  {
    if values != {} {
      var v :| v in values && Listing(values) == [v] + Listing(values - {v});
      ListingMembers(values - {v});
      forall u ensures u in Listing(values) <==> u in values {
        assert u in Listing(values - {v}) <==> u in Members(Listing(values - {v}));
      }
    }
  }

  lemma AddValueHolds(s: DistinctSum, values: set<I128>, v: I128)
    requires Holds(s, values)
    ensures AddValue(s, v).Some? ==> Holds(AddValue(s, v).value, values + {v})
    ensures |values + {v}| <= I128_MAX ==> AddValue(s, v).Some?
  {
    if v in values {
      assert values + {v} == values;
    } else {
      SumWithout(values + {v}, v);
      assert values + {v} - {v} == values;
      SumBound(values + {v});
    }
  }

  lemma {:induction false} MembersStep(values: set<I128>, list: seq<I128>)
    requires list != []
    ensures
      var before := values + Members(list[..|list| - 1]);
      values + Members(list) == before + {list[|list| - 1]} && |before| <= |values + Members(list)|
  {
    var before := values + Members(list[..|list| - 1]);
    assert list == list[..|list| - 1] + [list[|list| - 1]];
    assert values + Members(list) == before + {list[|list| - 1]};
    SubsetSize(before, values + Members(list));
  }

  lemma {:induction false} AddAllHolds(s: DistinctSum, values: set<I128>, list: seq<I128>)
    requires Holds(s, values)
    ensures AddAll(s, list).Some? ==> Holds(AddAll(s, list).value, values + Members(list))
    ensures |values + Members(list)| <= I128_MAX ==> AddAll(s, list).Some?
  {
    if list == [] {
      assert values + Members(list) == values;
    } else {
      var n := |list| - 1;
      var before := values + Members(list[..n]);
      AddAllHolds(s, values, list[..n]);
      MembersStep(values, list);
      if AddAll(s, list[..n]).Some? { AddValueHolds(AddAll(s, list[..n]).value, before, list[n]); }
    }
  }

  // ---- Every run ----

  ghost function Meaning(): (seq<Cell>, DistinctSum) -> bool {
    (rows: seq<Cell>, s: DistinctSum) => Holds(s, Seen(rows))
  }

  ghost predicate Countable(rows: seq<Cell>) {
    |rows| <= I128_MAX
  }

  ghost function Good(): seq<Cell> -> bool {
    (rows: seq<Cell>) => Countable(rows)
  }

  lemma AddCellMeans(a: seq<Cell>, s: DistinctSum, x: Cell)
    requires Holds(s, Seen(a))
    ensures AddCell(s, x).Some? ==> Holds(AddCell(s, x).value, Seen(a + [x]))
    ensures Countable(a + [x]) ==> AddCell(s, x).Some?
  {
    SeenConcat(a, [x]);
    SeenSize(a + [x]);
    assert Seen([x]) == if x.Some? then {x.value} else {};
    if x.Some? { AddValueHolds(s, Seen(a), x.value); } else { assert Seen(a) + {} == Seen(a); }
  }

  lemma MergeMeans(a: seq<Cell>, s: DistinctSum, b: seq<Cell>, t: DistinctSum)
    requires Holds(s, Seen(a)) && Holds(t, Seen(b))
    ensures AddAll(s, Listing(t.values)).Some? ==> Holds(AddAll(s, Listing(t.values)).value, Seen(a + b))
    ensures Countable(a + b) ==> AddAll(s, Listing(t.values)).Some?
  {
    SeenConcat(a, b);
    SeenSize(a + b);
    ListingMembers(t.values);
    AddAllHolds(s, Seen(a), Listing(t.values));
  }

  lemma DistinctSumLaws()
    ensures Sound(DistinctSumOf(), Meaning()) && Total(DistinctSumOf(), Meaning(), Good())
  {
    assert Seen([]) == {};
    forall a, s, x | Holds(s, Seen(a))
      ensures AddCell(s, x).Some? ==> Holds(AddCell(s, x).value, Seen(a + [x]))
      ensures Countable(a + [x]) ==> AddCell(s, x).Some?
    {
      AddCellMeans(a, s, x);
    }
    forall a, s: DistinctSum, b, t: DistinctSum | Holds(s, Seen(a)) && Holds(t, Seen(b))
      ensures AddAll(s, Listing(t.values)).Some? ==> Holds(AddAll(s, Listing(t.values)).value, Seen(a + b))
      ensures Countable(a + b) ==> AddAll(s, Listing(t.values)).Some?
    {
      MergeMeans(a, s, b, t);
    }
  }

  /** Every run succeeds with the sum of the distinct values of its rows; so runs over the same
    * values agree, however often and in however many partial states each value occurs. */
  lemma {:induction false} DistinctValuesDecide(a: Run<Cell>, b: Run<Cell>)
    requires Seen(Rows(a)) == Seen(Rows(b)) && |Rows(a)| <= I128_MAX && |Rows(b)| <= I128_MAX
    ensures Fold(DistinctSumOf(), a).Some? && Fold(DistinctSumOf(), a) == Fold(DistinctSumOf(), b)
    ensures Holds(Fold(DistinctSumOf(), a).value, Seen(Rows(a)))
  {
    DistinctSumLaws();
    FoldSucceeds(DistinctSumOf(), Meaning(), Good(), a, a.steps);
    FoldSucceeds(DistinctSumOf(), Meaning(), Good(), b, b.steps);
    FoldMeans(DistinctSumOf(), Meaning(), a, a.steps);
    FoldMeans(DistinctSumOf(), Meaning(), b, b.steps);
  }

  // ---- The accumulator ----

  class DistinctSumState {
    var values: set<I128>
    var total: I256
    var seen: bool

    function State(): DistinctSum
      reads this
    {
      DistinctSum(values, total, seen)
    }

    constructor ()
      ensures State() == DistinctSumOf().empty
    {
      values, total, seen := {}, 0, false;
    }

    method Add(v: I128) returns (ok: bool)
      modifies this
      ensures ok <==> AddValue(old(State()), v).Some?
      ensures ok ==> State() == AddValue(old(State()), v).value
    {
      if v in values { return true; }
      values := values + {v};
      if total + v < I256_MIN || total + v > I256_MAX { return false; }
      total := total + v;
      seen := true;
      return true;
    }

    method UpdateBatch(rows: seq<Cell>) returns (ok: bool)
      modifies this
      ensures ok <==> Through(DistinctSumOf(), old(State()), rows).Some?
      ensures ok ==> State() == Through(DistinctSumOf(), old(State()), rows).value
    {
      for i := 0 to |rows|
        invariant Through(DistinctSumOf(), old(State()), rows[..i]) == Some(State())
      {
        ThroughStep(DistinctSumOf(), old(State()), rows, i);
        if rows[i].Some? {
          var added := Add(rows[i].value);
          if !added {
            ThroughFails(DistinctSumOf(), old(State()), rows, i + 1);
            return false;
          }
        }
      }
      assert rows[..|rows|] == rows;
      return true;
    }
  }
}
