/** What the checked aggregates return for the rows they were given. */
module AggregateMeaning {
  import opened AggregateRuns
  import CheckedDistinct
  import CheckedDistinctSum
  import CheckedMean
  import CheckedSnapshot
  import CheckedSum
  import CheckedWeighted
  import opened Widths
  import opened Wrappers

  // ---- Adding up ----

  function Adding<R>(rows: seq<R>, f: R -> int): int {
    if rows == [] then 0 else f(rows[0]) + Adding(rows[1..], f)
  }

  lemma {:induction false} AddingLast<R>(rows: seq<R>, f: R -> int)
    requires rows != []
    ensures Adding(rows, f) == Adding(rows[..|rows| - 1], f) + f(rows[|rows| - 1])
  {
    if |rows| > 1 {
      AddingLast(rows[1..], f);
      assert rows[1..][..|rows| - 2] == rows[..|rows| - 1][1..];
    } else {
      assert rows[..0] == [] && rows[1..] == [];
    }
  }

  /** `c` is the exact quotient of `a` and `b`, cut off towards zero. */
  ghost predicate CutOff(c: int, a: int, b: int) {
    if a >= 0 then c >= 0 && c * b <= a < (c + 1) * b else c <= 0 && -c * b <= -a < (-c + 1) * b
  }

  lemma CutOffExactly(c: int, a: int, b: int)
    requires b > 0 && CheckedMean.IsTruncated(c, a, b)
    ensures CutOff(c, a, b)
  {
    if c == 0 { assert 0 * b == 0; }
  }

  // ---- Mean ----

  function CellValue(): CheckedMean.Cell -> int {
    (v: CheckedMean.Cell) => match v case Some(x) => x case None => 0
  }

  function CellCount(): CheckedMean.Cell -> int {
    (v: CheckedMean.Cell) => match v case Some(_) => 1 case None => 0
  }

  lemma {:induction false} MeanSums(rows: seq<CheckedMean.Cell>)
    ensures CheckedMean.Sum(rows) == Adding(rows, CellValue()) && CheckedMean.Count(rows) == Adding(rows, CellCount())
  {
    if rows != [] {
      MeanSums(rows[..|rows| - 1]);
      AddingLast(rows, CellValue());
      AddingLast(rows, CellCount());
    }
  }

  /** However rows are batched, the mean is that of the values present, with eighteen digits after the
    * point; it is NULL without values, and fails only when they cannot be counted in 64 bits. */
  lemma MeanExactly(run: Run<CheckedMean.Cell>)
    ensures
      var n, sum := Adding(Rows(run), CellCount()), Adding(Rows(run), CellValue());
      var s := Fold(CheckedMean.MeanOf(), run);
      && (s.Some? <==> n <= 0xFFFF_FFFF_FFFF_FFFF)
      && (s.Some? && n == 0 ==> CheckedMean.Evaluate(s.value) == Some(None))
      && (s.Some? && n > 0 ==>
            exists c :: CheckedMean.Evaluate(s.value) == Some(Some(c)) && CutOff(c, sum * 1_000_000_000_000_000_000, n))
  {
    var rows := Rows(run);
    MeanSums(rows);
    CheckedMean.BatchingDoesNotMatter(run, run);
    var s := Fold(CheckedMean.MeanOf(), run);
    if s.Some? {
      CheckedMean.MeanLaws();
      FoldMeans(CheckedMean.MeanOf(), CheckedMean.Meaning(), run, run.steps);
      CheckedMean.MeanFits(rows, s.value);
      if CheckedMean.Count(rows) > 0 {
        CutOffExactly(CheckedMean.Evaluate(s.value).value.value, CheckedMean.Sum(rows) * CheckedMean.SCALE, CheckedMean.Count(rows));
      }
    }
  }

  // ---- Weighted mean ----

  function RowWeight(): CheckedWeighted.Weighed -> int {
    (x: CheckedWeighted.Weighed) => if x.value != None && x.weight != None then x.weight.value else 0
  }

  function RowProduct(): CheckedWeighted.Weighed -> int {
    (x: CheckedWeighted.Weighed) => if x.value != None && x.weight != None then x.value.value * x.weight.value else 0
  }

  lemma {:induction false} WeightedSums(rows: seq<CheckedWeighted.Weighed>)
    ensures CheckedWeighted.Weights(rows) == Adding(rows, RowWeight()) && CheckedWeighted.Products(rows) == Adding(rows, RowProduct())
  {
    if rows != [] {
      WeightedSums(rows[..|rows| - 1]);
      AddingLast(rows, RowWeight());
      AddingLast(rows, RowProduct());
    }
  }

  /** A run that succeeds saw no negative weight, and gives the sum of the products over the sum of the
    * weights of the rows with both, cut off after eighteen digits; NULL if the weights come to nothing. */
  lemma WeightedExactly(run: Run<CheckedWeighted.Weighed>)
    requires Fold(CheckedWeighted.WeightedOf(), run).Some?
    ensures forall x | x in Rows(run) && x.value != None && x.weight != None :: x.weight.value >= 0
    ensures
      var weights, products := Adding(Rows(run), RowWeight()), Adding(Rows(run), RowProduct());
      var result := CheckedWeighted.Finish(Fold(CheckedWeighted.WeightedOf(), run).value);
      && (weights == 0 ==> result == Some(None))
      && (weights != 0 ==> exists c :: result == Some(Some(c)) && CutOff(c, products * 1_000_000_000_000_000_000, weights))
  {
    var rows := Rows(run);
    var s := Fold(CheckedWeighted.WeightedOf(), run).value;
    WeightedSums(rows);
    CheckedWeighted.SuccessIsExact(run);
    CheckedWeighted.ProductsBound(rows);
    CheckedWeighted.WeightedMeanFits(rows, s);
    if CheckedWeighted.Weights(rows) > 0 {
      CutOffExactly(CheckedWeighted.Finish(s).value.value, CheckedWeighted.Products(rows) * CheckedMean.SCALE, CheckedWeighted.Weights(rows));
    }
  }

  // ---- Latest value ----

  /** Of a later time, or of the same time and a larger tie-break. */
  predicate Later(o: CheckedSnapshot.Observation, p: CheckedSnapshot.Observation)
    requires o.time.Some? && o.tie.Some? && p.time.Some? && p.tie.Some?
  {
    o.time.value > p.time.value || (o.time.value == p.time.value && o.tie.value > p.tie.value)
  }

  /** A run that succeeds gives the value of the observation that no other is later than; none is left
    * without its time and tie-break. */
  lemma LatestExactly(run: Run<CheckedSnapshot.Observation>)
    requires Fold(CheckedSnapshot.SnapshotOf(), run).Some?
    ensures forall o | o in Rows(run) :: o.time.Some? && o.tie.Some?
    ensures Fold(CheckedSnapshot.SnapshotOf(), run).value.None? <==> Rows(run) == []
    ensures Rows(run) != [] ==>
      var s := Fold(CheckedSnapshot.SnapshotOf(), run).value.value;
      exists o :: o in Rows(run) && s == CheckedSnapshot.Latest(o.time.value, o.tie.value, o.value) && forall p | p in Rows(run) :: !Later(p, o)
  {
    CheckedSnapshot.SuccessIsLatest(run);
    if Rows(run) != [] {
      var s := Fold(CheckedSnapshot.SnapshotOf(), run).value.value;
      var o :| o in Rows(run) && CheckedSnapshot.At(o) == s;
      forall p | p in Rows(run) ensures !Later(p, o) {
        assert CheckedSnapshot.At(p) == s || CheckedSnapshot.Before(CheckedSnapshot.At(p), s);
      }
    }
  }

  /** Every run succeeds exactly when every observation has a time and a tie-break, and two of the same
    * time and tie-break agree. */
  lemma LatestSucceeds(rows: seq<CheckedSnapshot.Observation>)
    ensures CheckedSnapshot.NoConflict(rows) <==>
      && (forall o | o in rows :: o.time.Some? && o.tie.Some?)
      && forall o, p | o in rows && p in rows && o.time == p.time && o.tie == p.tie :: o.value == p.value
  {
  }

  // ---- Sum ----

  function Amount(): CheckedSum.Cell -> int {
    (v: CheckedSum.Cell) => match v case Some(x) => x case None => 0
  }

  lemma {:induction false} SumIs(rows: seq<CheckedSum.Cell>)
    ensures CheckedSum.Total(rows) == Adding(rows, Amount())
  {
    if rows != [] {
      SumIs(rows[..|rows| - 1]);
      AddingLast(rows, Amount());
    }
  }

  /** The sum of the values present: NULL without any, refused outside the declared type. */
  lemma SumExactly(result: CheckedSum.Result, run: Run<CheckedSum.Cell>)
    requires |Rows(run)| <= I128_MAX
    ensures
      var sum := Adding(Rows(run), Amount());
      var holds := match result
        case Int64Result => -0x8000_0000_0000_0000 <= sum <= 0x7FFF_FFFF_FFFF_FFFF
        case DecimalResult(limit) => (if sum < 0 then -sum else sum) < limit;
      var read := Fold(CheckedSum.SumOf(), run);
      read.Some? && CheckedSum.Evaluate(result, read.value) ==
        if forall v | v in Rows(run) :: v == None then Some(None) else if holds then Some(Some(sum)) else None
  {
    SumIs(Rows(run));
    CheckedSum.RefusedExactly(result, run);
  }

  // ---- Distinct values ----

  /** The distinct values are counted, within the limit and no further. */
  lemma DistinctExactly(limit: nat, run: Run<CheckedDistinct.Cell>, v: I64)
    ensures Fold(CheckedDistinct.DistinctOf(limit), run).Some? <==> |set u: I64 | Some(u) in Rows(run)| <= limit
    ensures Fold(CheckedDistinct.DistinctOf(limit), run).Some? ==>
      (v in Fold(CheckedDistinct.DistinctOf(limit), run).value <==> Some(v) in Rows(run))
  {
    CheckedDistinct.DistinctExact(limit, run);
    assert CheckedDistinct.Seen(Rows(run)) == set u: I64 | Some(u) in Rows(run);
  }

  function Own(): I128 -> int {
    (v: I128) => v
  }

  lemma {:induction false} ListedSum(values: set<I128>, list: seq<I128>)
    requires (forall v :: v in list <==> v in values) && forall i, j | 0 <= i < j < |list| :: list[i] != list[j]
    ensures CheckedDistinctSum.Sum(values) == Adding(list, Own())
    decreases |list|
  {
    if list != [] {
      assert list[0] in list;
      CheckedDistinctSum.SumWithout(values, list[0]);
      forall v ensures v in list[1..] <==> v in values - {list[0]} {
        if v in values - {list[0]} { var i :| 0 <= i < |list| && list[i] == v; assert list[1..][i - 1] == v; }
      }
      ListedSum(values - {list[0]}, list[1..]);
    } else {
      assert values == {} by { assert forall v :: v in values ==> v in list; }
    }
  }

  /** The distinct sum is that of any list of the values present that repeats none. */
  lemma DistinctSumExactly(run: Run<CheckedDistinctSum.Cell>, list: seq<I128>)
    requires |Rows(run)| <= I128_MAX && (forall v :: v in list <==> Some(v) in Rows(run)) && forall i, j | 0 <= i < j < |list| :: list[i] != list[j]
    ensures
      var s := Fold(CheckedDistinctSum.DistinctSumOf(), run);
      s.Some? && s.value.total == Adding(list, Own()) && (s.value.seen <==> list != [])
  {
    CheckedDistinctSum.DistinctValuesDecide(run, run);
    var seen := CheckedDistinctSum.Seen(Rows(run));
    forall v ensures v in list <==> v in seen {}
    ListedSum(seen, list);
    if list != [] { assert list[0] in list; }
  }
}
