/** The exact sum: 256 bits wide while rows and partial sums are merged, checked when it is read. */
module CheckedSum {
  import opened AggregateRuns
  import CheckedMean
  import opened RowBags
  import opened Widths
  import opened Wrappers

  type Cell = Option<I128>

  datatype Sum = Sum(total: I256, seen: bool)

  /** Ten to the power of a declared precision, of which there are 38 at most. */
  type Limit = x: int | 0 < x <= CheckedMean.DECIMAL_LIMIT witness 1

  datatype Result = Int64Result | DecimalResult(limit: Limit)

  function Plus(s: Sum, v: int): Option<Sum> {
    if I256_MIN <= s.total + v <= I256_MAX then Some(Sum(s.total + v, true)) else None
  }

  function AddCell(s: Sum, v: Cell): Option<Sum> {
    if v.None? then Some(s) else Plus(s, v.value)
  }

  function MergeSum(s: Sum, t: Sum): Option<Sum> {
    if !t.seen then Some(s) else Plus(s, t.total)
  }

  function SumOf(): Accumulator<Cell, Sum> {
    Accumulator(Sum(0, false), (s: Sum, v: Cell) => AddCell(s, v), (s: Sum, t: Sum) => MergeSum(s, t))
  }

  /** NULL for no value; a value outside the declared type is an error. */
  function Evaluate(result: Result, s: Sum): Option<Option<int>> {
    if !s.seen then Some(None)
    else if !(I128_MIN <= s.total <= I128_MAX) then None
    else match result
      case Int64Result => if I64_MIN <= s.total <= I64_MAX then Some(Some(s.total)) else None
      case DecimalResult(limit) => if Abs(s.total) < limit then Some(Some(s.total)) else None
  }

  /** What the declared type of the result can hold. */
  predicate Holds(result: Result, total: int) {
    match result
    case Int64Result => I64_MIN <= total <= I64_MAX
    case DecimalResult(limit) => Abs(total) < limit
  }

  function Total(rows: seq<Cell>): int {
    if rows == [] then 0 else Total(rows[..|rows| - 1]) + if rows[|rows| - 1].Some? then rows[|rows| - 1].value else 0
  }

  predicate AnyValue(rows: seq<Cell>) {
    exists v :: v in rows && v.Some?
  }

  lemma {:induction false} TotalConcat(a: seq<Cell>, b: seq<Cell>)
    ensures Total(a + b) == Total(a) + Total(b)
  {
    if b == [] {
      assert a + b == a;
    } else {
      assert (a + b)[..|a + b| - 1] == a + b[..|b| - 1];
      TotalConcat(a, b[..|b| - 1]);
    }
  }

  lemma {:induction false} TotalBound(rows: seq<Cell>)
    ensures -|rows| * (I128_MAX + 1) <= Total(rows) <= |rows| * (I128_MAX + 1)
  {
    if rows != [] { TotalBound(rows[..|rows| - 1]); }
  }

  ghost predicate IsSum(rows: seq<Cell>, s: Sum) {
    s.total == Total(rows) && s.seen == AnyValue(rows)
  }

  /** More rows than this no storage holds; up to it 256 bits always suffice. */
  ghost predicate Countable(rows: seq<Cell>) {
    |rows| <= I128_MAX
  }

  ghost function Meaning(): (seq<Cell>, Sum) -> bool {
    (rows: seq<Cell>, s: Sum) => IsSum(rows, s)
  }

  ghost function Good(): seq<Cell> -> bool {
    (rows: seq<Cell>) => Countable(rows)
  }

  lemma TotalFits(rows: seq<Cell>)
    requires Countable(rows)
    ensures I256_MIN <= Total(rows) <= I256_MAX
  {
    TotalBound(rows);
  }

  lemma AnyConcat(a: seq<Cell>, b: seq<Cell>)
    ensures AnyValue(a + b) <==> AnyValue(a) || AnyValue(b)
  {
    forall v | v in a || v in b ensures v in a + b {}
  }

  lemma AddCellMeans(a: seq<Cell>, s: Sum, x: Cell)
    requires IsSum(a, s)
    ensures AddCell(s, x).Some? ==> IsSum(a + [x], AddCell(s, x).value)
    ensures Countable(a + [x]) ==> AddCell(s, x).Some?
  {
    assert (a + [x])[..|a|] == a;
    AnyConcat(a, [x]);
    assert x in [x];
    if Countable(a + [x]) { TotalFits(a + [x]); }
  }

  lemma NoValue(rows: seq<Cell>)
    requires !AnyValue(rows)
    ensures Total(rows) == 0
  {
    if rows != [] {
      assert rows[|rows| - 1] in rows;
      forall v | v in rows[..|rows| - 1] ensures v in rows {}
      NoValue(rows[..|rows| - 1]);
    }
  }

  lemma MergeSumMeans(a: seq<Cell>, s: Sum, b: seq<Cell>, t: Sum)
    requires IsSum(a, s) && IsSum(b, t)
    ensures MergeSum(s, t).Some? ==> IsSum(a + b, MergeSum(s, t).value)
    ensures Countable(a + b) ==> MergeSum(s, t).Some?
  {
    TotalConcat(a, b);
    AnyConcat(a, b);
    if !t.seen { NoValue(b); }
    if Countable(a + b) { TotalFits(a + b); }
  }

  lemma SumLaws()
    ensures Sound(SumOf(), Meaning()) && AggregateRuns.Total(SumOf(), Meaning(), Good())
  {
    assert !AnyValue([]);
    forall a, s, x | IsSum(a, s)
      ensures AddCell(s, x).Some? ==> IsSum(a + [x], AddCell(s, x).value)
      ensures Countable(a + [x]) ==> AddCell(s, x).Some?
    {
      AddCellMeans(a, s, x);
    }
    forall a, s, b, t | IsSum(a, s) && IsSum(b, t)
      ensures MergeSum(s, t).Some? ==> IsSum(a + b, MergeSum(s, t).value)
      ensures Countable(a + b) ==> MergeSum(s, t).Some?
    {
      MergeSumMeans(a, s, b, t);
    }
  }

  lemma {:induction false} BagTotals(a: seq<Cell>, b: seq<Cell>)
    requires SameBag(a, b)
    ensures Total(a) == Total(b)
  {
    if a == [] {
      SameBagMembers(a, b);
    } else {
      var k := WithoutSameBag(a, b);
      BagTotals(a[1..], b[..k] + b[k + 1..]);
      WithoutOne(a, 0);
      WithoutOne(b, k);
      assert a[..0] + a[1..] == a[1..];
    }
  }

  lemma Around(a: seq<Cell>, x: Cell, b: seq<Cell>)
    ensures Total(a + ([x] + b)) == Total(a + b) + Total([x])
  {
    TotalConcat(a, [x] + b);
    TotalConcat([x], b);
    TotalConcat(a, b);
  }

  lemma WithoutOne(s: seq<Cell>, k: nat)
    requires k < |s|
    ensures Total(s) == Total(s[..k] + s[k + 1..]) + Total([s[k]])
  {
    assert s == s[..k] + ([s[k]] + s[k + 1..]);
    Around(s[..k], s[k], s[k + 1..]);
  }

  /** Every run over the same rows succeeds with the same state. */
  lemma {:induction false} BatchingDoesNotMatter(a: Run<Cell>, b: Run<Cell>)
    requires SameBag(Rows(a), Rows(b)) && |Rows(a)| <= I128_MAX
    ensures Fold(SumOf(), a).Some? && Fold(SumOf(), a) == Fold(SumOf(), b)
    ensures Fold(SumOf(), a).value.total == Total(Rows(a)) && Fold(SumOf(), a).value.seen == AnyValue(Rows(a))
  {
    SumLaws();
    SameBagMembers(Rows(a), Rows(b));
    FoldSucceeds(SumOf(), Meaning(), Good(), a, a.steps);
    FoldSucceeds(SumOf(), Meaning(), Good(), b, b.steps);
    FoldMeans(SumOf(), Meaning(), a, a.steps);
    FoldMeans(SumOf(), Meaning(), b, b.steps);
    BagTotals(Rows(a), Rows(b));
  }

  /** Read in any order, batching or merge tree, a sum is NULL exactly without values and is
    * refused exactly when the declared type cannot hold it; running over on the way is no reason. */
  lemma {:induction false} RefusedExactly(result: Result, run: Run<Cell>)
    requires |Rows(run)| <= I128_MAX
    ensures Fold(SumOf(), run).Some?
    ensures
      var read := Evaluate(result, Fold(SumOf(), run).value);
      && (read == Some(None) <==> !AnyValue(Rows(run)))
      && (read == None <==> AnyValue(Rows(run)) && !Holds(result, Total(Rows(run))))
      && (read.Some? && read.value.Some? ==> read.value.value == Total(Rows(run)))
  {
    BatchingDoesNotMatter(run, run);
  }

  class SumState {
    var total: I256
    var seen: bool

    function State(): Sum
      reads this
    {
      Sum(total, seen)
    }

    constructor ()
      ensures State() == SumOf().empty
    {
      total, seen := 0, false;
    }

    method Add(v: I256) returns (ok: bool)
      modifies this
      ensures ok <==> Plus(old(State()), v).Some?
      ensures State() == if ok then Plus(old(State()), v).value else old(State())
    {
      if total + v < I256_MIN || total + v > I256_MAX { return false; }
      total := total + v;
      seen := true;
      return true;
    }

    method Merge(other: Sum) returns (ok: bool)
      modifies this
      ensures ok <==> MergeSum(old(State()), other).Some?
      ensures ok ==> State() == MergeSum(old(State()), other).value
    {
      if !other.seen { return true; }
      ok := Add(other.total);
    }

    method UpdateBatch(rows: seq<Cell>) returns (ok: bool)
      modifies this
      ensures ok <==> Through(SumOf(), old(State()), rows).Some?
      ensures ok ==> State() == Through(SumOf(), old(State()), rows).value
    {
      for i := 0 to |rows|
        invariant Through(SumOf(), old(State()), rows[..i]) == Some(State())
      {
        ThroughStep(SumOf(), old(State()), rows, i);
        if rows[i].Some? {
          var added := Add(rows[i].value);
          if !added {
            ThroughFails(SumOf(), old(State()), rows, i + 1);
            return false;
          }
        }
      }
      assert rows[..|rows|] == rows;
      return true;
    }
  }
}
