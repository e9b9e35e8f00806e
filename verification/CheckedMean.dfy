/** The exact mean of Int64 rows: a 256-bit sum and a 64-bit count. */
module CheckedMean {
  import opened AggregateRuns
  import opened RowBags
  import opened Widths
  import opened Wrappers

  /** Ten to the eighteenth, the scale of every mean. */
  const SCALE: int := 1_000_000_000_000_000_000
  /** The first magnitude a 38-digit decimal cannot hold. */
  const DECIMAL_LIMIT: int := 100_000_000_000_000_000_000_000_000_000_000_000_000

  datatype Mean = Mean(sum: I256, count: U64)

  type Cell = Option<I64>

  function Added(s: Mean, sum: int, count: int): Option<Mean> {
    if I256_MIN <= s.sum + sum <= I256_MAX && 0 <= s.count + count <= U64_MAX then Some(Mean(s.sum + sum, s.count + count)) else None
  }

  function AddCell(s: Mean, v: Cell): Option<Mean> {
    if v.None? then Some(s) else Added(s, v.value, 1)
  }

  /** An empty state travels as NULL and is skipped. */
  function MergeMean(s: Mean, t: Mean): Option<Mean> {
    if t.count == 0 then Some(s) else Added(s, t.sum, t.count)
  }

  function MeanOf(): Accumulator<Cell, Mean> {
    Accumulator(Mean(0, 0), (s: Mean, v: Cell) => AddCell(s, v), (s: Mean, t: Mean) => MergeMean(s, t))
  }

  /** Division rounding towards zero. */
  function Trunc(a: int, b: int): int
    requires b > 0
  {
    if a < 0 then -(-a / b) else a / b
  }

  /** NULL for no rows; otherwise the coefficient at scale 18, or an error. */
  function Evaluate(s: Mean): Option<Option<int>> {
    if s.count == 0 then Some(None)
    else if !(I256_MIN <= s.sum * SCALE <= I256_MAX) then None
    else
      var c := Trunc(s.sum * SCALE, s.count);
      if !(I128_MIN <= c <= I128_MAX) || Abs(c) >= DECIMAL_LIMIT then None else Some(Some(c))
  }

  /** The catalog's form keeps the product in 128 bits. */
  function CatalogFinalize(sum: I128, count: U64): Option<Option<int>> {
    if count == 0 then Some(None)
    else if !(I128_MIN <= sum * SCALE <= I128_MAX) then None
    else Some(Some(Trunc(sum * SCALE, count)))
  }

  // ---- What a state means ----

  function Count(rows: seq<Cell>): nat {
    if rows == [] then 0 else Count(rows[..|rows| - 1]) + if rows[|rows| - 1].Some? then 1 else 0
  }

  function Sum(rows: seq<Cell>): int {
    if rows == [] then 0 else Sum(rows[..|rows| - 1]) + if rows[|rows| - 1].Some? then rows[|rows| - 1].value else 0
  }

  lemma {:induction false} Concat(a: seq<Cell>, b: seq<Cell>)
    ensures Count(a + b) == Count(a) + Count(b) && Sum(a + b) == Sum(a) + Sum(b)
  {
    if b == [] {
      assert a + b == a;
    } else {
      assert (a + b)[..|a + b| - 1] == a + b[..|b| - 1];
      Concat(a, b[..|b| - 1]);
    }
  }

  lemma {:induction false} SumBound(rows: seq<Cell>)
    ensures Abs(Sum(rows)) <= Count(rows) * (I64_MAX + 1)
  {
    if rows != [] { SumBound(rows[..|rows| - 1]); }
  }

  ghost predicate Means(rows: seq<Cell>, s: Mean) {
    s.sum == Sum(rows) && s.count == Count(rows)
  }

  ghost predicate Countable(rows: seq<Cell>) {
    Count(rows) <= U64_MAX
  }

  ghost function Meaning(): (seq<Cell>, Mean) -> bool {
    (rows: seq<Cell>, s: Mean) => Means(rows, s)
  }

  ghost function Good(): seq<Cell> -> bool {
    (rows: seq<Cell>) => Countable(rows)
  }

  /** On a countable number of Int64 rows the 256-bit sum has room to spare. */
  lemma SumFits(rows: seq<Cell>)
    requires Countable(rows)
    ensures I256_MIN <= Sum(rows) <= I256_MAX && Abs(Sum(rows)) <= (I64_MAX + 1) * U64_MAX
  {
    SumBound(rows);
  }

  lemma AddCellMeans(a: seq<Cell>, s: Mean, x: Cell)
    requires Means(a, s)
    ensures AddCell(s, x).Some? ==> Means(a + [x], AddCell(s, x).value)
    ensures Countable(a + [x]) ==> AddCell(s, x).Some?
  {
    assert (a + [x])[..|a|] == a;
    if Countable(a + [x]) { SumFits(a + [x]); }
  }

  lemma MergeMeans(a: seq<Cell>, s: Mean, b: seq<Cell>, t: Mean)
    requires Means(a, s) && Means(b, t)
    ensures MergeMean(s, t).Some? ==> Means(a + b, MergeMean(s, t).value)
    ensures Countable(a + b) ==> MergeMean(s, t).Some?
  {
    Concat(a, b);
    SumBound(b);
    if Countable(a + b) { SumFits(a + b); }
  }

  lemma MeanLaws()
    ensures Sound(MeanOf(), Meaning()) && Total(MeanOf(), Meaning(), Good())
    ensures forall rows, s :: Meaning()(rows, s) ==> Good()(rows)
  {
    forall a, s, x | Means(a, s)
      ensures AddCell(s, x).Some? ==> Means(a + [x], AddCell(s, x).value)
      ensures Countable(a + [x]) ==> AddCell(s, x).Some?
    {
      AddCellMeans(a, s, x);
    }
    forall a, s, b, t | Means(a, s) && Means(b, t)
      ensures MergeMean(s, t).Some? ==> Means(a + b, MergeMean(s, t).value)
      ensures Countable(a + b) ==> MergeMean(s, t).Some?
    {
      MergeMeans(a, s, b, t);
    }
    forall a, b | Countable(a + b) ensures Countable(a) && Countable(b) { Concat(a, b); }
  }

  lemma {:induction false} BagSums(a: seq<Cell>, b: seq<Cell>)
    requires SameBag(a, b)
    ensures Count(a) == Count(b) && Sum(a) == Sum(b)
  {
    if a == [] {
      SameBagMembers(a, b);
    } else {
      var k := WithoutSameBag(a, b);
      BagSums(a[1..], b[..k] + b[k + 1..]);
      WithoutOne(a, 0);
      WithoutOne(b, k);
      assert a[..0] + a[1..] == a[1..];
    }
  }

  lemma {:induction false} WithoutOne(s: seq<Cell>, k: nat)
    requires k < |s|
    ensures Count(s) == Count(s[..k] + s[k + 1..]) + Count([s[k]]) && Sum(s) == Sum(s[..k] + s[k + 1..]) + Sum([s[k]])
  {
    Pieces(s[..k], [s[k]], s[k + 1..]);
    assert s == s[..k] + ([s[k]] + s[k + 1..]);
  }

  lemma {:induction false} Pieces(a: seq<Cell>, x: seq<Cell>, b: seq<Cell>)
    ensures Count(a + (x + b)) == Count(a + b) + Count(x) && Sum(a + (x + b)) == Sum(a + b) + Sum(x)
  {
    Concat(a, x + b);
    Concat(x, b);
    Concat(a, b);
  }

  /** Any two runs over the same rows, however batched and merged, succeed or fail
    * alike and reach the same state. */
  lemma {:induction false} BatchingDoesNotMatter(a: Run<Cell>, b: Run<Cell>)
    requires multiset(Rows(a)) == multiset(Rows(b))
    ensures Fold(MeanOf(), a) == Fold(MeanOf(), b)
    ensures Fold(MeanOf(), a).Some? <==> Count(Rows(a)) <= U64_MAX
  {
    MeanLaws();
    FoldExact(MeanOf(), Meaning(), Good(), a);
    FoldExact(MeanOf(), Meaning(), Good(), b);
    BagSums(Rows(a), Rows(b));
  }

  // ---- The value ----

  /** `c` is the quotient of `a` by `b` without its fraction. */
  ghost predicate IsTruncated(c: int, a: int, b: int) {
    && Abs(c) * b <= Abs(a) < Abs(c) * b + b
    && (c > 0 ==> a >= 0) && (c < 0 ==> a <= 0)
  }

  lemma QuotientBounds(n: nat, b: nat)
    requires b > 0
    ensures n / b >= 0 && n / b * b <= n < n / b * b + b
  {
  }

  lemma TruncIs(a: int, b: int)
    requires b > 0
    ensures IsTruncated(Trunc(a, b), a, b)
  {
    QuotientBounds(Abs(a), b);
  }

  lemma TruncBound(a: int, b: int, limit: nat)
    requires b > 0 && Abs(a) <= limit * b
    ensures Abs(Trunc(a, b)) <= limit
  {
    TruncIs(a, b);
    var c := Abs(Trunc(a, b));
    if c > limit { Bigger(limit + 1, c, b); }
  }

  lemma Bigger(a: int, b: int, d: nat)
    requires a <= b
    ensures a * d <= b * d && (a - 1) * d == a * d - d
  {
  }

  /** The mean of a run of Int64 rows never overflows its 38 digits and is the exact
    * quotient cut off after 18 decimals. */
  lemma MeanFits(rows: seq<Cell>, s: Mean)
    requires Means(rows, s)
    ensures Count(rows) == 0 ==> Evaluate(s) == Some(None)
    ensures Count(rows) > 0 ==>
      && Evaluate(s).Some? && Evaluate(s).value.Some?
      && IsTruncated(Evaluate(s).value.value, Sum(rows) * SCALE, Count(rows))
  {
    SumFits(rows);
    SumBound(rows);
    if Count(rows) > 0 {
      TruncIs(s.sum * SCALE, s.count);
      Scaled(s.sum, s.count);
      TruncBound(s.sum * SCALE, s.count, (I64_MAX + 1) * SCALE);
    }
  }

  lemma Scaled(sum: int, count: int)
    requires count > 0 && Abs(sum) <= count * (I64_MAX + 1)
    ensures Abs(sum * SCALE) <= ((I64_MAX + 1) * SCALE) * count
  {
  }

  /** The catalog's 128-bit form agrees wherever its product fits, and only there. */
  lemma CatalogAgrees(rows: seq<Cell>, s: Mean)
    requires Means(rows, s) && I128_MIN <= s.sum <= I128_MAX
    ensures CatalogFinalize(s.sum, s.count) == Evaluate(s) <==> s.count == 0 || I128_MIN <= s.sum * SCALE <= I128_MAX
  {
    MeanFits(rows, s);
  }

  function Repeated(n: nat, v: I64): seq<Cell> {
    seq(n, _ => Some(v))
  }

  lemma {:induction false} RepeatedCell(n: nat, v: I64)
    ensures Count(Repeated(n, v)) == n && Sum(Repeated(n, v)) == n * v
  {
    if n > 0 {
      var rows := Repeated(n, v);
      RepeatedCell(n - 1, v);
      assert rows[..n - 1] == Repeated(n - 1, v);
      assert (n - 1) * v == n * v - v;
    }
  }

  lemma MeanOfRepeated(n: nat, v: I64)
    requires n <= U64_MAX && I256_MIN <= n * v <= I256_MAX
    ensures Fold(MeanOf(), InOrder(Repeated(n, v))) == Some(Mean(n * v, n))
  {
    var rows := Repeated(n, v);
    RepeatedCell(n, v);
    InOrderAll(rows);
    MeanLaws();
    FoldExact(MeanOf(), Meaning(), Good(), InOrder(rows));
  }

  /** Nineteen rows suffice for the catalog to refuse a mean that the engine returns. */
  lemma {:induction false} CatalogRefusesMean()
    ensures Fold(MeanOf(), InOrder(Repeated(19, I64_MAX))) == Some(Mean(19 * I64_MAX, 19))
    ensures Evaluate(Mean(19 * I64_MAX, 19)) == Some(Some(I64_MAX * SCALE))
    ensures CatalogFinalize(19 * I64_MAX, 19) == None
  {
    MeanOfRepeated(19, I64_MAX);
  }

  // ---- The accumulator ----

  class MeanState {
    var sum: I256
    var count: U64

    function State(): Mean
      reads this
    {
      Mean(sum, count)
    }

    constructor ()
      ensures State() == MeanOf().empty
    {
      sum, count := 0, 0;
    }

    method Add(more: I256, rows: U64) returns (ok: bool)
      modifies this
      ensures ok <==> Added(old(State()), more, rows).Some?
      ensures State() == if ok then Added(old(State()), more, rows).value else old(State())
    {
      if sum + more < I256_MIN || sum + more > I256_MAX || count + rows > U64_MAX { return false; }
      sum := sum + more;
      count := count + rows;
      return true;
    }

    method UpdateBatch(values: seq<Cell>) returns (ok: bool)
      modifies this
      ensures ok <==> Through(MeanOf(), old(State()), values).Some?
      ensures ok ==> State() == Through(MeanOf(), old(State()), values).value
    {
      for i := 0 to |values|
        invariant Through(MeanOf(), old(State()), values[..i]) == Some(State())
      {
        ThroughStep(MeanOf(), old(State()), values, i);
        if values[i].Some? {
          var added := Add(values[i].value, 1);
          if !added {
            ThroughFails(MeanOf(), old(State()), values, i + 1);
            return false;
          }
        }
      }
      assert values[..|values|] == values;
      return true;
    }

    method Merge(other: Mean) returns (ok: bool)
      modifies this
      ensures ok <==> MergeMean(old(State()), other).Some?
      ensures ok ==> State() == MergeMean(old(State()), other).value
    {
      if other.count == 0 { return true; }
      ok := Add(other.sum, other.count);
    }
  }
}
