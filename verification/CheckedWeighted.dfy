/** The exact weighted mean; its 128-bit components may overflow in one order and not in another. */
module CheckedWeighted {
  import opened AggregateRuns
  import opened CheckedMean
  import opened RowBags
  import opened Widths
  import opened Wrappers

  /** A value and its weight; a row with either missing is skipped. */
  datatype Weighed = Weighed(value: Option<I64>, weight: Option<I64>)

  datatype Weighted = Weighted(weightedSum: I128, weightSum: I128, seen: bool)

  function Accumulate(s: Weighted, weighted: int, weight: int): Option<Weighted> {
    if weight < 0 then None
    else if !(I128_MIN <= s.weightedSum + weighted <= I128_MAX) then None
    else if !(I128_MIN <= s.weightSum + weight <= I128_MAX) then None
    else Some(Weighted(s.weightedSum + weighted, s.weightSum + weight, true))
  }

  predicate Counts(x: Weighed) {
    x.value.Some? && x.weight.Some?
  }

  /** The product of two 64-bit numbers always fits 128 bits. */
  function AddWeighed(s: Weighted, x: Weighed): Option<Weighted> {
    if !Counts(x) then Some(s) else Accumulate(s, x.value.value * x.weight.value, x.weight.value)
  }

  function MergeWeighted(s: Weighted, t: Weighted): Option<Weighted> {
    if !t.seen then Some(s) else Accumulate(s, t.weightedSum, t.weightSum)
  }

  function WeightedOf(): Accumulator<Weighed, Weighted> {
    Accumulator(Weighted(0, 0, false), (s: Weighted, x: Weighed) => AddWeighed(s, x), (s: Weighted, t: Weighted) => MergeWeighted(s, t))
  }

  /** NULL without weight; the weight of a state is never negative. */
  function Finish(s: Weighted): Option<Option<int>> {
    if !s.seen || s.weightSum <= 0 then Some(None)
    else if !(I256_MIN <= s.weightedSum * SCALE <= I256_MAX) then None
    else
      var c := Trunc(s.weightedSum * SCALE, s.weightSum);
      if !(I128_MIN <= c <= I128_MAX) || Abs(c) >= DECIMAL_LIMIT then None else Some(Some(c))
  }

  // ---- What a state means ----

  function Tally(f: Weighed -> int, rows: seq<Weighed>): int {
    if rows == [] then 0 else Tally(f, rows[..|rows| - 1]) + f(rows[|rows| - 1])
  }

  function WeightOf(x: Weighed): int {
    if Counts(x) then x.weight.value else 0
  }

  function ProductOf(x: Weighed): int {
    if Counts(x) then x.value.value * x.weight.value else 0
  }

  function Weights(rows: seq<Weighed>): int {
    Tally(WeightOf, rows)
  }

  function Products(rows: seq<Weighed>): int {
    Tally(ProductOf, rows)
  }

  predicate AnyCounts(rows: seq<Weighed>) {
    exists x :: x in rows && Counts(x)
  }

  lemma {:induction false} TallyConcat(f: Weighed -> int, a: seq<Weighed>, b: seq<Weighed>)
    ensures Tally(f, a + b) == Tally(f, a) + Tally(f, b)
  {
    if b == [] {
      assert a + b == a;
    } else {
      assert (a + b)[..|a + b| - 1] == a + b[..|b| - 1];
      TallyConcat(f, a, b[..|b| - 1]);
    }
  }

  lemma SumsConcat(a: seq<Weighed>, b: seq<Weighed>)
    ensures Weights(a + b) == Weights(a) + Weights(b) && Products(a + b) == Products(a) + Products(b)
  {
    TallyConcat(WeightOf, a, b);
    TallyConcat(ProductOf, a, b);
  }

  ghost predicate IsWeighted(rows: seq<Weighed>, s: Weighted) {
    && s.weightedSum == Products(rows) && s.weightSum == Weights(rows) && s.seen == AnyCounts(rows)
    && forall x | x in rows && Counts(x) :: x.weight.value >= 0
  }

  ghost function WeightedMeaning(): (seq<Weighed>, Weighted) -> bool {
    (rows: seq<Weighed>, s: Weighted) => IsWeighted(rows, s)
  }

  lemma AddWeighedMeans(a: seq<Weighed>, s: Weighted, x: Weighed)
    requires IsWeighted(a, s) && AddWeighed(s, x).Some?
    ensures IsWeighted(a + [x], AddWeighed(s, x).value)
  {
    assert (a + [x])[..|a|] == a && x in a + [x];
    if AnyCounts(a) {
      var y :| y in a && Counts(y);
      assert y in a + [x];
    }
  }

  lemma {:induction false} NothingCounts(rows: seq<Weighed>)
    requires !AnyCounts(rows)
    ensures Weights(rows) == 0 && Products(rows) == 0
  {
    if rows != [] {
      assert rows[|rows| - 1] in rows;
      forall x | x in rows[..|rows| - 1] ensures x in rows {}
      NothingCounts(rows[..|rows| - 1]);
    }
  }

  lemma MergeWeightedMeans(a: seq<Weighed>, s: Weighted, b: seq<Weighed>, t: Weighted)
    requires IsWeighted(a, s) && IsWeighted(b, t) && MergeWeighted(s, t).Some?
    ensures IsWeighted(a + b, MergeWeighted(s, t).value)
  {
    SumsConcat(a, b);
    if !t.seen { NothingCounts(b); }
    if AnyCounts(a) {
      var y :| y in a && Counts(y);
      assert y in a + b;
    }
    if AnyCounts(b) {
      var y :| y in b && Counts(y);
      assert y in a + b;
    }
  }

  lemma WeightedLaws()
    ensures Sound(WeightedOf(), WeightedMeaning())
  {
    assert !AnyCounts([]);
    forall a, s, x | IsWeighted(a, s) && AddWeighed(s, x).Some? ensures IsWeighted(a + [x], AddWeighed(s, x).value) {
      AddWeighedMeans(a, s, x);
    }
    forall a, s, b, t | IsWeighted(a, s) && IsWeighted(b, t) && MergeWeighted(s, t).Some? ensures IsWeighted(a + b, MergeWeighted(s, t).value) {
      MergeWeightedMeans(a, s, b, t);
    }
  }

  /** A successful run holds the exact sums of its rows, none of them with a negative
    * weight; so successful runs over the same rows agree. */
  lemma SuccessIsExact(run: Run<Weighed>)
    requires Fold(WeightedOf(), run).Some?
    ensures IsWeighted(Rows(run), Fold(WeightedOf(), run).value)
  {
    WeightedLaws();
    FoldMeans(WeightedOf(), WeightedMeaning(), run, run.steps);
  }

  lemma NegativeWeightFails(run: Run<Weighed>, x: Weighed)
    requires x in Rows(run) && Counts(x) && x.weight.value < 0
    ensures Fold(WeightedOf(), run).None?
  {
    if Fold(WeightedOf(), run).Some? { SuccessIsExact(run); }
  }

  lemma ProductBound(v: I64, w: nat)
    ensures Abs(v * w) <= w * (I64_MAX + 1)
  {
    Bigger(Abs(v), I64_MAX + 1, w);
    if v < 0 { assert (0 - v) * w == 0 - v * w; }
  }

  lemma {:induction false} ProductsBound(rows: seq<Weighed>)
    requires forall x | x in rows && Counts(x) :: x.weight.value >= 0
    ensures Weights(rows) >= 0 && Abs(Products(rows)) <= Weights(rows) * (I64_MAX + 1)
  {
    if rows != [] {
      var last := rows[|rows| - 1];
      assert last in rows;
      forall x | x in rows[..|rows| - 1] ensures x in rows {}
      ProductsBound(rows[..|rows| - 1]);
      if Counts(last) { ProductBound(last.value.value, last.weight.value); }
    }
  }

  /** A weighted mean that was not refused fits its 38 digits and is the exact
    * quotient cut off after 18 decimals. */
  lemma WeightedMeanFits(rows: seq<Weighed>, s: Weighted)
    requires IsWeighted(rows, s)
    ensures Weights(rows) == 0 ==> Finish(s) == Some(None)
    ensures Weights(rows) > 0 ==>
      && Finish(s).Some? && Finish(s).value.Some?
      && IsTruncated(Finish(s).value.value, Products(rows) * SCALE, Weights(rows))
  {
    ProductsBound(rows);
    if Weights(rows) > 0 {
      if !AnyCounts(rows) { NothingCounts(rows); }
      TruncIs(s.weightedSum * SCALE, s.weightSum);
      Scaled(s.weightedSum, s.weightSum);
      TruncBound(s.weightedSum * SCALE, s.weightSum, (I64_MAX + 1) * SCALE);
    }
  }

  // ---- Overflow depends on the order ----

  function GainOf(x: Weighed): int {
    if ProductOf(x) > 0 then ProductOf(x) else 0
  }

  function LossOf(x: Weighed): int {
    if ProductOf(x) < 0 then -ProductOf(x) else 0
  }

  /** No weight is negative, and the weights, the positive and the negative products
    * each fit on their own. */
  ghost predicate HasRoom(rows: seq<Weighed>) {
    && (forall x | x in rows && Counts(x) :: x.weight.value >= 0)
    && Weights(rows) <= I128_MAX && Tally(GainOf, rows) <= I128_MAX && -Tally(LossOf, rows) >= I128_MIN
  }

  ghost function Room(): seq<Weighed> -> bool {
    (rows: seq<Weighed>) => HasRoom(rows)
  }

  lemma {:induction false} TallyNat(f: Weighed -> int, rows: seq<Weighed>)
    requires forall x | x in rows :: f(x) >= 0
    ensures Tally(f, rows) >= 0
  {
    if rows != [] {
      assert rows[|rows| - 1] in rows;
      forall x | x in rows[..|rows| - 1] ensures x in rows {}
      TallyNat(f, rows[..|rows| - 1]);
    }
  }

  lemma {:induction false} GainsAndLosses(rows: seq<Weighed>)
    ensures Products(rows) == Tally(GainOf, rows) - Tally(LossOf, rows)
  {
    if rows != [] { GainsAndLosses(rows[..|rows| - 1]); }
  }

  lemma {:induction false} TallyBag(f: Weighed -> int, a: seq<Weighed>, b: seq<Weighed>)
    requires SameBag(a, b)
    ensures Tally(f, a) == Tally(f, b)
  {
    if a == [] {
      SameBagMembers(a, b);
    } else {
      var k := WithoutSameBag(a, b);
      TallyBag(f, a[1..], b[..k] + b[k + 1..]);
      TallyWithout(f, a, 0);
      TallyWithout(f, b, k);
      assert a[..0] + a[1..] == a[1..];
    }
  }

  lemma {:induction false} TallyWithout(f: Weighed -> int, s: seq<Weighed>, k: nat)
    requires k < |s|
    ensures Tally(f, s) == Tally(f, s[..k] + s[k + 1..]) + f(s[k])
  {
    TallyPieces(f, s[..k], s[k], s[k + 1..]);
    assert s == s[..k] + ([s[k]] + s[k + 1..]);
  }

  lemma {:induction false} TallyOne(f: Weighed -> int, x: Weighed)
    ensures Tally(f, [x]) == f(x)
  {
    assert [x][..0] == [];
  }

  lemma {:induction false} TallyPieces(f: Weighed -> int, a: seq<Weighed>, x: Weighed, b: seq<Weighed>)
    ensures Tally(f, a + ([x] + b)) == Tally(f, a + b) + f(x)
  {
    TallyConcat(f, a, [x] + b);
    TallyConcat(f, [x], b);
    TallyConcat(f, a, b);
    TallyOne(f, x);
  }

  lemma RoomInBag(a: seq<Weighed>, b: seq<Weighed>)
    requires SameBag(a, b)
    ensures HasRoom(a) <==> HasRoom(b)
  {
    SameBagMembers(a, b);
    TallyBag(WeightOf, a, b);
    TallyBag(GainOf, a, b);
    TallyBag(LossOf, a, b);
  }

  lemma RoomInParts(a: seq<Weighed>, b: seq<Weighed>)
    requires HasRoom(a + b)
    ensures HasRoom(a) && HasRoom(b)
    ensures I128_MIN <= Products(a + b) <= I128_MAX
  {
    forall x | x in a || x in b ensures x in a + b {}
    Nonnegative(a);
    Nonnegative(b);
    TallyConcat(WeightOf, a, b);
    TallyConcat(GainOf, a, b);
    TallyConcat(LossOf, a, b);
    GainsAndLosses(a + b);
  }

  lemma Nonnegative(rows: seq<Weighed>)
    requires forall x | x in rows && Counts(x) :: x.weight.value >= 0
    ensures Weights(rows) >= 0 && Tally(GainOf, rows) >= 0 && Tally(LossOf, rows) >= 0
  {
    TallyNat(WeightOf, rows);
    TallyNat(GainOf, rows);
    TallyNat(LossOf, rows);
  }

  lemma RoomSuffices(a: seq<Weighed>, s: Weighted, b: seq<Weighed>, t: Weighted)
    requires IsWeighted(a, s) && IsWeighted(b, t) && HasRoom(a + b)
    ensures MergeWeighted(s, t).Some?
  {
    RoomInParts(a, b);
    SumsConcat(a, b);
    Nonnegative(b);
    Nonnegative(a);
  }

  lemma RoomForRow(a: seq<Weighed>, s: Weighted, x: Weighed)
    requires IsWeighted(a, s) && HasRoom(a + [x])
    ensures AddWeighed(s, x).Some?
  {
    if Counts(x) {
      assert x in [x];
      TallyOne(WeightOf, x);
      TallyOne(ProductOf, x);
      ProductFits(x.value.value, x.weight.value);
      RoomInParts(a, [x]);
      RoomSuffices(a, s, [x], Weighted(ProductOf(x), WeightOf(x), true));
    }
  }

  lemma RoomIsEnough(run: Run<Weighed>)
    requires HasRoom(Rows(run))
    ensures Fold(WeightedOf(), run).Some?
  {
    WeightedLaws();
    forall a, b | HasRoom(a + b) ensures HasRoom(a) && HasRoom(b) { RoomInParts(a, b); }
    forall a, s, x | IsWeighted(a, s) && HasRoom(a + [x]) ensures AddWeighed(s, x).Some? { RoomForRow(a, s, x); }
    forall a, s, b, t | IsWeighted(a, s) && IsWeighted(b, t) && HasRoom(a + b) ensures MergeWeighted(s, t).Some? { RoomSuffices(a, s, b, t); }
    FoldSucceeds(WeightedOf(), WeightedMeaning(), Room(), run, run.steps);
  }

  /** The rows whose products have the given sign, or the others. */
  function Those(positive: bool, kept: bool, rows: seq<Weighed>): seq<Weighed> {
    if rows == [] then []
    else
      var x := rows[|rows| - 1];
      Those(positive, kept, rows[..|rows| - 1]) + if (if positive then ProductOf(x) > 0 else ProductOf(x) < 0) == kept then [x] else []
  }

  lemma {:induction false} ThoseAreAll(positive: bool, rows: seq<Weighed>)
    ensures SameBag(Those(positive, true, rows) + Those(positive, false, rows), rows)
  {
    if rows != [] {
      ThoseAreAll(positive, rows[..|rows| - 1]);
      assert rows == rows[..|rows| - 1] + [rows[|rows| - 1]];
    }
  }

  lemma {:induction false} ThoseProducts(positive: bool, rows: seq<Weighed>)
    ensures Products(Those(positive, true, rows)) == if positive then Tally(GainOf, rows) else -Tally(LossOf, rows)
  {
    if rows != [] {
      var first := rows[..|rows| - 1];
      var x := rows[|rows| - 1];
      ThoseProducts(positive, first);
      TallyConcat(ProductOf, Those(positive, true, first), [x]);
      assert [x][..0] == [];
      assert Those(positive, true, first) + [] == Those(positive, true, first);
    }
  }

  lemma TooMuchFirstFails(first: seq<Weighed>, rest: seq<Weighed>)
    requires !(I128_MIN <= Products(first) <= I128_MAX && Weights(first) <= I128_MAX)
    ensures Fold(WeightedOf(), InOrder(first + rest)).None?
  {
    WeightedLaws();
    MeaninglessFirstFails(WeightedOf(), WeightedMeaning(), first, rest);
  }

  lemma WithoutRoom(rows: seq<Weighed>) returns (run: Run<Weighed>)
    requires !HasRoom(rows)
    ensures SameBag(Rows(run), rows) && Fold(WeightedOf(), run).None?
  {
    if Tally(GainOf, rows) > I128_MAX || -Tally(LossOf, rows) < I128_MIN {
      var positive := Tally(GainOf, rows) > I128_MAX;
      var first, rest := Those(positive, true, rows), Those(positive, false, rows);
      ThoseAreAll(positive, rows);
      ThoseProducts(positive, rows);
      TooMuchFirstFails(first, rest);
      InOrderAll(first + rest);
      run := InOrder(first + rest);
    } else {
      run := InOrder(rows);
      InOrderAll(rows);
      if Fold(WeightedOf(), run).Some? { SuccessIsExact(run); }
    }
  }

  /** Exactly when a query cannot fail: every batching, order and merge tree of some rows
    * succeeds if and only if they have room. */
  lemma EveryOrderSucceeds(rows: seq<Weighed>)
    ensures (forall run | SameBag(Rows(run), rows) :: Fold(WeightedOf(), run).Some?) <==> HasRoom(rows)
  {
    if HasRoom(rows) {
      forall run | SameBag(Rows(run), rows) ensures Fold(WeightedOf(), run).Some? {
        RoomInBag(Rows(run), rows);
        RoomIsEnough(run);
      }
    } else {
      var run := WithoutRoom(rows);
    }
  }

  function Extreme(positive: bool): Weighed {
    Weighed(Some(if positive then I64_MAX else -I64_MAX), Some(I64_MAX))
  }

  /** Four rows that fail in one order and succeed in another. */
  lemma OrderCanOverflow()
    ensures
      var (p, n) := (Extreme(true), Extreme(false));
      && SameBag([p, p, p, n], [p, p, n, p])
      && Fold(WeightedOf(), InOrder([p, p, p, n])).None?
      && Fold(WeightedOf(), InOrder([p, p, n, p])).Some?
  {
    var p, n := Extreme(true), Extreme(false);
    assert multiset([p, p, p, n]) == multiset([p, p, n, p]);
    ThreeAreTooMuch(p, n);
    assert [p, p, p] + [n] == [p, p, p, n];
    InOrderIsOneBatch(WeightedOf(), [p, p, n, p]);
    FourFit(p, n);
  }

  lemma ThreeAreTooMuch(p: Weighed, n: Weighed)
    requires p == Extreme(true)
    ensures Fold(WeightedOf(), InOrder([p, p, p] + [n])).None?
  {
    TallyOne(ProductOf, p);
    TallyConcat(ProductOf, [p], [p]);
    TallyConcat(ProductOf, [p, p], [p]);
    assert [p] + [p] == [p, p] && [p, p] + [p] == [p, p, p];
    TooMuchFirstFails([p, p, p], [n]);
  }

  lemma {:induction false} FourFit(p: Weighed, n: Weighed)
    requires p == Extreme(true) && n == Extreme(false)
    ensures Through(WeightedOf(), WeightedOf().empty, [p, p, n, p]).Some?
  {
    var rows := [p, p, n, p];
    var empty := WeightedOf().empty;
    var product := I64_MAX * I64_MAX;
    assert rows[..0] == [];
    ThroughStep(WeightedOf(), empty, rows, 0);
    assert Through(WeightedOf(), empty, rows[..1]) == Some(Weighted(product, I64_MAX, true));
    ThroughStep(WeightedOf(), empty, rows, 1);
    assert Through(WeightedOf(), empty, rows[..2]) == Some(Weighted(2 * product, 2 * I64_MAX, true));
    ThroughStep(WeightedOf(), empty, rows, 2);
    assert Through(WeightedOf(), empty, rows[..3]) == Some(Weighted(product, 3 * I64_MAX, true));
    ThroughStep(WeightedOf(), empty, rows, 3);
    assert rows[..4] == rows;
  }

  class WeightedState {
    var weightedSum: I128
    var weightSum: I128
    var seen: bool

    function State(): Weighted
      reads this
    {
      Weighted(weightedSum, weightSum, seen)
    }

    constructor ()
      ensures State() == WeightedOf().empty
    {
      weightedSum, weightSum, seen := 0, 0, false;
    }

    method Add(weighted: I128, weight: I128) returns (ok: bool)
      modifies this
      ensures ok <==> Accumulate(old(State()), weighted, weight).Some?
      ensures ok ==> State() == Accumulate(old(State()), weighted, weight).value
    {
      if weight < 0 { return false; }
      if weightedSum + weighted < I128_MIN || weightedSum + weighted > I128_MAX { return false; }
      weightedSum := weightedSum + weighted;
      if weightSum + weight > I128_MAX { return false; }
      weightSum := weightSum + weight;
      seen := true;
      return true;
    }

    method Merge(other: Weighted) returns (ok: bool)
      modifies this
      ensures ok <==> MergeWeighted(old(State()), other).Some?
      ensures ok ==> State() == MergeWeighted(old(State()), other).value
    {
      if !other.seen { return true; }
      ok := Add(other.weightedSum, other.weightSum);
    }

    method UpdateBatch(rows: seq<Weighed>) returns (ok: bool)
      modifies this
      ensures ok <==> Through(WeightedOf(), old(State()), rows).Some?
      ensures ok ==> State() == Through(WeightedOf(), old(State()), rows).value
    {
      for i := 0 to |rows|
        invariant Through(WeightedOf(), old(State()), rows[..i]) == Some(State())
      {
        ThroughStep(WeightedOf(), old(State()), rows, i);
        if Counts(rows[i]) {
          ProductFits(rows[i].value.value, rows[i].weight.value);
          var added := Add(rows[i].value.value * rows[i].weight.value, rows[i].weight.value);
          if !added {
            ThroughFails(WeightedOf(), old(State()), rows, i + 1);
            return false;
          }
        }
      }
      assert rows[..|rows|] == rows;
      return true;
    }
  }

  lemma ProductFits(v: I64, w: I64)
    ensures I128_MIN <= v * w <= I128_MAX
  {
    if w >= 0 {
      ProductBound(v, w);
    } else {
      ProductBound(v, 0 - w);
      assert v * (0 - w) == -(v * w);
    }
  }
}
