/** Which bridge rows are paid and which of them is refused, row by row. */
module EligibleRows {
  import opened Allocation
  import opened VerifyAllocation
  import opened Widths
  import opened Wrappers

  predicate Counts(e: Eligibility, row: BridgeRow) {
    match e
    case AllRows => true
    case Utf8Equals(v) => row.eligibility == Some(v)
  }

  function CountingRows(e: Eligibility, bridge: seq<BridgeRow>): seq<BridgeRow> {
    if bridge == [] then []
    else (if Counts(e, bridge[0]) then [bridge[0]] else []) + CountingRows(e, bridge[1..])
  }

  lemma {:induction false} CountingRowsConcat(e: Eligibility, a: seq<BridgeRow>, b: seq<BridgeRow>)
    ensures CountingRows(e, a + b) == CountingRows(e, a) + CountingRows(e, b)
  {
    if a == [] {
      assert a + b == b;
    } else {
      assert (a + b)[1..] == a[1..] + b;
      CountingRowsConcat(e, a[1..], b);
    }
  }

  lemma {:induction false} CountingExactly(e: Eligibility, bridge: seq<BridgeRow>)
    ensures Counting(e, bridge) == CountingRows(e, bridge)
  {
    if bridge != [] {
      var n := |bridge| - 1;
      CountingExactly(e, bridge[..n]);
      CountingRowsConcat(e, bridge[..n], [bridge[n]]);
      assert bridge == bridge[..n] + [bridge[n]];
    }
  }

  lemma {:induction false} CountingMembers(e: Eligibility, bridge: seq<BridgeRow>, row: BridgeRow)
    ensures row in CountingRows(e, bridge) <==> row in bridge && Counts(e, row)
  {
    if bridge != [] {
      CountingMembers(e, bridge[1..], row);
      assert bridge == [bridge[0]] + bridge[1..];
    }
  }

  /** The rows that count, in their order, decide result and error. */
  lemma RowsThatCountDecide(dimensions: nat, e: Eligibility, f: Eligibility, source: Source, a: seq<BridgeRow>, b: seq<BridgeRow>)
    requires CountingRows(e, a) == CountingRows(f, b)
    ensures Outcome(dimensions, e, source, a) == Outcome(dimensions, f, source, b)
  {
    CountingExactly(e, a);
    CountingExactly(f, b);
  }

  /** A row of another population can be dropped or replaced by any other such row. */
  lemma OthersDoNotMatter(dimensions: nat, e: Eligibility, source: Source, a: seq<BridgeRow>, row: BridgeRow, b: seq<BridgeRow>)
    requires e.Utf8Equals? && row.eligibility != Some(e.value)
    ensures Outcome(dimensions, e, source, a + [row] + b) == Outcome(dimensions, e, source, a + b)
  {
    CountingRowsConcat(e, a + [row], b);
    CountingRowsConcat(e, a, [row]);
    CountingRowsConcat(e, a, b);
    assert CountingRows(e, a) + [] == CountingRows(e, a);
    RowsThatCountDecide(dimensions, e, e, source, a + [row] + b, a + b);
  }

  // ---- Which rows are refused ----

  function WeightOf(rows: seq<BridgeRow>): int {
    if rows == [] then 0 else WeightOf(rows[..|rows| - 1]) + (if rows[|rows| - 1].weight.Some? then rows[|rows| - 1].weight.value else 0)
  }

  predicate GoodTarget(dimensions: nat, earlier: seq<BridgeRow>, row: BridgeRow) {
    && |row.target| == dimensions
    && (forall i | 0 <= i < dimensions :: row.target[i] != "")
    && forall j | 0 <= j < |earlier| :: earlier[j].target != row.target
  }

  predicate GoodWeight(row: BridgeRow) {
    row.weight.Some? && row.weight.value >= 0
  }

  predicate GoodTotal(rows: seq<BridgeRow>) {
    WeightOf(rows) <= 0x7FFF_FFFF_FFFF_FFFF_FFFF_FFFF_FFFF_FFFF
  }

  predicate GoodAt(dimensions: nat, rows: seq<BridgeRow>, i: nat)
    requires i < |rows|
  {
    GoodTarget(dimensions, rows[..i], rows[i]) && GoodWeight(rows[i]) && GoodTotal(rows[..i + 1])
  }

  /** Nothing is wrong with the first `n` rows. */
  ghost predicate GoodUpTo(dimensions: nat, rows: seq<BridgeRow>, n: nat)
    requires n <= |rows|
  {
    forall i: nat | i < n :: GoodAt(dimensions, rows, i)
  }

  lemma {:induction false} WeightsAlike(dimensions: nat, rows: seq<BridgeRow>, n: nat)
    requires n <= |rows| && GoodUpTo(dimensions, rows, n)
    ensures WeightOf(rows[..n]) == RowWeights(rows[..n])
  {
    if n > 0 {
      WeightsAlike(dimensions, rows, n - 1);
      assert rows[..n][..n - 1] == rows[..n - 1];
      assert GoodAt(dimensions, rows, n - 1);
    }
  }

  lemma FaultIs(dimensions: nat, earlier: seq<BridgeRow>, row: BridgeRow)
    requires WeightOf(earlier) == RowWeights(earlier)
    ensures Fault(dimensions, earlier, row) ==
      if !GoodTarget(dimensions, earlier, row) then Some(InvalidTarget)
      else if !GoodWeight(row) then Some(InvalidWeight)
      else if !GoodTotal(earlier + [row]) then Some(Overflow)
      else None
  {
    assert (earlier + [row])[..|earlier|] == earlier;
    if "" in row.target {
      var i :| 0 <= i < |row.target| && row.target[i] == "";
    }
    if r :| r in earlier && r.target == row.target {
      var j :| 0 <= j < |earlier| && earlier[j] == r;
    }
  }

  lemma {:induction false} GoodHasNoFault(dimensions: nat, rows: seq<BridgeRow>, n: nat)
    requires n <= |rows| && GoodUpTo(dimensions, rows, n)
    ensures FirstFault(dimensions, rows[..n]) == None
  {
    if n > 0 {
      GoodHasNoFault(dimensions, rows, n - 1);
      WeightsAlike(dimensions, rows, n - 1);
      FaultIs(dimensions, rows[..n - 1], rows[n - 1]);
      assert rows[..n] == rows[..n - 1] + [rows[n - 1]];
      assert rows[..n][..n - 1] == rows[..n - 1];
      assert GoodAt(dimensions, rows, n - 1);
    }
  }

  /** The first row with something wrong is reported: its target before its weight, its weight before
    * the total. */
  lemma FirstFaultDecides(dimensions: nat, e: Eligibility, source: Source, bridge: seq<BridgeRow>, i: nat)
    requires i < |CountingRows(e, bridge)| && GoodUpTo(dimensions, CountingRows(e, bridge), i)
    ensures
      var rows := CountingRows(e, bridge);
      var outcome := Outcome(dimensions, e, source, bridge);
      && (!GoodTarget(dimensions, rows[..i], rows[i]) ==> outcome == Err(InvalidTarget))
      && (GoodTarget(dimensions, rows[..i], rows[i]) && !GoodWeight(rows[i]) ==> outcome == Err(InvalidWeight))
      && (GoodTarget(dimensions, rows[..i], rows[i]) && GoodWeight(rows[i]) && !GoodTotal(rows[..i + 1]) ==> outcome == Err(Overflow))
  {
    var rows := CountingRows(e, bridge);
    CountingExactly(e, bridge);
    FaultAt(dimensions, rows, i);
  }

  lemma FaultAt(dimensions: nat, rows: seq<BridgeRow>, i: nat)
    requires i < |rows| && GoodUpTo(dimensions, rows, i)
    ensures !GoodTarget(dimensions, rows[..i], rows[i]) ==> FirstFault(dimensions, rows) == Some(InvalidTarget)
    ensures GoodTarget(dimensions, rows[..i], rows[i]) && !GoodWeight(rows[i]) ==> FirstFault(dimensions, rows) == Some(InvalidWeight)
    ensures GoodTarget(dimensions, rows[..i], rows[i]) && GoodWeight(rows[i]) && !GoodTotal(rows[..i + 1]) ==> FirstFault(dimensions, rows) == Some(Overflow)
  {
    GoodHasNoFault(dimensions, rows, i);
    WeightsAlike(dimensions, rows, i);
    FaultIs(dimensions, rows[..i], rows[i]);
    assert rows[..i + 1] == rows[..i] + [rows[i]];
    assert rows[..i + 1][..i] == rows[..i];
    if FirstFault(dimensions, rows[..i + 1]).Some? { FaultSticks(dimensions, rows, i + 1); }
  }

  lemma {:induction false} FirstBad(dimensions: nat, rows: seq<BridgeRow>, n: nat) returns (i: nat)
    requires n <= |rows| && !GoodUpTo(dimensions, rows, n)
    ensures i < n && GoodUpTo(dimensions, rows, i)
    ensures !GoodAt(dimensions, rows, i)
  {
    if n > 0 && !GoodUpTo(dimensions, rows, n - 1) {
      i := FirstBad(dimensions, rows, n - 1);
    } else {
      i := n - 1;
    }
  }

  lemma FaultlessExactly(dimensions: nat, rows: seq<BridgeRow>)
    ensures FirstFault(dimensions, rows) == None <==> GoodUpTo(dimensions, rows, |rows|)
    ensures FirstFault(dimensions, rows) == None ==> WeightOf(rows) == RowWeights(rows)
  {
    assert rows[..|rows|] == rows;
    if GoodUpTo(dimensions, rows, |rows|) {
      GoodHasNoFault(dimensions, rows, |rows|);
      WeightsAlike(dimensions, rows, |rows|);
    } else {
      var i := FirstBad(dimensions, rows, |rows|);
      FaultAt(dimensions, rows, i);
    }
  }

  // ---- Which bridges are accepted ----

  function Magnitude(amount: int): nat {
    if amount < 0 then -amount else amount
  }

  ghost predicate ProductsFit(amount: nat, rows: seq<BridgeRow>) {
    forall i | 0 <= i < |rows| && rows[i].weight.Some? :: amount * rows[i].weight.value <= 0xFFFF_FFFF_FFFF_FFFF_FFFF_FFFF_FFFF_FFFF
  }

  lemma ProductsFitExactly(dimensions: nat, amount: nat, rows: seq<BridgeRow>)
    requires GoodUpTo(dimensions, rows, |rows|)
    ensures Fits(amount, Claims(AllRows, rows)) <==> ProductsFit(amount, rows)
  {
    ClaimsOfRows(rows);
    var claims := Claims(AllRows, rows);
    if Fits(amount, claims) {
      forall i | 0 <= i < |rows| ensures rows[i].weight.Some? ==> amount * rows[i].weight.value <= U128_MAX {
        assert GoodAt(dimensions, rows, i) && claims[i] in claims;
      }
    } else {
      var c :| c in claims && amount * c.weight > U128_MAX;
      var i :| 0 <= i < |claims| && claims[i] == c;
      assert GoodAt(dimensions, rows, i);
    }
  }

  ghost predicate Whole(dimensions: nat, source: Source, rows: seq<BridgeRow>) {
    GoodUpTo(dimensions, rows, |rows|) && |rows| == source.expectedCount && WeightOf(rows) == source.expectedWeight && rows != []
  }

  /** The outcome of a population without faulty rows. */
  lemma GoodPopulation(dimensions: nat, e: Eligibility, source: Source, bridge: seq<BridgeRow>)
    requires GoodUpTo(dimensions, CountingRows(e, bridge), |CountingRows(e, bridge)|)
    ensures
      var rows := CountingRows(e, bridge);
      var outcome := Outcome(dimensions, e, source, bridge);
      && (outcome.Ok? <==> Whole(dimensions, source, rows) && WeightOf(rows) > 0 && ProductsFit(Magnitude(source.amount), rows))
      && (outcome == Err(IncompletePopulation) <==> !Whole(dimensions, source, rows))
      && (outcome == Err(ZeroDenominator) <==> Whole(dimensions, source, rows) && WeightOf(rows) == 0)
      && (outcome == Err(Overflow) <==>
          Whole(dimensions, source, rows) && WeightOf(rows) > 0 && !ProductsFit(Magnitude(source.amount), rows))
  {
    var rows := CountingRows(e, bridge);
    CountingExactly(e, bridge);
    FaultlessExactly(dimensions, rows);
    ClaimsOfRows(rows);
    ProductsFitExactly(dimensions, Magnitude(source.amount), rows);
  }

  /** An amount is allocated exactly over a faultless, complete population with weight whose products fit. */
  lemma AcceptedExactly(dimensions: nat, e: Eligibility, source: Source, bridge: seq<BridgeRow>)
    ensures Outcome(dimensions, e, source, bridge).Ok? <==>
      var rows := CountingRows(e, bridge);
      Whole(dimensions, source, rows) && WeightOf(rows) > 0 && ProductsFit(Magnitude(source.amount), rows)
  {
    var rows := CountingRows(e, bridge);
    if GoodUpTo(dimensions, rows, |rows|) {
      GoodPopulation(dimensions, e, source, bridge);
    } else {
      CountingExactly(e, bridge);
      FaultlessExactly(dimensions, rows);
    }
  }
}
