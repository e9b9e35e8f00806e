/** Checks one source entity's bridge rows and allocates its amount in 128-bit arithmetic. Rows are
    collected, divided, ranked, topped up and signed by loops whose every addition is checked; against
    the allocation on unbounded integers these loops are exact, and the only overflows that can be seen
    are those of the total weight and of an amount multiplied by a weight. */
module VerifyAllocation {
  import opened Allocation
  import opened Sorting
  import opened Widths
  import opened Wrappers

  predicate Included(e: Eligibility, row: BridgeRow) {
    e.AllRows? || row.eligibility == Some(e.value)
  }

  predicate RowOk(dimensions: nat, row: BridgeRow) {
    && |row.target| == dimensions && (forall part | part in row.target :: part != "")
    && row.weight.Some? && row.weight.value >= 0
  }

  /** The claims of the included rows, a missing or negative weight counting as zero. */
  function Claims(e: Eligibility, bridge: seq<BridgeRow>): seq<Claim> {
    if bridge == [] then []
    else
      var row := bridge[|bridge| - 1];
      var rest := Claims(e, bridge[..|bridge| - 1]);
      if !Included(e, row) then rest
      else rest + [Claim(row.target, if row.weight.Some? && row.weight.value >= 0 then row.weight.value else 0)]
  }

  function Counting(e: Eligibility, bridge: seq<BridgeRow>): seq<BridgeRow> {
    if bridge == [] then []
    else
      Counting(e, bridge[..|bridge| - 1]) + if Included(e, bridge[|bridge| - 1]) then [bridge[|bridge| - 1]] else []
  }

  function RowWeight(row: BridgeRow): nat {
    if row.weight.Some? && row.weight.value >= 0 then row.weight.value else 0
  }

  function RowWeights(rows: seq<BridgeRow>): nat {
    if rows == [] then 0 else RowWeights(rows[..|rows| - 1]) + RowWeight(rows[|rows| - 1])
  }

  /** What is wrong with a row that follows others. */
  function Fault(dimensions: nat, earlier: seq<BridgeRow>, row: BridgeRow): Option<AllocationError> {
    if |row.target| != dimensions || "" in row.target || (exists r :: r in earlier && r.target == row.target) then Some(InvalidTarget)
    else if row.weight.None? || row.weight.value < 0 then Some(InvalidWeight)
    else if RowWeights(earlier) + row.weight.value > I128_MAX then Some(Overflow)
    else None
  }

  /** The fault of the first row that has one. */
  function FirstFault(dimensions: nat, rows: seq<BridgeRow>): Option<AllocationError> {
    if rows == [] then None
    else
      var earlier := rows[..|rows| - 1];
      var fault := FirstFault(dimensions, earlier);
      if fault.Some? then fault else Fault(dimensions, earlier, rows[|rows| - 1])
  }

  /** Result or error, decided by the rows that count. */
  ghost function Outcome(dimensions: nat, e: Eligibility, source: Source, bridge: seq<BridgeRow>): Result<seq<Allocated>, AllocationError> {
    var rows := Counting(e, bridge);
    var claims := Claims(AllRows, rows);
    var fault := FirstFault(dimensions, rows);
    if fault.Some? then Err(fault.value)
    else if |rows| != source.expectedCount || RowWeights(rows) != source.expectedWeight || rows == [] then Err(IncompletePopulation)
    else Apportioned(source.amount, claims)
  }

  ghost function Apportioned(signed: int, claims: seq<Claim>): Result<seq<Allocated>, AllocationError> {
    if SumWeights(claims) == 0 then Err(ZeroDenominator)
    else if !Fits(Abs(signed), claims) then Err(Overflow)
    else Ok(Signed(signed, Allocate(Abs(signed), claims)))
  }

  ghost predicate Population(dimensions: nat, e: Eligibility, bridge: seq<BridgeRow>) {
    && (forall row | row in bridge && Included(e, row) :: RowOk(dimensions, row))
    && DistinctClaims(Claims(e, bridge))
  }

  ghost predicate Complete(e: Eligibility, source: Source, bridge: seq<BridgeRow>) {
    && 0 < |Claims(e, bridge)| == source.expectedCount
    && SumWeights(Claims(e, bridge)) == source.expectedWeight
  }

  ghost predicate Fits(amount: nat, claims: seq<Claim>) {
    forall c | c in claims :: amount * c.weight <= U128_MAX
  }

  /** The inputs the allocator accepts. */
  ghost predicate Accepts(dimensions: nat, e: Eligibility, source: Source, bridge: seq<BridgeRow>) {
    && Population(dimensions, e, bridge)
    && Complete(e, source, bridge)
    && SumWeights(Claims(e, bridge)) > 0
    && Fits(Abs(source.amount), Claims(e, bridge))
  }

  function WithSign(amount: int, magnitude: int): int {
    if amount < 0 then -magnitude else magnitude
  }

  function Signed(amount: int, shares: seq<Share>): seq<Allocated> {
    if shares == [] then []
    else
      var last := shares[|shares| - 1];
      Signed(amount, shares[..|shares| - 1]) + [Allocated(last.target, WithSign(amount, last.magnitude))]
  }

  function Total(result: seq<Allocated>): int {
    if result == [] then 0 else Total(result[..|result| - 1]) + result[|result| - 1].amount
  }

  // ---- Appending ----

  lemma {:induction false} SumWeightsAppend(claims: seq<Claim>, c: Claim)
    ensures SumWeights(claims + [c]) == SumWeights(claims) + c.weight
  {
    if claims != [] {
      assert (claims + [c])[1..] == claims[1..] + [c];
      SumWeightsAppend(claims[1..], c);
    }
  }

  lemma {:induction false} SumMagnitudesAppend(s: seq<Share>, x: Share)
    ensures SumMagnitudes(s + [x]) == SumMagnitudes(s) + x.magnitude
  {
    if s != [] {
      assert (s + [x])[1..] == s[1..] + [x];
      SumMagnitudesAppend(s[1..], x);
    }
  }

  lemma {:induction false} QuotasAppend(amount: nat, den: nat, claims: seq<Claim>, c: Claim)
    requires den > 0
    ensures Quotas(amount, den, claims + [c]) == Quotas(amount, den, claims) + [Quota(amount, den, c)]
  {
    if claims != [] {
      assert (claims + [c])[1..] == claims[1..] + [c];
      QuotasAppend(amount, den, claims[1..], c);
    }
  }

  lemma {:induction false} SumWeightsPrefix(claims: seq<Claim>, i: nat)
    requires i <= |claims|
    ensures SumWeights(claims[..i]) <= SumWeights(claims)
    decreases |claims| - i
  {
    if i < |claims| {
      SumWeightsPrefix(claims, i + 1);
      assert claims[..i + 1] == claims[..i] + [claims[i]];
      SumWeightsAppend(claims[..i], claims[i]);
    } else {
      assert claims[..i] == claims;
    }
  }

  lemma {:induction false} SumMagnitudesPrefix(s: seq<Share>, i: nat)
    requires i <= |s|
    ensures SumMagnitudes(s[..i]) <= SumMagnitudes(s)
    decreases |s| - i
  {
    if i < |s| {
      SumMagnitudesPrefix(s, i + 1);
      assert s[..i + 1] == s[..i] + [s[i]];
      SumMagnitudesAppend(s[..i], s[i]);
    } else {
      assert s[..i] == s;
    }
  }

  lemma {:induction false} ClaimsPrefix(e: Eligibility, bridge: seq<BridgeRow>, i: nat)
    requires i <= |bridge|
    ensures Claims(e, bridge[..i]) <= Claims(e, bridge)
    decreases |bridge| - i
  {
    if i < |bridge| {
      ClaimsPrefix(e, bridge, i + 1);
      assert bridge[..i + 1][..i] == bridge[..i];
    } else {
      assert bridge[..i] == bridge;
    }
  }

  // ---- The rows that count ----

  lemma CountingStep(e: Eligibility, bridge: seq<BridgeRow>, i: nat)
    requires i < |bridge|
    ensures Counting(e, bridge[..i + 1]) == Counting(e, bridge[..i]) + if Included(e, bridge[i]) then [bridge[i]] else []
  {
    assert bridge[..i + 1][..i] == bridge[..i];
  }

  lemma {:induction false} CountingPrefix(e: Eligibility, bridge: seq<BridgeRow>, i: nat)
    requires i <= |bridge|
    ensures Counting(e, bridge[..i]) <= Counting(e, bridge)
    decreases |bridge| - i
  {
    if i < |bridge| {
      CountingPrefix(e, bridge, i + 1);
      CountingStep(e, bridge, i);
    } else {
      assert bridge[..i] == bridge;
    }
  }

  lemma CountedClaim(rows: seq<BridgeRow>, row: BridgeRow)
    ensures Claims(AllRows, rows + [row]) == Claims(AllRows, rows) + [Claim(row.target, RowWeight(row))]
    ensures rows + [] == rows
  {
    assert (rows + [row])[..|rows|] == rows;
  }

  lemma {:induction false} CountingClaims(e: Eligibility, bridge: seq<BridgeRow>)
    ensures Claims(AllRows, Counting(e, bridge)) == Claims(e, bridge)
  {
    if bridge != [] {
      var rest, row := bridge[..|bridge| - 1], bridge[|bridge| - 1];
      CountingClaims(e, rest);
      CountedClaim(Counting(e, rest), row);
    }
  }

  lemma {:induction false} ClaimsOfRows(rows: seq<BridgeRow>)
    ensures |Claims(AllRows, rows)| == |rows| && SumWeights(Claims(AllRows, rows)) == RowWeights(rows)
    ensures forall i | 0 <= i < |rows| :: Claims(AllRows, rows)[i] == Claim(rows[i].target, RowWeight(rows[i]))
  {
    if rows != [] {
      var n := |rows| - 1;
      ClaimsOfRows(rows[..n]);
      SumWeightsAppend(Claims(AllRows, rows[..n]), Claim(rows[n].target, RowWeight(rows[n])));
      assert Claims(AllRows, rows)[n] == Claim(rows[n].target, RowWeight(rows[n]));
    }
  }

  /** The first fault stays the first whatever follows. */
  lemma {:induction false} FaultSticks(dimensions: nat, rows: seq<BridgeRow>, i: nat)
    requires i <= |rows| && FirstFault(dimensions, rows[..i]).Some?
    ensures FirstFault(dimensions, rows) == FirstFault(dimensions, rows[..i])
    decreases |rows| - i
  {
    if i < |rows| {
      assert rows[..i + 1][..i] == rows[..i];
      FaultSticks(dimensions, rows, i + 1);
    } else {
      assert rows[..i] == rows;
    }
  }

  /** What the loop knows of the rows that counted so far. */
  ghost predicate Sound(dimensions: nat, rows: seq<BridgeRow>, seen: set<Target>, total: int) {
    && FirstFault(dimensions, rows) == None && total == RowWeights(rows)
    && forall t :: t in seen <==> exists r :: r in rows && r.target == t
  }

  lemma SoundNext(dimensions: nat, rows: seq<BridgeRow>, row: BridgeRow, seen: set<Target>, total: int)
    requires Sound(dimensions, rows, seen, total) && RowError(dimensions, row, seen).None? && total + row.weight.value <= I128_MAX
    ensures Sound(dimensions, rows + [row], seen + {row.target}, total + row.weight.value)
  {
    assert (rows + [row])[..|rows|] == rows;
    forall t ensures t in seen + {row.target} <==> exists r :: r in rows + [row] && r.target == t {
      if t in seen {
        var r :| r in rows && r.target == t;
        assert r in rows + [row];
      }
      assert row in rows + [row];
    }
  }

  lemma SoundStep(dimensions: nat, e: Eligibility, bridge: seq<BridgeRow>, i: nat, seen: set<Target>, total: int)
    requires i < |bridge| && Included(e, bridge[i]) && Sound(dimensions, Counting(e, bridge[..i]), seen, total)
    requires RowError(dimensions, bridge[i], seen).None? && total + bridge[i].weight.value <= I128_MAX
    ensures Sound(dimensions, Counting(e, bridge[..i + 1]), seen + {bridge[i].target}, total + bridge[i].weight.value)
  {
    CountingStep(e, bridge, i);
    SoundNext(dimensions, Counting(e, bridge[..i]), bridge[i], seen, total);
  }

  lemma NextFault(dimensions: nat, rows: seq<BridgeRow>, row: BridgeRow, seen: set<Target>, total: int)
    requires Sound(dimensions, rows, seen, total)
    requires RowError(dimensions, row, seen).Some? || total + row.weight.value > I128_MAX
    ensures FirstFault(dimensions, rows + [row]) ==
      Some(if RowError(dimensions, row, seen).Some? then RowError(dimensions, row, seen).value else Overflow)
  {
    assert (rows + [row])[..|rows|] == rows;
  }

  lemma FaultFound(dimensions: nat, e: Eligibility, bridge: seq<BridgeRow>, i: nat)
    requires i < |bridge| && FirstFault(dimensions, Counting(e, bridge[..i + 1])).Some?
    ensures FirstFault(dimensions, Counting(e, bridge)) == FirstFault(dimensions, Counting(e, bridge[..i + 1]))
  {
    CountingPrefix(e, bridge, i + 1);
    FaultStays(dimensions, Counting(e, bridge), Counting(e, bridge[..i + 1]));
  }

  lemma FaultStays(dimensions: nat, rows: seq<BridgeRow>, front: seq<BridgeRow>)
    requires front <= rows && FirstFault(dimensions, front).Some?
    ensures FirstFault(dimensions, rows) == FirstFault(dimensions, front)
  {
    assert rows[..|front|] == front;
    FaultSticks(dimensions, rows, |front|);
  }

  // ---- Collecting the eligible claims ----

  lemma ClaimsStep(e: Eligibility, bridge: seq<BridgeRow>, i: nat)
    requires i < |bridge|
    ensures !Included(e, bridge[i]) ==> Claims(e, bridge[..i + 1]) == Claims(e, bridge[..i])
    ensures Included(e, bridge[i]) && bridge[i].weight.Some? && bridge[i].weight.value >= 0 ==>
      Claims(e, bridge[..i + 1]) == Claims(e, bridge[..i]) + [Claim(bridge[i].target, bridge[i].weight.value)]
    ensures Included(e, bridge[i]) ==> |Claims(e, bridge[..i + 1])| == |Claims(e, bridge[..i])| + 1
    ensures Included(e, bridge[i]) ==> Claims(e, bridge[..i + 1])[|Claims(e, bridge[..i])|].target == bridge[i].target
    ensures Claims(e, bridge[..i]) <= Claims(e, bridge[..i + 1])
  {
    assert bridge[..i + 1][..i] == bridge[..i];
  }

  lemma RepeatedTarget(e: Eligibility, bridge: seq<BridgeRow>, i: nat, k: nat)
    requires i < |bridge| && Included(e, bridge[i])
    requires k < |Claims(e, bridge[..i])| && Claims(e, bridge[..i])[k].target == bridge[i].target
    ensures !DistinctClaims(Claims(e, bridge))
  {
    ClaimsStep(e, bridge, i);
    ClaimsPrefix(e, bridge, i + 1);
    assert Claims(e, bridge)[k].target == Claims(e, bridge)[|Claims(e, bridge[..i])|].target;
  }

  lemma WeightStays(e: Eligibility, bridge: seq<BridgeRow>, i: nat)
    requires i <= |bridge| && SumWeights(Claims(e, bridge[..i])) > I128_MAX
    ensures SumWeights(Claims(e, bridge)) > I128_MAX
  {
    ClaimsPrefix(e, bridge, i);
    assert Claims(e, bridge)[..|Claims(e, bridge[..i])|] == Claims(e, bridge[..i]);
    SumWeightsPrefix(Claims(e, bridge), |Claims(e, bridge[..i])|);
  }

  /** What an error of the collection says of the whole bridge. */
  ghost predicate Refuses(dimensions: nat, e: Eligibility, bridge: seq<BridgeRow>, error: AllocationError) {
    && FirstFault(dimensions, Counting(e, bridge)) == Some(error)
    && (error == Overflow ==> SumWeights(Claims(e, bridge)) > I128_MAX)
    && (error != Overflow ==> (error == InvalidTarget || error == InvalidWeight) && !Population(dimensions, e, bridge))
  }

  /** The checks of one included row. */
  method CheckRow(dimensions: nat, e: Eligibility, bridge: seq<BridgeRow>, i: nat, ghost claims: seq<Claim>, seen: set<Target>, total: I128)
    returns (problem: Option<AllocationError>)
    requires i < |bridge| && Included(e, bridge[i]) && Kept(dimensions, e, bridge, i, claims, seen, total)
    ensures problem.Some? ==> Refuses(dimensions, e, bridge, problem.value)
    ensures problem.None? ==> RowError(dimensions, bridge[i], seen).None? && total + bridge[i].weight.value <= I128_MAX
  {
    problem := RowError(dimensions, bridge[i], seen);
    if problem.Some? {
      BadRow(dimensions, e, bridge, i, claims, seen, total);
    } else if total + bridge[i].weight.value > I128_MAX {
      TooHeavy(dimensions, e, bridge, i, claims, seen, total);
      problem := Some(Overflow);
    }
  }

  /** Fails on a malformed or repeated target, a missing or negative weight, or a total over 127 bits. */
  method Collect(dimensions: nat, e: Eligibility, bridge: seq<BridgeRow>)
    returns (r: Result<seq<Claim>, AllocationError>, total: I128)
    ensures r.Ok? <==> Population(dimensions, e, bridge) && SumWeights(Claims(e, bridge)) <= I128_MAX
    ensures r.Ok? ==> r.value == Claims(e, bridge) && total == SumWeights(r.value) && FirstFault(dimensions, Counting(e, bridge)) == None
    ensures r.Err? ==> Refuses(dimensions, e, bridge, r.error)
  {
    var claims: seq<Claim> := [];
    var seen: set<Target> := {};
    total := 0;
    for i := 0 to |bridge|
      invariant Kept(dimensions, e, bridge, i, claims, seen, total)
    {
      var row := bridge[i];
      if Included(e, row) {
        var problem := CheckRow(dimensions, e, bridge, i, claims, seen, total);
        if problem.Some? { return Err(problem.value), total; }
        CollectNext(dimensions, e, bridge, i, claims, seen, total);
        seen := seen + {row.target};
        total := total + row.weight.value;
        claims := claims + [Claim(row.target, row.weight.value)];
      } else {
        SkipRow(dimensions, e, bridge, i, claims, seen, total);
      }
    }
    AllKept(dimensions, e, bridge, claims, seen, total);
    return Ok(claims), total;
  }

  lemma AllKept(dimensions: nat, e: Eligibility, bridge: seq<BridgeRow>, claims: seq<Claim>, seen: set<Target>, total: I128)
    requires Kept(dimensions, e, bridge, |bridge|, claims, seen, total)
    ensures Population(dimensions, e, bridge) && SumWeights(Claims(e, bridge)) <= I128_MAX
    ensures claims == Claims(e, bridge) && total == SumWeights(claims) && FirstFault(dimensions, Counting(e, bridge)) == None
  {
    assert bridge[..|bridge|] == bridge;
  }

  ghost predicate Collected(dimensions: nat, e: Eligibility, rows: seq<BridgeRow>, claims: seq<Claim>, seen: set<Target>, total: int) {
    && claims == Claims(e, rows) && total == SumWeights(claims)
    && Population(dimensions, e, rows)
    && forall t :: t in seen <==> exists k :: 0 <= k < |claims| && claims[k].target == t
  }

  /** The first thing wrong with an included row. */
  function RowError(dimensions: nat, row: BridgeRow, seen: set<Target>): Option<AllocationError> {
    if |row.target| != dimensions || "" in row.target || row.target in seen then Some(InvalidTarget)
    else if row.weight.None? || row.weight.value < 0 then Some(InvalidWeight)
    else None
  }

  lemma NoPopulation(dimensions: nat, e: Eligibility, bridge: seq<BridgeRow>, i: nat, claims: seq<Claim>, seen: set<Target>, total: int)
    requires i < |bridge| && Collected(dimensions, e, bridge[..i], claims, seen, total)
    requires Included(e, bridge[i]) && RowError(dimensions, bridge[i], seen).Some?
    ensures !Population(dimensions, e, bridge)
  {
    assert bridge[i] in bridge;
    if RowOk(dimensions, bridge[i]) {
      var k :| 0 <= k < |claims| && claims[k].target == bridge[i].target;
      RepeatedTarget(e, bridge, i, k);
    }
  }

  lemma CollectedSkip(dimensions: nat, e: Eligibility, bridge: seq<BridgeRow>, i: nat, claims: seq<Claim>, seen: set<Target>, total: int)
    requires i < |bridge| && Collected(dimensions, e, bridge[..i], claims, seen, total) && !Included(e, bridge[i])
    ensures Collected(dimensions, e, bridge[..i + 1], claims, seen, total)
  {
    ClaimsStep(e, bridge, i);
    assert bridge[..i + 1] == bridge[..i] + [bridge[i]];
  }

  /** A sound row with a new target extends the population. */
  lemma CollectedNext(dimensions: nat, e: Eligibility, bridge: seq<BridgeRow>, i: nat, claims: seq<Claim>, seen: set<Target>, total: int)
    requires i < |bridge| && Collected(dimensions, e, bridge[..i], claims, seen, total)
    requires Included(e, bridge[i]) && RowOk(dimensions, bridge[i]) && bridge[i].target !in seen
    ensures
      var c := Claim(bridge[i].target, bridge[i].weight.value);
      Collected(dimensions, e, bridge[..i + 1], claims + [c], seen + {c.target}, total + c.weight)
  {
    var c := Claim(bridge[i].target, bridge[i].weight.value);
    ClaimsStep(e, bridge, i);
    SumWeightsAppend(claims, c);
    assert bridge[..i + 1] == bridge[..i] + [bridge[i]];
    assert (claims + [c])[|claims|].target == c.target;
    forall t ensures t in seen + {c.target} <==> exists k :: 0 <= k < |claims + [c]| && (claims + [c])[k].target == t {
      if t in seen {
        var k :| 0 <= k < |claims| && claims[k].target == t;
        assert (claims + [c])[k].target == t;
      }
    }
  }

  /** The loop's state after `i` rows, by claims and by rows that count. */
  ghost predicate Kept(dimensions: nat, e: Eligibility, bridge: seq<BridgeRow>, i: nat, claims: seq<Claim>, seen: set<Target>, total: int)
    requires i <= |bridge|
  {
    Collected(dimensions, e, bridge[..i], claims, seen, total) && Sound(dimensions, Counting(e, bridge[..i]), seen, total)
  }

  lemma BadRow(dimensions: nat, e: Eligibility, bridge: seq<BridgeRow>, i: nat, claims: seq<Claim>, seen: set<Target>, total: int)
    requires i < |bridge| && Kept(dimensions, e, bridge, i, claims, seen, total)
    requires Included(e, bridge[i]) && RowError(dimensions, bridge[i], seen).Some?
    ensures !Population(dimensions, e, bridge)
    ensures FirstFault(dimensions, Counting(e, bridge)) == RowError(dimensions, bridge[i], seen)
  {
    NoPopulation(dimensions, e, bridge, i, claims, seen, total);
    CountingStep(e, bridge, i);
    NextFault(dimensions, Counting(e, bridge[..i]), bridge[i], seen, total);
    FaultFound(dimensions, e, bridge, i);
  }

  lemma TooHeavy(dimensions: nat, e: Eligibility, bridge: seq<BridgeRow>, i: nat, claims: seq<Claim>, seen: set<Target>, total: int)
    requires i < |bridge| && Kept(dimensions, e, bridge, i, claims, seen, total)
    requires Included(e, bridge[i]) && RowError(dimensions, bridge[i], seen).None? && total + bridge[i].weight.value > I128_MAX
    ensures SumWeights(Claims(e, bridge)) > I128_MAX
    ensures FirstFault(dimensions, Counting(e, bridge)) == Some(Overflow)
  {
    CollectedNext(dimensions, e, bridge, i, claims, seen, total);
    WeightStays(e, bridge, i + 1);
    CountingStep(e, bridge, i);
    NextFault(dimensions, Counting(e, bridge[..i]), bridge[i], seen, total);
    FaultFound(dimensions, e, bridge, i);
  }

  lemma SkipRow(dimensions: nat, e: Eligibility, bridge: seq<BridgeRow>, i: nat, claims: seq<Claim>, seen: set<Target>, total: int)
    requires i < |bridge| && Kept(dimensions, e, bridge, i, claims, seen, total) && !Included(e, bridge[i])
    ensures Kept(dimensions, e, bridge, i + 1, claims, seen, total)
  {
    CollectedSkip(dimensions, e, bridge, i, claims, seen, total);
    CountingStep(e, bridge, i);
    assert Counting(e, bridge[..i]) + [] == Counting(e, bridge[..i]);
  }

  lemma CollectNext(dimensions: nat, e: Eligibility, bridge: seq<BridgeRow>, i: nat, claims: seq<Claim>, seen: set<Target>, total: int)
    requires i < |bridge| && Kept(dimensions, e, bridge, i, claims, seen, total)
    requires Included(e, bridge[i]) && RowError(dimensions, bridge[i], seen).None? && total + bridge[i].weight.value <= I128_MAX
    ensures
      var c := Claim(bridge[i].target, bridge[i].weight.value);
      Kept(dimensions, e, bridge, i + 1, claims + [c], seen + {c.target}, total + c.weight)
  {
    CollectedNext(dimensions, e, bridge, i, claims, seen, total);
    SoundStep(dimensions, e, bridge, i, seen, total);
  }

  // ---- Floors, remainders and the residual ----

  lemma FloorsFit(amount: nat, claims: seq<Claim>, i: nat)
    requires SumWeights(claims) > 0 && i <= |claims|
    ensures SumMagnitudes(Quotas(amount, SumWeights(claims), claims[..i])) <= amount
  {
    var den := SumWeights(claims);
    QuotaSums(amount, den, claims[..i]);
    SumWeightsPrefix(claims, i);
    FloorArithmetic(SumMagnitudes(Quotas(amount, den, claims[..i])), SumRemainders(Quotas(amount, den, claims[..i])), SumWeights(claims[..i]), den, amount);
  }

  lemma FloorArithmetic(floors: nat, remainders: nat, weights: nat, den: nat, amount: nat)
    requires den > 0 && weights <= den && floors * den + remainders == amount * weights
    ensures floors <= amount
  {
    MultiplyAtMost(weights, den, amount);
    CancelAtMost(floors, amount, den);
  }

  lemma QuotasStep(amount: nat, den: nat, claims: seq<Claim>, i: nat)
    requires den > 0 && i < |claims|
    ensures Quotas(amount, den, claims[..i + 1]) == Quotas(amount, den, claims[..i]) + [Quota(amount, den, claims[i])]
    ensures SumMagnitudes(Quotas(amount, den, claims[..i + 1])) == SumMagnitudes(Quotas(amount, den, claims[..i])) + Quota(amount, den, claims[i]).magnitude
  {
    assert claims[..i + 1] == claims[..i] + [claims[i]];
    QuotasAppend(amount, den, claims[..i], claims[i]);
    SumMagnitudesAppend(Quotas(amount, den, claims[..i]), Quota(amount, den, claims[i]));
  }

  /** One claim's product, or an overflow; the floor added to the running sum always fits. */
  method DivideOne(amount: U128, total: U128, claims: seq<Claim>, i: nat, floors: U128) returns (r: Option<Share>, more: U128)
    requires total == SumWeights(claims) > 0 && i < |claims| && floors == SumMagnitudes(Quotas(amount, total, claims[..i]))
    ensures r.Some? <==> amount * claims[i].weight <= U128_MAX
    ensures r.Some? ==> r.value == Quota(amount, total, claims[i]) && more == SumMagnitudes(Quotas(amount, total, claims[..i + 1]))
  {
    if amount * claims[i].weight > U128_MAX { return None, floors; }
    var share := Quota(amount, total, claims[i]);
    QuotasStep(amount, total, claims, i);
    FloorsFit(amount, claims, i + 1);
    return Some(share), floors + share.magnitude;
  }

  /** Fails only when a product does not fit 128 bits. */
  method Divide(amount: U128, total: U128, claims: seq<Claim>) returns (r: Result<seq<Share>, AllocationError>, floors: U128)
    requires total == SumWeights(claims) > 0
    ensures r.Ok? <==> Fits(amount, claims)
    ensures r.Ok? ==> r.value == Quotas(amount, total, claims) && floors == SumMagnitudes(r.value)
    ensures r.Err? ==> r.error == Overflow
  {
    var shares: seq<Share> := [];
    floors := 0;
    for i := 0 to |claims|
      invariant shares == Quotas(amount, total, claims[..i]) && floors == SumMagnitudes(shares)
      invariant forall k | 0 <= k < i :: amount * claims[k].weight <= U128_MAX
    {
      var share;
      share, floors := DivideOne(amount, total, claims, i, floors);
      if share.None? {
        assert claims[i] in claims;
        return Err(Overflow), floors;
      }
      QuotasStep(amount, total, claims, i);
      shares := shares + [share.value];
    }
    assert claims[..|claims|] == claims;
    return Ok(shares), floors;
  }

  lemma {:induction false} TopUpStep(s: seq<Share>, n: nat)
    requires n < |s|
    ensures |TopUp(s, n)| == |s| && TopUp(s, n + 1) == TopUp(s, n)[n := TopUp(s, n)[n].(magnitude := TopUp(s, n)[n].magnitude + 1)]
    ensures TopUp(s, n)[n] == s[n]
  {
    if n > 0 { TopUpStep(s[1..], n - 1); }
  }

  /** Gives one unit to each of the first `residual` shares in place. */
  method Distribution(amount: U128, ranked: seq<Share>, residual: U128) returns (shares: seq<Share>)
    requires residual <= |ranked| && SumMagnitudes(ranked) + residual == amount
    ensures shares == TopUp(ranked, residual)
  {
    shares := ranked;
    for i := 0 to residual
      invariant shares == TopUp(ranked, i) && |shares| == |ranked|
    {
      TopUpStep(ranked, i);
      TopUpSum(ranked, i + 1);
      MemberAtMost(TopUp(ranked, i + 1), i);
      var magnitude: U128 := shares[i].magnitude + 1;
      shares := shares[i := shares[i].(magnitude := magnitude)];
    }
  }

  lemma {:induction false} MemberAtMost(s: seq<Share>, i: nat)
    requires i < |s|
    ensures s[i].magnitude <= SumMagnitudes(s)
  {
    if i > 0 { MemberAtMost(s[1..], i - 1); }
  }

  // ---- Signs ----

  lemma {:induction false} SignedAt(amount: int, shares: seq<Share>, i: nat)
    requires i < |shares|
    ensures |Signed(amount, shares)| == |shares|
    ensures Signed(amount, shares)[i] == Allocated(shares[i].target, WithSign(amount, shares[i].magnitude))
  {
    if i < |shares| - 1 { SignedAt(amount, shares[..|shares| - 1], i); }
    else if |shares| > 1 { SignedAt(amount, shares[..|shares| - 1], 0); }
  }

  lemma {:induction false} SignedTotal(amount: int, shares: seq<Share>)
    ensures Total(Signed(amount, shares)) == WithSign(amount, SumMagnitudes(shares))
    ensures |Signed(amount, shares)| == |shares|
  {
    if shares != [] {
      var n := |shares| - 1;
      SignedTotal(amount, shares[..n]);
      SumMagnitudesLast(shares);
      TotalAppend(Signed(amount, shares[..n]), Allocated(shares[n].target, WithSign(amount, shares[n].magnitude)));
    }
  }

  lemma SumMagnitudesLast(shares: seq<Share>)
    requires shares != []
    ensures SumMagnitudes(shares) == SumMagnitudes(shares[..|shares| - 1]) + shares[|shares| - 1].magnitude
  {
    var n := |shares| - 1;
    assert shares == shares[..n] + [shares[n]];
    SumMagnitudesAppend(shares[..n], shares[n]);
  }

  lemma TotalAppend(result: seq<Allocated>, x: Allocated)
    ensures Total(result + [x]) == Total(result) + x.amount
  {
    assert (result + [x])[..|result|] == result;
  }

  /** No magnitude is too large for its sign, the smallest 128-bit amount included. */
  method Sign(amount: I128, shares: seq<Share>) returns (result: seq<Allocated>)
    requires SumMagnitudes(shares) == Abs(amount)
    ensures result == Signed(amount, shares) && Total(result) == amount
  {
    result := [];
    for i := 0 to |shares|
      invariant result == Signed(amount, shares[..i])
    {
      MemberAtMost(shares, i);
      assert shares[..i + 1][..i] == shares[..i];
      var magnitude: int := shares[i].magnitude;
      var signed: I128 := if amount < 0 then (if magnitude == I128_MAX + 1 then I128_MIN else -magnitude) else magnitude;
      result := result + [Allocated(shares[i].target, signed)];
    }
    assert shares[..|shares|] == shares;
    SignedTotal(amount, shares);
    var total: I128 := 0;
    for i := 0 to |result|
      invariant total == Total(result[..i])
    {
      assert result[..i + 1][..i] == result[..i];
      PartialTotal(amount, shares, i + 1);
      total := total + result[i].amount;
    }
    assert result[..|result|] == result;
    assert total == amount;
  }

  lemma PartialTotal(amount: I128, shares: seq<Share>, i: nat)
    requires SumMagnitudes(shares) == Abs(amount) && i <= |shares|
    ensures |Signed(amount, shares)| == |shares| && I128_MIN <= Total(Signed(amount, shares)[..i]) <= I128_MAX
  {
    SignedTotal(amount, shares);
    SignedTotal(amount, shares[..i]);
    SumMagnitudesPrefix(shares, i);
    SignedPrefix(amount, shares, i);
  }

  lemma SignedPrefix(amount: int, shares: seq<Share>, i: nat)
    requires i <= |shares|
    ensures |Signed(amount, shares)| == |shares| && Signed(amount, shares)[..i] == Signed(amount, shares[..i])
  {
    SignedTotal(amount, shares);
    SignedTotal(amount, shares[..i]);
    forall k | 0 <= k < i ensures Signed(amount, shares)[k] == Signed(amount, shares[..i])[k] {
      SignedAt(amount, shares, k);
      SignedAt(amount, shares[..i], k);
    }
  }

  // ---- The whole operation ----

  /** Divides, ranks, tops up and signs. */
  method Apportion(signed: I128, total: U128, claims: seq<Claim>) returns (r: Result<seq<Allocated>, AllocationError>)
    requires total == SumWeights(claims) > 0
    ensures r.Ok? <==> Fits(Abs(signed), claims)
    ensures r.Ok? ==> r.value == Signed(signed, Allocate(Abs(signed), claims)) && Total(r.value) == signed
    ensures r.Err? ==> r.error == Overflow
  {
    var amount: U128 := Abs(signed);
    var divided, floors := Divide(amount, total, claims);
    if divided.Err? { return Err(divided.error); }
    ResidualBounds(amount, claims);
    var residual: U128 := amount - floors;
    var ranked := Sort(ByRemainder(), divided.value);
    SortSums(ByRemainder(), divided.value);
    SortMembers(ByRemainder(), divided.value);
    QuotaSums(amount, total, claims);
    var topped := Distribution(amount, ranked, residual);
    AllocateConserves(amount, claims);
    var result := Sign(signed, Sort(ByTarget(), topped));
    return Ok(result);
  }

  /** Succeeds exactly on the accepted inputs, with the signed largest-remainder
    * allocation; after the products no later step can overflow or lose a unit. */
  method VerifyAndAllocate(dimensions: nat, e: Eligibility, source: Source, bridge: seq<BridgeRow>)
    returns (r: Result<seq<Allocated>, AllocationError>)
    ensures r.Ok? <==> Accepts(dimensions, e, source, bridge)
    ensures r.Ok? ==> r.value == Signed(source.amount, Allocate(Abs(source.amount), Claims(e, bridge))) && Total(r.value) == source.amount
    ensures r == Err(InvalidTarget) || r == Err(InvalidWeight) ==> !Population(dimensions, e, bridge)
    ensures r == Err(IncompletePopulation) ==> Population(dimensions, e, bridge) && !Complete(e, source, bridge)
    ensures r == Err(ZeroDenominator) ==> Complete(e, source, bridge) && SumWeights(Claims(e, bridge)) == 0
    ensures r == Err(Overflow) ==> SumWeights(Claims(e, bridge)) > I128_MAX || !Fits(Abs(source.amount), Claims(e, bridge))
    ensures r != Err(Conservation)
    ensures r == Outcome(dimensions, e, source, bridge)
  {
    CountingClaims(e, bridge);
    ClaimsOfRows(Counting(e, bridge));
    var collected, total := Collect(dimensions, e, bridge);
    if collected.Err? { return Err(collected.error); }
    var claims := collected.value;
    if |claims| != source.expectedCount || total != source.expectedWeight || claims == [] {
      return Err(IncompletePopulation);
    }
    if total == 0 { return Err(ZeroDenominator); }
    r := Apportion(source.amount, total, claims);
  }

  // ---- Invariance under reordering of the bridge rows ----

  lemma {:induction false} ClaimsConcat(e: Eligibility, a: seq<BridgeRow>, b: seq<BridgeRow>)
    ensures Claims(e, a + b) == Claims(e, a) + Claims(e, b)
  {
    if b == [] {
      assert a + b == a;
    } else {
      assert (a + b)[..|a + b| - 1] == a + b[..|b| - 1];
      ClaimsConcat(e, a, b[..|b| - 1]);
    }
  }

  lemma {:induction false} ClaimsRearranged(e: Eligibility, a: seq<BridgeRow>, b: seq<BridgeRow>)
    requires multiset(a) == multiset(b)
    ensures multiset(Claims(e, a)) == multiset(Claims(e, b))
  {
    SameMembers(a, b);
    if a != [] {
      var n := |a| - 1;
      assert a[n] in b;
      var k :| 0 <= k < |b| && b[k] == a[n];
      assert a == a[..n] + [a[n]];
      assert b == b[..k] + ([b[k]] + b[k + 1..]);
      assert multiset(b[..k] + b[k + 1..]) == multiset(b) - multiset{b[k]};
      ClaimsRearranged(e, a[..n], b[..k] + b[k + 1..]);
      ClaimsConcat(e, a[..n], [a[n]]);
      ClaimsAround(e, b[..k], b[k], b[k + 1..]);
    }
  }

  lemma ClaimsAround(e: Eligibility, a: seq<BridgeRow>, row: BridgeRow, b: seq<BridgeRow>)
    ensures multiset(Claims(e, a + ([row] + b))) == multiset(Claims(e, a + b)) + multiset(Claims(e, [row]))
  {
    ClaimsConcat(e, a, [row] + b);
    ClaimsConcat(e, [row], b);
    ClaimsConcat(e, a, b);
  }

  lemma DistinctRearranged(a: seq<Claim>, b: seq<Claim>)
    requires DistinctClaims(a) && multiset(a) == multiset(b)
    ensures DistinctClaims(b)
  {
    SameMembers(a, b);
    RearrangedDistinct(a, b);
    forall i, j | 0 <= i < j < |b| ensures b[i].target != b[j].target {
      assert b[i] in a && b[j] in a;
    }
  }

  /** A permutation of the bridge rows changes neither acceptance nor the result. */
  lemma OrderDoesNotMatter(dimensions: nat, e: Eligibility, source: Source, a: seq<BridgeRow>, b: seq<BridgeRow>)
    requires multiset(a) == multiset(b) && Accepts(dimensions, e, source, a)
    ensures Accepts(dimensions, e, source, b)
    ensures Allocate(Abs(source.amount), Claims(e, a)) == Allocate(Abs(source.amount), Claims(e, b))
  {
    SameMembers(a, b);
    ClaimsRearranged(e, a, b);
    SameMembers(Claims(e, a), Claims(e, b));
    DistinctRearranged(Claims(e, a), Claims(e, b));
    WeightsRearranged(Claims(e, a), Claims(e, b));
    AllocateRearranged(Abs(source.amount), Claims(e, a), Claims(e, b));
  }
}
