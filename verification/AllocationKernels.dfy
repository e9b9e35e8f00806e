/** The row-wise allocation kernels of the query engine, over 64-bit columns. They work on signed amounts
    and see one row at a time: what the catalog knows of all targets together (rank, residual, total
    weight) arrives as arguments. For every target the share kernel is shown to return, without an
    error, what the catalog gives it. */
module AllocationKernels {
  import opened Allocation
  import opened VerifyAllocation
  import opened Widths
  import opened Wrappers

  datatype KernelError = BadWeight | ShareOverflow | RemainderOverflow | ResidualOverflow | BadRank | BadPopulation

  datatype Division = Division(floor: I64, remainder: I64)

  function Signum(x: int): int {
    if x < 0 then -1 else if x == 0 then 0 else 1
  }

  lemma NumeratorFits(amount: I64, weight: I64)
    requires weight >= 0
    ensures 0 <= Abs(amount) * weight <= I128_MAX
  {
    MultiplyAtMost(Abs(amount), I64_MAX + 1, weight);
    MultiplyAtMost(weight, I64_MAX, I64_MAX + 1);
  }

  function QuotientRemainder(amount: I64, weight: I64, denominator: I64): Result<Division, KernelError> {
    if weight < 0 || denominator <= 0 || weight > denominator then Err(BadWeight)
    else
      NumeratorFits(amount, weight);
      var numerator: I128 := Abs(amount) * weight;
      var magnitude: int := numerator / denominator;
      var signed := if amount < 0 then -magnitude else magnitude;
      if !(I64_MIN <= signed <= I64_MAX) then Err(ShareOverflow)
      else if numerator % denominator > I64_MAX then Err(RemainderOverflow)
      else Ok(Division(signed, numerator % denominator))
  }

  function AssertAllocation(actual: I64, expected: I64, actualWeight: I64, expectedWeight: I64, multiplicity: I64): Result<bool, KernelError> {
    if actual <= 0 || expected <= 0 || actual != expected || actualWeight <= 0 || actualWeight != expectedWeight || multiplicity != 1
    then Err(BadPopulation) else Ok(true)
  }

  /** `rank` counts from one, `residual` is the amount minus the sum of the signed floors. */
  function ShareKernel(amount: I64, weight: I64, denominator: I64, rank: I64, residual: I64, count: I64): Result<I64, KernelError> {
    var q := QuotientRemainder(amount, weight, denominator);
    if q.Err? then Err(q.error)
    else if Abs(residual) > I64_MAX then Err(ResidualOverflow)
    else if rank <= 0 || count <= 0 || rank > count || Abs(residual) >= count || (residual != 0 && Signum(residual) != Signum(amount)) then Err(BadRank)
    else
      var adjusted := q.value.floor + if rank <= Abs(residual) then Signum(amount) else 0;
      if I64_MIN <= adjusted <= I64_MAX then Ok(adjusted) else Err(ShareOverflow)
  }

  lemma FloorAtMost(amount: nat, weight: nat, den: nat)
    requires den > 0 && weight <= den
    ensures 0 <= amount * weight / den <= amount
  {
    Allocation.Division(amount * weight, den);
    MultiplyAtMost(weight, den, amount);
    CancelAtMost(amount * weight / den, amount, den);
  }

  /** The kernel fails only on a bad weight or denominator, and otherwise yields the catalog's quota, signed. */
  lemma KernelGivesQuota(amount: I64, c: Claim, den: I64)
    requires c.weight <= I64_MAX
    ensures QuotientRemainder(amount, c.weight, den).Ok? <==> den > 0 && c.weight <= den
    ensures den > 0 && c.weight <= den ==>
      QuotientRemainder(amount, c.weight, den) ==
      Ok(Division(WithSign(amount, Quota(Abs(amount), den, c).magnitude), Quota(Abs(amount), den, c).remainder))
  {
    if den > 0 && c.weight <= den {
      FloorAtMost(Abs(amount), c.weight, den);
      NumeratorFits(amount, c.weight);
      Allocation.Division(Abs(amount) * c.weight, den);
    }
  }

  /** What SUM over the floor kernel returns for one source entity. */
  function FloorTotal(amount: I64, den: I64, claims: seq<Claim>): int
    requires forall c | c in claims :: c.weight <= I64_MAX
  {
    if claims == [] then 0
    else
      var q := QuotientRemainder(amount, claims[0].weight, den);
      (if q.Ok? then q.value.floor else 0) + FloorTotal(amount, den, claims[1..])
  }

  lemma {:induction false} FloorTotalIsSigned(amount: I64, den: I64, claims: seq<Claim>)
    requires den > 0 && forall c | c in claims :: c.weight <= den
    ensures FloorTotal(amount, den, claims) == WithSign(amount, SumMagnitudes(Quotas(Abs(amount), den, claims)))
  {
    if claims != [] {
      KernelGivesQuota(amount, claims[0], den);
      FloorTotalIsSigned(amount, den, claims[1..]);
    }
  }

  lemma {:induction false} WeightAtMostTotal(claims: seq<Claim>, k: nat)
    requires k < |claims|
    ensures claims[k].weight <= SumWeights(claims)
  {
    if k > 0 { WeightAtMostTotal(claims[1..], k - 1); }
  }

  /** The residual computed in the query is the catalog's residual, with the sign of the amount. */
  lemma ResidualIsSigned(amount: I64, claims: seq<Claim>)
    requires 0 < SumWeights(claims) <= I64_MAX
    ensures forall c | c in claims :: c.weight <= SumWeights(claims)
    ensures amount - FloorTotal(amount, SumWeights(claims), claims) == WithSign(amount, Residual(Abs(amount), claims))
  {
    forall c | c in claims ensures c.weight <= SumWeights(claims) {
      var k :| 0 <= k < |claims| && claims[k] == c;
      WeightAtMostTotal(claims, k);
    }
    FloorTotalIsSigned(amount, SumWeights(claims), claims);
    ResidualBounds(Abs(amount), claims);
  }

  lemma {:induction false} RankAtMost(s: seq<Share>, x: Share)
    ensures Rank(s, x) <= |s|
    ensures x in s ==> Rank(s, x) < |s|
  {
    if s != [] {
      TargetTotal(x.target, x.target);
      RankAtMost(s[1..], x);
    }
  }

  lemma RankBelowCount(amount: nat, claims: seq<Claim>, k: nat)
    requires SumWeights(claims) > 0 && k < |claims|
    ensures Rank(Quotas(amount, SumWeights(claims), claims), Quota(amount, SumWeights(claims), claims[k])) < |claims|
  {
    QuotaSums(amount, SumWeights(claims), claims);
    QuotasAt(amount, SumWeights(claims), claims, k);
    RankAtMost(Quotas(amount, SumWeights(claims), claims), Quota(amount, SumWeights(claims), claims[k]));
  }

  lemma {:induction false} SignedMember(amount: int, shares: seq<Share>, x: Share)
    requires x in shares
    ensures Allocated(x.target, WithSign(amount, x.magnitude)) in Signed(amount, shares)
  {
    var i :| 0 <= i < |shares| && shares[i] == x;
    SignedAt(amount, shares, i);
  }

  lemma {:induction false} ShareAtMost(s: seq<Share>, x: Share)
    requires x in s
    ensures x.magnitude <= SumMagnitudes(s)
  {
    var i :| 0 <= i < |s| && s[i] == x;
    MemberAtMost(s, i);
  }

  /** The share kernel adds the signed unit to the signed floor. */
  lemma KernelAddsUnit(amount: I64, c: Claim, den: I64, rank: I64, residual: nat, count: I64)
    requires den > 0 && c.weight <= den && 1 <= rank <= count && residual < count && residual <= Abs(amount)
    requires Quota(Abs(amount), den, c).magnitude + (if rank <= residual then 1 else 0) <= Abs(amount)
    ensures ShareKernel(amount, c.weight, den, rank, WithSign(amount, residual), count) ==
      Ok(WithSign(amount, Quota(Abs(amount), den, c).magnitude + if rank <= residual then 1 else 0))
  {
    KernelGivesQuota(amount, c, den);
  }

  lemma ShareFits(amount: nat, claims: seq<Claim>, k: nat)
    requires SumWeights(claims) > 0 && DistinctClaims(claims) && k < |claims|
    ensures ShareOf(amount, claims, claims[k]).magnitude <= amount && Residual(amount, claims) <= amount
  {
    AllocateGives(amount, claims, k);
    AllocateConserves(amount, claims);
    ShareAtMost(Allocate(amount, claims), ShareOf(amount, claims, claims[k]));
    ResidualBounds(amount, claims);
  }

  /** The one-based position of a claim in descending remainder, ascending target order. */
  function RankOf(amount: nat, claims: seq<Claim>, c: Claim): nat
    requires SumWeights(claims) > 0
  {
    1 + Rank(Quotas(amount, SumWeights(claims), claims), Quota(amount, SumWeights(claims), c))
  }

  lemma {:induction false} RowGivesShare(amount: I64, claims: seq<Claim>, k: nat)
    requires 0 < SumWeights(claims) <= I64_MAX && |claims| <= I64_MAX && DistinctClaims(claims) && k < |claims|
    ensures claims[k].weight <= SumWeights(claims) && RankOf(Abs(amount), claims, claims[k]) <= |claims|
    ensures I64_MIN <= WithSign(amount, Residual(Abs(amount), claims)) <= I64_MAX
    ensures ShareKernel(amount, claims[k].weight, SumWeights(claims), RankOf(Abs(amount), claims, claims[k]), WithSign(amount, Residual(Abs(amount), claims)), |claims|)
      == Ok(WithSign(amount, ShareOf(Abs(amount), claims, claims[k]).magnitude))
  {
    WeightAtMostTotal(claims, k);
    RankBelowCount(Abs(amount), claims, k);
    ResidualBounds(Abs(amount), claims);
    ShareFits(Abs(amount), claims, k);
    KernelAddsUnit(amount, claims[k], SumWeights(claims), RankOf(Abs(amount), claims, claims[k]), Residual(Abs(amount), claims), |claims|);
  }

  /** One row of the allocation query: with the rank and residual that the query
    * derives from the floor and remainder kernels, the share kernel never fails
    * and returns the amount the catalog allocates to that target. */
  lemma {:induction false} RowRefinesCatalog(amount: I64, claims: seq<Claim>, k: nat)
    requires 0 < SumWeights(claims) <= I64_MAX && |claims| <= I64_MAX && DistinctClaims(claims) && k < |claims|
    ensures forall c | c in claims :: c.weight <= SumWeights(claims)
    ensures RankOf(Abs(amount), claims, claims[k]) <= |claims|
    ensures I64_MIN <= amount - FloorTotal(amount, SumWeights(claims), claims) <= I64_MAX
    ensures
      var share := ShareKernel(amount, claims[k].weight, SumWeights(claims), RankOf(Abs(amount), claims, claims[k]), amount - FloorTotal(amount, SumWeights(claims), claims), |claims|);
      share.Ok? && Allocated(claims[k].target, share.value) in Signed(amount, Allocate(Abs(amount), claims))
  {
    ResidualIsSigned(amount, claims);
    RowGivesShare(amount, claims, k);
    AllocateGives(Abs(amount), claims, k);
    SignedMember(amount, Allocate(Abs(amount), claims), ShareOf(Abs(amount), claims, claims[k]));
  }

  /** The assertion kernel passes exactly when the catalog would accept the population as complete. */
  lemma AssertionRefinesCatalog(e: Eligibility, source: Source, bridge: seq<BridgeRow>, multiplicity: I64)
    requires |Claims(e, bridge)| <= I64_MAX && SumWeights(Claims(e, bridge)) <= I64_MAX
    requires source.expectedCount <= I64_MAX && I64_MIN <= source.expectedWeight <= I64_MAX
    ensures AssertAllocation(|Claims(e, bridge)|, source.expectedCount, SumWeights(Claims(e, bridge)), source.expectedWeight, multiplicity) == Ok(true)
      <==> Complete(e, source, bridge) && SumWeights(Claims(e, bridge)) > 0 && multiplicity == 1
  {
  }
}
