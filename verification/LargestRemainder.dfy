/** Who is paid what: floors, and units to the largest remainders. */
module LargestRemainder {
  import opened Allocation
  import opened EligibleRows
  import opened Names
  import opened Sorting
  import opened VerifyAllocation
  import opened Widths
  import opened Wrappers

  // ---- The order of targets ----

  /** At the first part where two targets differ, the smaller one has ended or has the smaller text. */
  ghost predicate PartDiffers(a: Target, b: Target, i: nat) {
    i <= |a| && i < |b| && a[..i] == b[..i] && (i == |a| || exists j: nat :: FirstDiffers(a[i], b[i], j))
  }

  ghost predicate Precedes(a: Target, b: Target) {
    exists i: nat :: PartDiffers(a, b, i)
  }

  lemma {:induction false} LessToPrecedes(a: Target, b: Target) returns (i: nat)
    requires TargetLess(a, b)
    ensures PartDiffers(a, b, i)
  {
    if a == [] {
      i := 0;
    } else if Less(a[0], b[0]) {
      LessExactly(a[0], b[0]);
      i := 0;
    } else {
      var j := LessToPrecedes(a[1..], b[1..]);
      i := j + 1;
      assert a[..i] == [a[0]] + a[1..][..j] && b[..i] == [b[0]] + b[1..][..j];
    }
  }

  // ---- One share per claim ----

  lemma RankedTargets(q: seq<Share>, n: nat)
    requires DistinctTargets(q) && StrictOn(ByRemainder(), q)
    ensures DistinctTargets(TopUp(Sort(ByRemainder(), q), n)) && |TopUp(Sort(ByRemainder(), q), n)| == |q|
  {
    var ranked := Sort(ByRemainder(), q);
    DistinctTell(q);
    SortSorts(ByRemainder(), q);
    SortMembers(ByRemainder(), q);
    if q != [] { TopUpAt(ranked, n, 0); }
    forall i, j | 0 <= i < j < |ranked| ensures TopUp(ranked, n)[i].target != TopUp(ranked, n)[j].target {
      TopUpAt(ranked, n, i);
      TopUpAt(ranked, n, j);
      assert ranked[i] in q && ranked[j] in q;
      assert ByRemainder()(ranked[i], ranked[j]);
    }
  }

  lemma AllocatedOnce(amount: nat, claims: seq<Claim>)
    requires SumWeights(claims) > 0 && DistinctClaims(claims)
    ensures |Allocate(amount, claims)| == |claims| && Sorted(ByTarget(), Allocate(amount, claims))
  {
    var q := Quotas(amount, SumWeights(claims), claims);
    var topped := TopUp(Sort(ByRemainder(), q), Residual(amount, claims));
    QuotaSums(amount, SumWeights(claims), claims);
    QuotasDistinct(amount, SumWeights(claims), claims);
    RankedTargets(q, Residual(amount, claims));
    DistinctTell(topped);
    OrdersAreStrict(topped);
    SortSorts(ByTarget(), topped);
  }

  // ---- What a successful result holds ----

  lemma GoodAreDistinct(dimensions: nat, rows: seq<BridgeRow>)
    requires GoodUpTo(dimensions, rows, |rows|)
    ensures DistinctClaims(Claims(AllRows, rows)) && |Claims(AllRows, rows)| == |rows| && SumWeights(Claims(AllRows, rows)) == WeightOf(rows)
    ensures forall i | 0 <= i < |rows| :: Claims(AllRows, rows)[i] == Claim(rows[i].target, RowWeight(rows[i]))
  {
    ClaimsOfRows(rows);
    WeightsAlike(dimensions, rows, |rows|);
    assert rows[..|rows|] == rows;
    forall i, j | 0 <= i < j < |rows| ensures rows[i].target != rows[j].target {
      assert GoodAt(dimensions, rows, j);
      assert rows[..j][i] == rows[i];
    }
  }

  lemma OutcomeValue(signed: int, claims: seq<Claim>)
    requires Apportioned(signed, claims).Ok? && SumWeights(claims) > 0
    ensures Apportioned(signed, claims).value == Signed(signed, Allocate(Abs(signed), claims))
  {
  }

  /** What the result is made of. */
  lemma ResultIs(dimensions: nat, e: Eligibility, source: Source, bridge: seq<BridgeRow>)
    requires Outcome(dimensions, e, source, bridge).Ok?
    ensures
      var rows := CountingRows(e, bridge);
      && GoodUpTo(dimensions, rows, |rows|) && WeightOf(rows) > 0 && SumWeights(Claims(AllRows, rows)) == WeightOf(rows)
      && Outcome(dimensions, e, source, bridge).value == Signed(source.amount, Allocate(Abs(source.amount), Claims(AllRows, rows)))
  {
    AcceptedExactly(dimensions, e, source, bridge);
    CountingExactly(e, bridge);
    GoodAreDistinct(dimensions, CountingRows(e, bridge));
    OutcomeValue(source.amount, Claims(AllRows, CountingRows(e, bridge)));
  }

  lemma PaidSorted(dimensions: nat, e: Eligibility, source: Source, bridge: seq<BridgeRow>)
    requires Outcome(dimensions, e, source, bridge).Ok?
    ensures
      var paid := Outcome(dimensions, e, source, bridge).value;
      |paid| == |CountingRows(e, bridge)| && forall k, l | 0 <= k < l < |paid| :: TargetLess(paid[k].target, paid[l].target)
  {
    var rows := CountingRows(e, bridge);
    ResultIs(dimensions, e, source, bridge);
    GoodAreDistinct(dimensions, rows);
    var shares := Allocate(Abs(source.amount), Claims(AllRows, rows));
    AllocatedOnce(Abs(source.amount), Claims(AllRows, rows));
    SignedTotal(source.amount, shares);
    forall k, l | 0 <= k < l < |shares| ensures TargetLess(Signed(source.amount, shares)[k].target, Signed(source.amount, shares)[l].target) {
      SignedAt(source.amount, shares, k);
      SignedAt(source.amount, shares, l);
      assert ByTarget()(shares[k], shares[l]);
    }
  }

  /** One amount per row that counts, in strictly ascending order of targets. */
  lemma PaidInOrder(dimensions: nat, e: Eligibility, source: Source, bridge: seq<BridgeRow>)
    requires Outcome(dimensions, e, source, bridge).Ok?
    ensures
      var paid := Outcome(dimensions, e, source, bridge).value;
      |paid| == |CountingRows(e, bridge)| && forall k, l | 0 <= k < l < |paid| :: Precedes(paid[k].target, paid[l].target)
  {
    PaidSorted(dimensions, e, source, bridge);
    var paid := Outcome(dimensions, e, source, bridge).value;
    forall k, l | 0 <= k < l < |paid| ensures Precedes(paid[k].target, paid[l].target) {
      var i := LessToPrecedes(paid[k].target, paid[l].target);
    }
  }

  /** The one place at which a row's target is paid what its rank entitles it to. */
  lemma PaidRank(dimensions: nat, e: Eligibility, source: Source, bridge: seq<BridgeRow>, i: nat) returns (k: nat)
    requires Outcome(dimensions, e, source, bridge).Ok? && i < |CountingRows(e, bridge)|
    ensures
      var rows := CountingRows(e, bridge);
      var paid := Outcome(dimensions, e, source, bridge).value;
      var claims := Claims(AllRows, rows);
      && SumWeights(claims) == WeightOf(rows) > 0 && GoodWeight(rows[i])
      && k < |paid| && (forall l | 0 <= l < |paid| && paid[l].target == rows[i].target :: l == k)
      && paid[k] == Allocated(rows[i].target,
           WithSign(source.amount, ShareOf(Abs(source.amount), claims, Claim(rows[i].target, rows[i].weight.value)).magnitude))
  {
    var rows := CountingRows(e, bridge);
    var claims := Claims(AllRows, rows);
    ResultIs(dimensions, e, source, bridge);
    GoodAreDistinct(dimensions, rows);
    assert GoodAt(dimensions, rows, i);
    AllocateGives(Abs(source.amount), claims, i);
    k := SignedPlace(source.amount, Allocate(Abs(source.amount), claims), ShareOf(Abs(source.amount), claims, claims[i]));
    PaidSorted(dimensions, e, source, bridge);
    TargetTotal(rows[i].target, rows[i].target);
  }

  lemma SignedPlace(amount: int, shares: seq<Share>, x: Share) returns (k: nat)
    requires x in shares
    ensures k < |Signed(amount, shares)| && Signed(amount, shares)[k] == Allocated(x.target, WithSign(amount, x.magnitude))
  {
    k :| 0 <= k < |shares| && shares[k] == x;
    SignedAt(amount, shares, k);
  }

  lemma AllocatedClaim(amount: nat, claims: seq<Claim>, x: Share) returns (i: nat)
    requires SumWeights(claims) > 0 && x in Allocate(amount, claims)
    ensures i < |claims| && claims[i].target == x.target
  {
    var q := Quotas(amount, SumWeights(claims), claims);
    var ranked := Sort(ByRemainder(), q);
    SortMembers(ByTarget(), TopUp(ranked, Residual(amount, claims)));
    var j :| 0 <= j < |TopUp(ranked, Residual(amount, claims))| && TopUp(ranked, Residual(amount, claims))[j] == x;
    TopUpLength(ranked, Residual(amount, claims));
    TopUpAt(ranked, Residual(amount, claims), j);
    SortMembers(ByRemainder(), q);
    assert ranked[j] in q;
    AmongQuotas(amount, SumWeights(claims), claims, ranked[j]);
    i :| 0 <= i < |claims| && Quota(amount, SumWeights(claims), claims[i]) == ranked[j];
  }

  lemma {:induction false} TopUpLength(s: seq<Share>, n: nat)
    ensures |TopUp(s, n)| == |s|
  {
    if s != [] && n > 0 { TopUpLength(s[1..], n - 1); }
  }

  /** The targets paid are exactly those of the rows that count. */
  lemma PaidTargets(dimensions: nat, e: Eligibility, source: Source, bridge: seq<BridgeRow>, t: Target)
    requires Outcome(dimensions, e, source, bridge).Ok?
    ensures (exists x :: x in Outcome(dimensions, e, source, bridge).value && x.target == t)
       <==> exists row :: row in bridge && Counts(e, row) && row.target == t
  {
    var paid := Outcome(dimensions, e, source, bridge).value;
    var rows := CountingRows(e, bridge);
    if x :| x in paid && x.target == t {
      var i := PaidRow(dimensions, e, source, bridge, x);
      CountingMembers(e, bridge, rows[i]);
      assert rows[i] in bridge && Counts(e, rows[i]);
    }
    if row :| row in bridge && Counts(e, row) && row.target == t {
      CountingMembers(e, bridge, row);
      var i :| 0 <= i < |rows| && rows[i] == row;
      var k := PaidRank(dimensions, e, source, bridge, i);
      assert paid[k] in paid;
    }
  }

  lemma PaidRow(dimensions: nat, e: Eligibility, source: Source, bridge: seq<BridgeRow>, x: Allocated) returns (i: nat)
    requires Outcome(dimensions, e, source, bridge).Ok? && x in Outcome(dimensions, e, source, bridge).value
    ensures i < |CountingRows(e, bridge)| && CountingRows(e, bridge)[i].target == x.target
  {
    var rows := CountingRows(e, bridge);
    ResultIs(dimensions, e, source, bridge);
    ClaimsOfRows(rows);
    i := SignedClaim(source.amount, Claims(AllRows, rows), x);
  }

  lemma SignedClaim(signed: int, claims: seq<Claim>, x: Allocated) returns (i: nat)
    requires SumWeights(claims) > 0 && x in Signed(signed, Allocate(Abs(signed), claims))
    ensures i < |claims| && claims[i].target == x.target
  {
    var shares := Allocate(Abs(signed), claims);
    SignedTotal(signed, shares);
    var k :| 0 <= k < |shares| && Signed(signed, shares)[k] == x;
    SignedAt(signed, shares, k);
    i := AllocatedClaim(Abs(signed), claims, shares[k]);
  }

  // ---- Floors and units ----

  /** The exact share `amount * weight / total` of a row, as a floor and a rest. */
  predicate Divides(source: Source, rows: seq<BridgeRow>, row: BridgeRow, floor: nat, rest: nat) {
    && row.weight.Some? && rest < WeightOf(rows)
    && floor * WeightOf(rows) + rest == Magnitude(source.amount) * row.weight.value
  }

  lemma DivisionIs(n: nat, d: nat, floor: nat, rest: nat)
    requires rest < d && floor * d + rest == n
    ensures n / d == floor && n % d == rest
  {
    Division(n, d);
    if n / d < floor {
      MultiplyAtMost(n / d + 1, floor, d);
      Distribute(n / d, 1, d);
    } else if floor < n / d {
      MultiplyAtMost(floor + 1, n / d, d);
      Distribute(floor, 1, d);
    }
  }

  lemma QuotaIs(amount: nat, den: nat, c: Claim, floor: nat, rest: nat)
    requires rest < den && floor * den + rest == amount * c.weight
    ensures Quota(amount, den, c) == Share(c.target, floor, rest)
  {
    DivisionIs(amount * c.weight, den, floor, rest);
  }

  function Units(x: Allocated): nat {
    if x.amount < 0 then -x.amount else x.amount
  }

  /** The target of each row that counts is paid, in one place, its floor or one unit more, with the
    * sign of the amount. */
  lemma PaidFloorOrMore(dimensions: nat, e: Eligibility, source: Source, bridge: seq<BridgeRow>, i: nat, floor: nat, rest: nat) returns (k: nat)
    requires Outcome(dimensions, e, source, bridge).Ok? && i < |CountingRows(e, bridge)|
    requires Divides(source, CountingRows(e, bridge), CountingRows(e, bridge)[i], floor, rest)
    ensures
      var paid := Outcome(dimensions, e, source, bridge).value;
      && k < |paid| && (forall l | 0 <= l < |paid| && paid[l].target == CountingRows(e, bridge)[i].target :: l == k)
      && paid[k].target == CountingRows(e, bridge)[i].target
      && (Units(paid[k]) == floor || Units(paid[k]) == floor + 1)
      && (source.amount >= 0 ==> paid[k].amount >= 0) && (source.amount < 0 ==> paid[k].amount <= 0)
  {
    var row := CountingRows(e, bridge)[i];
    k := PaidRank(dimensions, e, source, bridge, i);
    QuotaIs(Abs(source.amount), WeightOf(CountingRows(e, bridge)), Claim(row.target, row.weight.value), floor, rest);
  }

  /** Row `i`, whose exact share has this floor and rest, is paid so many units. */
  ghost predicate Pays(source: Source, rows: seq<BridgeRow>, paid: seq<Allocated>, i: nat, floor: nat, rest: nat, units: nat) {
    && i < |rows| && Divides(source, rows, rows[i], floor, rest)
    && exists k :: 0 <= k < |paid| && paid[k].target == rows[i].target && Units(paid[k]) == units
  }

  function ClaimOf(row: BridgeRow): Claim {
    Claim(row.target, RowWeight(row))
  }

  lemma UnitsAtRank(dimensions: nat, e: Eligibility, source: Source, bridge: seq<BridgeRow>, paid: seq<Allocated>, i: nat, floor: nat, rest: nat, units: nat)
    requires Outcome(dimensions, e, source, bridge) == Ok(paid) && Pays(source, CountingRows(e, bridge), paid, i, floor, rest, units)
    ensures
      var claims := Claims(AllRows, CountingRows(e, bridge));
      Ranked(Abs(source.amount), claims, ClaimOf(CountingRows(e, bridge)[i]), floor, rest, units)
  {
    var row := CountingRows(e, bridge)[i];
    var m := PaidRank(dimensions, e, source, bridge, i);
    QuotaIs(Abs(source.amount), WeightOf(CountingRows(e, bridge)), Claim(row.target, row.weight.value), floor, rest);
  }

  ghost predicate Ranked(amount: nat, claims: seq<Claim>, c: Claim, floor: nat, rest: nat, units: nat) {
    && SumWeights(claims) > 0 && Quota(amount, SumWeights(claims), c) == Share(c.target, floor, rest)
    && ShareOf(amount, claims, c).magnitude == units
  }

  /** A row that gains a unit goes before one that does not: its rest is larger, or the rests are
    * equal and its target is the smaller one. */
  lemma LargestRestsGain(dimensions: nat, e: Eligibility, source: Source, bridge: seq<BridgeRow>, paid: seq<Allocated>,
                         i: nat, floor: nat, rest: nat, j: nat, otherFloor: nat, otherRest: nat)
    requires Outcome(dimensions, e, source, bridge) == Ok(paid)
    requires Pays(source, CountingRows(e, bridge), paid, i, floor, rest, floor + 1)
    requires Pays(source, CountingRows(e, bridge), paid, j, otherFloor, otherRest, otherFloor)
    ensures rest > otherRest || (rest == otherRest && Precedes(CountingRows(e, bridge)[i].target, CountingRows(e, bridge)[j].target))
  {
    var rows := CountingRows(e, bridge);
    UnitsAtRank(dimensions, e, source, bridge, paid, i, floor, rest, floor + 1);
    UnitsAtRank(dimensions, e, source, bridge, paid, j, otherFloor, otherRest, otherFloor);
    RestsOrdered(Abs(source.amount), Claims(AllRows, rows), ClaimOf(rows[i]), ClaimOf(rows[j]), floor, rest, otherFloor, otherRest);
  }

  lemma RestsOrdered(amount: nat, claims: seq<Claim>, c: Claim, d: Claim, floor: nat, rest: nat, otherFloor: nat, otherRest: nat)
    requires Ranked(amount, claims, c, floor, rest, floor + 1) && Ranked(amount, claims, d, otherFloor, otherRest, otherFloor)
    ensures rest > otherRest || (rest == otherRest && Precedes(c.target, d.target))
  {
    GainsFirst(amount, claims, c, d);
    if rest == otherRest { var p := LessToPrecedes(c.target, d.target); }
  }

  lemma GainsFirst(amount: nat, claims: seq<Claim>, c: Claim, d: Claim)
    requires SumWeights(claims) > 0
    requires ShareOf(amount, claims, c).magnitude == Quota(amount, SumWeights(claims), c).magnitude + 1
    requires ShareOf(amount, claims, d).magnitude == Quota(amount, SumWeights(claims), d).magnitude
    ensures ByRemainder()(Quota(amount, SumWeights(claims), c), Quota(amount, SumWeights(claims), d))
  {
    var s := Quotas(amount, SumWeights(claims), claims);
    var x, y := Quota(amount, SumWeights(claims), c), Quota(amount, SumWeights(claims), d);
    TargetTotal(c.target, d.target);
    if ByRemainder()(y, x) { RankMonotone(s, y, x); }
    if x.remainder == y.remainder && c.target == d.target { RankTied(s, x, y); }
  }

  lemma {:induction false} RankTied(s: seq<Share>, x: Share, y: Share)
    requires x.remainder == y.remainder && x.target == y.target
    ensures Rank(s, x) == Rank(s, y)
  {
    if s != [] { RankTied(s[1..], x, y); }
  }

  /** Nothing is lost or made: the amounts add up to the source's. */
  lemma PaidInFull(dimensions: nat, e: Eligibility, source: Source, bridge: seq<BridgeRow>)
    requires Outcome(dimensions, e, source, bridge).Ok?
    ensures SumPaid(Outcome(dimensions, e, source, bridge).value) == source.amount
  {
    var claims := Claims(AllRows, CountingRows(e, bridge));
    ResultIs(dimensions, e, source, bridge);
    AllocateConserves(Abs(source.amount), claims);
    SignedTotal(source.amount, Allocate(Abs(source.amount), claims));
    TotalIsSum(Outcome(dimensions, e, source, bridge).value);
  }

  function SumPaid(paid: seq<Allocated>): int {
    if paid == [] then 0 else paid[0].amount + SumPaid(paid[1..])
  }

  lemma {:induction false} SumPaidAppend(paid: seq<Allocated>, x: Allocated)
    ensures SumPaid(paid + [x]) == SumPaid(paid) + x.amount
  {
    if paid != [] {
      assert (paid + [x])[1..] == paid[1..] + [x];
      SumPaidAppend(paid[1..], x);
    }
  }

  lemma {:induction false} TotalIsSum(paid: seq<Allocated>)
    ensures Total(paid) == SumPaid(paid)
  {
    if paid != [] {
      var n := |paid| - 1;
      TotalIsSum(paid[..n]);
      SumPaidAppend(paid[..n], paid[n]);
      assert paid == paid[..n] + [paid[n]];
    }
  }
}
