/** Largest-remainder allocation of an exact amount over a bridge of weighted targets, on unbounded
    integers: floors first, then one unit each to the largest remainders, ties by target. From this
    specification alone follow conservation, quotas within one unit, monotonicity in the weights and
    independence of the order of the bridge. */
module Allocation {
  import opened Names
  import opened Sorting
  import opened Widths
  import opened Wrappers

  type Target = seq<string>

  datatype Eligibility = AllRows | Utf8Equals(value: string)

  datatype Source = Source(amount: I128, expectedCount: nat, expectedWeight: I128)

  datatype BridgeRow = BridgeRow(target: Target, weight: Option<I128>, eligibility: Option<string>)

  datatype Allocated = Allocated(target: Target, amount: int)

  datatype AllocationError = InvalidTarget | InvalidWeight | IncompletePopulation | ZeroDenominator | Overflow | Conservation

  datatype Claim = Claim(target: Target, weight: nat)

  /** A claim with its quotient and remainder; the magnitude may still gain one unit. */
  datatype Share = Share(target: Target, magnitude: nat, remainder: nat)

  // ---- The order of claims ----

  predicate TargetLess(a: Target, b: Target) {
    b != [] && (a == [] || Less(a[0], b[0]) || (a[0] == b[0] && TargetLess(a[1..], b[1..])))
  }

  lemma {:induction false} TargetTotal(a: Target, b: Target)
    ensures a == b || TargetLess(a, b) || TargetLess(b, a)
    ensures !TargetLess(a, a)
  {
    if a != [] {
      LessIrreflexive(a[0]);
      TargetTotal(a[1..], a[1..]);
      if b != [] {
        LessTotal(a[0], b[0]);
        if a[0] == b[0] {
          TargetTotal(a[1..], b[1..]);
          assert a == [a[0]] + a[1..] && b == [b[0]] + b[1..];
        }
      }
    }
  }

  lemma {:induction false} TargetTransitive(a: Target, b: Target, c: Target)
    requires TargetLess(a, b) && TargetLess(b, c)
    ensures TargetLess(a, c)
  {
    if a != [] {
      LessIrreflexive(a[0]);
      if Less(a[0], b[0]) && Less(b[0], c[0]) { LessTransitive(a[0], b[0], c[0]); }
      if a[0] == b[0] && b[0] == c[0] { TargetTransitive(a[1..], b[1..], c[1..]); }
    }
  }

  function ByTarget(): (Share, Share) -> bool {
    (a: Share, b: Share) => TargetLess(a.target, b.target)
  }

  /** Larger remainder first, smaller target among equals. */
  function ByRemainder(): (Share, Share) -> bool {
    (a: Share, b: Share) => a.remainder > b.remainder || (a.remainder == b.remainder && TargetLess(a.target, b.target))
  }

  ghost predicate DistinctTargets(s: seq<Share>) {
    forall i, j | 0 <= i < j < |s| :: s[i].target != s[j].target
  }

  ghost predicate TargetsTell(s: seq<Share>) {
    forall a, b | a in s && b in s && a.target == b.target :: a == b
  }

  lemma OrdersAreStrict(s: seq<Share>)
    requires TargetsTell(s)
    ensures StrictOn(ByTarget(), s) && StrictOn(ByRemainder(), s)
  {
    forall a, b | a in s && b in s ensures a == b || (ByTarget()(a, b) || ByTarget()(b, a)) ensures !ByTarget()(a, a) {
      TargetTotal(a.target, b.target);
    }
    forall a, b | a in s && b in s ensures a == b || ByRemainder()(a, b) || ByRemainder()(b, a) ensures !ByRemainder()(a, a) {
      TargetTotal(a.target, b.target);
    }
    forall a, b, c | a in s && b in s && c in s && TargetLess(a.target, b.target) && TargetLess(b.target, c.target)
      ensures TargetLess(a.target, c.target)
    {
      TargetTransitive(a.target, b.target, c.target);
    }
  }

  lemma DistinctTell(s: seq<Share>)
    requires DistinctTargets(s)
    ensures TargetsTell(s) && Distinct(s)
  {
  }

  // ---- The allocation as a function ----

  function SumWeights(claims: seq<Claim>): nat {
    if claims == [] then 0 else claims[0].weight + SumWeights(claims[1..])
  }

  function SumMagnitudes(s: seq<Share>): nat {
    if s == [] then 0 else s[0].magnitude + SumMagnitudes(s[1..])
  }

  function SumRemainders(s: seq<Share>): nat {
    if s == [] then 0 else s[0].remainder + SumRemainders(s[1..])
  }

  function Quota(amount: nat, denominator: nat, c: Claim): Share
    requires denominator > 0
  {
    Share(c.target, amount * c.weight / denominator, amount * c.weight % denominator)
  }

  function Quotas(amount: nat, denominator: nat, claims: seq<Claim>): seq<Share>
    requires denominator > 0
  {
    if claims == [] then [] else [Quota(amount, denominator, claims[0])] + Quotas(amount, denominator, claims[1..])
  }

  /** One more unit for each of the first `n`. */
  function TopUp(s: seq<Share>, n: nat): seq<Share> {
    if s == [] || n == 0 then s else [s[0].(magnitude := s[0].magnitude + 1)] + TopUp(s[1..], n - 1)
  }

  function Residual(amount: nat, claims: seq<Claim>): nat
    requires SumWeights(claims) > 0
  {
    var floors := SumMagnitudes(Quotas(amount, SumWeights(claims), claims));
    if floors <= amount then amount - floors else 0
  }

  /** Shares in target order. */
  function Allocate(amount: nat, claims: seq<Claim>): seq<Share>
    requires SumWeights(claims) > 0
  {
    var ranked := Sort(ByRemainder(), Quotas(amount, SumWeights(claims), claims));
    Sort(ByTarget(), TopUp(ranked, Residual(amount, claims)))
  }

  // ---- Sums ----

  lemma {:induction false} InsertIntoSums(before: (Share, Share) -> bool, x: Share, s: seq<Share>)
    ensures SumMagnitudes(InsertInto(before, x, s)) == x.magnitude + SumMagnitudes(s)
    ensures SumRemainders(InsertInto(before, x, s)) == x.remainder + SumRemainders(s)
  {
    if s != [] && !before(x, s[0]) { InsertIntoSums(before, x, s[1..]); }
  }

  lemma {:induction false} SortSums(before: (Share, Share) -> bool, s: seq<Share>)
    ensures SumMagnitudes(Sort(before, s)) == SumMagnitudes(s)
    ensures SumRemainders(Sort(before, s)) == SumRemainders(s)
  {
    if s != [] {
      SortSums(before, s[1..]);
      InsertIntoSums(before, s[0], Sort(before, s[1..]));
    }
  }

  lemma Distribute(a: int, b: int, c: int)
    ensures (a + b) * c == a * c + b * c
    ensures c * (a + b) == c * a + c * b
  {
  }

  lemma CancelAtMost(a: int, b: int, d: nat)
    requires d > 0 && a * d <= b * d
    ensures a <= b
  {
    if b < a {
      MultiplyAtMost(b + 1, a, d);
      Distribute(b, 1, d);
    }
  }

  lemma CancelBelow(a: int, n: nat, d: nat)
    requires d > 0 && n > 0 && a * d <= n * (d - 1)
    ensures a < n
  {
    Distribute(d, -1, n);
    if n <= a { MultiplyAtMost(n, a, d); }
  }

  lemma MultiplyAtMost(a: int, b: int, d: nat)
    requires a <= b
    ensures a * d <= b * d
  {
  }

  lemma Division(n: nat, d: nat)
    requires d > 0
    ensures n == (n / d) * d + n % d
  {
  }

  /** Floors and remainders together make up the whole product. */
  lemma {:induction false} QuotaSums(amount: nat, den: nat, claims: seq<Claim>)
    requires den > 0
    ensures SumMagnitudes(Quotas(amount, den, claims)) * den + SumRemainders(Quotas(amount, den, claims)) == amount * SumWeights(claims)
    ensures |Quotas(amount, den, claims)| == |claims|
  {
    if claims != [] {
      var q := Quotas(amount, den, claims[1..]);
      QuotaSums(amount, den, claims[1..]);
      Division(amount * claims[0].weight, den);
      Distribute(amount * claims[0].weight / den, SumMagnitudes(q), den);
      Distribute(claims[0].weight, SumWeights(claims[1..]), amount);
    }
  }

  lemma {:induction false} RemaindersBelow(s: seq<Share>, den: nat)
    requires den > 0 && forall x | x in s :: x.remainder < den
    ensures SumRemainders(s) <= |s| * (den - 1)
  {
    if s != [] {
      RemaindersBelow(s[1..], den);
      Distribute(1, |s[1..]|, den - 1);
    }
  }

  lemma {:induction false} QuotasAt(amount: nat, den: nat, claims: seq<Claim>, k: nat)
    requires den > 0 && k < |claims|
    ensures |Quotas(amount, den, claims)| == |claims| && Quotas(amount, den, claims)[k] == Quota(amount, den, claims[k])
  {
    QuotaSums(amount, den, claims);
    if k > 0 { QuotasAt(amount, den, claims[1..], k - 1); }
  }

  lemma QuotaRemainders(amount: nat, den: nat, claims: seq<Claim>)
    requires den > 0
    ensures forall x | x in Quotas(amount, den, claims) :: x.remainder < den
  {
    QuotaSums(amount, den, claims);
    forall k | 0 <= k < |claims| ensures Quotas(amount, den, claims)[k].remainder < den {
      QuotasAt(amount, den, claims, k);
    }
  }

  /** The residual never goes below zero and is below the number of claims. */
  lemma ResidualBounds(amount: nat, claims: seq<Claim>)
    requires SumWeights(claims) > 0
    ensures SumMagnitudes(Quotas(amount, SumWeights(claims), claims)) + Residual(amount, claims) == amount
    ensures Residual(amount, claims) * SumWeights(claims) == SumRemainders(Quotas(amount, SumWeights(claims), claims))
    ensures Residual(amount, claims) < |claims|
  {
    var den := SumWeights(claims);
    QuotaSums(amount, den, claims);
    QuotaRemainders(amount, den, claims);
    RemaindersBelow(Quotas(amount, den, claims), den);
    ResidualArithmetic(amount, SumMagnitudes(Quotas(amount, den, claims)), SumRemainders(Quotas(amount, den, claims)), den, |claims|);
  }

  lemma ResidualArithmetic(amount: nat, floors: nat, remainders: nat, den: nat, n: nat)
    requires den > 0 && n > 0 && floors * den + remainders == amount * den && remainders <= n * (den - 1)
    ensures floors <= amount && (amount - floors) * den == remainders && amount - floors < n
  {
    CancelAtMost(floors, amount, den);
    Distribute(amount - floors, floors, den);
    CancelBelow(amount - floors, n, den);
  }

  // ---- Who gets the residual units ----

  /** How many shares go before `x` in remainder order. */
  function Rank(s: seq<Share>, x: Share): nat {
    if s == [] then 0 else (if ByRemainder()(s[0], x) then 1 else 0) + Rank(s[1..], x)
  }

  lemma {:induction false} InsertIntoRank(before: (Share, Share) -> bool, y: Share, s: seq<Share>, x: Share)
    ensures Rank(InsertInto(before, y, s), x) == (if ByRemainder()(y, x) then 1 else 0) + Rank(s, x)
  {
    if s != [] && !before(y, s[0]) { InsertIntoRank(before, y, s[1..], x); }
  }

  lemma {:induction false} SortRank(before: (Share, Share) -> bool, s: seq<Share>, x: Share)
    ensures Rank(Sort(before, s), x) == Rank(s, x)
  {
    if s != [] {
      SortRank(before, s[1..], x);
      InsertIntoRank(before, s[0], Sort(before, s[1..]), x);
    }
  }

  lemma {:induction false} NoneBefore(s: seq<Share>, x: Share)
    requires forall y | y in s :: !ByRemainder()(y, x)
    ensures Rank(s, x) == 0
  {
    if s != [] { NoneBefore(s[1..], x); }
  }

  /** In a sorted list a share's rank is its position. */
  lemma {:induction false} SortedRank(s: seq<Share>, i: nat)
    requires Sorted(ByRemainder(), s) && StrictOn(ByRemainder(), s) && i < |s|
    ensures Rank(s, s[i]) == i
  {
    assert forall y | y in s[1..] :: y in s;
    if i == 0 {
      forall y | y in s[1..] ensures !ByRemainder()(y, s[0]) {
        var k :| 0 <= k < |s[1..]| && s[1..][k] == y;
        assert ByRemainder()(s[0], s[k + 1]);
      }
      NoneBefore(s[1..], s[0]);
    } else {
      SortedRank(s[1..], i - 1);
    }
  }

  lemma {:induction false} TopUpAt(s: seq<Share>, n: nat, i: nat)
    requires i < |s|
    ensures |TopUp(s, n)| == |s| && TopUp(s, n)[i].target == s[i].target && TopUp(s, n)[i].remainder == s[i].remainder
    ensures TopUp(s, n)[i].magnitude == s[i].magnitude + (if i < n then 1 else 0)
  {
    if n > 0 {
      if i > 0 { TopUpAt(s[1..], n - 1, i - 1); } else if |s| > 1 { TopUpAt(s[1..], n - 1, 0); }
    }
  }

  lemma {:induction false} TopUpSum(s: seq<Share>, n: nat)
    requires n <= |s|
    ensures SumMagnitudes(TopUp(s, n)) == SumMagnitudes(s) + n && |TopUp(s, n)| == |s|
  {
    if n > 0 { TopUpSum(s[1..], n - 1); }
  }

  // ---- What the allocation promises ----

  ghost predicate DistinctClaims(claims: seq<Claim>) {
    forall i, j | 0 <= i < j < |claims| :: claims[i].target != claims[j].target
  }

  /** Conservation: the magnitudes add up to the whole amount. */
  lemma AllocateConserves(amount: nat, claims: seq<Claim>)
    requires SumWeights(claims) > 0
    ensures SumMagnitudes(Allocate(amount, claims)) == amount
  {
    var q := Quotas(amount, SumWeights(claims), claims);
    ResidualBounds(amount, claims);
    QuotaSums(amount, SumWeights(claims), claims);
    SortSums(ByRemainder(), q);
    SortMembers(ByRemainder(), q);
    TopUpSum(Sort(ByRemainder(), q), Residual(amount, claims));
    SortSums(ByTarget(), TopUp(Sort(ByRemainder(), q), Residual(amount, claims)));
  }

  lemma QuotasDistinct(amount: nat, den: nat, claims: seq<Claim>)
    requires den > 0 && DistinctClaims(claims)
    ensures DistinctTargets(Quotas(amount, den, claims)) && StrictOn(ByRemainder(), Quotas(amount, den, claims))
  {
    var q := Quotas(amount, den, claims);
    QuotaSums(amount, den, claims);
    forall i, j | 0 <= i < j < |q| ensures q[i].target != q[j].target {
      QuotasAt(amount, den, claims, i);
      QuotasAt(amount, den, claims, j);
    }
    DistinctTell(q);
    OrdersAreStrict(q);
  }

  /** The share of a claim: its floor, plus one unit if its rank is below the residual. */
  function ShareOf(amount: nat, claims: seq<Claim>, c: Claim): Share
    requires SumWeights(claims) > 0
  {
    var den := SumWeights(claims);
    var s := Quota(amount, den, c);
    s.(magnitude := s.magnitude + if Rank(Quotas(amount, den, claims), s) < Residual(amount, claims) then 1 else 0)
  }

  /** Every claim gets exactly the share its rank entitles it to. */
  lemma {:induction false} AllocateGives(amount: nat, claims: seq<Claim>, k: nat)
    requires SumWeights(claims) > 0 && DistinctClaims(claims) && k < |claims|
    ensures ShareOf(amount, claims, claims[k]) in Allocate(amount, claims)
  {
    var den := SumWeights(claims);
    var q := Quotas(amount, den, claims);
    var ranked := Sort(ByRemainder(), q);
    QuotasDistinct(amount, den, claims);
    QuotasAt(amount, den, claims, k);
    var i := PlaceOf(q, k);
    TopUpAt(ranked, Residual(amount, claims), i);
    SortMembers(ByTarget(), TopUp(ranked, Residual(amount, claims)));
    assert TopUp(ranked, Residual(amount, claims))[i] == ShareOf(amount, claims, claims[k]);
  }

  /** Sorted by remainder, a share stands at its rank. */
  lemma {:induction false} PlaceOf(q: seq<Share>, k: nat) returns (i: nat)
    requires DistinctTargets(q) && StrictOn(ByRemainder(), q) && k < |q|
    ensures i < |Sort(ByRemainder(), q)| && Sort(ByRemainder(), q)[i] == q[k] && Rank(q, q[k]) == i
  {
    var ranked := Sort(ByRemainder(), q);
    DistinctTell(q);
    SortSorts(ByRemainder(), q);
    SortMembers(ByRemainder(), q);
    assert q[k] in ranked;
    i :| 0 <= i < |ranked| && ranked[i] == q[k];
    assert StrictOn(ByRemainder(), ranked);
    SortedRank(ranked, i);
    SortRank(ByRemainder(), q, q[k]);
  }

  lemma {:induction false} CountAbove(s: seq<Share>, x: Share)
    requires forall y | y in s && y.remainder > 0 :: ByRemainder()(y, x)
    ensures Rank(s, x) >= Positive(s)
  {
    if s != [] { CountAbove(s[1..], x); }
  }

  function Positive(s: seq<Share>): nat {
    if s == [] then 0 else (if s[0].remainder > 0 then 1 else 0) + Positive(s[1..])
  }

  lemma {:induction false} RemaindersAtMost(s: seq<Share>, den: nat)
    requires den > 0 && forall x | x in s :: x.remainder < den
    ensures SumRemainders(s) <= Positive(s) * den
  {
    if s != [] {
      RemaindersAtMost(s[1..], den);
      Distribute(1, Positive(s[1..]), den);
    }
  }

  /** A claim whose quota is exact never gains a unit; so a zero weight gets nothing. */
  lemma ExactGetsFloor(amount: nat, claims: seq<Claim>, c: Claim)
    requires SumWeights(claims) > 0 && amount * c.weight % SumWeights(claims) == 0
    ensures ShareOf(amount, claims, c).magnitude == amount * c.weight / SumWeights(claims)
    ensures c.weight == 0 ==> ShareOf(amount, claims, c).magnitude == 0
  {
    var den := SumWeights(claims);
    var q := Quotas(amount, den, claims);
    QuotaRemainders(amount, den, claims);
    RemaindersAtMost(q, den);
    ResidualBounds(amount, claims);
    CancelAtMost(Residual(amount, claims), Positive(q), den);
    CountAbove(q, Quota(amount, den, c));
  }

  /** Floor or ceiling of the exact quota. */
  lemma WithinOne(amount: nat, claims: seq<Claim>, c: Claim)
    requires SumWeights(claims) > 0
    ensures ShareOf(amount, claims, c).magnitude * SumWeights(claims) < amount * c.weight + SumWeights(claims)
    ensures amount * c.weight < (ShareOf(amount, claims, c).magnitude + 1) * SumWeights(claims)
  {
    var den := SumWeights(claims);
    var floor := amount * c.weight / den;
    Division(amount * c.weight, den);
    Distribute(floor, 1, den);
    if amount * c.weight % den == 0 { ExactGetsFloor(amount, claims, c); }
    Distribute(floor + 1, 1, den);
  }

  lemma {:induction false} RankMonotone(s: seq<Share>, x: Share, y: Share)
    requires ByRemainder()(x, y)
    ensures Rank(s, x) <= Rank(s, y)
  {
    if s != [] {
      RankMonotone(s[1..], x, y);
      var z := s[0];
      if z.remainder == x.remainder && x.remainder == y.remainder && TargetLess(z.target, x.target) {
        TargetTransitive(z.target, x.target, y.target);
      }
    }
  }

  lemma DivisionMonotone(a: nat, b: nat, d: nat)
    requires d > 0 && a <= b
    ensures a / d <= b / d && (a / d == b / d ==> a % d <= b % d)
  {
    Division(a, d);
    Division(b, d);
    if b / d < a / d {
      MultiplyAtMost(b / d + 1, a / d, d);
      Distribute(b / d, 1, d);
    }
  }

  /** A larger weight never receives a smaller magnitude. */
  lemma LargerWeightLargerShare(amount: nat, claims: seq<Claim>, c: Claim, d: Claim)
    requires SumWeights(claims) > 0 && c.weight < d.weight
    ensures ShareOf(amount, claims, c).magnitude <= ShareOf(amount, claims, d).magnitude
  {
    var den := SumWeights(claims);
    if amount == 0 {
      ResidualBounds(amount, claims);
    } else {
      LargerQuota(amount, den, c, d);
      if Quota(amount, den, c).magnitude == Quota(amount, den, d).magnitude {
        RankMonotone(Quotas(amount, den, claims), Quota(amount, den, d), Quota(amount, den, c));
      }
    }
  }

  lemma LargerQuota(amount: nat, den: nat, c: Claim, d: Claim)
    requires amount > 0 && den > 0 && c.weight < d.weight
    ensures Quota(amount, den, c).magnitude <= Quota(amount, den, d).magnitude
    ensures Quota(amount, den, c).magnitude == Quota(amount, den, d).magnitude ==> Quota(amount, den, c).remainder < Quota(amount, den, d).remainder
  {
    Distribute(d.weight - c.weight, c.weight, amount);
    MultiplyAtMost(1, d.weight - c.weight, amount);
    DivisionMonotone(amount * c.weight, amount * d.weight, den);
    Division(amount * c.weight, den);
    Division(amount * d.weight, den);
  }

  // ---- Independence of the order of the claims ----

  lemma {:induction false} AmongQuotas(amount: nat, den: nat, claims: seq<Claim>, x: Share)
    requires den > 0 && x in Quotas(amount, den, claims)
    ensures exists c :: c in claims && x == Quota(amount, den, c)
  {
    QuotaSums(amount, den, claims);
    var k :| 0 <= k < |claims| && Quotas(amount, den, claims)[k] == x;
    QuotasAt(amount, den, claims, k);
    assert claims[k] in claims;
  }

  lemma QuotasWithin(amount: nat, den: nat, a: seq<Claim>, b: seq<Claim>, x: Share)
    requires den > 0 && (forall c :: c in a ==> c in b) && x in Quotas(amount, den, a)
    ensures x in Quotas(amount, den, b)
  {
    AmongQuotas(amount, den, a, x);
    var c :| c in a && x == Quota(amount, den, c);
    var k :| 0 <= k < |b| && b[k] == c;
    QuotasAt(amount, den, b, k);
  }

  lemma QuotasRearranged(amount: nat, den: nat, a: seq<Claim>, b: seq<Claim>)
    requires den > 0 && DistinctClaims(a) && DistinctClaims(b) && forall c :: c in a <==> c in b
    ensures multiset(Quotas(amount, den, a)) == multiset(Quotas(amount, den, b))
  {
    QuotasDistinct(amount, den, a);
    QuotasDistinct(amount, den, b);
    forall x ensures x in Quotas(amount, den, a) <==> x in Quotas(amount, den, b) {
      if x in Quotas(amount, den, a) { QuotasWithin(amount, den, a, b, x); }
      if x in Quotas(amount, den, b) { QuotasWithin(amount, den, b, a, x); }
    }
    DistinctSame(Quotas(amount, den, a), Quotas(amount, den, b));
  }

  lemma QuotaSortsRearranged(amount: nat, den: nat, a: seq<Claim>, b: seq<Claim>)
    requires den > 0 && DistinctClaims(a) && DistinctClaims(b) && forall c :: c in a <==> c in b
    ensures Sort(ByRemainder(), Quotas(amount, den, a)) == Sort(ByRemainder(), Quotas(amount, den, b))
    ensures SumMagnitudes(Quotas(amount, den, a)) == SumMagnitudes(Quotas(amount, den, b))
  {
    QuotasRearranged(amount, den, a, b);
    QuotasDistinct(amount, den, a);
    QuotasDistinct(amount, den, b);
    SortInvariant(ByRemainder(), Quotas(amount, den, a), Quotas(amount, den, b));
    SortSums(ByRemainder(), Quotas(amount, den, a));
    SortSums(ByRemainder(), Quotas(amount, den, b));
  }

  lemma WeightsAsMagnitudes(claims: seq<Claim>)
    ensures SumMagnitudes(Quotas(1, 1, claims)) == SumWeights(claims)
  {
    QuotaSums(1, 1, claims);
    QuotaRemainders(1, 1, claims);
    RemaindersBelow(Quotas(1, 1, claims), 1);
  }

  lemma WeightsRearranged(a: seq<Claim>, b: seq<Claim>)
    requires DistinctClaims(a) && DistinctClaims(b) && forall c :: c in a <==> c in b
    ensures SumWeights(a) == SumWeights(b)
  {
    QuotaSortsRearranged(1, 1, a, b);
    WeightsAsMagnitudes(a);
    WeightsAsMagnitudes(b);
  }

  /** The allocation does not depend on the order in which the claims arrive. */
  lemma AllocateRearranged(amount: nat, a: seq<Claim>, b: seq<Claim>)
    requires DistinctClaims(a) && DistinctClaims(b) && (forall c :: c in a <==> c in b) && SumWeights(a) > 0
    ensures SumWeights(b) > 0 && Allocate(amount, a) == Allocate(amount, b)
  {
    WeightsRearranged(a, b);
    QuotaSortsRearranged(amount, SumWeights(a), a, b);
  }
}
