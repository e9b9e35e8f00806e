/** The binary NUMERIC format of PostgreSQL: base-10000 digit groups to and from scaled integers. First
    what a message means, by a relation between value, groups and exponent that needs no fractions;
    then decoding as a loop over the groups, accepted exactly when the value is representable; then
    encoding by decimal digits, and that it is undone by decoding. */
module NumericCodec {
  import opened Widths
  import opened Wrappers

  const NEGATIVE: int := 0x4000

  type Byte = x: int | 0 <= x < 256
  type I16 = x: int | -0x8000 <= x < 0x8000
  type Digit = x: int | 0 <= x < 10
  type Group = x: int | 0 <= x < 10000

  datatype NumericError = NotExact

  function Pow10(k: nat): (r: nat)
    ensures r > 0
  {
    if k == 0 then 1 else 10 * Pow10(k - 1)
  }

  lemma {:induction false} Pow10Add(a: nat, b: nat)
    ensures Pow10(a + b) == Pow10(a) * Pow10(b)
  {
    if a > 0 {
      Pow10Add(a - 1, b);
      assert Pow10(a + b) == 10 * Pow10(a - 1 + b);
      Associate(10, Pow10(a - 1), Pow10(b));
    }
  }

  lemma Associate(a: int, b: int, c: int)
    ensures a * b * c == a * (b * c) == b * (a * c)
  {
  }

  lemma {:induction false} Pow10Grows(a: nat, b: nat)
    requires a <= b
    ensures Pow10(a) <= Pow10(b)
  {
    if a < b { Pow10Grows(a, b - 1); }
  }

  lemma Pow10Is()
    ensures Pow10(4) == 10_000 && Pow10(38) == 100_000_000_000_000_000_000_000_000_000_000_000_000
  {
    Pow10Add(4, 4);
    Pow10Add(8, 8);
    Pow10Add(16, 3);
    Pow10Add(19, 19);
  }

  /** 38 decimal digits fit a signed 128-bit integer, 39 do not. */
  lemma PowersThatFit(k: nat)
    ensures Pow10(k) <= I128_MAX <==> k <= 38
  {
    Pow10Is();
    assert Pow10(39) == 10 * Pow10(38);
    if k <= 38 { Pow10Grows(k, 38); } else { Pow10Grows(39, k); }
  }

  // ---- What a NUMERIC means ----

  /** The groups read as one base-10000 number. */
  function Horner(groups: seq<Group>): nat {
    if groups == [] then 0 else Horner(groups[..|groups| - 1]) * 10000 + groups[|groups| - 1]
  }

  /** `v` is exactly `n` times ten to the power `e`. */
  predicate Represents(v: nat, n: nat, e: int) {
    if e >= 0 then v == n * Pow10(e) else v * Pow10(-e) == n
  }

  /** The share of one group at exponent `e` in the scaled value, where it is whole. */
  predicate Whole(d: Group, e: int) {
    e >= 0 || d % Pow10(-e) == 0
  }

  function Term(d: Group, e: int): nat {
    if e >= 0 then d * Pow10(e)
    else
      QuotientNonnegative(d, Pow10(-e));
      d / Pow10(-e)
  }

  lemma QuotientNonnegative(n: nat, k: nat)
    requires k > 0
    ensures n / k >= 0
  {
  }

  lemma Cancel(a: int, b: int, d: nat)
    requires d > 0 && a * d == b * d
    ensures a == b
  {
    if a < b { Multiply(a + 1, b, d); }
    if b < a { Multiply(b + 1, a, d); }
  }

  lemma Multiply(a: int, b: int, d: nat)
    requires a <= b
    ensures a * d <= b * d && (a + 1) * d == a * d + d && (a - 1) * d == a * d - d
  {
  }

  lemma RepresentsOnce(v: nat, w: nat, n: nat, e: int)
    requires Represents(v, n, e) && Represents(w, n, e)
    ensures v == w
  {
    if e < 0 { Cancel(v, w, Pow10(-e)); }
  }

  lemma {:induction false} Forward(v: nat, n: nat, e: int, d: Group)
    requires Represents(v, n, e) && Whole(d, e - 4)
    ensures Represents(v + Term(d, e - 4), n * 10000 + d, e - 4)
  {
    if e >= 4 {
      ForwardHigh(n, e - 4, d);
    } else if e >= 0 {
      Pow10Add(e, 4 - e);
      ExactQuotient(d, Pow10(4 - e));
      ForwardMiddle(n, Pow10(e), Pow10(4 - e), d);
    } else {
      Pow10Add(4, -e);
      Pow10Grows(4, 4 - e);
      SmallMultiple(d, Pow10(4 - e));
      Associate(v, 10000, Pow10(-e));
    }
  }

  lemma ForwardHigh(n: nat, e: nat, d: Group)
    ensures (n * 10000 + d) * Pow10(e) == n * Pow10(e + 4) + d * Pow10(e)
  {
    Pow10Add(4, e);
    Associate(n, 10000, Pow10(e));
  }

  lemma ForwardMiddle(n: nat, high: nat, low: nat, d: Group)
    requires low > 0 && high * low == 10000 && d / low * low == d
    ensures (n * high + d / low) * low == n * 10000 + d
  {
    Associate(n, high, low);
  }

  lemma ExactQuotient(d: int, k: nat)
    requires k > 0 && d % k == 0
    ensures d / k * k == d
  {
  }

  lemma SmallMultiple(d: Group, k: nat)
    requires k >= 10000
    ensures d / k == 0 && d % k == d
  {
  }

  /** If the number extended by one group is a whole value then so was the
    * shorter number, and the group accounts for the difference. */
  lemma {:induction false} Back(w: nat, n: nat, e: int, d: Group) returns (v: nat)
    requires Represents(w, n * 10000 + d, e - 4)
    ensures Represents(v, n, e) && Whole(d, e - 4) && w == v + Term(d, e - 4)
  {
    if e >= 4 {
      ForwardHigh(n, e - 4, d);
      v := n * Pow10(e);
    } else if e >= 0 {
      Pow10Add(e, 4 - e);
      BackMiddle(w, n, Pow10(e), Pow10(4 - e), d);
      v := n * Pow10(e);
    } else {
      Pow10Add(4, -e);
      BackLow(w, n, Pow10(-e), d);
      SmallMultiple(d, Pow10(4 - e));
      v := w;
    }
  }

  lemma BackMiddle(w: nat, n: nat, high: nat, low: nat, d: Group)
    requires low > 0 && high * low == 10000 && w * low == n * 10000 + d
    ensures d % low == 0 && w == n * high + d / low
  {
    Associate(n, high, low);
    assert (w - n * high) * low == d;
    MultipleDivides(w - n * high, low);
  }

  lemma MultipleDivides(q: int, k: nat)
    requires k > 0
    ensures (q * k) % k == 0 && q * k / k == q
  {
    QuotientUnique(q, 0, q * k / k, (q * k) % k, k);
  }

  lemma QuotientUnique(q: int, r: int, p: int, t: int, k: nat)
    requires 0 <= r < k && 0 <= t < k && q * k + r == p * k + t
    ensures q == p && r == t
  {
    if q < p { Multiply(q + 1, p, k); }
    if p < q { Multiply(p + 1, q, k); }
  }

  lemma BackLow(w: nat, n: nat, low: nat, d: Group)
    requires low > 0 && w * (10000 * low) == n * 10000 + d
    ensures d == 0 && w * low == n && 10000 * low >= 10000
  {
    Associate(w, 10000, low);
    assert 10000 * (w * low - n) == d;
  }

  /** The exponent of group `i`. */
  function ExponentOf(weight: int, scale: int, i: int): int {
    4 * (weight - i) + scale
  }

  lemma {:induction false} PrefixIsWhole(groups: seq<Group>, weight: int, scale: int, v: nat, i: nat) returns (u: nat)
    requires i <= |groups| && Represents(v, Horner(groups), ExponentOf(weight, scale, |groups| - 1))
    ensures u <= v && Represents(u, Horner(groups[..i]), ExponentOf(weight, scale, i - 1))
    decreases |groups| - i
  {
    if i == |groups| {
      assert groups[..i] == groups;
      u := v;
    } else {
      var w := PrefixIsWhole(groups, weight, scale, v, i + 1);
      assert groups[..i + 1][..i] == groups[..i];
      u := Back(w, Horner(groups[..i]), ExponentOf(weight, scale, i - 1), groups[i]);
    }
  }

  // ---- Decoding ----

  function Read16(raw: seq<Byte>, i: nat): I16
    requires i + 1 < |raw|
  {
    var high: int := raw[i];
    var u := high * 256 + raw[i + 1];
    if u >= 0x8000 then u - 0x1_0000 else u
  }

  function GroupAt(raw: seq<Byte>, i: nat): I16
    requires 9 + i * 2 < |raw|
  {
    Read16(raw, 8 + i * 2)
  }

  predicate WellFormed(raw: seq<Byte>) {
    && |raw| >= 8
    && var count: int := Read16(raw, 0);
    && count >= 0 && |raw| == 8 + count * 2
    && Read16(raw, 4) in {0, NEGATIVE}
    && forall i | 0 <= i < count :: 0 <= GroupAt(raw, i) < 10000
  }

  function GroupsOf(raw: seq<Byte>): (groups: seq<Group>)
    requires WellFormed(raw)
    ensures |groups| == Read16(raw, 0)
  {
    seq(Read16(raw, 0), i requires 0 <= i < Read16(raw, 0) => GroupAt(raw, i))
  }

  function Signed(negative: bool, x: int): int {
    if negative then -x else x
  }

  /** The bytes are a NUMERIC whose value times ten to the power `scale` is the
    * integer `v`, of at most `precision` digits. */
  predicate Denotes(raw: seq<Byte>, precision: nat, scale: int, v: int) {
    && WellFormed(raw)
    && scale >= 0
    && precision <= 38
    && Represents(Abs(v), Horner(GroupsOf(raw)), ExponentOf(Read16(raw, 2), scale, |GroupsOf(raw)| - 1))
    && Abs(v) < Pow10(precision)
    && v == Signed(Read16(raw, 4) == NEGATIVE, Abs(v))
  }

  lemma DenotesOnce(raw: seq<Byte>, precision: nat, scale: int, v: int, w: int)
    requires Denotes(raw, precision, scale, v) && Denotes(raw, precision, scale, w)
    ensures v == w
  {
    RepresentsOnce(Abs(v), Abs(w), Horner(GroupsOf(raw)), ExponentOf(Read16(raw, 2), scale, |GroupsOf(raw)| - 1));
  }

  lemma NextGroupIsWhole(groups: seq<Group>, weight: int, scale: int, v: nat, i: nat, value: nat)
    requires i < |groups| && Represents(v, Horner(groups), ExponentOf(weight, scale, |groups| - 1))
    requires Represents(value, Horner(groups[..i]), ExponentOf(weight, scale, i - 1))
    ensures Whole(groups[i], ExponentOf(weight, scale, i)) && value + Term(groups[i], ExponentOf(weight, scale, i)) <= v
  {
    var w := PrefixIsWhole(groups, weight, scale, v, i + 1);
    assert groups[..i + 1][..i] == groups[..i];
    var u := Back(w, Horner(groups[..i]), ExponentOf(weight, scale, i - 1), groups[i]);
    RepresentsOnce(u, value, Horner(groups[..i]), ExponentOf(weight, scale, i - 1));
  }

  /** While decoding a representable number no group can fail. */
  lemma NextGroupFits(raw: seq<Byte>, precision: nat, scale: int, v: int, i: nat, value: nat)
    requires Denotes(raw, precision, scale, v) && i < |GroupsOf(raw)|
    requires Represents(value, Horner(GroupsOf(raw)[..i]), ExponentOf(Read16(raw, 2), scale, i - 1))
    ensures
      var e := ExponentOf(Read16(raw, 2), scale, i);
      var d := GroupsOf(raw)[i];
      Whole(d, e) && value + Term(d, e) <= I128_MAX && (d > 0 ==> Pow10(if e >= 0 then e else -e) <= I128_MAX)
  {
    NextGroupIsWhole(GroupsOf(raw), Read16(raw, 2), scale, Abs(v), i, value);
    PowersThatFit(precision);
    if GroupsOf(raw)[i] > 0 { TermCoversPower(GroupsOf(raw)[i], ExponentOf(Read16(raw, 2), scale, i)); }
  }

  lemma TermCoversPower(d: Group, e: int)
    requires Whole(d, e) && d > 0
    ensures e >= 0 ==> Pow10(e) <= Term(d, e)
    ensures e < 0 ==> Pow10(-e) <= d
  {
    if e >= 0 { Multiply(1, d, Pow10(e)); } else if Pow10(-e) > d { BelowDivisor(d, Pow10(-e)); }
  }

  lemma BelowDivisor(d: nat, k: nat)
    requires d < k
    ensures d % k == d
  {
  }

  lemma Refused(raw: seq<Byte>, precision: nat, scale: int, i: nat, value: nat)
    requires WellFormed(raw) && i < |GroupsOf(raw)| && GroupsOf(raw)[i] > 0
    requires Represents(value, Horner(GroupsOf(raw)[..i]), ExponentOf(Read16(raw, 2), scale, i - 1))
    requires
      var e := ExponentOf(Read16(raw, 2), scale, i);
      var d := GroupsOf(raw)[i];
      !Whole(d, e) || value + Term(d, e) > I128_MAX || Pow10(if e >= 0 then e else -e) > I128_MAX
    ensures forall v :: !Denotes(raw, precision, scale, v)
  {
    forall v ensures !Denotes(raw, precision, scale, v) {
      if Denotes(raw, precision, scale, v) { NextGroupFits(raw, precision, scale, v, i, value); }
    }
  }

  /** Exact or an error: never rounds, never wraps. */
  method Decode(raw: seq<Byte>, precision: nat, scale: int) returns (r: Result<I128, NumericError>)
    ensures r.Ok? ==> Denotes(raw, precision, scale, r.value)
    ensures forall v :: Denotes(raw, precision, scale, v) ==> r == Ok(v)
  {
    if |raw| < 8 || scale < 0 { return Err(NotExact); }
    var count: int := Read16(raw, 0);
    var weight: int := Read16(raw, 2);
    var sign: int := Read16(raw, 4);
    if count < 0 || |raw| != 8 + count * 2 || (sign != 0 && sign != NEGATIVE) { return Err(NotExact); }
    var value: I128 := 0;
    for index := 0 to count
      invariant value >= 0
      invariant forall k | 0 <= k < index :: 0 <= GroupAt(raw, k) < 10000
      invariant WellFormed(raw) ==> Represents(value, Horner(GroupsOf(raw)[..index]), ExponentOf(weight, scale, index - 1))
    {
      var digit: int := GroupAt(raw, index);
      if !(0 <= digit < 10000) { return Err(NotExact); }
      if WellFormed(raw) { Extend(raw, scale, index, value); }
      if digit != 0 {
        var exponent := ExponentOf(weight, scale, index);
        if Pow10(if exponent >= 0 then exponent else -exponent) > I128_MAX
          || !Whole(digit, exponent)
          || value + Term(digit, exponent) > I128_MAX
        {
          if WellFormed(raw) { Refused(raw, precision, scale, index, value); }
          return Err(NotExact);
        }
        value := value + Term(digit, exponent);
      }
    }
    assert WellFormed(raw);
    assert GroupsOf(raw)[..count] == GroupsOf(raw);
    PowersThatFit(precision);
    var result := Signed(sign == NEGATIVE, value);
    if Pow10(precision) > I128_MAX || value >= Pow10(precision) {
      WrongMagnitude(raw, precision, scale, value);
      return Err(NotExact);
    }
    assert Denotes(raw, precision, scale, result);
    forall v | Denotes(raw, precision, scale, v) ensures v == result { DenotesOnce(raw, precision, scale, v, result); }
    return Ok(result);
  }

  lemma WrongMagnitude(raw: seq<Byte>, precision: nat, scale: int, value: nat)
    requires WellFormed(raw) && Represents(value, Horner(GroupsOf(raw)), ExponentOf(Read16(raw, 2), scale, |GroupsOf(raw)| - 1))
    requires precision > 38 || value >= Pow10(precision)
    ensures forall v :: !Denotes(raw, precision, scale, v)
  {
    forall v ensures !Denotes(raw, precision, scale, v) {
      if Denotes(raw, precision, scale, v) {
        RepresentsOnce(Abs(v), value, Horner(GroupsOf(raw)), ExponentOf(Read16(raw, 2), scale, |GroupsOf(raw)| - 1));
      }
    }
  }

  lemma Extend(raw: seq<Byte>, scale: int, i: nat, value: nat)
    requires WellFormed(raw) && i < |GroupsOf(raw)|
    requires Represents(value, Horner(GroupsOf(raw)[..i]), ExponentOf(Read16(raw, 2), scale, i - 1))
    ensures
      var e := ExponentOf(Read16(raw, 2), scale, i);
      var d := GroupsOf(raw)[i];
      Whole(d, e) ==> Represents(value + Term(d, e), Horner(GroupsOf(raw)[..i + 1]), e)
    ensures
      var e := ExponentOf(Read16(raw, 2), scale, i);
      GroupsOf(raw)[i] == 0 ==> Represents(value, Horner(GroupsOf(raw)[..i + 1]), e)
  {
    var groups := GroupsOf(raw);
    var e := ExponentOf(Read16(raw, 2), scale, i);
    assert groups[..i + 1][..i] == groups[..i];
    if groups[i] == 0 { ZeroTerm(e); }
    if Whole(groups[i], e) { Forward(value, Horner(groups[..i]), e + 4, groups[i]); }
  }

  lemma ZeroTerm(e: int)
    ensures Whole(0, e) && Term(0, e) == 0
  {
    if e < 0 { BelowDivisor(0, Pow10(-e)); }
  }

  // ---- Encoding ----

  function Decimal(n: nat): seq<Digit> {
    if n < 10 then [n] else Decimal(n / 10) + [n % 10]
  }

  function Value(digits: seq<Digit>): nat {
    if digits == [] then 0 else Value(digits[..|digits| - 1]) * 10 + digits[|digits| - 1]
  }

  function Zeros(k: nat): (r: seq<Digit>)
    ensures |r| == k
  {
    seq(k, i => 0)
  }

  /** Groups of four digits. */
  function Chunks(digits: seq<Digit>): seq<Group>
    requires |digits| % 4 == 0
  {
    if digits == [] then []
    else
      ValueBelow(digits[|digits| - 4..]);
      Pow10Is();
      Chunks(digits[..|digits| - 4]) + [Value(digits[|digits| - 4..])]
  }

  lemma {:induction false} DecimalValue(n: nat)
    ensures Value(Decimal(n)) == n && |Decimal(n)| >= 1
  {
    if n >= 10 { DecimalValue(n / 10); }
  }

  lemma {:induction false} DecimalLength(n: nat, k: nat)
    requires n < Pow10(k) && k >= 1
    ensures |Decimal(n)| <= k
  {
    if n >= 10 { DecimalLength(n / 10, k - 1); }
  }

  lemma {:induction false} ValueBelow(digits: seq<Digit>)
    ensures Value(digits) < Pow10(|digits|)
  {
    if digits != [] { ValueBelow(digits[..|digits| - 1]); }
  }

  lemma {:induction false} ValueConcat(a: seq<Digit>, b: seq<Digit>)
    ensures Value(a + b) == Value(a) * Pow10(|b|) + Value(b)
  {
    if b == [] {
      assert a + b == a;
    } else {
      var n := |b| - 1;
      assert (a + b)[..|a + b| - 1] == a + b[..n];
      ValueConcat(a, b[..n]);
      Associate(10, Value(a), Pow10(n));
    }
  }

  lemma {:induction false} ZerosValue(k: nat)
    ensures Value(Zeros(k)) == 0
  {
    if k > 0 {
      assert Zeros(k)[..k - 1] == Zeros(k - 1);
      ZerosValue(k - 1);
    }
  }

  lemma {:induction false} ChunksValue(digits: seq<Digit>)
    requires |digits| % 4 == 0
    ensures Horner(Chunks(digits)) == Value(digits) && |Chunks(digits)| == |digits| / 4
  {
    if digits != [] {
      var n := |digits| - 4;
      ChunksValue(digits[..n]);
      ValueSplit(digits, n);
    }
  }

  lemma ValueSplit(digits: seq<Digit>, n: nat)
    requires n + 4 == |digits|
    ensures Value(digits) == Value(digits[..n]) * 10000 + Value(digits[n..])
  {
    assert digits == digits[..n] + digits[n..];
    ValueConcat(digits[..n], digits[n..]);
    Pow10Is();
  }

  function Bytes16(n: I16): seq<Byte> {
    var u: int := if n < 0 then n + 0x1_0000 else n;
    [u / 256, u % 256]
  }

  function GroupBytes(groups: seq<Group>): seq<Byte> {
    if groups == [] then [] else GroupBytes(groups[..|groups| - 1]) + Bytes16(groups[|groups| - 1])
  }

  lemma {:induction false} GroupBytesAt(groups: seq<Group>, i: nat)
    requires i < |groups|
    ensures |GroupBytes(groups)| == 2 * |groups| && GroupBytes(groups)[2 * i..2 * i + 2] == Bytes16(groups[i])
  {
    var n := |groups| - 1;
    if n == 0 {
      assert GroupBytes(groups[..0]) == [];
    } else {
      GroupBytesAt(groups[..n], if i < n then i else 0);
    }
  }

  /** The decimal digits padded to at least one digit before the point. */
  function Padded(value: nat, scale: nat): seq<Digit> {
    var digits := Decimal(value);
    if |digits| <= scale then Zeros(scale + 1 - |digits|) + digits else digits
  }

  function HeadPad(value: nat, scale: nat): nat {
    (4 - (|Padded(value, scale)| - scale) % 4) % 4
  }

  function TailPad(scale: nat): nat {
    (4 - scale % 4) % 4
  }

  /** Digits aligned on both sides of the decimal point. */
  function Aligned(value: nat, scale: nat): seq<Digit> {
    Zeros(HeadPad(value, scale)) + Padded(value, scale) + Zeros(TailPad(scale))
  }

  lemma PaddedLength(value: nat, scale: nat)
    ensures |Padded(value, scale)| > scale
    ensures value < Pow10(39) ==> |Padded(value, scale)| <= 40 + scale
  {
    DecimalValue(value);
    if value < Pow10(39) { DecimalLength(value, 39); }
  }

  lemma PaddedValue(value: nat, scale: nat)
    ensures Value(Padded(value, scale)) == value
  {
    DecimalValue(value);
    if |Decimal(value)| <= scale { LeadingZeros(scale + 1 - |Decimal(value)|, Decimal(value)); }
  }

  lemma LeadingZeros(k: nat, digits: seq<Digit>)
    ensures Value(Zeros(k) + digits) == Value(digits)
  {
    ValueConcat(Zeros(k), digits);
    ZerosValue(k);
  }

  lemma AlignedValue(value: nat, scale: nat)
    ensures Value(Aligned(value, scale)) == value * Pow10(TailPad(scale))
  {
    PaddedValue(value, scale);
    var head := Zeros(HeadPad(value, scale));
    ZerosValue(TailPad(scale));
    LeadingZeros(HeadPad(value, scale), Padded(value, scale));
    ValueConcat(head + Padded(value, scale), Zeros(TailPad(scale)));
  }

  function WholeGroups(value: nat, scale: nat): int {
    (|Padded(value, scale)| - scale + HeadPad(value, scale)) / 4
  }

  /** The point falls between two groups. */
  lemma AlignedGroups(value: nat, scale: nat)
    ensures |Aligned(value, scale)| % 4 == 0
    ensures |Aligned(value, scale)| / 4 == WholeGroups(value, scale) + (scale + TailPad(scale)) / 4
    ensures 4 * ((scale + TailPad(scale)) / 4) == scale + TailPad(scale)
    ensures WholeGroups(value, scale) >= 1
    ensures value < Pow10(39) ==> |Aligned(value, scale)| <= 46 + scale
  {
    PaddedLength(value, scale);
    AlignmentArithmetic(|Padded(value, scale)|, scale, HeadPad(value, scale), TailPad(scale));
  }

  lemma AlignmentArithmetic(n: nat, scale: nat, head: nat, tail: nat)
    requires n > scale && head == (4 - (n - scale) % 4) % 4 && tail == (4 - scale % 4) % 4
    ensures (n - scale + head) % 4 == 0 && (scale + tail) % 4 == 0 && (head + n + tail) % 4 == 0
    ensures (head + n + tail) / 4 == (n - scale + head) / 4 + (scale + tail) / 4
    ensures (n - scale + head) / 4 >= 1
  {
  }

  lemma MagnitudeBelow(v: I128)
    ensures Abs(v) < Pow10(39)
  {
    Pow10Is();
    assert Pow10(39) == 10 * Pow10(38);
  }

  /** Counts and weights of an encoded value fit 16 bits. */
  lemma EncodedCounts(v: I128, scale: nat)
    requires scale < 128
    ensures |Aligned(Abs(v), scale)| % 4 == 0 && |Chunks(Aligned(Abs(v), scale))| == |Aligned(Abs(v), scale)| / 4 < 100
    ensures 1 <= WholeGroups(Abs(v), scale) < 100
  {
    MagnitudeBelow(v);
    AlignedGroups(Abs(v), scale);
    ChunksValue(Aligned(Abs(v), scale));
  }

  function Message(count: I16, weight: I16, sign: I16, scale: I16, groups: seq<Group>): seq<Byte> {
    Bytes16(count) + Bytes16(weight) + Bytes16(sign) + Bytes16(scale) + GroupBytes(groups)
  }

  function Encoded(v: I128, scale: nat): seq<Byte>
    requires scale < 128
  {
    EncodedCounts(v, scale);
    Message(|Aligned(Abs(v), scale)| / 4, WholeGroups(Abs(v), scale) - 1, if v < 0 then NEGATIVE else 0, scale, Chunks(Aligned(Abs(v), scale)))
  }

  lemma ReadsBack(a: seq<Byte>, n: I16, b: seq<Byte>)
    ensures Read16(a + Bytes16(n) + b, |a|) == n
  {
  }

  lemma GroupReadsBack(header: seq<Byte>, groups: seq<Group>, i: nat)
    requires i < |groups|
    ensures |GroupBytes(groups)| == 2 * |groups| && Read16(header + GroupBytes(groups), |header| + i * 2) == groups[i]
  {
    GroupBytesAt(groups, i);
    ReadsWithin(header, GroupBytes(groups), 2 * i, groups[i]);
  }

  lemma ReadsWithin(header: seq<Byte>, all: seq<Byte>, at: nat, n: I16)
    requires at + 2 <= |all| && all[at..at + 2] == Bytes16(n)
    ensures Read16(header + all, |header| + at) == n
  {
    ReadsBack(header + all[..at], n, all[at + 2..]);
    assert header + all == (header + all[..at]) + Bytes16(n) + all[at + 2..];
  }

  lemma {:induction false} GroupBytesLength(groups: seq<Group>)
    ensures |GroupBytes(groups)| == 2 * |groups|
  {
    if groups != [] { GroupBytesAt(groups, 0); }
  }

  lemma MessageHeader(count: I16, weight: I16, sign: I16, scale: I16, groups: seq<Group>)
    ensures |Message(count, weight, sign, scale, groups)| == 8 + 2 * |groups|
    ensures Read16(Message(count, weight, sign, scale, groups), 0) == count
    ensures Read16(Message(count, weight, sign, scale, groups), 2) == weight
    ensures Read16(Message(count, weight, sign, scale, groups), 4) == sign
  {
    GroupBytesLength(groups);
  }

  lemma MessageGroups(count: I16, weight: I16, sign: I16, scale: I16, groups: seq<Group>)
    requires count == |groups| && (sign == 0 || sign == NEGATIVE)
    ensures WellFormed(Message(count, weight, sign, scale, groups))
    ensures GroupsOf(Message(count, weight, sign, scale, groups)) == groups
  {
    MessageHeader(count, weight, sign, scale, groups);
    forall i | 0 <= i < |groups| ensures GroupAt(Message(count, weight, sign, scale, groups), i) == groups[i] {
      GroupReadsBack(Bytes16(count) + Bytes16(weight) + Bytes16(sign) + Bytes16(scale), groups, i);
    }
  }

  /** Encoding is exact: the encoded bytes denote `v` at the same scale, so the
    * decoder gives `v` back for every precision that can hold it. */
  lemma EncodedDenotes(v: I128, precision: nat, scale: nat)
    requires scale < 128 && precision <= 38 && Abs(v) < Pow10(precision)
    ensures Denotes(Encoded(v, scale), precision, scale, v)
  {
    EncodedHeader(v, scale);
    EncodedGroups(v, scale);
    EncodedValue(Abs(v), scale);
    DenotesFrom(Encoded(v, scale), Horner(Chunks(Aligned(Abs(v), scale))), |Chunks(Aligned(Abs(v), scale))|, precision, scale, v);
  }

  lemma DenotesFrom(raw: seq<Byte>, n: nat, count: nat, precision: nat, scale: nat, v: I128)
    requires WellFormed(raw) && Horner(GroupsOf(raw)) == n && |GroupsOf(raw)| == count
    requires Represents(Abs(v), n, ExponentOf(Read16(raw, 2), scale, count - 1))
    requires (Read16(raw, 4) == NEGATIVE) <==> v < 0
    requires precision <= 38 && Abs(v) < Pow10(precision)
    ensures Denotes(raw, precision, scale, v)
  {
  }

  lemma EncodedHeader(v: I128, scale: nat)
    requires scale < 128
    ensures |Encoded(v, scale)| >= 8
    ensures Read16(Encoded(v, scale), 2) == WholeGroups(Abs(v), scale) - 1
    ensures (Read16(Encoded(v, scale), 4) == NEGATIVE) <==> v < 0
  {
    EncodedCounts(v, scale);
    MessageHeader(|Aligned(Abs(v), scale)| / 4, WholeGroups(Abs(v), scale) - 1, if v < 0 then NEGATIVE else 0, scale, Chunks(Aligned(Abs(v), scale)));
  }

  lemma EncodedGroups(v: I128, scale: nat)
    requires scale < 128
    ensures WellFormed(Encoded(v, scale)) && |Aligned(Abs(v), scale)| % 4 == 0
    ensures GroupsOf(Encoded(v, scale)) == Chunks(Aligned(Abs(v), scale))
  {
    EncodedCounts(v, scale);
    MessageGroups(|Aligned(Abs(v), scale)| / 4, WholeGroups(Abs(v), scale) - 1, if v < 0 then NEGATIVE else 0, scale, Chunks(Aligned(Abs(v), scale)));
  }

  lemma TailExponent(whole: int, fraction: int, scale: int, tail: int)
    requires 4 * fraction == scale + tail
    ensures ExponentOf(whole - 1, scale, whole + fraction - 1) == -tail
  {
  }

  lemma EncodedValue(value: nat, scale: nat)
    ensures |Aligned(value, scale)| % 4 == 0
    ensures
      var groups := Chunks(Aligned(value, scale));
      Represents(value, Horner(groups), ExponentOf(WholeGroups(value, scale) - 1, scale, |groups| - 1))
  {
    AlignedGroups(value, scale);
    AlignedValue(value, scale);
    ChunksValue(Aligned(value, scale));
    TailExponent(WholeGroups(value, scale), (scale + TailPad(scale)) / 4, scale, TailPad(scale));
  }

  /** Cuts the digits into groups of four from the front. */
  method Split(digits: seq<Digit>) returns (groups: seq<Group>)
    requires |digits| % 4 == 0
    ensures groups == Chunks(digits)
  {
    groups := [];
    var i := 0;
    while i < |digits|
      invariant i <= |digits| && i % 4 == 0 && groups == Chunks(digits[..i])
    {
      assert digits[..i + 4][..i] == digits[..i];
      assert digits[..i + 4][i..] == digits[i..i + 4];
      ValueBelow(digits[i..i + 4]);
      Pow10Is();
      groups := groups + [Value(digits[i..i + 4])];
      i := i + 4;
    }
    assert digits[..i] == digits;
  }

  method Align(value: nat, scale: nat) returns (digits: seq<Digit>, wholeGroups: int)
    ensures digits == Aligned(value, scale) && wholeGroups == WholeGroups(value, scale)
  {
    PaddedLength(value, scale);
    digits := Decimal(value);
    if |digits| <= scale { digits := Zeros(scale + 1 - |digits|) + digits; }
    var whole := |digits| - scale;
    var pad := (4 - whole % 4) % 4;
    digits := Zeros(pad) + digits + Zeros((4 - scale % 4) % 4);
    wholeGroups := (whole + pad) / 4;
  }

  method Emit(count: I16, weight: I16, sign: I16, scale: I16, groups: seq<Group>) returns (out: seq<Byte>)
    ensures out == Message(count, weight, sign, scale, groups)
  {
    out := Bytes16(count) + Bytes16(weight) + Bytes16(sign) + Bytes16(scale);
    for i := 0 to |groups|
      invariant out == Message(count, weight, sign, scale, groups[..i])
    {
      assert groups[..i + 1][..i] == groups[..i];
      out := out + Bytes16(groups[i]);
    }
    assert groups[..|groups|] == groups;
  }

  method Encode(value: I128, scale: nat) returns (out: seq<Byte>)
    requires scale < 128
    ensures out == Encoded(value, scale)
  {
    EncodedCounts(value, scale);
    var negative := value < 0;
    var digits, wholeGroups := Align(Abs(value), scale);
    var groups := Split(digits);
    out := Emit(|groups|, wholeGroups - 1, if negative then NEGATIVE else 0, scale, groups);
  }
}
