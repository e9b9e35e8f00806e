/** NUMERIC messages byte by byte. */
module NumericBytes {
  import opened NumericCodec
  import opened Widths

  function Ten(k: nat): nat {
    if k == 0 then 1 else Ten(k - 1) * 10
  }

  lemma {:induction false} TenIs(k: nat)
    ensures Ten(k) == Pow10(k)
  {
    if k > 0 { TenIs(k - 1); }
  }

  /** Two bytes, the high one first. */
  function At(raw: seq<Byte>, i: nat): nat
    requires i + 1 < |raw|
  {
    var high: int, low: int := raw[i], raw[i + 1];
    high * 256 + low
  }

  /** The first `k` groups as one base-10000 number. */
  function Number(raw: seq<Byte>, k: nat): nat
    requires 8 + 2 * k <= |raw|
  {
    if k == 0 then 0 else Number(raw, k - 1) * 10000 + At(raw, 6 + 2 * k)
  }

  /** A count of groups, the weight of the first, a sign, a display scale, and the groups. */
  predicate IsMessage(raw: seq<Byte>) {
    && |raw| >= 8 && raw[0] < 128 && |raw| == 8 + 2 * At(raw, 0)
    && (At(raw, 4) == 0 || At(raw, 4) == 0x4000)
    && forall i: nat | i < At(raw, 0) :: At(raw, 8 + 2 * i) < 10000
  }

  function Weight(raw: seq<Byte>): int
    requires |raw| >= 8
  {
    if raw[2] < 128 then At(raw, 2) else At(raw, 2) - 0x1_0000
  }

  /** The groups, of which the last counts units of ten thousand to the power `weight + 1 - count`, come to
    * `v` when the point is moved `scale` digits to the right. */
  predicate Means(raw: seq<Byte>, scale: nat, v: int)
    requires IsMessage(raw)
  {
    var shift := 4 * (Weight(raw) + 1 - At(raw, 0)) + scale;
    var magnitude := if v < 0 then -v else v;
    && (if shift >= 0 then magnitude == Number(raw, At(raw, 0)) * Ten(shift) else magnitude * Ten(-shift) == Number(raw, At(raw, 0)))
    && (v < 0 ==> At(raw, 4) == 0x4000) && (v > 0 ==> At(raw, 4) == 0)
  }

  lemma SignedRead(raw: seq<Byte>, i: nat)
    requires i + 1 < |raw|
    ensures Read16(raw, i) == if raw[i] < 128 then At(raw, i) else At(raw, i) - 0x1_0000
  {
  }

  lemma MessageExactly(raw: seq<Byte>)
    ensures WellFormed(raw) <==> IsMessage(raw)
    ensures WellFormed(raw) ==> Read16(raw, 0) == At(raw, 0) && Read16(raw, 2) == Weight(raw) && Read16(raw, 4) == At(raw, 4)
  {
    if |raw| >= 8 {
      SignedRead(raw, 0);
      SignedRead(raw, 2);
      SignedRead(raw, 4);
      if Read16(raw, 0) >= 0 && |raw| == 8 + Read16(raw, 0) * 2 { GroupsExactly(raw, Read16(raw, 0)); }
    }
  }

  lemma GroupsExactly(raw: seq<Byte>, count: nat)
    requires |raw| == 8 + count * 2
    ensures (forall i | 0 <= i < count :: 0 <= GroupAt(raw, i) < 10000) <==> (forall i: nat | i < count :: At(raw, 8 + 2 * i) < 10000)
  {
    forall i: nat | i < count ensures 0 <= GroupAt(raw, i) < 10000 <==> At(raw, 8 + 2 * i) < 10000 {
      SignedRead(raw, 8 + 2 * i);
    }
    if forall i | 0 <= i < count :: 0 <= GroupAt(raw, i) < 10000 {
      forall i: nat | i < count ensures At(raw, 8 + 2 * i) < 10000 {
        assert 0 <= GroupAt(raw, i) < 10000;
      }
    } else {
      var i :| 0 <= i < count && !(0 <= GroupAt(raw, i) < 10000);
      assert At(raw, 8 + 2 * i) >= 10000;
    }
  }

  lemma {:induction false} NumberIs(raw: seq<Byte>, k: nat)
    requires WellFormed(raw) && k <= Read16(raw, 0)
    ensures 8 + 2 * k <= |raw| && Number(raw, k) == Horner(GroupsOf(raw)[..k])
  {
    if k > 0 {
      NumberIs(raw, k - 1);
      SignedRead(raw, 6 + 2 * k);
      assert GroupsOf(raw)[..k][..k - 1] == GroupsOf(raw)[..k - 1];
      assert GroupsOf(raw)[k - 1] == GroupAt(raw, k - 1);
    }
  }

  lemma MeansIs(raw: seq<Byte>, scale: nat, v: int)
    requires WellFormed(raw) && IsMessage(raw)
    ensures Means(raw, scale, v) <==>
      && Represents(Abs(v), Horner(GroupsOf(raw)), ExponentOf(Read16(raw, 2), scale, |GroupsOf(raw)| - 1))
      && v == Signed(Read16(raw, 4) == NEGATIVE, Abs(v))
  {
    MessageExactly(raw);
    NumberIs(raw, At(raw, 0));
    assert GroupsOf(raw)[..At(raw, 0)] == GroupsOf(raw);
    var shift := 4 * (Weight(raw) + 1 - At(raw, 0)) + scale;
    TenIs(if shift >= 0 then shift else -shift);
  }

  /** What is decoded, and from which bytes. */
  lemma DenotesExactly(raw: seq<Byte>, precision: nat, scale: int, v: int)
    ensures Denotes(raw, precision, scale, v) <==>
      IsMessage(raw) && scale >= 0 && precision <= 38 && (if v < 0 then -v else v) < Ten(precision) && Means(raw, scale, v)
  {
    MessageExactly(raw);
    TenIs(precision);
    if IsMessage(raw) && scale >= 0 { MeansIs(raw, scale, v); }
  }

  // ---- Encoding ----

  lemma {:induction false} LeadingDigit(n: nat)
    requires n > 0
    ensures Decimal(n) != [] && Decimal(n)[0] > 0
  {
    if n >= 10 { LeadingDigit(n / 10); }
  }

  lemma {:induction false} ValueAtLeast(digits: seq<Digit>, i: nat)
    requires i < |digits| && digits[i] > 0
    ensures Value(digits) > 0
  {
    if i < |digits| - 1 { ValueAtLeast(digits[..|digits| - 1], i); }
  }

  lemma {:induction false} FirstChunk(digits: seq<Digit>)
    requires |digits| % 4 == 0 && digits != []
    ensures Chunks(digits) != [] && Chunks(digits)[0] == Value(digits[..4])
  {
    if |digits| > 4 {
      FirstChunk(digits[..|digits| - 4]);
      assert digits[..|digits| - 4][..4] == digits[..4];
    } else {
      assert digits[..|digits| - 4] == [];
      assert digits[|digits| - 4..] == digits == digits[..4];
    }
  }

  /** No leading group is zero, other than the one before the point. */
  lemma FirstGroup(value: nat, scale: nat)
    ensures |Aligned(value, scale)| % 4 == 0 && Chunks(Aligned(value, scale)) != []
    ensures WholeGroups(value, scale) > 1 ==> Chunks(Aligned(value, scale))[0] > 0
  {
    AlignedGroups(value, scale);
    FirstChunk(Aligned(value, scale));
    if |Decimal(value)| > scale && value > 0 {
      LeadingDigit(value);
      var head := HeadPad(value, scale);
      assert Aligned(value, scale)[head] == Decimal(value)[0];
      ValueAtLeast(Aligned(value, scale)[..4], head);
    }
  }

  /** Every byte of an encoded value is fixed: count and weight by the digits before and after the point,
    * the sign, the scale, and groups whose value is the encoded one. */
  lemma EncodedSays(v: I128, scale: nat)
    requires scale < 128
    ensures
      var raw := Encoded(v, scale);
      && IsMessage(raw) && Means(raw, scale, v)
      && At(raw, 4) == (if v < 0 then 0x4000 else 0) && At(raw, 6) == scale
      && Weight(raw) >= 0 && At(raw, 0) == Weight(raw) + 1 + (scale + 3) / 4
      && (Weight(raw) > 0 ==> At(raw, 8) > 0)
  {
    var raw := Encoded(v, scale);
    EncodedHeader(v, scale);
    EncodedGroups(v, scale);
    EncodedCounts(v, scale);
    EncodedValue(Abs(v), scale);
    MessageExactly(raw);
    MeansIs(raw, scale, v);
    ScaleBytes(v, scale);
    FirstGroup(Abs(v), scale);
    AlignedGroups(Abs(v), scale);
    SignedRead(raw, 8);
    assert GroupsOf(raw)[0] == GroupAt(raw, 0);
  }

  lemma ScaleBytes(v: I128, scale: nat)
    requires scale < 128
    ensures |Encoded(v, scale)| >= 8 && At(Encoded(v, scale), 6) == scale && At(Encoded(v, scale), 4) == if v < 0 then 0x4000 else 0
  {
    EncodedCounts(v, scale);
  }
}
