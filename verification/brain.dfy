/**
 * The controller ("Brain"): a 180-bit genome decoded into two vectors of nine
 * coefficients (eight sensor weights and a bias each), and the decision rule
 * that turns eight ray-sensor readings into an {engine, wheels} action pair.
 *
 * Each coefficient is a 10-bit minifloat: bit 0 is the sign, bits 1..4 an
 * unsigned exponent read most-significant bit first with bias 7, bits 5..9 a
 * mantissa with an implicit leading 1. There are no subnormals, infinities or
 * NaNs, and the decoded value saturates at -100 and 100. Decoded values are
 * dyadic rationals, so the codec is modelled exactly over `real`.
 */
module Brain {
  import opened Common

  const GENOME_LENGTH := 180
  const HALF_GENOME := 90
  const GENE_BITS := 10
  const COEFFICIENT_COUNT := 9
  const EXPONENT_BIAS := 7
  const SENSOR_COUNT := 8
  const COEFFICIENT_LIMIT := 100.0
  const SENSOR_LIMIT := 100.0
  const SIGNAL_LIMIT := 100.0
  const SQUASH_LIMIT := 500.0
  const LOW_THRESHOLD := 0.33
  const HIGH_THRESHOLD := 0.66

  // ---------------------------------------------------------------------------
  // Powers of two and the two field sums of the gene codec
  // ---------------------------------------------------------------------------

  function Pow2Nat(n: nat): (r: nat)
    ensures r >= 1
  {
    if n == 0 then 1 else 2 * Pow2Nat(n - 1)
  }

  /** 2 ** e for any integer exponent, as Python evaluates it exactly for small e. */
  function Pow2(e: int): (r: real)
    ensures r > 0.0
  {
    if e >= 0 then Pow2Nat(e) as real else 1.0 / (Pow2Nat(-e) as real)
  }

  lemma {:induction false} Pow2NatMonotone(m: nat, n: nat)
    requires m <= n
    ensures Pow2Nat(m) <= Pow2Nat(n)
  {
    if m < n {
      Pow2NatMonotone(m, n - 1);
    }
  }

  /** Every exponent the codec can produce from bits (at least -7) gives a power of at least 1/128. */
  lemma Pow2AtLeastSmallest(e: int)
    requires e >= -EXPONENT_BIAS
    ensures Pow2(e) >= 1.0 / 128.0
  {
    if e < 0 {
      Pow2NatMonotone(-e, 7);
      assert Pow2Nat(7) == 128;
      var d := Pow2Nat(-e) as real;
      assert 0.0 < d <= 128.0;
      assert Pow2(e) == 1.0 / d;
      assert (1.0 / d) * d == 1.0;
      assert (1.0 / d) * 128.0 >= 1.0;
    }
  }

  /** reversed(s), as the exponent decoder enumerates the exponent bits. */
  function Reverse(s: seq<int>): (r: seq<int>)
    ensures |r| == |s|
    ensures forall i :: 0 <= i < |s| ==> r[i] == s[|s| - 1 - i]
  {
    if s == [] then [] else Reverse(s[1..]) + [s[0]]
  }

  /** sum(s[k] * 2 ** (offset + k) for k in range(len(s))). */
  function PositionalSum(s: seq<int>, offset: nat): int
  {
    if s == [] then 0 else s[0] * Pow2Nat(offset) + PositionalSum(s[1..], offset + 1)
  }

  /** sum(s[k] * 2 ** -(offset + k + 1) for k in range(len(s))). */
  function FractionSum(s: seq<int>, offset: nat): real
  {
    if s == [] then 0.0
    else (s[0] as real) / (Pow2Nat(offset + 1) as real) + FractionSum(s[1..], offset + 1)
  }

  /** The raw exponent field: bits 1..4 weighted 2 ** i in the reversed order. */
  function ExponentField(bits: seq<int>): int
    requires |bits| == GENE_BITS
  {
    PositionalSum(Reverse(bits[1..5]), 0)
  }

  /** The mantissa fraction: bit 5 + i weighs 2 ** -(i + 1). */
  function Mantissa(bits: seq<int>): real
    requires |bits| == GENE_BITS
  {
    FractionSum(bits[5..], 0)
  }

  function Sign(b: int): real { if b != 0 then -1.0 else 1.0 }

  /** (1 + mantissa) * 2 ** (exponent - 7), the unsigned and unclamped value. */
  function Magnitude(bits: seq<int>): real
    requires |bits| == GENE_BITS
  {
    (1.0 + Mantissa(bits)) * Pow2(ExponentField(bits) - EXPONENT_BIAS)
  }

  // ---------------------------------------------------------------------------
  // _binary_to_float
  // ---------------------------------------------------------------------------

  /** Decode one 10-bit gene; any other length is the "Expected 10 bits" error. */
  function BinaryToFloat(bits: seq<int>): (r: Result<real>)
    ensures r.Ok? <==> |bits| == GENE_BITS
    ensures r.Err? ==> r.error == InvalidBitCount
    ensures r.Ok? ==> -COEFFICIENT_LIMIT <= r.value <= COEFFICIENT_LIMIT
  {
    if |bits| != GENE_BITS then Err(InvalidBitCount)
    else Ok(Clamp(Sign(bits[0]) * Magnitude(bits), -COEFFICIENT_LIMIT, COEFFICIENT_LIMIT))
  }

  /** The exponent field is the 4-bit number b1 b2 b3 b4, most significant bit first. */
  lemma ExponentFieldClosedForm(bits: seq<int>)
    requires |bits| == GENE_BITS
    ensures ExponentField(bits) == 8 * bits[1] + 4 * bits[2] + 2 * bits[3] + bits[4]
  {
    var e := bits[1..5];
    var r := Reverse(e);
    assert r == [bits[4], bits[3], bits[2], bits[1]];
    assert r[1..][1..][1..][1..] == [];
    assert PositionalSum(r[1..][1..][1..], 3) == bits[1] * 8;
    assert PositionalSum(r[1..][1..], 2) == bits[2] * 4 + bits[1] * 8;
    assert PositionalSum(r[1..], 1) == bits[3] * 2 + bits[2] * 4 + bits[1] * 8;
  }

  /** The mantissa is b5/2 + b6/4 + b7/8 + b8/16 + b9/32. */
  lemma MantissaClosedForm(bits: seq<int>)
    requires |bits| == GENE_BITS
    ensures Mantissa(bits) == (bits[5] as real) / 2.0 + (bits[6] as real) / 4.0
      + (bits[7] as real) / 8.0 + (bits[8] as real) / 16.0 + (bits[9] as real) / 32.0
  {
    var m := bits[5..];
    assert Pow2Nat(1) == 2 && Pow2Nat(2) == 4 && Pow2Nat(3) == 8;
    assert Pow2Nat(4) == 16 && Pow2Nat(5) == 32;
    assert m[1..][1..][1..][1..][1..] == [];
    assert FractionSum(m[1..][1..][1..][1..], 4) == (bits[9] as real) / 32.0;
    assert FractionSum(m[1..][1..][1..], 3) == (bits[8] as real) / 16.0 + (bits[9] as real) / 32.0;
    assert FractionSum(m[1..][1..], 2)
        == (bits[7] as real) / 8.0 + (bits[8] as real) / 16.0 + (bits[9] as real) / 32.0;
    assert FractionSum(m[1..], 1) == (bits[6] as real) / 4.0
        + (bits[7] as real) / 8.0 + (bits[8] as real) / 16.0 + (bits[9] as real) / 32.0;
  }

  /**
   * The unsigned value in closed form: (1 + b5/2 + b6/4 + b7/8 + b8/16 + b9/32)
   * * 2^((8 b1 + 4 b2 + 2 b3 + b4) - 7); the decoded value is this, signed by
   * b0 and clamped to [-100, 100].
   */
  lemma MagnitudeClosedForm(bits: seq<int>)
    requires |bits| == GENE_BITS
    ensures Magnitude(bits)
            == (1.0 + ((bits[5] as real) / 2.0 + (bits[6] as real) / 4.0 + (bits[7] as real) / 8.0
                       + (bits[8] as real) / 16.0 + (bits[9] as real) / 32.0))
               * Pow2(8 * bits[1] + 4 * bits[2] + 2 * bits[3] + bits[4] - EXPONENT_BIAS)
  {
    ExponentFieldClosedForm(bits);
    MantissaClosedForm(bits);
  }

  /** For bit genes the exponent field lies in 0..15 and the mantissa in [0, 31/32]. */
  lemma FieldRanges(bits: seq<int>)
    requires |bits| == GENE_BITS && IsBits(bits)
    ensures 0 <= ExponentField(bits) <= 15
    ensures 0.0 <= Mantissa(bits) <= 31.0 / 32.0
  {
    ExponentFieldClosedForm(bits);
    MantissaClosedForm(bits);
  }

  /** Scaling a non-negative number by a factor in [1, 2] keeps it between itself and its double. */
  lemma ScaledBetween(m: real, p: real)
    requires 0.0 <= m <= 1.0 && 0.0 <= p
    ensures p <= (1.0 + m) * p <= 2.0 * p
  {
    assert (1.0 + m) * p == p + m * p;
    assert 2.0 * p - (1.0 + m) * p == (1.0 - m) * p;
    assert (1.0 - m) * p >= 0.0;
    assert m * p >= 0.0;
  }

  /** The magnitude is the power of two plus its mantissa fraction, which adds less than the power itself. */
  lemma MagnitudeSplit(bits: seq<int>)
    requires |bits| == GENE_BITS && IsBits(bits)
    ensures var p := Pow2(ExponentField(bits) - EXPONENT_BIAS);
            p <= Magnitude(bits) <= 2.0 * p
  {
    FieldRanges(bits);
    ScaledBetween(Mantissa(bits), Pow2(ExponentField(bits) - EXPONENT_BIAS));
  }

  /** Every 10-bit pattern decodes to a value whose magnitude lies in [1/128, 100]: zero is never produced. */
  lemma DecodeMagnitudeBounds(bits: seq<int>)
    requires |bits| == GENE_BITS && IsBits(bits)
    ensures 1.0 / 128.0 <= BinaryToFloat(bits).value <= COEFFICIENT_LIMIT
         || -COEFFICIENT_LIMIT <= BinaryToFloat(bits).value <= -1.0 / 128.0
  {
    FieldRanges(bits);
    Pow2AtLeastSmallest(ExponentField(bits) - EXPONENT_BIAS);
    MagnitudeSplit(bits);
  }

  /** Flipping only the sign bit negates the decoded value. */
  lemma DecodeSignFlip(bits: seq<int>)
    requires |bits| == GENE_BITS && IsBits(bits)
    ensures BinaryToFloat(bits[0 := 1 - bits[0]]).value == -BinaryToFloat(bits).value
  {
    var flipped := bits[0 := 1 - bits[0]];
    assert flipped[1..5] == bits[1..5];
    assert flipped[5..] == bits[5..];
    assert Magnitude(flipped) == Magnitude(bits);
    assert Sign(flipped[0]) == -Sign(bits[0]);
    ClampSymmetric(Sign(bits[0]) * Magnitude(bits), COEFFICIENT_LIMIT);
  }

  /** The all-zero gene decodes to exactly +1 * (1 + 0) * 2^-7 = 1/128. */
  lemma DecodeAllZero()
    ensures BinaryToFloat(seq(GENE_BITS, _ => 0)) == Ok(1.0 / 128.0)
  {
    var bits := seq(GENE_BITS, _ => 0);
    MagnitudeClosedForm(bits);
    assert Pow2Nat(7) == 128;
  }

  /** An exponent field of 14 or 15 saturates: the gene decodes to exactly -100 or 100. */
  lemma DecodeSaturates(bits: seq<int>)
    requires |bits| == GENE_BITS && IsBits(bits)
    requires ExponentField(bits) >= 14
    ensures BinaryToFloat(bits).value == if bits[0] == 1 then -COEFFICIENT_LIMIT else COEFFICIENT_LIMIT
  {
    var e := ExponentField(bits) - EXPONENT_BIAS;
    Pow2NatMonotone(7, e);
    assert Pow2Nat(7) == 128;
    MagnitudeSplit(bits);
  }

  /** An exponent field of at most 12 never reaches the clamp: the gene decodes exactly. */
  lemma DecodeExactBelowSaturation(bits: seq<int>)
    requires |bits| == GENE_BITS && IsBits(bits)
    requires ExponentField(bits) <= 12
    ensures BinaryToFloat(bits).value == Sign(bits[0]) * Magnitude(bits)
  {
    var e := ExponentField(bits) - EXPONENT_BIAS;
    if e >= 0 {
      Pow2NatMonotone(e, 5);
      assert Pow2Nat(5) == 32;
    }
    assert Pow2(e) <= 32.0;
    MagnitudeSplit(bits);
  }

  // ---------------------------------------------------------------------------
  // _bits_to_coefficients and construction
  // ---------------------------------------------------------------------------

  /**
   * Split `bits` into consecutive 10-bit chunks and decode each one. The
   * final chunk of an input whose length is not a multiple of 10 is short and
   * raises, as in the source.
   */
  method BitsToCoefficients(bits: seq<int>) returns (r: Result<seq<real>>)
    ensures r.Ok? <==> |bits| % GENE_BITS == 0
    ensures r.Err? ==> r.error == InvalidBitCount
    ensures r.Ok? ==> |r.value| == |bits| / GENE_BITS
    ensures r.Ok? ==> forall k :: 0 <= k < |r.value| ==>
              BinaryToFloat(bits[GENE_BITS * k .. GENE_BITS * k + GENE_BITS]) == Ok(r.value[k])
  {
    var coefficients: seq<real> := [];
    var i := 0;
    while i < |bits|
      invariant 0 <= i <= |bits| && i % GENE_BITS == 0
      invariant |coefficients| == i / GENE_BITS
      invariant forall k :: 0 <= k < |coefficients| ==>
                  BinaryToFloat(bits[GENE_BITS * k .. GENE_BITS * k + GENE_BITS]) == Ok(coefficients[k])
    {
      var end := if i + GENE_BITS <= |bits| then i + GENE_BITS else |bits|;
      var value := BinaryToFloat(bits[i .. end]);
      if value.Err? {
        return Err(value.error);
      }
      coefficients := coefficients + [value.value];
      i := i + GENE_BITS;
    }
    return Ok(coefficients);
  }

  /** A controller: the genome and the two coefficient vectors derived from it at construction. */
  datatype Brain = Brain(genome: seq<int>, engine: seq<real>, wheels: seq<real>)

  predicate WellFormed(b: Brain) {
    |b.engine| == COEFFICIENT_COUNT && |b.wheels| == COEFFICIENT_COUNT
  }

  /**
   * Brain(genome): exactly 180 entries or the "Genome must be 180 bits long"
   * error; engine coefficients from genome[:90], wheel coefficients from genome[90:].
   */
  method NewBrain(genome: seq<int>) returns (r: Result<Brain>)
    ensures r.Ok? <==> |genome| == GENOME_LENGTH
    ensures r.Err? ==> r.error == InvalidGenomeLength
    ensures r.Ok? ==> WellFormed(r.value) && r.value.genome == genome
    ensures r.Ok? ==> forall k :: 0 <= k < COEFFICIENT_COUNT ==>
              && BinaryToFloat(genome[GENE_BITS * k .. GENE_BITS * k + GENE_BITS]) == Ok(r.value.engine[k])
              && BinaryToFloat(genome[HALF_GENOME + GENE_BITS * k .. HALF_GENOME + GENE_BITS * k + GENE_BITS])
                 == Ok(r.value.wheels[k])
  {
    if |genome| != GENOME_LENGTH {
      return Err(InvalidGenomeLength);
    }
    var engine := BitsToCoefficients(genome[..HALF_GENOME]);
    var wheels := BitsToCoefficients(genome[HALF_GENOME..]);
    var e, w := engine.value, wheels.value;
    forall k | 0 <= k < COEFFICIENT_COUNT
      ensures BinaryToFloat(genome[GENE_BITS * k .. GENE_BITS * k + GENE_BITS]) == Ok(e[k])
      ensures BinaryToFloat(genome[HALF_GENOME + GENE_BITS * k .. HALF_GENOME + GENE_BITS * k + GENE_BITS]) == Ok(w[k])
    {
      assert genome[..HALF_GENOME][GENE_BITS * k .. GENE_BITS * k + GENE_BITS]
          == genome[GENE_BITS * k .. GENE_BITS * k + GENE_BITS];
      assert genome[HALF_GENOME..][GENE_BITS * k .. GENE_BITS * k + GENE_BITS]
          == genome[HALF_GENOME + GENE_BITS * k .. HALF_GENOME + GENE_BITS * k + GENE_BITS];
    }
    return Ok(Brain(genome, e, w));
  }

  // ---------------------------------------------------------------------------
  // make_decision and _signal_to_action
  // ---------------------------------------------------------------------------

  /** Each reading clamped to [0, 100]. */
  function ClampSensors(sensors: seq<real>): (r: seq<real>)
    ensures |r| == |sensors|
    ensures forall i :: 0 <= i < |r| ==> 0.0 <= r[i] <= SENSOR_LIMIT
    ensures forall i :: 0 <= i < |r| && 0.0 <= sensors[i] <= SENSOR_LIMIT ==> r[i] == sensors[i]
  {
    seq(|sensors|, i requires 0 <= i < |sensors| => Clamp(sensors[i], 0.0, SENSOR_LIMIT))
  }

  /** sum(c * s for c, s in zip(cs, xs)): pairs up to the shorter of the two. */
  function Dot(cs: seq<real>, xs: seq<real>): real
  {
    if cs == [] || xs == [] then 0.0 else cs[0] * xs[0] + Dot(cs[1..], xs[1..])
  }

  /** Silent sensors contribute nothing to a signal. */
  lemma {:induction false} DotOfZeros(cs: seq<real>, xs: seq<real>)
    requires forall i :: 0 <= i < |xs| ==> xs[i] == 0.0
    ensures Dot(cs, xs) == 0.0
  {
    if cs != [] && xs != [] {
      DotOfZeros(cs[1..], xs[1..]);
    }
  }

  /** One channel's signal: the eight weights against the clamped sensors, plus the bias, clamped to [-100, 100]. */
  function Signal(coefficients: seq<real>, sensors: seq<real>): (r: real)
    requires |coefficients| == COEFFICIENT_COUNT
    ensures -SIGNAL_LIMIT <= r <= SIGNAL_LIMIT
  {
    Clamp(Dot(coefficients[..SENSOR_COUNT], sensors) + coefficients[SENSOR_COUNT], -SIGNAL_LIMIT, SIGNAL_LIMIT)
  }

  /**
   * Threshold a squashed signal into an action: below 0.33 gives -1, above
   * 0.66 gives 1, anything else 0. `squash` stands for the logistic function
   * 1 / (1 + exp(-x)), which is not modelled.
   */
  function SignalToAction(signal: real, squash: real -> real): (a: int)
    ensures a == -1 || a == 0 || a == 1
    ensures a == -1 <==> squash(Clamp(signal, -SQUASH_LIMIT, SQUASH_LIMIT)) < LOW_THRESHOLD
    ensures a == 1 <==> HIGH_THRESHOLD < squash(Clamp(signal, -SQUASH_LIMIT, SQUASH_LIMIT))
  {
    var normalized := squash(Clamp(signal, -SQUASH_LIMIT, SQUASH_LIMIT));
    if normalized < LOW_THRESHOLD then -1
    else if normalized > HIGH_THRESHOLD then 1
    else 0
  }

  /** The decision for eight sensor readings; any other count is the "Expected 8 sensor values" error. */
  function MakeDecision(b: Brain, sensors: seq<real>, squash: real -> real): (r: Result<Action>)
    requires WellFormed(b)
    ensures r.Ok? <==> |sensors| == SENSOR_COUNT
    ensures r.Err? ==> r.error == InvalidSensorCount
    ensures r.Ok? ==> -1 <= r.value.engine <= 1 && -1 <= r.value.wheels <= 1
  {
    if |sensors| != SENSOR_COUNT then Err(InvalidSensorCount)
    else
      var clamped := ClampSensors(sensors);
      Ok(Action(SignalToAction(Signal(b.engine, clamped), squash),
                SignalToAction(Signal(b.wheels, clamped), squash)))
  }

  /** A signal of exactly 0 squashes to 0.5 and so is the neutral action. */
  lemma ZeroSignalIsNeutral(squash: real -> real)
    requires squash(0.0) == 0.5
    ensures SignalToAction(0.0, squash) == 0
  {
  }

  /** With a monotone squash, a larger signal never gives a smaller action. */
  lemma ActionMonotone(s1: real, s2: real, squash: real -> real)
    requires forall x, y :: x <= y ==> squash(x) <= squash(y)
    requires s1 <= s2
    ensures SignalToAction(s1, squash) <= SignalToAction(s2, squash)
  {
    ClampMonotone(s1, s2, -SQUASH_LIMIT, SQUASH_LIMIT);
  }

  /** A reading above 100 decides exactly as a reading of 100. */
  lemma SensorAboveRangeSaturates(b: Brain, sensors: seq<real>, i: nat, x: real, squash: real -> real)
    requires WellFormed(b) && |sensors| == SENSOR_COUNT && i < SENSOR_COUNT
    requires x >= SENSOR_LIMIT
    ensures MakeDecision(b, sensors[i := x], squash) == MakeDecision(b, sensors[i := SENSOR_LIMIT], squash)
  {
    assert ClampSensors(sensors[i := x]) == ClampSensors(sensors[i := SENSOR_LIMIT]);
  }

  /** A reading below 0 decides exactly as a reading of 0. */
  lemma SensorBelowRangeSaturates(b: Brain, sensors: seq<real>, i: nat, x: real, squash: real -> real)
    requires WellFormed(b) && |sensors| == SENSOR_COUNT && i < SENSOR_COUNT
    requires x <= 0.0
    ensures MakeDecision(b, sensors[i := x], squash) == MakeDecision(b, sensors[i := 0.0], squash)
  {
    assert ClampSensors(sensors[i := x]) == ClampSensors(sensors[i := 0.0]);
  }

  /** With every sensor at 0 each channel's signal is its clamped bias alone. */
  lemma SilentSensorsGiveBias(b: Brain, squash: real -> real)
    requires WellFormed(b)
    ensures MakeDecision(b, seq(SENSOR_COUNT, _ => 0.0), squash) == Ok(Action(
      SignalToAction(Clamp(b.engine[SENSOR_COUNT], -SIGNAL_LIMIT, SIGNAL_LIMIT), squash),
      SignalToAction(Clamp(b.wheels[SENSOR_COUNT], -SIGNAL_LIMIT, SIGNAL_LIMIT), squash)))
  {
    var zeros := seq(SENSOR_COUNT, _ => 0.0);
    assert ClampSensors(zeros) == zeros;
    DotOfZeros(b.engine[..SENSOR_COUNT], zeros);
    DotOfZeros(b.wheels[..SENSOR_COUNT], zeros);
  }
}
