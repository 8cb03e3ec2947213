/** The converter configuration quantizer: a human-facing virtual-source
    configuration (mV, mA, uF, ms, normalised efficiency tables) becomes the
    integer register struct the PRU firmware consumes.
    Floats are exact reals here; `round` is Python's half-to-even rounding. */
module VirtualSource {
  import opened Wrappers
  import opened Numerics

  const LutSize: int := 12
  /** 10^3 * 2^28, the numerator of the capacitor constant. */
  const CapConstantNumerator: real := 268435456000.0
  /** Capacitances below this (in uF) are raised to it before dividing. */
  const CapMinUf: real := 0.001
  const U32Limit: int := 0x1_0000_0000
  const OutInvEfficiencyMax: int := 16384

  /** The virtual-source configuration, in the units a user writes it in. */
  datatype VsrcConfig = VsrcConfig(
    enableBoost: bool,
    enableBuck: bool,
    intervalStartupDelayDrainMs: real,
    vInputMaxMv: real,
    iInputMaxMa: real,
    vInputDropMv: real,
    rInputMohm: real,
    cIntermediateUf: real,
    vIntermediateInitMv: real,
    iIntermediateLeakNa: real,
    vIntermediateEnableThresholdMv: real,
    vIntermediateDisableThresholdMv: real,
    intervalCheckThresholdsMs: real,
    vPwrGoodEnableThresholdMv: real,
    vPwrGoodDisableThresholdMv: real,
    immediatePwrGoodSignal: bool,
    cOutputUf: real,
    vOutputLogGpioThresholdMv: real,
    vInputBoostThresholdMv: real,
    vIntermediateMaxMv: real,
    lutInputEfficiency: seq<seq<real>>,
    lutInputVMinLog2Uv: int,
    lutInputIMinLog2Na: int,
    vOutputMv: real,
    vBuckDropMv: real,
    lutOutputEfficiency: seq<real>,
    lutOutputIMinLog2Na: int
  )

  predicate InRange(x: real, lo: real, hi: real) { lo <= x <= hi }

  predicate NormedLut1D(lut: seq<real>) {
    |lut| == LutSize && forall i :: 0 <= i < |lut| ==> InRange(lut[i], 0.0, 1.0)
  }

  predicate NormedLut2D(lut: seq<seq<real>>) {
    |lut| == LutSize && forall i :: 0 <= i < |lut| ==> NormedLut1D(lut[i])
  }

  /** The field bounds the configuration schema declares for each field. */
  predicate ValidConfig(c: VsrcConfig) {
    && InRange(c.intervalStartupDelayDrainMs, 0.0, 10000.0)
    && InRange(c.vInputMaxMv, 0.0, 10000.0)
    && InRange(c.iInputMaxMa, 0.0, 4290.0)
    && InRange(c.vInputDropMv, 0.0, 4290000.0)
    && InRange(c.rInputMohm, 0.0, 4290000.0)
    && InRange(c.cIntermediateUf, 0.0, 100000.0)
    && InRange(c.vIntermediateInitMv, 0.0, 10000.0)
    && InRange(c.iIntermediateLeakNa, 0.0, 4290000000.0)
    && InRange(c.vIntermediateEnableThresholdMv, 0.0, 10000.0)
    && InRange(c.vIntermediateDisableThresholdMv, 0.0, 10000.0)
    && InRange(c.intervalCheckThresholdsMs, 0.0, 4290.0)
    && InRange(c.vPwrGoodEnableThresholdMv, 0.0, 10000.0)
    && InRange(c.vPwrGoodDisableThresholdMv, 0.0, 10000.0)
    && InRange(c.cOutputUf, 0.0, 4290000.0)
    && InRange(c.vOutputLogGpioThresholdMv, 0.0, 4290000.0)
    && InRange(c.vInputBoostThresholdMv, 0.0, 10000.0)
    && InRange(c.vIntermediateMaxMv, 0.0, 10000.0)
    && NormedLut2D(c.lutInputEfficiency)
    && 0 <= c.lutInputVMinLog2Uv <= 20
    && 1 <= c.lutInputIMinLog2Na <= 20
    && InRange(c.vOutputMv, 0.0, 5000.0)
    && InRange(c.vBuckDropMv, 0.0, 5000.0)
    && NormedLut1D(c.lutOutputEfficiency)
    && 1 <= c.lutOutputIMinLog2Na <= 20
  }

  // ---------------------------------------------------------------- mode

  /** True when the bit of the given weight (1, 2, 4 or 8) is set. */
  predicate HasFlag(mode: int, weight: int)
    requires weight > 0
  {
    (mode / weight) % 2 == 1
  }

  function BoolToInt(b: bool): int { if b then 1 else 0 }

  /** The converter-mode bitmask: bit 0 storage (C_intermediate > 0), bit 1
      boost (only together with storage), bit 2 buck, bit 3 log the
      intermediate node. */
  function CalcConverterMode(c: VsrcConfig, logIntermediateNode: bool): (mode: int)
    ensures 0 <= mode < 16
    ensures HasFlag(mode, 1) <==> c.cIntermediateUf > 0.0
    ensures HasFlag(mode, 2) <==> c.enableBoost && c.cIntermediateUf > 0.0
    ensures HasFlag(mode, 4) <==> c.enableBuck
    ensures HasFlag(mode, 8) <==> logIntermediateNode
    ensures HasFlag(mode, 2) ==> HasFlag(mode, 1)
  {
    var enableStorage := c.cIntermediateUf > 0.0;
    var enableBoost := c.enableBoost && enableStorage;
    1 * BoolToInt(enableStorage)
    + 2 * BoolToInt(enableBoost)
    + 4 * BoolToInt(c.enableBuck)
    + 8 * BoolToInt(logIntermediateNode)
  }

  // ---------------------------------------------------- capacitor constant

  function MaxReal(a: real, b: real): real { if a >= b then a else b }

  /** Constant (us/nF, Q28) that turns a capacitor current into a voltage
      step: the largest integer k with k * max(C, 0.001 uF) * samplerate not
      above 10^3 * 2^28. */
  function CalcCapConstant(cIntermediateUf: real, samplerate: int): (k: int)
    requires samplerate > 0
    ensures 0 <= k
    ensures (k as real) * (MaxReal(cIntermediateUf, CapMinUf) * samplerate as real) <= CapConstantNumerator
    ensures CapConstantNumerator < ((k + 1) as real) * (MaxReal(cIntermediateUf, CapMinUf) * samplerate as real)
  {
    var d := MaxReal(cIntermediateUf, CapMinUf) * samplerate as real;
    var q := CapConstantNumerator / d;
    FloorScaled(q, d);
    q.Floor
  }

  lemma FloorScaled(q: real, d: real)
    requires d > 0.0 && q >= 0.0
    ensures q.Floor >= 0
    ensures (q.Floor as real) * d <= q * d < ((q.Floor + 1) as real) * d
  {
    var f := q.Floor as real;
    assert f <= q < f + 1.0;
    assert f * d <= q * d;
    assert q * d < (f + 1.0) * d;
  }

  /** A larger capacitor never gives a larger constant. */
  lemma CapConstantAntitone(c1: real, c2: real, samplerate: int)
    requires samplerate > 0
    requires c1 <= c2
    ensures CalcCapConstant(c2, samplerate) <= CalcCapConstant(c1, samplerate)
  {
    var sr := samplerate as real;
    var d1 := MaxReal(c1, CapMinUf) * sr;
    var d2 := MaxReal(c2, CapMinUf) * sr;
    MulPos(MaxReal(c1, CapMinUf), sr);
    MulLeRight(MaxReal(c1, CapMinUf), MaxReal(c2, CapMinUf), sr);
    DivAntitone(CapConstantNumerator, d1, d2);
    FloorMono(CapConstantNumerator / d2, CapConstantNumerator / d1);
    CapConstantIsFloor(c1, samplerate);
    CapConstantIsFloor(c2, samplerate);
  }

  /** The constant is the floor of the numerator over the clamped
      capacitance times the sample rate. */
  lemma CapConstantIsFloor(c: real, samplerate: int)
    requires samplerate > 0
    ensures CalcCapConstant(c, samplerate) == (CapConstantNumerator / (MaxReal(c, CapMinUf) * samplerate as real)).Floor
  {
  }

  // ------------------------------------------------- hysteresis deltas

  /** A Python number that is either real or complex (what `pow(x, 0.5)`
      gives for a negative x). */
  datatype Num = Real(r: real) | Complex

  function PowHalf(x: real, sqrt: real -> real): Num {
    if x < 0.0 then Complex else Real(sqrt(x))
  }

  function Sub(a: Num, b: Num): Num {
    if a.Real? && b.Real? then Real(a.r - b.r) else Complex
  }

  function Mul(a: Num, b: Num): Num {
    if a.Real? && b.Real? then Real(a.r * b.r) else Complex
  }

  ghost predicate SqrtNonNeg(sqrt: real -> real) {
    forall x :: 0.0 <= x ==> 0.0 <= sqrt(x)
  }

  /** `sqrt` is the real square root on the non-negative reals. */
  ghost predicate SqrtSpec(sqrt: real -> real) {
    forall x :: 0.0 <= x ==> 0.0 <= sqrt(x) && sqrt(x) * sqrt(x) == x
  }

  /** The two voltage drops of the storage capacitor when the output
      capacitor is switched on, after the guard that replaces complex or
      negative values by 0; `warned` is the logged warning of the second. */
  datatype Deltas = Deltas(enThrsMv: real, imedLowMv: real, warned: bool)

  predicate CapsPresent(c: VsrcConfig) {
    c.cIntermediateUf > 0.0 && c.cOutputUf > 0.0
  }

  /** Radicand of the drop seen at the enable threshold. */
  function EnThrsRadicand(c: VsrcConfig): real
    requires c.cIntermediateUf != 0.0
  {
    var vOld := c.vIntermediateEnableThresholdMv;
    vOld * vOld - (c.cOutputUf / c.cIntermediateUf) * (c.vOutputMv * c.vOutputMv)
  }

  function ImedLowRadicand(c: VsrcConfig): real
    requires c.cIntermediateUf != 0.0
  {
    1.0 - c.cOutputUf / c.cIntermediateUf
  }

  function CalcDeltas(c: VsrcConfig, sqrt: real -> real): (d: Deltas)
    ensures d.enThrsMv >= 0.0 && d.imedLowMv >= 0.0
    ensures !CapsPresent(c) ==> d == Deltas(0.0, 0.0, false)
  {
    var (enThrs, imedLow) :=
      if CapsPresent(c) then
        ( Sub(Real(c.vIntermediateEnableThresholdMv), PowHalf(EnThrsRadicand(c), sqrt)),
          Mul(Real(c.vOutputMv), Sub(Real(1.0), PowHalf(ImedLowRadicand(c), sqrt))) )
      else (Real(0.0), Real(0.0));
    var okEn := enThrs.Real? && enThrs.r >= 0.0;
    var okLow := imedLow.Real? && imedLow.r >= 0.0;
    Deltas(if okEn then enThrs.r else 0.0, if okLow then imedLow.r else 0.0, !okLow)
  }

  /** The warning is logged exactly when the output capacitor is larger than
      the storage capacitor (both present); without a capacitor it never is. */
  lemma CalcDeltasWarning(c: VsrcConfig, sqrt: real -> real)
    requires SqrtSpec(sqrt)
    requires c.vOutputMv >= 0.0 && c.cOutputUf >= 0.0
    ensures CalcDeltas(c, sqrt).warned <==> CapsPresent(c) && c.cOutputUf > c.cIntermediateUf
  {
    if CapsPresent(c) {
      QuotientGtOne(c.cOutputUf, c.cIntermediateUf);
      var ratio := c.cOutputUf / c.cIntermediateUf;
      if ratio <= 1.0 {
        var s := sqrt(1.0 - ratio);
        SqrtAtMostOne(sqrt, 1.0 - ratio);
        MulNonNeg(c.vOutputMv, 1.0 - s);
      }
    }
  }

  /** The square root of a value in [0, 1] lies in [0, 1]. */
  lemma SqrtAtMostOne(sqrt: real -> real, x: real)
    requires SqrtSpec(sqrt)
    requires 0.0 <= x <= 1.0
    ensures 0.0 <= sqrt(x) <= 1.0
  {
    var s := sqrt(x);
    assert 0.0 <= s && s * s == x;
    if s > 1.0 {
      SquareLt(1.0, s);
    }
  }

  /** Energy balance behind the first drop: if the radicand is real, the
      storage capacitor charged to the enable threshold and lowered by the
      drop holds exactly the energy it had before minus the energy the
      output capacitor takes at V_output (C*V^2/2 on both sides, halves
      cancelled). A negative radicand yields a drop of zero. */
  lemma EnThrsEnergyBalance(c: VsrcConfig, sqrt: real -> real)
    requires SqrtSpec(sqrt)
    requires CapsPresent(c) && c.vIntermediateEnableThresholdMv >= 0.0
    ensures EnThrsRadicand(c) >= 0.0 ==>
      var v := c.vIntermediateEnableThresholdMv - CalcDeltas(c, sqrt).enThrsMv;
      c.cIntermediateUf * (v * v)
        == c.cIntermediateUf * (c.vIntermediateEnableThresholdMv * c.vIntermediateEnableThresholdMv)
           - c.cOutputUf * (c.vOutputMv * c.vOutputMv)
    ensures EnThrsRadicand(c) < 0.0 ==> CalcDeltas(c, sqrt).enThrsMv == 0.0
  {
    var rad := EnThrsRadicand(c);
    var vOld := c.vIntermediateEnableThresholdMv;
    var vOut := c.vOutputMv;
    var ratio := c.cOutputUf / c.cIntermediateUf;
    if rad >= 0.0 {
      var s := sqrt(rad);
      assert 0.0 <= s && s * s == rad;
      DivNonNeg(c.cOutputUf, c.cIntermediateUf);
      SquareNonNeg(vOut);
      MulNonNeg(ratio, vOut * vOut);
      assert rad <= vOld * vOld;
      if s > vOld {
        SquareLt(vOld, s);
      }
      assert CalcDeltas(c, sqrt).enThrsMv == vOld - s;
      QuotientGtOne(c.cOutputUf, c.cIntermediateUf);
      CancelRatio(c.cIntermediateUf, ratio, c.cOutputUf, vOld * vOld, vOut * vOut);
    }
  }

  /** k * (a - r * b) == k * a - m * b when r * k == m. */
  lemma CancelRatio(k: real, r: real, m: real, a: real, b: real)
    requires r * k == m
    ensures k * (a - r * b) == k * a - m * b
  {
  }

  /** Energy balance behind the second drop: a storage capacitor at V_output
      lowered by the drop keeps its energy minus the output capacitor's. */
  lemma ImedLowEnergyBalance(c: VsrcConfig, sqrt: real -> real)
    requires SqrtSpec(sqrt)
    requires CapsPresent(c) && c.vOutputMv >= 0.0
    requires c.cOutputUf <= c.cIntermediateUf
    ensures var v := c.vOutputMv - CalcDeltas(c, sqrt).imedLowMv;
      c.cIntermediateUf * (v * v)
        == c.cIntermediateUf * (c.vOutputMv * c.vOutputMv) - c.cOutputUf * (c.vOutputMv * c.vOutputMv)
  {
    var ratio := c.cOutputUf / c.cIntermediateUf;
    var vOut := c.vOutputMv;
    QuotientGtOne(c.cOutputUf, c.cIntermediateUf);
    DivNonNeg(c.cOutputUf, c.cIntermediateUf);
    var s := sqrt(1.0 - ratio);
    SqrtAtMostOne(sqrt, 1.0 - ratio);
    assert s * s == 1.0 - ratio;
    MulNonNeg(vOut, 1.0 - s);
    assert CalcDeltas(c, sqrt).imedLowMv == vOut * (1.0 - s);
    assert vOut - vOut * (1.0 - s) == vOut * s;
    assert (vOut * s) * (vOut * s) == (vOut * vOut) * (s * s);
    CancelRatio(c.cIntermediateUf, ratio, c.cOutputUf, vOut * vOut, vOut * vOut);
    assert (vOut * vOut) * (1.0 - ratio) == vOut * vOut - ratio * (vOut * vOut);
  }

  /** With a non-negative square root the drops never exceed the voltage
      they are taken from. */
  lemma CalcDeltasBounded(c: VsrcConfig, sqrt: real -> real)
    requires SqrtNonNeg(sqrt)
    requires c.vOutputMv >= 0.0
    ensures CalcDeltas(c, sqrt).enThrsMv <= MaxReal(c.vIntermediateEnableThresholdMv, 0.0)
    ensures CalcDeltas(c, sqrt).imedLowMv <= c.vOutputMv
  {
    if CapsPresent(c) {
      var vOut := c.vOutputMv;
      if ImedLowRadicand(c) >= 0.0 {
        var s := sqrt(ImedLowRadicand(c));
        assert s >= 0.0;
        MulNonNeg(vOut, s);
        assert vOut * (1.0 - s) == vOut - vOut * s;
      }
      if EnThrsRadicand(c) >= 0.0 {
        assert sqrt(EnThrsRadicand(c)) >= 0.0;
      }
    }
  }

  // -------------------------------------------------- internal states

  datatype InternalStates = InternalStates(
    dvEnableOutputMv: real,
    vEnableOutputThresholdMv: real,
    vDisableOutputThresholdMv: real,
    warned: bool
  )

  /** Output enable/disable thresholds and the enable drop. Without buck they
      are the intermediate-node thresholds; with buck they are lifted to the
      pre-buck output level V_output + V_buck_drop where the intermediate
      thresholds lie at or below it. */
  function CalcInternalStates(c: VsrcConfig, sqrt: real -> real): (s: InternalStates)
    ensures var d := CalcDeltas(c, sqrt);
      && s.warned == d.warned
      && s.dvEnableOutputMv >= 0.0
      && (!c.enableBuck ==>
            && s.vEnableOutputThresholdMv == c.vIntermediateEnableThresholdMv
            && s.vDisableOutputThresholdMv == c.vIntermediateDisableThresholdMv
            && s.dvEnableOutputMv == d.enThrsMv)
      && (c.enableBuck ==>
            var pre := c.vOutputMv + c.vBuckDropMv;
            && s.vDisableOutputThresholdMv == MaxReal(c.vIntermediateDisableThresholdMv, pre)
            && s.vDisableOutputThresholdMv >= pre
            && (c.vIntermediateEnableThresholdMv > pre ==>
                  s.vEnableOutputThresholdMv == c.vIntermediateEnableThresholdMv
                  && s.dvEnableOutputMv == d.enThrsMv)
            && (c.vIntermediateEnableThresholdMv <= pre ==>
                  s.vEnableOutputThresholdMv == pre + d.imedLowMv
                  && s.dvEnableOutputMv == d.imedLowMv)
            && s.vEnableOutputThresholdMv >= pre)
  {
    var d := CalcDeltas(c, sqrt);
    if c.enableBuck then
      var pre := c.vOutputMv + c.vBuckDropMv;
      var (en, dv) :=
        if c.vIntermediateEnableThresholdMv > pre then (c.vIntermediateEnableThresholdMv, d.enThrsMv)
        else (pre + d.imedLowMv, d.imedLowMv);
      var dis := if c.vIntermediateDisableThresholdMv > pre then c.vIntermediateDisableThresholdMv else pre;
      InternalStates(dv, en, dis, d.warned)
    else
      InternalStates(d.enThrsMv, c.vIntermediateEnableThresholdMv, c.vIntermediateDisableThresholdMv, d.warned)
  }

  /** Hysteresis monotonicity: a configuration whose disable threshold is not
      above its enable threshold keeps that order after the derivation. */
  lemma HysteresisOrderPreserved(c: VsrcConfig, sqrt: real -> real)
    requires c.vIntermediateDisableThresholdMv <= c.vIntermediateEnableThresholdMv
    ensures var s := CalcInternalStates(c, sqrt);
      s.vDisableOutputThresholdMv <= s.vEnableOutputThresholdMv
  {
  }

  // ------------------------------------------------------ quantization

  /** mV (or any milli-unit) to the micro-unit register value. */
  function MilliToMicro(x: real): (r: int)
    ensures (r as real) - 0.5 <= 1000.0 * x <= (r as real) + 0.5
    ensures x >= 0.0 ==> r >= 0
  {
    Round(x * 1000.0)
  }

  /** A duration in ms to a number of samples at `samplerate`. */
  function MsToSamples(ms: real, samplerate: int): (n: int)
    ensures (n as real) - 0.5 <= ms * (samplerate as real) / 1000.0 <= (n as real) + 0.5
  {
    Round(ms * (samplerate as real) * 0.001)
  }

  /** One input-efficiency entry in Q8, clamped to a byte. */
  function QuantizeInputEfficiency(x: real): (q: int)
    ensures q <= 255
    ensures x >= 0.0 ==> 0 <= q
    ensures q < 255 ==> (q as real) - 0.5 <= 256.0 * x <= (q as real) + 0.5
    ensures q == 255 ==> 256.0 * x >= 254.5
  {
    var r := Round(256.0 * x);
    if r < 255 then r else 255
  }

  /** One output-efficiency entry as an inverse efficiency in Q4, with 0 (and
      any non-positive value) mapped to the ceiling 2^14. */
  function QuantizeOutputInvEfficiency(v: real): (q: int)
    ensures 0 <= q <= OutInvEfficiencyMax
    ensures v <= 0.0 ==> q == OutInvEfficiencyMax
    ensures v > 0.0 && q < OutInvEfficiencyMax ==> (q as real) - 0.5 <= 16.0 / v <= (q as real) + 0.5
  {
    if v > 0.0 then
      var r := Round(16.0 / v);
      if r < OutInvEfficiencyMax then r else OutInvEfficiencyMax
    else OutInvEfficiencyMax
  }

  function QuantizeInputLut(lut: seq<seq<real>>): (q: seq<seq<int>>)
    ensures |q| == |lut|
    ensures forall i :: 0 <= i < |lut| ==> |q[i]| == |lut[i]|
    ensures forall i, j :: 0 <= i < |lut| && 0 <= j < |lut[i]| ==> q[i][j] == QuantizeInputEfficiency(lut[i][j])
  {
    seq(|lut|, i requires 0 <= i < |lut| => seq(|lut[i]|, j requires 0 <= j < |lut[i]| => QuantizeInputEfficiency(lut[i][j])))
  }

  function QuantizeOutputLut(lut: seq<real>): (q: seq<int>)
    ensures |q| == |lut|
    ensures forall i :: 0 <= i < |lut| ==> q[i] == QuantizeOutputInvEfficiency(lut[i])
  {
    seq(|lut|, i requires 0 <= i < |lut| => QuantizeOutputInvEfficiency(lut[i]))
  }

  /** The register struct shared with the firmware, field order as there. */
  datatype ConverterPruConfig = ConverterPruConfig(
    converterMode: int,
    intervalStartupDelayDrainN: int,
    vInputMaxUv: int,
    iInputMaxNa: int,
    vInputDropUv: int,
    rInputKohmN22: int,
    constantUsPerNfN28: int,
    vIntermediateInitUv: int,
    iIntermediateLeakNa: int,
    vEnableOutputThresholdUv: int,
    vDisableOutputThresholdUv: int,
    dvEnableOutputUv: int,
    intervalCheckThresholdsN: int,
    vPwrGoodEnableThresholdUv: int,
    vPwrGoodDisableThresholdUv: int,
    immediatePwrGoodSignal: int,
    vOutputLogGpioThresholdUv: int,
    vInputBoostThresholdUv: int,
    vIntermediateMaxUv: int,
    vOutputUv: int,
    vBuckDropUv: int,
    lutInputVMinLog2Uv: int,
    lutInputIMinLog2Na: int,
    lutOutputIMinLog2Na: int,
    lutInpEfficiencyN8: seq<seq<int>>,
    lutOutInvEfficiencyN4: seq<int>
  )

  predicate U32(x: int) { 0 <= x < U32Limit }

  /** The struct's own schema: every scalar a u32, the input table 12x12
      bytes, the output table 12 u32 values. */
  predicate ValidPru(p: ConverterPruConfig) {
    && U32(p.converterMode) && U32(p.intervalStartupDelayDrainN)
    && U32(p.vInputMaxUv) && U32(p.iInputMaxNa) && U32(p.vInputDropUv) && U32(p.rInputKohmN22)
    && U32(p.constantUsPerNfN28) && U32(p.vIntermediateInitUv) && U32(p.iIntermediateLeakNa)
    && U32(p.vEnableOutputThresholdUv) && U32(p.vDisableOutputThresholdUv) && U32(p.dvEnableOutputUv)
    && U32(p.intervalCheckThresholdsN)
    && U32(p.vPwrGoodEnableThresholdUv) && U32(p.vPwrGoodDisableThresholdUv) && U32(p.immediatePwrGoodSignal)
    && U32(p.vOutputLogGpioThresholdUv) && U32(p.vInputBoostThresholdUv) && U32(p.vIntermediateMaxUv)
    && U32(p.vOutputUv) && U32(p.vBuckDropUv)
    && U32(p.lutInputVMinLog2Uv) && U32(p.lutInputIMinLog2Na) && U32(p.lutOutputIMinLog2Na)
    && |p.lutInpEfficiencyN8| == LutSize
    && (forall i :: 0 <= i < LutSize ==> |p.lutInpEfficiencyN8[i]| == LutSize)
    && (forall i, j :: 0 <= i < LutSize && 0 <= j < LutSize ==> 0 <= p.lutInpEfficiencyN8[i][j] < 256)
    && |p.lutOutInvEfficiencyN4| == LutSize
    && (forall i :: 0 <= i < LutSize ==> U32(p.lutOutInvEfficiencyN4[i]))
  }

  datatype QuantizeError = StructValidationFailed

  /** The struct values before the struct validates them. */
  function PruFields(c: VsrcConfig, logIntermediateNode: bool, samplerate: int, sqrt: real -> real): (p: ConverterPruConfig)
    requires samplerate > 0
  {
    var s := CalcInternalStates(c, sqrt);
    ConverterPruConfig(
      CalcConverterMode(c, logIntermediateNode),
      MsToSamples(c.intervalStartupDelayDrainMs, samplerate),
      MilliToMicro(c.vInputMaxMv),
      Round(c.iInputMaxMa * 1000000.0),
      MilliToMicro(c.vInputDropMv),
      Round(c.rInputMohm * (4194304.0 / 1000000.0)),
      CalcCapConstant(c.cIntermediateUf, samplerate),
      MilliToMicro(c.vIntermediateInitMv),
      Round(c.iIntermediateLeakNa),
      MilliToMicro(s.vEnableOutputThresholdMv),
      MilliToMicro(s.vDisableOutputThresholdMv),
      MilliToMicro(s.dvEnableOutputMv),
      MsToSamples(c.intervalCheckThresholdsMs, samplerate),
      MilliToMicro(c.vPwrGoodEnableThresholdMv),
      MilliToMicro(c.vPwrGoodDisableThresholdMv),
      BoolToInt(c.immediatePwrGoodSignal),
      MilliToMicro(c.vOutputLogGpioThresholdMv),
      MilliToMicro(c.vInputBoostThresholdMv),
      MilliToMicro(c.vIntermediateMaxMv),
      MilliToMicro(c.vOutputMv),
      MilliToMicro(c.vBuckDropMv),
      c.lutInputVMinLog2Uv,
      c.lutInputIMinLog2Na - 1,
      c.lutOutputIMinLog2Na - 1,
      QuantizeInputLut(c.lutInputEfficiency),
      QuantizeOutputLut(c.lutOutputEfficiency)
    )
  }

  /** Builds the register struct; the struct's schema rejects any field
      outside its integer type. */
  function FromVsrc(c: VsrcConfig, logIntermediateNode: bool, samplerate: int, sqrt: real -> real)
    : (r: Result<ConverterPruConfig, QuantizeError>)
    requires samplerate > 0
    ensures r.Success? <==> ValidPru(PruFields(c, logIntermediateNode, samplerate, sqrt))
    ensures r.Success? ==> r.value == PruFields(c, logIntermediateNode, samplerate, sqrt)
    ensures r.Failure? ==> r.error == StructValidationFailed
    ensures r.Success? ==>
      && ValidPru(r.value)
      && r.value.vEnableOutputThresholdUv == MilliToMicro(CalcInternalStates(c, sqrt).vEnableOutputThresholdMv)
      && r.value.vDisableOutputThresholdUv == MilliToMicro(CalcInternalStates(c, sqrt).vDisableOutputThresholdMv)
      && r.value.dvEnableOutputUv == MilliToMicro(CalcInternalStates(c, sqrt).dvEnableOutputMv)
      && r.value.intervalCheckThresholdsN == MsToSamples(c.intervalCheckThresholdsMs, samplerate)
      && r.value.intervalStartupDelayDrainN == MsToSamples(c.intervalStartupDelayDrainMs, samplerate)
      && r.value.constantUsPerNfN28 == CalcCapConstant(c.cIntermediateUf, samplerate)
      && r.value.lutInpEfficiencyN8 == QuantizeInputLut(c.lutInputEfficiency)
      && r.value.lutOutInvEfficiencyN4 == QuantizeOutputLut(c.lutOutputEfficiency)
      && r.value.converterMode == CalcConverterMode(c, logIntermediateNode)
      && r.value.lutInputIMinLog2Na == c.lutInputIMinLog2Na - 1
      && r.value.lutOutputIMinLog2Na == c.lutOutputIMinLog2Na - 1
      && r.value.lutInputVMinLog2Uv == c.lutInputVMinLog2Uv
      && (r.value.vOutputUv as real) - 0.5 <= 1000.0 * c.vOutputMv <= (r.value.vOutputUv as real) + 0.5
  {
    var p := PruFields(c, logIntermediateNode, samplerate, sqrt);
    if ValidPru(p) then Success(p) else Failure(StructValidationFailed)
  }

  /** A rounded value stays a u32 when the value lies in [0, 2^32 - 1]. */
  lemma RoundU32(x: real)
    requires 0.0 <= x <= 4294967295.0
    ensures U32(Round(x))
  {
  }

  /** Under the schema bounds the derived thresholds and the enable drop lie
      in [0, 15 V], [0, 10 V] and [0, 10 V]. */
  lemma InternalStatesBounded(c: VsrcConfig, sqrt: real -> real)
    requires ValidConfig(c)
    requires SqrtNonNeg(sqrt)
    ensures var s := CalcInternalStates(c, sqrt);
      && InRange(s.vEnableOutputThresholdMv, 0.0, 15000.0)
      && InRange(s.vDisableOutputThresholdMv, 0.0, 10000.0)
      && InRange(s.dvEnableOutputMv, 0.0, 10000.0)
  {
    CalcDeltasBounded(c, sqrt);
  }

  /** At 100 kSps the capacitor constant never exceeds the one of the
      0.001 uF floor, 2684354560, so it is a u32. */
  lemma CapConstantU32(cIntermediateUf: real)
    ensures U32(CalcCapConstant(cIntermediateUf, 100000))
  {
    CapConstantAntitone(0.0, MaxReal(cIntermediateUf, 0.0), 100000);
    assert CalcCapConstant(0.0, 100000) == 2684354560;
    assert CalcCapConstant(MaxReal(cIntermediateUf, 0.0), 100000) == CalcCapConstant(cIntermediateUf, 100000);
  }

  /** Normalised tables quantize to a 12x12 byte table and 12 u32 values. */
  lemma QuantizedLutsValid(c: VsrcConfig)
    requires NormedLut2D(c.lutInputEfficiency) && NormedLut1D(c.lutOutputEfficiency)
    ensures var q := QuantizeInputLut(c.lutInputEfficiency);
      && |q| == LutSize
      && (forall i :: 0 <= i < LutSize ==> |q[i]| == LutSize)
      && (forall i, j :: 0 <= i < LutSize && 0 <= j < LutSize ==> 0 <= q[i][j] < 256)
    ensures var q := QuantizeOutputLut(c.lutOutputEfficiency);
      |q| == LutSize && forall i :: 0 <= i < LutSize ==> U32(q[i])
  {
    var q := QuantizeInputLut(c.lutInputEfficiency);
    forall i, j | 0 <= i < LutSize && 0 <= j < LutSize
      ensures 0 <= q[i][j] < 256
    {
      assert NormedLut1D(c.lutInputEfficiency[i]);
      assert c.lutInputEfficiency[i][j] >= 0.0;
    }
  }

  /** Every configuration inside the schema bounds quantizes at 100 kSps
      without a struct validation error, for any non-negative square root. */
  lemma FromVsrcSucceeds(c: VsrcConfig, logIntermediateNode: bool, sqrt: real -> real)
    requires ValidConfig(c)
    requires SqrtNonNeg(sqrt)
    ensures FromVsrc(c, logIntermediateNode, 100000, sqrt).Success?
  {
    var p := PruFields(c, logIntermediateNode, 100000, sqrt);
    var s := CalcInternalStates(c, sqrt);
    InternalStatesBounded(c, sqrt);
    RoundU32(c.intervalStartupDelayDrainMs * 100000.0 * 0.001);
    RoundU32(c.intervalCheckThresholdsMs * 100000.0 * 0.001);
    RoundU32(c.iInputMaxMa * 1000000.0);
    RoundU32(c.rInputMohm * (4194304.0 / 1000000.0));
    RoundU32(c.iIntermediateLeakNa);
    RoundU32(c.vInputMaxMv * 1000.0);
    RoundU32(c.vInputDropMv * 1000.0);
    RoundU32(c.vIntermediateInitMv * 1000.0);
    RoundU32(c.vPwrGoodEnableThresholdMv * 1000.0);
    RoundU32(c.vPwrGoodDisableThresholdMv * 1000.0);
    RoundU32(c.vOutputLogGpioThresholdMv * 1000.0);
    RoundU32(c.vInputBoostThresholdMv * 1000.0);
    RoundU32(c.vIntermediateMaxMv * 1000.0);
    RoundU32(c.vOutputMv * 1000.0);
    RoundU32(c.vBuckDropMv * 1000.0);
    RoundU32(s.vEnableOutputThresholdMv * 1000.0);
    RoundU32(s.vDisableOutputThresholdMv * 1000.0);
    RoundU32(s.dvEnableOutputMv * 1000.0);
    CapConstantU32(c.cIntermediateUf);
    QuantizedLutsValid(c);
  }
}
