/** Hardware conversion between raw ADC/DAC codes and SI values for the
    cape's current and voltage channels. Every *ToRaw function truncates
    toward zero and clamps into the code range; every Raw* function clamps
    its code first. */
module CalibrationHw {
  import opened Numerics

  /** Shunt resistance of both current channels, in ohm. */
  const RSht: real := 2.0
  /** Gain of the instrumentation amplifiers. */
  const GInstAmp: real := 48.0
  /** Internal ADC reference, in V. */
  const VRefAdc: real := 4.096
  const GAdcI: real := 1.25
  const GAdcV: real := 1.25
  const MAdc: nat := 18
  /** Internal DAC reference, in V. */
  const VRefDac: real := 2.5
  const GDac: real := 2.0
  const MDac: nat := 16
  /** 2^MAdc and 2^MDac. */
  const AdcCodes: int := 262144
  const DacCodes: int := 65536
  const RawMaxAdc: int := AdcCodes - 1
  const RawMaxDac: int := DacCodes - 1

  /** The SI value of one code step of each channel. */
  const AdcCurrentLsb: real := (GAdcI * VRefAdc) / (AdcCodes as real) / (RSht * GInstAmp)
  const AdcVoltageLsb: real := (GAdcV * VRefAdc) / (AdcCodes as real)
  const DacVoltageLsb: real := (VRefDac * GDac) / (DacCodes as real)

  // ------------------------------------------------------------ ADC current

  function AdcCurrentToRaw(current: real): (raw: int)
    ensures 0 <= raw <= RawMaxAdc
    ensures current < AdcCurrentLsb ==> raw == 0
    ensures current >= (RawMaxAdc as real) * AdcCurrentLsb ==> raw == RawMaxAdc
  {
    var valAdc := GInstAmp * RSht * current;
    var valRaw := Trunc(valAdc * (AdcCodes as real) / (GAdcI * VRefAdc));
    Clamp(valRaw, 0, RawMaxAdc)
  }

  function AdcRawToCurrent(value: int): (current: real)
    ensures 0.0 <= current <= (RawMaxAdc as real) * AdcCurrentLsb
    ensures 0 <= value <= RawMaxAdc ==> current == (value as real) * AdcCurrentLsb
    ensures value < 0 ==> current == 0.0
    ensures value > RawMaxAdc ==> current == (RawMaxAdc as real) * AdcCurrentLsb
  {
    var v := Clamp(value, 0, RawMaxAdc);
    var valAdc := (v as real) * (GAdcI * VRefAdc) / (AdcCodes as real);
    valAdc / (RSht * GInstAmp)
  }

  /** Every code survives the trip to a current and back. */
  lemma AdcCurrentRoundTrip(raw: int)
    requires 0 <= raw <= RawMaxAdc
    ensures AdcCurrentToRaw(AdcRawToCurrent(raw)) == raw
  {
    var x := GInstAmp * RSht * AdcRawToCurrent(raw) * (AdcCodes as real) / (GAdcI * VRefAdc);
    assert x == raw as real;
  }

  /** Inside the measurable range the code of a current reads back at most
      one step below it. */
  lemma AdcCurrentQuantization(current: real)
    requires 0.0 <= current < (AdcCodes as real) * AdcCurrentLsb
    ensures AdcRawToCurrent(AdcCurrentToRaw(current)) <= current
            < AdcRawToCurrent(AdcCurrentToRaw(current)) + AdcCurrentLsb
  {
    var x := GInstAmp * RSht * current * (AdcCodes as real) / (GAdcI * VRefAdc);
    assert x == current / AdcCurrentLsb;
  }

  /** A larger code never reads back as a smaller current. */
  lemma AdcRawToCurrentMonotone(a: int, b: int)
    requires a <= b
    ensures AdcRawToCurrent(a) <= AdcRawToCurrent(b)
  {
    var ca := Clamp(a, 0, RawMaxAdc);
    var cb := Clamp(b, 0, RawMaxAdc);
    assert AdcRawToCurrent(a) == (ca as real) * AdcCurrentLsb;
    assert AdcRawToCurrent(b) == (cb as real) * AdcCurrentLsb;
    MulLeRight(ca as real, cb as real, AdcCurrentLsb);
  }

  lemma AdcCurrentMonotone(a: real, b: real)
    requires a <= b
    ensures AdcCurrentToRaw(a) <= AdcCurrentToRaw(b)
  {
    TruncMonotone(GInstAmp * RSht * a * (AdcCodes as real) / (GAdcI * VRefAdc),
                  GInstAmp * RSht * b * (AdcCodes as real) / (GAdcI * VRefAdc));
  }

  // ------------------------------------------------------------ ADC voltage

  function AdcVoltageToRaw(voltage: real): (raw: int)
    ensures 0 <= raw <= RawMaxAdc
    ensures voltage < AdcVoltageLsb ==> raw == 0
    ensures voltage >= (RawMaxAdc as real) * AdcVoltageLsb ==> raw == RawMaxAdc
  {
    var valRaw := Trunc(voltage * (AdcCodes as real) / (GAdcV * VRefAdc));
    Clamp(valRaw, 0, RawMaxAdc)
  }

  function AdcRawToVoltage(value: int): (voltage: real)
    ensures 0.0 <= voltage <= (RawMaxAdc as real) * AdcVoltageLsb
    ensures 0 <= value <= RawMaxAdc ==> voltage == (value as real) * AdcVoltageLsb
    ensures value < 0 ==> voltage == 0.0
    ensures value > RawMaxAdc ==> voltage == (RawMaxAdc as real) * AdcVoltageLsb
  {
    var v := Clamp(value, 0, RawMaxAdc);
    (v as real) * (GAdcV * VRefAdc) / (AdcCodes as real)
  }

  lemma AdcVoltageRoundTrip(raw: int)
    requires 0 <= raw <= RawMaxAdc
    ensures AdcVoltageToRaw(AdcRawToVoltage(raw)) == raw
  {
    var x := AdcRawToVoltage(raw) * (AdcCodes as real) / (GAdcV * VRefAdc);
    assert x == raw as real;
  }

  lemma AdcVoltageQuantization(voltage: real)
    requires 0.0 <= voltage < (AdcCodes as real) * AdcVoltageLsb
    ensures AdcRawToVoltage(AdcVoltageToRaw(voltage)) <= voltage
            < AdcRawToVoltage(AdcVoltageToRaw(voltage)) + AdcVoltageLsb
  {
    var x := voltage * (AdcCodes as real) / (GAdcV * VRefAdc);
    assert x == voltage / AdcVoltageLsb;
  }

  /** A larger code never reads back as a smaller voltage. */
  lemma AdcRawToVoltageMonotone(a: int, b: int)
    requires a <= b
    ensures AdcRawToVoltage(a) <= AdcRawToVoltage(b)
  {
    var ca := Clamp(a, 0, RawMaxAdc);
    var cb := Clamp(b, 0, RawMaxAdc);
    assert AdcRawToVoltage(a) == (ca as real) * AdcVoltageLsb;
    assert AdcRawToVoltage(b) == (cb as real) * AdcVoltageLsb;
    MulLeRight(ca as real, cb as real, AdcVoltageLsb);
  }

  lemma AdcVoltageMonotone(a: real, b: real)
    requires a <= b
    ensures AdcVoltageToRaw(a) <= AdcVoltageToRaw(b)
  {
    TruncMonotone(a * (AdcCodes as real) / (GAdcV * VRefAdc),
                  b * (AdcCodes as real) / (GAdcV * VRefAdc));
  }

  // ------------------------------------------------------------ DAC voltage

  function DacRawToVoltage(value: int): (voltage: real)
    ensures 0.0 <= voltage <= (RawMaxDac as real) * DacVoltageLsb
    ensures 0 <= value <= RawMaxDac ==> voltage == (value as real) * DacVoltageLsb
    ensures value < 0 ==> voltage == 0.0
    ensures value > RawMaxDac ==> voltage == (RawMaxDac as real) * DacVoltageLsb
  {
    var v := Clamp(value, 0, RawMaxDac);
    (v as real) * (VRefDac * GDac) / (DacCodes as real)
  }

  function DacVoltageToRaw(voltage: real): (raw: int)
    ensures 0 <= raw <= RawMaxDac
    ensures voltage < DacVoltageLsb ==> raw == 0
    ensures voltage >= (RawMaxDac as real) * DacVoltageLsb ==> raw == RawMaxDac
  {
    var valRaw := Trunc(voltage * (DacCodes as real) / (VRefDac * GDac));
    Clamp(valRaw, 0, RawMaxDac)
  }

  lemma DacVoltageRoundTrip(raw: int)
    requires 0 <= raw <= RawMaxDac
    ensures DacVoltageToRaw(DacRawToVoltage(raw)) == raw
  {
    var x := DacRawToVoltage(raw) * (DacCodes as real) / (VRefDac * GDac);
    assert x == raw as real;
  }

  lemma DacVoltageQuantization(voltage: real)
    requires 0.0 <= voltage < (DacCodes as real) * DacVoltageLsb
    ensures DacRawToVoltage(DacVoltageToRaw(voltage)) <= voltage
            < DacRawToVoltage(DacVoltageToRaw(voltage)) + DacVoltageLsb
  {
    var x := voltage * (DacCodes as real) / (VRefDac * GDac);
    assert x == voltage / DacVoltageLsb;
  }

  /** A larger DAC code never gives a smaller voltage. */
  lemma DacRawToVoltageMonotone(a: int, b: int)
    requires a <= b
    ensures DacRawToVoltage(a) <= DacRawToVoltage(b)
  {
    var ca := Clamp(a, 0, RawMaxDac);
    var cb := Clamp(b, 0, RawMaxDac);
    assert DacRawToVoltage(a) == (ca as real) * DacVoltageLsb;
    assert DacRawToVoltage(b) == (cb as real) * DacVoltageLsb;
    MulLeRight(ca as real, cb as real, DacVoltageLsb);
  }

  lemma DacVoltageMonotone(a: real, b: real)
    requires a <= b
    ensures DacVoltageToRaw(a) <= DacVoltageToRaw(b)
  {
    TruncMonotone(a * (DacCodes as real) / (VRefDac * GDac),
                  b * (DacCodes as real) / (VRefDac * GDac));
  }
}
