/** Sample-buffer arithmetic of the recording files: raw/SI conversion with a
    gain/offset pair, reading a file buffer by buffer, the validity rule for
    mode and datatype, and the writer's append and alignment. The HDF5
    datasets are in-memory sequences of raw integers. */
module ShepherdData {
  import opened Wrappers
  import opened Text
  import Numerics

  const SamplesPerBuffer: nat := 10000
  const SamplerateSps: nat := 100000
  /** 10^9 div SamplerateSps. */
  const SampleIntervalNs: nat := 10000
  /** Below this rate a recording is not cut back to whole buffers. */
  const AlignMinSamplerate: int := 95000
  /** The time dataset holds unsigned 64-bit integers. */
  const U64Limit: int := 0x1_0000_0000_0000_0000

  /** SI value = raw value * gain + offset. */
  datatype CalPair = CalPair(gain: real, offset: real)

  function NonNeg(x: real): real { if x < 0.0 then 0.0 else x }

  // ------------------------------------------------------- raw <-> SI

  function SiValue(raw: int, cal: CalPair): real {
    NonNeg(raw as real * cal.gain + cal.offset)
  }

  function RawValue(si: real, cal: CalPair): real
    requires cal.gain != 0.0
  {
    NonNeg((si - cal.offset) / cal.gain)
  }

  /** The SI values of raw samples, negatives replaced by zero. */
  function SiOf(raw: seq<int>, cal: CalPair): (si: seq<real>)
  {
    seq(|raw|, i requires 0 <= i < |raw| => SiValue(raw[i], cal))
  }

  /** The raw values of SI samples, negatives replaced by zero. */
  function RawOf(si: seq<real>, cal: CalPair): (raw: seq<real>)
    requires cal.gain != 0.0
  {
    seq(|si|, i requires 0 <= i < |si| => RawValue(si[i], cal))
  }

  /** `raw_to_si`: the linear map into a new array, then the negative
      entries of that array zeroed in place. */
  method RawToSi(valuesRaw: seq<int>, cal: CalPair) returns (valuesSi: seq<real>)
    ensures valuesSi == SiOf(valuesRaw, cal)
  {
    var a := new real[|valuesRaw|](i requires 0 <= i < |valuesRaw| => valuesRaw[i] as real * cal.gain + cal.offset);
    ghost var linear := a[..];
    assert forall j :: 0 <= j < |linear| ==> NonNeg(linear[j]) == SiValue(valuesRaw[j], cal);
    var i := 0;
    while i < a.Length
      invariant 0 <= i <= a.Length && |linear| == a.Length
      invariant forall j :: 0 <= j < i ==> a[j] == NonNeg(linear[j])
      invariant forall j :: i <= j < a.Length ==> a[j] == linear[j]
    {
      if a[i] < 0.0 {
        a[i] := 0.0;
      }
      i := i + 1;
    }
    valuesSi := a[..];
  }

  /** `si_to_raw`: the inverse linear map, negatives zeroed in place. */
  method SiToRaw(valuesSi: seq<real>, cal: CalPair) returns (valuesRaw: seq<real>)
    requires cal.gain != 0.0
    ensures valuesRaw == RawOf(valuesSi, cal)
  {
    var a := new real[|valuesSi|](i requires 0 <= i < |valuesSi| => (valuesSi[i] - cal.offset) / cal.gain);
    ghost var linear := a[..];
    assert forall j :: 0 <= j < |linear| ==> NonNeg(linear[j]) == RawValue(valuesSi[j], cal);
    var i := 0;
    while i < a.Length
      invariant 0 <= i <= a.Length && |linear| == a.Length
      invariant forall j :: 0 <= j < i ==> a[j] == NonNeg(linear[j])
      invariant forall j :: i <= j < a.Length ==> a[j] == linear[j]
    {
      if a[i] < 0.0 {
        a[i] := 0.0;
      }
      i := i + 1;
    }
    valuesRaw := a[..];
  }

  /** Both conversions keep the length and never give a negative value;
      a zero result means the linear value was not positive. */
  lemma ConversionsNonNeg(raw: seq<int>, si: seq<real>, cal: CalPair)
    requires cal.gain != 0.0
    ensures |SiOf(raw, cal)| == |raw| && |RawOf(si, cal)| == |si|
    ensures forall i :: 0 <= i < |raw| ==> SiOf(raw, cal)[i] >= 0.0
    ensures forall i :: 0 <= i < |si| ==> RawOf(si, cal)[i] >= 0.0
    ensures forall i :: 0 <= i < |raw| && raw[i] as real * cal.gain + cal.offset >= 0.0 ==>
      SiOf(raw, cal)[i] == raw[i] as real * cal.gain + cal.offset
  {
  }

  /** Converting raw samples to SI and back returns them, as long as no
      sample was zeroed on the way. */
  lemma {:induction false} RawSiRoundTrip(raw: seq<int>, cal: CalPair)
    requires cal.gain != 0.0
    requires forall i :: 0 <= i < |raw| ==> raw[i] >= 0 && raw[i] as real * cal.gain + cal.offset >= 0.0
    ensures RawOf(SiOf(raw, cal), cal) == seq(|raw|, i requires 0 <= i < |raw| => raw[i] as real)
  {
    forall i | 0 <= i < |raw|
      ensures RawOf(SiOf(raw, cal), cal)[i] == raw[i] as real
    {
      var x := raw[i] as real;
      assert SiOf(raw, cal)[i] == x * cal.gain + cal.offset;
      assert (x * cal.gain + cal.offset - cal.offset) / cal.gain == x;
    }
  }

  // ------------------------------------------------------- reading

  /** `s[a:b]` of a non-negative slice, clipped to the sequence. */
  function Slice<T>(s: seq<T>, a: nat, b: nat): (r: seq<T>)
    ensures b <= |s| && a <= b ==> r == s[a..b]
    ensures |r| <= b - a || b < a
  {
    var hi := if b <= |s| then b else |s|;
    var lo := if a <= hi then a else hi;
    s[lo..hi]
  }

  function NsToSeconds(ts: seq<int>): seq<real> {
    seq(|ts|, i requires 0 <= i < |ts| => ts[i] as real * 0.000000001)
  }

  /** One buffer of the three datasets: raw as stored, or in SI units. */
  datatype Buffer =
    | RawBuffer(time: seq<int>, voltage: seq<int>, current: seq<int>)
    | SiBuffer(timeS: seq<real>, voltageV: seq<real>, currentA: seq<real>)

  function Concat<T>(parts: seq<seq<T>>): seq<T> {
    if parts == [] then [] else Concat(parts[..|parts| - 1]) + parts[|parts| - 1]
  }

  /** The buffers of whole-buffer indices below `n` tile the first
      n * SamplesPerBuffer samples of a dataset without gap or overlap. */
  lemma {:induction false} BuffersTile<T>(s: seq<T>, n: nat)
    requires n * SamplesPerBuffer <= |s|
    ensures Concat(seq(n, k requires 0 <= k < n => Slice(s, k * SamplesPerBuffer, (k + 1) * SamplesPerBuffer)))
            == s[..n * SamplesPerBuffer]
  {
    var parts := seq(n, k requires 0 <= k < n => Slice(s, k * SamplesPerBuffer, (k + 1) * SamplesPerBuffer));
    if n > 0 {
      var m := n - 1;
      BuffersTile(s, m);
      assert parts[..m] == seq(m, k requires 0 <= k < m => Slice(s, k * SamplesPerBuffer, (k + 1) * SamplesPerBuffer));
      assert parts[m] == s[m * SamplesPerBuffer..n * SamplesPerBuffer];
      assert s[..m * SamplesPerBuffer] + s[m * SamplesPerBuffer..n * SamplesPerBuffer] == s[..n * SamplesPerBuffer];
    }
  }

  class Reader {
    var dsTime: seq<int>
    var dsVoltage: seq<int>
    var dsCurrent: seq<int>
    var calVoltage: CalPair
    var calCurrent: CalPair

    constructor(time: seq<int>, voltage: seq<int>, current: seq<int>, calV: CalPair, calC: CalPair)
      ensures dsTime == time && dsVoltage == voltage && dsCurrent == current
      ensures calVoltage == calV && calCurrent == calC
    {
      dsTime := time;
      dsVoltage := voltage;
      dsCurrent := current;
      calVoltage := calV;
      calCurrent := calC;
    }

    /** Buffer `i`: samples [i * SamplesPerBuffer, (i + 1) * SamplesPerBuffer)
        of every dataset, clipped at its end. */
    function BufferAt(i: nat, isRaw: bool): Buffer
      reads this
    {
      var a := i * SamplesPerBuffer;
      var b := a + SamplesPerBuffer;
      if isRaw then RawBuffer(Slice(dsTime, a, b), Slice(dsVoltage, a, b), Slice(dsCurrent, a, b))
      else SiBuffer(NsToSeconds(Slice(dsTime, a, b)), SiOf(Slice(dsVoltage, a, b), calVoltage),
                    SiOf(Slice(dsCurrent, a, b), calCurrent))
    }

    /** The default end: the number of whole buffers in the time dataset. */
    function DefaultEnd(): (n: nat)
      reads this
      ensures n * SamplesPerBuffer <= |dsTime| < (n + 1) * SamplesPerBuffer
    {
      |dsTime| / SamplesPerBuffer
    }

    /** `read_buffers`: the buffers with index in [startN, endN), all of
        them whole when the end is left at its default. */
    method ReadBuffers(startN: nat, endN: Option<int>, isRaw: bool) returns (buffers: seq<Buffer>)
      ensures var e := if endN.Some? then endN.value else DefaultEnd();
        && |buffers| == (if e <= startN then 0 else e - startN)
        && forall k :: 0 <= k < |buffers| ==> buffers[k] == BufferAt(startN + k, isRaw)
      ensures endN.None? && isRaw ==>
        forall k :: 0 <= k < |buffers| ==> |buffers[k].time| == SamplesPerBuffer
    {
      var e := if endN.Some? then endN.value else DefaultEnd();
      buffers := [];
      var i := startN;
      while i < e
        invariant startN <= i
        invariant i <= e || i == startN
        invariant |buffers| == i - startN
        invariant forall k :: 0 <= k < |buffers| ==> buffers[k] == BufferAt(startN + k, isRaw)
      {
        var idxStart := i * SamplesPerBuffer;
        var idxEnd := idxStart + SamplesPerBuffer;
        var b;
        if isRaw {
          b := RawBuffer(Slice(dsTime, idxStart, idxEnd), Slice(dsVoltage, idxStart, idxEnd),
                         Slice(dsCurrent, idxStart, idxEnd));
        } else {
          var v := RawToSi(Slice(dsVoltage, idxStart, idxEnd), calVoltage);
          var c := RawToSi(Slice(dsCurrent, idxStart, idxEnd), calCurrent);
          b := SiBuffer(NsToSeconds(Slice(dsTime, idxStart, idxEnd)), v, c);
        }
        buffers := buffers + [b];
        i := i + 1;
      }
    }
  }

  // ------------------------------------------------------- validity

  /** The datatypes each mode admits. */
  function ModeTypes(mode: string): (types: seq<string>)
    ensures mode == "emulator" ==> types == ["ivsample"]
    ensures mode != "harvester" && mode != "emulator" ==> types == []
  {
    if mode == "harvester" then ["ivsample", "ivcurve", "isc_voc"]
    else if mode == "emulator" then ["ivsample"]
    else []
  }

  predicate KnownMode(mode: string) { mode == "harvester" || mode == "emulator" }

  /** What the validity check inspects of a file: root groups and
      attributes, the data group's attributes and datasets, and the
      attributes of each dataset. */
  datatype FileSummary = FileSummary(
    rootKeys: set<string>,
    rootAttrs: map<string, string>,
    dataAttrs: set<string>,
    windowSamples: int,
    dataType: string,
    datasets: set<string>,
    datasetAttrs: map<string, set<string>>
  )

  predicate HasAttrs(f: FileSummary, ds: string) {
    ds in f.datasetAttrs && "gain" in f.datasetAttrs[ds] && "offset" in f.datasetAttrs[ds]
  }

  /** `is_valid`: the hard criteria in the order they are checked; the soft
      criteria only log and are left out. */
  function IsValid(f: FileSummary): bool {
    if "data" !in f.rootKeys then false
    else if "mode" !in f.rootAttrs then false
    else if !KnownMode(f.rootAttrs["mode"]) then false
    else if "window_samples" !in f.dataAttrs || "datatype" !in f.dataAttrs then false
    else if "time" !in f.datasets || "current" !in f.datasets || "voltage" !in f.datasets then false
    else if !HasAttrs(f, "current") || !HasAttrs(f, "voltage") then false
    else if f.dataType !in ModeTypes(f.rootAttrs["mode"]) then false
    else if f.dataType == "ivcurve" && f.windowSamples < 1 then false
    else true
  }

  /** A valid file has a known mode whose datatype list admits its
      datatype: an emulator file holds only ivsamples, an ivcurve file has a
      positive window, and all three datasets with calibration exist. */
  lemma ValidFileRule(f: FileSummary)
    requires IsValid(f)
    ensures "mode" in f.rootAttrs && KnownMode(f.rootAttrs["mode"])
    ensures f.rootAttrs["mode"] == "emulator" ==> f.dataType == "ivsample"
    ensures f.rootAttrs["mode"] == "harvester" ==> f.dataType in {"ivsample", "ivcurve", "isc_voc"}
    ensures f.dataType == "ivcurve" ==> f.windowSamples >= 1
    ensures {"time", "current", "voltage"} <= f.datasets
    ensures HasAttrs(f, "current") && HasAttrs(f, "voltage")
  {
  }

  /** Conversely every structurally complete file whose datatype its mode
      admits, with a window for ivcurves, is valid. */
  lemma CompleteFileIsValid(f: FileSummary)
    requires "data" in f.rootKeys && "mode" in f.rootAttrs
    requires {"window_samples", "datatype"} <= f.dataAttrs
    requires {"time", "current", "voltage"} <= f.datasets
    requires HasAttrs(f, "current") && HasAttrs(f, "voltage")
    requires || (f.rootAttrs["mode"] == "emulator" && f.dataType == "ivsample")
             || (f.rootAttrs["mode"] == "harvester" && f.dataType in {"ivsample", "ivcurve", "isc_voc"})
    requires f.dataType == "ivcurve" ==> f.windowSamples >= 1
    ensures IsValid(f)
  {
  }

  // ------------------------------------------------------- writing

  /** The first argument of `append_iv_data_raw`. */
  datatype Timestamp = TsInt(t: int) | TsFloat(x: real) | TsArray(ts: seq<int>) | TsOther

  /** A start time plus k sample intervals for k < n, in unsigned 64 bits. */
  function TimeSeries(t: int, interval: int, n: nat): (ts: seq<int>)
    ensures |ts| == n
    ensures forall k :: 0 <= k < n ==> ts[k] == (t + interval * k) % U64Limit
  {
    seq(n, k requires 0 <= k < n => (t + interval * k) % U64Limit)
  }

  function Min(a: int, b: int): int { if a <= b then a else b }

  /** `resize` of a dataset: cut back, or grown with zero fill. */
  function Resize(s: seq<int>, n: nat): (r: seq<int>)
    ensures |r| == n
    ensures n <= |s| ==> r == s[..n]
    ensures n > |s| ==> r[..|s|] == s && forall i :: |s| <= i < n ==> r[i] == 0
  {
    if n <= |s| then s[..n] else s + seq(n - |s|, _ => 0)
  }

  /** The timestamps of `n` new samples: an array is taken as given, a
      scalar start (a float truncated toward zero) is expanded into one
      timestamp per sample interval, anything else is not usable. */
  function Timestamps(timestamp: Timestamp, interval: int, n: nat): (r: Option<seq<int>>)
    ensures r.None? <==> timestamp.TsOther?
    ensures timestamp.TsArray? ==> r == Some(timestamp.ts)
    ensures (timestamp.TsInt? || timestamp.TsFloat?) ==> |r.value| == n
    ensures timestamp.TsInt? ==> forall k :: 0 <= k < n ==> r.value[k] == (timestamp.t + interval * k) % U64Limit
    ensures timestamp.TsFloat? ==>
      forall k :: 0 <= k < n ==> r.value[k] == (Numerics.Trunc(timestamp.x) + interval * k) % U64Limit
  {
    match timestamp
    case TsInt(t) => Some(TimeSeries(t, interval, n))
    case TsFloat(x) => Some(TimeSeries(Numerics.Trunc(x), interval, n))
    case TsArray(a) => Some(a)
    case TsOther => None
  }

  /** A dataset resized to `lenOld + |tail|` entries whose entries from
      `lenOld` on are overwritten with `tail`: the first `lenOld` entries
      are kept (zero where the dataset was shorter), then comes `tail`. */
  function Appended(s: seq<int>, lenOld: nat, tail: seq<int>): (r: seq<int>)
    ensures |r| == lenOld + |tail|
    ensures r[lenOld..] == tail
    ensures forall i :: 0 <= i < lenOld && i < |s| ==> r[i] == s[i]
    ensures forall i :: |s| <= i < lenOld ==> r[i] == 0
    ensures lenOld == |s| ==> r == s + tail
  {
    Resize(s, lenOld + |tail|)[..lenOld] + tail
  }

  /** The largest multiple of the buffer size not above `size`. */
  function AlignedSize(size: nat): (n: nat)
    ensures n % SamplesPerBuffer == 0
    ensures n <= size < n + SamplesPerBuffer
  {
    (size / SamplesPerBuffer) * SamplesPerBuffer
  }

  datatype WriteError = TimestampNotUsable | ZeroDivision

  class Writer {
    var dsTime: seq<int>
    var dsVoltage: seq<int>
    var dsCurrent: seq<int>
    var sampleIntervalNs: int
    var samplerateSps: int

    constructor()
      ensures dsTime == [] && dsVoltage == [] && dsCurrent == []
      ensures sampleIntervalNs == SampleIntervalNs && samplerateSps == SamplerateSps
    {
      dsTime := [];
      dsVoltage := [];
      dsCurrent := [];
      sampleIntervalNs := SampleIntervalNs;
      samplerateSps := SamplerateSps;
    }

    /** `append_iv_data_raw`: appends the same number of entries, the
        shortest input's length, to all three datasets. A scalar start time
        is expanded into one timestamp per sample interval. */
    method AppendIvDataRaw(timestamp: Timestamp, voltage: seq<int>, current: seq<int>)
      returns (r: Outcome<WriteError>)
      modifies this
      ensures sampleIntervalNs == old(sampleIntervalNs) && samplerateSps == old(samplerateSps)
      ensures timestamp.TsOther? <==> r.Fail?
      ensures timestamp.TsOther? ==>
        dsTime == old(dsTime) && dsVoltage == old(dsVoltage) && dsCurrent == old(dsCurrent)
      ensures !timestamp.TsOther? ==>
        var ts := Timestamps(timestamp, old(sampleIntervalNs), Min(|voltage|, |current|)).value;
        var n := Min(Min(|voltage|, |current|), |ts|);
        && dsTime == old(dsTime) + ts[..n]
        && dsVoltage == Appended(old(dsVoltage), |old(dsTime)|, voltage[..n])
        && dsCurrent == Appended(old(dsCurrent), |old(dsTime)|, current[..n])
    {
      var lenNew := Min(|voltage|, |current|);
      var ots := Timestamps(timestamp, sampleIntervalNs, lenNew);
      if ots.None? {
        return Fail(TimestampNotUsable);
      }
      var ts := ots.value;
      lenNew := Min(lenNew, |ts|);
      var lenOld := |dsTime|;
      dsVoltage := Appended(dsVoltage, lenOld, voltage[..lenNew]);
      dsCurrent := Appended(dsCurrent, lenOld, current[..lenNew]);
      dsTime := Appended(dsTime, lenOld, ts[..lenNew]);
      return Pass;
    }

    /** The sampling part of `refresh_file_stats`: with two or more
        timestamps the interval is re-read from the first two (unsigned
        difference) and the rate derived from it. */
    method RefreshFileStats() returns (r: Outcome<WriteError>)
      modifies this
      ensures dsTime == old(dsTime) && dsVoltage == old(dsVoltage) && dsCurrent == old(dsCurrent)
      ensures |dsTime| <= 1 ==> r.Pass? && sampleIntervalNs == old(sampleIntervalNs) && samplerateSps == old(samplerateSps)
      ensures |dsTime| > 1 ==>
        var interval := (dsTime[1] - dsTime[0]) % U64Limit;
        && (r.Fail? <==> interval == 0 || interval > 1000000000)
        && (r.Pass? ==> sampleIntervalNs == interval && samplerateSps == 1000000000 / interval && samplerateSps >= 1)
    {
      if |dsTime| > 1 {
        sampleIntervalNs := (dsTime[1] - dsTime[0]) % U64Limit;
        if sampleIntervalNs == 0 {
          return Fail(ZeroDivision);
        }
        samplerateSps := 1000000000 / sampleIntervalNs;
        if samplerateSps == 0 {
          // sample_interval_s = 1.0 / samplerate
          return Fail(ZeroDivision);
        }
      }
      return Pass;
    }

    /** `_align`: cuts all three datasets back to whole buffers of the time
        dataset, unless the (refreshed) rate is below 95 kSps. */
    method Align() returns (r: Outcome<WriteError>)
      modifies this
      // the refreshed sampling state, as `refresh_file_stats` leaves it
      ensures |old(dsTime)| <= 1 ==>
        r.Pass? && sampleIntervalNs == old(sampleIntervalNs) && samplerateSps == old(samplerateSps)
      ensures |old(dsTime)| > 1 ==>
        var interval := (old(dsTime)[1] - old(dsTime)[0]) % U64Limit;
        && (r.Fail? <==> interval == 0 || interval > 1000000000)
        && (r.Pass? ==> sampleIntervalNs == interval && samplerateSps == 1000000000 / interval)
      ensures r.Fail? ==> dsTime == old(dsTime) && dsVoltage == old(dsVoltage) && dsCurrent == old(dsCurrent)
      ensures r.Pass? ==>
        var size := |old(dsTime)|;
        var sizeNew := AlignedSize(size);
        if sizeNew < size && samplerateSps >= AlignMinSamplerate then
          && dsTime == old(dsTime)[..sizeNew]
          && dsVoltage == Resize(old(dsVoltage), sizeNew)
          && dsCurrent == Resize(old(dsCurrent), sizeNew)
          && |dsTime| % SamplesPerBuffer == 0
        else
          dsTime == old(dsTime) && dsVoltage == old(dsVoltage) && dsCurrent == old(dsCurrent)
    {
      r := RefreshFileStats();
      if r.Fail? {
        return;
      }
      var sizeNew := AlignedSize(|dsTime|);
      if sizeNew < |dsTime| {
        if samplerateSps < AlignMinSamplerate {
          return;
        }
        dsTime := Resize(dsTime, sizeNew);
        dsVoltage := Resize(dsVoltage, sizeNew);
        dsCurrent := Resize(dsCurrent, sizeNew);
      }
    }
  }
}
