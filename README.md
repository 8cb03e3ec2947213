# shepherd-datalib core, modelled in Dafny

This project models the core of the shepherd data library and proves properties of it. Shepherd is a testbed of observers ("sheep"). Each observer carries a cape with up to two target nodes and emulates energy environments for them. The model covers four parts:

- **Converter configuration quantizer** (`virtual_source.dfy`). It turns a virtual-source configuration, given in mV, mA, uF, ms and normalised efficiency tables, into the integer register struct the PRU firmware reads. This covers:
  - the converter-mode bitmask;
  - the Q28 capacitor constant;
  - the hysteresis thresholds with their voltage drops;
  - unit scaling with Python's rounding;
  - the clamped efficiency tables.
- **Named-preset fixture store** (`fixtures.dfy`). Per model type, a `Fixture` object keeps presets by lower-cased name and by id. It supports insertion, lookup, iteration and recursive `inherit_from` resolution. `Fixtures` holds one `Fixture` per model type.
- **Calibration and sample buffers**. `calibration_hw_def.dfy` has the ADC and DAC raw-to-SI conversions of the hardware. `shepherd_data.dfy` has:
  - the gain/offset conversion of whole sample arrays;
  - the buffer slicing of the reader;
  - the mode/datatype rule of the file validator;
  - the append and alignment steps of the writer.

  The HDF5 datasets are modelled as sequence fields.
- **Testbed and experiment topology**:
  - observers (`observer.dfy`);
  - the testbed's uniqueness rules and observer lookup (`testbed.dfy`);
  - target configurations with firmware compatibility and custom ids (`target_config.dfy`);
  - experiments across configurations (`experiment.dfy`);
  - the per-observer task collection (`testbed_tasks.dfy`).

Shared pieces:

- `wrappers.dfy` holds the `Option`, `Result` and `Outcome` types. A Python exception is the `Failure`/`Fail` value of the operation that raises it.
- `numerics.dfy` holds Python's `round` (half to even), `int()` of a float (toward zero), clamping, `set()` of a list, and facts about real arithmetic.
- `text.dfy` holds ASCII lower-casing.

Python floats are exact reals throughout.

How each kind of code is modelled:

- Code that only computes a value is a function with lemmas about it.
- Code that changes object state is a class with `modifies` clauses: `Fixture`, `Fixtures`, the reader and the writer.
- Loops in the source are `while` loops proved against a specification function:
  - the validators of the testbed and the experiment;
  - the searches;
  - the array clamping of the unit conversion;
  - the merge of output paths.

## Model

| member | source | states |
|---|---|---|
| Numerics.Round | shepherd_core/shepherd_core/data_models/content/virtual_source.py:295-320 | Python `round`: the result is within 0.5 of the argument, and a tie goes to the even integer |
| Numerics.Trunc | shepherd_core/shepherd_core/calibration_hw_def.py:40 | `int()` of a float truncates toward zero: for x >= 0 it gives r <= x < r+1, and symmetrically below zero |
| Numerics.Clamp | shepherd_core/shepherd_core/calibration_hw_def.py:41 | `min(max(v, lo), hi)` lies in [lo, hi], is v inside the range, and is lo or hi outside it |
| Numerics.DistinctCount | shepherd_core/shepherd_core/data_models/testbed/testbed.py:64-75 | `len(set(xs)) <= len(xs)`, strictly less exactly when some element occurs twice; this is the uniqueness test every validator uses |
| Text.Lower | shepherd_core/shepherd_core/testbed_client/fixtures.py:39 | lower-casing keeps the length |
| Text.LowerChars | shepherd_core/shepherd_core/testbed_client/fixtures.py:39 | each character is lower-cased on its own, and a character changes exactly when it is an upper-case ASCII letter |
| Text.LowerIdempotent | shepherd_core/shepherd_core/testbed_client/fixtures.py:35 | lower-casing twice equals lower-casing once, so an already lower-cased model type compares equal |
| CalibrationHw.AdcCurrentToRaw | shepherd_core/shepherd_core/calibration_hw_def.py:35-41 | the code lies in [0, 2^18-1]; a current below one step (negative included) gives 0; full scale and above give the maximum |
| CalibrationHw.AdcRawToCurrent | shepherd_core/shepherd_core/calibration_hw_def.py:44-50 | the input is clamped to the code range first: a negative code reads 0, a code above 2^18-1 reads exactly full scale, an in-range code gives code times one current step, and every current lies in [0, full scale] |
| CalibrationHw.AdcRawToCurrentMonotone | shepherd_core/shepherd_core/calibration_hw_def.py:44-50 | a larger raw code never reads back as a smaller current |
| CalibrationHw.AdcCurrentRoundTrip | shepherd_core/shepherd_core/calibration_hw_def.py:35-50 | converting an in-range code to a current and back gives the same code |
| CalibrationHw.AdcCurrentQuantization | shepherd_core/shepherd_core/calibration_hw_def.py:35-50 | for a current inside the range, the value read back from its code is at most the current and less than one step below it |
| CalibrationHw.AdcCurrentMonotone | shepherd_core/shepherd_core/calibration_hw_def.py:35-41 | a larger current never gives a smaller code |
| CalibrationHw.AdcVoltageToRaw | shepherd_core/shepherd_core/calibration_hw_def.py:53-57 | the code lies in [0, RAW_MAX_ADC]; below one step it is 0; full scale and above give the maximum |
| CalibrationHw.AdcRawToVoltage | shepherd_core/shepherd_core/calibration_hw_def.py:60-64 | the input is clamped first: a negative code reads 0, a code above 2^18-1 reads exactly full scale 1.25*4.096*(2^18-1)/2^18, an in-range code gives code times one voltage step |
| CalibrationHw.AdcRawToVoltageMonotone | shepherd_core/shepherd_core/calibration_hw_def.py:60-64 | a larger raw code never reads back as a smaller voltage |
| CalibrationHw.AdcVoltageRoundTrip | shepherd_core/shepherd_core/calibration_hw_def.py:53-64 | voltage conversion of an in-range code is inverted exactly |
| CalibrationHw.AdcVoltageQuantization | shepherd_core/shepherd_core/calibration_hw_def.py:53-64 | for an in-range voltage, the value read back lies within one step below the voltage |
| CalibrationHw.AdcVoltageMonotone | shepherd_core/shepherd_core/calibration_hw_def.py:53-57 | the voltage-to-code map is non-decreasing |
| CalibrationHw.DacRawToVoltage | shepherd_core/shepherd_core/calibration_hw_def.py:67-70 | the input is clamped to [0, 2^16-1] first: a negative code gives 0, a code above 2^16-1 gives exactly full scale, an in-range code gives code times one step |
| CalibrationHw.DacRawToVoltageMonotone | shepherd_core/shepherd_core/calibration_hw_def.py:67-70 | a larger DAC code never gives a smaller voltage |
| CalibrationHw.DacVoltageToRaw | shepherd_core/shepherd_core/calibration_hw_def.py:73-76 | the code lies in [0, 2^16-1]; below one step it is 0; full scale and above give the maximum |
| CalibrationHw.DacVoltageRoundTrip | shepherd_core/shepherd_core/calibration_hw_def.py:67-76 | converting an in-range DAC code to a voltage and back gives the same code |
| CalibrationHw.DacVoltageQuantization | shepherd_core/shepherd_core/calibration_hw_def.py:67-76 | for an in-range voltage, the value read back lies within one step below the voltage |
| CalibrationHw.DacVoltageMonotone | shepherd_core/shepherd_core/calibration_hw_def.py:73-76 | the voltage-to-code map is non-decreasing |
| VirtualSource.CalcConverterMode | shepherd_core/shepherd_core/data_models/content/virtual_source.py:203-216 | the mode lies in 0..15; bit 1 is set iff C_intermediate > 0; bit 2 iff boost and storage; bit 4 iff buck; bit 8 iff the intermediate node is logged; the boost bit never appears without the storage bit |
| VirtualSource.CalcCapConstant | shepherd_core/shepherd_core/data_models/content/virtual_source.py:218-224 | the constant is the largest k >= 0 with k * max(C, 0.001) * samplerate <= 10^3 * 2^28; the divisor is never zero |
| VirtualSource.CapConstantAntitone | shepherd_core/shepherd_core/data_models/content/virtual_source.py:218-224 | a larger capacitance never gives a larger constant |
| VirtualSource.CapConstantU32 | shepherd_core/shepherd_core/data_models/content/virtual_source.py:218-224 | at 100 kSps every constant is at most the 0.001 uF value 2684354560, so it fits a u32 |
| VirtualSource.CalcDeltas | shepherd_core/shepherd_core/data_models/content/virtual_source.py:152-176 | both drops are 0 when either capacitor is absent; after the guard both are non-negative, with complex results replaced by 0 |
| VirtualSource.CalcDeltasWarning | shepherd_core/shepherd_core/data_models/content/virtual_source.py:166-176 | the warning is logged exactly when both capacitors are present and C_output > C_intermediate; only the second drop can log it |
| VirtualSource.EnThrsEnergyBalance | shepherd_core/shepherd_core/data_models/content/virtual_source.py:138-161 | with a real radicand, the storage capacitor at V_enable minus the drop holds its former energy minus the output capacitor's energy at V_output; a negative radicand gives a zero drop |
| VirtualSource.ImedLowEnergyBalance | shepherd_core/shepherd_core/data_models/content/virtual_source.py:163-166 | for C_output <= C_intermediate, a storage capacitor at V_output minus the second drop loses exactly the output capacitor's energy |
| VirtualSource.CalcDeltasBounded | shepherd_core/shepherd_core/data_models/content/virtual_source.py:152-176 | the first drop is at most the enable threshold, and the second at most V_output |
| VirtualSource.CalcInternalStates | shepherd_core/shepherd_core/data_models/content/virtual_source.py:178-201 | without buck, the intermediate thresholds and the first drop are kept. With buck: an enable threshold above V_output + V_buck_drop is kept with the first drop; otherwise it becomes V_output + V_buck_drop + the second drop. The disable threshold is max(intermediate disable, V_output + V_buck_drop) |
| VirtualSource.HysteresisOrderPreserved | shepherd_core/shepherd_core/data_models/content/virtual_source.py:178-200 | if the disable threshold is not above the enable threshold, the derived output thresholds keep that order |
| VirtualSource.MilliToMicro | shepherd_core/shepherd_core/data_models/content/virtual_source.py:298-320 | `round(x * 1e3)` is within 0.5 of 1000x, and non-negative for x >= 0 |
| VirtualSource.MsToSamples | shepherd_core/shepherd_core/data_models/content/virtual_source.py:295-310 | a millisecond interval becomes the sample count within 0.5 of ms * samplerate / 1000 |
| VirtualSource.QuantizeInputEfficiency | shepherd_core/shepherd_core/data_models/content/virtual_source.py:325-327 | `min(255, round(256x))`: at most 255, non-negative for x >= 0, and within 0.5 of 256x unless clamped |
| VirtualSource.QuantizeOutputInvEfficiency | shepherd_core/shepherd_core/data_models/content/virtual_source.py:328-331 | lies in [0, 2^14]; a zero (or negative) efficiency gives exactly 2^14 with no division; otherwise it is within 0.5 of 16/v unless clamped |
| VirtualSource.QuantizeInputLut | shepherd_core/shepherd_core/data_models/content/virtual_source.py:325-327 | keeps the table's shape and quantizes each entry |
| VirtualSource.QuantizeOutputLut | shepherd_core/shepherd_core/data_models/content/virtual_source.py:328-331 | keeps the length and quantizes each entry |
| VirtualSource.QuantizedLutsValid | shepherd_core/shepherd_core/data_models/content/virtual_source.py:229-236 | normalised 12x12 and 12-entry tables quantize to a 12x12 byte table and 12 u32 values |
| VirtualSource.RoundU32 | shepherd_core/shepherd_core/data_models/content/virtual_source.py:227 | a rounded value in [0, 2^32-1] is a u32 |
| VirtualSource.InternalStatesBounded | shepherd_core/shepherd_core/data_models/content/virtual_source.py:46-109 | under the configuration's declared field ranges, the enable threshold lies in [0, 15 V], and the disable threshold and the enable drop in [0, 10 V] |
| VirtualSource.FromVsrc | shepherd_core/shepherd_core/data_models/content/virtual_source.py:284-332 | success iff the derived fields pass the struct's integer schema, and the value is then exactly PruFields. Stated field by field: the mode is CalcConverterMode; the derived enable/disable thresholds and the enable drop are MilliToMicro of CalcInternalStates; the two intervals are MsToSamples; the capacitor constant is CalcCapConstant; the tables are QuantizeInputLut and QuantizeOutputLut; the current-axis LUT minimums are the configured value - 1; the voltage-axis minimum is copied; V_output is round(1000 * mV) |
| VirtualSource.FromVsrcSucceeds | shepherd_core/shepherd_core/data_models/content/virtual_source.py:239-332 | every configuration inside its declared field ranges quantizes at 100 kSps without a struct-validation error |
| FixtureStore.ValuesOf | shepherd_core/shepherd_core/testbed_client/fixtures.py:45 | `list(d.values())` in insertion order: one value per key, in key order |
| FixtureStore.Merge | shepherd_core/shepherd_core/testbed_client/fixtures.py:128-134 | the merge has the union of the keys; model values win, and base-only keys keep the base value |
| FixtureStore.FillModel | shepherd_core/shepherd_core/testbed_client/fixtures.py:128-134 | the copy-and-overwrite loop yields exactly Merge(model, base); `base` is a value and cannot change |
| FixtureStore.Fixture.constructor | shepherd_core/shepherd_core/testbed_client/fixtures.py:23-29 | the model type is lower-cased, both maps are empty and the iterator is reset |
| FixtureStore.Fixture.Insert | shepherd_core/shepherd_core/testbed_client/fixtures.py:31-45 | a wrapper of another type (case-insensitive) or without a name changes nothing; one without an id raises KeyError and changes nothing. Otherwise both maps get the parameters under the lower-cased name and the id, overwriting any earlier entry, and keep everything else; a new name is appended to the iteration order |
| FixtureStore.Fixture.File | shepherd_core/shepherd_core/testbed_client/fixtures.py:38-45 | a named preset with an id is stored under its lower-cased name and its id, replacing earlier entries, a new name is appended to the order, and the iteration list becomes the name map's values |
| FixtureStore.Fixture.Get | shepherd_core/shepherd_core/testbed_client/fixtures.py:47-53 | the lower-cased key is looked up in the name map first, then in the id map; it fails with not-found exactly when neither holds it |
| FixtureStore.Fixture.GetFindsStored | shepherd_core/shepherd_core/testbed_client/fixtures.py:39-53 | every stored preset is found again under its own name |
| FixtureStore.Fixture.Iter | shepherd_core/shepherd_core/testbed_client/fixtures.py:55-58 | resets the index to 0 and snapshots the name map's values in order, changing nothing else |
| FixtureStore.Fixture.Next | shepherd_core/shepherd_core/testbed_client/fixtures.py:60-65 | yields the snapshot entry at the index and advances it; past the end it stops without change |
| FixtureStore.Fixture.ListAll | shepherd_core/shepherd_core/testbed_client/fixtures.py:55-65 | iterating to exhaustion yields each name-map value exactly once, in map order |
| FixtureStore.Fixture.Keys | shepherd_core/shepherd_core/testbed_client/fixtures.py:67-68 | the keys are exactly the stored names, each once |
| FixtureStore.Fixture.Refs | shepherd_core/shepherd_core/testbed_client/fixtures.py:70-71 | maps every stored id to the name of its preset |
| FixtureStore.Fixture.QueryId | shepherd_core/shepherd_core/testbed_client/fixtures.py:136-142 | succeeds iff the argument is an int present in the id map, returning that preset, and fails with unknown-id otherwise |
| FixtureStore.Fixture.QueryName | shepherd_core/shepherd_core/testbed_client/fixtures.py:144-150 | succeeds iff the argument is a string whose lower-cased form is a stored name; the preset returned carries that name |
| FixtureStore.Fixture.Inheritance | shepherd_core/shepherd_core/testbed_client/fixtures.py:73-126 | the result is exactly Resolve, the reference resolution. On success `inherit_from` is gone, every other caller key keeps the caller's value and the chain only grows. Inheriting: the base must be stored under the given string name, every key of the stored base the caller lacks is inherited with the base's value, and the result is named after the base unless the caller has a name; self-inheritance at the top level fails with a circle, a non-string base name with an attribute error, and a base name not stored with the lookup's not-found error. Completing: the keys of the stored preset matched by name or id that the caller lacks are added, and the result is exactly the merge when that preset does not inherit; a non-string name fails, an absent id matching a stored null id raises KeyError, and an unmatched preset is returned unchanged |
| FixtureStore.Fixture.StoredMatch | shepherd_core/shepherd_core/testbed_client/fixtures.py:104-112 | the stored preset a preset without `inherit_from` is completed from: the one under its lower-cased string name, otherwise the one under its id, otherwise none |
| FixtureStore.Fixture.Resolve | shepherd_core/shepherd_core/testbed_client/fixtures.py:73-126 | the reference resolution: following `inherit_from` to the stored base, resolving that in turn and writing the caller over it, or completing from the stored match and resolving again when it inherits. Any success keeps the caller's keys, drops `inherit_from` and only extends the chain |
| FixtureStore.Fixture.FoundIsStoredMatch | shepherd_core/shepherd_core/testbed_client/fixtures.py:47-53 | a preset found by name or id, renamed to the key it was found under, has that same preset as its stored match |
| FixtureStore.Fixture.ResolveInherits | shepherd_core/shepherd_core/testbed_client/fixtures.py:79-97 | with `inherit_from`: a top-level self-reference is a circle, a non-string base name is an error, a base not stored raises the lookup's error; a success keeps the stored base's keys the caller lacks and records the base's name in the chain |
| FixtureStore.Fixture.ResolveInheritsBase | shepherd_core/shepherd_core/testbed_client/fixtures.py:93-101 | a successful resolution has a stored base under the string name, keeps its keys the caller lacks, names the result after the base when the caller has no name, and records the base name in the chain |
| FixtureStore.Fixture.ResolveSingleBase | shepherd_core/shepherd_core/testbed_client/fixtures.py:93-101 | a stored base that does not inherit itself resolves, given fuel, to exactly that base renamed and overwritten by the caller, with the caller's and the base's names appended to the chain |
| FixtureStore.Fixture.ResolveInheritsGrandparent | shepherd_core/shepherd_core/testbed_client/fixtures.py:97 | the recursion: when the base inherits in turn, a success also carries the grandparent's keys missing from both, and both followed names are in the chain |
| FixtureStore.Fixture.ResolveTwoLevels | shepherd_core/shepherd_core/testbed_client/fixtures.py:93-101 | a base inheriting from a stored preset that does not inherit resolves in full with two levels of fuel: the grandparent, renamed, under the base, under the caller |
| FixtureStore.Fixture.ResolveCompletes | shepherd_core/shepherd_core/testbed_client/fixtures.py:103-126 | without `inherit_from`: the stored match's keys the caller lacks are added, exactly the merge when the match does not inherit; the non-string name, missing id and unmatched cases |
| FixtureStore.Fixture.ResolveCompletesInheritingMatch | shepherd_core/shepherd_core/testbed_client/fixtures.py:116-122 | a stored match that inherits from a stored preset that does not inherit is resolved again and succeeds in full, given the fuel |
| FixtureStore.Fixture.InheritFrom | shepherd_core/shepherd_core/testbed_client/fixtures.py:79-101 | the `inherit_from` branch equals Resolve on every input, failures included; ResolveInherits and the lemmas after it state what that means |
| FixtureStore.Fixture.Complete | shepherd_core/shepherd_core/testbed_client/fixtures.py:103-126 | the post-processing branch equals Resolve on every input, failures included; ResolveCompletes and ResolveCompletesInheritingMatch state what that means |
| FixtureStore.Fixtures.constructor | shepherd_core/shepherd_core/testbed_client/fixtures.py:161 | starts with no components |
| FixtureStore.Fixtures.InsertModel | shepherd_core/shepherd_core/testbed_client/fixtures.py:182-186 | creates the fixture of the lower-cased type if missing and leaves every other fixture unchanged. The fixture of the type, starting empty when new, gets the new name map, id map and name order that Fixture.Insert gives, or is unchanged for a nameless preset or a missing id (KeyError) |
| FixtureStore.Fixtures.Component | shepherd_core/shepherd_core/testbed_client/fixtures.py:184-185 | the fixture of a lower-cased type is the stored one, or a fresh empty one of that type added under it when the type is new; no other entry of the table changes |
| FixtureStore.Fixtures.Get | shepherd_core/shepherd_core/testbed_client/fixtures.py:188-192 | returns the fixture of the lower-cased type, and fails with not-found exactly when there is none |
| ShepherdData.RawToSi | shepherd_data/__init__.py:339-343 | the array holds raw * gain + offset element by element, negatives replaced by 0 in place, same length |
| ShepherdData.SiToRaw | shepherd_data/__init__.py:345-349 | the array holds (si - offset) / gain element by element, negatives replaced by 0 in place, same length |
| ShepherdData.ConversionsNonNeg | shepherd_data/__init__.py:339-349 | both conversions keep the length and never yield a negative value; a non-negative linear value is kept |
| ShepherdData.RawSiRoundTrip | shepherd_data/__init__.py:339-349 | for a non-zero gain, non-negative raw samples whose SI value is non-negative convert back to themselves |
| ShepherdData.Slice | shepherd_data/__init__.py:143-145 | an in-range slice is the subsequence; past the end it is clipped |
| ShepherdData.BuffersTile | shepherd_data/__init__.py:139-145 | the buffers 0..n-1 laid end to end are exactly the first n * samples_per_buffer samples |
| ShepherdData.Reader.DefaultEnd | shepherd_data/__init__.py:134-135 | the default end n satisfies n * buffer size <= samples < (n+1) * buffer size |
| ShepherdData.Reader.ReadBuffers | shepherd_data/__init__.py:124-149 | yields one buffer per index in [start_n, end_n), buffer k being slice [(start_n+k) * spb, (start_n+k+1) * spb) of all three datasets (converted to SI unless raw); with the default end every raw buffer is whole |
| ShepherdData.ModeTypes | shepherd_data/__init__.py:66-67 | an emulator file admits only ivsample, and an unknown mode admits nothing |
| ShepherdData.IsValid | shepherd_data/__init__.py:205-238 | the hard criteria of is_valid, checked in the source's order; ValidFileRule and CompleteFileIsValid state when a file passes, in each direction |
| ShepherdData.ValidFileRule | shepherd_data/__init__.py:205-238 | a valid file has a known mode; an emulator file holds ivsamples; a harvester file holds one of its three types; ivcurves have window_samples >= 1; all datasets and their gain/offset exist |
| ShepherdData.CompleteFileIsValid | shepherd_data/__init__.py:205-238 | conversely, a structurally complete file whose datatype its mode admits, with a window for ivcurves, is valid |
| ShepherdData.TimeSeries | shepherd_data/__init__.py:731-733 | a scalar start becomes n timestamps t + k * interval, in unsigned 64-bit arithmetic |
| ShepherdData.Resize | shepherd_data/__init__.py:743-745 | resizing cuts back to a prefix, or grows with zero fill |
| ShepherdData.AlignedSize | shepherd_data/__init__.py:770-771 | the aligned size is the largest multiple of the buffer size not above the size |
| ShepherdData.Writer.constructor | shepherd_data/__init__.py:58-60 | empty datasets, a 10000 ns interval and 100 kSps |
| ShepherdData.Timestamps | shepherd_data/__init__.py:729-738 | an array of timestamps is used as given; an int start, or a float start truncated toward zero, becomes n timestamps start + k * interval modulo 2^64; any other value is unusable |
| ShepherdData.Appended | shepherd_data/__init__.py:740-750 | after growing a dataset to len_old + len_new and writing the new entries at len_old, its first len_old entries are kept (zero where it was shorter) and the new entries follow; for a dataset of exactly len_old entries this is plain concatenation |
| ShepherdData.Writer.AppendIvDataRaw | shepherd_data/__init__.py:719-750 | appends the first min(len voltage, len current, len timestamps) entries to each dataset, keeping the old prefixes. A scalar start (a float truncated) is expanded to start + k * interval; an unusable timestamp changes nothing |
| ShepherdData.Writer.RefreshFileStats | shepherd_data/__init__.py:114-119 | with two or more samples, the interval is the unsigned difference of the first two timestamps and the rate is 10^9 // interval; a zero interval or a zero rate fails; with fewer samples nothing changes |
| ShepherdData.Writer.Align | shepherd_data/__init__.py:766-779 | first refreshes the state as RefreshFileStats does: with two or more timestamps the interval is the unsigned difference of the first two and the rate 10^9 // interval, failing exactly on a zero divisor; otherwise both stay. Then it cuts all three datasets to the largest multiple of the buffer size when that is smaller and the refreshed rate is >= 95000; otherwise nothing changes |
| Observers.PostValidation | shepherd_core/shepherd_core/data_models/testbed/observer.py:63-70 | fails exactly when the observer carries a target but no cape |
| Observers.HasTarget | shepherd_core/shepherd_core/data_models/testbed/observer.py:72-77 | the observer holds the target when port A or port B carries an active target with that id; PortAndTargetAgree and GetTarget state its use |
| Observers.GetTargetPort | shepherd_core/shepherd_core/data_models/testbed/observer.py:79-86 | succeeds iff has_target holds; the port is A exactly when port A carries the id, whatever its active flag; otherwise it raises KeyError |
| Observers.GetTarget | shepherd_core/shepherd_core/data_models/testbed/observer.py:88-95 | succeeds iff has_target holds, and the target returned has the id asked for |
| Observers.PortAndTargetAgree | shepherd_core/shepherd_core/data_models/testbed/observer.py:79-95 | both lookups succeed together; port A iff the target returned is target_a, and port B gives target_b |
| Observers.InactiveTargetOnPortA | shepherd_core/shepherd_core/data_models/testbed/observer.py:79-86 | an inactive node on port A with the id of an active node on port B is the one reported (port A, inactive target) |
| Testbeds.UsedTwice | shepherd_core/shepherd_core/data_models/testbed/testbed.py:64-75 | `len(xs) > len(set(xs))` holds exactly when some entry repeats |
| Testbeds.PostValidation | shepherd_core/shepherd_core/data_models/testbed/testbed.py:45-80 | the loop collects ids, IPs, MACs, present capes, present targets and Ethernet ports. It then rejects the first list with a repeat, in that order, then a negative preparation time, then no shared storage. Capes and targets are compared as whole records |
| Testbeds.CapesCompareAsRecords | shepherd_core/shepherd_core/data_models/testbed/testbed.py:57-58 | two capes sharing an id but differing in another attribute are no repeat; the same cape on two observers is |
| Testbeds.ObserverIdsOf | shepherd_core/shepherd_core/data_models/testbed/testbed.py:54 | the id list has one entry per observer, in order |
| Testbeds.ValidTestbedHasUniqueObservers | shepherd_core/shepherd_core/data_models/testbed/testbed.py:64-79 | in a testbed that passes, no two observers share an id, the preparation time is non-negative and storage is shared |
| Testbeds.FindObserver | shepherd_core/shepherd_core/data_models/testbed/testbed.py:82-91 | the lookup as written: it fails only with not-found, or with the attribute error of an observer in service without a cape; FindObserverSound states its results |
| Testbeds.FindObserverSound | shepherd_core/shepherd_core/data_models/testbed/testbed.py:82-91 | whatever the lookup returns is the first observer of the list that is in service, has a cape in service and holds the target; a not-found error means no such observer exists |
| Testbeds.CapeLessObserverBlocksLookup | shepherd_core/shepherd_core/data_models/testbed/testbed.py:84 | an observer in service without a cape, valid when it carries no target, makes the lookup fail before it reaches an eligible observer |
| Testbeds.FindEligibleObserverCorrect | shepherd_core/shepherd_core/data_models/testbed/testbed.py:82-91 | the corrected lookup fails iff no observer is eligible, and otherwise returns the first eligible one |
| Testbeds.LookupsAgreeWithCapes | shepherd_core/shepherd_core/data_models/testbed/testbed.py:82-91 | when every observer in service has a cape, the source's lookup and the corrected one agree |
| Testbeds.GetObserver | shepherd_core/shepherd_core/data_models/testbed/testbed.py:82-91 | the search loop returns what the as-written lookup specifies, skipping inactive observers and inactive capes |
| TargetConfigs.CheckMcu | shepherd_core/shepherd_core/data_models/experiment/target_config.py:53-72 | an MCU slot fails only if the target has that MCU. Its errors are: a missing default firmware, a default firmware for another MCU, or a given firmware for another MCU |
| TargetConfigs.CheckTargets | shepherd_core/shepherd_core/data_models/experiment/target_config.py:51-72 | it fails only with a target-lookup or firmware error; an unknown target reported is one of the listed ids |
| TargetConfigs.CheckTargetsPassIff | shepherd_core/shepherd_core/data_models/experiment/target_config.py:51-72 | the per-target loop passes iff every target exists and the firmware of each MCU slot targets that MCU |
| TargetConfigs.PostValidation | shepherd_core/shepherd_core/data_models/experiment/target_config.py:45-82 | fails only with a validation error, never the custom-id index error; a reported unknown target is listed and absent; a coverage failure means the custom ids have fewer distinct values than the target ids |
| TargetConfigs.PostValidationPassIff | shepherd_core/shepherd_core/data_models/experiment/target_config.py:45-82 | a configuration passes iff three things hold: its energy environment is valid; all targets exist with compatible firmware; any custom ids have at least as many distinct values as the target ids |
| TargetConfigs.InvalidEnergyEnvFails | shepherd_core/shepherd_core/data_models/experiment/target_config.py:47-50 | an invalid energy environment is rejected first, naming the environment |
| TargetConfigs.MismatchedFirmwareFails | shepherd_core/shepherd_core/data_models/experiment/target_config.py:67-72 | a target whose first MCU differs from firmware1's MCU makes validation fail with a target or firmware error |
| TargetConfigs.IndexOf | shepherd_core/shepherd_core/data_models/experiment/target_config.py:86 | `list.index`: the first position holding the value |
| TargetConfigs.GetCustomId | shepherd_core/shepherd_core/data_models/experiment/target_config.py:84-87 | none without custom ids or for a foreign target; otherwise the custom id at the target's first position, and an IndexError exactly when that position is past the custom ids |
| TargetConfigs.CustomIdInRange | shepherd_core/shepherd_core/data_models/experiment/target_config.py:74-87 | for a configuration that passes, with distinct target ids, the custom-id lookup never raises |
| TargetConfigs.RepeatedTargetExhaustsCustomIds | shepherd_core/shepherd_core/data_models/experiment/target_config.py:74-87 | with a repeated target id, the passing configuration ([1, 1, 2], custom [5, 6]) raises IndexError for target 2 |
| Experiments.TargetIds | shepherd_core/shepherd_core/data_models/experiment/experiment.py:97-98 | the flattened target ids of all configurations in order; TargetIdsAppend, TargetIdsMembership and TargetIdsLength state its properties |
| Experiments.TargetIdsAppend | shepherd_core/shepherd_core/data_models/experiment/experiment.py:97-98 | the ids of two runs of configurations are the ids of the first followed by those of the second |
| Experiments.TargetIdsMembership | shepherd_core/shepherd_core/data_models/experiment/experiment.py:97-98 | an id is in get_target_ids iff some configuration lists it |
| Experiments.TargetIdsLength | shepherd_core/shepherd_core/data_models/experiment/experiment.py:97-98 | get_target_ids has as many entries as all configurations' lists together |
| Experiments.Prefix | shepherd_core/shepherd_core/data_models/experiment/experiment.py:80 | `xs[:n]` keeps the first min(n, len) entries |
| Experiments.CustomIdsDefault | shepherd_core/shepherd_core/data_models/experiment/experiment.py:79-82 | without custom ids the firmware ids are the target ids |
| Experiments.FirstUnknown | shepherd_core/shepherd_core/data_models/experiment/experiment.py:75-77 | finds the first id naming no target, or none when all exist |
| Experiments.TargetRulesMeaning | shepherd_core/shepherd_core/data_models/experiment/experiment.py:70-86 | the target rules pass iff three things hold: every target exists; no target id occurs twice across configurations; the collected custom ids have at least as many distinct values as there are targets |
| Experiments.DefaultIdsPass | shepherd_core/shepherd_core/data_models/experiment/experiment.py:79-86 | without custom ids, distinct existing targets always pass |
| Experiments.ValidateTargets | shepherd_core/shepherd_core/data_models/experiment/experiment.py:70-86 | the nested collection loop raises, for the first unknown target, a duplicate, or a custom-id collision, exactly as the rules specify |
| Experiments.ObserverIdsOfTargets | shepherd_core/shepherd_core/data_models/experiment/experiment.py:91 | one observer id per target, each the id of the observer `get_observer` as written returns for it; a failure is the failure of one of those lookups |
| Experiments.ValidateObservers | shepherd_core/shepherd_core/data_models/experiment/experiment.py:88-95 | fails only with an observer-lookup error or a shared observer; ValidateObserversMeaning states what passing means |
| Experiments.ValidateObserversMeaning | shepherd_core/shepherd_core/data_models/experiment/experiment.py:88-95 | passing the observer rule means every target is served by an observer of the testbed that is in service with a cape in service and holds it, no two targets share an observer, and so no target id repeats |
| Experiments.PostValidation | shepherd_core/shepherd_core/data_models/experiment/experiment.py:61-68 | targets, then observers, then a negative duration are rejected in that order; a passing experiment has no negative duration |
| Experiments.GetTargetConfig | shepherd_core/shepherd_core/data_models/experiment/experiment.py:100-106 | succeeds iff the id is among get_target_ids, returning the first configuration listing it; otherwise it raises ValueError |
| TestbedTasks.FromXp | shepherd_core/shepherd_core/data_models/task/testbed_tasks.py:31-43 | one observer task list per target id, in get_target_ids order, under the experiment's name; a count outside 1..128 is rejected |
| TestbedTasks.FromXpCoversTargets | shepherd_core/shepherd_core/data_models/task/testbed_tasks.py:38-43 | every target of every configuration has its task list in the collection |
| TestbedTasks.GetObserverTasks | shepherd_core/shepherd_core/data_models/task/testbed_tasks.py:45-49 | returns the first task list of the named observer, whose observer is that name, and none iff there is none |
| TestbedTasks.LastTaskWins | shepherd_core/shepherd_core/data_models/task/testbed_tasks.py:51-58 | a key is in the merged paths iff some task list has it, and it maps to the path of the last task list that has it |
| TestbedTasks.GetOutputPaths | shepherd_core/shepherd_core/data_models/task/testbed_tasks.py:51-58 | the loop of `{**values, **new}` yields the in-order merge of all output path maps |

## Left out

- The per-sample converter and harvester simulators and the harvester's register struct: their code (`VirtualConverterModel`, `VirtualHarvesterModel`, `HarvesterPRUConfig`) is not part of this model.
- File I/O is not modelled: HDF5 opening, flushing, metadata, CSV/log export, plotting, downsampling, and energy statistics. The datasets are in-memory sequences.
- Logging, and the soft criteria of `is_valid`. They only log.
- Floating point: floats are exact reals, so no rounding error of `1e-9 * t`, `1e3 * mV` or the gain/offset maps is modelled.
- `pow(x, 0.5)` of a non-negative value is a square-root function passed in as a parameter. Lemmas that need its meaning state that it is the real square root.
- `samplerate_sps_default` comes from commons.py, which is not part of this model. VirtualSource.PruFields and VirtualSource.FromVsrc take the rate as a parameter. The u32 lemmas assume 100000, the rate the reader uses.
- Text.Lower: Python's `str.lower` is Unicode-aware; the model lower-cases ASCII letters only.
- FixtureStore.Fixture.Inheritance: the recursion is bounded by a `fuel` parameter, which stands for Python's recursion limit. Only direct self-inheritance is detected as a circle, as in the source: the `base_name in chain` test runs only while the chain is empty.
- FixtureStore.Fixture.Inheritance: in the post-processing branch, the chain entry for a merged preset without a "name" is a null value. The source would raise KeyError there, but the stored presets always carry a name.
- FixtureStore: `Fixtures.__init__`, `insert_file` and `get_files` scan directories and load YAML. They are not modelled, and the store starts empty.
- FixtureStore: the key order of a merged dict is not modelled. Merges are maps; only the name map keeps its insertion order, because iteration depends on it.
- ShepherdData.SiToRaw: requires a non-zero gain. numpy would divide by zero into inf/nan rather than raise.
- ShepherdData.RawToSi: models array inputs only. A scalar input would fail at the in-place assignment.
- ShepherdData.Reader.ReadBuffers: start indices are natural numbers. A negative `start_n` would make numpy slice from the end.
- ShepherdData.Writer.RefreshFileStats: the runtime, file size and data rate are not modelled. They need the file system and float rounding.
- ShepherdData.Writer.AppendIvDataRaw: timestamps are unbounded integers. Only the generated series is reduced modulo 2^64, and a negative scalar start is reduced the same way, where numpy's mixing of a negative Python int with a `u8` array may not wrap.
- ShepherdData.Writer.AppendIvDataRaw: voltage and current samples are stored as given. The source's `u4` datasets would convert values outside [0, 2^32 - 1] on assignment; the model assumes raw unsigned 32-bit values as the docstring says, without checking them.
- ShepherdData.Writer.AppendIvDataRaw: `append_iv_data_si` is not modelled. It is `si_to_raw` followed by this method.
- Constructors that query the testbed database are parameters or values: `Target(id=…)`, `Firmware(name=…)`, `Testbed()` and `ObserverTasks.from_xp`. `TargetConfigs.TargetDb`/`FirmwareDb` maps stand for the lookups, and an absent key is a failed construction.
- pydantic field constraints are not modelled as checks: list lengths, id ranges and `IdInt16` custom ids. Only the task count of `TestbedTasks.from_xp` is checked, because it decides whether the result exists.
- Experiments.ValidateObservers: follows `get_observer` as written, so an observer in service without a cape listed ahead of the one serving a target makes it fail with the lookup's attribute error (ObserverLookup(MissingCape)). The corrected lookup of the finding below is proved on its own and is not used there.
- Capes and targets keep only the attributes the core reads. Their remaining attributes are one `details` string, which takes part in equality, so the repeat checks of the testbed compare whole records as pydantic does. A target's `details` also stands for the unmodelled attributes of its MCUs.
- The available cape.py and mcu.py describe an older layout. The `active` flag of a cape and the `id` and `fw_name_default` of an MCU are taken from their use in testbed.py and target_config.py.

## Findings

| source | as written | input that shows it | evidently intended | confidence | as-written member | corrected member |
|---|---|---|---|---|---|---|
| shepherd_core/shepherd_core/data_models/testbed/testbed.py:84 | `not _observer.cape.active` is evaluated for every observer in service, including one whose cape is `None` | an observer in service with no cape and no target (accepted by `Observer.post_validation`) listed before an observer with an active cape holding target 7: `get_observer(7)` raises AttributeError instead of returning the second observer | an observer without a cape is skipped like a decommissioned one | not executed; medium | Testbeds.CapeLessObserverBlocksLookup | Testbeds.FindEligibleObserverCorrect |
