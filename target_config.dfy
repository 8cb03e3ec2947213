/** The configuration of the target nodes of one experiment: the targets,
    their optional replacement node ids, the energy environment and the
    firmware for the one or two microcontrollers of each target. */
module TargetConfigs {
  import opened Wrappers
  import opened Numerics
  import opened Observers

  datatype Firmware = Firmware(name: string, mcu: Mcu)

  datatype EnergyEnv = EnergyEnv(name: string, valid: bool)

  datatype TargetConfig = TargetConfig(
    targetIds: seq<int>,
    customIds: Option<seq<int>>,
    energyEnv: EnergyEnv,
    firmware1: Firmware,
    firmware2: Option<Firmware>
  )

  /** The records the validator constructs by key (`Target(id=…)`,
      `Firmware(name=…)`); an absent key is a failed construction. */
  type TargetDb = map<int, Target>
  type FirmwareDb = map<string, Firmware>

  datatype ConfigError =
    | InvalidEnergyEnv(name: string)
    | UnknownTarget(id: int)
    | UnknownFirmware(name: string)
    | DefaultFirmwareIncompatible(mcuNum: int, targetId: int)
    | FirmwareIncompatible(mcuNum: int, targetId: int)
    | NotEnoughCustomIds
    | CustomIdOutOfRange     // IndexError of the custom-id lookup

  /** The checks for one microcontroller slot: without a firmware for it
      the default firmware of the microcontroller must exist and target it;
      a firmware given for it must target it. */
  function CheckMcu(mcuNum: int, targetId: int, fw: Option<Firmware>, mcu: Option<Mcu>, fws: FirmwareDb)
    : (r: Outcome<ConfigError>)
    ensures r.Fail? ==> mcu.Some? && (r.error.UnknownFirmware? || r.error == DefaultFirmwareIncompatible(mcuNum, targetId)
                                      || r.error == FirmwareIncompatible(mcuNum, targetId))
  {
    if fw.None? && mcu.Some? then
      if mcu.value.fwNameDefault !in fws then Fail(UnknownFirmware(mcu.value.fwNameDefault))
      else if mcu.value.id != fws[mcu.value.fwNameDefault].mcu.id then Fail(DefaultFirmwareIncompatible(mcuNum, targetId))
      else Pass
    else if fw.Some? && mcu.Some? && fw.value.mcu.id != mcu.value.id then Fail(FirmwareIncompatible(mcuNum, targetId))
    else Pass
  }

  /** Both slots of every target, in list order. */
  function CheckTargets(ids: seq<int>, cfg: TargetConfig, targets: TargetDb, fws: FirmwareDb): (r: Outcome<ConfigError>)
    ensures r.Fail? ==> r.error.UnknownTarget? || r.error.UnknownFirmware?
                         || r.error.DefaultFirmwareIncompatible? || r.error.FirmwareIncompatible?
    ensures r.Fail? && r.error.UnknownTarget? ==> r.error.id in ids && r.error.id !in targets
  {
    if ids == [] then Pass
    else if ids[0] !in targets then Fail(UnknownTarget(ids[0]))
    else
      var t := targets[ids[0]];
      var c1 := CheckMcu(1, t.id, Some(cfg.firmware1), Some(t.mcu1), fws);
      if c1.Fail? then c1
      else
        var c2 := CheckMcu(2, t.id, cfg.firmware2, t.mcu2, fws);
        if c2.Fail? then c2
        else CheckTargets(ids[1..], cfg, targets, fws)
  }

  /** The model validator. */
  function PostValidation(cfg: TargetConfig, targets: TargetDb, fws: FirmwareDb): (r: Outcome<ConfigError>)
    ensures r.Fail? ==> r.error != CustomIdOutOfRange
    ensures r.Fail? && r.error.UnknownTarget? ==> r.error.id in cfg.targetIds && r.error.id !in targets
    ensures r == Fail(NotEnoughCustomIds) ==>
      cfg.customIds.Some? && |ToSet(cfg.customIds.value)| < |ToSet(cfg.targetIds)|
  {
    if !cfg.energyEnv.valid then Fail(InvalidEnergyEnv(cfg.energyEnv.name))
    else
      var c := CheckTargets(cfg.targetIds, cfg, targets, fws);
      if c.Fail? then c
      else if cfg.customIds.Some? && |ToSet(cfg.customIds.value)| < |ToSet(cfg.targetIds)| then Fail(NotEnoughCustomIds)
      else Pass
  }

  /** The firmware running on each microcontroller of target `t` is built
      for that microcontroller. */
  predicate Compatible(t: Target, cfg: TargetConfig, fws: FirmwareDb) {
    && cfg.firmware1.mcu.id == t.mcu1.id
    && (t.mcu2.Some? && cfg.firmware2.Some? ==> cfg.firmware2.value.mcu.id == t.mcu2.value.id)
    && (t.mcu2.Some? && cfg.firmware2.None? ==>
          t.mcu2.value.fwNameDefault in fws && fws[t.mcu2.value.fwNameDefault].mcu.id == t.mcu2.value.id)
  }

  lemma {:induction false} CheckTargetsPassIff(ids: seq<int>, cfg: TargetConfig, targets: TargetDb, fws: FirmwareDb)
    ensures CheckTargets(ids, cfg, targets, fws).Pass? <==>
      forall k :: 0 <= k < |ids| ==> ids[k] in targets && Compatible(targets[ids[k]], cfg, fws)
  {
    if ids != [] {
      CheckTargetsPassIff(ids[1..], cfg, targets, fws);
      assert forall k :: 1 <= k < |ids| ==> ids[k] == ids[1..][k - 1];
    }
  }

  /** A configuration passes exactly when its energy environment is valid,
      every target exists and runs compatible firmware, and any custom ids
      hold at least as many distinct values as the target ids. */
  lemma PostValidationPassIff(cfg: TargetConfig, targets: TargetDb, fws: FirmwareDb)
    ensures PostValidation(cfg, targets, fws).Pass? <==>
      && cfg.energyEnv.valid
      && (forall k :: 0 <= k < |cfg.targetIds| ==>
            cfg.targetIds[k] in targets && Compatible(targets[cfg.targetIds[k]], cfg, fws))
      && (cfg.customIds.Some? ==> |ToSet(cfg.customIds.value)| >= |ToSet(cfg.targetIds)|)
  {
    CheckTargetsPassIff(cfg.targetIds, cfg, targets, fws);
  }

  /** The energy environment is checked before anything else. */
  lemma InvalidEnergyEnvFails(cfg: TargetConfig, targets: TargetDb, fws: FirmwareDb)
    requires !cfg.energyEnv.valid
    ensures PostValidation(cfg, targets, fws) == Fail(InvalidEnergyEnv(cfg.energyEnv.name))
  {
  }

  /** A target whose first microcontroller differs from the one the first
      firmware is built for is rejected, with a firmware error of some
      slot or an earlier unknown target. */
  lemma {:induction false} MismatchedFirmwareFails(cfg: TargetConfig, targets: TargetDb, fws: FirmwareDb, k: int)
    requires 0 <= k < |cfg.targetIds| && cfg.targetIds[k] in targets
    requires cfg.firmware1.mcu.id != targets[cfg.targetIds[k]].mcu1.id
    ensures PostValidation(cfg, targets, fws).Fail?
    ensures PostValidation(cfg, targets, fws).error != NotEnoughCustomIds
  {
    CheckTargetsPassIff(cfg.targetIds, cfg, targets, fws);
    assert !Compatible(targets[cfg.targetIds[k]], cfg, fws);
  }

  /** Position of the first occurrence of `x` (`list.index`). */
  function IndexOf<T(==)>(xs: seq<T>, x: T): (i: nat)
    requires x in xs
    ensures i < |xs| && xs[i] == x
    ensures forall j :: 0 <= j < i ==> xs[j] != x
  {
    if xs[0] == x then 0 else 1 + IndexOf(xs[1..], x)
  }

  /** The custom id replacing a target's id in its firmware: the custom id
      at the position of the target's first occurrence, none without custom
      ids or for a foreign target, and an index error when the custom ids
      run out before that position. */
  function GetCustomId(cfg: TargetConfig, targetId: int): (r: Result<Option<int>, ConfigError>)
    ensures r.Failure? <==>
      cfg.customIds.Some? && targetId in cfg.targetIds && IndexOf(cfg.targetIds, targetId) >= |cfg.customIds.value|
    ensures r.Failure? ==> r.error == CustomIdOutOfRange
    ensures r.Success? && r.value.Some? <==> cfg.customIds.Some? && targetId in cfg.targetIds && r.Success?
    ensures r.Success? && r.value.Some? ==>
      exists k :: 0 <= k < |cfg.targetIds| && cfg.targetIds[k] == targetId
        && k < |cfg.customIds.value| && r.value.value == cfg.customIds.value[k]
        && forall j :: 0 <= j < k ==> cfg.targetIds[j] != targetId
  {
    if cfg.customIds.Some? && targetId in cfg.targetIds then
      var i := IndexOf(cfg.targetIds, targetId);
      if i < |cfg.customIds.value| then Success(Some(cfg.customIds.value[i]))
      else Failure(CustomIdOutOfRange)
    else Success(None)
  }

  /** With distinct target ids, a configuration that passes never makes the
      custom-id lookup fail. */
  lemma CustomIdInRange(cfg: TargetConfig, targets: TargetDb, fws: FirmwareDb, targetId: int)
    requires PostValidation(cfg, targets, fws).Pass?
    requires !HasDuplicate(cfg.targetIds)
    ensures GetCustomId(cfg, targetId).Success?
  {
    if cfg.customIds.Some? && targetId in cfg.targetIds {
      DistinctCount(cfg.targetIds);
      DistinctCount(cfg.customIds.value);
    }
  }

  /** With a repeated target id the coverage rule counts distinct ids only,
      so a configuration that passes can still exhaust its custom ids. */
  lemma RepeatedTargetExhaustsCustomIds()
    ensures var mcu := Mcu(1, "nrf52", "nrf52_demo");
      var fw := Firmware("nrf52_demo", mcu);
      var cfg := TargetConfig([1, 1, 2], Some([5, 6]), EnergyEnv("solar", true), fw, None);
      var targets := map[1 := Target(1, true, mcu, None, "t1"), 2 := Target(2, true, mcu, None, "t2")];
      && PostValidation(cfg, targets, map[]).Pass?
      && GetCustomId(cfg, 2) == Failure(CustomIdOutOfRange)
  {
    var mcu := Mcu(1, "nrf52", "nrf52_demo");
    var fw := Firmware("nrf52_demo", mcu);
    var cfg := TargetConfig([1, 1, 2], Some([5, 6]), EnergyEnv("solar", true), fw, None);
    var targets := map[1 := Target(1, true, mcu, None, "t1"), 2 := Target(2, true, mcu, None, "t2")];
    assert ToSet([1, 1, 2]) == {1, 2};
    assert ToSet([5, 6]) == {5, 6};
    assert IndexOf([1, 1, 2], 2) == 2 by {
      assert [1, 1, 2][1..] == [1, 2];
      assert [1, 2][1..] == [2];
    }
  }
}
