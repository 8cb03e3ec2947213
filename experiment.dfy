/** An experiment: the target configurations run at once on one testbed,
    the uniqueness rules across them and the lookups by target id. */
module Experiments {
  import opened Wrappers
  import opened Numerics
  import opened Observers
  import opened Testbeds
  import opened TargetConfigs

  datatype Experiment = Experiment(
    name: string,
    duration: Option<real>,   // seconds; none runs until the input ends
    targetConfigs: seq<TargetConfig>
  )

  datatype ExperimentError =
    | UnknownTargetId(id: int)           // a failed `Target(id=…)`
    | DuplicateTargetId
    | CustomIdCollision
    | ObserverLookup(cause: TestbedError)
    | ObserverUsedTwice
    | NegativeDuration
    | TargetNotInExperiment(id: int)

  /** The target ids of all configurations, in order (`get_target_ids`). */
  function TargetIds(configs: seq<TargetConfig>): seq<int> {
    if configs == [] then []
    else TargetIds(configs[..|configs| - 1]) + configs[|configs| - 1].targetIds
  }

  lemma {:induction false} TargetIdsAppend(a: seq<TargetConfig>, b: seq<TargetConfig>)
    ensures TargetIds(a + b) == TargetIds(a) + TargetIds(b)
  {
    if b != [] {
      assert (a + b)[..|a + b| - 1] == a + b[..|b| - 1];
      TargetIdsAppend(a, b[..|b| - 1]);
    } else {
      assert a + b == a;
    }
  }

  /** An id is listed exactly when some configuration names it. */
  lemma {:induction false} TargetIdsMembership(configs: seq<TargetConfig>, id: int)
    ensures id in TargetIds(configs) <==> exists k :: 0 <= k < |configs| && id in configs[k].targetIds
  {
    if configs != [] {
      var init := configs[..|configs| - 1];
      TargetIdsMembership(init, id);
      assert forall k :: 0 <= k < |init| ==> init[k] == configs[k];
    }
  }

  lemma {:induction false} TargetIdsLength(configs: seq<TargetConfig>)
    ensures |TargetIds(configs)| == SumOfCounts(configs)
  {
    if configs != [] {
      TargetIdsLength(configs[..|configs| - 1]);
    }
  }

  function SumOfCounts(configs: seq<TargetConfig>): nat {
    if configs == [] then 0 else SumOfCounts(configs[..|configs| - 1]) + |configs[|configs| - 1].targetIds|
  }

  /** `xs[:n]`, clipped like a Python slice. */
  function Prefix(xs: seq<int>, n: int): (r: seq<int>)
    ensures |r| == if n < 0 then 0 else if n < |xs| then n else |xs|
    ensures forall i :: 0 <= i < |r| ==> r[i] == xs[i]
  {
    if n <= 0 then [] else if n < |xs| then xs[..n] else xs
  }

  /** The ids the firmware of each configuration will carry: the custom ids
      cut to the number of targets, or the target ids themselves. */
  function CustomIdsOf(cfg: TargetConfig): seq<int> {
    if cfg.customIds.Some? then Prefix(cfg.customIds.value, |cfg.targetIds|) else cfg.targetIds
  }

  function CustomIds(configs: seq<TargetConfig>): seq<int> {
    if configs == [] then []
    else CustomIds(configs[..|configs| - 1]) + CustomIdsOf(configs[|configs| - 1])
  }

  /** Without any custom ids the firmware keeps the target ids. */
  lemma {:induction false} CustomIdsDefault(configs: seq<TargetConfig>)
    requires forall k :: 0 <= k < |configs| ==> configs[k].customIds.None?
    ensures CustomIds(configs) == TargetIds(configs)
  {
    if configs != [] {
      CustomIdsDefault(configs[..|configs| - 1]);
    }
  }

  /** The first id that names no known target. */
  function FirstUnknown(ids: seq<int>, targets: TargetDb): (r: Option<int>)
    ensures r.None? <==> forall i :: 0 <= i < |ids| ==> ids[i] in targets
    ensures r.Some? ==> exists k :: (0 <= k < |ids| && ids[k] == r.value && r.value !in targets
                                     && forall i :: 0 <= i < k ==> ids[i] in targets)
  {
    if ids == [] then None
    else if ids[0] !in targets then Some(ids[0])
    else
      var rest := FirstUnknown(ids[1..], targets);
      assert forall i :: 1 <= i < |ids| ==> ids[i] == ids[1..][i - 1];
      if rest.Some? then
        var k :| 0 <= k < |ids[1..]| && ids[1..][k] == rest.value && rest.value !in targets
          && forall i :: 0 <= i < k ==> ids[1..][i] in targets;
        assert ids[k + 1] == rest.value;
        rest
      else rest
  }

  lemma {:induction false} FirstUnknownAppend(a: seq<int>, b: seq<int>, targets: TargetDb)
    requires forall i :: 0 <= i < |a| ==> a[i] in targets
    ensures FirstUnknown(a + b, targets) == FirstUnknown(b, targets)
  {
    if a != [] {
      assert (a + b)[1..] == a[1..] + b;
      FirstUnknownAppend(a[1..], b, targets);
    } else {
      assert a + b == b;
    }
  }

  /** The ids of all configurations around position `j` of configuration `i`. */
  lemma TargetIdsSplit(configs: seq<TargetConfig>, i: int, j: int)
    requires 0 <= i < |configs| && 0 <= j <= |configs[i].targetIds|
    ensures TargetIds(configs) ==
      (TargetIds(configs[..i]) + configs[i].targetIds[..j]) + (configs[i].targetIds[j..] + TargetIds(configs[i + 1..]))
  {
    var cfg := configs[i];
    assert configs == configs[..i] + configs[i..];
    TargetIdsAppend(configs[..i], configs[i..]);
    assert configs[i..] == [cfg] + configs[i + 1..];
    TargetIdsAppend([cfg], configs[i + 1..]);
    assert TargetIds([cfg]) == cfg.targetIds by {
      assert [cfg][..0] == [];
    }
    Regroup(TargetIds(configs[..i]), cfg.targetIds, j, TargetIds(configs[i + 1..]));
  }

  lemma Regroup(a: seq<int>, b: seq<int>, j: int, c: seq<int>)
    requires 0 <= j <= |b|
    ensures a + (b + c) == (a + b[..j]) + (b[j..] + c)
  {
    assert b == b[..j] + b[j..];
  }

  /** The rules `_validate_targets` enforces, in its order. */
  function TargetRules(configs: seq<TargetConfig>, targets: TargetDb): Outcome<ExperimentError> {
    var ids := TargetIds(configs);
    var unknown := FirstUnknown(ids, targets);
    if unknown.Some? then Fail(UnknownTargetId(unknown.value))
    else if |ids| > |ToSet(ids)| then Fail(DuplicateTargetId)
    else if |ids| > |ToSet(CustomIds(configs))| then Fail(CustomIdCollision)
    else Pass
  }

  /** Passing target rules: every target exists, no target id is used
      twice, and the firmware ids are as many distinct values as targets. */
  lemma TargetRulesMeaning(configs: seq<TargetConfig>, targets: TargetDb)
    ensures TargetRules(configs, targets).Pass? <==>
      && (forall i :: 0 <= i < |TargetIds(configs)| ==> TargetIds(configs)[i] in targets)
      && !HasDuplicate(TargetIds(configs))
      && |ToSet(CustomIds(configs))| >= |TargetIds(configs)|
  {
    DistinctCount(TargetIds(configs));
  }

  /** Without custom ids, distinct known targets pass the target rules. */
  lemma DefaultIdsPass(configs: seq<TargetConfig>, targets: TargetDb)
    requires forall k :: 0 <= k < |configs| ==> configs[k].customIds.None?
    requires forall i :: 0 <= i < |TargetIds(configs)| ==> TargetIds(configs)[i] in targets
    requires !HasDuplicate(TargetIds(configs))
    ensures TargetRules(configs, targets).Pass?
  {
    CustomIdsDefault(configs);
    DistinctCount(TargetIds(configs));
  }

  /** `_validate_targets`: collects target and firmware ids config by
      config, constructing each target on the way. */
  method ValidateTargets(configs: seq<TargetConfig>, targets: TargetDb) returns (r: Outcome<ExperimentError>)
    ensures r == TargetRules(configs, targets)
  {
    var targetIds: seq<int> := [];
    var customIds: seq<int> := [];
    var i := 0;
    while i < |configs|
      invariant 0 <= i <= |configs|
      invariant targetIds == TargetIds(configs[..i])
      invariant customIds == CustomIds(configs[..i])
      invariant forall k :: 0 <= k < |targetIds| ==> targetIds[k] in targets
    {
      var cfg := configs[i];
      assert configs[..i + 1][..i] == configs[..i];
      var j := 0;
      while j < |cfg.targetIds|
        invariant 0 <= j <= |cfg.targetIds|
        invariant targetIds == TargetIds(configs[..i]) + cfg.targetIds[..j]
        invariant forall k :: 0 <= k < |targetIds| ==> targetIds[k] in targets
      {
        var id := cfg.targetIds[j];
        if id !in targets {
          TargetIdsSplit(configs, i, j);
          FirstUnknownAppend(targetIds, cfg.targetIds[j..] + TargetIds(configs[i + 1..]), targets);
          return Fail(UnknownTargetId(id));
        }
        targetIds := targetIds + [id];
        j := j + 1;
      }
      assert cfg.targetIds[..j] == cfg.targetIds;
      if cfg.customIds.Some? {
        customIds := customIds + Prefix(cfg.customIds.value, |cfg.targetIds|);
      } else {
        customIds := customIds + cfg.targetIds;
      }
      i := i + 1;
    }
    assert configs[..i] == configs;
    assert FirstUnknown(targetIds, targets).None?;
    if |targetIds| > |ToSet(targetIds)| {
      return Fail(DuplicateTargetId);
    }
    if |targetIds| > |ToSet(customIds)| {
      return Fail(CustomIdCollision);
    }
    return Pass;
  }

  /** The observer serving each target id, found by the testbed's lookup;
      the first failed lookup stops. */
  function ObserverIdsOfTargets(ids: seq<int>, tb: Testbed): (r: Result<seq<int>, TestbedError>)
    ensures r.Success? ==> |r.value| == |ids|
    ensures r.Success? ==> forall i :: 0 <= i < |ids| ==>
      FindObserver(tb.observers, ids[i]).Success?
      && r.value[i] == FindObserver(tb.observers, ids[i]).value.id
    ensures r.Failure? ==> exists i :: 0 <= i < |ids| && FindObserver(tb.observers, ids[i]) == Failure(r.error)
  {
    if ids == [] then Success([])
    else
      var o := FindObserver(tb.observers, ids[0]);
      if o.Failure? then Failure(o.error)
      else
        var rest := ObserverIdsOfTargets(ids[1..], tb);
        if rest.Failure? then rest
        else
          assert forall i :: 1 <= i < |ids| ==> ids[i] == ids[1..][i - 1];
          Success([o.value.id] + rest.value)
  }

  /** `_validate_observers`: at most one target per observer. */
  function ValidateObservers(configs: seq<TargetConfig>, tb: Testbed): (r: Outcome<ExperimentError>)
    ensures r.Fail? ==> r.error.ObserverLookup? || r.error == ObserverUsedTwice
  {
    var ids := TargetIds(configs);
    var obs := ObserverIdsOfTargets(ids, tb);
    if obs.Failure? then Fail(ObserverLookup(obs.error))
    else if |ids| > |ToSet(obs.value)| then Fail(ObserverUsedTwice)
    else Pass
  }

  /** Passing the observer rule: every target is served by an eligible
      observer of the testbed, and two target slots never share one (so
      neither do they share a target id). */
  lemma ValidateObserversMeaning(configs: seq<TargetConfig>, tb: Testbed)
    requires ValidateObservers(configs, tb).Pass?
    ensures forall i :: 0 <= i < |TargetIds(configs)| ==>
      FindObserver(tb.observers, TargetIds(configs)[i]).Success?
      && FindObserver(tb.observers, TargetIds(configs)[i]).value in tb.observers
      && Eligible(FindObserver(tb.observers, TargetIds(configs)[i]).value, TargetIds(configs)[i])
    ensures forall i, j :: 0 <= i < j < |TargetIds(configs)| ==>
      FindObserver(tb.observers, TargetIds(configs)[i]).value.id
        != FindObserver(tb.observers, TargetIds(configs)[j]).value.id
    ensures !HasDuplicate(TargetIds(configs))
  {
    var ids := TargetIds(configs);
    var obs := ObserverIdsOfTargets(ids, tb);
    DistinctCount(obs.value);
    forall i | 0 <= i < |ids|
      ensures FindObserver(tb.observers, ids[i]).value in tb.observers
      ensures Eligible(FindObserver(tb.observers, ids[i]).value, ids[i])
    {
      FindObserverSound(tb.observers, ids[i]);
    }
    forall i, j | 0 <= i < j < |ids|
      ensures FindObserver(tb.observers, ids[i]).value.id != FindObserver(tb.observers, ids[j]).value.id
    {
      assert obs.value[i] != obs.value[j];
    }
  }

  /** The experiment's rules: targets, observers, then the duration. */
  function ExperimentRules(xp: Experiment, targets: TargetDb, tb: Testbed): Outcome<ExperimentError> {
    var t := TargetRules(xp.targetConfigs, targets);
    if t.Fail? then t
    else
      var o := ValidateObservers(xp.targetConfigs, tb);
      if o.Fail? then o
      else if xp.duration.Some? && xp.duration.value < 0.0 then Fail(NegativeDuration)
      else Pass
  }

  /** The model validator of an experiment, on the testbed it runs on. */
  method PostValidation(xp: Experiment, targets: TargetDb, tb: Testbed) returns (r: Outcome<ExperimentError>)
    ensures r == ExperimentRules(xp, targets, tb)
    ensures r.Pass? ==> !(xp.duration.Some? && xp.duration.value < 0.0)
  {
    r := ValidateTargets(xp.targetConfigs, targets);
    if r.Fail? {
      return;
    }
    r := ValidateObservers(xp.targetConfigs, tb);
    if r.Fail? {
      return;
    }
    if xp.duration.Some? && xp.duration.value < 0.0 {
      return Fail(NegativeDuration);
    }
    return Pass;
  }

  /** `get_target_config`: the first configuration naming the target. */
  method GetTargetConfig(xp: Experiment, targetId: int) returns (r: Result<TargetConfig, ExperimentError>)
    ensures r.Success? <==> targetId in TargetIds(xp.targetConfigs)
    ensures r.Failure? ==> r.error == TargetNotInExperiment(targetId)
    ensures r.Success? ==> exists k :: (0 <= k < |xp.targetConfigs| && xp.targetConfigs[k] == r.value
                                        && targetId in r.value.targetIds
                                        && forall j :: 0 <= j < k ==> targetId !in xp.targetConfigs[j].targetIds)
  {
    TargetIdsMembership(xp.targetConfigs, targetId);
    var i := 0;
    while i < |xp.targetConfigs|
      invariant 0 <= i <= |xp.targetConfigs|
      invariant forall j :: 0 <= j < i ==> targetId !in xp.targetConfigs[j].targetIds
    {
      if targetId in xp.targetConfigs[i].targetIds {
        return Success(xp.targetConfigs[i]);
      }
      i := i + 1;
    }
    return Failure(TargetNotInExperiment(targetId));
  }
}
