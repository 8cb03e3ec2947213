/** The tasks of all observers taking part in an experiment, and their
    combined output paths. */
module TestbedTasks {
  import opened Wrappers
  import opened Experiments

  /** The part of an observer's task list this module reads: the observer's
      name and the output paths its tasks produce. */
  datatype ObserverTasks = ObserverTasks(observer: string, outputPaths: map<string, string>)

  datatype TestbedTasks = TestbedTasks(name: string, observerTasks: seq<ObserverTasks>)

  datatype TasksError = TaskCountOutOfRange(count: int)

  const MinObserverTasks := 1
  const MaxObserverTasks := 128

  /** `from_xp`: one observer task list per target id, in the order of the
      experiment's target ids, built by `taskOf`; the collection holds 1 to
      128 of them. */
  function FromXp(xp: Experiment, taskOf: int -> ObserverTasks): (r: Result<TestbedTasks, TasksError>)
    ensures r.Success? <==> MinObserverTasks <= |TargetIds(xp.targetConfigs)| <= MaxObserverTasks
    ensures r.Failure? ==> r.error == TaskCountOutOfRange(|TargetIds(xp.targetConfigs)|)
    ensures r.Success? ==> r.value.name == xp.name
    ensures r.Success? ==>
      && |r.value.observerTasks| == |TargetIds(xp.targetConfigs)|
      && forall i :: 0 <= i < |r.value.observerTasks| ==>
           r.value.observerTasks[i] == taskOf(TargetIds(xp.targetConfigs)[i])
  {
    var ids := TargetIds(xp.targetConfigs);
    var tasks := seq(|ids|, i requires 0 <= i < |ids| => taskOf(ids[i]));
    if MinObserverTasks <= |tasks| <= MaxObserverTasks then Success(TestbedTasks(xp.name, tasks))
    else Failure(TaskCountOutOfRange(|tasks|))
  }

  /** Every target of every configuration has its task list in the
      collection. */
  lemma FromXpCoversTargets(xp: Experiment, taskOf: int -> ObserverTasks, k: int, id: int)
    requires FromXp(xp, taskOf).Success?
    requires 0 <= k < |xp.targetConfigs| && id in xp.targetConfigs[k].targetIds
    ensures taskOf(id) in FromXp(xp, taskOf).value.observerTasks
  {
    TargetIdsMembership(xp.targetConfigs, id);
    var ids := TargetIds(xp.targetConfigs);
    var i :| 0 <= i < |ids| && ids[i] == id;
    assert FromXp(xp, taskOf).value.observerTasks[i] == taskOf(id);
  }

  /** `get_observer_tasks`: the first task list of the named observer. */
  method GetObserverTasks(tt: TestbedTasks, observer: string) returns (r: Option<ObserverTasks>)
    ensures r.None? <==> forall i :: 0 <= i < |tt.observerTasks| ==> tt.observerTasks[i].observer != observer
    ensures r.Some? ==> r.value.observer == observer
    ensures r.Some? ==> exists k :: (0 <= k < |tt.observerTasks| && tt.observerTasks[k] == r.value
                                     && forall j :: 0 <= j < k ==> tt.observerTasks[j].observer != observer)
  {
    var i := 0;
    while i < |tt.observerTasks|
      invariant 0 <= i <= |tt.observerTasks|
      invariant forall j :: 0 <= j < i ==> tt.observerTasks[j].observer != observer
    {
      if observer == tt.observerTasks[i].observer {
        return Some(tt.observerTasks[i]);
      }
      i := i + 1;
    }
    return None;
  }

  /** The paths of the task lists merged in order, each later one
      overriding the keys it shares with the earlier ones. */
  function MergedPaths(tasks: seq<ObserverTasks>): map<string, string> {
    if tasks == [] then map[]
    else MergedPaths(tasks[..|tasks| - 1]) + tasks[|tasks| - 1].outputPaths
  }

  /** A key of the merged paths comes from some task list, and takes the
      path of the last task list that has it. */
  lemma {:induction false} LastTaskWins(tasks: seq<ObserverTasks>, key: string)
    ensures key in MergedPaths(tasks) <==> exists k :: 0 <= k < |tasks| && key in tasks[k].outputPaths
    ensures key in MergedPaths(tasks) ==> exists k :: (0 <= k < |tasks| && key in tasks[k].outputPaths
      && MergedPaths(tasks)[key] == tasks[k].outputPaths[key]
      && forall j :: k < j < |tasks| ==> key !in tasks[j].outputPaths)
  {
    if tasks != [] {
      var init := tasks[..|tasks| - 1];
      var last := |tasks| - 1;
      LastTaskWins(init, key);
      assert forall k :: 0 <= k < |init| ==> init[k] == tasks[k];
      if key !in tasks[last].outputPaths && key in MergedPaths(tasks) {
        var k :| 0 <= k < |init| && key in init[k].outputPaths
          && MergedPaths(init)[key] == init[k].outputPaths[key]
          && forall j :: k < j < |init| ==> key !in init[j].outputPaths;
        assert forall j :: k < j < |tasks| ==> key !in tasks[j].outputPaths;
      }
    }
  }

  /** `get_output_paths`: the union of all output path maps. */
  method GetOutputPaths(tt: TestbedTasks) returns (values: map<string, string>)
    ensures values == MergedPaths(tt.observerTasks)
  {
    values := map[];
    var i := 0;
    while i < |tt.observerTasks|
      invariant 0 <= i <= |tt.observerTasks|
      invariant values == MergedPaths(tt.observerTasks[..i])
    {
      assert tt.observerTasks[..i + 1][..i] == tt.observerTasks[..i];
      values := values + tt.observerTasks[i].outputPaths;
      i := i + 1;
    }
    assert tt.observerTasks[..i] == tt.observerTasks;
  }
}
