/** The testbed: its observers, the uniqueness rules among their ids,
    addresses, capes and targets, and the observer lookup of a target. */
module Testbeds {
  import opened Wrappers
  import opened Numerics
  import opened Observers

  datatype Testbed = Testbed(
    id: int,
    name: string,
    observers: seq<Observer>,
    sharedStorage: bool,
    prepDurationS: real
  )

  datatype TestbedError =
    | DuplicateObserver
    | DuplicateIp
    | DuplicateMac
    | DuplicateCape
    | DuplicateTarget
    | DuplicateEthPort
    | NegativePrepDuration
    | NoSharedStorage
    | TargetNotInTestbed(id: int)   // ValueError of the lookup
    | MissingCape                   // AttributeError: `.active` of an absent cape

  // The lists the validator collects, as functions of the observer list.

  function ObserverIds(obs: seq<Observer>): seq<int> {
    if obs == [] then [] else ObserverIds(obs[..|obs| - 1]) + [obs[|obs| - 1].id]
  }

  function Ips(obs: seq<Observer>): seq<string> {
    if obs == [] then [] else Ips(obs[..|obs| - 1]) + [obs[|obs| - 1].ip]
  }

  function Macs(obs: seq<Observer>): seq<string> {
    if obs == [] then [] else Macs(obs[..|obs| - 1]) + [obs[|obs| - 1].mac]
  }

  function EthPorts(obs: seq<Observer>): seq<string> {
    if obs == [] then [] else EthPorts(obs[..|obs| - 1]) + [obs[|obs| - 1].ethPort]
  }

  function OptToSeq<T>(x: Option<T>): seq<T> {
    if x.Some? then [x.value] else []
  }

  /** The capes present, in observer order. */
  function Capes(obs: seq<Observer>): seq<Cape> {
    if obs == [] then [] else Capes(obs[..|obs| - 1]) + OptToSeq(obs[|obs| - 1].cape)
  }

  /** The targets present, port A before port B of each observer. */
  function Targets(obs: seq<Observer>): seq<Target> {
    if obs == [] then []
    else Targets(obs[..|obs| - 1]) + OptToSeq(obs[|obs| - 1].targetA) + OptToSeq(obs[|obs| - 1].targetB)
  }

  /** The validator's rules, checked in this order. */
  function TestbedRules(tb: Testbed): Outcome<TestbedError> {
    if HasDuplicate(ObserverIds(tb.observers)) then Fail(DuplicateObserver)
    else if HasDuplicate(Ips(tb.observers)) then Fail(DuplicateIp)
    else if HasDuplicate(Macs(tb.observers)) then Fail(DuplicateMac)
    else if HasDuplicate(Capes(tb.observers)) then Fail(DuplicateCape)
    else if HasDuplicate(Targets(tb.observers)) then Fail(DuplicateTarget)
    else if HasDuplicate(EthPorts(tb.observers)) then Fail(DuplicateEthPort)
    else if tb.prepDurationS < 0.0 then Fail(NegativePrepDuration)
    else if !tb.sharedStorage then Fail(NoSharedStorage)
    else Pass
  }

  /** `len(xs) > len(set(xs))`. */
  function UsedTwice<T(==)>(xs: seq<T>): (r: bool)
    ensures r <==> HasDuplicate(xs)
  {
    DistinctCount(xs);
    |xs| > |ToSet(xs)|
  }

  /** The model validator: collects the six lists in one pass over the
      observers, absent capes and targets skipped, then rejects the first
      list holding a repeated entry, a negative preparation time and a
      testbed without shared storage. */
  method PostValidation(tb: Testbed) returns (r: Outcome<TestbedError>)
    ensures r == TestbedRules(tb)
  {
    var observers: seq<int> := [];
    var ips: seq<string> := [];
    var macs: seq<string> := [];
    var capes: seq<Cape> := [];
    var targets: seq<Target> := [];
    var ethPorts: seq<string> := [];
    var i := 0;
    while i < |tb.observers|
      invariant 0 <= i <= |tb.observers|
      invariant observers == ObserverIds(tb.observers[..i])
      invariant ips == Ips(tb.observers[..i])
      invariant macs == Macs(tb.observers[..i])
      invariant capes == Capes(tb.observers[..i])
      invariant targets == Targets(tb.observers[..i])
      invariant ethPorts == EthPorts(tb.observers[..i])
    {
      var obs := tb.observers[i];
      assert tb.observers[..i + 1][..i] == tb.observers[..i];
      observers := observers + [obs.id];
      ips := ips + [obs.ip];
      macs := macs + [obs.mac];
      if obs.cape.Some? {
        capes := capes + [obs.cape.value];
      }
      if obs.targetA.Some? {
        targets := targets + [obs.targetA.value];
      }
      if obs.targetB.Some? {
        targets := targets + [obs.targetB.value];
      }
      ethPorts := ethPorts + [obs.ethPort];
      i := i + 1;
    }
    assert tb.observers[..i] == tb.observers;
    if UsedTwice(observers) { return Fail(DuplicateObserver); }
    if UsedTwice(ips) { return Fail(DuplicateIp); }
    if UsedTwice(macs) { return Fail(DuplicateMac); }
    if UsedTwice(capes) { return Fail(DuplicateCape); }
    if UsedTwice(targets) { return Fail(DuplicateTarget); }
    if UsedTwice(ethPorts) { return Fail(DuplicateEthPort); }
    if tb.prepDurationS < 0.0 { return Fail(NegativePrepDuration); }
    if !tb.sharedStorage { return Fail(NoSharedStorage); }
    return Pass;
  }

  /** The collected observer ids, one per observer and in order. */
  lemma {:induction false} ObserverIdsOf(obs: seq<Observer>)
    ensures |ObserverIds(obs)| == |obs|
    ensures forall i :: 0 <= i < |obs| ==> ObserverIds(obs)[i] == obs[i].id
  {
    if obs != [] {
      ObserverIdsOf(obs[..|obs| - 1]);
    }
  }

  /** An observer in the list of a testbed that passes validation has an id
      no other observer shares. */
  lemma ValidTestbedHasUniqueObservers(tb: Testbed)
    requires TestbedRules(tb).Pass?
    ensures forall i, j :: 0 <= i < j < |tb.observers| ==> tb.observers[i].id != tb.observers[j].id
    ensures tb.prepDurationS >= 0.0 && tb.sharedStorage
  {
    ObserverIdsOf(tb.observers);
  }

  /** An observer the lookup may return: in service, with a cape in
      service, holding the target. */
  predicate Eligible(o: Observer, targetId: int) {
    o.active && o.cape.Some? && o.cape.value.active && HasTarget(o, targetId)
  }

  /** The lookup as the code performs it: observers out of service are
      skipped, but reading the cape's flag of an observer in service
      without a cape fails. */
  function FindObserver(obs: seq<Observer>, targetId: int): (r: Result<Observer, TestbedError>)
    ensures r.Failure? ==> r.error == TargetNotInTestbed(targetId) || r.error == MissingCape
  {
    if obs == [] then Failure(TargetNotInTestbed(targetId))
    else if !obs[0].active then FindObserver(obs[1..], targetId)
    else if obs[0].cape.None? then Failure(MissingCape)
    else if !obs[0].cape.value.active then FindObserver(obs[1..], targetId)
    else if HasTarget(obs[0], targetId) then Success(obs[0])
    else FindObserver(obs[1..], targetId)
  }

  /** Whatever the lookup returns is the first eligible observer of the
      list; a not-found error means no observer is eligible. */
  lemma {:induction false} FindObserverSound(obs: seq<Observer>, targetId: int)
    ensures FindObserver(obs, targetId).Success? ==>
      FindObserver(obs, targetId).value in obs && Eligible(FindObserver(obs, targetId).value, targetId)
    ensures FindObserver(obs, targetId).Success? ==>
      exists k :: 0 <= k < |obs| && obs[k] == FindObserver(obs, targetId).value
        && forall j :: 0 <= j < k ==> !Eligible(obs[j], targetId)
    ensures FindObserver(obs, targetId) == Failure(TargetNotInTestbed(targetId)) ==>
      forall o :: o in obs ==> !Eligible(o, targetId)
  {
    if obs != [] {
      FindObserverSound(obs[1..], targetId);
      assert forall o :: o in obs ==> o == obs[0] || o in obs[1..];
      if FindObserver(obs, targetId).Success? && !Eligible(obs[0], targetId) {
        assert FindObserver(obs, targetId) == FindObserver(obs[1..], targetId);
        var k :| 0 <= k < |obs[1..]| && obs[1..][k] == FindObserver(obs[1..], targetId).value
          && forall j :: 0 <= j < k ==> !Eligible(obs[1..][j], targetId);
        assert obs[k + 1] == obs[1..][k];
        assert forall j :: 1 <= j < k + 1 ==> obs[j] == obs[1..][j - 1];
      }
    }
  }

  /** Capes are compared as whole records: two capes with the same id
      that differ in another attribute are not a repeat, while the same
      cape on two observers is. */
  lemma CapesCompareAsRecords()
    ensures var o1 := Observer(1, "sheep1", "10.0.0.1", "00:00:00:00:00:01", "p1", true, Some(Cape(3, true, "v1.0")), None, None);
      var o2 := Observer(2, "sheep2", "10.0.0.2", "00:00:00:00:00:02", "p2", true, Some(Cape(3, true, "v2.0")), None, None);
      var o3 := Observer(3, "sheep3", "10.0.0.3", "00:00:00:00:00:03", "p3", true, Some(Cape(3, true, "v1.0")), None, None);
      && Capes([o1, o2]) == [Cape(3, true, "v1.0"), Cape(3, true, "v2.0")]
      && !HasDuplicate(Capes([o1, o2]))
      && HasDuplicate(Capes([o1, o3]))
  {
    var o1 := Observer(1, "sheep1", "10.0.0.1", "00:00:00:00:00:01", "p1", true, Some(Cape(3, true, "v1.0")), None, None);
    var o2 := Observer(2, "sheep2", "10.0.0.2", "00:00:00:00:00:02", "p2", true, Some(Cape(3, true, "v2.0")), None, None);
    var o3 := Observer(3, "sheep3", "10.0.0.3", "00:00:00:00:00:03", "p3", true, Some(Cape(3, true, "v1.0")), None, None);
    assert Capes([o1]) == [Cape(3, true, "v1.0")] by {
      assert [o1][..0] == [];
    }
    assert [o1, o2][..1] == [o1] && [o1, o3][..1] == [o1];
    assert Capes([o1, o2]) == Capes([o1]) + [Cape(3, true, "v2.0")];
    var cs := Capes([o1, o3]);
    assert cs == [Cape(3, true, "v1.0"), Cape(3, true, "v1.0")];
    assert cs[0] == cs[1];
  }

  /** An observer in service without a cape (valid, since it carries no
      target) ahead of the observer holding the target makes the lookup
      fail although an eligible observer exists. */
  lemma CapeLessObserverBlocksLookup()
    ensures var spare := Observer(1, "spare", "10.0.0.1", "00:00:00:00:00:01", "p1", true, None, None, None);
      var sheep := Observer(2, "sheep", "10.0.0.2", "00:00:00:00:00:02", "p2", true, Some(Cape(3, true, "cape3")),
                            Some(Target(7, true, Mcu(1, "nrf52", "nrf52_demo"), None, "t7")), None);
      && Observers.PostValidation(spare).Pass?
      && Eligible(sheep, 7)
      && FindObserver([spare, sheep], 7) == Failure(MissingCape)
  {
    var spare := Observer(1, "spare", "10.0.0.1", "00:00:00:00:00:01", "p1", true, None, None, None);
    var sheep := Observer(2, "sheep", "10.0.0.2", "00:00:00:00:00:02", "p2", true, Some(Cape(3, true, "cape3")),
                          Some(Target(7, true, Mcu(1, "nrf52", "nrf52_demo"), None, "t7")), None);
    assert [spare, sheep][1..] == [sheep];
  }

  /** The lookup with decommissioned setups skipped as intended: an
      observer without a cape is passed over like one out of service. */
  function FindEligibleObserver(obs: seq<Observer>, targetId: int): (r: Result<Observer, TestbedError>)
  {
    if obs == [] then Failure(TargetNotInTestbed(targetId))
    else if Eligible(obs[0], targetId) then Success(obs[0])
    else FindEligibleObserver(obs[1..], targetId)
  }

  /** The corrected lookup fails only when no observer is eligible, and
      otherwise returns the first eligible one. */
  lemma {:induction false} FindEligibleObserverCorrect(obs: seq<Observer>, targetId: int)
    ensures FindEligibleObserver(obs, targetId).Failure? <==> forall o :: o in obs ==> !Eligible(o, targetId)
    ensures FindEligibleObserver(obs, targetId).Failure? ==>
      FindEligibleObserver(obs, targetId).error == TargetNotInTestbed(targetId)
    ensures FindEligibleObserver(obs, targetId).Success? ==>
      exists k :: 0 <= k < |obs| && obs[k] == FindEligibleObserver(obs, targetId).value
        && Eligible(obs[k], targetId) && forall j :: 0 <= j < k ==> !Eligible(obs[j], targetId)
  {
    if obs != [] {
      FindEligibleObserverCorrect(obs[1..], targetId);
      assert forall o :: o in obs ==> o == obs[0] || o in obs[1..];
      if !Eligible(obs[0], targetId) && FindEligibleObserver(obs, targetId).Success? {
        var k :| 0 <= k < |obs[1..]| && obs[1..][k] == FindEligibleObserver(obs[1..], targetId).value
          && Eligible(obs[1..][k], targetId) && forall j :: 0 <= j < k ==> !Eligible(obs[1..][j], targetId);
        assert obs[k + 1] == obs[1..][k];
        assert forall j :: 1 <= j < k + 1 ==> obs[j] == obs[1..][j - 1];
      }
    }
  }

  /** Without observers in service lacking a cape the two lookups agree. */
  lemma {:induction false} LookupsAgreeWithCapes(obs: seq<Observer>, targetId: int)
    requires forall o :: o in obs && o.active ==> o.cape.Some?
    ensures FindObserver(obs, targetId) == FindEligibleObserver(obs, targetId)
  {
    if obs != [] {
      assert forall o :: o in obs[1..] ==> o in obs;
      LookupsAgreeWithCapes(obs[1..], targetId);
    }
  }

  /** `get_observer`: the first observer in service, with its cape in
      service, that holds the target. */
  method GetObserver(tb: Testbed, targetId: int) returns (r: Result<Observer, TestbedError>)
    ensures r == FindObserver(tb.observers, targetId)
  {
    var i := 0;
    while i < |tb.observers|
      invariant 0 <= i <= |tb.observers|
      invariant FindObserver(tb.observers[i..], targetId) == FindObserver(tb.observers, targetId)
    {
      var o := tb.observers[i];
      assert tb.observers[i..][1..] == tb.observers[i + 1..];
      if !o.active {
        i := i + 1;
        continue;
      }
      if o.cape.None? {
        return Failure(MissingCape);
      }
      if !o.cape.value.active {
        i := i + 1;
        continue;
      }
      if HasTarget(o, targetId) {
        return Success(o);
      }
      i := i + 1;
    }
    return Failure(TargetNotInTestbed(targetId));
  }
}
