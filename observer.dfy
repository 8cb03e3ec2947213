/** A testbed observer ("sheep"): one cape carrying up to two target nodes
    on ports A and B, and the lookups of a target on it. */
module Observers {
  import opened Wrappers

  /** A microcontroller type of a target node. */
  datatype Mcu = Mcu(id: int, name: string, fwNameDefault: string)

  /** A target node: its id, whether it is in service, and its one or two
      microcontrollers. `details` stands for its remaining attributes (name,
      version, description, comment, creation date, testbed id and the
      remaining attributes of its MCUs), which take part in record equality. */
  datatype Target = Target(id: int, active: bool, mcu1: Mcu, mcu2: Option<Mcu>, details: string)

  /** A cape: its id, whether it is in service, and in `details` its
      remaining attributes (name, version, description, comment, creation
      and calibration dates), which take part in record equality. */
  datatype Cape = Cape(id: int, active: bool, details: string)

  datatype TargetPort = A | B

  datatype Observer = Observer(
    id: int,
    name: string,
    ip: string,
    mac: string,
    ethPort: string,
    active: bool,
    cape: Option<Cape>,
    targetA: Option<Target>,
    targetB: Option<Target>
  )

  datatype ObserverError =
    | TargetsWithoutCape        // ValueError of the validator
    | TargetNotFound(id: int)   // KeyError of the lookups

  /** The model validator: an observer carrying a target needs a cape. */
  function PostValidation(o: Observer): (r: Outcome<ObserverError>)
    ensures r.Fail? <==> o.cape.None? && (o.targetA.Some? || o.targetB.Some?)
    ensures r.Fail? ==> r.error == TargetsWithoutCape
  {
    var hasCape := o.cape.Some?;
    var hasTarget := o.targetA.Some? || o.targetB.Some?;
    if !hasCape && hasTarget then Fail(TargetsWithoutCape) else Pass
  }

  /** Port A or B holds an active target with this id. */
  predicate HasTarget(o: Observer, targetId: int) {
    || (o.targetA.Some? && targetId == o.targetA.value.id && o.targetA.value.active)
    || (o.targetB.Some? && targetId == o.targetB.value.id && o.targetB.value.active)
  }

  /** The port of a target: A whenever port A carries the id (active or
      not), once some port holds it as an active target. */
  function GetTargetPort(o: Observer, targetId: int): (r: Result<TargetPort, ObserverError>)
    ensures r.Success? <==> HasTarget(o, targetId)
    ensures r.Success? ==> (r.value == A <==> o.targetA.Some? && o.targetA.value.id == targetId)
    ensures r.Failure? ==> r.error == TargetNotFound(targetId)
  {
    if HasTarget(o, targetId) then
      if o.targetA.Some? && targetId == o.targetA.value.id then Success(A)
      else Success(B)
    else Failure(TargetNotFound(targetId))
  }

  /** The target with this id, found in the same order as its port. */
  function GetTarget(o: Observer, targetId: int): (r: Result<Target, ObserverError>)
    ensures r.Success? <==> HasTarget(o, targetId)
    ensures r.Success? ==> r.value.id == targetId
    ensures r.Failure? ==> r.error == TargetNotFound(targetId)
  {
    if HasTarget(o, targetId) then
      if o.targetA.Some? && targetId == o.targetA.value.id then Success(o.targetA.value)
      else Success(o.targetB.value)
    else Failure(TargetNotFound(targetId))
  }

  /** The port and the target lookups agree: both succeed together, and the
      port is A exactly when the target found sits on port A. */
  lemma PortAndTargetAgree(o: Observer, targetId: int)
    ensures GetTargetPort(o, targetId).Success? <==> GetTarget(o, targetId).Success?
    ensures GetTarget(o, targetId).Success? ==>
      (GetTargetPort(o, targetId).value == A <==> o.targetA == Some(GetTarget(o, targetId).value))
    ensures GetTarget(o, targetId).Success? && GetTargetPort(o, targetId).value == B ==>
      o.targetB == Some(GetTarget(o, targetId).value)
  {
  }

  /** The active flag only gates the search: an inactive target on port A
      is still returned when port B holds an active node with the same id. */
  lemma InactiveTargetOnPortA()
    ensures var o := Observer(1, "sheep", "10.0.0.1", "00:00:00:00:00:01", "p1", true, Some(Cape(1, true, "cape1")),
                              Some(Target(7, false, Mcu(1, "nrf52", "nrf52_demo"), None, "t7")),
                              Some(Target(7, true, Mcu(1, "nrf52", "nrf52_demo"), None, "t7")));
      && GetTargetPort(o, 7) == Success(A)
      && GetTarget(o, 7).Success? && !GetTarget(o, 7).value.active
  {
  }
}
