/** The device lifecycle registry and what a device must go through to work again
    after a fault. */
module DeviceRegistry {
  import opened Machine

  const MAX_DEVICE_ID: u32 := 0xFFFF_FFFF

  datatype DeviceKind =
    | EthercatDrive | EthercatIo | EthercatSensor | CanFd | I2cSpi | UartUsb | Gpio

  datatype DeviceState =
    | Empty | Probed | Identified | Configuring | Configured | Active | Cyclic | Degraded | Fault
    | Recovering | Inactive

  datatype DeviceError =
    | InvalidId | CapacityExceeded | DuplicateId | NotFound | InvalidTransition | FaultLatched

  datatype DeviceRecord = DeviceRecord(
    id: u32, kind: DeviceKind, state: DeviceState, generation: u32, lastCycle: u64,
    faultCode: u32, transitionCount: u32)

  const EMPTY_RECORD := DeviceRecord(0, EthercatDrive, Empty, 0, 0, 0, 0)

  datatype DeviceTransition = DeviceTransition(
    id: u32, from: DeviceState, to: DeviceState, cycle: u64, faultCode: u32)

  type Outcome = Result<DeviceTransition, DeviceError>

  predicate AllowedTransition(from: DeviceState, to: DeviceState) {
    match from
    case Probed => to == Identified || to == Fault
    case Identified => to == Configuring || to == Fault
    case Configuring => to == Configured || to == Fault
    case Configured => to == Active || to == Fault
    case Active => to == Cyclic || to == Degraded || to == Fault || to == Inactive
    case Cyclic => to == Degraded || to == Fault || to == Inactive
    case Degraded => to == Recovering || to == Fault
    case Fault => to == Recovering || to == Inactive
    case Recovering => to == Identified || to == Fault
    case Inactive => to == Probed
    case Empty => false
  }

  /** Registry contents as a value: the registered records and the lifecycle epoch. */
  datatype Registry = Registry(records: seq<DeviceRecord>, epoch: u32)

  function IndexOf(records: seq<DeviceRecord>, id: u32): (r: Option<nat>)
    ensures r.Some? ==> r.value < |records| && records[r.value].id == id
                        && forall k :: 0 <= k < r.value ==> records[k].id != id
    ensures r.None? ==> forall k :: 0 <= k < |records| ==> records[k].id != id
  {
    if records == [] then None
    else
      var n := |records| - 1;
      var before := IndexOf(records[..n], id);
      if before.Some? then before else if records[n].id == id then Some(n) else None
  }

  /** The record of a device after an allowed move to another state. */
  function Moved(d: DeviceRecord, target: DeviceState, cycle: u64): DeviceRecord {
    var renewed := target == Recovering || (d.state == Inactive && target == Probed);
    d.(state := target, lastCycle := cycle, transitionCount := SatAdd32(d.transitionCount, 1),
       faultCode := if target != Fault then 0 else d.faultCode,
       generation := if renewed then SatAdd32(d.generation, 1) else d.generation)
  }

  function Register(capacity: nat, g: Registry, id: u32, kind: DeviceKind, cycle: u64)
    : (Registry, Result<(), DeviceError>)
  {
    if id == 0 || id == MAX_DEVICE_ID then (g, Err(InvalidId))
    else if IndexOf(g.records, id).Some? then (g, Err(DuplicateId))
    else if |g.records| >= capacity then (g, Err(CapacityExceeded))
    else (g.(records := g.records + [DeviceRecord(id, kind, Probed, g.epoch, cycle, 0, 0)]), Ok(()))
  }

  function Advance(g: Registry, id: u32, target: DeviceState, cycle: u64): (Registry, Outcome) {
    match IndexOf(g.records, id)
    case None => (g, Err(NotFound))
    case Some(i) =>
      var d := g.records[i];
      if d.state == target then (g, Ok(DeviceTransition(id, d.state, target, cycle, d.faultCode)))
      else if !AllowedTransition(d.state, target)
      then (g, Err(if d.state == Fault then FaultLatched else InvalidTransition))
      else
        var d' := Moved(d, target, cycle);
        (Registry(g.records[i := d'], WrapAdd32(g.epoch, 1)),
         Ok(DeviceTransition(id, d.state, target, cycle, d'.faultCode)))
  }

  /** `fail` either moves the device to Fault with the given code or changes nothing. */
  function Fail(g: Registry, id: u32, code: u32, cycle: u64): (Registry, Outcome) {
    match IndexOf(g.records, id)
    case None => (g, Err(NotFound))
    case Some(i) =>
      var d := g.records[i];
      if d.state == Fault then (g, Err(FaultLatched))
      else if d.state == Empty || d.state == Inactive then (g, Err(InvalidTransition))
      else
        (Registry(g.records[i := Moved(d.(faultCode := code), Fault, cycle)], WrapAdd32(g.epoch, 1)),
         Ok(DeviceTransition(id, d.state, Fault, cycle, code)))
  }

  class DeviceManager {
    const records: array<DeviceRecord>
    var count: nat
    var lifecycleEpoch: u32

    ghost predicate Valid()
      reads this
    {
      count <= records.Length
    }

    ghost function Abstract(): Registry
      requires Valid()
      reads this, records
    {
      Registry(records[..count], lifecycleEpoch)
    }

    constructor (capacity: nat)
      ensures Valid() && fresh(records) && records.Length == capacity && Abstract() == Registry([], 0)
    {
      records := new DeviceRecord[capacity](_ => EMPTY_RECORD);
      count, lifecycleEpoch := 0, 0;
    }

    /** Linear search for a registered device. */
    method Index(id: u32) returns (r: Option<nat>)
      requires Valid()
      ensures r == IndexOf(records[..count], id)
    {
      var i := 0;
      while i < count
        invariant 0 <= i <= count
        invariant forall k :: 0 <= k < i ==> records[k].id != id
      {
        if records[i].id == id {
          assert records[..count][i].id == id;
          return Some(i);
        }
        i := i + 1;
      }
      return None;
    }

    method RegisterDevice(id: u32, kind: DeviceKind, cycle: u64) returns (r: Result<(), DeviceError>)
      requires Valid()
      modifies this, records
      ensures Valid() && (Abstract(), r) == Register(records.Length, old(Abstract()), id, kind, cycle)
    {
      if id == 0 || id == MAX_DEVICE_ID { return Err(InvalidId); }
      var found := Index(id);
      if found.Some? { return Err(DuplicateId); }
      if records.Length == 0 || count == records.Length { return Err(CapacityExceeded); }
      ghost var before := records[..count];
      records[count] := DeviceRecord(id, kind, Probed, lifecycleEpoch, cycle, 0, 0);
      count := count + 1;
      assert records[..count] == before + [records[count - 1]];
      return Ok(());
    }

    method AdvanceDevice(id: u32, target: DeviceState, cycle: u64) returns (r: Outcome)
      requires Valid()
      modifies this, records
      ensures Valid() && (Abstract(), r) == Advance(old(Abstract()), id, target, cycle)
    {
      var found := Index(id);
      if found.None? { return Err(NotFound); }
      var i := found.value;
      var current := records[i].state;
      assert records[..count][i] == records[i];
      if current == target {
        return Ok(DeviceTransition(id, current, target, cycle, records[i].faultCode));
      }
      if !AllowedTransition(current, target) {
        return Err(if current == Fault then FaultLatched else InvalidTransition);
      }
      ghost var before := records[..count];
      var d := records[i].(state := target, lastCycle := cycle,
                           transitionCount := SatAdd32(records[i].transitionCount, 1));
      if target != Fault {
        d := d.(faultCode := 0);
      }
      if target == Recovering {
        d := d.(generation := SatAdd32(d.generation, 1));
      }
      if current == Inactive && target == Probed {
        d := d.(generation := SatAdd32(d.generation, 1));
      }
      records[i] := d;
      lifecycleEpoch := WrapAdd32(lifecycleEpoch, 1);
      assert records[..count] == before[i := d];
      return Ok(DeviceTransition(id, current, target, cycle, d.faultCode));
    }

    /** The fault code is written before the move is attempted, yet no failing
        path leaves it behind. */
    method FailDevice(id: u32, code: u32, cycle: u64) returns (r: Outcome)
      requires Valid()
      modifies this, records
      ensures Valid() && (Abstract(), r) == Fail(old(Abstract()), id, code, cycle)
    {
      var found := Index(id);
      if found.None? { return Err(NotFound); }
      var i := found.value;
      var current := records[i].state;
      assert records[..count][i] == records[i];
      if current == Fault { return Err(FaultLatched); }
      if current == Empty || current == Inactive { return Err(InvalidTransition); }
      ghost var before := records[..count];
      records[i] := records[i].(faultCode := code);
      assert records[..count] == before[i := records[i]];
      SameIndex(before, i, records[i]);
      ghost var marked := records[i];
      var moved := AdvanceDevice(id, Fault, cycle);
      assert before[i := marked][i := Moved(marked, Fault, cycle)] == before[i := Moved(marked, Fault, cycle)];
      match moved {
        case Ok(t) => return Ok(t.(faultCode := code));
        case Err(e) => return Err(e);
      }
    }
  }

  /** Rewriting a record without changing its id does not move any device. */
  lemma SameIndex(records: seq<DeviceRecord>, i: nat, d: DeviceRecord)
    requires i < |records| && d.id == records[i].id
    ensures forall id: u32 :: IndexOf(records[i := d], id) == IndexOf(records, id)
  {
    var records' := records[i := d];
    forall id: u32 ensures IndexOf(records', id) == IndexOf(records, id) {
      assert forall k :: 0 <= k < |records| ==> records'[k].id == records[k].id;
    }
  }
}
