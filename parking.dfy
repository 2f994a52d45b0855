/**
 * ParkFlowSystem of models.py: fixed slots in an array, the waiting queue, the history and
 * the undo stack, updated in place by masuk (CheckIn), keluar (CheckOut) and undo (Undo).
 * Each operation is proved to perform the transition of the same name in ParkingSpec.
 */
module Parking {
  import opened Options
  import opened Plates
  import opened Billing
  import opened ParkingSpec

  class ParkFlowSystem {
    const capacity: nat
    const slots: array<Option<Vehicle>>
    var queue: seq<QueueEntry>
    var history: seq<HistoryRecord>
    var undoStack: seq<UndoAction>

    /** The whole state as a value. */
    ghost function State(): Snapshot
      reads this, slots
    {
      Snapshot(slots[..], queue, history, undoStack)
    }

    ghost predicate Valid()
      reads this, slots
    {
      slots.Length == capacity && WellFormed(State())
    }

    /** __init__(kapasitas): every slot empty, queue, history and undo stack empty. */
    constructor (capacity: nat)
      ensures Valid() && fresh(slots)
      ensures slots.Length == capacity && forall i :: 0 <= i < capacity ==> slots[i] == None
      ensures queue == [] && history == [] && undoStack == []
    {
      this.capacity := capacity;
      slots := new Option<Vehicle>[capacity](_ => None);
      queue, history, undoStack := [], [], [];
    }

    /** plat_sudah_ada: scans the slots, then the queue. */
    method PlateRegistered(plate: string) returns (found: bool)
      ensures found == Registered(State(), plate)
    {
      for i := 0 to slots.Length
        invariant forall j :: 0 <= j < i ==> !(slots[j].Some? && slots[j].value.plate == plate)
      {
        if slots[i].Some? && slots[i].value.plate == plate {
          assert slots[..][i] == slots[i];
          return true;
        }
      }
      for k := 0 to |queue|
        invariant forall j :: 0 <= j < k ==> queue[j].plate != plate
      {
        if queue[k].plate == plate {
          return true;
        }
      }
      return false;
    }

    /** masuk(plat, jenis) at time `now`. */
    method CheckIn(raw: string, kind: string, now: int) returns (result: CheckInResult)
      requires Valid()
      modifies this, slots
      ensures Valid()
      ensures (State(), result) == CheckInStep(old(State()), raw, kind, now)
    {
      var checked := ValidatePlate(raw);
      if checked.None? {
        return InvalidFormat;
      }
      result := AdmitPlate(checked.value, kind, now);
    }

    /** The rest of masuk once the plate is validated: the duplicate check, then the first
        empty slot, else the queue. */
    method AdmitPlate(plate: string, kind: string, now: int) returns (result: CheckInResult)
      requires Valid()
      modifies this, slots
      ensures Valid()
      ensures (State(), result) == Admit(old(State()), plate, kind, now)
    {
      ghost var before := State();
      var taken := PlateRegistered(plate);
      if taken {
        return Duplicate;
      }
      var i := FreeSlot();
      if i < capacity {
        var v := Vehicle(plate, kind, now);
        slots[i] := Some(v);
        undoStack := undoStack + [ParkedAt(i)];
        assert State() == Park(before, i, v);
        return Parked;
      }
      queue := queue + [QueueEntry(plate, kind)];
      undoStack := undoStack + [Enqueued(plate, kind)];
      assert State() == Enqueue(before, QueueEntry(plate, kind));
      return Queued;
    }

    /** The slot search of masuk: the lowest-index empty slot, or `capacity` when all are taken. */
    method FreeSlot() returns (i: nat)
      requires slots.Length == capacity
      ensures i <= capacity
      ensures i < capacity ==> slots[i] == None
      ensures forall j :: 0 <= j < i ==> slots[j].Some?
      ensures i == FirstFree(slots[..])
    {
      for k := 0 to capacity
        invariant forall j :: 0 <= j < k ==> slots[j].Some?
      {
        if slots[k] == None {
          return k;
        }
      }
      return capacity;
    }

    /** keluar(index) at time `now`; the queue head, if any, is checked in again afterwards. */
    method CheckOut(index: nat, now: int) returns (result: CheckOutResult)
      requires Valid() && index < capacity
      modifies this, slots
      ensures Valid()
      ensures (State(), result) == CheckOutStep(old(State()), index, now)
    {
      var occupant := slots[index];
      if occupant == None {
        return NotOccupied;
      }
      var v := occupant.value;
      var seconds := now - v.checkIn;
      var fee := FeeForDuration(seconds);
      history := history + [HistoryRecord(v.plate, v.kind, v.checkIn, now, seconds, fee)];
      undoStack := undoStack + [Released(index, v)];
      slots[index] := None;
      if queue != [] {
        var head := queue[0];
        queue := queue[1..];
        var _ := CheckIn(head.plate, head.kind, now);
      }
      return Charged(fee);
    }

    /** The queue search of undo: the first entry with `plate`, or |queue| when there is none. */
    method QueuePosition(plate: string) returns (k: nat)
      ensures k <= |queue|
      ensures k < |queue| ==> queue[k].plate == plate
      ensures forall j :: 0 <= j < k ==> queue[j].plate != plate
    {
      for i := 0 to |queue|
        invariant forall j :: 0 <= j < i ==> queue[j].plate != plate
      {
        if queue[i].plate == plate {
          return i;
        }
      }
      return |queue|;
    }

    /** The reversed history scan of undo: the most recent record with `plate`. */
    method LastRecordOf(plate: string) returns (j: Option<nat>)
      ensures j.Some? ==> j.value < |history| && history[j.value].plate == plate
      ensures forall k :: (if j.Some? then j.value + 1 else 0) <= k < |history| ==>
        history[k].plate != plate
    {
      var k := |history|;
      while k > 0
        invariant 0 <= k <= |history|
        invariant forall m :: k <= m < |history| ==> history[m].plate != plate
      {
        k := k - 1;
        if history[k].plate == plate {
          return Some(k);
        }
      }
      return None;
    }

    /** undo(): reverts the most recent action. */
    method Undo() returns (undone: bool)
      requires Valid()
      modifies this, slots
      ensures Valid()
      ensures (State(), undone) == UndoStep(old(State()))
    {
      if undoStack == [] {
        return false;
      }
      var action := undoStack[|undoStack| - 1];
      assert Fits(action, capacity);
      undoStack := undoStack[..|undoStack| - 1];
      match action {
        case ParkedAt(i) =>
          slots[i] := None;
        case Enqueued(plate, _) =>
          var k := QueuePosition(plate);
          assert k == FirstQueued(queue, plate);
          if k < |queue| {
            queue := queue[..k] + queue[k + 1..];
          }
        case Released(i, v) =>
          slots[i] := Some(v);
          var j := LastRecordOf(v.plate);
          assert j == LastWithPlate(history, v.plate);
          if j.Some? {
            history := RemoveFirst(history, history[j.value]);
          }
      }
      return true;
    }
  }
}
