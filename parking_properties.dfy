/**
 * What the transitions of ParkingSpec promise: lowest-slot allocation, FIFO promotion,
 * undo as the inverse of the last action (and where it is not), and the invariant that a
 * plate is registered at most once.
 */
module ParkingProperties {
  import opened Options
  import opened Plates
  import opened Billing
  import opened ParkingSpec

  predicate HasFreeSlot(slots: seq<Option<Vehicle>>)
  {
    exists j :: 0 <= j < |slots| && slots[j].None?
  }

  /** Every stored plate is in the normal form validation produces. */
  predicate NormalPlates(st: Snapshot)
  {
    && (forall i :: 0 <= i < |st.slots| && st.slots[i].Some? ==> IsNormalPlate(st.slots[i].value.plate))
    && (forall k :: 0 <= k < |st.queue| ==> IsNormalPlate(st.queue[k].plate))
  }

  /** No plate is registered twice: not in two slots, not twice in the queue, not in both. */
  predicate Unique(st: Snapshot)
  {
    && (forall i, j :: 0 <= i < j < |st.slots| && st.slots[i].Some? && st.slots[j].Some? ==>
          st.slots[i].value.plate != st.slots[j].value.plate)
    && (forall k, l :: 0 <= k < l < |st.queue| ==> st.queue[k].plate != st.queue[l].plate)
    && (forall i, k :: 0 <= i < |st.slots| && 0 <= k < |st.queue| && st.slots[i].Some? ==>
          st.slots[i].value.plate != st.queue[k].plate)
  }

  predicate Consistent(st: Snapshot)
  {
    WellFormed(st) && NormalPlates(st) && Unique(st)
  }

  /** An unregistered plate takes the lowest-index empty slot whenever one exists. */
  lemma AdmitParksLowest(st: Snapshot, plate: string, kind: string, now: int)
    requires !Registered(st, plate) && HasFreeSlot(st.slots)
    ensures var i := FirstFree(st.slots);
      && i < |st.slots| && st.slots[i] == None
      && (forall j :: 0 <= j < i ==> st.slots[j].Some?)
      && Admit(st, plate, kind, now) == (Park(st, i, Vehicle(plate, kind, now)), Parked)
  {
    var j :| 0 <= j < |st.slots| && st.slots[j].None?;
    assert FirstFree(st.slots) <= j;
  }

  /** A valid new plate is parked, in its normalised form, in the lowest-index empty slot;
      only that slot and the undo stack change. */
  lemma CheckInParksLowest(st: Snapshot, raw: string, kind: string, now: int)
    requires ValidatePlate(raw).Some? && !Registered(st, ValidatePlate(raw).value)
    requires HasFreeSlot(st.slots)
    ensures var i := FirstFree(st.slots);
      var (r, result) := CheckInStep(st, raw, kind, now);
      && result == Parked
      && i < |st.slots| && st.slots[i] == None
      && (forall j :: 0 <= j < i ==> st.slots[j].Some?)
      && r.slots == st.slots[i := Some(Vehicle(Normalize(raw), kind, now))]
      && r.queue == st.queue && r.history == st.history
      && r.undo == st.undo + [ParkedAt(i)]
  {
    AdmitParksLowest(st, ValidatePlate(raw).value, kind, now);
  }

  /** An unregistered plate that finds every slot taken joins the tail of the queue. */
  lemma AdmitQueuesAtTail(st: Snapshot, plate: string, kind: string, now: int)
    requires !Registered(st, plate) && !HasFreeSlot(st.slots)
    ensures FirstFree(st.slots) == |st.slots|
    ensures Admit(st, plate, kind, now) == (Enqueue(st, QueueEntry(plate, kind)), Queued)
  {
  }

  /** A valid new plate that finds every slot taken joins the tail of the queue; the slots
      do not change, and the result is Queued, not Parked. */
  lemma CheckInQueuesAtTail(st: Snapshot, raw: string, kind: string, now: int)
    requires ValidatePlate(raw).Some? && !Registered(st, ValidatePlate(raw).value)
    requires !HasFreeSlot(st.slots)
    ensures var (r, result) := CheckInStep(st, raw, kind, now);
      && result == Queued
      && r.slots == st.slots && r.history == st.history
      && r.queue == st.queue + [QueueEntry(Normalize(raw), kind)]
      && r.undo == st.undo + [Enqueued(Normalize(raw), kind)]
  {
    AdmitQueuesAtTail(st, ValidatePlate(raw).value, kind, now);
  }

  /** Undo right after parking in an empty slot empties it again. */
  lemma UndoPark(st: Snapshot, i: nat, v: Vehicle)
    requires WellFormed(st) && i < |st.slots| && st.slots[i].None?
    ensures UndoStep(Park(st, i, v)) == (st, true)
  {
    var r := Park(st, i, v);
    assert r.undo[..|r.undo| - 1] == st.undo;
    assert r.slots[i := None] == st.slots;
  }

  /** Undo right after queueing a plate the queue did not hold removes that entry again. */
  lemma UndoEnqueue(st: Snapshot, e: QueueEntry)
    requires WellFormed(st) && !InQueue(st.queue, e.plate)
    ensures UndoStep(Enqueue(st, e)) == (st, true)
  {
    var r := Enqueue(st, e);
    assert r.undo[..|r.undo| - 1] == st.undo;
    DequeueAppended(st.queue, e);
  }

  /** The queue search of undo finds an entry appended behind entries with other plates. */
  lemma DequeueAppended(queue: seq<QueueEntry>, e: QueueEntry)
    requires !InQueue(queue, e.plate)
    ensures Unqueue(queue + [e], e.plate) == queue
  {
    var q := queue + [e];
    assert q[|queue|].plate == e.plate;
    assert FirstQueued(q, e.plate) == |queue|;
    assert q[..|queue|] == queue;
  }

  /** Undo right after a release puts the vehicle back and drops the new history record,
      provided the clock has moved past every recorded check-out (so the new record is
      distinct from the old ones). */
  lemma UndoRelease(st: Snapshot, index: nat, v: Vehicle, now: int)
    requires WellFormed(st) && index < |st.slots| && st.slots[index] == Some(v)
    requires forall k :: 0 <= k < |st.history| ==> st.history[k].checkOut < now
    ensures UndoStep(Release(st, index, v, now)) == (st, true)
  {
    var r := Release(st, index, v, now);
    assert r.undo[..|r.undo| - 1] == st.undo;
    assert r.slots[index := Some(v)] == st.slots;
    RemoveAppendedRecord(st.history, Departure(v, now));
  }

  /** The history search of undo finds a freshly appended record, and list.remove drops
      exactly that record when no older one equals it. */
  lemma RemoveAppendedRecord(history: seq<HistoryRecord>, record: HistoryRecord)
    requires forall k :: 0 <= k < |history| ==> history[k].checkOut < record.checkOut
    ensures Unrecord(history + [record], record.plate) == history
  {
    var h := history + [record];
    assert LastWithPlate(h, record.plate) == Some(|history|);
    forall k | 0 <= k < |history| ensures h[k] != record {
      assert h[k] == history[k];
    }
    RemoveFirstAt(h, record, |history|);
    assert h[..|history|] == history;
  }

  /** Undo right after a successful check-in restores the state before it exactly. */
  lemma UndoReversesCheckIn(st: Snapshot, raw: string, kind: string, now: int)
    requires WellFormed(st)
    requires CheckInStep(st, raw, kind, now).1 in {Parked, Queued}
    ensures UndoStep(CheckInStep(st, raw, kind, now).0) == (st, true)
  {
    var plate := ValidatePlate(raw).value;
    var i := FirstFree(st.slots);
    if i < |st.slots| {
      UndoPark(st, i, Vehicle(plate, kind, now));
    } else {
      UndoEnqueue(st, QueueEntry(plate, kind));
    }
  }

  /** With nobody waiting, check-out empties the slot, appends the stay to the history with
      the fee of hitung_biaya on the whole minutes, and pushes Released; the queue is untouched. */
  lemma CheckOutWithoutQueue(st: Snapshot, index: nat, now: int)
    requires index < |st.slots| && st.slots[index].Some? && st.queue == []
    ensures var v := st.slots[index].value;
      var (r, result) := CheckOutStep(st, index, now);
      && result == Charged(ComputeFee((now - v.checkIn) / 60))
      && r.slots == st.slots[index := None]
      && r.slots[index].None?
      && r.queue == []
      && r.history == st.history + [HistoryRecord(v.plate, v.kind, v.checkIn, now, now - v.checkIn, result.fee)]
      && r.undo == st.undo + [Released(index, v)]
  {
  }

  /** Undo right after a check-out that promoted nobody restores the state before it, once
      the clock has moved past every recorded check-out. */
  lemma UndoReversesCheckOut(st: Snapshot, index: nat, now: int)
    requires WellFormed(st) && index < |st.slots|
    requires st.slots[index].Some? && st.queue == []
    requires forall k :: 0 <= k < |st.history| ==> st.history[k].checkOut < now
    ensures UndoStep(CheckOutStep(st, index, now).0) == (st, true)
  {
    UndoRelease(st, index, st.slots[index].value, now);
  }

  /** Under Consistent, the queue head's plate is a normal plate registered in no slot and
      nowhere else in the queue. */
  lemma HeadIsNotRegisteredElsewhere(st: Snapshot, index: nat)
    requires Consistent(st) && index < |st.slots| && st.queue != []
    ensures var plate := st.queue[0].plate;
      && IsNormalPlate(plate)
      && !InSlots(st.slots, plate)
      && !InSlots(st.slots[index := None], plate)
      && !InQueue(st.queue[1..], plate)
  {
    var head := st.queue[0];
    var slots := st.slots[index := None];
    forall i | 0 <= i < |slots| && slots[i].Some?
      ensures slots[i].value.plate != head.plate
    {
      assert st.slots[i].Some?;
    }
    forall k | 0 <= k < |st.queue[1..]|
      ensures st.queue[1..][k].plate != head.plate
    {
      assert st.queue[1..][k] == st.queue[k + 1];
    }
  }

  /** Check-out promotes the queue head (first in, first out) into the lowest free slot,
      which may lie below the slot just freed; two actions land on the undo stack. */
  lemma CheckOutPromotesHead(st: Snapshot, index: nat, now: int)
    requires Consistent(st) && index < |st.slots|
    requires st.slots[index].Some? && st.queue != []
    ensures var v := st.slots[index].value;
      var head := st.queue[0];
      var released := Release(st, index, v, now);
      var j := FirstFree(released.slots);
      && j <= index
      && CheckOutStep(st, index, now) ==
           (Park(released.(queue := st.queue[1..]), j, Vehicle(head.plate, head.kind, now)),
            Charged(FeeForDuration(now - v.checkIn)))
  {
    var v := st.slots[index].value;
    var head := st.queue[0];
    var released := Release(st, index, v, now);
    var mid := released.(queue := st.queue[1..]);
    HeadIsNotRegisteredElsewhere(st, index);
    NormalPlateIsFixedPoint(head.plate);
    assert mid.slots[index].None?;
    AdmitParksLowest(mid, head.plate, head.kind, now);
  }

  /** Promotion does not necessarily reuse the freed slot: when a lower slot is empty, the
      queue head is parked there and the freed slot stays empty. */
  lemma PromotionMayUseLowerSlot(st: Snapshot, index: nat, now: int, free: nat)
    requires Consistent(st) && index < |st.slots|
    requires st.slots[index].Some? && st.queue != []
    requires free < index && st.slots[free].None?
    ensures var r := CheckOutStep(st, index, now).0;
      var j := FirstFree(st.slots);
      && j < index
      && r.slots[j] == Some(Vehicle(st.queue[0].plate, st.queue[0].kind, now))
      && r.slots[index].None?
  {
    CheckOutPromotesHead(st, index, now);
    var freed := st.slots[index := None];
    var j := FirstFree(freed);
    var i := FirstFree(st.slots);
    assert freed[free].None?;
    assert j <= free;
    assert st.slots[j].None? by {
      assert freed[j] == st.slots[j];
    }
    assert i <= j;
    assert freed[i].None?;
    assert j <= i;
  }

  /** What one undo does to the state underneath, action by action: ParkedAt empties the
      slot, Enqueued removes the first queue entry with that plate, and Released writes the
      saved vehicle back whatever now occupies the slot and drops one history record. */
  lemma UndoInverses(st: Snapshot)
    requires WellFormed(st) && st.undo != []
    ensures var r := UndoStep(st).0;
      match st.undo[|st.undo| - 1]
      case ParkedAt(i) =>
        r.slots == st.slots[i := None] && r.queue == st.queue && r.history == st.history
      case Enqueued(plate, _) =>
        && r.slots == st.slots && r.history == st.history
        && (InQueue(st.queue, plate) ==>
              exists k :: 0 <= k < |st.queue| && st.queue[k].plate == plate
                && (forall j :: 0 <= j < k ==> st.queue[j].plate != plate)
                && r.queue == st.queue[..k] + st.queue[k + 1..])
        && (!InQueue(st.queue, plate) ==> r.queue == st.queue)
      case Released(i, v) =>
        && r.slots == st.slots[i := Some(v)] && r.queue == st.queue
        && (LastWithPlate(st.history, v.plate).Some? ==>
              var j := LastWithPlate(st.history, v.plate).value;
              && |r.history| == |st.history| - 1
              && multiset(r.history) == multiset(st.history) - multiset{st.history[j]})
        && (LastWithPlate(st.history, v.plate).None? ==> r.history == st.history)
  {
    match st.undo[|st.undo| - 1]
    case ParkedAt(i) =>
    case Enqueued(plate, _) =>
      if InQueue(st.queue, plate) {
        var m :| 0 <= m < |st.queue| && st.queue[m].plate == plate;
        assert FirstQueued(st.queue, plate) <= m;
      }
    case Released(i, v) =>
  }

  /** Undoing a check-out removes the most recent record of that plate from the history
      whenever no older record is identical to it. */
  lemma UndoRemovesMostRecentRecord(st: Snapshot, j: nat)
    requires WellFormed(st) && st.undo != [] && st.undo[|st.undo| - 1].Released?
    requires LastWithPlate(st.history, st.undo[|st.undo| - 1].vehicle.plate) == Some(j)
    requires forall k :: 0 <= k < j ==> st.history[k] != st.history[j]
    ensures UndoStep(st).0.history == st.history[..j] + st.history[j + 1..]
  {
    RemoveFirstAt(st.history, st.history[j], j);
  }

  /** The first undo after a promoting check-out empties the promoted vehicle's slot and
      leaves the check-out itself on top of the undo stack; the head stays out of the queue. */
  lemma UndoPromotion(st: Snapshot, index: nat, now: int)
    requires Consistent(st) && index < |st.slots|
    requires st.slots[index].Some? && st.queue != []
    ensures var released := Release(st, index, st.slots[index].value, now);
      UndoStep(CheckOutStep(st, index, now).0) == (released.(queue := st.queue[1..]), true)
  {
    CheckOutPromotesHead(st, index, now);
    var v := st.slots[index].value;
    var head := st.queue[0];
    var mid := Release(st, index, v, now).(queue := st.queue[1..]);
    UndoPark(mid, FirstFree(mid.slots), Vehicle(head.plate, head.kind, now));
  }

  /** Undoing a check-out that promoted the queue head takes two undos, and the promoted
      vehicle is then lost: it is neither in a slot nor back in the queue. */
  lemma UndoingPromotionLosesHead(st: Snapshot, index: nat, now: int)
    requires Consistent(st) && index < |st.slots|
    requires st.slots[index].Some? && st.queue != []
    requires forall k :: 0 <= k < |st.history| ==> st.history[k].checkOut < now
    ensures var once := UndoStep(CheckOutStep(st, index, now).0).0;
      && once.slots == st.slots[index := None]
      && once.queue == st.queue[1..]
      && UndoStep(once) == (st.(queue := st.queue[1..]), true)
      && !Registered(UndoStep(once).0, st.queue[0].plate)
  {
    var v := st.slots[index].value;
    UndoPromotion(st, index, now);
    var rest := st.(queue := st.queue[1..]);
    assert Release(rest, index, v, now) == Release(st, index, v, now).(queue := st.queue[1..]);
    UndoRelease(rest, index, v, now);
    HeadIsNotRegisteredElsewhere(st, index);
  }

  /** Parking a normal, unregistered plate in an empty slot keeps Consistent. */
  lemma ParkingKeepsConsistent(st: Snapshot, i: nat, v: Vehicle)
    requires Consistent(st) && i < |st.slots| && st.slots[i].None?
    requires IsNormalPlate(v.plate) && !Registered(st, v.plate)
    ensures Consistent(Park(st, i, v))
  {
    var r := Park(st, i, v);
    forall a, b | 0 <= a < b < |r.slots| && r.slots[a].Some? && r.slots[b].Some?
      ensures r.slots[a].value.plate != r.slots[b].value.plate
    {
      if a == i { assert st.slots[b].Some?; }
      else if b == i { assert st.slots[a].Some?; }
    }
    forall a, k | 0 <= a < |r.slots| && 0 <= k < |r.queue| && r.slots[a].Some?
      ensures r.slots[a].value.plate != r.queue[k].plate
    {
      if a == i { assert st.queue[k].plate != v.plate; }
    }
  }

  /** Queueing a normal, unregistered plate keeps Consistent. */
  lemma QueueingKeepsConsistent(st: Snapshot, e: QueueEntry)
    requires Consistent(st) && IsNormalPlate(e.plate) && !Registered(st, e.plate)
    ensures Consistent(Enqueue(st, e))
  {
    var r := Enqueue(st, e);
    forall k, l | 0 <= k < l < |r.queue|
      ensures r.queue[k].plate != r.queue[l].plate
    {
      if l == |st.queue| { assert r.queue[k] == st.queue[k]; }
    }
    forall a, k | 0 <= a < |r.slots| && 0 <= k < |r.queue| && r.slots[a].Some?
      ensures r.slots[a].value.plate != r.queue[k].plate
    {
      if k == |st.queue| { assert st.slots[a].value.plate != e.plate; }
    }
  }

  /** Admitting a normal plate keeps Consistent, whether it is refused, parked or queued. */
  lemma AdmitPreservesConsistent(st: Snapshot, plate: string, kind: string, now: int)
    requires Consistent(st) && IsNormalPlate(plate)
    ensures Consistent(Admit(st, plate, kind, now).0)
  {
    if !Registered(st, plate) {
      var i := FirstFree(st.slots);
      if i < |st.slots| {
        ParkingKeepsConsistent(st, i, Vehicle(plate, kind, now));
      } else {
        QueueingKeepsConsistent(st, QueueEntry(plate, kind));
      }
    }
  }

  /** Check-in keeps every stored plate normal and registered at most once. */
  lemma CheckInPreservesConsistent(st: Snapshot, raw: string, kind: string, now: int)
    requires Consistent(st)
    ensures Consistent(CheckInStep(st, raw, kind, now).0)
  {
    if ValidatePlate(raw).Some? {
      ValidatePlateSpec(raw);
      AdmitPreservesConsistent(st, ValidatePlate(raw).value, kind, now);
    }
  }

  lemma ReleasingKeepsConsistent(st: Snapshot, index: nat, v: Vehicle, now: int)
    requires Consistent(st) && index < |st.slots| && st.slots[index] == Some(v)
    ensures Consistent(Release(st, index, v, now))
  {
  }

  lemma DequeueKeepsConsistent(st: Snapshot)
    requires Consistent(st) && st.queue != []
    ensures Consistent(st.(queue := st.queue[1..]))
  {
    assert forall k :: 0 <= k < |st.queue| - 1 ==> st.queue[1..][k] == st.queue[k + 1];
  }

  /** Check-out, promotion included, keeps every stored plate normal and registered at most once. */
  lemma CheckOutPreservesConsistent(st: Snapshot, index: nat, now: int)
    requires Consistent(st) && index < |st.slots|
    ensures Consistent(CheckOutStep(st, index, now).0)
  {
    if st.slots[index].Some? {
      var v := st.slots[index].value;
      var released := Release(st, index, v, now);
      ReleasingKeepsConsistent(st, index, v, now);
      if st.queue != [] {
        DequeueKeepsConsistent(released);
        CheckInPreservesConsistent(released.(queue := st.queue[1..]), st.queue[0].plate, st.queue[0].kind, now);
      }
    }
  }
}
