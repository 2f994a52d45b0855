/**
 * The parking engine of models.py as pure transitions on a snapshot of its state.
 * The class in parking.dfy is proved to perform exactly these transitions, and
 * ParkingProperties states what they promise.
 */
module ParkingSpec {
  import opened Options
  import opened Plates
  import opened Billing

  /** Kendaraan: plate, vehicle type (jenis) and check-in time in seconds. */
  datatype Vehicle = Vehicle(plate: string, kind: string, checkIn: int)

  /** An entry of the waiting queue (antrian): (plat, jenis). */
  datatype QueueEntry = QueueEntry(plate: string, kind: string)

  /** A completed session in the history (riwayat). */
  datatype HistoryRecord = HistoryRecord(
    plate: string, kind: string, checkIn: int, checkOut: int, seconds: int, fee: int)

  /** An entry of the undo stack. */
  datatype UndoAction =
    | ParkedAt(slot: nat)                     // ("masuk", i)
    | Enqueued(plate: string, kind: string)   // ("antrian", plat, jenis)
    | Released(slot: nat, vehicle: Vehicle)   // ("keluar", i, kendaraan)

  /** What masuk reports: True, the queued message, or one of the two rejections. */
  datatype CheckInResult = Parked | Queued | InvalidFormat | Duplicate

  /** What keluar reports: the fee, or False for an empty slot. */
  datatype CheckOutResult = Charged(fee: int) | NotOccupied

  /** The engine's state: slots, queue, history and undo stack (top of stack last). */
  datatype Snapshot = Snapshot(
    slots: seq<Option<Vehicle>>, queue: seq<QueueEntry>,
    history: seq<HistoryRecord>, undo: seq<UndoAction>)

  predicate Fits(a: UndoAction, capacity: nat)
  {
    match a
    case ParkedAt(i) => i < capacity
    case Enqueued(_, _) => true
    case Released(i, _) => i < capacity
  }

  /** Every slot index on the undo stack names a slot. */
  predicate WellFormed(st: Snapshot)
  {
    forall k :: 0 <= k < |st.undo| ==> Fits(st.undo[k], |st.slots|)
  }

  predicate InSlots(slots: seq<Option<Vehicle>>, plate: string)
  {
    exists i :: 0 <= i < |slots| && slots[i].Some? && slots[i].value.plate == plate
  }

  predicate InQueue(queue: seq<QueueEntry>, plate: string)
  {
    exists k :: 0 <= k < |queue| && queue[k].plate == plate
  }

  /** plat_sudah_ada: the plate occupies a slot or waits in the queue. */
  predicate Registered(st: Snapshot, plate: string)
  {
    InSlots(st.slots, plate) || InQueue(st.queue, plate)
  }

  /** The lowest-index empty slot, or |slots| when every slot is taken. */
  function FirstFree(slots: seq<Option<Vehicle>>): (i: nat)
    ensures i <= |slots|
    ensures i < |slots| ==> slots[i].None?
    ensures forall j :: 0 <= j < i ==> slots[j].Some?
  {
    if slots == [] then 0
    else if slots[0].None? then 0
    else 1 + FirstFree(slots[1..])
  }

  /** The position of the first queue entry with `plate`, or |queue| when there is none. */
  function FirstQueued(queue: seq<QueueEntry>, plate: string): (k: nat)
    ensures k <= |queue|
    ensures k < |queue| ==> queue[k].plate == plate
    ensures forall j :: 0 <= j < k ==> queue[j].plate != plate
  {
    if queue == [] then 0
    else if queue[0].plate == plate then 0
    else 1 + FirstQueued(queue[1..], plate)
  }

  /** The position of the most recent history record with `plate`, if any. */
  function LastWithPlate(history: seq<HistoryRecord>, plate: string): (j: Option<nat>)
    ensures j.Some? ==> j.value < |history| && history[j.value].plate == plate
    ensures forall k :: (if j.Some? then j.value + 1 else 0) <= k < |history| ==>
      history[k].plate != plate
  {
    if history == [] then None
    else if history[|history| - 1].plate == plate then Some(|history| - 1)
    else LastWithPlate(history[..|history| - 1], plate)
  }

  /** Python's list.remove(x): drops the first element equal to `x`. Python raises ValueError
      when `x` is absent; the only call (models.py:193) passes an element just found in the
      list, so the branch where `x` is absent, which returns the list unchanged, is never
      reached from the model of undo. */
  function RemoveFirst<T(==)>(s: seq<T>, x: T): (r: seq<T>)
    ensures x !in s ==> r == s
    ensures x in s ==> |r| == |s| - 1
  {
    if s == [] then []
    else if s[0] == x then s[1..]
    else [s[0]] + RemoveFirst(s[1..], x)
  }

  /** list.remove(x) takes exactly one occurrence of `x` out of the list. */
  lemma {:induction false} RemoveFirstDropsOne<T>(s: seq<T>, x: T)
    ensures multiset(RemoveFirst(s, x)) == multiset(s) - multiset{x}
  {
    if s != [] {
      assert s == [s[0]] + s[1..];
      if s[0] != x {
        RemoveFirstDropsOne(s[1..], x);
      }
    }
  }

  /** When `k` is the first position holding `x`, list.remove(x) is deletion at `k`. */
  lemma {:induction false} RemoveFirstAt<T>(s: seq<T>, x: T, k: nat)
    requires k < |s| && s[k] == x
    requires forall m :: 0 <= m < k ==> s[m] != x
    ensures RemoveFirst(s, x) == s[..k] + s[k + 1..]
  {
    if k > 0 {
      var t := s[1..];
      assert s[0] != x;
      assert RemoveFirst(s, x) == [s[0]] + RemoveFirst(t, x);
      assert forall m :: 0 <= m < k - 1 ==> t[m] == s[m + 1];
      RemoveFirstAt(t, x, k - 1);
      assert t[..k - 1] == s[1..k] && t[k..] == s[k + 1..];
      assert [s[0]] + s[1..k] == s[..k];
    }
  }

  /** Parks `v` in the empty slot `i` and pushes ("masuk", i). */
  function Park(st: Snapshot, i: nat, v: Vehicle): (r: Snapshot)
    requires i < |st.slots|
    ensures WellFormed(st) ==> WellFormed(r)
  {
    st.(slots := st.slots[i := Some(v)], undo := st.undo + [ParkedAt(i)])
  }

  /** Appends `e` to the waiting queue and pushes ("antrian", plat, jenis). */
  function Enqueue(st: Snapshot, e: QueueEntry): (r: Snapshot)
    ensures WellFormed(st) ==> WellFormed(r)
  {
    st.(queue := st.queue + [e], undo := st.undo + [Enqueued(e.plate, e.kind)])
  }

  /** masuk once the plate is validated: a registered plate is refused, otherwise the vehicle
      takes the lowest free slot or, when every slot is taken, joins the queue. */
  function Admit(st: Snapshot, plate: string, kind: string, now: int): (r: (Snapshot, CheckInResult))
    ensures |r.0.slots| == |st.slots| && r.0.history == st.history
    ensures WellFormed(st) ==> WellFormed(r.0)
    ensures r.1 == Duplicate <==> Registered(st, plate)
    ensures r.1 == Duplicate ==> r.0 == st
    ensures r.1 != Duplicate ==> |r.0.undo| == |st.undo| + 1 && r.0.undo[..|st.undo|] == st.undo
    ensures r.1 != InvalidFormat
  {
    if Registered(st, plate) then (st, Duplicate)
    else
      var i := FirstFree(st.slots);
      if i < |st.slots| then (Park(st, i, Vehicle(plate, kind, now)), Parked)
      else (Enqueue(st, QueueEntry(plate, kind)), Queued)
  }

  /** masuk(plat, jenis) at time `now`: the new state and the reported outcome. */
  function CheckInStep(st: Snapshot, raw: string, kind: string, now: int): (r: (Snapshot, CheckInResult))
    ensures |r.0.slots| == |st.slots| && r.0.history == st.history
    ensures WellFormed(st) ==> WellFormed(r.0)
    ensures r.1 == InvalidFormat <==> ValidatePlate(raw).None?
    ensures r.1 == Duplicate <==> ValidatePlate(raw).Some? && Registered(st, ValidatePlate(raw).value)
    ensures r.1 == InvalidFormat || r.1 == Duplicate ==> r.0 == st
    ensures r.1 == Parked || r.1 == Queued ==> |r.0.undo| == |st.undo| + 1
    ensures |st.undo| <= |r.0.undo| <= |st.undo| + 1 && r.0.undo[..|st.undo|] == st.undo
  {
    match ValidatePlate(raw)
    case None => (st, InvalidFormat)
    case Some(plate) => Admit(st, plate, kind, now)
  }

  /** The history record keluar appends for `v` leaving at `now`. */
  function Departure(v: Vehicle, now: int): (rec: HistoryRecord)
    ensures rec.plate == v.plate && rec.kind == v.kind && rec.checkIn == v.checkIn
    ensures rec.checkOut == now
    ensures rec.seconds == rec.checkOut - rec.checkIn
    ensures rec.fee == ComputeFee(rec.seconds / 60) && rec.fee >= BaseFee
  {
    var seconds := now - v.checkIn;
    HistoryRecord(v.plate, v.kind, v.checkIn, now, seconds, FeeForDuration(seconds))
  }

  /** The first half of keluar: record the departure, push ("keluar", index, kendaraan) and
      empty the slot. */
  function Release(st: Snapshot, index: nat, v: Vehicle, now: int): (r: Snapshot)
    requires index < |st.slots|
    ensures WellFormed(st) ==> WellFormed(r)
  {
    st.(slots := st.slots[index := None], history := st.history + [Departure(v, now)],
        undo := st.undo + [Released(index, v)])
  }

  /** The second half of keluar: the queue head, if any, leaves the queue and is checked in
      again through masuk. */
  function Promote(st: Snapshot, now: int): (r: Snapshot)
    ensures |r.slots| == |st.slots| && r.history == st.history
    ensures WellFormed(st) ==> WellFormed(r)
    ensures |st.undo| <= |r.undo| <= |st.undo| + 1 && r.undo[..|st.undo|] == st.undo
  {
    if st.queue == [] then st
    else
      var head := st.queue[0];
      CheckInStep(st.(queue := st.queue[1..]), head.plate, head.kind, now).0
  }

  /** keluar(index) at time `now`: the new state and the reported outcome. */
  function CheckOutStep(st: Snapshot, index: nat, now: int): (r: (Snapshot, CheckOutResult))
    requires index < |st.slots|
    ensures |r.0.slots| == |st.slots|
    ensures WellFormed(st) ==> WellFormed(r.0)
    ensures r.1 == NotOccupied <==> st.slots[index].None?
    ensures r.1 == NotOccupied ==> r.0 == st
    ensures r.1.Charged? ==>
      var v := st.slots[index].value;
      && r.1.fee == ComputeFee((now - v.checkIn) / 60) && r.1.fee >= BaseFee
      && r.0.history == st.history + [HistoryRecord(v.plate, v.kind, v.checkIn, now, now - v.checkIn, r.1.fee)]
      && |st.undo| + 1 <= |r.0.undo| <= |st.undo| + 2
      && r.0.undo[|st.undo|] == Released(index, v)
      && r.0.undo[..|st.undo|] == st.undo
    ensures r.1.Charged? && st.queue == [] ==> r.0 == Release(st, index, st.slots[index].value, now)
  {
    match st.slots[index]
    case None => (st, NotOccupied)
    case Some(v) =>
      var released := Release(st, index, v, now);
      var r := Promote(released, now);
      assert r.undo[..|st.undo|] == released.undo[..|released.undo|][..|st.undo|];
      (r, Charged(Departure(v, now).fee))
  }

  /** The queue search of undo: removes the first entry with `plate`, if there is one. */
  function Unqueue(queue: seq<QueueEntry>, plate: string): (q: seq<QueueEntry>)
    ensures !InQueue(queue, plate) ==> q == queue
    ensures InQueue(queue, plate) ==> |q| == |queue| - 1
  {
    var k := FirstQueued(queue, plate);
    if k < |queue| then queue[..k] + queue[k + 1..] else queue
  }

  /** The reversed history scan of undo: list.remove of the most recent record with `plate`,
      which drops the first record EQUAL to it. */
  function Unrecord(history: seq<HistoryRecord>, plate: string): (h: seq<HistoryRecord>)
    ensures LastWithPlate(history, plate).None? ==> h == history
    ensures LastWithPlate(history, plate).Some? ==>
      var j := LastWithPlate(history, plate).value;
      |h| == |history| - 1 && multiset(h) == multiset(history) - multiset{history[j]}
  {
    match LastWithPlate(history, plate)
    case None => history
    case Some(j) =>
      RemoveFirstDropsOne(history, history[j]);
      RemoveFirst(history, history[j])
  }

  /** The inverse undo applies for one popped action. */
  function Revert(st: Snapshot, a: UndoAction): (r: Snapshot)
    requires Fits(a, |st.slots|)
    ensures |r.slots| == |st.slots| && r.undo == st.undo
  {
    match a
    case ParkedAt(i) => st.(slots := st.slots[i := None])
    case Enqueued(plate, _) => st.(queue := Unqueue(st.queue, plate))
    case Released(i, v) => st.(slots := st.slots[i := Some(v)], history := Unrecord(st.history, v.plate))
  }

  /** undo(): pops the last action and applies its inverse; false when the stack is empty. */
  function UndoStep(st: Snapshot): (r: (Snapshot, bool))
    requires WellFormed(st)
    ensures |r.0.slots| == |st.slots| && WellFormed(r.0)
    ensures r.1 <==> st.undo != []
    ensures !r.1 ==> r.0 == st
    ensures r.1 ==> r.0.undo == st.undo[..|st.undo| - 1]
  {
    if st.undo == [] then (st, false)
    else
      var top := st.undo[|st.undo| - 1];
      assert Fits(top, |st.slots|);
      (Revert(st.(undo := st.undo[..|st.undo| - 1]), top), true)
  }
}
