# ParkFlow parking engine in Dafny

This project models the engine of ParkFlow, a parking counter for motorcycles, as `ParkFlowSystem` in
`models.py`. The engine owns a fixed number of slots, each either empty or holding a vehicle
(`Kendaraan`: plate, type, check-in time). Arrivals that find every slot taken wait in a FIFO queue
(`antrian`). Every completed stay is appended to a history (`riwayat`), and an undo stack records each
action so that the most recent one can be reverted. The engine has three entry points:

- `masuk` (check-in) validates and normalises the plate and rejects duplicates. It then parks the
  vehicle in the lowest-index free slot, or queues it when every slot is taken.
- `keluar` (check-out) bills the stay with the hour-ceiling fee schedule (`hitung_biaya`) and appends a
  history record. It also pushes an undo record, frees the slot and runs check-in again for the queue head.
- `undo` pops one action and applies its inverse.

Files:

- `options.dfy`: the `Option` type.
- `plates.dfy` (module `Plates`): `validasi_plat`, with `str.upper`, `str.strip`, `isalpha` and
  `isdigit` written out on ASCII.
- `billing.dfy` (module `Billing`): `hitung_biaya` and the fee of a stay given in seconds.
- `parking_spec.dfy` (module `ParkingSpec`): the records as datatypes, plus the three operations as pure
  transitions `CheckInStep`, `CheckOutStep` and `UndoStep`. Each transition maps a `Snapshot` of slots,
  queue, history and undo stack to the next snapshot and the reported result. They are built from
  smaller steps: `Admit` (check-in after validation), `Park`, `Enqueue`, `Release` (the first half of
  check-out), `Promote` (the second half) and `Revert` (undo of one action).
- `parking.dfy` (module `Parking`): the class `ParkFlowSystem`. It holds an `array` of slots and `seq`
  fields for the queue, history and undo stack, updated in place. Each method is proved to perform the
  transition of the same name. Its search loops (`plat_sudah_ada`, the free-slot scan, the queue
  search and the reversed history scan of `undo`) are loops with invariants.
- `parking_properties.dfy` (module `ParkingProperties`): what the transitions promise. This covers
  lowest-slot allocation, FIFO promotion, undo as the exact inverse of a check-in or a plain
  check-out, and the three places where undo is not an inverse. It also proves that check-in and
  check-out keep every plate registered at most once.

Modelling decisions:

- The clock is a parameter. Every operation that reads `datetime.now()` takes `now`, in whole seconds.
  The stay is `now - checkIn` seconds, and minutes are `seconds / 60` rounded down, as `// 60` does. The
  promoted queue head is checked in with the same `now` as the check-out that freed its slot.
- `masuk` returns `True` only when it parks. The queued case returns a message string, modelled as
  `Queued`. The two rejections are `InvalidFormat` and `Duplicate`.
- `keluar` returns the fee or `False`, modelled as `Charged(fee)` or `NotOccupied`. `undo` returns a
  `bool`.
- Undoing a check-out first finds the most recent history record with the plate. It then calls
  `riwayat.remove(r)`, which deletes the FIRST record equal to `r`. The model does the same
  (`RemoveFirst`). `UndoRemovesMostRecentRecord` shows that this deletes the most recent record
  whenever no older record is identical to it. That is always so when the clock has moved on
  between check-outs.
- Where the docstrings of `models.py` and its code differ, the code is followed:
  - The docstring of `keluar` (models.py:128) says the queue head moves into the freed slot. The
    code calls `masuk`, which takes the lowest free slot, and that can lie below the freed one
    (`PromotionMayUseLowerSlot`).
  - A check-out that promotes the queue head pushes two actions, Released and then ParkedAt
    (`CheckOutPromotesHead`). One undo then reverts only the promotion.
  - When undo of a check-out finds no history record with the plate (models.py:191-194), it
    silently carries on, and so does `UndoStep`.

## Model

| member | source | states |
|---|---|---|
| `Plates.UpperChar` | models.py:49 | upper-casing leaves no lower-case letter, changes only lower-case letters, and keeps letters, digits and blanks in their class |
| `Plates.UpperAt` | models.py:49 | upper-casing a string keeps its length and upper-cases each character on its own |
| `Plates.StripLeftSpec` | models.py:49 | left-stripping leaves a suffix of the input with no leading blank, and everything dropped is blank |
| `Plates.StripRightSpec` | models.py:49 | right-stripping leaves a prefix of the input with no trailing blank, and everything dropped is blank |
| `Plates.StripSpec` | models.py:49 | stripping leaves no blank at either end and is the input with only blanks cut from both ends |
| `Plates.Upper` | models.py:49 | upper-casing keeps the length of the string |
| `Plates.Strip` | models.py:49 | the stripped string is no longer than the input and has no blank at either end |
| `Plates.Normalize` | models.py:49 | the normal form (upper-case, then strip) is no longer than the input and has no outer blank |
| `Plates.ValidatePlate` | models.py:42-62 | a plate is accepted exactly when its upper-cased, trimmed form has length at least 2, a letter first, a digit and a letter; the result is then that form |
| `Plates.ValidatePlateSpec` | models.py:49-62 | an accepted plate has no lower-case letter and no outer blank, and meets the rules |
| `Plates.UpperHasNoLowerCase` | models.py:49 | no upper-cased or normalised plate contains a lower-case letter |
| `Plates.UpperFixesUpperCase` | models.py:49 | upper-casing leaves a string without lower-case letters unchanged |
| `Plates.StripFixesTrimmed` | models.py:49 | stripping leaves a string with no blank end unchanged |
| `Plates.NormalizeIdempotent` | models.py:49 | normalising twice is the same as normalising once |
| `Plates.NormalPlateIsFixedPoint` | models.py:49-62 | validation maps a plate to itself exactly when it meets the rules, is upper-case and has no outer blank, so check-in of a queued plate sees the same plate |
| `Plates.ValidateIgnoresCase` | models.py:49 | validation gives the same answer for a plate and its upper-case form |
| `Plates.RejectedPlateExamples` | models.py:51-60 | "1", "AB" and "12AB" are rejected |
| `Plates.UpperExample` | models.py:49 | " b12a" followed by a tab upper-cases to " B12A" followed by a tab |
| `Plates.StripExample` | models.py:49 | " B12A" followed by a tab strips to "B12A" |
| `Plates.AcceptedPlateExample` | models.py:49-62 | " b12a" followed by a tab is accepted as "B12A" |
| `Billing.BilledHours` | models.py:118 | (minutes + 59) // 60 is the ceiling of minutes / 60 |
| `Billing.ComputeFee` | models.py:113-121 | the fee is at least 2000 and a multiple of 1000 above it; it is 2000 up to 60 minutes, and otherwise 2000 plus 1000 for every started hour after the first |
| `Billing.FeeForDuration` | models.py:137-139 | a stay of any length costs at least 2000, and a stay under 61 minutes costs exactly 2000 |
| `Billing.FeeMonotone` | models.py:118-121 | a longer stay never costs less |
| `Billing.FeeExamples` | models.py:118-121 | 0, 30 and 60 minutes cost 2000, 61 minutes cost 3000 and 125 minutes cost 4000 |
| `ParkingSpec.FirstFree` | models.py:99-100 | the result is the lowest index of an empty slot, or the slot count when none is empty |
| `ParkingSpec.FirstQueued` | models.py:180-181 | the result is the position of the first queue entry with the plate, or the queue length when there is none |
| `ParkingSpec.LastWithPlate` | models.py:191-192 | the result is the position of the most recent history record with the plate, or None when there is none |
| `ParkingSpec.RemoveFirst` | models.py:193 | list.remove shortens the list by one when the value is present; Python raises ValueError for an absent value, but the only call site passes an element of the list, so the model's unchanged-list branch for that case is never reached |
| `ParkingSpec.RemoveFirstDropsOne` | models.py:193 | list.remove takes exactly one copy of the value out of the list (multiset minus one) |
| `ParkingSpec.RemoveFirstAt` | models.py:193 | when k is the first position of the value, list.remove is deletion at k |
| `ParkingSpec.Park` | models.py:102-105 | parking keeps every slot index on the undo stack in range |
| `ParkingSpec.Enqueue` | models.py:109-110 | queueing keeps every slot index on the undo stack in range |
| `ParkingSpec.Admit` | models.py:94-111 | after validation, Duplicate exactly for a registered plate, with no change; otherwise exactly one undo action is pushed on the old stack; history and slot count never change |
| `ParkingSpec.CheckInStep` | models.py:80-111 | InvalidFormat exactly for a malformed plate and Duplicate exactly for a registered one, and both leave the state unchanged; success pushes one undo action; history and slot count never change |
| `ParkingSpec.Registered` | models.py:64-78 | the definition of plat_sudah_ada: a plate is registered when some slot holds a vehicle with it or some queue entry carries it; history is not consulted, so a plate that has left may check in again |
| `ParkingSpec.Departure` | models.py:141-148 | the history record of a departure carries the vehicle's plate, type and check-in time, the check-out time `now`, the duration as check-out minus check-in, and the fee of the schedule on the whole minutes, at least 2000 |
| `ParkingSpec.Release` | models.py:141-152 | releasing a slot keeps every slot index on the undo stack in range |
| `ParkingSpec.Promote` | models.py:154-157 | promotion keeps the slot count and history, pushes at most one action on top of the old undo stack, and keeps undo indices in range |
| `ParkingSpec.CheckOutStep` | models.py:123-159 | an empty slot gives NotOccupied and no change; otherwise the fee is the schedule's fee on the whole minutes parked (at least 2000), one history record with plate, type, times, duration and fee is appended, and Released(index, vehicle) is pushed on the old stack, followed by at most one action of the promotion; with an empty queue the new state is exactly that of releasing the slot |
| `ParkingProperties.CheckOutWithoutQueue` | models.py:135-152 | with nobody waiting, check-out empties exactly that slot, leaves the queue empty, appends the stay with its fee to the history and pushes Released(index, vehicle) |
| `ParkingSpec.Unqueue` | models.py:177-183 | the queue loses one entry when some entry has the plate, and is unchanged otherwise |
| `ParkingSpec.Unrecord` | models.py:190-194 | with no record of the plate the history is unchanged; otherwise one copy of its most recent record is removed (multiset minus one) |
| `ParkingSpec.Revert` | models.py:172-194 | reverting one action keeps the slot count and the undo stack |
| `ParkingSpec.UndoStep` | models.py:161-196 | false with no change on an empty stack, otherwise true with exactly the top action popped |
| `ParkingProperties.AdmitParksLowest` | models.py:98-106 | an unregistered plate with a free slot is parked in the lowest-index empty slot |
| `ParkingProperties.AdmitQueuesAtTail` | models.py:108-111 | an unregistered plate that finds every slot taken is queued at the tail |
| `ParkingProperties.CheckInParksLowest` | models.py:98-106 | a valid new plate with a free slot is parked in the lowest-index empty slot; no other slot, the queue or the history changes, and ParkedAt of that slot is pushed |
| `ParkingProperties.CheckInQueuesAtTail` | models.py:108-111 | a valid new plate with every slot full is appended to the queue tail with Queued as the result; slots and history are unchanged and Enqueued(plate, type) is pushed |
| `ParkingProperties.UndoPark` | models.py:172-175 | undo right after parking in an empty slot restores the previous state |
| `ParkingProperties.UndoEnqueue` | models.py:177-183 | undo right after queueing a plate the queue did not hold restores the previous state |
| `ParkingProperties.UndoRelease` | models.py:185-194 | undo right after releasing a slot restores the previous state, provided the clock has moved past every recorded check-out |
| `ParkingProperties.UndoReversesCheckIn` | models.py:172-183 | undo right after a successful check-in, parked or queued, restores the previous state exactly |
| `ParkingProperties.DequeueAppended` | models.py:180-183 | removing the first queue entry of a plate that was absent before its append removes the appended entry |
| `ParkingProperties.UndoReversesCheckOut` | models.py:185-194 | undo right after a check-out with an empty queue restores the previous state, provided the clock has moved past every recorded check-out |
| `ParkingProperties.RemoveAppendedRecord` | models.py:191-194 | the history search finds a freshly appended record, and list.remove deletes exactly that record |
| `ParkingProperties.CheckOutPromotesHead` | models.py:149-157 | with a queue, check-out moves the queue head (FIFO) into the lowest free slot, which is at or below the freed slot; it pushes Released then ParkedAt and charges the schedule's fee |
| `ParkingProperties.HeadIsNotRegisteredElsewhere` | models.py:155-157 | the dequeued head's plate is a normal plate registered in no slot and nowhere else in the queue, so its check-in succeeds |
| `ParkingProperties.UndoInverses` | models.py:172-194 | undo of ParkedAt clears the slot; undo of Enqueued deletes the first queue entry with that plate, if any; undo of Released writes the saved vehicle over the slot whatever occupies it and drops one copy of the most recent record with its plate |
| `ParkingProperties.UndoRemovesMostRecentRecord` | models.py:190-194 | undo of a check-out deletes the most recent record with the plate whenever no older record is identical to it |
| `ParkingProperties.UndoPromotion` | models.py:155-157 | the first undo after a promoting check-out only clears the promoted vehicle's slot |
| `ParkingProperties.UndoingPromotionLosesHead` | models.py:172-194 | two undos after a promoting check-out restore everything except the queue head, which is lost: it is neither in a slot nor back in the queue |
| `ParkingProperties.AdmitPreservesConsistent` | models.py:94-111 | admitting a normal plate, refused, parked or queued, keeps every stored plate normal and registered at most once |
| `ParkingProperties.CheckInPreservesConsistent` | models.py:89-111 | check-in keeps every stored plate valid and normalised, with no plate in two slots, twice in the queue, or in both |
| `ParkingProperties.ParkingKeepsConsistent` | models.py:102-105 | parking a new valid plate in an empty slot keeps that invariant |
| `ParkingProperties.QueueingKeepsConsistent` | models.py:109-110 | queueing a new valid plate keeps that invariant |
| `ParkingProperties.CheckOutPreservesConsistent` | models.py:131-159 | check-out, promotion included, keeps that invariant |
| `ParkingProperties.ReleasingKeepsConsistent` | models.py:149-152 | freeing a slot keeps that invariant |
| `ParkingProperties.DequeueKeepsConsistent` | models.py:156 | popping the queue head keeps that invariant |
| `ParkingProperties.PromotionMayUseLowerSlot` | models.py:155-157 | the promoted head need not go to the freed slot: when a lower slot is empty, the head is parked in the lowest empty slot and the freed slot stays empty |
| `Parking.ParkFlowSystem.constructor` | models.py:30-40 | a fresh slot array of the given capacity with every slot empty, and an empty queue, history and undo stack |
| `Parking.ParkFlowSystem.PlateRegistered` | models.py:64-78 | true exactly when some slot holds a vehicle with the plate or some queue entry carries it |
| `Parking.ParkFlowSystem.FreeSlot` | models.py:99-100 | the lowest index of an empty slot, or the capacity when all are taken |
| `Parking.ParkFlowSystem.CheckIn` | models.py:80-111 | the new slots, queue, history and undo stack and the result are those of CheckInStep |
| `Parking.ParkFlowSystem.AdmitPlate` | models.py:94-111 | the new state and the result are those of Admit |
| `Parking.ParkFlowSystem.CheckOut` | models.py:123-159 | the new state and the result are those of CheckOutStep |
| `Parking.ParkFlowSystem.QueuePosition` | models.py:180-181 | the position of the first queue entry with the plate, or the queue length |
| `Parking.ParkFlowSystem.LastRecordOf` | models.py:191-192 | the position of the most recent history record with the plate, or None when no record has it |
| `Parking.ParkFlowSystem.Undo` | models.py:161-196 | the new state and the result are those of UndoStep |

## Left out

- gui.py is not part of this model. It holds the Tkinter windows, list rendering and message boxes,
  and the form's own duplicate check that reads the rendered rows.
- utils.py is not part of this model. Its `hanya_alnum` only wraps `str.isalnum` as a key filter.
- ParkFlow_Final.py is not part of this model. It only launches the window.
- Wall-clock reads and float seconds: time is an integer number of seconds passed by the caller, so
  sub-second durations are not represented.
- Python's Unicode behaviour of `upper`, `strip`, `isalpha` and `isdigit`. Only ASCII is modelled, so
  letters such as `é` or `ß`, and non-ASCII blanks, are treated as other characters.
- Python's negative and out-of-range indexing in `keluar`: `CheckOut` and `CheckOutStep` require
  `index < capacity`.
- `Kendaraan` is a Python object shared between its slot and the undo record. It is modelled as a value
  because nothing changes it after creation.
- `ParkingProperties.CheckInPreservesConsistent` and `ParkingProperties.CheckOutPreservesConsistent`
  cover check-in and check-out only. That undo also keeps a plate registered at most once is not
  proved: undo of a check-out overwrites a slot, and the proof would need an invariant tying the
  undo stack to the past states.
- `ParkingSpec.RemoveFirst`: for an absent value Python's `list.remove` raises ValueError, while the
  model returns the list unchanged. The only call site (models.py:193) passes an element just
  found in the history, so this case never arises from undo and the exception is not modelled.
