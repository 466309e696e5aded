# Slot booking: event-sourced aggregate, participant ledger and read model

This project models the booking core of a flight-training scheduler in Dafny.
It covers three keyed, event-sourced components and proves properties of each:

- **Slot aggregate** (`BookingSlot`). This is the authoritative state of one timeslot: a set of available participants, each an (id, role) pair, and a set of bookings.
  - A participant can be marked available only if absent, and unmarked only if present.
  - Each accepted command appends one event to the slot's log. The state is always the replay of that log.
  - Booking, cancelling and the slot snapshot are stubs in this version of the code. They always reply "not yet implemented" and persist nothing.
- **Participant ledger** (`ParticipantSlot`). This is the per-(slot, participant) mirror.
  - Every command is accepted and persists one event that copies its payload.
  - Applying an event builds a fresh state whose status string is fixed by the event's kind. Replay is therefore last-write-wins. A duplicate delivered straight after its original does no harm; a duplicate that arrives after a later event replaces that event's state.
- **Read model** (`ParticipantSlotsView`). This is the `participant_slots` table, keyed by the ledger entity that emitted each event.
  - Bookings and marks upsert that entity's row; cancellations and unmarks delete it.
  - The query selects rows by participant id and status.

The framework's persist-then-reply plumbing becomes an `Effect` value: a reply plus the events to append. `Domain.PersistThenDone` is the `Effect` form of persisting one event and replying Done, and `Domain.Reject` is the `Effect` form of an error reply, which persists nothing. The slot entity, whose `Timeslot` sets `reserve`/`unreserve` change, and the view updater, which changes the `participant_slots` table in place, are classes. The ledger's handlers and `applyEvent` are pure, so the ledger is functions plus a fold. `BookingSlotEntity` keeps its `available`/`bookings` fields equal to the replay of its `log`, and its `Valid()` also requires every logged event to have passed its guard. `ParticipantSlotsViewUpdater` holds the table as a `map` field. Its `Valid()` is the table invariant that every stored row has status "booked" or "available"; the constructor starts the table empty, which establishes it; `OnEvent` keeps it; no other contract depends on it.

Types the code uses but does not define are modelled minimally:
- `Participant` is an (id, role) record with structural equality.
- `ParticipantType` is an enum of STUDENT, AIRCRAFT and INSTRUCTOR. Its `toString` is the constant's name.
- The element type of `Timeslot.bookings` is `Booking(participant, bookingId)`. No code path changes it.
- `Timeslot.reserve`/`unreserve` are set insert and remove.
- The ledger has no `emptyState` override, so its state before the first event is `None`.

## Model

| member | source | states |
|---|---|---|
| `BookingSlot.EmptyState` | src/main/java/io/example/application/BookingSlotEntity.java:70-76 | a new slot has no available participants and no bookings |
| `BookingSlot.MarkSlotAvailableEffect` | src/main/java/io/example/application/BookingSlotEntity.java:25-38 | rejected with "participant already available" exactly when the participant is present, persisting nothing; otherwise replies Done and persists exactly one marked event for this slot and participant |
| `BookingSlot.UnmarkSlotAvailableEffect` | src/main/java/io/example/application/BookingSlotEntity.java:40-51 | rejected with "participant not available" exactly when the participant is absent, persisting nothing; otherwise replies Done and persists exactly one unmarked event for this slot and participant |
| `BookingSlot.ApplyEvent` | src/main/java/io/example/application/BookingSlotEntity.java:78-85 | after an event, a participant is available iff the event marks it, or it was available and the event does not unmark it; bookings never change |
| `BookingSlot.OtherEventsAreIgnored` | src/main/java/io/example/application/BookingSlotEntity.java:83 | booked and canceled events leave the state unchanged |
| `BookingSlot.FoldEvents` | src/main/java/io/example/application/BookingSlotEntity.java:79-85 | folding events preserves the bookings set |
| `BookingSlot.FoldEventsAppend` | src/main/java/io/example/application/BookingSlotEntity.java:79-85 | replaying a log in two parts equals replaying it whole, so incremental application and full replay agree |
| `BookingSlot.ReplaySnoc` | src/main/java/io/example/application/BookingSlotEntity.java:79-85 | replaying one more event is applying it to the replayed state |
| `BookingSlot.ReplayedBookingsAreEmpty` | src/main/java/io/example/application/BookingSlotEntity.java:79-85 | a replayed slot never has bookings |
| `BookingSlot.RejectionLeavesStateUnchanged` | src/main/java/io/example/application/BookingSlotEntity.java:26-43 | a rejected mark or unmark persists nothing and leaves the state unchanged |
| `BookingSlot.MarkMakesAvailable` | src/main/java/io/example/application/BookingSlotEntity.java:32-37 | marking an absent participant replies Done and afterwards exactly that participant has been added to `available` |
| `BookingSlot.UnmarkMakesUnavailable` | src/main/java/io/example/application/BookingSlotEntity.java:45-50 | unmarking a present participant replies Done and afterwards exactly that participant has been removed from `available` |
| `BookingSlot.MarkThenUnmarkRoundTrip` | src/main/java/io/example/application/BookingSlotEntity.java:25-51 | marking an absent participant and then unmarking it succeeds and restores the original state |
| `BookingSlot.MarkThenUnmarkFromEmpty` | src/test/java/io/example/application/BookingSlotEntityTest.java:51-65 | from the empty slot, mark then unmark of one participant leaves `available` empty |
| `BookingSlot.SecondMarkIsRejected` | src/test/java/io/example/application/BookingSlotEntityTest.java:38-49 | after a mark, marking the same participant again is rejected and persists nothing |
| `BookingSlot.AvailableIsMarkedNotLaterUnmarked` | src/main/java/io/example/application/BookingSlotEntity.java:79-85 | replaying any log makes a participant available iff some mark of it is not followed by an unmark of it |
| `BookingSlot.AvailableCount` | src/main/java/io/example/application/BookingSlotEntity.java:26-50 | in a log produced under the guards, the number of available participants is the number of marks minus the number of unmarks |
| `BookingSlot.DecisionKeepsLogGuarded` | src/main/java/io/example/application/BookingSlotEntity.java:26-50 | appending the events of a mark or unmark decision keeps every logged event consistent with its guard |
| `BookingSlot.BookingSlotEntity.constructor` | src/main/java/io/example/application/BookingSlotEntity.java:21-23 | a new entity has an empty log and the empty state |
| `BookingSlot.BookingSlotEntity.Persist` | src/main/java/io/example/application/BookingSlotEntity.java:37 | persisting appends the event to the log and applies it to the current state |
| `BookingSlot.BookingSlotEntity.MarkSlotAvailable` | src/main/java/io/example/application/BookingSlotEntity.java:25-38 | replies as the mark decision does, appends its events to the log, moves to their fold, and keeps the state equal to the replay of a guarded log |
| `BookingSlot.BookingSlotEntity.UnmarkSlotAvailable` | src/main/java/io/example/application/BookingSlotEntity.java:40-51 | replies as the unmark decision does, appends its events to the log, moves to their fold, and keeps the state equal to the replay of a guarded log |
| `BookingSlot.BookingSlotEntity.BookSlot` | src/main/java/io/example/application/BookingSlotEntity.java:55-57 | always replies "not yet implemented" and changes nothing |
| `BookingSlot.BookingSlotEntity.CancelBooking` | src/main/java/io/example/application/BookingSlotEntity.java:61-64 | always replies "not yet implemented" and changes nothing |
| `BookingSlot.BookingSlotEntity.GetSlot` | src/main/java/io/example/application/BookingSlotEntity.java:66-68 | always replies "not yet implemented" and changes nothing |
| `ParticipantSlot.OnUnmarkAvailable` | src/main/java/io/example/application/ParticipantSlotEntity.java:13-20 | never rejects: replies Done and persists one unmarked event carrying the command's slot, participant and role |
| `ParticipantSlot.OnMarkAvailable` | src/main/java/io/example/application/ParticipantSlotEntity.java:22-29 | never rejects: replies Done and persists one marked event carrying the command's slot, participant and role |
| `ParticipantSlot.OnBook` | src/main/java/io/example/application/ParticipantSlotEntity.java:31-39 | never rejects: replies Done and persists one booked event carrying the command's slot, participant, role and booking id |
| `ParticipantSlot.OnCancel` | src/main/java/io/example/application/ParticipantSlotEntity.java:41-49 | never rejects: replies Done and persists one canceled event carrying the command's slot, participant, role and booking id |
| `ParticipantSlot.Handle` | src/main/java/io/example/application/ParticipantSlotEntity.java:13-49 | whatever the command, Done is replied and exactly one event is persisted: of the kind matching the command (marked, unmarked, booked, canceled), carrying its slot, participant and role, and for Book and Cancel its booking id |
| `ParticipantSlot.ApplyEvent` | src/main/java/io/example/application/ParticipantSlotEntity.java:91-118 | the new state copies slot, participant and role from the event; its status is "available", "UNAVAILABLE", "booked" or "CANCELLED" exactly when the event is marked, unmarked, booked or canceled |
| `ParticipantSlot.Fold` | src/main/java/io/example/application/ParticipantSlotEntity.java:91-118 | replaying no events keeps the state; replaying any events yields a state |
| `ParticipantSlot.ApplyIgnoresPriorState` | src/main/java/io/example/application/ParticipantSlotEntity.java:91-118 | the result of applying an event does not depend on the prior state |
| `ParticipantSlot.ApplyIsIdempotent` | src/main/java/io/example/application/ParticipantSlotEntity.java:91-118 | applying the same event twice equals applying it once |
| `ParticipantSlot.BookingIdIsNotRetained` | src/main/java/io/example/application/ParticipantSlotEntity.java:105-116 | booked (or canceled) events that differ only in booking id give the same state |
| `ParticipantSlot.LastWriteWins` | src/main/java/io/example/application/ParticipantSlotEntity.java:91-118 | folding a non-empty log from any state gives the state of its last event alone |
| `ParticipantSlot.DuplicateEventIsHarmless` | src/main/java/io/example/application/ParticipantSlotEntity.java:91-118 | an event delivered twice in a row anywhere in the log leaves the replayed state as one delivery does |
| `ParticipantSlot.HandledCommandDeterminesState` | src/main/java/io/example/application/ParticipantSlotEntity.java:13-49 | after a command is handled, the state holds the command's slot, participant and role, with the status of the command's kind, whatever came before |
| `ParticipantSlot.LateDuplicateReplacesLaterState` | src/main/java/io/example/application/ParticipantSlotEntity.java:91-118 | a duplicate arriving after later events gives the state its original gave, overwriting theirs |
| `ParticipantSlot.RedeliveryIsIdempotent` | src/main/java/io/example/application/ParticipantSlotEntity.java:13-49 | handling the same command again leaves the state as handling it once did |
| `Domain.TypeNameInjective` | src/main/java/io/example/application/ParticipantSlotsView.java:29 | the modelled enum `toString` gives distinct names to distinct roles, so a row's type string determines its role (used by `RowMirrorsLedger`) |
| `ParticipantSlotsView.UpdaterEffect` | src/main/java/io/example/application/ParticipantSlotsView.java:25-41 | booked and marked events upsert a row with the event's slot, participant and role name; Booked carries its booking id and "booked", MarkedAvailable carries "" and "available"; canceled and unmarked events delete the row |
| `ParticipantSlotsView.Project` | src/main/java/io/example/application/ParticipantSlotsView.java:25-42 | the emitting entity's row is present afterwards iff the event is booked or marked, holding the upserted row; the rows of all other entities are unchanged |
| `ParticipantSlotsView.ProjectIsIdempotent` | src/main/java/io/example/application/ParticipantSlotsView.java:25-42 | handling the same event twice yields the table handling it once does |
| `ParticipantSlotsView.ProjectAllKeepsOnlyActiveRows` | src/main/java/io/example/application/ParticipantSlotsView.java:26-41 | after any events, every stored row has status "booked" or "available" |
| `ParticipantSlotsView.ProjectAllLastWriteWins` | src/main/java/io/example/application/ParticipantSlotsView.java:25-42 | an entity's row is decided by its last event alone, and other entities' rows are unchanged |
| `ParticipantSlotsView.RowMirrorsLedger` | src/main/java/io/example/application/ParticipantSlotsView.java:22-43 | after the same events, an entity's row exists iff its ledger status is "available" or "booked", and the row has the ledger's slot, participant, role name and status; the row's type string gives back exactly the ledger's role |
| `ParticipantSlotsView.GetSlotsByParticipantAndStatus` | src/main/java/io/example/application/ParticipantSlotsView.java:61-64 | returns exactly the stored rows whose participant id and status both equal the input, unchanged |
| `ParticipantSlotsView.MarkThenUnmarkRemovesRow` | src/main/java/io/example/application/ParticipantSlotsView.java:33-41 | after an entity's mark then unmark, every query returns what it returned before, minus that entity's row |
| `ParticipantSlotsView.MarkThenUnmarkLeavesNoAvailableSlots` | src/test/java/io/example/api/FlightEndpointIntegrationTest.java:195-228 | for a participant with no other rows, mark then unmark leaves its "available" query empty |
| `ParticipantSlotsView.ParticipantSlotsViewUpdater.constructor` | src/main/java/io/example/application/ParticipantSlotsView.java:19-20 | the table starts empty, so it holds only active rows |
| `ParticipantSlotsView.ParticipantSlotsViewUpdater.OnEvent` | src/main/java/io/example/application/ParticipantSlotsView.java:22-43 | changes the table in place exactly as `Project` describes and keeps `Valid()`, the table invariant that every stored row is active |

## Left out

- HTTP endpoints, request parsing, participant-type validation and status codes. This is transport outside the modelled components.
- Timing of eventual consistency and polling. Only the final table state is modelled, not delivery or time.
- The entity runtime: the optimistic append, replay machinery and serialisation tags. These become "reply plus the events appended to the log, then fold".
- Logging and the `HashSet` capacity hint. Neither has any effect on the logic.
- Three-event booking and cancellation, restoring participants on cancel, and the slot snapshot. The code replies "not yet implemented" for all of them, so they are modelled exactly as that.
- The forwarding consumer from slot events to ledger commands. It is not part of this model. The ledger and view are verified for any event sequence instead.
- The internals of `Timeslot`, `Participant`, `ParticipantType` and `BookingEvent` play no part in the logic beyond what is described above, so they are modelled minimally.
- The table key. The entity id's format plays no part in the logic, so the key is an opaque string.
- Query result order. `GetSlotsByParticipantAndStatus` returns the matching rows as a map keyed by entity, not as an ordered list.
- The SQL text of the query. It is modelled as a filter over the table.
