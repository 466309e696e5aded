/**
 * The read model of participant slots: one row per ledger entity, kept while
 * that entity's latest event is a booking or a mark, removed otherwise.
 */
module ParticipantSlotsView {
  import opened Domain
  import ParticipantSlot

  datatype SlotRow = SlotRow(slotId: string, participantId: string, participantType: string,
                             bookingId: string, status: string)

  datatype ParticipantStatusInput = ParticipantStatusInput(participantId: string, status: string)

  /** What the updater asks of the table for the row of the event's entity. */
  datatype RowEffect = UpdateRow(row: SlotRow) | DeleteRow

  /** The table, keyed by the id of the ledger entity that emitted the event. */
  type Table = map<string, SlotRow>

  /** Bookings and marks upsert the entity's row; cancellations and unmarks delete it. */
  function UpdaterEffect(event: ParticipantSlot.Event): (effect: RowEffect)
    ensures effect.UpdateRow? <==> event.Booked? || event.MarkedAvailable?
    ensures effect.UpdateRow? ==>
              && effect.row.slotId == event.slotId
              && effect.row.participantId == event.participantId
              && effect.row.participantType == TypeName(event.participantType)
    ensures event.Booked? ==> effect.UpdateRow? && effect.row.bookingId == event.bookingId &&
                              effect.row.status == ParticipantSlot.StatusBooked
    ensures event.MarkedAvailable? ==> effect.UpdateRow? && effect.row.bookingId == "" &&
                                       effect.row.status == ParticipantSlot.StatusAvailable
  {
    match event
    case Booked(slotId, participantId, participantType, bookingId) =>
      UpdateRow(SlotRow(slotId, participantId, TypeName(participantType), bookingId, ParticipantSlot.StatusBooked))
    case MarkedAvailable(slotId, participantId, participantType) =>
      UpdateRow(SlotRow(slotId, participantId, TypeName(participantType), "", ParticipantSlot.StatusAvailable))
    case Canceled(_, _, _, _) => DeleteRow
    case UnmarkedAvailable(_, _, _) => DeleteRow
  }

  /** The table after the updater handles one event of entity `entityId`. */
  function Project(table: Table, entityId: string, event: ParticipantSlot.Event): (next: Table)
    ensures entityId in next <==> event.Booked? || event.MarkedAvailable?
    ensures entityId in next ==> next[entityId] == UpdaterEffect(event).row
    ensures forall k :: k != entityId ==> (k in next <==> k in table)
    ensures forall k :: k != entityId && k in next ==> next[k] == table[k]
  {
    match UpdaterEffect(event)
    case UpdateRow(row) => table[entityId := row]
    case DeleteRow => table - {entityId}
  }

  /** The table after the updater handles a run of one entity's events. */
  function ProjectAll(table: Table, entityId: string, log: seq<ParticipantSlot.Event>): Table
    decreases |log|
  {
    if log == [] then table
    else ProjectAll(Project(table, entityId, log[0]), entityId, log[1..])
  }

  /** Every row the table stores is an active one. */
  ghost predicate OnlyActiveRows(table: Table) {
    forall k :: k in table ==>
      table[k].status == ParticipantSlot.StatusBooked || table[k].status == ParticipantSlot.StatusAvailable
  }

  /** The stored rows whose participant id and status equal the input's. */
  function GetSlotsByParticipantAndStatus(table: Table, input: ParticipantStatusInput): (slots: Table)
    ensures forall k :: k in slots <==>
                          k in table && table[k].participantId == input.participantId &&
                          table[k].status == input.status
    ensures forall k :: k in slots ==> slots[k] == table[k]
  {
    map k | k in table && table[k].participantId == input.participantId && table[k].status == input.status
      :: table[k]
  }

  // ---------------------------------------------------------------------
  // Properties of the projection

  /** Handling the same event twice yields the table handling it once does. */
  lemma ProjectIsIdempotent(table: Table, entityId: string, event: ParticipantSlot.Event)
    ensures Project(Project(table, entityId, event), entityId, event) == Project(table, entityId, event)
  {
  }

  /** Handling any events keeps the table free of inactive rows. */
  lemma {:induction false} ProjectAllKeepsOnlyActiveRows(table: Table, entityId: string, log: seq<ParticipantSlot.Event>)
    requires OnlyActiveRows(table)
    ensures OnlyActiveRows(ProjectAll(table, entityId, log))
    decreases |log|
  {
    if log != [] {
      ProjectAllKeepsOnlyActiveRows(Project(table, entityId, log[0]), entityId, log[1..]);
    }
  }

  /** Once an entity has events, its row is decided by its last event alone; other rows are untouched. */
  lemma {:induction false} ProjectAllLastWriteWins(table: Table, entityId: string, log: seq<ParticipantSlot.Event>)
    requires log != []
    ensures var next := ProjectAll(table, entityId, log);
            && (entityId in next <==> UpdaterEffect(log[|log| - 1]).UpdateRow?)
            && (entityId in next ==> next[entityId] == UpdaterEffect(log[|log| - 1]).row)
            && (forall k :: k != entityId ==> (k in next <==> k in table))
            && (forall k :: k != entityId && k in next ==> next[k] == table[k])
    decreases |log|
  {
    if |log| > 1 {
      ProjectAllLastWriteWins(Project(table, entityId, log[0]), entityId, log[1..]);
    }
  }

  /** An entity's row mirrors its ledger: present exactly when the ledger is available or booked, with the same fields. */
  lemma RowMirrorsLedger(table: Table, entityId: string, log: seq<ParticipantSlot.Event>)
    requires log != []
    ensures var next, ledger := ProjectAll(table, entityId, log), ParticipantSlot.Replay(log).value;
            && (entityId in next <==>
                  ledger.status == ParticipantSlot.StatusAvailable || ledger.status == ParticipantSlot.StatusBooked)
            && (entityId in next ==>
                  && next[entityId].slotId == ledger.slotId
                  && next[entityId].participantId == ledger.participantId
                  && next[entityId].participantType == TypeName(ledger.participantType)
                  && next[entityId].status == ledger.status)
    ensures var next, ledger := ProjectAll(table, entityId, log), ParticipantSlot.Replay(log).value;
            entityId in next ==>
              forall t :: TypeName(t) == next[entityId].participantType ==> t == ledger.participantType
  {
    ProjectAllLastWriteWins(table, entityId, log);
    ParticipantSlot.LastWriteWins(None, log, None);
    var next, ledger := ProjectAll(table, entityId, log), ParticipantSlot.Replay(log).value;
    if entityId in next {
      forall t | TypeName(t) == next[entityId].participantType ensures t == ledger.participantType {
        TypeNameInjective(t, ledger.participantType);
      }
    }
  }

  /** After one entity's mark and unmark, a query sees that entity's row nowhere and every other row as before. */
  lemma MarkThenUnmarkRemovesRow(table: Table, entityId: string, marked: ParticipantSlot.Event,
                                 unmarked: ParticipantSlot.Event, input: ParticipantStatusInput)
    requires marked.MarkedAvailable? && unmarked.UnmarkedAvailable?
    ensures var after := Project(Project(table, entityId, marked), entityId, unmarked);
            GetSlotsByParticipantAndStatus(after, input) == GetSlotsByParticipantAndStatus(table, input) - {entityId}
  {
  }

  /** For a participant with no rows elsewhere, mark then unmark leaves its "available" query empty. */
  lemma MarkThenUnmarkLeavesNoAvailableSlots(table: Table, entityId: string, marked: ParticipantSlot.Event,
                                             unmarked: ParticipantSlot.Event)
    requires marked.MarkedAvailable? && unmarked.UnmarkedAvailable?
    requires forall k :: k in table && k != entityId ==> table[k].participantId != marked.participantId
    ensures var after := ProjectAll(table, entityId, [marked, unmarked]);
            GetSlotsByParticipantAndStatus(after, ParticipantStatusInput(marked.participantId, ParticipantSlot.StatusAvailable)) == map[]
  {
    var input := ParticipantStatusInput(marked.participantId, ParticipantSlot.StatusAvailable);
    ProjectAllLastWriteWins(table, entityId, [marked, unmarked]);
    var after := ProjectAll(table, entityId, [marked, unmarked]);
    assert GetSlotsByParticipantAndStatus(after, input).Keys == {};
  }

  // ---------------------------------------------------------------------
  // The table updater

  /** The `participant_slots` table as the updater changes it in place. */
  class ParticipantSlotsViewUpdater {
    var rows: Table

    ghost predicate Valid()
      reads this
    {
      OnlyActiveRows(rows)
    }

    constructor ()
      ensures Valid() && rows == map[]
    {
      rows := map[];
    }

    method OnEvent(entityId: string, event: ParticipantSlot.Event)
      requires Valid()
      modifies this
      ensures Valid()
      ensures rows == Project(old(rows), entityId, event)
    {
      match UpdaterEffect(event)
      case UpdateRow(row) =>
        rows := rows[entityId := row];
      case DeleteRow =>
        rows := rows - {entityId};
    }
  }
}
