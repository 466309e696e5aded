/**
 * The per-(slot, participant) ledger. Every command is accepted and persists
 * one event copying its payload; the state is a function of the last event.
 */
module ParticipantSlot {
  import opened Domain

  const StatusAvailable := "available"
  const StatusUnavailable := "UNAVAILABLE"
  const StatusBooked := "booked"
  const StatusCancelled := "CANCELLED"

  datatype Commands =
    | MarkAvailable(slotId: string, participantId: string, participantType: ParticipantType)
    | UnmarkAvailable(slotId: string, participantId: string, participantType: ParticipantType)
    | Book(slotId: string, participantId: string, participantType: ParticipantType, bookingId: string)
    | Cancel(slotId: string, participantId: string, participantType: ParticipantType, bookingId: string)

  datatype Event =
    | MarkedAvailable(slotId: string, participantId: string, participantType: ParticipantType)
    | UnmarkedAvailable(slotId: string, participantId: string, participantType: ParticipantType)
    | Booked(slotId: string, participantId: string, participantType: ParticipantType, bookingId: string)
    | Canceled(slotId: string, participantId: string, participantType: ParticipantType, bookingId: string)

  /** The ledger's state; it keeps no booking id. */
  datatype State = State(slotId: string, participantId: string, participantType: ParticipantType, status: string)

  /** Whether an event carries the command's slot, participant and role. */
  predicate CarriesPayload(event: Event, cmd: Commands) {
    event.slotId == cmd.slotId && event.participantId == cmd.participantId &&
    event.participantType == cmd.participantType
  }

  // ---------------------------------------------------------------------
  // Command handlers: no guard, one event, reply Done

  function OnUnmarkAvailable(cmd: Commands): (effect: Effect<Done, Event>)
    requires cmd.UnmarkAvailable?
    ensures effect.reply == Ok(Done) && |effect.events| == 1
    ensures effect.events[0].UnmarkedAvailable? && CarriesPayload(effect.events[0], cmd)
  {
    PersistThenDone(UnmarkedAvailable(cmd.slotId, cmd.participantId, cmd.participantType))
  }

  function OnMarkAvailable(cmd: Commands): (effect: Effect<Done, Event>)
    requires cmd.MarkAvailable?
    ensures effect.reply == Ok(Done) && |effect.events| == 1
    ensures effect.events[0].MarkedAvailable? && CarriesPayload(effect.events[0], cmd)
  {
    PersistThenDone(MarkedAvailable(cmd.slotId, cmd.participantId, cmd.participantType))
  }

  function OnBook(cmd: Commands): (effect: Effect<Done, Event>)
    requires cmd.Book?
    ensures effect.reply == Ok(Done) && |effect.events| == 1
    ensures effect.events[0].Booked? && CarriesPayload(effect.events[0], cmd)
    ensures effect.events[0].bookingId == cmd.bookingId
  {
    PersistThenDone(Booked(cmd.slotId, cmd.participantId, cmd.participantType, cmd.bookingId))
  }

  function OnCancel(cmd: Commands): (effect: Effect<Done, Event>)
    requires cmd.Cancel?
    ensures effect.reply == Ok(Done) && |effect.events| == 1
    ensures effect.events[0].Canceled? && CarriesPayload(effect.events[0], cmd)
    ensures effect.events[0].bookingId == cmd.bookingId
  {
    PersistThenDone(Canceled(cmd.slotId, cmd.participantId, cmd.participantType, cmd.bookingId))
  }

  /** Routes a command to the handler for its kind, as the entity runtime does. */
  function Handle(cmd: Commands): (effect: Effect<Done, Event>)
    ensures effect.reply == Ok(Done) && |effect.events| == 1 && CarriesPayload(effect.events[0], cmd)
    ensures && (effect.events[0].MarkedAvailable? <==> cmd.MarkAvailable?)
            && (effect.events[0].UnmarkedAvailable? <==> cmd.UnmarkAvailable?)
            && (effect.events[0].Booked? <==> cmd.Book?)
            && (effect.events[0].Canceled? <==> cmd.Cancel?)
    ensures (cmd.Book? || cmd.Cancel?) ==> effect.events[0].bookingId == cmd.bookingId
  {
    match cmd
    case MarkAvailable(_, _, _) => OnMarkAvailable(cmd)
    case UnmarkAvailable(_, _, _) => OnUnmarkAvailable(cmd)
    case Book(_, _, _, _) => OnBook(cmd)
    case Cancel(_, _, _, _) => OnCancel(cmd)
  }

  // ---------------------------------------------------------------------
  // Event application and replay

  /** A fresh state from the event alone; the status names the event's kind. */
  function ApplyEvent(state: Option<State>, event: Event): (next: State)
    ensures next.slotId == event.slotId && next.participantId == event.participantId
    ensures next.participantType == event.participantType
    ensures next.status == StatusAvailable <==> event.MarkedAvailable?
    ensures next.status == StatusUnavailable <==> event.UnmarkedAvailable?
    ensures next.status == StatusBooked <==> event.Booked?
    ensures next.status == StatusCancelled <==> event.Canceled?
  {
    match event
    case MarkedAvailable(slotId, participantId, participantType) =>
      State(slotId, participantId, participantType, StatusAvailable)
    case UnmarkedAvailable(slotId, participantId, participantType) =>
      State(slotId, participantId, participantType, StatusUnavailable)
    case Booked(slotId, participantId, participantType, _) =>
      State(slotId, participantId, participantType, StatusBooked)
    case Canceled(slotId, participantId, participantType, _) =>
      State(slotId, participantId, participantType, StatusCancelled)
  }

  /** Applying events in log order; no state exists before the first event. */
  function Fold(state: Option<State>, log: seq<Event>): (last: Option<State>)
    ensures log == [] ==> last == state
    ensures log != [] ==> last.Some?
    decreases |log|
  {
    if log == [] then state
    else Fold(Some(ApplyEvent(state, log[0])), log[1..])
  }

  /** The state recovered by replaying a whole log. */
  function Replay(log: seq<Event>): Option<State> {
    Fold(None, log)
  }

  /** The prior state plays no part in applying an event. */
  lemma ApplyIgnoresPriorState(s: Option<State>, t: Option<State>, event: Event)
    ensures ApplyEvent(s, event) == ApplyEvent(t, event)
  {
  }

  /** Applying the same event twice gives what applying it once does. */
  lemma ApplyIsIdempotent(state: Option<State>, event: Event)
    ensures ApplyEvent(Some(ApplyEvent(state, event)), event) == ApplyEvent(state, event)
  {
  }

  /** A booking or cancellation's id is not kept: events differing only in it give the same state. */
  lemma BookingIdIsNotRetained(state: Option<State>, e1: Event, e2: Event)
    requires (e1.Booked? && e2.Booked?) || (e1.Canceled? && e2.Canceled?)
    requires e1.slotId == e2.slotId && e1.participantId == e2.participantId
    requires e1.participantType == e2.participantType
    ensures ApplyEvent(state, e1) == ApplyEvent(state, e2)
  {
  }

  /** Folding a non-empty log gives the state of its last event alone. */
  lemma {:induction false} LastWriteWins(state: Option<State>, log: seq<Event>, other: Option<State>)
    requires log != []
    ensures Fold(state, log) == Some(ApplyEvent(other, log[|log| - 1]))
    decreases |log|
  {
    if |log| > 1 {
      LastWriteWins(Some(ApplyEvent(state, log[0])), log[1..], other);
    }
  }

  /** An event delivered twice in a row, at any point of the log, leaves the replayed state as one delivery does. */
  lemma DuplicateEventIsHarmless(state: Option<State>, before: seq<Event>, event: Event, after: seq<Event>)
    ensures Fold(state, before + [event, event] + after) == Fold(state, before + [event] + after)
  {
    var twice, once := before + [event, event] + after, before + [event] + after;
    LastWriteWins(state, twice, None);
    LastWriteWins(state, once, None);
    if after == [] {
      assert twice[|twice| - 1] == event && once[|once| - 1] == event;
    } else {
      assert twice[|twice| - 1] == after[|after| - 1] && once[|once| - 1] == after[|after| - 1];
    }
  }

  /**
   * A duplicate that arrives after later events is not harmless: it replaces
   * their state with the state its original gave.
   */
  lemma LateDuplicateReplacesLaterState(state: Option<State>, before: seq<Event>, event: Event, later: seq<Event>)
    ensures Fold(state, before + [event] + later + [event]) == Fold(state, before + [event])
  {
    var late, original := before + [event] + later + [event], before + [event];
    LastWriteWins(state, late, None);
    LastWriteWins(state, original, None);
  }

  /** Handling a command gives the state its payload and kind determine, whatever came before. */
  lemma HandledCommandDeterminesState(state: Option<State>, cmd: Commands)
    ensures var s := Fold(state, Handle(cmd).events);
            && s.Some?
            && s.value.slotId == cmd.slotId && s.value.participantId == cmd.participantId
            && s.value.participantType == cmd.participantType
            && (s.value.status == StatusAvailable <==> cmd.MarkAvailable?)
            && (s.value.status == StatusUnavailable <==> cmd.UnmarkAvailable?)
            && (s.value.status == StatusBooked <==> cmd.Book?)
            && (s.value.status == StatusCancelled <==> cmd.Cancel?)
  {
    LastWriteWins(state, Handle(cmd).events, None);
  }

  /** Redelivering a command leaves the observable state as one delivery does. */
  lemma RedeliveryIsIdempotent(state: Option<State>, cmd: Commands)
    ensures var once := Fold(state, Handle(cmd).events);
            Fold(once, Handle(cmd).events) == once
  {
    var events := Handle(cmd).events;
    LastWriteWins(state, events, None);
    LastWriteWins(Fold(state, events), events, None);
  }
}
