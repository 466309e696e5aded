/**
 * The per-slot aggregate: which participants are available for one slot.
 * Commands are decided against the current state; accepted commands append
 * events to the slot's log, and the state is the fold of that log.
 */
module BookingSlot {
  import opened Domain

  const AlreadyAvailable := "participant already available"
  const NotAvailable := "participant not available"
  const NotYetImplemented := "not yet implemented"

  /** The events a slot's log can hold. */
  datatype BookingEvent =
    | ParticipantMarkedAvailable(slotId: string, participantId: string, participantType: ParticipantType)
    | ParticipantUnmarkedAvailable(slotId: string, participantId: string, participantType: ParticipantType)
    | ParticipantBooked(slotId: string, participantId: string, participantType: ParticipantType, bookingId: string)
    | ParticipantCanceled(slotId: string, participantId: string, participantType: ParticipantType, bookingId: string)
  {
    /** The participant the event is about. */
    function Subject(): Participant {
      Participant(participantId, participantType)
    }
  }

  predicate IsMarkOf(event: BookingEvent, p: Participant) {
    event.ParticipantMarkedAvailable? && event.Subject() == p
  }

  predicate IsUnmarkOf(event: BookingEvent, p: Participant) {
    event.ParticipantUnmarkedAvailable? && event.Subject() == p
  }

  /** The commands a slot accepts. */
  datatype Command =
    | MarkSlotAvailable(participant: Participant)
    | UnmarkSlotAvailable(participant: Participant)
    | BookReservation(studentId: string, aircraftId: string, instructorId: string, bookingId: string)

  /** An entry of a slot's bookings. */
  datatype Booking = Booking(participant: Participant, bookingId: string)

  /** The state of one slot. */
  datatype Timeslot = Timeslot(available: set<Participant>, bookings: set<Booking>)
  {
    /** Adds the event's participant to the available set. */
    function Reserve(event: BookingEvent): Timeslot
      requires event.ParticipantMarkedAvailable?
    {
      Timeslot(available + {event.Subject()}, bookings)
    }

    /** Removes the event's participant from the available set. */
    function Unreserve(event: BookingEvent): Timeslot
      requires event.ParticipantUnmarkedAvailable?
    {
      Timeslot(available - {event.Subject()}, bookings)
    }
  }

  /** The state of a slot before its first event. */
  function EmptyState(): (state: Timeslot)
    ensures state.available == {} && state.bookings == {}
  {
    Timeslot({}, {})
  }

  // ---------------------------------------------------------------------
  // Command decisions

  /** Marking a participant available: rejected if the participant is already there. */
  function MarkSlotAvailableEffect(state: Timeslot, entityId: string, p: Participant): (effect: Effect<Done, BookingEvent>)
    ensures effect.reply.Error? <==> p in state.available
    ensures effect.reply.Error? ==> effect.reply.message == AlreadyAvailable && effect.events == []
    ensures effect.reply.Ok? ==>
              effect.reply.value == Done && |effect.events| == 1 &&
              IsMarkOf(effect.events[0], p) && effect.events[0].slotId == entityId
  {
    if p in state.available then Reject(AlreadyAvailable)
    else PersistThenDone(ParticipantMarkedAvailable(entityId, p.id, p.participantType))
  }

  /** Unmarking a participant: rejected if the participant is not there. */
  function UnmarkSlotAvailableEffect(state: Timeslot, entityId: string, p: Participant): (effect: Effect<Done, BookingEvent>)
    ensures effect.reply.Error? <==> p !in state.available
    ensures effect.reply.Error? ==> effect.reply.message == NotAvailable && effect.events == []
    ensures effect.reply.Ok? ==>
              effect.reply.value == Done && |effect.events| == 1 &&
              IsUnmarkOf(effect.events[0], p) && effect.events[0].slotId == entityId
  {
    if p !in state.available then Reject(NotAvailable)
    else PersistThenDone(ParticipantUnmarkedAvailable(entityId, p.id, p.participantType))
  }

  // ---------------------------------------------------------------------
  // Event application and replay

  /** The state after one event: marks add, unmarks remove, anything else is ignored. */
  function ApplyEvent(state: Timeslot, event: BookingEvent): (next: Timeslot)
    ensures next.bookings == state.bookings
    ensures forall p :: p in next.available <==>
                          IsMarkOf(event, p) || (p in state.available && !IsUnmarkOf(event, p))
  {
    match event
    case ParticipantMarkedAvailable(_, _, _) => state.Reserve(event)
    case ParticipantUnmarkedAvailable(_, _, _) => state.Unreserve(event)
    case _ => state
  }

  /** Applying events in log order. */
  function FoldEvents(state: Timeslot, events: seq<BookingEvent>): (last: Timeslot)
    ensures last.bookings == state.bookings
    decreases |events|
  {
    if events == [] then state
    else FoldEvents(ApplyEvent(state, events[0]), events[1..])
  }

  /** The state recovered by replaying a whole log from the empty state. */
  function Replay(log: seq<BookingEvent>): Timeslot {
    FoldEvents(EmptyState(), log)
  }

  lemma {:induction false} FoldEventsAppend(state: Timeslot, a: seq<BookingEvent>, b: seq<BookingEvent>)
    ensures FoldEvents(state, a + b) == FoldEvents(FoldEvents(state, a), b)
    decreases |a|
  {
    if a == [] {
      assert a + b == b;
    } else {
      assert (a + b)[0] == a[0];
      assert (a + b)[1..] == a[1..] + b;
      FoldEventsAppend(ApplyEvent(state, a[0]), a[1..], b);
    }
  }

  /** Replay is incremental: replaying one more event is applying it to the replayed state. */
  lemma ReplaySnoc(log: seq<BookingEvent>, event: BookingEvent)
    ensures Replay(log + [event]) == ApplyEvent(Replay(log), event)
  {
    FoldEventsAppend(EmptyState(), log, [event]);
  }

  /** Events other than mark and unmark leave the state as it is. */
  lemma OtherEventsAreIgnored(state: Timeslot, event: BookingEvent)
    requires !event.ParticipantMarkedAvailable? && !event.ParticipantUnmarkedAvailable?
    ensures ApplyEvent(state, event) == state
  {
  }

  /** No event of this aggregate touches bookings, so a replayed slot never has any. */
  lemma ReplayedBookingsAreEmpty(log: seq<BookingEvent>)
    ensures Replay(log).bookings == {}
  {
  }

  // ---------------------------------------------------------------------
  // Decisions followed by their events

  /** A rejected command leaves the state as it was, since it persists nothing. */
  lemma RejectionLeavesStateUnchanged(state: Timeslot, entityId: string, cmd: Command)
    requires cmd.MarkSlotAvailable? || cmd.UnmarkSlotAvailable?
    ensures var effect := if cmd.MarkSlotAvailable? then MarkSlotAvailableEffect(state, entityId, cmd.participant)
                          else UnmarkSlotAvailableEffect(state, entityId, cmd.participant);
            effect.reply.Error? ==> FoldEvents(state, effect.events) == state
  {
  }

  /** A successful mark makes exactly that participant available in addition. */
  lemma MarkMakesAvailable(state: Timeslot, entityId: string, p: Participant)
    requires p !in state.available
    ensures var effect := MarkSlotAvailableEffect(state, entityId, p);
            effect.reply == Ok(Done) && FoldEvents(state, effect.events).available == state.available + {p}
  {
  }

  /** A successful unmark takes exactly that participant out of the available set. */
  lemma UnmarkMakesUnavailable(state: Timeslot, entityId: string, p: Participant)
    requires p in state.available
    ensures var effect := UnmarkSlotAvailableEffect(state, entityId, p);
            effect.reply == Ok(Done) && FoldEvents(state, effect.events).available == state.available - {p}
  {
  }

  /** Marking an absent participant and then unmarking it restores the state. */
  lemma MarkThenUnmarkRoundTrip(state: Timeslot, entityId: string, p: Participant)
    requires p !in state.available
    ensures var marked := FoldEvents(state, MarkSlotAvailableEffect(state, entityId, p).events);
            var unmark := UnmarkSlotAvailableEffect(marked, entityId, p);
            unmark.reply == Ok(Done) && FoldEvents(marked, unmark.events) == state
  {
    MarkMakesAvailable(state, entityId, p);
    var marked := FoldEvents(state, MarkSlotAvailableEffect(state, entityId, p).events);
    UnmarkMakesUnavailable(marked, entityId, p);
  }

  /** From the empty slot, mark followed by unmark leaves nobody available. */
  lemma MarkThenUnmarkFromEmpty(entityId: string, p: Participant)
    ensures var marked := FoldEvents(EmptyState(), MarkSlotAvailableEffect(EmptyState(), entityId, p).events);
            FoldEvents(marked, UnmarkSlotAvailableEffect(marked, entityId, p).events).available == {}
  {
    MarkThenUnmarkRoundTrip(EmptyState(), entityId, p);
  }

  /** Marking the same participant twice: the second mark is rejected. */
  lemma SecondMarkIsRejected(state: Timeslot, entityId: string, p: Participant)
    ensures var marked := FoldEvents(state, MarkSlotAvailableEffect(state, entityId, p).events);
            MarkSlotAvailableEffect(marked, entityId, p) == Effect(Error(AlreadyAvailable), [])
  {
    if p !in state.available {
      MarkMakesAvailable(state, entityId, p);
    }
  }

  // ---------------------------------------------------------------------
  // The log the guards produce

  /** The guard under which the command handlers persist an event. */
  ghost predicate Accepted(state: Timeslot, event: BookingEvent) {
    || (event.ParticipantMarkedAvailable? && event.Subject() !in state.available)
    || (event.ParticipantUnmarkedAvailable? && event.Subject() in state.available)
  }

  /** Every event of the log passed its guard against the state replayed before it. */
  ghost predicate GuardedLog(log: seq<BookingEvent>)
    decreases |log|
  {
    log == [] ||
    (GuardedLog(log[..|log| - 1]) && Accepted(Replay(log[..|log| - 1]), log[|log| - 1]))
  }

  /** Whether a participant has a mark in the log that no later unmark undoes. */
  ghost predicate MarkedNotLaterUnmarked(log: seq<BookingEvent>, p: Participant) {
    exists i :: 0 <= i < |log| && IsMarkOf(log[i], p) &&
                forall j :: i < j < |log| ==> !IsUnmarkOf(log[j], p)
  }

  function CountMarked(log: seq<BookingEvent>): nat
    decreases |log|
  {
    if log == [] then 0
    else CountMarked(log[..|log| - 1]) + (if log[|log| - 1].ParticipantMarkedAvailable? then 1 else 0)
  }

  function CountUnmarked(log: seq<BookingEvent>): nat
    decreases |log|
  {
    if log == [] then 0
    else CountUnmarked(log[..|log| - 1]) + (if log[|log| - 1].ParticipantUnmarkedAvailable? then 1 else 0)
  }

  /** Replaying a log makes available exactly the participants marked and not later unmarked. */
  lemma {:induction false} AvailableIsMarkedNotLaterUnmarked(log: seq<BookingEvent>, p: Participant)
    ensures p in Replay(log).available <==> MarkedNotLaterUnmarked(log, p)
    decreases |log|
  {
    if log != [] {
      var n := |log| - 1;
      var prefix, last := log[..n], log[n];
      assert log == prefix + [last];
      ReplaySnoc(prefix, last);
      AvailableIsMarkedNotLaterUnmarked(prefix, p);
      if IsMarkOf(last, p) {
        assert IsMarkOf(log[n], p);
      } else if IsUnmarkOf(last, p) {
        forall i | 0 <= i < |log| && IsMarkOf(log[i], p)
          ensures exists j :: i < j < |log| && IsUnmarkOf(log[j], p)
        {
          assert i < n && IsUnmarkOf(log[n], p);
        }
      } else {
        if MarkedNotLaterUnmarked(log, p) {
          var i :| 0 <= i < |log| && IsMarkOf(log[i], p) &&
                   forall j :: i < j < |log| ==> !IsUnmarkOf(log[j], p);
          assert i < n;
          assert IsMarkOf(prefix[i], p);
          forall j | i < j < |prefix| ensures !IsUnmarkOf(prefix[j], p) {
            assert prefix[j] == log[j];
          }
        }
        if MarkedNotLaterUnmarked(prefix, p) {
          var i :| 0 <= i < |prefix| && IsMarkOf(prefix[i], p) &&
                   forall j :: i < j < |prefix| ==> !IsUnmarkOf(prefix[j], p);
          assert IsMarkOf(log[i], p);
          forall j | i < j < |log| ensures !IsUnmarkOf(log[j], p) {
            if j < n { assert log[j] == prefix[j]; }
          }
        }
      }
    }
  }

  /** Under the guards every mark adds someone and every unmark removes someone. */
  lemma {:induction false} AvailableCount(log: seq<BookingEvent>)
    requires GuardedLog(log)
    ensures |Replay(log).available| == CountMarked(log) - CountUnmarked(log)
    decreases |log|
  {
    if log != [] {
      var n := |log| - 1;
      var prefix, last := log[..n], log[n];
      assert log == prefix + [last];
      ReplaySnoc(prefix, last);
      AvailableCount(prefix);
      var before := Replay(prefix).available;
      if last.ParticipantMarkedAvailable? {
        assert Replay(log).available == before + {last.Subject()};
      } else {
        assert Replay(log).available == before - {last.Subject()};
      }
    }
  }

  /** The events a successful decision appends keep the log guarded. */
  lemma DecisionKeepsLogGuarded(log: seq<BookingEvent>, entityId: string, cmd: Command)
    requires GuardedLog(log)
    requires cmd.MarkSlotAvailable? || cmd.UnmarkSlotAvailable?
    ensures var effect := if cmd.MarkSlotAvailable? then MarkSlotAvailableEffect(Replay(log), entityId, cmd.participant)
                          else UnmarkSlotAvailableEffect(Replay(log), entityId, cmd.participant);
            GuardedLog(log + effect.events)
  {
    var effect := if cmd.MarkSlotAvailable? then MarkSlotAvailableEffect(Replay(log), entityId, cmd.participant)
                  else UnmarkSlotAvailableEffect(Replay(log), entityId, cmd.participant);
    if effect.events != [] {
      var longer := log + effect.events;
      assert longer[..|longer| - 1] == log;
    } else {
      assert log + effect.events == log;
    }
  }

  // ---------------------------------------------------------------------
  // The entity

  /** One slot's entity: its current state and the log it is the replay of. */
  class BookingSlotEntity {
    const entityId: string
    var available: set<Participant>
    var bookings: set<Booking>
    var log: seq<BookingEvent>

    function CurrentState(): Timeslot
      reads this
    {
      Timeslot(available, bookings)
    }

    /** The current state is the replay of a log every event of which passed its guard. */
    ghost predicate Valid()
      reads this
    {
      && CurrentState() == Replay(log)
      && GuardedLog(log)
      && forall i :: 0 <= i < |log| ==> log[i].slotId == entityId
    }

    constructor (entityId: string)
      ensures Valid() && this.entityId == entityId
      ensures log == [] && CurrentState() == EmptyState()
    {
      this.entityId := entityId;
      available := {};
      bookings := {};
      log := [];
    }

    /** Appends an accepted event to the log and applies it to the current state. */
    method Persist(event: BookingEvent)
      requires Valid() && event.slotId == entityId && Accepted(CurrentState(), event)
      modifies this
      ensures Valid()
      ensures log == old(log) + [event]
      ensures CurrentState() == ApplyEvent(old(CurrentState()), event)
    {
      ReplaySnoc(log, event);
      var next := ApplyEvent(CurrentState(), event);
      var before := log;
      log := log + [event];
      assert log[..|log| - 1] == before;
      available, bookings := next.available, next.bookings;
    }

    method MarkSlotAvailable(cmd: Command) returns (reply: Reply<Done>)
      requires Valid() && cmd.MarkSlotAvailable?
      modifies this
      ensures Valid()
      ensures var effect := MarkSlotAvailableEffect(old(CurrentState()), entityId, cmd.participant);
              && reply == effect.reply
              && log == old(log) + effect.events
              && CurrentState() == FoldEvents(old(CurrentState()), effect.events)
    {
      if cmd.participant in available {
        return Error(AlreadyAvailable);
      }
      var event := ParticipantMarkedAvailable(entityId, cmd.participant.id, cmd.participant.participantType);
      ghost var before := CurrentState();
      Persist(event);
      assert FoldEvents(before, [event]) == FoldEvents(ApplyEvent(before, event), []);
      reply := Ok(Done);
    }

    method UnmarkSlotAvailable(cmd: Command) returns (reply: Reply<Done>)
      requires Valid() && cmd.UnmarkSlotAvailable?
      modifies this
      ensures Valid()
      ensures var effect := UnmarkSlotAvailableEffect(old(CurrentState()), entityId, cmd.participant);
              && reply == effect.reply
              && log == old(log) + effect.events
              && CurrentState() == FoldEvents(old(CurrentState()), effect.events)
    {
      if cmd.participant !in available {
        return Error(NotAvailable);
      }
      var event := ParticipantUnmarkedAvailable(entityId, cmd.participant.id, cmd.participant.participantType);
      ghost var before := CurrentState();
      Persist(event);
      assert FoldEvents(before, [event]) == FoldEvents(ApplyEvent(before, event), []);
      reply := Ok(Done);
    }

    /** Booking is not implemented: every request is rejected and nothing is persisted. */
    method BookSlot(cmd: Command) returns (reply: Reply<Done>)
      requires cmd.BookReservation?
      ensures reply == Error(NotYetImplemented)
    {
      reply := Error(NotYetImplemented);
    }

    /** Cancelling is not implemented: every request is rejected and nothing is persisted. */
    method CancelBooking(bookingId: string) returns (reply: Reply<Done>)
      ensures reply == Error(NotYetImplemented)
    {
      reply := Error(NotYetImplemented);
    }

    /** The slot snapshot query is not implemented: it always replies with an error. */
    method GetSlot() returns (reply: Reply<Timeslot>)
      ensures reply == Error(NotYetImplemented)
    {
      reply := Error(NotYetImplemented);
    }
  }
}
