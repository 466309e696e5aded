/** Types shared by the slot aggregate, the participant ledger and the read model. */
module Domain {

  /** The role a participant plays in a booking. */
  datatype ParticipantType = Student | Aircraft | Instructor

  /** The name of a role as Java's enum `toString` renders it. */
  function TypeName(t: ParticipantType): string {
    match t
    case Student => "STUDENT"
    case Aircraft => "AIRCRAFT"
    case Instructor => "INSTRUCTOR"
  }

  /** Distinct roles render as distinct names, so a row's type string identifies its role. */
  lemma TypeNameInjective(a: ParticipantType, b: ParticipantType)
    requires TypeName(a) == TypeName(b)
    ensures a == b
  {
  }

  /** A participant is identified by its id together with its role. */
  datatype Participant = Participant(id: string, participantType: ParticipantType)

  datatype Option<+T> = None | Some(value: T)

  /** The acknowledgement a successful command replies with. */
  datatype Done = Done

  /** What a command handler replies: a value, or an error message. */
  datatype Reply<+T> = Ok(value: T) | Error(message: string)

  /**
   * The outcome of a command handler: the reply and the events to append to
   * the entity's log (in order, atomically) before the reply is sent.
   */
  datatype Effect<+T, +E> = Effect(reply: Reply<T>, events: seq<E>)

  /** The effect of persisting one event and then replying Done. */
  function PersistThenDone<E>(event: E): Effect<Done, E> {
    Effect(Ok(Done), [event])
  }

  /** The effect of replying with an error: nothing is persisted. */
  function Reject<T, E>(message: string): Effect<T, E> {
    Effect(Error(message), [])
  }
}
