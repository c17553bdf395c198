/** The records the dashboard passes around: calendar events, the structured commands
    the language-model interpreter returns, chat messages, to-do items and views. */
module Types {
  import opened Wrappers
  import opened DateTime

  /** A scheduled item of the event store. `description` may be absent on seed data;
      `reminderMinutesBefore` absent means no reminder. */
  datatype CalendarEvent = CalendarEvent(
    id: string,
    title: string,
    date: Timestamp,
    description: Option<string>,
    calendarId: string,
    reminderMinutesBefore: Option<int>)

  /** The partial event fields of a command; the interpreter may leave any of them out. */
  datatype EventFields = EventFields(
    title: Option<string>,
    date: Option<string>,
    time: Option<string>,
    description: Option<string>,
    calendarId: Option<string>,
    reminderMinutesBefore: Option<int>)

  /** One interpreted utterance. `action` is the raw tag the interpreter sent: the
      reconciler knows "CREATE", "READ", "UPDATE" and "DELETE" and treats every other
      tag, "UNKNOWN" included, as unrecognised. */
  datatype Command = Command(
    action: string,
    event: Option<EventFields>,
    targetEventTitle: Option<string>,
    responseMessage: Option<string>)

  datatype Sender = User | Ai

  datatype ChatMessage = ChatMessage(sender: Sender, text: string)

  datatype View = Month | Week | Day

  datatype TodoItem = TodoItem(id: string, text: string, completed: bool)

  /** JavaScript truthiness of an optional string: present and not empty. */
  predicate Given(s: Option<string>) {
    s.Some? && s.value != ""
  }

  /** JavaScript truthiness of an optional number: present and not zero. */
  predicate GivenNumber(n: Option<int>) {
    n.Some? && n.value != 0
  }

  /** `s || fallback` for an optional string. */
  function Or(s: Option<string>, fallback: string): (r: string)
    ensures Given(s) ==> r == s.value
    ensures !Given(s) ==> r == fallback
  {
    if Given(s) then s.value else fallback
  }
}
