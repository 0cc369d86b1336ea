/** The wire form of events: the envelope, what a consumer reads back, and which events it handles. */
module DomainEvents {
  import opened Common

  type EventId = string
  type EventType = string
  type Payload = string

  datatype Metadata = Metadata(eventId: Option<EventId>, eventType: Option<EventType>)

  /** A foreign message may carry a payload and no metadata. */
  datatype Event = Event(metadata: Option<Metadata>, payload: Payload)

  /**
   * A message body as JSON sees it. An object is a notification when its `Type` says so and its
   * `Message` is a string, here already read as a body; it is an event when it has a `payload`.
   */
  datatype Body =
    | NotJson
    | NotAnObject
    | Object(notification: Option<Body>, event: Option<Event>)

  datatype Message = Message(id: string, receipt: string, body: Body)

  // ---- reading ------------------------------------------------------------------------

  function EventIn(body: Body): Option<Event> {
    if body.Object? then body.event else None
  }

  /** One level of notification is unwrapped; what is inside is taken as it is. */
  function ParseEvent(m: Message): Option<Event> {
    if m.body.Object? && m.body.notification.Some? then EventIn(m.body.notification.value) else EventIn(m.body)
  }

  function TypeOf(event: Event): Option<EventType> {
    if event.metadata.Some? then event.metadata.value.eventType else None
  }

  function IdOf(event: Event): Option<EventId> {
    if event.metadata.Some? then event.metadata.value.eventId else None
  }

  /** A consumer that lists no types handles every event; an untyped event is on no list. */
  predicate HandlesEvent(event: Event, eventTypes: Option<seq<EventType>>) {
    eventTypes.None? || (TypeOf(event).Some? && TypeOf(event).value in eventTypes.value)
  }

  /** Whether the consumer hands the message to its handler, rather than dropping it. */
  predicate Accepts(m: Message, eventTypes: Option<seq<EventType>>) {
    ParseEvent(m).Some? && HandlesEvent(ParseEvent(m).value, eventTypes)
  }

  // ---- writing ------------------------------------------------------------------------

  function Envelope(eventId: EventId, routingKey: EventType, payload: Payload): Event {
    Event(Some(Metadata(Some(eventId), Some(routingKey))), payload)
  }

  /** Raw delivery puts the envelope in the body; without it the topic wraps the body once. */
  function Raw(event: Event): Body {
    Object(None, Some(event))
  }

  function Wrapped(event: Event): Body {
    Object(Some(Raw(event)), None)
  }

  /** Either way of delivery, a consumer that lists the routing key reads back what was published. */
  lemma PublishedIsRead(m: Message, eventId: EventId, key: EventType, payload: Payload, types: seq<EventType>)
    requires m.body == Raw(Envelope(eventId, key, payload)) || m.body == Wrapped(Envelope(eventId, key, payload))
    ensures ParseEvent(m) == Some(Envelope(eventId, key, payload))
    ensures Accepts(m, Some(types)) <==> key in types
    ensures Accepts(m, None)
  {
  }

  /** Only one wrapping is undone. */
  lemma WrappedTwiceIsDropped(m: Message, event: Event, types: Option<seq<EventType>>)
    requires m.body == Object(Some(Wrapped(event)), None)
    ensures ParseEvent(m).None? && !Accepts(m, types)
  {
  }
}
