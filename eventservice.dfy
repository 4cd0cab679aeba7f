/** The event service: event administration and the registration
    coordinator that keeps each event's attendee counter. The repositories are
    maps; registrations are keyed by their (event id, user id) pair, which is
    the table's unique constraint. */
module EventServices {
  import opened Base
  import opened Text
  import opened Registrations
  import opened Events
  import opened EventTypes

  /** The fields `convertToEventResponse` copies or derives at `now`. */
  datatype EventResponse = EventResponse(
    id: Id,
    title: string,
    description: string,
    dateTime: Time,
    location: string,
    eventTypeName: string,
    maxAttendees: Option<int>,
    currentAttendees: Option<int>,
    availableSeats: Option<int>,
    featuredImage: string,
    isPublished: bool,
    isFeatured: bool,
    isFull: bool,
    isRegistrationOpen: bool,
    isCancelled: bool,
    slug: Option<string>)

  const AlreadyRegistered: string := "You are already registered for this event"
  const RegistrationNotOpen: string := "Registration is not open for this event"
  const EventFull: string := "Event is full"
  const DuplicateRegistrationRow: string := "duplicate key (event_id, user_id)"

  class EventService {
    var events: map<Id, Event>
    var eventTypes: map<Id, EventType>
    var registrations: map<(Id, Id), EventRegistration>
    /** The user repository as this service sees it: email to user id. */
    var userIdsByEmail: map<string, Id>
    /** The identity counters of the event and registration tables. */
    var nextEventId: Id
    var nextRegistrationId: Id

    /** What the database and the earlier operations guarantee: every row is
        stored under its own key (so distinct keys hold distinct objects),
        every foreign key resolves, counters are non-negative and every slug
        is settled. */
    ghost predicate Valid()
      reads this, events.Values, eventTypes.Values, registrations.Values
    {
      EventRowsKeyed() && TypeRowsKeyed() && RegistrationRowsLinked() &&
      EventRowsConsistent() && TypeRowsConsistent()
    }

    ghost predicate EventRowsKeyed()
      reads this, events.Values
    {
      forall id :: id in events ==> events[id].id == id && id < nextEventId
    }

    ghost predicate TypeRowsKeyed()
      reads this, eventTypes.Values
    {
      forall id :: id in eventTypes ==> eventTypes[id].id == id
    }

    ghost predicate RegistrationRowsLinked()
      reads this, registrations.Values
    {
      forall k :: k in registrations ==>
        registrations[k].eventId == Some(k.0) && registrations[k].userId == Some(k.1) &&
        k.0 in events && registrations[k].id < nextRegistrationId
    }

    ghost predicate EventRowsConsistent()
      reads this, events.Values
    {
      forall id :: id in events ==>
        events[id].eventTypeId.Some? && events[id].eventTypeId.value in eventTypes &&
        OrZero(events[id].currentAttendees) >= 0 &&
        SlugSettled(events[id].slug, events[id].title)
    }

    ghost predicate TypeRowsConsistent()
      reads this, eventTypes.Values
    {
      forall id :: id in eventTypes ==>
        OrZero(eventTypes[id].eventCount) >= 0 &&
        SlugSettled(eventTypes[id].slug, eventTypes[id].name)
    }

    /** An empty store. */
    constructor (userIdsByEmail: map<string, Id>)
      ensures Valid()
      ensures events == map[] && eventTypes == map[] && registrations == map[]
      ensures this.userIdsByEmail == userIdsByEmail
    {
      events := map[];
      eventTypes := map[];
      registrations := map[];
      this.userIdsByEmail := userIdsByEmail;
      nextEventId := 1;
      nextRegistrationId := 1;
    }

    /** The stored event with this id, as a frame. */
    function EventAt(id: Id): set<Event>
      reads this
    {
      if id in events then {events[id]} else {}
    }

    /** The stored event type with this id, as a frame. */
    function EventTypeAt(id: Id): set<EventType>
      reads this
    {
      if id in eventTypes then {eventTypes[id]} else {}
    }

    /** The pair's registration row for the user with this email, as a frame. */
    function RegistrationAt(eventId: Id, email: string): set<EventRegistration>
      reads this
    {
      if email in userIdsByEmail then RowAt(eventId, userIdsByEmail[email]) else {}
    }

    /** The registration row of the pair, as a frame. */
    function RowAt(eventId: Id, userId: Id): set<EventRegistration>
      reads this
    {
      if (eventId, userId) in registrations then {registrations[(eventId, userId)]} else {}
    }

    /** `existsByEventIdAndUserIdAndIsCancelledFalse`. */
    predicate HasActiveRow(eventId: Id, userId: Id)
      reads this, registrations.Values
    {
      (eventId, userId) in registrations && !registrations[(eventId, userId)].isCancelled
    }

    /** `convertToEventResponse`: the derived fields agree with each other. */
    function Response(e: Event, now: Time): (r: EventResponse)
      reads this, e, eventTypes.Values
      requires e.eventTypeId.Some? && e.eventTypeId.value in eventTypes
      ensures r.id == e.id && r.currentAttendees == e.currentAttendees
      ensures r.isFull <==> r.availableSeats.Some? && r.availableSeats.value <= 0
      ensures r.availableSeats.None? <==> r.maxAttendees.None?
      ensures r.isRegistrationOpen && r.isFull ==> e.waitlistEnabled
      ensures r.isCancelled ==> !r.isRegistrationOpen
    {
      EventResponse(e.id, e.title, e.description, e.dateTime, e.location,
                    eventTypes[e.eventTypeId.value].name, e.maxAttendees, e.currentAttendees,
                    e.AvailableSeats(), e.featuredImage, e.isPublished, e.isFeatured,
                    e.IsFull(), e.IsRegistrationOpen(now), e.isCancelled, e.slug)
    }

    /** `getEventById`. */
    function EventById(id: Id, now: Time): (r: Result<EventResponse>)
      reads this, events.Values, eventTypes.Values, registrations.Values
      requires Valid()
      ensures id !in events <==> r.Failure?
      ensures r.Failure? ==> r.error == NotFound("Event not found with id: " + IntToDecimal(id))
      ensures r.Success? ==> r.value.id == id && r.value.currentAttendees == events[id].currentAttendees
    {
      if id !in events then Failure(NotFound("Event not found with id: " + IntToDecimal(id)))
      else Success(Response(events[id], now))
    }

    /** `getEventBySlug`: a published event carrying the slug, with one more
        view counted and saved; no other event's views change. */
    method EventBySlug(slug: string, now: Time) returns (r: Result<EventResponse>)
      requires Valid()
      modifies events.Values`viewCount
      ensures Valid()
      ensures r.Failure? <==>
                forall id :: id in events ==> !(events[id].slug == Some(slug) && events[id].isPublished)
      ensures r.Failure? ==> r.error == NotFound("Event not found with slug: " + slug)
      ensures r.Success? ==>
                var id := r.value.id;
                id in events && events[id].slug == Some(slug) && events[id].isPublished &&
                OrZero(events[id].viewCount) == OrZero(old(events[id].viewCount)) + 1
      ensures forall id :: id in events && (r.Failure? || id != r.value.id) ==>
                events[id].viewCount == old(events[id].viewCount)
    {
      if id :| id in events && events[id].slug == Some(slug) && events[id].isPublished {
        var event := events[id];
        event.IncrementViewCount();
        r := Success(Response(event, now));
      } else {
        r := Failure(NotFound("Event not found with slug: " + slug));
      }
    }

    /** The checks of `registerForEvent` in their order; the first that fails
        decides the error. A pair that still has a (cancelled) row passes the
        business checks and is then refused by the unique constraint. */
    function RegistrationRejection(eventId: Id, email: string, now: Time): (r: Option<Error>)
      reads this, events.Values, registrations.Values
      ensures eventId !in events ==> r == Some(NotFound("Event not found"))
      ensures eventId in events && email !in userIdsByEmail ==> r == Some(NotFound("User not found"))
      ensures eventId in events && email in userIdsByEmail && HasActiveRow(eventId, userIdsByEmail[email]) ==>
                r == Some(BadRequest(AlreadyRegistered))
      ensures eventId in events && email in userIdsByEmail && !HasActiveRow(eventId, userIdsByEmail[email]) &&
              !events[eventId].IsRegistrationOpen(now) ==>
                r == Some(BadRequest(RegistrationNotOpen))
      ensures eventId in events && email in userIdsByEmail && !HasActiveRow(eventId, userIdsByEmail[email]) &&
              events[eventId].IsRegistrationOpen(now) && events[eventId].IsFull() ==>
                r == Some(BadRequest(EventFull))
      ensures eventId in events && email in userIdsByEmail && !HasActiveRow(eventId, userIdsByEmail[email]) &&
              events[eventId].IsRegistrationOpen(now) && !events[eventId].IsFull() &&
              (eventId, userIdsByEmail[email]) in registrations ==>
                r == Some(StoreConflict(DuplicateRegistrationRow))
      ensures r.None? <==> eventId in events && email in userIdsByEmail &&
                           events[eventId].IsRegistrationOpen(now) && !events[eventId].IsFull() &&
                           (eventId, userIdsByEmail[email]) !in registrations
    {
      if eventId !in events then Some(NotFound("Event not found"))
      else if email !in userIdsByEmail then Some(NotFound("User not found"))
      else if HasActiveRow(eventId, userIdsByEmail[email]) then Some(BadRequest(AlreadyRegistered))
      else if !events[eventId].IsRegistrationOpen(now) then Some(BadRequest(RegistrationNotOpen))
      else if events[eventId].IsFull() then Some(BadRequest(EventFull))
      else if (eventId, userIdsByEmail[email]) in registrations then Some(StoreConflict(DuplicateRegistrationRow))
      else None
    }

    /** A waitlist never takes effect: with the waitlist on, a full event in
        its window still counts as open, so the open check passes and the
        full check that follows refuses the registration. */
    lemma FullWaitlistedEventRefused(eventId: Id, email: string, now: Time)
      requires eventId in events && email in userIdsByEmail
      requires !HasActiveRow(eventId, userIdsByEmail[email])
      requires events[eventId].waitlistEnabled && events[eventId].IsFull()
      requires events[eventId].registrationOpensAt.None? || now >= events[eventId].registrationOpensAt.value
      requires events[eventId].registrationClosesAt.None? || now <= events[eventId].registrationClosesAt.value
      requires !events[eventId].isCancelled && events[eventId].registrationRequired && events[eventId].isPublished
      ensures events[eventId].IsRegistrationOpen(now)
      ensures RegistrationRejection(eventId, email, now) == Some(BadRequest(EventFull))
    {
    }

    /** A user who cancelled cannot register again: the cancelled row is not
        active, so every business check passes, and inserting a second row
        for the pair breaks the unique constraint. */
    lemma ReRegistrationAfterCancelConflicts(eventId: Id, email: string, now: Time)
      requires eventId in events && email in userIdsByEmail
      requires (eventId, userIdsByEmail[email]) in registrations
      requires registrations[(eventId, userIdsByEmail[email])].isCancelled
      requires events[eventId].IsRegistrationOpen(now) && !events[eventId].IsFull()
      ensures !HasActiveRow(eventId, userIdsByEmail[email])
      ensures RegistrationRejection(eventId, email, now) == Some(StoreConflict(DuplicateRegistrationRow))
    {
    }

    /** `registerForEvent`: either nothing changes and the first failing check
        is reported, or one new active registration is stored for the pair and
        the event's attendee count rises by exactly one. */
    method RegisterForEvent(eventId: Id, email: string, now: Time) returns (r: Result<EventRegistration>)
      requires Valid()
      modifies this`registrations, this`nextRegistrationId, EventAt(eventId)`currentAttendees
      ensures Valid()
      ensures r.Failure? <==> old(RegistrationRejection(eventId, email, now)).Some?
      ensures r.Failure? ==>
                r.error == old(RegistrationRejection(eventId, email, now)).value &&
                registrations == old(registrations) &&
                (eventId in events ==> events[eventId].currentAttendees == old(events[eventId].currentAttendees))
      ensures r.Success? ==>
                var reg := r.value;
                fresh(reg) && registrations == old(registrations)[(eventId, userIdsByEmail[email]) := reg] &&
                reg.eventId == Some(eventId) && reg.userId == Some(userIdsByEmail[email]) &&
                reg.attendanceStatus == Registered && !reg.isCancelled && !reg.isWaitlisted &&
                reg.IsActive() && reg.registrationDate == now &&
                OrZero(events[eventId].currentAttendees) == OrZero(old(events[eventId].currentAttendees)) + 1 &&
                (events[eventId].maxAttendees.Some? ==>
                   OrZero(events[eventId].currentAttendees) <= events[eventId].maxAttendees.value)
      ensures forall id :: id in events && id != eventId ==>
                events[id].currentAttendees == old(events[id].currentAttendees)
    {
      var rejection := RegistrationRejection(eventId, email, now);
      if rejection.Some? {
        return Failure(rejection.value);
      }
      var registration := InsertRegistration(eventId, userIdsByEmail[email], now);
      r := Success(registration);
    }

    /** The saves of `registerForEvent` once every check passed: a new
        registration row and one more attendee on the event. */
    method InsertRegistration(eventId: Id, userId: Id, now: Time) returns (reg: EventRegistration)
      requires Valid() && eventId in events && (eventId, userId) !in registrations
      modifies this`registrations, this`nextRegistrationId, EventAt(eventId)`currentAttendees
      ensures Valid()
      ensures fresh(reg) && registrations == old(registrations)[(eventId, userId) := reg]
      ensures reg.eventId == Some(eventId) && reg.userId == Some(userId) && reg.registrationDate == now
      ensures reg.attendanceStatus == Registered && !reg.isCancelled && !reg.isWaitlisted && reg.IsActive()
      ensures OrZero(events[eventId].currentAttendees) == OrZero(old(events[eventId].currentAttendees)) + 1
    {
      reg := StoreRegistration(eventId, userId, now);
      CountAttendee(eventId);
    }

    /** The new registration row. */
    method StoreRegistration(eventId: Id, userId: Id, now: Time) returns (reg: EventRegistration)
      requires Valid() && eventId in events && (eventId, userId) !in registrations
      modifies this`registrations, this`nextRegistrationId
      ensures Valid()
      ensures fresh(reg) && registrations == old(registrations)[(eventId, userId) := reg]
      ensures reg.eventId == Some(eventId) && reg.userId == Some(userId) && reg.registrationDate == now
      ensures reg.attendanceStatus == Registered && !reg.isCancelled && !reg.isWaitlisted && reg.IsActive()
    {
      reg := new EventRegistration(nextRegistrationId, eventId, userId, now);
      registrations := registrations[(eventId, userId) := reg];
      nextRegistrationId := nextRegistrationId + 1;
    }

    /** One more attendee on the event. */
    method CountAttendee(eventId: Id)
      requires Valid() && eventId in events
      modifies EventAt(eventId)`currentAttendees
      ensures Valid()
      ensures OrZero(events[eventId].currentAttendees) == OrZero(old(events[eventId].currentAttendees)) + 1
    {
      events[eventId].IncrementAttendeeCount();
    }

    /** `cancelRegistration`: the user must exist; the rest is the
        cancellation of the user's row for the event. */
    method CancelRegistration(eventId: Id, email: string, now: Time) returns (r: Result<()>)
      requires Valid()
      modifies RegistrationAt(eventId, email)`isCancelled, RegistrationAt(eventId, email)`cancelledAt,
               RegistrationAt(eventId, email)`cancellationReason, RegistrationAt(eventId, email)`attendanceStatus,
               EventAt(eventId)`currentAttendees
      ensures Valid()
      ensures email !in userIdsByEmail ==> r == Failure(NotFound("User not found")) && unchanged(events.Values)
      ensures email in userIdsByEmail ==> r == CancellationOutcome(old(registrations), eventId, userIdsByEmail[email])
      ensures email in userIdsByEmail && r.Success? ==>
                CancelledPair(eventId, userIdsByEmail[email], now) &&
                events[eventId].currentAttendees == Decremented(old(events[eventId].currentAttendees))
      ensures r.Failure? ==> eventId in events ==> events[eventId].currentAttendees == old(events[eventId].currentAttendees)
    {
      if email !in userIdsByEmail {
        return Failure(NotFound("User not found"));
      }
      r := CancelPair(eventId, userIdsByEmail[email], now);
    }

    /** The outcome of cancelling the pair's registration: it fails exactly
        when the pair has no row, cancelled or not. */
    static function CancellationOutcome(regs: map<(Id, Id), EventRegistration>, eventId: Id, userId: Id): (r: Result<()>)
      ensures r.Success? <==> (eventId, userId) in regs
      ensures r.Failure? ==> r.error == NotFound("Registration not found")
    {
      if (eventId, userId) in regs then Success(()) else Failure(NotFound("Registration not found"))
    }

    /** The pair's row is cancelled by the user at `now`. */
    ghost predicate CancelledPair(eventId: Id, userId: Id, now: Time)
      reads this, registrations.Values
    {
      (eventId, userId) in registrations &&
      var reg := registrations[(eventId, userId)];
      reg.isCancelled && reg.attendanceStatus == Cancelled && !reg.IsActive() &&
      reg.cancellationReason == Some("Cancelled by user") && reg.cancelledAt == Some(now)
    }

    /** The lookup and saves of `cancelRegistration` for a known user: the
        pair's row is cancelled and the event's count drops by one (stopping
        at zero) whether or not the row was already cancelled. */
    method CancelPair(eventId: Id, userId: Id, now: Time) returns (r: Result<()>)
      requires Valid()
      modifies RowAt(eventId, userId)`isCancelled, RowAt(eventId, userId)`cancelledAt,
               RowAt(eventId, userId)`cancellationReason, RowAt(eventId, userId)`attendanceStatus,
               EventAt(eventId)`currentAttendees
      ensures Valid()
      ensures r == CancellationOutcome(old(registrations), eventId, userId)
      ensures r.Failure? ==> unchanged(events.Values)
      ensures r.Success? ==>
                CancelledPair(eventId, userId, now) &&
                events[eventId].currentAttendees == Decremented(old(events[eventId].currentAttendees))
    {
      if (eventId, userId) !in registrations {
        return Failure(NotFound("Registration not found"));
      }
      UncountAttendee(eventId);
      CancelRow(eventId, userId, now);
      r := Success(());
    }

    /** The registration row of the pair is marked cancelled; the row stays. */
    method CancelRow(eventId: Id, userId: Id, now: Time)
      requires Valid() && (eventId, userId) in registrations
      modifies RowAt(eventId, userId)`isCancelled, RowAt(eventId, userId)`cancelledAt,
               RowAt(eventId, userId)`cancellationReason, RowAt(eventId, userId)`attendanceStatus
      ensures Valid()
      ensures registrations[(eventId, userId)].isCancelled
      ensures registrations[(eventId, userId)].attendanceStatus == Cancelled
      ensures registrations[(eventId, userId)].cancellationReason == Some("Cancelled by user")
      ensures registrations[(eventId, userId)].cancelledAt == Some(now)
    {
      registrations[(eventId, userId)].Cancel("Cancelled by user", now);
    }

    /** One attendee fewer on the event, stopping at zero. */
    method UncountAttendee(eventId: Id)
      requires Valid() && eventId in events
      modifies EventAt(eventId)`currentAttendees
      ensures Valid()
      ensures events[eventId].currentAttendees == Decremented(old(events[eventId].currentAttendees))
    {
      events[eventId].DecrementAttendeeCount();
    }

    /** `createEvent`: the creator and the type must exist; the new event
        starts with no attendees and a generated slug, and its type counts one
        more event. */
    method CreateEvent(request: EventRequest, email: string) returns (r: Result<Event>)
      requires Valid()
      modifies this`events, this`nextEventId, EventTypeAt(request.eventTypeId)`eventCount
      ensures Valid()
      ensures email !in userIdsByEmail ==> r == Failure(NotFound("User not found"))
      ensures email in userIdsByEmail && request.eventTypeId !in eventTypes ==>
                r == Failure(NotFound("Event type not found"))
      ensures r.Failure? ==> events == old(events)
      ensures r.Success? <==> email in userIdsByEmail && request.eventTypeId in eventTypes
      ensures r.Failure? && request.eventTypeId in eventTypes ==>
                eventTypes[request.eventTypeId].eventCount == old(eventTypes[request.eventTypeId].eventCount)
      ensures r.Success? ==>
                var e := r.value;
                fresh(e) && events == old(events)[e.id := e] && e.id !in old(events) &&
                e.creatorId == Some(userIdsByEmail[email]) && e.eventTypeId == Some(request.eventTypeId) &&
                e.title == request.title && e.maxAttendees == request.maxAttendees &&
                e.registrationRequired == request.registrationRequired &&
                e.isPublished == request.isPublished && e.isFeatured == request.isFeatured &&
                e.currentAttendees == Some(0) && !e.isCancelled && e.registrations == {} &&
                e.slug == Some(Slugify(request.title)) &&
                e.HoldsRequest(request) && e.HasBuilderDefaults() &&
                OrZero(eventTypes[request.eventTypeId].eventCount) ==
                  OrZero(old(eventTypes[request.eventTypeId].eventCount)) + 1
    {
      if email !in userIdsByEmail {
        return Failure(NotFound("User not found"));
      }
      if request.eventTypeId !in eventTypes {
        return Failure(NotFound("Event type not found"));
      }
      var event := InsertEvent(request, userIdsByEmail[email]);
      r := Success(event);
    }

    /** The saves of `createEvent` once both lookups succeeded. */
    method InsertEvent(request: EventRequest, creatorId: Id) returns (e: Event)
      requires Valid() && request.eventTypeId in eventTypes
      modifies this`events, this`nextEventId, EventTypeAt(request.eventTypeId)`eventCount
      ensures Valid()
      ensures fresh(e) && events == old(events)[e.id := e] && e.id !in old(events)
      ensures e.creatorId == Some(creatorId) && e.eventTypeId == Some(request.eventTypeId)
      ensures e.title == request.title && e.maxAttendees == request.maxAttendees
      ensures e.registrationRequired == request.registrationRequired
      ensures e.isPublished == request.isPublished && e.isFeatured == request.isFeatured
      ensures e.currentAttendees == Some(0) && !e.isCancelled && e.registrations == {}
      ensures e.HoldsRequest(request) && e.HasBuilderDefaults()
      ensures e.slug == Some(Slugify(request.title))
      ensures OrZero(eventTypes[request.eventTypeId].eventCount) ==
                OrZero(old(eventTypes[request.eventTypeId].eventCount)) + 1
    {
      e := StoreEvent(request, creatorId);
      CountEventOfType(request.eventTypeId);
    }

    /** The new event row with its generated slug. */
    method StoreEvent(request: EventRequest, creatorId: Id) returns (e: Event)
      requires Valid() && request.eventTypeId in eventTypes
      modifies this`events, this`nextEventId
      ensures Valid()
      ensures fresh(e) && events == old(events)[e.id := e] && e.id !in old(events)
      ensures e.creatorId == Some(creatorId) && e.eventTypeId == Some(request.eventTypeId)
      ensures e.title == request.title && e.maxAttendees == request.maxAttendees
      ensures e.registrationRequired == request.registrationRequired
      ensures e.isPublished == request.isPublished && e.isFeatured == request.isFeatured
      ensures e.currentAttendees == Some(0) && !e.isCancelled && e.registrations == {}
      ensures e.HoldsRequest(request) && e.HasBuilderDefaults()
      ensures e.slug == Some(Slugify(request.title))
    {
      e := NewEvent(nextEventId, request, creatorId);
      events := events[nextEventId := e];
      nextEventId := nextEventId + 1;
      assert EventRowsKeyed();
      assert EventRowsConsistent();
    }

    /** The builder call of `createEvent` followed by the insert hook. */
    static method NewEvent(id: Id, request: EventRequest, creatorId: Id) returns (e: Event)
      ensures fresh(e) && e.id == id
      ensures e.creatorId == Some(creatorId) && e.eventTypeId == Some(request.eventTypeId)
      ensures e.title == request.title && e.maxAttendees == request.maxAttendees
      ensures e.registrationRequired == request.registrationRequired
      ensures e.isPublished == request.isPublished && e.isFeatured == request.isFeatured
      ensures e.currentAttendees == Some(0) && !e.isCancelled && e.registrations == {}
      ensures e.HoldsRequest(request) && e.HasBuilderDefaults()
      ensures e.slug == Some(Slugify(request.title)) && SlugSettled(e.slug, e.title)
    {
      e := new Event(id, request, creatorId);
      e.GenerateSlug();
    }

    /** The type counts one more event. */
    method CountEventOfType(typeId: Id)
      requires Valid() && typeId in eventTypes
      modifies EventTypeAt(typeId)`eventCount
      ensures Valid()
      ensures OrZero(eventTypes[typeId].eventCount) == OrZero(old(eventTypes[typeId].eventCount)) + 1
    {
      eventTypes[typeId].IncrementEventCount();
      assert TypeRowsConsistent();
    }

    /** `updateEvent`: copies the editable fields and runs the update hook.
        The modifies clause lists every field that can change: the attendee
        count, the cancellation, the registrations and both types' event
        counts stay as they were, even when the type or the capacity
        changes. */
    method UpdateEvent(id: Id, request: EventRequest) returns (r: Result<Event>)
      requires Valid()
      modifies EventAt(id)`title, EventAt(id)`description, EventAt(id)`dateTime, EventAt(id)`location,
               EventAt(id)`eventTypeId, EventAt(id)`maxAttendees, EventAt(id)`durationMinutes, EventAt(id)`featuredImage,
               EventAt(id)`featuredImageAlt, EventAt(id)`meetingLink, EventAt(id)`requirements, EventAt(id)`agenda,
               EventAt(id)`registrationRequired, EventAt(id)`isPublished, EventAt(id)`isFeatured, EventAt(id)`slug
      ensures Valid()
      ensures id !in events ==> r == Failure(NotFound("Event not found"))
      ensures id in events && request.eventTypeId !in eventTypes ==>
                r == Failure(NotFound("Event type not found"))
      ensures r.Success? <==> id in events && request.eventTypeId in eventTypes
      ensures r.Failure? ==> id in events ==> unchanged(events[id])
      ensures r.Success? ==> r.value == events[id] && events[id].HoldsRequest(request)
      ensures r.Success? ==> events[id].slug == SlugAfterHook(old(events[id].slug), request.title)
    {
      if id !in events {
        return Failure(NotFound("Event not found"));
      }
      if request.eventTypeId !in eventTypes {
        return Failure(NotFound("Event type not found"));
      }
      EditEvent(id, request);
      r := Success(events[id]);
    }

    /** The saves of `updateEvent` once both lookups succeeded. */
    method EditEvent(id: Id, request: EventRequest)
      requires Valid() && id in events && request.eventTypeId in eventTypes
      modifies EventAt(id)`title, EventAt(id)`description, EventAt(id)`dateTime, EventAt(id)`location,
               EventAt(id)`eventTypeId, EventAt(id)`maxAttendees, EventAt(id)`durationMinutes, EventAt(id)`featuredImage,
               EventAt(id)`featuredImageAlt, EventAt(id)`meetingLink, EventAt(id)`requirements, EventAt(id)`agenda,
               EventAt(id)`registrationRequired, EventAt(id)`isPublished, EventAt(id)`isFeatured, EventAt(id)`slug
      ensures Valid()
      ensures events[id].HoldsRequest(request)
      ensures events[id].slug == SlugAfterHook(old(events[id].slug), request.title)
    {
      ApplyRequest(events[id], request);
      assert EventRowsKeyed();
      assert RegistrationRowsLinked();
      assert EventRowsConsistent();
    }

    /** The setters of `updateEvent` followed by the update hook. */
    static method ApplyRequest(e: Event, request: EventRequest)
      modifies e`title, e`description, e`dateTime, e`location, e`eventTypeId, e`maxAttendees,
               e`durationMinutes, e`featuredImage, e`featuredImageAlt, e`meetingLink,
               e`requirements, e`agenda, e`registrationRequired, e`isPublished, e`isFeatured, e`slug
      ensures e.HoldsRequest(request)
      ensures e.slug == SlugAfterHook(old(e.slug), request.title)
      ensures SlugSettled(e.slug, e.title)
    {
      CopyEditableFields(e, request);
      e.GenerateSlug();
    }

    /** The setter calls of `updateEvent`, one per editable field. */
    static method CopyEditableFields(e: Event, request: EventRequest)
      modifies e`title, e`description, e`dateTime, e`location, e`eventTypeId, e`maxAttendees,
               e`durationMinutes, e`featuredImage, e`featuredImageAlt, e`meetingLink,
               e`requirements, e`agenda, e`registrationRequired, e`isPublished, e`isFeatured
      ensures e.HoldsRequest(request)
    {
      e.title := request.title;
      e.description := request.description;
      e.dateTime := request.dateTime;
      e.location := request.location;
      e.eventTypeId := Some(request.eventTypeId);
      e.maxAttendees := request.maxAttendees;
      e.durationMinutes := request.durationMinutes;
      e.featuredImage := request.featuredImage;
      e.featuredImageAlt := request.featuredImageAlt;
      e.meetingLink := request.meetingLink;
      e.requirements := request.requirements;
      e.agenda := request.agenda;
      e.registrationRequired := request.registrationRequired;
      e.isPublished := request.isPublished;
      e.isFeatured := request.isFeatured;
    }

    /** The registration rows that survive deleting the event `id`: the
        cascade removes exactly the rows keyed by that event. */
    static function WithoutEvent(regs: map<(Id, Id), EventRegistration>, id: Id): (r: map<(Id, Id), EventRegistration>)
      ensures forall k :: k in r <==> k in regs && k.0 != id
      ensures forall k :: k in r ==> r[k] == regs[k]
    {
      map k | k in regs && k.0 != id :: regs[k]
    }

    /** `deleteEvent`: the event's type counts one event fewer (stopping at
        zero) and the event goes, with its registrations (cascade). */
    method DeleteEvent(id: Id) returns (r: Result<()>)
      requires Valid()
      modifies this`events, this`registrations,
               (if id in events && events[id].eventTypeId.Some? then EventTypeAt(events[id].eventTypeId.value) else {})`eventCount
      ensures Valid()
      ensures r.Failure? <==> id !in old(events)
      ensures r.Failure? ==> r == Failure(NotFound("Event not found")) && events == old(events) &&
                             registrations == old(registrations)
      ensures r.Success? ==>
                events == old(events) - {id} &&
                registrations == WithoutEvent(old(registrations), id) &&
                var t := old(events[id].eventTypeId.value);
                eventTypes[t].eventCount == Decremented(old(eventTypes[t].eventCount))
    {
      if id !in events {
        return Failure(NotFound("Event not found"));
      }
      UncountEventOfType(events[id].eventTypeId.value);
      DropEventRows(id);
      r := Success(());
    }

    /** The type counts one event fewer, stopping at zero. */
    method UncountEventOfType(typeId: Id)
      requires Valid() && typeId in eventTypes
      modifies EventTypeAt(typeId)`eventCount
      ensures Valid()
      ensures eventTypes[typeId].eventCount == Decremented(old(eventTypes[typeId].eventCount))
    {
      eventTypes[typeId].DecrementEventCount();
    }

    /** The event row goes, and with it every registration row of the event. */
    method DropEventRows(id: Id)
      requires Valid()
      modifies this`events, this`registrations
      ensures Valid()
      ensures events == old(events) - {id} && registrations == WithoutEvent(old(registrations), id)
    {
      events := events - {id};
      registrations := WithoutEvent(registrations, id);
    }

    /** `cancelEvent`: the event is cancelled with the reason; its counts are
        untouched and registration is closed from now on. */
    method CancelEvent(id: Id, reason: string) returns (r: Result<Event>)
      requires Valid()
      modifies EventAt(id)`isCancelled, EventAt(id)`cancellationReason
      ensures Valid()
      ensures r.Failure? <==> id !in events
      ensures r.Failure? ==> r == Failure(NotFound("Event not found"))
      ensures r.Success? ==>
                r.value == events[id] && events[id].isCancelled &&
                events[id].cancellationReason == Some(reason) &&
                forall now :: !events[id].IsRegistrationOpen(now)
    {
      if id !in events {
        return Failure(NotFound("Event not found"));
      }
      var event := events[id];
      event.Cancel(reason);
      r := Success(event);
    }
  }
}
