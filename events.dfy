/** An event: its capacity, its attendee counter, the registration window and
    its cancellation. */
module Events {
  import opened Base
  import opened Text
  import opened Registrations

  /** The editable fields of an event as an administrator submits them
      (`CreateEventRequest`); nullable text columns are plain strings. */
  datatype EventRequest = EventRequest(
    title: string,
    description: string,
    dateTime: Time,
    location: string,
    eventTypeId: Id,
    maxAttendees: Option<int>,
    durationMinutes: Option<int>,
    featuredImage: string,
    featuredImageAlt: string,
    meetingLink: string,
    requirements: string,
    agenda: string,
    registrationRequired: bool,
    isPublished: bool,
    isFeatured: bool)

  /** A request that leaves the optional fields out: registration required,
      not published, not featured, no capacity, no duration. */
  function DefaultEventRequest(title: string, description: string, dateTime: Time,
                               location: string, eventTypeId: Id): (r: EventRequest)
    ensures r.registrationRequired && !r.isPublished && !r.isFeatured
    ensures r.maxAttendees.None? && r.durationMinutes.None?
    ensures r.title == title && r.eventTypeId == eventTypeId && r.dateTime == dateTime
  {
    EventRequest(title, description, dateTime, location, eventTypeId, None, None,
                 "", "", "", "", "", true, false, false)
  }

  class Event {
    var id: Id
    var title: string
    var description: string
    var dateTime: Time
    var location: string
    var slug: Option<string>
    /** Foreign keys to the event type and the creating user. */
    var eventTypeId: Option<Id>
    var creatorId: Option<Id>
    var registrations: set<EventRegistration>
    /** Capacity; null means unlimited. */
    var maxAttendees: Option<int>
    var currentAttendees: Option<int>
    var waitlistEnabled: bool
    var featuredImage: string
    var featuredImageAlt: string
    var durationMinutes: Option<int>
    var meetingLink: string
    var requirements: string
    var agenda: string
    var registrationRequired: bool
    var registrationOpensAt: Option<Time>
    var registrationClosesAt: Option<Time>
    var isPublished: bool
    var isFeatured: bool
    var isCancelled: bool
    var cancellationReason: Option<string>
    var viewCount: Option<int>
    var shareCount: Option<int>

    /** The builder call of event creation: the request's fields, no
        registrations, a zero attendee count, no waitlist, no registration
        window, not cancelled, zero views and shares, no slug yet. */
    constructor (id: Id, request: EventRequest, creatorId: Id)
      ensures this.id == id && title == request.title && description == request.description
      ensures dateTime == request.dateTime && location == request.location
      ensures eventTypeId == Some(request.eventTypeId) && this.creatorId == Some(creatorId)
      ensures maxAttendees == request.maxAttendees && durationMinutes == request.durationMinutes
      ensures featuredImage == request.featuredImage && featuredImageAlt == request.featuredImageAlt
      ensures meetingLink == request.meetingLink && requirements == request.requirements
      ensures agenda == request.agenda
      ensures registrationRequired == request.registrationRequired
      ensures isPublished == request.isPublished && isFeatured == request.isFeatured
      ensures registrations == {} && currentAttendees == Some(0) && !waitlistEnabled
      ensures registrationOpensAt.None? && registrationClosesAt.None?
      ensures !isCancelled && cancellationReason.None?
      ensures viewCount == Some(0) && shareCount == Some(0) && slug.None?
      ensures HoldsRequest(request) && HasBuilderDefaults()
    {
      this.id := id;
      title := request.title;
      description := request.description;
      dateTime := request.dateTime;
      location := request.location;
      slug := None;
      eventTypeId := Some(request.eventTypeId);
      this.creatorId := Some(creatorId);
      registrations := {};
      maxAttendees := request.maxAttendees;
      currentAttendees := Some(0);
      waitlistEnabled := false;
      featuredImage := request.featuredImage;
      featuredImageAlt := request.featuredImageAlt;
      durationMinutes := request.durationMinutes;
      meetingLink := request.meetingLink;
      requirements := request.requirements;
      agenda := request.agenda;
      registrationRequired := request.registrationRequired;
      registrationOpensAt := None;
      registrationClosesAt := None;
      isPublished := request.isPublished;
      isFeatured := request.isFeatured;
      isCancelled := false;
      cancellationReason := None;
      viewCount := Some(0);
      shareCount := Some(0);
    }

    /** The builder defaults of a new event: no registrations, a zero
        attendee count, no waitlist, no registration window, not cancelled and
        no reason, zero views and shares. */
    predicate HasBuilderDefaults()
      reads this
    {
      registrations == {} && currentAttendees == Some(0) && !waitlistEnabled &&
      registrationOpensAt.None? && registrationClosesAt.None? &&
      !isCancelled && cancellationReason.None? && viewCount == Some(0) && shareCount == Some(0)
    }

    /** The editable fields hold the request's values. */
    predicate HoldsRequest(request: EventRequest)
      reads this
    {
      title == request.title && description == request.description &&
      dateTime == request.dateTime && location == request.location &&
      eventTypeId == Some(request.eventTypeId) &&
      maxAttendees == request.maxAttendees && durationMinutes == request.durationMinutes &&
      featuredImage == request.featuredImage && featuredImageAlt == request.featuredImageAlt &&
      meetingLink == request.meetingLink && requirements == request.requirements &&
      agenda == request.agenda && registrationRequired == request.registrationRequired &&
      isPublished == request.isPublished && isFeatured == request.isFeatured
    }

    /** Lombok's `@Data` hash of this event takes in its registrations, and the
        hash of each of those takes in its event: once one of the set points
        back at this event, hashing the event (or anything pointing at it)
        recurses until the stack runs out. */
    predicate HashCycles()
      reads this, registrations
    {
      exists q :: q in registrations && q.eventId == Some(id)
    }

    /** `addRegistration` as written: `registrations.add` hashes the registration first, which
        overflows when it already points at this event and the event's
        hash cycles; then nothing changes. Otherwise it is attached. */
    method AddRegistration(registration: EventRegistration) returns (r: Result<()>)
      modifies this`registrations, this`currentAttendees, registration`eventId
      ensures old(registration.eventId == Some(id) && HashCycles()) ==>
                r == Failure(RuntimeFault(StackOverflow)) &&
                registrations == old(registrations) && currentAttendees == old(currentAttendees) && registration.eventId == old(registration.eventId)
      ensures !old(registration.eventId == Some(id) && HashCycles()) ==>
                r == Success(()) && registrations == old(registrations) + {registration} && registration.eventId == Some(id) &&
                currentAttendees == Incremented(old(currentAttendees))
    {
      if registration.eventId == Some(id) && HashCycles() {
        r := Failure(RuntimeFault(StackOverflow));
      } else {
        AttachRegistration(registration);
        r := Success(());
      }
    }

    /** `removeRegistration` as written: `registrations.remove` hashes the registration first, which
        overflows when it points at this event and the event's hash
        cycles; then nothing changes. Otherwise it is detached. */
    method RemoveRegistration(registration: EventRegistration) returns (r: Result<()>)
      modifies this`registrations, this`currentAttendees, registration`eventId
      ensures old(registration.eventId == Some(id) && HashCycles()) ==>
                r == Failure(RuntimeFault(StackOverflow)) &&
                registrations == old(registrations) && currentAttendees == old(currentAttendees) && registration.eventId == old(registration.eventId)
      ensures !old(registration.eventId == Some(id) && HashCycles()) ==>
                r == Success(()) && registrations == old(registrations) - {registration} && registration.eventId.None? &&
                currentAttendees == Decremented(old(currentAttendees))
    {
      if registration.eventId == Some(id) && HashCycles() {
        r := Failure(RuntimeFault(StackOverflow));
      } else {
        DetachRegistration(registration);
        r := Success(());
      }
    }

    /** The link `addRegistration` is meant to make: the registration joins, points at this
        event and is counted. */
    method AttachRegistration(registration: EventRegistration)
      modifies this`registrations, this`currentAttendees, registration`eventId
      ensures registrations == old(registrations) + {registration}
      ensures registration.eventId == Some(id)
      ensures currentAttendees == Incremented(old(currentAttendees))
    {
      registrations := registrations + {registration};
      registration.eventId := Some(id);
      IncrementAttendeeCount();
    }

    /** The unlink `removeRegistration` is meant to make: the registration leaves, points at no
        event and is uncounted (stopping at zero). */
    method DetachRegistration(registration: EventRegistration)
      modifies this`registrations, this`currentAttendees, registration`eventId
      ensures registrations == old(registrations) - {registration}
      ensures registration.eventId.None?
      ensures currentAttendees == Decremented(old(currentAttendees))
    {
      registrations := registrations - {registration};
      registration.eventId := None;
      DecrementAttendeeCount();
    }

    /** As written, adding a registration and then removing it never completes:
        either the add overflows and nothing changes, or the add links and
        counts the registration, which closes the hash cycle, and the remove
        overflows. */
    method AddThenRemoveRegistration(registration: EventRegistration) returns (r: Result<()>)
      modifies this`registrations, this`currentAttendees, registration`eventId
      ensures r == Failure(RuntimeFault(StackOverflow))
      ensures old(registration.eventId == Some(id) && HashCycles()) ==>
                registrations == old(registrations) && currentAttendees == old(currentAttendees) && registration.eventId == old(registration.eventId)
      ensures !old(registration.eventId == Some(id) && HashCycles()) ==>
                registrations == old(registrations) + {registration} && registration.eventId == Some(id) &&
                currentAttendees == Incremented(old(currentAttendees))
    {
      r := AddRegistration(registration);
      if r.Success? {
        assert registration in registrations && registration.eventId == Some(id);
        r := RemoveRegistration(registration);
      }
    }

    /** Attaching a registration that is not yet linked and detaching it again leaves
        the set as it was, restores a non-negative count (a null count comes
        back as 0), and leaves the registration pointing at no event. */
    method AttachThenDetachRegistration(registration: EventRegistration)
      requires registration !in registrations
      requires OrZero(currentAttendees) >= 0
      modifies this`registrations, this`currentAttendees, registration`eventId
      ensures registrations == old(registrations)
      ensures currentAttendees == Some(OrZero(old(currentAttendees)))
      ensures registration.eventId.None?
    {
      AttachRegistration(registration);
      DetachRegistration(registration);
      DecrementUndoesIncrement(old(currentAttendees));
    }

    /** Adds one attendee; a null count counts as zero. */
    method IncrementAttendeeCount()
      modifies this`currentAttendees
      ensures currentAttendees.Some?
      ensures OrZero(currentAttendees) == OrZero(old(currentAttendees)) + 1
    {
      currentAttendees := Incremented(currentAttendees);
    }

    /** Removes one attendee while the count is positive; otherwise nothing
        changes, so a non-negative count stays non-negative. */
    method DecrementAttendeeCount()
      modifies this`currentAttendees
      ensures OrZero(old(currentAttendees)) > 0 ==>
                currentAttendees == Some(OrZero(old(currentAttendees)) - 1)
      ensures OrZero(old(currentAttendees)) <= 0 ==> currentAttendees == old(currentAttendees)
      ensures OrZero(old(currentAttendees)) >= 0 ==> OrZero(currentAttendees) >= 0
    {
      currentAttendees := Decremented(currentAttendees);
    }

    /** Whether the capacity is reached. A null count reads as 0 here (the
        source unboxes it). */
    predicate IsFull()
      reads this
    {
      maxAttendees.Some? && OrZero(currentAttendees) >= maxAttendees.value
    }

    /** Seats left; null for an unlimited event. */
    function AvailableSeats(): (r: Option<int>)
      reads this
      ensures r.None? <==> maxAttendees.None?
      ensures r.Some? ==> r.value + OrZero(currentAttendees) == maxAttendees.value
    {
      if maxAttendees.None? then None
      else Some(maxAttendees.value - OrZero(currentAttendees))
    }

    /** Whether `now` lies in the registration window and the event takes
        registrations: checked in the source's order. */
    predicate IsRegistrationOpen(now: Time)
      reads this
    {
      if registrationOpensAt.Some? && now < registrationOpensAt.value then false
      else if registrationClosesAt.Some? && now > registrationClosesAt.value then false
      else if isCancelled || (IsFull() && !waitlistEnabled) then false
      else registrationRequired && isPublished
    }

    /** Starts after `now` and is not cancelled. */
    predicate IsUpcoming(now: Time)
      reads this
    {
      dateTime > now && !isCancelled
    }

    /** Started before `now`. */
    predicate IsPast(now: Time)
      reads this
    {
      dateTime < now
    }

    /** Falls on the same calendar day as `now`. */
    function IsToday(now: Time): (r: bool)
      reads this
      ensures r <==> exists d :: InDay(dateTime, d) && InDay(now, d)
      ensures r ==> -SecondsPerDay < dateTime - now < SecondsPerDay
      ensures dateTime == now ==> r
    {
      DayOfTime(dateTime);
      DayOfTime(now);
      assert InDay(now, now / SecondsPerDay);
      dateTime / SecondsPerDay == now / SecondsPerDay
    }

    /** The start plus the duration; one hour when no duration is set. */
    function EndTime(): (r: Time)
      reads this
      ensures durationMinutes.None? ==> r - dateTime == SecondsPerHour
      ensures durationMinutes.Some? ==> r - dateTime == durationMinutes.value * SecondsPerMinute
      ensures r > dateTime <==> durationMinutes.None? || durationMinutes.value > 0
    {
      if durationMinutes.None? then dateTime + SecondsPerHour
      else dateTime + durationMinutes.value * SecondsPerMinute
    }

    /** Cancels the event and records why. Attendee counts are not touched,
        and registration is closed at every instant afterwards. */
    method Cancel(reason: string)
      modifies this`isCancelled, this`cancellationReason
      ensures isCancelled && cancellationReason == Some(reason)
      ensures forall now :: !IsRegistrationOpen(now)
    {
      isCancelled := true;
      cancellationReason := Some(reason);
    }

    /** The insert/update hook: fills a null or empty slug from the title;
        a non-empty slug is kept. */
    method GenerateSlug()
      modifies this`slug
      ensures old(slug).Some? && old(slug).value != "" ==> slug == old(slug)
      ensures old(slug).None? || old(slug).value == "" ==> slug == Some(Slugify(title))
      ensures slug.Some? && (slug != old(slug) ==> IsSlug(slug.value))
      ensures SlugSettled(slug, title)
    {
      SlugHook(slug, title);
      slug := SlugAfterHook(slug, title);
    }

    method IncrementViewCount()
      modifies this`viewCount
      ensures viewCount.Some? && OrZero(viewCount) == OrZero(old(viewCount)) + 1
    {
      viewCount := Incremented(viewCount);
    }

    /** An event is full exactly when it is capped and no seat is left. */
    lemma FullExactlyWhenNoSeatLeft()
      ensures IsFull() <==> AvailableSeats().Some? && AvailableSeats().value <= 0
    {
    }

    /** Seats left are never negative while the count is within capacity. */
    lemma SeatsNonNegativeWithinCapacity()
      requires maxAttendees.Some? && OrZero(currentAttendees) <= maxAttendees.value
      ensures AvailableSeats().Some? && AvailableSeats().value >= 0
    {
    }

    /** The registration window, stated as one condition: not before it
        opens, not after it closes, not cancelled, not full unless a waitlist
        is enabled, registration required and published. */
    lemma RegistrationOpenExactly(now: Time)
      ensures IsRegistrationOpen(now) <==>
                (registrationOpensAt.None? || now >= registrationOpensAt.value) &&
                (registrationClosesAt.None? || now <= registrationClosesAt.value) &&
                !isCancelled && (!IsFull() || waitlistEnabled) &&
                registrationRequired && isPublished
    {
    }

    /** A full event whose waitlist is enabled still counts as open. */
    lemma FullEventWithWaitlistIsOpen(now: Time)
      requires IsFull() && waitlistEnabled
      requires registrationOpensAt.None? || now >= registrationOpensAt.value
      requires registrationClosesAt.None? || now <= registrationClosesAt.value
      requires !isCancelled && registrationRequired && isPublished
      ensures IsRegistrationOpen(now)
    {
    }

    /** An event is never both upcoming and past, and at its own start it is
        neither. */
    lemma UpcomingAndPastExclusive(now: Time)
      ensures !(IsUpcoming(now) && IsPast(now))
      ensures dateTime == now ==> !IsUpcoming(now) && !IsPast(now)
    {
    }
  }
}
