/** An event type (Workshop, Meeting, ...) with its cached event count. */
module EventTypes {
  import opened Base
  import opened Text
  import opened Events

  class EventType {
    var id: Id
    var name: string
    var description: string
    var slug: Option<string>
    var events: set<Event>
    var displayOrder: Option<int>
    var requiresRegistration: bool
    var hasCapacityLimit: bool
    var isActive: bool
    var isFeatured: bool
    var eventCount: Option<int>
    var totalAttendees: Option<int>

    /** The builder defaults: no events, zero counts, active, not featured. */
    constructor (id: Id, name: string, description: string)
      ensures this.id == id && this.name == name && this.description == description
      ensures slug.None? && events == {}
      ensures displayOrder == Some(0) && requiresRegistration && !hasCapacityLimit
      ensures isActive && !isFeatured
      ensures eventCount == Some(0) && totalAttendees == Some(0)
      ensures !HasEvents()
    {
      this.id := id;
      this.name := name;
      this.description := description;
      slug := None;
      events := {};
      displayOrder := Some(0);
      requiresRegistration := true;
      hasCapacityLimit := false;
      isActive := true;
      isFeatured := false;
      eventCount := Some(0);
      totalAttendees := Some(0);
    }

    /** Lombok's `@Data` hash of this event type takes in its events, and the
        hash of each of those takes in its event type: once one of the set points
        back at this event type, hashing the event type (or anything pointing at it)
        recurses until the stack runs out. */
    predicate HashCycles()
      reads this, events
    {
      exists q :: q in events && q.eventTypeId == Some(id)
    }

    /** `addEvent` as written: `events.add` hashes the event first, which
        overflows when it already points at this event type and the event type's
        hash cycles; then nothing changes. Otherwise it is attached. */
    method AddEvent(event: Event) returns (r: Result<()>)
      modifies this`events, this`eventCount, event`eventTypeId
      ensures old(event.eventTypeId == Some(id) && HashCycles()) ==>
                r == Failure(RuntimeFault(StackOverflow)) &&
                events == old(events) && eventCount == old(eventCount) && event.eventTypeId == old(event.eventTypeId)
      ensures !old(event.eventTypeId == Some(id) && HashCycles()) ==>
                r == Success(()) && events == old(events) + {event} && event.eventTypeId == Some(id) &&
                eventCount == Incremented(old(eventCount))
    {
      if event.eventTypeId == Some(id) && HashCycles() {
        r := Failure(RuntimeFault(StackOverflow));
      } else {
        AttachEvent(event);
        r := Success(());
      }
    }

    /** `removeEvent` as written: `events.remove` hashes the event first, which
        overflows when it points at this event type and the event type's hash
        cycles; then nothing changes. Otherwise it is detached. */
    method RemoveEvent(event: Event) returns (r: Result<()>)
      modifies this`events, this`eventCount, event`eventTypeId
      ensures old(event.eventTypeId == Some(id) && HashCycles()) ==>
                r == Failure(RuntimeFault(StackOverflow)) &&
                events == old(events) && eventCount == old(eventCount) && event.eventTypeId == old(event.eventTypeId)
      ensures !old(event.eventTypeId == Some(id) && HashCycles()) ==>
                r == Success(()) && events == old(events) - {event} && event.eventTypeId.None? &&
                eventCount == Decremented(old(eventCount))
    {
      if event.eventTypeId == Some(id) && HashCycles() {
        r := Failure(RuntimeFault(StackOverflow));
      } else {
        DetachEvent(event);
        r := Success(());
      }
    }

    /** The link `addEvent` is meant to make: the event joins, points at this
        event type and is counted. */
    method AttachEvent(event: Event)
      modifies this`events, this`eventCount, event`eventTypeId
      ensures events == old(events) + {event}
      ensures event.eventTypeId == Some(id)
      ensures eventCount == Incremented(old(eventCount))
    {
      events := events + {event};
      event.eventTypeId := Some(id);
      IncrementEventCount();
    }

    /** The unlink `removeEvent` is meant to make: the event leaves, points at no
        event type and is uncounted (stopping at zero). */
    method DetachEvent(event: Event)
      modifies this`events, this`eventCount, event`eventTypeId
      ensures events == old(events) - {event}
      ensures event.eventTypeId.None?
      ensures eventCount == Decremented(old(eventCount))
    {
      events := events - {event};
      event.eventTypeId := None;
      DecrementEventCount();
    }

    /** As written, adding a event and then removing it never completes:
        either the add overflows and nothing changes, or the add links and
        counts the event, which closes the hash cycle, and the remove
        overflows. */
    method AddThenRemoveEvent(event: Event) returns (r: Result<()>)
      modifies this`events, this`eventCount, event`eventTypeId
      ensures r == Failure(RuntimeFault(StackOverflow))
      ensures old(event.eventTypeId == Some(id) && HashCycles()) ==>
                events == old(events) && eventCount == old(eventCount) && event.eventTypeId == old(event.eventTypeId)
      ensures !old(event.eventTypeId == Some(id) && HashCycles()) ==>
                events == old(events) + {event} && event.eventTypeId == Some(id) &&
                eventCount == Incremented(old(eventCount))
    {
      r := AddEvent(event);
      if r.Success? {
        assert event in events && event.eventTypeId == Some(id);
        r := RemoveEvent(event);
      }
    }

    /** Attaching a event that is not yet linked and detaching it again leaves
        the set as it was, restores a non-negative count (a null count comes
        back as 0), and leaves the event pointing at no event type. */
    method AttachThenDetachEvent(event: Event)
      requires event !in events
      requires OrZero(eventCount) >= 0
      modifies this`events, this`eventCount, event`eventTypeId
      ensures events == old(events)
      ensures eventCount == Some(OrZero(old(eventCount)))
      ensures event.eventTypeId.None?
    {
      AttachEvent(event);
      DetachEvent(event);
      DecrementUndoesIncrement(old(eventCount));
    }

    /** Adds one event; a null count counts as zero. */
    method IncrementEventCount()
      modifies this`eventCount
      ensures eventCount.Some? && OrZero(eventCount) == OrZero(old(eventCount)) + 1
      ensures HasEvents() <==> OrZero(old(eventCount)) >= 0
    {
      eventCount := Incremented(eventCount);
    }

    /** Removes one event while the count is positive; otherwise nothing
        changes. */
    method DecrementEventCount()
      modifies this`eventCount
      ensures OrZero(old(eventCount)) > 0 ==> eventCount == Some(OrZero(old(eventCount)) - 1)
      ensures OrZero(old(eventCount)) <= 0 ==> eventCount == old(eventCount)
      ensures OrZero(old(eventCount)) >= 0 ==> OrZero(eventCount) >= 0
    {
      eventCount := Decremented(eventCount);
    }

    /** Adds `count` attendees (any amount, negative included); a null total
        counts as zero. */
    method AddAttendees(count: int)
      modifies this`totalAttendees
      ensures totalAttendees.Some? && OrZero(totalAttendees) == OrZero(old(totalAttendees)) + count
    {
      totalAttendees := Some(OrZero(totalAttendees) + count);
    }

    /** The insert/update hook: fills a null or empty slug from the name. */
    method GenerateSlug()
      modifies this`slug
      ensures old(slug).Some? && old(slug).value != "" ==> slug == old(slug)
      ensures old(slug).None? || old(slug).value == "" ==> slug == Some(Slugify(name))
      ensures slug.Some? && (slug != old(slug) ==> IsSlug(slug.value))
      ensures SlugSettled(slug, name)
    {
      SlugHook(slug, name);
      slug := SlugAfterHook(slug, name);
    }

    predicate HasEvents()
      reads this
    {
      eventCount.Some? && eventCount.value > 0
    }

    /** `"%s (%d events)"` of the name and the count, null shown as 0: the
        number in the parentheses reads back as the count. */
    function DisplayNameWithCount(): (r: string)
      reads this
      ensures |r| > |name| + 9
      ensures r == name + " (" + r[|name| + 2..|r| - 8] + " events)"
      ensures DenotesInt(r[|name| + 2..|r| - 8], OrZero(eventCount))
    {
      var digits := IntToDecimal(OrZero(eventCount));
      var r := name + " (" + digits + " events)";
      assert r[|name| + 2..|r| - 8] == digits;
      r
    }

    /** The type has events exactly when its count, read as 0 when null, is
        positive. */
    lemma HasEventsExactly()
      ensures HasEvents() <==> OrZero(eventCount) > 0
    {
    }
  }
}
