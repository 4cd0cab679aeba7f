/** A user's registration for an event (the `event_registrations` table) and
    its attendance life cycle. */
module Registrations {
  import opened Base

  /** The values the source writes into `attendance_status`. */
  datatype AttendanceStatus = Registered | Attended | NoShow | Cancelled

  class EventRegistration {
    var id: Id
    /** Foreign keys to the event and the user (set to null when unlinked). */
    var eventId: Option<Id>
    var userId: Option<Id>
    var registrationDate: Time
    var attendanceStatus: AttendanceStatus
    var isWaitlisted: bool
    var waitlistPosition: Option<int>
    var reminderSent: bool
    var confirmationSent: bool
    var checkedIn: bool
    var checkInTime: Option<Time>
    var checkedInBy: Option<Id>
    var isCancelled: bool
    var cancelledAt: Option<Time>
    var cancellationReason: Option<string>

    /** A registration counts while it is neither cancelled nor moved past
        REGISTERED. */
    predicate IsActive()
      reads this
    {
      !isCancelled && attendanceStatus == Registered
    }

    /** The builder with its defaults: REGISTERED, not waitlisted, not
        cancelled, nothing sent, not checked in. */
    constructor (id: Id, eventId: Id, userId: Id, now: Time)
      ensures this.id == id && this.eventId == Some(eventId) && this.userId == Some(userId)
      ensures registrationDate == now
      ensures attendanceStatus == Registered && !isWaitlisted && waitlistPosition.None?
      ensures !reminderSent && !confirmationSent
      ensures !checkedIn && checkInTime.None? && checkedInBy.None?
      ensures !isCancelled && cancelledAt.None? && cancellationReason.None?
      ensures IsActive()
    {
      this.id := id;
      this.eventId := Some(eventId);
      this.userId := Some(userId);
      registrationDate := now;
      attendanceStatus := Registered;
      isWaitlisted := false;
      waitlistPosition := None;
      reminderSent := false;
      confirmationSent := false;
      checkedIn := false;
      checkInTime := None;
      checkedInBy := None;
      isCancelled := false;
      cancelledAt := None;
      cancellationReason := None;
    }

    /** Check-in by an administrator. */
    method MarkAsAttended(adminUserId: Id, now: Time)
      modifies this`attendanceStatus, this`checkedIn, this`checkInTime, this`checkedInBy
      ensures attendanceStatus == Attended && checkedIn
      ensures checkInTime == Some(now) && checkedInBy == Some(adminUserId)
      ensures !IsActive()
    {
      attendanceStatus := Attended;
      checkedIn := true;
      checkInTime := Some(now);
      checkedInBy := Some(adminUserId);
    }

    method MarkAsNoShow()
      modifies this`attendanceStatus, this`checkedIn
      ensures attendanceStatus == NoShow && !checkedIn
      ensures !IsActive()
    {
      attendanceStatus := NoShow;
      checkedIn := false;
    }

    /** Cancellation keeps the row (and its unique (event, user) key). */
    method Cancel(reason: string, now: Time)
      modifies this`isCancelled, this`cancelledAt, this`cancellationReason, this`attendanceStatus
      ensures isCancelled && attendanceStatus == Cancelled
      ensures cancelledAt == Some(now) && cancellationReason == Some(reason)
      ensures !IsActive()
    {
      isCancelled := true;
      cancelledAt := Some(now);
      cancellationReason := Some(reason);
      attendanceStatus := Cancelled;
    }

    /** Moves a waitlisted registration to REGISTERED; the cancelled flag is
        left as it is, so a cancelled registration stays inactive. */
    method ConfirmFromWaitlist()
      modifies this`isWaitlisted, this`waitlistPosition, this`attendanceStatus
      ensures !isWaitlisted && waitlistPosition.None? && attendanceStatus == Registered
      ensures IsActive() <==> !isCancelled
      ensures old(isCancelled) ==> !IsActive()
    {
      isWaitlisted := false;
      waitlistPosition := None;
      attendanceStatus := Registered;
    }

    /** Puts the registration on the waitlist; its status is not touched. */
    method AddToWaitlist(position: int)
      modifies this`isWaitlisted, this`waitlistPosition
      ensures isWaitlisted && waitlistPosition == Some(position)
      ensures IsActive() <==> old(IsActive())
    {
      isWaitlisted := true;
      waitlistPosition := Some(position);
    }

    method MarkConfirmationSent()
      modifies this`confirmationSent
      ensures confirmationSent
    {
      confirmationSent := true;
    }

    method MarkReminderSent()
      modifies this`reminderSent
      ensures reminderSent
    {
      reminderSent := true;
    }
  }
}
