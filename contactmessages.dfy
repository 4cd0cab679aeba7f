/** A message sent through the contact form and its inbox state: read,
    replied, spam, priority. */
module ContactMessages {
  import opened Base
  import opened Text

  const DefaultCategory: string := "GENERAL"
  const DefaultPriority: string := "NORMAL"
  /** The longest message preview. */
  const MessagePreviewLength: nat := 100
  /** How long a message counts as recent. */
  const RecentHours: int := 24

  class ContactMessage {
    var id: Id
    var name: string
    var email: string
    var phone: string
    var subject: string
    var message: string
    var category: string
    var priority: string
    var isRead: bool
    var readAt: Option<Time>
    var readBy: Option<Id>
    var isReplied: bool
    var repliedAt: Option<Time>
    var repliedBy: Option<Id>
    var replyMessage: Option<string>
    var isSpam: bool
    var ipAddress: string
    var userAgent: string
    var referrer: string
    var createdAt: Time

    /** The builder with its defaults: normal priority, unread, unreplied,
        not spam; so a new message is pending. `now` is the creation
        timestamp. */
    constructor (id: Id, name: string, email: string, phone: string, subject: string,
                 message: string, category: string, now: Time)
      ensures this.id == id && this.name == name && this.email == email
      ensures this.phone == phone && this.subject == subject && this.message == message
      ensures this.category == category && priority == DefaultPriority
      ensures !isRead && readAt.None? && readBy.None?
      ensures !isReplied && repliedAt.None? && repliedBy.None? && replyMessage.None?
      ensures !isSpam && createdAt == now
      ensures IsPending() && !NeedsAttention()
    {
      this.id := id;
      this.name := name;
      this.email := email;
      this.phone := phone;
      this.subject := subject;
      this.message := message;
      this.category := category;
      priority := DefaultPriority;
      isRead := false;
      readAt := None;
      readBy := None;
      isReplied := false;
      repliedAt := None;
      repliedBy := None;
      replyMessage := None;
      isSpam := false;
      ipAddress := "";
      userAgent := "";
      referrer := "";
      createdAt := now;
    }

    /** Unread, unreplied and not spam. */
    predicate IsPending()
      reads this
    {
      !isRead && !isReplied && !isSpam
    }

    /** Read but not yet replied, and not spam. */
    predicate NeedsAttention()
      reads this
    {
      isRead && !isReplied && !isSpam
    }

    /** Read by an administrator at `now`. */
    method MarkAsRead(adminUserId: Id, now: Time)
      modifies this`isRead, this`readAt, this`readBy
      ensures isRead && readAt == Some(now) && readBy == Some(adminUserId)
      ensures !IsPending()
    {
      isRead := true;
      readAt := Some(now);
      readBy := Some(adminUserId);
    }

    /** Back to unread: who read it and when are forgotten. */
    method MarkAsUnread()
      modifies this`isRead, this`readAt, this`readBy
      ensures !isRead && readAt.None? && readBy.None?
      ensures !NeedsAttention()
      ensures IsPending() <==> !isReplied && !isSpam
    {
      isRead := false;
      readAt := None;
      readBy := None;
    }

    /** A reply by an administrator. An unread message is marked read by the
        same administrator; a message read before keeps its reader. */
    method Reply(replyText: string, adminUserId: Id, now: Time)
      modifies this`isReplied, this`repliedAt, this`repliedBy, this`replyMessage,
               this`isRead, this`readAt, this`readBy
      ensures isReplied && repliedAt == Some(now) && repliedBy == Some(adminUserId)
      ensures replyMessage == Some(replyText)
      ensures isRead
      ensures old(isRead) ==> readAt == old(readAt) && readBy == old(readBy)
      ensures !old(isRead) ==> readAt == Some(now) && readBy == Some(adminUserId)
      ensures !IsPending() && !NeedsAttention()
    {
      isReplied := true;
      repliedAt := Some(now);
      repliedBy := Some(adminUserId);
      replyMessage := Some(replyText);
      if !isRead {
        MarkAsRead(adminUserId, now);
      }
    }

    /** Marks the message as spam; it is then neither pending nor in need of
        attention. */
    method MarkAsSpam()
      modifies this`isSpam
      ensures isSpam
      ensures !IsPending() && !NeedsAttention()
    {
      isSpam := true;
    }

    /** Clears the spam mark; the read and reply flags decide the status
        again. */
    method MarkAsNotSpam()
      modifies this`isSpam
      ensures !isSpam
      ensures IsPending() <==> !isRead && !isReplied
      ensures NeedsAttention() <==> isRead && !isReplied
    {
      isSpam := false;
    }

    /** Stores the priority upper-cased, which is already in its final form:
        setting the stored value again changes nothing. */
    method SetPriorityLevel(level: string)
      modifies this`priority
      ensures priority == UpperAscii(level)
      ensures UpperAscii(priority) == priority
      ensures |priority| == |level|
    {
      priority := UpperAscii(level);
      UpperAsciiIdempotent(level);
    }

    /** The message cut to at most 100 characters: unchanged when it fits,
        otherwise its first 97 characters and "...". */
    function MessagePreview(): (r: string)
      reads this
      ensures |r| <= MessagePreviewLength
      ensures |message| <= MessagePreviewLength ==> r == message
      ensures |message| > MessagePreviewLength ==>
                |r| == MessagePreviewLength && r[..97] == message[..97] && r[97..] == "..."
    {
      Abbreviated(message, MessagePreviewLength)
    }

    /** Created less than 24 hours before `now`. */
    function IsRecent(now: Time): (r: bool)
      reads this
      ensures r <==> now - createdAt < RecentHours * SecondsPerHour
      ensures createdAt >= now ==> r
    {
      createdAt > now - RecentHours * SecondsPerHour
    }

    /** The three inbox states are exclusive: pending, needing attention, and
        handled (replied or spam). */
    lemma StatusExclusive()
      ensures !(IsPending() && NeedsAttention())
      ensures isReplied || isSpam ==> !IsPending() && !NeedsAttention()
      ensures !isReplied && !isSpam ==> IsPending() != NeedsAttention()
    {
    }
  }
}
