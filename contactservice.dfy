/** The contact service: the inbox of contact-form messages, kept as a map
    keyed by id. */
module ContactServices {
  import opened Base
  import opened Text
  import opened ContactMessages

  /** A contact-form submission (`ContactRequest`); the category defaults to
      GENERAL. */
  datatype ContactRequest = ContactRequest(
    name: string,
    email: string,
    phone: string,
    subject: string,
    message: string,
    category: string)

  function DefaultContactRequest(name: string, email: string, message: string): (r: ContactRequest)
    ensures r.category == DefaultCategory
    ensures r.name == name && r.email == email && r.message == message
  {
    ContactRequest(name, email, "", "", message, DefaultCategory)
  }

  /** The text of the error for an unknown message id: the id in decimal
      follows the fixed prefix. */
  function MessageNotFound(id: Id): (r: string)
    ensures |r| > 27 && r[..27] == "Message not found with id: " && DenotesInt(r[27..], id)
  {
    var prefix := "Message not found with id: ";
    var r := prefix + IntToDecimal(id);
    assert r[27..] == IntToDecimal(id);
    r
  }

  class ContactService {
    var messages: map<Id, ContactMessage>
    /** The identity counter of the message table. */
    var nextMessageId: Id

    /** Every message is stored under its own id, below the next id; so
        distinct keys hold distinct objects. */
    ghost predicate Valid()
      reads this, messages.Values
    {
      forall id :: id in messages ==> messages[id].id == id && id < nextMessageId
    }

    /** An empty inbox. */
    constructor ()
      ensures Valid() && messages == map[]
    {
      messages := map[];
      nextMessageId := 1;
    }

    /** The stored message with this id, as a frame. */
    function MessageAt(id: Id): set<ContactMessage>
      reads this
    {
      if id in messages then {messages[id]} else {}
    }

    /** `submitContactMessage`: a new pending message with normal priority
        and the requested category. */
    method SubmitContactMessage(request: ContactRequest, now: Time) returns (m: ContactMessage)
      requires Valid()
      modifies this`messages, this`nextMessageId
      ensures Valid()
      ensures fresh(m) && messages == old(messages)[m.id := m] && m.id !in old(messages)
      ensures m.name == request.name && m.email == request.email && m.phone == request.phone
      ensures m.subject == request.subject && m.message == request.message
      ensures m.category == request.category && m.priority == DefaultPriority
      ensures !m.isRead && !m.isReplied && !m.isSpam && m.IsPending()
      ensures m.createdAt == now
    {
      m := new ContactMessage(nextMessageId, request.name, request.email, request.phone,
                              request.subject, request.message, request.category, now);
      messages := messages[nextMessageId := m];
      nextMessageId := nextMessageId + 1;
    }

    /** `getMessageById`. */
    function MessageById(id: Id): (r: Result<ContactMessage>)
      reads this
      ensures r.Failure? <==> id !in messages
      ensures r.Failure? ==> r.error == NotFound(MessageNotFound(id))
      ensures r.Success? ==> r.value == messages[id]
    {
      if id in messages then Success(messages[id]) else Failure(NotFound(MessageNotFound(id)))
    }

    /** `markAsRead`: the addressed message is read by the administrator;
        no other message changes. */
    method MarkAsRead(id: Id, adminId: Id, now: Time) returns (r: Result<ContactMessage>)
      requires Valid()
      modifies MessageAt(id)`isRead, MessageAt(id)`readAt, MessageAt(id)`readBy
      ensures Valid()
      ensures r.Failure? ==> r == MessageById(id)
      ensures r.Success? <==> id in messages
      ensures r.Success? ==>
                r.value == messages[id] && r.value.isRead &&
                r.value.readBy == Some(adminId) && r.value.readAt == Some(now)
      ensures forall k :: k in messages && k != id ==> unchanged(messages[k])
    {
      if id !in messages {
        return MessageById(id);
      }
      var message := messages[id];
      message.MarkAsRead(adminId, now);
      r := Success(message);
    }

    /** `replyToMessage`: the addressed message is replied to (and read, if
        it was not); no other message changes. */
    method ReplyToMessage(id: Id, replyText: string, adminId: Id, now: Time) returns (r: Result<ContactMessage>)
      requires Valid()
      modifies MessageAt(id)`isReplied, MessageAt(id)`repliedAt, MessageAt(id)`repliedBy,
               MessageAt(id)`replyMessage, MessageAt(id)`isRead, MessageAt(id)`readAt, MessageAt(id)`readBy
      ensures Valid()
      ensures r.Failure? ==> r == MessageById(id)
      ensures r.Success? <==> id in messages
      ensures r.Success? ==>
                r.value == messages[id] && r.value.isReplied && r.value.isRead &&
                r.value.replyMessage == Some(replyText) && r.value.repliedBy == Some(adminId) &&
                r.value.repliedAt == Some(now) &&
                (old(messages[id].isRead) ==>
                   r.value.readAt == old(messages[id].readAt) && r.value.readBy == old(messages[id].readBy)) &&
                (!old(messages[id].isRead) ==> r.value.readAt == Some(now) && r.value.readBy == Some(adminId))
      ensures forall k :: k in messages && k != id ==> unchanged(messages[k])
    {
      if id !in messages {
        return MessageById(id);
      }
      var message := messages[id];
      message.Reply(replyText, adminId, now);
      r := Success(message);
    }

    /** `markAsSpam`: the addressed message is marked spam; no other message
        changes. */
    method MarkAsSpam(id: Id) returns (r: Result<ContactMessage>)
      requires Valid()
      modifies MessageAt(id)`isSpam
      ensures Valid()
      ensures r.Failure? ==> r == MessageById(id)
      ensures r.Success? <==> id in messages
      ensures r.Success? ==> r.value == messages[id] && r.value.isSpam && !r.value.IsPending()
      ensures forall k :: k in messages && k != id ==> unchanged(messages[k])
    {
      if id !in messages {
        return MessageById(id);
      }
      var message := messages[id];
      message.MarkAsSpam();
      r := Success(message);
    }

    /** `deleteMessage`: only the addressed message goes. */
    method DeleteMessage(id: Id) returns (r: Result<()>)
      requires Valid()
      modifies this`messages
      ensures Valid()
      ensures r.Failure? <==> id !in old(messages)
      ensures r.Failure? ==> r == Failure(NotFound(MessageNotFound(id))) && messages == old(messages)
      ensures r.Success? ==> messages == old(messages) - {id}
    {
      if id !in messages {
        return Failure(NotFound(MessageNotFound(id)));
      }
      messages := messages - {id};
      r := Success(());
    }

    /** `countPendingMessages`: unread, unreplied and not spam, which is
        exactly the pending state. */
    function CountPendingMessages(): (r: nat)
      reads this, messages.Values
      ensures r == |set id | id in messages && messages[id].IsPending()|
    {
      var counted := set id | id in messages && !messages[id].isRead && !messages[id].isReplied && !messages[id].isSpam;
      assert counted == set id | id in messages && messages[id].IsPending();
      |counted|
    }

    /** `countUnreadMessages`. */
    function CountUnreadMessages(): (r: nat)
      reads this, messages.Values
      ensures r == |UnreadMessages()|
    {
      |set id | id in messages && !messages[id].isRead|
    }

    /** `getUnreadMessages`, as a set of ids (the order is the database's). */
    function UnreadMessages(): (r: set<Id>)
      reads this, messages.Values
      ensures forall id :: id in r <==> id in messages && !messages[id].isRead
    {
      set id | id in messages && !messages[id].isRead
    }

    /** `getAllMessages`: every message that is not spam. */
    function AllMessages(): (r: set<Id>)
      reads this, messages.Values
      ensures forall id :: id in r <==> id in messages && !messages[id].isSpam
    {
      set id | id in messages && !messages[id].isSpam
    }

    /** `getPendingMessages`: unread and unreplied, without excluding spam. */
    function PendingMessages(): (r: set<Id>)
      reads this, messages.Values
      ensures forall id :: id in r <==> id in messages && !messages[id].isRead && !messages[id].isReplied
    {
      set id | id in messages && !messages[id].isRead && !messages[id].isReplied
    }

    /** `getRecentMessages`: created in the 24 hours before `now`. */
    function RecentMessages(now: Time): (r: set<Id>)
      reads this, messages.Values
      ensures forall id :: id in r <==> id in messages && messages[id].IsRecent(now)
    {
      set id | id in messages && messages[id].createdAt > now - RecentHours * SecondsPerHour
    }

    /** The pending list holds every pending message, and also the unread,
        unreplied messages marked as spam, which are not pending; so the
        pending count is at most the length of the pending list and falls
        short of it by the number of such spam messages. */
    lemma {:induction false} PendingListIncludesSpam()
      ensures forall id :: id in messages && messages[id].IsPending() ==> id in PendingMessages()
      ensures forall id :: id in PendingMessages() ==> (messages[id].IsPending() <==> !messages[id].isSpam)
      ensures CountPendingMessages() + |set id | id in PendingMessages() && messages[id].isSpam| ==
                |PendingMessages()|
    {
      var pending := set id | id in messages && messages[id].IsPending();
      var spam := set id | id in PendingMessages() && messages[id].isSpam;
      assert PendingMessages() == pending + spam;
      assert pending * spam == {};
    }
  }
}
