/** A reader's comment on a blog post and its moderation state. */
module Comments {
  import opened Base
  import opened Text

  /** The longest preview shown for a comment or a contact message. */
  const PreviewLength: nat := 100

  class Comment {
    var id: Id
    var commentText: string
    /** Foreign keys to the post commented on and the writer. */
    var postId: Option<Id>
    var userId: Option<Id>
    var isApproved: bool
    var isFlagged: bool
    var isEdited: bool
    var likeCount: Option<int>
    var approvedAt: Option<Time>
    var approvedBy: Option<Id>

    /** The builder with its defaults: not approved, not flagged, not edited,
        no likes; so a new comment waits for moderation. */
    constructor (id: Id, commentText: string, postId: Id, userId: Id)
      ensures this.id == id && this.commentText == commentText
      ensures this.postId == Some(postId) && this.userId == Some(userId)
      ensures !isApproved && !isFlagged && !isEdited
      ensures likeCount == Some(0) && approvedAt.None? && approvedBy.None?
      ensures IsPending() && HasBuilderDefaults()
    {
      this.id := id;
      this.commentText := commentText;
      this.postId := Some(postId);
      this.userId := Some(userId);
      isApproved := false;
      isFlagged := false;
      isEdited := false;
      likeCount := Some(0);
      approvedAt := None;
      approvedBy := None;
    }

    /** The builder defaults: not approved, not flagged, not edited, no likes,
        no approver and no approval time. */
    predicate HasBuilderDefaults()
      reads this
    {
      !isApproved && !isFlagged && !isEdited && likeCount == Some(0) &&
      approvedAt.None? && approvedBy.None?
    }

    /** Waiting for moderation: neither approved nor flagged. */
    predicate IsPending()
      reads this
    {
      !isApproved && !isFlagged
    }

    /** Approval by an administrator; the comment is no longer pending. */
    method Approve(adminUserId: Id, now: Time)
      modifies this`isApproved, this`approvedAt, this`approvedBy
      ensures isApproved && approvedAt == Some(now) && approvedBy == Some(adminUserId)
      ensures !IsPending()
    {
      isApproved := true;
      approvedAt := Some(now);
      approvedBy := Some(adminUserId);
    }

    /** Flagging takes a comment out of the pending queue. */
    method Flag()
      modifies this`isFlagged
      ensures isFlagged && !IsPending()
    {
      isFlagged := true;
    }

    /** Unflagging puts the comment back in the pending queue exactly when it
        is not approved, which is the status it had before it was flagged
        if flagging was the only change. */
    method Unflag()
      modifies this`isFlagged
      ensures !isFlagged
      ensures IsPending() <==> !isApproved
    {
      isFlagged := false;
    }

    /** Sets the edited mark; the frame leaves every other field alone. */
    method MarkAsEdited()
      modifies this`isEdited
      ensures isEdited
    {
      isEdited := true;
    }

    /** Adds one like; a null count counts as zero. */
    method IncrementLikeCount()
      modifies this`likeCount
      ensures likeCount.Some? && OrZero(likeCount) == OrZero(old(likeCount)) + 1
    {
      likeCount := Incremented(likeCount);
    }

    /** Removes one like while the count is positive; otherwise nothing
        changes. */
    method DecrementLikeCount()
      modifies this`likeCount
      ensures OrZero(old(likeCount)) > 0 ==> likeCount == Some(OrZero(old(likeCount)) - 1)
      ensures OrZero(old(likeCount)) <= 0 ==> likeCount == old(likeCount)
      ensures OrZero(old(likeCount)) >= 0 ==> OrZero(likeCount) >= 0
    {
      likeCount := Decremented(likeCount);
    }

    /** The text cut to at most 100 characters: unchanged when it fits,
        otherwise its first 97 characters and "...". */
    function Preview(): (r: string)
      reads this
      ensures |r| <= PreviewLength
      ensures |commentText| <= PreviewLength ==> r == commentText
      ensures |commentText| > PreviewLength ==>
                |r| == PreviewLength && r[..97] == commentText[..97] && r[97..] == "..."
    {
      Abbreviated(commentText, PreviewLength)
    }

    /** Flagging and then unflagging a comment gives it back its pending
        status. */
    method FlagThenUnflag()
      modifies this`isFlagged
      ensures IsPending() <==> old(IsPending()) || (!isApproved && old(isFlagged))
      ensures !old(isFlagged) ==> (IsPending() <==> old(IsPending()))
    {
      Flag();
      Unflag();
    }
  }
}
