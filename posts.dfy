/** A blog post: its publication state, its engagement counters, the
    metadata its insert/update hook derives, and its comma-separated tags. */
module Posts {
  import opened Base
  import opened Text
  import opened Comments

  /** The editable fields of a post as an author submits them
      (`CreatePostRequest`); nullable text columns are plain strings, the
      nullable tag column an option. */
  datatype PostRequest = PostRequest(
    title: string,
    content: string,
    excerpt: string,
    categoryId: Id,
    featuredImage: string,
    featuredImageAlt: string,
    metaTitle: string,
    metaDescription: string,
    metaKeywords: string,
    tags: Option<string>,
    isPublished: bool,
    isFeatured: bool,
    commentsEnabled: bool)

  /** A request that leaves the optional fields out: not published, not
      featured, comments enabled, no tags. */
  function DefaultPostRequest(title: string, content: string, categoryId: Id): (r: PostRequest)
    ensures !r.isPublished && !r.isFeatured && r.commentsEnabled && r.tags.None?
    ensures r.title == title && r.content == content && r.categoryId == categoryId
  {
    PostRequest(title, content, "", categoryId, "", "", "", "", "", None, false, false, true)
  }

  /** Words per minute of the reading-time estimate. */
  const WordsPerMinute: nat := 200

  /** `max(1, content.split("\\s+").length / 200)`: whole minutes at 200
      words a minute, never less than one. */
  function ReadingTime(content: string): (r: int)
    ensures r >= 1
    ensures r == 1 || r * WordsPerMinute <= WordCount(content)
    ensures WordCount(content) < (r + 1) * WordsPerMinute
  {
    var minutes := WordCount(content) / WordsPerMinute;
    if minutes > 1 then minutes else 1
  }

  /** The longest short title. */
  const ShortTitleLength: nat := 50

  /** How many days a post counts as recent after publication. */
  const RecentDays: int := 7

  class Post {
    var id: Id
    var title: string
    var content: string
    var excerpt: string
    var slug: Option<string>
    /** Foreign keys to the author and the category. */
    var authorId: Option<Id>
    var categoryId: Option<Id>
    var comments: set<Comment>
    var featuredImage: string
    var featuredImageAlt: string
    var isPublished: bool
    var publishedAt: Option<Time>
    var isFeatured: bool
    var isPinned: bool
    var viewCount: Option<int>
    var likeCount: Option<int>
    var commentCount: Option<int>
    var shareCount: Option<int>
    var metaTitle: string
    var metaDescription: string
    var metaKeywords: string
    var readingTimeMinutes: Option<int>
    var tags: Option<string>
    var language: string
    var commentsEnabled: bool
    var isLocked: bool
    var lastViewedAt: Option<Time>

    /** The builder call of post creation: the request's fields, the author
        and category links, and the builder defaults (no comments, zero
        counters, unpinned, unlocked, English, no slug, no reading time, no
        publication date yet). */
    constructor (id: Id, request: PostRequest, authorId: Id)
      ensures this.id == id && HoldsRequest(request)
      ensures this.authorId == Some(authorId)
      ensures slug.None? && comments == {} && publishedAt.None?
      ensures !isPinned && !isLocked && language == "en"
      ensures viewCount == Some(0) && likeCount == Some(0)
      ensures commentCount == Some(0) && shareCount == Some(0)
      ensures readingTimeMinutes.None? && lastViewedAt.None?
      ensures HasBuilderDefaults()
    {
      this.id := id;
      title := request.title;
      content := request.content;
      excerpt := request.excerpt;
      slug := None;
      this.authorId := Some(authorId);
      categoryId := Some(request.categoryId);
      comments := {};
      featuredImage := request.featuredImage;
      featuredImageAlt := request.featuredImageAlt;
      isPublished := request.isPublished;
      publishedAt := None;
      isFeatured := request.isFeatured;
      isPinned := false;
      viewCount := Some(0);
      likeCount := Some(0);
      commentCount := Some(0);
      shareCount := Some(0);
      metaTitle := request.metaTitle;
      metaDescription := request.metaDescription;
      metaKeywords := request.metaKeywords;
      readingTimeMinutes := None;
      tags := request.tags;
      language := "en";
      commentsEnabled := request.commentsEnabled;
      isLocked := false;
      lastViewedAt := None;
    }

    /** The builder defaults that neither publication nor the insert hook
        touch: no comments, zero views, likes and shares, unpinned, unlocked,
        English, never viewed. */
    predicate HasBuilderDefaults()
      reads this
    {
      comments == {} && viewCount == Some(0) && likeCount == Some(0) && shareCount == Some(0) &&
      !isPinned && !isLocked && language == "en" && lastViewedAt.None?
    }

    /** The fields an author edits hold the request's values. */
    predicate HoldsEdits(request: PostRequest)
      reads this
    {
      title == request.title && content == request.content &&
      excerpt == request.excerpt && categoryId == Some(request.categoryId) &&
      featuredImage == request.featuredImage && featuredImageAlt == request.featuredImageAlt &&
      metaTitle == request.metaTitle && metaDescription == request.metaDescription &&
      metaKeywords == request.metaKeywords && tags == request.tags &&
      isFeatured == request.isFeatured && commentsEnabled == request.commentsEnabled
    }

    /** Every field of the request, the publish flag included, is held. */
    predicate HoldsRequest(request: PostRequest)
      reads this
    {
      HoldsEdits(request) && isPublished == request.isPublished
    }

    /** The publish flag and the publication date agree. */
    predicate PublishedConsistent()
      reads this
    {
      isPublished <==> publishedAt.Some?
    }

    /** The insert/update hook has nothing left to do. */
    predicate MetadataSettled()
      reads this
    {
      SlugSettled(slug, title) && readingTimeMinutes.Some? &&
      (isPublished ==> publishedAt.Some?)
    }

    /** What the blog service keeps true of every stored post: its category
        exists, its comment count is not negative, and the publication state
        and the hook's metadata are settled. */
    predicate StoredConsistently(categoryIds: set<Id>)
      reads this
    {
      categoryId.Some? && categoryId.value in categoryIds && OrZero(commentCount) >= 0 &&
      PublishedConsistent() && MetadataSettled()
    }

    predicate IsDraft()
      reads this
    {
      !isPublished
    }

    /** Views plus twice the likes, three times the comments and five times
        the shares, each null read as 0. */
    function TotalEngagement(): (r: int)
      reads this
      ensures (OrZero(viewCount) >= 0 && OrZero(likeCount) >= 0 &&
               OrZero(commentCount) >= 0 && OrZero(shareCount) >= 0) ==>
                r >= OrZero(viewCount) + OrZero(likeCount) + OrZero(commentCount) + OrZero(shareCount)
      ensures (viewCount == Some(0) && likeCount == Some(0) &&
               commentCount == Some(0) && shareCount == Some(0)) ==> r == 0
    {
      OrZero(viewCount) + OrZero(likeCount) * 2 + OrZero(commentCount) * 3 + OrZero(shareCount) * 5
    }

    /** Lombok's `@Data` hash of this post takes in its comments, and the
        hash of each of those takes in its post: once one of the set points
        back at this post, hashing the post (or anything pointing at it)
        recurses until the stack runs out. */
    predicate HashCycles()
      reads this, comments
    {
      exists q :: q in comments && q.postId == Some(id)
    }

    /** `addComment` as written: `comments.add` hashes the comment first, which
        overflows when it already points at this post and the post's
        hash cycles; then nothing changes. Otherwise it is attached. */
    method AddComment(comment: Comment) returns (r: Result<()>)
      modifies this`comments, this`commentCount, comment`postId
      ensures old(comment.postId == Some(id) && HashCycles()) ==>
                r == Failure(RuntimeFault(StackOverflow)) &&
                comments == old(comments) && commentCount == old(commentCount) && comment.postId == old(comment.postId)
      ensures !old(comment.postId == Some(id) && HashCycles()) ==>
                r == Success(()) && comments == old(comments) + {comment} && comment.postId == Some(id) &&
                commentCount == Incremented(old(commentCount))
    {
      if comment.postId == Some(id) && HashCycles() {
        r := Failure(RuntimeFault(StackOverflow));
      } else {
        AttachComment(comment);
        r := Success(());
      }
    }

    /** `removeComment` as written: `comments.remove` hashes the comment first, which
        overflows when it points at this post and the post's hash
        cycles; then nothing changes. Otherwise it is detached. */
    method RemoveComment(comment: Comment) returns (r: Result<()>)
      modifies this`comments, this`commentCount, comment`postId
      ensures old(comment.postId == Some(id) && HashCycles()) ==>
                r == Failure(RuntimeFault(StackOverflow)) &&
                comments == old(comments) && commentCount == old(commentCount) && comment.postId == old(comment.postId)
      ensures !old(comment.postId == Some(id) && HashCycles()) ==>
                r == Success(()) && comments == old(comments) - {comment} && comment.postId.None? &&
                commentCount == Decremented(old(commentCount))
    {
      if comment.postId == Some(id) && HashCycles() {
        r := Failure(RuntimeFault(StackOverflow));
      } else {
        DetachComment(comment);
        r := Success(());
      }
    }

    /** The link `addComment` is meant to make: the comment joins, points at this
        post and is counted. */
    method AttachComment(comment: Comment)
      modifies this`comments, this`commentCount, comment`postId
      ensures comments == old(comments) + {comment}
      ensures comment.postId == Some(id)
      ensures commentCount == Incremented(old(commentCount))
    {
      comments := comments + {comment};
      comment.postId := Some(id);
      IncrementCommentCount();
    }

    /** The unlink `removeComment` is meant to make: the comment leaves, points at no
        post and is uncounted (stopping at zero). */
    method DetachComment(comment: Comment)
      modifies this`comments, this`commentCount, comment`postId
      ensures comments == old(comments) - {comment}
      ensures comment.postId.None?
      ensures commentCount == Decremented(old(commentCount))
    {
      comments := comments - {comment};
      comment.postId := None;
      DecrementCommentCount();
    }

    /** As written, adding a comment and then removing it never completes:
        either the add overflows and nothing changes, or the add links and
        counts the comment, which closes the hash cycle, and the remove
        overflows. */
    method AddThenRemoveComment(comment: Comment) returns (r: Result<()>)
      modifies this`comments, this`commentCount, comment`postId
      ensures r == Failure(RuntimeFault(StackOverflow))
      ensures old(comment.postId == Some(id) && HashCycles()) ==>
                comments == old(comments) && commentCount == old(commentCount) && comment.postId == old(comment.postId)
      ensures !old(comment.postId == Some(id) && HashCycles()) ==>
                comments == old(comments) + {comment} && comment.postId == Some(id) &&
                commentCount == Incremented(old(commentCount))
    {
      r := AddComment(comment);
      if r.Success? {
        assert comment in comments && comment.postId == Some(id);
        r := RemoveComment(comment);
      }
    }

    /** Attaching a comment that is not yet linked and detaching it again leaves
        the set as it was, restores a non-negative count (a null count comes
        back as 0), and leaves the comment pointing at no post. */
    method AttachThenDetachComment(comment: Comment)
      requires comment !in comments
      requires OrZero(commentCount) >= 0
      modifies this`comments, this`commentCount, comment`postId
      ensures comments == old(comments)
      ensures commentCount == Some(OrZero(old(commentCount)))
      ensures comment.postId.None?
    {
      AttachComment(comment);
      DetachComment(comment);
      DecrementUndoesIncrement(old(commentCount));
    }

    /** Counts a view and records when it happened; engagement rises by 1. */
    method IncrementViewCount(now: Time)
      modifies this`viewCount, this`lastViewedAt
      ensures viewCount.Some? && OrZero(viewCount) == OrZero(old(viewCount)) + 1
      ensures lastViewedAt == Some(now)
      ensures TotalEngagement() == old(TotalEngagement()) + 1
    {
      viewCount := Incremented(viewCount);
      lastViewedAt := Some(now);
    }

    /** Adds one like; engagement rises by 2. */
    method IncrementLikeCount()
      modifies this`likeCount
      ensures likeCount.Some? && OrZero(likeCount) == OrZero(old(likeCount)) + 1
      ensures TotalEngagement() == old(TotalEngagement()) + 2
    {
      likeCount := Incremented(likeCount);
    }

    /** Removes one like while the count is positive. */
    method DecrementLikeCount()
      modifies this`likeCount
      ensures likeCount == Decremented(old(likeCount))
      ensures OrZero(old(likeCount)) >= 0 ==> OrZero(likeCount) >= 0
      ensures OrZero(old(likeCount)) > 0 ==> TotalEngagement() == old(TotalEngagement()) - 2
      ensures OrZero(old(likeCount)) <= 0 ==> TotalEngagement() == old(TotalEngagement())
    {
      likeCount := Decremented(likeCount);
    }

    /** Adds one comment to the count; engagement rises by 3. */
    method IncrementCommentCount()
      modifies this`commentCount
      ensures commentCount.Some? && OrZero(commentCount) == OrZero(old(commentCount)) + 1
      ensures TotalEngagement() == old(TotalEngagement()) + 3
    {
      commentCount := Incremented(commentCount);
    }

    /** Removes one comment from the count while it is positive. */
    method DecrementCommentCount()
      modifies this`commentCount
      ensures commentCount == Decremented(old(commentCount))
      ensures OrZero(old(commentCount)) >= 0 ==> OrZero(commentCount) >= 0
      ensures OrZero(old(commentCount)) > 0 ==> TotalEngagement() == old(TotalEngagement()) - 3
    {
      commentCount := Decremented(commentCount);
    }

    /** Adds one share; engagement rises by 5. */
    method IncrementShareCount()
      modifies this`shareCount
      ensures shareCount.Some? && OrZero(shareCount) == OrZero(old(shareCount)) + 1
      ensures TotalEngagement() == old(TotalEngagement()) + 5
    {
      shareCount := Incremented(shareCount);
    }

    /** Publishes now; a post published earlier gets a new date. */
    method Publish(now: Time)
      modifies this`isPublished, this`publishedAt
      ensures isPublished && publishedAt == Some(now)
      ensures PublishedConsistent() && !IsDraft()
    {
      isPublished := true;
      publishedAt := Some(now);
    }

    /** Takes the post back to draft and forgets its publication date. */
    method Unpublish()
      modifies this`isPublished, this`publishedAt
      ensures !isPublished && publishedAt.None?
      ensures PublishedConsistent() && IsDraft()
    {
      isPublished := false;
      publishedAt := None;
    }

    /** The insert/update hook: fills a null or empty slug from the title,
        a missing reading time from the content, and a missing publication
        date of a published post with `now`. It never overwrites a value
        that is set, and afterwards it has nothing left to do. */
    method GenerateSlugAndMetadata(now: Time)
      modifies this`slug, this`readingTimeMinutes, this`publishedAt
      ensures slug == SlugAfterHook(old(slug), title)
      ensures old(slug).None? || old(slug).value == "" ==> IsSlug(slug.value)
      ensures old(readingTimeMinutes).Some? ==> readingTimeMinutes == old(readingTimeMinutes)
      ensures old(readingTimeMinutes).None? ==> readingTimeMinutes == Some(ReadingTime(content))
      ensures readingTimeMinutes.Some? && (old(readingTimeMinutes).None? ==> readingTimeMinutes.value >= 1)
      ensures isPublished && old(publishedAt).None? ==> publishedAt == Some(now)
      ensures !isPublished || old(publishedAt).Some? ==> publishedAt == old(publishedAt)
      ensures MetadataSettled()
      ensures old(PublishedConsistent()) ==> PublishedConsistent()
      ensures old(MetadataSettled()) ==>
                slug == old(slug) && readingTimeMinutes == old(readingTimeMinutes) &&
                publishedAt == old(publishedAt)
    {
      SlugHook(slug, title);
      slug := SlugAfterHook(slug, title);
      if readingTimeMinutes.None? {
        readingTimeMinutes := Some(ReadingTime(content));
      }
      if isPublished && publishedAt.None? {
        publishedAt := Some(now);
      }
    }

    /** `getTagsArray`: no tags for a null or empty column, else the column
        split on ','. */
    function TagsArray(): (r: seq<string>)
      reads this
      ensures tags.None? || tags == Some("") ==> r == []
      ensures tags.Some? && tags.value != "" && ',' !in tags.value ==> r == [tags.value]
    {
      TagList(tags)
    }

    /** `setTagsFromArray`: the tags joined with ','. Reading them back gives
        the same tags when none holds a ',' and the last is not empty. */
    method SetTagsFromArray(tagsArray: seq<string>)
      modifies this`tags
      ensures tags == TagColumn(tagsArray)
      ensures ((forall k :: 0 <= k < |tagsArray| ==> ',' !in tagsArray[k]) &&
               (tagsArray == [] || tagsArray[|tagsArray| - 1] != "")) ==>
                TagsArray() == tagsArray
    {
      tags := TagColumn(tagsArray);
      if (forall k :: 0 <= k < |tagsArray| ==> ',' !in tagsArray[k]) &&
         (tagsArray == [] || tagsArray[|tagsArray| - 1] != "") {
        TagsRoundTrip(tagsArray);
      }
    }

    /** Published less than seven days before `now`. */
    function IsRecent(now: Time): (r: bool)
      reads this
      ensures r <==> publishedAt.Some? && now - publishedAt.value < RecentDays * SecondsPerDay
      ensures publishedAt.Some? && publishedAt.value >= now ==> r
      ensures publishedAt.None? ==> !r
    {
      publishedAt.Some? && publishedAt.value > now - RecentDays * SecondsPerDay
    }

    /** The title cut to at most 50 characters: unchanged when it fits,
        otherwise its first 47 characters and "...". */
    function ShortTitle(): (r: string)
      reads this
      ensures |r| <= ShortTitleLength
      ensures |title| <= ShortTitleLength ==> r == title
      ensures |title| > ShortTitleLength ==>
                |r| == ShortTitleLength && r[..47] == title[..47] && r[47..] == "..."
    {
      Abbreviated(title, ShortTitleLength)
    }
  }
}
