/** The blog service: post administration, which keeps each category's post
    count, and comments, which keep each post's comment count. The
    repositories are maps keyed by id. */
module BlogServices {
  import opened Base
  import opened Text
  import opened Comments
  import opened Posts
  import opened Categories

  const PostNotFound: string := "Post not found"
  const CategoryNotFound: string := "Category not found"
  const UserNotFound: string := "User not found"
  const CommentNotFound: string := "Comment not found"
  const CommentsDisabled: string := "Comments are disabled for this post"

  class BlogService {
    var posts: map<Id, Post>
    var comments: map<Id, Comment>
    var categories: map<Id, Category>
    /** The user repository as this service sees it: email to user id. */
    var userIdsByEmail: map<string, Id>
    /** The identity counters of the post and comment tables. */
    var nextPostId: Id
    var nextCommentId: Id

    /** What the database and the earlier operations guarantee: every row is
        stored under its own key, every foreign key resolves, counters are
        non-negative, the publish flag agrees with the publication date, and
        the insert/update hook of every post has nothing left to do. */
    ghost predicate Valid()
      reads this, posts.Values, comments.Values, categories.Values
    {
      PostRowsKeyed() && CategoryRowsKeyed() && CommentRowsLinked() &&
      PostRowsConsistent() && CategoryRowsConsistent()
    }

    ghost predicate PostRowsKeyed()
      reads this, posts.Values
    {
      forall id :: id in posts ==> posts[id].id == id && id < nextPostId
    }

    ghost predicate CategoryRowsKeyed()
      reads this, categories.Values
    {
      forall id :: id in categories ==> categories[id].id == id
    }

    ghost predicate CommentRowsLinked()
      reads this, comments.Values
    {
      forall id :: id in comments ==>
        comments[id].id == id && id < nextCommentId &&
        comments[id].postId.Some? && comments[id].postId.value in posts
    }

    ghost predicate PostRowsConsistent()
      reads this, posts.Values
    {
      forall id :: id in posts ==> posts[id].StoredConsistently(categories.Keys)
    }

    ghost predicate CategoryRowsConsistent()
      reads this, categories.Values
    {
      forall id :: id in categories ==> OrZero(categories[id].postCount) >= 0
    }

    /** An empty store. */
    constructor (userIdsByEmail: map<string, Id>)
      ensures Valid()
      ensures posts == map[] && comments == map[] && categories == map[]
      ensures this.userIdsByEmail == userIdsByEmail
    {
      posts := map[];
      comments := map[];
      categories := map[];
      this.userIdsByEmail := userIdsByEmail;
      nextPostId := 1;
      nextCommentId := 1;
    }

    /** The stored post with this id, as a frame. */
    function PostAt(id: Id): set<Post>
      reads this
    {
      if id in posts then {posts[id]} else {}
    }

    /** The stored category with this id, as a frame. */
    function CategoryAt(id: Id): set<Category>
      reads this
    {
      if id in categories then {categories[id]} else {}
    }

    /** The stored comment with this id, as a frame. */
    function CommentAt(id: Id): set<Comment>
      reads this
    {
      if id in comments then {comments[id]} else {}
    }

    /** The category of the stored post `id`, as a frame. */
    function CategoryOfPost(id: Id): set<Category>
      reads this, posts.Values
    {
      if id in posts && posts[id].categoryId.Some? then CategoryAt(posts[id].categoryId.value) else {}
    }

    /** The post of the stored comment `id`, as a frame. */
    function PostOfComment(id: Id): set<Post>
      reads this, comments.Values
    {
      if id in comments && comments[id].postId.Some? then PostAt(comments[id].postId.value) else {}
    }

    // ------------------------------------------------------------ posts

    /** `getPostById`: any stored post, published or not. */
    function PostById(id: Id): (r: Result<Post>)
      reads this
      ensures r.Failure? <==> id !in posts
      ensures r.Failure? ==> r.error == NotFound("Post not found with id: " + IntToDecimal(id))
      ensures r.Success? ==> r.value == posts[id]
    {
      if id in posts then Success(posts[id])
      else Failure(NotFound("Post not found with id: " + IntToDecimal(id)))
    }

    /** `getPostBySlug`: a published post carrying the slug, with one more
        view counted at `now` and saved; no other post's views change. */
    method PostBySlug(slug: string, now: Time) returns (r: Result<Post>)
      requires Valid()
      modifies posts.Values`viewCount, posts.Values`lastViewedAt
      ensures Valid()
      ensures r.Failure? <==>
                forall id :: id in posts ==> !(posts[id].slug == Some(slug) && posts[id].isPublished)
      ensures r.Failure? ==> r.error == NotFound("Post not found with slug: " + slug)
      ensures r.Success? ==>
                var id := r.value.id;
                id in posts && posts[id] == r.value && r.value.slug == Some(slug) && r.value.isPublished &&
                OrZero(r.value.viewCount) == OrZero(old(r.value.viewCount)) + 1 &&
                r.value.lastViewedAt == Some(now)
      ensures forall id :: id in posts && (r.Failure? || id != r.value.id) ==>
                posts[id].viewCount == old(posts[id].viewCount) &&
                posts[id].lastViewedAt == old(posts[id].lastViewedAt)
    {
      if id :| id in posts && posts[id].slug == Some(slug) && posts[id].isPublished {
        var post := posts[id];
        post.IncrementViewCount(now);
        r := Success(post);
      } else {
        r := Failure(NotFound("Post not found with slug: " + slug));
      }
    }

    /** `createPost`: the author and the category must exist; the new post
        holds the request, is published now when the request says so, has
        its slug and reading time filled in by the insert hook, and its
        category counts one more post. */
    method CreatePost(request: PostRequest, email: string, now: Time) returns (r: Result<Post>)
      requires Valid()
      modifies this`posts, this`nextPostId, CategoryAt(request.categoryId)`postCount
      ensures Valid()
      ensures email !in userIdsByEmail ==> r == Failure(NotFound(UserNotFound))
      ensures email in userIdsByEmail && request.categoryId !in categories ==>
                r == Failure(NotFound(CategoryNotFound))
      ensures r.Failure? ==> posts == old(posts)
      ensures r.Failure? && request.categoryId in categories ==>
                categories[request.categoryId].postCount == old(categories[request.categoryId].postCount)
      ensures r.Success? <==> email in userIdsByEmail && request.categoryId in categories
      ensures r.Success? ==>
                var p := r.value;
                fresh(p) && posts == old(posts)[p.id := p] && p.id !in old(posts) &&
                p.HoldsRequest(request) && p.authorId == Some(userIdsByEmail[email]) &&
                p.publishedAt == (if request.isPublished then Some(now) else None) &&
                p.slug == Some(Slugify(request.title)) &&
                p.readingTimeMinutes == Some(ReadingTime(request.content)) &&
                p.commentCount == Some(0) && p.HasBuilderDefaults() &&
                OrZero(categories[request.categoryId].postCount) ==
                  OrZero(old(categories[request.categoryId].postCount)) + 1
    {
      if email !in userIdsByEmail {
        return Failure(NotFound(UserNotFound));
      }
      if request.categoryId !in categories {
        return Failure(NotFound(CategoryNotFound));
      }
      var post := InsertPost(request, userIdsByEmail[email], now);
      r := Success(post);
    }

    /** The saves of `createPost` once both lookups succeeded. */
    method InsertPost(request: PostRequest, authorId: Id, now: Time) returns (p: Post)
      requires Valid() && request.categoryId in categories
      modifies this`posts, this`nextPostId, CategoryAt(request.categoryId)`postCount
      ensures Valid()
      ensures fresh(p) && posts == old(posts)[p.id := p] && p.id !in old(posts)
      ensures p.HoldsRequest(request) && p.authorId == Some(authorId)
      ensures p.publishedAt == (if request.isPublished then Some(now) else None)
      ensures p.slug == Some(Slugify(request.title))
      ensures p.readingTimeMinutes == Some(ReadingTime(request.content))
      ensures p.commentCount == Some(0)
      ensures p.HasBuilderDefaults()
      ensures OrZero(categories[request.categoryId].postCount) ==
                OrZero(old(categories[request.categoryId].postCount)) + 1
    {
      p := StorePost(request, authorId, now);
      CountPostOfCategory(request.categoryId);
    }

    /** The new post row. */
    method StorePost(request: PostRequest, authorId: Id, now: Time) returns (p: Post)
      requires Valid() && request.categoryId in categories
      modifies this`posts, this`nextPostId
      ensures Valid()
      ensures fresh(p) && posts == old(posts)[p.id := p] && p.id !in old(posts)
      ensures p.HoldsRequest(request) && p.authorId == Some(authorId)
      ensures p.publishedAt == (if request.isPublished then Some(now) else None)
      ensures p.slug == Some(Slugify(request.title))
      ensures p.readingTimeMinutes == Some(ReadingTime(request.content))
      ensures p.commentCount == Some(0)
      ensures p.HasBuilderDefaults()
    {
      p := NewPost(nextPostId, request, authorId, now);
      posts := posts[nextPostId := p];
      nextPostId := nextPostId + 1;
      assert PostRowsKeyed();
      assert CommentRowsLinked();
      assert PostRowsConsistent();
    }

    /** The builder call of `createPost`, the publication of a published
        request, and the insert hook. */
    static method NewPost(id: Id, request: PostRequest, authorId: Id, now: Time) returns (p: Post)
      ensures fresh(p) && p.id == id
      ensures p.HoldsRequest(request) && p.authorId == Some(authorId)
      ensures p.publishedAt == (if request.isPublished then Some(now) else None)
      ensures p.slug == Some(Slugify(request.title))
      ensures p.readingTimeMinutes == Some(ReadingTime(request.content))
      ensures p.commentCount == Some(0)
      ensures p.HasBuilderDefaults()
      ensures p.PublishedConsistent() && p.MetadataSettled()
    {
      p := new Post(id, request, authorId);
      if request.isPublished {
        p.Publish(now);
      }
      p.GenerateSlugAndMetadata(now);
    }

    /** The category counts one more post. */
    method CountPostOfCategory(categoryId: Id)
      requires Valid() && categoryId in categories
      modifies CategoryAt(categoryId)`postCount
      ensures Valid()
      ensures OrZero(categories[categoryId].postCount) == OrZero(old(categories[categoryId].postCount)) + 1
    {
      categories[categoryId].IncrementPostCount();
      assert CategoryRowsConsistent();
    }

    /** `updatePost`: copies the editable fields, publishes or unpublishes
        only when the requested status differs from the current one, and runs
        the update hook. A post that stays published keeps its publication
        date, the reading time is not recomputed for the new content, and no
        category's post count moves, even when the category changes. */
    method UpdatePost(id: Id, request: PostRequest, now: Time) returns (r: Result<Post>)
      requires Valid()
      modifies PostAt(id)`title, PostAt(id)`content, PostAt(id)`excerpt, PostAt(id)`categoryId,
               PostAt(id)`featuredImage, PostAt(id)`featuredImageAlt, PostAt(id)`metaTitle,
               PostAt(id)`metaDescription, PostAt(id)`metaKeywords, PostAt(id)`tags,
               PostAt(id)`isFeatured, PostAt(id)`commentsEnabled, PostAt(id)`isPublished,
               PostAt(id)`publishedAt, PostAt(id)`slug, PostAt(id)`readingTimeMinutes
      ensures Valid()
      ensures id !in posts ==> r == Failure(NotFound(PostNotFound))
      ensures id in posts && request.categoryId !in categories ==>
                r == Failure(NotFound(CategoryNotFound))
      ensures r.Success? <==> id in posts && request.categoryId in categories
      ensures r.Failure? ==> id in posts ==> unchanged(posts[id])
      ensures r.Success? ==>
                r.value == posts[id] && posts[id].HoldsRequest(request) &&
                posts[id].slug == SlugAfterHook(old(posts[id].slug), request.title) &&
                posts[id].readingTimeMinutes == old(posts[id].readingTimeMinutes)
      ensures r.Success? ==>
                posts[id].publishedAt ==
                  if !request.isPublished then None
                  else if old(posts[id].isPublished) then old(posts[id].publishedAt)
                  else Some(now)
      ensures forall c :: c in categories ==> categories[c].postCount == old(categories[c].postCount)
    {
      if id !in posts {
        return Failure(NotFound(PostNotFound));
      }
      if request.categoryId !in categories {
        return Failure(NotFound(CategoryNotFound));
      }
      EditPost(id, request, now);
      r := Success(posts[id]);
    }

    /** The saves of `updatePost` once both lookups succeeded. */
    method EditPost(id: Id, request: PostRequest, now: Time)
      requires Valid() && id in posts && request.categoryId in categories
      modifies PostAt(id)`title, PostAt(id)`content, PostAt(id)`excerpt, PostAt(id)`categoryId,
               PostAt(id)`featuredImage, PostAt(id)`featuredImageAlt, PostAt(id)`metaTitle,
               PostAt(id)`metaDescription, PostAt(id)`metaKeywords, PostAt(id)`tags,
               PostAt(id)`isFeatured, PostAt(id)`commentsEnabled, PostAt(id)`isPublished,
               PostAt(id)`publishedAt, PostAt(id)`slug, PostAt(id)`readingTimeMinutes
      ensures Valid()
      ensures posts[id].HoldsRequest(request)
      ensures posts[id].slug == SlugAfterHook(old(posts[id].slug), request.title)
      ensures posts[id].readingTimeMinutes == old(posts[id].readingTimeMinutes)
      ensures posts[id].publishedAt ==
                if !request.isPublished then None
                else if old(posts[id].isPublished) then old(posts[id].publishedAt)
                else Some(now)
    {
      var post := posts[id];
      ApplyPostRequest(post, request, now);
      assert PostRowsConsistent();
    }

    /** The setters of `updatePost`, the publish transition and the update
        hook, on one post. */
    static method ApplyPostRequest(p: Post, request: PostRequest, now: Time)
      requires p.PublishedConsistent() && p.readingTimeMinutes.Some?
      modifies p`title, p`content, p`excerpt, p`categoryId, p`featuredImage, p`featuredImageAlt,
               p`metaTitle, p`metaDescription, p`metaKeywords, p`tags, p`isFeatured,
               p`commentsEnabled, p`isPublished, p`publishedAt, p`slug, p`readingTimeMinutes
      ensures p.HoldsRequest(request)
      ensures p.slug == SlugAfterHook(old(p.slug), request.title)
      ensures p.readingTimeMinutes == old(p.readingTimeMinutes)
      ensures p.publishedAt ==
                if !request.isPublished then None
                else if old(p.isPublished) then old(p.publishedAt)
                else Some(now)
      ensures p.PublishedConsistent() && p.MetadataSettled()
    {
      CopyPostEdits(p, request);
      if request.isPublished && !p.isPublished {
        p.Publish(now);
      } else if !request.isPublished && p.isPublished {
        p.Unpublish();
      }
      p.GenerateSlugAndMetadata(now);
    }

    /** The setter calls of `updatePost`, one per editable field. */
    static method CopyPostEdits(p: Post, request: PostRequest)
      modifies p`title, p`content, p`excerpt, p`categoryId, p`featuredImage, p`featuredImageAlt,
               p`metaTitle, p`metaDescription, p`metaKeywords, p`tags, p`isFeatured, p`commentsEnabled
      ensures p.HoldsEdits(request)
    {
      p.title := request.title;
      p.content := request.content;
      p.excerpt := request.excerpt;
      p.categoryId := Some(request.categoryId);
      p.featuredImage := request.featuredImage;
      p.featuredImageAlt := request.featuredImageAlt;
      p.metaTitle := request.metaTitle;
      p.metaDescription := request.metaDescription;
      p.metaKeywords := request.metaKeywords;
      p.tags := request.tags;
      p.isFeatured := request.isFeatured;
      p.commentsEnabled := request.commentsEnabled;
    }

    /** The comment rows that survive deleting the post `id`: the cascade
        removes exactly the comments on that post. */
    static function WithoutPost(rows: map<Id, Comment>, id: Id): (r: map<Id, Comment>)
      reads rows.Values
      ensures forall k :: k in r <==> k in rows && rows[k].postId != Some(id)
      ensures forall k :: k in r ==> r[k] == rows[k]
    {
      map k | k in rows && rows[k].postId != Some(id) :: rows[k]
    }

    /** `deletePost`: the post's category counts one post fewer (stopping at
        zero) and the post goes, with its comments (cascade). */
    method DeletePost(id: Id) returns (r: Result<()>)
      requires Valid()
      modifies this`posts, this`comments, CategoryOfPost(id)`postCount
      ensures Valid()
      ensures r.Failure? <==> id !in old(posts)
      ensures r.Failure? ==> r == Failure(NotFound(PostNotFound)) && posts == old(posts) &&
                             comments == old(comments)
      ensures r.Success? ==>
                posts == old(posts) - {id} &&
                comments == WithoutPost(old(comments), id) &&
                var c := old(posts[id].categoryId.value);
                categories[c].postCount == Decremented(old(categories[c].postCount))
    {
      if id !in posts {
        return Failure(NotFound(PostNotFound));
      }
      UncountPostOfCategory(posts[id].categoryId.value);
      DropPostRows(id);
      r := Success(());
    }

    /** The category counts one post fewer, stopping at zero. */
    method UncountPostOfCategory(categoryId: Id)
      requires Valid() && categoryId in categories
      modifies CategoryAt(categoryId)`postCount
      ensures Valid()
      ensures categories[categoryId].postCount == Decremented(old(categories[categoryId].postCount))
    {
      categories[categoryId].DecrementPostCount();
      assert CategoryRowsConsistent();
    }

    /** The post row goes, and with it every comment on the post. */
    method DropPostRows(id: Id)
      requires Valid()
      modifies this`posts, this`comments
      ensures Valid()
      ensures posts == old(posts) - {id} && comments == WithoutPost(old(comments), id)
    {
      comments := WithoutPost(comments, id);
      posts := posts - {id};
    }

    /** `togglePublish`: a published post goes back to draft and loses its
        publication date; a draft is published now. */
    method TogglePublish(id: Id, now: Time) returns (r: Result<Post>)
      requires Valid()
      modifies PostAt(id)`isPublished, PostAt(id)`publishedAt
      ensures Valid()
      ensures r.Failure? <==> id !in posts
      ensures r.Failure? ==> r == Failure(NotFound(PostNotFound))
      ensures r.Success? ==>
                r.value == posts[id] &&
                posts[id].isPublished == !old(posts[id].isPublished) &&
                posts[id].publishedAt == (if posts[id].isPublished then Some(now) else None)
    {
      if id !in posts {
        return Failure(NotFound(PostNotFound));
      }
      FlipPublished(id, now);
      r := Success(posts[id]);
    }

    /** The flip of `togglePublish` on a stored post. */
    method FlipPublished(id: Id, now: Time)
      requires Valid() && id in posts
      modifies PostAt(id)`isPublished, PostAt(id)`publishedAt
      ensures Valid()
      ensures posts[id].isPublished == !old(posts[id].isPublished)
      ensures posts[id].publishedAt == (if posts[id].isPublished then Some(now) else None)
    {
      var post := posts[id];
      if post.isPublished {
        post.Unpublish();
      } else {
        post.Publish(now);
      }
      assert PostRowsConsistent();
    }

    /** Toggling twice restores the publish flag; a post that was published
        comes back with the second call's date, not its original one. */
    method TogglePublishTwice(id: Id, first: Time, second: Time) returns (r: Result<Post>)
      requires Valid()
      modifies PostAt(id)`isPublished, PostAt(id)`publishedAt
      ensures Valid()
      ensures r.Failure? <==> id !in posts
      ensures r.Success? ==>
                posts[id].isPublished == old(posts[id].isPublished) &&
                (old(posts[id].isPublished) ==> posts[id].publishedAt == Some(second)) &&
                (!old(posts[id].isPublished) ==> posts[id].publishedAt.None?)
    {
      r := TogglePublish(id, first);
      if r.Success? {
        r := TogglePublish(id, second);
      }
    }

    // ------------------------------------------------------------ comments

    /** The checks of `addComment` in their order; the first that fails
        decides the error. */
    function CommentRejection(postId: Id, email: string): (r: Option<Error>)
      reads this, posts.Values
      ensures postId !in posts ==> r == Some(NotFound(PostNotFound))
      ensures postId in posts && !posts[postId].commentsEnabled ==> r == Some(BadRequest(CommentsDisabled))
      ensures r.None? <==> postId in posts && posts[postId].commentsEnabled && email in userIdsByEmail
    {
      if postId !in posts then Some(NotFound(PostNotFound))
      else if !posts[postId].commentsEnabled then Some(BadRequest(CommentsDisabled))
      else if email !in userIdsByEmail then Some(NotFound(UserNotFound))
      else None
    }

    /** `addComment`: either nothing changes and the first failing check is
        reported, or one new unapproved comment is stored and the post's
        comment count rises by exactly one. */
    method AddComment(postId: Id, commentText: string, email: string) returns (r: Result<Comment>)
      requires Valid()
      modifies this`comments, this`nextCommentId, PostAt(postId)`commentCount
      ensures Valid()
      ensures r.Failure? <==> old(CommentRejection(postId, email)).Some?
      ensures r.Failure? ==>
                r.error == old(CommentRejection(postId, email)).value && comments == old(comments) &&
                (postId in posts ==> posts[postId].commentCount == old(posts[postId].commentCount))
      ensures r.Success? ==>
                var c := r.value;
                fresh(c) && comments == old(comments)[c.id := c] && c.id !in old(comments) &&
                c.postId == Some(postId) && c.userId == Some(userIdsByEmail[email]) &&
                c.commentText == commentText && !c.isApproved && c.IsPending() && c.HasBuilderDefaults() &&
                OrZero(posts[postId].commentCount) == OrZero(old(posts[postId].commentCount)) + 1
    {
      var rejection := CommentRejection(postId, email);
      if rejection.Some? {
        return Failure(rejection.value);
      }
      var comment := InsertComment(postId, userIdsByEmail[email], commentText);
      r := Success(comment);
    }

    /** The saves of `addComment` once every check passed. */
    method InsertComment(postId: Id, userId: Id, commentText: string) returns (c: Comment)
      requires Valid() && postId in posts
      modifies this`comments, this`nextCommentId, PostAt(postId)`commentCount
      ensures Valid()
      ensures fresh(c) && comments == old(comments)[c.id := c] && c.id !in old(comments)
      ensures c.postId == Some(postId) && c.userId == Some(userId)
      ensures c.commentText == commentText && !c.isApproved && c.IsPending()
      ensures c.HasBuilderDefaults()
      ensures OrZero(posts[postId].commentCount) == OrZero(old(posts[postId].commentCount)) + 1
    {
      c := StoreComment(postId, userId, commentText);
      CountComment(postId);
    }

    /** The new comment row. */
    method StoreComment(postId: Id, userId: Id, commentText: string) returns (c: Comment)
      requires Valid() && postId in posts
      modifies this`comments, this`nextCommentId
      ensures Valid()
      ensures fresh(c) && comments == old(comments)[c.id := c] && c.id !in old(comments)
      ensures c.postId == Some(postId) && c.userId == Some(userId)
      ensures c.commentText == commentText && !c.isApproved && c.IsPending()
      ensures c.HasBuilderDefaults()
    {
      c := new Comment(nextCommentId, commentText, postId, userId);
      comments := comments[nextCommentId := c];
      nextCommentId := nextCommentId + 1;
      assert CommentRowsLinked();
    }

    /** The post counts one more comment. */
    method CountComment(postId: Id)
      requires Valid() && postId in posts
      modifies PostAt(postId)`commentCount
      ensures Valid()
      ensures OrZero(posts[postId].commentCount) == OrZero(old(posts[postId].commentCount)) + 1
    {
      posts[postId].IncrementCommentCount();
      assert PostRowsConsistent();
    }

    /** `approveComment`: the comment is approved by the administrator and
        leaves the pending queue. */
    method ApproveComment(commentId: Id, adminId: Id, now: Time) returns (r: Result<Comment>)
      requires Valid()
      modifies CommentAt(commentId)`isApproved, CommentAt(commentId)`approvedAt,
               CommentAt(commentId)`approvedBy
      ensures Valid()
      ensures r.Failure? <==> commentId !in comments
      ensures r.Failure? ==> r == Failure(NotFound(CommentNotFound))
      ensures r.Success? ==>
                r.value == comments[commentId] && r.value.isApproved &&
                r.value.approvedBy == Some(adminId) && r.value.approvedAt == Some(now) &&
                !r.value.IsPending()
    {
      if commentId !in comments {
        return Failure(NotFound(CommentNotFound));
      }
      var comment := comments[commentId];
      comment.Approve(adminId, now);
      r := Success(comment);
    }

    /** `deleteComment`: the comment's post counts one comment fewer
        (stopping at zero), whether or not the comment was approved, and the
        comment goes. */
    method DeleteComment(commentId: Id) returns (r: Result<()>)
      requires Valid()
      modifies this`comments, PostOfComment(commentId)`commentCount
      ensures Valid()
      ensures r.Failure? <==> commentId !in old(comments)
      ensures r.Failure? ==> r == Failure(NotFound(CommentNotFound)) && comments == old(comments)
      ensures r.Success? ==>
                comments == old(comments) - {commentId} &&
                var p := old(comments[commentId].postId.value);
                posts[p].commentCount == Decremented(old(posts[p].commentCount))
    {
      if commentId !in comments {
        return Failure(NotFound(CommentNotFound));
      }
      UncountComment(comments[commentId].postId.value);
      DropComment(commentId);
      r := Success(());
    }

    /** The post counts one comment fewer, stopping at zero. */
    method UncountComment(postId: Id)
      requires Valid() && postId in posts
      modifies PostAt(postId)`commentCount
      ensures Valid()
      ensures posts[postId].commentCount == Decremented(old(posts[postId].commentCount))
    {
      posts[postId].DecrementCommentCount();
      assert PostRowsConsistent();
    }

    /** The comment row goes. */
    method DropComment(commentId: Id)
      requires Valid()
      modifies this`comments
      ensures Valid()
      ensures comments == old(comments) - {commentId}
    {
      comments := comments - {commentId};
    }

    /** `getPendingComments`: the comments that are neither approved nor
        flagged, which are exactly the ones in the pending state. */
    function PendingComments(): (r: set<Id>)
      reads this, comments.Values
      ensures forall id :: id in r <==> id in comments && comments[id].IsPending()
    {
      set id | id in comments && !comments[id].isApproved && !comments[id].isFlagged
    }
  }
}
