/** A blog category and its cached post count. */
module Categories {
  import opened Base
  import opened Text
  import opened Posts

  class Category {
    var id: Id
    var name: string
    var description: string
    var slug: Option<string>
    var posts: set<Post>
    var iconClass: string
    var colorHex: string
    var displayOrder: Option<int>
    var isActive: bool
    var isFeatured: bool
    var postCount: Option<int>

    /** The builder defaults: no posts, a zero count, active, not featured,
        first in display order. */
    constructor (id: Id, name: string, description: string)
      ensures this.id == id && this.name == name && this.description == description
      ensures slug.None? && posts == {} && displayOrder == Some(0)
      ensures isActive && !isFeatured
      ensures postCount == Some(0) && !HasPosts()
    {
      this.id := id;
      this.name := name;
      this.description := description;
      slug := None;
      posts := {};
      iconClass := "";
      colorHex := "";
      displayOrder := Some(0);
      isActive := true;
      isFeatured := false;
      postCount := Some(0);
    }

    /** Lombok's `@Data` hash of a category sums the hashes of its posts, and
        a post's hash takes in its category: once a post of the set points
        back at this category, hashing the category (or any post pointing at
        it) recurses until the stack runs out. */
    predicate HashCycles()
      reads this, posts
    {
      exists q :: q in posts && q.categoryId == Some(id)
    }

    /** `addPost` as written: `posts.add` hashes the post first, which
        overflows when the post already points at this category and the
        category's hash cycles; then nothing changes. Otherwise the post is
        attached. */
    method AddPost(post: Post) returns (r: Result<()>)
      modifies this`posts, this`postCount, post`categoryId
      ensures old(post.categoryId == Some(id) && HashCycles()) ==>
                r == Failure(RuntimeFault(StackOverflow)) &&
                posts == old(posts) && postCount == old(postCount) && post.categoryId == old(post.categoryId)
      ensures !old(post.categoryId == Some(id) && HashCycles()) ==>
                r == Success(()) && posts == old(posts) + {post} && post.categoryId == Some(id) &&
                postCount == Incremented(old(postCount))
    {
      if post.categoryId == Some(id) && HashCycles() {
        r := Failure(RuntimeFault(StackOverflow));
      } else {
        AttachPost(post);
        r := Success(());
      }
    }

    /** `removePost` as written: `posts.remove` hashes the post first, which
        overflows when the post points at this category and the category's
        hash cycles; then nothing changes. Otherwise the post is detached. */
    method RemovePost(post: Post) returns (r: Result<()>)
      modifies this`posts, this`postCount, post`categoryId
      ensures old(post.categoryId == Some(id) && HashCycles()) ==>
                r == Failure(RuntimeFault(StackOverflow)) &&
                posts == old(posts) && postCount == old(postCount) && post.categoryId == old(post.categoryId)
      ensures !old(post.categoryId == Some(id) && HashCycles()) ==>
                r == Success(()) && posts == old(posts) - {post} && post.categoryId.None? &&
                postCount == Decremented(old(postCount))
    {
      if post.categoryId == Some(id) && HashCycles() {
        r := Failure(RuntimeFault(StackOverflow));
      } else {
        DetachPost(post);
        r := Success(());
      }
    }

    /** The link `addPost` is meant to make: the post joins, points at this
        category and is counted. */
    method AttachPost(post: Post)
      modifies this`posts, this`postCount, post`categoryId
      ensures posts == old(posts) + {post}
      ensures post.categoryId == Some(id)
      ensures postCount == Incremented(old(postCount))
    {
      posts := posts + {post};
      post.categoryId := Some(id);
      IncrementPostCount();
    }

    /** The unlink `removePost` is meant to make: the post leaves, has no
        category and is uncounted (stopping at zero). */
    method DetachPost(post: Post)
      modifies this`posts, this`postCount, post`categoryId
      ensures posts == old(posts) - {post}
      ensures post.categoryId.None?
      ensures postCount == Decremented(old(postCount))
    {
      posts := posts - {post};
      post.categoryId := None;
      DecrementPostCount();
    }

    /** Adds one post; a null count counts as zero. */
    method IncrementPostCount()
      modifies this`postCount
      ensures postCount.Some? && OrZero(postCount) == OrZero(old(postCount)) + 1
      ensures OrZero(old(postCount)) >= 0 ==> HasPosts()
    {
      postCount := Incremented(postCount);
    }

    /** Removes one post while the count is positive; otherwise nothing
        changes. */
    method DecrementPostCount()
      modifies this`postCount
      ensures OrZero(old(postCount)) > 0 ==> postCount == Some(OrZero(old(postCount)) - 1)
      ensures OrZero(old(postCount)) <= 0 ==> postCount == old(postCount)
      ensures OrZero(old(postCount)) >= 0 ==> OrZero(postCount) >= 0
    {
      postCount := Decremented(postCount);
    }

    /** As written, adding a post and then removing it never completes:
        either the add overflows and nothing changes, or the add links and
        counts the post, which closes the hash cycle, and the remove
        overflows. */
    method AddThenRemovePost(post: Post) returns (r: Result<()>)
      modifies this`posts, this`postCount, post`categoryId
      ensures r == Failure(RuntimeFault(StackOverflow))
      ensures old(post.categoryId == Some(id) && HashCycles()) ==>
                posts == old(posts) && postCount == old(postCount) && post.categoryId == old(post.categoryId)
      ensures !old(post.categoryId == Some(id) && HashCycles()) ==>
                posts == old(posts) + {post} && post.categoryId == Some(id) &&
                postCount == Incremented(old(postCount))
    {
      r := AddPost(post);
      if r.Success? {
        assert post in posts && post.categoryId == Some(id);
        r := RemovePost(post);
      }
    }

    /** Attaching a post that is not yet linked and detaching it again leaves
        the set of posts as it was, restores a non-negative count (a null
        count comes back as 0), and leaves the post without a category. */
    method AttachThenDetachPost(post: Post)
      requires post !in posts
      requires OrZero(postCount) >= 0
      modifies this`posts, this`postCount, post`categoryId
      ensures posts == old(posts)
      ensures postCount == Some(OrZero(old(postCount)))
      ensures post.categoryId.None?
    {
      AttachPost(post);
      DetachPost(post);
      DecrementUndoesIncrement(old(postCount));
    }

    /** The insert/update hook: fills a null or empty slug from the name. */
    method GenerateSlug()
      modifies this`slug
      ensures old(slug).Some? && old(slug).value != "" ==> slug == old(slug)
      ensures old(slug).None? || old(slug).value == "" ==> slug == Some(Slugify(name))
      ensures slug.Some? && (slug != old(slug) ==> IsSlug(slug.value))
      ensures SlugSettled(slug, name)
    {
      SlugHook(slug, name);
      slug := SlugAfterHook(slug, name);
    }

    predicate HasPosts()
      reads this
    {
      postCount.Some? && postCount.value > 0
    }

    /** `"%s (%d)"` of the name and the count, null shown as 0: the number
        in the parentheses reads back as the count. */
    function DisplayNameWithCount(): (r: string)
      reads this
      ensures |r| > |name| + 3
      ensures r == name + " (" + r[|name| + 2..|r| - 1] + ")"
      ensures DenotesInt(r[|name| + 2..|r| - 1], OrZero(postCount))
    {
      var digits := IntToDecimal(OrZero(postCount));
      var r := name + " (" + digits + ")";
      assert r[|name| + 2..|r| - 1] == digits;
      r
    }
  }
}
