/** Accounts: roles with their permission flags, and users with the links to
    everything they author, write, attend, organise or upload. */
module Accounts {
  import opened Base
  import opened Text
  import opened Posts
  import opened Comments
  import opened Registrations
  import opened Events
  import opened Galleries

  const AdminRoleName: string := "ADMIN"
  const StudentRoleName: string := "STUDENT"

  class Role {
    var id: Id
    var name: string
    var description: string
    /** The users holding this role (the inverse side of `User.role`). */
    var users: set<User>
    var canManageUsers: bool
    var canManagePosts: bool
    var canManageEvents: bool
    var canManageGallery: bool
    var canComment: bool
    var canRegisterEvents: bool
    var isActive: bool

    /** The builder defaults: no management rights, may comment and
        register for events, active, no users. */
    constructor (name: string, description: string)
      ensures this.name == name && this.description == description && users == {}
      ensures !HasAdminPrivileges() && canComment && canRegisterEvents && isActive
    {
      id := 0;
      this.name := name;
      this.description := description;
      users := {};
      canManageUsers := false;
      canManagePosts := false;
      canManageEvents := false;
      canManageGallery := false;
      canComment := true;
      canRegisterEvents := true;
      isActive := true;
    }

    /** Named "ADMIN"; a role so named is never the student role. */
    function IsAdminRole(): (r: bool)
      reads this
      ensures r <==> name == AdminRoleName
      ensures r ==> !IsStudentRole()
    {
      name == "ADMIN"
    }

    /** Named "STUDENT". */
    predicate IsStudentRole()
      reads this
    {
      name == StudentRoleName
    }

    /** Holds any of the four management rights. */
    predicate HasAdminPrivileges()
      reads this
    {
      canManageUsers || canManagePosts || canManageEvents || canManageGallery
    }

    /** `getDisplayName`: the first character upper-cased and the rest
        lower-cased; `substring(0, 1)` throws on an empty name. */
    function DisplayName(): (r: Result<string>)
      reads this
      ensures r.Failure? <==> name == ""
      ensures r.Failure? ==> r.error.RuntimeFault?
      ensures r.Success? ==>
                |r.value| == |name| && r.value[0] == UpperChar(name[0]) &&
                forall i :: 1 <= i < |name| ==> r.value[i] == LowerChar(name[i])
    {
      if name == "" then Failure(RuntimeFault("begin 0, end 1, length 0"))
      else Success(Capitalized(name))
    }

    /** Lombok's `@Data` hash of a role takes in its users, and a user's
        hash takes in their role: once a user of the set has this role,
        hashing the role (or any user holding it) recurses until the stack
        runs out. */
    predicate HashCycles()
      reads this, users
    {
      exists u :: u in users && u.role == Some(this)
    }

    /** `addUser` as written: `users.add` hashes the user first, which
        overflows when the user already has this role and the role's hash
        cycles; then nothing changes. Otherwise the user is attached. */
    method AddUser(user: User) returns (r: Result<()>)
      modifies this`users, user`role
      ensures old(user.role == Some(this) && HashCycles()) ==>
                r == Failure(RuntimeFault(StackOverflow)) && users == old(users) && user.role == old(user.role)
      ensures !old(user.role == Some(this) && HashCycles()) ==>
                r == Success(()) && users == old(users) + {user} && user.role == Some(this)
    {
      if user.role == Some(this) && HashCycles() {
        r := Failure(RuntimeFault(StackOverflow));
      } else {
        AttachUser(user);
        r := Success(());
      }
    }

    /** `removeUser` as written: `users.remove` hashes the user first, which
        overflows when the user has this role and the role's hash cycles;
        then nothing changes. Otherwise the user is detached. */
    method RemoveUser(user: User) returns (r: Result<()>)
      modifies this`users, user`role
      ensures old(user.role == Some(this) && HashCycles()) ==>
                r == Failure(RuntimeFault(StackOverflow)) && users == old(users) && user.role == old(user.role)
      ensures !old(user.role == Some(this) && HashCycles()) ==>
                r == Success(()) && users == old(users) - {user} && user.role.None?
    {
      if user.role == Some(this) && HashCycles() {
        r := Failure(RuntimeFault(StackOverflow));
      } else {
        DetachUser(user);
        r := Success(());
      }
    }

    /** The link `addUser` is meant to make: the user joins and has this role. */
    method AttachUser(user: User)
      modifies this`users, user`role
      ensures users == old(users) + {user} && user.role == Some(this)
    {
      users := users + {user};
      user.role := Some(this);
    }

    /** The unlink `removeUser` is meant to make: the user leaves and has no
        role. */
    method DetachUser(user: User)
      modifies this`users, user`role
      ensures users == old(users) - {user} && user.role.None?
    {
      users := users - {user};
      user.role := None;
    }

    /** As written, adding a user and then removing them never completes:
        either the add overflows and nothing changes, or the add links the
        user, which closes the hash cycle, and the remove overflows. */
    method AddThenRemoveUser(user: User) returns (r: Result<()>)
      modifies this`users, user`role
      ensures r == Failure(RuntimeFault(StackOverflow))
      ensures old(user.role == Some(this) && HashCycles()) ==>
                users == old(users) && user.role == old(user.role)
      ensures !old(user.role == Some(this) && HashCycles()) ==>
                users == old(users) + {user} && user.role == Some(this)
    {
      r := AddUser(user);
      if r.Success? {
        assert user in users && user.role == Some(this);
        r := RemoveUser(user);
      }
    }

    /** Attaching a user who was not among the users and detaching them again
        gives back the users; the user is then left without a role. */
    method AttachThenDetachUser(user: User)
      requires user !in users
      modifies this`users, user`role
      ensures users == old(users) && user.role.None?
    {
      AttachUser(user);
      DetachUser(user);
    }

    /** `createAdminRole`: every right. */
    static method CreateAdminRole() returns (r: Role)
      ensures fresh(r) && r.IsAdminRole() && !r.IsStudentRole()
      ensures r.HasAdminPrivileges() && r.canManageUsers && r.canManagePosts
      ensures r.canManageEvents && r.canManageGallery && r.canComment && r.canRegisterEvents
    {
      r := new Role(AdminRoleName, "Administrator with full system access");
      r.canManageUsers := true;
      r.canManagePosts := true;
      r.canManageEvents := true;
      r.canManageGallery := true;
    }

    /** `createStudentRole`: no management right, but may comment and
        register for events. */
    static method CreateStudentRole() returns (r: Role)
      ensures fresh(r) && r.IsStudentRole() && !r.IsAdminRole()
      ensures !r.HasAdminPrivileges() && r.canComment && r.canRegisterEvents
    {
      r := new Role(StudentRoleName, "Regular student account");
    }
  }

  class User {
    var id: Id
    var name: string
    var email: string
    /** The encoded password. */
    var password: string
    var studentId: Option<string>
    var course: string
    var year: Option<int>
    var role: Option<Role>
    var posts: set<Post>
    var comments: set<Comment>
    var eventRegistrations: set<EventRegistration>
    var createdEvents: set<Event>
    var galleryImages: set<Gallery>
    var lastLogin: Option<Time>
    var isActive: bool
    var isEmailVerified: bool

    /** The builder defaults: active, e-mail not verified, nothing linked. */
    constructor (id: Id, name: string, email: string, password: string, studentId: Option<string>,
                 course: string, year: Option<int>, role: Option<Role>)
      ensures this.id == id && this.name == name && this.email == email && this.password == password
      ensures this.studentId == studentId && this.course == course && this.year == year
      ensures this.role == role && isActive && !isEmailVerified && lastLogin.None?
      ensures posts == {} && comments == {} && eventRegistrations == {}
      ensures createdEvents == {} && galleryImages == {}
    {
      this.id := id;
      this.name := name;
      this.email := email;
      this.password := password;
      this.studentId := studentId;
      this.course := course;
      this.year := year;
      this.role := role;
      posts := {};
      comments := {};
      eventRegistrations := {};
      createdEvents := {};
      galleryImages := {};
      lastLogin := None;
      isActive := true;
      isEmailVerified := false;
    }

    /** The role object, as a frame. */
    function RoleObject(): set<Role>
      reads this
    {
      if role.Some? then {role.value} else {}
    }

    /** `isAdmin`: a role is present and named "ADMIN". An admin is never a
        student, and a user without a role is neither. */
    function IsAdmin(): (r: bool)
      reads this, RoleObject()
      ensures r <==> role.Some? && role.value.name == AdminRoleName
      ensures r ==> !IsStudent()
      ensures role.None? ==> !r && !IsStudent()
    {
      role.Some? && role.value.IsAdminRole()
    }

    /** `isStudent`: a role is present and named "STUDENT". */
    predicate IsStudent()
      reads this, RoleObject()
    {
      role.Some? && role.value.IsStudentRole()
    }

    /** Lombok's `@Data` hash of a user takes in every collection of theirs,
        and the hash of each item takes in the user it names: once an item of
        any collection points back at this user, hashing the user (or
        anything naming them) recurses until the stack runs out. */
    predicate HashCycles()
      reads this, posts, comments, eventRegistrations, createdEvents, galleryImages
    {
      (exists p :: p in posts && p.authorId == Some(id)) ||
      (exists c :: c in comments && c.userId == Some(id)) ||
      (exists g :: g in eventRegistrations && g.userId == Some(id)) ||
      (exists e :: e in createdEvents && e.creatorId == Some(id)) ||
      (exists m :: m in galleryImages && m.uploadedBy == Some(id))
    }

    /** `addPost` as written: `posts.add` hashes the post first, which
        overflows when the post already names this user and the user's hash
        cycles; then nothing changes. Otherwise the post is attached. */
    method AddPost(post: Post) returns (r: Result<()>)
      modifies this`posts, post`authorId
      ensures old(post.authorId == Some(id) && HashCycles()) ==>
                r == Failure(RuntimeFault(StackOverflow)) && posts == old(posts) && post.authorId == old(post.authorId)
      ensures !old(post.authorId == Some(id) && HashCycles()) ==>
                r == Success(()) && posts == old(posts) + {post} && post.authorId == Some(id)
    {
      if post.authorId == Some(id) && HashCycles() {
        r := Failure(RuntimeFault(StackOverflow));
      } else {
        AttachPost(post);
        r := Success(());
      }
    }

    /** `removePost` as written: `posts.remove` hashes the post first, which
        overflows when the post names this user and the user's hash cycles;
        then nothing changes. Otherwise the post is detached. */
    method RemovePost(post: Post) returns (r: Result<()>)
      modifies this`posts, post`authorId
      ensures old(post.authorId == Some(id) && HashCycles()) ==>
                r == Failure(RuntimeFault(StackOverflow)) && posts == old(posts) && post.authorId == old(post.authorId)
      ensures !old(post.authorId == Some(id) && HashCycles()) ==>
                r == Success(()) && posts == old(posts) - {post} && post.authorId.None?
    {
      if post.authorId == Some(id) && HashCycles() {
        r := Failure(RuntimeFault(StackOverflow));
      } else {
        DetachPost(post);
        r := Success(());
      }
    }

    /** The link `addPost` is meant to make: the post joins the user's posts
        and names this user as its author. */
    method AttachPost(post: Post)
      modifies this`posts, post`authorId
      ensures posts == old(posts) + {post} && post.authorId == Some(id)
    {
      posts := posts + {post};
      post.authorId := Some(id);
    }

    /** The unlink `removePost` is meant to make: the post leaves the user's
        posts and has no author. */
    method DetachPost(post: Post)
      modifies this`posts, post`authorId
      ensures posts == old(posts) - {post} && post.authorId.None?
    {
      posts := posts - {post};
      post.authorId := None;
    }

    /** As written, adding a post and then removing it never completes:
        either the add overflows and nothing changes, or the add links the
        post, which closes the hash cycle, and the remove overflows. */
    method AddThenRemovePost(post: Post) returns (r: Result<()>)
      modifies this`posts, post`authorId
      ensures r == Failure(RuntimeFault(StackOverflow))
      ensures old(post.authorId == Some(id) && HashCycles()) ==>
                posts == old(posts) && post.authorId == old(post.authorId)
      ensures !old(post.authorId == Some(id) && HashCycles()) ==>
                posts == old(posts) + {post} && post.authorId == Some(id)
    {
      r := AddPost(post);
      if r.Success? {
        assert post in posts && post.authorId == Some(id);
        r := RemovePost(post);
      }
    }

    /** Attaching a post the user did not have and detaching it again gives
        back the user's posts, and leaves the post without an author. */
    method AttachThenDetachPost(post: Post)
      requires post !in posts
      modifies this`posts, post`authorId
      ensures posts == old(posts) && post.authorId.None?
    {
      AttachPost(post);
      DetachPost(post);
    }

    /** `addComment` as written: `comments.add` hashes the comment first,
        which overflows when the comment already names this user and the
        user's hash cycles; then nothing changes. Otherwise the comment joins
        the user's comments and names this user as its writer. */
    method AddComment(comment: Comment) returns (r: Result<()>)
      modifies this`comments, comment`userId
      ensures old(comment.userId == Some(id) && HashCycles()) ==>
                r == Failure(RuntimeFault(StackOverflow)) && comments == old(comments) &&
                comment.userId == old(comment.userId)
      ensures !old(comment.userId == Some(id) && HashCycles()) ==>
                r == Success(()) && comments == old(comments) + {comment} && comment.userId == Some(id)
    {
      if comment.userId == Some(id) && HashCycles() {
        r := Failure(RuntimeFault(StackOverflow));
      } else {
        comments := comments + {comment};
        comment.userId := Some(id);
        r := Success(());
      }
    }

    /** `registerForEvent` as written: `eventRegistrations.add` hashes the
        registration first, which overflows when it already names this user
        and the user's hash cycles; then nothing changes. Otherwise the
        registration joins the user's registrations and names this user. */
    method RegisterForEvent(registration: EventRegistration) returns (r: Result<()>)
      modifies this`eventRegistrations, registration`userId
      ensures old(registration.userId == Some(id) && HashCycles()) ==>
                r == Failure(RuntimeFault(StackOverflow)) && eventRegistrations == old(eventRegistrations) &&
                registration.userId == old(registration.userId)
      ensures !old(registration.userId == Some(id) && HashCycles()) ==>
                r == Success(()) && eventRegistrations == old(eventRegistrations) + {registration} &&
                registration.userId == Some(id)
    {
      if registration.userId == Some(id) && HashCycles() {
        r := Failure(RuntimeFault(StackOverflow));
      } else {
        eventRegistrations := eventRegistrations + {registration};
        registration.userId := Some(id);
        r := Success(());
      }
    }

    /** `createEvent` as written: `createdEvents.add` hashes the event first,
        which overflows when it already names this user as creator and the
        user's hash cycles; then nothing changes. Otherwise the event joins
        the user's created events and names this user as its creator. */
    method CreateEvent(event: Event) returns (r: Result<()>)
      modifies this`createdEvents, event`creatorId
      ensures old(event.creatorId == Some(id) && HashCycles()) ==>
                r == Failure(RuntimeFault(StackOverflow)) && createdEvents == old(createdEvents) &&
                event.creatorId == old(event.creatorId)
      ensures !old(event.creatorId == Some(id) && HashCycles()) ==>
                r == Success(()) && createdEvents == old(createdEvents) + {event} && event.creatorId == Some(id)
    {
      if event.creatorId == Some(id) && HashCycles() {
        r := Failure(RuntimeFault(StackOverflow));
      } else {
        createdEvents := createdEvents + {event};
        event.creatorId := Some(id);
        r := Success(());
      }
    }

    /** `uploadGalleryImage` as written: `galleryImages.add` hashes the image
        first, which overflows when it already names this user as uploader
        and the user's hash cycles; then nothing changes. Otherwise the image
        joins the user's images and names this user as its uploader. */
    method UploadGalleryImage(image: Gallery) returns (r: Result<()>)
      modifies this`galleryImages, image`uploadedBy
      ensures old(image.uploadedBy == Some(id) && HashCycles()) ==>
                r == Failure(RuntimeFault(StackOverflow)) && galleryImages == old(galleryImages) &&
                image.uploadedBy == old(image.uploadedBy)
      ensures !old(image.uploadedBy == Some(id) && HashCycles()) ==>
                r == Success(()) && galleryImages == old(galleryImages) + {image} && image.uploadedBy == Some(id)
    {
      if image.uploadedBy == Some(id) && HashCycles() {
        r := Failure(RuntimeFault(StackOverflow));
      } else {
        galleryImages := galleryImages + {image};
        image.uploadedBy := Some(id);
        r := Success(());
      }
    }
  }
}
