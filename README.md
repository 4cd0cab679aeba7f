# BITSA backend — a Dafny model

The BITSA backend is a Spring web service for a student association. It runs:

- **events:** types, capacity and per-user registrations
- **a blog:** categories, posts and moderated comments
- **a contact-form inbox**
- **a photo gallery**
- **student accounts:** roles and users

This project models the entities and the services that change them, and proves what the code promises.

- **Entities** (`Event`, `EventRegistration`, `EventType`, `Post`, `Comment`, `Category`, `ContactMessage`, `Gallery`, `Role`, `User`):
  - Each is a Dafny `class` with its own fields.
  - Every mutator is a method whose `modifies` clause names exactly the fields it writes. "Nothing else changes" is part of each contract.
  - Nullable integer columns that the code null-checks are `Option<int>`, with `OrZero` reading null as 0.
  - Many-to-one links are foreign-key ids.
  - One-to-many collections are `set`s of objects, told apart by identity.
  - The code's link helpers (`addPost`, `removePost` and their kin) put items into Lombok `@Data` hash sets. The generated `hashCode` of an owner takes in its items, and an item's takes in its owner, so hashing an item that points at an owner which already holds an item pointing back never returns. The model reports that as a `RuntimeFault` with nothing changed, and states the link the helper is meant to make separately (see Findings).
- **Services** (`EventService`, `BlogService`, `ContactService`, `GalleryService`, `AuthService`, `UserService`):
  - Each is a class whose repositories are `map` fields keyed by id.
  - Registrations are keyed by the (event, user) pair, which is the table's unique constraint.
  - Every operation is a method. It either reports the error of the first check that fails, with the same message and kind as the code, or performs the change and states the new state.
  - A `Valid()` invariant (ids are keys, rows are linked, counters and slugs are settled) is preserved by every operation.
- **Time, identities and passwords:**
  - Clock readings are a `now: Time` parameter (seconds).
  - The password encoder is a function parameter.
  - Database identities come from a counter field.
- **String helpers** (`Text`) are specified over ASCII, character by character:
  - the slug normaliser: lower-case, drop characters outside `[a-z0-9\s-]`, turn whitespace runs into '-', collapse '-' runs, trim
  - previews and short titles
  - comma-separated tags
  - word counts
  - decimal rendering
- **Arithmetic helpers** (`Numbers`): Java's truncating `/` and `%`, and the gcd behind `getAspectRatio`.

Quirks of the code that the model reproduces on purpose:

- `isRegistrationOpen` admits a full event whose waitlist is enabled. `registerForEvent` still refuses it with "Event is full".
- `cancelRegistration` finds the pair's row even if it is already cancelled, and decrements the attendee count again.
- The duplicate check of `registerForEvent` ignores cancelled rows, but the registration table has a plain unique constraint on (event, user). Registering again after a cancellation passes every business check and is then refused by the store (`StoreConflict`).
- Updates that move a post to another category, or an event to another type, leave every counter as it was.
- Already-registered, registration-closed, full-event, duplicate e-mail and duplicate student id are all `BadRequest` in the code.

## Model

| member | source | states |
|---|---|---|
| Base.OrZero | src/main/java/com/website/bitsa/model/Post.java:222-225 | a null counter reads as 0, any other as its value |
| Base.Incremented | src/main/java/com/website/bitsa/model/Event.java:175-177 | increment: the counter is set and one more than before (null as 0) |
| Base.Decremented | src/main/java/com/website/bitsa/model/Event.java:182-186 | decrement: one less when positive, otherwise unchanged |
| Base.DecrementUndoesIncrement | src/main/java/com/website/bitsa/model/Category.java:97-105 | an increment followed by a decrement gives back the count (as a set value) |
| Numbers.JavaDiv | src/main/java/com/website/bitsa/model/Gallery.java:195 | Java's `/`: truncates toward zero, and the quotient times the divisor plus the remainder is the dividend |
| Numbers.JavaRem | src/main/java/com/website/bitsa/model/Gallery.java:202 | Java's `%`: the remainder takes the dividend's sign and is smaller than the divisor in absolute value |
| Numbers.GcdDividesBoth | src/main/java/com/website/bitsa/model/Gallery.java:201-203 | the recursive gcd terminates and divides both arguments |
| Numbers.CommonDivisorDividesGcd | src/main/java/com/website/bitsa/model/Gallery.java:201-203 | every common divisor divides the gcd, so it is the greatest |
| Numbers.GcdPositive | src/main/java/com/website/bitsa/model/Gallery.java:201-203 | the gcd of two positive numbers is positive |
| Numbers.GcdZeroIff | src/main/java/com/website/bitsa/model/Gallery.java:194-195 | the gcd is 0 exactly when both numbers are 0 (the division that then throws) |
| Numbers.ReducedRatioCoprime | src/main/java/com/website/bitsa/model/Gallery.java:194-195 | for positive sides the reduced numbers are positive, in the same proportion and coprime |
| Text.LowerAscii | src/main/java/com/website/bitsa/model/Post.java:190 | `toLowerCase` on ASCII: same length, each character lowered, no upper-case letter left |
| Text.UpperAscii | src/main/java/com/website/bitsa/model/ContactMessage.java:159 | `toUpperCase` on ASCII: same length, each character raised, no lower-case letter left |
| Text.UpperAsciiIdempotent | src/main/java/com/website/bitsa/model/ContactMessage.java:158-161 | upper-casing twice is upper-casing once |
| Text.Capitalized | src/main/java/com/website/bitsa/model/Role.java:110 | first character upper-cased, the rest lower-cased, same length |
| Text.DropNonSlugChars | src/main/java/com/website/bitsa/model/Post.java:191 | a character occurs in the result exactly when it occurs in the input and lies in `[a-z0-9\s-]`; never lengthens |
| Text.DropNonSlugCharsAppend | src/main/java/com/website/bitsa/model/Post.java:191 | the filter of a concatenation is the concatenation of the filters: each character is kept or dropped on its own, and the kept ones keep their order |
| Text.ReplaceSpaceRunsByRuns | src/main/java/com/website/bitsa/model/Post.java:192 | the pass equals the run-by-run reading: each maximal run of whitespace becomes exactly one '-', every other character stays in place |
| Text.CollapseHyphenRunsByRuns | src/main/java/com/website/bitsa/model/Post.java:193 | the pass equals the run-by-run reading: each maximal run of '-' becomes exactly one '-', every other character stays in place |
| Text.SlugifyStages | src/main/java/com/website/bitsa/model/Post.java:189-194 | the normaliser is the five passes in the order the code chains them |
| Text.CollapseLeavesNoDoubleHyphen | src/main/java/com/website/bitsa/model/Post.java:193 | after collapsing, no "--" remains |
| Text.SlugifyYieldsSlug | src/main/java/com/website/bitsa/model/Event.java:276-285 | a generated slug holds only a-z, 0-9 and '-' and no "--" |
| Text.SlugifyFixesSlug | src/main/java/com/website/bitsa/model/EventType.java:148-157 | a well-formed slug is its own normal form |
| Text.SlugifyIdempotent | src/main/java/com/website/bitsa/model/EventType.java:148-157 | normalising a generated slug gives it back unchanged |
| Text.SlugifyEmptyIff | src/main/java/com/website/bitsa/model/Category.java:109-118 | the generated slug is empty exactly when no character of the source survives the filter |
| Text.SlugHook | src/main/java/com/website/bitsa/model/Post.java:187-195 | the hook fills a null or empty slug with a well-formed one, keeps any other, changes nothing on a settled slug, and settles it |
| Text.Abbreviated | src/main/java/com/website/bitsa/model/Post.java:247-252 | at most `limit` characters; unchanged when it fits, else the first `limit`-3 characters and "..." |
| Text.JavaSplit | src/main/java/com/website/bitsa/model/Post.java:233 | `split` with a one-character separator: a string without the separator is one field |
| Text.SplitFieldsOfJoin | src/main/java/com/website/bitsa/model/Post.java:229-238 | splitting a join of separator-free parts gives the parts back |
| Text.TagList | src/main/java/com/website/bitsa/model/Post.java:229-234 | no tags for a null or empty column; a column without ',' is one tag |
| Text.TagColumn | src/main/java/com/website/bitsa/model/Post.java:236-238 | `String.join(",", …)` always yields a column |
| Text.TagsRoundTrip | src/main/java/com/website/bitsa/model/Post.java:229-238 | writing tags and reading them back gives the same tags when none holds ',' and the last is not empty |
| Text.TrailingEmptyTagIsLost | src/main/java/com/website/bitsa/model/Post.java:229-238 | ["a", ""] comes back as ["a"]: the side condition of the round trip is needed |
| Text.IntToDecimal | src/main/java/com/website/bitsa/model/Category.java:125 | the decimal text of an int reads back as that int |
| Text.NatToDecimalRoundTrip | src/main/java/com/website/bitsa/model/EventType.java:164 | reading the digits back gives the number |
| Posts.ReadingTime | src/main/java/com/website/bitsa/model/Post.java:197-200 | at least 1, and the whole number of 200-word minutes in the content when that is at least 1 |
| Posts.DefaultPostRequest | src/main/java/com/website/bitsa/dto/request/CreatePostRequest.java:34-36 | a form is unpublished, not featured and open to comments unless it says otherwise |
| Posts.Post.constructor | src/main/java/com/website/bitsa/model/Post.java:64-127 | the builder: request fields, zero counters, not pinned or locked, language "en", no slug, no publication date |
| Posts.Post.IsDraft | src/main/java/com/website/bitsa/model/Post.java:217-219 | a draft exactly when not published |
| Posts.Post.TotalEngagement | src/main/java/com/website/bitsa/model/Post.java:221-227 | at least the plain sum of non-negative counters, 0 with all counters 0; the counter methods fix each weight |
| Posts.Post.AddComment | src/main/java/com/website/bitsa/model/Post.java:144-148 | as written: when the comment already points at this post and one of the post's comments does too, the hash overflows and nothing changes; otherwise the comment joins, points at the post, and the comment count is incremented |
| Posts.Post.RemoveComment | src/main/java/com/website/bitsa/model/Post.java:150-154 | as written: when the comment points at this post and one of the post's comments does too (always so after the add), the hash overflows and nothing changes; otherwise the comment leaves, points at no post, and the comment count is decremented |
| Posts.Post.AttachComment | src/main/java/com/website/bitsa/model/Post.java:144-148 | the intended link: the comment joins, points at the post, and the comment count is incremented |
| Posts.Post.DetachComment | src/main/java/com/website/bitsa/model/Post.java:150-154 | the intended unlink: the comment leaves, points at no post, and the comment count is decremented (stopping at zero) |
| Posts.Post.AddThenRemoveComment | src/main/java/com/website/bitsa/model/Post.java:144-154 | as written, adding and then removing always ends in a stack overflow; when the add went through, the comment stays linked and counted |
| Posts.Post.AttachThenDetachComment | src/main/java/com/website/bitsa/model/Post.java:144-154 | the intended link and unlink of a comment not yet in the set restore the set and a non-negative comment count, and leave the comment pointing at no post |
| Posts.Post.IncrementViewCount | src/main/java/com/website/bitsa/model/Post.java:156-159 | views +1, the last view is `now`, engagement +1 |
| Posts.Post.IncrementLikeCount | src/main/java/com/website/bitsa/model/Post.java:161-163 | likes +1, engagement +2 |
| Posts.Post.DecrementLikeCount | src/main/java/com/website/bitsa/model/Post.java:165-169 | likes −1 only when positive (engagement −2), never below 0 |
| Posts.Post.IncrementCommentCount | src/main/java/com/website/bitsa/model/Post.java:171-173 | comments +1, engagement +3 |
| Posts.Post.DecrementCommentCount | src/main/java/com/website/bitsa/model/Post.java:175-179 | comments −1 only when positive (engagement −3), never below 0 |
| Posts.Post.IncrementShareCount | src/main/java/com/website/bitsa/model/Post.java:181-183 | shares +1, engagement +5 |
| Posts.Post.Publish | src/main/java/com/website/bitsa/model/Post.java:207-210 | published at `now`, not a draft, published iff dated |
| Posts.Post.Unpublish | src/main/java/com/website/bitsa/model/Post.java:212-215 | unpublished without a date, a draft, published iff dated |
| Posts.Post.GenerateSlugAndMetadata | src/main/java/com/website/bitsa/model/Post.java:187-205 | slug by the hook; reading time filled only when unset (then ≥ 1); publication date set only when published and unset; a settled post is left unchanged |
| Posts.Post.TagsArray | src/main/java/com/website/bitsa/model/Post.java:229-234 | no tags for a null or empty column; a column without ',' is one tag |
| Posts.Post.SetTagsFromArray | src/main/java/com/website/bitsa/model/Post.java:236-238 | stores the joined column, and reading it back gives the tags under the round-trip condition |
| Posts.Post.IsRecent | src/main/java/com/website/bitsa/model/Post.java:240-245 | recent exactly when a publication date is set and lies less than 7 days before `now` (a post dated in the future included) |
| Posts.Post.ShortTitle | src/main/java/com/website/bitsa/model/Post.java:247-252 | at most 50 characters; the title when it fits, else 47 characters and "..." |
| Comments.Comment.constructor | src/main/java/com/website/bitsa/model/Comment.java:48-64 | not approved, flagged or edited, no likes, so pending |
| Comments.Comment.IsPending | src/main/java/com/website/bitsa/model/Comment.java:112-114 | pending exactly when neither approved nor flagged |
| Comments.Comment.Approve | src/main/java/com/website/bitsa/model/Comment.java:84-88 | approved by the admin at `now`, no longer pending |
| Comments.Comment.Flag | src/main/java/com/website/bitsa/model/Comment.java:90-92 | flagged and not pending |
| Comments.Comment.Unflag | src/main/java/com/website/bitsa/model/Comment.java:94-96 | not flagged; pending exactly when not approved |
| Comments.Comment.FlagThenUnflag | src/main/java/com/website/bitsa/model/Comment.java:90-96 | flag then unflag restores the pending status of a comment that was not flagged |
| Comments.Comment.MarkAsEdited | src/main/java/com/website/bitsa/model/Comment.java:98-100 | edited, and (by its frame) nothing else changes |
| Comments.Comment.IncrementLikeCount | src/main/java/com/website/bitsa/model/Comment.java:102-104 | likes +1, null as 0 |
| Comments.Comment.DecrementLikeCount | src/main/java/com/website/bitsa/model/Comment.java:106-110 | likes −1 only when positive, never below 0 |
| Comments.Comment.Preview | src/main/java/com/website/bitsa/model/Comment.java:116-121 | at most 100 characters; the text when it fits, else 97 characters and "..." |
| Categories.Category.constructor | src/main/java/com/website/bitsa/model/Category.java:53-71 | no posts, post count 0, active, not featured, no slug |
| Categories.Category.AddPost | src/main/java/com/website/bitsa/model/Category.java:85-89 | as written: when the post already points at this category and one of the category's posts does too, the hash overflows and nothing changes; otherwise the post joins, points at the category, and the post count is incremented |
| Categories.Category.RemovePost | src/main/java/com/website/bitsa/model/Category.java:91-95 | as written: when the post points at this category and one of the category's posts does too (always so after the add), the hash overflows and nothing changes; otherwise the post leaves, points at no category, and the post count is decremented |
| Categories.Category.AttachPost | src/main/java/com/website/bitsa/model/Category.java:85-89 | the intended link: the post joins, points at the category, and the post count is incremented |
| Categories.Category.DetachPost | src/main/java/com/website/bitsa/model/Category.java:91-95 | the intended unlink: the post leaves, points at no category, and the post count is decremented (stopping at zero) |
| Categories.Category.AddThenRemovePost | src/main/java/com/website/bitsa/model/Category.java:85-95 | as written, adding and then removing always ends in a stack overflow; when the add went through, the post stays linked and counted |
| Categories.Category.AttachThenDetachPost | src/main/java/com/website/bitsa/model/Category.java:85-95 | the intended link and unlink of a post not yet in the set restore the set and a non-negative post count, and leave the post pointing at no category |
| Categories.Category.IncrementPostCount | src/main/java/com/website/bitsa/model/Category.java:97-99 | count +1 (null as 0); a non-negative count then has posts |
| Categories.Category.DecrementPostCount | src/main/java/com/website/bitsa/model/Category.java:101-105 | count −1 only when positive, never below 0 |
| Categories.Category.GenerateSlug | src/main/java/com/website/bitsa/model/Category.java:109-118 | fills only a null or empty slug, with a well-formed slug of the name |
| Categories.Category.DisplayNameWithCount | src/main/java/com/website/bitsa/model/Category.java:124-126 | "<name> (<n>)" with n the post count in decimal, null as 0 |
| Categories.Category.HasPosts | src/main/java/com/website/bitsa/model/Category.java:120-122 | the count is set and positive |
| Events.DefaultEventRequest | src/main/java/com/website/bitsa/dto/request/CreateEventRequest.java:44-46 | a form requires registration and is unpublished and not featured unless it says otherwise |
| Events.Event.constructor | src/main/java/com/website/bitsa/service/EventService.java:93-111 | the builder: the request's fields, the creator, no registrations, zero attendees, no waitlist, no registration window, not cancelled and no reason, zero views and shares, no slug |
| Events.Event.AddRegistration | src/main/java/com/website/bitsa/model/Event.java:157-161 | as written: when the registration already points at this event and one of the event's registrations does too, the hash overflows and nothing changes; otherwise the registration joins, points at the event, and the attendee count is incremented |
| Events.Event.RemoveRegistration | src/main/java/com/website/bitsa/model/Event.java:166-170 | as written: when the registration points at this event and one of the event's registrations does too (always so after the add), the hash overflows and nothing changes; otherwise the registration leaves, points at no event, and the attendee count is decremented |
| Events.Event.AttachRegistration | src/main/java/com/website/bitsa/model/Event.java:157-161 | the intended link: the registration joins, points at the event, and the attendee count is incremented |
| Events.Event.DetachRegistration | src/main/java/com/website/bitsa/model/Event.java:166-170 | the intended unlink: the registration leaves, points at no event, and the attendee count is decremented (stopping at zero) |
| Events.Event.AddThenRemoveRegistration | src/main/java/com/website/bitsa/model/Event.java:157-170 | as written, adding and then removing always ends in a stack overflow; when the add went through, the registration stays linked and counted |
| Events.Event.AttachThenDetachRegistration | src/main/java/com/website/bitsa/model/Event.java:157-170 | the intended link and unlink of a registration not yet in the set restore the set and a non-negative attendee count, and leave the registration pointing at no event |
| Events.Event.IncrementAttendeeCount | src/main/java/com/website/bitsa/model/Event.java:175-177 | attendees +1, null as 0 |
| Events.Event.DecrementAttendeeCount | src/main/java/com/website/bitsa/model/Event.java:182-186 | attendees −1 only when positive, never below 0 |
| Events.Event.AvailableSeats | src/main/java/com/website/bitsa/model/Event.java:246-251 | null iff uncapped; otherwise seats plus attendees make the capacity |
| Events.Event.FullExactlyWhenNoSeatLeft | src/main/java/com/website/bitsa/model/Event.java:191-196 | full exactly when the event is capped and no seat is left |
| Events.Event.SeatsNonNegativeWithinCapacity | src/main/java/com/website/bitsa/model/Event.java:246-251 | a capped event within capacity has a non-negative number of seats |
| Events.Event.RegistrationOpenExactly | src/main/java/com/website/bitsa/model/Event.java:201-219 | open iff inside the window, not cancelled, not full unless waitlisted, registration required and published |
| Events.Event.FullEventWithWaitlistIsOpen | src/main/java/com/website/bitsa/model/Event.java:214 | a full event with a waitlist still counts as open |
| Events.Event.UpcomingAndPastExclusive | src/main/java/com/website/bitsa/model/Event.java:224-233 | never both upcoming and past; neither at the event's own time |
| Events.Event.IsToday | src/main/java/com/website/bitsa/model/Event.java:238-241 | today exactly when some calendar day holds both the start and `now`; then the two are less than a day apart, and an event at `now` is today |
| Events.Event.EndTime | src/main/java/com/website/bitsa/model/Event.java:256-261 | one hour after the start without a duration, otherwise the duration after it |
| Events.Event.Cancel | src/main/java/com/website/bitsa/model/Event.java:266-269 | cancelled with the reason; registration is closed at every time |
| Events.Event.GenerateSlug | src/main/java/com/website/bitsa/model/Event.java:276-285 | fills only a null or empty slug, with a well-formed slug of the title |
| Events.Event.IncrementViewCount | src/main/java/com/website/bitsa/model/Event.java:290-292 | views +1, null as 0 |
| Registrations.EventRegistration.constructor | src/main/java/com/website/bitsa/model/EventRegistration.java:48-91 | REGISTERED, not cancelled, not waitlisted, nothing sent or checked in, so active |
| Registrations.EventRegistration.IsActive | src/main/java/com/website/bitsa/model/EventRegistration.java:169-171 | active exactly when not cancelled and REGISTERED |
| Registrations.EventRegistration.MarkAsAttended | src/main/java/com/website/bitsa/model/EventRegistration.java:110-115 | ATTENDED and checked in by the admin at `now`; no longer active |
| Registrations.EventRegistration.MarkAsNoShow | src/main/java/com/website/bitsa/model/EventRegistration.java:120-123 | NO_SHOW and not checked in; not active |
| Registrations.EventRegistration.Cancel | src/main/java/com/website/bitsa/model/EventRegistration.java:128-133 | cancelled, CANCELLED, with the reason and time; not active |
| Registrations.EventRegistration.ConfirmFromWaitlist | src/main/java/com/website/bitsa/model/EventRegistration.java:138-142 | off the waitlist and REGISTERED, but active only if not cancelled |
| Registrations.EventRegistration.AddToWaitlist | src/main/java/com/website/bitsa/model/EventRegistration.java:147-150 | waitlisted at the position; status and activity unchanged |
| Registrations.EventRegistration.MarkConfirmationSent | src/main/java/com/website/bitsa/model/EventRegistration.java:155-157 | the confirmation is marked sent |
| Registrations.EventRegistration.MarkReminderSent | src/main/java/com/website/bitsa/model/EventRegistration.java:162-164 | the reminder is marked sent |
| EventTypes.EventType.constructor | src/main/java/com/website/bitsa/model/EventType.java:45-105 | the builder defaults: no events, counters 0, active, registration required, no capacity limit |
| EventTypes.EventType.AddEvent | src/main/java/com/website/bitsa/model/EventType.java:120-124 | as written: when the event already points at this event type and one of the event type's events does too, the hash overflows and nothing changes; otherwise the event joins, points at the event type, and the event count is incremented |
| EventTypes.EventType.RemoveEvent | src/main/java/com/website/bitsa/model/EventType.java:126-130 | as written: when the event points at this event type and one of the event type's events does too (always so after the add), the hash overflows and nothing changes; otherwise the event leaves, points at no event type, and the event count is decremented |
| EventTypes.EventType.AttachEvent | src/main/java/com/website/bitsa/model/EventType.java:120-124 | the intended link: the event joins, points at the event type, and the event count is incremented |
| EventTypes.EventType.DetachEvent | src/main/java/com/website/bitsa/model/EventType.java:126-130 | the intended unlink: the event leaves, points at no event type, and the event count is decremented (stopping at zero) |
| EventTypes.EventType.AddThenRemoveEvent | src/main/java/com/website/bitsa/model/EventType.java:120-130 | as written, adding and then removing always ends in a stack overflow; when the add went through, the event stays linked and counted |
| EventTypes.EventType.AttachThenDetachEvent | src/main/java/com/website/bitsa/model/EventType.java:120-130 | the intended link and unlink of a event not yet in the set restore the set and a non-negative event count, and leave the event pointing at no event type |
| EventTypes.EventType.IncrementEventCount | src/main/java/com/website/bitsa/model/EventType.java:132-134 | count +1, null as 0 |
| EventTypes.EventType.DecrementEventCount | src/main/java/com/website/bitsa/model/EventType.java:136-140 | count −1 only when positive, never below 0 |
| EventTypes.EventType.AddAttendees | src/main/java/com/website/bitsa/model/EventType.java:142-144 | the total grows by exactly the amount given, unchecked, null as 0 |
| EventTypes.EventType.GenerateSlug | src/main/java/com/website/bitsa/model/EventType.java:148-157 | fills only a null or empty slug, with a well-formed slug of the name |
| EventTypes.EventType.HasEventsExactly | src/main/java/com/website/bitsa/model/EventType.java:159-161 | has events iff the count is set and positive |
| EventTypes.EventType.DisplayNameWithCount | src/main/java/com/website/bitsa/model/EventType.java:163-165 | "<name> (<n> events)" with n the count in decimal, null as 0 |
| EventServices.EventService.constructor | src/main/java/com/website/bitsa/service/EventService.java:28-31 | empty stores satisfy the invariant |
| EventServices.EventService.Response | src/main/java/com/website/bitsa/service/EventService.java:242-263 | the derived fields agree: full iff no seat left, seats null iff uncapped, open-and-full only with a waitlist, cancelled never open |
| EventServices.EventService.EventById | src/main/java/com/website/bitsa/service/EventService.java:59-63 | NotFound "Event not found with id: <id>" iff unknown; otherwise the event's response |
| EventServices.EventService.EventBySlug | src/main/java/com/website/bitsa/service/EventService.java:49-57 | NotFound iff no published event has the slug; else such an event with views +1, every other event's views unchanged |
| EventServices.EventService.RegistrationRejection | src/main/java/com/website/bitsa/service/EventService.java:175-205 | the checks in the code's order, each one's error stated under the condition that the earlier ones passed: unknown event, unknown user, active row, registration not open, event full, then a leftover row for the pair refused by the unique constraint; no error exactly when the event and user exist, the event is open and not full, and the pair has no row |
| EventServices.EventService.FullWaitlistedEventRefused | src/main/java/com/website/bitsa/service/EventService.java:187-195 | a full event with the waitlist on, inside its window, passes the open check and is refused with "Event is full" |
| EventServices.EventService.ReRegistrationAfterCancelConflicts | src/main/java/com/website/bitsa/service/EventService.java:182-205 | a pair whose only row is cancelled has no active row, and registering it again on an open, non-full event is refused by the store |
| EventServices.EventService.RegisterForEvent | src/main/java/com/website/bitsa/service/EventService.java:175-212 | fails iff a check fails, changing nothing; else one new active row for the pair and attendees +1, within capacity; other events untouched |
| EventServices.EventService.InsertRegistration | src/main/java/com/website/bitsa/service/EventService.java:197-209 | stores a new active row for the pair and counts the attendee |
| EventServices.EventService.StoreRegistration | src/main/java/com/website/bitsa/service/EventService.java:197-205 | stores a new REGISTERED row for the pair |
| EventServices.EventService.CountAttendee | src/main/java/com/website/bitsa/service/EventService.java:207-209 | the event's attendees +1, invariant kept |
| EventServices.EventService.CancelRegistration | src/main/java/com/website/bitsa/service/EventService.java:214-228 | NotFound for an unknown user or a pair without a row; else the row is cancelled and attendees decremented, even when it was already cancelled |
| EventServices.EventService.CancellationOutcome | src/main/java/com/website/bitsa/service/EventService.java:218-219 | succeeds exactly when the pair has a row, cancelled or not |
| EventServices.EventService.CancelPair | src/main/java/com/website/bitsa/service/EventService.java:218-227 | the pair's row cancelled "Cancelled by user" and attendees decremented, or nothing changes |
| EventServices.EventService.CancelRow | src/main/java/com/website/bitsa/service/EventService.java:221-222 | the row is cancelled with status, reason and time |
| EventServices.EventService.UncountAttendee | src/main/java/com/website/bitsa/service/EventService.java:225-227 | the event's attendees decremented, invariant kept |
| EventServices.EventService.CreateEvent | src/main/java/com/website/bitsa/service/EventService.java:86-120 | NotFound for an unknown user, then type, storing nothing and leaving the type's count; else a new event with the creator, every request field (title, description, date, place, capacity, duration, images, link, requirements, agenda, flags), no registrations, zero attendees, views and shares, no waitlist, no registration window, not cancelled and no reason, a generated slug, and the type's count +1 |
| EventServices.EventService.InsertEvent | src/main/java/com/website/bitsa/service/EventService.java:93-117 | stores the new event under a fresh id, holding every request field (title, description, date, place, capacity, duration, images, link, requirements, agenda, flags), no registrations, zero attendees, views and shares, no waitlist, no registration window, not cancelled and no reason and a generated slug, and counts it in its type |
| EventServices.EventService.StoreEvent | src/main/java/com/website/bitsa/service/EventService.java:93-113 | stores the new event under a fresh id, holding every request field (title, description, date, place, capacity, duration, images, link, requirements, agenda, flags), no registrations, zero attendees, views and shares, no waitlist, no registration window, not cancelled and no reason and a generated slug |
| EventServices.EventService.NewEvent | src/main/java/com/website/bitsa/service/EventService.java:93-111 | the built event has the creator, every request field (title, description, date, place, capacity, duration, images, link, requirements, agenda, flags), no registrations, zero attendees, views and shares, no waitlist, no registration window, not cancelled and no reason, and a settled slug generated from the title |
| EventServices.EventService.CountEventOfType | src/main/java/com/website/bitsa/service/EventService.java:115-117 | the type's event count +1 |
| EventServices.EventService.UpdateEvent | src/main/java/com/website/bitsa/service/EventService.java:123-148 | NotFound for an unknown event, then type; else exactly the editable fields are overwritten; attendees, cancellation and type counts stay |
| EventServices.EventService.EditEvent | src/main/java/com/website/bitsa/service/EventService.java:130-146 | the stored event holds the request, slug by the hook, invariant kept |
| EventServices.EventService.ApplyRequest | src/main/java/com/website/bitsa/service/EventService.java:130-146 | copies the editable fields and runs the slug hook |
| EventServices.EventService.CopyEditableFields | src/main/java/com/website/bitsa/service/EventService.java:130-144 | the fifteen editable fields equal the request's |
| EventServices.EventService.WithoutEvent | src/main/java/com/website/bitsa/model/Event.java:62-66 | the rows of the other events, unchanged |
| EventServices.EventService.DeleteEvent | src/main/java/com/website/bitsa/service/EventService.java:150-160 | NotFound when unknown; else the event and its rows go, and its type's count is decremented |
| EventServices.EventService.UncountEventOfType | src/main/java/com/website/bitsa/service/EventService.java:154-157 | the type's event count decremented |
| EventServices.EventService.DropEventRows | src/main/java/com/website/bitsa/service/EventService.java:159 | the event and its registration rows are removed |
| EventServices.EventService.CancelEvent | src/main/java/com/website/bitsa/service/EventService.java:162-170 | NotFound when unknown; else cancelled with the reason and closed at every time |
| BlogServices.BlogService.constructor | src/main/java/com/website/bitsa/service/BlogService.java:28-31 | empty stores satisfy the invariant |
| BlogServices.BlogService.PostById | src/main/java/com/website/bitsa/service/BlogService.java:61-65 | NotFound "Post not found with id: <id>" iff unknown; otherwise that post, published or not |
| BlogServices.BlogService.PostBySlug | src/main/java/com/website/bitsa/service/BlogService.java:51-59 | NotFound iff no published post has the slug; else such a post with views +1 and last viewed `now`, every other post's views unchanged |
| BlogServices.BlogService.CreatePost | src/main/java/com/website/bitsa/service/BlogService.java:89-124 | NotFound for an unknown author, then category, storing nothing and leaving the category's count; else the new post holds the request and the author, is dated iff published, has slug and reading time, a zero comment count, no comments, zero views, likes and shares, not pinned or locked, language "en", never viewed, and the category count +1 |
| BlogServices.BlogService.InsertPost | src/main/java/com/website/bitsa/service/BlogService.java:96-121 | stores the new post under a fresh id with the request, author, publication, slug, reading time, zero comment count and no comments, zero views, likes and shares, not pinned or locked, language "en", never viewed, and counts it in its category |
| BlogServices.BlogService.StorePost | src/main/java/com/website/bitsa/service/BlogService.java:96-117 | stores the new post under a fresh id with the request, author, publication, slug, reading time, zero comment count and no comments, zero views, likes and shares, not pinned or locked, language "en", never viewed |
| BlogServices.BlogService.NewPost | src/main/java/com/website/bitsa/service/BlogService.java:96-115 | the built post holds the request and the author, is published at `now` when asked, has its slug and reading time, a zero comment count, no comments, zero views, likes and shares, not pinned or locked, language "en", never viewed, and settled metadata |
| BlogServices.BlogService.CountPostOfCategory | src/main/java/com/website/bitsa/service/BlogService.java:120-121 | the category's count +1 |
| BlogServices.BlogService.UpdatePost | src/main/java/com/website/bitsa/service/BlogService.java:127-155 | NotFound for an unknown post, then category; else the edits are copied, publication changes only with the status (a post that stays published keeps its date), no category count moves |
| BlogServices.BlogService.EditPost | src/main/java/com/website/bitsa/service/BlogService.java:134-153 | the stored post holds the request, with the publication equation, invariant kept |
| BlogServices.BlogService.ApplyPostRequest | src/main/java/com/website/bitsa/service/BlogService.java:134-151 | copies the edits, publishes or unpublishes only on a change, then runs the hook |
| BlogServices.BlogService.CopyPostEdits | src/main/java/com/website/bitsa/service/BlogService.java:134-145 | the twelve editable fields equal the request's |
| BlogServices.BlogService.WithoutPost | src/main/java/com/website/bitsa/model/Post.java:47-51 | the comments of the other posts, unchanged |
| BlogServices.BlogService.DeletePost | src/main/java/com/website/bitsa/service/BlogService.java:157-167 | NotFound when unknown; else the post and its comments go and its category count is decremented |
| BlogServices.BlogService.UncountPostOfCategory | src/main/java/com/website/bitsa/service/BlogService.java:162-164 | the category's count decremented |
| BlogServices.BlogService.DropPostRows | src/main/java/com/website/bitsa/service/BlogService.java:166 | the post and its comments are removed |
| BlogServices.BlogService.TogglePublish | src/main/java/com/website/bitsa/service/BlogService.java:169-181 | NotFound when unknown; else the published flag flips, dated `now` iff now published |
| BlogServices.BlogService.FlipPublished | src/main/java/com/website/bitsa/service/BlogService.java:173-177 | the flag flips and the date follows it |
| BlogServices.BlogService.TogglePublishTwice | src/main/java/com/website/bitsa/service/BlogService.java:169-181 | two toggles restore the flag; a published post is re-dated by the second |
| BlogServices.BlogService.CommentRejection | src/main/java/com/website/bitsa/service/BlogService.java:199-207 | NotFound for a missing post, then BadRequest for disabled comments, then the user look-up |
| BlogServices.BlogService.AddComment | src/main/java/com/website/bitsa/service/BlogService.java:198-224 | fails iff a check fails, changing nothing; else one new comment on the post by the user with the text, not approved, flagged or edited, no likes, no approver, so pending, and the post's comment count +1 |
| BlogServices.BlogService.InsertComment | src/main/java/com/website/bitsa/service/BlogService.java:209-221 | stores the new comment with the post, user and text, not approved, flagged or edited, no likes, no approver, and counts it on its post |
| BlogServices.BlogService.StoreComment | src/main/java/com/website/bitsa/service/BlogService.java:209-217 | stores the new comment under a fresh id with the post, user and text, not approved, flagged or edited, no likes, no approver |
| BlogServices.BlogService.CountComment | src/main/java/com/website/bitsa/service/BlogService.java:220-221 | the post's comment count +1 |
| BlogServices.BlogService.ApproveComment | src/main/java/com/website/bitsa/service/BlogService.java:226-232 | NotFound when unknown; else approved by the admin and no longer pending |
| BlogServices.BlogService.DeleteComment | src/main/java/com/website/bitsa/service/BlogService.java:234-244 | NotFound when unknown; else the comment goes and its post's count is decremented |
| BlogServices.BlogService.UncountComment | src/main/java/com/website/bitsa/service/BlogService.java:239-241 | the post's comment count decremented |
| BlogServices.BlogService.DropComment | src/main/java/com/website/bitsa/service/BlogService.java:243 | only that comment is removed |
| BlogServices.BlogService.PendingComments | src/main/java/com/website/bitsa/service/BlogService.java:246-256 | exactly the comments that are pending |
| ContactMessages.ContactMessage.constructor | src/main/java/com/website/bitsa/model/ContactMessage.java:40-76 | priority NORMAL, unread, unreplied, not spam, so pending and not in need of attention |
| ContactMessages.ContactMessage.MarkAsRead | src/main/java/com/website/bitsa/model/ContactMessage.java:106-111 | read by the admin at `now`; not pending |
| ContactMessages.ContactMessage.MarkAsUnread | src/main/java/com/website/bitsa/model/ContactMessage.java:116-121 | unread with no reader or time; pending iff unreplied and not spam |
| ContactMessages.ContactMessage.Reply | src/main/java/com/website/bitsa/model/ContactMessage.java:126-137 | replied by the admin with the text, always read; an earlier reader is kept |
| ContactMessages.ContactMessage.MarkAsSpam | src/main/java/com/website/bitsa/model/ContactMessage.java:142-145 | spam; neither pending nor in need of attention |
| ContactMessages.ContactMessage.MarkAsNotSpam | src/main/java/com/website/bitsa/model/ContactMessage.java:150-153 | not spam; the read and reply flags decide the status again |
| ContactMessages.ContactMessage.SetPriorityLevel | src/main/java/com/website/bitsa/model/ContactMessage.java:158-161 | stores the upper-cased level, which upper-casing leaves unchanged |
| ContactMessages.ContactMessage.MessagePreview | src/main/java/com/website/bitsa/model/ContactMessage.java:180-185 | at most 100 characters; the message when it fits, else 97 characters and "..." |
| ContactMessages.ContactMessage.IsRecent | src/main/java/com/website/bitsa/model/ContactMessage.java:190-192 | created less than 24 hours before `now` |
| ContactMessages.ContactMessage.StatusExclusive | src/main/java/com/website/bitsa/model/ContactMessage.java:166-175 | pending and needing attention exclude each other; replied or spam is neither |
| ContactServices.DefaultContactRequest | src/main/java/com/website/bitsa/dto/request/ContactRequest.java:33 | the category defaults to GENERAL |
| ContactServices.MessageNotFound | src/main/java/com/website/bitsa/service/ContactService.java:57 | "Message not found with id: " followed by the id in decimal |
| ContactServices.ContactService.constructor | src/main/java/com/website/bitsa/service/ContactService.java:17-20 | an empty inbox satisfies the invariant |
| ContactServices.ContactService.SubmitContactMessage | src/main/java/com/website/bitsa/service/ContactService.java:22-37 | one new pending message with the request's fields and category and priority NORMAL |
| ContactServices.ContactService.MessageById | src/main/java/com/website/bitsa/service/ContactService.java:55-58 | NotFound iff unknown; otherwise that message |
| ContactServices.ContactService.MarkAsRead | src/main/java/com/website/bitsa/service/ContactService.java:61-65 | propagates the look-up failure; else only that message is read by the admin |
| ContactServices.ContactService.ReplyToMessage | src/main/java/com/website/bitsa/service/ContactService.java:68-72 | propagates the look-up failure; else only that message changes: replied by the admin with the text at `now`, and read; an unread message is read by the admin at `now`, a read one keeps its reader and time |
| ContactServices.ContactService.MarkAsSpam | src/main/java/com/website/bitsa/service/ContactService.java:75-79 | propagates the look-up failure; else only that message is spam |
| ContactServices.ContactService.DeleteMessage | src/main/java/com/website/bitsa/service/ContactService.java:81-84 | NotFound when unknown; else only that message goes |
| ContactServices.ContactService.CountUnreadMessages | src/main/java/com/website/bitsa/service/ContactService.java:86-88 | the number of unread messages |
| ContactServices.ContactService.CountPendingMessages | src/main/java/com/website/bitsa/service/ContactService.java:90-92 | the number of messages that are pending |
| ContactServices.ContactService.UnreadMessages | src/main/java/com/website/bitsa/service/ContactService.java:43-45 | exactly the unread messages |
| ContactServices.ContactService.AllMessages | src/main/java/com/website/bitsa/service/ContactService.java:39-41 | exactly the messages not marked spam |
| ContactServices.ContactService.PendingMessages | src/main/java/com/website/bitsa/service/ContactService.java:47-49 | exactly the unread, unreplied messages, spam included |
| ContactServices.ContactService.RecentMessages | src/main/java/com/website/bitsa/service/ContactService.java:94-96 | exactly the messages created in the last 24 hours |
| ContactServices.ContactService.PendingListIncludesSpam | src/main/java/com/website/bitsa/service/ContactService.java:47-49 | the pending list holds every pending message plus the unread unreplied spam, so the pending count falls short of it by that spam |
| Galleries.RatioText | src/main/java/com/website/bitsa/model/Gallery.java:195 | "x:y" with both numbers in decimal |
| Galleries.Gallery.constructor | src/main/java/com/website/bitsa/model/Gallery.java:73-93 | not featured, display order 0, published, no views or likes, no uploader |
| Galleries.Gallery.IncrementViewCount | src/main/java/com/website/bitsa/model/Gallery.java:110-112 | views +1, null as 0 |
| Galleries.Gallery.IncrementLikeCount | src/main/java/com/website/bitsa/model/Gallery.java:117-119 | likes +1, null as 0 |
| Galleries.Gallery.DecrementLikeCount | src/main/java/com/website/bitsa/model/Gallery.java:124-128 | likes −1 only when positive, never below 0 |
| Galleries.Gallery.TagsArray | src/main/java/com/website/bitsa/model/Gallery.java:133-138 | no tags for a null or empty column; a column without ',' is one tag |
| Galleries.Gallery.SetTagsFromArray | src/main/java/com/website/bitsa/model/Gallery.java:143-145 | stores the joined column, and reading it back gives the tags under the round-trip condition |
| Galleries.Gallery.OrientationExclusive | src/main/java/com/website/bitsa/model/Gallery.java:170-185 | never both landscape and portrait; neither when a side is unknown or the image is square |
| Galleries.Gallery.AspectRatio | src/main/java/com/website/bitsa/model/Gallery.java:190-196 | "Unknown" when a side is null; throws exactly when both sides are 0 |
| Galleries.Gallery.AspectRatioReduced | src/main/java/com/website/bitsa/model/Gallery.java:194-195 | for positive sides "x:y" with x, y positive, coprime and in the proportion of the sides |
| GalleryServices.ImageNotFoundWithId | src/main/java/com/website/bitsa/service/GalleryService.java:35 | "Image not found with id: " followed by the id in decimal |
| GalleryServices.GalleryService.constructor | src/main/java/com/website/bitsa/service/GalleryService.java:18-19 | an empty gallery satisfies the invariant |
| GalleryServices.GalleryService.GetImageById | src/main/java/com/website/bitsa/service/GalleryService.java:33-41 | NotFound iff unknown; else that image with views +1 |
| GalleryServices.GalleryService.UploadImage | src/main/java/com/website/bitsa/service/GalleryService.java:48-54 | NotFound for an unknown uploader, storing nothing; else the image is stored under a new id with that uploader |
| GalleryServices.GalleryService.UpdateImage | src/main/java/com/website/bitsa/service/GalleryService.java:57-71 | NotFound when unknown; else exactly the eight editable fields are copied, URL, uploader and counters stay |
| GalleryServices.GalleryService.DeleteImage | src/main/java/com/website/bitsa/service/GalleryService.java:73-77 | NotFound when unknown; else only that image goes |
| GalleryServices.GalleryService.TogglePublish | src/main/java/com/website/bitsa/service/GalleryService.java:79-85 | NotFound when unknown; else the published flag flips |
| GalleryServices.GalleryService.TogglePublishTwice | src/main/java/com/website/bitsa/service/GalleryService.java:79-85 | two toggles restore the published flag |
| GalleryServices.GalleryService.PublishedImages | src/main/java/com/website/bitsa/service/GalleryService.java:21-23 | exactly the published images |
| GalleryServices.GalleryService.ImagesByCategory | src/main/java/com/website/bitsa/service/GalleryService.java:25-27 | exactly the published images of the category |
| GalleryServices.GalleryService.FeaturedImages | src/main/java/com/website/bitsa/service/GalleryService.java:29-31 | exactly the published, featured images |
| GalleryServices.GalleryService.CountTotalImages | src/main/java/com/website/bitsa/service/GalleryService.java:95-97 | the number of published images |
| Accounts.Role.constructor | src/main/java/com/website/bitsa/model/Role.java:45-83 | no management right, may comment and register, active, no users |
| Accounts.Role.IsAdminRole | src/main/java/com/website/bitsa/model/Role.java:87-93 | named ADMIN, and then never the student role |
| Accounts.Role.HasAdminPrivileges | src/main/java/com/website/bitsa/model/Role.java:105-107 | holds any of the four management rights |
| Accounts.Role.DisplayName | src/main/java/com/website/bitsa/model/Role.java:109-111 | fails exactly on an empty name; else same length, first character upper, rest lower |
| Accounts.Role.AddUser | src/main/java/com/website/bitsa/model/Role.java:95-98 | as written: when the user already has this role and one of the role's users does too, the hash overflows and nothing changes; otherwise the user joins and has this role |
| Accounts.Role.RemoveUser | src/main/java/com/website/bitsa/model/Role.java:100-103 | as written: when the user has this role and one of the role's users does too (always so after the add), the hash overflows and nothing changes; otherwise the user leaves and has no role |
| Accounts.Role.AttachUser | src/main/java/com/website/bitsa/model/Role.java:95-98 | the intended link: the user joins and has this role |
| Accounts.Role.DetachUser | src/main/java/com/website/bitsa/model/Role.java:100-103 | the intended unlink: the user leaves and has no role |
| Accounts.Role.AddThenRemoveUser | src/main/java/com/website/bitsa/model/Role.java:95-103 | as written, adding and then removing a user always ends in a stack overflow; when the add went through, the user stays in the role |
| Accounts.Role.AttachThenDetachUser | src/main/java/com/website/bitsa/model/Role.java:95-103 | the intended link and unlink of a user not yet in the role restore the users and leave the user without a role |
| Accounts.Role.CreateAdminRole | src/main/java/com/website/bitsa/model/Role.java:115-126 | the ADMIN role with every right, so admin privileges |
| Accounts.Role.CreateStudentRole | src/main/java/com/website/bitsa/model/Role.java:128-139 | the STUDENT role without admin privileges, but may comment and register |
| Accounts.User.constructor | src/main/java/com/website/bitsa/model/User.java:119-125 | active, e-mail not verified, nothing linked |
| Accounts.User.IsAdmin | src/main/java/com/website/bitsa/model/User.java:129-135 | admin iff the role is present and named ADMIN; never also a student; without a role neither |
| Accounts.User.AddPost | src/main/java/com/website/bitsa/model/User.java:137-140 | as written: when the post already names this user and already has an item pointing back in one of their collections, the hash overflows and nothing changes; otherwise the post joins and names the user as author |
| Accounts.User.RemovePost | src/main/java/com/website/bitsa/model/User.java:142-145 | as written: when the post names this user and already has an item pointing back in one of their collections (always so after the add), the hash overflows and nothing changes; otherwise the post leaves and has no author |
| Accounts.User.AttachPost | src/main/java/com/website/bitsa/model/User.java:137-140 | the intended link: the post joins and names the user as author |
| Accounts.User.DetachPost | src/main/java/com/website/bitsa/model/User.java:142-145 | the intended unlink: the post leaves and has no author |
| Accounts.User.AddThenRemovePost | src/main/java/com/website/bitsa/model/User.java:137-145 | as written, adding and then removing a post always ends in a stack overflow; when the add went through, the post stays the user's |
| Accounts.User.AttachThenDetachPost | src/main/java/com/website/bitsa/model/User.java:137-145 | the intended link and unlink of a post the user did not have restore the posts and leave the post without an author |
| Accounts.User.AddComment | src/main/java/com/website/bitsa/model/User.java:147-150 | as written: overflows and changes nothing when the comment already names this user and already has an item pointing back in one of their collections; otherwise the comment joins and names the user |
| Accounts.User.RegisterForEvent | src/main/java/com/website/bitsa/model/User.java:152-155 | as written: overflows and changes nothing when the registration already names this user and already has an item pointing back in one of their collections; otherwise the registration joins and names the user |
| Accounts.User.CreateEvent | src/main/java/com/website/bitsa/model/User.java:157-160 | as written: overflows and changes nothing when the event already names this user as creator and already has an item pointing back in one of their collections; otherwise the event joins and names the user as creator |
| Accounts.User.UploadGalleryImage | src/main/java/com/website/bitsa/model/User.java:162-165 | as written: overflows and changes nothing when the image already names this user as uploader and already has an item pointing back in one of their collections; otherwise the image joins and names the user as uploader |
| AuthServices.AuthService.constructor | src/main/java/com/website/bitsa/service/AuthService.java:29-31 | no users; roles stored under their names |
| AuthServices.AuthService.Rejection | src/main/java/com/website/bitsa/service/AuthService.java:39-46 | a taken e-mail first, then a taken student id, then a missing STUDENT role; all BadRequest |
| AuthServices.AuthService.Register | src/main/java/com/website/bitsa/service/AuthService.java:37-62 | fails iff a check fails, adding no user; else exactly one new active, unverified STUDENT with the encoded password; e-mails and student ids stay unique |
| UserServices.UserNotFoundWithId | src/main/java/com/website/bitsa/service/UserService.java:24 | "User not found with id: " followed by the id in decimal |
| UserServices.UserNotFoundWithEmail | src/main/java/com/website/bitsa/service/UserService.java:29 | "User not found with email: " followed by the address |
| UserServices.UserService.constructor | src/main/java/com/website/bitsa/service/UserService.java:16 | a keyed store with unique e-mails |
| UserServices.UserService.UserById | src/main/java/com/website/bitsa/service/UserService.java:22-25 | NotFound iff unknown; otherwise that user |
| UserServices.UserService.UserByEmail | src/main/java/com/website/bitsa/service/UserService.java:27-30 | NotFound iff no user has the address; otherwise the one that does |
| UserServices.UserService.DeleteUser | src/main/java/com/website/bitsa/service/UserService.java:52-55 | NotFound when unknown; else only that user goes |
| UserServices.UserService.DeactivateUser | src/main/java/com/website/bitsa/service/UserService.java:57-61 | inactive and nothing else changes; an inactive account is left as it was |
| UserServices.UserService.ActivateUser | src/main/java/com/website/bitsa/service/UserService.java:63-67 | active and nothing else changes; an active account is left as it was |
| UserServices.UserService.DeactivateThenActivate | src/main/java/com/website/bitsa/service/UserService.java:57-67 | an active account comes back unchanged |
| UserServices.UserService.ActiveUsers | src/main/java/com/website/bitsa/service/UserService.java:40-42 | exactly the active users |
| UserServices.UserService.CountActiveUsers | src/main/java/com/website/bitsa/service/UserService.java:40-42 | the number of active users |

## Findings

| source | as written | input that shows it | evidently intended | confidence | as-written member | corrected member |
|---|---|---|---|---|---|---|
| src/main/java/com/website/bitsa/model/Category.java:91-95 | `removePost` hashes the post; its `@Data` hash takes in the category, whose hash takes in every post, each of which takes in the category again: a `StackOverflowError` | a new post `p`: `c.addPost(p); c.removePost(p)` | `p` leaves `c.posts`, loses its category and is uncounted | not executed; follows from the `hashCode` that Lombok generates for `@Data` over every field | Categories.Category.AddThenRemovePost | Categories.Category.AttachThenDetachPost |
| src/main/java/com/website/bitsa/model/Post.java:150-154 | `removeComment` hashes the comment, whose hash takes in the post, whose hash takes in every comment: a `StackOverflowError` | a new comment `m`: `p.addComment(m); p.removeComment(m)` | `m` leaves `p.comments`, loses its post and is uncounted | not executed; follows from the `hashCode` that Lombok generates for `@Data` over every field | Posts.Post.AddThenRemoveComment | Posts.Post.AttachThenDetachComment |
| src/main/java/com/website/bitsa/model/Event.java:166-170 | `removeRegistration` hashes the registration, whose hash takes in the event, whose hash takes in every registration: a `StackOverflowError` | a new registration `g`: `e.addRegistration(g); e.removeRegistration(g)` | `g` leaves `e.registrations`, loses its event and the attendee count drops | not executed; follows from the `hashCode` that Lombok generates for `@Data` over every field | Events.Event.AddThenRemoveRegistration | Events.Event.AttachThenDetachRegistration |
| src/main/java/com/website/bitsa/model/EventType.java:126-130 | `removeEvent` hashes the event, whose hash takes in the type, whose hash takes in every event: a `StackOverflowError` | a new event `e`: `t.addEvent(e); t.removeEvent(e)` | `e` leaves `t.events`, loses its type and is uncounted | not executed; follows from the `hashCode` that Lombok generates for `@Data` over every field | EventTypes.EventType.AddThenRemoveEvent | EventTypes.EventType.AttachThenDetachEvent |
| src/main/java/com/website/bitsa/model/Role.java:100-103 | `removeUser` hashes the user, whose hash takes in the role, whose hash takes in every user: a `StackOverflowError` | a new user `u`: `r.addUser(u); r.removeUser(u)` | `u` leaves `r.users` and has no role | not executed; follows from the `hashCode` that Lombok generates for `@Data` over every field | Accounts.Role.AddThenRemoveUser | Accounts.Role.AttachThenDetachUser |
| src/main/java/com/website/bitsa/model/User.java:142-145 | `removePost` hashes the post, whose hash takes in its author, whose hash takes in every post: a `StackOverflowError` | a new post `p`: `u.addPost(p); u.removePost(p)` | `p` leaves `u.posts` and has no author | not executed; follows from the `hashCode` that Lombok generates for `@Data` over every field | Accounts.User.AddThenRemovePost | Accounts.User.AttachThenDetachPost |

## Left out

- HTTP controllers, DTO-to-response copying beyond the derived event fields, Spring Security configuration, `AuthService.login` and its session handling: plumbing with no logic of the services' own.
- Password hashing: `encode` is a parameter of `Register`, any function from raw to stored password.
- Repository queries: the list and count queries of the contact, gallery and user services and the pending comments are set comprehensions over the store. Ordering, pagination and the "top 10" limits are not modelled.
- Read-only list queries not modelled: keyword search (`searchPosts`, `searchMessages`), the listings of posts and events (`getAllPostsAdmin`, `getAllPublishedPosts`, `getPostsByCategory`, `getFeaturedPosts`, `getPostComments`, `countTotalPosts`, `getAllUpcomingEvents`, `getAllPastEvents`, `getEventsByType`, `getFeaturedEvents`, `getAllEventsAdmin`, `getEventRegistrations`, `getUserRegistrations`, `countUpcomingEvents`), `getMessagesByCategory`, `getAllCategories`, `getMostViewedImages`, `getMostLikedImages`, `getAllUsers`, `getAllStudents`, `getAllAdmins`, `countStudents` and `countAdmins`. They change nothing, and their result is a filter of the store that the JPQL text of the repositories decides.
- EventServices.EventService.EventBySlug: the slug column is not unique. When several published rows share a slug, the repository's single-result finder throws, but the model picks one of them.
- BlogServices.BlogService.PostBySlug: the slug column is not unique either. The model picks one of several published posts with the slug, where the repository's finder would throw.
- Transactions and concurrency: the model is sequential, and each service method is atomic.
- Audit timestamps (`createdAt` outside contact messages, `updatedAt`, `@PreUpdate` hooks that only set them): not modelled. `ContactMessage.createdAt` is the `now` of submission.
- Lifecycle hooks: the slug and metadata hook runs explicitly where a save can change something (create and update). The service invariant keeps slugs and metadata settled, and on a settled entity the hook changes nothing.
- Floating point: `EventType.getAverageAttendance`, `Gallery.getFileSizeInKB/MB` and the contact message's spam score.
- Text is ASCII: case mapping and the regular expressions are specified character by character over ASCII. Unicode case rules are not modelled.
- Integers are unbounded. The 32-bit overflow of counters, of `getTotalEngagement` and of the ratio arithmetic is not modelled.
- Null-unboxing failures are not modelled, for example `isFull` with a null attendee count, a null boolean flag, or a null title. Boolean columns are `bool`, and nullable text columns are plain strings.
- Posts.ReadingTime: content is never null, so the code's `content != null` guard is always taken.
- `DataSeeder`, `DateUtil`, the static category and event-type creators and bean validation of request forms are not part of this model.
- Cascades: deleting an event removes its registrations, and deleting a post removes its comments. Deleting a user does not model the cascade to their posts, comments, registrations, events and images.
- The stores of different services are separate fields. `EventService`, `BlogService` and `GalleryService` see users only as a map from e-mail to id. `AuthService` and `UserService` each hold their own user table.
- GalleryServices.GalleryService.UploadImage: requires that the submitted image is not already stored. Saving an image that already has an id, which the code would merge into the stored row, is not modelled.
- AuthServices.RegisterRequest: the student id is a required string. A null student id, for which the code's existence check is decided by the store's handling of null, is not modelled.
- EventServices.EventService.CancelPair: lowers the attendee count before it marks the row. Both happen in one step of the model, so the order has no observable effect.
- Posts.Post.TotalEngagement: its own contract gives only bounds. The exact weights 1, 2, 3 and 5 are stated by the counter methods' contracts, each of which fixes the change in engagement.
- Link helpers (`AddPost`, `RemovePost`, `AddComment`, `RemoveComment`, `AddRegistration`, `RemoveRegistration`, `AddEvent`, `RemoveEvent`, `AddUser`, `RemoveUser`, and the `User` helpers): only the hash cycle through the owner itself is modelled. Other cycles of the generated `hashCode` are not: through an item's other references (a post's author, a user's role, a registration's event), through an item's own collections, or through an owner other than this one. These make further calls overflow in the code while the model lets them through.
- Link helpers: Java sets compare by the generated `equals` over every field, so two distinct objects with equal fields count as one element, and an element whose fields change after insertion may no longer be found. The model's sets compare by identity.
- No modelled service calls the link helpers: the services work on the repositories directly.
