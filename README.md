# blog-service, modelled in Dafny

A model of the request pipeline of a small blogging REST service: four
endpoints under `/posts` (get one post with its comments, list all posts,
create a post, comment on a post), the validation of path ids and request
bodies, the service that reads and writes the store, the mapper between
entities and wire shapes, and the central handler that turns failures into
`ErrorMessage` bodies.

Modules, one per component (all files are verified together):

- `Wrappers` (`wrappers.dfy`): `Option` for Java `null`/`Optional`, `Result` for an operation that may throw.
- `Validation` (`validation.dfy`): `@NotBlank`, `@Size` and `@Positive` as functions that return lists of
  `(field, rejectedValue, message)` violations. Blank means what Hibernate Validator's `@NotBlank` checks:
  null, or nothing left after `String.trim()`, which strips every character up to U+0020. `@Size` accepts null.
- `Dto` (`dto.dfy`): the request and response shapes and the validation of the two request bodies.
- `Model` (`model.dfy`): the `BlogPost` entity as a class whose fields are updated in place, and the
  `Comment` record, which points back at its post by id.
- `Mapper` (`mapper.dfy`): the six entity/DTO translations.
- `Repository` (`repository.dfy`): the relational view of the store. `IdsBelow` gives the order posts are listed in.
  `CommentsOf` gives a post's comment collection: the comment rows that reference the post, in ascending id.
  Lemmas about both cover counting, membership, insertion order, appending and the cascade on delete.
- `Service` (`service.dfy`): `BlogPostService` as a class that owns the store.
  The store is a map from post id to entity object, a map from comment id to comment row, and two id counters starting at 1.
  Its invariant `Valid()` says:
  - every id is assigned once and recorded in its entity;
  - different ids hold different objects;
  - every comment references a stored post;
  - each post's in-memory comment list equals `CommentsOf` the rows.
- `Errors` (`errors.dfy`): the four handled exception kinds and the handlers.
- `Controller` (`controller.dfy`): the endpoints. Each one checks its input in the order the framework uses, then delegates:
  1. the body is read (missing or malformed → unreadable);
  2. the `@Valid` body is validated;
  3. the `@Positive` id is checked. With the class-level `@Validated`, that check runs in a method-validation proxy when the method is called.

  `Accepted` says that every stored title, content and message meets its constraints.
  The two creating endpoints preserve it.
- `Scenarios` (`scenarios.dfy`): example request sequences, proved from the endpoint contracts alone.

In these places the model follows the code:
- On `POST /posts/{id}/comments`, body validation comes before the id check. A bad body and a bad id together
  report only the body's violations.
- The two validation handlers always pass a list, so `@JsonInclude(NON_NULL)` (ErrorMessage.java:7) never omits `errors` for them.
- An empty title, content or message fails both `@NotBlank` and `@Size(min = 1)`. The model yields both
  violations; the tests accept one or more.

## Model

| member | source | states |
|---|---|---|
| `Validation.Positive` | src/main/java/com/daalfa/blog/service/controller/BlogPostController.java:27 | a non-positive id gives exactly one violation, with the id as rejected value and "must be greater than 0"; a positive id gives none |
| `Dto.ValidateBlogPostRequest` | src/main/java/com/daalfa/blog/service/dto/BlogPostRequestDTO.java:6-15 | each violation is on title or content, carries that field's value and one of its two messages. "Title cannot be empty" is reported iff the title is null or blank; the size message iff the title is non-null and outside 1..64; the same for content with 1..256. The count is the number of constraints that fire, and there are no violations iff both fields are acceptable |
| `Dto.ValidateComment` | src/main/java/com/daalfa/blog/service/dto/CommentDTO.java:6-11 | the same for message: "Message cannot be empty" iff blank, the size message iff outside 1..256, count equal to constraints fired, none iff acceptable |
| `Dto.LongTitleViolation` | src/main/java/com/daalfa/blog/service/dto/BlogPostRequestDTO.java:8-9 | a non-blank title over 64 characters with acceptable content gives exactly one violation, the size one, with the title as rejected value |
| `Dto.LongContentViolation` | src/main/java/com/daalfa/blog/service/dto/BlogPostRequestDTO.java:12-13 | a non-blank content over 256 characters with an acceptable title gives exactly the content size violation |
| `Dto.EmptyFieldViolations` | src/main/java/com/daalfa/blog/service/dto/BlogPostRequestDTO.java:8-9 | an empty title gives the "cannot be empty" violation, and one or two violations in all |
| `Dto.EmptyContentViolations` | src/main/java/com/daalfa/blog/service/dto/BlogPostRequestDTO.java:12-13 | an empty content with an acceptable title gives "Content cannot be empty", and one or two violations in all |
| `Dto.MessageViolations` | src/main/java/com/daalfa/blog/service/dto/CommentDTO.java:8-9 | a long non-blank message gives exactly the size violation with the message as rejected value; an empty one gives "Message cannot be empty" and one or two violations |
| `Model.BlogPost.constructor` | src/main/java/com/daalfa/blog/service/model/BlogPost.java:13-24 | a new post has no id, no title or content, and an empty comment list |
| `Model.BlogPost.AddComment` | src/main/java/com/daalfa/blog/service/service/BlogPostService.java:63 | the list grows by one, the new comment is last, every earlier comment keeps its position, other fields unchanged |
| `Mapper.ToCommentDTO` | src/main/java/com/daalfa/blog/service/mapper/BlogPostMapper.java:22 | a comment is exposed as its message only |
| `Mapper.ToCommentEntity` | src/main/java/com/daalfa/blog/service/mapper/BlogPostMapper.java:24 | the new comment has no id and no post, and mapping it back gives the original DTO (round trip) |
| `Mapper.ToBlogPostResponseWithCommentsDTO` | src/main/java/com/daalfa/blog/service/mapper/BlogPostMapper.java:13 | id, title, content copied; one comment DTO per comment, same count and order, each the comment's message |
| `Mapper.ToBlogPostResponseSummaryDTO` | src/main/java/com/daalfa/blog/service/mapper/BlogPostMapper.java:15-16 | `comments` is the size of the entity's comment list |
| `Mapper.ToBlogPostResponseDTO` | src/main/java/com/daalfa/blog/service/mapper/BlogPostMapper.java:18 | id, title and content only |
| `Mapper.ToBlogPostEntity` | src/main/java/com/daalfa/blog/service/mapper/BlogPostMapper.java:20 | a fresh entity with the request's title and content, no id, no comments |
| `Repository.IdsBelow` | src/main/java/com/daalfa/blog/service/service/BlogPostService.java:41 | the listing holds exactly the stored ids below the bound, strictly ascending |
| `Repository.IdsBelowCount` | src/main/java/com/daalfa/blog/service/service/BlogPostService.java:41-43 | when every id is below the bound, the listing has one entry per stored post |
| `Repository.CommentsOfMembers` | src/main/java/com/daalfa/blog/service/model/Comment.java:18-20 | a stored comment that references a post is in that post's collection |
| `Repository.CommentsOfOrdered` | src/main/java/com/daalfa/blog/service/model/BlogPost.java:24 | with each comment stored under its own id, a post's collection is in strictly ascending id (insertion) order |
| `Repository.CommentsOfAgree` | src/main/java/com/daalfa/blog/service/model/BlogPost.java:23 | a post's collection depends only on the comment rows below the bound |
| `Repository.CommentsOfAppend` | src/main/java/com/daalfa/blog/service/service/BlogPostService.java:59-63 | saving a comment under the next id appends it to its own post's collection and changes no other collection |
| `Repository.CommentsOfUnreferenced` | src/main/java/com/daalfa/blog/service/model/BlogPost.java:24 | a post no comment references has an empty collection |
| `Repository.RemoveOwnedBy` | src/main/java/com/daalfa/blog/service/model/BlogPost.java:23 | exactly the rows not owned by the deleted post remain, unchanged |
| `Repository.CommentsOfCascade` | src/main/java/com/daalfa/blog/service/model/BlogPost.java:23 | after the cascade the deleted post's collection is empty and every other post's collection is as before |
| `Service.BlogPostService.constructor` | src/main/java/com/daalfa/blog/service/service/BlogPostService.java:24-30 | an empty store satisfying the invariant, counters at 1 |
| `Service.BlogPostService.Listing` | src/main/java/com/daalfa/blog/service/service/BlogPostService.java:41 | the store listing has one entry per stored post, exactly the stored ids, ascending |
| `Service.BlogPostService.GetPostById` | src/main/java/com/daalfa/blog/service/service/BlogPostService.java:32-37 | fails with NotFound("BlogPost not found") iff no post has the id; otherwise that post's id, title and content, and the messages of its stored comments in insertion order; reads only |
| `Service.BlogPostService.GetAllPosts` | src/main/java/com/daalfa/blog/service/service/BlogPostService.java:39-44 | one summary per stored post, in listing order, ids strictly ascending, each with its post's title, content and comment count; reads only |
| `Service.BlogPostService.CreatePost` | src/main/java/com/daalfa/blog/service/service/BlogPostService.java:46-51 | one new post under a previously unused id, with the request's title and content and no comments; existing posts and all comments unchanged; invariant kept |
| `Service.BlogPostService.CreateComment` | src/main/java/com/daalfa/blog/service/service/BlogPostService.java:53-65 | missing post: NotFound and the store unchanged. Otherwise a new comment row under the next id references the post, the post's list grows by exactly that comment, other posts are unchanged, the returned DTO equals the input, and a later read of the post shows one more comment, last. Invariant kept |
| `Service.BlogPostService.AttachNewComment` | src/main/java/com/daalfa/blog/service/service/BlogPostService.java:59-64 | the save-and-attach step: the comment is both stored and attached, never only one of the two |
| `Service.BlogPostService.DeletePost` | src/main/java/com/daalfa/blog/service/model/BlogPost.java:23 | removing a post removes every comment that references it and no other row; no orphaned comment remains; invariant kept |
| `Errors.ToErrorDetails` | src/main/java/com/daalfa/blog/service/exception/GlobalExceptionHandler.java:39-45 | one entry per violation, same order, field, rejected value and message copied |
| `Errors.HandleNotFoundException` | src/main/java/com/daalfa/blog/service/exception/GlobalExceptionHandler.java:18-24 | status 404 on the response and in the body, the exception's message, no `errors` |
| `Errors.HandleInvalidPayloadExceptionAsWritten` | src/main/java/com/daalfa/blog/service/exception/GlobalExceptionHandler.java:26-31 | the code as written: body status 404, response status 200 (no `@ResponseStatus`), "Request body is missing or malformed", no `errors` |
| `Errors.MalformedBodyStatusDisagrees` | src/main/java/com/daalfa/blog/service/exception/GlobalExceptionHandler.java:26-31 | as written, the response status differs from the body's and is not a 4xx |
| `Errors.HandleInvalidPayloadException` | src/main/java/com/daalfa/blog/service/exception/GlobalExceptionHandler.java:26-31 | as intended: 400 on the response and in the body, the same message, no `errors` |
| `Errors.HandleValidationExceptions` | src/main/java/com/daalfa/blog/service/exception/GlobalExceptionHandler.java:33-48 | 400, "Validation failed", one entry per field error in the same order, copying field, rejected value and message |
| `Errors.HandleConstraintViolationException` | src/main/java/com/daalfa/blog/service/exception/GlobalExceptionHandler.java:50-65 | 400, "Validation failed", one entry per violation from its path, invalid value and message |
| `Errors.Handle` | src/main/java/com/daalfa/blog/service/exception/GlobalExceptionHandler.java:14-66 | response status equals the body's status, 404 for NotFound and 400 otherwise; `errors` present iff a validation failure, with as many entries as violations; this holds with the corrected malformed-body handler |
| `Controller.RejectId` | src/main/java/com/daalfa/blog/service/controller/BlogPostController.java:27 | a non-positive id answers 400, "Validation failed", with one entry holding the id and "must be greater than 0" |
| `Controller.GetPostById` | src/main/java/com/daalfa/blog/service/controller/BlogPostController.java:25-29 | id ≤ 0: 400 with a single violation, before the service runs; stored id: 200 with exactly the service's result; otherwise 404 "BlogPost not found" |
| `Controller.GetAllPosts` | src/main/java/com/daalfa/blog/service/controller/BlogPostController.java:31-35 | 200 with exactly the service's listing, one summary per stored post |
| `Controller.CreatePost` | src/main/java/com/daalfa/blog/service/controller/BlogPostController.java:37-41 | unreadable or invalid body: 400 with the handler's body, store unchanged; 201 iff the body is valid, with the new post under the next id and the request's fields, the post counter advanced by one and the comment counter unchanged; accepted records stay accepted |
| `Controller.CreateComment` | src/main/java/com/daalfa/blog/service/controller/BlogPostController.java:43-47 | unreadable body, invalid body, id ≤ 0 (one violation) or missing post (404) store nothing; 201 iff all checks pass and the post exists, with the comment stored, appended to its post and echoed, the comment counter advanced by one and the post counter unchanged; no post's id, title or content changes; accepted records stay accepted |

## Findings

| source | as written | input that shows it | evidently intended | confidence | as-written member | corrected member |
|---|---|---|---|---|---|---|
| src/main/java/com/daalfa/blog/service/exception/GlobalExceptionHandler.java:26-31 | the malformed-body handler puts `HttpStatus.NOT_FOUND` (404) in the body and has no `@ResponseStatus`, so the response goes out as 200 | `POST /posts` with a missing or unparsable JSON body | a bad request: 400 on the response and in the body, like the other client-error handlers | medium, not executed | `Errors.HandleInvalidPayloadExceptionAsWritten` | `Errors.HandleInvalidPayloadException` |

The dispatcher `Errors.Handle`, and through it every endpoint, uses the corrected handler.

## Left out

- Routing, JSON (de)serialisation and bootstrap. An endpoint is a function or method of (store, path id, parsed body or `Unreadable`).
  A path id that does not parse as a `Long` is not modelled.
- The `JpaRepository` interfaces (`BlogPostRepository.java`, `CommentRepository.java`). They are replaced by the two maps and two id counters of `Service.BlogPostService`.
  `save` of a new entity is written out inline: it assigns the next id and stores the row.
- `Service.BlogPostService.DeletePost` models the store's delete together with the cascade the post entity declares.
  No endpoint calls it, as in the source. The persist-side cascade is not modelled, since posts are always saved with empty comment lists.
- The order of `findAll`: JPA does not fix it, and the model lists posts by ascending id.
- The order of a reloaded post's comment list: the `@OneToMany` collection (BlogPost.java:23-24) has no `@OrderBy` or `@OrderColumn`, so JPA does not fix it. The model uses ascending comment id, which is insertion order.
- JPA persistence-context details such as lazy loading and proxies. The comment back-reference is the post's id rather than the post object.
- `@Transactional`: in the model a failure happens before any write, so a failed call leaves the store unchanged. Nothing else of a transaction manager is modelled.
- Concurrency between requests: the model is sequential.
- Logging: it has no effect on results.
- Failures other than the four handled kinds, such as storage errors, propagate unhandled.
- Ids are unbounded integers. The 64-bit range of `Long` and counter overflow are not modelled.
- `@Size` counts UTF-16 code units in Java, while the model counts Dafny characters (Unicode scalar values). A character outside the Basic Multilingual Plane counts once here and twice in Java.
- The order in which the validation engine reports violations: contracts give membership and counts, not positions.
- `BlogPostResponseDTO.java`, `BlogPostResponseSummaryDTO.java`, `ErrorDetails.java` and `NotFoundException.java` are not part of this model.
  Their shapes are taken from how the mapper and the handler use them.
