/** The four endpoints under `/posts`. Each one checks its input first, in
    the order the framework does (read the body, validate the body, check
    the `@Positive` path id), and only then calls the service; a failure at
    any step becomes the error response of the central handler. */
module Controller {
  import opened Wrappers
  import opened Validation
  import opened Dto
  import opened Model
  import opened Errors
  import opened Service

  /** A request body as the framework hands it over: parsed into its shape,
      or missing or malformed. */
  datatype Body<T> = Parsed(value: T) | Unreadable

  /** What a response carries. */
  datatype Payload =
    | PostWithComments(post: BlogPostResponseWithCommentsDTO)
    | PostSummaries(summaries: seq<BlogPostResponseSummaryDTO>)
    | PostCreated(created: BlogPostResponseDTO)
    | CommentCreated(comment: CommentDTO)
    | Error(error: ErrorMessage)

  datatype HttpResponse = HttpResponse(status: int, body: Payload)

  const CREATED := 201

  /** Property paths of the `@Positive` parameters. */
  const GetPostByIdPath := "getPostById.id"
  const CreateCommentPath := "createComment.id"

  /** The response the central handler gives for `ex`. */
  function Reject(ex: HandledException): (r: HttpResponse)
    ensures r.status == Handle(ex).httpStatus && r.body == Error(Handle(ex).body)
  {
    var e := Handle(ex);
    HttpResponse(e.httpStatus, Error(e.body))
  }

  /** The error response for a non-positive path id: one entry, carrying the
      rejected id and the `@Positive` message. */
  function RejectId(path: string, id: int): (r: HttpResponse)
    requires id <= 0
    ensures r == HttpResponse(BAD_REQUEST, Error(ErrorMessage(BAD_REQUEST, ValidationFailed,
                                  Some([ErrorDetails(path, LongValue(id), PositiveMessage)]))))
  {
    var r := Reject(ConstraintViolationException(Positive(path, id)));
    assert r.body.error.errors.value == [ErrorDetails(path, LongValue(id), PositiveMessage)];
    r
  }

  /** The rows the data model requires of every accepted record: each stored
      title, content and message is non-blank and within its bounds. */
  ghost predicate Accepted(service: BlogPostService)
    reads service, service.posts.Values
  {
    && (forall k :: k in service.posts ==> AcceptablePost(service.posts[k].title, service.posts[k].content))
    && (forall c :: c in service.comments ==> AcceptableMessage(service.comments[c].message))
  }

  /** `GET /posts/{id}`: 400 with one violation for a non-positive id before
      the service runs; otherwise 200 with the service's result, or 404. */
  function GetPostById(service: BlogPostService, id: int): (r: HttpResponse)
    requires service.Valid()
    reads service, service.posts.Values
    ensures id <= 0 ==> r == HttpResponse(BAD_REQUEST, Error(ErrorMessage(BAD_REQUEST, ValidationFailed,
                                  Some([ErrorDetails(GetPostByIdPath, LongValue(id), PositiveMessage)]))))
    ensures id > 0 && id in service.posts ==> r == HttpResponse(OK, PostWithComments(service.GetPostById(id).value))
    ensures id > 0 && id !in service.posts ==> r == HttpResponse(NOT_FOUND, Error(ErrorMessage(NOT_FOUND, PostNotFound, None)))
  {
    if id <= 0 then RejectId(GetPostByIdPath, id)
    else match service.GetPostById(id)
      case Ok(dto) => HttpResponse(OK, PostWithComments(dto))
      case Err(ex) => Reject(ex)
  }

  /** `GET /posts`: 200 with one summary per stored post. */
  function GetAllPosts(service: BlogPostService): (r: HttpResponse)
    requires service.Valid()
    reads service, service.posts.Values
    ensures r.status == OK && r.body == PostSummaries(service.GetAllPosts())
    ensures |r.body.summaries| == |service.posts|
  {
    HttpResponse(OK, PostSummaries(service.GetAllPosts()))
  }

  /** `POST /posts`: an unreadable or invalid body is answered before the
      service runs and leaves the store as it was; a valid one is stored as a
      new post and answered with 201 and the created post. */
  method CreatePost(service: BlogPostService, body: Body<BlogPostRequestDTO>) returns (r: HttpResponse)
    requires service.Valid()
    modifies service
    ensures service.Valid()
    ensures body.Unreadable? ==> r == Reject(HttpMessageNotReadableException) && r.status == BAD_REQUEST
    ensures body.Parsed? && ValidateBlogPostRequest(body.value) != [] ==>
              r == Reject(MethodArgumentNotValidException(ValidateBlogPostRequest(body.value))) && r.status == BAD_REQUEST
    ensures r.status != CREATED ==> unchanged(service)
    ensures r.status == CREATED <==> body.Parsed? && ValidateBlogPostRequest(body.value) == []
    ensures r.status == CREATED ==>
              && r.body == PostCreated(BlogPostResponseDTO(Some(old(service.nextPostId)), body.value.title, body.value.content))
              && old(service.nextPostId) !in old(service.posts)
              && service.posts.Keys == old(service.posts.Keys) + {old(service.nextPostId)}
              && (forall k :: k in old(service.posts) ==> service.posts[k] == old(service.posts[k]))
              && service.posts[old(service.nextPostId)].title == body.value.title
              && service.posts[old(service.nextPostId)].content == body.value.content
              && service.posts[old(service.nextPostId)].comments == []
              && fresh(service.posts[old(service.nextPostId)])
              && service.comments == old(service.comments)
              && service.nextPostId == old(service.nextPostId) + 1
              && service.nextCommentId == old(service.nextCommentId)
    ensures old(Accepted(service)) ==> Accepted(service)
  {
    if body.Unreadable? {
      return Reject(HttpMessageNotReadableException);
    }
    var violations := ValidateBlogPostRequest(body.value);
    if violations != [] {
      return Reject(MethodArgumentNotValidException(violations));
    }
    var created := service.CreatePost(body.value);
    r := HttpResponse(CREATED, PostCreated(created));
  }

  /** `POST /posts/{id}/comments`: an unreadable or invalid body, a
      non-positive id or a missing post is answered without storing anything;
      otherwise the comment is stored and attached to its post and answered
      with 201 and the comment. */
  method CreateComment(service: BlogPostService, id: int, body: Body<CommentDTO>) returns (r: HttpResponse)
    requires service.Valid()
    modifies service, service.posts.Values
    ensures service.Valid()
    ensures body.Unreadable? ==> r == Reject(HttpMessageNotReadableException) && r.status == BAD_REQUEST
    ensures body.Parsed? && ValidateComment(body.value) != [] ==>
              r == Reject(MethodArgumentNotValidException(ValidateComment(body.value))) && r.status == BAD_REQUEST
    ensures body.Parsed? && ValidateComment(body.value) == [] && id <= 0 ==>
              r == HttpResponse(BAD_REQUEST, Error(ErrorMessage(BAD_REQUEST, ValidationFailed,
                                  Some([ErrorDetails(CreateCommentPath, LongValue(id), PositiveMessage)]))))
    ensures body.Parsed? && ValidateComment(body.value) == [] && id > 0 && id !in old(service.posts) ==>
              r == HttpResponse(NOT_FOUND, Error(ErrorMessage(NOT_FOUND, PostNotFound, None)))
    ensures r.status == CREATED <==> body.Parsed? && ValidateComment(body.value) == [] && id > 0 && id in old(service.posts)
    ensures r.status != CREATED ==> unchanged(service) && unchanged(service.posts.Values)
    ensures r.status == CREATED ==>
              && r.body == CommentCreated(body.value)
              && service.posts == old(service.posts)
              && service.comments == old(service.comments)[old(service.nextCommentId) :=
                                        Comment(Some(old(service.nextCommentId)), body.value.message, Some(id))]
              && service.posts[id].comments == old(service.posts[id].comments) + [service.comments[old(service.nextCommentId)]]
              && (forall k :: k in service.posts && k != id ==> service.posts[k].comments == old(service.posts[k].comments))
              && service.nextPostId == old(service.nextPostId)
              && service.nextCommentId == old(service.nextCommentId) + 1
    ensures forall k :: k in service.posts ==>
              && service.posts[k].id == old(service.posts[k].id)
              && service.posts[k].title == old(service.posts[k].title)
              && service.posts[k].content == old(service.posts[k].content)
    ensures old(Accepted(service)) ==> Accepted(service)
  {
    if body.Unreadable? {
      return Reject(HttpMessageNotReadableException);
    }
    var violations := ValidateComment(body.value);
    if violations != [] {
      return Reject(MethodArgumentNotValidException(violations));
    }
    if id <= 0 {
      return RejectId(CreateCommentPath, id);
    }
    var result := service.CreateComment(id, body.value);
    match result
    case Ok(dto) =>
      r := HttpResponse(CREATED, CommentCreated(dto));
    case Err(ex) =>
      r := Reject(ex);
  }
}
