/** The wire shapes of the API and the declarative constraints of the two
    request shapes, written as validation functions. */
module Dto {
  import opened Wrappers
  import opened Validation

  /** Body of `POST /posts`; a field missing from the JSON is `None`. */
  datatype BlogPostRequestDTO = BlogPostRequestDTO(title: Option<string>, content: Option<string>)

  /** Body of `POST /posts/{id}/comments`, and the wire form of a comment. */
  datatype CommentDTO = CommentDTO(message: Option<string>)

  /** A created post: no comments field at all. */
  datatype BlogPostResponseDTO = BlogPostResponseDTO(id: Option<int>, title: Option<string>, content: Option<string>)

  /** A post in the listing: the comment list is replaced by its length. */
  datatype BlogPostResponseSummaryDTO =
    BlogPostResponseSummaryDTO(id: Option<int>, title: Option<string>, content: Option<string>, comments: int)

  /** A single post with its comments in order. */
  datatype BlogPostResponseWithCommentsDTO =
    BlogPostResponseWithCommentsDTO(id: Option<int>, title: Option<string>, content: Option<string>, comments: seq<CommentDTO>)

  const TitleMax := 64
  const ContentMax := 256
  const MessageMax := 256

  const TitleBlank := "Title cannot be empty"
  const TitleSize := "Title must be between 1 and 64 characters"
  const ContentBlank := "Content cannot be empty"
  const ContentSize := "Content must be between 1 and 256 characters"
  const MessageBlank := "Message cannot be empty"
  const MessageSize := "Message must be between 1 and 256 characters"

  /** What the data model demands of an accepted post: title and content
      non-blank and within their length bounds. */
  predicate AcceptablePost(title: Option<string>, content: Option<string>)
  {
    AcceptableTitle(title) && AcceptableContent(content)
  }

  predicate AcceptableTitle(title: Option<string>)
  {
    !IsBlank(title) && SizeWithin(title, 1, TitleMax)
  }

  predicate AcceptableContent(content: Option<string>)
  {
    !IsBlank(content) && SizeWithin(content, 1, ContentMax)
  }

  /** What the data model demands of an accepted comment message. */
  predicate AcceptableMessage(message: Option<string>)
  {
    !IsBlank(message) && SizeWithin(message, 1, MessageMax)
  }

  /** 1 for a constraint that fires, 0 otherwise. */
  function Fires(b: bool): nat { if b then 1 else 0 }

  /** The constraints on `BlogPostRequestDTO`: each field is checked for
      not-blank and for size, independently of the other field. */
  function ValidateBlogPostRequest(dto: BlogPostRequestDTO): (r: seq<Violation>)
    ensures forall w :: w in r ==>
              (w.field == "title" && w.rejectedValue == AsValue(dto.title) && w.message in {TitleBlank, TitleSize})
              || (w.field == "content" && w.rejectedValue == AsValue(dto.content) && w.message in {ContentBlank, ContentSize})
    ensures Violation("title", AsValue(dto.title), TitleBlank) in r <==> IsBlank(dto.title)
    ensures Violation("title", AsValue(dto.title), TitleSize) in r <==> !SizeWithin(dto.title, 1, TitleMax)
    ensures Violation("content", AsValue(dto.content), ContentBlank) in r <==> IsBlank(dto.content)
    ensures Violation("content", AsValue(dto.content), ContentSize) in r <==> !SizeWithin(dto.content, 1, ContentMax)
    ensures |r| == Fires(IsBlank(dto.title)) + Fires(!SizeWithin(dto.title, 1, TitleMax))
                 + Fires(IsBlank(dto.content)) + Fires(!SizeWithin(dto.content, 1, ContentMax))
    ensures r == [] <==> AcceptablePost(dto.title, dto.content)
  {
    NotBlank("title", dto.title, TitleBlank) + Size("title", dto.title, 1, TitleMax, TitleSize)
    + NotBlank("content", dto.content, ContentBlank) + Size("content", dto.content, 1, ContentMax, ContentSize)
  }

  /** The constraints on `CommentDTO`. */
  function ValidateComment(dto: CommentDTO): (r: seq<Violation>)
    ensures forall w :: w in r ==>
              w.field == "message" && w.rejectedValue == AsValue(dto.message) && w.message in {MessageBlank, MessageSize}
    ensures Violation("message", AsValue(dto.message), MessageBlank) in r <==> IsBlank(dto.message)
    ensures Violation("message", AsValue(dto.message), MessageSize) in r <==> !SizeWithin(dto.message, 1, MessageMax)
    ensures |r| == Fires(IsBlank(dto.message)) + Fires(!SizeWithin(dto.message, 1, MessageMax))
    ensures r == [] <==> AcceptableMessage(dto.message)
  {
    NotBlank("message", dto.message, MessageBlank) + Size("message", dto.message, 1, MessageMax, MessageSize)
  }

  /** A title longer than 64 characters that is not blank draws exactly the
      size violation, with the title as rejected value. */
  lemma LongTitleViolation(t: string, content: Option<string>)
    requires |t| > TitleMax && !IsBlank(Some(t)) && AcceptableContent(content)
    ensures ValidateBlogPostRequest(BlogPostRequestDTO(Some(t), content)) == [Violation("title", StringValue(t), TitleSize)]
  {
  }

  /** A non-blank content longer than 256 characters draws exactly the size
      violation. */
  lemma LongContentViolation(title: Option<string>, c: string)
    requires |c| > ContentMax && !IsBlank(Some(c)) && AcceptableTitle(title)
    ensures ValidateBlogPostRequest(BlogPostRequestDTO(title, Some(c))) == [Violation("content", StringValue(c), ContentSize)]
  {
  }

  /** An empty title draws the not-blank violation, and the size violation
      beside it: one or two entries for that field. */
  lemma EmptyFieldViolations(dto: BlogPostRequestDTO)
    requires dto.title == Some("") && AcceptableContent(dto.content)
    ensures Violation("title", StringValue(""), TitleBlank) in ValidateBlogPostRequest(dto)
    ensures 1 <= |ValidateBlogPostRequest(dto)| <= 2
  {
  }

  /** The same for an empty content beside an acceptable title. */
  lemma EmptyContentViolations(dto: BlogPostRequestDTO)
    requires dto.content == Some("") && AcceptableTitle(dto.title)
    ensures Violation("content", StringValue(""), ContentBlank) in ValidateBlogPostRequest(dto)
    ensures 1 <= |ValidateBlogPostRequest(dto)| <= 2
  {
  }

  /** A non-blank message longer than 256 characters draws exactly the size
      violation; an empty one draws the not-blank violation and at most one more. */
  lemma MessageViolations(m: string)
    ensures |m| > MessageMax && !IsBlank(Some(m)) ==>
              ValidateComment(CommentDTO(Some(m))) == [Violation("message", StringValue(m), MessageSize)]
    ensures m == "" ==> Violation("message", StringValue(""), MessageBlank) in ValidateComment(CommentDTO(Some(m)))
                        && 1 <= |ValidateComment(CommentDTO(Some(m)))| <= 2
  {
  }
}
