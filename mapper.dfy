/** Field-copying translations between the entities and the wire shapes. */
module Mapper {
  import opened Wrappers
  import opened Model
  import opened Dto

  /** A comment goes on the wire as its message only. */
  function ToCommentDTO(entity: Comment): (r: CommentDTO)
    ensures r.message == entity.message
  {
    CommentDTO(entity.message)
  }

  /** A new, unsaved comment: no id and no owning post yet. Mapping it back
      gives the DTO it came from. */
  function ToCommentEntity(dto: CommentDTO): (r: Comment)
    ensures r.id == None && r.blogPost == None
    ensures r.message == dto.message
    ensures ToCommentDTO(r) == dto
  {
    Comment(None, dto.message, None)
  }

  /** The element-wise mapping of a comment list. */
  function ToCommentDTOs(cs: seq<Comment>): (r: seq<CommentDTO>)
    ensures |r| == |cs|
    ensures forall i :: 0 <= i < |cs| ==> r[i] == ToCommentDTO(cs[i])
  {
    if cs == [] then [] else [ToCommentDTO(cs[0])] + ToCommentDTOs(cs[1..])
  }

  /** A post with its comments: id, title and content copied, and one
      comment DTO per comment, in the same order. */
  function ToBlogPostResponseWithCommentsDTO(entity: BlogPost): (r: BlogPostResponseWithCommentsDTO)
    reads entity
    ensures r.id == entity.id && r.title == entity.title && r.content == entity.content
    ensures |r.comments| == |entity.comments|
    ensures forall i :: 0 <= i < |r.comments| ==> r.comments[i].message == entity.comments[i].message
  {
    BlogPostResponseWithCommentsDTO(entity.id, entity.title, entity.content, ToCommentDTOs(entity.comments))
  }

  /** A post in the listing: the comment list is replaced by its size. */
  function ToBlogPostResponseSummaryDTO(entity: BlogPost): (r: BlogPostResponseSummaryDTO)
    reads entity
    ensures r.id == entity.id && r.title == entity.title && r.content == entity.content
    ensures r.comments == |entity.comments|
  {
    BlogPostResponseSummaryDTO(entity.id, entity.title, entity.content, |entity.comments|)
  }

  /** A created post: id, title and content, and nothing of the comments. */
  function ToBlogPostResponseDTO(entity: BlogPost): (r: BlogPostResponseDTO)
    reads entity
    ensures r.id == entity.id && r.title == entity.title && r.content == entity.content
  {
    BlogPostResponseDTO(entity.id, entity.title, entity.content)
  }

  /** A new, unsaved post built from a request: no id, no comments. */
  method ToBlogPostEntity(dto: BlogPostRequestDTO) returns (entity: BlogPost)
    ensures fresh(entity)
    ensures entity.id == None && entity.comments == []
    ensures entity.title == dto.title && entity.content == dto.content
  {
    entity := new BlogPost();
    entity.title := dto.title;
    entity.content := dto.content;
  }
}
