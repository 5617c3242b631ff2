/** Example request sequences, checked against the contracts of the
    endpoints alone. */
module Scenarios {
  import opened Wrappers
  import opened Validation
  import opened Dto
  import opened Errors
  import opened Service
  import opened Controller

  /** Create a post and read it back: id 1, the same title and content, no comments. */
  method CreateThenRead()
  {
    var service := new BlogPostService();
    assert !IsBlank(Some("Title")) by { assert !IsTrimmed("Title"[0]); }
    assert !IsBlank(Some("Content")) by { assert !IsTrimmed("Content"[0]); }

    var created := CreatePost(service, Parsed(BlogPostRequestDTO(Some("Title"), Some("Content"))));
    assert created == HttpResponse(CREATED, PostCreated(BlogPostResponseDTO(Some(1), Some("Title"), Some("Content"))));

    var got := GetPostById(service, 1);
    assert got == HttpResponse(OK, PostWithComments(BlogPostResponseWithCommentsDTO(Some(1), Some("Title"), Some("Content"), [])));
  }

  /** Comment on a stored post and read it back: one comment, "hi"; a
      comment on a post that does not exist is a 404. */
  method CommentThenRead()
  {
    var service := new BlogPostService();
    assert !IsBlank(Some("Title")) by { assert !IsTrimmed("Title"[0]); }
    assert !IsBlank(Some("Content")) by { assert !IsTrimmed("Content"[0]); }
    assert !IsBlank(Some("hi")) by { assert !IsTrimmed("hi"[0]); }

    var created := CreatePost(service, Parsed(BlogPostRequestDTO(Some("Title"), Some("Content"))));
    var commented := CreateComment(service, 1, Parsed(CommentDTO(Some("hi"))));
    assert commented == HttpResponse(CREATED, CommentCreated(CommentDTO(Some("hi"))));

    var got := GetPostById(service, 1);
    assert got.status == OK && |got.body.post.comments| == 1 && got.body.post.comments[0].message == Some("hi");

    var missing := CreateComment(service, 999999, Parsed(CommentDTO(Some("hi"))));
    assert missing == HttpResponse(NOT_FOUND, Error(ErrorMessage(NOT_FOUND, PostNotFound, None)));
  }

  /** Ids follow one another, and commenting leaves the post's own fields alone. */
  method IdsAndFieldsKept()
  {
    var service := new BlogPostService();
    assert !IsBlank(Some("Title")) by { assert !IsTrimmed("Title"[0]); }
    assert !IsBlank(Some("Content")) by { assert !IsTrimmed("Content"[0]); }
    assert !IsBlank(Some("hi")) by { assert !IsTrimmed("hi"[0]); }

    var first := CreatePost(service, Parsed(BlogPostRequestDTO(Some("Title"), Some("Content"))));
    var second := CreatePost(service, Parsed(BlogPostRequestDTO(Some("Title"), Some("Content"))));
    assert second.body.created.id == Some(2);

    var commented := CreateComment(service, 1, Parsed(CommentDTO(Some("hi"))));
    var got := GetPostById(service, 1);
    assert got.status == OK && got.body.post.title == Some("Title") && got.body.post.content == Some("Content");
  }

  /** An empty title and a negative id are 400s and store nothing. */
  method RejectedRequests()
  {
    var service := new BlogPostService();
    assert !IsBlank(Some("Content")) by { assert !IsTrimmed("Content"[0]); }

    var emptyTitle := CreatePost(service, Parsed(BlogPostRequestDTO(Some(""), Some("Content"))));
    assert emptyTitle.status == BAD_REQUEST;
    assert ErrorDetails("title", StringValue(""), TitleBlank) in emptyTitle.body.error.errors.value;
    assert service.posts == map[];

    var negative := GetPostById(service, -1);
    assert negative.status == BAD_REQUEST && negative.body.error.message == ValidationFailed;
    assert |negative.body.error.errors.value| == 1 && negative.body.error.errors.value[0].rejectedValue == LongValue(-1);
  }
}
