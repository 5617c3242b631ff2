/** The persisted entities: a post, which the service mutates in place, and
    a comment record with its back-reference to the owning post. */
module Model {
  import opened Wrappers

  /** A comment row. `blogPost` is the id of the owning post (the join
      column `post_id`); `id` is `None` until the store saves the comment. */
  datatype Comment = Comment(id: Option<int>, message: Option<string>, blogPost: Option<int>)

  /** The post entity. `id` is `None` until the store saves the post; the
      comment list is kept in insertion order. */
  class BlogPost {
    var id: Option<int>
    var title: Option<string>
    var content: Option<string>
    var comments: seq<Comment>

    /** The no-argument constructor: every field unset, no comments. */
    constructor ()
      ensures id == None && title == None && content == None
      ensures comments == []
    {
      id := None;
      title := None;
      content := None;
      comments := [];
    }

    /** `getComments().add(c)`: appends at the end and moves nothing else. */
    method AddComment(c: Comment)
      modifies this
      ensures comments == old(comments) + [c]
      ensures |comments| == |old(comments)| + 1 && comments[|comments| - 1] == c
      ensures forall i :: 0 <= i < |old(comments)| ==> comments[i] == old(comments)[i]
      ensures id == old(id) && title == old(title) && content == old(content)
    {
      comments := comments + [c];
    }
  }
}
