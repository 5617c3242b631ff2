/** The blog service together with the store it works on. The store holds
    the saved posts (entity objects, updated in place) and the saved comment
    rows, keyed by the ids it assigns from two counters that start at 1. */
module Service {
  import opened Wrappers
  import opened Model
  import opened Dto
  import opened Mapper
  import opened Repository
  import opened Errors

  const PostNotFound := "BlogPost not found"

  class BlogPostService {
    var posts: map<int, BlogPost>
    var comments: map<int, Comment>
    var nextPostId: nat
    var nextCommentId: nat

    /** The store invariant: ids are assigned once, below the counter, and
        recorded in the entity; distinct ids hold distinct post objects; every
        comment references a stored post; and each post's comment list is the
        store's collection of the comments that reference it, in id order. */
    ghost predicate Valid()
      reads this, posts.Values
    {
      && 1 <= nextPostId && 1 <= nextCommentId
      && PostIdsAssigned()
      && PostsDistinct()
      && CommentRowsOwned()
      && ListsMatchRows()
    }

    ghost predicate PostIdsAssigned()
      reads this`posts, this`nextPostId, posts.Values`id
    {
      forall k :: k in posts ==> 1 <= k < nextPostId && posts[k].id == Some(k)
    }

    ghost predicate PostsDistinct()
      reads this`posts
    {
      forall k, k' :: k in posts && k' in posts && k != k' ==> posts[k] != posts[k']
    }

    ghost predicate CommentRowsOwned()
      reads this`posts, this`comments, this`nextCommentId
    {
      forall c :: c in comments ==>
        && 1 <= c < nextCommentId
        && comments[c].id == Some(c)
        && comments[c].blogPost.Some? && comments[c].blogPost.value in posts
    }

    ghost predicate ListsMatchRows()
      reads this`posts, this`comments, this`nextCommentId, posts.Values`comments
    {
      forall k :: k in posts ==> posts[k].comments == CommentsOf(comments, k, nextCommentId)
    }

    /** An empty store. */
    constructor ()
      ensures Valid()
      ensures posts == map[] && comments == map[]
      ensures nextPostId == 1 && nextCommentId == 1
    {
      posts := map[];
      comments := map[];
      nextPostId := 1;
      nextCommentId := 1;
    }

    /** The order in which the store lists its posts: ascending id. */
    function Listing(): (r: seq<int>)
      requires Valid()
      reads this, posts.Values
      ensures |r| == |posts|
      ensures forall k :: k in r <==> k in posts
      ensures forall i, j :: 0 <= i < j < |r| ==> r[i] < r[j]
    {
      IdsBelowCount(posts.Keys, nextPostId);
      IdsBelow(posts.Keys, nextPostId)
    }

    /** `getPostById`: the post with its comments, or NotFound when no post
        has that id. Reads only. */
    function GetPostById(id: int): (r: Result<BlogPostResponseWithCommentsDTO, HandledException>)
      requires Valid()
      reads this, posts.Values
      ensures r.Err? <==> id !in posts
      ensures r.Err? ==> r.error == NotFoundException(PostNotFound)
      ensures r.Ok? ==> r.value.id == Some(id) && r.value.title == posts[id].title && r.value.content == posts[id].content
      ensures r.Ok? ==> |r.value.comments| == |CommentsOf(comments, id, nextCommentId)|
      ensures r.Ok? ==> forall i :: 0 <= i < |r.value.comments| ==>
                          r.value.comments[i].message == CommentsOf(comments, id, nextCommentId)[i].message
    {
      if id in posts then Ok(ToBlogPostResponseWithCommentsDTO(posts[id]))
      else Err(NotFoundException(PostNotFound))
    }

    /** The stream map of the listing: one summary per listed id, in order. */
    function Summaries(ids: seq<int>): (r: seq<BlogPostResponseSummaryDTO>)
      requires forall i :: 0 <= i < |ids| ==> ids[i] in posts
      reads this, posts.Values
      ensures |r| == |ids|
      ensures forall i :: 0 <= i < |ids| ==> r[i] == ToBlogPostResponseSummaryDTO(posts[ids[i]])
    {
      if ids == [] then [] else [ToBlogPostResponseSummaryDTO(posts[ids[0]])] + Summaries(ids[1..])
    }

    /** `getAllPosts`: exactly one summary per stored post, in listing order,
        each carrying the number of comments of that post. Reads only. */
    function GetAllPosts(): (r: seq<BlogPostResponseSummaryDTO>)
      requires Valid()
      reads this, posts.Values
      ensures |r| == |posts|
      ensures forall i :: 0 <= i < |r| ==> r[i].id == Some(Listing()[i])
      ensures forall i :: 0 <= i < |r| ==> r[i].id.Some? && r[i].id.value in posts
      ensures forall i :: 0 <= i < |r| ==>
                r[i].title == posts[r[i].id.value].title && r[i].content == posts[r[i].id.value].content
      ensures forall i :: 0 <= i < |r| ==> r[i].comments == |CommentsOf(comments, r[i].id.value, nextCommentId)|
      ensures forall i, j :: 0 <= i < j < |r| ==> r[i].id.value < r[j].id.value
    {
      var ids := Listing();
      var r := Summaries(ids);
      r
    }

    /** `createPost`: the request's title and content become a new post under
        the next unused id, with no comments; no stored post or comment changes. */
    method CreatePost(dto: BlogPostRequestDTO) returns (r: BlogPostResponseDTO)
      requires Valid()
      modifies this
      ensures Valid()
      ensures old(nextPostId) !in old(posts)
      ensures r == BlogPostResponseDTO(Some(old(nextPostId)), dto.title, dto.content)
      ensures posts.Keys == old(posts.Keys) + {old(nextPostId)}
      ensures forall k :: k in old(posts) ==> posts[k] == old(posts[k])
      ensures fresh(posts[old(nextPostId)])
      ensures posts[old(nextPostId)].title == dto.title && posts[old(nextPostId)].content == dto.content
      ensures posts[old(nextPostId)].comments == []
      ensures comments == old(comments)
      ensures nextPostId == old(nextPostId) + 1 && nextCommentId == old(nextCommentId)
    {
      var post := ToBlogPostEntity(dto);
      // the repository's save assigns the identity
      post.id := Some(nextPostId);
      CommentsOfUnreferenced(comments, nextPostId, nextCommentId);
      posts := posts[nextPostId := post];
      nextPostId := nextPostId + 1;
      r := ToBlogPostResponseDTO(post);
    }

    /** `createComment`: on a missing post, NotFound and nothing changes;
        otherwise the message is saved as a new comment of that post under the
        next comment id and appended to the post's list, and nothing else
        changes. The returned DTO equals the input. */
    method CreateComment(id: int, dto: CommentDTO) returns (r: Result<CommentDTO, HandledException>)
      requires Valid()
      modifies this, posts.Values
      ensures Valid()
      ensures r.Err? <==> id !in old(posts)
      ensures posts == old(posts) && nextPostId == old(nextPostId)
      ensures forall k :: k in posts ==>
                posts[k].id == old(posts[k].id) && posts[k].title == old(posts[k].title) && posts[k].content == old(posts[k].content)
      ensures r.Err? ==> r.error == NotFoundException(PostNotFound)
      ensures r.Err? ==> unchanged(this) && unchanged(posts.Values)
      ensures r.Ok? ==> r.value == dto
      ensures r.Ok? ==> old(nextCommentId) !in old(comments) && nextCommentId == old(nextCommentId) + 1
      ensures r.Ok? ==> comments == old(comments)[old(nextCommentId) := Comment(Some(old(nextCommentId)), dto.message, Some(id))]
      ensures r.Ok? ==> posts[id].comments == old(posts[id].comments) + [comments[old(nextCommentId)]]
      ensures r.Ok? ==> forall k :: k in posts && k != id ==> posts[k].comments == old(posts[k].comments)
      ensures r.Ok? ==> GetPostById(id).Ok? && old(GetPostById(id)).Ok?
      ensures r.Ok? ==> GetPostById(id).value.comments == old(GetPostById(id)).value.comments + [dto]
    {
      if id !in posts {
        return Err(NotFoundException(PostNotFound));
      }
      var saved := AttachNewComment(id, dto);
      r := Ok(saved);
    }

    /** The part of `createComment` after the post was found: the comment is
        linked to the post, saved under the next comment id, and appended to
        the post's list. */
    method AttachNewComment(id: int, dto: CommentDTO) returns (r: CommentDTO)
      requires Valid() && id in posts
      modifies this, posts.Values
      ensures Valid()
      ensures posts == old(posts) && nextPostId == old(nextPostId)
      ensures forall k :: k in posts ==>
                posts[k].id == old(posts[k].id) && posts[k].title == old(posts[k].title) && posts[k].content == old(posts[k].content)
      ensures r == dto
      ensures old(nextCommentId) !in old(comments) && nextCommentId == old(nextCommentId) + 1
      ensures comments == old(comments)[old(nextCommentId) := Comment(Some(old(nextCommentId)), dto.message, Some(id))]
      ensures posts[id].comments == old(posts[id].comments) + [comments[old(nextCommentId)]]
      ensures forall k :: k in posts && k != id ==> posts[k].comments == old(posts[k].comments)
    {
      var post := posts[id];
      var comment := ToCommentEntity(dto);
      comment := comment.(blogPost := Some(id));
      // the repository's save assigns the identity
      comment := comment.(id := Some(nextCommentId));
      ghost var cm0, n0 := comments, nextCommentId;
      comments := comments[nextCommentId := comment];
      nextCommentId := nextCommentId + 1;
      post.AddComment(comment);
      forall k | k in posts
        ensures posts[k].comments == CommentsOf(comments, k, nextCommentId)
      {
        CommentsOfAppend(cm0, k, n0, comment);
        if k != id {
          assert posts[k] != post;
        }
      }
      r := ToCommentDTO(comment);
    }

    /** The store's delete, with the cascade the post entity declares: the post
        and every comment it owns go, no other row changes, and no comment is
        left pointing at a missing post. */
    method DeletePost(id: int)
      requires Valid()
      modifies this
      ensures Valid()
      ensures posts == old(posts) - {id}
      ensures comments == RemoveOwnedBy(old(comments), id)
      ensures forall c :: c in comments ==> comments[c].blogPost != Some(id)
      ensures nextPostId == old(nextPostId) && nextCommentId == old(nextCommentId)
    {
      ghost var cm0 := comments;
      posts := posts - {id};
      comments := RemoveOwnedBy(comments, id);
      forall k | k in posts
        ensures posts[k].comments == CommentsOf(comments, k, nextCommentId)
      {
        CommentsOfCascade(cm0, id, k, nextCommentId);
      }
    }
  }
}
