/**
 * The comment handlers (src/controllers/comment.controller.js): listing a video's comments
 * with their authors, adding a comment, editing its content and deleting it. None of them
 * checks that the caller owns the comment or that the video exists.
 */
module Comments {
  import opened Wrappers
  import opened Primitives
  import opened Text
  import opened Errors
  import opened Schemas
  import opened Database

  // ---------------------------------------------------------------------------------------
  // getVideoComments

  /** A listed comment: its `owner` replaced by the author's card, absent when no user has the id. */
  datatype CommentView = CommentView(id: Id, content: string, video: Id, owner: Option<UserCard>)

  function OnVideo(videoId: Id): Comment -> bool {
    (m: Comment) => m.video == videoId
  }

  /** The `$lookup` of the author with `$first` applied. */
  function WithAuthor(users: seq<User>): Comment -> CommentView {
    (m: Comment) => CommentView(m.id, m.content, m.video, LookupCard(users, m.owner))
  }

  /**
   * The result of the listing pipeline before pagination: exactly the comments on the video,
   * in collection order, each with its author's card.
   */
  function VideoComments(c: Collections, videoId: Id): (r: seq<CommentView>)
    ensures |r| == Count(c.comments, OnVideo(videoId))
    ensures forall k :: 0 <= k < |r| ==>
      r[k].video == videoId && exists m :: m in c.comments && WithAuthor(c.users)(m) == r[k]
    ensures forall m :: m in c.comments && m.video == videoId ==> WithAuthor(c.users)(m) in r
    ensures forall k :: 0 <= k < |r| ==> r[k] == WithAuthor(c.users)(Select(c.comments, OnVideo(videoId))[k])
  {
    var r := Map(Select(c.comments, OnVideo(videoId)), WithAuthor(c.users));
    SelectMapOrigin(c.comments, OnVideo(videoId), WithAuthor(c.users));
    forall m | m in c.comments && m.video == videoId
      ensures WithAuthor(c.users)(m) in r
    {
      SelectMapMember(c.comments, OnVideo(videoId), WithAuthor(c.users), m);
    }
    r
  }

  /**
   * `getVideoComments`: 400 for a missing or malformed video id; otherwise the requested page
   * (at most `limit` items) of the video's comments with their authors.
   */
  function GetVideoComments(c: Collections, env: Env, videoId: string, page: nat, limit: nat)
    : (r: Response<seq<CommentView>>)
    requires page >= 1 && limit >= 1
    ensures videoId == "" || !env.validId(videoId) ==> r == Throw(400, "Invalid Video ID")
    ensures videoId != "" && env.validId(videoId) ==>
      r.Ok? && r.statusCode == 200 && r.message == "Video comments fetched successfully"
      && r.data == Page(VideoComments(c, videoId), page, limit)
    ensures r.Ok? ==> |r.data| <= limit && forall k :: 0 <= k < |r.data| ==> r.data[k].video == videoId
  {
    if videoId == "" || !env.validId(videoId) then Throw(400, "Invalid Video ID")
    else Ok(200, Page(VideoComments(c, videoId), page, limit), "Video comments fetched successfully")
  }

  // ---------------------------------------------------------------------------------------
  // The two content checks

  /** `!content`: `addComment` refuses only a missing or empty content. */
  predicate AddRejectsContent(content: Option<string>) {
    !Truthy(content)
  }

  /** `!content?.trim()`: `updateComment` also refuses content made only of white space. */
  predicate UpdateRejectsContent(content: Option<string>) {
    content.None? || Trim(content.value) == ""
  }

  /**
   * The update check is strictly stronger: whatever `addComment` refuses, `updateComment`
   * refuses too, and the two differ exactly on non-empty white-space content, which a new
   * comment may carry but an edited one may not.
   */
  lemma ContentChecksDiffer(content: Option<string>)
    ensures AddRejectsContent(content) ==> UpdateRejectsContent(content)
    ensures UpdateRejectsContent(content) && !AddRejectsContent(content) <==>
      content.Some? && content.value != "" && AllSpace(content.value)
  {
    if content.Some? && content.value == "" {
      assert AllSpace(content.value);
    }
  }

  // ---------------------------------------------------------------------------------------
  // Handlers that change the store

  /**
   * `addComment`: 400 for a missing or malformed video id, 404 for missing content; otherwise
   * a new comment by the caller on that video is appended, its content as given.
   */
  method AddComment(db: Db, env: Env, videoId: string, content: Option<string>, newId: Id)
    returns (r: Response<Comment>)
    requires db.Valid() && !HasId(db.comments, CommentId, newId)
    modifies db
    ensures db.Valid()
    ensures videoId == "" || !env.validId(videoId) ==> r == Throw(400, "Invalid Video ID")
    ensures videoId != "" && env.validId(videoId) && AddRejectsContent(content) ==>
      r == Throw(404, "Comment content is missing")
    ensures r.Ok? <==> videoId != "" && env.validId(videoId) && !AddRejectsContent(content)
    ensures !r.Ok? ==> db.Snapshot() == old(db.Snapshot())
    ensures r.Ok? ==>
      r.statusCode == 201 && r.message == "Comment created successfully"
      && r.data == Comment(newId, content.value, videoId, env.principal)
      && db.Snapshot() == old(db.Snapshot()).(comments := old(db.comments) + [r.data])
  {
    if videoId == "" || !env.validId(videoId) {
      return Throw(400, "Invalid Video ID");
    }
    if AddRejectsContent(content) {
      return Throw(404, "Comment content is missing");
    }
    var m := Comment(newId, content.value, videoId, env.principal);
    UniqueAppend(db.comments, CommentId, m);
    db.SetComments(db.comments + [m]);
    r := Ok(201, m, "Comment created successfully");
  }

  /**
   * A comment added to a video is listed last among that video's comments, and the listing of
   * every other video is unchanged.
   */
  lemma AddedCommentListedLast(c: Collections, m: Comment, videoId: Id)
    ensures VideoComments(c.(comments := c.comments + [m]), videoId)
         == VideoComments(c, videoId) + (if m.video == videoId then [WithAuthor(c.users)(m)] else [])
  {
    SelectMapAppend(c.comments, OnVideo(videoId), WithAuthor(c.users), m);
  }

  function SetContent(content: string): Comment -> Comment {
    (m: Comment) => m.(content := content)
  }

  /**
   * `updateComment`: 400 for a missing or malformed id or for content that is missing or
   * only white space; otherwise the comment's content is set (untrimmed) and nothing else
   * changes; 500 when no comment has the id.
   */
  method UpdateComment(db: Db, env: Env, commentId: string, content: Option<string>)
    returns (r: Response<Comment>)
    requires db.Valid()
    modifies db
    ensures db.Valid()
    ensures commentId == "" || !env.validId(commentId) ==> r == Throw(400, "Invalid comment ID")
    ensures commentId != "" && env.validId(commentId) && UpdateRejectsContent(content) ==>
      r == Throw(400, "Comment content is missing")
    ensures commentId != "" && env.validId(commentId) && !UpdateRejectsContent(content) ==>
      (r.Ok? <==> HasId(old(db.comments), CommentId, commentId))
      && (!r.Ok? ==> r == Throw(500, "Failed to update the comment"))
    ensures !r.Ok? ==> db.Snapshot() == old(db.Snapshot())
    ensures r.Ok? ==>
      r.statusCode == 200 && r.message == "Comment updated successfully"
      && HasId(old(db.comments), CommentId, commentId)
      && var k := FindById(old(db.comments), CommentId, commentId).value;
         r.data == old(db.comments)[k].(content := content.value)
         && db.Snapshot() == old(db.Snapshot()).(comments := old(db.comments)[k := r.data])
  {
    if commentId == "" || !env.validId(commentId) {
      return Throw(400, "Invalid comment ID");
    }
    if UpdateRejectsContent(content) {
      return Throw(400, "Comment content is missing");
    }
    var found := FindById(db.comments, CommentId, commentId);
    if found.None? {
      return Throw(500, "Failed to update the comment");
    }
    var k := found.value;
    var edited := db.comments[k].(content := content.value);
    UniqueReplace(db.comments, CommentId, k, edited);
    db.SetComments(db.comments[k := edited]);
    r := Ok(200, edited, "Comment updated successfully");
  }

  /**
   * `deleteComment`: 400 for a missing or malformed id; 500 when no comment has the id;
   * otherwise that comment is gone and the answer is `true`. Likes on the comment stay.
   */
  method DeleteComment(db: Db, env: Env, commentId: string) returns (r: Response<bool>)
    requires db.Valid()
    modifies db
    ensures db.Valid()
    ensures commentId == "" || !env.validId(commentId) ==> r == Throw(400, "Invalid comment ID")
    ensures commentId != "" && env.validId(commentId) ==>
      (r.Ok? <==> HasId(old(db.comments), CommentId, commentId))
      && (!r.Ok? ==> r == Throw(500, "Failed ot delete the comment"))
      && !HasId(db.comments, CommentId, commentId)
    ensures !r.Ok? ==> db.Snapshot() == old(db.Snapshot())
    ensures r.Ok? ==>
      r == Ok(200, true, "Comment deleted sucessfully")
      && exists k :: 0 <= k < |old(db.comments)| && old(db.comments)[k].id == commentId
           && db.Snapshot() == old(db.Snapshot()).(comments := RemoveAt(old(db.comments), k))
  {
    if commentId == "" || !env.validId(commentId) {
      return Throw(400, "Invalid comment ID");
    }
    DeleteByIdKeepsUnique(db.comments, CommentId, commentId);
    var (comments, deleted) := DeleteById(db.comments, CommentId, commentId);
    if deleted.None? {
      return Throw(500, "Failed ot delete the comment");
    }
    db.SetComments(comments);
    r := Ok(200, true, "Comment deleted sucessfully");
  }

  /** Every listed comment is a stored comment on the video, under its own id. */
  lemma ListedCommentStored(c: Collections, videoId: Id, k: nat)
    requires k < |VideoComments(c, videoId)|
    ensures exists i :: 0 <= i < |c.comments| && c.comments[i].id == VideoComments(c, videoId)[k].id
  {
    var view := VideoComments(c, videoId)[k];
    var m :| m in c.comments && WithAuthor(c.users)(m) == view;
    var i :| 0 <= i < |c.comments| && c.comments[i] == m;
    assert c.comments[i].id == view.id;
  }

  /** Once a comment is deleted, no video's listing shows it. */
  lemma DeletedCommentNotListed(c: Collections, commentId: Id, videoId: Id)
    requires !HasId(c.comments, CommentId, commentId)
    ensures forall k :: 0 <= k < |VideoComments(c, videoId)| ==> VideoComments(c, videoId)[k].id != commentId
  {
    forall k | 0 <= k < |VideoComments(c, videoId)|
      ensures VideoComments(c, videoId)[k].id != commentId
    {
      ListedCommentStored(c, videoId, k);
      var i :| 0 <= i < |c.comments| && c.comments[i].id == VideoComments(c, videoId)[k].id;
      assert CommentId(c.comments[i]) == c.comments[i].id;
    }
  }
}
