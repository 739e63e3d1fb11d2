/** The comment handlers of backend/controllers/commentController.js: the
    reply-content check, and the mapping from store results to HTTP status.
    The session user is `None` when `req.session.user` is missing, where
    reading its `id` throws and the handler's catch answers 500. */
module CommentController {
  import opened Collections
  import opened Text
  import opened Http
  import opened Comments

  /** `!content || content.trim().length === 0` for a string body field;
      `None` is an absent field. */
  predicate ReplyContentMissing(content: Option<string>) {
    content.None? || Trim(content.value) == []
  }

  /** The reply check rejects exactly the absent, empty and whitespace-only contents. */
  lemma ReplyContentMissingIffBlank(content: Option<string>)
    ensures ReplyContentMissing(content) <==> content.None? || IsBlank(content.value)
  {
    if content.Some? {
      TrimEmptyIffBlank(content.value);
    }
  }

  const NotFoundError := "Comment not found"
  const ForbiddenError := "Unauthorized"

  /** The status for an edit or delete refusal: 403 for `forbidden`, 404 for `not_found`. */
  function RefusalResponse<T>(reason: Refusal): (r: Response<T>)
    ensures r.status == 403 <==> reason == Forbidden
    ensures r.status == 404 <==> reason == NotFound
  {
    match reason
    case Forbidden => Response(403, Error(ForbiddenError))
    case NotFound => Response(404, Error(NotFoundError))
  }

  function EditResponse(outcome: UpdateOutcome): (r: Response<Comment>)
    ensures r.status == 200 <==> outcome.Updated?
    ensures outcome.Updated? ==> r.body == Value(outcome.comment)
    ensures outcome.NotUpdated? ==> r == RefusalResponse(outcome.reason)
  {
    match outcome
    case NotUpdated(reason) => RefusalResponse(reason)
    case Updated(c) => Json(c)
  }

  function DeleteResponse(outcome: DeleteOutcome): (r: Response<Comment>)
    ensures r.status == 200 <==> outcome == Deleted
    ensures outcome == Deleted ==> r.body == Message("Comment deleted")
    ensures outcome.NotDeleted? ==> r == RefusalResponse(outcome.reason)
  {
    match outcome
    case NotDeleted(reason) => RefusalResponse(reason)
    case Deleted => Response(200, Message("Comment deleted"))
  }

  /** The answer to a reply, like or dislike: 404 when the store found no comment. */
  function FoundResponse(found: Option<Comment>): (r: Response<Comment>)
    ensures r.status == 404 <==> found.None?
    ensures found.Some? ==> r == Json(found.value)
  {
    if found.None? then Response(404, Error(NotFoundError)) else Json(found.value)
  }

  /** `createComment`: no validation of the content, so even an empty content
      is stored; only a missing session fails. */
  method CreateComment(repo: CommentRepo, propertyId: nat, content: string, session: Option<UserId>)
    returns (resp: Response<Comment>)
    requires repo.Valid()
    modifies repo
    ensures repo.Valid()
    ensures session.None? ==> resp == Response(500, Error("Failed to create comment")) && repo.comments == old(repo.comments)
    ensures session.Some? ==>
              && resp == Json(Comment(content, propertyId, session.value, [], [], []))
              && exists id: CommentId :: id !in old(repo.comments) && repo.comments == old(repo.comments)[id := resp.body.value]
  {
    if session.None? {
      return Response(500, Error("Failed to create comment"));
    }
    var id := repo.Create(content, propertyId, session.value);
    resp := Json(repo.comments[id]);
  }

  /** `replyToComment`: the content check comes before any store access. */
  method ReplyToComment(repo: CommentRepo, id: CommentId, content: Option<string>, session: Option<UserId>, now: int)
    returns (resp: Response<Comment>)
    requires repo.Valid()
    modifies repo
    ensures repo.Valid()
    ensures ReplyContentMissing(content) ==>
              resp == Response(400, Error("Reply content cannot be empty")) && repo.comments == old(repo.comments)
    ensures !ReplyContentMissing(content) && session.None? ==>
              resp == Response(500, Error("Failed to reply to comment")) && repo.comments == old(repo.comments)
    ensures !ReplyContentMissing(content) && session.Some? && id !in old(repo.comments) ==>
              resp.status == 404 && repo.comments == old(repo.comments)
    ensures !ReplyContentMissing(content) && session.Some? && id in old(repo.comments) ==>
              var c := old(repo.comments)[id];
              && repo.comments == old(repo.comments)[id := c.(replies := c.replies + [Reply(content.value, session.value, now)])]
              && resp == Json(repo.comments[id])
  {
    if ReplyContentMissing(content) {
      return Response(400, Error("Reply content cannot be empty"));
    }
    if session.None? {
      return Response(500, Error("Failed to reply to comment"));
    }
    var found := repo.AddReply(id, content.value, session.value, now);
    resp := FoundResponse(found);
  }

  method EditComment(repo: CommentRepo, id: CommentId, session: Option<UserId>, content: string)
    returns (resp: Response<Comment>)
    requires repo.Valid()
    modifies repo
    ensures repo.Valid()
    ensures session.None? ==> resp == Response(500, Error("Failed to edit comment")) && repo.comments == old(repo.comments)
    ensures session.Some? && id !in old(repo.comments) ==> resp.status == 404 && repo.comments == old(repo.comments)
    ensures session.Some? && id in old(repo.comments) && old(repo.comments)[id].author != session.value ==>
              resp.status == 403 && repo.comments == old(repo.comments)
    ensures session.Some? && id in old(repo.comments) && old(repo.comments)[id].author == session.value ==>
              && repo.comments == old(repo.comments)[id := old(repo.comments)[id].(content := content)]
              && resp == Json(repo.comments[id])
  {
    if session.None? {
      return Response(500, Error("Failed to edit comment"));
    }
    var outcome := repo.UpdateContentIfAuthor(id, session.value, content);
    resp := EditResponse(outcome);
  }

  method DeleteComment(repo: CommentRepo, id: CommentId, session: Option<UserId>)
    returns (resp: Response<Comment>)
    requires repo.Valid()
    modifies repo
    ensures repo.Valid()
    ensures session.None? ==> resp == Response(500, Error("Failed to delete comment")) && repo.comments == old(repo.comments)
    ensures session.Some? && id !in old(repo.comments) ==> resp.status == 404 && repo.comments == old(repo.comments)
    ensures session.Some? && id in old(repo.comments) && old(repo.comments)[id].author != session.value ==>
              resp.status == 403 && repo.comments == old(repo.comments)
    ensures session.Some? && id in old(repo.comments) && old(repo.comments)[id].author == session.value ==>
              resp == Response(200, Message("Comment deleted")) && repo.comments == old(repo.comments) - {id}
  {
    if session.None? {
      return Response(500, Error("Failed to delete comment"));
    }
    var outcome := repo.DeleteIfAuthor(id, session.value);
    resp := DeleteResponse(outcome);
  }

  method LikeComment(repo: CommentRepo, id: CommentId, session: Option<UserId>)
    returns (resp: Response<Comment>)
    requires repo.Valid()
    modifies repo
    ensures repo.Valid()
    ensures session.None? ==> resp == Response(500, Error("Failed to like comment")) && repo.comments == old(repo.comments)
    ensures session.Some? && id !in old(repo.comments) ==> resp.status == 404 && repo.comments == old(repo.comments)
    ensures session.Some? && id in old(repo.comments) ==>
              && repo.comments == old(repo.comments)[id := Liked(old(repo.comments)[id], session.value)]
              && resp == Json(repo.comments[id])
  {
    if session.None? {
      return Response(500, Error("Failed to like comment"));
    }
    var found := repo.ToggleLike(id, session.value);
    resp := FoundResponse(found);
  }

  method DislikeComment(repo: CommentRepo, id: CommentId, session: Option<UserId>)
    returns (resp: Response<Comment>)
    requires repo.Valid()
    modifies repo
    ensures repo.Valid()
    ensures session.None? ==> resp == Response(500, Error("Failed to dislike comment")) && repo.comments == old(repo.comments)
    ensures session.Some? && id !in old(repo.comments) ==> resp.status == 404 && repo.comments == old(repo.comments)
    ensures session.Some? && id in old(repo.comments) ==>
              && repo.comments == old(repo.comments)[id := Disliked(old(repo.comments)[id], session.value)]
              && resp == Json(repo.comments[id])
  {
    if session.None? {
      return Response(500, Error("Failed to dislike comment"));
    }
    var found := repo.ToggleDislike(id, session.value);
    resp := FoundResponse(found);
  }
}
