/** The comment store of backend/models/Comment.js (`CommentModel.repo`):
    comments with replies and like/dislike lists, author-guarded edit and
    delete, and the two reaction toggles. The database is an in-memory map
    from comment id to comment; `save()` is the map update. */
module Comments {
  import opened Collections

  /** A user id, compared through its string form. */
  type UserId = string

  type CommentId = nat

  datatype Reply = Reply(content: string, author: UserId, createdAt: int)

  datatype Comment = Comment(
    content: string, propertyId: nat, author: UserId,
    replies: seq<Reply>, likes: seq<UserId>, dislikes: seq<UserId>)

  /** The `reason` of a refused edit or delete. */
  datatype Refusal = NotFound | Forbidden

  datatype UpdateOutcome = Updated(comment: Comment) | NotUpdated(reason: Refusal)

  datatype DeleteOutcome = Deleted | NotDeleted(reason: Refusal)

  // ------------------------------------------------------------------
  // Reactions on one comment

  /** The test `id.toString() !== userId`. */
  function IsNot(u: UserId): UserId -> bool {
    (x: UserId) => x != u
  }

  /** `ids.filter((id) => id.toString() !== u)`. */
  function Without(ids: seq<UserId>, u: UserId): seq<UserId> {
    Filter(ids, IsNot(u))
  }

  /** The comment after `toggleLike` by `u`: `u` appended to the likes unless
      already there, and every `u` removed from the dislikes. */
  function Liked(c: Comment, u: UserId): Comment {
    c.(likes := if u in c.likes then c.likes else c.likes + [u], dislikes := Without(c.dislikes, u))
  }

  /** The comment after `toggleDislike` by `u`, the mirror image of `Liked`. */
  function Disliked(c: Comment, u: UserId): Comment {
    c.(dislikes := if u in c.dislikes then c.dislikes else c.dislikes + [u], likes := Without(c.likes, u))
  }

  /** Removing `u` removes all of its occurrences and no other element. */
  lemma {:induction false} WithoutCount(ids: seq<UserId>, u: UserId, v: UserId)
    ensures Count(Without(ids, u), v) == if v == u then 0 else Count(ids, v)
    decreases |ids|
  {
    if ids != [] {
      WithoutCount(ids[1..], u, v);
      assert ids == [ids[0]] + ids[1..];
      FilterAppend([ids[0]], ids[1..], IsNot(u));
      assert [ids[0]][1..] == [];
    }
  }

  /** Removing `u` keeps the other ids in their order. */
  lemma WithoutKeepsOrder(a: seq<UserId>, b: seq<UserId>, u: UserId)
    ensures Without(a + b, u) == Without(a, u) + Without(b, u)
  {
    FilterAppend(a, b, IsNot(u));
  }

  /** After a like by `u`: `u` is liked exactly once if it was not liked
      before (and as often as before otherwise), `u` is not a disliker, every
      other user's likes and dislikes are as before, and the content, author
      and replies are untouched. */
  lemma LikedEffect(c: Comment, u: UserId)
    ensures var d := Liked(c, u);
      && Count(d.likes, u) == (if u in c.likes then Count(c.likes, u) else 1)
      && u in d.likes && u !in d.dislikes
      && (forall v :: v != u ==> Count(d.likes, v) == Count(c.likes, v) && Count(d.dislikes, v) == Count(c.dislikes, v))
      && d.content == c.content && d.author == c.author && d.replies == c.replies && d.propertyId == c.propertyId
  {
    var d := Liked(c, u);
    WithoutCount(c.dislikes, u, u);
    forall v | v != u
      ensures Count(d.likes, v) == Count(c.likes, v) && Count(d.dislikes, v) == Count(c.dislikes, v)
    {
      WithoutCount(c.dislikes, u, v);
    }
  }

  lemma DislikedEffect(c: Comment, u: UserId)
    ensures var d := Disliked(c, u);
      && Count(d.dislikes, u) == (if u in c.dislikes then Count(c.dislikes, u) else 1)
      && u in d.dislikes && u !in d.likes
      && (forall v :: v != u ==> Count(d.likes, v) == Count(c.likes, v) && Count(d.dislikes, v) == Count(c.dislikes, v))
      && d.content == c.content && d.author == c.author && d.replies == c.replies && d.propertyId == c.propertyId
  {
    var d := Disliked(c, u);
    WithoutCount(c.likes, u, u);
    forall v | v != u
      ensures Count(d.likes, v) == Count(c.likes, v) && Count(d.dislikes, v) == Count(c.dislikes, v)
    {
      WithoutCount(c.likes, u, v);
    }
  }

  /** Liking twice is liking once; so is disliking. */
  lemma LikeIdempotent(c: Comment, u: UserId)
    ensures Liked(Liked(c, u), u) == Liked(c, u)
  {
    var d := Liked(c, u);
    LikedEffect(c, u);
    FilterIdempotent(c.dislikes, IsNot(u));
  }

  lemma DislikeIdempotent(c: Comment, u: UserId)
    ensures Disliked(Disliked(c, u), u) == Disliked(c, u)
  {
    DislikedEffect(c, u);
    FilterIdempotent(c.likes, IsNot(u));
  }

  /** No user both likes and dislikes the comment. */
  ghost predicate ReactionsExclusive(c: Comment) {
    forall v :: v in c.likes ==> v !in c.dislikes
  }

  /** Either toggle keeps reactions exclusive, and a like followed by a
      dislike leaves the user only among the dislikers. */
  lemma TogglesKeepExclusive(c: Comment, u: UserId)
    requires ReactionsExclusive(c)
    ensures ReactionsExclusive(Liked(c, u)) && ReactionsExclusive(Disliked(c, u))
  {
    LikedEffect(c, u);
    DislikedEffect(c, u);
    var l := Liked(c, u);
    forall v | v in l.likes ensures v !in l.dislikes {
      if v != u {
        assert Count(l.likes, v) == Count(c.likes, v);
        assert Count(l.dislikes, v) == Count(c.dislikes, v);
      }
    }
    var d := Disliked(c, u);
    forall v | v in d.likes ensures v !in d.dislikes {
      if v != u {
        assert Count(d.likes, v) == Count(c.likes, v);
        assert Count(d.dislikes, v) == Count(c.dislikes, v);
      }
    }
  }

  lemma LikeThenDislike(c: Comment, u: UserId)
    ensures var d := Disliked(Liked(c, u), u);
      u in d.dislikes && u !in d.likes
  {
    DislikedEffect(Liked(c, u), u);
  }

  // ------------------------------------------------------------------
  // The store

  class CommentRepo {
    var comments: map<CommentId, Comment>
    /** The next id `create` hands out; the database's id generation. */
    var nextId: CommentId

    ghost predicate Valid()
      reads this
    {
      forall id | id in comments :: id < nextId
    }

    constructor ()
      ensures Valid() && comments == map[]
    {
      comments := map[];
      nextId := 0;
    }

    /** `create`: a new comment with no replies and no reactions under a fresh id. */
    method Create(content: string, propertyId: nat, author: UserId) returns (id: CommentId)
      requires Valid()
      modifies this
      ensures Valid()
      ensures id !in old(comments)
      ensures comments == old(comments)[id := Comment(content, propertyId, author, [], [], [])]
    {
      id := nextId;
      comments := comments[id := Comment(content, propertyId, author, [], [], [])];
      nextId := nextId + 1;
    }

    /** `addReply`: `None` for a missing comment; otherwise exactly one reply,
        stamped with the clock reading `now`, is appended after the existing ones. */
    method AddReply(id: CommentId, content: string, author: UserId, now: int) returns (r: Option<Comment>)
      requires Valid()
      modifies this
      ensures Valid()
      ensures id !in old(comments) ==> r.None? && comments == old(comments)
      ensures id in old(comments) ==>
                var c := old(comments)[id];
                && r == Some(c.(replies := c.replies + [Reply(content, author, now)]))
                && comments == old(comments)[id := r.value]
    {
      if id !in comments {
        return None;
      }
      var c := comments[id];
      c := c.(replies := c.replies + [Reply(content, author, now)]);
      comments := comments[id := c];
      r := Some(c);
    }

    /** `updateContentIfAuthor`: `not_found`, then `forbidden` for anyone but
        the author, both leaving the store as it was; otherwise only the
        content changes. */
    method UpdateContentIfAuthor(id: CommentId, user: UserId, content: string) returns (r: UpdateOutcome)
      requires Valid()
      modifies this
      ensures Valid()
      ensures id !in old(comments) ==> r == NotUpdated(NotFound) && comments == old(comments)
      ensures id in old(comments) && old(comments)[id].author != user ==>
                r == NotUpdated(Forbidden) && comments == old(comments)
      ensures id in old(comments) && old(comments)[id].author == user ==>
                r == Updated(old(comments)[id].(content := content)) && comments == old(comments)[id := r.comment]
    {
      if id !in comments {
        return NotUpdated(NotFound);
      }
      var c := comments[id];
      if c.author != user {
        return NotUpdated(Forbidden);
      }
      c := c.(content := content);
      comments := comments[id := c];
      r := Updated(c);
    }

    /** `deleteIfAuthor`: removes the comment only for its author. */
    method DeleteIfAuthor(id: CommentId, user: UserId) returns (r: DeleteOutcome)
      requires Valid()
      modifies this
      ensures Valid()
      ensures id !in old(comments) ==> r == NotDeleted(NotFound) && comments == old(comments)
      ensures id in old(comments) && old(comments)[id].author != user ==>
                r == NotDeleted(Forbidden) && comments == old(comments)
      ensures id in old(comments) && old(comments)[id].author == user ==>
                r == Deleted && comments == old(comments) - {id}
    {
      if id !in comments {
        return NotDeleted(NotFound);
      }
      if comments[id].author != user {
        return NotDeleted(Forbidden);
      }
      comments := comments - {id};
      r := Deleted;
    }

    /** `toggleLike`: `None` for a missing comment; otherwise the comment
        becomes `Liked(c, user)` and no other comment changes. */
    method ToggleLike(id: CommentId, user: UserId) returns (r: Option<Comment>)
      requires Valid()
      modifies this
      ensures Valid()
      ensures id !in old(comments) ==> r.None? && comments == old(comments)
      ensures id in old(comments) ==>
                r == Some(Liked(old(comments)[id], user)) && comments == old(comments)[id := r.value]
    {
      if id !in comments {
        return None;
      }
      var c := comments[id];
      if user !in c.likes {
        c := c.(likes := c.likes + [user]);
      }
      c := c.(dislikes := Without(c.dislikes, user));
      comments := comments[id := c];
      r := Some(c);
    }

    /** `toggleDislike`: the mirror image of `ToggleLike`. */
    method ToggleDislike(id: CommentId, user: UserId) returns (r: Option<Comment>)
      requires Valid()
      modifies this
      ensures Valid()
      ensures id !in old(comments) ==> r.None? && comments == old(comments)
      ensures id in old(comments) ==>
                r == Some(Disliked(old(comments)[id], user)) && comments == old(comments)[id := r.value]
    {
      if id !in comments {
        return None;
      }
      var c := comments[id];
      if user !in c.dislikes {
        c := c.(dislikes := c.dislikes + [user]);
      }
      c := c.(likes := Without(c.likes, user));
      comments := comments[id := c];
      r := Some(c);
    }
  }
}
