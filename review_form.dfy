/** The review form of frontend/src/pages/ReviewForm.js: the star picker
    with its hover highlight, the guard before posting, and the reset after a
    successful post. The request itself is an effect outside the model: each
    submit records what it would post, and the server's answer is a parameter. */
module ReviewForm {
  import opened Collections
  import opened Text

  const MaxStars := 5
  const IncompleteError := "Please provide a rating and a review."
  const SubmittedMessage := "Review submitted successfully!"
  const GenericError := "There was an error submitting your review."

  /** Star `star` is drawn highlighted: `(hover || rating) >= star`. */
  predicate Highlighted(hover: int, rating: int, star: int) {
    (if hover != 0 then hover else rating) >= star
  }

  /** The highlighted stars are always the first ones: stars `1..n` where `n`
      is the hovered star, or the chosen rating while nothing is hovered. */
  lemma HighlightedPrefix(hover: int, rating: int, star: int)
    requires 0 <= hover <= MaxStars && 0 <= rating <= MaxStars && 1 <= star <= MaxStars
    ensures hover != 0 ==> (Highlighted(hover, rating, star) <==> star <= hover)
    ensures hover == 0 ==> (Highlighted(hover, rating, star) <==> star <= rating)
    ensures forall s | 1 <= s <= star :: Highlighted(hover, rating, star) ==> Highlighted(hover, rating, s)
  {
  }

  /** The guard of `handleSubmit`: a chosen rating and a review that is not
      only whitespace. */
  function CanSubmit(rating: int, text: string): (ok: bool)
    ensures ok <==> rating != 0 && !IsBlank(text)
  {
    TrimEmptyIffBlank(text);
    !(rating == 0 || Trim(text) == "")
  }

  /** The body of `POST /api/reviews/add`. */
  datatype ReviewPost = ReviewPost(propertyId: string, userId: string, rating: int, comment: string)

  /** The server's answer: success, or a failure carrying `error` from the
      response body when there is one. */
  datatype PostReply = Accepted | Refused(error: Option<string>)

  /** The message shown after a refused post. */
  function RefusalMessage(error: Option<string>): (m: string)
    ensures error.Some? && error.value != [] ==> m == error.value
    ensures error.None? || error.value == [] ==> m == GenericError
    ensures m != []
  {
    if error.Some? && error.value != [] then error.value else GenericError
  }

  /** A body the guard lets through: a star rating and a non-blank review. */
  predicate Acceptable(p: ReviewPost) {
    1 <= p.rating <= MaxStars && !IsBlank(p.comment)
  }

  predicate AllAcceptable(ps: seq<ReviewPost>) {
    forall i | 0 <= i < |ps| :: Acceptable(ps[i])
  }

  lemma AppendAcceptable(ps: seq<ReviewPost>, p: ReviewPost)
    requires AllAcceptable(ps) && Acceptable(p)
    ensures AllAcceptable(ps + [p])
  {
    assert forall i | 0 <= i < |ps| :: (ps + [p])[i] == ps[i];
  }

  class ReviewForm {
    const propertyId: string
    const userId: string
    /** Whether the parent passed an `onReviewAdded` callback. */
    const hasCallback: bool
    var rating: int
    var hover: int
    var reviewText: string
    var error: string
    var success: string
    /** Every body posted so far, oldest first. */
    var posted: seq<ReviewPost>
    /** How many times `onReviewAdded` has been called. */
    var callbacks: nat

    ghost predicate Valid()
      reads this
    {
      && 0 <= rating <= MaxStars && 0 <= hover <= MaxStars
      && AllAcceptable(posted)
    }

    constructor (propertyId: string, userId: string, hasCallback: bool)
      ensures Valid()
      ensures this.propertyId == propertyId && this.userId == userId && this.hasCallback == hasCallback
      ensures rating == 0 && hover == 0 && reviewText == "" && error == "" && success == ""
      ensures posted == [] && callbacks == 0
    {
      this.propertyId := propertyId;
      this.userId := userId;
      this.hasCallback := hasCallback;
      rating := 0;
      hover := 0;
      reviewText := "";
      error := "";
      success := "";
      posted := [];
      callbacks := 0;
    }

    /** A click on star `star` chooses it as the rating. */
    method ClickStar(star: int)
      requires Valid() && 1 <= star <= MaxStars
      modifies this
      ensures Valid() && rating == star
      ensures hover == old(hover) && reviewText == old(reviewText) && error == old(error)
      ensures success == old(success) && posted == old(posted) && callbacks == old(callbacks)
    {
      rating := star;
    }

    /** The mouse entering star `star` (a non-zero `star`) or leaving a star (0). */
    method SetHover(star: int)
      requires Valid() && 0 <= star <= MaxStars
      modifies this
      ensures Valid() && hover == star
      ensures rating == old(rating) && reviewText == old(reviewText) && error == old(error)
      ensures success == old(success) && posted == old(posted) && callbacks == old(callbacks)
    {
      hover := star;
    }

    /** Typing into the text area. */
    method EditText(text: string)
      requires Valid()
      modifies this
      ensures Valid() && reviewText == text
      ensures rating == old(rating) && hover == old(hover) && error == old(error)
      ensures success == old(success) && posted == old(posted) && callbacks == old(callbacks)
    {
      reviewText := text;
    }

    /** `handleSubmit`. An incomplete form only sets the error: nothing is
        posted and nothing else changes. A complete one is posted. */
    method Submit(reply: PostReply)
      requires Valid()
      modifies this
      ensures Valid() && hover == old(hover)
      ensures !CanSubmit(old(rating), old(reviewText)) ==>
        && error == IncompleteError && posted == old(posted) && callbacks == old(callbacks)
        && rating == old(rating) && reviewText == old(reviewText) && success == old(success)
      ensures CanSubmit(old(rating), old(reviewText)) ==>
        posted == old(posted) + [ReviewPost(propertyId, userId, old(rating), old(reviewText))]
      ensures CanSubmit(old(rating), old(reviewText)) && reply.Accepted? ==>
        && success == SubmittedMessage && rating == 0 && reviewText == "" && error == ""
        && callbacks == old(callbacks) + (if hasCallback then 1 else 0)
      ensures CanSubmit(old(rating), old(reviewText)) && reply.Refused? ==>
        && error == RefusalMessage(reply.error) && callbacks == old(callbacks)
        && rating == old(rating) && reviewText == old(reviewText) && success == old(success)
    {
      if !CanSubmit(rating, reviewText) {
        error := IncompleteError;
      } else {
        Post(reply);
      }
    }

    /** The `try` of `handleSubmit`: the form's values are posted once; a
        success shows the confirmation, clears rating, text and error and
        calls `onReviewAdded` (when given) exactly once; a refusal shows the
        server's error or the generic one and keeps the form as it was. */
    method Post(reply: PostReply)
      requires Valid() && rating != 0 && !IsBlank(reviewText)
      modifies this
      ensures Valid() && hover == old(hover)
      ensures posted == old(posted) + [ReviewPost(propertyId, userId, old(rating), old(reviewText))]
      ensures reply.Accepted? ==>
        && success == SubmittedMessage && rating == 0 && reviewText == "" && error == ""
        && callbacks == old(callbacks) + (if hasCallback then 1 else 0)
      ensures reply.Refused? ==>
        && error == RefusalMessage(reply.error) && callbacks == old(callbacks)
        && rating == old(rating) && reviewText == old(reviewText) && success == old(success)
    {
      var body := ReviewPost(propertyId, userId, rating, reviewText);
      AppendAcceptable(posted, body);
      posted := posted + [body];
      match reply
      case Accepted =>
        success := SubmittedMessage;
        rating := 0;
        reviewText := "";
        error := "";
        if hasCallback {
          callbacks := callbacks + 1;
        }
      case Refused(e) =>
        error := RefusalMessage(e);
    }
  }
}
