/** `addReview` of backend/controllers/reviewController.js over the review
    store of backend/models/Review.js: required fields, at most one review
    per (property, user) pair, and the schema's rating bounds 1..5. */
module ReviewController {
  import opened Collections
  import opened Http

  datatype Review = Review(propertyId: string, userId: string, rating: real, comment: Option<string>)

  datatype ReviewAdded = ReviewAdded(message: string, review: Review)

  /** A string field of the body is truthy when present and non-empty. */
  predicate Given(field: Option<string>) {
    field.Some? && field.value != []
  }

  /** A numeric `rating` is truthy when present and non-zero. */
  predicate GivenRating(rating: Option<real>) {
    rating.Some? && rating.value != 0.0
  }

  /** The schema's `min: 1, max: 5`. */
  predicate RatingInRange(rating: real) {
    1.0 <= rating <= 5.0
  }

  function SamePair(propertyId: string, userId: string): Review -> bool {
    (r: Review) => r.propertyId == propertyId && r.userId == userId
  }

  /** `findOne({ propertyId, userId })` finds a review. */
  predicate Reviewed(reviews: seq<Review>, propertyId: string, userId: string) {
    exists i | 0 <= i < |reviews| :: SamePair(propertyId, userId)(reviews[i])
  }

  /** No two reviews share a (property, user) pair. */
  ghost predicate UniquePairs(reviews: seq<Review>) {
    forall i, j | 0 <= i < j < |reviews| ::
      reviews[i].propertyId != reviews[j].propertyId || reviews[i].userId != reviews[j].userId
  }

  /** With unique pairs, each pair has at most one review. */
  lemma {:induction false} AtMostOneReviewPerPair(reviews: seq<Review>, propertyId: string, userId: string)
    requires UniquePairs(reviews)
    ensures |Filter(reviews, SamePair(propertyId, userId))| <= 1
    decreases |reviews|
  {
    if reviews != [] {
      var rest := reviews[1..];
      assert UniquePairs(rest);
      AtMostOneReviewPerPair(rest, propertyId, userId);
      if SamePair(propertyId, userId)(reviews[0]) {
        assert !Reviewed(rest, propertyId, userId);
        FilterNoneKept(rest, SamePair(propertyId, userId));
      }
    }
  }

  /** Appending a review for a pair not yet reviewed keeps the pairs unique. */
  lemma AddKeepsUnique(reviews: seq<Review>, r: Review)
    requires UniquePairs(reviews) && !Reviewed(reviews, r.propertyId, r.userId)
    ensures UniquePairs(reviews + [r])
  {
    var s := reviews + [r];
    forall i, j | 0 <= i < j < |s|
      ensures s[i].propertyId != s[j].propertyId || s[i].userId != s[j].userId
    {
      if j == |reviews| {
        assert !SamePair(r.propertyId, r.userId)(reviews[i]);
      }
    }
  }

  class ReviewStore {
    var reviews: seq<Review>

    ghost predicate Valid()
      reads this
    {
      UniquePairs(reviews) && forall i | 0 <= i < |reviews| :: RatingInRange(reviews[i].rating)
    }

    constructor ()
      ensures Valid() && reviews == []
    {
      reviews := [];
    }

    /** `addReview`: 400 for a falsy id or rating (so a rating of 0), 400
        "Already reviewed" for a reviewed pair, 500 when the schema rejects
        the rating, each with no insertion; otherwise exactly one review is
        appended and returned with 201. */
    method AddReview(propertyId: Option<string>, userId: Option<string>, rating: Option<real>,
                     comment: Option<string>) returns (resp: Response<ReviewAdded>)
      requires Valid()
      modifies this
      ensures Valid()
      ensures !(Given(propertyId) && Given(userId) && GivenRating(rating)) ==>
                resp == Response(400, Error("Missing required fields")) && reviews == old(reviews)
      ensures Given(propertyId) && Given(userId) && GivenRating(rating)
              && Reviewed(old(reviews), propertyId.value, userId.value) ==>
                resp == Response(400, Error("Already reviewed")) && reviews == old(reviews)
      ensures Given(propertyId) && Given(userId) && GivenRating(rating)
              && !Reviewed(old(reviews), propertyId.value, userId.value) && !RatingInRange(rating.value) ==>
                resp.status == 500 && resp.body.Error? && reviews == old(reviews)
      ensures Given(propertyId) && Given(userId) && GivenRating(rating)
              && !Reviewed(old(reviews), propertyId.value, userId.value) && RatingInRange(rating.value) ==>
                var r := Review(propertyId.value, userId.value, rating.value, comment);
                reviews == old(reviews) + [r] && resp == Response(201, Value(ReviewAdded("Review added", r)))
    {
      if !(Given(propertyId) && Given(userId) && GivenRating(rating)) {
        return Response(400, Error("Missing required fields"));
      }
      if Reviewed(reviews, propertyId.value, userId.value) {
        return Response(400, Error("Already reviewed"));
      }
      if !RatingInRange(rating.value) {
        return Response(500, Error("Review validation failed: rating"));
      }
      var r := Review(propertyId.value, userId.value, rating.value, comment);
      AddKeepsUnique(reviews, r);
      reviews := reviews + [r];
      resp := Response(201, Value(ReviewAdded("Review added", r)));
    }
  }
}
