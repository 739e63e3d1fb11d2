/** The star counts of frontend/src/components/RatingStars.js for a
    rating, as full, half and empty stars. */
module RatingStars {

  datatype Stars = Stars(full: int, half: int, empty: int)

  /** `rating % 1 !== 0`: the rating has a fractional part (for a negative
      rating too, since JavaScript's remainder keeps the sign). */
  predicate HasFraction(rating: real) {
    rating.Floor as real != rating
  }

  function StarsFor(rating: real): (s: Stars)
    ensures s.full == rating.Floor
    ensures s.half == (if HasFraction(rating) then 1 else 0)
    ensures s.full + s.half + s.empty == 5
  {
    var full := rating.Floor;
    var half := if HasFraction(rating) then 1 else 0;
    Stars(full, half, 5 - full - half)
  }

  /** For a rating between 0 and 5 the three counts are non-negative, at
      most 5 each, and an integer rating shows no half star. */
  lemma StarsInRange(rating: real)
    requires 0.0 <= rating <= 5.0
    ensures var s := StarsFor(rating);
      && 0 <= s.full <= 5 && 0 <= s.half <= 1 && 0 <= s.empty <= 5
      && (s.half == 1 ==> s.full <= 4)
  {
    var f := rating.Floor;
    assert f as real <= rating < f as real + 1.0;
  }

  lemma IntegerRatingHasNoHalf(n: int)
    ensures StarsFor(n as real).half == 0 && StarsFor(n as real).full == n
  {
  }

  /** 3.5 shows three full stars, a half star and one empty star. */
  lemma ThreeAndAHalf()
    ensures StarsFor(3.5) == Stars(3, 1, 1)
  {
    assert 3.5.Floor == 3;
  }
}
