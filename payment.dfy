/** The rent form of frontend/src/pages/Payment.js: the inclusive day count
    between the two chosen dates, the total price and the guards that run
    before a rental request is sent. A date is a day number (days since an
    epoch): a date input holds either nothing or one calendar day, which the
    page reads as midnight UTC, so differences are whole days. */
module PaymentPage {
  import opened Collections

  datatype DateInput = NoDate | Day(day: int)

  /** `getDays`: 0 when a date is missing or the range is reversed,
      otherwise the number of days from the first to the last, both included. */
  function Days(from: DateInput, to: DateInput): (n: nat)
    ensures from.NoDate? || to.NoDate? ==> n == 0
    ensures from.Day? && to.Day? && to.day >= from.day ==> n == to.day - from.day + 1
    ensures from.Day? && to.Day? && to.day < from.day ==> n == 0
  {
    if from.NoDate? || to.NoDate? then 0
    else
      var diff := to.day - from.day;
      if diff >= 0 then diff + 1 else 0
  }

  /** A stay of one day counts 1, and two adjacent stays count as much as
      the stay that joins them. */
  lemma DaysOfAdjacentStays(a: int, b: int, c: int)
    requires a <= b < c
    ensures Days(Day(a), Day(a)) == 1
    ensures Days(Day(a), Day(b)) + Days(Day(b + 1), Day(c)) == Days(Day(a), Day(c))
  {
  }

  /** `property.price || 0`: a missing or null price counts as 0. */
  function PriceOrZero(price: Option<real>): real {
    if price.Some? then price.value else 0.0
  }

  function TotalPrice(from: DateInput, to: DateInput, price: Option<real>): (t: real)
    ensures Days(from, to) == 0 || price.None? ==> t == 0.0
  {
    Days(from, to) as real * PriceOrZero(price)
  }

  /** What `handleRentNow` does. */
  datatype RentDecision =
    | MustLogIn(alert: string)
    | InvalidDates(alert: string)
    | SendRequest(fromDay: int, toDay: int, totalPrice: real)

  /** No user, then a missing date or an empty range, stops the request;
      a request that is sent covers at least one day and carries the total. */
  function RentNow(signedIn: bool, from: DateInput, to: DateInput, price: Option<real>): (r: RentDecision)
    ensures !signedIn ==> r == MustLogIn("You must be logged in to rent.")
    ensures signedIn && Days(from, to) == 0 ==> r == InvalidDates("Please select valid dates.")
    ensures r.SendRequest? <==> signedIn && from.Day? && to.Day? && from.day <= to.day
    ensures r.SendRequest? ==>
              && r.fromDay == from.day && r.toDay == to.day
              && r.totalPrice == (to.day - from.day + 1) as real * PriceOrZero(price)
  {
    if !signedIn then MustLogIn("You must be logged in to rent.")
    else if from.NoDate? || to.NoDate? || Days(from, to) <= 0 then InvalidDates("Please select valid dates.")
    else SendRequest(from.day, to.day, TotalPrice(from, to, price))
  }
}
