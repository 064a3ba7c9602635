/**
 * The purchase decision as the Java code computes it, with 32-bit int
 * accumulators that wrap around. Nothing else in the project uses this module:
 * it exhibits the input that slips past the ticket cap, and states when the
 * wrapping computation agrees with the mathematical one in TicketService.
 */
module Int32Overflow {
  import opened Wrappers
  import opened TicketTypeRequests
  import opened TicketService

  const INT_MIN: int := -0x8000_0000
  const INT_MAX: int := 0x7fff_ffff
  const TWO_32: int := 0x1_0000_0000

  /** Java int arithmetic: the value in the 32-bit range congruent to x modulo 2^32. */
  function Wrap32(x: int): (r: int)
    ensures INT_MIN <= r <= INT_MAX
    ensures (x - r) % TWO_32 == 0
    ensures INT_MIN <= x <= INT_MAX ==> r == x
  {
    (x - INT_MIN) % TWO_32 + INT_MIN
  }

  /** total_tickets as the loop computes it, wrapping after each addition. */
  function WrappedTotal(rs: seq<TicketTypeRequest>): int
  {
    if rs == [] then 0 else Wrap32(WrappedTotal(rs[..|rs| - 1]) + rs[|rs| - 1].noOfTickets)
  }

  /** total_seats as the loop computes it, wrapping after each addition. */
  function WrappedSeats(rs: seq<TicketTypeRequest>): int
  {
    if rs == [] then 0
    else Wrap32(WrappedSeats(rs[..|rs| - 1]) + (if rs[|rs| - 1].ticketType != Infant then rs[|rs| - 1].noOfTickets else 0))
  }

  /** total_amount as the price loop computes it: a wrapping product, then a wrapping sum. */
  function WrappedPrice(rs: seq<TicketTypeRequest>): int
  {
    if rs == [] then 0
    else Wrap32(WrappedPrice(rs[..|rs| - 1]) + Wrap32(rs[|rs| - 1].noOfTickets * UnitPrice(rs[|rs| - 1].ticketType)))
  }

  /** The decision of the purchase routine with the wrapping accumulators of the code as written. */
  function ValidateAsWritten(accountId: Option<int>, requests: Option<seq<TicketTypeRequest>>): Result<Order, Reason>
  {
    if accountId.None? || accountId.value < 0 then Err(InvalidAccount)
    else if requests.None? || |requests.value| == 0 then Err(NoRequests)
    else if !AllNonNegative(requests.value) then Err(NegativeCount)
    else if !HasAdult(requests.value) then Err(MissingAdult)
    else if WrappedTotal(requests.value) > MAX_TICKETS then Err(TooManyTickets)
    else Ok(Order(WrappedPrice(requests.value), WrappedSeats(requests.value)))
  }

  /**
   * Two ADULT requests of 2147483647 and 2 tickets: the wrapped total is
   * -2147483647, so the code accepts 2^31 + 1 tickets and asks for a negative
   * number of seats, where the cap demands a rejection.
   */
  lemma OverflowSlipsPastCap()
    ensures var rs := [TicketTypeRequest(Adult, INT_MAX), TicketTypeRequest(Adult, 2)];
      && SumCount(rs) == INT_MAX + 2
      && ValidateAsWritten(Some(1), Some(rs)).Ok?
      && ValidateAsWritten(Some(1), Some(rs)).value.seats < 0
      && Validate(Some(1), Some(rs)) == Err(TooManyTickets)
  {
    var rs := [TicketTypeRequest(Adult, INT_MAX), TicketTypeRequest(Adult, 2)];
    var front := [TicketTypeRequest(Adult, INT_MAX)];
    assert rs[..1] == front && front[..0] == [];
    assert rs[0].ticketType == Adult;
    assert AllNonNegative(rs);
    assert WrappedTotal(front) == INT_MAX;
    assert WrappedTotal(rs) == INT_MIN + 1;
    assert WrappedSeats(front) == INT_MAX;
    assert WrappedSeats(rs) == INT_MIN + 1;
    assert SumCount(front) == INT_MAX;
  }

  /**
   * Without negative counts, and while 25 times the total stays within the
   * int range, the wrapping accumulators equal the mathematical sums.
   */
  lemma {:induction false} WrappedSumsAgree(rs: seq<TicketTypeRequest>)
    requires AllNonNegative(rs) && ADULT_PRICE * SumCount(rs) <= INT_MAX
    ensures WrappedTotal(rs) == SumCount(rs)
    ensures WrappedSeats(rs) == SumSeats(rs)
    ensures WrappedPrice(rs) == Price(rs)
  {
    if rs != [] {
      var front, last := rs[..|rs| - 1], rs[|rs| - 1];
      assert AllNonNegative(front) by {
        forall i | 0 <= i < |front| ensures front[i].noOfTickets >= 0 {
          assert front[i] == rs[i];
        }
      }
      PriceBounded(front);
      PriceBounded(rs);
      SeatsByType(rs);
      CountsBounded(rs, Adult);
      CountsBounded(rs, Child);
      TotalByType(rs);
      CountsBounded(rs, Infant);
      WrappedSumsAgree(front);
      assert 0 <= last.noOfTickets * UnitPrice(last.ticketType) <= ADULT_PRICE * last.noOfTickets;
    }
  }

  /**
   * The code as written decides exactly as the mathematical model does unless
   * the counts are all valid and 25 times their total is too large for an int:
   * a negative count is rejected the same way by both.
   */
  lemma AsWrittenAgreesWithoutOverflow(accountId: Option<int>, rs: seq<TicketTypeRequest>)
    requires AllNonNegative(rs) ==> ADULT_PRICE * SumCount(rs) <= INT_MAX
    ensures ValidateAsWritten(accountId, Some(rs)) == Validate(accountId, Some(rs))
  {
    if AllNonNegative(rs) {
      WrappedSumsAgree(rs);
    }
  }
}
