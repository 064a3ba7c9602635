/**
 * The ticket purchase routine: validation of the account and of the requests,
 * the price and seat totals, and the calls to the payment gateway and the seat
 * reservation service, which are recorded as an ordered list of events.
 */
module TicketService {
  import opened Wrappers
  import opened TicketTypeRequests

  const ADULT_PRICE: int := 25
  const CHILD_PRICE: int := 15
  /** The largest number of tickets, infants included, that one purchase may hold. */
  const MAX_TICKETS: int := 25

  /** The reasons carried by the invalid-purchase exception. */
  datatype Reason = InvalidAccount | NoRequests | NegativeCount | MissingAdult | TooManyTickets

  /** How a purchase can end without reserving seats. */
  datatype Failure =
    | Invalid(reason: Reason)  // a validation check rejected the purchase
    | PaymentFailed            // the payment gateway refused the charge

  /** One call into an external service. */
  datatype Event =
    | Pay(accountId: int, amount: int)      // the payment gateway's makePayment
    | Reserve(accountId: int, seats: int)   // the seat reservation service's reserveSeat

  /** What a valid purchase charges and reserves. */
  datatype Order = Order(amount: int, seats: int)

  /** The message text of each rejection. */
  function Message(r: Reason): string
  {
    match r
    case InvalidAccount => "Invalid account"
    case NoRequests => "No ticket requests provided"
    case NegativeCount => "The number of tickets cannot be negative"
    case MissingAdult => "At least one adult ticket must be purchased in order to buy child or infant tickets"
    case TooManyTickets => "The total number of tickets must not exceed 25"
  }

  /** Each rejection has its own message. */
  lemma MessagesDistinct(r: Reason, s: Reason)
    ensures Message(r) == Message(s) ==> r == s
  {
  }

  // ---------------------------------------------------------------------------
  // Specification functions: what the loops of the service accumulate.
  // Each is defined on a prefix plus its last element, the order of the loops.
  // ---------------------------------------------------------------------------

  /** The sum of all counts, infants included. */
  function SumCount(rs: seq<TicketTypeRequest>): int
  {
    if rs == [] then 0 else SumCount(rs[..|rs| - 1]) + rs[|rs| - 1].noOfTickets
  }

  /** The sum of the counts of the requests that need a seat (all but infants). */
  function SumSeats(rs: seq<TicketTypeRequest>): int
  {
    if rs == [] then 0
    else SumSeats(rs[..|rs| - 1]) + (if rs[|rs| - 1].ticketType != Infant then rs[|rs| - 1].noOfTickets else 0)
  }

  /** The price of one ticket of each type. */
  function UnitPrice(t: Type): int
  {
    match t
    case Adult => ADULT_PRICE
    case Child => CHILD_PRICE
    case Infant => 0
  }

  /** The amount the price loop accumulates: each count times the price of its type. */
  function Price(rs: seq<TicketTypeRequest>): int
  {
    if rs == [] then 0
    else Price(rs[..|rs| - 1]) + rs[|rs| - 1].noOfTickets * UnitPrice(rs[|rs| - 1].ticketType)
  }

  /** Reference definition: the number of tickets of one type. */
  function CountOf(rs: seq<TicketTypeRequest>, t: Type): int
  {
    if rs == [] then 0
    else CountOf(rs[..|rs| - 1], t) + (if rs[|rs| - 1].ticketType == t then rs[|rs| - 1].noOfTickets else 0)
  }

  /** Some request has type ADULT, whatever its count. */
  predicate HasAdult(rs: seq<TicketTypeRequest>)
  {
    exists i :: 0 <= i < |rs| && rs[i].ticketType == Adult
  }

  /** No request has a negative count. */
  predicate AllNonNegative(rs: seq<TicketTypeRequest>)
  {
    forall i :: 0 <= i < |rs| ==> rs[i].noOfTickets >= 0
  }

  /**
   * The decision the service takes, in the order it checks: the account, then
   * the presence of requests, then the counts, the adult rule and the cap.
   * On success it gives the amount to charge and the seats to reserve.
   */
  function Validate(accountId: Option<int>, requests: Option<seq<TicketTypeRequest>>): Result<Order, Reason>
  {
    if accountId.None? || accountId.value < 0 then Err(InvalidAccount)
    else if requests.None? || |requests.value| == 0 then Err(NoRequests)
    else if !AllNonNegative(requests.value) then Err(NegativeCount)
    else if !HasAdult(requests.value) then Err(MissingAdult)
    else if SumCount(requests.value) > MAX_TICKETS then Err(TooManyTickets)
    else Ok(Order(Price(requests.value), SumSeats(requests.value)))
  }

  // ---------------------------------------------------------------------------
  // The two routines of the service.
  // ---------------------------------------------------------------------------

  /** The price loop: the amount to charge for the requests. */
  method CalculateTotalPrice(rs: seq<TicketTypeRequest>) returns (amount: int)
    ensures amount == Price(rs)
    ensures amount == ADULT_PRICE * CountOf(rs, Adult) + CHILD_PRICE * CountOf(rs, Child)
  {
    amount := 0;
    for i := 0 to |rs|
      invariant amount == Price(rs[..i])
    {
      assert rs[..i + 1][..i] == rs[..i];
      var req := rs[i];
      match req.ticketType
      case Adult => amount := amount + req.noOfTickets * ADULT_PRICE;
      case Child => amount := amount + req.noOfTickets * CHILD_PRICE;
      case Infant =>
    }
    assert rs[..|rs|] == rs;
    PriceByType(rs);
  }

  /**
   * The purchase routine. paymentAccepted is the payment gateway's answer to a
   * charge of an amount to an account; a refused charge stops the routine before
   * any seat is reserved. The result is the list of calls made to the two
   * external services, in order, and the failure, if any.
   */
  method PurchaseTickets(accountId: Option<int>, requests: Option<seq<TicketTypeRequest>>, paymentAccepted: (int, int) -> bool)
    returns (calls: seq<Event>, failure: Option<Failure>)
    ensures Validate(accountId, requests).Err? ==>
      calls == [] && failure == Some(Invalid(Validate(accountId, requests).error))
    ensures Validate(accountId, requests).Ok? ==>
      var account, order := accountId.value, Validate(accountId, requests).value;
      if paymentAccepted(account, order.amount)
      then calls == [Pay(account, order.amount), Reserve(account, order.seats)] && failure == None
      else calls == [Pay(account, order.amount)] && failure == Some(PaymentFailed)
    ensures accountId.Some? && accountId.value >= 0 && requests.Some? && !AllNonNegative(requests.value) ==>
      calls == [] && failure == Some(Invalid(NegativeCount))
  {
    if accountId.None? || accountId.value < 0 {
      return [], Some(Invalid(InvalidAccount));
    }
    if requests.None? || |requests.value| == 0 {
      return [], Some(Invalid(NoRequests));
    }
    var account, rs := accountId.value, requests.value;
    var totalTickets, totalSeats, hasAdult := 0, 0, false;
    for i := 0 to |rs|
      invariant AllNonNegative(rs[..i])
      invariant hasAdult == HasAdult(rs[..i])
      invariant totalTickets == SumCount(rs[..i])
      invariant totalSeats == SumSeats(rs[..i])
    {
      assert rs[..i + 1][..i] == rs[..i];
      var req := rs[i];
      if req.noOfTickets < 0 {
        return [], Some(Invalid(NegativeCount));
      }
      if req.ticketType == Adult {
        hasAdult := true;
      }
      totalTickets := totalTickets + req.noOfTickets;
      if req.ticketType != Infant {
        totalSeats := totalSeats + req.noOfTickets;
      }
    }
    assert rs[..|rs|] == rs;
    if !hasAdult {
      return [], Some(Invalid(MissingAdult));
    }
    if totalTickets > MAX_TICKETS {
      return [], Some(Invalid(TooManyTickets));
    }
    var amount := CalculateTotalPrice(rs);
    calls := [Pay(account, amount)];
    if !paymentAccepted(account, amount) {
      return calls, Some(PaymentFailed);
    }
    calls := calls + [Reserve(account, totalSeats)];
    failure := None;
  }

  // ---------------------------------------------------------------------------
  // Properties of the totals.
  // ---------------------------------------------------------------------------

  /** The price is 25 per adult ticket and 15 per child ticket; infants are free. */
  lemma {:induction false} PriceByType(rs: seq<TicketTypeRequest>)
    ensures Price(rs) == ADULT_PRICE * CountOf(rs, Adult) + CHILD_PRICE * CountOf(rs, Child)
  {
    if rs != [] {
      PriceByType(rs[..|rs| - 1]);
    }
  }

  /** The seats are the adult and child tickets. */
  lemma {:induction false} SeatsByType(rs: seq<TicketTypeRequest>)
    ensures SumSeats(rs) == CountOf(rs, Adult) + CountOf(rs, Child)
  {
    if rs != [] {
      SeatsByType(rs[..|rs| - 1]);
    }
  }

  /** The total is the tickets of all three types. */
  lemma {:induction false} TotalByType(rs: seq<TicketTypeRequest>)
    ensures SumCount(rs) == CountOf(rs, Adult) + CountOf(rs, Child) + CountOf(rs, Infant)
  {
    if rs != [] {
      TotalByType(rs[..|rs| - 1]);
    }
  }

  /** With no negative count, every per-type count is between 0 and the total. */
  lemma {:induction false} CountsBounded(rs: seq<TicketTypeRequest>, t: Type)
    requires AllNonNegative(rs)
    ensures 0 <= CountOf(rs, t) <= SumCount(rs)
  {
    if rs != [] {
      var front := rs[..|rs| - 1];
      assert AllNonNegative(front) by {
        forall i | 0 <= i < |front| ensures front[i].noOfTickets >= 0 {
          assert front[i] == rs[i];
        }
      }
      CountsBounded(front, t);
    }
  }

  /** The price is never negative and at most 25 per ticket when no count is negative. */
  lemma {:induction false} PriceBounded(rs: seq<TicketTypeRequest>)
    requires AllNonNegative(rs)
    ensures 0 <= Price(rs) <= ADULT_PRICE * SumCount(rs)
  {
    if rs != [] {
      var front, last := rs[..|rs| - 1], rs[|rs| - 1];
      assert AllNonNegative(front) by {
        forall i | 0 <= i < |front| ensures front[i].noOfTickets >= 0 {
          assert front[i] == rs[i];
        }
      }
      PriceBounded(front);
      assert 0 <= last.noOfTickets * UnitPrice(last.ticketType) <= ADULT_PRICE * last.noOfTickets;
    }
  }

  /** An infant request adds its count to the total and nothing to the price or the seats. */
  lemma InfantsAddNoPriceOrSeats(rs: seq<TicketTypeRequest>, n: int)
    ensures Price(rs + [TicketTypeRequest(Infant, n)]) == Price(rs)
    ensures SumSeats(rs + [TicketTypeRequest(Infant, n)]) == SumSeats(rs)
    ensures SumCount(rs + [TicketTypeRequest(Infant, n)]) == SumCount(rs) + n
  {
    var rs' := rs + [TicketTypeRequest(Infant, n)];
    assert rs'[..|rs'| - 1] == rs;
  }

  // ---------------------------------------------------------------------------
  // Properties of the decision.
  // ---------------------------------------------------------------------------

  /** A missing or negative account id is rejected whatever the requests are. */
  lemma InvalidAccountFirst(accountId: Option<int>, requests: Option<seq<TicketTypeRequest>>)
    requires accountId.None? || accountId.value < 0
    ensures Validate(accountId, requests) == Err(InvalidAccount)
  {
  }

  /** With a valid account, a missing or empty request list is rejected. */
  lemma NoRequestsSecond(account: int, requests: Option<seq<TicketTypeRequest>>)
    requires account >= 0
    requires requests.None? || requests.value == []
    ensures Validate(Some(account), requests) == Err(NoRequests)
  {
  }

  /**
   * One negative count anywhere rejects the purchase with the negative-count
   * reason, before the adult rule and the cap are looked at.
   */
  lemma NegativeCountWins(account: int, rs: seq<TicketTypeRequest>, k: int)
    requires account >= 0
    requires 0 <= k < |rs| && rs[k].noOfTickets < 0
    ensures Validate(Some(account), Some(rs)) == Err(NegativeCount)
  {
  }

  /** Without an ADULT request, valid counts are rejected for the missing adult. */
  lemma MissingAdultRejected(account: int, rs: seq<TicketTypeRequest>)
    requires account >= 0 && rs != [] && AllNonNegative(rs)
    requires forall i :: 0 <= i < |rs| ==> rs[i].ticketType != Adult
    ensures Validate(Some(account), Some(rs)) == Err(MissingAdult)
  {
  }

  /** The adult rule looks at types only: an ADULT request with zero tickets satisfies it. */
  lemma AdultWithZeroTicketsCounts(account: int, rs: seq<TicketTypeRequest>)
    requires account >= 0 && AllNonNegative(rs) && SumCount(rs) <= MAX_TICKETS
    ensures Validate(Some(account), Some([TicketTypeRequest(Adult, 0)] + rs)).Ok?
  {
    var rs' := [TicketTypeRequest(Adult, 0)] + rs;
    assert rs'[0].ticketType == Adult;
    assert AllNonNegative(rs') by {
      forall i | 0 <= i < |rs'| ensures rs'[i].noOfTickets >= 0 {
        if i > 0 { assert rs'[i] == rs[i - 1]; }
      }
    }
    SumCountPrepend(TicketTypeRequest(Adult, 0), rs);
  }

  /** Prepending a request adds its count to the total. */
  lemma {:induction false} SumCountPrepend(r: TicketTypeRequest, rs: seq<TicketTypeRequest>)
    ensures SumCount([r] + rs) == r.noOfTickets + SumCount(rs)
  {
    if rs != [] {
      var front := rs[..|rs| - 1];
      assert ([r] + rs)[..|[r] + rs| - 1] == [r] + front;
      SumCountPrepend(r, front);
    } else {
      assert ([r] + rs)[..0] == [];
    }
  }

  /**
   * The cap counts every ticket, infants included: with everything else valid,
   * a total of MAX_TICKETS is accepted and any larger total is rejected.
   */
  lemma CapIsInclusive(account: int, rs: seq<TicketTypeRequest>)
    requires account >= 0 && rs != [] && AllNonNegative(rs) && HasAdult(rs)
    ensures Validate(Some(account), Some(rs)).Ok? <==> SumCount(rs) <= MAX_TICKETS
    ensures SumCount(rs) > MAX_TICKETS ==> Validate(Some(account), Some(rs)) == Err(TooManyTickets)
  {
  }

  /** A purchase is accepted exactly when every check passes. */
  lemma AcceptedIff(accountId: Option<int>, requests: Option<seq<TicketTypeRequest>>)
    ensures Validate(accountId, requests).Ok? <==>
      && accountId.Some? && accountId.value >= 0
      && requests.Some? && requests.value != []
      && AllNonNegative(requests.value) && HasAdult(requests.value)
      && SumCount(requests.value) <= MAX_TICKETS
  {
  }

  /**
   * What an accepted purchase charges and reserves: 25 per adult and 15 per
   * child, one seat per adult or child; the seats never exceed the tickets,
   * which never exceed the cap, and the amount is at most 25 times the cap.
   */
  lemma AcceptedOrder(accountId: Option<int>, requests: Option<seq<TicketTypeRequest>>)
    requires Validate(accountId, requests).Ok?
    ensures var rs, o := requests.value, Validate(accountId, requests).value;
      && o.amount == ADULT_PRICE * CountOf(rs, Adult) + CHILD_PRICE * CountOf(rs, Child)
      && o.seats == CountOf(rs, Adult) + CountOf(rs, Child)
      && 0 <= o.seats <= SumCount(rs) <= MAX_TICKETS
      && 0 <= o.amount <= ADULT_PRICE * MAX_TICKETS
  {
    var rs := requests.value;
    PriceByType(rs);
    SeatsByType(rs);
    TotalByType(rs);
    CountsBounded(rs, Adult);
    CountsBounded(rs, Child);
    CountsBounded(rs, Infant);
  }

  /** Two adults and one child on account 1: 65 charged, 3 seats. */
  lemma ExampleTwoAdultsOneChild()
    ensures Validate(Some(1), Some([TicketTypeRequest(Adult, 2), TicketTypeRequest(Child, 1)])) == Ok(Order(65, 3))
  {
    var rs := [TicketTypeRequest(Adult, 2), TicketTypeRequest(Child, 1)];
    var front := [TicketTypeRequest(Adult, 2)];
    assert rs[..1] == front && front[..0] == [];
    assert rs[0].ticketType == Adult;
    assert AllNonNegative(rs);
    assert SumCount(front) == 2 && Price(front) == 50 && SumSeats(front) == 2;
  }

  /** A lone child ticket is rejected for the missing adult. */
  lemma ExampleChildAlone()
    ensures Validate(Some(1), Some([TicketTypeRequest(Child, 1)])) == Err(MissingAdult)
  {
  }
}
