# Cinema ticket purchase, modelled in Dafny

This project models the ticket service of the cinema-tickets exercise. The service takes an
account id and a list of ticket requests. Each request is a ticket type (ADULT, CHILD or INFANT)
and a number of tickets. The service rejects the purchase with a reason, or charges the account
and then reserves the seats.

- `wrappers.dfy` (module `Wrappers`): `Option` stands for a Java reference that may be null.
  `Result` is a value or a rejection reason.
- `ticket_type_request.dfy` (module `TicketTypeRequests`): the `Type` enum and the immutable
  `TicketTypeRequest` value. Its two fields play the part of the getters. A datatype value
  cannot change, which matches the final fields of the Java class.
- `ticket_service.dfy` (module `TicketService`):
  - `Reason` lists the five rejections, and `Message` gives each one's exact text.
  - `UnitPrice` gives the price of one ticket of each type: 25, 15 and 0.
  - `SumCount`, `SumSeats`, `Price` and `HasAdult` state what the loops compute. `CountOf` is an
    independent per-type reference that these are proved against.
  - `Validate` is the decision, taken in the order the code checks. It gives either a `Reason` or
    the `Order` (amount and seats) to charge and reserve. The lemmas in the table are stated in
    terms of it.
  - `CalculateTotalPrice` and `PurchaseTickets` are the two routines, written as methods with
    the source's loops.
  - The two external services are recorded as a returned list of calls: `Pay` for the payment
    gateway's `makePayment`, then `Reserve` for `reserveSeat`.
  - The payment gateway's answer is the parameter `paymentAccepted`. A refused charge ends the
    purchase with `PaymentFailed`, and no seat is reserved.
- `int32_overflow.dfy` (module `Int32Overflow`): the same decision computed with 32-bit wrapping
  accumulators, as the Java code does. `Wrap32` is Java int arithmetic, and `WrappedTotal`,
  `WrappedSeats` and `WrappedPrice` are the wrapping loops. `ValidateAsWritten` is the decision
  computed from them, and backs the finding below.

Two points of the code worth noting:
- The adult rule checks request types only. A request `(ADULT, 0)` meets it, and `[(ADULT, 0)]`
  on its own is accepted: 0 is charged and 0 seats are reserved.
- The price switch's `default` branch cannot be reached for the enum's three values, so the model
  has no outcome for it.

## Model

| member | source | states |
|---|---|---|
| `TicketTypeRequests.ConstructorStoresArguments` | cinema-tickets-java/src/main/java/uk/gov/dwp/uc/pairtest/domain/TicketTypeRequest.java:14-25 | getTicketType and getNoOfTickets return exactly the type and count given to the constructor |
| `TicketTypeRequests.GettersDetermineRequest` | cinema-tickets-java/src/main/java/uk/gov/dwp/uc/pairtest/domain/TicketTypeRequest.java:3-25 | in the model a request is its two final fields: rebuilding it from its getters gives the same value, and requests with equal fields are the same value |
| `TicketTypeRequests.NegativeCountsRepresentable` | cinema-tickets-java/src/main/java/uk/gov/dwp/uc/pairtest/domain/TicketTypeRequest.java:14-17 | the constructor validates nothing: a negative count is stored as given |
| `TicketTypeRequests.ExactlyThreeTypes` | cinema-tickets-java/src/main/java/uk/gov/dwp/uc/pairtest/domain/TicketTypeRequest.java:27-29 | every ticket type is one of ADULT, CHILD and INFANT, and the three are distinct |
| `TicketService.MessagesDistinct` | cinema-tickets-java/src/main/java/uk/gov/dwp/uc/pairtest/TicketServiceImpl.java:20-47 | the five rejection messages are pairwise different, so the message identifies the failed check |
| `TicketService.CalculateTotalPrice` | cinema-tickets-java/src/main/java/uk/gov/dwp/uc/pairtest/TicketServiceImpl.java:54-72 | the price loop returns the sum of count times unit price, which is 25 per adult ticket plus 15 per child ticket |
| `TicketService.PurchaseTickets` | cinema-tickets-java/src/main/java/uk/gov/dwp/uc/pairtest/TicketServiceImpl.java:19-52 | on any rejection no external call is made and the reason is returned, and a negative count with a valid account and present requests always ends in that rejection; on acceptance exactly one payment of the computed amount to the same account comes first, then a reservation of the computed seats for that account, skipped when the payment is refused |
| `TicketService.PriceByType` | cinema-tickets-java/src/main/java/uk/gov/dwp/uc/pairtest/TicketServiceImpl.java:54-72 | the accumulated price equals 25 times the adult tickets plus 15 times the child tickets; infants add nothing |
| `TicketService.SeatsByType` | cinema-tickets-java/src/main/java/uk/gov/dwp/uc/pairtest/TicketServiceImpl.java:38-40 | the seat total equals the adult tickets plus the child tickets |
| `TicketService.TotalByType` | cinema-tickets-java/src/main/java/uk/gov/dwp/uc/pairtest/TicketServiceImpl.java:37 | the ticket total counts every type, infants included |
| `TicketService.CountsBounded` | cinema-tickets-java/src/main/java/uk/gov/dwp/uc/pairtest/TicketServiceImpl.java:30-41 | with no negative count, the tickets of each type lie between 0 and the total |
| `TicketService.InfantsAddNoPriceOrSeats` | cinema-tickets-java/src/main/java/uk/gov/dwp/uc/pairtest/TicketServiceImpl.java:37-65 | an INFANT request adds its count to the total but nothing to the seats or the price |
| `TicketService.InvalidAccountFirst` | cinema-tickets-java/src/main/java/uk/gov/dwp/uc/pairtest/TicketServiceImpl.java:20-22 | a null or negative account id is rejected as an invalid account, whatever the requests are |
| `TicketService.NoRequestsSecond` | cinema-tickets-java/src/main/java/uk/gov/dwp/uc/pairtest/TicketServiceImpl.java:23-25 | with a valid account, a null or empty request list is rejected as no requests |
| `TicketService.NegativeCountWins` | cinema-tickets-java/src/main/java/uk/gov/dwp/uc/pairtest/TicketServiceImpl.java:30-47 | one negative count anywhere rejects with the negative-count reason, ahead of the adult rule and the cap |
| `TicketService.MissingAdultRejected` | cinema-tickets-java/src/main/java/uk/gov/dwp/uc/pairtest/TicketServiceImpl.java:42-44 | valid counts with no ADULT request are rejected for the missing adult |
| `TicketService.AdultWithZeroTicketsCounts` | cinema-tickets-java/src/main/java/uk/gov/dwp/uc/pairtest/TicketServiceImpl.java:34-36 | the adult flag is set by type alone: an (ADULT, 0) request lets any valid list within the cap through |
| `TicketService.CapIsInclusive` | cinema-tickets-java/src/main/java/uk/gov/dwp/uc/pairtest/TicketServiceImpl.java:45-47 | with the other checks passed, a total of up to 25 is accepted and any larger total is rejected as too many tickets |
| `TicketService.AcceptedIff` | cinema-tickets-java/src/main/java/uk/gov/dwp/uc/pairtest/TicketServiceImpl.java:20-47 | a purchase is accepted if and only if the account is valid, requests are present, no count is negative, an ADULT request exists and the total is at most 25 |
| `TicketService.AcceptedOrder` | cinema-tickets-java/src/main/java/uk/gov/dwp/uc/pairtest/TicketServiceImpl.java:37-50 | an accepted order charges 25 per adult plus 15 per child and reserves one seat per adult or child; seats never exceed tickets, tickets never exceed 25, and the amount lies between 0 and 625 |
| `TicketService.ExampleTwoAdultsOneChild` | cinema-tickets-java/src/main/java/uk/gov/dwp/uc/pairtest/TicketServiceImpl.java:19-72 | two adults and one child on account 1 charge 65 and reserve 3 seats |
| `TicketService.ExampleChildAlone` | cinema-tickets-java/src/main/java/uk/gov/dwp/uc/pairtest/TicketServiceImpl.java:42-44 | a lone child ticket is rejected for the missing adult |
| `Int32Overflow.Wrap32` | cinema-tickets-java/src/main/java/uk/gov/dwp/uc/pairtest/TicketServiceImpl.java:37 | Java int addition: the result is in the 32-bit range, congruent to the exact sum modulo 2^32, and equal to it when the sum fits |
| `Int32Overflow.OverflowSlipsPastCap` | cinema-tickets-java/src/main/java/uk/gov/dwp/uc/pairtest/TicketServiceImpl.java:26-47 | with wrapping accumulators, requests of 2147483647 and 2 adult tickets pass the cap and ask for a negative seat count, where the cap demands a rejection |
| `TicketService.PriceBounded` | cinema-tickets-java/src/main/java/uk/gov/dwp/uc/pairtest/TicketServiceImpl.java:54-72 | with no negative count the price is between 0 and 25 times the ticket total |
| `Int32Overflow.WrappedSumsAgree` | cinema-tickets-java/src/main/java/uk/gov/dwp/uc/pairtest/TicketServiceImpl.java:26-72 | while 25 times the total fits in an int, the wrapping ticket, seat and price accumulators equal the exact sums |
| `Int32Overflow.AsWrittenAgreesWithoutOverflow` | cinema-tickets-java/src/main/java/uk/gov/dwp/uc/pairtest/TicketServiceImpl.java:19-72 | unless the counts are all non-negative and 25 times their total overflows an int, the decision of the code as written equals the decision of the exact model; negative counts are rejected the same way by both |

## Left out

- TicketService.PurchaseTickets: uses unbounded integers for the counts and the three accumulators. It does not reproduce 32-bit wrap-around. `Int32Overflow` models that wrap-around separately (see Findings).
- TicketService.CalculateTotalPrice: uses unbounded integers for the product of a count and its unit price and for `total_amount`. In Java both wrap at 32 bits. `Int32Overflow.WrappedPrice` models that wrap-around separately.
- The account id is a Java `Long`. The model gives it unbounded range.
- A null element inside the request array makes the Java loop throw a NullPointerException. Requests in the model are never null.
- A request's type is never null in the model. In Java the constructor accepts a null type. The validation loop then counts that request as a ticket that needs a seat. When the other checks pass, the price switch throws a NullPointerException before any payment, so no external call is made.
- Java requests are objects, and two requests with the same fields are still different objects. The model compares requests by value. The service never compares requests, so its behaviour does not change.
- The "unknown ticket type" default branch of the price switch is not modelled. The three-valued datatype makes it unreachable, and the match is exhaustive.
- The payment gateway and the seat reservation service are foreign code. They are modelled only as recorded calls, plus the gateway's accept-or-refuse answer. A failure inside `reserveSeat` is not modelled.
- The `InvalidPurchaseException` class and the `TicketService` interface are not part of this model. The exception is modelled as the `Failure` value with its `Reason`, and `Message` gives each reason's text.

## Findings

| source | as written | input that shows it | evidently intended | confidence | as-written member | corrected member |
|---|---|---|---|---|---|---|
| cinema-tickets-java/src/main/java/uk/gov/dwp/uc/pairtest/TicketServiceImpl.java:37 | `total_tickets` is a 32-bit int, so a large sum wraps to a negative value and passes the `> 25` check at line 45 | requests (ADULT, 2147483647) and (ADULT, 2): the total wraps to -2147483647, the purchase is accepted, and -2147483647 seats are requested | every purchase of more than 25 tickets is rejected | not executed | `Int32Overflow.OverflowSlipsPastCap` | `TicketService.CapIsInclusive` |
