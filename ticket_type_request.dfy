/**
 * The request value of the ticket service: one ticket type and a number of
 * tickets of that type.
 */
module TicketTypeRequests {

  /** The three ticket categories. */
  datatype Type = Adult | Child | Infant

  /**
   * An immutable request. The constructor stores its two arguments and checks
   * nothing, so a negative number of tickets is a value like any other.
   * The two fields play the part of the getters getTicketType and getNoOfTickets.
   */
  datatype TicketTypeRequest = TicketTypeRequest(ticketType: Type, noOfTickets: int)

  /** The getters give back exactly what was passed to the constructor. */
  lemma ConstructorStoresArguments(t: Type, n: int)
    ensures TicketTypeRequest(t, n).ticketType == t
    ensures TicketTypeRequest(t, n).noOfTickets == n
  {
  }

  /** Every request is rebuilt by the constructor from its two getters. */
  lemma GettersDetermineRequest(r: TicketTypeRequest, s: TicketTypeRequest)
    ensures r == TicketTypeRequest(r.ticketType, r.noOfTickets)
    ensures r.ticketType == s.ticketType && r.noOfTickets == s.noOfTickets ==> r == s
  {
  }

  /** No validation happens on construction: any count, negative ones included, is stored. */
  lemma NegativeCountsRepresentable(t: Type, n: int)
    requires n < 0
    ensures TicketTypeRequest(t, n).noOfTickets < 0
  {
  }

  /** The type has exactly the three values ADULT, CHILD and INFANT, and they are distinct. */
  lemma ExactlyThreeTypes(t: Type)
    ensures t == Adult || t == Child || t == Infant
    ensures Adult != Child && Child != Infant && Adult != Infant
  {
  }
}
