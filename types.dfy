/**
 * The records and errors of the ticketing contract: an `Event` with its status
 * machine, a `Ticket` sold for it, and the contract's error taxonomy.
 */
module Types {

  /** An account; only equality between accounts matters to the contract. */
  datatype Address = Address(key: nat)

  /** The lifecycle of an event: Draft -> Published -> Cancelled | Completed. */
  datatype EventStatus = Draft | Published | Cancelled | Completed

  /** An event as stored under its id; `ticketsSold` is the only counter it keeps. */
  datatype Event = Event(
    id: nat,
    organizer: Address,
    name: string,
    description: string,
    location: string,
    startTime: nat,
    endTime: nat,
    ticketPrice: int,
    maxTickets: nat,
    ticketsSold: nat,
    status: EventStatus)

  /**
   * A ticket as stored under its id. `escrowShare` is the part of the purchase
   * amount that went to the event's escrow (`amount - fee`); it is the field the
   * corrected refund debits (see `Lumentix.RefundTicket`).
   */
  datatype Ticket = Ticket(
    id: nat,
    eventId: nat,
    owner: Address,
    purchaseTime: nat,
    used: bool,
    refunded: bool,
    escrowShare: int)

  /** The contract's error codes, plus the input-validation failures of `create_event`. */
  datatype Error =
    | AlreadyInitialized
    | EventNotFound
    | TicketNotFound
    | Unauthorized
    | InvalidStatusTransition
    | EventSoldOut
    | InsufficientFunds
    | TicketAlreadyUsed
    | RefundNotAllowed
    | EventNotCancelled
    | InsufficientEscrow
    | EscrowAlreadyReleased
    | InvalidPlatformFee
    | NoPlatformFees
    | EmptyString
    | InvalidAmount
    | InvalidCapacity
    | InvalidTimeRange
      /** The host trap raised by unwrapping an admin entry that was never set. */
    | AdminNotSet
}
