/**
 * The entry points of the ticketing contract. Each takes the contract's store
 * explicitly; the authenticated invoker (`require_auth`) is the address parameter
 * the source authenticates, and the ledger clock is the `now` parameter.
 *
 * Every entry point checks its guards before its first write, so a failed call
 * leaves the store as it was. `Consistent` is the bookkeeping invariant that the
 * entry points preserve: each event's `ticketsSold` equals the number of its
 * unrefunded tickets, and until it is completed its escrow balance equals the sum
 * of those tickets' escrow shares.
 */
module Lumentix {
  import opened Wrappers
  import opened Types
  import opened Accounting
  import opened Storage

  /** The position of a status in the lifecycle; transitions only move forward. */
  function Stage(s: EventStatus): nat
  {
    match s
    case Draft => 0
    case Published => 1
    case Cancelled => 2
    case Completed => 2
  }

  /**
   * The status changes `update_event_status` accepts: Draft to Published,
   * Published to Cancelled, and Published to Completed once the event has ended.
   */
  function ValidTransition(from: EventStatus, to: EventStatus, now: nat, endTime: nat): (ok: bool)
    ensures ok ==> Stage(from) < Stage(to)
    ensures ok ==> from != Cancelled && from != Completed
    ensures ok && to == Completed ==> now > endTime
    ensures from == Draft ==> (ok <==> to == Published)
    ensures from == Published && to != Completed ==> (ok <==> to == Cancelled)
    ensures from == Published && to == Completed ==> (ok <==> now > endTime)
  {
    match (from, to)
    case (Draft, Published) => true
    case (Published, Cancelled) => true
    case (Published, Completed) => now > endTime
    case _ => false
  }

  /** No accepted transition can be undone by another accepted transition. */
  lemma TransitionsAreIrreversible(a: EventStatus, b: EventStatus, now: nat, later: nat, endTime: nat)
    requires ValidTransition(a, b, now, endTime)
    ensures !ValidTransition(b, a, later, endTime)
  {
  }

  /**
   * The input checks of `create_event`, in the order it makes them: the three
   * texts non-empty, a positive price, a positive capacity, a start before the end.
   */
  function ValidateEvent(name: string, description: string, location: string, ticketPrice: int,
                         maxTickets: nat, startTime: nat, endTime: nat): (r: Result<(), Error>)
    ensures r.Ok? <==> name != [] && description != [] && location != [] && ticketPrice > 0
                       && maxTickets > 0 && startTime < endTime
    ensures name == [] || description == [] || location == [] ==> r == Err(EmptyString)
    ensures name != [] && description != [] && location != [] && ticketPrice <= 0 ==> r == Err(InvalidAmount)
    ensures (name != [] && description != [] && location != [] && ticketPrice > 0 && maxTickets == 0)
            ==> r == Err(InvalidCapacity)
    ensures (name != [] && description != [] && location != [] && ticketPrice > 0 && maxTickets > 0
             && startTime >= endTime) ==> r == Err(InvalidTimeRange)
  {
    if name == [] || description == [] || location == [] then Err(EmptyString)
    else if ticketPrice <= 0 then Err(InvalidAmount)
    else if maxTickets == 0 then Err(InvalidCapacity)
    else if startTime >= endTime then Err(InvalidTimeRange)
    else Ok(())
  }

  /** Rust's `saturating_sub` on unsigned counters. */
  function SaturatingSub(a: nat, b: nat): (r: nat)
    ensures b <= a ==> r + b == a
    ensures a < b ==> r == 0
  {
    if b <= a then a - b else 0
  }

  /** An event whose counters agree with the ticket table and the escrow ledger. */
  ghost predicate EventBalanced(e: Event, id: nat, tickets: map<nat, Ticket>, nextTicket: nat, escrow: int)
  {
    && e.ticketPrice > 0
    && e.maxTickets > 0
    && e.ticketsSold <= e.maxTickets
    && e.ticketsSold == Tally(tickets, id, nextTicket, Seats)
    && (e.status != Completed ==> escrow == Tally(tickets, id, nextTicket, Funds))
  }

  /** The parts of the store the bookkeeping invariant constrains, as values. */
  datatype Books = Books(
    feeBps: nat,
    platformBalance: int,
    escrow: map<nat, int>,
    events: map<nat, Event>,
    tickets: map<nat, Ticket>,
    nextEvent: nat,
    nextTicket: nat)

  function EscrowOf(b: Books, id: nat): int
  {
    if id in b.escrow then b.escrow[id] else 0
  }

  /**
   * The bookkeeping invariant: a legal fee, non-negative balances, escrow only for
   * known events, tickets and events under ids already handed out, every ticket
   * of a known event, and every event balanced against its tickets.
   */
  ghost predicate Coherent(b: Books)
  {
    && b.feeBps <= MaxFeeBps
    && b.platformBalance >= 0
    && SharesNonNegative(b.tickets)
    && (forall id :: id in b.escrow ==> id in b.events && b.escrow[id] >= 0)
    && (forall id :: id in b.tickets ==> id < b.nextTicket && b.tickets[id].eventId in b.events)
    && (forall id :: id in b.events ==>
          id < b.nextEvent && EventBalanced(b.events[id], id, b.tickets, b.nextTicket, EscrowOf(b, id)))
  }

  ghost function BooksOf(st: Store): Books
    reads st`feeBps, st`platformBalance, st`escrow, st`events, st`tickets, st`eventCounter, st`ticketCounter
  {
    Books(st.GetPlatformFeeBps(), st.GetPlatformBalance(), st.escrow, st.events, st.tickets,
          st.NextEventId(), st.NextTicketId())
  }

  /** The bookkeeping invariant of the contract's store. */
  ghost predicate Consistent(st: Store)
    reads st`feeBps, st`platformBalance, st`escrow, st`events, st`tickets, st`eventCounter, st`ticketCounter
  {
    Coherent(BooksOf(st))
  }

  /**
   * The writes of a sale keep the books coherent: the event gains one seat sold and the ticket's
   * share in escrow, the platform gains the fee, and the ticket goes under the next id.
   */
  lemma SaleUpdatesBooks(b: Books, b': Books, eventId: nat, ticket: Ticket, fee: int)
    requires Coherent(b)
    requires eventId in b.events
    requires b.events[eventId].status == Published && b.events[eventId].ticketsSold < b.events[eventId].maxTickets
    requires ticket.id == b.nextTicket && ticket.eventId == eventId && !ticket.refunded
    requires ticket.escrowShare >= 0 && fee >= 0
    requires b'.feeBps == b.feeBps && b'.platformBalance == b.platformBalance + fee
    requires b'.escrow == b.escrow[eventId := EscrowOf(b, eventId) + ticket.escrowShare]
    requires b'.events == b.events[eventId := b.events[eventId].(ticketsSold := b.events[eventId].ticketsSold + 1)]
    requires b'.tickets == b.tickets[ticket.id := ticket]
    requires b'.nextEvent == b.nextEvent && b'.nextTicket == b.nextTicket + 1
    ensures Coherent(b')
  {
    forall id, m ensures Tally(b'.tickets, id, b'.nextTicket, m) == Tally(b.tickets, id, b.nextTicket, m) + Weight(ticket, id, m) {
      TallyUpdate(b.tickets, id, b.nextTicket, m, ticket.id, ticket);
    }
    forall id | id in b'.events
      ensures EventBalanced(b'.events[id], id, b'.tickets, b'.nextTicket, EscrowOf(b', id))
    {
      assert EventBalanced(b.events[id], id, b.tickets, b.nextTicket, EscrowOf(b, id));
    }
  }

  /**
   * The books after a sale of a ticket of event `eventId` to `buyer` for `amount`:
   * the platform gains the fee when it is positive, the event's escrow gains the
   * rest, the event one seat sold, and the ticket goes under the next ticket id.
   */
  ghost function AfterSale(b: Books, eventId: nat, buyer: Address, amount: int, now: nat): Books
    requires eventId in b.events
  {
    var fee := PlatformFee(amount, b.feeBps);
    var e := b.events[eventId];
    Books(b.feeBps, b.platformBalance + (if fee > 0 then fee else 0),
          b.escrow[eventId := EscrowOf(b, eventId) + (amount - fee)],
          b.events[eventId := e.(ticketsSold := e.ticketsSold + 1)],
          b.tickets[b.nextTicket := Ticket(b.nextTicket, eventId, buyer, now, false, false, amount - fee)],
          b.nextEvent, b.nextTicket + 1)
  }

  /**
   * A sale the guards of `purchase_ticket` let through keeps the books coherent,
   * and its fee is a part of the payment.
   */
  lemma SaleKeepsCoherent(b: Books, eventId: nat, buyer: Address, amount: int, now: nat)
    requires Coherent(b)
    requires eventId in b.events
    requires b.events[eventId].status == Published && b.events[eventId].ticketsSold < b.events[eventId].maxTickets
    requires amount >= b.events[eventId].ticketPrice
    ensures 0 <= PlatformFee(amount, b.feeBps) <= amount
    ensures Coherent(AfterSale(b, eventId, buyer, amount, now))
  {
    assert EventBalanced(b.events[eventId], eventId, b.tickets, b.nextTicket, EscrowOf(b, eventId));
    var fee := PlatformFee(amount, b.feeBps);
    var ticket := Ticket(b.nextTicket, eventId, buyer, now, false, false, amount - fee);
    SaleUpdatesBooks(b, AfterSale(b, eventId, buyer, amount, now), eventId, ticket, if fee > 0 then fee else 0);
  }

  /**
   * On coherent books, the escrow of an event that is not completed covers the
   * share of each of its live tickets, and its seat count covers the ticket.
   */
  lemma LiveTicketIsFunded(b: Books, ticketId: nat)
    requires Coherent(b)
    requires ticketId in b.tickets && !b.tickets[ticketId].refunded
    requires b.events[b.tickets[ticketId].eventId].status != Completed
    ensures var t := b.tickets[ticketId];
      EscrowOf(b, t.eventId) >= t.escrowShare && b.events[t.eventId].ticketsSold >= 1
  {
    var t := b.tickets[ticketId];
    TallyCovers(b.tickets, t.eventId, b.nextTicket, Funds, ticketId);
    TallyCovers(b.tickets, t.eventId, b.nextTicket, Seats, ticketId);
    assert EventBalanced(b.events[t.eventId], t.eventId, b.tickets, b.nextTicket, EscrowOf(b, t.eventId));
  }

  /**
   * The writes of a refund keep the books coherent: the ticket's share leaves its event's escrow
   * and its seat leaves the event's count, exactly what marking it refunded takes
   * off the tallies.
   */
  lemma RefundUpdatesBooks(b: Books, b': Books, ticketId: nat)
    requires Coherent(b)
    requires ticketId in b.tickets && !b.tickets[ticketId].refunded
    requires b.events[b.tickets[ticketId].eventId].status == Cancelled
    requires var t := b.tickets[ticketId]; var e := b.events[t.eventId];
      && b'.feeBps == b.feeBps && b'.platformBalance == b.platformBalance
      && b'.escrow == b.escrow[t.eventId := EscrowOf(b, t.eventId) - t.escrowShare]
      && b'.events == b.events[t.eventId := e.(ticketsSold := SaturatingSub(e.ticketsSold, 1))]
      && b'.tickets == b.tickets[ticketId := t.(refunded := true)]
      && b'.nextEvent == b.nextEvent && b'.nextTicket == b.nextTicket
    ensures Coherent(b')
  {
    var t := b.tickets[ticketId];
    LiveTicketIsFunded(b, ticketId);
    forall id, m ensures Tally(b'.tickets, id, b'.nextTicket, m) == Tally(b.tickets, id, b.nextTicket, m) - Weight(t, id, m) {
      TallyUpdate(b.tickets, id, b.nextTicket, m, ticketId, t.(refunded := true));
    }
    forall id | id in b'.events
      ensures EventBalanced(b'.events[id], id, b'.tickets, b'.nextTicket, EscrowOf(b', id))
    {
      assert EventBalanced(b.events[id], id, b.tickets, b.nextTicket, EscrowOf(b, id));
    }
  }

  /** The books after refunding a ticket: its share leaves the escrow, its seat the count, and it is marked refunded. */
  ghost function AfterRefund(b: Books, ticketId: nat): Books
    requires ticketId in b.tickets && b.tickets[ticketId].eventId in b.events
  {
    var t := b.tickets[ticketId];
    var e := b.events[t.eventId];
    b.(escrow := b.escrow[t.eventId := EscrowOf(b, t.eventId) - t.escrowShare],
       events := b.events[t.eventId := e.(ticketsSold := SaturatingSub(e.ticketsSold, 1))],
       tickets := b.tickets[ticketId := t.(refunded := true)])
  }

  /**
   * Refunding a live ticket of a cancelled event on coherent books finds its share
   * in escrow and keeps the books coherent.
   */
  lemma RefundKeepsCoherent(b: Books, ticketId: nat)
    requires Coherent(b)
    requires ticketId in b.tickets && !b.tickets[ticketId].refunded
    requires b.events[b.tickets[ticketId].eventId].status == Cancelled
    ensures EscrowOf(b, b.tickets[ticketId].eventId) >= b.tickets[ticketId].escrowShare
    ensures Coherent(AfterRefund(b, ticketId))
  {
    LiveTicketIsFunded(b, ticketId);
    RefundUpdatesBooks(b, AfterRefund(b, ticketId), ticketId);
  }

  /** Stores the admin once; every later call is refused and changes nothing. */
  method Initialize(st: Store, admin: Address) returns (r: Result<(), Error>)
    modifies st`admin, st`initialized
    ensures old(st.initialized) ==> r == Err(AlreadyInitialized) && unchanged(st`admin, st`initialized)
    ensures !old(st.initialized) ==> r == Ok(()) && st.initialized && st.GetAdmin() == Ok(admin)
    ensures old(Consistent(st)) ==> Consistent(st)
  {
    if st.initialized {
      return Err(AlreadyInitialized);
    }
    st.SetAdmin(admin);
    st.SetInitialized();
    return Ok(());
  }

  /** Registers a Draft event under the next event id, after validating the inputs. */
  method CreateEvent(st: Store, organizer: Address, name: string, description: string, location: string,
                     startTime: nat, endTime: nat, ticketPrice: int, maxTickets: nat)
    returns (r: Result<nat, Error>)
    modifies st`eventCounter, st`events
    ensures var v := ValidateEvent(name, description, location, ticketPrice, maxTickets, startTime, endTime);
      v.Err? ==> r == Err(v.error) && unchanged(st`eventCounter, st`events)
    ensures ValidateEvent(name, description, location, ticketPrice, maxTickets, startTime, endTime).Ok? ==>
      && r == Ok(old(st.NextEventId()))
      && st.NextEventId() == r.value + 1
      && st.events == old(st.events)[r.value := Event(r.value, organizer, name, description, location,
                                                      startTime, endTime, ticketPrice, maxTickets, 0, Draft)]
    ensures old(Consistent(st)) ==> Consistent(st)
  {
    var v := ValidateEvent(name, description, location, ticketPrice, maxTickets, startTime, endTime);
    if v.Err? {
      return Err(v.error);
    }
    ghost var before := BooksOf(st);
    var eventId := st.NextEventId();
    st.IncrementEventId();
    var event := Event(eventId, organizer, name, description, location, startTime, endTime,
                       ticketPrice, maxTickets, 0, Draft);
    st.SetEvent(eventId, event);
    if Coherent(before) {
      assert eventId !in old(st.events);
      TallyOfUnreferenced(st.tickets, eventId, st.NextTicketId(), Seats);
      TallyOfUnreferenced(st.tickets, eventId, st.NextTicketId(), Funds);
    }
    return Ok(eventId);
  }

  /** The organizer moves an event along one of the transitions `ValidTransition` accepts. */
  method UpdateEventStatus(st: Store, eventId: nat, newStatus: EventStatus, caller: Address, now: nat)
    returns (r: Result<(), Error>)
    modifies st`events
    ensures eventId !in old(st.events) ==> r == Err(EventNotFound)
    ensures eventId in old(st.events) ==> var e := old(st.events[eventId]);
      r == (if e.organizer != caller then Err(Unauthorized)
            else if !ValidTransition(e.status, newStatus, now, e.endTime) then Err(InvalidStatusTransition)
            else Ok(()))
    ensures r.Err? ==> unchanged(st`events)
    ensures r.Ok? ==> st.events == old(st.events)[eventId := old(st.events[eventId]).(status := newStatus)]
    ensures old(Consistent(st)) ==> Consistent(st)
  {
    var found := st.GetEvent(eventId);
    if found.Err? {
      return Err(found.error);
    }
    var event := found.value;
    if event.organizer != caller {
      return Err(Unauthorized);
    }
    if !ValidTransition(event.status, newStatus, now, event.endTime) {
      return Err(InvalidStatusTransition);
    }
    st.SetEvent(eventId, event.(status := newStatus));
    return Ok(());
  }

  /**
   * Sells a ticket of a Published event that is not sold out, for at least its
   * price: the fee goes to the platform balance, the rest to the event's escrow.
   */
  method PurchaseTicket(st: Store, buyer: Address, eventId: nat, amount: int, now: nat)
    returns (r: Result<nat, Error>)
    modifies st`events, st`escrow, st`platformBalance, st`ticketCounter, st`tickets
    ensures eventId !in old(st.events) ==> r == Err(EventNotFound)
    ensures eventId in old(st.events) ==> var e := old(st.events[eventId]);
      r == (if e.status != Published then Err(InvalidStatusTransition)
            else if e.ticketsSold >= e.maxTickets then Err(EventSoldOut)
            else if amount < e.ticketPrice then Err(InsufficientFunds)
            else Ok(old(st.NextTicketId())))
    ensures r.Err? ==> unchanged(st`events, st`escrow, st`platformBalance, st`ticketCounter, st`tickets)
    ensures r.Ok? ==>
      var e := old(st.events[eventId]);
      var fee := PlatformFee(amount, old(st.GetPlatformFeeBps()));
      && st.events == old(st.events)[eventId := e.(ticketsSold := e.ticketsSold + 1)]
      && st.GetEscrow(eventId) == old(st.GetEscrow(eventId)) + EscrowCredit(amount, old(st.GetPlatformFeeBps()))
      && st.escrow == old(st.escrow)[eventId := st.GetEscrow(eventId)]
      && (fee > 0 ==> st.GetPlatformBalance() == old(st.GetPlatformBalance()) + fee)
      && (fee <= 0 ==> unchanged(st`platformBalance))
      && st.NextTicketId() == r.value + 1
      && st.tickets == old(st.tickets)[r.value := Ticket(r.value, eventId, buyer, now, false, false, amount - fee)]
    ensures old(Consistent(st)) && r.Ok? ==> var e := old(st.events[eventId]);
      st.events[eventId].ticketsSold <= e.maxTickets && 0 <= PlatformFee(amount, old(st.GetPlatformFeeBps())) <= amount
    ensures old(Consistent(st)) ==> Consistent(st)
  {
    ghost var before := BooksOf(st);
    var found := st.GetEvent(eventId);
    if found.Err? {
      return Err(found.error);
    }
    var event := found.value;
    if event.status != Published {
      return Err(InvalidStatusTransition);
    }
    if event.ticketsSold >= event.maxTickets {
      return Err(EventSoldOut);
    }
    if amount < event.ticketPrice {
      return Err(InsufficientFunds);
    }
    var ticketId := RecordSale(st, buyer, eventId, amount, now);
    if Coherent(before) {
      SaleKeepsCoherent(before, eventId, buyer, amount, now);
    }
    return Ok(ticketId);
  }

  /** The writes of a purchase that passed its guards. */
  method RecordSale(st: Store, buyer: Address, eventId: nat, amount: int, now: nat) returns (ticketId: nat)
    requires eventId in st.events
    requires st.events[eventId].status == Published && st.events[eventId].ticketsSold < st.events[eventId].maxTickets
    requires amount >= st.events[eventId].ticketPrice
    modifies st`events, st`escrow, st`platformBalance, st`ticketCounter, st`tickets
    ensures ticketId == old(st.NextTicketId())
    ensures
      var e := old(st.events[eventId]);
      var fee := PlatformFee(amount, old(st.GetPlatformFeeBps()));
      && st.events == old(st.events)[eventId := e.(ticketsSold := e.ticketsSold + 1)]
      && st.GetEscrow(eventId) == old(st.GetEscrow(eventId)) + EscrowCredit(amount, old(st.GetPlatformFeeBps()))
      && st.escrow == old(st.escrow)[eventId := st.GetEscrow(eventId)]
      && (fee > 0 ==> st.GetPlatformBalance() == old(st.GetPlatformBalance()) + fee)
      && (fee <= 0 ==> unchanged(st`platformBalance))
      && st.NextTicketId() == ticketId + 1
      && st.tickets == old(st.tickets)[ticketId := Ticket(ticketId, eventId, buyer, now, false, false, amount - fee)]
    ensures BooksOf(st) == AfterSale(old(BooksOf(st)), eventId, buyer, amount, now)
  {
    var event := st.events[eventId];
    var feeBps := st.GetPlatformFeeBps();
    var platformFee := PlatformFee(amount, feeBps);
    var escrowAmount := amount - platformFee;
    if platformFee > 0 {
      st.AddPlatformBalance(platformFee);
    }
    st.AddEscrow(eventId, escrowAmount);
    st.SetEvent(eventId, event.(ticketsSold := event.ticketsSold + 1));
    ticketId := st.NextTicketId();
    st.IncrementTicketId();
    st.SetTicket(ticketId, Ticket(ticketId, eventId, buyer, now, false, false, escrowAmount));
  }

  /**
   * The organizer checks a ticket in. Refused for a ticket already used and for
   * anyone but its event's organizer (in that order); a refunded ticket is not refused.
   */
  method UseTicket(st: Store, ticketId: nat, caller: Address) returns (r: Result<(), Error>)
    modifies st`tickets
    ensures ticketId !in old(st.tickets) ==> r == Err(TicketNotFound)
    ensures ticketId in old(st.tickets) ==> var t := old(st.tickets[ticketId]);
      r == (if t.used then Err(TicketAlreadyUsed)
            else if t.eventId !in st.events then Err(EventNotFound)
            else if st.events[t.eventId].organizer != caller then Err(Unauthorized)
            else Ok(()))
    ensures r.Err? ==> unchanged(st`tickets)
    ensures r.Ok? ==> st.tickets == old(st.tickets)[ticketId := old(st.tickets[ticketId]).(used := true)]
    ensures old(Consistent(st)) ==> Consistent(st)
  {
    ghost var before := BooksOf(st);
    var found := st.GetTicket(ticketId);
    if found.Err? {
      return Err(found.error);
    }
    var ticket := found.value;
    if ticket.used {
      return Err(TicketAlreadyUsed);
    }
    var parent := st.GetEvent(ticket.eventId);
    if parent.Err? {
      return Err(parent.error);
    }
    if parent.value.organizer != caller {
      return Err(Unauthorized);
    }
    var updated := ticket.(used := true);
    st.SetTicket(ticketId, updated);
    if Coherent(before) {
      ReweighKeepsTallies(old(st.tickets), ticketId, updated, st.NextTicketId());
    }
    return Ok(());
  }

  /** Overwriting a ticket with one of the same weight everywhere leaves every tally as it was. */
  lemma ReweighKeepsTallies(before: map<nat, Ticket>, id: nat, t: Ticket, n: nat)
    requires id in before
    requires forall e, m :: Weight(t, e, m) == Weight(before[id], e, m)
    ensures forall e, m :: Tally(before[id := t], e, n, m) == Tally(before, e, n, m)
  {
    forall e, m ensures Tally(before[id := t], e, n, m) == Tally(before, e, n, m) {
      TallyUpdate(before, e, n, m, id, t);
    }
  }

  /**
   * The owner takes back an unused, unrefunded ticket of a Cancelled event. The
   * refund debits the ticket's own escrow share from the event's escrow, marks it
   * refunded and frees its seat. On a consistent store it never fails for lack of
   * escrow.
   */
  method RefundTicket(st: Store, ticketId: nat, buyer: Address) returns (r: Result<(), Error>)
    modifies st`escrow, st`tickets, st`events
    ensures ticketId !in old(st.tickets) ==> r == Err(TicketNotFound)
    ensures ticketId in old(st.tickets) ==> var t := old(st.tickets[ticketId]);
      r == (if t.owner != buyer then Err(Unauthorized)
            else if t.used then Err(TicketAlreadyUsed)
            else if t.refunded then Err(RefundNotAllowed)
            else if t.eventId !in old(st.events) then Err(EventNotFound)
            else if old(st.events[t.eventId]).status != Cancelled then Err(EventNotCancelled)
            else if old(st.GetEscrow(t.eventId)) < t.escrowShare then Err(InsufficientEscrow)
            else Ok(()))
    ensures r.Err? ==> unchanged(st`escrow, st`tickets, st`events)
    ensures r.Ok? ==> var t := old(st.tickets[ticketId]); var e := old(st.events[t.eventId]);
      && st.escrow == old(st.escrow)[t.eventId := old(st.GetEscrow(t.eventId)) - t.escrowShare]
      && st.tickets == old(st.tickets)[ticketId := t.(refunded := true)]
      && st.events == old(st.events)[t.eventId := e.(ticketsSold := SaturatingSub(e.ticketsSold, 1))]
    ensures old(Consistent(st)) ==> r != Err(InsufficientEscrow) && Consistent(st)
  {
    ghost var before := BooksOf(st);
    var found := st.GetTicket(ticketId);
    if found.Err? {
      return Err(found.error);
    }
    var ticket := found.value;
    if ticket.owner != buyer {
      return Err(Unauthorized);
    }
    if ticket.used {
      return Err(TicketAlreadyUsed);
    }
    if ticket.refunded {
      return Err(RefundNotAllowed);
    }
    var parent := st.GetEvent(ticket.eventId);
    if parent.Err? {
      return Err(parent.error);
    }
    var event := parent.value;
    if event.status != Cancelled {
      return Err(EventNotCancelled);
    }
    if Coherent(before) {
      RefundKeepsCoherent(before, ticketId);
    }
    r := RecordRefund(st, ticketId);
  }

  /** The writes of a refund that passed its guards; only the escrow debit can still fail. */
  method RecordRefund(st: Store, ticketId: nat) returns (r: Result<(), Error>)
    requires ticketId in st.tickets && st.tickets[ticketId].eventId in st.events
    modifies st`escrow, st`tickets, st`events
    ensures var t := old(st.tickets[ticketId]);
      r == (if old(st.GetEscrow(t.eventId)) < t.escrowShare then Err(InsufficientEscrow) else Ok(()))
    ensures r.Err? ==> unchanged(st`escrow, st`tickets, st`events)
    ensures r.Ok? ==> var t := old(st.tickets[ticketId]); var e := old(st.events[t.eventId]);
      && st.escrow == old(st.escrow)[t.eventId := old(st.GetEscrow(t.eventId)) - t.escrowShare]
      && st.tickets == old(st.tickets)[ticketId := t.(refunded := true)]
      && st.events == old(st.events)[t.eventId := e.(ticketsSold := SaturatingSub(e.ticketsSold, 1))]
    ensures r.Ok? ==> BooksOf(st) == AfterRefund(old(BooksOf(st)), ticketId)
  {
    var ticket := st.tickets[ticketId];
    var event := st.events[ticket.eventId];
    var debited := st.DeductEscrow(ticket.eventId, ticket.escrowShare);
    if debited.Err? {
      return Err(debited.error);
    }
    st.SetTicket(ticketId, ticket.(refunded := true));
    st.SetEvent(ticket.eventId, event.(ticketsSold := SaturatingSub(event.ticketsSold, 1)));
    return Ok(());
  }

  /**
   * `refund_ticket` as the source writes it: the same guards, but the debit is the
   * event's full ticket price although the purchase credited only `amount - fee`.
   */
  method RefundTicketAsWritten(st: Store, ticketId: nat, buyer: Address) returns (r: Result<(), Error>)
    modifies st`escrow, st`tickets, st`events
    ensures ticketId !in old(st.tickets) ==> r == Err(TicketNotFound)
    ensures ticketId in old(st.tickets) ==> var t := old(st.tickets[ticketId]);
      r == (if t.owner != buyer then Err(Unauthorized)
            else if t.used then Err(TicketAlreadyUsed)
            else if t.refunded then Err(RefundNotAllowed)
            else if t.eventId !in old(st.events) then Err(EventNotFound)
            else if old(st.events[t.eventId]).status != Cancelled then Err(EventNotCancelled)
            else if old(st.GetEscrow(t.eventId)) < old(st.events[t.eventId]).ticketPrice then Err(InsufficientEscrow)
            else Ok(()))
    ensures r.Err? ==> unchanged(st`escrow, st`tickets, st`events)
    ensures r.Ok? ==> var t := old(st.tickets[ticketId]); var e := old(st.events[t.eventId]);
      && st.escrow == old(st.escrow)[t.eventId := old(st.GetEscrow(t.eventId)) - e.ticketPrice]
      && st.tickets == old(st.tickets)[ticketId := t.(refunded := true)]
      && st.events == old(st.events)[t.eventId := e.(ticketsSold := SaturatingSub(e.ticketsSold, 1))]
  {
    var found := st.GetTicket(ticketId);
    if found.Err? {
      return Err(found.error);
    }
    var ticket := found.value;
    if ticket.owner != buyer {
      return Err(Unauthorized);
    }
    if ticket.used {
      return Err(TicketAlreadyUsed);
    }
    if ticket.refunded {
      return Err(RefundNotAllowed);
    }
    var parent := st.GetEvent(ticket.eventId);
    if parent.Err? {
      return Err(parent.error);
    }
    var event := parent.value;
    if event.status != Cancelled {
      return Err(EventNotCancelled);
    }
    var debited := st.DeductEscrow(ticket.eventId, event.ticketPrice);
    if debited.Err? {
      return Err(debited.error);
    }
    st.SetTicket(ticketId, ticket.(refunded := true));
    st.SetEvent(ticket.eventId, event.(ticketsSold := SaturatingSub(event.ticketsSold, 1)));
    return Ok(());
  }

  /** The organizer cancels a Published event; its escrow stays for the refunds. */
  method CancelEvent(st: Store, organizer: Address, eventId: nat) returns (r: Result<(), Error>)
    modifies st`events
    ensures eventId !in old(st.events) ==> r == Err(EventNotFound)
    ensures eventId in old(st.events) ==> var e := old(st.events[eventId]);
      r == (if e.organizer != organizer then Err(Unauthorized)
            else if e.status != Published then Err(InvalidStatusTransition)
            else Ok(()))
    ensures r.Err? ==> unchanged(st`events)
    ensures r.Ok? ==> st.events == old(st.events)[eventId := old(st.events[eventId]).(status := Cancelled)]
    ensures old(Consistent(st)) ==> Consistent(st)
  {
    var found := st.GetEvent(eventId);
    if found.Err? {
      return Err(found.error);
    }
    var event := found.value;
    if event.organizer != organizer {
      return Err(Unauthorized);
    }
    if event.status != Published {
      return Err(InvalidStatusTransition);
    }
    st.SetEvent(eventId, event.(status := Cancelled));
    return Ok(());
  }

  /** The organizer completes a Published event strictly after its end time. */
  method CompleteEvent(st: Store, organizer: Address, eventId: nat, now: nat) returns (r: Result<(), Error>)
    modifies st`events
    ensures eventId !in old(st.events) ==> r == Err(EventNotFound)
    ensures eventId in old(st.events) ==> var e := old(st.events[eventId]);
      r == (if e.organizer != organizer then Err(Unauthorized)
            else if e.status != Published || now <= e.endTime then Err(InvalidStatusTransition)
            else Ok(()))
    ensures r.Err? ==> unchanged(st`events)
    ensures r.Ok? ==> st.events == old(st.events)[eventId := old(st.events[eventId]).(status := Completed)]
    ensures old(Consistent(st)) ==> Consistent(st)
  {
    var found := st.GetEvent(eventId);
    if found.Err? {
      return Err(found.error);
    }
    var event := found.value;
    if event.organizer != organizer {
      return Err(Unauthorized);
    }
    if event.status != Published {
      return Err(InvalidStatusTransition);
    }
    if now <= event.endTime {
      return Err(InvalidStatusTransition);
    }
    st.SetEvent(eventId, event.(status := Completed));
    return Ok(());
  }

  /**
   * The organizer of a Completed event takes its whole escrow balance, which is
   * then zero; with nothing left the call fails with EscrowAlreadyReleased.
   */
  method ReleaseEscrow(st: Store, organizer: Address, eventId: nat) returns (r: Result<int, Error>)
    modifies st`escrow
    ensures eventId !in st.events ==> r == Err(EventNotFound)
    ensures eventId in st.events ==> var e := st.events[eventId];
      r == (if e.organizer != organizer then Err(Unauthorized)
            else if e.status != Completed then Err(InvalidStatusTransition)
            else if old(st.GetEscrow(eventId)) == 0 then Err(EscrowAlreadyReleased)
            else Ok(old(st.GetEscrow(eventId))))
    ensures r.Err? ==> unchanged(st`escrow)
    ensures r.Ok? ==> st.escrow == old(st.escrow)[eventId := 0] && st.GetEscrow(eventId) == 0
    ensures old(Consistent(st)) && r.Ok? ==> r.value > 0
    ensures old(Consistent(st)) ==> Consistent(st)
  {
    var found := st.GetEvent(eventId);
    if found.Err? {
      return Err(found.error);
    }
    var event := found.value;
    if event.organizer != organizer {
      return Err(Unauthorized);
    }
    if event.status != Completed {
      return Err(InvalidStatusTransition);
    }
    var balance := st.GetEscrow(eventId);
    if balance == 0 {
      return Err(EscrowAlreadyReleased);
    }
    st.ClearEscrow(eventId);
    return Ok(balance);
  }

  /** The seats still for sale: capacity minus tickets sold, never below zero. */
  function GetAvailability(st: Store, eventId: nat): (r: Result<nat, Error>)
    reads st`events
    ensures r.Err? <==> eventId !in st.events
    ensures r.Err? ==> r.error == EventNotFound
    ensures r.Ok? ==> var e := st.events[eventId];
      && r.value <= e.maxTickets
      && (e.ticketsSold <= e.maxTickets ==> r.value + e.ticketsSold == e.maxTickets)
      && (e.ticketsSold >= e.maxTickets ==> r.value == 0)
  {
    match st.GetEvent(eventId)
    case Err(err) => Err(err)
    case Ok(e) => Ok(SaturatingSub(e.maxTickets, e.ticketsSold))
  }

  /** The admin sets the fee, at most 10000 basis points. */
  method SetPlatformFee(st: Store, admin: Address, feeBps: nat) returns (r: Result<(), Error>)
    modifies st`feeBps
    ensures r == (if st.admin.None? then Err(AdminNotSet)
                  else if st.admin.value != admin then Err(Unauthorized)
                  else if feeBps > MaxFeeBps then Err(InvalidPlatformFee)
                  else Ok(()))
    ensures r.Err? ==> unchanged(st`feeBps)
    ensures r.Ok? ==> st.GetPlatformFeeBps() == feeBps
    ensures old(Consistent(st)) ==> Consistent(st)
  {
    var stored := st.GetAdmin();
    if stored.Err? {
      return Err(stored.error);
    }
    if stored.value != admin {
      return Err(Unauthorized);
    }
    if feeBps > MaxFeeBps {
      return Err(InvalidPlatformFee);
    }
    st.SetPlatformFeeBps(feeBps);
    return Ok(());
  }

  /** The admin takes the whole platform balance, which is then zero. */
  method WithdrawPlatformFees(st: Store, admin: Address) returns (r: Result<int, Error>)
    modifies st`platformBalance
    ensures r == (if st.admin.None? then Err(AdminNotSet)
                  else if st.admin.value != admin then Err(Unauthorized)
                  else if old(st.GetPlatformBalance()) == 0 then Err(NoPlatformFees)
                  else Ok(old(st.GetPlatformBalance())))
    ensures r.Err? ==> unchanged(st`platformBalance)
    ensures r.Ok? ==> st.GetPlatformBalance() == 0
    ensures old(Consistent(st)) && r.Ok? ==> r.value > 0
    ensures old(Consistent(st)) ==> Consistent(st)
  {
    var stored := st.GetAdmin();
    if stored.Err? {
      return Err(stored.error);
    }
    if stored.value != admin {
      return Err(Unauthorized);
    }
    var balance := st.GetPlatformBalance();
    if balance == 0 {
      return Err(NoPlatformFees);
    }
    st.ClearPlatformBalance();
    return Ok(balance);
  }

  /** A freshly deployed store satisfies the invariant. */
  lemma EmptyStoreConsistent(st: Store)
    requires st.eventCounter == None && st.ticketCounter == None
    requires st.events == map[] && st.tickets == map[] && st.escrow == map[]
    requires st.feeBps == None && st.platformBalance == None
    ensures Consistent(st)
  {
  }
}
