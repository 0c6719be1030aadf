/**
 * The contract's key-value store. Each key family of the source (the instance
 * entries INIT, ADMIN, EVENT_CTR, TICKET_CTR, PLATFORM_FEE_BPS, PLATFORM_BAL and the
 * persistent prefixes EVENT_, TICKET_, ESCROW_) is one field of `Store`, so a write
 * under one prefix or id cannot reach another: every setter names the single field
 * it modifies and says that only its own key changed.
 */
module Storage {
  import opened Wrappers
  import opened Types

  class Store {
    var initialized: bool
    var admin: Option<Address>
    var eventCounter: Option<nat>
    var ticketCounter: Option<nat>
    var events: map<nat, Event>
    var tickets: map<nat, Ticket>
    var escrow: map<nat, int>
    var feeBps: Option<nat>
    var platformBalance: Option<int>

    /** A freshly deployed contract: every entry absent. */
    constructor()
      ensures !initialized && admin == None
      ensures eventCounter == None && ticketCounter == None
      ensures events == map[] && tickets == map[] && escrow == map[]
      ensures feeBps == None && platformBalance == None
    {
      initialized := false;
      admin := None;
      eventCounter, ticketCounter := None, None;
      events, tickets, escrow := map[], map[], map[];
      feeBps, platformBalance := None, None;
    }

    method SetInitialized()
      modifies this`initialized
      ensures initialized
    {
      initialized := true;
    }

    method SetAdmin(a: Address)
      modifies this`admin
      ensures admin == Some(a) && GetAdmin() == Ok(a)
    {
      admin := Some(a);
    }

    /** Reading the admin of a contract that was never initialized traps the host. */
    function GetAdmin(): (r: Result<Address, Error>)
      reads this`admin
      ensures r.Ok? <==> admin.Some?
      ensures r.Ok? ==> r.value == admin.value
      ensures r.Err? ==> r.error == AdminNotSet
    {
      match admin
      case Some(a) => Ok(a)
      case None => Err(AdminNotSet)
    }

    /** The id the next event will get: 1 until the counter is first written. */
    function NextEventId(): (id: nat)
      reads this`eventCounter
      ensures eventCounter.None? ==> id == 1
      ensures eventCounter.Some? ==> id == eventCounter.value
    {
      eventCounter.GetOr(1)
    }

    method IncrementEventId()
      modifies this`eventCounter
      ensures eventCounter.Some? && NextEventId() == old(NextEventId()) + 1
    {
      var next := NextEventId() + 1;
      eventCounter := Some(next);
    }

    /** The id the next ticket will get: 1 until the counter is first written. */
    function NextTicketId(): (id: nat)
      reads this`ticketCounter
      ensures ticketCounter.None? ==> id == 1
      ensures ticketCounter.Some? ==> id == ticketCounter.value
    {
      ticketCounter.GetOr(1)
    }

    method IncrementTicketId()
      modifies this`ticketCounter
      ensures ticketCounter.Some? && NextTicketId() == old(NextTicketId()) + 1
    {
      var next := NextTicketId() + 1;
      ticketCounter := Some(next);
    }

    method SetEvent(id: nat, e: Event)
      modifies this`events
      ensures events == old(events)[id := e]
      ensures GetEvent(id) == Ok(e)
    {
      events := events[id := e];
    }

    function GetEvent(id: nat): (r: Result<Event, Error>)
      reads this`events
      ensures r.Ok? <==> id in events
      ensures r.Ok? ==> r.value == events[id]
      ensures r.Err? ==> r.error == EventNotFound
    {
      if id in events then Ok(events[id]) else Err(EventNotFound)
    }

    method SetTicket(id: nat, t: Ticket)
      modifies this`tickets
      ensures tickets == old(tickets)[id := t]
      ensures GetTicket(id) == Ok(t)
    {
      tickets := tickets[id := t];
    }

    function GetTicket(id: nat): (r: Result<Ticket, Error>)
      reads this`tickets
      ensures r.Ok? <==> id in tickets
      ensures r.Ok? ==> r.value == tickets[id]
      ensures r.Err? ==> r.error == TicketNotFound
    {
      if id in tickets then Ok(tickets[id]) else Err(TicketNotFound)
    }

    /** An event's escrow balance, 0 while nothing was credited. */
    function GetEscrow(id: nat): (bal: int)
      reads this`escrow
      ensures id !in escrow ==> bal == 0
      ensures id in escrow ==> bal == escrow[id]
    {
      if id in escrow then escrow[id] else 0
    }

    method AddEscrow(id: nat, amount: int)
      modifies this`escrow
      ensures escrow == old(escrow)[id := old(GetEscrow(id)) + amount]
    {
      var current := GetEscrow(id);
      escrow := escrow[id := current + amount];
    }

    /** Debits `amount` unless the balance is smaller, in which case nothing changes. */
    method DeductEscrow(id: nat, amount: int) returns (r: Result<(), Error>)
      modifies this`escrow
      ensures r.Err? <==> old(GetEscrow(id)) < amount
      ensures r.Err? ==> r.error == InsufficientEscrow && escrow == old(escrow)
      ensures r.Ok? ==> escrow == old(escrow)[id := old(GetEscrow(id)) - amount]
      ensures old(GetEscrow(id)) >= 0 ==> GetEscrow(id) >= 0
    {
      var current := GetEscrow(id);
      if current < amount {
        return Err(InsufficientEscrow);
      }
      escrow := escrow[id := current - amount];
      return Ok(());
    }

    method ClearEscrow(id: nat)
      modifies this`escrow
      ensures escrow == old(escrow)[id := 0] && GetEscrow(id) == 0
    {
      escrow := escrow[id := 0];
    }

    method SetPlatformFeeBps(bps: nat)
      modifies this`feeBps
      ensures feeBps == Some(bps) && GetPlatformFeeBps() == bps
    {
      feeBps := Some(bps);
    }

    /** The platform fee in basis points, 0 until the admin sets one. */
    function GetPlatformFeeBps(): (bps: nat)
      reads this`feeBps
      ensures feeBps.None? ==> bps == 0
      ensures feeBps.Some? ==> bps == feeBps.value
    {
      feeBps.GetOr(0)
    }

    method AddPlatformBalance(amount: int)
      modifies this`platformBalance
      ensures platformBalance == Some(old(GetPlatformBalance()) + amount)
    {
      var current := GetPlatformBalance();
      platformBalance := Some(current + amount);
    }

    /** The accumulated platform fees, 0 while nothing was collected. */
    function GetPlatformBalance(): (bal: int)
      reads this`platformBalance
      ensures platformBalance.None? ==> bal == 0
      ensures platformBalance.Some? ==> bal == platformBalance.value
    {
      platformBalance.GetOr(0)
    }

    method ClearPlatformBalance()
      modifies this`platformBalance
      ensures platformBalance == Some(0) && GetPlatformBalance() == 0
    {
      platformBalance := Some(0);
    }
  }
}
