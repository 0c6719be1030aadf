/**
 * Client walks through the contracts: the flows of the repository's tests and
 * design scenarios, and the two discrepancies recorded in README's Findings.
 * Each method starts from a freshly deployed contract and its postcondition
 * states the outcome of every call it makes.
 */
module Scenarios {
  import opened Wrappers
  import opened Types
  import opened Accounting
  import opened Storage
  import opened Lumentix
  import TicketEscrow
  import Sponsors

  const Organizer: Address := Address(1)
  const Buyer: Address := Address(2)
  const Admin: Address := Address(3)

  /** A fresh contract with one Published event (id 1) ending at time 20. */
  method PublishedEvent(price: int, capacity: nat) returns (st: Store)
    requires price > 0 && capacity > 0
    ensures fresh(st)
    ensures !st.initialized && st.admin == None && st.feeBps == None && st.platformBalance == None
    ensures st.NextEventId() == 2 && st.ticketCounter == None
    ensures st.events == map[1 := Event(1, Organizer, "Gig", "Live set", "Hall", 10, 20, price, capacity, 0, Published)]
    ensures st.tickets == map[] && st.escrow == map[]
    ensures Consistent(st)
  {
    st := new Store();
    EmptyStoreConsistent(st);
    var created := CreateEvent(st, Organizer, "Gig", "Live set", "Hall", 10, 20, price, capacity);
    assert created == Ok(1);
    var published := UpdateEventStatus(st, 1, Published, Organizer, 0);
    assert published == Ok(());
  }

  /** A two-seat event sells two tickets and refuses the third. */
  method SoldOutOnThirdPurchase() returns (first: Result<nat, Error>, second: Result<nat, Error>, third: Result<nat, Error>)
    ensures first == Ok(1) && second == Ok(2) && third == Err(EventSoldOut)
  {
    var st := PublishedEvent(100, 2);
    first := PurchaseTicket(st, Buyer, 1, 100, 11);
    second := PurchaseTicket(st, Buyer, 1, 150, 12);
    third := PurchaseTicket(st, Buyer, 1, 100, 13);
  }

  /** Paying less than the price is refused and sells nothing. */
  method UnderpaymentRefused() returns (r: Result<nat, Error>, available: Result<nat, Error>)
    ensures r == Err(InsufficientFunds)
    ensures available == Ok(3)
  {
    var st := PublishedEvent(100, 3);
    r := PurchaseTicket(st, Buyer, 1, 99, 11);
    available := GetAvailability(st, 1);
  }

  /** The admin is stored by the first call only. */
  method InitializeOnce() returns (first: Result<(), Error>, second: Result<(), Error>, admin: Result<Address, Error>)
    ensures first == Ok(()) && second == Err(AlreadyInitialized) && admin == Ok(Admin)
  {
    var st := new Store();
    first := Initialize(st, Admin);
    second := Initialize(st, Buyer);
    admin := st.GetAdmin();
  }

  /**
   * After a cancellation the buyer is refunded once: the seat is free again, the
   * escrow is empty, and a second refund is refused.
   */
  method RefundOnlyOnce() returns (first: Result<(), Error>, second: Result<(), Error>,
                                   available: Result<nat, Error>, escrowLeft: int)
    ensures first == Ok(()) && second == Err(RefundNotAllowed) && available == Ok(2)
    ensures escrowLeft == 0
  {
    var st := CancelledAfterSale();
    first := RefundTicket(st, 1, Buyer);
    second := RefundTicket(st, 1, Buyer);
    available := GetAvailability(st, 1);
    escrowLeft := st.GetEscrow(1);
  }

  /** The same walk with the refund as written: without a fee it debits the same amount and behaves alike. */
  method RefundOnlyOnceAsWritten() returns (first: Result<(), Error>, second: Result<(), Error>,
                                            available: Result<nat, Error>, escrowLeft: int)
    ensures first == Ok(()) && second == Err(RefundNotAllowed) && available == Ok(2)
    ensures escrowLeft == 0
  {
    var st := CancelledAfterSale();
    first := RefundTicketAsWritten(st, 1, Buyer);
    second := RefundTicketAsWritten(st, 1, Buyer);
    available := GetAvailability(st, 1);
    escrowLeft := st.GetEscrow(1);
  }

  /** A two-seat event priced 100 without a fee, one ticket bought for 100, then the event cancelled. */
  method CancelledAfterSale() returns (st: Store)
    ensures fresh(st)
    ensures st.events == map[1 := Event(1, Organizer, "Gig", "Live set", "Hall", 10, 20, 100, 2, 1, Cancelled)]
    ensures st.tickets == map[1 := Ticket(1, 1, Buyer, 11, false, false, 100)]
    ensures st.escrow == map[1 := 100]
  {
    st := PublishedEvent(100, 2);
    var bought := PurchaseTicket(st, Buyer, 1, 100, 11);
    assert bought == Ok(1);
    var cancelled := CancelEvent(st, Organizer, 1);
    assert cancelled == Ok(());
  }

  /**
   * Completion is refused until the end time has passed; the organizer then takes
   * the whole escrow once, and a second release finds nothing left.
   */
  method CompleteThenRelease() returns (early: Result<(), Error>, done: Result<(), Error>,
                                        released: Result<int, Error>, again: Result<int, Error>)
    ensures early == Err(InvalidStatusTransition) && done == Ok(())
    ensures released == Ok(120) && again == Err(EscrowAlreadyReleased)
  {
    var st := PublishedEvent(100, 2);
    var bought := PurchaseTicket(st, Buyer, 1, 120, 11);
    assert bought == Ok(1);
    early := CompleteEvent(st, Organizer, 1, 20);
    done := CompleteEvent(st, Organizer, 1, 21);
    released := ReleaseEscrow(st, Organizer, 1);
    again := ReleaseEscrow(st, Organizer, 1);
  }

  /** A published event (price 100, two seats) on a contract whose admin set a fee of `bps`. */
  method PublishedWithFee(bps: nat) returns (st: Store)
    requires bps <= MaxFeeBps
    ensures fresh(st)
    ensures st.events == map[1 := Event(1, Organizer, "Gig", "Live set", "Hall", 10, 20, 100, 2, 0, Published)]
    ensures st.tickets == map[] && st.escrow == map[] && st.platformBalance == None
    ensures st.NextTicketId() == 1 && st.NextEventId() == 2
    ensures st.GetPlatformFeeBps() == bps
    ensures Consistent(st)
  {
    st := PublishedEvent(100, 2);
    var init := Initialize(st, Admin);
    var feeSet := SetPlatformFee(st, Admin, bps);
  }

  /** A 2.5% fee is set, one ticket priced 100 is bought for 100, and the event is cancelled. */
  method CancelledAfterFeeSale() returns (st: Store)
    ensures fresh(st)
    ensures st.events == map[1 := Event(1, Organizer, "Gig", "Live set", "Hall", 10, 20, 100, 2, 1, Cancelled)]
    ensures st.tickets == map[1 := Ticket(1, 1, Buyer, 11, false, false, 98)]
    ensures st.escrow == map[1 := 98]
    ensures st.GetPlatformBalance() == 2
    ensures Consistent(st)
  {
    st := SoldWithFee();
    var cancelled := CancelEvent(st, Organizer, 1);
    assert cancelled == Ok(());
  }

  /** A 2.5% fee is set and one ticket priced 100 is bought for 100: 2 go to the platform, 98 to escrow. */
  method SoldWithFee() returns (st: Store)
    ensures fresh(st)
    ensures st.events == map[1 := Event(1, Organizer, "Gig", "Live set", "Hall", 10, 20, 100, 2, 1, Published)]
    ensures st.tickets == map[1 := Ticket(1, 1, Buyer, 11, false, false, 98)]
    ensures st.escrow == map[1 := 98]
    ensures st.GetPlatformBalance() == 2
    ensures Consistent(st)
  {
    st := PublishedWithFee(250);
    FeeOnHundred();
    var bought := PurchaseTicket(st, Buyer, 1, 100, 11);
    assert bought == Ok(1);
  }

  /** 250 basis points of 100 is 2.5, truncated to 2. */
  lemma FeeOnHundred()
    ensures PlatformFee(100, 250) == 2 && EscrowCredit(100, 250) == 98
  {
    PlatformFeeIsFloor(100, 250);
  }

  /**
   * With a 2.5% fee a ticket priced 100 bought for 100 leaves 98 in escrow. The
   * refund as written debits the full price and fails; the corrected refund
   * debits the ticket's share and empties the escrow.
   */
  method RefundAfterFeeFinding() returns (asWritten: Result<(), Error>, corrected: Result<(), Error>, escrowLeft: int)
    ensures asWritten == Err(InsufficientEscrow)
    ensures corrected == Ok(())
    ensures escrowLeft == 0
  {
    var st := CancelledAfterFeeSale();
    asWritten := RefundTicketAsWritten(st, 1, Buyer);
    corrected := RefundTicket(st, 1, Buyer);
    escrowLeft := st.GetEscrow(1);
  }

  /** `use_ticket` does not look at `refunded`: a refunded ticket can still be checked in. */
  method UseAfterRefund() returns (used: Result<(), Error>, ticket: Result<Ticket, Error>)
    ensures used == Ok(())
    ensures ticket.Ok? && ticket.value.used && ticket.value.refunded
  {
    var st := PublishedEvent(100, 2);
    var bought := PurchaseTicket(st, Buyer, 1, 100, 11);
    assert bought == Ok(1);
    var cancelled := CancelEvent(st, Organizer, 1);
    assert cancelled == Ok(());
    var refunded := RefundTicket(st, 1, Buyer);
    assert refunded == Ok(());
    used := UseTicket(st, 1, Organizer);
    ticket := st.GetTicket(1);
  }

  /** Only the owner may transfer, and only while the ticket is unused. */
  method TransferRules() returns (stranger: Result<TicketEscrow.Ticket, string>, owner: Result<TicketEscrow.Ticket, string>,
                                  afterUse: Result<TicketEscrow.Ticket, string>)
    ensures stranger == Err(TicketEscrow.NotOwnerMsg)
    ensures owner.Ok? && owner.value.owner == Admin && !owner.value.isUsed
    ensures afterUse == Err(TicketEscrow.AlreadyUsedMsg)
  {
    var c := new TicketEscrow.TicketContract();
    var issued := c.IssueTicket("T1", "EVT", Buyer);
    stranger := c.TransferTicket("T1", Organizer, Admin);
    owner := c.TransferTicket("T1", Buyer, Admin);
    var marked := c.MarkTicketUsed("T1");
    afterUse := c.TransferTicket("T1", Admin, Buyer);
  }

  /**
   * Two signers with threshold 2: one approval (given twice) is not enough; once
   * both approve the release succeeds and both approvals are consumed.
   */
  method MultisigRelease() returns (early: Result<(), string>, late: Result<(), string>,
                                    left: set<(string, Address)>)
    ensures early == Err(TicketEscrow.ThresholdNotMetMsg)
    ensures late == Ok(())
    ensures left == {}
  {
    var s1, s2 := Address(10), Address(11);
    var c := new TicketEscrow.TicketContract();
    var configured := c.SetEscrowSigners("EVT", [s1, s2], 2);
    var a1 := c.ApproveRelease("EVT", s1);
    var a1again := c.ApproveRelease("EVT", s1);
    assert TicketEscrow.ApprovedSigners(c.approvals, "EVT", [s1, s2]) == {s1};
    early := c.DistributeEscrow("EVT", Organizer);
    var a2 := c.ApproveRelease("EVT", s2);
    assert TicketEscrow.ApprovedSigners(c.approvals, "EVT", [s1, s2]) == {s1, s2};
    late := c.DistributeEscrow("EVT", Organizer);
    left := c.approvals;
  }

  /** The same walk with the release as written: with no repeated signer the per-position count agrees. */
  method MultisigReleaseAsWritten() returns (early: Result<(), string>, late: Result<(), string>,
                                             left: set<(string, Address)>)
    ensures early == Err(TicketEscrow.ThresholdNotMetMsg)
    ensures late == Ok(())
    ensures left == {}
  {
    var s1, s2 := Address(10), Address(11);
    var c := new TicketEscrow.TicketContract();
    var configured := c.SetEscrowSigners("EVT", [s1, s2], 2);
    var a1 := c.ApproveRelease("EVT", s1);
    var a1again := c.ApproveRelease("EVT", s1);
    assert TicketEscrow.ApprovalCount(c.approvals, "EVT", [s1, s2]) == 1;
    early := c.DistributeEscrowAsWritten("EVT", Organizer);
    var a2 := c.ApproveRelease("EVT", s2);
    assert TicketEscrow.ApprovalCount(c.approvals, "EVT", [s1, s2]) == 2;
    late := c.DistributeEscrowAsWritten("EVT", Organizer);
    left := c.approvals;
  }

  /**
   * A signer configured twice with threshold 2: the release as written succeeds
   * on that signer's single approval, the corrected release refuses it.
   */
  method DuplicateSignerFinding() returns (corrected: Result<(), string>, asWritten: Result<(), string>)
    ensures corrected == Err(TicketEscrow.ThresholdNotMetMsg)
    ensures asWritten == Ok(())
  {
    var s1 := Address(10);
    var c := new TicketEscrow.TicketContract();
    var configured := c.SetEscrowSigners("EVT", [s1, s1], 2);
    var approved := c.ApproveRelease("EVT", s1);
    assert c.approvals == {("EVT", s1)};
    TicketEscrow.DuplicateSignerCountsTwice("EVT", s1);
    corrected := c.DistributeEscrow("EVT", Organizer);
    asWritten := c.DistributeEscrowAsWritten("EVT", Organizer);
  }

  /** A two-sponsor tier takes two exact payments, then refuses a third; a wrong amount is refused. */
  method SponsorTierFlow() returns (afterOne: nat, afterTwo: nat, full: Result<(), string>, wrong: Result<(), string>)
    ensures afterOne == 1 && afterTwo == 2
    ensures full == Err(Sponsors.TierFullMsg)
    ensures wrong == Err(Sponsors.IncorrectAmountMsg)
  {
    var reg := new Sponsors.SponsorRegistry();
    reg.RegisterSponsorTier("event1", "tierA", 100, 2);
    var c1 := reg.Contribute("event1", "tierA", Address(20), 100);
    afterOne := reg.GetTierContributions("event1", "tierA").0;
    var c2 := reg.Contribute("event1", "tierA", Address(21), 100);
    afterTwo := reg.GetTierContributions("event1", "tierA").0;
    full := reg.Contribute("event1", "tierA", Address(22), 100);
    reg.RegisterSponsorTier("e3", "tY", 123, 2);
    wrong := reg.Contribute("e3", "tY", Address(23), 1);
  }

  /** Registering a tier again resets its count but not its list, so the list can outgrow the capacity. */
  method ReRegisterKeepsList() returns (recorded: nat)
    ensures recorded == 2
  {
    var reg := new Sponsors.SponsorRegistry();
    reg.RegisterSponsorTier("e2", "tX", 50, 1);
    var c1 := reg.Contribute("e2", "tX", Address(20), 50);
    reg.RegisterSponsorTier("e2", "tX", 50, 1);
    var c2 := reg.Contribute("e2", "tX", Address(21), 50);
    assert c2 == Ok(());
    recorded := reg.GetTierContributions("e2", "tX").0;
  }
}
