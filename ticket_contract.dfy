/**
 * The second ticket contract: tickets keyed by symbol that only their owner can
 * transfer while unused, and a multisig policy for releasing an event's escrow.
 * Every failure of this contract is a host panic; the model returns it as `Err`
 * with the panic message, and a failed call writes nothing.
 */
module TicketEscrow {
  import opened Wrappers
  import Types

  type Address = Types.Address
  type Symbol = string

  datatype Ticket = Ticket(id: Symbol, eventId: Symbol, owner: Address, isUsed: bool)

  /** The signers of an event's escrow and how many of them must approve a release. */
  datatype EscrowConfig = EscrowConfig(eventId: Symbol, signers: seq<Address>, threshold: nat)

  const TicketNotFoundMsg: string := "Ticket not found"
  const NotOwnerMsg: string := "Unauthorized: not ticket owner"
  const AlreadyUsedMsg: string := "Cannot transfer: ticket has already been used"
  const InvalidThresholdMsg: string := "Invalid threshold: must be > 0 and <= number of signers"
  const ConfigNotFoundMsg: string := "Escrow config not found"
  const NotSignerMsg: string := "Unauthorized: signer not in escrow group"
  const ThresholdNotMetMsg: string := "Threshold not met for escrow release"

  /**
   * The approvals that count toward the threshold as the source counts them: one
   * per position of `signers` whose signer has an approval recorded, so a signer
   * listed twice counts twice.
   */
  function ApprovalCount(approvals: set<(Symbol, Address)>, eventId: Symbol, signers: seq<Address>): (n: nat)
    ensures n <= |signers|
    ensures n == 0 <== forall s :: s in signers ==> (eventId, s) !in approvals
  {
    if signers == [] then 0
    else ApprovalCount(approvals, eventId, signers[..|signers| - 1])
         + (if (eventId, signers[|signers| - 1]) in approvals then 1 else 0)
  }

  /** The distinct configured signers that currently approve. */
  function ApprovedSigners(approvals: set<(Symbol, Address)>, eventId: Symbol, signers: seq<Address>): (s: set<Address>)
    ensures forall a :: a in s <==> a in signers && (eventId, a) in approvals
  {
    set a | a in signers && (eventId, a) in approvals
  }

  /** The approval entries of an event for the given signers. */
  function ApprovalKeys(eventId: Symbol, signers: seq<Address>): (keys: set<(Symbol, Address)>)
    ensures forall k :: k in keys <==> k.0 == eventId && k.1 in signers
  {
    set a | a in signers :: (eventId, a)
  }

  predicate NoDuplicates(xs: seq<Address>)
  {
    forall i, j :: 0 <= i < j < |xs| ==> xs[i] != xs[j]
  }

  /** Counting by position and counting distinct approving signers agree when no signer is listed twice. */
  lemma {:induction false} CountsAgreeWithoutDuplicates(approvals: set<(Symbol, Address)>, eventId: Symbol, signers: seq<Address>)
    requires NoDuplicates(signers)
    ensures ApprovalCount(approvals, eventId, signers) == |ApprovedSigners(approvals, eventId, signers)|
  {
    if signers != [] {
      var init, last := signers[..|signers| - 1], signers[|signers| - 1];
      assert NoDuplicates(init);
      CountsAgreeWithoutDuplicates(approvals, eventId, init);
      assert last !in init;
      ApprovedSignersExtend(approvals, eventId, init, last);
      assert signers == init + [last];
    }
  }

  /** Appending a signer adds it to the distinct approvers exactly when it approves and is new. */
  lemma ApprovedSignersExtend(approvals: set<(Symbol, Address)>, eventId: Symbol, xs: seq<Address>, x: Address)
    ensures var before, after := ApprovedSigners(approvals, eventId, xs), ApprovedSigners(approvals, eventId, xs + [x]);
      |after| == |before| + (if (eventId, x) in approvals && x !in xs then 1 else 0)
  {
    var before, after := ApprovedSigners(approvals, eventId, xs), ApprovedSigners(approvals, eventId, xs + [x]);
    if (eventId, x) in approvals && x !in xs {
      assert after == before + {x};
    } else {
      assert after == before;
    }
  }

  /** A signer listed twice is counted twice: one approval meets a threshold of two. */
  lemma DuplicateSignerCountsTwice(eventId: Symbol, a: Address)
    ensures ApprovalCount({(eventId, a)}, eventId, [a, a]) == 2
    ensures |ApprovedSigners({(eventId, a)}, eventId, [a, a])| == 1
  {
    assert [a, a][..1] == [a];
    assert ApprovedSigners({(eventId, a)}, eventId, [a, a]) == {a};
  }

  class TicketContract {
    var tickets: map<Symbol, Ticket>
    var configs: map<Symbol, EscrowConfig>
    var approvals: set<(Symbol, Address)>

    constructor()
      ensures tickets == map[] && configs == map[] && approvals == {}
    {
      tickets, configs, approvals := map[], map[], {};
    }

    /** Stores an unused ticket under `ticketId`, replacing any ticket stored there. */
    method IssueTicket(ticketId: Symbol, eventId: Symbol, owner: Address) returns (t: Ticket)
      modifies this`tickets
      ensures t.id == ticketId && t.eventId == eventId && t.owner == owner && !t.isUsed
      ensures tickets == old(tickets)[ticketId := t]
      ensures GetTicket(ticketId) == Some(t)
    {
      t := Ticket(ticketId, eventId, owner, false);
      tickets := tickets[ticketId := t];
    }

    function GetTicket(ticketId: Symbol): (r: Option<Ticket>)
      reads this`tickets
      ensures r.Some? <==> ticketId in tickets
      ensures r.Some? ==> r.value == tickets[ticketId]
    {
      if ticketId in tickets then Some(tickets[ticketId]) else None
    }

    /** The owner hands an unused ticket to `to`; nothing but the owner changes. */
    method TransferTicket(ticketId: Symbol, from: Address, to: Address) returns (r: Result<Ticket, string>)
      modifies this`tickets
      ensures ticketId !in old(tickets) ==> r == Err(TicketNotFoundMsg)
      ensures ticketId in old(tickets) ==> var t := old(tickets[ticketId]);
        && (t.owner != from ==> r == Err(NotOwnerMsg))
        && (t.owner == from && t.isUsed ==> r == Err(AlreadyUsedMsg))
        && (t.owner == from && !t.isUsed ==> r.Ok?)
      ensures r.Err? ==> unchanged(this`tickets)
      ensures r.Ok? ==> var t := old(tickets[ticketId]);
        && r.value.id == t.id && r.value.eventId == t.eventId && !r.value.isUsed
        && r.value.owner == to
        && tickets == old(tickets)[ticketId := r.value]
    {
      if ticketId !in tickets {
        return Err(TicketNotFoundMsg);
      }
      var ticket := tickets[ticketId];
      if ticket.owner != from {
        return Err(NotOwnerMsg);
      }
      if ticket.isUsed {
        return Err(AlreadyUsedMsg);
      }
      var updated := Ticket(ticket.id, ticket.eventId, to, ticket.isUsed);
      tickets := tickets[ticketId := updated];
      return Ok(updated);
    }

    /** Marks a stored ticket used, keeping its id, event and owner; no caller check. */
    method MarkTicketUsed(ticketId: Symbol) returns (r: Result<Ticket, string>)
      modifies this`tickets
      ensures ticketId !in old(tickets) ==> r == Err(TicketNotFoundMsg) && unchanged(this`tickets)
      ensures ticketId in old(tickets) ==> var t := old(tickets[ticketId]);
        && r == Ok(t.(isUsed := true))
        && tickets == old(tickets)[ticketId := t.(isUsed := true)]
    {
      if ticketId !in tickets {
        return Err(TicketNotFoundMsg);
      }
      var ticket := tickets[ticketId];
      var used := Ticket(ticket.id, ticket.eventId, ticket.owner, true);
      tickets := tickets[ticketId := used];
      return Ok(used);
    }

    /** Configures an event's signers, refusing a threshold of 0 or above the list's length. */
    method SetEscrowSigners(eventId: Symbol, signers: seq<Address>, threshold: nat) returns (r: Result<(), string>)
      modifies this`configs
      ensures r.Err? <==> threshold == 0 || threshold > |signers|
      ensures r.Err? ==> r.error == InvalidThresholdMsg && unchanged(this`configs)
      ensures r.Ok? ==> configs == old(configs)[eventId := EscrowConfig(eventId, signers, threshold)]
    {
      if threshold == 0 || threshold > |signers| {
        return Err(InvalidThresholdMsg);
      }
      configs := configs[eventId := EscrowConfig(eventId, signers, threshold)];
      return Ok(());
    }

    /** A configured signer records an approval; approving again changes nothing. */
    method ApproveRelease(eventId: Symbol, signer: Address) returns (r: Result<(), string>)
      modifies this`approvals
      ensures eventId !in configs ==> r == Err(ConfigNotFoundMsg)
      ensures eventId in configs && signer !in configs[eventId].signers ==> r == Err(NotSignerMsg)
      ensures eventId in configs && signer in configs[eventId].signers ==> r == Ok(())
      ensures r.Err? ==> unchanged(this`approvals)
      ensures r.Ok? ==> approvals == old(approvals) + {(eventId, signer)}
      ensures old((eventId, signer) in approvals) ==> unchanged(this`approvals)
    {
      if eventId !in configs {
        return Err(ConfigNotFoundMsg);
      }
      var config := configs[eventId];
      if signer !in config.signers {
        return Err(NotSignerMsg);
      }
      assert (eventId, signer) in approvals ==> approvals + {(eventId, signer)} == approvals;
      approvals := approvals + {(eventId, signer)};
      return Ok(());
    }

    /** Removes the signer's approval if there is one; a no-op otherwise. */
    method RevokeApproval(eventId: Symbol, signer: Address)
      modifies this`approvals
      ensures approvals == old(approvals) - {(eventId, signer)}
      ensures (eventId, signer) !in approvals
      ensures old((eventId, signer) !in approvals) ==> unchanged(this`approvals)
    {
      assert (eventId, signer) !in approvals ==> approvals - {(eventId, signer)} == approvals;
      approvals := approvals - {(eventId, signer)};
    }

    /**
     * `distribute_escrow` as the source writes it: it counts approvals by position
     * in the signer list, so a signer listed twice counts twice. On success every
     * configured signer's approval is removed.
     */
    method DistributeEscrowAsWritten(eventId: Symbol, destination: Address) returns (r: Result<(), string>)
      modifies this`approvals
      ensures eventId !in configs ==> r == Err(ConfigNotFoundMsg)
      ensures eventId in configs ==> var c := configs[eventId];
        r == (if ApprovalCount(old(approvals), eventId, c.signers) < c.threshold then Err(ThresholdNotMetMsg) else Ok(()))
      ensures r.Err? ==> unchanged(this`approvals)
      ensures r.Ok? ==> approvals == old(approvals) - ApprovalKeys(eventId, configs[eventId].signers)
    {
      if eventId !in configs {
        return Err(ConfigNotFoundMsg);
      }
      var config := configs[eventId];
      var approvalCount := 0;
      var i := 0;
      while i < |config.signers|
        invariant 0 <= i <= |config.signers|
        invariant approvals == old(approvals)
        invariant approvalCount == ApprovalCount(approvals, eventId, config.signers[..i])
      {
        assert config.signers[..i + 1][..i] == config.signers[..i];
        if (eventId, config.signers[i]) in approvals {
          approvalCount := approvalCount + 1;
        }
        i := i + 1;
      }
      assert config.signers[..i] == config.signers;
      if approvalCount < config.threshold {
        return Err(ThresholdNotMetMsg);
      }
      ClearApprovals(eventId, config.signers);
      return Ok(());
    }

    /**
     * The release gate with the threshold counted over distinct signers: it
     * succeeds only when at least `threshold` different configured signers approve,
     * and then removes every configured signer's approval.
     */
    method DistributeEscrow(eventId: Symbol, destination: Address) returns (r: Result<(), string>)
      modifies this`approvals
      ensures eventId !in configs ==> r == Err(ConfigNotFoundMsg)
      ensures eventId in configs ==> var c := configs[eventId];
        r == (if |ApprovedSigners(old(approvals), eventId, c.signers)| < c.threshold then Err(ThresholdNotMetMsg) else Ok(()))
      ensures r.Err? ==> unchanged(this`approvals)
      ensures r.Ok? ==> approvals == old(approvals) - ApprovalKeys(eventId, configs[eventId].signers)
      ensures r.Ok? ==> forall s :: s in configs[eventId].signers ==> (eventId, s) !in approvals
    {
      if eventId !in configs {
        return Err(ConfigNotFoundMsg);
      }
      var config := configs[eventId];
      var approvalCount := 0;
      var i := 0;
      while i < |config.signers|
        invariant 0 <= i <= |config.signers|
        invariant approvals == old(approvals)
        invariant approvalCount == |ApprovedSigners(approvals, eventId, config.signers[..i])|
      {
        var signer := config.signers[i];
        assert config.signers[..i + 1] == config.signers[..i] + [signer];
        ApprovedSignersExtend(approvals, eventId, config.signers[..i], signer);
        if (eventId, signer) in approvals && signer !in config.signers[..i] {
          approvalCount := approvalCount + 1;
        }
        i := i + 1;
      }
      assert config.signers[..i] == config.signers;
      if approvalCount < config.threshold {
        return Err(ThresholdNotMetMsg);
      }
      ClearApprovals(eventId, config.signers);
      return Ok(());
    }

    /** The second loop of `distribute_escrow`: removes the approval of each listed signer. */
    method ClearApprovals(eventId: Symbol, signers: seq<Address>)
      modifies this`approvals
      ensures approvals == old(approvals) - ApprovalKeys(eventId, signers)
    {
      var i := 0;
      while i < |signers|
        invariant 0 <= i <= |signers|
        invariant approvals == old(approvals) - ApprovalKeys(eventId, signers[..i])
      {
        assert signers[..i + 1] == signers[..i] + [signers[i]];
        approvals := approvals - {(eventId, signers[i])};
        i := i + 1;
      }
      assert signers[..i] == signers;
    }
  }
}
