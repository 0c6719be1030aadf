/**
 * The arithmetic of the escrow and fee ledger: the basis-point fee split of a
 * purchase, and the per-event tallies over the ticket table that the contract's
 * counters and escrow balances must agree with.
 */
module Accounting {
  import opened Types

  /** Fees are expressed in basis points: 10000 is the whole amount. */
  const BpsDenominator: int := 10000
  /** The largest fee the admin may set (100%). */
  const MaxFeeBps: nat := 10000

  /** Rust's `/` on signed integers: the quotient rounded toward zero. */
  function TruncDiv(n: int, d: int): (q: int)
    requires d > 0
    ensures 0 <= n ==> 0 <= q * d <= n < q * d + d
    ensures n < 0 ==> n <= q * d <= 0 && q * d < n + d
  {
    if n >= 0 then
      DivisionBounds(n, d);
      n / d
    else
      DivisionBounds(-n, d);
      -((-n) / d)
  }

  lemma DivisionBounds(n: nat, d: int)
    requires d > 0
    ensures 0 <= (n / d) * d <= n < (n / d) * d + d
  {
    var q, r := n / d, n % d;
    assert n == q * d + r && 0 <= r < d;
    assert q >= 0;
    assert q * d >= 0;
  }

  /**
   * The platform's cut of a payment, `amount * bps / 10000` truncated toward zero.
   * With a fee of at most 100% it is a part of the payment; `PlatformFeeIsFloor`
   * says which part.
   */
  function PlatformFee(amount: int, bps: nat): (fee: int)
    ensures 0 <= amount && bps <= MaxFeeBps ==> 0 <= fee <= amount
    ensures 0 <= amount && bps == 0 ==> fee == 0
  {
    if 0 <= amount && bps <= MaxFeeBps then
      TruncatedShareAtMostWhole(amount, bps, MaxFeeBps, BpsDenominator);
      TruncDiv(amount * bps, BpsDenominator)
    else
      TruncDiv(amount * bps, BpsDenominator)
  }

  /** The fee of a non-negative payment is the largest whose basis-point value does not exceed the payment's. */
  lemma PlatformFeeIsFloor(amount: nat, bps: nat)
    ensures PlatformFee(amount, bps) * BpsDenominator <= amount * bps
    ensures amount * bps < (PlatformFee(amount, bps) + 1) * BpsDenominator
  {
    var fee := PlatformFee(amount, bps);
    assert fee * BpsDenominator + BpsDenominator == (fee + 1) * BpsDenominator;
  }

  /** Taking at most `d` parts in `d` of a non-negative amount never exceeds the amount. */
  lemma TruncatedShareAtMostWhole(amount: int, parts: nat, whole: nat, d: int)
    requires 0 <= amount && parts <= whole && d > 0 && whole <= d
    ensures 0 <= TruncDiv(amount * parts, d) <= amount
  {
    var fee := TruncDiv(amount * parts, d);
    MultiplyMonotone(amount, parts, whole);
    MultiplyMonotone(amount, whole, d);
    assert fee * d <= amount * d;
    DivideOutPositive(fee, amount, d);
  }

  lemma MultiplyMonotone(a: nat, x: nat, y: nat)
    requires x <= y
    ensures a * x <= a * y
  {
  }

  lemma DivideOutPositive(x: int, y: int, d: int)
    requires d > 0 && x * d <= y * d
    ensures x <= y
  {
  }

  /** What a purchase leaves in the event's escrow once the fee is taken out. */
  function EscrowCredit(amount: int, bps: nat): (credit: int)
    ensures credit + PlatformFee(amount, bps) == amount
    ensures 0 <= amount && bps <= MaxFeeBps ==> 0 <= credit <= amount
    ensures 0 <= amount && bps == 0 ==> credit == amount
  {
    amount - PlatformFee(amount, bps)
  }

  /** Which quantity a tally adds up over an event's live tickets. */
  datatype Measure = Seats | Funds

  /** A ticket's part in its event's tally: one seat and its escrow share, until refunded. */
  function Weight(t: Ticket, e: nat, m: Measure): int
  {
    if t.eventId != e || t.refunded then 0
    else if m == Seats then 1
    else t.escrowShare
  }

  function WeightAt(tickets: map<nat, Ticket>, id: nat, e: nat, m: Measure): int
  {
    if id in tickets then Weight(tickets[id], e, m) else 0
  }

  /** The sum of the weights of the tickets with ids below `n` that belong to event `e`. */
  function Tally(tickets: map<nat, Ticket>, e: nat, n: nat, m: Measure): int
    decreases n
  {
    if n == 0 then 0 else Tally(tickets, e, n - 1, m) + WeightAt(tickets, n - 1, e, m)
  }

  ghost predicate SharesNonNegative(tickets: map<nat, Ticket>)
  {
    forall id :: id in tickets ==> tickets[id].escrowShare >= 0
  }

  /** Overwriting one ticket changes a tally by the difference of its weights, if it is counted at all. */
  lemma {:induction false} TallyUpdate(tickets: map<nat, Ticket>, e: nat, n: nat, m: Measure, id: nat, t: Ticket)
    ensures Tally(tickets[id := t], e, n, m)
         == Tally(tickets, e, n, m) + (if id < n then Weight(t, e, m) - WeightAt(tickets, id, e, m) else 0)
  {
    if n > 0 {
      TallyUpdate(tickets, e, n - 1, m, id, t);
    }
  }

  lemma {:induction false} TallyNonNegative(tickets: map<nat, Ticket>, e: nat, n: nat, m: Measure)
    requires SharesNonNegative(tickets)
    ensures Tally(tickets, e, n, m) >= 0
  {
    if n > 0 {
      TallyNonNegative(tickets, e, n - 1, m);
    }
  }

  /** A tally is at least the weight of any ticket it counts. */
  lemma {:induction false} TallyCovers(tickets: map<nat, Ticket>, e: nat, n: nat, m: Measure, id: nat)
    requires SharesNonNegative(tickets)
    requires id < n && id in tickets
    ensures Tally(tickets, e, n, m) >= Weight(tickets[id], e, m)
  {
    if id == n - 1 {
      TallyNonNegative(tickets, e, n - 1, m);
    } else {
      TallyCovers(tickets, e, n - 1, m, id);
      assert WeightAt(tickets, n - 1, e, m) >= 0;
    }
  }

  /** An event no ticket refers to has an empty tally. */
  lemma {:induction false} TallyOfUnreferenced(tickets: map<nat, Ticket>, e: nat, n: nat, m: Measure)
    requires forall id :: id in tickets ==> tickets[id].eventId != e
    ensures Tally(tickets, e, n, m) == 0
  {
    if n > 0 {
      TallyOfUnreferenced(tickets, e, n - 1, m);
    }
  }
}
