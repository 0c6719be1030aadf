# Lumentix ticketing contracts — a verified Dafny model

This project models the on-chain core of the Lumentix event-ticketing platform and
proves properties of it. It also covers the audit-log CSV export of its backend.

- **`Lumentix`** (`lumentix.dfy`) is the main ticketing contract:
  - events move through Draft → Published → Cancelled | Completed;
  - tickets are bought, checked in and refunded;
  - each purchase is split into a basis-point platform fee and an escrow credit;
  - each event has its own escrow balance, and the platform has one fee balance;
  - admin and organizer checks guard the writes.

  Every entry point is a method on the contract's store. The authenticated
  invoker is an explicit address parameter and the ledger clock is a `now`
  parameter. Each method states every error it returns and that a failed call
  writes nothing. It also states the exact new store on success. Every entry
  point except `RefundTicketAsWritten` also states that it preserves `Consistent`,
  the bookkeeping invariant. The as-written refund can break it; see the first
  row under Findings. The invariant says:
  - each event's `ticketsSold` equals the number of its unrefunded tickets;
  - until the event is completed, its escrow balance equals the sum of those
    tickets' escrow shares;
  - balances are never negative, and the fee is at most 10000 basis points.
- **`Storage`** (`storage.dfy`) is the typed key-value store. Each key family is
  one field of class `Store`, and each setter modifies only its own field. Id
  counters default to 1. The escrow add/deduct/clear operations and the
  platform-balance operations live here.
- **`Accounting`** (`accounting.dfy`) holds the fee arithmetic:
  - Rust's truncating `/`;
  - `fee = amount * bps / 10000`, proved to be the floor of the exact share;
  - the escrow credit `amount - fee`.

  It also defines the per-event tallies over the ticket table that the invariant
  compares the counters with. The lemmas `TallyUpdate`, `TallyCovers`,
  `TallyNonNegative` and `TallyOfUnreferenced` are the induction steps that the
  invariant proofs use.
- **`TicketEscrow`** (`ticket_contract.dfy`) is the second ticket contract:
  - symbol-keyed tickets that only their owner can transfer, and only while unused;
  - a multisig policy for releasing an event's escrow (signers, threshold,
    approve, revoke, distribute).

  Host panics are returned as `Err` with the panic message.
- **`Sponsors`** (`sponsors.dfy`) covers sponsor tiers. Each tier has an exact
  price and a capacity, and its sponsor list grows by one for each accepted
  contribution.
- **`AuditCsv`** (`audit_csv.dfy`) is the audit-log CSV encoder:
  - a header line, then one record per log;
  - every field quoted with embedded quotes doubled (section 2, rules 5 to 7 of RFC 4180);
  - records separated by `"\n"`.

  A decoder is defined beside it, and the export is proved to decode back to the
  header names and each log's six fields, in order.
- **`Scenarios`** (`scenarios.dfy`) are client walks through the contracts. They
  follow the repository's test flows and exhibit the findings below.

Where the model departs from the code or fills a gap:
- `create_event` calls validators in `contract/src/validation.rs`, which is not
  part of this model. Their order is taken from the call sites. The error names
  `EmptyString`, `InvalidAmount`, `InvalidCapacity` and `InvalidTimeRange` are
  this model's own. The time check is taken as `start < end`.
- `get_admin` unwraps, so a missing admin traps the host; it is modelled as the
  error `AdminNotSet`.
- `get_escrow` returns a `Result` that is always `Ok`; it is modelled as a plain
  balance with default 0.
- The read-only entry points `get_event`, `get_ticket_info`, `get_platform_fee`
  and `get_platform_balance` only forward to storage. They are the `Store`
  getters.
- The ticket record has one field the source's ticket lacks: `escrowShare`,
  the amount its purchase credited to escrow (`amount - fee`). Every purchase
  writes it. Only the corrected refund and the invariant read it; the refund as
  written ignores it and debits the event's price.
- `use_ticket` does not check `refunded`, and the model keeps that:
  `Scenarios.UseAfterRefund` checks in a refunded ticket.
- `register_sponsor_tier` on an existing tier resets its count but keeps its
  sponsor list. `Scenarios.ReRegisterKeepsList` shows the list growing past the
  tier's capacity.

## Model

| member | source | states |
|---|---|---|
| Storage.Store.SetInitialized | contract/src/storage.rs:29-34 | the initialized flag is set |
| Storage.Store.SetAdmin | contract/src/storage.rs:37-42 | the stored admin is the given address and reads back as it |
| Storage.Store.GetAdmin | contract/src/storage.rs:45-51 | the stored admin, or the trap `AdminNotSet` when none was stored |
| Storage.Store.NextEventId | contract/src/storage.rs:71-77 | the next event id is the counter, or 1 when it is absent |
| Storage.Store.IncrementEventId | contract/src/storage.rs:80-86 | the counter is written and the next event id grows by exactly 1 |
| Storage.Store.NextTicketId | contract/src/storage.rs:89-99 | the next ticket id is the counter, or 1 when it is absent |
| Storage.Store.IncrementTicketId | contract/src/storage.rs:102-108 | the counter is written and the next ticket id grows by exactly 1 |
| Storage.Store.SetEvent | contract/src/storage.rs:111-117 | only this id's event entry changes; reading it back gives the stored event |
| Storage.Store.GetEvent | contract/src/storage.rs:120-131 | Ok with the stored event exactly when the id is present, else `EventNotFound` |
| Storage.Store.SetTicket | contract/src/storage.rs:134-140 | only this id's ticket entry changes; reading it back gives the stored ticket |
| Storage.Store.GetTicket | contract/src/storage.rs:143-154 | Ok with the stored ticket exactly when the id is present, else `TicketNotFound` |
| Storage.Store.AddEscrow | contract/src/storage.rs:157-164 | the event's balance becomes its old balance (0 if absent) plus the amount; no other entry changes |
| Storage.Store.GetEscrow | contract/src/storage.rs:167-174 | the event's balance, 0 when absent |
| Storage.Store.DeductEscrow | contract/src/storage.rs:177-190 | fails with `InsufficientEscrow` exactly when the balance is below the amount, leaving it unchanged; otherwise debits it; a non-negative balance stays non-negative |
| Storage.Store.ClearEscrow | contract/src/storage.rs:193-199 | the event's balance is exactly 0 |
| Storage.Store.SetPlatformFeeBps | contract/src/storage.rs:202-207 | the fee reads back as the value set |
| Storage.Store.GetPlatformFeeBps | contract/src/storage.rs:210-216 | the stored fee, 0 when none was set |
| Storage.Store.AddPlatformBalance | contract/src/storage.rs:219-227 | the balance becomes the old balance (0 if absent) plus the amount |
| Storage.Store.GetPlatformBalance | contract/src/storage.rs:230-236 | the stored balance, 0 when absent |
| Storage.Store.ClearPlatformBalance | contract/src/storage.rs:239-244 | the balance is exactly 0 |
| Accounting.TruncDiv | contract/src/lumentix_contract.rs:141 | the quotient rounds toward zero: for n ≥ 0, q·d ≤ n < q·d + d; for n < 0, n ≤ q·d ≤ 0 |
| Accounting.PlatformFee | contract/src/lumentix_contract.rs:140-141 | for a non-negative amount and a fee of at most 10000 bps the fee lies between 0 and the amount; a 0 bps fee is 0 |
| Accounting.PlatformFeeIsFloor | contract/src/lumentix_contract.rs:141 | the fee is the largest integer whose 10000-fold does not exceed amount·bps |
| Accounting.EscrowCredit | contract/src/lumentix_contract.rs:142 | credit plus fee is the whole amount; the credit lies between 0 and the amount; with no fee it is the amount |
| Lumentix.ValidTransition | contract/src/lumentix_contract.rs:91-99 | accepted transitions only move forward and never leave a terminal status; from Draft exactly to Published; from Published to Cancelled at any time, and to Completed exactly when the end time has passed |
| Lumentix.TransitionsAreIrreversible | contract/src/lumentix_contract.rs:91-99 | no accepted transition can be undone by another |
| Lumentix.ValidateEvent | contract/src/lumentix_contract.rs:43-48 | accepts exactly non-empty texts, a positive price, a positive capacity and start before end; otherwise the error of the first failing check, in the order texts, price, capacity, time range |
| Lumentix.SaturatingSub | contract/src/lumentix_contract.rs:236 | the difference when it is not negative, else 0 |
| Lumentix.Initialize | contract/src/lumentix_contract.rs:16-25 | the first call stores the admin; every later call fails with `AlreadyInitialized` and changes nothing; keeps the invariant |
| Lumentix.CreateEvent | contract/src/lumentix_contract.rs:29-70 | on invalid input returns the validation error and writes nothing, not even the counter; otherwise stores a Draft event with no tickets sold under the current counter value, advances the counter by one, and keeps the invariant |
| Lumentix.UpdateEventStatus | contract/src/lumentix_contract.rs:75-109 | `EventNotFound`, then `Unauthorized` for anyone but the organizer, then `InvalidStatusTransition` for a transition `ValidTransition` refuses; on success only the status changes; keeps the invariant |
| Lumentix.PurchaseTicket | contract/src/lumentix_contract.rs:114-172 | errors in source order (not Published, sold out, underpaid) with no writes; on success seats sold +1 (so still ≤ capacity), escrow + (amount − fee), platform balance + fee when the fee is positive, a fresh unused unrefunded ticket under the next id; keeps the invariant |
| Lumentix.UseTicket | contract/src/lumentix_contract.rs:176-195 | `TicketAlreadyUsed` for a used ticket, `Unauthorized` for anyone but the organizer; otherwise only `used` becomes true; a refunded ticket is not refused; keeps the invariant |
| Lumentix.RefundTicketAsWritten | contract/src/lumentix_contract.rs:200-239 | the source's guards in order; debits the event's ticket price from escrow or fails with `InsufficientEscrow` and no writes; marks the ticket refunded and decrements seats sold, saturating at 0 |
| Lumentix.RefundTicket | contract/src/lumentix_contract.rs:200-239 | the same guards and writes, but debits the ticket's own escrow share; on a consistent store it never fails with `InsufficientEscrow` and keeps the invariant |
| Lumentix.RecordSale | contract/src/lumentix_contract.rs:139-171 | the writes of a sale that passed its guards: the ticket takes the next id, seats sold +1, escrow + (amount − fee), platform balance + fee only when the fee is positive, the counter +1; the books after it are exactly the books of the sale |
| Lumentix.SaleUpdatesBooks | contract/src/lumentix_contract.rs:139-171 | adding one live ticket under the next id, with its share credited to its event's escrow and its seat counted, keeps the books coherent |
| Lumentix.SaleKeepsCoherent | contract/src/lumentix_contract.rs:114-171 | on coherent books a sale of a Published, not sold-out event paid at least its price takes a fee between 0 and the amount and leaves the books coherent |
| Lumentix.LiveTicketIsFunded | contract/src/lumentix_contract.rs:227-228 | on consistent books an unrefunded ticket of an event that is not completed is covered by its event's escrow and seat count |
| Lumentix.RecordRefund | contract/src/lumentix_contract.rs:227-237 | fails with `InsufficientEscrow` and no writes exactly when the escrow is below the ticket's share; otherwise debits the share, marks the ticket refunded and frees its seat, saturating at 0 |
| Lumentix.RefundUpdatesBooks | contract/src/lumentix_contract.rs:227-237 | removing a live ticket of a cancelled event, with its share debited and its seat freed, keeps the books coherent |
| Lumentix.RefundKeepsCoherent | contract/src/lumentix_contract.rs:200-237 | on coherent books a live ticket of a cancelled event finds its share in escrow, and the corrected refund leaves the books coherent |
| Lumentix.ReweighKeepsTallies | contract/src/lumentix_contract.rs:192-193 | rewriting a ticket whose seat and escrow weight are the same leaves every tally unchanged, so checking a ticket in keeps the invariant |
| Lumentix.CancelEvent | contract/src/lumentix_contract.rs:242-259 | `Unauthorized` for anyone but the organizer, `InvalidStatusTransition` unless Published; on success only the status becomes Cancelled; keeps the invariant |
| Lumentix.CompleteEvent | contract/src/lumentix_contract.rs:262-288 | `Unauthorized`, then `InvalidStatusTransition` unless Published and strictly after the end time; on success only the status becomes Completed; keeps the invariant |
| Lumentix.ReleaseEscrow | contract/src/lumentix_contract.rs:291-317 | the organizer of a Completed event receives the whole balance, which becomes 0; an empty balance fails with `EscrowAlreadyReleased`; a successful release is positive on a consistent store |
| Lumentix.GetAvailability | contract/src/lumentix_contract.rs:331-334 | `EventNotFound` for an unknown event; otherwise the seats left, which together with the seats sold make up the capacity and are 0 when oversold |
| Lumentix.SetPlatformFee | contract/src/lumentix_contract.rs:338-353 | admin only; a fee above 10000 bps fails with `InvalidPlatformFee`; on success the fee reads back as set; keeps the invariant |
| Lumentix.WithdrawPlatformFees | contract/src/lumentix_contract.rs:366-382 | admin only; fails with `NoPlatformFees` on an empty balance; otherwise returns the balance and zeroes it |
| Lumentix.EmptyStoreConsistent | contract/src/storage.rs:71-99 | a freshly deployed store, with counters at their default 1, satisfies the invariant |
| TicketEscrow.TicketContract.IssueTicket | contract/src/contract/mod.rs:11-24 | stores an unused ticket with the given id, event and owner under its id, replacing any ticket there; `GetTicket` then returns it |
| TicketEscrow.TicketContract.GetTicket | contract/src/contract/mod.rs:27-29 | `Some` of the stored ticket exactly when the id is present |
| TicketEscrow.TicketContract.TransferTicket | contract/src/contract/mod.rs:35-72 | panics "Ticket not found", then "Unauthorized: not ticket owner", then "Cannot transfer: ticket has already been used", with no writes; on success only the owner changes, to `to` |
| TicketEscrow.TicketContract.MarkTicketUsed | contract/src/contract/mod.rs:75-94 | panics "Ticket not found" for an absent id; otherwise sets the used flag and keeps id, event and owner |
| TicketEscrow.TicketContract.SetEscrowSigners | contract/src/contract/mod.rs:97-118 | panics exactly when the threshold is 0 or exceeds the number of signers; otherwise stores the config |
| TicketEscrow.TicketContract.ApproveRelease | contract/src/contract/mod.rs:121-139 | panics without a config or for a signer not in it; otherwise records the approval, and approving again changes nothing |
| TicketEscrow.TicketContract.RevokeApproval | contract/src/contract/mod.rs:142-150 | the signer's approval is absent afterwards, and nothing changes if none was recorded |
| TicketEscrow.ApprovalCount | contract/src/contract/mod.rs:160-169 | the source's per-position count of approved signers, at most the number of signers |
| TicketEscrow.TicketContract.DistributeEscrowAsWritten | contract/src/contract/mod.rs:153-191 | panics without a config or when the per-position count is below the threshold; on success every configured signer's approval is removed |
| TicketEscrow.TicketContract.ClearApprovals | contract/src/contract/mod.rs:186-190 | exactly the approvals of the listed signers for this event are removed |
| TicketEscrow.ApprovedSigners | contract/src/contract/mod.rs:160-169 | the distinct configured signers that have approved |
| TicketEscrow.TicketContract.DistributeEscrow | contract/src/contract/mod.rs:153-191 | as the source, but the threshold is compared with the number of distinct approving signers; on success no configured signer's approval remains |
| TicketEscrow.CountsAgreeWithoutDuplicates | contract/src/contract/mod.rs:160-171 | without duplicate signers the source's count equals the number of distinct approving signers |
| TicketEscrow.DuplicateSignerCountsTwice | contract/src/contract/mod.rs:103 | a signer listed twice with one approval counts 2 as written but 1 as distinct signers |
| Sponsors.SaturatingAdd | contract/src/lib.rs:125 | the 32-bit sum, capped at the largest 32-bit value |
| Sponsors.SponsorRegistry.ListOf | contract/src/lib.rs:115-120 | the stored sponsor list of the tier, or the empty list |
| Sponsors.SponsorRegistry.RegisterSponsorTier | contract/src/lib.rs:24-38 | stores the tier with the given price and capacity and no sponsors counted; only that tier changes; keeps every count within capacity |
| Sponsors.SponsorRegistry.Contribute | contract/src/lib.rs:97-127 | panics "tier not found", then "tier is full" at capacity, then "incorrect amount" unless the price is paid exactly, with no writes; on success the sponsor is appended to the list and the count grows by one; keeps every count within capacity |
| Sponsors.SponsorRegistry.GetTierContributions | contract/src/lib.rs:143-154 | the list (empty if none) and its length |
| AuditCsv.Escape | backend/src/audit/audit.controller.ts:47 | the escaped text is at least as long as the value and every quote in it is doubled |
| AuditCsv.QuoteField | backend/src/audit/audit.controller.ts:47 | a field is at least two characters long and starts and ends with a quote |
| AuditCsv.QuotedFieldIsPaired | backend/src/audit/audit.controller.ts:47 | between its enclosing quotes a field has no unpaired quote |
| AuditCsv.Fields | backend/src/audit/audit.controller.ts:40-46 | six values: id, action, user id, resource id, metadata, creation time, in that order; a missing resource id is the empty string |
| AuditCsv.HeaderIsJoinedNames | backend/src/audit/audit.controller.ts:37-38 | the first line is the six column names joined by "," |
| AuditCsv.ExportCsv | backend/src/audit/audit.controller.ts:37-49 | the loop builds the header followed by one line per log, in order, joined by "\n"; the result decodes to the header names followed by each log's fields |
| AuditCsv.EscapeRoundTrip | backend/src/audit/audit.controller.ts:47 | decoding an escaped body up to its closing quote gives back the value and the rest of the input |
| AuditCsv.FieldRoundTrip | backend/src/audit/audit.controller.ts:47 | a quoted field, or a plain field without delimiters, decodes back to its value |
| AuditCsv.RecordRoundTrip | backend/src/audit/audit.controller.ts:40-47 | fields joined by "," decode back to the field list |
| AuditCsv.RowsRoundTrip | backend/src/audit/audit.controller.ts:39-49 | quoted records joined by "\n" decode back to the records in order |
| AuditCsv.DocumentRoundTrip | backend/src/audit/audit.controller.ts:37-49 | a plain header line followed by quoted records decodes to the header and the records |
| AuditCsv.ExportRoundTrip | backend/src/audit/audit.controller.ts:37-49 | the export decodes to the six column names followed by exactly one six-field record per log, in input order |
| AuditCsv.MissingResourceIsEmptyField | backend/src/audit/audit.controller.ts:44 | a missing resource id is written as the empty quoted field, the same as an empty one |
| Scenarios.InitializeOnce | contract/src/lumentix_contract.rs:16-25 | a second initialize fails with `AlreadyInitialized` and the first admin stays |
| Scenarios.SoldOutOnThirdPurchase | contract/src/lumentix_contract.rs:129-132 | a two-seat event sells tickets 1 and 2 and refuses the third with `EventSoldOut` |
| Scenarios.UnderpaymentRefused | contract/src/lumentix_contract.rs:134-137 | paying below the price fails with `InsufficientFunds` and all seats stay available |
| Scenarios.RefundOnlyOnce | contract/src/lumentix_contract.rs:200-239 | after a cancellation the corrected refund succeeds once, frees the seat and empties the escrow; a second refund fails with `RefundNotAllowed` |
| Scenarios.RefundOnlyOnceAsWritten | contract/src/lumentix_contract.rs:200-239 | the same walk with the refund as written: without a fee it also succeeds once, frees the seat and empties the escrow, then fails with `RefundNotAllowed` |
| Scenarios.CompleteThenRelease | contract/src/lumentix_contract.rs:262-317 | completing at the end time is refused, after it is accepted; the release pays out the whole escrow once, then fails with `EscrowAlreadyReleased` |
| Scenarios.RefundAfterFeeFinding | contract/src/lumentix_contract.rs:228 | with a 250 bps fee the refund as written fails with `InsufficientEscrow`; the corrected refund succeeds and empties the escrow |
| Scenarios.FeeOnHundred | contract/src/lumentix_contract.rs:141-142 | 250 bps of 100 is a fee of 2 and an escrow credit of 98 |
| Scenarios.UseAfterRefund | contract/src/lumentix_contract.rs:176-195 | a refunded ticket can still be checked in and ends up both used and refunded |
| Scenarios.TransferRules | contract/src/contract/mod.rs:35-94 | a stranger's transfer is refused, the owner's succeeds, and a used ticket cannot be transferred |
| Scenarios.MultisigRelease | contract/src/contract/mod.rs:121-191 | one approval, even given twice, does not meet a threshold of two; two signers do, and their approvals are consumed |
| Scenarios.MultisigReleaseAsWritten | contract/src/contract/mod.rs:121-191 | the same walk with the release as written: with distinct signers its per-position count gives the same outcomes |
| Scenarios.DuplicateSignerFinding | contract/src/contract/mod.rs:153-191 | with one signer listed twice, the release as written succeeds on one approval and the corrected one refuses it |
| Scenarios.SponsorTierFlow | contract/src/lib.rs:97-127 | the count is 1 and then 2 after two contributions; a third is refused as full; a wrong amount is refused |
| Scenarios.ReRegisterKeepsList | contract/src/lib.rs:24-38 | re-registering a full tier reopens it while keeping its list, so the list outgrows the capacity |

## Left out

- Integer widths: amounts are `i128`, counters `u64` and capacities `u32` in the source, and Soroban aborts on overflow. The model uses unbounded integers with no overflow traps, except for the `saturating_add` in `contribute`, which is modelled on 32 bits.
- Accounting.PlatformFee: `amount * fee_bps` overflowing `i128` is not modelled; the fee is exact for all integers.
- Lumentix.GetAvailability: the seat count is a `nat`, not a `u32`.
- Sponsors.SponsorRegistry.GetTierContributions: the length is a `nat`, not the `u32` the host returns.
- Host authentication (`require_auth`) is the address parameter of each entry point and is not checked further. The ledger timestamp is the `now` parameter. A ticket's purchase time is that parameter.
- Storage lifetime extension (`extend_ttl`), `log!` and the `TransferEvent` emission change nothing the contracts read back, so they are not modelled.
- `set_token` and `get_token` are not used by any modelled logic.
- `contract/src/validation.rs`, `error.rs`, `types.rs` and `models.rs` are not part of this model. The validation rules are taken from their call sites.
- The validator registry that `contract/src/tests/mod.rs` calls (`init_event`, `add_validator`, `remove_validator`, `is_authorized_validator`, `validate_ticket`) is not part of this model: its implementation is not among the modelled files.
- The `SponsorsContract` implementation on the other side of the merge conflict in `contract/src/lib.rs`, and its organizer bookkeeping, are not modelled.
- `distribute_escrow` moves no funds in the source. Its `destination` parameter is accepted and unused, as there.
- The audit export's pagination query, `JSON.stringify` of the metadata, `toISOString` of the timestamp and the HTTP response are not modelled. Every column is taken as already-rendered text, and `String(v)` is the identity on it.
- Line separators are `"\n"` as in the source, not the CRLF of section 2, rule 1 of RFC 4180. The decoder recovers everything the encoder writes. It also accepts some text the encoder never writes, such as records of unquoted fields after the header.
- Backend ticket and payment services, controllers, modules, entities and the frontend have no logic of their own beyond the contracts' rules, so they are not modelled.

## Findings

| source | as written | input that shows it | evidently intended | confidence | as-written member | corrected member |
|---|---|---|---|---|---|---|
| contract/src/lumentix_contract.rs:228 | a refund debits the event's full `ticket_price` from escrow, but the purchase credited only `amount - fee` (lines 141-150) | fee 250 bps, price 100, one ticket bought for 100: escrow holds 98, the refund asks for 100 and fails with `InsufficientEscrow` | a refund returns what the sale put in escrow, so it never lacks funds | high, not executed | Lumentix.RefundTicketAsWritten (exhibited by Scenarios.RefundAfterFeeFinding) | Lumentix.RefundTicket (never `InsufficientEscrow` on a consistent store; keeps escrow equal to the live tickets' shares) |
| contract/src/contract/mod.rs:160-171 | the threshold is compared with a per-position count over the signer list, and `set_escrow_signers` accepts a list with repeats | signers `[a, a]`, threshold 2, only `a` approves: the count is 2 and the release succeeds | the threshold counts distinct signers | medium, not executed | TicketEscrow.TicketContract.DistributeEscrowAsWritten (exhibited by TicketEscrow.DuplicateSignerCountsTwice and Scenarios.DuplicateSignerFinding) | TicketEscrow.TicketContract.DistributeEscrow (gate on distinct approving signers; TicketEscrow.CountsAgreeWithoutDuplicates shows both agree when there are no repeats) |
