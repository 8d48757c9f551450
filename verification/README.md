# Agent402: a verified model of its payment core

Agent402 sells API calls for stablecoin micropayments over x402. This project models
the parts of it that decide how much money can move and in what order, and proves what
they keep:

- the **buyer** (`client/`): one spend log shared by paid calls that overlap at every
  await, and the guard around a wallet that decides what may be signed and sent;
- the **MCP server** (`mcp/`): a session budget of the same kind, redaction of
  configured keys, a bound on tool arguments, chain preferences;
- the **facilitator** (`facilitator/`): a queue, a deadline and a guard that together
  protect the one signer's sequence number, and RPC calls that fail over or are hedged;
- loops with a simple specification: job polling, proof of work.

Run `dafny verify dfyconfig.toml` to check it.

## How it is put together

Objects that the program changes in place are classes (`Client.Agent402`,
`Client.Entry`, `Session.Wallet`, `Settle.SettleContext`, `Failover.HedgedRead`). Each
of their methods is proved to do to the state exactly what a function says. The same
functions are the steps of a state machine in which calls interleave freely, the seller
or node answers anything, and the clock only moves forward; the main results hold for
every run of that machine. So `Ledger` says what a prune, a reservation, a hold or a
release does to the log; `Client` proves that the methods over the list of entry objects
do that; `Spending` lets any number of calls take those steps in any order; and
`SpendingSafety` proves the caps.

| module | file | subject |
|---|---|---|
| `Types` | `types.dfy` | `Option`, `Result` |
| `Validity` | `validity.dfy` | expiries, the validity ceiling, how long an amount is held |
| `Ledger` | `ledger.dfy` | the spend log as a value: what counts, the caps, every log operation |
| `Client` | `client.dfy` | the spend log as entry objects changed in place |
| `Spending` | `spending.dfy` | overlapping paid calls as a state machine |
| `SpendingSafety` | `spending_safety.dfy` | the invariant and the caps over every run |
| `SpendingLimits` | `spending_limits.dfy` | exactly when the caps hold, and a run where they do not |
| `SpendingEndings` | `spending_endings.dfy` | what a call leaves in the log as it ends, and until when |
| `SpendingWindow` | `spending_window.dfy` | the caps over a window that runs from the answers |
| `SpendingRelease` | `spending_release.dfy` | how long a call can weigh on the caps |
| `Guard` | `guard.dfy` | pricing, the policy, the hooks around signing |
| `Session` | `session.dfy` | the MCP session budget |
| `Settle`, `SettleSafety` | `settle.dfy`, `settle_safety.dfy` | the settle pipeline |
| `Failover` | `failover.dfy` | failover chains and hedged reads |
| `AsyncJob` | `asyncjob.dfy` | job polling (`Retry-After` is section 10.2.3 of RFC 9110) |
| `ElementCount` | `elementcount.dfy` | the bound on a tool call's arguments |
| `Redact` | `redact.dfy` | redaction of secrets |
| `ProofOfWork` | `pow.dfy` | leading zero bits, the nonce search |
| `Networks` | `networks.dfy` | chain preferences |

Money is a whole number of 1e-7 USD, which every asset of the table can express
(6 or 7 decimals). Time is whole milliseconds, except in `AsyncJob` and `HoldMaxFrom`,
where the program accepts fractions and so does the model.

## What is assumed

- A paid call ends within 24 hours of its reservation (a clock step past that while the
  call is open is not `Disciplined`). `Ledger.ReservationSurvivesExactly` says what
  happens otherwise.
- The x402 client runs its hooks in the order they were registered and stops at a throw;
  a created payload is sent or given up before the same call creates another.
- Timers do not fire early, promise reactions run in the order they were queued, the
  vendor's settle makes no RPC call after its promise has settled, and a transaction
  hash is not empty.
- Catalog prices are not negative.
- The own host never redeems a payment it answered with an error: once such a payment
  has expired it weighs on nothing.
- When a payment is redeemed is not observed. A payment whose outcome is unknown, or
  which was delivered, is dated by its reservation (or, where said so, by its answer).
- A chain's clock may trail this process's by up to nine minutes: a payload counts as
  redeemable for that long past its own expiry (`Validity.SURE_SLACK_MS`).

## What turned out to need a condition

1. **The rolling caps do not hold for every way of calling.** A call's allowance counts
   all it has sent, but other calls see only its reservation, which shows the last
   amount it signed. If a payment fetch signs a second payload while other calls are
   being admitted, the first one is invisible to them. `SpendingLimits.OverlapBreaksTheCap`
   is a run in which one call signs two payments of 1, another call is then let in for
   1 and signs it, and sellers hold 3 under a daily cap of 2. `SignKeepsCapExactly` and
   `BeginKeepsCapExactly` say that an admission limited by a rolling cap, daily or per
   host, keeps that cap if and only if no other call it covers hides a payload.
   `StyledExposureBound` says how a caller avoids it: a call that has sent a payload signs
   another only while no other call is open, and no call begins while an open one has sent
   more than its reservation shows. One payload for each call, or one call at a time, are
   two cases of that.
2. **The ten minutes added to a hold are not always ten.** The validity check grants a
   minute of clock slack past the 24-hour ceiling and the hold is cut at the ceiling, so
   an expiry in that minute keeps at least nine (`HoldOutlastsExpiry`); it is the full ten
   exactly when the expiry is within the ceiling as it is recorded (`FullSlackExactly`).
   A Gateway payment is never cut (`GatewayHoldIsExact`).
3. **The 24-hour window of a payment runs from its reservation**, not from the answer that
   settled it (`SettledWindowRunsFromReservation`), and `ExposureBound` is for that window.
   Dated by their answers, payments keep the caps over 24 hours less the longest time a
   call takes (`SpendingWindow.AnsweredBound`), and over not a millisecond more:
   `AnsweredBoundIsTight` is, for each such time up to 24 hours, a run that breaks the cap.
   With calls of 24 hours, two answers one millisecond apart do.
4. **A reservation older than 24 hours is dropped by another call's check**
   (`ReservationSurvivesExactly`). Of what its call books afterwards the first payload is
   nowhere in the log; each further one has an entry, which counts exactly while it is held
   and its hold lasts (`LateBookingShowsTheRest`).
5. **An answer of success is booked as a redemption, and need not be one.** A delivered
   payment is counted for 24 hours, though a seller that answered without taking it may
   still redeem it. That is enough exactly when the payment expires in its window
   (`SpendingSafety.ExpiresInWindowExactly`), and then everything that can still be
   redeemed, delivered or not, is within the caps (`ExposureBound`, `StyledExposureBound`,
   `AnsweredBound`). A buyer reads the condition off an option's `maxTimeoutSeconds`
   (`ValidityInWindow`); an option valid for a day or a week never meets it.
   `SpendingWindow.DeliveredCanStillBeTaken` is a run of two Gateway payments valid for a
   week, one call after the other, after which sellers can take 2 under a daily cap of 1.
6. **The session budget has no memory of its own call.** The allowance leaves out the
   whole entry of the call that is signing, with whatever it has sent.
   `Session.SigningKeepsBudgetExactly` says when every amount a call may sign keeps the
   budget all the same; for a call alone in flight, if and only if it has sent nothing or
   the per-call cap leaves room for one more payload (`ResigningKeepsBudgetExactly`).
   `ResigningBreaksTheBudget` is a run of one call after which the seller holds twice the
   budget. `SessionBudget` is for calls of one signature each.
7. **The MCP server may refuse after signing what it admitted before.** A call joins those
   in flight without looking at what others have reserved since its price was checked, so
   a payment signed in between can be refused as it is checked again
   (`Session.LateJoinRefuses`). It is refused exactly when the reservations of all calls
   exceed the budget (`SecondCheckExactly`), only joining makes them
   (`OnlyJoiningOverfills`), and it never is if the calls that joined still fitted
   (`Session.NoSpuriousRefusal`). The buyer, which checks and reserves in one step, never
   does this (`SpendingSafety.NoSpuriousRefusal`).
8. **A secret that is part of the marker is never redacted**, and redacting any other
   secret puts it in: a key such as `redacted` is in the result exactly when the text held
   any configured form (`Redact.PartOfMarkerStays`, and `RedactionRevealsPartOfMarker` for
   two concrete keys). A secret that begins with the end of the marker, or ends with its
   beginning, can be put into a text too (`RedactionRevealsBorder`). Keys of nine
   characters or more without brackets, and byte arrays, are always removed.

## Model

| member | source | states |
|---|---|---|
| Validity.PassesExactly | client/known-assets.js:188-198 | an expiry passes if and only if there is none, or it can be read and is at most the ceiling and sixty seconds after the check, to the millisecond although the clock is floored |
| Validity.HoldOutlastsExpiry | client/known-assets.js:188-198 | a payload the validity check passes, however long before it is recorded, is held to at least nine minutes past its own expiry and at most the ceiling plus ten minutes past its recording |
| Validity.FullSlackExactly | client/index.js:115-131 | only a payload that names a time has an end; it gets the ten minutes of slack in full if and only if the expiry is within the ceiling at recording, and ten minutes past the ceiling otherwise |
| Validity.GatewayHoldIsExact | client/index.js:1202-1206 | a Gateway authorization within the seven-day ceiling is always held exactly ten minutes past its expiry |
| Ledger.AllowanceMeaning | client/index.js:334-350 | a positive amount may be signed if and only if every cap holds with it beside what this call sent and all other entries count; zero always may |
| Ledger.AllowanceIsTheTightest | client/index.js:344-349 | the allowance is what is left under the tightest cap and names that cap; without caps there is no limit |
| Ledger.RefusalMeaning | client/index.js:933-968 | a reservation is accepted if and only if the per-call, daily and per-host caps all hold with it; otherwise the first one it breaks, in that order, is named |
| Ledger.PruneKeepsTotals | client/index.js:936 | dropping what no longer counts changes no total any cap reads, now or at any later time |
| Ledger.TotalReplace | client/index.js:307-312 | rewriting one entry moves each total by exactly the difference of what the entry counts for |
| Ledger.TotalRemove | client/index.js:1056-1060 | releasing an entry lowers each total by exactly what it counted for |
| Ledger.ReservationWeighs | client/index.js:136-138 | a reservation weighs its amount up to 24 h after it was made, then nothing |
| Ledger.PaymentWeighs | client/index.js:136-138 | a booked payment weighs exactly its amount: settled, for 24 h from its reservation; refused by the own host, until its hold ends or for 15 minutes after the answer, whatever the window; of unknown outcome, until window and hold are both over |
| Ledger.HostWeighs | client/index.js:348 | on its own host an entry weighs what it weighs everywhere, on any other nothing |
| Ledger.ReservationSurvivesExactly | client/index.js:933-936 | the reservation of a call in flight survives a check if and only if it is at most 24 h old; past that, rewriting it changes nothing |
| Ledger.LateBookingShowsTheRest | client/index.js:1037-1054 | booking on a reservation already dropped adds exactly the entries of the payloads after the first, and each counts if and only if it is held and its hold lasts |
| Ledger.SettledWindowRunsFromReservation | client/index.js:1012-1020 | a settled payment is counted for 24 h after its answer if and only if the answer came no later than the reservation |
| Client.Entry.BookPayment | client/index.js:1041-1045 | the entry becomes the payload's row: amount, settled or held, own-host flag, end of the hold or the blind end |
| Client.Agent402.Spent | client/index.js:342-348 | the sum of the counted entries of a scope except the caller's own |
| Client.Agent402.Sweep | client/index.js:936 | the log keeps exactly the entries that count, in order |
| Client.Agent402.SpendCheck | client/index.js:933-968 | prunes, then names the first cap the amount would break, or none |
| Client.Agent402.SpendReserve | client/index.js:1012-1019 | check and reservation in one step: refused with the cap broken, no handle for an unguarded free call, otherwise one new reserved entry at the end |
| Client.Agent402.SpendSettle | client/index.js:1020 | the entry is settled wherever the log holds it, with no hold and no own-host flag |
| Client.Agent402.SpendRelease | client/index.js:1056-1060 | removes the entry if the log holds it and nothing else |
| Client.Agent402.SpendHold | client/index.js:1037-1054 | books every payload sent: the reservation holds the first, each other gets an entry of its own with the reservation's time and host, the last is settled when delivered; returns the sum of what is held |
| Client.Agent402.SignAllowance | client/index.js:334-350 | the tightest cap left after what the call sent and all other counted entries, never below zero, and its name |
| Client.Agent402.OnSign | client/index.js:307-312 | the reservation's amount becomes the amount being signed |
| SpendingSafety.SignExactly | client/known-assets.js:234-250 | a guarded call may sign an amount if and only if it is zero or fits every cap beside what the call sent and all other entries count |
| SpendingSafety.CheckExactly | client/known-assets.js:334-345 | what was signed passes if and only if it still fits, where it can be read, and its expiry is none or at most a day and a minute away |
| SpendingSafety.BeginKeeps | client/index.js:1008-1018 | a new reservation, whatever other calls are doing, keeps the caps over all they may cost |
| SpendingSafety.SignKeeps | client/index.js:304-313 | signing any admitted amount keeps them, with all this call sent before counted |
| SpendingSafety.RecordKeeps | client/index.js:322-326 | recording a payload as sent keeps them, and its hold outlasts it |
| SpendingSafety.FinishKeeps | client/index.js:670-688 | ending a wallet call, delivered, failed or unsent, keeps them, and every payload sent has a row of its own that answers for it |
| SpendingSafety.FinishCreditsKeeps | client/index.js:714-731 | so does ending a credits call, debited, refused or left as a running job |
| SpendingSafety.GatewaySendKeeps | client/index.js:795-809 | so does sending a Gateway payment, which is held from its first send |
| SpendingSafety.GatewayResolveKeeps | client/index.js:829-834 | so does learning its outcome, even after its row left the log |
| SpendingSafety.StepKeeps | client/index.js:645-702 | every step of every call keeps the whole invariant: log and calls agree entry by entry, totals balance at all later times, caps hold |
| SpendingSafety.RunKeeps | client/index.js:645-702 | so does every disciplined run |
| SpendingSafety.ExpiresInWindowExactly | client/index.js:136-138 | counting a delivered payment for its window covers it for as long as it can be redeemed if and only if it expires in that window |
| SpendingSafety.ValidityInWindow | client/known-assets.js:155-163 | a payment signed soon enough with a short enough validity expires in its window; one valid for a day or more never does |
| SpendingSafety.ExposureBound | client/index.js:331-350 | over every disciplined run, what was delivered of payments reserved inside the window, and what sellers can still take of payments not delivered, is at most the daily cap, and at most the per-host cap on each host; so is everything the log counts; so is what they can still take of delivered ones too, if each expires in its window. A payment the own host refused is taken to be redeemed never |
| SpendingSafety.PerCallBound | client/index.js:346 | no payload that left a guarded or Gateway call exceeds the per-call cap |
| SpendingSafety.RedeemableIsLogged | client/index.js:1029-1054 | after its call, every payment that may still weigh on the caps has a counted log entry of its own of exactly its amount; while the call is open its reservation counts, and shows all the call has sent if and only if it hides nothing |
| SpendingSafety.NoSpuriousRefusal | client/known-assets.js:328-347 | the second reading of the allowance, after signing, admits the amount the first admitted, whatever other calls reserved meanwhile, if the call sent nothing else |
| SpendingEndings.BeginsWithin | client/index.js:1008-1018 | a reservation is accepted if and only if it fits the per-call cap and both rolling caps beside all the log weighs |
| SpendingEndings.EndMovesTotals | client/index.js:1037-1060 | an ending moves each total by exactly what the call's entries weighed before and after |
| SpendingEndings.UnsentLeavesNothing | client/index.js:674-687 | a wallet call that sent no payment, a refused credits call and a Gateway signer that threw leave no entry |
| SpendingEndings.WalletEndWeighs | client/index.js:670-688 | a wallet call leaves one entry for each payment, on its own host, weighing what a delivered payment does for the last of a delivered call, what one the own host refused does, or what one of unknown outcome does |
| SpendingEndings.CreditsEndWeighs | client/index.js:714-731 | a debited call and a job that may yet be debited weigh their amount for 24 h |
| SpendingEndings.GatewaySendWeighs | client/index.js:804-809 | a Gateway payment weighs from its send, for 24 h and until ten minutes past its expiry |
| SpendingEndings.GatewayEndWeighs | client/index.js:829-834 | once its outcome is known it weighs what a delivered one does, or one the own host refused |
| SpendingEndings.RefusedIsGivenBack | client/index.js:133-138 | over every run, once the holds on a call the own host refused are over, every total is that of the other calls, and a reservation is accepted if and only if it fits beside those |
| SpendingRelease.CapacityReturns | client/index.js:133-138 | 48 hours and ten minutes after every wallet call was reserved (8 days, an hour and ten minutes after a Gateway call), whatever sellers did, the log counts nothing and any payment within the caps alone is accepted |
| SpendingWindow.AnsweredBound | client/index.js:133-138 | if every answer arrives within d of its call's reservation, what was answered in the last 24 h less d and what can still be redeemed of payments not delivered is within the daily and per-host caps, over every disciplined run; with what can still be redeemed of delivered ones, if each expires in its window |
| SpendingWindow.AnsweredBoundIsTight | client/index.js:133-138 | for each d up to 24 h there is such a run in which 24 h less d and one millisecond hold payments of twice the daily cap |
| SpendingWindow.DeliveredCanStillBeTaken | client/index.js:829-834 | however carefully calls are made, a run of two Gateway payments valid for a week, the first delivered, ends with 2 redeemable under a daily cap of 1 |
| SpendingLimits.StyleIsCareful | client/index.js:668-675 | calls of one payload each, and calls made one at a time, are careful ways of calling |
| SpendingLimits.StyledIsDisciplined | client/index.js:668-675 | careful calls never hide a payload at an admission |
| SpendingLimits.StyledExposureBound | client/index.js:645-702 | so each of these ways of calling keeps the daily and per-host caps over every run, for the same payments as `ExposureBound` |
| SpendingLimits.SentIsLogged | client/index.js:304-327 | with one payload for each call, a payment has a counted log entry of exactly its amount from its send until it is delivered or can no longer be redeemed, while its call is open included |
| SpendingLimits.SentIsShown | client/index.js:304-327 | in any careful run, while another call is open, a call's reservation counts and shows at least all the call has sent |
| SpendingLimits.SignKeepsCapExactly | client/index.js:331-350 | where the daily or the per-host cap limits a call, every amount it may sign keeps that cap if and only if no other call it covers hides a payload |
| SpendingLimits.BeginKeepsCapExactly | client/index.js:1008-1018 | every reservation the daily or the per-host cap accepts keeps it if and only if no call it covers hides a payload |
| SpendingLimits.OverlapRuns | client/index.js:318-326 | the counterexample is a run the code allows, and ends with three payloads sent |
| SpendingLimits.OverlapBreaksTheCap | client/index.js:318-326 | after it sellers hold 3 under a daily cap of 2 |
| Guard.AmountExactly | client/known-assets.js:108-127 | which amount each version reads, and when none: the field it signs, a whole number, not contradicted by the other |
| Guard.DigitsInvertDecimal | client/known-assets.js:125-138 | reading a decimal text undoes writing it, for every number |
| Guard.EvmAddressExactly | client/known-assets.js:86 | an EVM address is `0x` and forty hexadecimal characters |
| Guard.SameAssetExactly | client/known-assets.js:87-89 | EVM addresses are the same asset in any case, any other identifiers only when equal |
| Guard.TooLongExactly | client/known-assets.js:167-175 | an option asks to stay valid for too long if and only if it names something that is no finite number, or more than 86400 seconds |
| Guard.SolanaReadExactly | client/known-assets.js:266-286 | a Solana payload is read as an amount if and only if its only token instruction is a checked transfer of exactly that amount and decimals, byte for byte |
| Guard.EvmReadExactly | client/known-assets.js:294-301 | an EVM payload is read as an amount if and only if it carries exactly one of the two amounts and that one is a whole number, that amount |
| Guard.ExpiryReadExactly | client/known-assets.js:177-186 | the expiry is that of an authorization, else a Permit2 deadline, of at most 15 digits; none if and only if neither is there |
| Guard.OneAmountForEveryReader | client/known-assets.js:108-127 | whichever versions price an option, they read the same amount |
| Guard.DecodeInvertsEncode | client/known-assets.js:280-282 | reading a little-endian amount undoes writing it, for every amount that fits |
| Guard.EncodeInvertsDecode | client/known-assets.js:280-282 | writing undoes reading, so no two transfers read as one amount |
| Guard.DecodeAmount | client/known-assets.js:280-281 | the shift loop over bytes 8 down to 1 reads that amount |
| Guard.Buyer.PricedExactly | client/known-assets.js:92-139 | an option has a price if and only if its amount can be read and the first entry that lists its asset names no other domain; the price is the amount in that asset's 6 or 7 decimals |
| Guard.Buyer.UnpricedExactly | client/known-assets.js:143-152 | the count of unknown options is the number of those without a price |
| Guard.Buyer.QuoteOf | client/known-assets.js:143-153 | the lowest and highest price among the options, both offered by one, and how many have none |
| Guard.Buyer.Policy | client/known-assets.js:217-233 | keeps exactly the priced, in-cap, in-time options; otherwise too-long if and only if validity is all that stands in the way, unknown-asset if and only if nothing is priced, else over-allowance with the lowest price |
| Guard.Buyer.KeptInOrder | client/known-assets.js:219-220 | what is kept is a subsequence of the seller's options |
| Guard.Buyer.HookReasons | client/known-assets.js:234-250 | the hook before signing refuses if and only if the option has no price, is over the allowance, or asks to stay valid for too long, in that order |
| Guard.Buyer.SendReasons | client/known-assets.js:334-346 | the hook after signing names the amount if and only if that is the problem, else the expiry |
| Guard.Buyer.GuardSound | client/known-assets.js:211-254 | an EVM or Solana payload that leaves the guard carries one amount, or one transfer byte for byte, and that is exactly the field its version signs, in a known asset with that asset's decimals and domain, for at most the allowance read last, with an expiry, if any, at most 24 h and a minute away |
| Guard.Buyer.HonestPayloadPasses | client/known-assets.js:311-347 | and the hook after signing never refuses a payload that signs the option's amount in time while the allowance covers it |
| Guard.Buyer.SignedUnitsWithinAllowance | client/known-assets.js:306-326 | the base units an EVM or Solana payload signed, scaled by its asset's own decimals, are at most the allowance read last |
| Guard.ShippedTableIsExact | client/known-assets.js:26-50 | every asset of the shipped table has 6 or 7 decimals, so its amounts are exact in 1e-7 USD |
| Session.Wallet.HeldNow | mcp/index.js:194 | the sum of the holds that have not ended |
| Session.Wallet.PendingUsd | mcp/index.js:209 | the sum of what calls in flight reserve, except the caller's own |
| Session.Wallet.SignAllowance | mcp/index.js:212-214 | the smaller of the per-call cap and what is left of the budget, never below zero |
| Session.Wallet.CheckPrice | mcp/index.js:536-550 | admits a list price if and only if it fits the per-call cap and the budget beside spent, held and in flight; a refusal changes nothing |
| Session.Wallet.JoinPending | mcp/index.js:554-555 | the call joins the ones in flight at its list price |
| Session.Wallet.BeforeSigning | mcp/index.js:298-302 | refuses an amount over the allowance, or records it as the call's own |
| Session.Wallet.BeforeSending | mcp/index.js:305 | marks the payment sent and records when it can no longer settle |
| Session.Wallet.EndCall | mcp/index.js:576-588 | a sent payment is spent, held until it expires on the own host, or held for the session; an unsent one leaves nothing |
| Session.AllowanceMeaning | mcp/index.js:210-214 | a positive amount may be signed if and only if it is within the per-call cap and the budget holds with it beside what is spent, held and in other calls |
| Session.CheckExactly | mcp/index.js:536-550 | a call is let past the first check if and only if its price fits the per-call cap, and the budget beside all that is spent, held and in flight |
| Session.OwnHostHoldEnds | mcp/index.js:582-585 | the hold on a payment the own host refused ends exactly with the payload's own, or 15 minutes after the answer |
| Session.FinishBooks | mcp/index.js:577-588 | a confirmed payment moves to spent; one the own host refused is held while it can be redeemed and given back within 24 hours and ten minutes; any other is held for the session |
| Session.UnsentLeavesNothing | mcp/index.js:568-580 | a call that sent no payment leaves the budget as it was |
| Session.StepKeeps | mcp/index.js:543-588 | every step of every wallet call keeps spent, holds and calls in agreement and their sum within the budget |
| Session.SessionBudget | mcp/index.js:179-214 | over any interleaving of calls of one signature each, spent plus held plus signed in flight is within the budget; so is what sellers took or can still take, and all they can ever take if the own host settles no error answer |
| Session.SigningKeepsBudgetExactly | mcp/index.js:210-214 | whatever else is in flight, every amount a call may sign keeps the budget if and only if what is committed so far does, and what this call sent and others may cost is within what the others reserve, or nothing is left to sign, or the per-call cap leaves room for one more payload |
| Session.ResigningKeepsBudgetExactly | mcp/index.js:209-214 | for a call alone in flight, if and only if it has sent nothing or the per-call cap leaves room for one more payload beside what it sent |
| Session.ResigningBreaksTheBudget | mcp/index.js:298-305 | a run of one call that signs twice leaves the seller with twice the budget |
| Session.SecondCheckExactly | mcp/index.js:210-214 | read again after signing, the allowance admits the signed amount if and only if it is zero or the reservations of all calls are within the budget; the payload is sent if and only if its expiry passes too |
| Session.OnlyJoiningOverfills | mcp/index.js:543-555 | a step takes the reservations over the budget if and only if it is a call joining at a price that no longer fits |
| Session.NoSpuriousRefusal | mcp/index.js:298-302 | over every run, an admitted amount is never refused after signing if every call that joined since then still fitted |
| Session.LateJoinRefuses | mcp/index.js:543-555 | a run of two calls in which the second joins late leaves the first, which signed 9, an allowance of 5 |
| Settle.SettleContext.constructor | facilitator/settle-deadline.js:68-71 | the deadline is counted from arrival, with nothing submitted yet |
| Settle.SettleContext.Guard | facilitator/settle-deadline.js:41-55 | a step at or past the deadline is refused and marked so; an admitted submission has its hash recorded before it leaves |
| Settle.SettleContext.StartJob | facilitator/settle-deadline.js:77-90 | the vendor's settle runs only for a caller still there and before the deadline, with what is left of it |
| Settle.HoldMaxFrom | facilitator/queue.js:41-52 | whatever the setting and the fallback, the cap is in [1 s, 10 min]; a setting inside is taken as it is |
| Settle.HoldMaxClamps | facilitator/queue.js:49-51 | a positive setting outside the bounds is taken as the nearer bound |
| Settle.HoldMaxFallsBack | facilitator/queue.js:47-50 | an unusable setting leaves the fallback, by the same rule, or the least cap where that is no number either |
| SettleSafety.StepKeeps | facilitator/queue.js:16-39 | every step of queue, guard, timer and settle keeps the turn invariant |
| SettleSafety.OneLiveSettle | facilitator/settle-deadline.js:41-55 | at any instant at most one settle is unfinished and before its deadline, even after the hold cap released a slot |
| SettleSafety.SettlesDoNotInterleave | facilitator/queue.js:16-28 | between two admitted steps of one settle every admitted step is its own |
| SettleSafety.NothingLate | facilitator/settle-deadline.js:63-71 | every step let through, resent submissions included, starts strictly before its request's arrival plus the timeout |
| SettleSafety.AnswerNamesSubmission | facilitator/index.js:319-337 | the answer says that the settle succeeded if and only if it did; otherwise it names a transaction if and only if that settle had begun a submission, and one it submitted, then and ever after |
| SettleSafety.ToldWhatHappened | facilitator/index.js:294-337 | over every run, the caller is told of success if the work ended well before anything else decided the answer, and of failure if it ended badly, the time ran out, or the job never started |
| SettleSafety.ReplyNamesLatest | facilitator/index.js:329-336 | a failure answer names the hash last polled before it, else the one last sent |
| SettleSafety.ContextRecords | facilitator/settle-deadline.js:48-53 | what is submitted and polled is what the context records |
| SettleSafety.StartsWorkExactly | facilitator/settle-deadline.js:77-90 | the vendor's settle is started if and only if the caller is there and the time is not up; otherwise the job is answered at once |
| SettleSafety.AdmittedExactly | facilitator/settle-deadline.js:41-55 | a pre-submit step is let through if and only if the time since its request's arrival is not up |
| SettleSafety.SlotHeldForWork | facilitator/queue.js:10-28 | the next job starts only once the work of the one before has stopped, or the hold cap has passed since that one was answered |
| SettleSafety.ArrivesBehind | facilitator/queue.js:16-28 | a new job waits behind those not yet started and the one in the slot |
| SettleSafety.AnsweredInOrder | facilitator/queue.js:18-27 | when a job may start, every job before it has had its answer delivered |
| SettleSafety.StartsInTime | facilitator/queue.js:10-39 | a job that had n ahead of it is never still waiting n times (timeout + hold cap) after its arrival |
| SettleSafety.NeverStuck | facilitator/queue.js:30-39 | while a job waits, the queue's own next step is open or time may pass, whatever the running settle does |
| Failover.TransportExactly | facilitator/rpc-failover.js:61-72 | a failure is the node's own if and only if it has a known code, a status of 429 or of 500 and more, or a known text; a refusal at the settle deadline is none |
| Failover.FailOver | facilitator/rpc-failover.js:120-140 | the retry loop returns the first answer among the primary and the fallbacks in order, else the primary's error, and asks exactly the nodes up to it; a fallback node, a listed primary or an answer never fails over |
| Failover.FirstAnswerMeaning | facilitator/rpc-failover.js:124-139 | an answer is the earliest one, every node before it failed at transport; without one every node was asked and the error is the primary's |
| Failover.AskedOnce | facilitator/rpc-failover.js:120-131 | no node is asked twice in one call, the primary included |
| Failover.RefusalEndsChain | facilitator/rpc-failover.js:63-72 | a refusal at the settle deadline is not retried elsewhere |
| Failover.Call | facilitator/rpc-failover.js:204-212 | an unhedged call is the failover chain, or the plain outcome where no failover applies |
| Failover.SubmissionIsSequential | facilitator/rpc-failover.js:144-150 | a submission is never hedged and reaches a further node only after all before it failed at transport |
| Failover.HedgedExactly | facilitator/rpc-failover.js:142-150 | a read is hedged if and only if it could fail over, a delay is set and there is a node to ask; a submission never is |
| Failover.HedgedRead.constructor | facilitator/rpc-failover.js:161-162 | a read starts unsettled |
| Failover.HedgedRead.Settle | facilitator/rpc-failover.js:163 | the first outcome settles the read, later ones change nothing |
| Failover.HedgedRead.OnSilence | facilitator/rpc-failover.js:164-168 | the timer starts the hedge unless the read is over |
| Failover.HedgedRead.OnHedge | facilitator/rpc-failover.js:168-175 | the hedge's answer settles; its transport failure waits for the primary |
| Failover.HedgedRead.OnPrimary | facilitator/rpc-failover.js:177-186 | the primary's answer settles; its transport failure waits for the hedge, or starts the failover chain when there is none |
| Failover.HedgedRead.OnChain | facilitator/rpc-failover.js:182 | the chain's outcome settles the read |
| Failover.RunTracks | facilitator/rpc-failover.js:156-188 | after every ordering of events the flags are those the outcomes so far imply |
| Failover.HedgedReadSettlesOnce | facilitator/rpc-failover.js:156-188 | for every ordering the promise settles at most once, with the first answer of any node asked, else as the chain did, else with the primary's error; and it has settled once every side asked has |
| Failover.SilenceIsHedged | facilitator/rpc-failover.js:164-176 | once the timer has fired on an open read the second node is asked, and its answer settles the read |
| Failover.TransportErrorIsPrimarys | facilitator/rpc-failover.js:152-155 | a read that rejects at transport rejects with the primary's error, and every node asked failed at transport |
| AsyncJob.RetryAfterMs | client/async-job.js:43-50 | every wait is between one and thirty seconds, whatever the server sends, and what the header, else the document, asks for inside those bounds |
| AsyncJob.JobStateExactly | client/async-job.js:56-63 | which states, under either name, are a success and which a failure |
| AsyncJob.StatusExactly | client/async-job.js:66-69 | the answer has the status its result or error carries, else 200 or 502 |
| AsyncJob.FailuresMeaning | client/async-job.js:110-118 | the counter is at least m if and only if the last m polls all failed |
| AsyncJob.Collection.EndsMeaning | client/async-job.js:102-124 | each end of the loop, told from the polls alone: a finished job, a link that is unknown or expired, five lost polls in a row, or a wait past the deadline; and none of them was met before |
| AsyncJob.Collection.WaitMeaning | client/async-job.js:100-123 | each wait is what the answer before it asks for, else the last document read; the clock moves on by the wait and what it and its poll take |
| AsyncJob.Collection.PollTime | client/async-job.js:102-106 | poll number k comes at least k + 1 seconds after the start |
| AsyncJob.Collection.PollsBounded | client/async-job.js:99-106 | there are at most as many polls as the timeout has seconds |
| AsyncJob.Collection.EndsOnce | client/async-job.js:102-124 | what the loop should come to, and after how many polls, is one thing only |
| AsyncJob.AwaitJob | client/async-job.js:88-125 | the loop ends and comes to exactly that: it polls only its own origin and never past the deadline, stops at the first finished job, gone job or fifth failure in a row and says which, and gives up before that only when the next wait would end past the deadline |
| ElementCount.ElementsMeaning | mcp/output-schemas.js:575-596 | an element or own member counts one and what is below it, any other nothing |
| ElementCount.ItemsAdd | mcp/output-schemas.js:583-587 | the counts of two arrays add up in their concatenation |
| ElementCount.MembersAdd | mcp/output-schemas.js:588-595 | the counts of two objects add up in their union of members |
| ElementCount.Walk | mcp/output-schemas.js:583-595 | counts the children of one value, or stops at one past the bound |
| ElementCount.ToolInputElementCount | mcp/output-schemas.js:577-598 | the exact number of elements when it is at most the bound, otherwise exactly the bound plus one, after at most that many values popped |
| ElementCount.ToolInputBoundRefusal | mcp/output-schemas.js:602-605 | refuses if and only if the arguments hold more elements than the bound |
| Redact.RedactSecrets | mcp/index.js:111-115 | replaces every form in turn |
| Redact.FirstFormFirst | mcp/index.js:111-115 | the forms are replaced first to last |
| Redact.ReplaceIsSplitAndJoin | mcp/index.js:113 | a replacement splits the text at the form, joins it with the marker, and loses nothing else |
| Redact.PartsHoldNone | mcp/index.js:113 | no part between two places of the form holds the form |
| Redact.NothingNew | mcp/index.js:113 | replacing one form leaves none of it and brings about no other form that does not clash with the marker |
| Redact.NoFormSurvives | mcp/index.js:111-115 | after all replacements, in any order, the text holds no form that does not clash with the marker |
| Redact.KeysNeverClash | mcp/index.js:99-110 | keys of nine characters or more without brackets, and bracketed byte arrays, never clash with the marker |
| Redact.MarkerExactly | mcp/index.js:111-115 | for any forms in any order, a text that holds one comes out with the marker in it, and any other text comes out unchanged |
| Redact.PartOfMarkerStays | mcp/index.js:111-115 | a form that is part of the marker is in the result of all replacements if and only if the text held any form |
| Redact.RedactedExactly | mcp/index.js:111-115 | where every form is apart from the marker or part of it, the result holds no form if and only if none is part of it or the text held none |
| Redact.RedactionRevealsPartOfMarker | mcp/index.js:111-115 | with keys `secretkey9` and `redacted`, redacting the first puts the second into a text that did not hold it |
| Redact.RedactionRevealsBorder | mcp/index.js:111-115 | with forms `]abcdefg` and `key12345`, redacting the second puts the first into a text that did not hold it |
| Redact.RedactsEveryPath | mcp/index.js:117-125 | the result has the same paths; the value at each of at most 65 steps is the redacted value, deeper ones are untouched |
| Redact.RedactedAt | mcp/index.js:117-125 | at each path of at most 65 steps a string is the redacted string; numbers, sizes and keys are unchanged, and all that is deeper |
| Redact.InnocentStringStays | mcp/index.js:117-125 | a string that holds no form is unchanged |
| Redact.NoSecretInValue | mcp/index.js:116-125 | no string value within that depth holds a form that does not clash with the marker, so no key of the shapes above |
| ProofOfWork.LeadingZeroBits | client/index.js:48 | the loop counts the zero bits before the first set one |
| ProofOfWork.ZeroBitsAreASmallNumber | client/index.js:48 | at least d leading zero bits if and only if the digest, as a big-endian number, is below 2^(8n - d) |
| ProofOfWork.SolvesExactly | client/index.js:556-560 | a nonce solves if and only if its digest, as a big-endian number, is below 2^(8n - difficulty) |
| ProofOfWork.SolvePow | client/index.js:556-560 | when the search stops, it stops at the least nonce that meets the difficulty |
| Networks.NetworkTableOk | client/known-assets.js:55-72 | every name and every id of the table, in any casing, has a place of its own, and no name is an id |
| Networks.NamesExactly | client/known-assets.js:77-84 | a text names a chain if and only if it is, in any case, its name or one of its ids |
| Networks.NamesOneChain | client/known-assets.js:77-84 | a text names at most one chain, and by its name or by an id, never by both |
| Networks.NamedMeansItsIds | client/known-assets.js:77-84 | a chain's name, or any of its ids in any case, means all ids of that chain |
| Networks.SplitExactly | mcp/networks.js:24-25 | the entries of the setting are what its commas separate |
| Networks.TrimExactly | mcp/networks.js:26 | trimming takes off spaces at both ends and nothing else |
| Networks.ParsedExactly | mcp/networks.js:23-30 | the list holds the ids the entries name and no other |
| Networks.BlankNamesNothing | mcp/networks.js:26-27 | an entry of nothing but spaces names nothing |
| Networks.ParsedPrefsApart | mcp/networks.js:23-30 | no two parsed preferences are one network under different casing |
| Networks.FilterPicks | mcp/networks.js:36-39 | what is picked is exactly the options on a preferred network, by preference and then by the seller's order |
| Networks.PickedOnce | mcp/networks.js:36-39 | each option is picked at most once |
| Networks.UnknownPassesThrough | mcp/networks.js:19-29 | a text that names no chain of the table is kept, trimmed and lower-cased |
| Networks.EarlierNamedFirst | mcp/networks.js:24-29 | an id named in an earlier entry of the setting ranks before one named only later |
| Networks.EarlierNamedPickedFirst | mcp/networks.js:32-39 | so an option on a network named earlier is picked before one on a network named only later, wherever the seller listed them |
| Networks.RefusedExactly | mcp/networks.js:36-47 | without preferences nothing is filtered; with some the payment is refused if and only if no option's network is, in any case, one of them |
| Networks.PreferencesOrder | mcp/networks.js:23-48 | all of that for any setting, and a non-empty result unless the payment is refused |
| Networks.PreferredChainPicked | mcp/networks.js:19-40 | an option on a chain the setting names, by name or either spelling in any case, is among the picked |

## Left out

- Floating point: amounts are exact integers, so rounding of USD sums (and `toFixed(6)` on the held total) is not modelled.
- `_quotedUsd`, the catalog price and `parseUsd`: the amount a call reserves is any amount, which covers every quote.
- Payloads whose expiry the client cannot read, and Stellar and Algorand payloads the guard does not decode: their log entries are modelled, what they sign and when they expire is not.
- `gatewayAcceptOf`'s field checks and the resends of a pending Gateway payment: a Gateway payment is one payload whose outcome stays unknown until a delivered or refused answer.
- `spendingSummary` and `shouldRequestAsync`: read-only sums and a three-way test.
- Refusal messages and their fields other than the cap or the reason.
- `settle_timed_out` as the reason of an unsuccessful result that did not throw, and the payer named beside it (`payerOfPayload`).
- The promise chain, `AsyncLocalStorage` and timers themselves: they are the steps and the reaction order of `Settle`, `Failover` and `Session`.
- The set of pending entries in the MCP server: calls are numbered and the set is the calls in flight.
- The MCP credits branch, which checks a price and reserves nothing.
- The message pattern in `isTransportFailure`: an error carries a boolean for it. `fallbackErrors` and `fallbackOf` are for the log only.
- How `SECRET_FORMS` is built and sorted: the results hold for any list of forms in any order. Object keys are not redacted by the program either.
- Inherited names in the lookups of `KNOWN_ASSETS` and `NETWORK_NAMES` (such as `constructor`), and characters outside ASCII in `trim` and `toLowerCase`.
- An infinite `timeoutMs` in `awaitJob`, under which the loop need not end, and `onProgress`.
- SpendingSafety.ExposureBound: for disciplined runs, and with the rolling window counted from the reservation, as the code counts it; points 1, 3, 4 and 5 above give the exact conditions, and SpendingWindow.AnsweredBound the bound by answers.
- Session.SessionBudget: for calls of one signature each; point 6 above gives the exact condition.
- ProofOfWork.SolvePow: the search has no bound of its own, so the method is given some solving nonce to show that it ends; SHA-256 is any function from nonces to byte strings.
- HTTP, the MCP transport, signatures, XDR, TLS checks, RPC timeouts and diagnostics, start-up and configuration.
