# A verified model of the settlement core

This project models the money-moving core of a cross-border settlement service and proves
what it promises. The service takes a payment through quoting, compliance, escrow on a source
chain, an FX conversion, a payout on a destination chain and a ledger credit. Any call may
throw part-way, any database write may land and still throw, transactions mine late, and any
number of requests run at once.

## What is modelled

**The settlement saga** (`SagaModel`, `SagaInvariant`, `SagaSteps`, `SagaTheorems`,
`SagaOnce`, `SagaLegs`, `SagaRuns`, `SagaProgress`, `SagaRecovery`, `SagaResolve`, `SagaOthers`,
`Executor`). One payment's rows, its escrow, every transaction ever broadcast for it with the
fate the chains hide, and any number of calls of `executePayment`, `repairCompensation` and
`reconcileUnresolvedPayment`, each stopped between two awaits. An inductive invariant links what
the row's status shows to what the chains hold. Beside safety there is progress: from every
reachable world, a call that is left alone and whose awaits succeed brings the payment where it
belongs.
`Executor` writes the same calls as methods with the source's control flow (try, catch,
finally, early returns) over one mutable world: others run before each await, the method
writes its own effect, and each write is checked against the step system. So every theorem
about runs holds when a method returns, and each method's contract adds what its own part of
the code achieves.

**Status changes** (`PaymentState`, `Transitions`, `Routes`). The transition table, the
compare-and-swap transaction with its audit event and lease release, and the cancel, quote,
review and execute handlers racing on one payment.

**The audit chain** (`Audit`, `AuditRuns`, `AuditTamper`). Appending, anchoring and verifying;
concurrent transactions with and without the advisory lock; and tamper evidence. No hash is
assumed injective and no signature unforgeable by axiom: conclusions read "the same preimages,
or here is a collision", and unforgeability is a hypothesis about the stored checkpoint.

**Money** (`Decimals`, `Money`, `Fx`, `FundMath`, `Treasury`, over `Arithmetic`). The decimal
parser and printers, the FX engine, the fund's share arithmetic, and the treasury desk with
its FIFO recall loop.

**Two protocols** (`Idempotency`, `IdempotencyTheorems`, `IdempotentWrite`, `CanonicalJson`,
`RateLimit`). Reserve-then-stamp idempotency with its canonical serializer, and the
sliding-window limiter with its sweep.

## What the environment is taken to do

- The escrow contract goes from empty to held to exactly one of released or returned, and
  reverts a call its state does not allow (tests/integration/contract.test.ts:105-178). Its
  cancelled and failed states are never entered: nothing calls `cancelPayment`.
- A `writeContract` that throws broadcast nothing (lib/chain.ts:578-584). Receipts are final,
  and absence is reported only of a transaction that can never mine (lib/chain.ts:340-368).
- An await of `audit()` is merged with the await beside it as one more chance to throw. A
  process that dies is a call that never advances again.
- Database statements are atomic; a transaction's rows become visible at its commit. Ids come
  from a sequence and are not returned by a rollback.
- The fund mints `amount * 1e18 / index` shares and pays `shares * index / 1e18`
  (tests/integration/mmf.test.ts:107, 211).

## Where a promise has a condition

- *Compensated at most once* holds if no repair is granted the lease over a live attempt it
  does not remember, and no call frees the lease while its own live attempt is not the row's.
  The code enforces neither. `DisciplineIsExact` shows that each condition is needed wherever
  it fails, and `StaleClaimPaysTwice` and `LostHashPaysTwice` are runs from a fresh payment
  that break one condition once and pay the sender twice.
- *An operator can finish a stuck payment* exactly when its lease is free and it is
  COMPENSATION_PENDING, or PAYOUT_PENDING with a destination hash (`ResolvableExactly`). A
  payout that was never attempted, a failed payment with its escrow unresolved and a leaked
  lease have no entry.
- *The catch finishes its attempt* when left alone exactly if it remembers the row's status
  (`CatchEndsExactly`). When the escrow cannot be read it decides by that status, which sends a
  refund that reverts if the escrow was already released, and leaves an escrow taken before
  SUBMITTED_ONCHAIN was written behind a FAILED payment (`StatusDecidesUnread`); both stay on the
  operator's list (`ListedExactly`).
- *Every returned execution is accounted for* covers calls that return. A call that throws can
  leave the money in escrow with the payment on no list (`ThrownExecutionGoesUnlisted`);
  `BlindSpotExactly` gives the exact statuses and escrow states.
- *The quote's liquidity check agrees with the executor* when reservations are covered by the
  balance. The clamp at zero makes it optimistic otherwise (`ParkedAddsToFree`,
  `CheckIsOptimisticWhenOverReserved`); `Desk.Fund` decides exactly by `Fundable`.
- *A larger payment never yields less* over a range of amounts exactly when the range stays
  within one slippage tier (`MonotoneExactlyWithinTier`): every tier edge, in every corridor,
  is a drop (`TierEdgeDrops`).
- *Claims of an idempotency key stay a window apart* exactly while no release drops the row of
  a later claim that has not expired (`SparingIsExact`). *Replays are stamps for the same
  request* exactly while no stamp lands, over a live row, as false for that row's target and
  body (`TrueStampsAreExact`). Handlers that finish within the time to live do neither; a slow
  one can, because a reclaim keeps the row's id (`SlowHandlerLeaks`).
- *The rate limit* survives a call, after whatever calls in order of time, exactly when the
  call is no earlier than the latest of them (`ClockMustNotFall`); with a limit of one and one
  key it survives any clock (`OneKeyLimitOneForgives`).
- *The audit chain* protects preimages up to the newest anchor and nothing after it
  (`TailIsUnprotected`); a preimage fixes the event's fields as far as the bars in them agree
  (`PreimageFixesFields`, `BarsCanShift`).
- `toBaseUnits` is documented as truncating where the strict parser rejects. It is a floor on
  everything with digit parts, and where the strict parser accepts the two agree; a minus sign
  misses the fraction (`MinusMissesTheFraction`).

## Model

| member | source | states |
|---|---|---|
| PaymentState.PathsAreBounded | lib/state.ts:26-52 | every path through the transition table is finite: re-quotes aside it makes at most rank(first) - rank(last) moves |
| PaymentState.PathsNeverReturn | lib/state.ts:26-52 | no path visits a status twice, except QUOTED by consecutive re-quotes |
| PaymentState.EveryStatusIsReached | lib/state.ts:26-52 | every status is reached by some path from DRAFT |
| PaymentState.ApprovedIsFinal | lib/state.ts:26-52 | no path from APPROVED leads back, to a rejection or to expiry |
| PaymentState.NoWayBack | lib/state.ts:26-52 | no path from SUBMITTED_ONCHAIN leads to a status that does not say where the money is, a cancellation included |
| PaymentState.TerminalMeansStuck | lib/state.ts:73-80 | the terminal statuses are exactly those with no way out |
| SagaSteps.StepKeepsShared | lib/executor.ts:298-642 | every await of every call, however it ends, keeps the invariant that links status, reservation, hashes and hidden chain facts |
| SagaSteps.StepReachesCall | lib/executor.ts:566-641 | every await leaves its call with what the next one relies on, so the catch's evidence is always enough for its decision |
| SagaSteps.StepEvolves | lib/executor.ts:653-703 | no await takes back a final fact: mined or dead transactions, escrow endings, concluded payments, reservations |
| SagaSteps.LeaseExcludes | lib/executor.ts:259-281 | while another call owns the lease a step changes nothing shared |
| SagaSteps.Undisturbed | lib/executor.ts:244-257 | what one call relies on survives any step of another |
| SagaSteps.MiningUndisturbed | lib/chain.ts:357-368 | a transaction mining, reverting or dropping at any time disturbs no call |
| SagaSteps.RouteUndisturbed | app/api/payments/[id]/cancel/route.ts:33-37 | a cancel, quote or review landing at any time disturbs no call |
| SagaOthers.OtherRests | lib/executor.ts:244-257 | whatever another call, a transaction or another route does next, a call that owns the payment finds the row and the ledger as it left them, and a payment that has ended is sent nothing more |
| SagaTheorems.MiningKeepsLedger | tests/integration/contract.test.ts:105-178 | every party's balance stays accounted for by the escrow state and the mined transfers |
| SagaTheorems.Reachable | lib/executor.ts:283-642 | the whole invariant holds after every run from a fresh payment |
| SagaTheorems.NeverPaidAndRepaid | lib/executor.ts:566-641 | in no reachable world is the recipient paid, or still payable by a pending transfer, while the sender is repaid or still repayable |
| SagaTheorems.OneAttemptForLife | lib/executor.ts:383-407 | over a payment's whole life at most one escrow, settlement, refund, bridge payout and ledger credit is ever issued |
| SagaTheorems.OneAttemptPasses | lib/executor.ts:383-407 | in every run at most one attempt gets past the reservation and the swap to LIQUIDITY_RESERVED, even one that then sends nothing |
| SagaTheorems.MarkIsReserved | lib/executor.ts:383-407 | that swap is an execution's, over an APPROVED row under its own lease with liquidity reserved |
| SagaTheorems.NothingIsCreatedOrLost | lib/executor.ts:440-478 | on each network the parties' balances sum to zero and the escrow holds exactly what is held |
| SagaTheorems.SettledAccounting | lib/executor.ts:543-565 | SETTLED: sender down the amount, source treasury up the amount, one credit of the quoted amount, one destination payout if the route crosses networks |
| SagaTheorems.RefundedAccounting | lib/executor.ts:618-628 | REFUNDED: every party nets zero, nothing was credited or sent |
| SagaTheorems.CompensatedAccounting | lib/executor.ts:724-738 | COMPENSATED: escrow released, recipient has nothing, sender repaid whole multiples of exactly the escrowed units |
| SagaTheorems.ReturnedExecutionIsAccountedFor | lib/executor.ts:950-1001 | an execution that returned leaves the money delivered, with the sender, or the payment listed whether or not its escrow can be read, in every later world |
| SagaTheorems.BlindSpotExactly | lib/executor.ts:952-969 | a reachable payment is unaccounted for if and only if its status is still between LIQUIDITY_RESERVED and FX_OR_SWAP_COMPLETED while escrow has taken the money |
| SagaTheorems.ListedExactly | lib/executor.ts:950-1001 | with readable escrows the list is exactly the payments owed, unresolved, or failed with the money gone: keying it on the reservation row misses none; unreadable escrows only add failed payments that had a reservation |
| SagaTheorems.LeaseIsNeverStolen | lib/executor.ts:271-280 | no step, cleanup included, frees or takes a lease another call owns |
| SagaTheorems.StatusMovesLegally | lib/transitions.ts:66-95 | every status change of every run is an edge of the table |
| SagaTheorems.StatusChangesAreBounded | lib/state.ts:26-52 | in every run, however many calls race, the status changes along the table at most eleven times |
| SagaProgress.ExecutionSettles | lib/executor.ts:407-565 | from every reachable world an execution in its try block, wherever it stands with its row as remembered and no transaction failed, settles the payment when its own awaits succeed and its transactions mine: SETTLED, reservation consumed, credited once |
| SagaRecovery.EscrowDecides | lib/executor.ts:597-640 | from every reachable world with an execution before its escrow read, its row as remembered, the call left alone ends REFUNDED if the escrow is held, COMPENSATED if released, FAILED if empty, with every balance zero |
| SagaRecovery.CatchConcludes | lib/executor.ts:566-641 | and from the start of the catch: SETTLED with the reservation consumed if the recipient is credited or a transfer can still pay them, otherwise one of those three with the reservation released |
| SagaRecovery.CatchEndsExactly | lib/executor.ts:149-153 | the catch ends the payment, by some run of its own successful awaits, if and only if it remembers the row's status; a last status write that landed and threw leaves every later swap stale |
| SagaRecovery.StatusDecidesUnread | lib/executor.ts:605-621 | when the escrow cannot be read: COMPENSATED from FX_OR_SWAP_COMPLETED on; a refund sent from SUBMITTED_ONCHAIN on, REFUNDED if the escrow is held and FAILED if not; FAILED with nothing sent before |
| SagaRecovery.ThrownRefundFails | lib/executor.ts:630-640 | a refund whose broadcast throws ends FAILED with nothing sent, and listed while the escrow is held |
| SagaRecovery.RepairConcludes | lib/executor.ts:1003-1062 | from every reachable world with the sender owed and the lease free one new repair left alone ends COMPENSATED, sending one make-good exactly when the row names none that has mined or still may |
| SagaRecovery.ReconcileConcludes | lib/executor.ts:1064-1190 | from every reachable world with the lease free and the row's payout or make-good decided on chain, one new reconcile left alone makes a mined payout SETTLED, a failed one COMPENSATION_PENDING with the reservation released, a mined make-good COMPENSATED, and leaves a failed one as it is; no make-good is sent |
| SagaRecovery.AttemptIsReread | lib/executor.ts:883-924 | a make-good that threw is re-read: COMPENSATED without another if it can still mine, otherwise the sender stays owed by a row that names it unless it named another |
| SagaOnce.TwoLiveCanBothMine | lib/executor.ts:789-803 | two live make-goods can both mine, from any world |
| SagaOnce.CompensatedAtMostOnce | lib/executor.ts:804-925 | if no repair is granted the lease over a live attempt it does not remember, and no call frees the lease while its own live attempt is not the row's, at most one make-good ever mines and a COMPENSATED payment nets to zero |
| SagaLegs.DisciplineIsExact | lib/executor.ts:1012-1062 | the two conditions are exact: after any run that meets them, an action meets them if and only if no continuation that meets them, however long, mines a second make-good |
| SagaRuns.StaleClaimPaysTwice | lib/executor.ts:1012-1061 | for every payment a run that breaks only the first condition, once, by a repair claiming over an attempt made after it read the row, and repays the sender twice |
| SagaRuns.LostHashPaysTwice | lib/executor.ts:887-900 | for every payment a run in which no two calls overlap that breaks only the second condition, once, by freeing the lease over a live attempt while the row still names an older reverted one, and repays the sender twice |
| SagaRuns.ThrownExecutionGoesUnlisted | lib/executor.ts:600-641 | for every payment a run in which an execution throws and leaves escrowed money on no list |
| SagaResolve.ResolvableExactly | lib/executor.ts:1082-1100 | in every reachable world, new repairs and reconciles can bring the payment to a terminal status if and only if it is terminal, or its lease is free and it is COMPENSATION_PENDING, or PAYOUT_PENDING with a destination hash |
| Executor.Saga.Others | lib/executor.ts:298-642 | while a call waits, others leave it where it stood: what it owns is moved by the chains alone, and an ended payment is sent nothing |
| Executor.Saga.SetStatus | lib/executor.ts:155-162 | returns exactly when the status was still the remembered one, the move is an edge and the write succeeds, and then the row is swapped with its columns and remembered; a throw leaves the memory alone and either swapped that way or wrote nothing |
| Executor.Saga.ClaimLease | lib/executor.ts:259-269 | returns exactly over the expected status with the lease free and the write succeeding, and then only the lease has changed; otherwise it throws, writing nothing unless it won |
| Executor.Saga.FreeLeaseFinally | lib/executor.ts:271-280 | frees the lease exactly when it is still this call's and the write is not lost, and touches nothing else |
| Executor.Saga.Send | lib/chain.ts:578-584 | a broadcast the network takes returns with exactly one more pending transaction and its hash; otherwise it throws with nothing sent |
| Executor.Saga.ExecutePayment | lib/executor.ts:283-296 | run beside any others it is a run of the step system; the parties are never both paid, and if it returned the money is accounted for |
| Executor.Saga.SetUpAndReserve | lib/executor.ts:333-399 | goes on only with the reservation RESERVED and the row APPROVED under this call's lease |
| Executor.Saga.EscrowLeg | lib/executor.ts:414-465 | the row leaves LIQUIDITY_RESERVED only when the one initiation has mined; on success it is CONFIRMED_ONCHAIN under this lease and the escrow holds the funds |
| Executor.Saga.SettleLeg | lib/executor.ts:467-490 | the row leaves CONFIRMED_ONCHAIN only when the escrow has gone to the treasury; on success it is PAYOUT_PENDING with the amount to pay out |
| Executor.Saga.BridgeLeg | lib/executor.ts:493-539 | on success the row names the one transfer and it has mined; a transfer once sent is remembered however the leg ends; nothing is credited |
| Executor.Saga.PayoutLeg | lib/executor.ts:541-565 | on success SETTLED, the reservation consumed and one credit of the quoted amount; a credit is written only after the destination leg is done |
| Executor.Saga.Recover | lib/executor.ts:566-595 | credits, or a payout read mined, leave the recipient paid and nothing paid back, and a return then means SETTLED; a payout that cannot be read writes nothing; only with no credit and every transfer dead is anything undone; and for a decided payout which of these it is follows from the ledger and the read |
| Executor.Saga.UndoAttempt | lib/executor.ts:592-641 | the reservation is released; a refund is sent if and only if the escrow was read held, or its read failed at SUBMITTED_ONCHAIN or CONFIRMED_ONCHAIN, and the broadcast does not throw; read released, or unread after that, a return means COMPENSATION_PENDING or COMPENSATED with a make-good sent exactly when its broadcast does not throw; any other return means FAILED or REFUNDED; the recipient stays unpaid |
| Executor.Saga.RefundEscrow | lib/executor.ts:622-640 | the refund is sent exactly when its broadcast does not throw; a return means FAILED or REFUNDED, and nothing is ever paid out |
| Executor.Saga.TryRefund | lib/executor.ts:623-629 | success means REFUNDED; the row is FAILED or REFUNDED only once the refund has mined |
| Executor.Saga.CompleteForward | lib/executor.ts:653-703 | a return means SETTLED with exactly one credit and the reservation consumed unless that write failed; however it ends the recipient is paid and nothing is paid back |
| Executor.Saga.Compensate | lib/executor.ts:804-831 | at most one make-good is sent, and only if the remembered prior attempt is missing or can never mine; it is sent when that is what is read and the broadcast does not throw; a prior attempt read mined and a return mean COMPENSATED with none sent |
| Executor.Saga.TryCompensate | lib/executor.ts:833-882 | COMPENSATED only with the row naming the transfer just sent, and mined; whatever fails, a transfer once sent is remembered |
| Executor.Saga.ReconcileAttempt | lib/executor.ts:883-924 | its catch sends nothing, marks COMPENSATED only an attempt that has mined, does so if that is what it reads and it returns, and gives its hash only to a row that has none or is thereby COMPENSATED |
| Executor.Saga.RepairCompensation | lib/executor.ts:1012-1062 | beside any others, never lets both parties be paid; returns at once for a payment already COMPENSATED, and otherwise only with the sender owed or repaid |
| Executor.Saga.CheckAndCompensate | lib/executor.ts:1025-1061 | a make-good is sent only if the remembered payout and every other can never mine, nothing was credited, the escrow is released and the prior attempt can never mine |
| Executor.Saga.ReconcileUnresolvedPayment | lib/executor.ts:1082-1193 | beside any others, never lets both parties be paid; a return acts on what was read: a mined payout SETTLED, a failed one COMPENSATION_PENDING, a mined make-good COMPENSATED, nothing only for a finished payment |
| Executor.Saga.DecidePayout | lib/executor.ts:1101-1144 | reads what the chain says of a decided payout; confirmed: the recipient is paid and a return means SETTLED; unknown: nothing is written; otherwise every transfer is dead, nothing was credited, the reservation is released and a return means COMPENSATION_PENDING |
| Executor.Saga.DecideCompensation | lib/executor.ts:1147-1190 | reads what the chain says of a decided make-good; confirmed and a return mean COMPENSATED, with the row naming the remembered attempt, which has mined; otherwise status and hash stay; nothing is sent |
| Transitions.TrailTellsStatus | lib/transitions.ts:66-108 | for every run of racing writers the audit trail folded from DRAFT is a legal path ending at the row's status, of bounded length re-quotes aside |
| Transitions.OneWinnerPerStatus | lib/transitions.ts:89-95 | of any number of writers racing from one status at most one ever wins, QUOTED re-quotes aside |
| Transitions.EnteredOnce | app/api/payments/[id]/execute/route.ts:96-105 | no status but QUOTED is entered twice in a payment's life |
| Transitions.SameStatusMeansUntouched | lib/transitions.ts:59-65 | if the status a writer read is still there, nothing moved in between but re-quotes, and nothing at all unless it read QUOTED |
| Transitions.RequoteGoesUnnoticed | app/api/payments/[id]/execute/route.ts:78-94 | a writer that read an older quote still swaps over a newer one |
| Transitions.TerminalIsFinal | lib/state.ts:73-80 | no writer changes a payment in a terminal status |
| Transitions.PaymentStore.TransitionStatus | lib/transitions.ts:66-108 | illegal, stale or rolled back changes nothing; otherwise status, columns and one audit event change together, and the lease is freed exactly for the seven statuses that end an attempt |
| Transitions.PaymentStore.SwapAndLog | lib/transitions.ts:75-106 | the transaction's body: new status, columns, lease release and exactly one event naming the move |
| Transitions.PaymentStore.Interleave | lib/transitions.ts:3-11 | any writers in any order leave what the fold of their attempts says |
| Routes.SwapAfter | lib/transitions.ts:88-95 | a handler's swap succeeds exactly when the status it read is still there |
| Routes.Cancel | app/api/payments/[id]/cancel/route.ts:24-37 | succeeds exactly when the payment was cancellable and nobody moved it first; then it is CANCELLED with no lease |
| Routes.Quote | app/api/payments/[id]/quote/route.ts:24-61 | succeeds exactly from DRAFT or QUOTED unmoved, and writes the quote with the status |
| Routes.Review | app/api/payments/[id]/review/route.ts:35-50 | succeeds exactly from MANUAL_REVIEW with the row untouched, and decides as asked |
| Routes.RunExecute | app/api/payments/[id]/execute/route.ts:66-130 | reaches the executor exactly from APPROVED, or through this call's own two gate swaps with nothing in between; by the same two swaps a flagged payment is parked for review and a refused one rejected, and only those are answered so; a stored amount the strict parser refuses, or an unknown route pick, is refused before anything moves |
| Audit.FirstBrokenIsFirst | lib/audit.ts:240-252 | the id reported broken is that of the first link that fails, and none is reported exactly when the log is a chain |
| Audit.ValidMeans | lib/audit.ts:276-313 | verification passes if and only if every event links and any anchor's signature, event and hash all match |
| Audit.VerdictExplains | lib/audit.ts:276-313 | each reason is given if and only if its check is the first to fail, a broken link is reported by the first broken event, and a failure always names one or the other |
| Audit.KeptVerifies | lib/audit.ts:276-313 | a log in order verifies even when events were appended between the three reads |
| Audit.Log.AppendEvent | lib/audit.ts:125-142 | one event linked to the tip, an anchor exactly when the newest one is no longer on one of the last `interval` events, the log still in order |
| Audit.Log.MaybeCheckpoint | lib/audit.ts:170-177 | signs the new event exactly when a key is set and the newest anchor is not on one of the last `interval` events |
| Audit.Log.CreateCheckpoint | lib/audit.ts:199-215 | refuses without key or events, returns the anchor already at the tip, otherwise anchors the tip |
| Audit.Log.VerifyFrom | lib/audit.ts:240-252 | the loop over any table contents finds the first broken link |
| Audit.Log.VerifyAuditChain | lib/audit.ts:276-313 | passes if and only if the table is a chain and its newest anchor, if one is configured, is rightly signed and matched; otherwise the first broken event, or exactly the reason that holds |
| AuditTamper.PreimageFixesFields | lib/audit.ts:92-96 | two events have the same fields if and only if they have the same preimage and the bars inside their fields agree |
| AuditTamper.BarsCanShift | lib/audit.ts:92-96 | otherwise a bar can move between fields unseen, and a missing payment id reads as an empty one |
| AuditTamper.TipPinsChain | lib/audit.ts:1-10 | two chains with the same tip hash have the same preimages throughout, or exhibit a collision |
| AuditTamper.EditIsLocated | lib/audit.ts:245-251 | an edit that leaves stored hashes alone is reported at the edited event, or collides |
| AuditTamper.AnchorMessageInjective | lib/audit.ts:98-106 | a signed message names one position and one hash |
| AuditTamper.TamperEvidence | lib/audit.ts:254-275 | whatever was done to the tables, if verification passes against an anchor the log up to it has the preimages it had at signing, or a collision is exhibited |
| AuditTamper.TailIsUnprotected | lib/audit.ts:272-275 | events after the newest anchor, or a whole log without checkpoints, can be replaced and re-hashed unseen |
| AuditRuns.CommittedLogIsOneChain | lib/audit.ts:114-142 | under any interleaving with the lock the committed log is one chain, its checkpoints name its events, and once there are `interval` events one of the last `interval` carries the newest anchor |
| AuditRuns.LockedAppendIsAppend | lib/audit.ts:114-142 | statement by statement under the lock, after any run that leaves it free, an append that commits does exactly what `Audit.Log.AppendEvent` does: one event linked to the tip, and an anchor exactly when due |
| AuditRuns.LockedAnchorIsAnchor | lib/audit.ts:199-215 | and an on-demand anchor signs the tip unless the newest anchor is already there |
| AuditRuns.RunOnlyGrows | lib/audit.ts:144-159 | nothing committed is ever changed or removed |
| AuditRuns.NoFalseAlarm | lib/audit.ts:276-313 | verification passes whatever commits between its reads |
| AuditRuns.WithoutLockForks | lib/audit.ts:59-77 | without the lock two appends to any log in order both link to its tip; the result is a chain only if the first hashes to the tip's own hash, and otherwise verification fails, whether or not anchors are signed |
| Money.GrammarExactly | lib/money.ts:34 | the format test accepts exactly digits, optionally a point and digits |
| Money.ParseIsExact | lib/money.ts:80-103 | a parse is exactly the written decimal times 10^decimals, and every other string is refused by the first rule it breaks |
| Money.ParseUndoesFormat | lib/money.ts:129-133 | parsing a printed integer at its own or a finer scale gives it back below 10^(15 + decimals), and refuses from there on |
| Money.FormatRoundTrip | lib/money.ts:124-133 | print then parse is the identity below the limit |
| Money.FromBaseUnitsRoundTrip | lib/assets.ts:38-44 | dropping trailing zeros loses nothing |
| Money.AmountsAreParsed | lib/money.ts:111-122 | an accepted amount is exactly what parses to more than nothing, to the cent or whole yen; zero and unknown currencies are refused as such |
| Money.CanonicalAmountIsStable | lib/money.ts:145-148 | what is stored parses to the accepted amount, and canonicalizing again changes nothing |
| Money.DestinationUnitsExact | lib/routing.ts:79-88 | a canonical destination amount becomes the same sum at the token's scale, ten thousand units to the cent and one to the yen |
| Money.ToBaseUnitsFloors | lib/assets.ts:31-35 | for every amount whose first two parts are digits or missing, white space around it and whatever follows a second point aside, the result is the floor of the written decimal times 10^decimals |
| Money.MinusMissesTheFraction | lib/assets.ts:31-35 | a negative amount comes out as its floor if and only if its fraction is zero |
| Money.ConvertersAgree | lib/assets.ts:31-35 | wherever the strict parser accepts, the truncating converter agrees |
| Fx.UsdJpyIsParsed | lib/fx.ts:26-44 | the rate a quote uses for USD-JPY is the parse of its table entry |
| Fx.UsdSgdIsParsed | lib/fx.ts:26-44 | the rate a quote uses for USD-SGD is the parse of its table entry |
| Fx.SgdJpyIsParsed | lib/fx.ts:26-44 | the rate a quote uses for SGD-JPY is the parse of its table entry |
| Fx.RatesInvert | lib/fx.ts:45-53 | the rates quotes use in the two directions of a corridor multiply to one within half the table rate at rate scale, the closest integers allow |
| Fx.MinorScaleIsDecimals | lib/fx.ts:92-93 | the codes are the currencies' own, and the conversion scales their decimals |
| Fx.QuoteLosesValue | lib/fx.ts:132-146 | no quote, at any amount, corridor and tier, returns more than 9980/10000 of its input's value at fixed currency weights |
| Fx.ChainsDecay | lib/fx.ts:132-146 | along any chain of quotes value decays by at least 20 basis points a hop |
| Fx.NoArbitrage | lib/fx.ts:132-146 | no cycle of quotes returns more than was put in, and less whenever anything was |
| Fx.QuoteIsPriced | lib/fx.ts:132-146 | a quote is its input's value at the fixed weights less ten basis points, twenty and the tier's slippage, to one part in ten thousand and one minor unit both ways, in every corridor; the bridged route keeps five less |
| Fx.EquivalentIsDollars | lib/fx.ts:112-116 | the notional that picks the tier is the amount's value in cents, to one part in ten thousand and a cent, and exactly in dollars |
| Fx.TiersAreDollars | lib/fx.ts:97-110 | slippage is 1, 3, 8 or 15 basis points, with edges at ten, a hundred and five hundred thousand dollars in the cheaper tier |
| Fx.QuoteRounding | lib/fx.ts:11-13 | a quote between any two currencies is never above the exact amount at its own rate, and below it by less than a minor unit plus the rate's truncation; that rate is within one part in ten thousand of the weights' ratio |
| Fx.QuoteByCode | lib/fx.ts:132-146 | a quote by currency codes is given exactly for the three currencies, and is then priced as its currencies' values say, both ways |
| Fx.MonotoneWithinTier | lib/fx.ts:97-110 | within a tier a larger payment never yields less |
| Fx.TierEdgeDrops | lib/fx.ts:97-110 | at every edge of a slippage tier, in every corridor, one more minor unit yields less |
| Fx.MonotoneExactlyWithinTier | lib/fx.ts:97-146 | over a range of amounts a larger payment never yields less if and only if the range stays within one slippage tier |
| Fx.LargerCanYieldLess | lib/fx.ts:97-110 | for one, a cent more than 10,000 dollars yields fewer yen |
| Fx.BridgedNeverPaysMore | lib/routing.ts:206-213 | the bridged route never pays more than the source-chain fallback |
| FundMath.AccrualBounds | lib/treasury.ts:345-355 | after n days the index is at most exact compound growth, and short of it by a bounded, compounded floor loss |
| FundMath.DayIsFloor | lib/treasury.ts:345-355 | a day's index is the floor of exact growth at the annual rate over 365 days, and none at a negative rate |
| FundMath.AccrualIsMonotone | lib/treasury.ts:347-349 | the index never moves backwards |
| FundMath.DustNeverAccrues | lib/treasury.ts:348-349 | an index whose day's yield is below one unit stays for ever |
| FundMath.ParkThenRedeem | tests/integration/mmf.test.ts:211-219 | parking then redeeming at one index returns the amount less a stated ceiling, at most ceil((index - 1) / scale) |
| FundMath.YieldIsBounded | lib/treasury.ts:357-364 | a position parked n days is worth at most exact compound growth of what was parked |
| FundMath.ValueGrows | lib/treasury.ts:362-364 | a holding is worth no less at a higher index |
| FundMath.SplitLosesDust | lib/treasury.ts:440-449 | valuing a holding in parts loses less than a unit a part and gains nothing |
| Treasury.ParkedAddsToFree | lib/treasury.ts:151 | parked liquidity adds to what is free exactly when nothing is parked or reservations are covered |
| Treasury.UnitsAreParsed | lib/treasury.ts:99-119 | asset units are exactly what the strict parser reads, and positive ones exactly when that is not zero |
| Treasury.EveryRowIsRead | lib/treasury.ts:144-150 | reservations are readable exactly when every row is |
| Treasury.ReservationsAddUp | lib/treasury.ts:147-151 | one row reserves what it says, and two lists together what they reserve apart |
| Treasury.RecalledIsWithdrawn | lib/treasury.ts:440-449 | marking a position recalled takes exactly its value out of what is parked |
| Treasury.MinimalPrefixIsUnique | lib/treasury.ts:499-506 | there is one place to cut the FIFO queue that covers a shortfall and no earlier |
| Treasury.CheckMeans | lib/routing.ts:100-116 | the check is readable exactly when the amount and every reservation are; it passes exactly when parked liquidity, alone or with what reservations leave of the balance, covers the amount, and asks for a recall exactly when the balance alone does not |
| Treasury.SteadyPaysParked | lib/treasury.ts:507-510 | with redemptions landing at an index that has not fallen, redeeming everything pays at least what was counted as parked |
| Treasury.FundableWhenCovered | lib/routing.ts:110-116 | with redemptions that land at an index that has not fallen and reservations covered by the balance, an execution can be funded if and only if the quote's check passes |
| Treasury.CheckIsOptimisticWhenOverReserved | lib/routing.ts:110-116 | with five units reserved, none free and five parked the check offers a route for five that the executor cannot fund |
| Treasury.PaidAtIndex | lib/treasury.ts:507-510 | redemptions at the checked index pay what was counted as parked, so the exact condition is known before the call |
| Treasury.Desk.Park | lib/treasury.ts:190-259 | succeeds exactly within free balance, leaves reservations covered, and loses at most stated dust in value |
| Treasury.Desk.Recall | lib/treasury.ts:275-337 | redeems an active position once, conserving balance plus parked value; each failure leaves what it leaves |
| Treasury.Desk.RecallOldest | lib/treasury.ts:499-518 | the loop recalls the minimal FIFO prefix, or everything and still falls short, or stops at the redemption that threw |
| Treasury.Desk.RecallForPayment | lib/treasury.ts:472-536 | refuses untouched exactly when parked value falls short; never reaches its last shortage when the index has not fallen, and then fails, with everything recalled, exactly when its closing event is not written |
| Treasury.Desk.Fund | lib/executor.ts:326-377 | on steady redemptions execution steps 0 and 1 fail at the recall exactly when one is needed and its closing event is not written, and otherwise pass if and only if free liquidity covers the amount, or the check passes and the minimal recall also makes up for reservations the balance does not cover |
| RateLimit.RecentWithinLimit | lib/rate-limit.ts:43-50 | a key never has more than the limit in the current window |
| RateLimit.AtMostLimit | lib/rate-limit.ts:15-20 | in every window (t - w, t] a key has at most `limit` admissions |
| RateLimit.RetryAfterSuffices | lib/rate-limit.ts:24-33 | a refused key is admitted again exactly once the oldest hit has left; the returned wait reaches that time, by less than a second |
| RateLimit.AdmittedExactly | lib/rate-limit.ts:43-58 | a key is admitted exactly when it has fewer than the limit of admissions or the limit-th last is a window old |
| RateLimit.RemainingIsExact | lib/rate-limit.ts:54-57 | the remaining count and the hits in the window make up the limit |
| RateLimit.CalledStands | lib/rate-limit.ts:43-76 | a call no earlier than the last, with its pruning, recording and sweep, leaves every key's list standing for its history |
| RateLimit.ClockMustNotFall | lib/rate-limit.ts:43-76 | for every limit and window, the promise survives a call after every history of calls in order up to a time, pruned and swept as they are, if and only if the call is not earlier than that time, or the window is empty |
| RateLimit.OneKeyLimitOneForgives | lib/rate-limit.ts:43-58 | with a limit of one, calls of one key keep the promise whatever their times |
| RateLimit.Limiter.Consume | lib/rate-limit.ts:43-58 | every call, whatever its time, prunes, decides, records and sweeps as the pure step does; one no earlier than the last is admitted exactly when the key's whole history, never pruned or swept, has fewer than the limit in the window; refusals are not recorded |
| RateLimit.Limiter.Admit | lib/rate-limit.ts:54-57 | a hit is recorded on the pruned list and in the history, then the sweep runs |
| RateLimit.Limiter.Sweep | lib/rate-limit.ts:60-76 | on every 500th admission exactly the keys with no hit in the window are dropped, changing no later decision |
| RateLimit.Limiter.PromiseKept | lib/rate-limit.ts:15-20 | after any calls no key was admitted more than the limit in any window: every admission is a window later than the one `limit` before it |
| IdempotencyTheorems.TimelyOwnerIsCurrent | lib/idempotency.ts:91-100 | within its time a claimant's row is still its own |
| IdempotencyTheorems.OneOwnerPerWindow | lib/idempotency.ts:62-69 | while releases spare unexpired later claims, of any two claims of a key the earlier was released or the later began a full window after it |
| IdempotencyTheorems.OneHandlerAtATime | lib/idempotency.ts:4-9 | then no two handlers run for one key within their time |
| IdempotencyTheorems.SparingIsExact | lib/idempotency.ts:120-127 | that condition is exact: after any run that meets it, a step meets it if and only if claims stay a window apart in every continuation that meets it |
| IdempotencyTheorems.ReplaysAreStamps | lib/idempotency.ts:102-107 | while stamps over live rows are true for the row's request, every replay is exactly what a claimant stamped for the same route and body hash |
| IdempotencyTheorems.TrueStampsAreExact | lib/idempotency.ts:112-118 | that condition is exact: after any run that meets it, a step meets it if and only if every replay in every continuation that meets it is a stamp for its own request |
| IdempotencyTheorems.TimelyRunIsBoth | lib/idempotency.ts:17-18 | handlers that finish within the time to live meet both conditions |
| IdempotencyTheorems.SlowHandlerLeaks | lib/idempotency.ts:91-98 | a handler slower than the time to live stamps another request's row, and a retry replays it |
| IdempotencyTheorems.RequestIsAnswered | lib/idempotency.ts:70-110 | in every world a request nobody disturbs is answered within five awaits: by the record that holds the key (replayed, in flight, or a mismatch), or by its own handler, whose response is then kept with the request unless it refuses a malformed body |
| IdempotencyTheorems.RetryReplays | app/api/idempotency.ts:95-105 | a retry within a day replays the first request's response, whatever its own handler would say |
| IdempotentWrite.KeyTable.Create | lib/idempotency.ts:77-84 | a violation means a row was there, and changes nothing; a create that returns found none and left the newest claim's own fresh row |
| IdempotentWrite.KeyTable.Find | lib/idempotency.ts:86-107 | missing, expired, mismatch, in flight and replay each mean exactly that of the row found, at the time it was read |
| IdempotentWrite.KeyTable.Reclaim | lib/idempotency.ts:94-99 | wins only over the very row that was read, leaving the newest claim's own fresh row, and changes nothing when it loses |
| IdempotentWrite.KeyTable.BeginIdempotent | lib/idempotency.ts:70-110 | a claim is the newest one and owns a fresh row for this request; any answer but in flight is what the record says |
| IdempotentWrite.KeyTable.Complete | lib/idempotency.ts:113-118 | returns only if the row is still there, and then row and claim carry the response |
| IdempotentWrite.KeyTable.Abandon | lib/idempotency.ts:120-127 | when it returns the claim is released and its row gone; no other row is touched |
| IdempotentWrite.KeyTable.RunClaimed | app/api/idempotency.ts:121-138 | a response is answered only once it is stamped, or as a refusal of a malformed body once the key is released; a throw leaves the key released if the release returned |
| IdempotentWrite.KeyTable.WithIdempotentWrite | app/api/idempotency.ts:106-139 | a keyed write beside any others; under the one condition claims stay apart, under the other a replay is a stamp for this very request |
| CanonicalJson.QuotedIsPrefixFree | lib/idempotency.ts:31 | a quoted string can be read off the front of a text in one way only, whatever its code units |
| CanonicalJson.ValuesArePrefixFree | lib/idempotency.ts:30-37 | at most one value, up to key order, can be read off the front of a text |
| CanonicalJson.SameMeaningSameText | lib/idempotency.ts:25-29 | values equal as JSON with unordered keys are written the same |
| CanonicalJson.KeysRise | lib/idempotency.ts:33-36 | an object's entries are written once each, in strictly rising order of their keys |
| CanonicalJson.LessMeans | lib/idempotency.ts:35 | that order is by the first code unit that differs, a prefix first |
| CanonicalJson.CanonicalIsExact | lib/idempotency.ts:30-37 | two values have the same text if and only if they are equal as JSON with unordered keys |
| CanonicalJson.CanonicalIsPaired | lib/idempotency.ts:39-42 | the text of any value has no lone surrogate, so the UTF-8 bytes that are hashed tell texts apart |
| CanonicalJson.FingerprintMeans | lib/idempotency.ts:39-42 | the fingerprint is the same for the same body in any key order, and otherwise differs or collides |
| CanonicalJson.FingerprintBlindSpots | app/api/idempotency.ts:116-118 | a number too large to be finite reads as null, and a missing body as an empty object |

## Left out

- Executor.Saga.SetUpAndReserve: everything before the reservation (route lookup, auto-recall, the liquidity read) is one await that may throw, fail the payment or go on; `Treasury.Desk.Fund` models the liquidity part of it on its own.
- SagaTheorems.OneAttemptForLife: says nothing of reservations; a cancel between the reservation and its mark leaves a RESERVED row (lib/executor.ts:383-407), and no claim is made that none leaks.
- SagaTheorems.CompensatedAccounting: does not say "exactly once", which is false without the two conditions of `SagaOnce.CompensatedAtMostOnce`.
- Treasury.Desk.Fund: one payment at a time; the read of free balance is outside the reserving transaction, so two payments can both pass (lib/executor.ts:369-399). Only readable state is compared: on a chain that is not ready or cannot be read the quote offers the route anyway (lib/routing.ts:108, 117-130).
- Treasury.Desk.RecallForPayment: no other writer runs between its awaits; only the index and the outcome of each redemption vary.
- Treasury.Desk.Park: eligibility of an entity and the token allowance are not modelled.
- AuditRuns.CommittedLogIsOneChain: assumes one fixed key and interval; a rotated key makes old anchors unverifiable. Checkpoints are kept in the order they commit.
- Audit.Log.AppendEvent: an event's detail is its JSON text; serializing it is not modelled.
- Transitions.PaymentStore.TransitionStatus: the JSON of a move is an uninterpreted encoding with its decoding; details that overwrite from or to are not modelled.
- Routes.RunExecute: the compliance checks are their verdict; authorization, a missing payment and the parse of the stored quote are not modelled.
- IdempotentWrite.KeyTable.WithIdempotentWrite: requests without a key, keys that are too long and the rate-limit gate are not modelled.
- RateLimit.Limiter.Consume: the limit is positive and fixed with the window, as the one caller guarantees (app/api/limits.ts:33-38, 111-116).
- Money.ToBaseUnitsFloors: claims the floor for unsigned decimal parts; signs and radix prefixes are read as BigInt reads them, but only a leading minus has a statement of its own. fromBaseUnits takes amounts of zero or more.
- Fx.QuoteLosesValue: amounts of zero or more; rate display and its truncation are not modelled.
- FundMath.AccrualBounds: the accrual transaction itself is one call of the fund and is not modelled.
- Escrow states other than empty, held, released and returned; the allowance, transaction hashes and failure reasons as columns.
- Networks, wallets, deployments, signers, fees and replica-lag retries in lib/chain.ts: they are the environment of the saga.
- Real SHA-256 and HMAC: parameters, with only the alphabet of the digest assumed.
- Fairness: a call that is never scheduled again, or whose awaits keep failing, makes no progress, and its lease never expires; what is proved is what a call does when its awaits succeed.
- Positions' display values and accrued yield, pagination, explorer links, pages and the read-only API: they would only add easy members.
