/** The invariant of the settlement saga: what the row's status proves about the chains,
    what each call may rely on at each await, and why no other step disturbs it. */
module SagaInvariant {
  import opened Options
  import opened PaymentState
  import opened SagaModel

  // ----- what the shared state always satisfies -----------------------------

  ghost predicate AllDead(txs: seq<Fate>) {
    forall i :: 0 <= i < |txs| ==> Dead(txs[i])
  }

  /** No trace of the payment on any chain. */
  ghost predicate Untouched(s: Shared) {
    && s.inits == [] && s.settles == [] && s.refunds == [] && s.escrow == Empty
    && NoPayout(s)
  }

  /** Nothing has been paid out or paid back beyond the escrow. */
  ghost predicate NoPayout(s: Shared) {
    s.credits == [] && s.dests == [] && s.comps == [] && s.row.destHash == None && s.row.compHash == None
  }

  /** The destination leg of the route has happened: one mined transfer if the route
      crosses networks, none otherwise. */
  ghost predicate LegDone(s: Shared) {
    s.dests == if s.cfg.cross then [Mined] else []
  }

  ghost predicate HashIn(hash: Option<nat>, txs: seq<Fate>) {
    hash.Some? ==> hash.value < |txs|
  }

  /** What each status of the row proves about the chains and the ledger. */
  ghost predicate StatusOk(s: Shared) {
    match s.row.status
    case LiquidityReserved => NoPayout(s) && s.settles == [] && s.resv != NoReservation
    case SubmittedOnchain => NoPayout(s) && s.settles == [] && s.resv != NoReservation && s.escrow != Empty
    case ConfirmedOnchain => NoPayout(s) && s.resv != NoReservation && s.escrow != Empty
    case FxOrSwapCompleted =>
      && NoPayout(s) && s.escrow == ReleasedToTreasury && s.resv != NoReservation
      && s.row.destAmount == Some(s.cfg.payout)
    case PayoutPending =>
      && s.escrow == ReleasedToTreasury && s.resv != NoReservation && s.row.destAmount == Some(s.cfg.payout)
      && s.comps == [] && s.row.compHash == None && HashIn(s.row.destHash, s.dests)
      && (s.dests != [] ==> s.cfg.cross)
      && (s.credits == [] || (s.credits == [s.cfg.payout] && LegDone(s)))
    case Settled =>
      && s.escrow == ReleasedToTreasury && s.resv != NoReservation
      && s.comps == [] && s.credits == [s.cfg.payout] && LegDone(s)
    case CompensationPending => Compensable(s)
    case Compensated =>
      && Compensable(s)
      && s.row.compHash.Some? && s.comps[s.row.compHash.value] == Mined
    case Failed => NoPayout(s)
    case Refunded => NoPayout(s) && s.escrow == ReturnedToSender && s.resv != NoReservation
    case _ => Untouched(s)
  }

  /** The sender is owed a make-good: the escrow is gone and the recipient has, and can
      get, nothing. */
  ghost predicate Compensable(s: Shared) {
    && s.escrow == ReleasedToTreasury && s.resv != NoReservation
    && s.credits == [] && AllDead(s.dests)
    && HashIn(s.row.destHash, s.dests) && HashIn(s.row.compHash, s.comps)
  }

  /** The escrow contract's state is explained by exactly the transactions that mined,
      and each kind but the compensation was broadcast at most once. */
  ghost predicate ChainOk(s: Shared) {
    && |s.inits| <= 1 && |s.settles| <= 1 && |s.refunds| <= 1 && |s.dests| <= 1
    && (s.escrow == Empty <==> FateOf(s.inits, 0) != Mined)
    && (s.escrow == ReleasedToTreasury <==> FateOf(s.settles, 0) == Mined)
    && (s.escrow == ReturnedToSender <==> FateOf(s.refunds, 0) == Mined)
    && (s.inits != [] ==> s.resv != NoReservation)
  }

  /** How many transactions of a kind mined. */
  function MinedCount(txs: seq<Fate>): nat {
    if txs == [] then 0 else MinedCount(txs[..|txs| - 1]) + (if txs[|txs| - 1] == Mined then 1 else 0)
  }

  function Escrowed(s: Shared): int {
    if s.escrow in {Held, ReleasedToTreasury} then s.cfg.amount else 0
  }

  /** Every party's balance is accounted for by the escrow state and the mined
      transfers; nothing is created or lost. */
  ghost predicate LedgerOk(s: Shared) {
    && s.bal.sender == s.cfg.amount * MinedCount(s.comps) - Escrowed(s)
    && s.bal.escrow == (if s.escrow == Held then s.cfg.amount else 0)
    && s.bal.treasury == (if s.escrow == ReleasedToTreasury then s.cfg.amount else 0)
      - s.cfg.amount * MinedCount(s.comps)
    && s.bal.recipient == s.cfg.payout * MinedCount(s.dests)
    && s.bal.destTreasury == -s.bal.recipient
  }

  ghost predicate LeaseOk(s: Shared) {
    ReleasesLease(s.row.status) ==> s.row.lease == None
  }

  ghost predicate SharedOk(s: Shared) {
    StatusOk(s) && ChainOk(s) && LeaseOk(s)
  }

  // ----- what each call relies on -------------------------------------------

  ghost predicate Holds(s: Shared, id: nat, status: Status) {
    s.row.lease == Some(id) && s.row.status == status
  }

  /** Between the claim and the reservation mark the only rival is a cancel. */
  ghost predicate Claimed(s: Shared, id: nat) {
    Holds(s, id, Approved) || s.row.status == Cancelled
  }

  ghost predicate MemoryOk(s: Shared, mem: Memory) {
    HashIn(mem.destHash, s.dests) && HashIn(mem.compHash, s.comps)
  }

  /** Inside the try block: the row is where the call remembers it. */
  ghost predicate Trying(s: Shared, id: nat, mem: Memory, status: Status) {
    Holds(s, id, status) && mem.status == status && MemoryOk(s, mem) && s.refunds == []
    && (s.dests != [] <==> mem.destHash.Some?)
  }

  /** The row is at the remembered status, or one ahead when a write landed and threw. */
  predicate Near(mem: Status, row: Status) {
    || (row == mem && row in {LiquidityReserved, SubmittedOnchain, ConfirmedOnchain, FxOrSwapCompleted, PayoutPending})
    || (mem == LiquidityReserved && row == SubmittedOnchain)
    || (mem == SubmittedOnchain && row == ConfirmedOnchain)
    || (mem == ConfirmedOnchain && row == FxOrSwapCompleted)
    || (mem == FxOrSwapCompleted && row == PayoutPending)
  }

  /** Inside the catch block, still owning the payment. */
  ghost predicate Catching(s: Shared, id: nat, mem: Memory) {
    && s.row.lease == Some(id) && Near(mem.status, s.row.status) && s.refunds == []
    && MemoryOk(s, mem)
    && (s.dests != [] <==> mem.destHash.Some?)
    && (s.dests != [] || s.credits != [] ==> mem.status == PayoutPending)
  }

  /** The payment can only fail now: nothing was paid out, or it has already failed. */
  ghost predicate Failing(s: Shared, id: nat, mem: Memory) {
    && s.resv != NoReservation
    && (mem.status == Failed ==> s.row.status in {Failed, Refunded})
    && (|| s.row.status in {Failed, Refunded}
        || (&& s.row.lease == Some(id)
            && s.row.status in {LiquidityReserved, SubmittedOnchain, ConfirmedOnchain, FxOrSwapCompleted}))
  }

  /** The recipient is paid; only bookkeeping is left. */
  ghost predicate Forwarding(s: Shared, id: nat, mem: Memory) {
    || s.row.status == Settled
    || (Holds(s, id, PayoutPending) && LegDone(s) && MemoryOk(s, mem))
  }

  ghost predicate Repaying(s: Shared, id: nat) {
    Holds(s, id, CompensationPending) || s.row.status == Compensated
  }

  /** The remembered row had a destination attempt and the quoted amount. */
  ghost predicate Attempted(s: Shared, mem: Memory) {
    MemoryOk(s, mem) && mem.destHash.Some? && mem.destAmount == Some(s.cfg.payout)
  }

  /** The statuses an execution may return at. */
  predicate Concluded(status: Status) {
    status in {Settled, PayoutPending, CompensationPending, Compensated, Failed, Refunded}
  }

  // What a call may rely on at the await it is stopped before, block by block.
  ghost predicate TryOk(s: Shared, id: nat, mem: Memory, pc: ExecutePc) {
    match pc
    case ExRead => true
    case ExClaim => true
    case ExSetup => Claimed(s, id)
    case ExReserve => Claimed(s, id)
    case ExMark => Claimed(s, id) && s.resv != NoReservation
    case ExAllowance => Trying(s, id, mem, LiquidityReserved) && s.inits == []
    case ExInitiate => Trying(s, id, mem, LiquidityReserved) && s.inits == []
    case ExInitiateConfirm(tx) => Trying(s, id, mem, LiquidityReserved) && tx == 0 && |s.inits| == 1
    case ExSubmitted => Trying(s, id, mem, LiquidityReserved) && FateOf(s.inits, 0) == Mined
    case ExConfirmed => Trying(s, id, mem, SubmittedOnchain)
    case ExSettle => Trying(s, id, mem, ConfirmedOnchain) && s.settles == []
    case ExSettleConfirm(tx) => Trying(s, id, mem, ConfirmedOnchain) && tx == 0 && |s.settles| == 1
    case ExFx => Trying(s, id, mem, ConfirmedOnchain) && s.escrow == ReleasedToTreasury
    case ExPayout => Trying(s, id, mem, FxOrSwapCompleted)
  }

  ghost predicate PayoutOk(s: Shared, id: nat, mem: Memory, pc: PayoutPc) {
    && Trying(s, id, mem, PayoutPending)
    && match pc
       case PoBridge => s.cfg.cross && s.dests == [] && s.credits == []
       case PoPersist => s.dests != [] && s.credits == []
       case PoConfirm => s.dests != [] && s.credits == []
       case PoCredit => LegDone(s) && s.credits == []
       case PoConsume => LegDone(s) && s.credits != []
       case PoSettled => LegDone(s) && s.credits != [] && s.resv == Consumed
  }

  ghost predicate CatchOk(s: Shared, id: nat, mem: Memory, pc: CatchPc) {
    match pc
    case CaCredit => s.row.status == Settled || Catching(s, id, mem)
    case CaDestination => Catching(s, id, mem) && s.credits == []
    case CaRelease => Catching(s, id, mem) && s.credits == [] && AllDead(s.dests)
    case CaEscrow => Catching(s, id, mem) && s.credits == [] && AllDead(s.dests)
    case CaCompensate =>
      Catching(s, id, mem) && s.credits == [] && AllDead(s.dests) && s.escrow == ReleasedToTreasury
    case CaRefund => Catching(s, id, mem) && Failing(s, id, mem)
    case CaRefundConfirm(tx) => Failing(s, id, mem) && tx == 0 && |s.refunds| == 1
    case CaRefundMark => Failing(s, id, mem) && s.escrow == ReturnedToSender
    case CaRefundReport => Failing(s, id, mem) && s.escrow == ReturnedToSender
    case CaRefundFailed => Failing(s, id, mem)
    case CaFail => Failing(s, id, mem)
  }

  ghost predicate ForwardOk(s: Shared, id: nat, mem: Memory, pc: ForwardPc) {
    && Forwarding(s, id, mem)
    && if pc.FwCredit? then pc.amount == s.cfg.payout else s.credits != []
  }

  ghost predicate CompensateOk(s: Shared, id: nat, mem: Memory, pc: CompensatePc) {
    && HashIn(mem.compHash, s.comps)
    && match pc
       case CoPrior => Holds(s, id, CompensationPending)
       case CoBroadcast => Holds(s, id, CompensationPending)
       case CoPersist => Holds(s, id, CompensationPending) && mem.compHash.Some?
       case CoConfirm => Holds(s, id, CompensationPending) && mem.compHash.Some?
       case CoMark => Holds(s, id, CompensationPending) && HashFate(s.comps, mem.compHash) == Mined
       case CoCatch => Repaying(s, id)
       case CoOutcome => Repaying(s, id)
       case CoRecovered => Repaying(s, id) && HashFate(s.comps, mem.compHash) == Mined
  }

  ghost predicate RepairOk(s: Shared, id: nat, mem: Memory, pc: RepairPc) {
    match pc
    case ReRead => true
    case ReClaim => MemoryOk(s, mem)
    case _ => Holds(s, id, CompensationPending) && MemoryOk(s, mem)
  }

  ghost predicate ReconcileOk(s: Shared, id: nat, mem: Memory, pc: ReconcilePc) {
    match pc
    case RcRead => true
    case RcClaimPayout => Attempted(s, mem)
    case RcDestination => Attempted(s, mem) && Holds(s, id, PayoutPending)
    case RcRelease => Holds(s, id, PayoutPending) && s.credits == [] && AllDead(s.dests)
    case RcPend => Holds(s, id, PayoutPending) && s.credits == [] && AllDead(s.dests)
    case RcClaimCompensation => HashIn(mem.compHash, s.comps)
    case RcCompensation => HashIn(mem.compHash, s.comps) && Holds(s, id, CompensationPending)
  }

  ghost predicate CallOk(s: Shared, id: nat, k: Call) {
    match k.pc
    case InTry(pc) => k.entry == Execute && TryOk(s, id, k.mem, pc)
    case InPayout(pc) => k.entry == Execute && PayoutOk(s, id, k.mem, pc)
    case InCatch(pc) => k.entry == Execute && CatchOk(s, id, k.mem, pc)
    case InForward(pc) => ForwardOk(s, id, k.mem, pc)
    case InCompensate(pc) => CompensateOk(s, id, k.mem, pc)
    case InRepair(pc) => k.entry == Repair && RepairOk(s, id, k.mem, pc)
    case InReconcile(pc) => k.entry == Reconcile && ReconcileOk(s, id, k.mem, pc)
    case Finally(returned) => k.entry == Execute && returned ==> Concluded(s.row.status) && s.resv != NoReservation
    case Done(returned) => k.entry == Execute && returned ==> Concluded(s.row.status) && s.resv != NoReservation
  }

  ghost predicate WorldOk(w: World) {
    SharedOk(w.s) && LedgerOk(w.s) && forall i :: 0 <= i < |w.calls| ==> CallOk(w.s, i, w.calls[i])
  }

  // ----- what every step keeps ----------------------------------------------

  ghost predicate Grows(txs: seq<Fate>, txs': seq<Fate>) {
    |txs| <= |txs'| && forall i :: 0 <= i < |txs| && txs[i] != Pending ==> txs'[i] == txs[i]
  }

  /** Facts that never go back: fates and escrow endings are final, concluded payments
      stay concluded, a reservation row never disappears. */
  ghost predicate Evolves(s: Shared, s': Shared) {
    && s'.cfg == s.cfg
    && Grows(s.comps, s'.comps) && Grows(s.dests, s'.dests)
    && (s.refunds != [] ==> |s'.refunds| >= |s.refunds|)
    && (s.escrow in {ReleasedToTreasury, ReturnedToSender} ==> s'.escrow == s.escrow)
    && (s.row.status in {Settled, Compensated, Cancelled, Refunded} ==> s'.row.status == s.row.status)
    && (s.row.status == Failed ==> s'.row.status in {Failed, Refunded})
    && (Concluded(s.row.status) ==> Concluded(s'.row.status))
    && (s.resv != NoReservation ==> s'.resv != NoReservation)
    && (s.row.status == Settled ==> s'.credits == s.credits)
  }
}
