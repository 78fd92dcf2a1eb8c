/** The settlement saga as a step system, for one payment.

    The world is the payment's database rows, the source escrow contract, every
    transaction ever broadcast for it with the fate the chains hide, and any number of
    calls of executePayment, repairCompensation and reconcileUnresolvedPayment, each
    stopped between two awaits. One action lets one call run to its next await, or a
    pending transaction meet its fate, or another route handler swap the status. Every
    await may fail, and a database write may also land and still throw. */
module SagaModel {
  import opened Options
  import opened PaymentState

  // ----- the chains ---------------------------------------------------------

  /** What becomes of a broadcast transaction; the last three are final. */
  datatype Fate = Pending | Mined | Reverted | Dropped

  /** What transactionOutcome reports about a hash. */
  datatype Outcome = SeenConfirmed | SeenReverted | SeenAbsent | Unknown

  predicate Dead(f: Fate) {
    f == Reverted || f == Dropped
  }

  /** Outcome reads are truthful: a claim the chain does not support comes back unknown,
      and absence is only ever reported of a transaction that can never mine. */
  function Observe(f: Fate, claim: Outcome): Outcome {
    match claim
    case SeenConfirmed => if f == Mined then claim else Unknown
    case SeenReverted => if f == Reverted then claim else Unknown
    case SeenAbsent => if f == Dropped then claim else Unknown
    case Unknown => Unknown
  }

  /** The escrow contract's record of the payment. The two other contract states are
      never entered: nothing in the application calls cancelPayment. */
  datatype Escrow = Empty | Held | ReleasedToTreasury | ReturnedToSender

  datatype TxKind = InitiateTx | SettleTx | RefundTx | DestinationTx | CompensationTx

  /** Token movements caused by this payment, per party. */
  datatype Balances = Balances(sender: int, escrow: int, treasury: int, destTreasury: int, recipient: int)

  // ----- the database -------------------------------------------------------

  datatype Reservation = NoReservation | Reserved | Consumed | Released

  /** The payment row: its status, the execution lease, the two attempt hashes and the
      quoted destination amount. A hash is the index of the transaction it names. */
  datatype Row = Row(
    status: Status,
    lease: Option<nat>,
    destHash: Option<nat>,
    compHash: Option<nat>,
    destAmount: Option<nat>)

  /** What is fixed by the payment and its route: base units escrowed, base units paid
      out, and whether the route crosses networks. */
  datatype Config = Config(amount: nat, payout: nat, cross: bool)

  datatype Shared = Shared(
    cfg: Config,
    row: Row,
    resv: Reservation,
    credits: seq<nat>,
    escrow: Escrow,
    inits: seq<Fate>,
    settles: seq<Fate>,
    refunds: seq<Fate>,
    dests: seq<Fate>,
    comps: seq<Fate>,
    bal: Balances)

  // ----- the calls ----------------------------------------------------------

  /** The in-memory copy of the payment that a call carries from await to await. */
  datatype Memory = Memory(
    status: Status,
    destHash: Option<nat>,
    compHash: Option<nat>,
    destAmount: Option<nat>)

  datatype Entry = Execute | Repair | Reconcile

  // Where a call is stopped: the await it is about to perform. First
  // executePayment up to the swap to PAYOUT_PENDING.
  datatype ExecutePc =
    | ExRead | ExClaim | ExSetup | ExReserve | ExMark | ExAllowance | ExInitiate
    | ExInitiateConfirm(tx: nat) | ExSubmitted | ExConfirmed | ExSettle
    | ExSettleConfirm(tx: nat) | ExFx | ExPayout

  // The rest of the try block, with the source escrow already released.
  datatype PayoutPc = PoBridge | PoPersist | PoConfirm | PoCredit | PoConsume | PoSettled

  // Its catch block.
  datatype CatchPc =
    | CaCredit | CaDestination | CaRelease | CaEscrow | CaCompensate | CaRefund
    | CaRefundConfirm(tx: nat) | CaRefundMark | CaRefundReport | CaRefundFailed | CaFail

  // completeSettledPayout.
  datatype ForwardPc = FwCredit(amount: nat) | FwConsume | FwSettled

  // runCompensationTransfer.
  datatype CompensatePc =
    | CoPrior | CoBroadcast | CoPersist | CoConfirm | CoMark | CoCatch | CoOutcome | CoRecovered

  // repairCompensation.
  datatype RepairPc = ReRead | ReClaim | ReDestination | ReEscrow

  // reconcileUnresolvedPayment.
  datatype ReconcilePc =
    | RcRead | RcClaimPayout | RcDestination | RcRelease | RcPend | RcClaimCompensation | RcCompensation

  /** All of them, with the finally of withExecutionLease and the end of the call, which
      record whether it returned or threw. */
  datatype Pc =
    | InTry(ex: ExecutePc)
    | InPayout(po: PayoutPc)
    | InCatch(ca: CatchPc)
    | InForward(fw: ForwardPc)
    | InCompensate(co: CompensatePc)
    | InRepair(re: RepairPc)
    | InReconcile(rc: ReconcilePc)
    | Finally(returned: bool)
    | Done(returned: bool)

  datatype Call = Call(entry: Entry, pc: Pc, mem: Memory)

  datatype World = World(s: Shared, calls: seq<Call>)

  /** How a database write ends: it returns, throws without effect, or lands and throws. */
  datatype Db = Ok | Lost | Landed

  /** The environment's answers to one await: the write's ending, the outcome the chain
      reports, whether the escrow could be read, and which of the setup branches runs. */
  datatype How = How(db: Db, seen: Outcome, readable: bool, setup: Setup)

  /** Before reserving, an attempt goes on, throws, or marks the payment FAILED; the
      auto-recall failure also releases a reservation. */
  datatype Setup = Proceed | SetupThrows | FailsPayment(releases: bool)

  datatype Action =
    | Spawn(entry: Entry)
    | Advance(id: nat, how: How)
    | Mine(kind: TxKind, index: nat, fate: Fate)
    | Route(to: Status, quoted: Option<nat>)

  datatype Out = Out(s: Shared, call: Call)

  // ----- database primitives ------------------------------------------------

  /** Columns written together with a status. */
  datatype Columns = Columns(destHash: Option<nat>, compHash: Option<nat>, destAmount: Option<nat>)

  const NO_COLUMNS := Columns(None, None, None)

  function Over<T>(update: Option<T>, current: Option<T>): Option<T> {
    if update.Some? then update else current
  }

  function Remember(row: Row): Memory {
    Memory(row.status, row.destHash, row.compHash, row.destAmount)
  }

  /** The row after a successful swap; reaching a lease-releasing status frees the lease
      in the same statement. */
  function Swapped(row: Row, to: Status, columns: Columns): Row {
    Row(to,
        if ReleasesLease(to) then None else row.lease,
        Over(columns.destHash, row.destHash),
        Over(columns.compHash, row.compHash),
        Over(columns.destAmount, row.destAmount))
  }

  /** transitionStatus succeeds only on a legal move from the status the caller
      remembers, and only if the row is still there. */
  predicate CanSwap(s: Shared, mem: Memory, to: Status) {
    CanTransition(mem.status, to) && s.row.status == mem.status
  }

  /** One transitionStatus await: on success the call remembers the new row and goes to
      `next`; on any throw it goes to `thrown` with its memory unchanged. */
  function SetStatus(s: Shared, k: Call, to: Status, columns: Columns, db: Db, next: Pc, thrown: Pc): Out {
    if !CanSwap(s, k.mem, to) || db == Lost then Out(s, k.(pc := thrown))
    else
      var s' := s.(row := Swapped(s.row, to, columns));
      if db == Ok then Out(s', Call(k.entry, next, Remember(s'.row)))
      else Out(s', k.(pc := thrown))
  }

  /** The lease claim: a swap on (status, lease free). A claim that throws runs no
      finally, so one that landed and threw leaks the lease. */
  function Claim(s: Shared, id: nat, k: Call, from: Status, db: Db, next: Pc): Out {
    if s.row.status != from || s.row.lease != None || db == Lost then Out(s, k.(pc := Done(false)))
    else
      var s' := s.(row := s.row.(lease := Some(id)));
      if db == Ok then Out(s', k.(pc := next)) else Out(s', k.(pc := Done(false)))
  }

  function Goto(s: Shared, k: Call, pc: Pc): Out {
    Out(s, k.(pc := pc))
  }

  // ----- executePayment -----------------------------------------------------

  function StepExecute(s: Shared, id: nat, k: Call, pc: ExecutePc, how: How): Out {
    match pc
    case ExRead =>
      if how.db == Ok && s.row.status == Approved
      then Out(s, Call(k.entry, InTry(ExClaim), Remember(s.row))) else Goto(s, k, Done(false))
    case ExClaim => Claim(s, id, k, Approved, how.db, InTry(ExSetup))
    case ExSetup => SetUp(s, k, how)
    case ExReserve =>
      if s.row.status != Approved || s.row.lease != Some(id) || how.db == Lost then Goto(s, k, Finally(false))
      else Goto(s.(resv := Reserved), k, if how.db == Ok then InTry(ExMark) else Finally(false))
    case ExMark => SetStatus(s, k, LiquidityReserved, NO_COLUMNS, how.db, InTry(ExAllowance), Finally(false))
    case ExAllowance => Goto(s, k, if how.db == Ok then InTry(ExInitiate) else InCatch(CaCredit))
    case ExInitiate =>
      if how.db != Ok then Goto(s, k, InCatch(CaCredit))
      else Goto(s.(inits := s.inits + [Pending]), k, InTry(ExInitiateConfirm(|s.inits|)))
    case ExInitiateConfirm(tx) =>
      Goto(s, k, if how.db == Ok && FateOf(s.inits, tx) == Mined then InTry(ExSubmitted) else InCatch(CaCredit))
    case ExSubmitted => SetStatus(s, k, SubmittedOnchain, NO_COLUMNS, how.db, InTry(ExConfirmed), InCatch(CaCredit))
    case ExConfirmed => SetStatus(s, k, ConfirmedOnchain, NO_COLUMNS, how.db, InTry(ExSettle), InCatch(CaCredit))
    case ExSettle =>
      if how.db != Ok then Goto(s, k, InCatch(CaCredit))
      else Goto(s.(settles := s.settles + [Pending]), k, InTry(ExSettleConfirm(|s.settles|)))
    case ExSettleConfirm(tx) =>
      Goto(s, k, if how.db == Ok && FateOf(s.settles, tx) == Mined then InTry(ExFx) else InCatch(CaCredit))
    case ExFx =>
      SetStatus(s, k, FxOrSwapCompleted, Columns(None, None, Some(s.cfg.payout)),
        how.db, InTry(ExPayout), InCatch(CaCredit))
    case ExPayout =>
      SetStatus(s, k, PayoutPending, NO_COLUMNS, how.db,
        if s.cfg.cross then InPayout(PoBridge) else InPayout(PoCredit), InCatch(CaCredit))
  }

  /** The tail of the try block: the bridge leg, the ledger credit and SETTLED. */
  function StepPayout(s: Shared, k: Call, pc: PayoutPc, how: How): Out {
    match pc
    case PoBridge =>
      if how.db != Ok then Goto(s, k, InCatch(CaCredit))
      else
        Out(s.(dests := s.dests + [Pending]), Call(k.entry, InPayout(PoPersist), k.mem.(destHash := Some(|s.dests|))))
    case PoPersist =>
      var s' := s.(row := s.row.(destHash := k.mem.destHash));
      if how.db == Ok then Out(s', Call(k.entry, InPayout(PoConfirm), Remember(s'.row)))
      else Goto(if how.db == Lost then s else s', k, InCatch(CaCredit))
    case PoConfirm =>
      Goto(s, k,
        if how.db == Ok && HashFate(s.dests, k.mem.destHash) == Mined then InPayout(PoCredit) else InCatch(CaCredit))
    case PoCredit =>
      // The credit's payment id is unique, so a second one throws.
      if how.db == Lost || s.credits != [] then Goto(s, k, InCatch(CaCredit))
      else Goto(s.(credits := [s.cfg.payout]), k, if how.db == Ok then InPayout(PoConsume) else InCatch(CaCredit))
    case PoConsume =>
      Goto(if how.db == Lost then s else s.(resv := Consumed), k,
        if how.db == Ok then InPayout(PoSettled) else InCatch(CaCredit))
    case PoSettled => SetStatus(s, k, Settled, NO_COLUMNS, how.db, Finally(true), InCatch(CaCredit))
  }

  /** Everything between the claim and the reservation: it may throw, mark the payment
      FAILED and throw, or go on, possibly re-reading the row on the way. */
  function SetUp(s: Shared, k: Call, how: How): Out {
    match how.setup
    case Proceed => Out(s, Call(k.entry, InTry(ExReserve), if how.readable then Remember(s.row) else k.mem))
    case SetupThrows => Goto(s, k, Finally(false))
    case FailsPayment(releases) =>
      var s' := if releases && s.resv != NoReservation then s.(resv := Released) else s;
      SetStatus(s', k, Failed, NO_COLUMNS, how.db, Finally(false), Finally(false))
  }

  function FateOf(txs: seq<Fate>, i: nat): Fate {
    if i < |txs| then txs[i] else Dropped
  }

  function HashFate(txs: seq<Fate>, hash: Option<nat>): Fate {
    if hash.Some? then FateOf(txs, hash.value) else Dropped
  }

  // ----- the catch block ----------------------------------------------------

  function StepCatch(s: Shared, k: Call, pc: CatchPc, how: How): Out {
    match pc
    case CaCredit =>
      if how.db != Ok then Goto(s, k, Finally(false))
      else Goto(s, k, if s.credits != [] then InForward(FwCredit(s.cfg.payout)) else InCatch(CaDestination))
    case CaDestination =>
      if k.mem.destHash == None then Goto(s, k, InCatch(CaRelease))
      else
        (match Observe(HashFate(s.dests, k.mem.destHash), how.seen)
         case SeenConfirmed => Goto(s, k, InForward(FwCredit(s.cfg.payout)))
         case Unknown => Goto(s, k, Finally(how.db == Ok))
         case _ => Goto(s, k, InCatch(CaRelease)))
    case CaRelease => Goto(if how.db == Lost then s else s.(resv := Released), k, InCatch(CaEscrow))
    case CaEscrow => Goto(s, k, Undo(s, k.mem, how.readable))
    case CaCompensate =>
      SetStatus(s, k, CompensationPending, NO_COLUMNS, how.db, InCompensate(CoPrior), Finally(false))
    case CaRefund =>
      if how.db != Ok then Goto(s, k, InCatch(CaRefundFailed))
      else Goto(s.(refunds := s.refunds + [Pending]), k, InCatch(CaRefundConfirm(|s.refunds|)))
    case CaRefundConfirm(tx) =>
      Goto(s, k,
        if how.db == Ok && FateOf(s.refunds, tx) == Mined then InCatch(CaRefundMark) else InCatch(CaRefundFailed))
    case CaRefundMark => SetStatus(s, k, Failed, NO_COLUMNS, how.db, InCatch(CaRefundReport), InCatch(CaRefundFailed))
    case CaRefundReport => SetStatus(s, k, Refunded, NO_COLUMNS, how.db, Finally(true), InCatch(CaRefundFailed))
    case CaRefundFailed => Goto(s, k, if how.db == Ok then InCatch(CaFail) else Finally(false))
    case CaFail =>
      if k.mem.status == Failed then Goto(s, k, Finally(true))
      else SetStatus(s, k, Failed, NO_COLUMNS, how.db, Finally(true), Finally(false))
  }

  /** The catch's decision: compensate a released escrow, refund a held one, otherwise
      just fail. When the escrow cannot be read, the remembered status decides. */
  function Undo(s: Shared, mem: Memory, readable: bool): Pc {
    if readable then
      match s.escrow
      case ReleasedToTreasury => InCatch(CaCompensate)
      case Held => InCatch(CaRefund)
      case _ => InCatch(CaFail)
    else if mem.status in {FxOrSwapCompleted, PayoutPending} then InCatch(CaCompensate)
    else if mem.status in {SubmittedOnchain, ConfirmedOnchain} then InCatch(CaRefund)
    else InCatch(CaFail)
  }

  // ----- completeSettledPayout ----------------------------------------------

  function StepForward(s: Shared, k: Call, pc: ForwardPc, how: How): Out {
    match pc
    case FwCredit(amount) =>
      if s.credits != [] then Goto(s, k, if how.db == Ok then InForward(FwConsume) else Finally(false))
      else if how.db == Lost then Goto(s, k, Finally(false))
      else Goto(s.(credits := [amount]), k, if how.db == Ok then InForward(FwConsume) else Finally(false))
    case FwConsume =>
      Goto(if how.readable then s.(resv := Consumed) else s, k,
        if how.db == Ok then InForward(FwSettled) else Finally(false))
    case FwSettled =>
      SetStatus(s, k, Settled, Columns(k.mem.destHash, None, None), how.db, Finally(true), Finally(false))
  }

  // ----- runCompensationTransfer --------------------------------------------

  function StepCompensate(s: Shared, k: Call, pc: CompensatePc, how: How): Out {
    match pc
    case CoPrior =>
      if k.mem.compHash == None then Goto(s, k, InCompensate(CoBroadcast))
      else
        (match Observe(HashFate(s.comps, k.mem.compHash), how.seen)
         case SeenConfirmed => Goto(s, k, InCompensate(CoRecovered))
         case Unknown => Goto(s, k, Finally(false))
         case _ => Goto(s, k, InCompensate(CoBroadcast)))
    case CoBroadcast =>
      if how.db != Ok then Goto(s, k, InCompensate(CoCatch))
      else
        Out(s.(comps := s.comps + [Pending]),
          Call(k.entry, InCompensate(CoPersist), k.mem.(compHash := Some(|s.comps|))))
    case CoPersist =>
      var s' := s.(row := s.row.(compHash := k.mem.compHash));
      if how.db == Ok then Out(s', Call(k.entry, InCompensate(CoConfirm), Remember(s'.row)))
      else Goto(if how.db == Lost then s else s', k, InCompensate(CoCatch))
    case CoConfirm =>
      Goto(s, k,
        InCompensate(if how.db == Ok && HashFate(s.comps, k.mem.compHash) == Mined then CoMark else CoCatch))
    case CoMark =>
      SetStatus(s, k, Compensated, Columns(None, k.mem.compHash, None), how.db, Finally(true), InCompensate(CoCatch))
    case CoCatch =>
      if k.mem.compHash == None then Goto(s, k, Finally(how.db == Ok))
      else if !how.readable then Goto(s, k, Finally(false))
      else
        // Best effort, and only when the row has no hash at all.
        Goto(if s.row.compHash == None && how.db != Lost then s.(row := s.row.(compHash := k.mem.compHash)) else s,
             k, InCompensate(CoOutcome))
    case CoOutcome =>
      if Observe(HashFate(s.comps, k.mem.compHash), how.seen) == SeenConfirmed
      then Goto(s, k, InCompensate(CoRecovered))
      else Goto(s, k, Finally(how.db == Ok))
    case CoRecovered =>
      SetStatus(s, k, Compensated, Columns(None, k.mem.compHash, None), how.db, Finally(true), Finally(false))
  }

  // ----- repairCompensation and reconcileUnresolvedPayment ------------------

  function StepRepair(s: Shared, id: nat, k: Call, pc: RepairPc, how: How): Out {
    match pc
    case ReRead =>
      if how.db != Ok then Goto(s, k, Done(false))
      else if s.row.status == Compensated then Goto(s, k, Done(true))
      else if s.row.status != CompensationPending then Goto(s, k, Done(false))
      else Out(s, Call(k.entry, InRepair(ReClaim), Remember(s.row)))
    case ReClaim => Claim(s, id, k, CompensationPending, how.db, InRepair(ReDestination))
    case ReDestination =>
      if k.mem.destHash == None then Goto(s, k, InRepair(ReEscrow))
      else
        (match Observe(HashFate(s.dests, k.mem.destHash), how.seen)
         case SeenConfirmed => Goto(s, k, Finally(false))
         case Unknown => Goto(s, k, Finally(false))
         case _ => Goto(s, k, InRepair(ReEscrow)))
    case ReEscrow =>
      Goto(s, k, if how.readable && s.escrow == ReleasedToTreasury then InCompensate(CoPrior) else Finally(false))
  }

  function StepReconcile(s: Shared, id: nat, k: Call, pc: ReconcilePc, how: How): Out {
    match pc
    case RcRead =>
      var mem := Remember(s.row);
      if how.db != Ok then Goto(s, k, Done(false))
      else if s.row.status in {Settled, Compensated} then Goto(s, k, Done(true))
      else if s.row.status == PayoutPending && mem.destHash.Some?
      then Out(s, Call(k.entry, InReconcile(RcClaimPayout), mem))
      else if s.row.status == CompensationPending && mem.compHash.Some?
      then Out(s, Call(k.entry, InReconcile(RcClaimCompensation), mem))
      else Goto(s, k, Done(false))
    case RcClaimPayout => Claim(s, id, k, PayoutPending, how.db, InReconcile(RcDestination))
    case RcDestination =>
      (match Observe(HashFate(s.dests, k.mem.destHash), how.seen)
       case SeenConfirmed =>
         Goto(s, k, InForward(FwCredit(if k.mem.destAmount.Some? then k.mem.destAmount.value else s.cfg.payout)))
       case Unknown => Goto(s, k, Finally(how.db == Ok))
       case _ => Goto(s, k, InReconcile(RcRelease)))
    case RcRelease => Goto(if how.db == Lost then s else s.(resv := Released), k, InReconcile(RcPend))
    case RcPend => SetStatus(s, k, CompensationPending, NO_COLUMNS, how.db, Finally(true), Finally(false))
    case RcClaimCompensation => Claim(s, id, k, CompensationPending, how.db, InReconcile(RcCompensation))
    case RcCompensation =>
      if Observe(HashFate(s.comps, k.mem.compHash), how.seen) == SeenConfirmed
      then Goto(s, k, InCompensate(CoRecovered))
      else Goto(s, k, Finally(how.db == Ok))
  }

  /** The finally block frees the lease only if it is still this call's; its failure is
      swallowed. */
  function StepFinally(s: Shared, id: nat, k: Call, how: How): Out {
    match k.pc
    case Finally(returned) =>
      var s' := if s.row.lease == Some(id) && how.db != Lost then s.(row := s.row.(lease := None)) else s;
      Goto(s', k, Done(returned))
    case _ => Out(s, k)
  }

  // ----- the step system ----------------------------------------------------

  /** One call runs to its next await. */
  function StepCall(s: Shared, id: nat, k: Call, how: How): Out {
    match k.pc
    case InTry(pc) => StepExecute(s, id, k, pc, how)
    case InPayout(pc) => StepPayout(s, k, pc, how)
    case InCatch(pc) => StepCatch(s, k, pc, how)
    case InForward(pc) => StepForward(s, k, pc, how)
    case InCompensate(pc) => StepCompensate(s, k, pc, how)
    case InRepair(pc) => StepRepair(s, id, k, pc, how)
    case InReconcile(pc) => StepReconcile(s, id, k, pc, how)
    case _ => StepFinally(s, id, k, how)
  }

  /** A pending transaction meets its fate. A contract call mines only from the escrow
      state it demands; otherwise it reverts. */
  function MineTx(s: Shared, kind: TxKind, i: nat, fate: Fate): Shared {
    var a := s.cfg.amount;
    match kind
    case InitiateTx =>
      if FateOf(s.inits, i) != Pending || fate == Pending then s
      else if fate == Mined && s.escrow == Empty then
        s.(inits := s.inits[i := Mined], escrow := Held,
           bal := s.bal.(sender := s.bal.sender - a, escrow := s.bal.escrow + a))
      else s.(inits := s.inits[i := if fate == Mined then Reverted else fate])
    case SettleTx =>
      if FateOf(s.settles, i) != Pending || fate == Pending then s
      else if fate == Mined && s.escrow == Held then
        s.(settles := s.settles[i := Mined], escrow := ReleasedToTreasury,
           bal := s.bal.(escrow := s.bal.escrow - a, treasury := s.bal.treasury + a))
      else s.(settles := s.settles[i := if fate == Mined then Reverted else fate])
    case RefundTx =>
      if FateOf(s.refunds, i) != Pending || fate == Pending then s
      else if fate == Mined && s.escrow == Held then
        s.(refunds := s.refunds[i := Mined], escrow := ReturnedToSender,
           bal := s.bal.(escrow := s.bal.escrow - a, sender := s.bal.sender + a))
      else s.(refunds := s.refunds[i := if fate == Mined then Reverted else fate])
    case DestinationTx =>
      if FateOf(s.dests, i) != Pending || fate == Pending then s
      else if fate == Mined then
        s.(dests := s.dests[i := Mined],
           bal := s.bal.(destTreasury := s.bal.destTreasury - s.cfg.payout,
                         recipient := s.bal.recipient + s.cfg.payout))
      else s.(dests := s.dests[i := fate])
    case CompensationTx =>
      if FateOf(s.comps, i) != Pending || fate == Pending then s
      else if fate == Mined then
        s.(comps := s.comps[i := Mined],
           bal := s.bal.(treasury := s.bal.treasury - a, sender := s.bal.sender + a))
      else s.(comps := s.comps[i := fate])
  }

  /** The other route handlers (quote, the compliance gate of execute, review, cancel)
      change the status by a swap from a cancellable status; quoting also writes the
      destination amount. */
  function RouteSwap(s: Shared, to: Status, quoted: Option<nat>): Shared {
    if Cancellable(s.row.status) && CanTransition(s.row.status, to) && to != LiquidityReserved && to != Failed then
      s.(row := Swapped(s.row, to, Columns(None, None, quoted)))
    else s
  }

  function EntryPc(entry: Entry): Pc {
    match entry
    case Execute => InTry(ExRead)
    case Repair => InRepair(ReRead)
    case Reconcile => InReconcile(RcRead)
  }

  function Next(w: World, a: Action): World {
    match a
    case Spawn(entry) => w.(calls := w.calls + [Call(entry, EntryPc(entry), Remember(w.s.row))])
    case Advance(id, how) =>
      if id < |w.calls| then
        var out := StepCall(w.s, id, w.calls[id], how);
        World(out.s, w.calls[id := out.call])
      else w
    case Mine(kind, i, fate) => w.(s := MineTx(w.s, kind, i, fate))
    case Route(to, quoted) => w.(s := RouteSwap(w.s, to, quoted))
  }

  /** A fresh payment in DRAFT, with no call running. */
  function Start(cfg: Config): World {
    World(
      Shared(cfg, Row(Draft, None, None, None, None), NoReservation, [], Empty, [], [], [], [], [],
             Balances(0, 0, 0, 0, 0)),
      [])
  }

  /** The world after a whole run: any interleaving of any number of calls. */
  function Run(w: World, run: seq<Action>): World
    decreases |run|
  {
    if run == [] then w else Run(Next(w, run[0]), run[1..])
  }

  // ----- what the operator sees ---------------------------------------------

  /** stuckPayments: whether the payment is listed, given whether its escrow could be
      read. An unreadable escrow keeps a candidate on the list. */
  predicate Listed(s: Shared, readable: bool) {
    && (s.row.status in {CompensationPending, PayoutPending} || (s.row.status == Failed && s.resv != NoReservation))
    && (s.row.status in {CompensationPending, PayoutPending} || !readable || s.escrow in {Held, ReleasedToTreasury})
  }
}
