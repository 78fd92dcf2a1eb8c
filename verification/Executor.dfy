/** The executor in the shape of lib/executor.ts: try, catch and finally over awaits, as
    methods that mutate one shared world. Before every await other calls run and the chains
    move; then the method writes its own effect on what it finds. Each write is checked
    against the step system, so everything proved of its runs holds whenever a call
    returns; and each method's contract says what its part of the code achieves. */
module Executor {
  import opened Options
  import opened PaymentState
  import opened SagaModel
  import opened SagaInvariant
  import opened SagaSteps
  import opened SagaTheorems
  import opened SagaOthers

  /** What happens at one await: what other calls and the chains do first, and how this
      call's operation ends. */
  datatype Moment = Moment(others: seq<Action>, how: How)

  /** What the catch block learned about the payout. */
  datatype Evidence = NoAnswer | SaysPaid | Unreadable | SaysUnpaid

  /** What a reconcile read: a payout, a make-good, or a payment already finished. */
  datatype Finding = Finished | Payout(payout: Outcome) | Transfer(transfer: Outcome)

  /** Where a reconcile that returns leaves the payment, by what it read. */
  predicate ActsOn(finding: Finding, status: Status) {
    match finding
    case Finished => status in {Settled, Compensated}
    case Payout(SeenConfirmed) => status == Settled
    case Payout(SeenReverted) => status == CompensationPending
    case Payout(SeenAbsent) => status == CompensationPending
    case Transfer(SeenConfirmed) => status == Compensated
    case _ => true
  }

  /** The attempt the hash names, if any, has met its fate. */
  predicate HashFinal(txs: seq<Fate>, hash: Option<nat>) {
    HashFate(txs, hash) != Pending
  }

  /** What a read of the destination chain says about a payout never credited: paid if it
      mined and that is what is read, unpaid if it never was sent or can never mine and that
      is what is read, and otherwise nothing. */
  function EvidenceOf(txs: seq<Fate>, hash: Option<nat>, claim: Outcome): Evidence {
    if hash == None then SaysUnpaid
    else
      match HashFate(txs, hash)
      case Mined => if claim == SeenConfirmed then SaysPaid else Unreadable
      case Reverted => if claim == SeenReverted then SaysUnpaid else Unreadable
      case Dropped => if claim == SeenAbsent then SaysUnpaid else Unreadable
      case Pending => Unreadable
  }

  // ----- where the call stands ----------------------------------------------

  /** The awaits that write nothing: chain reads, receipts, the allowance, reports. */
  predicate Looks(pc: Pc) {
    match pc
    case InTry(p) => p == ExAllowance || p.ExInitiateConfirm? || p.ExSettleConfirm?
    case InPayout(p) => p == PoConfirm
    case InCatch(p) => p in {CaCredit, CaDestination, CaEscrow, CaRefundFailed} || p.CaRefundConfirm?
    case InCompensate(p) => p in {CoPrior, CoConfirm, CoOutcome}
    case InRepair(p) => p in {ReDestination, ReEscrow}
    case InReconcile(p) => p in {RcDestination, RcCompensation}
    case _ => false
  }

  lemma LooksWriteNothing(s: Shared, id: nat, k: Call, how: How)
    requires Looks(k.pc)
    ensures var out := StepCall(s, id, k, how); out.s == s && out.call.mem == k.mem
  {
  }

  /** The status swap the call is about to attempt, with the columns it writes. */
  function SwapAt(k: Call, cfg: Config): Option<(Status, Columns)> {
    match k.pc
    case InTry(ExMark) => Some((LiquidityReserved, NO_COLUMNS))
    case InTry(ExSubmitted) => Some((SubmittedOnchain, NO_COLUMNS))
    case InTry(ExConfirmed) => Some((ConfirmedOnchain, NO_COLUMNS))
    case InTry(ExFx) => Some((FxOrSwapCompleted, Columns(None, None, Some(cfg.payout))))
    case InTry(ExPayout) => Some((PayoutPending, NO_COLUMNS))
    case InPayout(PoSettled) => Some((Settled, NO_COLUMNS))
    case InCatch(CaCompensate) => Some((CompensationPending, NO_COLUMNS))
    case InCatch(CaRefundMark) => Some((Failed, NO_COLUMNS))
    case InCatch(CaRefundReport) => Some((Refunded, NO_COLUMNS))
    case InCatch(CaFail) => if k.mem.status == Failed then None else Some((Failed, NO_COLUMNS))
    case InForward(FwSettled) => Some((Settled, Columns(k.mem.destHash, None, None)))
    case InCompensate(CoMark) => Some((Compensated, Columns(None, k.mem.compHash, None)))
    case InCompensate(CoRecovered) => Some((Compensated, Columns(None, k.mem.compHash, None)))
    case InReconcile(RcPend) => Some((CompensationPending, NO_COLUMNS))
    case _ => None
  }

  /** Where a status swap leads, by where the call stood. */
  function AfterSwap(k: Call, ok: bool, cross: bool): Pc {
    match k.pc
    case InTry(ExMark) => if ok then InTry(ExAllowance) else Finally(false)
    case InTry(ExSubmitted) => if ok then InTry(ExConfirmed) else InCatch(CaCredit)
    case InTry(ExConfirmed) => if ok then InTry(ExSettle) else InCatch(CaCredit)
    case InTry(ExFx) => if ok then InTry(ExPayout) else InCatch(CaCredit)
    case InTry(ExPayout) => if !ok then InCatch(CaCredit) else if cross then InPayout(PoBridge) else InPayout(PoCredit)
    case InPayout(PoSettled) => if ok then Finally(true) else InCatch(CaCredit)
    case InCatch(CaCompensate) => if ok then InCompensate(CoPrior) else Finally(false)
    case InCatch(CaRefundMark) => if ok then InCatch(CaRefundReport) else InCatch(CaRefundFailed)
    case InCatch(CaRefundReport) => if ok then Finally(true) else InCatch(CaRefundFailed)
    case InCatch(CaFail) => Finally(ok)
    case InForward(FwSettled) => Finally(ok)
    case InCompensate(CoMark) => if ok then Finally(true) else InCompensate(CoCatch)
    case InCompensate(CoRecovered) => Finally(ok)
    case InReconcile(RcPend) => Finally(ok)
    case _ => k.pc
  }

  lemma SwapLeads(s: Shared, id: nat, k: Call, how: How, to: Status, columns: Columns)
    requires SwapAt(k, s.cfg) == Some((to, columns))
    ensures var out := StepCall(s, id, k, how);
      out == SetStatus(s, k, to, columns, how.db, AfterSwap(k, true, s.cfg.cross), AfterSwap(k, false, s.cfg.cross))
  {
  }

  /** The transaction the call is about to send. */
  function SendAt(pc: Pc): Option<TxKind> {
    match pc
    case InTry(ExInitiate) => Some(InitiateTx)
    case InTry(ExSettle) => Some(SettleTx)
    case InCatch(CaRefund) => Some(RefundTx)
    case InPayout(PoBridge) => Some(DestinationTx)
    case InCompensate(CoBroadcast) => Some(CompensationTx)
    case _ => None
  }

  function Sent(s: Shared, kind: TxKind): seq<Fate> {
    match kind
    case InitiateTx => s.inits
    case SettleTx => s.settles
    case RefundTx => s.refunds
    case DestinationTx => s.dests
    case CompensationTx => s.comps
  }

  /** The world with one more pending transaction. */
  function WithSent(s: Shared, kind: TxKind): Shared {
    match kind
    case InitiateTx => s.(inits := s.inits + [Pending])
    case SettleTx => s.(settles := s.settles + [Pending])
    case RefundTx => s.(refunds := s.refunds + [Pending])
    case DestinationTx => s.(dests := s.dests + [Pending])
    case CompensationTx => s.(comps := s.comps + [Pending])
  }

  /** A call's memory of the hash it just got back. */
  function Noting(mem: Memory, kind: TxKind, hash: nat): Memory {
    match kind
    case DestinationTx => mem.(destHash := Some(hash))
    case CompensationTx => mem.(compHash := Some(hash))
    case _ => mem
  }

  /** Where a broadcast leads: to its receipt, or first to saving the hash. */
  function AfterSend(kind: TxKind, ok: bool, tx: nat): Pc {
    match kind
    case InitiateTx => if ok then InTry(ExInitiateConfirm(tx)) else InCatch(CaCredit)
    case SettleTx => if ok then InTry(ExSettleConfirm(tx)) else InCatch(CaCredit)
    case RefundTx => if ok then InCatch(CaRefundConfirm(tx)) else InCatch(CaRefundFailed)
    case DestinationTx => if ok then InPayout(PoPersist) else InCatch(CaCredit)
    case CompensationTx => InCompensate(if ok then CoPersist else CoCatch)
  }

  function ReceiptOf(kind: TxKind, tx: nat): Pc {
    match kind
    case DestinationTx => InPayout(PoConfirm)
    case CompensationTx => InCompensate(CoConfirm)
    case _ => AfterSend(kind, true, tx)
  }

  function AfterReceipt(kind: TxKind, ok: bool): Pc {
    match kind
    case InitiateTx => if ok then InTry(ExSubmitted) else InCatch(CaCredit)
    case SettleTx => if ok then InTry(ExFx) else InCatch(CaCredit)
    case RefundTx => InCatch(if ok then CaRefundMark else CaRefundFailed)
    case DestinationTx => if ok then InPayout(PoCredit) else InCatch(CaCredit)
    case CompensationTx => InCompensate(if ok then CoMark else CoCatch)
  }

  lemma ReceiptLeads(s: Shared, id: nat, k: Call, how: How, kind: TxKind, tx: nat)
    requires k.pc == ReceiptOf(kind, tx)
    requires kind == DestinationTx ==> k.mem.destHash == Some(tx)
    requires kind == CompensationTx ==> k.mem.compHash == Some(tx)
    ensures Looks(k.pc)
    ensures StepCall(s, id, k, how).call.pc == AfterReceipt(kind, how.db == Ok && FateOf(Sent(s, kind), tx) == Mined)
  {
  }

  /** The status over which the call is about to claim the lease, and where that leads. */
  function ClaimAt(pc: Pc): Option<(Status, Pc)> {
    match pc
    case InTry(ExClaim) => Some((Approved, InTry(ExSetup)))
    case InRepair(ReClaim) => Some((CompensationPending, InRepair(ReDestination)))
    case InReconcile(RcClaimPayout) => Some((PayoutPending, InReconcile(RcDestination)))
    case InReconcile(RcClaimCompensation) => Some((CompensationPending, InReconcile(RcCompensation)))
    case _ => None
  }

  function AfterRelease(cfg: Config): Pc {
    InPayout(if cfg.cross then PoBridge else PoCredit)
  }

  /** No payout, refund or credit between two states, and the reservation as it was. */
  ghost predicate PayoutKept(s: Shared, s': Shared) {
    && s'.resv == s.resv
    && |s'.refunds| == |s.refunds| && |s'.dests| == |s.dests| && Grows(s.dests, s'.dests)
    && s'.credits == s.credits && (s.escrow == ReleasedToTreasury ==> s'.escrow == s.escrow)
  }

  /** And no make-good either. */
  ghost predicate SentNone(s: Shared, s': Shared) {
    PayoutKept(s, s') && |s'.comps| == |s.comps| && Grows(s.comps, s'.comps)
  }

  /** At most one make-good was sent, and one that was is the one remembered. */
  ghost predicate OneMore(s: Shared, hash: Option<nat>, s': Shared, hash': Option<nat>) {
    && PayoutKept(s, s') && Grows(s.comps, s'.comps)
    && if |s'.comps| == |s.comps| then hash' == hash else |s'.comps| == |s.comps| + 1 && hash' == Some(|s.comps|)
  }

  lemma OneMoreLater(s: Shared, hash: Option<nat>, s1: Shared, hash': Option<nat>, s2: Shared)
    requires OneMore(s, hash, s1, hash') && SentNone(s1, s2)
    ensures OneMore(s, hash, s2, hash')
  {
    GrowsChain(s.dests, s1.dests, s2.dests);
    GrowsChain(s.comps, s1.comps, s2.comps);
  }

  lemma OneMoreAfter(s: Shared, s1: Shared, hash: Option<nat>, s2: Shared, hash': Option<nat>)
    requires SentNone(s, s1) && OneMore(s1, hash, s2, hash')
    ensures OneMore(s, hash, s2, hash')
  {
    GrowsChain(s.dests, s1.dests, s2.dests);
    GrowsChain(s.comps, s1.comps, s2.comps);
  }

  lemma SentNoneChain(s: Shared, s1: Shared, s2: Shared)
    requires SentNone(s, s1) && SentNone(s1, s2)
    ensures SentNone(s, s2)
  {
    GrowsChain(s.dests, s1.dests, s2.dests);
    GrowsChain(s.comps, s1.comps, s2.comps);
  }

  lemma DeadStays(txs: seq<Fate>, txs': seq<Fate>, hash: Option<nat>)
    requires Grows(txs, txs') && HashIn(hash, txs) && Dead(HashFate(txs, hash))
    ensures Dead(HashFate(txs', hash))
  {
  }

  lemma FinalStays(txs: seq<Fate>, txs': seq<Fate>, hash: Option<nat>)
    requires Grows(txs, txs') && HashIn(hash, txs)
    ensures HashFinal(txs, hash) ==> HashFate(txs', hash) == HashFate(txs, hash)
  {
  }

  /** What the chains cannot undo while they alone move. */
  ghost predicate ChainsKeep(s: Shared, s': Shared) {
    && (s.inits == [Mined] ==> s'.inits == [Mined])
    && (s.escrow == ReleasedToTreasury ==> s'.escrow == ReleasedToTreasury)
    && (Unpaid(s) ==> Unpaid(s'))
    && (s.refunds == [] ==> s'.refunds == []) && (s.comps == [] ==> s'.comps == [])
  }

  lemma OwnedChainsKeep(s: Shared, s': Shared)
    requires OnlyChainsMove(s, s')
    ensures ChainsKeep(s, s')
  {
  }

  /** The make-good has mined, and that is what is read. */
  predicate SeesMined(s: Shared, hash: Option<nat>, how: How) {
    HashFate(s.comps, hash) == Mined && how.seen == SeenConfirmed
  }

  /** The sender is owed, or has been repaid, and no other call can send anything. */
  ghost predicate Repayable(s: Shared, id: nat) {
    Safe(s, id) && s.row.status in {CompensationPending, Compensated}
  }

  lemma RepayableRests(s: Shared, s': Shared, id: nat)
    requires Repayable(s, id) && Rests(s, s', id)
    ensures Repayable(s', id) && SentNone(s, s')
    ensures s'.row.status == s.row.status && s'.row.compHash == s.row.compHash
  {
    SafeRests(s, s', id);
  }

  /** The recipient is paid, and only bookkeeping is left: nothing was or will be paid
      back. */
  ghost predicate PaidOut(s: Shared) {
    && s.row.status in {PayoutPending, Settled} && s.escrow == ReleasedToTreasury && LegDone(s)
    && s.comps == []
    && (s.credits == [] || s.credits == [s.cfg.payout]) && (s.row.status == Settled ==> s.credits != [])
  }

  lemma PaidOutRests(s: Shared, s': Shared, id: nat)
    requires PaidOut(s) && Safe(s, id) && Rests(s, s', id)
    ensures PaidOut(s') && Safe(s', id) && s'.credits == s.credits
    ensures s.resv == Consumed ==> s'.resv == Consumed
  {
    SafeRests(s, s', id);
  }

  /** The recipient is not paid, and no broadcast transfer can still pay them. */
  ghost predicate Unpaid(s: Shared) {
    s.credits == [] && AllDead(s.dests)
  }

  /** Nothing has been paid out or back, and this call owns the payment. */
  ghost predicate Undoable(s: Shared, id: nat) {
    Owns(s, id) && Unpaid(s) && s.refunds == [] && s.comps == []
  }

  /** And later, too. */
  lemma EscrowStood(s: Shared, s': Shared, id: nat)
    requires SharedOk(s) && SharedOk(s') && Rests(s, s', id) && Owns(s, id) && s'.refunds == []
    ensures EscrowStands(s) ==> EscrowStands(s') && s'.escrow == s.escrow
  {
    if s.escrow == Held && AllDead(s.settles) {
      assert s'.settles == s.settles;
    }
  }

  lemma UndoableRests(s: Shared, s': Shared, id: nat)
    requires Undoable(s, id) && Rests(s, s', id)
    ensures Undoable(s', id)
  {
  }

  /** The escrow counts as held, or as released, by what the catch read of it: an escrow that
      cannot be read goes by the remembered status. */
  predicate EscrowHeld(read: Option<Escrow>, mem: Memory) {
    read == Some(Held) || (read == None && mem.status in {SubmittedOnchain, ConfirmedOnchain})
  }

  predicate SettledOnChain(read: Option<Escrow>, mem: Memory) {
    read == Some(ReleasedToTreasury) || (read == None && mem.status in {FxOrSwapCompleted, PayoutPending})
  }

  /** What a read of the escrow says when nothing is pending that could change it. */
  ghost predicate EscrowStands(s: Shared) {
    s.escrow == ReleasedToTreasury || (s.escrow == Held && AllDead(s.settles))
  }

  class Saga {
    const env: nat -> Moment
    const cfg: Config
    var w: World
    var awaits: nat
    ghost var trace: seq<Action>

    constructor (cfg: Config, env: nat -> Moment)
      ensures Valid() && this.cfg == cfg && w == Start(cfg)
    {
      this.cfg, this.env, w, awaits := cfg, env, Start(cfg), 0;
      trace := [];
    }

    /** The world is where the step system gets from a fresh payment. */
    ghost predicate Valid()
      reads this
    {
      w == Run(Start(cfg), trace)
    }

    predicate AtPc(id: nat, pc: Pc)
      reads this
    {
      id < |w.calls| && w.calls[id].pc == pc
    }

    /** How the environment ends the n-th await. */
    function Answer(n: nat): How {
      env(n).how
    }

    /** The call's own copy of the payment. */
    function Mem(id: nat): Memory
      requires id < |w.calls|
      reads this
    {
      w.calls[id].mem
    }

    /** The same call has got to this point. */
    twostate predicate Reached(id: nat, pc: Pc)
      reads this
    {
      && Valid() && AtPc(id, pc)
      && id < |old(w.calls)| && w.calls[id].entry == old(w.calls[id].entry)
    }

    /** What is always true of the shared state, and of the call where it stands. */
    lemma Sound(id: nat)
      requires Valid() && id < |w.calls|
      ensures SharedOk(w.s) && CallOk(w.s, id, w.calls[id]) && w.s.cfg == cfg
    {
      Reachable(cfg, trace);
    }

    /** Others run before an await: the call stands where it stood, and what it owns is as
        it left it. */
    method Others(id: nat) returns (how: How)
      requires Valid() && id < |w.calls|
      modifies this`w, this`awaits, this`trace
      ensures Valid() && id < |w.calls| && w.calls[id] == old(w.calls[id])
      ensures Rests(old(w.s), w.s, id)
      ensures how == Answer(old(awaits)) && awaits == old(awaits) + 1
    {
      var m := env(awaits);
      awaits := awaits + 1;
      how := m.how;
      var others := m.others;
      while others != []
        invariant Valid() && id < |w.calls| && w.calls[id] == old(w.calls[id])
        invariant Rests(old(w.s), w.s, id) && awaits == old(awaits) + 1
      {
        var a := others[0];
        others := others[1..];
        if !(a.Advance? && a.id == id) {
          ghost var s := w.s;
          Reachable(cfg, trace);
          OtherRests(w, a, id);
          RestsChain(old(w.s), s, Next(w, a).s, id);
          RunSnoc(Start(cfg), trace, a);
          w := Next(w, a);
          trace := trace + [a];
        }
      }
    }

    /** This call's write, with what it remembers after: it must be what the step system
        allows at this await. */
    method Commit(id: nat, how: How, s': Shared, mem: Memory)
      requires Valid() && id < |w.calls|
      requires var out := StepCall(w.s, id, w.calls[id], how); s' == out.s && mem == out.call.mem
      modifies this`w, this`trace
      ensures Valid() && id < |w.calls| && w.s == s' && Mem(id) == mem
      ensures w.calls[id] == StepCall(old(w.s), id, old(w.calls[id]), how).call
      ensures w.calls[id].entry == old(w.calls[id].entry)
    {
      ghost var a := Advance(id, how);
      RunSnoc(Start(cfg), trace, a);
      StepKeepsEntry(w.s, id, w.calls[id], how);
      w := World(s', w.calls[id := StepCall(w.s, id, w.calls[id], how).call.(mem := mem)]);
      trace := trace + [a];
    }

    method NewCall(entry: Entry) returns (id: nat)
      requires Valid()
      modifies this`w, this`trace
      ensures Valid() && AtPc(id, EntryPc(entry)) && w.calls[id].entry == entry && w.s == old(w.s)
    {
      id := |w.calls|;
      RunSnoc(Start(cfg), trace, Spawn(entry));
      w := Next(w, Spawn(entry));
      trace := trace + [Spawn(entry)];
    }

    // ----- what the invariant says where the call stands ---------------------

    lemma StateIsSound()
      requires Valid()
      ensures SharedOk(w.s)
    {
      Reachable(cfg, trace);
    }

    lemma ConfigStays(id: nat)
      requires Valid() && id < |w.calls|
      ensures w.s.cfg == cfg
    {
      Sound(id);
    }

    lemma EscrowIsHeld(id: nat)
      requires Valid() && AtPc(id, InTry(ExSettle)) && w.s.inits == [Mined]
      ensures w.s.escrow == Held
    {
      Sound(id);
    }

    lemma BeforeReserving(id: nat)
      requires Valid() && AtPc(id, InTry(ExSetup))
      ensures w.s.row.status in {Approved, Cancelled}
    {
      Sound(id);
    }

    lemma BeforeInitiate(id: nat)
      requires Valid() && AtPc(id, InTry(ExAllowance))
      ensures Holds(w.s, id, LiquidityReserved) && w.s.inits == []
    {
      Sound(id);
    }

    lemma BeforeSettle(id: nat)
      requires Valid() && AtPc(id, InTry(ExSettle))
      ensures Holds(w.s, id, ConfirmedOnchain)
    {
      Sound(id);
    }

    lemma EscrowIsReleased(id: nat)
      requires Valid() && AtPc(id, InTry(ExFx))
      ensures w.s.escrow == ReleasedToTreasury
    {
      Sound(id);
    }

    lemma BeforeCredit(id: nat)
      requires Valid() && AtPc(id, InPayout(PoCredit))
      ensures Holds(w.s, id, PayoutPending) && LegDone(w.s) && w.s.cfg == cfg
    {
      Sound(id);
    }

    lemma BeforeBridge(id: nat)
      requires Valid() && AtPc(id, InPayout(PoBridge))
      ensures Holds(w.s, id, PayoutPending) && w.s.dests == [] && w.s.credits == []
    {
      Sound(id);
    }

    lemma BeforeUndo(id: nat)
      requires Valid() && AtPc(id, InCatch(CaRelease))
      ensures Undoable(w.s, id)
    {
      Sound(id);
    }

    lemma AlreadyFailed(id: nat)
      requires Valid() && AtPc(id, InCatch(CaFail)) && Mem(id).status == Failed
      ensures w.s.row.status in {Failed, Refunded}
    {
      Sound(id);
    }

    lemma BeforeRefund(id: nat)
      requires Valid() && AtPc(id, InCatch(CaRefund))
      ensures Owns(w.s, id) && NoPayout(w.s) && !Ended(w.s.row.status) && w.s.refunds == []
    {
      Sound(id);
    }

    lemma EscrowIsReturned(id: nat)
      requires Valid() && AtPc(id, InCatch(CaRefundMark))
      ensures w.s.escrow == ReturnedToSender
    {
      Sound(id);
    }

    lemma BeforeForward(id: nat)
      requires Valid() && id < |w.calls| && w.calls[id].pc.InForward? && w.calls[id].pc.fw.FwCredit?
      ensures PaidOut(w.s) && Safe(w.s, id) && w.calls[id].pc.fw.amount == w.s.cfg.payout
    {
      Sound(id);
    }

    lemma BeforeCompensate(id: nat)
      requires Valid() && AtPc(id, InCompensate(CoPrior))
      ensures Holds(w.s, id, CompensationPending) && HashIn(Mem(id).compHash, w.s.comps)
    {
      Sound(id);
    }

    lemma AttemptIsKnown(id: nat)
      requires Valid() && AtPc(id, InCompensate(CoRecovered))
      ensures Mem(id).compHash.Some?
    {
      Sound(id);
    }

    lemma BeforeRepair(id: nat)
      requires Valid() && AtPc(id, InRepair(ReDestination))
      ensures Holds(w.s, id, CompensationPending) && Unpaid(w.s) && HashIn(Mem(id).destHash, w.s.dests)
    {
      Sound(id);
    }

    lemma BeforeDecision(id: nat)
      requires Valid() && AtPc(id, InReconcile(RcDestination))
      ensures Holds(w.s, id, PayoutPending) && HashIn(Mem(id).destHash, w.s.dests)
    {
      Sound(id);
    }

    lemma BeforePend(id: nat)
      requires Valid() && AtPc(id, InReconcile(RcRelease))
      ensures Holds(w.s, id, PayoutPending) && Unpaid(w.s)
    {
      Sound(id);
    }

    lemma BeforeDecidingCompensation(id: nat)
      requires Valid() && AtPc(id, InReconcile(RcCompensation))
      ensures Holds(w.s, id, CompensationPending) && HashIn(Mem(id).compHash, w.s.comps)
    {
      Sound(id);
    }

    lemma BeforeEvidence(id: nat)
      requires Valid() && AtPc(id, InCatch(CaCredit))
      ensures w.s.credits == [] ==> Owns(w.s, id) && HashIn(Mem(id).destHash, w.s.dests)
      ensures w.s.credits != [] ==> Safe(w.s, id)
    {
      Sound(id);
    }

    lemma BeforeReconciling(id: nat)
      requires Valid() && AtPc(id, InCatch(CaDestination))
      ensures HashIn(Mem(id).destHash, w.s.dests)
    {
      Sound(id);
    }

    lemma BeforeMakeGood(id: nat)
      requires Valid() && AtPc(id, InCatch(CaCompensate))
      ensures w.s.row.compHash == None
    {
      Sound(id);
    }

    lemma UncreditedIsUnsettled(id: nat)
      requires Valid() && id < |w.calls| && NoPayout(w.s)
      ensures w.s.row.status != Settled
    {
      Sound(id);
    }

    lemma BeforeFail(id: nat)
      requires Valid() && AtPc(id, InCatch(CaFail)) && Undoable(w.s, id)
      ensures NoPayout(w.s)
    {
      Sound(id);
    }

    // ----- the operations of one await --------------------------------------

    /** A read, a receipt or a report: this call writes nothing. */
    method Look(id: nat) returns (how: How)
      requires Valid() && id < |w.calls| && Looks(w.calls[id].pc)
      modifies this`w, this`awaits, this`trace
      ensures Valid() && id < |w.calls| && Mem(id) == old(Mem(id)) && Rests(old(w.s), w.s, id)
      ensures w.calls[id] == StepCall(w.s, id, old(w.calls[id]), how).call
      ensures w.calls[id].entry == old(w.calls[id].entry)
      ensures how == Answer(old(awaits)) && awaits == old(awaits) + 1
    {
      how := Others(id);
      LooksWriteNothing(w.s, id, w.calls[id], how);
      Commit(id, how, w.s, Mem(id));
    }

    /** transitionStatus: it returns exactly when the status is still the remembered one, the
        move is an edge of the table and the write does; then the row is swapped and
        remembered. One that throws may still have landed. */
    method SetStatus(id: nat, to: Status, columns: Columns) returns (ok: bool, ghost found: Shared)
      requires Valid() && id < |w.calls| && SwapAt(w.calls[id], cfg) == Some((to, columns))
      modifies this`w, this`awaits, this`trace
      ensures Reached(id, AfterSwap(old(w.calls[id]), ok, cfg.cross))
      ensures Rests(old(w.s), found, id)
      ensures w.s == found ||
        (CanSwap(found, old(Mem(id)), to) && w.s == found.(row := Swapped(found.row, to, columns)))
      ensures ok <==> CanSwap(found, old(Mem(id)), to) && Answer(old(awaits)).db == Ok
      ensures ok ==> w.s.row == Swapped(found.row, to, columns)
      ensures Mem(id) == if ok then Remember(w.s.row) else old(Mem(id))
      ensures awaits == old(awaits) + 1
    {
      var how := Others(id);
      found := w.s;
      ConfigStays(id);
      SwapLeads(w.s, id, w.calls[id], how, to, columns);
      var s := w.s;
      var mem := Mem(id);
      ok := false;
      if CanTransition(mem.status, to) && s.row.status == mem.status && how.db != Lost {
        s := s.(row := Swapped(s.row, to, columns));
        if how.db == Ok {
          mem := Remember(s.row);
          ok := true;
        }
      }
      Commit(id, how, s, mem);
    }

    /** A swap by the owner to a status that keeps the lease: nothing else of the payment
        moves but the chains. */
    method MoveOn(id: nat, to: Status, columns: Columns) returns (ok: bool)
      requires Valid() && id < |w.calls| && SwapAt(w.calls[id], cfg) == Some((to, columns))
      requires Owns(w.s, id) && !ReleasesLease(to) && !Cancellable(to)
      modifies this`w, this`awaits, this`trace
      ensures Reached(id, AfterSwap(old(w.calls[id]), ok, cfg.cross))
      ensures Owns(w.s, id) && ChainsKeep(old(w.s), w.s)
      ensures w.s.row == old(w.s.row) || w.s.row == Swapped(old(w.s.row), to, columns)
      ensures ok <==> CanSwap(old(w.s), old(Mem(id)), to) && Answer(old(awaits)).db == Ok
      ensures ok ==> w.s.row.status == to && Mem(id) == Remember(w.s.row)
      ensures w.s.resv == old(w.s.resv) && awaits == old(awaits) + 1
    {
      var moved, at := SetStatus(id, to, columns);
      OwnedChainsKeep(old(w.s), at);
      ok := moved;
    }

    /** A broadcast: it returns the new hash, exactly when the network takes it, or throws with
        nothing sent. */
    method Send(id: nat, kind: TxKind) returns (ok: bool, tx: nat, ghost found: Shared)
      requires Valid() && id < |w.calls| && SendAt(w.calls[id].pc) == Some(kind)
      modifies this`w, this`awaits, this`trace
      ensures Valid() && id < |w.calls| && w.calls[id].entry == old(w.calls[id].entry)
      ensures Rests(old(w.s), found, id)
      ensures ok ==>
        w.s == WithSent(found, kind) && tx == |Sent(found, kind)| && Mem(id) == Noting(old(Mem(id)), kind, tx)
      ensures !ok ==> w.s == found && Mem(id) == old(Mem(id))
      ensures w.calls[id].pc == AfterSend(kind, ok, tx)
      ensures (ok <==> Answer(old(awaits)).db == Ok) && awaits == old(awaits) + 1
    {
      var how := Others(id);
      found := w.s;
      tx := |Sent(w.s, kind)|;
      ok := how.db == Ok;
      if ok {
        Commit(id, how, WithSent(w.s, kind), Noting(Mem(id), kind, tx));
      } else {
        Commit(id, how, w.s, Mem(id));
      }
    }

    /** A receipt wait: it returns exactly when the transaction has mined and the wait does not
        throw. */
    method Confirm(id: nat, kind: TxKind, tx: nat) returns (ok: bool)
      requires Valid() && id < |w.calls| && w.calls[id].pc == ReceiptOf(kind, tx)
      requires kind == DestinationTx ==> Mem(id).destHash == Some(tx)
      requires kind == CompensationTx ==> Mem(id).compHash == Some(tx)
      modifies this`w, this`awaits, this`trace
      ensures Reached(id, AfterReceipt(kind, ok)) && Mem(id) == old(Mem(id))
      ensures Rests(old(w.s), w.s, id)
      ensures ok <==> FateOf(Sent(w.s, kind), tx) == Mined && Answer(old(awaits)).db == Ok
      ensures awaits == old(awaits) + 1
    {
      ghost var k := w.calls[id];
      ReceiptLeads(w.s, id, k, Answer(awaits), kind, tx);
      var how := Look(id);
      ReceiptLeads(w.s, id, k, how, kind, tx);
      ok := how.db == Ok && FateOf(Sent(w.s, kind), tx) == Mined;
    }

    /** An escrow call and its receipt; the row is where the call left it. */
    method SendAndConfirm(id: nat, kind: TxKind) returns (ok: bool)
      requires Valid() && id < |w.calls| && SendAt(w.calls[id].pc) == Some(kind) && Owns(w.s, id)
      requires kind in {InitiateTx, SettleTx, RefundTx}
      modifies this`w, this`awaits, this`trace
      ensures Reached(id, AfterReceipt(kind, ok))
      ensures w.s.row == old(w.s.row) && w.s.resv == old(w.s.resv) && (NoPayout(old(w.s)) ==> NoPayout(w.s))
      ensures |Sent(w.s, kind)| == |old(Sent(w.s, kind))| + (if Answer(old(awaits)).db == Ok then 1 else 0)
      ensures ok ==> |Sent(w.s, kind)| == |old(Sent(w.s, kind))| + 1 && Sent(w.s, kind)[|old(Sent(w.s, kind))|] == Mined
    {
      var sent, tx, _ := Send(id, kind);
      if !sent {
        return false;
      }
      ok := Confirm(id, kind, tx);
    }

    // ----- executePayment ---------------------------------------------------

    /** Reads the row, leases it and runs the attempt; whatever happens inside, the lease is
        offered back in the finally. If the call returned, the money is accounted for; and
        the sender and the recipient are never both paid. */
    method ExecutePayment() returns (returned: bool, id: nat)
      requires Valid()
      modifies this`w, this`awaits, this`trace
      ensures Valid() && AtPc(id, Done(returned))
      ensures !(RecipientPayable(w.s) && SenderRepayable(w.s))
      ensures returned ==> AccountedFor(w.s)
    {
      id := NewCall(Execute);
      returned := LeaseAndRun(id);
      NeverPaidAndRepaid(cfg, trace);
      if returned {
        ReturnedExecutionIsAccountedFor(cfg, trace, id);
      }
    }

    method LeaseAndRun(id: nat) returns (returned: bool)
      requires Valid() && AtPc(id, InTry(ExRead))
      modifies this`w, this`awaits, this`trace
      ensures Reached(id, Done(returned))
    {
      var how := Others(id);
      if how.db != Ok || w.s.row.status != Approved {
        Commit(id, how, w.s, Mem(id));
        return false;
      }
      Commit(id, how, w.s, Remember(w.s.row));
      var leased, _ := ClaimLease(id, Approved, InTry(ExSetup));
      if !leased {
        return false;
      }
      returned := RunExecution(id);
      var _, _ := FreeLeaseFinally(id, returned);
    }

    /** The lease is granted exactly over the expected status, when it is free and the claim
        returns. */
    method ClaimLease(id: nat, from: Status, ghost next: Pc) returns (ok: bool, ghost found: Shared)
      requires Valid() && id < |w.calls| && ClaimAt(w.calls[id].pc) == Some((from, next))
      modifies this`w, this`awaits, this`trace
      ensures Reached(id, if ok then next else Done(false)) && Mem(id) == old(Mem(id))
      ensures Rests(old(w.s), found, id)
      ensures ok <==> found.row.status == from && found.row.lease == None && Answer(old(awaits)).db == Ok
      ensures awaits == old(awaits) + 1
      ensures ok ==> w.s == found.(row := found.row.(lease := Some(id)))
      ensures found.row.status != from || found.row.lease.Some? ==> w.s == found
    {
      var how := Others(id);
      found := w.s;
      var s := w.s;
      ok := false;
      if s.row.status == from && s.row.lease == None && how.db != Lost {
        s := s.(row := s.row.(lease := Some(id)));
        ok := how.db == Ok;
      }
      Commit(id, how, s, Mem(id));
    }

    /** The finally frees the lease if it is still this call's, and touches nothing else;
        only a lost write leaves the lease behind. */
    method FreeLeaseFinally(id: nat, returned: bool) returns (ghost found: Shared, ghost lost: bool)
      requires Valid() && AtPc(id, Finally(returned))
      modifies this`w, this`awaits, this`trace
      ensures Reached(id, Done(returned))
      ensures Rests(old(w.s), found, id)
      ensures w.s == if found.row.lease == Some(id) && !lost then found.(row := found.row.(lease := None)) else found
      ensures !lost ==> w.s.row.lease != Some(id)
      ensures lost <==> Answer(old(awaits)).db == Lost
    {
      var how := Others(id);
      found, lost := w.s, how.db == Lost;
      var s := w.s;
      if s.row.lease == Some(id) && how.db != Lost {
        s := s.(row := s.row.(lease := None));
      }
      Commit(id, how, s, Mem(id));
    }

    /** One attempt: until liquidity is reserved and marked a failure just throws; from then
        on it is caught. */
    method RunExecution(id: nat) returns (returned: bool)
      requires Valid() && AtPc(id, InTry(ExSetup)) && Mem(id).status == Approved
      modifies this`w, this`awaits, this`trace
      ensures Reached(id, Finally(returned))
    {
      var reserved := SetUpAndReserve(id);
      if !reserved {
        return false;
      }
      var marked, _ := SetStatus(id, LiquidityReserved, NO_COLUMNS);
      if !marked {
        return false;
      }
      var escrowed := EscrowLeg(id);
      if escrowed {
        var released := SettleLeg(id);
        if released {
          var settled := PayoutLeg(id);
          if settled {
            return true;
          }
        }
      }
      var recovered, _ := Recover(id);
      returned := recovered;
    }

    /** Liquidity is reserved only for an APPROVED row that this call has leased. */
    method SetUpAndReserve(id: nat) returns (ok: bool)
      requires Valid() && AtPc(id, InTry(ExSetup)) && Mem(id).status == Approved
      modifies this`w, this`awaits, this`trace
      ensures Reached(id, if ok then InTry(ExMark) else Finally(false))
      ensures ok ==> Holds(w.s, id, Approved) && w.s.resv == Reserved
    {
      var proceeds := SetUpAttempt(id);
      if !proceeds {
        return false;
      }
      var how := Others(id);
      if w.s.row.status != Approved || w.s.row.lease != Some(id) || how.db == Lost {
        Commit(id, how, w.s, Mem(id));
        return false;
      }
      Commit(id, how, w.s.(resv := Reserved), Mem(id));
      ok := how.db == Ok;
    }

    /** Before reserving: go on, perhaps re-reading the row, throw, or mark the payment
        FAILED, unless a cancel came first, and throw. */
    method SetUpAttempt(id: nat) returns (ok: bool)
      requires Valid() && AtPc(id, InTry(ExSetup)) && Mem(id).status == Approved
      modifies this`w, this`awaits, this`trace
      ensures Reached(id, if ok then InTry(ExReserve) else Finally(false))
      ensures ok <==> Answer(old(awaits)).setup == Proceed
      ensures Answer(old(awaits)).setup == FailsPayment(true) ==> w.s.resv in {Released, NoReservation}
      ensures Answer(old(awaits)).setup.FailsPayment? && Answer(old(awaits)).db == Ok ==>
        w.s.row.status in {Failed, Cancelled}
    {
      var how := Others(id);
      BeforeReserving(id);
      var s := w.s;
      ok := how.setup == Proceed;
      match how.setup
      case Proceed =>
        Commit(id, how, s, if how.readable then Remember(s.row) else Mem(id));
      case SetupThrows =>
        Commit(id, how, s, Mem(id));
      case FailsPayment(releases) =>
        if releases && s.resv != NoReservation {
          s := s.(resv := Released);
        }
        if !CanSwap(s, Mem(id), Failed) || how.db == Lost {
          Commit(id, how, s, Mem(id));
        } else {
          s := s.(row := Swapped(s.row, Failed, NO_COLUMNS));
          Commit(id, how, s, if how.db == Ok then Remember(s.row) else Mem(id));
        }
    }

    /** Initiate, then SUBMITTED_ONCHAIN, then CONFIRMED_ONCHAIN: the row leaves
        LIQUIDITY_RESERVED only when the one initiation has mined, and on success the escrow
        holds the funds. */
    method EscrowLeg(id: nat) returns (ok: bool)
      requires Valid() && AtPc(id, InTry(ExAllowance))
      modifies this`w, this`awaits, this`trace
      ensures Reached(id, if ok then InTry(ExSettle) else InCatch(CaCredit))
      ensures ok ==> Holds(w.s, id, ConfirmedOnchain) && w.s.escrow == Held
      ensures w.s.row.status != LiquidityReserved ==> w.s.inits == [Mined]
    {
      ok := InitiatePayment(id);
      if ok {
        ok := MarkEscrowed(id);
      }
    }

    method MarkEscrowed(id: nat) returns (ok: bool)
      requires Valid() && AtPc(id, InTry(ExSubmitted)) && Holds(w.s, id, LiquidityReserved) && w.s.inits == [Mined]
      modifies this`w, this`awaits, this`trace
      ensures Reached(id, if ok then InTry(ExSettle) else InCatch(CaCredit))
      ensures ok ==> Holds(w.s, id, ConfirmedOnchain) && w.s.escrow == Held
      ensures w.s.inits == [Mined]
    {
      ok := MoveOn(id, SubmittedOnchain, NO_COLUMNS);
      if ok {
        ok := MoveOn(id, ConfirmedOnchain, NO_COLUMNS);
      }
      if ok {
        EscrowIsHeld(id);
      }
    }

    method InitiatePayment(id: nat) returns (ok: bool)
      requires Valid() && AtPc(id, InTry(ExAllowance))
      modifies this`w, this`awaits, this`trace
      ensures Reached(id, if ok then InTry(ExSubmitted) else InCatch(CaCredit))
      ensures Holds(w.s, id, LiquidityReserved)
      ensures ok ==> w.s.inits == [Mined]
    {
      BeforeInitiate(id);
      var how := Look(id);
      if how.db != Ok {
        return false;
      }
      ok := SendAndConfirm(id, InitiateTx);
    }

    /** Settle, then FX_OR_SWAP_COMPLETED with the amount to pay out, then PAYOUT_PENDING:
        the row leaves CONFIRMED_ONCHAIN only when the escrow has gone to the treasury. */
    method SettleLeg(id: nat) returns (ok: bool)
      requires Valid() && AtPc(id, InTry(ExSettle))
      modifies this`w, this`awaits, this`trace
      ensures Reached(id, if ok then AfterRelease(cfg) else InCatch(CaCredit))
      ensures ok ==> Holds(w.s, id, PayoutPending) && w.s.row.destAmount == Some(cfg.payout)
      ensures w.s.row.status != ConfirmedOnchain ==> w.s.escrow == ReleasedToTreasury
    {
      ok := SettlePayment(id);
      if ok {
        ok := MarkReleased(id);
      }
    }

    method MarkReleased(id: nat) returns (ok: bool)
      requires Valid() && AtPc(id, InTry(ExFx)) && Holds(w.s, id, ConfirmedOnchain) && w.s.escrow == ReleasedToTreasury
      modifies this`w, this`awaits, this`trace
      ensures Reached(id, if ok then AfterRelease(cfg) else InCatch(CaCredit))
      ensures ok ==> Holds(w.s, id, PayoutPending) && w.s.row.destAmount == Some(cfg.payout)
      ensures w.s.escrow == ReleasedToTreasury
    {
      ok := MoveOn(id, FxOrSwapCompleted, Columns(None, None, Some(cfg.payout)));
      if ok {
        ok := MoveOn(id, PayoutPending, NO_COLUMNS);
      }
    }

    method SettlePayment(id: nat) returns (ok: bool)
      requires Valid() && AtPc(id, InTry(ExSettle))
      modifies this`w, this`awaits, this`trace
      ensures Reached(id, if ok then InTry(ExFx) else InCatch(CaCredit))
      ensures Holds(w.s, id, ConfirmedOnchain)
      ensures ok ==> w.s.escrow == ReleasedToTreasury
    {
      BeforeSettle(id);
      ok := SendAndConfirm(id, SettleTx);
      if ok {
        EscrowIsReleased(id);
      }
    }

    /** Bridge if the route crosses networks, credit the recipient, consume the reservation,
        then SETTLED: the one credit is written only after the payout leg is done. */
    method PayoutLeg(id: nat) returns (ok: bool)
      requires Valid() && AtPc(id, AfterRelease(cfg))
      modifies this`w, this`awaits, this`trace
      ensures Reached(id, if ok then Finally(true) else InCatch(CaCredit))
      ensures ok ==> w.s.row.status == Settled && w.s.resv == Consumed && w.s.credits == [cfg.payout]
      ensures w.s.credits != [] ==> LegDone(w.s)
    {
      if cfg.cross {
        ok := BridgeLeg(id);
        if !ok {
          return;
        }
      }
      ok := CreditAndSettle(id);
    }

    method CreditAndSettle(id: nat) returns (ok: bool)
      requires Valid() && AtPc(id, InPayout(PoCredit))
      modifies this`w, this`awaits, this`trace
      ensures Reached(id, if ok then Finally(true) else InCatch(CaCredit))
      ensures ok ==> w.s.row.status == Settled && w.s.resv == Consumed && w.s.credits == [cfg.payout]
      ensures LegDone(w.s)
    {
      ok := CreditRecipient(id);
      if ok {
        ok := ConsumeReservation(id);
      }
      if ok {
        ok := MarkSettled(id);
      }
    }

    method MarkSettled(id: nat) returns (ok: bool)
      requires Valid() && AtPc(id, InPayout(PoSettled))
      requires Holds(w.s, id, PayoutPending) && LegDone(w.s) && w.s.resv == Consumed
      modifies this`w, this`awaits, this`trace
      ensures Reached(id, if ok then Finally(true) else InCatch(CaCredit))
      ensures LegDone(w.s) && w.s.resv == Consumed && w.s.credits == old(w.s.credits)
      ensures ok ==> w.s.row.status == Settled
    {
      var settled, at := SetStatus(id, Settled, NO_COLUMNS);
      ok := settled;
    }

    /** The credit's payment id is unique, so crediting twice throws. */
    method CreditRecipient(id: nat) returns (ok: bool)
      requires Valid() && AtPc(id, InPayout(PoCredit))
      modifies this`w, this`awaits, this`trace
      ensures Reached(id, if ok then InPayout(PoConsume) else InCatch(CaCredit))
      ensures Holds(w.s, id, PayoutPending) && LegDone(w.s)
      ensures ok ==> w.s.credits == [cfg.payout]
    {
      var how := Others(id);
      BeforeCredit(id);
      if how.db == Lost || w.s.credits != [] {
        Commit(id, how, w.s, Mem(id));
        return false;
      }
      Commit(id, how, w.s.(credits := [w.s.cfg.payout]), Mem(id));
      ok := how.db == Ok;
    }

    method ConsumeReservation(id: nat) returns (ok: bool)
      requires Valid() && AtPc(id, InPayout(PoConsume))
      requires Holds(w.s, id, PayoutPending) && LegDone(w.s)
      modifies this`w, this`awaits, this`trace
      ensures Reached(id, if ok then InPayout(PoSettled) else InCatch(CaCredit))
      ensures Holds(w.s, id, PayoutPending) && LegDone(w.s) && w.s.credits == old(w.s.credits)
      ensures ok ==> w.s.resv == Consumed
    {
      var how := Others(id);
      Commit(id, how, if how.db == Lost then w.s else w.s.(resv := Consumed), Mem(id));
      ok := how.db == Ok;
    }

    /** Send the transfer, save its hash, and only then wait for its receipt: on success the
        row names the one mined transfer, and a transfer once sent is always remembered. */
    method BridgeLeg(id: nat) returns (ok: bool)
      requires Valid() && AtPc(id, InPayout(PoBridge))
      modifies this`w, this`awaits, this`trace
      ensures Reached(id, if ok then InPayout(PoCredit) else InCatch(CaCredit))
      ensures ok ==> w.s.dests == [Mined] && w.s.row.destHash == Some(0)
      ensures w.s.dests != [] ==> Mem(id).destHash == Some(0)
      ensures w.s.credits == []
    {
      BeforeBridge(id);
      var sent, tx, _ := Send(id, DestinationTx);
      if !sent {
        return false;
      }
      ok := SaveAndConfirm(id, tx);
    }

    method SaveAndConfirm(id: nat, tx: nat) returns (ok: bool)
      requires Valid() && AtPc(id, InPayout(PoPersist)) && Mem(id).destHash == Some(tx)
      requires Holds(w.s, id, PayoutPending) && |w.s.dests| == tx + 1
      modifies this`w, this`awaits, this`trace
      ensures Reached(id, if ok then InPayout(PoCredit) else InCatch(CaCredit)) && Mem(id).destHash == Some(tx)
      ensures w.s.credits == old(w.s.credits) && |w.s.dests| == tx + 1
      ensures ok ==> w.s.dests[tx] == Mined && w.s.row.destHash == Some(tx)
    {
      var saved := SaveDestHash(id, tx);
      if !saved {
        return false;
      }
      ok := Confirm(id, DestinationTx, tx);
    }

    method SaveDestHash(id: nat, tx: nat) returns (ok: bool)
      requires Valid() && AtPc(id, InPayout(PoPersist)) && Mem(id).destHash == Some(tx)
      requires Holds(w.s, id, PayoutPending)
      modifies this`w, this`awaits, this`trace
      ensures Reached(id, if ok then InPayout(PoConfirm) else InCatch(CaCredit)) && Mem(id).destHash == Some(tx)
      ensures Holds(w.s, id, PayoutPending) && w.s.credits == old(w.s.credits) && |w.s.dests| == |old(w.s.dests)|
      ensures ok ==> w.s.row.destHash == Some(tx)
    {
      var how := Others(id);
      if how.db == Lost {
        Commit(id, how, w.s, Mem(id));
        return false;
      }
      var s := w.s.(row := w.s.row.(destHash := Some(tx)));
      ok := how.db == Ok;
      Commit(id, how, s, if ok then Remember(s.row) else Mem(id));
    }

    // ----- the catch --------------------------------------------------------

    /** Complete forward on evidence that the recipient is paid, wait when it cannot be read,
        and only otherwise undo. */
    method Recover(id: nat) returns (returned: bool, ghost evidence: Evidence)
      requires Valid() && AtPc(id, InCatch(CaCredit))
      modifies this`w, this`awaits, this`trace
      ensures Reached(id, Finally(returned))
      ensures evidence in {NoAnswer, Unreadable} ==> Rests(old(w.s), w.s, id)
      ensures evidence == Unreadable ==> old(Mem(id)).destHash.Some?
      ensures evidence == SaysPaid ==> PaidOut(w.s) && (returned ==> w.s.row.status == Settled)
      ensures evidence == SaysUnpaid ==> Unpaid(w.s)
      ensures evidence == NoAnswer <==> Answer(old(awaits)).db != Ok
      ensures evidence != NoAnswer && old(w.s.credits) != [] ==> evidence == SaysPaid
      ensures evidence != NoAnswer && old(w.s.credits) == [] && HashFinal(old(w.s.dests), old(Mem(id)).destHash) ==>
        evidence == EvidenceOf(old(w.s.dests), old(Mem(id)).destHash, Answer(old(awaits) + 1).seen)
    {
      var answered, credited := ReadCredit(id);
      if !answered {
        return false, NoAnswer;
      }
      if credited {
        returned := CompleteForward(id);
        return returned, SaysPaid;
      }
      ghost var read := w.s;
      var reconciled;
      reconciled, returned, evidence := ReconcileDestinationPayout(id);
      if !reconciled {
        var undone, _ := UndoAttempt(id);
        return undone, SaysUnpaid;
      }
      if evidence == Unreadable {
        RestsChain(old(w.s), read, w.s, id);
      }
    }

    method ReadCredit(id: nat) returns (answered: bool, credited: bool)
      requires Valid() && AtPc(id, InCatch(CaCredit))
      modifies this`w, this`awaits, this`trace
      ensures Valid() && id < |w.calls| && Mem(id) == old(Mem(id)) && Rests(old(w.s), w.s, id)
      ensures w.calls[id].entry == old(w.calls[id].entry) && awaits == old(awaits) + 1
      ensures (answered <==> Answer(old(awaits)).db == Ok) && (credited <==> old(w.s.credits) != [])
      ensures !answered ==> AtPc(id, Finally(false))
      ensures answered && credited ==> w.calls[id].pc.InForward? && w.calls[id].pc.fw.FwCredit?
      ensures answered && !credited ==> AtPc(id, InCatch(CaDestination))
      ensures !credited && HashFinal(old(w.s.dests), Mem(id).destHash) ==>
        HashFate(w.s.dests, Mem(id).destHash) == HashFate(old(w.s.dests), Mem(id).destHash)
    {
      BeforeEvidence(id);
      var how := Look(id);
      answered, credited := how.db == Ok, w.s.credits != [];
      if !credited {
        FinalStays(old(w.s.dests), w.s.dests, Mem(id).destHash);
      }
    }

    /** A payout seen mined is completed forward, an unreadable one left as it is; the catch
        goes on only if there was none or it can never mine. */
    method ReconcileDestinationPayout(id: nat) returns (done: bool, returned: bool, ghost evidence: Evidence)
      requires Valid() && AtPc(id, InCatch(CaDestination))
      modifies this`w, this`awaits, this`trace
      ensures Reached(id, if done then Finally(returned) else InCatch(CaRelease))
      ensures evidence != NoAnswer && (evidence == SaysUnpaid <==> !done)
      ensures evidence == Unreadable ==> Rests(old(w.s), w.s, id) && old(Mem(id)).destHash.Some?
      ensures evidence == SaysPaid ==> PaidOut(w.s) && (returned ==> w.s.row.status == Settled)
      ensures HashFinal(old(w.s.dests), old(Mem(id)).destHash) ==>
        evidence == EvidenceOf(old(w.s.dests), old(Mem(id)).destHash, Answer(old(awaits)).seen)
    {
      BeforeReconciling(id);
      var hash := Mem(id).destHash;
      var how := Look(id);
      FinalStays(old(w.s.dests), w.s.dests, hash);
      var outcome := if hash == None then SeenAbsent else Observe(HashFate(w.s.dests, hash), how.seen);
      if outcome == SeenConfirmed {
        returned := CompleteForward(id);
        return true, returned, SaysPaid;
      }
      return outcome == Unknown, how.db == Ok, if outcome == Unknown then Unreadable else SaysUnpaid;
    }

    /** The reservation is released, and the escrow decides: released, make good; held, refund;
        otherwise just fail. An escrow that cannot be read leaves the decision to the
        remembered status. A refund is sent exactly when the escrow counts as held and the
        broadcast does not throw. */
    method UndoAttempt(id: nat) returns (returned: bool, ghost read: Option<Escrow>)
      requires Valid() && AtPc(id, InCatch(CaRelease))
      modifies this`w, this`awaits, this`trace
      ensures Reached(id, Finally(returned))
      ensures Unpaid(w.s)
      ensures Answer(old(awaits)).db != Lost ==> w.s.resv == Released
      ensures read.Some? <==> Answer(old(awaits) + 1).readable
      ensures read.Some? && EscrowStands(old(w.s)) ==> read == Some(old(w.s.escrow))
      ensures w.s.refunds != [] <==> EscrowHeld(read, old(Mem(id))) && Answer(old(awaits) + 2).db == Ok
      ensures w.s.comps != [] ==> SettledOnChain(read, old(Mem(id)))
      ensures returned && SettledOnChain(read, old(Mem(id))) ==>
        && w.s.row.status in {CompensationPending, Compensated}
        && (w.s.comps != [] <==> Answer(old(awaits) + 4).db == Ok)
      ensures returned && !SettledOnChain(read, old(Mem(id))) ==> w.s.row.status in {Failed, Refunded}
    {
      ReleaseReservation(id);
      var undone, seen := DecideUndo(id);
      return undone, seen;
    }

    method DecideUndo(id: nat) returns (returned: bool, ghost read: Option<Escrow>)
      requires Valid() && AtPc(id, InCatch(CaEscrow)) && Undoable(w.s, id)
      modifies this`w, this`awaits, this`trace
      ensures Reached(id, Finally(returned))
      ensures Unpaid(w.s) && w.s.resv == old(w.s.resv)
      ensures read.Some? <==> Answer(old(awaits)).readable
      ensures read.Some? && EscrowStands(old(w.s)) ==> read == Some(old(w.s.escrow))
      ensures w.s.refunds != [] <==> EscrowHeld(read, old(Mem(id))) && Answer(old(awaits) + 1).db == Ok
      ensures w.s.comps != [] ==> SettledOnChain(read, old(Mem(id)))
      ensures returned && SettledOnChain(read, old(Mem(id))) ==>
        && w.s.row.status in {CompensationPending, Compensated}
        && (w.s.comps != [] <==> Answer(old(awaits) + 3).db == Ok)
      ensures returned && !SettledOnChain(read, old(Mem(id))) ==> w.s.row.status in {Failed, Refunded}
    {
      StateIsSound();
      var how := Look(id);
      StateIsSound();
      UndoableRests(old(w.s), w.s, id);
      var escrow := if how.readable then Some(w.s.escrow) else None;
      read := escrow;
      EscrowStood(old(w.s), w.s, id);
      if SettledOnChain(escrow, Mem(id)) {
        returned := MakeGood(id);
      } else if EscrowHeld(escrow, Mem(id)) {
        returned := RefundEscrow(id);
      } else {
        BeforeFail(id);
        returned := MarkFailed(id);
      }
    }

    method ReleaseReservation(id: nat)
      requires Valid() && AtPc(id, InCatch(CaRelease))
      modifies this`w, this`awaits, this`trace
      ensures Reached(id, InCatch(CaEscrow)) && Mem(id) == old(Mem(id))
      ensures Undoable(w.s, id) && awaits == old(awaits) + 1
      ensures Answer(old(awaits)).db != Lost ==> w.s.resv == Released
      ensures EscrowStands(old(w.s)) ==> EscrowStands(w.s) && w.s.escrow == old(w.s.escrow)
    {
      BeforeUndo(id);
      StateIsSound();
      var how := Others(id);
      StateIsSound();
      BeforeUndo(id);
      EscrowStood(old(w.s), w.s, id);
      Commit(id, how, if how.db == Lost then w.s else w.s.(resv := Released), Mem(id));
    }

    method MakeGood(id: nat) returns (returned: bool)
      requires Valid() && AtPc(id, InCatch(CaCompensate)) && Undoable(w.s, id)
      modifies this`w, this`awaits, this`trace
      ensures Reached(id, Finally(returned))
      ensures Unpaid(w.s) && w.s.refunds == [] && w.s.resv == old(w.s.resv)
      ensures returned ==> w.s.row.status in {CompensationPending, Compensated}
      ensures returned ==> (w.s.comps != [] <==> Answer(old(awaits) + 2).db == Ok)
    {
      BeforeMakeGood(id);
      var pending := MoveOn(id, CompensationPending, NO_COLUMNS);
      if !pending {
        return false;
      }
      returned := Compensate(id);
    }

    /** FAILED, unless the row already is. */
    method MarkFailed(id: nat) returns (returned: bool)
      requires Valid() && AtPc(id, InCatch(CaFail)) && Safe(w.s, id) && NoPayout(w.s)
      modifies this`w, this`awaits, this`trace
      ensures Reached(id, Finally(returned))
      ensures returned ==> w.s.row.status in {Failed, Refunded}
      ensures old(Mem(id)).status == Failed ==> returned
      ensures NoPayout(w.s) && |w.s.refunds| == |old(w.s.refunds)| && w.s.resv == old(w.s.resv)
    {
      UncreditedIsUnsettled(id);
      if Mem(id).status == Failed {
        var how := Others(id);
        SafeRests(old(w.s), w.s, id);
        AlreadyFailed(id);
        Commit(id, how, w.s, Mem(id));
        return true;
      }
      var failed, at := SetStatus(id, Failed, NO_COLUMNS);
      SafeRests(old(w.s), at, id);
      returned := failed;
    }

    /** A refund that threw is reported, and the payment marked failed. */
    method ReportAndFail(id: nat) returns (returned: bool)
      requires Valid() && AtPc(id, InCatch(CaRefundFailed)) && Safe(w.s, id) && NoPayout(w.s)
      requires w.s.row.status != Settled
      modifies this`w, this`awaits, this`trace
      ensures Reached(id, Finally(returned))
      ensures returned ==> w.s.row.status in {Failed, Refunded}
      ensures NoPayout(w.s) && |w.s.refunds| == |old(w.s.refunds)| && w.s.resv == old(w.s.resv)
    {
      var how := Look(id);
      SafeRests(old(w.s), w.s, id);
      if how.db != Ok {
        return false;
      }
      returned := MarkFailed(id);
    }

    /** Refund first, then FAILED, then REFUNDED; a refund that throws is reported and the
        payment marked failed. The refund is sent exactly when its broadcast does not throw. */
    method RefundEscrow(id: nat) returns (returned: bool)
      requires Valid() && AtPc(id, InCatch(CaRefund))
      modifies this`w, this`awaits, this`trace
      ensures Reached(id, Finally(returned))
      ensures returned ==> w.s.row.status in {Failed, Refunded}
      ensures NoPayout(w.s)
      ensures (w.s.refunds != [] <==> Answer(old(awaits)).db == Ok) && w.s.resv == old(w.s.resv)
    {
      var refunded := TryRefund(id);
      if refunded {
        return true;
      }
      UncreditedIsUnsettled(id);
      returned := ReportAndFail(id);
    }

    /** The refund is sent unless its broadcast throws; the row is marked FAILED, and then
        REFUNDED, only once it has mined. */
    method TryRefund(id: nat) returns (ok: bool)
      requires Valid() && AtPc(id, InCatch(CaRefund))
      modifies this`w, this`awaits, this`trace
      ensures Reached(id, if ok then Finally(true) else InCatch(CaRefundFailed))
      ensures ok ==> w.s.row.status == Refunded
      ensures w.s.row.status in {Failed, Refunded} ==> w.s.escrow == ReturnedToSender
      ensures Safe(w.s, id) && NoPayout(w.s)
      ensures (w.s.refunds != [] <==> Answer(old(awaits)).db == Ok) && w.s.resv == old(w.s.resv)
    {
      ok := RefundPayment(id);
      if ok {
        ok := MarkRefunded(id);
      }
    }

    method MarkRefunded(id: nat) returns (ok: bool)
      requires Valid() && AtPc(id, InCatch(CaRefundMark)) && Owns(w.s, id) && NoPayout(w.s)
      requires w.s.escrow == ReturnedToSender
      modifies this`w, this`awaits, this`trace
      ensures Reached(id, if ok then Finally(true) else InCatch(CaRefundFailed))
      ensures ok ==> w.s.row.status == Refunded
      ensures w.s.escrow == ReturnedToSender && Safe(w.s, id) && NoPayout(w.s)
      ensures |w.s.refunds| == |old(w.s.refunds)| && w.s.resv == old(w.s.resv)
    {
      var failed, at := SetStatus(id, Failed, NO_COLUMNS);
      SafeRests(old(w.s), at, id);
      if !failed {
        return false;
      }
      ghost var s := w.s;
      ok, at := SetStatus(id, Refunded, NO_COLUMNS);
      SafeRests(s, at, id);
    }

    method RefundPayment(id: nat) returns (ok: bool)
      requires Valid() && AtPc(id, InCatch(CaRefund))
      modifies this`w, this`awaits, this`trace
      ensures Reached(id, InCatch(if ok then CaRefundMark else CaRefundFailed))
      ensures Owns(w.s, id) && NoPayout(w.s) && w.s.row == old(w.s.row) && !Ended(w.s.row.status)
      ensures (w.s.refunds != [] <==> Answer(old(awaits)).db == Ok) && w.s.resv == old(w.s.resv)
      ensures ok ==> w.s.escrow == ReturnedToSender
    {
      BeforeRefund(id);
      ok := SendAndConfirm(id, RefundTx);
      if ok {
        EscrowIsReturned(id);
      }
    }

    // ----- completeSettledPayout --------------------------------------------

    /** Credit the recipient if the ledger does not have it, consume, SETTLED: the credit is
        never doubled, and a return means the payment is settled with exactly one and, unless
        that write failed, the reservation consumed. */
    method CompleteForward(id: nat) returns (returned: bool)
      requires Valid() && id < |w.calls| && w.calls[id].pc.InForward? && w.calls[id].pc.fw.FwCredit?
      modifies this`w, this`awaits, this`trace
      ensures Reached(id, Finally(returned))
      ensures PaidOut(w.s) && (returned ==> w.s.row.status == Settled)
      ensures returned && Answer(old(awaits) + 1).readable ==> w.s.resv == Consumed
    {
      var credited := CreditIfMissing(id);
      if !credited {
        return false;
      }
      returned := ConsumeAndSettle(id);
    }

    method CreditIfMissing(id: nat) returns (ok: bool)
      requires Valid() && id < |w.calls| && w.calls[id].pc.InForward? && w.calls[id].pc.fw.FwCredit?
      modifies this`w, this`awaits, this`trace
      ensures Reached(id, if ok then InForward(FwConsume) else Finally(false))
      ensures PaidOut(w.s) && Safe(w.s, id) && (ok ==> w.s.credits != [])
      ensures (ok <==> Answer(old(awaits)).db == Ok) && awaits == old(awaits) + 1
    {
      var how := Others(id);
      BeforeForward(id);
      if w.s.credits != [] || how.db == Lost {
        Commit(id, how, w.s, Mem(id));
      } else {
        Commit(id, how, w.s.(credits := [w.calls[id].pc.fw.amount]), Mem(id));
      }
      ok := how.db == Ok;
    }

    method ConsumeAndSettle(id: nat) returns (returned: bool)
      requires Valid() && AtPc(id, InForward(FwConsume)) && PaidOut(w.s) && Safe(w.s, id) && w.s.credits != []
      modifies this`w, this`awaits, this`trace
      ensures Reached(id, Finally(returned))
      ensures PaidOut(w.s) && (returned ==> w.s.row.status == Settled)
      ensures Answer(old(awaits)).readable ==> w.s.resv == Consumed
    {
      var how := Others(id);
      PaidOutRests(old(w.s), w.s, id);
      Commit(id, how, if how.readable then w.s.(resv := Consumed) else w.s, Mem(id));
      if how.db != Ok {
        return false;
      }
      ghost var s := w.s;
      var settled, at := SetStatus(id, Settled, Columns(Mem(id).destHash, None, None));
      PaidOutRests(s, at, id);
      returned := settled;
    }

    // ----- runCompensationTransfer ------------------------------------------

    /** The call may send another make-good: it remembers none, or reads that its earlier one
        failed. */
    predicate Retries(s: Shared, prior: Option<nat>, how: How) {
      prior == None || Observe(HashFate(s.comps, prior), how.seen) in {SeenReverted, SeenAbsent}
    }

    /** A fresh make-good is sent, once, only if the remembered earlier attempt is missing or
        can never mine; and it is sent if that is what is read and the broadcast does not
        throw. An earlier attempt seen mined is marked instead. */
    method Compensate(id: nat) returns (returned: bool)
      requires Valid() && AtPc(id, InCompensate(CoPrior))
      modifies this`w, this`awaits, this`trace
      ensures Reached(id, Finally(returned)) && Repayable(w.s, id)
      ensures OneMore(old(w.s), old(Mem(id)).compHash, w.s, Mem(id).compHash)
      ensures |w.s.comps| > |old(w.s.comps)| ==> Dead(HashFate(w.s.comps, old(Mem(id)).compHash))
      ensures Retries(old(w.s), old(Mem(id)).compHash, Answer(old(awaits))) ==>
        (|w.s.comps| > |old(w.s.comps)| <==> Answer(old(awaits) + 1).db == Ok)
      ensures SeesMined(old(w.s), old(Mem(id)).compHash, Answer(old(awaits))) && returned ==>
        w.s.row.status == Compensated && |w.s.comps| == |old(w.s.comps)|
    {
      ghost var prior := Mem(id).compHash;
      var outcome := ReadPrior(id);
      ghost var s := w.s;
      if outcome == SeenConfirmed {
        returned := MarkRecovered(id);
        SentNoneChain(old(w.s), s, w.s);
      } else if outcome == Unknown {
        returned := false;
      } else {
        returned := SendAndReconcile(id);
        OneMoreAfter(old(w.s), s, prior, w.s, Mem(id).compHash);
        DeadStays(s.comps, w.s.comps, prior);
      }
    }

    /** The outcome of the earlier make-good; one never sent counts as absent. */
    method ReadPrior(id: nat) returns (outcome: Outcome)
      requires Valid() && AtPc(id, InCompensate(CoPrior))
      modifies this`w, this`awaits, this`trace
      ensures Reached(id,
        if outcome == SeenConfirmed then InCompensate(CoRecovered)
        else if outcome == Unknown then Finally(false)
        else InCompensate(CoBroadcast))
      ensures Holds(w.s, id, CompensationPending) && SentNone(old(w.s), w.s) && Mem(id) == old(Mem(id))
      ensures HashIn(Mem(id).compHash, w.s.comps) && awaits == old(awaits) + 1
      ensures outcome in {SeenReverted, SeenAbsent} ==> Dead(HashFate(w.s.comps, Mem(id).compHash))
      ensures Retries(old(w.s), Mem(id).compHash, Answer(old(awaits))) ==> outcome in {SeenReverted, SeenAbsent}
      ensures SeesMined(old(w.s), Mem(id).compHash, Answer(old(awaits))) ==> outcome == SeenConfirmed
    {
      BeforeCompensate(id);
      var prior := Mem(id).compHash;
      var how := Look(id);
      RepayableRests(old(w.s), w.s, id);
      outcome := if prior == None then SeenAbsent else Observe(HashFate(w.s.comps, prior), how.seen);
    }

    method SendAndReconcile(id: nat) returns (returned: bool)
      requires Valid() && AtPc(id, InCompensate(CoBroadcast)) && Holds(w.s, id, CompensationPending)
      modifies this`w, this`awaits, this`trace
      ensures Reached(id, Finally(returned)) && Repayable(w.s, id)
      ensures OneMore(old(w.s), old(Mem(id)).compHash, w.s, Mem(id).compHash)
      ensures |w.s.comps| > |old(w.s.comps)| <==> Answer(old(awaits)).db == Ok
    {
      var sent := TryCompensate(id);
      if sent {
        return true;
      }
      ghost var s := w.s;
      returned := ReconcileAttempt(id);
      OneMoreLater(old(w.s), old(Mem(id)).compHash, s, Mem(id).compHash, w.s);
    }

    /** COMPENSATED on evidence that the remembered make-good has mined. */
    method MarkRecovered(id: nat) returns (returned: bool)
      requires Valid() && AtPc(id, InCompensate(CoRecovered)) && Repayable(w.s, id)
      modifies this`w, this`awaits, this`trace
      ensures Reached(id, Finally(returned)) && Mem(id).compHash == old(Mem(id)).compHash
      ensures Repayable(w.s, id) && SentNone(old(w.s), w.s)
      ensures returned ==> w.s.row.status == Compensated
      ensures w.s.row.status == old(w.s.row.status) ==> w.s.row.compHash == old(w.s.row.compHash)
      ensures w.s.row.status != old(w.s.row.status) ==>
        w.s.row.status == Compensated && w.s.row.compHash == Mem(id).compHash
    {
      var hash := Mem(id).compHash;
      AttemptIsKnown(id);
      var marked, at := SetStatus(id, Compensated, Columns(None, hash, None));
      RepayableRests(old(w.s), at, id);
      returned := marked;
    }

    /** Send, save the hash, confirm, mark: COMPENSATED names the transfer just mined, and
        one that was sent is remembered whatever fails after. */
    method TryCompensate(id: nat) returns (ok: bool)
      requires Valid() && AtPc(id, InCompensate(CoBroadcast)) && Holds(w.s, id, CompensationPending)
      modifies this`w, this`awaits, this`trace
      ensures Reached(id, if ok then Finally(true) else InCompensate(CoCatch)) && Repayable(w.s, id)
      ensures OneMore(old(w.s), old(Mem(id)).compHash, w.s, Mem(id).compHash)
      ensures |w.s.comps| > |old(w.s.comps)| <==> Answer(old(awaits)).db == Ok
      ensures ok ==> w.s.row.status == Compensated
      ensures w.s.row.status == Compensated ==>
        w.s.row.compHash == Some(|old(w.s.comps)|) && HashFate(w.s.comps, w.s.row.compHash) == Mined
    {
      ok := TransferBack(id);
      if ok {
        ok := MarkCompensated(id, |w.s.comps| - 1);
      }
    }

    method MarkCompensated(id: nat, ghost tx: nat) returns (ok: bool)
      requires Valid() && AtPc(id, InCompensate(CoMark)) && Holds(w.s, id, CompensationPending)
      requires Mem(id).compHash == Some(tx) && FateOf(w.s.comps, tx) == Mined
      modifies this`w, this`awaits, this`trace
      ensures Reached(id, if ok then Finally(true) else InCompensate(CoCatch)) && Repayable(w.s, id)
      ensures SentNone(old(w.s), w.s) && Mem(id).compHash == Some(tx) && FateOf(w.s.comps, tx) == Mined
      ensures ok ==> w.s.row.status == Compensated
      ensures w.s.row.status == Compensated ==> w.s.row.compHash == Some(tx)
    {
      var marked, at := SetStatus(id, Compensated, Columns(None, Mem(id).compHash, None));
      RepayableRests(old(w.s), at, id);
      ok := marked;
    }

    /** The transfer back: its receipt is waited for only once the row names it. */
    method TransferBack(id: nat) returns (ok: bool)
      requires Valid() && AtPc(id, InCompensate(CoBroadcast)) && Holds(w.s, id, CompensationPending)
      modifies this`w, this`awaits, this`trace
      ensures Reached(id, InCompensate(if ok then CoMark else CoCatch)) && Holds(w.s, id, CompensationPending)
      ensures OneMore(old(w.s), old(Mem(id)).compHash, w.s, Mem(id).compHash)
      ensures |w.s.comps| > |old(w.s.comps)| <==> Answer(old(awaits)).db == Ok
      ensures ok ==> w.s.row.compHash == Mem(id).compHash && Answer(old(awaits)).db == Ok
      ensures ok ==> HashFate(w.s.comps, Mem(id).compHash) == Mined
    {
      ghost var hash := Mem(id).compHash;
      var sent, tx, at := Send(id, CompensationTx);
      RepayableRests(old(w.s), at, id);
      assert OneMore(old(w.s), hash, w.s, Mem(id).compHash);
      if !sent {
        return false;
      }
      ghost var s := w.s;
      var saved := SaveCompHash(id, tx);
      OneMoreLater(old(w.s), hash, s, Some(tx), w.s);
      if !saved {
        return false;
      }
      s := w.s;
      ok := Confirm(id, CompensationTx, tx);
      RepayableRests(s, w.s, id);
      OneMoreLater(old(w.s), hash, s, Some(tx), w.s);
    }

    method SaveCompHash(id: nat, tx: nat) returns (ok: bool)
      requires Valid() && AtPc(id, InCompensate(CoPersist)) && Mem(id).compHash == Some(tx)
      requires Holds(w.s, id, CompensationPending)
      modifies this`w, this`awaits, this`trace
      ensures Reached(id, InCompensate(if ok then CoConfirm else CoCatch)) && Mem(id).compHash == Some(tx)
      ensures Holds(w.s, id, CompensationPending) && SentNone(old(w.s), w.s)
      ensures ok ==> w.s.row.compHash == Some(tx)
    {
      var how := Others(id);
      RepayableRests(old(w.s), w.s, id);
      if how.db == Lost {
        Commit(id, how, w.s, Mem(id));
        return false;
      }
      var s := w.s.(row := w.s.row.(compHash := Some(tx)));
      ok := how.db == Ok;
      Commit(id, how, s, if ok then Remember(s.row) else Mem(id));
    }

    /** The transfer's own catch sends nothing: it saves the hash if the row has none, and
        marks COMPENSATED only if the attempt is seen mined. */
    method ReconcileAttempt(id: nat) returns (returned: bool)
      requires Valid() && AtPc(id, InCompensate(CoCatch)) && Repayable(w.s, id)
      modifies this`w, this`awaits, this`trace
      ensures Reached(id, Finally(returned)) && Mem(id).compHash == old(Mem(id)).compHash
      ensures Repayable(w.s, id) && SentNone(old(w.s), w.s)
      ensures w.s.row.status != old(w.s.row.status) ==> HashFate(w.s.comps, Mem(id).compHash) == Mined
      ensures w.s.row.compHash != old(w.s.row.compHash) ==>
        w.s.row.compHash == Mem(id).compHash && (old(w.s.row.compHash) == None || w.s.row.status == Compensated)
      ensures SeesMined(old(w.s), old(Mem(id)).compHash, Answer(old(awaits) + 1)) && returned ==>
        w.s.row.status == Compensated
    {
      var hash := Mem(id).compHash;
      var done, answer := SaveIfMissing(id);
      if done {
        return answer;
      }
      ghost var s := w.s;
      returned := ReadAgain(id);
      SentNoneChain(old(w.s), s, w.s);
    }

    /** Best effort: only a row without any hash is given this one. */
    method SaveIfMissing(id: nat) returns (done: bool, returned: bool)
      requires Valid() && AtPc(id, InCompensate(CoCatch)) && Repayable(w.s, id)
      modifies this`w, this`awaits, this`trace
      ensures Reached(id, if done then Finally(returned) else InCompensate(CoOutcome)) && Mem(id) == old(Mem(id))
      ensures Repayable(w.s, id) && SentNone(old(w.s), w.s) && w.s.row.status == old(w.s.row.status)
      ensures w.s.row.compHash == old(w.s.row.compHash) ||
        (old(w.s.row.compHash) == None && w.s.row.compHash == Mem(id).compHash)
      ensures Mem(id).compHash.Some? && Answer(old(awaits)).readable && Answer(old(awaits)).db != Lost ==>
        w.s.row.compHash.Some?
      ensures done ==> Mem(id).compHash == None || !returned
      ensures awaits == old(awaits) + 1
    {
      var hash := Mem(id).compHash;
      var how := Others(id);
      RepayableRests(old(w.s), w.s, id);
      var s := w.s;
      if hash.Some? && how.readable && s.row.compHash == None && how.db != Lost {
        s := s.(row := s.row.(compHash := hash));
      }
      Commit(id, how, s, Mem(id));
      done := hash.None? || !how.readable;
      returned := hash.None? && how.db == Ok;
    }

    method ReadAgain(id: nat) returns (returned: bool)
      requires Valid() && AtPc(id, InCompensate(CoOutcome)) && Repayable(w.s, id)
      modifies this`w, this`awaits, this`trace
      ensures Reached(id, Finally(returned)) && Mem(id).compHash == old(Mem(id)).compHash
      ensures Repayable(w.s, id) && SentNone(old(w.s), w.s)
      ensures w.s.row.status == old(w.s.row.status) ==> w.s.row.compHash == old(w.s.row.compHash)
      ensures w.s.row.status != old(w.s.row.status) ==>
        && w.s.row.status == Compensated && w.s.row.compHash == Mem(id).compHash
        && HashFate(w.s.comps, Mem(id).compHash) == Mined
      ensures SeesMined(old(w.s), old(Mem(id)).compHash, Answer(old(awaits))) && returned ==>
        w.s.row.status == Compensated
    {
      var hash := Mem(id).compHash;
      var how := Look(id);
      RepayableRests(old(w.s), w.s, id);
      if Observe(HashFate(w.s.comps, hash), how.seen) == SeenConfirmed {
        ghost var s := w.s;
        returned := MarkRecovered(id);
        SentNoneChain(old(w.s), s, w.s);
      } else {
        returned := how.db == Ok;
      }
    }

    // ----- the two repairs --------------------------------------------------

    /** Returns only for a payment whose sender is owed or repaid, and at once, with nothing
        sent, for one already COMPENSATED; and the sender and the recipient are never both
        paid. */
    method RepairCompensation() returns (returned: bool, id: nat)
      requires Valid()
      modifies this`w, this`awaits, this`trace
      ensures Valid() && AtPc(id, Done(returned))
      ensures !(RecipientPayable(w.s) && SenderRepayable(w.s))
      ensures returned ==> w.s.row.status in {CompensationPending, Compensated}
      ensures old(w.s.row.status) == Compensated && Answer(old(awaits)).db == Ok ==>
        returned && NothingSent(old(w.s), w.s)
    {
      id := NewCall(Repair);
      returned := LeaseAndRepair(id);
      NeverPaidAndRepaid(cfg, trace);
    }

    method LeaseAndRepair(id: nat) returns (returned: bool)
      requires Valid() && AtPc(id, InRepair(ReRead))
      modifies this`w, this`awaits, this`trace
      ensures Reached(id, Done(returned))
      ensures returned ==> w.s.row.status in {CompensationPending, Compensated}
      ensures old(w.s.row.status) == Compensated && Answer(old(awaits)).db == Ok ==>
        returned && NothingSent(old(w.s), w.s)
    {
      var how := Others(id);
      if how.db != Ok || w.s.row.status != CompensationPending {
        returned := how.db == Ok && w.s.row.status == Compensated;
        Commit(id, how, w.s, Mem(id));
        return;
      }
      Commit(id, how, w.s, Remember(w.s.row));
      returned := RunRepair(id);
    }

    method RunRepair(id: nat) returns (returned: bool)
      requires Valid() && AtPc(id, InRepair(ReClaim))
      modifies this`w, this`awaits, this`trace
      ensures Reached(id, Done(returned))
      ensures returned ==> w.s.row.status in {CompensationPending, Compensated}
    {
      var leased, _ := ClaimLease(id, CompensationPending, InRepair(ReDestination));
      if !leased {
        return false;
      }
      returned := CheckAndCompensate(id);
      ghost var s := w.s;
      var found, _ := FreeLeaseFinally(id, returned);
      RepayableRests(s, found, id);
    }

    /** No make-good is sent unless the payout can never happen, the escrow is released and
        the remembered earlier attempt can never mine. */
    method CheckAndCompensate(id: nat) returns (returned: bool)
      requires Valid() && AtPc(id, InRepair(ReDestination))
      modifies this`w, this`awaits, this`trace
      ensures Reached(id, Finally(returned))
      ensures OneMore(old(w.s), old(Mem(id)).compHash, w.s, Mem(id).compHash)
      ensures |w.s.comps| > |old(w.s.comps)| ==>
        && Dead(HashFate(w.s.dests, old(Mem(id)).destHash)) && Unpaid(w.s) && w.s.escrow == ReleasedToTreasury
        && Dead(HashFate(w.s.comps, old(Mem(id)).compHash))
      ensures Repayable(w.s, id)
    {
      BeforeRepair(id);
      var refused := PayoutUncertain(id);
      if refused {
        return false;
      }
      ghost var s := w.s;
      returned := CompensateReleased(id);
      OneMoreAfter(old(w.s), s, old(Mem(id)).compHash, w.s, Mem(id).compHash);
      DeadStays(s.dests, w.s.dests, old(Mem(id)).destHash);
    }

    /** Whether the remembered payout has happened, or may have. */
    method PayoutUncertain(id: nat) returns (refused: bool)
      requires Valid() && AtPc(id, InRepair(ReDestination)) && Repayable(w.s, id)
      modifies this`w, this`awaits, this`trace
      ensures Reached(id, if refused then Finally(false) else InRepair(ReEscrow))
      ensures Repayable(w.s, id) && SentNone(old(w.s), w.s) && Mem(id) == old(Mem(id))
      ensures w.s.row.status == old(w.s.row.status)
      ensures !refused ==> Dead(HashFate(w.s.dests, Mem(id).destHash))
    {
      var hash := Mem(id).destHash;
      var how := Look(id);
      RepayableRests(old(w.s), w.s, id);
      refused := hash.Some? && Observe(HashFate(w.s.dests, hash), how.seen) in {SeenConfirmed, Unknown};
    }

    method CompensateReleased(id: nat) returns (returned: bool)
      requires Valid() && AtPc(id, InRepair(ReEscrow)) && Repayable(w.s, id) && Unpaid(w.s)
      modifies this`w, this`awaits, this`trace
      ensures Reached(id, Finally(returned))
      ensures OneMore(old(w.s), old(Mem(id)).compHash, w.s, Mem(id).compHash)
      ensures |w.s.comps| > |old(w.s.comps)| ==>
        w.s.escrow == ReleasedToTreasury && Dead(HashFate(w.s.comps, old(Mem(id)).compHash))
      ensures Unpaid(w.s) && Repayable(w.s, id)
    {
      var how := Look(id);
      RepayableRests(old(w.s), w.s, id);
      if !how.readable || w.s.escrow != ReleasedToTreasury {
        return false;
      }
      ghost var s := w.s;
      returned := Compensate(id);
      OneMoreAfter(old(w.s), s, old(Mem(id)).compHash, w.s, Mem(id).compHash);
    }

    /** A payout or a make-good read conclusively is acted on if the call returns, and nothing
        read means the payment was finished; and the sender and the recipient are never both
        paid. */
    method ReconcileUnresolvedPayment() returns (returned: bool, id: nat, ghost finding: Finding)
      requires Valid()
      modifies this`w, this`awaits, this`trace
      ensures Valid() && AtPc(id, Done(returned))
      ensures !(RecipientPayable(w.s) && SenderRepayable(w.s))
      ensures returned ==> ActsOn(finding, w.s.row.status)
      ensures old(w.s.row.status) in {Settled, Compensated} && Answer(old(awaits)).db == Ok ==>
        returned && finding == Finished && NothingSent(old(w.s), w.s)
    {
      id := NewCall(Reconcile);
      var reconciled, found := ReadAndReconcile(id);
      returned, finding := reconciled, found;
      NeverPaidAndRepaid(cfg, trace);
    }

    method ReadAndReconcile(id: nat) returns (returned: bool, ghost finding: Finding)
      requires Valid() && AtPc(id, InReconcile(RcRead))
      modifies this`w, this`awaits, this`trace
      ensures Reached(id, Done(returned))
      ensures returned ==> ActsOn(finding, w.s.row.status)
      ensures old(w.s.row.status) in {Settled, Compensated} && Answer(old(awaits)).db == Ok ==>
        returned && finding == Finished && NothingSent(old(w.s), w.s)
    {
      var how := Others(id);
      var row := w.s.row;
      if how.db != Ok || row.status in {Settled, Compensated} {
        Commit(id, how, w.s, Mem(id));
        return how.db == Ok, Finished;
      }
      ghost var outcome: Outcome;
      if row.status == PayoutPending && row.destHash.Some? {
        Commit(id, how, w.s, Remember(row));
        returned, outcome := ReconcilePayout(id);
        finding := Payout(outcome);
      } else if row.status == CompensationPending && row.compHash.Some? {
        Commit(id, how, w.s, Remember(row));
        returned, outcome := ReconcileCompensation(id);
        finding := Transfer(outcome);
      } else {
        Commit(id, how, w.s, Mem(id));
        return false, Finished;
      }
    }

    method ReconcilePayout(id: nat) returns (returned: bool, ghost outcome: Outcome)
      requires Valid() && AtPc(id, InReconcile(RcClaimPayout))
      modifies this`w, this`awaits, this`trace
      ensures Reached(id, Done(returned))
      ensures returned ==> ActsOn(Payout(outcome), w.s.row.status)
    {
      var leased, _ := ClaimLease(id, PayoutPending, InReconcile(RcDestination));
      if !leased {
        return false, Unknown;
      }
      returned, outcome := DecidePayout(id);
      var _, _ := FreeLeaseFinally(id, returned);
    }

    /** A confirmed payout is settled; an unknown one is left as it is; only one that can
        never mine makes the payment COMPENSATION_PENDING. */
    method DecidePayout(id: nat) returns (returned: bool, ghost outcome: Outcome)
      requires Valid() && AtPc(id, InReconcile(RcDestination))
      modifies this`w, this`awaits, this`trace
      ensures Reached(id, Finally(returned))
      ensures HashFinal(old(w.s.dests), old(Mem(id)).destHash) ==>
        outcome == Observe(HashFate(old(w.s.dests), old(Mem(id)).destHash), Answer(old(awaits)).seen)
      ensures outcome == SeenConfirmed ==> PaidOut(w.s) && (returned ==> w.s.row.status == Settled)
      ensures outcome == SeenConfirmed && returned && Answer(old(awaits) + 2).readable ==> w.s.resv == Consumed
      ensures outcome in {SeenReverted, SeenAbsent} && Answer(old(awaits) + 1).db != Lost ==> w.s.resv == Released
      ensures outcome == Unknown ==> OnlyChainsMove(old(w.s), w.s)
      ensures outcome in {SeenReverted, SeenAbsent} ==>
        && Unpaid(w.s) && w.s.row.status in {PayoutPending, CompensationPending}
        && (returned ==> w.s.row.status == CompensationPending) && Owns(w.s, id)
    {
      var read, reported := ReadPayout(id);
      outcome := read;
      if read == SeenConfirmed {
        returned := CompleteForward(id);
      } else if read == Unknown {
        returned := reported;
      } else {
        returned := PendCompensation(id);
      }
    }

    method ReadPayout(id: nat) returns (read: Outcome, reported: bool)
      requires Valid() && AtPc(id, InReconcile(RcDestination))
      modifies this`w, this`awaits, this`trace
      ensures Valid() && id < |w.calls| && id < |old(w.calls)| && w.calls[id].entry == old(w.calls[id].entry)
      ensures read == SeenConfirmed ==> w.calls[id].pc.InForward? && w.calls[id].pc.fw.FwCredit?
      ensures read == Unknown ==> AtPc(id, Finally(reported))
      ensures read in {SeenReverted, SeenAbsent} ==> AtPc(id, InReconcile(RcRelease))
      ensures OnlyChainsMove(old(w.s), w.s) && awaits == old(awaits) + 1
      ensures HashFinal(old(w.s.dests), old(Mem(id)).destHash) ==>
        read == Observe(HashFate(old(w.s.dests), old(Mem(id)).destHash), Answer(old(awaits)).seen)
    {
      BeforeDecision(id);
      var hash := Mem(id).destHash;
      var how := Look(id);
      FinalStays(old(w.s.dests), w.s.dests, hash);
      read, reported := Observe(HashFate(w.s.dests, hash), how.seen), how.db == Ok;
    }

    method PendCompensation(id: nat) returns (returned: bool)
      requires Valid() && AtPc(id, InReconcile(RcRelease))
      modifies this`w, this`awaits, this`trace
      ensures Reached(id, Finally(returned))
      ensures Unpaid(w.s) && w.s.row.status in {PayoutPending, CompensationPending} && Owns(w.s, id)
      ensures returned ==> w.s.row.status == CompensationPending
      ensures Answer(old(awaits)).db != Lost ==> w.s.resv == Released
    {
      ReleaseDead(id);
      returned := MoveOn(id, CompensationPending, NO_COLUMNS);
    }

    method ReleaseDead(id: nat)
      requires Valid() && AtPc(id, InReconcile(RcRelease))
      modifies this`w, this`awaits, this`trace
      ensures Reached(id, InReconcile(RcPend)) && Holds(w.s, id, PayoutPending) && Unpaid(w.s)
      ensures Answer(old(awaits)).db != Lost ==> w.s.resv == Released
    {
      var how := Others(id);
      BeforePend(id);
      Commit(id, how, if how.db == Lost then w.s else w.s.(resv := Released), Mem(id));
    }

    method ReconcileCompensation(id: nat) returns (returned: bool, ghost outcome: Outcome)
      requires Valid() && AtPc(id, InReconcile(RcClaimCompensation))
      modifies this`w, this`awaits, this`trace
      ensures Reached(id, Done(returned))
      ensures returned ==> ActsOn(Transfer(outcome), w.s.row.status)
    {
      var leased, _ := ClaimLease(id, CompensationPending, InReconcile(RcCompensation));
      if !leased {
        return false, Unknown;
      }
      returned, outcome := DecideCompensation(id);
      var _, _ := FreeLeaseFinally(id, returned);
    }

    /** A make-good seen mined is marked COMPENSATED, by its hash; any other is left as it is. */
    method DecideCompensation(id: nat) returns (returned: bool, ghost outcome: Outcome)
      requires Valid() && AtPc(id, InReconcile(RcCompensation))
      modifies this`w, this`awaits, this`trace
      ensures Reached(id, Finally(returned))
      ensures SentNone(old(w.s), w.s) && w.s.row.status in {CompensationPending, Compensated}
      ensures w.s.row.status == CompensationPending ==> w.s.row.compHash == old(w.s.row.compHash)
      ensures w.s.row.status == Compensated ==>
        w.s.row.compHash == old(Mem(id)).compHash && HashFate(w.s.comps, w.s.row.compHash) == Mined
      ensures HashFinal(old(w.s.comps), old(Mem(id)).compHash) ==>
        outcome == Observe(HashFate(old(w.s.comps), old(Mem(id)).compHash), Answer(old(awaits)).seen)
      ensures outcome == SeenConfirmed && returned ==> w.s.row.status == Compensated
      ensures outcome != SeenConfirmed ==> w.s.row.status == CompensationPending
    {
      BeforeDecidingCompensation(id);
      var hash := Mem(id).compHash;
      var how := Look(id);
      RepayableRests(old(w.s), w.s, id);
      var read := Observe(HashFate(w.s.comps, hash), how.seen);
      outcome := read;
      if read == SeenConfirmed {
        ghost var s := w.s;
        returned := MarkRecovered(id);
        SentNoneChain(old(w.s), s, w.s);
      } else {
        returned := how.db == Ok;
      }
    }
  }
}
