/** Every await of every call keeps the saga's invariant, and no step of one call, of a
    chain or of another route disturbs what a different call relies on. */
module SagaSteps {
  import opened Options
  import opened PaymentState
  import opened SagaModel
  import opened SagaInvariant

  // ----- the shared invariant -----------------------------------------------

  predicate BeforeTry(pc: ExecutePc) {
    pc in {ExRead, ExClaim, ExSetup, ExReserve, ExMark}
  }

  lemma SetupKeepsShared(s: Shared, id: nat, k: Call, pc: ExecutePc, how: How)
    requires SharedOk(s) && TryOk(s, id, k.mem, pc) && BeforeTry(pc)
    ensures SharedOk(StepExecute(s, id, k, pc, how).s)
  {
    var s' := StepExecute(s, id, k, pc, how).s;
    match pc
    case ExClaim => assert s' == s || s' == s.(row := s.row.(lease := Some(id)));
    case ExSetup => assert Untouched(s);
    case ExReserve => assert s' == s || s' == s.(resv := Reserved);
    case ExMark => assert Untouched(s);
    case _ =>
  }

  lemma TryKeepsShared(s: Shared, id: nat, k: Call, pc: ExecutePc, how: How)
    requires SharedOk(s) && TryOk(s, id, k.mem, pc) && !BeforeTry(pc)
    ensures SharedOk(StepExecute(s, id, k, pc, how).s)
  {
    var s' := StepExecute(s, id, k, pc, how).s;
    match pc
    case ExInitiate => assert s' == s || s' == s.(inits := [Pending]);
    case ExSettle => assert s' == s || s' == s.(settles := [Pending]);
    case ExSubmitted => assert s' == s || s' == s.(row := Swapped(s.row, SubmittedOnchain, NO_COLUMNS));
    case ExConfirmed => assert s' == s || s' == s.(row := Swapped(s.row, ConfirmedOnchain, NO_COLUMNS));
    case ExFx => assert s' == s || s'.row.status == FxOrSwapCompleted;
    case ExPayout => assert s' == s || s' == s.(row := Swapped(s.row, PayoutPending, NO_COLUMNS));
    case _ =>
  }

  lemma PayoutKeepsShared(s: Shared, id: nat, k: Call, pc: PayoutPc, how: How)
    requires SharedOk(s) && PayoutOk(s, id, k.mem, pc)
    ensures SharedOk(StepPayout(s, k, pc, how).s)
  {
  }

  predicate Undoing(pc: CatchPc) {
    pc.CaCredit? || pc.CaDestination? || pc.CaRelease? || pc.CaEscrow? || pc.CaCompensate?
  }

  lemma CatchKeepsShared(s: Shared, id: nat, k: Call, pc: CatchPc, how: How)
    requires SharedOk(s) && CatchOk(s, id, k.mem, pc) && Undoing(pc)
    ensures SharedOk(StepCatch(s, k, pc, how).s)
  {
  }

  predicate Refunding(pc: CatchPc) {
    pc.CaRefund? || pc.CaRefundConfirm? || pc.CaRefundFailed?
  }

  lemma RefundKeepsShared(s: Shared, id: nat, k: Call, pc: CatchPc, how: How)
    requires SharedOk(s) && CatchOk(s, id, k.mem, pc) && Refunding(pc)
    ensures SharedOk(StepCatch(s, k, pc, how).s)
  {
    assert NoPayout(s);
  }

  lemma FailKeepsShared(s: Shared, id: nat, k: Call, pc: CatchPc, how: How)
    requires SharedOk(s) && CatchOk(s, id, k.mem, pc) && !Undoing(pc) && !Refunding(pc)
    ensures SharedOk(StepCatch(s, k, pc, how).s)
  {
    assert NoPayout(s);
    var row := StepCatch(s, k, pc, how).s.row;
    match pc
    case CaRefundMark => assert row == s.row || row == Swapped(s.row, Failed, NO_COLUMNS);
    case CaRefundReport => assert row == s.row || row == Swapped(s.row, Refunded, NO_COLUMNS);
    case CaFail => assert row == s.row || row == Swapped(s.row, Failed, NO_COLUMNS);
  }

  lemma ForwardKeepsShared(s: Shared, id: nat, k: Call, pc: ForwardPc, how: How)
    requires SharedOk(s) && ForwardOk(s, id, k.mem, pc)
    ensures SharedOk(StepForward(s, k, pc, how).s)
  {
    var s' := StepForward(s, k, pc, how).s;
    match pc
    case FwCredit(amount) => assert s' == s || s' == s.(credits := [s.cfg.payout]);
    case FwConsume => assert s' == s || s' == s.(resv := Consumed);
    case FwSettled => assert s' == s || s'.row == Swapped(s.row, Settled, Columns(k.mem.destHash, None, None));
  }

  lemma CompensateKeepsShared(s: Shared, id: nat, k: Call, pc: CompensatePc, how: How)
    requires SharedOk(s) && CompensateOk(s, id, k.mem, pc)
    ensures SharedOk(StepCompensate(s, k, pc, how).s)
  {
    var s' := StepCompensate(s, k, pc, how).s;
    match pc
    case CoBroadcast => assert s'.row == s.row;
    case CoPersist => assert s' == s || s' == s.(row := s.row.(compHash := k.mem.compHash));
    case CoCatch => assert s' == s || s' == s.(row := s.row.(compHash := k.mem.compHash));
    case CoMark => assert s' == s || s'.row.status == Compensated;
    case CoRecovered => assert s' == s || s'.row.status == Compensated;
    case _ => assert s' == s;
  }

  lemma RepairKeepsShared(s: Shared, id: nat, k: Call, pc: RepairPc, how: How)
    requires SharedOk(s) && RepairOk(s, id, k.mem, pc)
    ensures SharedOk(StepRepair(s, id, k, pc, how).s)
  {
  }

  lemma ReconcileKeepsShared(s: Shared, id: nat, k: Call, pc: ReconcilePc, how: How)
    requires SharedOk(s) && ReconcileOk(s, id, k.mem, pc)
    ensures SharedOk(StepReconcile(s, id, k, pc, how).s)
  {
    var s' := StepReconcile(s, id, k, pc, how).s;
    match pc
    case RcClaimPayout => assert s' == s || s' == s.(row := s.row.(lease := Some(id)));
    case RcClaimCompensation => assert s' == s || s' == s.(row := s.row.(lease := Some(id)));
    case RcRelease => assert s' == s || s' == s.(resv := Released);
    case RcPend => assert s' == s || s' == s.(row := Swapped(s.row, CompensationPending, NO_COLUMNS));
    case _ => assert s' == s;
  }

  // ----- the call's own assertion -------------------------------------------

  lemma SetupReachesCall(s: Shared, id: nat, k: Call, pc: ExecutePc, how: How)
    requires SharedOk(s) && k.entry == Execute && TryOk(s, id, k.mem, pc) && BeforeTry(pc)
    ensures var out := StepExecute(s, id, k, pc, how); CallOk(out.s, id, out.call)
  {
    var next := StepExecute(s, id, k, pc, how).call.pc;
    match pc
    case ExRead => assert next in {InTry(ExClaim), Done(false)};
    case ExClaim => assert next in {InTry(ExSetup), Done(false)};
    case ExSetup => assert next in {InTry(ExReserve), Finally(false)};
    case ExReserve => assert next in {InTry(ExMark), Finally(false)};
    case ExMark => assert next in {InTry(ExAllowance), Finally(false)};
  }

  predicate Escrowing(pc: ExecutePc) {
    pc.ExAllowance? || pc.ExInitiate? || pc.ExInitiateConfirm? || pc.ExSubmitted? || pc.ExConfirmed?
  }

  lemma EscrowReachesCall(s: Shared, id: nat, k: Call, pc: ExecutePc, how: How)
    requires SharedOk(s) && k.entry == Execute && TryOk(s, id, k.mem, pc) && Escrowing(pc)
    ensures var out := StepExecute(s, id, k, pc, how); CallOk(out.s, id, out.call)
  {
    var next := StepExecute(s, id, k, pc, how).call.pc;
    match pc
    case ExAllowance => assert next in {InTry(ExInitiate), InCatch(CaCredit)};
    case ExInitiate => assert next in {InTry(ExInitiateConfirm(|s.inits|)), InCatch(CaCredit)};
    case ExInitiateConfirm(tx) => assert next in {InTry(ExSubmitted), InCatch(CaCredit)};
    case ExSubmitted => assert next in {InTry(ExConfirmed), InCatch(CaCredit)};
    case ExConfirmed => assert next in {InTry(ExSettle), InCatch(CaCredit)};
  }

  lemma SettleReachesCall(s: Shared, id: nat, k: Call, pc: ExecutePc, how: How)
    requires SharedOk(s) && k.entry == Execute && TryOk(s, id, k.mem, pc) && !BeforeTry(pc) && !Escrowing(pc)
    ensures var out := StepExecute(s, id, k, pc, how); CallOk(out.s, id, out.call)
  {
    var next := StepExecute(s, id, k, pc, how).call.pc;
    match pc
    case ExSettle => assert next in {InTry(ExSettleConfirm(0)), InCatch(CaCredit)};
    case ExSettleConfirm(tx) => assert next in {InTry(ExFx), InCatch(CaCredit)};
    case ExFx => assert next in {InTry(ExPayout), InCatch(CaCredit)};
    case ExPayout => assert next in {InPayout(PoBridge), InPayout(PoCredit), InCatch(CaCredit)};
  }

  lemma PayoutReachesCall(s: Shared, id: nat, k: Call, pc: PayoutPc, how: How)
    requires SharedOk(s) && k.entry == Execute && PayoutOk(s, id, k.mem, pc)
    ensures var out := StepPayout(s, k, pc, how); CallOk(out.s, id, out.call)
  {
    var next := StepPayout(s, k, pc, how).call.pc;
    match pc
    case PoBridge => assert next in {InPayout(PoPersist), InCatch(CaCredit)};
    case PoPersist => assert next in {InPayout(PoConfirm), InCatch(CaCredit)};
    case PoConfirm => assert next in {InPayout(PoCredit), InCatch(CaCredit)};
    case PoCredit => assert next in {InPayout(PoConsume), InCatch(CaCredit)};
    case PoConsume => assert next in {InPayout(PoSettled), InCatch(CaCredit)};
    case PoSettled => assert next in {Finally(true), InCatch(CaCredit)};
  }

  /** The evidence half of the catch: a ledger credit or a confirmed transfer completes
      forward, an unreadable one waits, a dead one is undone. */
  lemma EvidenceReachesCall(s: Shared, id: nat, k: Call, pc: CatchPc, how: How)
    requires SharedOk(s) && k.entry == Execute && CatchOk(s, id, k.mem, pc) && (pc.CaCredit? || pc.CaDestination?)
    ensures var out := StepCatch(s, k, pc, how); CallOk(out.s, id, out.call)
  {
    var next := StepCatch(s, k, pc, how).call.pc;
    if pc == CaCredit {
      assert next in {Finally(false), InForward(FwCredit(s.cfg.payout)), InCatch(CaDestination)};
    } else if k.mem.destHash.Some? {
      assert s.row.status == PayoutPending && k.mem.destHash == Some(0) && |s.dests| == 1;
      assert next.Finally? || next in {InForward(FwCredit(s.cfg.payout)), InCatch(CaRelease)};
    } else {
      assert next == InCatch(CaRelease);
    }
  }

  lemma CatchReachesCall(s: Shared, id: nat, k: Call, pc: CatchPc, how: How)
    requires SharedOk(s) && k.entry == Execute && CatchOk(s, id, k.mem, pc) &&
      (pc.CaRelease? || pc.CaEscrow? || pc.CaCompensate?)
    ensures var out := StepCatch(s, k, pc, how); CallOk(out.s, id, out.call)
  {
    var next := StepCatch(s, k, pc, how).call.pc;
    match pc
    case CaRelease => assert next == InCatch(CaEscrow);
    case CaEscrow => assert next in {InCatch(CaCompensate), InCatch(CaRefund), InCatch(CaFail)};
    case CaCompensate => assert next in {InCompensate(CoPrior), Finally(false)};
  }

  lemma RefundReachesCall(s: Shared, id: nat, k: Call, pc: CatchPc, how: How)
    requires SharedOk(s) && k.entry == Execute && CatchOk(s, id, k.mem, pc) && Refunding(pc)
    ensures var out := StepCatch(s, k, pc, how); CallOk(out.s, id, out.call)
  {
    var next := StepCatch(s, k, pc, how).call.pc;
    match pc
    case CaRefund => assert next in {InCatch(CaRefundConfirm(0)), InCatch(CaRefundFailed)};
    case CaRefundConfirm(tx) => assert next in {InCatch(CaRefundMark), InCatch(CaRefundFailed)};
    case CaRefundFailed => assert next in {InCatch(CaFail), Finally(false)};
  }

  lemma FailReachesCall(s: Shared, id: nat, k: Call, pc: CatchPc, how: How)
    requires SharedOk(s) && k.entry == Execute && CatchOk(s, id, k.mem, pc) && !Undoing(pc) && !Refunding(pc)
    ensures var out := StepCatch(s, k, pc, how); CallOk(out.s, id, out.call)
  {
    var next := StepCatch(s, k, pc, how).call.pc;
    match pc
    case CaRefundMark => assert next in {InCatch(CaRefundReport), InCatch(CaRefundFailed)};
    case CaRefundReport => assert next in {Finally(true), InCatch(CaRefundFailed)};
    case CaFail => assert next.Finally?;
  }

  lemma ForwardReachesCall(s: Shared, id: nat, k: Call, pc: ForwardPc, how: How)
    requires SharedOk(s) && ForwardOk(s, id, k.mem, pc)
    ensures var out := StepForward(s, k, pc, how); CallOk(out.s, id, out.call)
  {
  }

  lemma CompensateReachesCall(s: Shared, id: nat, k: Call, pc: CompensatePc, how: How)
    requires SharedOk(s) && CompensateOk(s, id, k.mem, pc)
    ensures var out := StepCompensate(s, k, pc, how); CallOk(out.s, id, out.call)
  {
    var next := StepCompensate(s, k, pc, how).call.pc;
    match pc
    case CoPrior => assert next in {InCompensate(CoBroadcast), InCompensate(CoRecovered), Finally(false)};
    case CoBroadcast => assert next in {InCompensate(CoPersist), InCompensate(CoCatch)};
    case CoPersist => assert next in {InCompensate(CoConfirm), InCompensate(CoCatch)};
    case CoConfirm => assert next in {InCompensate(CoMark), InCompensate(CoCatch)};
    case CoMark => assert next.Finally? || next == InCompensate(CoCatch);
    case CoCatch => assert next.Finally? || next == InCompensate(CoOutcome);
    case CoOutcome => assert next.Finally? || next == InCompensate(CoRecovered);
    case CoRecovered => assert next.Finally?;
  }

  lemma RepairReachesCall(s: Shared, id: nat, k: Call, pc: RepairPc, how: How)
    requires SharedOk(s) && RepairOk(s, id, k.mem, pc) && k.entry == Repair
    ensures var out := StepRepair(s, id, k, pc, how); CallOk(out.s, id, out.call)
  {
  }

  /** A reconcile's evidence: with one destination attempt, a confirmed read means the
      leg is done, and any other conclusive read that it is dead and never credited. */
  lemma ReconcileEvidence(s: Shared, id: nat, k: Call, how: How)
    requires SharedOk(s) && ReconcileOk(s, id, k.mem, RcDestination) && k.entry == Reconcile
    ensures var out := StepReconcile(s, id, k, RcDestination, how); CallOk(out.s, id, out.call)
  {
    assert k.mem.destHash == Some(0) && |s.dests| == 1;
    if s.dests[0] == Mined {
      assert LegDone(s);
    } else if Dead(s.dests[0]) {
      assert AllDead(s.dests);
    }
  }

  lemma ReconcileReachesCall(s: Shared, id: nat, k: Call, pc: ReconcilePc, how: How)
    requires SharedOk(s) && ReconcileOk(s, id, k.mem, pc) && k.entry == Reconcile && !pc.RcDestination?
    ensures var out := StepReconcile(s, id, k, pc, how); CallOk(out.s, id, out.call)
  {
    var next := StepReconcile(s, id, k, pc, how).call.pc;
    match pc
    case RcRead => assert next.Done? || next in {InReconcile(RcClaimPayout), InReconcile(RcClaimCompensation)};
    case RcClaimPayout => assert next.Done? || next == InReconcile(RcDestination);
    case RcRelease => assert next == InReconcile(RcPend);
    case RcPend => assert next.Finally?;
    case RcClaimCompensation => assert next.Done? || next == InReconcile(RcCompensation);
    case RcCompensation => assert next.Finally? || next == InCompensate(CoRecovered);
  }

  // ----- what is final stays final ------------------------------------------

  lemma SetupEvolves(s: Shared, id: nat, k: Call, pc: ExecutePc, how: How)
    requires SharedOk(s) && TryOk(s, id, k.mem, pc) && BeforeTry(pc)
    ensures Evolves(s, StepExecute(s, id, k, pc, how).s)
  {
    var s' := StepExecute(s, id, k, pc, how).s;
    match pc
    case ExClaim => assert s' == s || s' == s.(row := s.row.(lease := Some(id)));
    case ExSetup => assert s'.row == s.row || s'.row == Swapped(s.row, Failed, NO_COLUMNS);
    case ExReserve => assert s' == s || s' == s.(resv := Reserved);
    case ExMark => assert s' == s || s'.row == Swapped(s.row, LiquidityReserved, NO_COLUMNS);
    case _ =>
  }

  lemma TryEvolves(s: Shared, id: nat, k: Call, pc: ExecutePc, how: How)
    requires SharedOk(s) && TryOk(s, id, k.mem, pc) && !BeforeTry(pc)
    ensures Evolves(s, StepExecute(s, id, k, pc, how).s)
  {
    var s' := StepExecute(s, id, k, pc, how).s;
    match pc
    case ExInitiate => assert s'.row == s.row;
    case ExSettle => assert s'.row == s.row;
    case ExSubmitted => assert s' == s || s'.row.status == SubmittedOnchain;
    case ExConfirmed => assert s' == s || s'.row.status == ConfirmedOnchain;
    case ExFx => assert s' == s || s'.row.status == FxOrSwapCompleted;
    case ExPayout => assert s' == s || s'.row.status == PayoutPending;
    case _ =>
  }

  lemma PayoutEvolves(s: Shared, id: nat, k: Call, pc: PayoutPc, how: How)
    requires SharedOk(s) && PayoutOk(s, id, k.mem, pc)
    ensures Evolves(s, StepPayout(s, k, pc, how).s)
  {
  }

  lemma CatchEvolves(s: Shared, id: nat, k: Call, pc: CatchPc, how: How)
    requires SharedOk(s) && CatchOk(s, id, k.mem, pc)
    ensures Evolves(s, StepCatch(s, k, pc, how).s)
  {
    var s' := StepCatch(s, k, pc, how).s;
    match pc
    case CaRelease => assert s'.row == s.row;
    case CaRefund => assert s'.row == s.row;
    case CaCompensate => assert s' == s || s'.row.status == CompensationPending;
    case CaRefundMark => assert s' == s || s'.row.status == Failed;
    case CaRefundReport => assert s' == s || s'.row.status == Refunded;
    case CaFail => assert s' == s || s'.row.status == Failed;
    case _ => assert s' == s;
  }

  lemma ForwardEvolves(s: Shared, id: nat, k: Call, pc: ForwardPc, how: How)
    requires SharedOk(s) && ForwardOk(s, id, k.mem, pc)
    ensures Evolves(s, StepForward(s, k, pc, how).s)
  {
    var s' := StepForward(s, k, pc, how).s;
    match pc
    case FwCredit(amount) => assert s' == s || s' == s.(credits := [amount]);
    case FwConsume => assert s' == s || s' == s.(resv := Consumed);
    case FwSettled => assert s' == s || s'.row.status == Settled;
  }

  lemma CompensateEvolves(s: Shared, id: nat, k: Call, pc: CompensatePc, how: How)
    requires SharedOk(s) && CompensateOk(s, id, k.mem, pc)
    ensures Evolves(s, StepCompensate(s, k, pc, how).s)
  {
  }

  lemma RepairEvolves(s: Shared, id: nat, k: Call, pc: RepairPc, how: How)
    requires SharedOk(s) && RepairOk(s, id, k.mem, pc)
    ensures Evolves(s, StepRepair(s, id, k, pc, how).s)
  {
  }

  lemma ReconcileEvolves(s: Shared, id: nat, k: Call, pc: ReconcilePc, how: How)
    requires SharedOk(s) && ReconcileOk(s, id, k.mem, pc)
    ensures Evolves(s, StepReconcile(s, id, k, pc, how).s)
  {
    var s' := StepReconcile(s, id, k, pc, how).s;
    match pc
    case RcClaimPayout => assert s' == s || s' == s.(row := s.row.(lease := Some(id)));
    case RcClaimCompensation => assert s' == s || s' == s.(row := s.row.(lease := Some(id)));
    case RcRelease => assert s' == s || s' == s.(resv := Released);
    case RcPend => assert s' == s || s'.row == Swapped(s.row, CompensationPending, NO_COLUMNS);
    case _ => assert s' == s;
  }

  // ----- one step of one call -----------------------------------------------

  lemma TryBlockKeepsShared(s: Shared, id: nat, k: Call, pc: ExecutePc, how: How)
    requires SharedOk(s) && TryOk(s, id, k.mem, pc)
    ensures SharedOk(StepExecute(s, id, k, pc, how).s)
  {
    if BeforeTry(pc) {
      SetupKeepsShared(s, id, k, pc, how);
    } else {
      TryKeepsShared(s, id, k, pc, how);
    }
  }

  lemma CatchBlockKeepsShared(s: Shared, id: nat, k: Call, pc: CatchPc, how: How)
    requires SharedOk(s) && CatchOk(s, id, k.mem, pc)
    ensures SharedOk(StepCatch(s, k, pc, how).s)
  {
    if Undoing(pc) {
      CatchKeepsShared(s, id, k, pc, how);
    } else if Refunding(pc) {
      RefundKeepsShared(s, id, k, pc, how);
    } else {
      FailKeepsShared(s, id, k, pc, how);
    }
  }

  /** Every await keeps the shared invariant. */
  lemma StepKeepsShared(s: Shared, id: nat, k: Call, how: How)
    requires SharedOk(s) && CallOk(s, id, k)
    ensures SharedOk(StepCall(s, id, k, how).s)
  {
    match k.pc
    case InTry(pc) => TryBlockKeepsShared(s, id, k, pc, how);
    case InPayout(pc) => PayoutKeepsShared(s, id, k, pc, how);
    case InCatch(pc) => CatchBlockKeepsShared(s, id, k, pc, how);
    case InForward(pc) => ForwardKeepsShared(s, id, k, pc, how);
    case InCompensate(pc) => CompensateKeepsShared(s, id, k, pc, how);
    case InRepair(pc) => RepairKeepsShared(s, id, k, pc, how);
    case InReconcile(pc) => ReconcileKeepsShared(s, id, k, pc, how);
    case _ =>
  }

  /** Every await leaves the call with what its next await relies on. */
  lemma StepReachesCall(s: Shared, id: nat, k: Call, how: How)
    requires SharedOk(s) && CallOk(s, id, k)
    ensures var out := StepCall(s, id, k, how); CallOk(out.s, id, out.call)
  {
    match k.pc
    case InTry(pc) =>
      if BeforeTry(pc) {
        SetupReachesCall(s, id, k, pc, how);
      } else if Escrowing(pc) {
        EscrowReachesCall(s, id, k, pc, how);
      } else {
        SettleReachesCall(s, id, k, pc, how);
      }
    case InPayout(pc) => PayoutReachesCall(s, id, k, pc, how);
    case InCatch(pc) =>
      if pc.CaCredit? || pc.CaDestination? {
        EvidenceReachesCall(s, id, k, pc, how);
      } else if Undoing(pc) {
        CatchReachesCall(s, id, k, pc, how);
      } else if Refunding(pc) {
        RefundReachesCall(s, id, k, pc, how);
      } else {
        FailReachesCall(s, id, k, pc, how);
      }
    case InForward(pc) => ForwardReachesCall(s, id, k, pc, how);
    case InCompensate(pc) => CompensateReachesCall(s, id, k, pc, how);
    case InRepair(pc) => RepairReachesCall(s, id, k, pc, how);
    case InReconcile(pc) =>
      if pc == RcDestination {
        ReconcileEvidence(s, id, k, how);
      } else {
        ReconcileReachesCall(s, id, k, pc, how);
      }
    case _ =>
  }

  /** No await loses a final fact. */
  lemma StepEvolves(s: Shared, id: nat, k: Call, how: How)
    requires SharedOk(s) && CallOk(s, id, k)
    ensures Evolves(s, StepCall(s, id, k, how).s)
  {
    match k.pc
    case InTry(pc) =>
      if BeforeTry(pc) {
        SetupEvolves(s, id, k, pc, how);
      } else {
        TryEvolves(s, id, k, pc, how);
      }
    case InPayout(pc) => PayoutEvolves(s, id, k, pc, how);
    case InCatch(pc) => CatchEvolves(s, id, k, pc, how);
    case InForward(pc) => ForwardEvolves(s, id, k, pc, how);
    case InCompensate(pc) => CompensateEvolves(s, id, k, pc, how);
    case InRepair(pc) => RepairEvolves(s, id, k, pc, how);
    case InReconcile(pc) => ReconcileEvolves(s, id, k, pc, how);
    case _ =>
  }

  /** While another call owns the lease, a step changes nothing that is shared. */
  lemma LeaseExcludes(s: Shared, id: nat, k: Call, how: How, owner: nat)
    requires SharedOk(s) && CallOk(s, id, k) && s.row.lease == Some(owner) && owner != id
    ensures StepCall(s, id, k, how).s == s
  {
  }

  lemma StepKeepsEntry(s: Shared, id: nat, k: Call, how: How)
    ensures StepCall(s, id, k, how).call.entry == k.entry
  {
    match k.pc
    case InTry(pc) => assert StepExecute(s, id, k, pc, how).call.entry == k.entry;
    case InPayout(pc) => assert StepPayout(s, k, pc, how).call.entry == k.entry;
    case InCatch(pc) => assert StepCatch(s, k, pc, how).call.entry == k.entry;
    case InCompensate(pc) => assert StepCompensate(s, k, pc, how).call.entry == k.entry;
    case InReconcile(pc) => assert StepReconcile(s, id, k, pc, how).call.entry == k.entry;
    case _ =>
  }

  // ----- other calls are not disturbed --------------------------------------

  /** A call's assertion survives any step that loses no final fact, provided the step
      changed nothing while this call owned the lease. */
  lemma Undisturbed(s: Shared, s': Shared, id: nat, k: Call)
    requires SharedOk(s) && SharedOk(s') && CallOk(s, id, k) && Evolves(s, s')
    requires s.row.lease == Some(id) ==> s' == s
    ensures CallOk(s', id, k)
  {
  }

  /** Only the chains move: transactions get their fates, and no escrow ending is undone. */
  ghost predicate OnlyChainsMove(s: Shared, s': Shared) {
    && s'.cfg == s.cfg && s'.row == s.row && s'.resv == s.resv && s'.credits == s.credits
    && |s'.inits| == |s.inits| && |s'.settles| == |s.settles| && |s'.refunds| == |s.refunds|
    && |s'.dests| == |s.dests| && |s'.comps| == |s.comps|
    && Grows(s.inits, s'.inits) && Grows(s.settles, s'.settles) && Grows(s.refunds, s'.refunds)
    && Grows(s.dests, s'.dests) && Grows(s.comps, s'.comps)
    && (s.escrow in {ReleasedToTreasury, ReturnedToSender} ==> s'.escrow == s.escrow)
  }

  lemma ChainsMoveUndisturbed(s: Shared, s': Shared, id: nat, k: Call)
    requires CallOk(s, id, k) && OnlyChainsMove(s, s')
    ensures CallOk(s', id, k)
  {
    assert LegDone(s) ==> LegDone(s');
    assert AllDead(s.dests) ==> AllDead(s'.dests);
  }

  lemma MiningMovesChains(s: Shared, kind: TxKind, i: nat, fate: Fate)
    requires SharedOk(s)
    ensures OnlyChainsMove(s, MineTx(s, kind, i, fate))
  {
    var s' := MineTx(s, kind, i, fate);
    match kind
    case InitiateTx => assert s' == s || s' == s.(inits := s'.inits, escrow := s'.escrow, bal := s'.bal);
    case SettleTx => assert s' == s || s' == s.(settles := s'.settles, escrow := s'.escrow, bal := s'.bal);
    case RefundTx => assert s' == s || s' == s.(refunds := s'.refunds, escrow := s'.escrow, bal := s'.bal);
    case DestinationTx => assert s' == s || s' == s.(dests := s'.dests, bal := s'.bal);
    case CompensationTx => assert s' == s || s' == s.(comps := s'.comps, bal := s'.bal);
  }

  /** A mined, reverted or dropped transaction disturbs no call. */
  lemma MiningUndisturbed(s: Shared, kind: TxKind, i: nat, fate: Fate, id: nat, k: Call)
    requires SharedOk(s) && CallOk(s, id, k)
    ensures CallOk(MineTx(s, kind, i, fate), id, k)
  {
    MiningMovesChains(s, kind, i, fate);
    ChainsMoveUndisturbed(s, MineTx(s, kind, i, fate), id, k);
  }

  lemma EscrowMiningKeepsShared(s: Shared, kind: TxKind, i: nat, fate: Fate)
    requires SharedOk(s) && !kind.DestinationTx? && !kind.CompensationTx?
    ensures SharedOk(MineTx(s, kind, i, fate))
  {
    match kind
    case InitiateTx => InitiationKeepsShared(s, i, fate);
    case SettleTx => SettlementKeepsShared(s, i, fate);
    case RefundTx => RefundMiningKeepsShared(s, i, fate);
  }

  lemma InitiationKeepsShared(s: Shared, i: nat, fate: Fate)
    requires SharedOk(s)
    ensures SharedOk(MineTx(s, InitiateTx, i, fate))
  {
    if FateOf(s.inits, i) == Pending {
      assert s.escrow == Empty && i == 0;
    } else {
      assert MineTx(s, InitiateTx, i, fate) == s;
    }
  }

  lemma SettlementKeepsShared(s: Shared, i: nat, fate: Fate)
    requires SharedOk(s)
    ensures SharedOk(MineTx(s, SettleTx, i, fate))
  {
    if FateOf(s.settles, i) == Pending {
      assert i == 0;
    } else {
      assert MineTx(s, SettleTx, i, fate) == s;
    }
  }

  lemma RefundMiningKeepsShared(s: Shared, i: nat, fate: Fate)
    requires SharedOk(s)
    ensures SharedOk(MineTx(s, RefundTx, i, fate))
  {
    if FateOf(s.refunds, i) == Pending {
      assert i == 0;
    } else {
      assert MineTx(s, RefundTx, i, fate) == s;
    }
  }

  lemma TransferMiningKeepsShared(s: Shared, kind: TxKind, i: nat, fate: Fate)
    requires SharedOk(s) && (kind.DestinationTx? || kind.CompensationTx?)
    ensures SharedOk(MineTx(s, kind, i, fate))
  {
    var s' := MineTx(s, kind, i, fate);
    if kind.DestinationTx? && FateOf(s.dests, i) == Pending {
      assert s.row.status == PayoutPending && s.credits == [];
    } else if kind.CompensationTx? && FateOf(s.comps, i) == Pending {
      assert s.row.status == CompensationPending || s.row.status == Compensated;
    } else {
      assert s' == s;
    }
  }

  /** A swap by another route, a cancel included, disturbs no call. */
  lemma RouteUndisturbed(s: Shared, to: Status, quoted: Option<nat>, id: nat, k: Call)
    requires SharedOk(s) && CallOk(s, id, k)
    ensures CallOk(RouteSwap(s, to, quoted), id, k)
  {
    var s' := RouteSwap(s, to, quoted);
    if s' != s {
      RouteMovesRow(s, to, quoted);
      match k.pc
      case InTry(pc) => assert pc in {ExRead, ExClaim, ExSetup, ExReserve, ExMark};
      case InRepair(pc) => assert pc in {ReRead, ReClaim};
      case InReconcile(pc) => assert pc in {RcRead, RcClaimPayout, RcClaimCompensation};
      case _ =>
    }
  }

  /** Other routes touch an untouched payment's row only, and only a cancel moves an approved
      one. */
  lemma RouteMovesRow(s: Shared, to: Status, quoted: Option<nat>)
    requires SharedOk(s) && RouteSwap(s, to, quoted) != s
    ensures Cancellable(s.row.status) && Untouched(s)
    ensures RouteSwap(s, to, quoted) == s.(row := Swapped(s.row, to, Columns(None, None, quoted)))
    ensures s.row.status == Approved ==> to == Cancelled
  {
  }

  lemma RouteKeepsShared(s: Shared, to: Status, quoted: Option<nat>)
    requires SharedOk(s)
    ensures SharedOk(RouteSwap(s, to, quoted))
  {
  }
}
