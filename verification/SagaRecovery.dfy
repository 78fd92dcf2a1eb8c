/** How the calls end what went wrong: from every reachable world in which an execution has
    been caught, or a payment waits for an operator, the call that is left alone, its awaits
    succeeding, brings the money where it belongs. */
module SagaRecovery {
  import opened Options
  import opened PaymentState
  import opened SagaModel
  import opened SagaInvariant
  import opened SagaSteps
  import opened SagaTheorems
  import opened SagaLegs
  import opened SagaOthers
  import opened SagaProgress

  // ----- an attempt that was caught -----------------------------------------

  /** The call is in the catch block, has the lease and remembers the row's status. */
  predicate Current(s: Shared, id: nat, k: Call) {
    k.pc.InCatch? && s.row.lease == Some(id) && k.mem.status == s.row.status
  }

  /** The payment is nowhere but with the sender. */
  predicate Whole(s: Shared) {
    s.bal == Balances(0, 0, 0, 0, 0)
  }

  lemma FailedIsWhole(s: Shared)
    requires SharedOk(s) && LedgerOk(s) && s.row.status == Failed && s.escrow in {Empty, ReturnedToSender}
    ensures Whole(s)
  {
    assert MinedCount(s.comps) == 0 && MinedCount(s.dests) == 0;
  }

  lemma OnceIsWhole(s: Shared)
    requires SharedOk(s) && LedgerOk(s) && s.row.status == Compensated && s.comps == [Mined]
    ensures Whole(s)
  {
    CompensatedMeans(s);
    assert s.comps == [] + [Mined] && s.comps[..0] == [];
    DeadNeverMined(s.dests);
  }

  lemma JustFails(l: Leg, id: nat) returns (l': Leg)
    requires Along(l, id) && Current(l.w.s, id, l.w.calls[id]) && l.w.calls[id].pc == InCatch(CaFail)
    requires CanTransition(l.w.s.row.status, Failed)
    ensures Further(l, l', id) && EndsAt(l'.w, id, Failed)
    ensures l'.w.s == l.w.s.(row := l.w.s.row.(status := Failed, lease := None))
  {
    l' := Await(l, id, OK);
    assert l'.w.s == l.w.s.(row := l.w.s.row.(status := Failed, lease := None));
    l' := Returns(l', id);
  }

  /** A refund that has mined is reported: FAILED, then REFUNDED. */
  lemma RefundIsReported(l: Leg, id: nat) returns (l': Leg)
    requires Along(l, id) && Current(l.w.s, id, l.w.calls[id]) && l.w.calls[id].pc == InCatch(CaRefundMark)
    requires CanTransition(l.w.s.row.status, Failed)
    ensures Further(l, l', id) && EndsAt(l'.w, id, Refunded) && l'.w.s.resv == l.w.s.resv
  {
    l' := Await(l, id, OK);
    assert l'.w.s == l.w.s.(row := l.w.s.row.(status := Failed, lease := None));
    l' := RefundIsClosed(l', id);
  }

  lemma RefundIsClosed(l: Leg, id: nat) returns (l': Leg)
    requires Along(l, id) && l.w.calls[id].pc == InCatch(CaRefundReport)
    requires l.w.calls[id].mem.status == Failed && l.w.s.row.status == Failed
    ensures Further(l, l', id) && EndsAt(l'.w, id, Refunded) && l'.w.s.resv == l.w.s.resv
  {
    l' := Await(l, id, OK);
    assert l'.w.s == l.w.s.(row := l.w.s.row.(status := Refunded, lease := None));
    l' := Returns(l', id);
  }

  /** A held escrow is refunded. */
  lemma HeldIsRefunded(l: Leg, id: nat) returns (l': Leg)
    requires Along(l, id) && Current(l.w.s, id, l.w.calls[id]) && l.w.calls[id].pc == InCatch(CaRefund)
    requires l.w.s.escrow == Held && l.w.s.refunds == [] && CanTransition(l.w.s.row.status, Failed)
    ensures Further(l, l', id) && EndsAt(l'.w, id, Refunded) && l'.w.s.resv == l.w.s.resv
  {
    l' := Await(l, id, OK);
    assert l'.w.s == l.w.s.(refunds := [Pending]);
    l' := Mines(l', id, RefundTx, 0);
    assert l'.w.s.refunds == [Mined] && l'.w.s.row == l.w.s.row && l'.w.s.resv == l.w.s.resv;
    l' := Await(l', id, OK);
    l' := RefundIsReported(l', id);
  }

  /** A make-good that was saved mines and is marked. */
  lemma SavedIsMarked(l: Leg, id: nat) returns (l': Leg)
    requires Along(l, id) && l.w.calls[id].pc == InCompensate(CoConfirm)
    requires l.w.s.row.status == CompensationPending && l.w.calls[id].mem.status == CompensationPending
    requires l.w.s.comps != [] && l.w.calls[id].mem.compHash == Some(|l.w.s.comps| - 1)
    requires l.w.s.comps[|l.w.s.comps| - 1] == Pending
    ensures Further(l, l', id) && EndsAt(l'.w, id, Compensated)
    ensures l'.w.s.comps == l.w.s.comps[|l.w.s.comps| - 1 := Mined] && l'.w.s.resv == l.w.s.resv
    ensures l'.w.s.refunds == l.w.s.refunds
  {
    var comps := l.w.s.comps[|l.w.s.comps| - 1 := Mined];
    l' := Mines(l, id, CompensationTx, |l.w.s.comps| - 1);
    assert l'.w.s.comps == comps;
    l' := Await(l', id, OK);
    l' := Await(l', id, OK);
    assert l'.w.s.comps == comps && l'.w.s.row.lease == None;
    l' := Returns(l', id);
  }

  /** A make-good goes out, is saved, mines and is marked. */
  lemma SentIsMarked(l: Leg, id: nat) returns (l': Leg)
    requires Along(l, id) && l.w.calls[id].pc == InCompensate(CoBroadcast)
    requires l.w.s.row.status == CompensationPending && l.w.calls[id].mem.status == CompensationPending
    ensures Further(l, l', id) && EndsAt(l'.w, id, Compensated)
    ensures l'.w.s.comps == l.w.s.comps + [Mined] && l'.w.s.resv == l.w.s.resv && l'.w.s.refunds == l.w.s.refunds
  {
    l' := Await(l, id, OK);
    assert l'.w.s == l.w.s.(comps := l.w.s.comps + [Pending]);
    l' := Await(l', id, OK);
    l' := SavedIsMarked(l', id);
  }

  /** With no earlier attempt, or one that failed, one more is made. */
  lemma MadeGoodAgain(l: Leg, id: nat) returns (l': Leg)
    requires Along(l, id) && l.w.calls[id].pc == InCompensate(CoPrior)
    requires l.w.s.row.status == CompensationPending && l.w.calls[id].mem.status == CompensationPending
    requires Dead(HashFate(l.w.s.comps, l.w.calls[id].mem.compHash))
    ensures Further(l, l', id) && EndsAt(l'.w, id, Compensated)
    ensures l'.w.s.comps == l.w.s.comps + [Mined] && l'.w.s.resv == l.w.s.resv && l'.w.s.refunds == l.w.s.refunds
  {
    l' := Await(l, id, Sees(HashFate(l.w.s.comps, l.w.calls[id].mem.compHash)));
    assert l'.w.s == l.w.s && l'.w.calls[id] == l.w.calls[id].(pc := InCompensate(CoBroadcast));
    l' := SentIsMarked(l', id);
  }

  /** A released escrow is made good. */
  lemma ReleasedIsRepaid(l: Leg, id: nat) returns (l': Leg)
    requires Along(l, id) && Current(l.w.s, id, l.w.calls[id]) && l.w.calls[id].pc == InCatch(CaCompensate)
    requires CanTransition(l.w.s.row.status, CompensationPending) && l.w.s.row.compHash == None && l.w.s.comps == []
    ensures Further(l, l', id) && EndsAt(l'.w, id, Compensated)
    ensures l'.w.s.comps == [Mined] && l'.w.s.resv == l.w.s.resv && l'.w.s.refunds == l.w.s.refunds
  {
    l' := Await(l, id, OK);
    assert l'.w.s == l.w.s.(row := l.w.s.row.(status := CompensationPending));
    l' := MadeGoodAgain(l', id);
  }

  /** What the catch makes of the escrow it finds. */
  function Undone(escrow: Escrow): Status {
    match escrow
    case Held => Refunded
    case ReleasedToTreasury => Compensated
    case _ => Failed
  }

  lemma CaughtRow(l: Leg, id: nat)
    requires Along(l, id) && Current(l.w.s, id, l.w.calls[id]) && l.w.calls[id].pc == InCatch(CaEscrow)
    ensures CanTransition(l.w.s.row.status, Failed) && NoPayback(l.w.s)
    ensures l.w.s.escrow == ReleasedToTreasury ==>
      CanTransition(l.w.s.row.status, CompensationPending) && l.w.s.row.compHash == None
    ensures l.w.s.escrow != ReturnedToSender
  {
    Sound(l, id);
  }

  predicate NoPayback(s: Shared) {
    s.refunds == [] && s.comps == []
  }

  lemma EscrowIsUndone(l: Leg, id: nat) returns (l': Leg)
    requires Along(l, id) && Current(l.w.s, id, l.w.calls[id]) && l.w.calls[id].pc == InCatch(CaEscrow)
    ensures Further(l, l', id) && EndsAt(l'.w, id, Undone(l.w.s.escrow)) && l'.w.s.resv == l.w.s.resv
    ensures Whole(l'.w.s)
  {
    CaughtRow(l, id);
    l' := Await(l, id, OK);
    match l.w.s.escrow
    case Held =>
      l' := HeldIsRefunded(l', id);
      Sound(l', id);
      RefundedMeans(l'.w.s);
    case ReleasedToTreasury =>
      l' := ReleasedIsRepaid(l', id);
      Sound(l', id);
      OnceIsWhole(l'.w.s);
    case Empty =>
      l' := JustFails(l', id);
      Sound(l', id);
      FailedIsWhole(l'.w.s);
  }

  // ----- a payment that was paid --------------------------------------------

  lemma PaidIsMarked(l: Leg, id: nat) returns (l': Leg)
    requires Along(l, id) && l.w.calls[id].pc == InForward(FwConsume)
    requires l.w.s.row.status == PayoutPending && l.w.calls[id].mem.status == PayoutPending
    ensures Further(l, l', id) && EndsAt(l'.w, id, Settled) && l'.w.s.resv == Consumed
  {
    l' := Await(l, id, OK);
    assert l'.w.s == l.w.s.(resv := Consumed) && l'.w.calls[id] == l.w.calls[id].(pc := InForward(FwSettled));
    l' := Await(l', id, OK);
    assert l'.w.s.row.status == Settled && l'.w.s.row.lease == None;
    l' := Returns(l', id);
  }

  /** A payment whose recipient is paid is credited, if it was not, and settled. */
  lemma PaidEndsSettled(l: Leg, id: nat) returns (l': Leg)
    requires Along(l, id) && l.w.calls[id].pc.InForward? && l.w.calls[id].pc.fw.FwCredit?
    requires l.w.s.row.status == PayoutPending && l.w.calls[id].mem.status == PayoutPending
    ensures Further(l, l', id) && EndsAt(l'.w, id, Settled) && l'.w.s.resv == Consumed
  {
    l' := Await(l, id, OK);
    assert l'.w.s.row == l.w.s.row && l'.w.calls[id].mem == l.w.calls[id].mem;
    l' := PaidIsMarked(l', id);
  }

  // ----- the catch, from its first await to the end of the call -------------

  /** The recipient has the credit, or the bridge transfer has not failed. */
  predicate Paid(s: Shared) {
    s.credits != [] || !Dead(FateOf(s.dests, 0))
  }

  /** Delivered if the recipient is paid; otherwise undone, with nothing lost and the
      reservation released. */
  predicate Concludes(s: Shared, w: World, id: nat) {
    && EndsAt(w, id, if Paid(s) then Settled else Undone(s.escrow))
    && (Paid(s) ==> w.s.resv == Consumed)
    && (!Paid(s) ==> w.s.resv == Released && Whole(w.s))
  }

  lemma ReleaseConcludes(l: Leg, id: nat) returns (l': Leg)
    requires Along(l, id) && Current(l.w.s, id, l.w.calls[id]) && l.w.calls[id].pc == InCatch(CaRelease)
    ensures Further(l, l', id) && Concludes(l.w.s, l'.w, id)
  {
    Sound(l, id);
    l' := Await(l, id, OK);
    assert l'.w.s == l.w.s.(resv := Released);
    l' := EscrowIsUndone(l', id);
  }

  /** A payout that can still mine does, and is then seen. */
  lemma PayoutIsSeen(l: Leg, id: nat) returns (l': Leg)
    requires Along(l, id) && Current(l.w.s, id, l.w.calls[id]) && l.w.calls[id].pc == InCatch(CaDestination)
    requires !Dead(FateOf(l.w.s.dests, 0))
    ensures Further(l, l', id) && EndsAt(l'.w, id, Settled) && l'.w.s.resv == Consumed
  {
    Sound(l, id);
    l' := Mines(l, id, DestinationTx, 0);
    assert l'.w.s.dests == [Mined] && l'.w.s.row == l.w.s.row;
    l' := Await(l', id, Sees(Mined));
    l' := PaidEndsSettled(l', id);
  }

  /** No transfer can pay any more: the catch goes on. */
  lemma FailureIsSeen(l: Leg, id: nat) returns (l': Leg)
    requires Along(l, id) && Current(l.w.s, id, l.w.calls[id]) && l.w.calls[id].pc == InCatch(CaDestination)
    requires Dead(FateOf(l.w.s.dests, 0))
    ensures Further(l, l', id) && l'.w.s == l.w.s && l.w.s.credits == []
    ensures l'.w.calls[id] == l.w.calls[id].(pc := InCatch(CaRelease))
  {
    Sound(l, id);
    l' := Await(l, id, Sees(FateOf(l.w.s.dests, 0)));
  }

  lemma DestinationConcludes(l: Leg, id: nat) returns (l': Leg)
    requires Along(l, id) && Current(l.w.s, id, l.w.calls[id]) && l.w.calls[id].pc == InCatch(CaDestination)
    ensures Further(l, l', id) && Concludes(l.w.s, l'.w, id)
  {
    if Dead(FateOf(l.w.s.dests, 0)) {
      l' := FailureIsSeen(l, id);
      l' := ReleaseConcludes(l', id);
    } else {
      l' := PayoutIsSeen(l, id);
    }
  }

  lemma CreditConcludes(l: Leg, id: nat) returns (l': Leg)
    requires Along(l, id) && Current(l.w.s, id, l.w.calls[id]) && l.w.calls[id].pc == InCatch(CaCredit)
    ensures Further(l, l', id) && Concludes(l.w.s, l'.w, id)
  {
    Sound(l, id);
    l' := Await(l, id, OK);
    if l.w.s.credits != [] {
      l' := PaidEndsSettled(l', id);
    } else {
      l' := DestinationConcludes(l', id);
    }
  }

  /** What the catch is for: from every reachable world in which an execution stands at the
      start of its catch block and remembers the row's status, left alone it settles the
      payment if the recipient is paid or a transfer can still pay them; otherwise it
      releases the reservation and ends REFUNDED if the escrow is held, COMPENSATED if it was
      released and FAILED if it is empty, with every balance zero. */
  lemma CatchConcludes(cfg: Config, run: seq<Action>, id: nat) returns (more: seq<Action>)
    requires var w := Run(Start(cfg), run);
      && id < |w.calls| && Current(w.s, id, w.calls[id])
      && w.calls[id].pc in {InCatch(CaCredit), InCatch(CaDestination), InCatch(CaRelease)}
    ensures SmoothRun(more, id)
    ensures var w := Run(Start(cfg), run); Concludes(w.s, Run(w, more), id)
  {
    var w := Run(Start(cfg), run);
    Reachable(cfg, run);
    var l := Sets(w, id);
    if w.calls[id].pc == InCatch(CaCredit) {
      l := CreditConcludes(l, id);
    } else if w.calls[id].pc == InCatch(CaDestination) {
      l := DestinationConcludes(l, id);
    } else {
      l := ReleaseConcludes(l, id);
    }
    AllowedIsSmooth(w, l.run, id);
    more := l.run;
  }

  /** And where it stands before the escrow: held, it is refunded and ends REFUNDED; released,
      the sender is made good and it ends COMPENSATED; empty, it ends FAILED; and every
      balance is zero. */
  lemma EscrowDecides(cfg: Config, run: seq<Action>, id: nat) returns (more: seq<Action>)
    requires var w := Run(Start(cfg), run);
      id < |w.calls| && Current(w.s, id, w.calls[id]) && w.calls[id].pc == InCatch(CaEscrow)
    ensures SmoothRun(more, id)
    ensures var w := Run(Start(cfg), run);
      EndsAt(Run(w, more), id, Undone(w.s.escrow)) && Whole(Run(w, more).s)
  {
    var w := Run(Start(cfg), run);
    Reachable(cfg, run);
    var l := Sets(w, id);
    l := EscrowIsUndone(l, id);
    AllowedIsSmooth(w, l.run, id);
    more := l.run;
  }

  // ----- an escrow that cannot be read --------------------------------------

  /** With the escrow unreadable the status decides: a make-good after the release; a refund
      before it, which mines only if the escrow is held; otherwise just FAILED. */
  function UndoneUnread(s: Shared): Status {
    if s.row.status in {FxOrSwapCompleted, PayoutPending} then Compensated
    else if s.row.status in {SubmittedOnchain, ConfirmedOnchain} && s.escrow == Held then Refunded
    else Failed
  }

  /** A refund of an escrow that is not held reverts, and the payment just fails. */
  lemma RefusedRefundFails(l: Leg, id: nat) returns (l': Leg)
    requires Along(l, id) && Current(l.w.s, id, l.w.calls[id]) && l.w.calls[id].pc == InCatch(CaRefund)
    requires l.w.s.escrow != Held && l.w.s.refunds == [] && CanTransition(l.w.s.row.status, Failed)
    ensures Further(l, l', id) && EndsAt(l'.w, id, Failed) && l'.w.s.escrow == l.w.s.escrow
    ensures |l'.w.s.refunds| == 1
  {
    l' := Await(l, id, OK);
    l' := Mines(l', id, RefundTx, 0);
    assert l'.w.s == l.w.s.(refunds := [Reverted]);
    l' := Await(l', id, OK);
    l' := FailedRefundFails(l', id);
  }

  lemma FailedRefundFails(l: Leg, id: nat) returns (l': Leg)
    requires Along(l, id) && Current(l.w.s, id, l.w.calls[id]) && l.w.calls[id].pc == InCatch(CaRefundFailed)
    requires CanTransition(l.w.s.row.status, Failed)
    ensures Further(l, l', id) && EndsAt(l'.w, id, Failed)
    ensures l'.w.s == l.w.s.(row := l.w.s.row.(status := Failed, lease := None))
  {
    l' := Await(l, id, OK);
    assert l'.w.s == l.w.s && l'.w.calls[id] == l.w.calls[id].(pc := InCatch(CaFail));
    l' := JustFails(l', id);
  }

  /** The catch has gone on without knowing the escrow. */
  ghost predicate Unread(l: Leg, w: World, id: nat) {
    && WorldOk(w) && id < |w.calls| && Current(w.s, id, w.calls[id]) && w.calls[id].pc == InCatch(CaEscrow)
    && Along(l, id) && l.start == Next(w, Advance(id, UNREADABLE))
  }

  lemma GoesUnread(w: World, id: nat) returns (l: Leg)
    requires WorldOk(w) && id < |w.calls| && Current(w.s, id, w.calls[id]) && w.calls[id].pc == InCatch(CaEscrow)
    ensures Unread(l, w, id) && l.w.s == w.s
    ensures l.w.calls[id] == w.calls[id].(pc := InCatch(
      if w.s.row.status in {FxOrSwapCompleted, PayoutPending} then CaCompensate
      else if w.s.row.status in {SubmittedOnchain, ConfirmedOnchain} then CaRefund
      else CaFail))
  {
    NextKeepsWorld(w, Advance(id, UNREADABLE));
    l := Sets(Next(w, Advance(id, UNREADABLE)), id);
  }

  lemma UnreadIsRefunded(l: Leg, w: World, id: nat) returns (l': Leg)
    requires Unread(l, w, id) && l.w.s == w.s && l.w.calls[id] == w.calls[id].(pc := InCatch(CaRefund))
    requires w.s.refunds == [] && CanTransition(w.s.row.status, Failed)
    ensures Unread(l', w, id) && EndsAt(l'.w, id, if w.s.escrow == Held then Refunded else Failed)
    ensures w.s.escrow == Held ==> Whole(l'.w.s)
    ensures |l'.w.s.refunds| == 1
  {
    if w.s.escrow == Held {
      l' := HeldIsRefunded(l, id);
      Sound(l', id);
      RefundedMeans(l'.w.s);
    } else {
      l' := RefusedRefundFails(l, id);
    }
  }

  lemma UnreadIsUndone(w: World, id: nat) returns (l: Leg)
    requires WorldOk(w) && id < |w.calls| && Current(w.s, id, w.calls[id]) && w.calls[id].pc == InCatch(CaEscrow)
    ensures Unread(l, w, id) && EndsAt(l.w, id, UndoneUnread(w.s)) && (l.w.s.row.status != Failed ==> Whole(l.w.s))
    ensures |l.w.s.refunds| == if w.s.row.status in {SubmittedOnchain, ConfirmedOnchain} then 1 else 0
  {
    UnreadRow(w, id);
    l := GoesUnread(w, id);
    if w.s.row.status in {FxOrSwapCompleted, PayoutPending} {
      l := ReleasedIsRepaid(l, id);
      Sound(l, id);
      OnceIsWhole(l.w.s);
    } else if w.s.row.status in {SubmittedOnchain, ConfirmedOnchain} {
      l := UnreadIsRefunded(l, w, id);
    } else {
      l := JustFails(l, id);
    }
  }

  lemma UnreadRow(w: World, id: nat)
    requires WorldOk(w) && id < |w.calls| && Current(w.s, id, w.calls[id]) && w.calls[id].pc == InCatch(CaEscrow)
    ensures CanTransition(w.s.row.status, Failed) && NoPayback(w.s)
    ensures w.s.row.status in {FxOrSwapCompleted, PayoutPending} ==>
      w.s.row.compHash == None && CanTransition(w.s.row.status, CompensationPending)
  {
    assert CallOk(w.s, id, w.calls[id]);
  }

  /** When the escrow cannot be read, the remembered status decides, and decides right but
      for two cases: a refund is sent whether or not the escrow is still held, and an escrow
      taken before SUBMITTED_ONCHAIN was written is left behind a FAILED payment. */
  lemma StatusDecidesUnread(cfg: Config, run: seq<Action>, id: nat) returns (more: seq<Action>)
    requires var w := Run(Start(cfg), run);
      id < |w.calls| && Current(w.s, id, w.calls[id]) && w.calls[id].pc == InCatch(CaEscrow)
    ensures SmoothRun(more, id)
    ensures var w := Run(Start(cfg), run); var w' := Run(Next(w, Advance(id, UNREADABLE)), more);
      && EndsAt(w', id, UndoneUnread(w.s)) && (w'.s.row.status != Failed ==> Whole(w'.s))
      && |w'.s.refunds| == if w.s.row.status in {SubmittedOnchain, ConfirmedOnchain} then 1 else 0
  {
    var w := Run(Start(cfg), run);
    Reachable(cfg, run);
    var l := UnreadIsUndone(w, id);
    AllowedIsSmooth(l.start, l.run, id);
    more := l.run;
  }

  /** A refund whose broadcast throws leaves the payment FAILED, and on the operator's list
      while the escrow is held. */
  lemma ThrownRefundFails(cfg: Config, run: seq<Action>, id: nat) returns (more: seq<Action>)
    requires var w := Run(Start(cfg), run);
      id < |w.calls| && Current(w.s, id, w.calls[id]) && w.calls[id].pc == InCatch(CaRefund)
    ensures SmoothRun(more, id)
    ensures var w := Run(Start(cfg), run); var w' := Run(Next(w, Advance(id, FAILS)), more);
      && EndsAt(w', id, Failed) && w'.s.refunds == [] && w'.s.escrow == w.s.escrow
      && (w.s.escrow == Held ==> AlwaysListed(w'.s))
  {
    var w := Run(Start(cfg), run);
    Reachable(cfg, run);
    assert CallOk(w.s, id, w.calls[id]);
    NextKeepsWorld(w, Advance(id, FAILS));
    var l := Sets(Next(w, Advance(id, FAILS)), id);
    assert l.w.s == w.s && l.w.calls[id] == w.calls[id].(pc := InCatch(CaRefundFailed));
    l := FailedRefundFails(l, id);
    AllowedIsSmooth(l.start, l.run, id);
    more := l.run;
  }

  // ----- a status write that was lost on the way ----------------------------

  /** Caught with a status the row has already left: a write that landed and threw. */
  predicate Stale(s: Shared, id: nat, k: Call) {
    k.pc.InCatch? && s.row.lease == Some(id) && k.mem.status != s.row.status
  }

  /** Where a stale attempt can get to. */
  ghost predicate Stuck(s: Shared, k: Call, status: Status) {
    && s.row.status == status && s.credits == [] && s.dests == []
    && k.mem.status != status && k.mem.status != Failed && k.mem.destHash == None
    && (k.pc in {Finally(false), Done(false)} || (k.pc.InCatch? && k.pc.ca != CaRefundReport))
  }

  lemma StuckStays(s: Shared, id: nat, k: Call, how: How)
    requires Stuck(s, k, s.row.status)
    ensures var out := StepCall(s, id, k, how); Stuck(out.s, out.call, s.row.status)
  {
  }

  lemma {:induction false} StuckForGood(w: World, id: nat, status: Status, run: seq<Action>)
    requires id < |w.calls| && Stuck(w.s, w.calls[id], status) && SmoothRun(run, id)
    ensures Run(w, run).s.row.status == status
    decreases |run|
  {
    if run != [] {
      if run[0].Advance? {
        StuckStays(w.s, id, w.calls[id], run[0].how);
      }
      StuckForGood(Next(w, run[0]), id, status, run[1..]);
    }
  }

  /** The catch finishes its attempt exactly when it remembers the row's status: one whose
      last status write landed and threw finds every swap stale, and no success of its later
      awaits ends the payment. */
  lemma CatchEndsExactly(cfg: Config, run: seq<Action>, id: nat)
    requires var w := Run(Start(cfg), run);
      && id < |w.calls| && w.s.row.lease == Some(id)
      && w.calls[id].pc in {InCatch(CaCredit), InCatch(CaDestination), InCatch(CaRelease), InCatch(CaEscrow)}
    ensures var w := Run(Start(cfg), run);
      w.calls[id].mem.status == w.s.row.status <==>
      exists more :: SmoothRun(more, id) && Ended(Run(w, more).s.row.status)
  {
    var w := Run(Start(cfg), run);
    if w.calls[id].mem.status == w.s.row.status {
      var more;
      if w.calls[id].pc == InCatch(CaEscrow) {
        more := EscrowDecides(cfg, run, id);
      } else {
        more := CatchConcludes(cfg, run, id);
      }
      assert SmoothRun(more, id) && Ended(Run(w, more).s.row.status);
    } else {
      StaleIsStuck(cfg, run, id);
      forall more | SmoothRun(more, id) ensures !Ended(Run(w, more).s.row.status) {
        StuckForGood(w, id, w.s.row.status, more);
      }
    }
  }

  lemma StaleIsStuck(cfg: Config, run: seq<Action>, id: nat)
    requires var w := Run(Start(cfg), run);
      && id < |w.calls| && Stale(w.s, id, w.calls[id])
      && w.calls[id].pc in {InCatch(CaCredit), InCatch(CaDestination), InCatch(CaRelease), InCatch(CaEscrow)}
    ensures var w := Run(Start(cfg), run);
      Stuck(w.s, w.calls[id], w.s.row.status) && !Ended(w.s.row.status)
  {
    Reachable(cfg, run);
    var w := Run(Start(cfg), run);
    assert CallOk(w.s, id, w.calls[id]);
  }

  // ----- the operator's calls -----------------------------------------------

  /** The finally of a call that leaves no live attempt of its own unsaved. */
  lemma FreesAndReturns(l: Leg, id: nat) returns (l': Leg)
    requires Along(l, id) && l.w.calls[id].pc == Finally(true) && l.w.s.row.lease == Some(id)
    requires Dead(HashFate(l.w.s.comps, l.w.calls[id].mem.compHash))
    ensures Further(l, l', id) && l'.w.calls[id].pc == Done(true)
    ensures l'.w.s == l.w.s.(row := l.w.s.row.(lease := None))
  {
    l' := Go(l, id, OK);
  }

  /** A new call has started, read the row and claimed the lease. */
  ghost predicate Entered(l: Leg, w: World, entry: Entry, pc: Pc) {
    && WorldOk(w) && Along(l, |w.calls|) && l.start == Next(w, Spawn(entry))
    && l.w.s == w.s.(row := w.s.row.(lease := Some(|w.calls|)))
    && l.w.calls[|w.calls|] == Call(entry, pc, Remember(w.s.row))
  }

  lemma RepairEnters(w: World) returns (l: Leg)
    requires WorldOk(w) && w.s.row.status == CompensationPending && w.s.row.lease == None
    ensures Entered(l, w, Repair, InRepair(ReDestination))
  {
    var id := |w.calls|;
    NextKeepsWorld(w, Spawn(Repair));
    l := Sets(Next(w, Spawn(Repair)), id);
    l := Await(l, id, OK);
    assert l.w.s == w.s && l.w.calls[id] == Call(Repair, InRepair(ReClaim), Remember(w.s.row));
    l := Go(l, id, OK);
  }

  /** What a repair makes of the earlier attempts: one that can still mine does, and nothing
      is sent; otherwise one more is sent and mines. */
  function Repaid(s: Shared): seq<Fate> {
    if Dead(HashFate(s.comps, s.row.compHash)) then s.comps + [Mined] else s.comps[s.row.compHash.value := Mined]
  }

  /** An earlier attempt that can still mine does, and is marked without another. */
  lemma EarlierIsMarked(l: Leg, id: nat) returns (l': Leg)
    requires Along(l, id) && l.w.calls[id].pc == InCompensate(CoPrior)
    requires l.w.s.row.status == CompensationPending && l.w.calls[id].mem.status == CompensationPending
    requires !Dead(HashFate(l.w.s.comps, l.w.calls[id].mem.compHash))
    ensures Further(l, l', id) && EndsAt(l'.w, id, Compensated)
    ensures l'.w.s.comps == l.w.s.comps[l.w.calls[id].mem.compHash.value := Mined]
  {
    var h := l.w.calls[id].mem.compHash.value;
    l' := Mines(l, id, CompensationTx, h);
    assert l'.w.s.comps == l.w.s.comps[h := Mined] && l'.w.s.row == l.w.s.row;
    l' := Await(l', id, Sees(Mined));
    assert l'.w.calls[id] == l.w.calls[id].(pc := InCompensate(CoRecovered));
    l' := ConfirmedIsMarked(l', id);
  }

  lemma ConfirmedIsMarked(l: Leg, id: nat) returns (l': Leg)
    requires Along(l, id) && l.w.calls[id].pc == InCompensate(CoRecovered)
    requires l.w.s.row.status == CompensationPending && l.w.calls[id].mem.status == CompensationPending
    ensures Further(l, l', id) && EndsAt(l'.w, id, Compensated) && l'.w.s.comps == l.w.s.comps
    ensures l'.w.s.row.compHash == Over(l.w.calls[id].mem.compHash, l.w.s.row.compHash)
  {
    l' := Await(l, id, OK);
    assert l'.w.s.row.status == Compensated && l'.w.s.row.lease == None && l'.w.s.comps == l.w.s.comps;
    l' := Returns(l', id);
  }

  lemma RepairRepays(w: World) returns (l: Leg)
    requires WorldOk(w) && w.s.row.status == CompensationPending && w.s.row.lease == None
    ensures Along(l, |w.calls|) && l.start == Next(w, Spawn(Repair))
    ensures EndsAt(l.w, |w.calls|, Compensated) && l.w.s.comps == Repaid(w.s)
  {
    var id := |w.calls|;
    l := RepairEnters(w);
    AttemptsAreDead(w.s, Remember(w.s.row));
    l := Await(l, id, Sees(HashFate(w.s.dests, w.s.row.destHash)));
    assert l.w.calls[id] == Call(Repair, InRepair(ReEscrow), Remember(w.s.row));
    l := Await(l, id, OK);
    if Dead(HashFate(w.s.comps, w.s.row.compHash)) {
      l := MadeGoodAgain(l, id);
    } else {
      l := EarlierIsMarked(l, id);
    }
  }

  /** repairCompensation: from every reachable world in which the sender is owed and the lease
      is free, one new repair left alone ends COMPENSATED; it sends a make-good exactly when
      the row names no attempt that has mined or still may. */
  lemma RepairConcludes(cfg: Config, run: seq<Action>) returns (more: seq<Action>)
    requires var s := Run(Start(cfg), run).s; s.row.status == CompensationPending && s.row.lease == None
    ensures var w := Run(Start(cfg), run); var w' := Run(Next(w, Spawn(Repair)), more);
      && SmoothRun(more, |w.calls|)
      && EndsAt(w', |w.calls|, Compensated) && w'.s.comps == Repaid(w.s)
  {
    var w := Run(Start(cfg), run);
    Reachable(cfg, run);
    var l := RepairRepays(w);
    AllowedIsSmooth(l.start, l.run, |w.calls|);
    more := l.run;
  }

  lemma ReconcileEnters(w: World) returns (l: Leg)
    requires WorldOk(w) && w.s.row.lease == None
    requires (w.s.row.status == PayoutPending && w.s.row.destHash.Some?)
      || (w.s.row.status == CompensationPending && w.s.row.compHash.Some?)
    ensures Entered(l, w, Reconcile,
      InReconcile(if w.s.row.status == PayoutPending then RcDestination else RcCompensation))
  {
    var id := |w.calls|;
    NextKeepsWorld(w, Spawn(Reconcile));
    l := Sets(Next(w, Spawn(Reconcile)), id);
    l := Await(l, id, OK);
    assert l.w.s == w.s && l.w.calls[id].mem == Remember(w.s.row);
    l := Go(l, id, OK);
  }

  /** A make-good that has mined is marked COMPENSATED; nothing is sent. */
  lemma MinedIsMarked(w: World) returns (l: Leg)
    requires WorldOk(w) && w.s.row.status == CompensationPending && w.s.row.lease == None
    requires HashFate(w.s.comps, w.s.row.compHash) == Mined
    ensures Along(l, |w.calls|) && l.start == Next(w, Spawn(Reconcile))
    ensures EndsAt(l.w, |w.calls|, Compensated) && l.w.s.comps == w.s.comps && l.w.s.row.compHash == w.s.row.compHash
  {
    l := ReconcileEnters(w);
    l := Await(l, |w.calls|, Sees(Mined));
    l := ConfirmedIsMarked(l, |w.calls|);
  }

  /** One that has failed is left as it is. */
  lemma FailedStaysOwed(w: World) returns (l: Leg)
    requires WorldOk(w) && w.s.row.status == CompensationPending && w.s.row.lease == None
    requires w.s.row.compHash.Some? && Dead(HashFate(w.s.comps, w.s.row.compHash))
    ensures Along(l, |w.calls|) && l.start == Next(w, Spawn(Reconcile))
    ensures EndsAt(l.w, |w.calls|, CompensationPending) && l.w.s == w.s
  {
    l := ReconcileEnters(w);
    l := Await(l, |w.calls|, Sees(HashFate(w.s.comps, w.s.row.compHash)));
    l := FreesAndReturns(l, |w.calls|);
  }

  /** A payout that has mined settles the payment. */
  lemma MinedIsSettled(w: World) returns (l: Leg)
    requires WorldOk(w) && w.s.row.status == PayoutPending && w.s.row.lease == None
    requires HashFate(w.s.dests, w.s.row.destHash) == Mined
    ensures Along(l, |w.calls|) && l.start == Next(w, Spawn(Reconcile))
    ensures EndsAt(l.w, |w.calls|, Settled) && l.w.s.resv == Consumed
  {
    l := ReconcileEnters(w);
    l := Await(l, |w.calls|, Sees(Mined));
    l := PaidEndsSettled(l, |w.calls|);
  }

  /** One that has failed leaves the sender owed, the reservation released and the lease
      free; nothing is sent. */
  lemma FailedIsOwed(w: World) returns (l: Leg)
    requires WorldOk(w) && w.s.row.status == PayoutPending && w.s.row.lease == None
    requires w.s.row.destHash.Some? && Dead(HashFate(w.s.dests, w.s.row.destHash))
    ensures Along(l, |w.calls|) && l.start == Next(w, Spawn(Reconcile))
    ensures EndsAt(l.w, |w.calls|, CompensationPending)
    ensures l.w.s == w.s.(row := w.s.row.(status := CompensationPending), resv := Released)
  {
    var id := |w.calls|;
    assert StatusOk(w.s);
    l := ReconcileEnters(w);
    l := Await(l, id, Sees(HashFate(w.s.dests, w.s.row.destHash)));
    assert l.w.calls[id] == Call(Reconcile, InReconcile(RcRelease), Remember(w.s.row));
    l := Await(l, id, OK);
    assert l.w.s.resv == Released && l.w.calls[id] == Call(Reconcile, InReconcile(RcPend), Remember(w.s.row));
    l := PendsAndFrees(l, id);
  }

  lemma PendsAndFrees(l: Leg, id: nat) returns (l': Leg)
    requires Along(l, id) && l.w.calls[id].pc == InReconcile(RcPend) && l.w.calls[id].mem.status == PayoutPending
    requires l.w.s.row.status == PayoutPending && l.w.s.row.lease == Some(id) && l.w.s.row.compHash == None
    ensures Further(l, l', id) && EndsAt(l'.w, id, CompensationPending)
    ensures l'.w.s == l.w.s.(row := l.w.s.row.(status := CompensationPending, lease := None))
  {
    l' := Await(l, id, OK);
    assert l'.w.s == l.w.s.(row := l.w.s.row.(status := CompensationPending));
    assert l'.w.calls[id].mem.compHash == None;
    l' := FreesAndReturns(l', id);
  }

  /** The attempt a reconcile reads. */
  function AttemptFate(s: Shared): Fate {
    if s.row.status == PayoutPending then HashFate(s.dests, s.row.destHash) else HashFate(s.comps, s.row.compHash)
  }

  /** What a reconcile makes of an attempt whose fate is final. */
  predicate Reconciled(s: Shared, s': Shared) {
    && s'.comps == s.comps
    && if s.row.status == PayoutPending then
         if AttemptFate(s) == Mined then s'.row.status == Settled && s'.resv == Consumed
         else s' == s.(row := s.row.(status := CompensationPending), resv := Released)
       else
         if AttemptFate(s) == Mined then s'.row.status == Compensated && s'.row.compHash == s.row.compHash
         else s' == s
  }

  lemma ReconcileDecides(w: World) returns (l: Leg)
    requires WorldOk(w) && w.s.row.lease == None && AttemptFate(w.s) != Pending
    requires (w.s.row.status == PayoutPending && w.s.row.destHash.Some?)
      || (w.s.row.status == CompensationPending && w.s.row.compHash.Some?)
    ensures Along(l, |w.calls|) && l.start == Next(w, Spawn(Reconcile))
    ensures l.w.calls[|w.calls|].pc == Done(true) && Reconciled(w.s, l.w.s)
  {
    if w.s.row.status == PayoutPending && AttemptFate(w.s) == Mined {
      l := MinedIsSettled(w);
    } else if w.s.row.status == PayoutPending {
      l := FailedIsOwed(w);
    } else if AttemptFate(w.s) == Mined {
      l := MinedIsMarked(w);
    } else {
      l := FailedStaysOwed(w);
    }
    Sound(l, |w.calls|);
  }

  /** reconcileUnresolvedPayment: from every reachable world whose lease is free and whose row
      names a payout or a make-good with a final fate, one new reconcile left alone returns
      with the decision that fate calls for: a mined payout settles the payment, a failed one
      leaves the sender owed, a mined make-good is marked, a failed one changes nothing. No
      make-good is sent. */
  lemma ReconcileConcludes(cfg: Config, run: seq<Action>) returns (more: seq<Action>)
    requires var s := Run(Start(cfg), run).s;
      && s.row.lease == None && AttemptFate(s) != Pending
      && ((s.row.status == PayoutPending && s.row.destHash.Some?)
          || (s.row.status == CompensationPending && s.row.compHash.Some?))
    ensures var w := Run(Start(cfg), run); var w' := Run(Next(w, Spawn(Reconcile)), more);
      && SmoothRun(more, |w.calls|) && |w'.calls| > |w.calls|
      && w'.calls[|w.calls|].pc == Done(true) && Reconciled(w.s, w'.s)
  {
    var w := Run(Start(cfg), run);
    Reachable(cfg, run);
    var l := ReconcileDecides(w);
    AllowedIsSmooth(l.start, l.run, |w.calls|);
    more := l.run;
  }

  // ----- the transfer's own catch -------------------------------------------

  /** What the catch of a make-good makes of its attempt: one that can still mine is marked
      COMPENSATED; one that failed leaves the sender owed, by a row that names it unless it
      named another. */
  predicate Reread(s: Shared, mem: Memory, s': Shared) {
    if Dead(HashFate(s.comps, mem.compHash)) then
      s' == s.(row := s.row.(lease := None, compHash := Over(s.row.compHash, mem.compHash)))
    else
      && s'.row.status == Compensated && s'.row.compHash == mem.compHash
      && s'.comps == s.comps[mem.compHash.value := Mined]
  }

  /** The call is in the transfer's catch and owns the payment it remembers. */
  predicate Recovering(s: Shared, id: nat, k: Call) {
    && k.pc == InCompensate(CoCatch) && s.row.lease == Some(id)
    && s.row.status == CompensationPending && k.mem.status == CompensationPending
  }

  lemma LiveIsMarked(l: Leg, id: nat) returns (l': Leg)
    requires Along(l, id) && Recovering(l.w.s, id, l.w.calls[id])
    requires !Dead(HashFate(l.w.s.comps, l.w.calls[id].mem.compHash))
    ensures Further(l, l', id) && EndsAt(l'.w, id, Compensated)
    ensures Reread(l.w.s, l.w.calls[id].mem, l'.w.s)
  {
    l' := Await(l, id, OK);
    assert l'.w.s.comps == l.w.s.comps && l'.w.s.row.status == CompensationPending;
    assert l'.w.calls[id] == l.w.calls[id].(pc := InCompensate(CoOutcome));
    l' := LiveIsSeen(l', id);
  }

  lemma LiveIsSeen(l: Leg, id: nat) returns (l': Leg)
    requires Along(l, id) && l.w.calls[id].pc == InCompensate(CoOutcome)
    requires l.w.s.row.status == CompensationPending && l.w.calls[id].mem.status == CompensationPending
    requires !Dead(HashFate(l.w.s.comps, l.w.calls[id].mem.compHash))
    ensures Further(l, l', id) && EndsAt(l'.w, id, Compensated)
    ensures l'.w.s.row.compHash == l.w.calls[id].mem.compHash
    ensures l'.w.s.comps == l.w.s.comps[l.w.calls[id].mem.compHash.value := Mined]
  {
    var h := l.w.calls[id].mem.compHash.value;
    l' := Mines(l, id, CompensationTx, h);
    assert l'.w.s.comps == l.w.s.comps[h := Mined] && l'.w.s.row == l.w.s.row;
    l' := Await(l', id, Sees(Mined));
    assert l'.w.calls[id] == l.w.calls[id].(pc := InCompensate(CoRecovered));
    l' := ConfirmedIsMarked(l', id);
  }

  lemma DeadIsNamed(l: Leg, id: nat) returns (l': Leg)
    requires Along(l, id) && Recovering(l.w.s, id, l.w.calls[id])
    requires Dead(HashFate(l.w.s.comps, l.w.calls[id].mem.compHash))
    ensures Further(l, l', id) && EndsAt(l'.w, id, CompensationPending)
    ensures Reread(l.w.s, l.w.calls[id].mem, l'.w.s)
  {
    var k := l.w.calls[id];
    l' := Await(l, id, OK);
    assert l'.w.s == l.w.s.(row := l.w.s.row.(compHash := Over(l.w.s.row.compHash, k.mem.compHash)));
    if k.mem.compHash.Some? {
      l' := Await(l', id, Sees(HashFate(l.w.s.comps, k.mem.compHash)));
    }
    assert l'.w.calls[id] == k.(pc := Finally(true));
    l' := FreesAndReturns(l', id);
  }

  /** From every reachable world in which a make-good has thrown, its call, left alone,
      re-reads the attempt and returns: COMPENSATED without another if it can still mine, and
      otherwise with the sender owed and the hash kept for the operator. */
  lemma AttemptIsReread(cfg: Config, run: seq<Action>, id: nat) returns (more: seq<Action>)
    requires var w := Run(Start(cfg), run); id < |w.calls| && Recovering(w.s, id, w.calls[id])
    ensures SmoothRun(more, id)
    ensures var w := Run(Start(cfg), run); var w' := Run(w, more);
      && id < |w'.calls| && w'.calls[id].pc == Done(true) && Reread(w.s, w.calls[id].mem, w'.s)
  {
    var w := Run(Start(cfg), run);
    Reachable(cfg, run);
    var l := Sets(w, id);
    if Dead(HashFate(w.s.comps, w.calls[id].mem.compHash)) {
      l := DeadIsNamed(l, id);
    } else {
      l := LiveIsMarked(l, id);
    }
    AllowedIsSmooth(w, l.run, id);
    more := l.run;
  }
}
