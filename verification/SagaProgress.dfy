/** What the calls achieve when nothing goes wrong any more: from every reachable world, a
    call left alone whose awaits all succeed, while pending transactions mine, finishes what
    it started. */
module SagaProgress {
  import opened Options
  import opened PaymentState
  import opened SagaModel
  import opened SagaInvariant
  import opened SagaSteps
  import opened SagaTheorems
  import opened SagaLegs

  predicate SmoothRun(run: seq<Action>, id: nat) {
    forall i :: 0 <= i < |run| ==> SmoothAction(run[i], id)
  }

  lemma {:induction false} AllowedIsSmooth(w: World, run: seq<Action>, id: nat)
    requires AllowedRun(w, run, Smooth(id))
    ensures SmoothRun(run, id)
    decreases |run|
  {
    if run != [] {
      AllowedIsSmooth(Next(w, run[0]), run[1..], id);
      assert run == [run[0]] + run[1..];
    }
  }

  // ----- a call on its way --------------------------------------------------

  /** A smooth walk of the call from a world that satisfies the invariant. */
  ghost predicate Along(l: Leg, id: nat) {
    Walked(l) && l.rule == Smooth(id) && id < |l.w.calls| && WorldOk(l.start)
  }

  ghost predicate Further(l: Leg, l': Leg, id: nat) {
    Along(l', id) && l'.start == l.start && |l'.w.calls| >= |l.w.calls|
  }

  lemma Sets(w: World, id: nat) returns (l: Leg)
    requires WorldOk(w) && id < |w.calls|
    ensures Along(l, id) && l.start == w && l.w == w
  {
    l := Begin(w, Smooth(id));
  }

  lemma Sound(l: Leg, id: nat)
    requires Along(l, id)
    ensures SharedOk(l.w.s) && LedgerOk(l.w.s) && CallOk(l.w.s, id, l.w.calls[id])
  {
    RunKeepsWorld(l.start, l.run);
  }

  /** One await. */
  lemma Await(l: Leg, id: nat, how: How) returns (l': Leg)
    requires Along(l, id) && Succeeds(how)
    requires !l.w.calls[id].pc.Finally? && l.w.calls[id].pc != InRepair(ReClaim)
    ensures Further(l, l', id)
    ensures var out := StepCall(l.w.s, id, l.w.calls[id], how); l'.w.s == out.s && l'.w.calls[id] == out.call
  {
    l' := Go(l, id, how);
    StepKeepsEntry(l.w.s, id, l.w.calls[id], how);
  }

  /** One transaction mines. */
  lemma Mines(l: Leg, id: nat, kind: TxKind, i: nat) returns (l': Leg)
    requires Along(l, id)
    ensures Further(l, l', id)
    ensures l'.w.s == MineTx(l.w.s, kind, i, Mined) && l'.w.calls == l.w.calls
  {
    l' := Do(l, Mine(kind, i, Mined));
  }

  /** The finally of a call whose payment has ended. */
  lemma Returns(l: Leg, id: nat) returns (l': Leg)
    requires Along(l, id) && l.w.calls[id].pc == Finally(true) && l.w.s.row.lease == None
    ensures Further(l, l', id) && l'.w.s == l.w.s && l'.w.calls[id].pc == Done(true)
  {
    l' := Go(l, id, OK);
  }

  // ----- an execution that nothing stops ------------------------------------

  /** No transaction of the payment has failed. */
  ghost predicate NoneDead(s: Shared) {
    && (forall i :: 0 <= i < |s.inits| ==> !Dead(s.inits[i]))
    && (forall i :: 0 <= i < |s.settles| ==> !Dead(s.settles[i]))
    && (forall i :: 0 <= i < |s.dests| ==> !Dead(s.dests[i]))
  }

  /** The execution is in its try block, remembers the row's status and has the lease, or is
      still to claim it over an APPROVED row. */
  ghost predicate Unbroken(s: Shared, id: nat, k: Call) {
    && (k.pc.InTry? || k.pc.InPayout?) && k.mem.status == s.row.status && NoneDead(s)
    && if k.pc in {InTry(ExRead), InTry(ExClaim)} then s.row.status == Approved && s.row.lease == None
       else s.row.lease == Some(id)
  }

  /** How many awaits the try block still has. */
  function ToGo(pc: Pc): nat {
    match pc
    case InTry(ExRead) => 20
    case InTry(ExClaim) => 19
    case InTry(ExSetup) => 18
    case InTry(ExReserve) => 17
    case InTry(ExMark) => 16
    case InTry(ExAllowance) => 15
    case InTry(ExInitiate) => 14
    case InTry(ExInitiateConfirm(_)) => 13
    case InTry(ExSubmitted) => 12
    case InTry(ExConfirmed) => 11
    case InTry(ExSettle) => 10
    case InTry(ExSettleConfirm(_)) => 9
    case InTry(ExFx) => 8
    case InTry(ExPayout) => 7
    case InPayout(PoBridge) => 6
    case InPayout(PoPersist) => 5
    case InPayout(PoConfirm) => 4
    case InPayout(PoCredit) => 3
    case InPayout(PoConsume) => 2
    case InPayout(PoSettled) => 1
    case _ => 0
  }

  /** The call does not wait for a receipt, or the transaction has mined. */
  predicate Received(s: Shared, pc: Pc) {
    match pc
    case InTry(ExInitiateConfirm(tx)) => FateOf(s.inits, tx) == Mined
    case InTry(ExSettleConfirm(tx)) => FateOf(s.settles, tx) == Mined
    case InPayout(PoConfirm) => FateOf(s.dests, 0) == Mined
    case _ => true
  }

  /** The call's next await, should it succeed, brings it nearer to SETTLED. */
  ghost predicate GoesOn(s: Shared, id: nat, k: Call) {
    var out := StepCall(s, id, k, OK);
    Unbroken(out.s, id, out.call) && ToGo(out.call.pc) < ToGo(k.pc)
  }

  lemma ReservingGoesOn(s: Shared, id: nat, k: Call)
    requires SharedOk(s) && CallOk(s, id, k) && Unbroken(s, id, k) && 16 <= ToGo(k.pc)
    ensures GoesOn(s, id, k)
  {
    var out := StepExecute(s, id, k, k.pc.ex, OK);
    match k.pc.ex
    case ExRead => assert out == Out(s, Call(k.entry, InTry(ExClaim), Remember(s.row)));
    case ExClaim => assert out == Out(s.(row := s.row.(lease := Some(id))), k.(pc := InTry(ExSetup)));
    case ExSetup => assert out == Out(s, Call(k.entry, InTry(ExReserve), Remember(s.row)));
    case ExReserve => assert out == Out(s.(resv := Reserved), k.(pc := InTry(ExMark)));
    case ExMark => assert out.s == s.(row := s.row.(status := LiquidityReserved));
  }

  lemma InitiatingGoesOn(s: Shared, id: nat, k: Call)
    requires SharedOk(s) && CallOk(s, id, k) && Unbroken(s, id, k) && 13 <= ToGo(k.pc) < 16 && Received(s, k.pc)
    ensures GoesOn(s, id, k)
  {
    var out := StepExecute(s, id, k, k.pc.ex, OK);
    match k.pc.ex
    case ExAllowance => assert out.s == s;
    case ExInitiate => assert out.s == s.(inits := [Pending]);
    case ExInitiateConfirm(tx) => assert out.s == s;
  }

  lemma EscrowMarkGoesOn(s: Shared, id: nat, k: Call)
    requires SharedOk(s) && CallOk(s, id, k) && Unbroken(s, id, k) && 11 <= ToGo(k.pc) < 13
    ensures GoesOn(s, id, k)
  {
    var to := if k.pc == InTry(ExSubmitted) then SubmittedOnchain else ConfirmedOnchain;
    var next := InTry(if k.pc == InTry(ExSubmitted) then ExConfirmed else ExSettle);
    var row := s.row.(status := to);
    assert StepCall(s, id, k, OK) == Out(s.(row := row), Call(k.entry, next, Remember(row)));
  }

  lemma ConversionGoesOn(s: Shared, id: nat, k: Call)
    requires SharedOk(s) && CallOk(s, id, k) && Unbroken(s, id, k) && k.pc == InTry(ExFx)
    ensures GoesOn(s, id, k)
  {
    var row := s.row.(status := FxOrSwapCompleted, destAmount := Some(s.cfg.payout));
    assert StepCall(s, id, k, OK) == Out(s.(row := row), Call(k.entry, InTry(ExPayout), Remember(row)));
  }

  lemma PayoutMarkGoesOn(s: Shared, id: nat, k: Call)
    requires SharedOk(s) && CallOk(s, id, k) && Unbroken(s, id, k) && k.pc == InTry(ExPayout)
    ensures GoesOn(s, id, k)
  {
    var row := s.row.(status := PayoutPending);
    var next := InPayout(if s.cfg.cross then PoBridge else PoCredit);
    assert StepCall(s, id, k, OK) == Out(s.(row := row), Call(k.entry, next, Remember(row)));
  }

  lemma SettlingGoesOn(s: Shared, id: nat, k: Call)
    requires SharedOk(s) && CallOk(s, id, k) && Unbroken(s, id, k) && 9 <= ToGo(k.pc) < 11 && Received(s, k.pc)
    ensures GoesOn(s, id, k)
  {
    var out := StepExecute(s, id, k, k.pc.ex, OK);
    match k.pc.ex
    case ExSettle => assert out.s == s.(settles := [Pending]);
    case ExSettleConfirm(tx) => assert out.s == s;
  }

  lemma BridgingGoesOn(s: Shared, id: nat, k: Call)
    requires SharedOk(s) && CallOk(s, id, k) && Unbroken(s, id, k) && 4 <= ToGo(k.pc) < 7 && Received(s, k.pc)
    ensures GoesOn(s, id, k)
  {
    var out := StepPayout(s, k, k.pc.po, OK);
    match k.pc.po
    case PoBridge => assert out.s == s.(dests := [Pending]);
    case PoPersist => assert out.s == s.(row := s.row.(destHash := k.mem.destHash));
    case PoConfirm => assert out.s == s;
  }

  lemma CreditingGoesOn(s: Shared, id: nat, k: Call)
    requires SharedOk(s) && CallOk(s, id, k) && Unbroken(s, id, k) && 2 <= ToGo(k.pc) < 4
    ensures GoesOn(s, id, k)
  {
    var out := StepPayout(s, k, k.pc.po, OK);
    match k.pc.po
    case PoCredit => assert out.s == s.(credits := [s.cfg.payout]);
    case PoConsume => assert out.s == s.(resv := Consumed);
  }

  lemma InitiationMines(s: Shared, id: nat, k: Call)
    requires SharedOk(s) && CallOk(s, id, k) && Unbroken(s, id, k) && k.pc == InTry(ExInitiateConfirm(0))
    ensures var s' := MineTx(s, InitiateTx, 0, Mined); Received(s', k.pc) && Unbroken(s', id, k)
  {
    assert s.inits == [s.inits[0]];
  }

  lemma SettlementMines(s: Shared, id: nat, k: Call)
    requires SharedOk(s) && CallOk(s, id, k) && Unbroken(s, id, k) && k.pc == InTry(ExSettleConfirm(0))
    ensures var s' := MineTx(s, SettleTx, 0, Mined); Received(s', k.pc) && Unbroken(s', id, k)
  {
    assert s.settles == [s.settles[0]];
  }

  lemma PayoutMines(s: Shared, id: nat, k: Call)
    requires SharedOk(s) && CallOk(s, id, k) && Unbroken(s, id, k) && k.pc == InPayout(PoConfirm)
    ensures var s' := MineTx(s, DestinationTx, 0, Mined); Received(s', k.pc) && Unbroken(s', id, k)
  {
    assert s.dests == [s.dests[0]];
  }

  /** Waiting for a receipt, the call gets it. */
  lemma ReceiptComes(l: Leg, id: nat) returns (l': Leg)
    requires Along(l, id) && Unbroken(l.w.s, id, l.w.calls[id])
    ensures Further(l, l', id) && l'.w.calls[id] == l.w.calls[id]
    ensures Received(l'.w.s, l.w.calls[id].pc) && Unbroken(l'.w.s, id, l.w.calls[id])
  {
    Sound(l, id);
    l' := l;
    match l.w.calls[id].pc
    case InTry(ExInitiateConfirm(tx)) =>
      InitiationMines(l.w.s, id, l.w.calls[id]);
      l' := Mines(l, id, InitiateTx, 0);
    case InTry(ExSettleConfirm(tx)) =>
      SettlementMines(l.w.s, id, l.w.calls[id]);
      l' := Mines(l, id, SettleTx, 0);
    case InPayout(PoConfirm) =>
      PayoutMines(l.w.s, id, l.w.calls[id]);
      l' := Mines(l, id, DestinationTx, 0);
    case _ =>
  }

  lemma EveryAwaitGoesOn(s: Shared, id: nat, k: Call)
    requires SharedOk(s) && CallOk(s, id, k) && Unbroken(s, id, k) && k.pc != InPayout(PoSettled)
    requires Received(s, k.pc)
    ensures GoesOn(s, id, k)
  {
    if ToGo(k.pc) < 4 {
      CreditingGoesOn(s, id, k);
    } else if k.pc.InPayout? {
      BridgingGoesOn(s, id, k);
    } else if ToGo(k.pc) >= 16 {
      ReservingGoesOn(s, id, k);
    } else if ToGo(k.pc) >= 13 {
      InitiatingGoesOn(s, id, k);
    } else if ToGo(k.pc) >= 11 {
      EscrowMarkGoesOn(s, id, k);
    } else if ToGo(k.pc) >= 9 {
      SettlingGoesOn(s, id, k);
    } else if k.pc == InTry(ExFx) {
      ConversionGoesOn(s, id, k);
    } else {
      PayoutMarkGoesOn(s, id, k);
    }
  }

  /** The call has returned, and the payment is at this status. */
  predicate EndsAt(w: World, id: nat, status: Status) {
    id < |w.calls| && w.calls[id].pc == Done(true) && w.s.row.status == status
  }

  lemma LastAwaitSettles(l: Leg, id: nat) returns (l': Leg)
    requires Along(l, id) && Unbroken(l.w.s, id, l.w.calls[id]) && l.w.calls[id].pc == InPayout(PoSettled)
    ensures Further(l, l', id) && EndsAt(l'.w, id, Settled) && l'.w.s.resv == Consumed
  {
    Sound(l, id);
    l' := Await(l, id, OK);
    l' := Returns(l', id);
  }

  lemma Settles(l: Leg, id: nat) returns (l': Leg)
    requires Along(l, id) && Unbroken(l.w.s, id, l.w.calls[id])
    ensures Further(l, l', id) && EndsAt(l'.w, id, Settled) && l'.w.s.resv == Consumed
    decreases ToGo(l.w.calls[id].pc)
  {
    if l.w.calls[id].pc == InPayout(PoSettled) {
      l' := LastAwaitSettles(l, id);
    } else {
      l' := ReceiptComes(l, id);
      Sound(l', id);
      EveryAwaitGoesOn(l'.w.s, id, l'.w.calls[id]);
      l' := Await(l', id, OK);
      l' := Settles(l', id);
    }
  }

  /** Nothing stops a sound attempt: from every reachable world, an execution in its try
      block, none of whose transactions has failed, settles the payment when its awaits
      succeed and its transactions mine, wherever it stands. The money then lies as
      SettledAccounting says. */
  lemma ExecutionSettles(cfg: Config, run: seq<Action>, id: nat) returns (more: seq<Action>)
    requires var w := Run(Start(cfg), run); id < |w.calls| && Unbroken(w.s, id, w.calls[id])
    ensures SmoothRun(more, id)
    ensures var w' := Run(Run(Start(cfg), run), more);
      EndsAt(w', id, Settled) && w'.s.resv == Consumed && w'.s.credits == [cfg.payout]
  {
    var w := Run(Start(cfg), run);
    Reachable(cfg, run);
    var l := Sets(w, id);
    l := Settles(l, id);
    AllowedIsSmooth(w, l.run, id);
    more := l.run;
    Sound(l, id);
    ConfigIsFixed(w, more);
  }
}
