/** What a call may count on while it waits: however many steps others take before its next
    await, a call that owns the payment finds its row as it left it. */
module SagaOthers {
  import opened Options
  import opened PaymentState
  import opened SagaModel
  import opened SagaInvariant
  import opened SagaSteps
  import opened SagaTheorems

  /** The call owns the payment, and no other route may move it. */
  predicate Owns(s: Shared, id: nat) {
    s.row.lease == Some(id) && !Cancellable(s.row.status)
  }

  /** The attempt to execute the payment, or to make it good, is over. */
  predicate Ended(status: Status) {
    status in {Settled, Compensated, Failed, Refunded}
  }

  /** No transaction was sent, nothing credited, no attempt hash rewritten, and no
      reservation touched but that of a settled payment, consumed. */
  ghost predicate NothingSent(s: Shared, s': Shared) {
    && |s'.inits| == |s.inits| && |s'.settles| == |s.settles| && |s'.refunds| == |s.refunds|
    && |s'.dests| == |s.dests| && |s'.comps| == |s.comps| && s'.credits == s.credits
    && s'.row.destHash == s.row.destHash && s'.row.compHash == s.row.compHash
    && (s'.resv == s.resv || (s.row.status == Settled && s'.resv == Consumed))
  }

  /** How the shared state may differ after steps of others alone. */
  ghost predicate Rests(s: Shared, s': Shared, id: nat) {
    && Evolves(s, s')
    && (Owns(s, id) ==> OnlyChainsMove(s, s'))
    && (Ended(s.row.status) ==> NothingSent(s, s'))
  }

  /** Nobody else sends, credits or rewrites anything: the call owns the payment, or the
      payment has ended. */
  predicate Safe(s: Shared, id: nat) {
    Owns(s, id) || Ended(s.row.status)
  }

  /** While others step, a safe payment stays safe. */
  lemma SafeRests(s: Shared, s': Shared, id: nat)
    requires Safe(s, id) && Rests(s, s', id)
    ensures Safe(s', id) && NothingSent(s, s')
  {
  }

  lemma RestsChain(s: Shared, s1: Shared, s2: Shared, id: nat)
    requires Rests(s, s1, id) && Rests(s1, s2, id)
    ensures Rests(s, s2, id)
  {
    if Owns(s, id) {
      GrowsChain(s.inits, s1.inits, s2.inits);
      GrowsChain(s.settles, s1.settles, s2.settles);
      GrowsChain(s.refunds, s1.refunds, s2.refunds);
    }
    GrowsChain(s.dests, s1.dests, s2.dests);
    GrowsChain(s.comps, s1.comps, s2.comps);
  }

  lemma GrowsChain(a: seq<Fate>, b: seq<Fate>, c: seq<Fate>)
    requires Grows(a, b) && Grows(b, c)
    ensures Grows(a, c)
  {
    assert forall i :: 0 <= i < |a| && a[i] != Pending ==> b[i] == a[i] && c[i] == b[i];
  }

  /** A payment that has ended is sent nothing more: a call sends only while it owns the
      lease. */
  lemma EndedSendsNothing(s: Shared, id: nat, k: Call, how: How)
    requires SharedOk(s) && CallOk(s, id, k) && Ended(s.row.status)
    ensures NothingSent(s, StepCall(s, id, k, how).s)
  {
    assert s.row.lease == None;
    match k.pc
    case InTry(pc) => EndedTriesNothing(s, id, k, pc, how);
    case InCatch(pc) => EndedCatchSendsNothing(s, id, k, pc, how);
    case InCompensate(pc) => EndedMakesNothingGood(s, id, k, pc, how);
    case InReconcile(pc) => EndedReconcilesNothing(s, id, k, pc, how);
    case _ =>
  }

  lemma EndedTriesNothing(s: Shared, id: nat, k: Call, pc: ExecutePc, how: How)
    requires SharedOk(s) && TryOk(s, id, k.mem, pc) && Ended(s.row.status) && s.row.lease == None
    ensures StepExecute(s, id, k, pc, how).s == s
  {
  }

  lemma EndedReconcilesNothing(s: Shared, id: nat, k: Call, pc: ReconcilePc, how: How)
    requires SharedOk(s) && ReconcileOk(s, id, k.mem, pc) && Ended(s.row.status) && s.row.lease == None
    ensures StepReconcile(s, id, k, pc, how).s == s
  {
  }

  lemma EndedMakesNothingGood(s: Shared, id: nat, k: Call, pc: CompensatePc, how: How)
    requires SharedOk(s) && CompensateOk(s, id, k.mem, pc) && s.row.lease == None
    ensures NothingSent(s, StepCompensate(s, k, pc, how).s)
  {
    assert s.row.status == Compensated;
    assert StepCompensate(s, k, pc, how).s == s;
  }

  lemma EndedCatchSendsNothing(s: Shared, id: nat, k: Call, pc: CatchPc, how: How)
    requires SharedOk(s) && CatchOk(s, id, k.mem, pc) && s.row.lease == None
    ensures NothingSent(s, StepCatch(s, k, pc, how).s)
  {
    var s' := StepCatch(s, k, pc, how).s;
    match pc
    case CaRefundMark => assert s' == s || s'.row == Swapped(s.row, Failed, NO_COLUMNS);
    case CaRefundReport => assert s' == s || s'.row == Swapped(s.row, Refunded, NO_COLUMNS);
    case CaFail => assert s' == s || s'.row == Swapped(s.row, Failed, NO_COLUMNS);
    case _ =>
  }

  lemma ChainsMoveRests(s: Shared, s': Shared, id: nat)
    requires OnlyChainsMove(s, s')
    ensures Rests(s, s', id)
  {
  }

  /** One step by anyone but the call. */
  lemma OtherRests(w: World, a: Action, id: nat)
    requires WorldOk(w) && id < |w.calls| && !(a.Advance? && a.id == id)
    ensures var w' := Next(w, a); id < |w'.calls| && w'.calls[id] == w.calls[id] && Rests(w.s, w'.s, id)
  {
    match a
    case Spawn(entry) =>
    case Advance(other, how) =>
      if other < |w.calls| {
        StepRests(w.s, other, w.calls[other], how, id);
      }
    case Mine(kind, i, fate) =>
      MiningMovesChains(w.s, kind, i, fate);
      ChainsMoveRests(w.s, MineTx(w.s, kind, i, fate), id);
    case Route(to, quoted) => RouteRests(w.s, to, quoted, id);
  }

  lemma RouteRests(s: Shared, to: Status, quoted: Option<nat>, id: nat)
    requires SharedOk(s)
    ensures Rests(s, RouteSwap(s, to, quoted), id)
  {
  }

  lemma StepRests(s: Shared, other: nat, k: Call, how: How, id: nat)
    requires SharedOk(s) && CallOk(s, other, k) && other != id
    ensures Rests(s, StepCall(s, other, k, how).s, id)
  {
    StepEvolves(s, other, k, how);
    if s.row.lease == Some(id) {
      LeaseExcludes(s, other, k, how, id);
    }
    if Ended(s.row.status) {
      EndedSendsNothing(s, other, k, how);
    }
  }

  /** A run one action longer. */
  lemma {:induction false} RunSnoc(w: World, run: seq<Action>, a: Action)
    ensures Run(w, run + [a]) == Next(Run(w, run), a)
    decreases |run|
  {
    if run == [] {
      assert (run + [a])[1..] == [];
    } else {
      assert (run + [a])[1..] == run[1..] + [a];
      RunSnoc(Next(w, run[0]), run[1..], a);
    }
  }
}
