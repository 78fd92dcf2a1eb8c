/** Concrete runs of the settlement saga: what goes wrong, step by step, when a promise the
    code does not enforce is broken. */
module SagaRuns {
  import opened Options
  import opened PaymentState
  import opened SagaModel
  import opened SagaInvariant
  import opened SagaTheorems
  import opened SagaOnce
  import opened SagaLegs

  /** A run from a fresh payment, disciplined, in which no call starts before every earlier
      one is over. */
  ghost predicate From(l: Leg, cfg: Config) {
    Walked(l) && l.start == Start(cfg) && l.rule == Calm
  }

  function Snapshot(status: Status, quoted: Option<nat>): Memory {
    Memory(status, None, None, quoted)
  }

  // ----- an execution up to its payout leg ----------------------------------

  function Marked(cfg: Config): World {
    World(
      Shared(cfg, Row(LiquidityReserved, Some(0), None, None, None), Reserved, [], Empty, [], [], [], [], [],
             Balances(0, 0, 0, 0, 0)),
      [Call(Execute, InTry(ExAllowance), Snapshot(LiquidityReserved, None))])
  }

  /** Approved, before any call. */
  function Ready(cfg: Config): World {
    World(
      Shared(cfg, Row(Approved, None, None, None, None), NoReservation, [], Empty, [], [], [], [], [],
             Balances(0, 0, 0, 0, 0)),
      [])
  }

  lemma ReachReady(cfg: Config) returns (l: Leg)
    ensures From(l, cfg) && l.w == Ready(cfg)
  {
    l := Begin(Start(cfg), Calm);
    l := Do(l, Route(Quoted, None));
    assert l.w == Start(cfg).(s := Start(cfg).s.(row := Row(Quoted, None, None, None, None)));
    l := Do(l, Route(CompliancePending, None));
    assert l.w == Start(cfg).(s := Start(cfg).s.(row := Row(CompliancePending, None, None, None, None)));
    l := Do(l, Route(Approved, None));
  }

  /** An execution has claimed the lease. */
  function Leased(cfg: Config): World {
    World(
      Ready(cfg).s.(row := Row(Approved, Some(0), None, None, None)),
      [Call(Execute, InTry(ExSetup), Snapshot(Approved, None))])
  }

  lemma ReachLeased(cfg: Config) returns (l: Leg)
    ensures From(l, cfg) && l.w == Leased(cfg)
  {
    l := ReachReady(cfg);
    l := Do(l, Spawn(Execute));
    l := Go(l, 0, OK);
    l := Go(l, 0, OK);
    assert l.w.calls == Leased(cfg).calls;
  }

  /** And reserved liquidity. */
  function ReservedWorld(cfg: Config): World {
    World(
      Leased(cfg).s.(resv := Reserved),
      [Call(Execute, InTry(ExMark), Snapshot(Approved, None))])
  }

  lemma ReachReserved(cfg: Config) returns (l: Leg)
    ensures From(l, cfg) && l.w == ReservedWorld(cfg)
  {
    l := ReachLeased(cfg);
    l := Go(l, 0, OK);
    l := Go(l, 0, OK);
    assert l.w.calls == ReservedWorld(cfg).calls;
  }

  lemma ReachMarked(cfg: Config) returns (l: Leg)
    ensures From(l, cfg) && l.w == Marked(cfg)
  {
    l := ReachReserved(cfg);
    l := Go(l, 0, OK);
    assert l.w.calls == Marked(cfg).calls;
  }

  function Escrowed(cfg: Config): World {
    World(
      Shared(cfg, Row(LiquidityReserved, Some(0), None, None, None), Reserved, [], Held, [Mined], [], [], [], [],
             Balances(-(cfg.amount as int), cfg.amount, 0, 0, 0)),
      [Call(Execute, InTry(ExSubmitted), Snapshot(LiquidityReserved, None))])
  }

  function Initiated(cfg: Config): World {
    World(
      Marked(cfg).s.(inits := [Pending]),
      [Call(Execute, InTry(ExInitiateConfirm(0)), Snapshot(LiquidityReserved, None))])
  }

  lemma ReachInitiated(cfg: Config) returns (l: Leg)
    ensures From(l, cfg) && l.w == Initiated(cfg)
  {
    l := ReachMarked(cfg);
    l := Go(l, 0, OK);
    l := Go(l, 0, OK);
    assert l.w.calls == Initiated(cfg).calls;
  }

  lemma ReachEscrowed(cfg: Config) returns (l: Leg)
    ensures From(l, cfg) && l.w == Escrowed(cfg)
  {
    l := ReachInitiated(cfg);
    l := Do(l, Mine(InitiateTx, 0, Mined));
    l := Go(l, 0, OK);
    assert l.w.calls == Escrowed(cfg).calls;
  }

  function Confirmed(cfg: Config): World {
    World(
      Escrowed(cfg).s.(row := Row(ConfirmedOnchain, Some(0), None, None, None)),
      [Call(Execute, InTry(ExSettle), Snapshot(ConfirmedOnchain, None))])
  }

  function Submitted(cfg: Config): World {
    World(
      Escrowed(cfg).s.(row := Row(SubmittedOnchain, Some(0), None, None, None)),
      [Call(Execute, InTry(ExConfirmed), Snapshot(SubmittedOnchain, None))])
  }

  lemma ReachSubmitted(cfg: Config) returns (l: Leg)
    ensures From(l, cfg) && l.w == Submitted(cfg)
  {
    l := ReachEscrowed(cfg);
    l := Go(l, 0, OK);
    assert l.w.calls == Submitted(cfg).calls;
  }

  lemma ReachConfirmed(cfg: Config) returns (l: Leg)
    ensures From(l, cfg) && l.w == Confirmed(cfg)
  {
    l := ReachSubmitted(cfg);
    l := Go(l, 0, OK);
    assert l.w.calls == Confirmed(cfg).calls;
  }

  function Paying(cfg: Config): World {
    World(
      Shared(cfg, Row(PayoutPending, Some(0), None, None, Some(cfg.payout)), Reserved, [], ReleasedToTreasury,
             [Mined], [Mined], [], [], [], Balances(-(cfg.amount as int), 0, cfg.amount, 0, 0)),
      [Call(Execute, InPayout(if cfg.cross then PoBridge else PoCredit), Snapshot(PayoutPending, Some(cfg.payout)))])
  }

  function ReleasedWorld(cfg: Config): World {
    World(
      Paying(cfg).s.(row := Confirmed(cfg).s.row),
      [Call(Execute, InTry(ExFx), Snapshot(ConfirmedOnchain, None))])
  }

  function Settling(cfg: Config): World {
    World(
      Confirmed(cfg).s.(settles := [Pending]),
      [Call(Execute, InTry(ExSettleConfirm(0)), Snapshot(ConfirmedOnchain, None))])
  }

  lemma ReachSettling(cfg: Config) returns (l: Leg)
    ensures From(l, cfg) && l.w == Settling(cfg)
  {
    l := ReachConfirmed(cfg);
    l := Go(l, 0, OK);
    assert l.w.calls == Settling(cfg).calls;
  }

  lemma ReachReleased(cfg: Config) returns (l: Leg)
    ensures From(l, cfg) && l.w == ReleasedWorld(cfg)
  {
    l := ReachSettling(cfg);
    l := Do(l, Mine(SettleTx, 0, Mined));
    l := Go(l, 0, OK);
    assert l.w.calls == ReleasedWorld(cfg).calls;
  }

  function Swapping(cfg: Config): World {
    World(
      Paying(cfg).s.(row := Paying(cfg).s.row.(status := FxOrSwapCompleted)),
      [Call(Execute, InTry(ExPayout), Snapshot(FxOrSwapCompleted, Some(cfg.payout)))])
  }

  lemma ReachSwapping(cfg: Config) returns (l: Leg)
    ensures From(l, cfg) && l.w == Swapping(cfg)
  {
    l := ReachReleased(cfg);
    l := Go(l, 0, OK);
    assert l.w.calls == Swapping(cfg).calls;
  }

  lemma ReachPaying(cfg: Config) returns (l: Leg)
    ensures From(l, cfg) && l.w == Paying(cfg)
  {
    l := ReachSwapping(cfg);
    l := Go(l, 0, OK);
    assert l.w.calls == Paying(cfg).calls;
  }

  /** The payout leg threw before anything was paid; the catch will compensate. */
  function Undone(cfg: Config): World {
    World(
      Paying(cfg).s.(resv := Released),
      [Call(Execute, InCatch(CaCompensate), Snapshot(PayoutPending, Some(cfg.payout)))])
  }

  lemma ReachUnpaid(cfg: Config) returns (l: Leg)
    ensures From(l, cfg) && l.w == MovedTo(Paying(cfg), 0, InCatch(CaRelease))
  {
    l := ReachPaying(cfg);
    l := Go(l, 0, FAILS);
    assert l.w == MovedTo(Paying(cfg), 0, InCatch(CaCredit));
    l := Go(l, 0, OK);
    assert l.w == MovedTo(Paying(cfg), 0, InCatch(CaDestination));
    l := Go(l, 0, OK);
  }

  lemma ReachUndone(cfg: Config) returns (l: Leg)
    ensures From(l, cfg) && l.w == Undone(cfg)
  {
    l := ReachUnpaid(cfg);
    l := Go(l, 0, OK);
    assert l.w == World(Undone(cfg).s, MovedTo(Paying(cfg), 0, InCatch(CaEscrow)).calls);
    l := Go(l, 0, OK);
    assert l.w.calls == Undone(cfg).calls;
  }

  /** The make-good failed too: the sender is owed, nothing is live, the lease is free. */
  function Owed(cfg: Config): World {
    World(
      Undone(cfg).s.(row := Row(CompensationPending, None, None, None, Some(cfg.payout))),
      [Call(Execute, Done(true), Snapshot(CompensationPending, Some(cfg.payout)))])
  }

  function Compensating(cfg: Config): World {
    World(
      Undone(cfg).s.(row := Row(CompensationPending, Some(0), None, None, Some(cfg.payout))),
      [Call(Execute, InCompensate(CoPrior), Snapshot(CompensationPending, Some(cfg.payout)))])
  }

  lemma ReachCompensating(cfg: Config) returns (l: Leg)
    ensures From(l, cfg) && l.w == Compensating(cfg)
  {
    l := ReachUndone(cfg);
    l := Go(l, 0, OK);
    assert l.w.calls == Compensating(cfg).calls;
  }

  function Refused(cfg: Config): World {
    World(
      Compensating(cfg).s,
      [Call(Execute, InCompensate(CoCatch), Snapshot(CompensationPending, Some(cfg.payout)))])
  }

  lemma ReachRefused(cfg: Config) returns (l: Leg)
    ensures From(l, cfg) && l.w == Refused(cfg)
  {
    l := ReachCompensating(cfg);
    l := Go(l, 0, OK);
    l := Go(l, 0, FAILS);
    assert l.w.calls == Refused(cfg).calls;
  }

  lemma ReachOwed(cfg: Config) returns (l: Leg)
    ensures From(l, cfg) && l.w == Owed(cfg)
  {
    l := ReachRefused(cfg);
    l := Go(l, 0, OK);
    assert l.w == MovedTo(Refused(cfg), 0, Finally(true));
    l := Go(l, 0, OK);
    assert l.w.calls == Owed(cfg).calls;
  }

  // ----- a stale claim pays twice -------------------------------------------

  /** A walk in which calls may overlap. */
  ghost predicate Overlapping(l: Leg, cfg: Config) {
    Walked(l) && l.start == Start(cfg) && l.rule == Any
  }

  /** Two repairs have read the row, and neither has claimed. */
  function BothRead(cfg: Config): World {
    World(
      Owed(cfg).s,
      [Owed(cfg).calls[0],
       Call(Repair, InRepair(ReClaim), Snapshot(CompensationPending, Some(cfg.payout))),
       Call(Repair, InRepair(ReClaim), Snapshot(CompensationPending, Some(cfg.payout)))])
  }

  lemma ReachBothRead(cfg: Config) returns (l: Leg)
    ensures Overlapping(l, cfg) && l.w == BothRead(cfg)
  {
    l := ReachOwed(cfg);
    l := Loosen(l);
    l := Do(l, Spawn(Repair));
    l := Do(l, Spawn(Repair));
    l := Go(l, 1, OK);
    l := Go(l, 2, OK);
    assert l.w.calls == BothRead(cfg).calls;
  }

  /** The second has claimed the lease. */
  function OneClaimed(cfg: Config): World {
    World(
      Owed(cfg).s.(row := Owed(cfg).s.row.(lease := Some(2))),
      [Owed(cfg).calls[0],
       BothRead(cfg).calls[1],
       Call(Repair, InRepair(ReDestination), Snapshot(CompensationPending, Some(cfg.payout)))])
  }

  lemma ReachOneClaimed(cfg: Config) returns (l: Leg)
    ensures Overlapping(l, cfg) && l.w == OneClaimed(cfg)
  {
    l := ReachBothRead(cfg);
    l := Go(l, 2, OK);
    assert l.w.calls == OneClaimed(cfg).calls;
  }

  /** Its make-good is in the mempool with its hash saved; it has given up waiting and freed
      the lease. */
  function Overtaken(cfg: Config): World {
    World(
      Owed(cfg).s.(row := Owed(cfg).s.row.(compHash := Some(0)), comps := [Pending]),
      [Owed(cfg).calls[0],
       BothRead(cfg).calls[1],
       Call(Repair, Done(true), Memory(CompensationPending, None, Some(0), Some(cfg.payout)))])
  }

  /** A call whose make-good threw, with a hash on the row, ends without a verdict. */
  lemma StopsWaiting(l: Leg, id: nat) returns (l': Leg)
    requires Walked(l) && MayAct(l, id) && l.w.calls[id].pc == InCompensate(CoCatch)
    requires l.w.s.row.compHash.Some? && l.w.calls[id].mem.compHash.Some?
    ensures Onward(l, l') && l'.w == MovedTo(l.w, id, Finally(true))
  {
    l' := Go(l, id, OK);
    assert l'.w == MovedTo(l.w, id, InCompensate(CoOutcome));
    l' := Go(l', id, OK);
  }

  /** It saves the hash, waits in vain and frees the lease. */
  lemma SavesAndStops(l: Leg, id: nat) returns (l': Leg)
    requires Walked(l) && MayAct(l, id) && l.w.calls[id].pc == InCompensate(CoPersist)
    requires l.w.s.row.lease == Some(id) && l.w.calls[id].mem.compHash.Some? && !l.rule.Smooth?
    ensures Onward(l, l')
    ensures var row := l.w.s.row.(compHash := l.w.calls[id].mem.compHash);
      l'.w == World(l.w.s.(row := row.(lease := None)),
        l.w.calls[id := Call(l.w.calls[id].entry, Done(true), Remember(row))])
  {
    l' := Go(l, id, OK);
    l' := Go(l', id, FAILS);
    var row := l.w.s.row.(compHash := l.w.calls[id].mem.compHash);
    assert l'.w == World(l.w.s.(row := row),
      l.w.calls[id := Call(l.w.calls[id].entry, InCompensate(CoCatch), Remember(row))]);
    l' := StopsWaiting(l', id);
    l' := Go(l', id, OK);
  }

  lemma ReachOvertaken(cfg: Config) returns (l: Leg)
    ensures Overlapping(l, cfg) && l.w == Overtaken(cfg)
  {
    l := ReachOneClaimed(cfg);
    l := SendsAgain(l, 2);
    l := SavesAndStops(l, 2);
    assert l.w.calls == Overtaken(cfg).calls;
  }

  /** The first repair, with its stale copy of the row, has sent a second transfer. */
  function SentTwice(cfg: Config): World {
    World(
      Overtaken(cfg).s.(row := Overtaken(cfg).s.row.(lease := Some(1)), comps := [Pending, Pending]),
      [Owed(cfg).calls[0],
       Call(Repair, InCompensate(CoPersist), Memory(CompensationPending, None, Some(1), Some(cfg.payout))),
       Overtaken(cfg).calls[2]])
  }

  lemma StaleSends(cfg: Config) returns (l: Leg)
    ensures Walked(l) && l.start == Next(Overtaken(cfg), Advance(1, OK)) && l.rule == Any && l.w == SentTwice(cfg)
  {
    l := Begin(Next(Overtaken(cfg), Advance(1, OK)), Any);
    assert l.w.calls[1] == Call(Repair, InRepair(ReDestination), Snapshot(CompensationPending, Some(cfg.payout)));
    l := SendsAgain(l, 1);
    assert l.w.calls == SentTwice(cfg).calls;
  }

  /** The lease alone does not make compensation happen once. For every payment there is a run
      in which every action but one meets both conditions, that one is a repair claiming on
      a row it read before another repair's attempt, and the sender is repaid twice. */
  lemma StaleClaimPaysTwice(cfg: Config) returns (run: seq<Action>, a: Action, more: seq<Action>)
    ensures DisciplinedRun(Start(cfg), run)
    ensures var w := Run(Start(cfg), run);
      && !ClaimsFreshRow(w, a) && LeavesAttemptSaved(w, a) && DisciplinedRun(Next(w, a), more)
      && var w' := Run(Next(w, a), more);
         MinedCount(w'.s.comps) == 2 && w'.s.bal.sender == cfg.amount
  {
    var before := ReachOvertaken(cfg);
    AllowedIsDisciplined(before.start, before.run, before.rule);
    var l := StaleMines(cfg);
    AllowedIsDisciplined(l.start, l.run, l.rule);
    run, a, more := before.run, Advance(1, OK), l.run;
    ClaimIsStale(cfg);
  }

  lemma ClaimIsStale(cfg: Config)
    ensures !ClaimsFreshRow(Overtaken(cfg), Advance(1, OK)) && LeavesAttemptSaved(Overtaken(cfg), Advance(1, OK))
  {
  }

  lemma StaleMines(cfg: Config) returns (l: Leg)
    ensures Walked(l) && l.start == Next(Overtaken(cfg), Advance(1, OK))
    ensures MinedCount(l.w.s.comps) == 2 && l.w.s.bal.sender == cfg.amount
  {
    l := StaleSends(cfg);
    l := Do(l, Mine(CompensationTx, 0, Mined));
    l := Do(l, Mine(CompensationTx, 1, Mined));
    TwoMined(l.w.s.comps, 0);
  }

  lemma TwoMined(txs: seq<Fate>, first: nat)
    requires |txs| == first + 2 && txs[first] == Mined && txs[first + 1] == Mined
    requires first == 0 || (first == 1 && txs[0] != Mined)
    ensures MinedCount(txs) == 2
  {
    assert txs[..first + 1][..first] == txs[..first];
    assert MinedCount(txs[..first]) == 0 by {
      assert first == 1 ==> txs[..first][..0] == [];
    }
  }

  // ----- a lost hash pays twice ---------------------------------------------

  /** A first repair's transfer reverted, and the row still names it. */
  function Retryable(cfg: Config): World {
    World(
      Owed(cfg).s.(row := Owed(cfg).s.row.(compHash := Some(0)), comps := [Reverted]),
      [Owed(cfg).calls[0],
       Call(Repair, Done(true), Memory(CompensationPending, None, Some(0), Some(cfg.payout)))])
  }

  lemma ReachRetryable(cfg: Config) returns (l: Leg)
    ensures From(l, cfg) && l.w == Retryable(cfg)
  {
    l := ReachOwed(cfg);
    l := ClaimRepair(l);
    l := SendsAgain(l, 1);
    l := Do(l, Mine(CompensationTx, 0, Reverted));
    l := SavesAndStops(l, 1);
    assert l.w.calls == Retryable(cfg).calls;
  }

  /** A second repair re-sent the transfer but its hash never reached the row: the fallback
      write is skipped because the row still holds the reverted hash. It is about to free
      the lease. */
  function Forgetting(cfg: Config): World {
    World(
      Retryable(cfg).s.(row := Retryable(cfg).s.row.(lease := Some(2)), comps := [Reverted, Pending]),
      Retryable(cfg).calls +
      [Call(Repair, Finally(true), Memory(CompensationPending, None, Some(1), Some(cfg.payout)))])
  }

  lemma ReachForgetting(cfg: Config) returns (l: Leg)
    ensures From(l, cfg) && l.w == Forgetting(cfg)
  {
    l := ReachRetryable(cfg);
    l := ClaimRepair(l);
    l := SendsAgain(l, 2);
    l := Go(l, 2, FAILS);
    l := StopsWaiting(l, 2);
    assert l.w.calls == Forgetting(cfg).calls;
  }

  function Forgotten(cfg: Config): World {
    World(
      Retryable(cfg).s.(comps := [Reverted, Pending]),
      Retryable(cfg).calls +
      [Call(Repair, Done(true), Memory(CompensationPending, None, Some(1), Some(cfg.payout)))])
  }

  lemma ForgetsTheHash(cfg: Config)
    ensures Next(Forgetting(cfg), Advance(2, OK)) == Forgotten(cfg)
  {
    assert Next(Forgetting(cfg), Advance(2, OK)).calls == Forgotten(cfg).calls;
  }

  lemma ForgottenPaysTwice(cfg: Config) returns (l: Leg)
    ensures Walked(l) && l.start == Forgotten(cfg) && l.rule == Calm
    ensures MinedCount(l.w.s.comps) == 2 && l.w.s.bal.sender == cfg.amount
  {
    l := Begin(Forgotten(cfg), Calm);
    l := ClaimRepair(l);
    l := SendsAgain(l, 3);
    l := Do(l, Mine(CompensationTx, 1, Mined));
    l := Do(l, Mine(CompensationTx, 2, Mined));
    TwoMined(l.w.s.comps, 1);
  }

  /** Nor does running repairs strictly one after another. For every payment there is a run
      in which no call starts before every earlier one is over and every action but one
      meets both conditions; that one frees the lease over a live attempt while the row
      still names an older, reverted one; and the sender is repaid twice. */
  lemma LostHashPaysTwice(cfg: Config) returns (run: seq<Action>, a: Action, more: seq<Action>)
    ensures AllowedRun(Start(cfg), run, Calm)
    ensures var w := Run(Start(cfg), run);
      && ClaimsFreshRow(w, a) && !LeavesAttemptSaved(w, a) && AllowedRun(Next(w, a), more, Calm)
      && w.s.row.compHash.Some? && HashFate(w.s.comps, w.s.row.compHash) == Reverted
      && var w' := Run(Next(w, a), more);
         MinedCount(w'.s.comps) == 2 && w'.s.bal.sender == cfg.amount
  {
    var before := ReachForgetting(cfg);
    ForgetsTheHash(cfg);
    var l := ForgottenPaysTwice(cfg);
    run, a, more := before.run, Advance(2, OK), l.run;
  }

  // ----- the operator's blind spot is real ----------------------------------

  const LANDS_AND_THROWS := How(Landed, Unknown, true, Proceed)

  /** A status write has landed and thrown. */
  function LandedAndThrown(cfg: Config): World {
    World(
      Escrowed(cfg).s.(row := Row(SubmittedOnchain, Some(0), None, None, None)),
      [Call(Execute, InCatch(CaCredit), Snapshot(LiquidityReserved, None))])
  }

  lemma ReachLandedAndThrown(cfg: Config) returns (l: Leg)
    ensures From(l, cfg) && l.w == LandedAndThrown(cfg)
  {
    l := ReachEscrowed(cfg);
    l := Go(l, 0, LANDS_AND_THROWS);
    assert l.w.calls == LandedAndThrown(cfg).calls;
  }

  /** The catch has released the reservation and could not read the escrow. */
  function Unread(cfg: Config): World {
    World(
      LandedAndThrown(cfg).s.(resv := Released),
      [Call(Execute, InCatch(CaFail), Snapshot(LiquidityReserved, None))])
  }

  lemma ReachUnread(cfg: Config) returns (l: Leg)
    ensures From(l, cfg) && l.w == Unread(cfg)
  {
    l := ReachLandedAndThrown(cfg);
    l := Go(l, 0, OK);
    assert l.w == MovedTo(LandedAndThrown(cfg), 0, InCatch(CaDestination));
    l := Go(l, 0, OK);
    assert l.w == MovedTo(LandedAndThrown(cfg), 0, InCatch(CaRelease));
    l := Go(l, 0, OK);
    l := Go(l, 0, UNREADABLE);
    assert l.w.calls == Unread(cfg).calls;
  }

  /** The status swap to FAILED was stale, and the lease has been freed. */
  function Unlisted(cfg: Config): World {
    World(
      Unread(cfg).s.(row := Row(SubmittedOnchain, None, None, None, None)),
      [Call(Execute, Done(false), Snapshot(LiquidityReserved, None))])
  }

  lemma ReachThrown(cfg: Config) returns (l: Leg)
    ensures From(l, cfg) && l.w == MovedTo(Unread(cfg), 0, Finally(false))
  {
    l := ReachUnread(cfg);
    l := Go(l, 0, OK);
    assert l.w.calls == MovedTo(Unread(cfg), 0, Finally(false)).calls;
  }

  lemma ReachUnlisted(cfg: Config) returns (l: Leg)
    ensures From(l, cfg) && l.w == Unlisted(cfg)
  {
    l := ReachThrown(cfg);
    l := Go(l, 0, OK);
    assert l.w.calls == Unlisted(cfg).calls;
  }

  /** A status write that lands and throws, followed by an unreadable escrow, ends an
      execution with the sender's money in escrow and the payment on no list. */
  lemma ThrownExecutionGoesUnlisted(cfg: Config) returns (run: seq<Action>)
    ensures var w := Run(Start(cfg), run);
      |w.calls| == 1 && w.calls[0].entry == Execute && w.calls[0].pc == Done(false) &&
        !AccountedFor(w.s) && !Listed(w.s, true) && !Listed(w.s, false)
  {
    var l := ReachUnlisted(cfg);
    run := l.run;
  }
}
