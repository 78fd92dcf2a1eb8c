/** What holds of the settlement saga in every reachable world: any interleaving of any
    number of executes, repairs, reconciles and cancels, with every call free to fail
    part-way and every transaction free to mine late. */
module SagaTheorems {
  import opened Options
  import opened PaymentState
  import opened SagaModel
  import opened SagaInvariant
  import opened SagaSteps

  // ----- the ledger ---------------------------------------------------------

  lemma MinedAppend(txs: seq<Fate>)
    ensures MinedCount(txs + [Pending]) == MinedCount(txs)
  {
    assert (txs + [Pending])[..|txs|] == txs;
  }

  lemma {:induction false} MinedUpdate(txs: seq<Fate>, i: nat, fate: Fate)
    requires i < |txs| && txs[i] != Mined
    ensures MinedCount(txs[i := fate]) == MinedCount(txs) + (if fate == Mined then 1 else 0)
  {
    var last := |txs| - 1;
    if i < last {
      assert txs[i := fate][..last] == txs[..last][i := fate];
      MinedUpdate(txs[..last], i, fate);
    } else {
      assert txs[i := fate][..last] == txs[..last];
    }
  }

  /** A call never moves a token itself: it broadcasts, and the chains move tokens. And it
      moves the status only along the table. */
  ghost predicate Quiet(s: Shared, s': Shared) {
    && s'.bal == s.bal && s'.escrow == s.escrow && s'.cfg == s.cfg
    && (s'.comps == s.comps || s'.comps == s.comps + [Pending])
    && (s'.dests == s.dests || s'.dests == s.dests + [Pending])
    && (s'.row.status == s.row.status || CanTransition(s.row.status, s'.row.status))
  }

  lemma TryIsQuiet(s: Shared, id: nat, k: Call, pc: ExecutePc, how: How)
    ensures Quiet(s, StepExecute(s, id, k, pc, how).s)
  {
    match pc
    case ExSetup =>
    case ExClaim =>
    case ExReserve =>
    case ExFx =>
    case ExInitiate =>
    case ExSettle =>
    case _ =>
  }

  lemma PayoutIsQuiet(s: Shared, k: Call, pc: PayoutPc, how: How)
    ensures Quiet(s, StepPayout(s, k, pc, how).s)
  {
  }

  lemma CatchIsQuiet(s: Shared, k: Call, pc: CatchPc, how: How)
    ensures Quiet(s, StepCatch(s, k, pc, how).s)
  {
    match pc
    case CaRelease =>
    case CaRefund =>
    case CaCompensate =>
    case _ =>
  }

  lemma ForwardIsQuiet(s: Shared, k: Call, pc: ForwardPc, how: How)
    ensures Quiet(s, StepForward(s, k, pc, how).s)
  {
  }

  lemma CompensateIsQuiet(s: Shared, k: Call, pc: CompensatePc, how: How)
    ensures Quiet(s, StepCompensate(s, k, pc, how).s)
  {
  }

  lemma ReconcileIsQuiet(s: Shared, id: nat, k: Call, pc: ReconcilePc, how: How)
    ensures Quiet(s, StepReconcile(s, id, k, pc, how).s)
  {
  }

  lemma RepairIsQuiet(s: Shared, id: nat, k: Call, pc: RepairPc, how: How)
    ensures Quiet(s, StepRepair(s, id, k, pc, how).s)
  {
  }

  lemma StepIsQuiet(s: Shared, id: nat, k: Call, how: How)
    ensures Quiet(s, StepCall(s, id, k, how).s)
  {
    match k.pc
    case InTry(pc) => TryIsQuiet(s, id, k, pc, how);
    case InPayout(pc) => PayoutIsQuiet(s, k, pc, how);
    case InCatch(pc) => CatchIsQuiet(s, k, pc, how);
    case InForward(pc) => ForwardIsQuiet(s, k, pc, how);
    case InCompensate(pc) => CompensateIsQuiet(s, k, pc, how);
    case InRepair(pc) => RepairIsQuiet(s, id, k, pc, how);
    case InReconcile(pc) => ReconcileIsQuiet(s, id, k, pc, how);
    case _ =>
  }

  lemma QuietKeepsLedger(s: Shared, s': Shared)
    requires LedgerOk(s) && Quiet(s, s')
    ensures LedgerOk(s')
  {
    MinedAppend(s.comps);
    MinedAppend(s.dests);
  }

  lemma MiningKeepsLedger(s: Shared, kind: TxKind, i: nat, fate: Fate)
    requires SharedOk(s) && LedgerOk(s)
    ensures LedgerOk(MineTx(s, kind, i, fate))
  {
    if kind == DestinationTx && FateOf(s.dests, i) == Pending {
      MinedUpdate(s.dests, i, fate);
      assert s.cfg.payout * (MinedCount(s.dests) + 1) == s.cfg.payout * MinedCount(s.dests) + s.cfg.payout;
    } else if kind == CompensationTx && FateOf(s.comps, i) == Pending {
      MinedUpdate(s.comps, i, fate);
      assert s.cfg.amount * (MinedCount(s.comps) + 1) == s.cfg.amount * MinedCount(s.comps) + s.cfg.amount;
    }
  }

  // ----- the invariant over whole runs --------------------------------------

  lemma AdvanceKeepsWorld(w: World, id: nat, how: How)
    requires WorldOk(w) && id < |w.calls|
    ensures WorldOk(Next(w, Advance(id, how)))
  {
    var w' := Next(w, Advance(id, how));
    StepKeepsShared(w.s, id, w.calls[id], how);
    StepIsQuiet(w.s, id, w.calls[id], how);
    QuietKeepsLedger(w.s, w'.s);
    forall j | 0 <= j < |w'.calls| ensures CallOk(w'.s, j, w'.calls[j]) {
      AdvanceUndisturbed(w, id, how, j);
    }
  }

  lemma MineKeepsWorld(w: World, kind: TxKind, i: nat, fate: Fate)
    requires WorldOk(w)
    ensures WorldOk(Next(w, Mine(kind, i, fate)))
  {
    var w' := Next(w, Mine(kind, i, fate));
    MiningKeepsLedger(w.s, kind, i, fate);
    if kind.DestinationTx? || kind.CompensationTx? {
      TransferMiningKeepsShared(w.s, kind, i, fate);
    } else {
      EscrowMiningKeepsShared(w.s, kind, i, fate);
    }
    forall j | 0 <= j < |w'.calls| ensures CallOk(w'.s, j, w'.calls[j]) {
      MiningUndisturbed(w.s, kind, i, fate, j, w.calls[j]);
    }
  }

  lemma RouteKeepsWorld(w: World, to: Status, quoted: Option<nat>)
    requires WorldOk(w)
    ensures WorldOk(Next(w, Route(to, quoted)))
  {
    var w' := Next(w, Route(to, quoted));
    RouteKeepsShared(w.s, to, quoted);
    assert LedgerOk(w'.s);
    forall j | 0 <= j < |w'.calls| ensures CallOk(w'.s, j, w'.calls[j]) {
      RouteUndisturbed(w.s, to, quoted, j, w.calls[j]);
    }
  }

  lemma NextKeepsWorld(w: World, a: Action)
    requires WorldOk(w)
    ensures WorldOk(Next(w, a))
  {
    match a
    case Spawn(entry) =>
    case Advance(id, how) =>
      if id < |w.calls| {
        AdvanceKeepsWorld(w, id, how);
      }
    case Mine(kind, i, fate) => MineKeepsWorld(w, kind, i, fate);
    case Route(to, quoted) => RouteKeepsWorld(w, to, quoted);
  }

  lemma AdvanceUndisturbed(w: World, id: nat, how: How, j: nat)
    requires WorldOk(w) && id < |w.calls| && j < |w.calls|
    ensures var w' := Next(w, Advance(id, how)); CallOk(w'.s, j, w'.calls[j])
  {
    if j == id {
      StepReachesCall(w.s, id, w.calls[id], how);
    } else {
      StepLeavesOthers(w.s, id, w.calls[id], how, j, w.calls[j]);
    }
  }

  lemma StepLeavesOthers(s: Shared, id: nat, k: Call, how: How, j: nat, other: Call)
    requires SharedOk(s) && CallOk(s, id, k) && CallOk(s, j, other) && j != id
    ensures CallOk(StepCall(s, id, k, how).s, j, other)
  {
    StepKeepsShared(s, id, k, how);
    StepEvolves(s, id, k, how);
    if s.row.lease == Some(j) {
      LeaseExcludes(s, id, k, how, j);
    }
    Undisturbed(s, StepCall(s, id, k, how).s, j, other);
  }

  lemma {:induction false} RunKeepsWorld(w: World, run: seq<Action>)
    requires WorldOk(w)
    ensures WorldOk(Run(w, run))
    decreases |run|
  {
    if run != [] {
      NextKeepsWorld(w, run[0]);
      RunKeepsWorld(Next(w, run[0]), run[1..]);
    }
  }

  /** The invariant holds after every run from a fresh payment. */
  lemma Reachable(cfg: Config, run: seq<Action>)
    ensures WorldOk(Run(Start(cfg), run))
    ensures Run(Start(cfg), run).s.cfg == cfg
  {
    assert WorldOk(Start(cfg));
    RunKeepsWorld(Start(cfg), run);
    ConfigIsFixed(Start(cfg), run);
  }

  lemma NextKeepsConfig(w: World, a: Action)
    ensures Next(w, a).s.cfg == w.s.cfg
  {
  }

  lemma {:induction false} ConfigIsFixed(w: World, run: seq<Action>)
    ensures Run(w, run).s.cfg == w.s.cfg
    decreases |run|
  {
    if run != [] {
      NextKeepsConfig(w, run[0]);
      ConfigIsFixed(Next(w, run[0]), run[1..]);
    }
  }

  // ----- never both paid ----------------------------------------------------

  /** The recipient has the money, or a broadcast transfer may still deliver it. */
  ghost predicate RecipientPayable(s: Shared) {
    s.credits != [] || exists i :: 0 <= i < |s.dests| && !Dead(s.dests[i])
  }

  /** The sender has the money back, or a broadcast make-good may still return it. */
  ghost predicate SenderRepayable(s: Shared) {
    s.escrow == ReturnedToSender || exists i :: 0 <= i < |s.comps| && !Dead(s.comps[i])
  }

  /** Safety of the saga: in no reachable world has the recipient been paid, or can a
      pending transfer still pay them, while the sender has been repaid or still can be. */
  lemma NeverPaidAndRepaid(cfg: Config, run: seq<Action>)
    ensures var s := Run(Start(cfg), run).s; !(RecipientPayable(s) && SenderRepayable(s))
  {
    Reachable(cfg, run);
  }

  /** At most one attempt in the payment's whole life reaches the escrow contract, and no
      escrow call, bridge payout or ledger credit is ever issued twice. */
  lemma OneAttemptForLife(cfg: Config, run: seq<Action>)
    ensures var s := Run(Start(cfg), run).s;
      |s.inits| <= 1 && |s.settles| <= 1 && |s.refunds| <= 1 && |s.dests| <= 1 && |s.credits| <= 1
  {
    Reachable(cfg, run);
  }

  // ----- terminal accounting ------------------------------------------------

  /** Conservation: on each network the parties' balances sum to zero in every reachable
      world, and the escrow contract holds exactly what is held. */
  lemma NothingIsCreatedOrLost(cfg: Config, run: seq<Action>)
    ensures var s := Run(Start(cfg), run).s;
      && s.bal.sender + s.bal.escrow + s.bal.treasury == 0
      && s.bal.destTreasury + s.bal.recipient == 0
      && s.bal.escrow == (if s.escrow == Held then cfg.amount else 0)
  {
    Reachable(cfg, run);
  }

  /** SETTLED means: the sender is down the amount, the source treasury up the same, the
      recipient credited once with the quoted amount, and paid on the destination chain
      exactly when the route crosses networks. */
  lemma SettledAccounting(cfg: Config, run: seq<Action>)
    requires Run(Start(cfg), run).s.row.status == Settled
    ensures var s := Run(Start(cfg), run).s;
      && s.bal.sender + cfg.amount == 0 && s.bal.treasury == cfg.amount && s.bal.escrow == 0
      && s.credits == [cfg.payout]
      && s.bal.recipient == (if cfg.cross then cfg.payout else 0)
      && |s.dests| == (if cfg.cross then 1 else 0)
  {
    Reachable(cfg, run);
    var s := Run(Start(cfg), run).s;
    assert MinedCount(s.comps) == 0;
    assert MinedCount(s.dests) == (if cfg.cross then 1 else 0) by {
      if cfg.cross {
        assert s.dests == [] + [Mined];
        assert s.dests[..0] == [];
      }
    }
    assert cfg.payout * 1 == cfg.payout;
  }

  /** REFUNDED means every party nets zero and the recipient was never credited; neither
      a late bridge payout nor a late make-good can change that. */
  lemma RefundedAccounting(cfg: Config, run: seq<Action>)
    requires Run(Start(cfg), run).s.row.status == Refunded
    ensures var s := Run(Start(cfg), run).s;
      s.bal == Balances(0, 0, 0, 0, 0) && s.credits == [] && s.dests == [] && s.comps == []
  {
    Reachable(cfg, run);
    RefundedMeans(Run(Start(cfg), run).s);
  }

  lemma RefundedMeans(s: Shared)
    requires SharedOk(s) && LedgerOk(s) && s.row.status == Refunded
    ensures s.bal == Balances(0, 0, 0, 0, 0) && s.credits == [] && s.dests == [] && s.comps == []
  {
    assert MinedCount(s.comps) == 0 && MinedCount(s.dests) == 0;
  }

  /** COMPENSATED means the escrow went to the treasury, nothing reached the recipient,
      and the units sent back are a whole number of times the units escrowed: the sender
      nets zero exactly when one make-good mined. */
  lemma CompensatedAccounting(cfg: Config, run: seq<Action>)
    requires Run(Start(cfg), run).s.row.status == Compensated
    ensures var s := Run(Start(cfg), run).s;
      && s.escrow == ReleasedToTreasury && s.credits == [] && s.bal.recipient == 0
      && MinedCount(s.comps) >= 1
      && s.bal.sender == cfg.amount * (MinedCount(s.comps) - 1)
      && s.bal.treasury == -s.bal.sender
  {
    Reachable(cfg, run);
    CompensatedMeans(Run(Start(cfg), run).s);
  }

  lemma CompensatedMeans(s: Shared)
    requires SharedOk(s) && LedgerOk(s) && s.row.status == Compensated
    ensures s.escrow == ReleasedToTreasury && s.credits == [] && s.bal.recipient == 0 && MinedCount(s.comps) >= 1
    ensures s.bal.sender == s.cfg.amount * (MinedCount(s.comps) - 1) && s.bal.treasury == -s.bal.sender
  {
    DeadNeverMined(s.dests);
    assert StatusOk(s);
    MinedIsCounted(s.comps, s.row.compHash.value);
    assert s.cfg.amount * (MinedCount(s.comps) - 1) == s.cfg.amount * MinedCount(s.comps) - s.cfg.amount;
  }

  lemma {:induction false} DeadNeverMined(txs: seq<Fate>)
    requires AllDead(txs)
    ensures MinedCount(txs) == 0
  {
    if txs != [] {
      DeadNeverMined(txs[..|txs| - 1]);
    }
  }

  lemma {:induction false} MinedIsCounted(txs: seq<Fate>, i: nat)
    requires i < |txs| && txs[i] == Mined
    ensures MinedCount(txs) >= 1
  {
    if i < |txs| - 1 {
      MinedIsCounted(txs[..|txs| - 1], i);
    }
  }

  // ----- what the operator can see ------------------------------------------

  /** The quoted amount was credited, and the destination leg done if there is one. */
  ghost predicate Delivered(s: Shared) {
    s.credits == [s.cfg.payout] && LegDone(s)
  }

  /** The sender's funds never left, came back from the escrow, or were made good. */
  ghost predicate SenderWhole(s: Shared) {
    s.escrow in {Empty, ReturnedToSender} || MinedCount(s.comps) >= 1
  }

  ghost predicate AlwaysListed(s: Shared) {
    Listed(s, true) && Listed(s, false)
  }

  ghost predicate AccountedFor(s: Shared) {
    Delivered(s) || SenderWhole(s) || AlwaysListed(s)
  }

  /** Every execution that returned leaves the money delivered, with the sender, or the
      payment listed for the operator whether or not its escrow can be read; and so it
      stays in every later world, even if an escrow transaction mines late. */
  lemma ReturnedExecutionIsAccountedFor(cfg: Config, run: seq<Action>, i: nat)
    requires var w := Run(Start(cfg), run);
      i < |w.calls| && w.calls[i].entry == Execute && w.calls[i].pc == Done(true)
    ensures AccountedFor(Run(Start(cfg), run).s)
  {
    Reachable(cfg, run);
    var w := Run(Start(cfg), run);
    assert CallOk(w.s, i, w.calls[i]);
    if w.s.row.status == Compensated {
      MinedIsCounted(w.s.comps, w.s.row.compHash.value);
    }
  }

  /** The operator's blind spot, exactly: a reachable payment is unaccounted for if and
      only if its row is still between LIQUIDITY_RESERVED and FX_OR_SWAP_COMPLETED while
      the escrow has taken the sender's money. */
  lemma BlindSpotExactly(cfg: Config, run: seq<Action>)
    ensures var s := Run(Start(cfg), run).s;
      !AccountedFor(s) <==>
      && s.row.status in {LiquidityReserved, SubmittedOnchain, ConfirmedOnchain, FxOrSwapCompleted}
      && s.escrow in {Held, ReleasedToTreasury}
  {
    Reachable(cfg, run);
    var s := Run(Start(cfg), run).s;
    assert MinedCount([]) == 0;
    if s.row.status == Compensated {
      MinedIsCounted(s.comps, s.row.compHash.value);
    }
  }

  /** The operator's list, exactly. With readable escrows it is the payments whose sender is
      owed, whose payout is unresolved, or that failed with the sender's money gone: keying it
      on the reservation row misses none of them. An unreadable escrow only adds failed
      payments that had a reservation. */
  lemma ListedExactly(cfg: Config, run: seq<Action>)
    ensures var s := Run(Start(cfg), run).s;
      && (Listed(s, true) <==>
            s.row.status in {CompensationPending, PayoutPending}
            || (s.row.status == Failed && s.escrow in {Held, ReleasedToTreasury}))
      && (Listed(s, false) <==>
            s.row.status in {CompensationPending, PayoutPending} || (s.row.status == Failed && s.resv != NoReservation))
  {
    Reachable(cfg, run);
  }

  // ----- the lease ----------------------------------------------------------

  /** No step of any call, its finally included, frees or takes over a lease another call
      owns, although transitionStatus clears the lease without naming an owner. */
  lemma LeaseIsNeverStolen(cfg: Config, run: seq<Action>, id: nat, how: How)
    ensures var w := Run(Start(cfg), run);
      w.s.row.lease.Some? && w.s.row.lease != Some(id) ==> Next(w, Advance(id, how)).s == w.s
  {
    Reachable(cfg, run);
    var w := Run(Start(cfg), run);
    if id < |w.calls| && w.s.row.lease.Some? && w.s.row.lease != Some(id) {
      LeaseExcludes(w.s, id, w.calls[id], how, w.s.row.lease.value);
    }
  }

  lemma MiningKeepsRow(s: Shared, kind: TxKind, i: nat, fate: Fate)
    ensures MineTx(s, kind, i, fate).row == s.row
  {
  }

  /** Every status change of every run is an edge of the transition table. */
  lemma StatusMovesLegally(w: World, a: Action)
    ensures var w' := Next(w, a);
      w'.s.row.status == w.s.row.status || CanTransition(w.s.row.status, w'.s.row.status)
  {
    match a
    case Spawn(entry) =>
    case Advance(id, how) =>
      if id < |w.calls| {
        StepIsQuiet(w.s, id, w.calls[id], how);
      }
    case Mine(kind, i, fate) => MiningKeepsRow(w.s, kind, i, fate);
    case Route(to, quoted) =>
  }

  /** The statuses a run goes through, each time the status changes. */
  function Trail(w: World, run: seq<Action>): (t: seq<Status>)
    ensures t != [] && t[0] == w.s.row.status
    decreases |run|
  {
    if run == [] then [w.s.row.status]
    else
      var w' := Next(w, run[0]);
      if w'.s.row.status == w.s.row.status then Trail(w', run[1..]) else [w.s.row.status] + Trail(w', run[1..])
  }

  ghost predicate NeverStands(t: seq<Status>) {
    forall i :: 0 < i < |t| ==> t[i] != t[i - 1]
  }

  lemma {:induction false} TrailIsPath(w: World, run: seq<Action>)
    ensures var t := Trail(w, run);
      IsPath(t) && NeverStands(t) && t[|t| - 1] == Run(w, run).s.row.status
    decreases |run|
  {
    if run != [] {
      var w' := Next(w, run[0]);
      TrailIsPath(w', run[1..]);
      StatusMovesLegally(w, run[0]);
      if w'.s.row.status != w.s.row.status {
        PathPrepends(w.s.row.status, Trail(w', run[1..]));
      }
    }
  }

  lemma PathPrepends(s: Status, t: seq<Status>)
    requires t != [] && IsPath(t) && NeverStands(t) && CanTransition(s, t[0]) && s != t[0]
    ensures IsPath([s] + t) && NeverStands([s] + t)
  {
    forall i | 0 < i < |t| + 1
      ensures CanTransition(([s] + t)[i - 1], ([s] + t)[i]) && ([s] + t)[i] != ([s] + t)[i - 1]
    {
      assert i > 1 ==> CanTransition(t[i - 2], t[i - 1]) && t[i - 1] != t[i - 2];
    }
  }

  lemma {:induction false} NoRequotes(t: seq<Status>)
    requires NeverStands(t)
    ensures Requotes(t) == 0
  {
    if |t| >= 2 {
      NoRequotes(t[..|t| - 1]);
    }
  }

  /** However many executes, repairs, reconciles and routes race on it, a payment's status
      changes at most eleven times, and fewer the further it already is. */
  lemma StatusChangesAreBounded(cfg: Config, run: seq<Action>)
    ensures var t := Trail(Start(cfg), run);
      |t| - 1 <= Rank(Draft) - Rank(Run(Start(cfg), run).s.row.status) <= 11
  {
    var t := Trail(Start(cfg), run);
    TrailIsPath(Start(cfg), run);
    NoRequotes(t);
    PathsAreBounded(t);
  }

  // ----- one attempt --------------------------------------------------------

  /** The action that commits an attempt: the swap to LIQUIDITY_RESERVED, whether or not it
      also throws. */
  predicate Marks(w: World, a: Action) {
    w.s.row.status != LiquidityReserved && Next(w, a).s.row.status == LiquidityReserved
  }

  function MarkCount(w: World, run: seq<Action>): nat
    decreases |run|
  {
    if run == [] then 0 else (if Marks(w, run[0]) then 1 else 0) + MarkCount(Next(w, run[0]), run[1..])
  }

  /** It is an execution's, with the row still APPROVED under its lease and liquidity
      reserved. */
  lemma MarkIsReserved(w: World, a: Action)
    requires WorldOk(w) && Marks(w, a)
    ensures a.Advance? && a.id < |w.calls| && w.calls[a.id].pc == InTry(ExMark)
    ensures Holds(w.s, a.id, Approved) && w.s.resv != NoReservation
  {
    StatusMovesLegally(w, a);
    assert w.s.row.status == Approved;
    if a.Mine? {
      MiningKeepsRow(w.s, a.kind, a.index, a.fate);
    } else if a.Advance? && a.id < |w.calls| {
      OnlyMarkReserves(w.s, a.id, w.calls[a.id], a.how);
    }
  }

  lemma OnlyMarkReserves(s: Shared, id: nat, k: Call, how: How)
    requires SharedOk(s) && CallOk(s, id, k) && s.row.status == Approved
    ensures StepCall(s, id, k, how).s.row.status == LiquidityReserved ==>
      k.pc == InTry(ExMark) && Holds(s, id, Approved) && s.resv != NoReservation
  {
    match k.pc
    case InTry(pc) => assert pc in {ExRead, ExClaim, ExSetup, ExReserve, ExMark};
    case InRepair(pc) => assert pc in {ReRead, ReClaim};
    case InReconcile(pc) => assert pc in {RcRead, RcClaimPayout, RcClaimCompensation};
    case _ =>
  }

  lemma {:induction false} MarksOnce(w: World, run: seq<Action>)
    ensures MarkCount(w, run) <= if Rank(w.s.row.status) > Rank(LiquidityReserved) then 1 else 0
    decreases |run|
  {
    if run != [] {
      StatusMovesLegally(w, run[0]);
      MarksOnce(Next(w, run[0]), run[1..]);
    }
  }

  /** At most one attempt in a payment's whole life gets past the reservation and the swap
      that marks it, even one that then fails to send anything. */
  lemma OneAttemptPasses(cfg: Config, run: seq<Action>)
    ensures MarkCount(Start(cfg), run) <= 1
  {
    MarksOnce(Start(cfg), run);
  }
}
