/** Compensated at most once: the two things repairCompensation must not do for this to
    hold, the proof that they are enough, and a run that pays twice when one is done. */
module SagaOnce {
  import opened Options
  import opened PaymentState
  import opened SagaModel
  import opened SagaInvariant
  import opened SagaSteps
  import opened SagaTheorems

  // ----- the two conditions -------------------------------------------------

  /** A hash that names an attempt that has mined or still may. */
  predicate LiveHash(txs: seq<Fate>, hash: Option<nat>) {
    hash.Some? && hash.value < |txs| && !Dead(txs[hash.value])
  }

  /** A repair is granted the lease without remembering the row's live attempt: another
      repair sent one between its read and its claim. */
  predicate ClaimsStale(s: Shared, k: Call, how: How) {
    && k.pc == InRepair(ReClaim) && how.db == Ok && s.row.status == CompensationPending && s.row.lease == None
    && LiveHash(s.comps, s.row.compHash) && k.mem.compHash != s.row.compHash
  }

  /** A call gives its lease back while its own live attempt is not the one the row names. */
  predicate LeavesUnsaved(s: Shared, id: nat, k: Call, how: How) {
    && k.pc.Finally? && s.row.lease == Some(id) && how.db != Lost
    && LiveHash(s.comps, k.mem.compHash) && s.row.compHash != k.mem.compHash
  }

  predicate ClaimsFreshRow(w: World, a: Action) {
    a.Advance? && a.id < |w.calls| ==> !ClaimsStale(w.s, w.calls[a.id], a.how)
  }

  predicate LeavesAttemptSaved(w: World, a: Action) {
    a.Advance? && a.id < |w.calls| ==> !LeavesUnsaved(w.s, a.id, w.calls[a.id], a.how)
  }

  predicate Disciplined(w: World, a: Action) {
    ClaimsFreshRow(w, a) && LeavesAttemptSaved(w, a)
  }

  predicate DisciplinedRun(w: World, run: seq<Action>)
    decreases |run|
  {
    run == [] || (Disciplined(w, run[0]) && DisciplinedRun(Next(w, run[0]), run[1..]))
  }

  // ----- why they are enough ------------------------------------------------

  /** The lease owner itself remembers the attempt. */
  ghost predicate Knows(s: Shared, id: nat, k: Call, h: nat) {
    && s.row.lease == Some(id) && k.mem.compHash == Some(h)
    && k.entry != Reconcile && (k.pc.InCompensate? || k.pc.Finally? || k.pc.Done?)
  }

  /** An attempt is tracked: by the row, or by the one call that could retry it. */
  ghost predicate Tracked(w: World, h: nat) {
    || w.s.row.compHash == Some(h)
    || (var owner := w.s.row.lease;
        owner.Some? && owner.value < |w.calls| && Knows(w.s, owner.value, w.calls[owner.value], h))
  }

  ghost predicate Live(txs: seq<Fate>, h: nat) {
    h < |txs| && !Dead(txs[h])
  }

  /** The call remembers every live attempt. */
  ghost predicate Aware(s: Shared, k: Call) {
    forall h: nat :: Live(s.comps, h) ==> k.mem.compHash == Some(h)
  }

  /** What the lease owner knows about earlier attempts on its way to a broadcast. */
  ghost predicate Careful(s: Shared, k: Call) {
    match k.pc
    case InRepair(pc) => pc in {ReDestination, ReEscrow} ==> Aware(s, k)
    case InCompensate(CoPrior) => k.entry != Reconcile && Aware(s, k)
    case InCompensate(CoBroadcast) => k.entry != Reconcile && AllDead(s.comps)
    case InCompensate(CoPersist) => k.entry != Reconcile && Aware(s, k)
    case InCompensate(pc) => k.entry == Reconcile ==> pc == CoRecovered
    case _ => true
  }

  ghost predicate AtMostOneLive(s: Shared) {
    forall h: nat, h': nat :: Live(s.comps, h) && Live(s.comps, h') ==> h == h'
  }

  ghost predicate OneLive(w: World) {
    && AtMostOneLive(w.s)
    && (forall h: nat :: Live(w.s.comps, h) ==> Tracked(w, h))
    && (forall i :: 0 <= i < |w.calls| && w.s.row.lease == Some(i) ==> Careful(w.s, w.calls[i]))
  }

  /** The same for one call on its own, when no other call owns the lease. */
  ghost predicate OneLiveFor(s: Shared, id: nat, k: Call) {
    && AtMostOneLive(s)
    && (forall h: nat :: Live(s.comps, h) ==> s.row.compHash == Some(h) || Knows(s, id, k, h))
    && (s.row.lease == Some(id) ==> Careful(s, k))
  }

  /** A repair's evidence rules out every earlier attempt before it broadcasts. */
  lemma PriorOnce(s: Shared, id: nat, k: Call, how: How)
    requires SharedOk(s) && k.pc == InCompensate(CoPrior) && CallOk(s, id, k) && OneLiveFor(s, id, k)
    ensures var out := StepCall(s, id, k, how); OneLiveFor(out.s, id, out.call)
  {
    if StepCall(s, id, k, how).call.pc == InCompensate(CoBroadcast) {
      forall i | 0 <= i < |s.comps| ensures Dead(s.comps[i]) {
        assert Live(s.comps, i) ==> k.mem.compHash == Some(i);
      }
    }
  }

  /** The transfer is broadcast when every earlier attempt is dead, and is tracked from
      then on. */
  lemma BroadcastOnce(s: Shared, id: nat, k: Call, pc: CompensatePc, how: How)
    requires SharedOk(s) && k.pc == InCompensate(pc) && CallOk(s, id, k) && OneLiveFor(s, id, k)
    requires pc in {CoBroadcast, CoPersist, CoConfirm}
    ensures var out := StepCall(s, id, k, how); OneLiveFor(out.s, id, out.call)
  {
    if pc == CoBroadcast {
      assert forall h: nat :: Live(s.comps + [Pending], h) ==> h == |s.comps|;
    }
  }

  lemma RecoverOnce(s: Shared, id: nat, k: Call, pc: CompensatePc, how: How)
    requires SharedOk(s) && k.pc == InCompensate(pc) && CallOk(s, id, k) && OneLiveFor(s, id, k)
    requires pc in {CoMark, CoCatch, CoOutcome, CoRecovered}
    ensures var out := StepCall(s, id, k, how); OneLiveFor(out.s, id, out.call)
  {
    if k.mem.compHash.Some? && HashFate(s.comps, k.mem.compHash) == Mined {
      assert Live(s.comps, k.mem.compHash.value);
    }
    var s' := StepCompensate(s, k, pc, how).s;
    match pc
    case CoMark => assert s' == s || s'.row == Swapped(s.row, Compensated, Columns(None, k.mem.compHash, None));
    case CoCatch => assert s' == s || s' == s.(row := s.row.(compHash := k.mem.compHash));
    case CoOutcome => assert s' == s;
    case CoRecovered => assert s' == s || s'.row == Swapped(s.row, Compensated, Columns(None, k.mem.compHash, None));
  }

  lemma FinallyOnce(s: Shared, id: nat, k: Call, how: How)
    requires SharedOk(s) && (k.pc.Finally? || k.pc.Done?) && CallOk(s, id, k) && OneLiveFor(s, id, k)
    requires !LeavesUnsaved(s, id, k, how)
    ensures var out := StepCall(s, id, k, how); OneLiveFor(out.s, id, out.call)
  {
  }

  lemma RepairOnce(s: Shared, id: nat, k: Call, pc: RepairPc, how: How)
    requires SharedOk(s) && k.pc == InRepair(pc) && CallOk(s, id, k) && OneLiveFor(s, id, k)
    requires !ClaimsStale(s, k, how)
    ensures var out := StepCall(s, id, k, how); OneLiveFor(out.s, id, out.call)
  {
  }

  /** A step that sends nothing, by a call that holds no untracked attempt. */
  lemma KeptOnce(s: Shared, id: nat, k: Call, out: Out)
    requires OneLiveFor(s, id, k) && !k.pc.InCompensate? && !k.pc.Finally? && !k.pc.Done?
    requires out.s.comps == s.comps && out.s.row.compHash == s.row.compHash
    requires !out.call.pc.InRepair? && (out.call.pc.InCompensate? ==> out.call.pc.co == CoRecovered)
    ensures OneLiveFor(out.s, id, out.call)
  {
    assert Careful(out.s, out.call);
  }

  lemma ReconcileSendsNothing(s: Shared, id: nat, k: Call, pc: ReconcilePc, how: How)
    ensures var out := StepReconcile(s, id, k, pc, how);
      && out.s.comps == s.comps && out.s.row.compHash == s.row.compHash
      && !out.call.pc.InRepair? && (out.call.pc.InCompensate? ==> out.call.pc.co == CoRecovered)
  {
  }

  lemma TrySendsNothing(s: Shared, id: nat, k: Call, pc: ExecutePc, how: How)
    ensures var out := StepExecute(s, id, k, pc, how);
      && out.s.comps == s.comps && out.s.row.compHash == s.row.compHash
      && !out.call.pc.InRepair? && !out.call.pc.InCompensate?
  {
  }

  lemma ReconcileOnce(s: Shared, id: nat, k: Call, pc: ReconcilePc, how: How)
    requires k.pc == InReconcile(pc) && OneLiveFor(s, id, k)
    ensures var out := StepReconcile(s, id, k, pc, how); OneLiveFor(out.s, id, out.call)
  {
    ReconcileSendsNothing(s, id, k, pc, how);
    KeptOnce(s, id, k, StepReconcile(s, id, k, pc, how));
  }

  lemma TryOnce(s: Shared, id: nat, k: Call, pc: ExecutePc, how: How)
    requires k.pc == InTry(pc) && OneLiveFor(s, id, k)
    ensures var out := StepExecute(s, id, k, pc, how); OneLiveFor(out.s, id, out.call)
  {
    TrySendsNothing(s, id, k, pc, how);
    KeptOnce(s, id, k, StepExecute(s, id, k, pc, how));
  }

  lemma PayoutSendsNothing(s: Shared, k: Call, pc: PayoutPc, how: How)
    ensures var out := StepPayout(s, k, pc, how);
      && out.s.comps == s.comps && out.s.row.compHash == s.row.compHash
      && !out.call.pc.InRepair? && !out.call.pc.InCompensate?
  {
  }

  lemma ForwardSendsNothing(s: Shared, k: Call, pc: ForwardPc, how: How)
    ensures var out := StepForward(s, k, pc, how);
      && out.s.comps == s.comps && out.s.row.compHash == s.row.compHash
      && !out.call.pc.InRepair? && !out.call.pc.InCompensate?
  {
  }

  lemma PayoutOnce(s: Shared, id: nat, k: Call, how: How)
    requires (k.pc.InPayout? || k.pc.InForward?) && OneLiveFor(s, id, k)
    ensures var out := StepCall(s, id, k, how); OneLiveFor(out.s, id, out.call)
  {
    if k.pc.InPayout? {
      PayoutSendsNothing(s, k, k.pc.po, how);
    } else {
      ForwardSendsNothing(s, k, k.pc.fw, how);
    }
    KeptOnce(s, id, k, StepCall(s, id, k, how));
  }

  lemma CatchOnce(s: Shared, id: nat, k: Call, pc: CatchPc, how: How)
    requires SharedOk(s) && k.pc == InCatch(pc) && CallOk(s, id, k) && OneLiveFor(s, id, k)
    ensures var out := StepCall(s, id, k, how); OneLiveFor(out.s, id, out.call)
  {
    assert s.comps == [];
    var out := StepCall(s, id, k, how);
    assert out.s.comps == [];
    assert out.call.pc == InCompensate(CoPrior) ==> out.call.mem.compHash == out.s.row.compHash && k.entry == Execute;
  }

  // ----- whole runs ---------------------------------------------------------

  lemma StepOnce(s: Shared, id: nat, k: Call, how: How)
    requires SharedOk(s) && CallOk(s, id, k) && OneLiveFor(s, id, k)
    requires !ClaimsStale(s, k, how)
    requires !LeavesUnsaved(s, id, k, how)
    ensures var out := StepCall(s, id, k, how); OneLiveFor(out.s, id, out.call)
  {
    match k.pc
    case InTry(pc) => TryOnce(s, id, k, pc, how);
    case InPayout(pc) => PayoutOnce(s, id, k, how);
    case InCatch(pc) => CatchOnce(s, id, k, pc, how);
    case InForward(pc) => PayoutOnce(s, id, k, how);
    case InCompensate(pc) =>
      if pc == CoPrior {
        PriorOnce(s, id, k, how);
      } else if pc in {CoBroadcast, CoPersist, CoConfirm} {
        BroadcastOnce(s, id, k, pc, how);
      } else {
        RecoverOnce(s, id, k, pc, how);
      }
    case InRepair(pc) => RepairOnce(s, id, k, pc, how);
    case InReconcile(pc) => ReconcileOnce(s, id, k, pc, how);
    case _ => FinallyOnce(s, id, k, how);
  }

  lemma TryLease(s: Shared, id: nat, k: Call, pc: ExecutePc, how: How)
    ensures StepExecute(s, id, k, pc, how).s.row.lease in {s.row.lease, None, Some(id)}
  {
  }

  lemma CatchLease(s: Shared, k: Call, pc: CatchPc, how: How)
    ensures StepCatch(s, k, pc, how).s.row.lease in {s.row.lease, None}
  {
  }

  lemma CompensateLease(s: Shared, k: Call, pc: CompensatePc, how: How)
    ensures StepCompensate(s, k, pc, how).s.row.lease in {s.row.lease, None}
  {
  }

  /** A step either leaves the lease alone, or takes it for, or frees it from, its own call. */
  lemma LeaseMovesOwn(s: Shared, id: nat, k: Call, how: How)
    ensures var s' := StepCall(s, id, k, how).s;
      s'.row.lease in {s.row.lease, None, Some(id)}
  {
    match k.pc
    case InTry(pc) => TryLease(s, id, k, pc, how);
    case InCatch(pc) => CatchLease(s, k, pc, how);
    case InCompensate(pc) => CompensateLease(s, k, pc, how);
    case _ =>
  }

  lemma AdvanceOnce(w: World, id: nat, how: How)
    requires WorldOk(w) && OneLive(w) && id < |w.calls| && Disciplined(w, Advance(id, how))
    ensures OneLive(Next(w, Advance(id, how)))
  {
    var w' := Next(w, Advance(id, how));
    if w.s.row.lease.Some? && w.s.row.lease != Some(id) {
      LeaseExcludes(w.s, id, w.calls[id], how, w.s.row.lease.value);
      assert forall h: nat :: Tracked(w, h) ==> Tracked(w', h);
    } else {
      StepOnce(w.s, id, w.calls[id], how);
      LeaseMovesOwn(w.s, id, w.calls[id], how);
      assert forall h: nat :: Knows(w'.s, id, w'.calls[id], h) ==> Tracked(w', h);
    }
  }

  lemma MiningOnce(w: World, kind: TxKind, i: nat, fate: Fate)
    requires OneLive(w)
    ensures OneLive(Next(w, Mine(kind, i, fate)))
  {
    var w' := Next(w, Mine(kind, i, fate));
    assert w'.s.row == w.s.row && w'.calls == w.calls;
    assert forall h: nat :: Live(w'.s.comps, h) ==> Live(w.s.comps, h);
    assert forall h: nat :: Tracked(w, h) ==> Tracked(w', h);
  }

  lemma NextOnce(w: World, a: Action)
    requires WorldOk(w) && OneLive(w) && Disciplined(w, a)
    ensures OneLive(Next(w, a))
  {
    var w' := Next(w, a);
    match a
    case Spawn(entry) => assert forall h: nat :: Tracked(w, h) ==> Tracked(w', h);
    case Advance(id, how) =>
      if id < |w.calls| {
        AdvanceOnce(w, id, how);
      }
    case Mine(kind, i, fate) => MiningOnce(w, kind, i, fate);
    case Route(to, quoted) =>
      if w'.s != w.s {
        assert w.s.comps == [];
      }
  }

  lemma {:induction false} RunOnce(w: World, run: seq<Action>)
    requires WorldOk(w) && OneLive(w) && DisciplinedRun(w, run)
    ensures OneLive(Run(w, run))
    decreases |run|
  {
    if run != [] {
      NextKeepsWorld(w, run[0]);
      NextOnce(w, run[0]);
      RunOnce(Next(w, run[0]), run[1..]);
    }
  }

  lemma {:induction false} OneLiveCountsOnce(txs: seq<Fate>)
    requires forall h: nat, h': nat :: Live(txs, h) && Live(txs, h') ==> h == h'
    ensures MinedCount(txs) <= 1
  {
    if txs != [] {
      var init := txs[..|txs| - 1];
      assert forall h: nat :: Live(init, h) ==> Live(txs, h);
      OneLiveCountsOnce(init);
      if txs[|txs| - 1] == Mined {
        assert Live(txs, |txs| - 1);
        assert AllDead(init) by {
          forall i | 0 <= i < |init| ensures Dead(init[i]) {
            assert Live(txs, i) ==> i == |txs| - 1;
          }
        }
        DeadNeverMined(init);
      }
    }
  }

  /** Over any interleaving of executes, repairs, reconciles and cancels in which repairs
      claim the row they read and no call leaves a live attempt unsaved, at most one
      make-good is ever mined, however late; and a COMPENSATED payment nets to zero. */
  lemma CompensatedAtMostOnce(cfg: Config, run: seq<Action>)
    requires DisciplinedRun(Start(cfg), run)
    ensures var s := Run(Start(cfg), run).s;
      && MinedCount(s.comps) <= 1
      && (s.row.status == Compensated ==> s.bal == Balances(0, 0, 0, 0, 0))
  {
    Reachable(cfg, run);
    NothingLiveAtStart(cfg);
    RunOnce(Start(cfg), run);
    OneLiveNets(Run(Start(cfg), run).s);
  }

  lemma NothingLiveAtStart(cfg: Config)
    ensures WorldOk(Start(cfg)) && OneLive(Start(cfg))
  {
  }

  lemma OneLiveNets(s: Shared)
    requires SharedOk(s) && LedgerOk(s) && AtMostOneLive(s)
    ensures MinedCount(s.comps) <= 1
    ensures s.row.status == Compensated ==> s.bal == Balances(0, 0, 0, 0, 0)
  {
    OneLiveCountsOnce(s.comps);
    if s.row.status == Compensated {
      CompensatedMeans(s);
    }
  }

  /** Two live attempts can both still be mined, in any world, repaying the sender twice. */
  lemma TwoLiveCanBothMine(w: World, h: nat, h': nat) returns (run: seq<Action>)
    requires h < h' && Live(w.s.comps, h) && Live(w.s.comps, h')
    ensures var s' := Run(w, run).s;
      |s'.comps| == |w.s.comps| && s'.comps[h] == Mined && s'.comps[h'] == Mined
  {
    var a, b := Mine(CompensationTx, h, Mined), Mine(CompensationTx, h', Mined);
    run := [a, b];
    assert run[1..] == [b] && [b][1..] == [];
    assert Run(w, run) == Run(Next(w, a), [b]);
    assert Run(Next(w, a), [b]) == Run(Next(Next(w, a), b), []);
  }
}
