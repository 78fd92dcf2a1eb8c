/** Building runs of the settlement saga one action at a time, and the continuation that
    makes the two conditions of SagaOnce exact. */
module SagaLegs {
  import opened Options
  import opened PaymentState
  import opened SagaModel
  import opened SagaInvariant
  import opened SagaSteps
  import opened SagaTheorems
  import opened SagaOnce

  // ----- runs, action by action ---------------------------------------------

  predicate AllDone(w: World) {
    forall i :: 0 <= i < |w.calls| ==> w.calls[i].pc.Done?
  }

  /** An await that ends as it should. */
  predicate Succeeds(how: How) {
    how.db == Ok && how.readable && how.setup == Proceed
  }

  /** What a call that is left alone and meets no failure can do: its own awaits, each ending
      as it should, while pending transactions mine. */
  predicate SmoothAction(a: Action, id: nat) {
    match a
    case Advance(i, how) => i == id && Succeeds(how)
    case Mine(_, _, fate) => fate == Mined
    case _ => false
  }

  /** A restriction on runs: none, that no call starts before every earlier one is over, or
      that one call alone proceeds without a failure. */
  datatype Rule = Any | Calm | Smooth(id: nat)

  predicate Allowed(w: World, a: Action, rule: Rule) {
    && Disciplined(w, a)
    && (rule.Calm? && a.Spawn? ==> AllDone(w))
    && (rule.Smooth? ==> SmoothAction(a, rule.id))
  }

  predicate AllowedRun(w: World, run: seq<Action>, rule: Rule)
    decreases |run|
  {
    run == [] || (Allowed(w, run[0], rule) && AllowedRun(Next(w, run[0]), run[1..], rule))
  }

  lemma {:induction false} AllowedIsDisciplined(w: World, run: seq<Action>, rule: Rule)
    requires AllowedRun(w, run, rule)
    ensures DisciplinedRun(w, run) && AllowedRun(w, run, Any)
    decreases |run|
  {
    if run != [] {
      AllowedIsDisciplined(Next(w, run[0]), run[1..], rule);
    }
  }

  /** A run from one world to another. */
  datatype Leg = Leg(start: World, run: seq<Action>, w: World, rule: Rule)

  ghost predicate Walked(l: Leg) {
    Run(l.start, l.run) == l.w && AllowedRun(l.start, l.run, l.rule)
  }

  /** The same walk, further on. */
  ghost predicate Onward(l: Leg, l': Leg) {
    Walked(l') && l'.start == l.start && l'.rule == l.rule && |l'.w.calls| >= |l.w.calls|
  }

  lemma Begin(w: World, rule: Rule) returns (l: Leg)
    ensures Walked(l) && l == Leg(w, [], w, rule)
  {
    l := Leg(w, [], w, rule);
  }

  lemma {:induction false} RunAppend(w: World, run: seq<Action>, a: Action, rule: Rule)
    requires AllowedRun(w, run, rule) && Allowed(Run(w, run), a, rule)
    ensures Run(w, run + [a]) == Next(Run(w, run), a) && AllowedRun(w, run + [a], rule)
    decreases |run|
  {
    if run == [] {
      assert (run + [a])[1..] == [];
    } else {
      assert (run + [a])[1..] == run[1..] + [a];
      RunAppend(Next(w, run[0]), run[1..], a, rule);
    }
  }

  /** One more action. */
  lemma Do(l: Leg, a: Action) returns (l': Leg)
    requires Walked(l) && Allowed(l.w, a, l.rule)
    ensures Onward(l, l') && l'.w == Next(l.w, a)
  {
    RunAppend(l.start, l.run, a, l.rule);
    l' := Leg(l.start, l.run + [a], Next(l.w, a), l.rule);
  }

  /** The call exists, and the rule lets it act. */
  predicate MayAct(l: Leg, id: nat) {
    id < |l.w.calls| && (l.rule.Smooth? ==> id == l.rule.id)
  }

  /** One more await of a call. */
  lemma Go(l: Leg, id: nat, how: How) returns (l': Leg)
    requires Walked(l) && MayAct(l, id) && Disciplined(l.w, Advance(id, how))
    requires l.rule.Smooth? ==> Succeeds(how)
    ensures Onward(l, l') && l'.w == Next(l.w, Advance(id, how))
  {
    l' := Do(l, Advance(id, how));
  }

  /** The same walk, with no rule but discipline from here on. */
  lemma Loosen(l: Leg) returns (l': Leg)
    requires Walked(l)
    ensures Walked(l') && l' == l.(rule := Any)
  {
    AllowedIsDisciplined(l.start, l.run, l.rule);
    l' := l.(rule := Any);
  }

  // ----- what the chain can be seen to say ----------------------------------

  const OK := How(Ok, Unknown, true, Proceed)
  const FAILS := How(Lost, Unknown, true, Proceed)
  const UNREADABLE := How(Ok, Unknown, false, Proceed)

  /** The conclusive reading of a final fate. */
  function Seen(f: Fate): Outcome {
    match f
    case Pending => Unknown
    case Mined => SeenConfirmed
    case Reverted => SeenReverted
    case Dropped => SeenAbsent
  }

  function Sees(f: Fate): How {
    How(Ok, Seen(f), true, Proceed)
  }

  // ----- a repair that knows of no live attempt sends one -------------------

  function MovedTo(w: World, id: nat, pc: Pc): World
    requires id < |w.calls|
  {
    w.(calls := w.calls[id := w.calls[id].(pc := pc)])
  }

  /** The sender is owed: the escrow is gone and no payout the call remembers can mine. */
  ghost predicate OwedTo(s: Shared, mem: Memory) {
    s.escrow == ReleasedToTreasury && Dead(HashFate(s.dests, mem.destHash))
  }

  lemma PassesChecks(l: Leg, id: nat) returns (l': Leg)
    requires Walked(l) && MayAct(l, id) && l.w.calls[id].pc == InRepair(ReDestination)
    requires OwedTo(l.w.s, l.w.calls[id].mem)
    ensures Onward(l, l') && l'.w == MovedTo(l.w, id, InCompensate(CoPrior))
  {
    l' := Go(l, id, Sees(HashFate(l.w.s.dests, l.w.calls[id].mem.destHash)));
    assert l'.w == MovedTo(l.w, id, InRepair(ReEscrow));
    l' := Go(l', id, OK);
  }

  /** The world after a call has sent a make-good. */
  function Sent(w: World, id: nat): World
    requires id < |w.calls|
  {
    var k := w.calls[id];
    World(
      w.s.(comps := w.s.comps + [Pending]),
      w.calls[id := Call(k.entry, InCompensate(CoPersist), k.mem.(compHash := Some(|w.s.comps|)))])
  }

  lemma SendsAgain(l: Leg, id: nat) returns (l': Leg)
    requires Walked(l) && MayAct(l, id) && l.w.calls[id].pc == InRepair(ReDestination)
    requires OwedTo(l.w.s, l.w.calls[id].mem) && Dead(HashFate(l.w.s.comps, l.w.calls[id].mem.compHash))
    ensures Onward(l, l') && l'.w == Sent(l.w, id)
  {
    l' := PassesChecks(l, id);
    l' := Go(l', id, Sees(HashFate(l.w.s.comps, l.w.calls[id].mem.compHash)));
    assert l'.w == MovedTo(l.w, id, InCompensate(CoBroadcast));
    l' := Go(l', id, OK);
  }

  /** The world after a fresh repair has claimed the lease. */
  function Repairing(w: World): World {
    World(
      w.s.(row := w.s.row.(lease := Some(|w.calls|))),
      w.calls + [Call(Repair, InRepair(ReDestination), Remember(w.s.row))])
  }

  /** The rule lets a new repair or reconcile start, and act. */
  predicate MayStart(l: Leg) {
    !l.rule.Smooth? && (l.rule.Calm? ==> AllDone(l.w))
  }

  lemma ClaimRepair(l: Leg) returns (l': Leg)
    requires Walked(l) && l.w.s.row.status == CompensationPending && l.w.s.row.lease == None
    requires MayStart(l)
    ensures Onward(l, l') && l'.w == Repairing(l.w) && MayAct(l', |l.w.calls|)
  {
    var id := |l.w.calls|;
    l' := Do(l, Spawn(Repair));
    l' := Go(l', id, OK);
    assert l'.w == World(l.w.s, l.w.calls + [Call(Repair, InRepair(ReClaim), Remember(l.w.s.row))]);
    l' := Go(l', id, OK);
  }

  // ----- two attempts that both mine ----------------------------------------

  lemma MinesBoth(l: Leg, g: nat, h: nat) returns (l': Leg)
    requires Walked(l) && g < h && Live(l.w.s.comps, g) && Live(l.w.s.comps, h)
    ensures Onward(l, l') && MinedCount(l'.w.s.comps) >= 2
  {
    l' := Do(l, Mine(CompensationTx, g, Mined));
    assert l'.w.s.comps == l.w.s.comps[g := Mined];
    l' := Do(l', Mine(CompensationTx, h, Mined));
    assert l'.w.s.comps == l.w.s.comps[g := Mined][h := Mined];
    TwoAreCounted(l'.w.s.comps, g, h);
  }

  lemma {:induction false} TwoAreCounted(txs: seq<Fate>, g: nat, h: nat)
    requires g < h < |txs| && txs[g] == Mined && txs[h] == Mined
    ensures MinedCount(txs) >= 2
  {
    if h == |txs| - 1 {
      MinedIsCounted(txs[..h], g);
    } else {
      TwoAreCounted(txs[..|txs| - 1], g, h);
    }
  }

  // ----- the conditions are exact -------------------------------------------

  /** A repair let in over a live attempt it does not remember sends a second one. */
  lemma StaleClaimLeads(w: World, a: Action) returns (l: Leg)
    requires WorldOk(w) && AtMostOneLive(w.s) && !ClaimsFreshRow(w, a)
    ensures Walked(l) && l.start == Next(w, a) && MinedCount(l.w.s.comps) >= 2
  {
    var id, h := a.id, w.s.row.compHash.value;
    var k := w.calls[id];
    assert CallOk(w.s, id, k) && Live(w.s.comps, h);
    l := Begin(Next(w, a), Any);
    assert l.w == World(w.s.(row := w.s.row.(lease := Some(id))), w.calls[id := k.(pc := InRepair(ReDestination))]);
    AttemptsAreDead(w.s, k.mem);
    assert LiveHash(w.s.comps, k.mem.compHash) ==> Live(w.s.comps, k.mem.compHash.value);
    l := SendsAgain(l, id);
    assert Live(l.w.s.comps, h) && Live(l.w.s.comps, |w.s.comps|);
    l := MinesBoth(l, h, |w.s.comps|);
  }

  lemma AttemptsAreDead(s: Shared, mem: Memory)
    requires SharedOk(s) && s.row.status == CompensationPending && HashIn(mem.destHash, s.dests)
    ensures OwedTo(s, mem)
  {
  }

  /** A live attempt is only possible while the sender is owed or repaid. */
  lemma LiveMeansOwed(s: Shared, h: nat)
    requires SharedOk(s) && Live(s.comps, h) && s.row.lease != None
    ensures s.row.status == CompensationPending
  {
  }

  /** A lease freed over an unsaved live attempt lets the next repair send a second one. */
  lemma UnsavedAttemptLeads(w: World, a: Action) returns (l: Leg)
    requires WorldOk(w) && AtMostOneLive(w.s) && !LeavesAttemptSaved(w, a)
    ensures Walked(l) && l.start == Next(w, a) && MinedCount(l.w.s.comps) >= 2
  {
    var id, n := a.id, |w.s.comps|;
    var h := w.calls[id].mem.compHash.value;
    assert Live(w.s.comps, h);
    LiveMeansOwed(w.s, h);
    l := Begin(Next(w, a), Any);
    assert l.w.s == w.s.(row := w.s.row.(lease := None));
    l := ClaimRepair(l);
    AttemptsAreDead(w.s, Remember(w.s.row));
    assert LiveHash(w.s.comps, w.s.row.compHash) ==> Live(w.s.comps, w.s.row.compHash.value);
    l := SendsAgain(l, |w.calls|);
    assert Live(l.w.s.comps, h) && Live(l.w.s.comps, n);
    l := MinesBoth(l, h, n);
  }

  /** The two conditions decide compensated-at-most-once exactly: after any disciplined run,
      an action meets them if and only if no disciplined continuation of it, however long,
      mines a second make-good. */
  lemma DisciplineIsExact(cfg: Config, run: seq<Action>, a: Action)
    requires DisciplinedRun(Start(cfg), run)
    ensures var w := Run(Start(cfg), run);
      Disciplined(w, a) <==>
      forall more: seq<Action> :: DisciplinedRun(Next(w, a), more) ==> MinedCount(Run(Next(w, a), more).s.comps) <= 1
  {
    var w := Run(Start(cfg), run);
    Reachable(cfg, run);
    NothingLiveAtStart(cfg);
    RunOnce(Start(cfg), run);
    if Disciplined(w, a) {
      NextKeepsWorld(w, a);
      NextOnce(w, a);
      forall more: seq<Action> | DisciplinedRun(Next(w, a), more)
        ensures MinedCount(Run(Next(w, a), more).s.comps) <= 1
      {
        RunOnce(Next(w, a), more);
        OneLiveCountsOnce(Run(Next(w, a), more).s.comps);
      }
    } else {
      var l := SecondPayment(w, a);
      AllowedIsDisciplined(l.start, l.run, l.rule);
      assert DisciplinedRun(Next(w, a), l.run) && MinedCount(Run(Next(w, a), l.run).s.comps) >= 2;
    }
  }

  lemma SecondPayment(w: World, a: Action) returns (l: Leg)
    requires WorldOk(w) && AtMostOneLive(w.s) && !Disciplined(w, a)
    ensures Walked(l) && l.start == Next(w, a) && MinedCount(l.w.s.comps) >= 2
  {
    if !ClaimsFreshRow(w, a) {
      l := StaleClaimLeads(w, a);
    } else {
      l := UnsavedAttemptLeads(w, a);
    }
  }
}
