/** What an operator can still finish: exactly which reachable payments some run of repairs
    and reconciles brings to a terminal status. */
module SagaResolve {
  import opened Options
  import opened PaymentState
  import opened SagaModel
  import opened SagaInvariant
  import opened SagaSteps
  import opened SagaTheorems
  import opened SagaLegs
  import opened SagaProgress
  import opened SagaRecovery

  /** What an operator can bring about without the calls before the n-th: new repairs and
      reconciles, and time for transactions to meet their fate. */
  predicate OperatorAction(a: Action, n: nat) {
    match a
    case Spawn(entry) => entry != Execute
    case Advance(id, _) => id >= n
    case Mine(_, _, _) => true
    case Route(_, _) => false
  }

  predicate OperatorRun(run: seq<Action>, n: nat) {
    forall i :: 0 <= i < |run| ==> OperatorAction(run[i], n)
  }

  /** New repairs and reconciles, however their awaits end and transactions fare, can bring
      the payment to a terminal status; the calls already there do nothing more. */
  ghost predicate Resolvable(w: World) {
    exists run: seq<Action> :: OperatorRun(run, |w.calls|) && Terminal(Run(w, run).s.row.status)
  }

  /** The payment is finished, or its lease is free and a repair or a reconcile would not
      refuse it. */
  predicate WithinReach(row: Row) {
    || Terminal(row.status)
    || (row.lease == None
        && (row.status == CompensationPending || (row.status == PayoutPending && row.destHash.Some?)))
  }

  // ----- out of reach: nothing an operator starts gets past its claim -------

  /** The calls from the n-th on have read the row at most. */
  ghost predicate OnlyLooking(w: World, n: nat, row: Row) {
    && n <= |w.calls| && w.s.row == row
    && forall i :: n <= i < |w.calls| ==> Looking(w.calls[i], row)
  }

  predicate Looking(k: Call, row: Row) {
    || k.pc in {InRepair(ReRead), InReconcile(RcRead)} || k.pc.Done?
    || (row.lease != None && k.pc in {InRepair(ReClaim), InReconcile(RcClaimPayout), InReconcile(RcClaimCompensation)})
  }

  lemma LookingChangesNothing(s: Shared, id: nat, k: Call, how: How)
    requires Looking(k, s.row) && !WithinReach(s.row)
    ensures var out := StepCall(s, id, k, how); out.s == s && Looking(out.call, s.row)
  {
  }

  lemma MiningKeepsTheRow(s: Shared, kind: TxKind, i: nat, fate: Fate)
    ensures MineTx(s, kind, i, fate).row == s.row
  {
  }

  lemma OperatorKeepsLooking(w: World, n: nat, row: Row, a: Action)
    requires OnlyLooking(w, n, row) && !WithinReach(row) && OperatorAction(a, n)
    ensures OnlyLooking(Next(w, a), n, row)
  {
    match a
    case Spawn(entry) =>
    case Advance(id, how) =>
      if id < |w.calls| {
        LookingChangesNothing(w.s, id, w.calls[id], how);
      }
    case Mine(kind, i, fate) => MiningKeepsTheRow(w.s, kind, i, fate);
    case Route(to, quoted) =>
  }

  lemma {:induction false} OperatorNeverGetsThere(w: World, n: nat, row: Row, run: seq<Action>)
    requires OnlyLooking(w, n, row) && !WithinReach(row) && OperatorRun(run, n)
    ensures Run(w, run).s.row == row
    decreases |run|
  {
    if run != [] {
      OperatorKeepsLooking(w, n, row, run[0]);
      OperatorNeverGetsThere(Next(w, run[0]), n, row, run[1..]);
    }
  }

  // ----- within reach: a run that gets there --------------------------------

  lemma {:induction false} RunConcat(w: World, run: seq<Action>, more: seq<Action>)
    ensures Run(w, run + more) == Run(Run(w, run), more)
    decreases |run|
  {
    if run == [] {
      assert run + more == more;
    } else {
      assert (run + more)[1..] == run[1..] + more;
      RunConcat(Next(w, run[0]), run[1..], more);
    }
  }

  /** A payment whose sender is owed: one repair. */
  lemma OwedIsFinished(w: World, n: nat) returns (run: seq<Action>)
    requires WorldOk(w) && n <= |w.calls|
    requires w.s.row.status == CompensationPending && w.s.row.lease == None
    ensures OperatorRun(run, n) && Terminal(Run(w, run).s.row.status)
  {
    var l := RepairRepays(w);
    AllowedIsSmooth(l.start, l.run, |w.calls|);
    run := [Spawn(Repair)] + l.run;
    assert run[1..] == l.run;
  }

  /** A payment whose payout has met its fate: one reconcile, and a repair if it failed. */
  lemma DecidedIsFinished(w: World, n: nat) returns (run: seq<Action>)
    requires WorldOk(w) && n <= |w.calls|
    requires w.s.row.status == PayoutPending && w.s.row.destHash.Some? && w.s.row.lease == None
    requires AttemptFate(w.s) != Pending
    ensures OperatorRun(run, n) && Terminal(Run(w, run).s.row.status)
  {
    var l := ReconcileDecides(w);
    AllowedIsSmooth(l.start, l.run, |w.calls|);
    run := [Spawn(Reconcile)] + l.run;
    assert run[1..] == l.run;
    if AttemptFate(w.s) != Mined {
      RunKeepsWorld(l.start, l.run);
      var rest := OwedIsFinished(l.w, n);
      RunConcat(w, run, rest);
      run := run + rest;
    }
  }

  lemma AttemptedIsFinished(w: World, n: nat) returns (run: seq<Action>)
    requires WorldOk(w) && n <= |w.calls|
    requires w.s.row.status == PayoutPending && w.s.row.destHash.Some? && w.s.row.lease == None
    ensures OperatorRun(run, n) && Terminal(Run(w, run).s.row.status)
  {
    if AttemptFate(w.s) == Pending {
      var first := Mine(DestinationTx, w.s.row.destHash.value, Mined);
      NextKeepsWorld(w, first);
      run := DecidedIsFinished(Next(w, first), n);
      assert ([first] + run)[1..] == run;
      run := [first] + run;
    } else {
      run := DecidedIsFinished(w, n);
    }
  }

  /** Exactly what an operator can finish. Out of reach for good: a payment whose payout was
      never attempted or lost its hash, one that failed with its escrow unresolved, one that
      threw before its payout, and any whose lease was leaked. */
  lemma ResolvableExactly(cfg: Config, run: seq<Action>)
    ensures var w := Run(Start(cfg), run); Resolvable(w) <==> WithinReach(w.s.row)
  {
    Reachable(cfg, run);
    var w := Run(Start(cfg), run);
    if WithinReach(w.s.row) {
      var more := ReachTerminal(w);
    } else {
      forall more: seq<Action> | OperatorRun(more, |w.calls|) ensures !Terminal(Run(w, more).s.row.status) {
        OperatorNeverGetsThere(w, |w.calls|, w.s.row, more);
      }
    }
  }

  lemma ReachTerminal(w: World) returns (run: seq<Action>)
    requires WorldOk(w) && WithinReach(w.s.row)
    ensures OperatorRun(run, |w.calls|) && Terminal(Run(w, run).s.row.status)
  {
    if w.s.row.status == CompensationPending {
      run := OwedIsFinished(w, |w.calls|);
    } else if w.s.row.status == PayoutPending {
      run := AttemptedIsFinished(w, |w.calls|);
    } else {
      run := [];
    }
  }
}
