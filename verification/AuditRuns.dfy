/** Concurrent transactions on the audit tables. Statements of different transactions
    interleave; a statement sees what is committed and its own transaction's writes; the
    advisory lock is taken before the tip is read and held to the end of the transaction. */
module AuditRuns {
  import opened Options
  import opened Audit

  /** The statement a transaction is about to run. */
  datatype Pc =
    | Open
    | ReadsTip(entry: Entry)
    | Inserts(entry: Entry, prevHash: string)
    | ReadsAnchor(created: Event)
    | Counts(created: Event, lastAnchor: nat)
    | Signs(tip: Event)
    | AnchorsTip
    | ChecksAnchor(tip: Event)
    | Closed

  /** A transaction with its own uncommitted rows. */
  datatype Tx = Tx(pc: Pc, events: seq<Event>, checkpoints: seq<Checkpoint>)

  datatype World = World(
    events: seq<Event>,
    checkpoints: seq<Checkpoint>,
    nextId: nat,
    lock: Option<nat>,
    txs: seq<Tx>)

  /** A transaction opens, asks for the lock to append or to anchor, runs its next statement,
      and ends either way. */
  datatype Action =
    | Begin
    | Append(id: nat, entry: Entry)
    | Anchor(id: nat)
    | Step(id: nat)
    | Commit(id: nat)
    | Rollback(id: nat)

  /** A row joins a table read in id order, wherever its id puts it. */
  function Insert(es: seq<Event>, e: Event): seq<Event> {
    if es == [] || es[|es| - 1].id < e.id then es + [e] else Insert(es[..|es| - 1], e) + [es[|es| - 1]]
  }

  /** The events a transaction sees: the committed ones and its own. */
  function View(es: seq<Event>, own: seq<Event>): seq<Event> {
    if own == [] then es else Insert(View(es, own[..|own| - 1]), own[|own| - 1])
  }

  /** Taking the lock: granted if free or already held, otherwise the transaction waits. With
      the lock switched off every transaction goes ahead. */
  function TakeLock(w: World, id: nat, locks: bool, pc: Pc): World
    requires id < |w.txs|
  {
    if w.txs[id].pc != Open || (locks && w.lock.Some? && w.lock != Some(id)) then w
    else w.(lock := if locks then Some(id) else None, txs := w.txs[id := w.txs[id].(pc := pc)])
  }

  function Finish(w: World, id: nat): World
    requires id < |w.txs|
  {
    w.(lock := if w.lock == Some(id) then None else w.lock, txs := w.txs[id := Tx(Closed, [], [])])
  }

  /** Where a statement that only reads leads, given the rows its transaction sees. */
  function Reads(c: Setup, es: seq<Event>, cs: seq<Checkpoint>, pc: Pc): Pc {
    match pc
    case ReadsTip(entry) => Inserts(entry, TipHash(es))
    case ReadsAnchor(e) => if c.key.None? then Open else Counts(e, LastAnchor(cs))
    case Counts(e, last) => if CountAfter(es, last) < c.interval then Open else Signs(e)
    case AnchorsTip => if es == [] then Closed else ChecksAnchor(es[|es| - 1])
    case ChecksAnchor(tip) => if cs != [] && LastAnchor(cs) == tip.id then Open else Signs(tip)
    case _ => pc
  }

  /** The next statement of an append or of an on-demand anchor. */
  function StepTx(c: Setup, w: World, id: nat): World
    requires id < |w.txs|
  {
    var t := w.txs[id];
    var es, cs := View(w.events, t.events), w.checkpoints + t.checkpoints;
    match t.pc
    case Inserts(entry, prevHash) =>
      var e := Event(w.nextId, entry, prevHash, c.sha(Preimage(prevHash, entry)));
      w.(nextId := w.nextId + 1, txs := w.txs[id := t.(pc := ReadsAnchor(e), events := t.events + [e])])
    case Signs(tip) =>
      if c.key.None? then w
      else w.(txs := w.txs[id := t.(pc := Open, checkpoints := t.checkpoints + [CheckpointAt(c, tip)])])
    case _ =>
      // With no event to anchor the call throws and its transaction rolls back.
      if t.pc == AnchorsTip && es == [] then Finish(w, id)
      else w.(txs := w.txs[id := t.(pc := Reads(c, es, cs, t.pc))])
  }

  function Next(c: Setup, locks: bool, w: World, a: Action): World {
    match a
    case Begin => w.(txs := w.txs + [Tx(Open, [], [])])
    case Append(id, entry) => if id < |w.txs| then TakeLock(w, id, locks, ReadsTip(entry)) else w
    case Anchor(id) => if id < |w.txs| && c.key.Some? then TakeLock(w, id, locks, AnchorsTip) else w
    case Step(id) => if id < |w.txs| then StepTx(c, w, id) else w
    case Commit(id) =>
      if id < |w.txs| && w.txs[id].pc == Open then
        Finish(w.(events := View(w.events, w.txs[id].events), checkpoints := w.checkpoints + w.txs[id].checkpoints), id)
      else w
    case Rollback(id) => if id < |w.txs| then Finish(w, id) else w
  }

  function Run(c: Setup, locks: bool, w: World, run: seq<Action>): World
    decreases |run|
  {
    if run == [] then w else Run(c, locks, Next(c, locks, w, run[0]), run[1..])
  }

  const START := World([], [], 1, None, [])

  // ----- the invariant ------------------------------------------------------

  /** What the lock's owner may rely on at each statement. */
  ghost predicate PcOk(c: Setup, es: seq<Event>, cs: seq<Checkpoint>, pc: Pc) {
    match pc
    case Open => true
    case ReadsTip(_) => true
    case Inserts(_, prevHash) => prevHash == TipHash(es)
    case ReadsAnchor(e) => es != [] && e == es[|es| - 1]
    case Counts(e, last) => c.key.Some? && es != [] && e == es[|es| - 1] && last == LastAnchor(cs)
    case Signs(tip) => c.key.Some? && es != [] && tip == es[|es| - 1]
    case AnchorsTip => c.key.Some?
    case ChecksAnchor(tip) => c.key.Some? && es != [] && tip == es[|es| - 1]
    case Closed => false
  }

  /** Between creating an event and anchoring it the count may stand at the interval. */
  function Bound(c: Setup, pc: Pc): nat {
    if pc.ReadsAnchor? || pc.Counts? || pc.Signs? then c.interval + 1 else c.interval
  }

  ghost predicate TxOk(c: Setup, w: World, id: nat)
    requires id < |w.txs|
  {
    var t := w.txs[id];
    if w.lock == Some(id) then
      var es, cs := w.events + t.events, w.checkpoints + t.checkpoints;
      Kept(c, es, cs, w.nextId, Bound(c, t.pc)) && PcOk(c, es, cs, t.pc)
    else t.pc in {Open, Closed} && t.events == [] && t.checkpoints == []
  }

  ghost predicate WorldOk(c: Setup, w: World) {
    && Kept(c, w.events, w.checkpoints, w.nextId, c.interval)
    && (w.lock.Some? ==> w.lock.value < |w.txs|)
    && forall i :: 0 <= i < |w.txs| ==> TxOk(c, w, i)
  }

  /** Under the lock ids are handed out in the order rows commit, so reading in id order is
      reading in order of arrival. */
  lemma {:induction false} ViewAppends(es: seq<Event>, own: seq<Event>)
    requires Ascending(es + own)
    ensures View(es, own) == es + own
  {
    if own == [] {
      assert es + own == es;
    } else {
      var init, last := own[..|own| - 1], own[|own| - 1];
      assert es + own == (es + init) + [last];
      assert Ascending(es + init) by {
        forall i, j | 0 <= i < j < |es + init| ensures (es + init)[i].id < (es + init)[j].id {
          assert (es + own)[i].id < (es + own)[j].id;
        }
      }
      ViewAppends(es, init);
      if es + init != [] {
        assert (es + own)[|es + init| - 1].id < (es + own)[|es + init|].id;
      }
    }
  }

  // The statements of the lock's owner, on the rows it sees.
  ghost predicate OwnerAt(c: Setup, w: World, id: nat) {
    c.interval > 0 && id < |w.txs| && w.lock == Some(id) && TxOk(c, w, id)
  }

  lemma InsertKeepsOwner(c: Setup, w: World, id: nat)
    requires OwnerAt(c, w, id) && w.txs[id].pc.Inserts?
    ensures OwnerAt(c, StepTx(c, w, id), id) && w.nextId <= StepTx(c, w, id).nextId
  {
    var t, t' := w.txs[id], StepTx(c, w, id).txs[id];
    var es, cs := w.events + t.events, w.checkpoints + t.checkpoints;
    AppendKeeps(c, es, cs, w.nextId, c.interval, t.pc.entry);
    assert w.events + t'.events == es + [EventFor(c.sha, es, w.nextId, t.pc.entry)];
  }

  lemma SignKeepsOwner(c: Setup, w: World, id: nat)
    requires OwnerAt(c, w, id) && w.txs[id].pc.Signs?
    ensures OwnerAt(c, StepTx(c, w, id), id)
  {
    var t, t' := w.txs[id], StepTx(c, w, id).txs[id];
    var es, cs := w.events + t.events, w.checkpoints + t.checkpoints;
    AnchorKeeps(c, es, cs, w.nextId, c.interval + 1, c.interval);
    assert w.checkpoints + t'.checkpoints == cs + [CheckpointAt(c, t.pc.tip)];
  }

  lemma ReadsWell(c: Setup, es: seq<Event>, cs: seq<Checkpoint>, pc: Pc)
    requires PcOk(c, es, cs, pc) && !(pc == AnchorsTip && es == [])
    requires c.key.Some? ==> Since(es, cs) < Bound(c, pc)
    requires !pc.Inserts? && !pc.Signs?
    ensures var pc' := Reads(c, es, cs, pc); PcOk(c, es, cs, pc') && (c.key.Some? ==> Since(es, cs) < Bound(c, pc'))
  {
  }

  /** A statement that only reads sees the rows it relies on. */
  lemma ReadKeepsOwner(c: Setup, w: World, id: nat)
    requires OwnerAt(c, w, id) && !w.txs[id].pc.Inserts? && !w.txs[id].pc.Signs?
    requires StepTx(c, w, id) != Finish(w, id)
    ensures OwnerAt(c, StepTx(c, w, id), id) && StepTx(c, w, id).nextId == w.nextId
  {
    var t, t' := w.txs[id], StepTx(c, w, id).txs[id];
    ViewAppends(w.events, t.events);
    ReadsWell(c, w.events + t.events, w.checkpoints + t.checkpoints, t.pc);
    assert t' == t.(pc := Reads(c, w.events + t.events, w.checkpoints + t.checkpoints, t.pc));
  }

  lemma OwnerSteps(c: Setup, w: World, id: nat)
    requires OwnerAt(c, w, id) && StepTx(c, w, id) != Finish(w, id)
    ensures var w' := StepTx(c, w, id); TxOk(c, w', id) && w.nextId <= w'.nextId
  {
    if w.txs[id].pc.Inserts? {
      InsertKeepsOwner(c, w, id);
    } else if w.txs[id].pc.Signs? {
      SignKeepsOwner(c, w, id);
    } else {
      ReadKeepsOwner(c, w, id);
    }
  }

  /** A transaction that does not hold the lock has nothing to run. */
  lemma OthersWait(c: Setup, w: World, id: nat)
    requires WorldOk(c, w) && id < |w.txs| && w.lock != Some(id)
    ensures StepTx(c, w, id) == w
  {
    assert TxOk(c, w, id);
  }

  lemma FinishKeepsWorld(c: Setup, w: World, id: nat)
    requires WorldOk(c, w) && id < |w.txs|
    ensures WorldOk(c, Finish(w, id))
  {
    var w' := Finish(w, id);
    forall i | 0 <= i < |w'.txs| ensures TxOk(c, w', i) {
      assert TxOk(c, w, i);
    }
  }

  /** Only the owner's own entry and the id counter change. */
  lemma StepIsLocal(c: Setup, w: World, id: nat)
    requires id < |w.txs|
    ensures var w' := StepTx(c, w, id);
      || w' == Finish(w, id)
      || (&& w'.events == w.events && w'.checkpoints == w.checkpoints && w'.lock == w.lock && |w'.txs| == |w.txs|
          && forall i :: 0 <= i < |w.txs| && i != id ==> w'.txs[i] == w.txs[i])
  {
  }

  lemma StepKeepsWorld(c: Setup, w: World, id: nat)
    requires c.interval > 0 && WorldOk(c, w) && id < |w.txs|
    ensures WorldOk(c, StepTx(c, w, id))
  {
    var w' := StepTx(c, w, id);
    assert TxOk(c, w, id);
    if w.lock != Some(id) {
      OthersWait(c, w, id);
    } else if w' == Finish(w, id) {
      FinishKeepsWorld(c, w, id);
    } else {
      StepIsLocal(c, w, id);
      OwnerSteps(c, w, id);
      KeptWithMoreIds(c, w.events, w.checkpoints, w.nextId, w'.nextId, c.interval);
      forall i | 0 <= i < |w'.txs| ensures TxOk(c, w', i) {
        assert TxOk(c, w, i);
      }
    }
  }

  /** A commit publishes what the owner saw, and nothing for anyone else. */
  lemma CommitPublishes(c: Setup, w: World, id: nat)
    requires c.interval > 0 && WorldOk(c, w) && id < |w.txs| && w.txs[id].pc == Open
    ensures var t, w' := w.txs[id], Next(c, true, w, Commit(id));
      && w'.events == w.events + t.events && w'.checkpoints == w.checkpoints + t.checkpoints
      && Kept(c, w'.events, w'.checkpoints, w'.nextId, c.interval)
  {
    assert TxOk(c, w, id);
    if w.lock == Some(id) {
      ViewAppends(w.events, w.txs[id].events);
    } else {
      assert w.events + [] == w.events && w.checkpoints + [] == w.checkpoints;
    }
  }

  lemma CommitKeepsWorld(c: Setup, w: World, id: nat)
    requires c.interval > 0 && WorldOk(c, w) && id < |w.txs| && w.txs[id].pc == Open
    ensures WorldOk(c, Next(c, true, w, Commit(id)))
  {
    var t, w' := w.txs[id], Next(c, true, w, Commit(id));
    CommitPublishes(c, w, id);
    forall i | 0 <= i < |w'.txs| ensures TxOk(c, w', i) {
      assert TxOk(c, w, i) && TxOk(c, w, id);
      if w'.lock == Some(i) {
        assert t.events == [] && t.checkpoints == [];
        assert w'.events == w.events && w'.checkpoints == w.checkpoints && w'.txs[i] == w.txs[i];
      }
    }
  }

  lemma LockKeepsWorld(c: Setup, w: World, id: nat, pc: Pc)
    requires c.interval > 0 && WorldOk(c, w) && id < |w.txs| && (pc.ReadsTip? || (pc.AnchorsTip? && c.key.Some?))
    ensures WorldOk(c, TakeLock(w, id, true, pc))
  {
    var w' := TakeLock(w, id, true, pc);
    forall i | 0 <= i < |w'.txs| ensures TxOk(c, w', i) {
      assert TxOk(c, w, i);
      if i == id && w' != w {
        assert w.lock == None ==> w.events + [] == w.events && w.checkpoints + [] == w.checkpoints;
      }
    }
  }

  lemma NextKeepsWorld(c: Setup, w: World, a: Action)
    requires c.interval > 0 && WorldOk(c, w)
    ensures WorldOk(c, Next(c, true, w, a))
  {
    match a
    case Begin =>
      forall i | 0 <= i < |w.txs| ensures TxOk(c, Next(c, true, w, a), i) {
        assert TxOk(c, w, i);
      }
    case Append(id, entry) =>
      if id < |w.txs| {
        LockKeepsWorld(c, w, id, ReadsTip(entry));
      }
    case Anchor(id) =>
      if id < |w.txs| && c.key.Some? {
        LockKeepsWorld(c, w, id, AnchorsTip);
      }
    case Step(id) =>
      if id < |w.txs| {
        StepKeepsWorld(c, w, id);
      }
    case Commit(id) =>
      if id < |w.txs| && w.txs[id].pc == Open {
        CommitKeepsWorld(c, w, id);
      }
    case Rollback(id) =>
      if id < |w.txs| {
        FinishKeepsWorld(c, w, id);
      }
  }

  lemma {:induction false} RunKeepsWorld(c: Setup, w: World, run: seq<Action>)
    requires c.interval > 0 && WorldOk(c, w)
    ensures WorldOk(c, Run(c, true, w, run))
    decreases |run|
  {
    if run != [] {
      NextKeepsWorld(c, w, run[0]);
      RunKeepsWorld(c, Next(c, true, w, run[0]), run[1..]);
    }
  }

  // ----- what follows -------------------------------------------------------

  /** Under any interleaving of appends, on-demand anchors, commits and rollbacks the
      committed log is one unforked chain in id order, every committed checkpoint names a
      committed event with its hash and is rightly signed, and with a key the newest anchor
      is on one of the last `interval` events once there are that many. */
  lemma CommittedLogIsOneChain(c: Setup, run: seq<Action>)
    requires c.interval > 0
    ensures var w := Run(c, true, START, run);
      && Chained(c.sha, w.events) && Ascending(w.events)
      && Backed(c, w.events, w.checkpoints)
      && (c.key.Some? ==> AnchoredWithin(w.events, w.checkpoints, c.interval))
  {
    assert Chained(c.sha, []);
    RunKeepsWorld(c, START, run);
    var w := Run(c, true, START, run);
    SinceIsDistance(c, w.events, w.checkpoints, w.nextId, c.interval);
  }

  /** Nothing committed is ever changed or removed. */
  lemma NextOnlyGrows(c: Setup, w: World, a: Action)
    requires c.interval > 0 && WorldOk(c, w)
    ensures w.events <= Next(c, true, w, a).events && w.checkpoints <= Next(c, true, w, a).checkpoints
  {
    if a.Commit? && a.id < |w.txs| && w.txs[a.id].pc == Open {
      CommitPublishes(c, w, a.id);
    }
  }

  lemma {:induction false} RunOnlyGrows(c: Setup, w: World, run: seq<Action>)
    requires c.interval > 0 && WorldOk(c, w)
    ensures var w' := Run(c, true, w, run); w.events <= w'.events && w.checkpoints <= w'.checkpoints
    decreases |run|
  {
    if run != [] {
      NextKeepsWorld(c, w, run[0]);
      NextOnlyGrows(c, w, run[0]);
      RunOnlyGrows(c, Next(c, true, w, run[0]), run[1..]);
    }
  }

  /** No false alarm: a verification that reads the events, later the newest checkpoint and
      later still the event it names passes, whatever commits in between. */
  lemma NoFalseAlarm(c: Setup, before: seq<Action>, between: seq<Action>, after: seq<Action>)
    requires c.interval > 0
    ensures var w1 := Run(c, true, START, before);
      var w2 := Run(c, true, w1, between);
      var w3 := Run(c, true, w2, after);
      Verdict(c, w1.events, w2.checkpoints, w3.events).valid
  {
    assert Chained(c.sha, []);
    RunKeepsWorld(c, START, before);
    var w1 := Run(c, true, START, before);
    RunKeepsWorld(c, w1, between);
    var w2 := Run(c, true, w1, between);
    RunKeepsWorld(c, w2, after);
    RunOnlyGrows(c, w2, after);
    KeptVerifies(c, w1.events, w2.events, w2.checkpoints, Run(c, true, w2, after).events);
  }

  // ----- one append under the lock ------------------------------------------

  lemma RunConcat(c: Setup, locks: bool, w: World, a: seq<Action>, b: seq<Action>)
    ensures Run(c, locks, w, a + b) == Run(c, locks, Run(c, locks, w, a), b)
    decreases |a|
  {
    if a == [] {
      assert a + b == b;
    } else {
      assert (a + b)[1..] == a[1..] + b;
      RunConcat(c, locks, Next(c, locks, w, a[0]), a[1..], b);
    }
  }

  lemma OneIsRun(c: Setup, locks: bool, w: World, a: Action)
    ensures Run(c, locks, w, [a]) == Next(c, locks, w, a)
  {
    assert [a][1..] == [];
  }

  lemma TwoIsRun(c: Setup, locks: bool, w: World, a: Action, b: Action)
    ensures Run(c, locks, w, [a, b]) == Next(c, locks, Next(c, locks, w, a), b)
  {
    OneIsRun(c, locks, Next(c, locks, w, a), b);
    assert [a, b][1..] == [b];
  }

  lemma ThreeIsRun(c: Setup, locks: bool, w: World, a: Action, b: Action, d: Action)
    ensures Run(c, locks, w, [a, b, d]) == Next(c, locks, Next(c, locks, Next(c, locks, w, a), b), d)
  {
    TwoIsRun(c, locks, Next(c, locks, w, a), b, d);
    assert [a, b, d][1..] == [b, d];
  }

  /** The world with one more transaction, which holds the lock. */
  function Alone(w: World, nextId: nat, tx: Tx): World {
    w.(nextId := nextId, lock := Some(|w.txs|), txs := w.txs + [tx])
  }

  /** A transaction that appends one event and commits; the statements after its insert check
      for an anchor and write it, and are nothing once that is done. */
  function AppendRun(n: nat, entry: Entry): seq<Action> {
    [Begin, Append(n, entry), Step(n)] + ([Step(n), Step(n), Step(n)] + [Step(n), Commit(n)])
  }

  lemma AppendStarts(c: Setup, w: World, entry: Entry)
    requires w.lock == None
    ensures var n := |w.txs|;
      Run(c, true, w, [Begin, Append(n, entry), Step(n)])
      == Alone(w, w.nextId, Tx(Inserts(entry, TipHash(w.events)), [], []))
  {
    var n := |w.txs|;
    ThreeIsRun(c, true, w, Begin, Append(n, entry), Step(n));
    var w1 := Next(c, true, w, Begin);
    assert Next(c, true, w1, Append(n, entry)).txs == w.txs + [Tx(ReadsTip(entry), [], [])];
    assert Run(c, true, w, [Begin, Append(n, entry), Step(n)]).txs
      == w.txs + [Tx(Inserts(entry, TipHash(w.events)), [], [])];
  }

  /** Whether the event just inserted is to be signed. */
  predicate Due(c: Setup, w: World, e: Event) {
    c.key.Some? && CountAfter(w.events + [e], LastAnchor(w.checkpoints)) >= c.interval
  }

  lemma AppendInserts(c: Setup, w: World, entry: Entry, e: Event)
    requires e == EventFor(c.sha, w.events, w.nextId, entry) && View(w.events, [e]) == w.events + [e]
    ensures var n := |w.txs|;
      Run(c, true, Alone(w, w.nextId, Tx(Inserts(entry, TipHash(w.events)), [], [])), [Step(n), Step(n), Step(n)])
      == Alone(w, w.nextId + 1, Tx(if Due(c, w, e) then Signs(e) else Open, [e], []))
  {
    var n := |w.txs|;
    var w0 := Alone(w, w.nextId, Tx(Inserts(entry, TipHash(w.events)), [], []));
    ThreeIsRun(c, true, w0, Step(n), Step(n), Step(n));
    assert [] + [e] == [e];
    assert Next(c, true, w0, Step(n)).txs == Alone(w, w.nextId + 1, Tx(ReadsAnchor(e), [e], [])).txs;
    AppendChecks(c, w, e);
  }

  /** The two reads that look for an anchor. */
  lemma AppendChecks(c: Setup, w: World, e: Event)
    requires View(w.events, [e]) == w.events + [e]
    ensures var n, w1 := |w.txs|, Alone(w, w.nextId + 1, Tx(ReadsAnchor(e), [e], []));
      Next(c, true, Next(c, true, w1, Step(n)), Step(n))
      == Alone(w, w.nextId + 1, Tx(if Due(c, w, e) then Signs(e) else Open, [e], []))
  {
    var n, w1 := |w.txs|, Alone(w, w.nextId + 1, Tx(ReadsAnchor(e), [e], []));
    assert w.checkpoints + [] == w.checkpoints;
    var pc := if c.key.None? then Open else Counts(e, LastAnchor(w.checkpoints));
    var w2 := Alone(w, w.nextId + 1, Tx(pc, [e], []));
    assert Next(c, true, w1, Step(n)).txs == w2.txs;
    var w3 := Alone(w, w.nextId + 1, Tx(if Due(c, w, e) then Signs(e) else Open, [e], []));
    assert Next(c, true, w2, Step(n)).txs == w3.txs;
  }

  /** A transaction with one anchor to sign, or none, signs it and commits. */
  lemma SignsAndCommits(c: Setup, w: World, nextId: nat, own: seq<Event>, tip: Event, due: bool)
    requires (due ==> c.key.Some?) && View(w.events, own) == w.events + own
    ensures var n := |w.txs|;
      var w' := Run(c, true, Alone(w, nextId, Tx(if due then Signs(tip) else Open, own, [])), [Step(n), Commit(n)]);
      && w'.events == w.events + own && w'.nextId == nextId && w'.lock == None
      && w'.checkpoints == w.checkpoints + if due then [CheckpointAt(c, tip)] else []
  {
    var n := |w.txs|;
    var w0 := Alone(w, nextId, Tx(if due then Signs(tip) else Open, own, []));
    TwoIsRun(c, true, w0, Step(n), Commit(n));
    var signed := if due then [CheckpointAt(c, tip)] else [];
    assert [] + signed == signed;
    assert Next(c, true, w0, Step(n)).txs == Alone(w, nextId, Tx(Open, own, signed)).txs;
  }

  /** Statement by statement, under the lock, an append is the append of the whole log: after
      every run that leaves the lock free, one new transaction that appends and commits adds
      its one event, linked to the tip, and an anchor exactly when the newest one is no longer
      on one of the last `interval` events. */
  lemma LockedAppendIsAppend(c: Setup, run: seq<Action>, entry: Entry)
    requires c.interval > 0 && Run(c, true, START, run).lock == None
    ensures var w := Run(c, true, START, run);
      var w', e := Run(c, true, w, AppendRun(|w.txs|, entry)), EventFor(c.sha, w.events, w.nextId, entry);
      && w'.events == w.events + [e] && w'.nextId == w.nextId + 1 && w'.lock == None
      && w'.checkpoints == w.checkpoints +
           if c.key.Some? && !AnchoredWithin(w'.events, w.checkpoints, c.interval) then [CheckpointAt(c, e)] else []
  {
    assert Chained(c.sha, []);
    RunKeepsWorld(c, START, run);
    var w := Run(c, true, START, run);
    var n, e := |w.txs|, EventFor(c.sha, w.events, w.nextId, entry);
    AppendKeeps(c, w.events, w.checkpoints, w.nextId, c.interval, entry);
    SinceIsDistance(c, w.events + [e], w.checkpoints, w.nextId + 1, c.interval);
    RunConcat(c, true, w, [Begin, Append(n, entry), Step(n)], [Step(n), Step(n), Step(n)] + [Step(n), Commit(n)]);
    AppendStarts(c, w, entry);
    RunConcat(c, true, Alone(w, w.nextId, Tx(Inserts(entry, TipHash(w.events)), [], [])),
      [Step(n), Step(n), Step(n)], [Step(n), Commit(n)]);
    ViewAppends(w.events, [e]);
    AppendInserts(c, w, entry, e);
    SignsAndCommits(c, w, w.nextId + 1, [e], e, Due(c, w, e));
  }

  /** And so is an on-demand anchor: one new transaction signs the tip, unless the newest
      anchor is already there. */
  lemma LockedAnchorIsAnchor(c: Setup, run: seq<Action>)
    requires c.interval > 0 && c.key.Some?
    requires Run(c, true, START, run).lock == None && Run(c, true, START, run).events != []
    ensures var w := Run(c, true, START, run);
      var w' := Run(c, true, w, AnchorRun(|w.txs|));
      && w'.events == w.events && w'.nextId == w.nextId && w'.lock == None
      && w'.checkpoints == w.checkpoints +
           if AnchoredWithin(w.events, w.checkpoints, 1) then [] else [CheckpointAt(c, w.events[|w.events| - 1])]
  {
    assert Chained(c.sha, []);
    RunKeepsWorld(c, START, run);
    var w, n := Run(c, true, START, run), |Run(c, true, START, run).txs|;
    RunConcat(c, true, w, [Begin, Anchor(n), Step(n)], [Step(n)] + [Step(n), Commit(n)]);
    var tip := w.events[|w.events| - 1];
    TipIsDue(c, w);
    AnchorStarts(c, w);
    RunConcat(c, true, Alone(w, w.nextId, Tx(ChecksAnchor(tip), [], [])), [Step(n)], [Step(n), Commit(n)]);
    AnchorChecks(c, w, tip);
    assert w.events + [] == w.events;
    SignsAndCommits(c, w, w.nextId, [], tip, !AnchoredWithin(w.events, w.checkpoints, 1));
  }

  function AnchorRun(n: nat): seq<Action> {
    [Begin, Anchor(n), Step(n)] + ([Step(n)] + [Step(n), Commit(n)])
  }

  lemma TipIsDue(c: Setup, w: World)
    requires InOrder(c, w.events, w.nextId) && w.events != []
    ensures var tip := w.events[|w.events| - 1];
      AnchoredWithin(w.events, w.checkpoints, 1) <==> w.checkpoints != [] && LastAnchor(w.checkpoints) == tip.id
  {
  }

  lemma AnchorStarts(c: Setup, w: World)
    requires w.lock == None && c.key.Some? && w.events != []
    ensures var n := |w.txs|;
      Run(c, true, w, [Begin, Anchor(n), Step(n)])
      == Alone(w, w.nextId, Tx(ChecksAnchor(w.events[|w.events| - 1]), [], []))
  {
    var n := |w.txs|;
    ThreeIsRun(c, true, w, Begin, Anchor(n), Step(n));
    assert Next(c, true, Next(c, true, w, Begin), Anchor(n)).txs == w.txs + [Tx(AnchorsTip, [], [])];
    assert Run(c, true, w, [Begin, Anchor(n), Step(n)]).txs
      == w.txs + [Tx(ChecksAnchor(w.events[|w.events| - 1]), [], [])];
  }

  lemma AnchorChecks(c: Setup, w: World, tip: Event)
    ensures var n := |w.txs|;
      var there := w.checkpoints != [] && LastAnchor(w.checkpoints) == tip.id;
      Run(c, true, Alone(w, w.nextId, Tx(ChecksAnchor(tip), [], [])), [Step(n)])
      == Alone(w, w.nextId, Tx(if there then Open else Signs(tip), [], []))
  {
    var n, w0 := |w.txs|, Alone(w, w.nextId, Tx(ChecksAnchor(tip), [], []));
    OneIsRun(c, true, w0, Step(n));
    assert w.checkpoints + [] == w.checkpoints;
    var there := w.checkpoints != [] && LastAnchor(w.checkpoints) == tip.id;
    assert Next(c, true, w0, Step(n)).txs == Alone(w, w.nextId, Tx(if there then Open else Signs(tip), [], [])).txs;
  }

  // ----- without the lock ---------------------------------------------------

  /** Two new transactions, each reading the tip before the other commits; the third to fifth
      statement of each is its check for an anchor, and nothing once that is done. */
  function Race(n: nat, e: Entry, f: Entry): seq<Action> {
    [Begin, Begin, Append(n, e)] + ([Append(n + 1, f), Step(n), Step(n + 1)] + ([Step(n), Step(n + 1)] + Rest(n)))
  }

  function Rest(n: nat): seq<Action> {
    [Step(n), Step(n), Step(n)] + ([Step(n + 1), Step(n + 1), Step(n + 1)] + [Commit(n), Commit(n + 1)])
  }

  /** From its insert an append is at rest after three more statements, with or without a
      key, having written no further event. */
  lemma AppendRests(c: Setup, w: World, id: nat)
    requires id < |w.txs| && w.txs[id].pc.ReadsAnchor?
    ensures var w' := Run(c, false, w, [Step(id), Step(id), Step(id)]);
      && w'.events == w.events && w'.nextId == w.nextId && |w'.txs| == |w.txs|
      && w'.txs[id].pc == Open && w'.txs[id].events == w.txs[id].events
      && forall i :: 0 <= i < |w.txs| && i != id ==> w'.txs[i] == w.txs[i]
  {
    ThreeIsRun(c, false, w, Step(id), Step(id), Step(id));
    var w1 := Next(c, false, w, Step(id));
    assert w1.txs[id].events == w.txs[id].events && (w1.txs[id].pc == Open || (w1.txs[id].pc.Counts? && c.key.Some?));
    var w2 := Next(c, false, w1, Step(id));
    assert w2.txs[id].events == w.txs[id].events && (w2.txs[id].pc == Open || (w2.txs[id].pc.Signs? && c.key.Some?));
  }

  /** The world with two more transactions. */
  function With(w: World, nextId: nat, first: Tx, second: Tx): World {
    w.(nextId := nextId, lock := None, txs := w.txs + [first, second])
  }

  lemma RaceStarts(c: Setup, w: World, e: Entry, f: Entry)
    ensures var n, tip := |w.txs|, TipHash(w.events);
      Run(c, false, Run(c, false, w, [Begin, Begin, Append(n, e)]), [Append(n + 1, f), Step(n), Step(n + 1)])
      == With(w, w.nextId, Tx(Inserts(e, tip), [], []), Tx(Inserts(f, tip), [], []))
  {
    var n := |w.txs|;
    var w1 := With(w, w.nextId, Tx(ReadsTip(e), [], []), Tx(Open, [], []));
    ThreeIsRun(c, false, w, Begin, Begin, Append(n, e));
    assert Run(c, false, w, [Begin, Begin, Append(n, e)]).txs == w1.txs;
    ThreeIsRun(c, false, w1, Append(n + 1, f), Step(n), Step(n + 1));
    var w2 := With(w, w.nextId, Tx(ReadsTip(e), [], []), Tx(ReadsTip(f), [], []));
    assert Next(c, false, w1, Append(n + 1, f)).txs == w2.txs;
    var w3 := With(w, w.nextId, Tx(Inserts(e, TipHash(w.events)), [], []), Tx(ReadsTip(f), [], []));
    assert Next(c, false, w2, Step(n)).txs == w3.txs;
    assert Next(c, false, w3, Step(n + 1)).txs ==
      With(w, w.nextId, w3.txs[n], Tx(Inserts(f, TipHash(w.events)), [], [])).txs;
  }

  lemma RaceInserts(c: Setup, w: World, e: Entry, f: Entry, tip: string)
    ensures var n, g := |w.txs|, Event(w.nextId, e, tip, c.sha(Preimage(tip, e)));
      var h := Event(w.nextId + 1, f, tip, c.sha(Preimage(tip, f)));
      Run(c, false, With(w, w.nextId, Tx(Inserts(e, tip), [], []), Tx(Inserts(f, tip), [], [])), [Step(n), Step(n + 1)])
      == With(w, w.nextId + 2, Tx(ReadsAnchor(g), [g], []), Tx(ReadsAnchor(h), [h], []))
  {
    var n, g := |w.txs|, Event(w.nextId, e, tip, c.sha(Preimage(tip, e)));
    var h := Event(w.nextId + 1, f, tip, c.sha(Preimage(tip, f)));
    var w1 := With(w, w.nextId, Tx(Inserts(e, tip), [], []), Tx(Inserts(f, tip), [], []));
    TwoIsRun(c, false, w1, Step(n), Step(n + 1));
    assert [] + [g] == [g] && [] + [h] == [h];
    var w2 := With(w, w.nextId + 1, Tx(ReadsAnchor(g), [g], []), Tx(Inserts(f, tip), [], []));
    assert Next(c, false, w1, Step(n)).txs == w2.txs;
    assert Next(c, false, w2, Step(n + 1)).txs == With(w, w.nextId + 2, w2.txs[n], Tx(ReadsAnchor(h), [h], [])).txs;
  }

  lemma RaceCommits(c: Setup, w: World, n: nat, g: Event, h: Event)
    requires n + 1 < |w.txs| && w.txs[n].pc == Open && w.txs[n + 1].pc == Open && Ascending(w.events + [g, h])
    requires w.txs[n].events == [g] && w.txs[n + 1].events == [h]
    ensures Run(c, false, w, [Commit(n), Commit(n + 1)]).events == w.events + [g, h]
  {
    TwoIsRun(c, false, w, Commit(n), Commit(n + 1));
    var both := w.events + [g, h];
    assert both == w.events + [g] + [h] && (w.events + [g])[..] == both[..|w.events| + 1];
    ViewAppends(w.events, [g]);
    ViewAppends(w.events + [g], [h]);
  }

  lemma RaceEnds(c: Setup, w: World, n: nat, g: Event, h: Event)
    requires n + 1 < |w.txs| && Ascending(w.events + [g, h])
    requires w.txs[n] == Tx(ReadsAnchor(g), [g], []) && w.txs[n + 1] == Tx(ReadsAnchor(h), [h], [])
    ensures Run(c, false, w, Rest(n)).events == w.events + [g, h]
  {
    var last := [Step(n + 1), Step(n + 1), Step(n + 1)] + [Commit(n), Commit(n + 1)];
    RunConcat(c, false, w, [Step(n), Step(n), Step(n)], last);
    AppendRests(c, w, n);
    var w1 := Run(c, false, w, [Step(n), Step(n), Step(n)]);
    RunConcat(c, false, w1, [Step(n + 1), Step(n + 1), Step(n + 1)], [Commit(n), Commit(n + 1)]);
    AppendRests(c, w1, n + 1);
    RaceCommits(c, Run(c, false, w1, [Step(n + 1), Step(n + 1), Step(n + 1)]), n, g, h);
  }

  lemma SiblingsFork(c: Setup, es: seq<Event>, g: Event, h: Event)
    requires Chained(c.sha, es) && g.prevHash == h.prevHash == TipHash(es) && Linked(c.sha, TipHash(es), g)
    requires Linked(c.sha, TipHash(es), h)
    ensures Chained(c.sha, es + [g, h]) <==> g.hash == TipHash(es)
  {
    var all := es + [g, h];
    assert all[..|es|] == es && all[..|es| + 1] == es + [g] && TipHash(es + [g]) == g.hash;
  }

  /** A transaction that rolls back leaves the tables as they were, and gives up the lock. */
  lemma RollbackIsClean(c: Setup, w: World, id: nat)
    requires id < |w.txs|
    ensures var w' := Next(c, true, w, Rollback(id));
      w'.events == w.events && w'.checkpoints == w.checkpoints && w'.nextId == w.nextId && w'.lock != Some(id)
  {
  }

  /** Without the lock two appends fork any log: both link to its tip. The log is still a
      chain only if the first new event hashes to the tip's own hash; otherwise verification
      fails, whether or not anchors are configured. */
  lemma WithoutLockForks(c: Setup, w: World, e: Entry, f: Entry)
    requires InOrder(c, w.events, w.nextId)
    ensures var w' := Run(c, false, w, Race(|w.txs|, e, f));
      && |w'.events| == |w.events| + 2 && w.events <= w'.events
      && w'.events[|w.events|].prevHash == w'.events[|w.events| + 1].prevHash == TipHash(w.events)
      && (Chained(c.sha, w'.events) <==> c.sha(Preimage(TipHash(w.events), e)) == TipHash(w.events))
      && (!Chained(c.sha, w'.events) ==> !Verdict(c, w'.events, w'.checkpoints, w'.events).valid)
  {
    var n, tip := |w.txs|, TipHash(w.events);
    var g, h := Event(w.nextId, e, tip, c.sha(Preimage(tip, e))), Event(w.nextId + 1, f, tip, c.sha(Preimage(tip, f)));
    var rest0 := [Step(n), Step(n + 1)] + Rest(n);
    var rest1 := [Append(n + 1, f), Step(n), Step(n + 1)] + rest0;
    RunConcat(c, false, w, [Begin, Begin, Append(n, e)], rest1);
    RunConcat(c, false, Run(c, false, w, [Begin, Begin, Append(n, e)]),
      [Append(n + 1, f), Step(n), Step(n + 1)], rest0);
    RaceStarts(c, w, e, f);
    RunConcat(c, false, With(w, w.nextId, Tx(Inserts(e, tip), [], []), Tx(Inserts(f, tip), [], [])),
      [Step(n), Step(n + 1)], Rest(n));
    RaceInserts(c, w, e, f, tip);
    RaceEnds(c, With(w, w.nextId + 2, Tx(ReadsAnchor(g), [g], []), Tx(ReadsAnchor(h), [h], [])), n, g, h);
    SiblingsFork(c, w.events, g, h);
    ValidMeans(c, w.events + [g, h], Run(c, false, w, Race(n, e, f)).checkpoints, w.events + [g, h]);
  }
}
