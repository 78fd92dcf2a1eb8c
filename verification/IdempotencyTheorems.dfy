/** What reserve-then-stamp guarantees over every interleaving: that claims of a key are a
    window apart, and that replays are stamps for the same request; for each of the two
    promises the exact steps that break it, and a run in which a slow handler does. */
module IdempotencyTheorems {
  import opened Options
  import opened Idempotency

  // ----- every step keeps the invariant -------------------------------------

  /** Claims are never forgotten, and a stamp never changes. */
  ghost predicate Remembers(owners: seq<Owner>, owners': seq<Owner>) {
    && |owners| <= |owners'|
    && forall i :: 0 <= i < |owners| ==>
         && owners'[i].recordId == owners[i].recordId && owners'[i].at == owners[i].at
         && owners'[i].route == owners[i].route && owners'[i].hash == owners[i].hash
         && (owners[i].stamped.Some? ==> owners'[i].stamped == owners[i].stamped)
         && (owners[i].abandoned ==> owners'[i].abandoned)
  }

  lemma OtherCallSurvives(w: World, w': World, k: Call)
    requires CallOk(w, k) && Remembers(w.owners, w'.owners) && w.now <= w'.now
    requires Holding(k.pc).Some? && Holding(k.pc).value < |w.owners| ==>
      w'.owners[Holding(k.pc).value] == w.owners[Holding(k.pc).value]
    ensures CallOk(w', k)
  {
  }

  /** A step that writes nothing: only its own call moves. */
  lemma MoveKeepsWorld(w: World, id: nat, pc: Pc)
    requires WorldOk(w) && id < |w.calls| && CallOk(w, w.calls[id].(pc := pc))
    requires Holding(pc).Some? ==> Holding(pc) == Holding(w.calls[id].pc)
    ensures WorldOk(At(w, id, pc))
  {
    var w' := At(w, id, pc);
    assert OwnersDistinct(w');
    forall i | 0 <= i < |w'.calls| ensures CallOk(w', w'.calls[i]) {
      OtherCallSurvives(w, w', w'.calls[i]);
    }
  }

  /** Taking the key under an id no released claim had keeps the invariant. */
  lemma TakeKeepsWorld(w: World, id: nat, recordId: nat, at: int, db: Db)
    requires WorldOk(w) && id < |w.calls| && Holding(w.calls[id].pc).None? && recordId < w.nextId && at <= w.now
    requires forall i :: 0 <= i < |w.owners| && w.owners[i].abandoned ==> w.owners[i].recordId != recordId
    ensures WorldOk(Take(w, id, recordId, at, db))
  {
    var w' := Take(w, id, recordId, at, db);
    forall i, j | 0 <= i < j < |w'.calls| && Holding(w'.calls[i].pc).Some?
      ensures Holding(w'.calls[i].pc) != Holding(w'.calls[j].pc)
    {
      assert CallOk(w, w.calls[i]) && CallOk(w, w.calls[j]);
    }
    forall i | 0 <= i < |w'.calls| ensures CallOk(w', w'.calls[i]) {
      assert CallOk(w, w.calls[i]);
      if i != id {
        OtherCallSurvives(w, w', w.calls[i]);
      }
    }
  }

  lemma CreateKeepsWorld(w: World, id: nat, db: Db)
    requires WorldOk(w) && id < |w.calls| && w.calls[id].pc.Creates?
    ensures WorldOk(Begin(w, id, db))
  {
    if db == Lost {
      MoveKeepsWorld(w, id, Done(Threw));
    } else if w.record.Some? {
      MoveKeepsWorld(w, id, Finds(w.calls[id].pc.attempt));
    } else {
      var w1 := w.(nextId := w.nextId + 1);
      forall i | 0 <= i < |w.calls| ensures CallOk(w1, w.calls[i]) {
        OtherCallSurvives(w, w1, w.calls[i]);
      }
      TakeKeepsWorld(w1, id, w.nextId, w.now, db);
    }
  }

  lemma ReclaimKeepsWorld(w: World, id: nat, db: Db)
    requires WorldOk(w) && id < |w.calls| && w.calls[id].pc.Reclaims?
    ensures WorldOk(Begin(w, id, db))
  {
    var pc := w.calls[id].pc;
    assert CallOk(w, w.calls[id]);
    if db != Lost && w.record.Some? && w.record.value.id == pc.id && w.record.value.createdAt == pc.createdAt {
      TakeKeepsWorld(w, id, pc.id, pc.at, db);
    } else {
      MoveKeepsWorld(w, id, Begin(w, id, db).calls[id].pc);
    }
  }

  /** A claim's own facts change; every other call is untouched. */
  lemma OwnerWriteKeepsCalls(w: World, w': World, id: nat, o: nat)
    requires WorldOk(w) && id < |w.calls| && Holding(w.calls[id].pc) == Some(o) && o < |w.owners|
    requires w'.now == w.now && |w'.owners| == |w.owners| && w'.owners == w.owners[o := w'.owners[o]]
    requires Remembers(w.owners, w'.owners)
    requires |w'.calls| == |w.calls| && w'.calls == w.calls[id := w'.calls[id]] && CallOk(w', w'.calls[id])
    requires Holding(w'.calls[id].pc).Some? ==> Holding(w'.calls[id].pc) == Some(o)
    ensures OwnersDistinct(w') && forall i :: 0 <= i < |w'.calls| ==> CallOk(w', w'.calls[i])
  {
    forall i | 0 <= i < |w'.calls| ensures CallOk(w', w'.calls[i]) {
      if i != id {
        assert CallOk(w, w.calls[i]);
        assert Holding(w.calls[i].pc) != Some(o) by {
          if i < id {
            assert Holding(w.calls[i].pc).Some? ==> Holding(w.calls[i].pc) != Holding(w.calls[id].pc);
          } else {
            assert Holding(w.calls[id].pc) != Holding(w.calls[i].pc);
          }
        }
        OtherCallSurvives(w, w', w.calls[i]);
      }
    }
  }

  lemma CompleteKeepsWorld(w: World, id: nat, db: Db, handler: Handler)
    requires WorldOk(w) && id < |w.calls| && w.calls[id].pc.Completes?
    ensures WorldOk(Finish(w, id, db, handler)) && Remembers(w.owners, Finish(w, id, db, handler).owners)
  {
    var o, w' := w.calls[id].pc.owner, Finish(w, id, db, handler);
    assert CallOk(w, w.calls[id]);
    if db == Lost || !RowIs(w, w.owners[o].recordId) {
      MoveKeepsWorld(w, id, Abandons(o, Threw));
    } else {
      OwnerWriteKeepsCalls(w, w', id, o);
    }
  }

  lemma AbandonKeepsWorld(w: World, id: nat, db: Db, handler: Handler)
    requires WorldOk(w) && id < |w.calls| && w.calls[id].pc.Abandons?
    ensures WorldOk(Finish(w, id, db, handler)) && Remembers(w.owners, Finish(w, id, db, handler).owners)
  {
    var o, w' := w.calls[id].pc.owner, Finish(w, id, db, handler);
    assert CallOk(w, w.calls[id]);
    if db == Lost {
      MoveKeepsWorld(w, id, w'.calls[id].pc);
    } else {
      OwnerWriteKeepsCalls(w, w', id, o);
    }
  }

  lemma WaitKeepsWorld(w: World, ms: nat)
    requires WorldOk(w)
    ensures WorldOk(w.(now := w.now + ms))
  {
    forall i | 0 <= i < |w.calls| ensures CallOk(w.(now := w.now + ms), w.calls[i]) {
      OtherCallSurvives(w, w.(now := w.now + ms), w.calls[i]);
    }
  }

  lemma ArrivalKeepsWorld(w: World, k: Call)
    requires WorldOk(w) && k.pc == Creates(0)
    ensures WorldOk(w.(calls := w.calls + [k]))
  {
    forall i | 0 <= i < |w.calls| ensures CallOk(w.(calls := w.calls + [k]), w.calls[i]) {
      OtherCallSurvives(w, w.(calls := w.calls + [k]), w.calls[i]);
    }
  }

  lemma BeginKeepsWorld(w: World, id: nat, db: Db)
    requires WorldOk(w) && id < |w.calls|
    ensures WorldOk(Begin(w, id, db))
  {
    match w.calls[id].pc
    case Creates(_) => CreateKeepsWorld(w, id, db);
    case Finds(_) => MoveKeepsWorld(w, id, Begin(w, id, db).calls[id].pc);
    case Reclaims(_, _, _, _) => ReclaimKeepsWorld(w, id, db);
    case _ =>
  }

  lemma HandleKeepsWorld(w: World, id: nat, db: Db, handler: Handler)
    requires WorldOk(w) && id < |w.calls| && w.calls[id].pc.Handles?
    ensures WorldOk(Finish(w, id, db, handler)) && Finish(w, id, db, handler).owners == w.owners
  {
    assert CallOk(w, w.calls[id]);
    MoveKeepsWorld(w, id, Finish(w, id, db, handler).calls[id].pc);
  }

  lemma FinishKeepsWorld(w: World, id: nat, db: Db, handler: Handler)
    requires WorldOk(w) && id < |w.calls|
    ensures WorldOk(Finish(w, id, db, handler)) && Remembers(w.owners, Finish(w, id, db, handler).owners)
  {
    match w.calls[id].pc
    case Handles(_) => HandleKeepsWorld(w, id, db, handler);
    case Completes(_, _) => CompleteKeepsWorld(w, id, db, handler);
    case Abandons(_, _) => AbandonKeepsWorld(w, id, db, handler);
    case _ =>
  }

  lemma BeginRemembers(w: World, id: nat, db: Db)
    requires id < |w.calls|
    ensures Remembers(w.owners, Begin(w, id, db).owners)
  {
  }

  /** Every step keeps the row the newest claim's, whoever may have stamped it, and forgets
      no claim and no stamp. */
  lemma NextKeepsWorld(w: World, a: Action)
    requires WorldOk(w)
    ensures WorldOk(Next(w, a)) && Remembers(w.owners, Next(w, a).owners)
  {
    match a
    case Tick(ms) => WaitKeepsWorld(w, ms);
    case Arrive(route, hash, strict) => ArrivalKeepsWorld(w, Call(route, hash, strict, Creates(0)));
    case Advance(id, db, handler) =>
      if id < |w.calls| {
        BeginKeepsWorld(w, id, db);
        BeginRemembers(w, id, db);
        FinishKeepsWorld(w, id, db, handler);
      }
  }

  // ----- claims a window apart ----------------------------------------------

  /** Within its time an unreleased claim is the newest one, and the row is its row. */
  lemma TimelyOwnerIsCurrent(w: World, o: nat)
    requires WindowOk(w) && NewestOk(w) && IdsOk(w)
    requires o < |w.owners| && !w.owners[o].abandoned && !Expired(w.owners[o].at, w.now)
    ensures o == |w.owners| - 1 && RowIs(w, w.owners[o].recordId)
  {
  }

  lemma SeparationSurvives(owners: seq<Owner>, owners': seq<Owner>)
    requires Separated(owners) && Remembers(owners, owners') && |owners'| == |owners|
    ensures Separated(owners')
  {
    forall i, j | 0 <= i < j < |owners'| ensures Apart(owners'[i], owners'[j]) {
      assert Apart(owners[i], owners[j]);
    }
  }

  lemma TakeKeepsWindow(w: World, id: nat, recordId: nat, at: int, db: Db)
    requires WindowOk(w) && id < |w.calls|
    requires forall i :: 0 <= i < |w.owners| ==> Over(w.owners[i], at)
    ensures WindowOk(Take(w, id, recordId, at, db))
  {
    var owners' := Take(w, id, recordId, at, db).owners;
    forall i, j | 0 <= i < j < |owners'| ensures Apart(owners'[i], owners'[j]) {
      if j < |w.owners| {
        assert Apart(w.owners[i], w.owners[j]);
      } else {
        assert Over(w.owners[i], at);
      }
    }
  }

  /** If the newest claim is over, all are. */
  lemma OldAreOver(w: World, now: int)
    requires Separated(w.owners) && w.owners != [] && w.owners[|w.owners| - 1].at <= now
    ensures forall i :: 0 <= i < |w.owners| - 1 ==> Over(w.owners[i], now)
  {
    forall i | 0 <= i < |w.owners| - 1 ensures Over(w.owners[i], now) {
      assert Apart(w.owners[i], w.owners[|w.owners| - 1]);
    }
  }

  lemma BeginKeepsWindow(w: World, id: nat, db: Db)
    requires WorldOk(w) && WindowOk(w) && id < |w.calls|
    ensures WindowOk(Begin(w, id, db))
  {
    var pc := w.calls[id].pc;
    assert CallOk(w, w.calls[id]);
    if pc.Creates? && db != Lost && w.record.None? {
      TakeKeepsWindow(w.(nextId := w.nextId + 1), id, w.nextId, w.now, db);
    } else if pc.Reclaims? && db != Lost && RowIs(w, pc.id) && w.record.value.createdAt == pc.createdAt {
      OldAreOver(w, pc.at);
      TakeKeepsWindow(w, id, pc.id, pc.at, db);
    } else {
      assert Begin(w, id, db).record == w.record &&
        Begin(w, id, db).owners == w.owners && Begin(w, id, db).now == w.now;
    }
  }

  /** A release of the newest claim's own row, or of one that has expired, leaves every claim
      over. */
  lemma FinishKeepsWindow(w: World, id: nat, db: Db, handler: Handler)
    requires WorldOk(w) && WindowOk(w) && id < |w.calls| && SparesClaim(w, Advance(id, db, handler))
    ensures WindowOk(Finish(w, id, db, handler))
  {
    var w', pc := Finish(w, id, db, handler), w.calls[id].pc;
    assert CallOk(w, w.calls[id]);
    NextKeepsWorld(w, Advance(id, db, handler));
    if pc.Completes? || pc.Abandons? {
      SeparationSurvives(w.owners, w'.owners);
    }
    if w.record.Some? && w'.record.None? {
      OldAreOver(w, w.now);
      forall i | 0 <= i < |w'.owners| ensures Over(w'.owners[i], w'.now) {
        assert i < |w.owners| - 1 ==> Over(w.owners[i], w.now);
      }
    }
  }

  lemma NextKeepsWindow(w: World, a: Action)
    requires WorldOk(w) && WindowOk(w) && SparesClaim(w, a)
    ensures WindowOk(Next(w, a))
  {
    match a
    case Tick(ms) =>
      forall i | 0 <= i < |w.owners| && Over(w.owners[i], w.now) ensures Over(w.owners[i], w.now + ms) {
      }
    case Arrive(route, hash, strict) =>
    case Advance(id, db, handler) =>
      if id < |w.calls| {
        if w.calls[id].pc.Creates? || w.calls[id].pc.Finds? || w.calls[id].pc.Reclaims? {
          BeginKeepsWindow(w, id, db);
        } else {
          FinishKeepsWindow(w, id, db, handler);
        }
      }
  }

  lemma {:induction false} SparingKeepsWindow(w: World, run: seq<Action>)
    requires WorldOk(w) && WindowOk(w) && SparingRun(w, run)
    ensures WorldOk(Run(w, run)) && WindowOk(Run(w, run))
    decreases |run|
  {
    if run != [] {
      NextKeepsWorld(w, run[0]);
      NextKeepsWindow(w, run[0]);
      SparingKeepsWindow(Next(w, run[0]), run[1..]);
    }
  }

  /** Each key has at most one claim that was not released per time window: of any two, the
      earlier was released or the later began a full window after it. */
  lemma OneOwnerPerWindow(start: int, run: seq<Action>, i: nat, j: nat)
    requires SparingRun(Start(start), run)
    requires i < j < |Run(Start(start), run).owners|
    ensures Apart(Run(Start(start), run).owners[i], Run(Start(start), run).owners[j])
  {
    SparingKeepsWindow(Start(start), run);
  }

  /** At no moment do two handlers run for one key within their time. */
  lemma OneHandlerAtATime(start: int, run: seq<Action>, i: nat, j: nat)
    requires SparingRun(Start(start), run)
    requires var w := Run(Start(start), run);
      i < |w.calls| && j < |w.calls| && w.calls[i].pc.Handles? && w.calls[j].pc.Handles?
    requires var w := Run(Start(start), run);
      var o, p := w.calls[i].pc.owner, w.calls[j].pc.owner;
      o < |w.owners| && p < |w.owners| && !Expired(w.owners[o].at, w.now) && !Expired(w.owners[p].at, w.now)
    ensures i == j
  {
    SparingKeepsWindow(Start(start), run);
    var w := Run(Start(start), run);
    assert CallOk(w, w.calls[i]) && CallOk(w, w.calls[j]);
    TimelyOwnerIsCurrent(w, w.calls[i].pc.owner);
    TimelyOwnerIsCurrent(w, w.calls[j].pc.owner);
  }

  /** A release over an unexpired later claim lets the next request claim beside it. */
  lemma ReleaseLeads(w: World, a: Action) returns (more: seq<Action>)
    requires WorldOk(w) && !SparesClaim(w, a)
    ensures SparingRun(Next(w, a), more) && !Separated(Run(Next(w, a), more).owners)
  {
    var w', n, last := Next(w, a), |w.calls|, |w.owners| - 1;
    assert CallOk(w, w.calls[a.id]);
    assert !w.owners[last].abandoned;
    assert w'.record == None && |w'.owners| == last + 1 && w'.owners[last] == w.owners[last] && |w'.calls| == n;
    var b, c := Arrive("", "", false), Advance(n, Ok, HandlerThrows);
    more := [b, c];
    TwoSteps(w', b, c);
    assert more[1..] == [c] && [c][1..] == [];
    var w2 := Next(Next(w', b), c);
    assert w2.owners == w'.owners + [Owner(w'.nextId, w'.now, "", "", None, false)];
    assert !Apart(w2.owners[last], w2.owners[last + 1]);
  }

  /** What decides that claims stay a window apart: after any run in which every release
      spares later claims, a step spares them too if and only if claims stay apart in every
      such continuation. */
  lemma SparingIsExact(start: int, run: seq<Action>, a: Action)
    requires SparingRun(Start(start), run)
    ensures var w := Run(Start(start), run);
      SparesClaim(w, a) <==>
      forall more: seq<Action> :: SparingRun(Next(w, a), more) ==> Separated(Run(Next(w, a), more).owners)
  {
    SparingKeepsWindow(Start(start), run);
    var w := Run(Start(start), run);
    if SparesClaim(w, a) {
      NextKeepsWorld(w, a);
      NextKeepsWindow(w, a);
      forall more: seq<Action> | SparingRun(Next(w, a), more) ensures Separated(Run(Next(w, a), more).owners) {
        SparingKeepsWindow(Next(w, a), more);
      }
    } else {
      var more := ReleaseLeads(w, a);
      assert SparingRun(Next(w, a), more) && !Separated(Run(Next(w, a), more).owners);
    }
  }

  // ----- replays that are stamps --------------------------------------------

  lemma StampRemembered(w: World, w': World, r: Response, route: string, hash: string)
    requires StampedBy(w, r, route, hash) && Remembers(w.owners, w'.owners)
    ensures StampedBy(w', r, route, hash)
  {
    var o :| 0 <= o < |w.owners| && w.owners[o].stamped == Some(r) &&
      w.owners[o].route == route && w.owners[o].hash == hash;
    assert w'.owners[o].stamped == Some(r);
  }

  /** The row the step leaves would replay only a stamp. */
  lemma NextKeepsRow(w: World, a: Action)
    requires WorldOk(w) && RowTrue(w) && StampsTrue(w, a)
    ensures RowTrue(Next(w, a))
  {
    var w' := Next(w, a);
    NextKeepsWorld(w, a);
    if w'.record.Some? && w'.record.value.response.Some? && !Expired(w'.record.value.createdAt, w'.now) {
      var rec := w'.record.value;
      if w'.record == w.record {
        StampRemembered(w, w', rec.response.value, rec.route, rec.hash);
      } else {
        assert a.Advance? && w.calls[a.id].pc.Completes?;
        var o, r := w.calls[a.id].pc.owner, w.calls[a.id].pc.response;
        assert w'.owners[o].stamped == Some(r) && rec == w.record.value.(response := Some(r));
        if StampedBy(w, r, rec.route, rec.hash) {
          StampRemembered(w, w', r, rec.route, rec.hash);
        }
      }
    }
  }

  /** The row would replay this response to this call. */
  predicate RowAnswers(w: World, k: Call, r: Response) {
    && w.record.Some? && !Expired(w.record.value.createdAt, w.now) && w.record.value.response == Some(r)
    && w.record.value.route == k.route && w.record.value.hash == k.hash
  }

  /** The one step that answers with a replay reads it off the row. */
  lemma OnlyFindsReplay(w: World, id: nat, db: Db, handler: Handler)
    requires WorldOk(w) && id < |w.calls| && !w.calls[id].pc.Done?
    requires var k' := Next(w, Advance(id, db, handler)).calls[id]; k'.pc.Done? && k'.pc.outcome.Replayed?
    ensures var w' := Next(w, Advance(id, db, handler));
      && w'.owners == w.owners && w'.calls[id].route == w.calls[id].route && w'.calls[id].hash == w.calls[id].hash
      && RowAnswers(w, w.calls[id], w'.calls[id].pc.outcome.response)
  {
    assert CallOk(w, w.calls[id]);
    FinishNeverReplays(w, id, db, handler);
    assert w.calls[id].pc.Finds?;
  }

  lemma FinishNeverReplays(w: World, id: nat, db: Db, handler: Handler)
    requires id < |w.calls| && CallOk(w, w.calls[id]) && !w.calls[id].pc.Done?
    ensures var pc := Finish(w, id, db, handler).calls[id].pc; pc.Done? ==> !pc.outcome.Replayed?
  {
  }

  lemma NextKeepsReplays(w: World, a: Action)
    requires WorldOk(w) && RowTrue(w) && ReplaysTrue(w)
    ensures ReplaysTrue(Next(w, a))
  {
    var w' := Next(w, a);
    NextKeepsWorld(w, a);
    forall i | 0 <= i < |w'.calls| ensures ReplayTrue(w', w'.calls[i]) {
      var k' := w'.calls[i];
      if k'.pc.Done? && k'.pc.outcome.Replayed? {
        if a.Advance? && a.id == i && !w.calls[i].pc.Done? {
          OnlyFindsReplay(w, i, a.db, a.handler);
        } else {
          assert w.calls[i] == k' && ReplayTrue(w, k');
        }
        StampRemembered(w, w', k'.pc.outcome.response, k'.route, k'.hash);
      }
    }
  }

  lemma {:induction false} TrueKeepsReplays(w: World, run: seq<Action>)
    requires WorldOk(w) && RowTrue(w) && ReplaysTrue(w) && TrueRun(w, run)
    ensures WorldOk(Run(w, run)) && RowTrue(Run(w, run)) && ReplaysTrue(Run(w, run))
    decreases |run|
  {
    if run != [] {
      NextKeepsWorld(w, run[0]);
      NextKeepsRow(w, run[0]);
      NextKeepsReplays(w, run[0]);
      TrueKeepsReplays(Next(w, run[0]), run[1..]);
    }
  }

  /** Every replay is exactly the response that some claimant of the key stamped for the same
      target and the same body. */
  lemma ReplaysAreStamps(start: int, run: seq<Action>, i: nat)
    requires TrueRun(Start(start), run)
    requires var w := Run(Start(start), run);
      i < |w.calls| && w.calls[i].pc.Done? && w.calls[i].pc.outcome.Replayed?
    ensures var w := Run(Start(start), run);
      StampedBy(w, w.calls[i].pc.outcome.response, w.calls[i].route, w.calls[i].hash)
  {
    TrueKeepsReplays(Start(start), run);
    var w := Run(Start(start), run);
    assert ReplayTrue(w, w.calls[i]);
  }

  /** A row that carries a response nobody stamped for its request replays it to the next
      such request. */
  lemma RowReplays(w: World) returns (more: seq<Action>)
    requires !RowTrue(w)
    ensures TrueRun(w, more) && !ReplaysTrue(Run(w, more))
  {
    var rec, n := w.record.value, |w.calls|;
    var b, c := Arrive(rec.route, rec.hash, false), Advance(n, Ok, HandlerThrows);
    more := [b] + [c, c];
    var w1 := Next(w, b);
    assert w1.calls[n] == Call(rec.route, rec.hash, false, Creates(0));
    var w2 := Next(w1, c);
    assert w2 == At(w1, n, Finds(0));
    var w3 := Next(w2, c);
    assert w3 == At(w2, n, Done(Replayed(rec.response.value)));
    RunConcat(w, [b], [c, c]);
    OneStep(w, b);
    TwoSteps(w1, c, c);
    assert more[1..] == [c, c] && [c, c][1..] == [c] && [c][1..] == [];
    assert TrueRun(w2, [c]) && TrueRun(w1, [c, c]);
    assert !ReplayTrue(w3, w3.calls[n]);
  }

  lemma FalseStampShows(w: World, a: Action)
    requires WorldOk(w) && !StampsTrue(w, a)
    ensures !RowTrue(Next(w, a))
  {
    var o, r, w' := w.calls[a.id].pc.owner, w.calls[a.id].pc.response, Next(w, a);
    var rec := w.record.value;
    assert w'.record == Some(rec.(response := Some(r)));
    assert w'.owners == w.owners[o := w.owners[o].(stamped := Some(r))];
    forall i | 0 <= i < |w'.owners|
      ensures !(w'.owners[i].stamped == Some(r) && w'.owners[i].route == rec.route && w'.owners[i].hash == rec.hash)
    {
      if i != o {
        assert w'.owners[i] == w.owners[i];
      }
    }
  }

  /** What decides that replays are stamps: after any run in which every stamp is true, a
      step stamps truly too if and only if every replay of every such continuation is a
      stamp for its own request. A late stamp over a later claim of the same request harms
      no replay; one over another request's row always can. */
  lemma TrueStampsAreExact(start: int, run: seq<Action>, a: Action)
    requires TrueRun(Start(start), run)
    ensures var w := Run(Start(start), run);
      StampsTrue(w, a) <==>
      forall more: seq<Action> :: TrueRun(Next(w, a), more) ==> ReplaysTrue(Run(Next(w, a), more))
  {
    TrueKeepsReplays(Start(start), run);
    var w := Run(Start(start), run);
    if StampsTrue(w, a) {
      NextKeepsWorld(w, a);
      NextKeepsRow(w, a);
      NextKeepsReplays(w, a);
      forall more: seq<Action> | TrueRun(Next(w, a), more) ensures ReplaysTrue(Run(Next(w, a), more)) {
        TrueKeepsReplays(Next(w, a), more);
      }
    } else {
      FalseStampShows(w, a);
      var more := RowReplays(Next(w, a));
      assert TrueRun(Next(w, a), more) && !ReplaysTrue(Run(Next(w, a), more));
    }
  }

  // ----- handlers within their time -----------------------------------------

  /** A handler that finishes within its time stamps truly and spares every later claim. */
  lemma TimelyIsBoth(w: World, a: Action)
    requires WorldOk(w) && WindowOk(w) && Timely(w, a)
    ensures StampsTrue(w, a) && SparesClaim(w, a)
  {
    if a.Advance? && a.id < |w.calls| && (w.calls[a.id].pc.Completes? || w.calls[a.id].pc.Abandons?) {
      var o := Holding(w.calls[a.id].pc).value;
      assert CallOk(w, w.calls[a.id]);
      if !w.owners[o].abandoned {
        TimelyOwnerIsCurrent(w, o);
      }
    }
  }

  lemma {:induction false} TimelyRunIsBoth(w: World, run: seq<Action>)
    requires WorldOk(w) && WindowOk(w) && TimelyRun(w, run)
    ensures TrueRun(w, run) && SparingRun(w, run)
    decreases |run|
  {
    if run != [] {
      TimelyIsBoth(w, run[0]);
      NextKeepsWorld(w, run[0]);
      NextKeepsWindow(w, run[0]);
      TimelyRunIsBoth(Next(w, run[0]), run[1..]);
    }
  }

  // ----- when a handler is late ---------------------------------------------

  /** A slow claimant, and a second one that reclaimed the expired key for another request. */
  function Late(start: int, first: string, second: string, body: Response): World {
    World(
      start + TTL_MS, 1, Some(Record(0, start + TTL_MS, "r", second, None)),
      [Owner(0, start, "r", first, None, false), Owner(0, start + TTL_MS, "r", second, None, false)],
      [Call("r", first, false, Completes(0, body)), Call("r", second, false, Handles(1))])
  }

  lemma ReachClaimed(start: int, first: string)
    ensures Run(Start(start), [Arrive("r", first, false), Advance(0, Ok, HandlerThrows)]) ==
      Claimed(start, first)
  {
    var a, b := Arrive("r", first, false), Advance(0, Ok, HandlerThrows);
    TwoSteps(Start(start), a, b);
    assert Next(Start(start), a).calls == [Call("r", first, false, Creates(0))];
    assert [] + [Owner(0, start, "r", first, None, false)] == [Owner(0, start, "r", first, None, false)];
    assert Next(Next(Start(start), a), b).calls == [Call("r", first, false, Handles(0))];
  }

  lemma OneStep(w: World, a: Action)
    ensures Run(w, [a]) == Next(w, a)
  {
    assert [a][1..] == [];
  }

  lemma TwoSteps(w: World, a: Action, b: Action)
    ensures Run(w, [a, b]) == Next(Next(w, a), b)
  {
    assert [a, b][1..] == [b];
    OneStep(Next(w, a), b);
  }

  lemma RunConcat(w: World, a: seq<Action>, b: seq<Action>)
    ensures Run(w, a + b) == Run(Run(w, a), b)
    decreases |a|
  {
    if a == [] {
      assert a + b == b;
    } else {
      assert (a + b)[1..] == a[1..] + b;
      RunConcat(Next(w, a[0]), a[1..], b);
    }
  }

  function Claimed(start: int, first: string): World {
    World(start, 1, Some(Record(0, start, "r", first, None)), [Owner(0, start, "r", first, None, false)],
          [Call("r", first, false, Handles(0))])
  }

  /** The first claimant's handler answers only when its time is over. */
  function Waiting(start: int, first: string, body: Response): World {
    Claimed(start, first).(now := start + TTL_MS, calls := [Call("r", first, false, Completes(0, body))])
  }

  lemma ReachWaiting(start: int, first: string, body: Response)
    ensures Run(Claimed(start, first), [Advance(0, Ok, Responds(body)), Tick(TTL_MS)]) == Waiting(start, first, body)
  {
    TwoSteps(Claimed(start, first), Advance(0, Ok, Responds(body)), Tick(TTL_MS));
    assert Next(Claimed(start, first), Advance(0, Ok, Responds(body))).calls == Waiting(start, first, body).calls;
  }

  /** A second request finds the key expired. */
  function Finding(start: int, first: string, second: string, body: Response): World {
    Waiting(start, first, body).(calls := Waiting(start, first, body).calls + [Call("r", second, false, Finds(0))])
  }

  lemma ReachFinding(start: int, first: string, second: string, body: Response)
    ensures Run(Waiting(start, first, body), [Arrive("r", second, false), Advance(1, Ok, HandlerThrows)])
      == Finding(start, first, second, body)
  {
    var w := Waiting(start, first, body);
    TwoSteps(w, Arrive("r", second, false), Advance(1, Ok, HandlerThrows));
    assert Next(Next(w, Arrive("r", second, false)), Advance(1, Ok, HandlerThrows)).calls
      == Finding(start, first, second, body).calls;
  }

  /** And reclaims it. */
  lemma ReachLate(start: int, first: string, second: string, body: Response)
    ensures Run(Finding(start, first, second, body), [Advance(1, Ok, HandlerThrows), Advance(1, Ok, HandlerThrows)])
      == Late(start, first, second, body)
  {
    var w, a := Finding(start, first, second, body), Advance(1, Ok, HandlerThrows);
    TwoSteps(w, a, a);
    assert Next(w, a).calls == [w.calls[0], Call("r", second, false, Reclaims(0, 0, start, start + TTL_MS))];
    assert Next(Next(w, a), a).calls == Late(start, first, second, body).calls;
    assert Next(Next(w, a), a).owners == Late(start, first, second, body).owners;
  }

  /** Then the late stamp lands on the second request's row, and a retry of the second is
      answered with the first one's response, which nobody stamped for it. */
  lemma LateStampLeaks(start: int, first: string, second: string, body: Response)
    requires first != second
    ensures var w := Run(Late(start, first, second, body),
                         [Advance(0, Ok, HandlerThrows), Arrive("r", second, false)] +
                         [Advance(2, Ok, HandlerThrows), Advance(2, Ok, HandlerThrows)]);
      && |w.calls| == 3 && w.calls[2].pc == Done(Replayed(body)) && w.calls[2].hash == second
      && !StampedBy(w, body, "r", second)
    ensures !StampsTrue(Late(start, first, second, body), Advance(0, Ok, HandlerThrows))
  {
    var w, a, b, c := Late(start, first, second, body), Advance(0, Ok, HandlerThrows),
      Arrive("r", second, false), Advance(2, Ok, HandlerThrows);
    RunConcat(w, [a, b], [c, c]);
    TwoSteps(w, a, b);
    var v := Next(Next(w, a), b);
    assert v == World(
      start + TTL_MS, 1, Some(Record(0, start + TTL_MS, "r", second, Some(body))),
      [Owner(0, start, "r", first, Some(body), false), w.owners[1]],
      [Call("r", first, false, Done(Handled(body))), w.calls[1], Call("r", second, false, Creates(0))]);
    TwoSteps(v, c, c);
    assert Next(v, c).calls[2].pc == Finds(0);
  }

  /** All of it as one run from an unused key. */
  lemma SlowHandlerLeaks(start: int, first: string, second: string, body: Response) returns (run: seq<Action>)
    requires first != second
    ensures var w := Run(Start(start), run);
      && |w.calls| == 3 && w.calls[2].pc == Done(Replayed(body)) && w.calls[2].hash == second
      && !StampedBy(w, body, "r", second)
  {
    var go := Advance(1, Ok, HandlerThrows);
    var claim := [Arrive("r", first, false), Advance(0, Ok, HandlerThrows)];
    var wait := [Advance(0, Ok, Responds(body)), Tick(TTL_MS)];
    var find := [Arrive("r", second, false), go];
    var late := [Advance(0, Ok, HandlerThrows), Arrive("r", second, false)] +
      [Advance(2, Ok, HandlerThrows), Advance(2, Ok, HandlerThrows)];
    run := claim + (wait + (find + ([go, go] + late)));
    ReachClaimed(start, first);
    RunConcat(Start(start), claim, wait + (find + ([go, go] + late)));
    ReachWaiting(start, first, body);
    RunConcat(Claimed(start, first), wait, find + ([go, go] + late));
    ReachFinding(start, first, second, body);
    RunConcat(Waiting(start, first, body), find, [go, go] + late);
    ReachLate(start, first, second, body);
    RunConcat(Finding(start, first, second, body), [go, go], late);
    LateStampLeaks(start, first, second, body);
  }

  // ----- a request that nobody disturbs -------------------------------------

  /** The world after the call's next n awaits, each succeeding, its handler answering r, with
      nobody else at work. */
  function Served(w: World, id: nat, r: Response, n: nat): World
    decreases n
  {
    if n == 0 then w else Served(Next(w, Advance(id, Ok, Responds(r))), id, r, n - 1)
  }

  /** The key is held by a record whose time is not over. */
  predicate Held(w: World) {
    w.record.Some? && w.now - w.record.value.createdAt < 24 * 60 * 60 * 1000
  }

  /** What a request should be answered: by the record that holds the key, or else by its own
      handler. */
  function AnswerTo(w: World, route: string, hash: string, r: Response): Outcome {
    if !Held(w) then Handled(r)
    else if w.record.value.route != route || w.record.value.hash != hash then Mismatch
    else if w.record.value.response == None then InFlight
    else Replayed(w.record.value.response.value)
  }

  /** What the request leaves behind: a record that holds the key stays, and a handled
      response is kept with its request, unless it refuses a malformed body. */
  predicate Keeps(w: World, w': World, route: string, hash: string, strict: bool, r: Response) {
    if Held(w) then w'.record == w.record
    else if strict && !(200 <= r.status <= 299) then w'.record == None
    else
      && w'.record.Some? && w'.record.value.createdAt == w.now && w'.record.value.response == Some(r)
      && w'.record.value.route == route && w'.record.value.hash == hash
  }

  /** A call that has taken the key handles its request. */
  lemma HoldsAndHandles(w: World, id: nat, r: Response)
    requires id < |w.calls| && w.calls[id].pc.Handles? && w.calls[id].pc.owner < |w.owners|
    requires RowIs(w, w.owners[w.calls[id].pc.owner].recordId)
    ensures var k, w' := w.calls[id], Served(w, id, r, 2);
      && w'.calls == w.calls[id := k.(pc := Done(Handled(r)))] && w'.now == w.now
      && w'.record == if k.strict && !(200 <= r.status <= 299) then None
                      else Some(w.record.value.(response := Some(r)))
  {
    var w1 := Next(w, Advance(id, Ok, Responds(r)));
    var w2 := Next(w1, Advance(id, Ok, Responds(r)));
    assert Served(w, id, r, 2) == Served(w1, id, r, 1) == Served(w2, id, r, 0);
  }

  lemma ServedMore(w: World, id: nat, r: Response, n: nat, w1: World)
    requires n > 0 && w1 == Next(w, Advance(id, Ok, Responds(r)))
    ensures Served(w, id, r, n) == Served(w1, id, r, n - 1)
  {
  }

  /** The call is over, with this answer. */
  predicate Answered(w: World, id: nat, k: Call, answer: Outcome) {
    id < |w.calls| && w.calls[id] == k.(pc := Done(answer))
  }

  /** A free key is taken at once. */
  lemma FreeKeyIsTaken(w: World, k: Call, r: Response)
    requires w.record == None && k.pc == Creates(0)
    ensures var w' := Served(Next(w, Arrive(k.route, k.hash, k.strict)), |w.calls|, r, 3);
      && Answered(w', |w.calls|, k, Handled(r)) && w'.now == w.now
      && Keeps(w, w', k.route, k.hash, k.strict, r)
  {
    var id, w0 := |w.calls|, Next(w, Arrive(k.route, k.hash, k.strict));
    var w1 := Next(w0, Advance(id, Ok, Responds(r)));
    ServedMore(w0, id, r, 3, w1);
    HoldsAndHandles(w1, id, r);
  }

  /** An expired one is found, and taken in place. */
  lemma ExpiredKeyIsTaken(w: World, k: Call, r: Response)
    requires w.record.Some? && !Held(w) && k.pc == Creates(0)
    ensures var w' := Served(Next(w, Arrive(k.route, k.hash, k.strict)), |w.calls|, r, 5);
      && Answered(w', |w.calls|, k, Handled(r)) && w'.now == w.now
      && Keeps(w, w', k.route, k.hash, k.strict, r)
  {
    var id, w0, a := |w.calls|, Next(w, Arrive(k.route, k.hash, k.strict)), Advance(|w.calls|, Ok, Responds(r));
    var w1 := Next(w0, a);
    assert w1.calls[id].pc == Finds(0) && w1.record == w.record;
    var w2 := Next(w1, a);
    assert w2.calls[id].pc.Reclaims? && w2.record == w.record && w2.now == w.now;
    var w3 := Next(w2, a);
    ServedMore(w0, id, r, 5, w1);
    ServedMore(w1, id, r, 4, w2);
    ServedMore(w2, id, r, 3, w3);
    HoldsAndHandles(w3, id, r);
  }

  /** A held one answers. */
  lemma HeldKeyAnswers(w: World, k: Call, r: Response)
    requires Held(w) && k.pc == Creates(0)
    ensures var w' := Served(Next(w, Arrive(k.route, k.hash, k.strict)), |w.calls|, r, 2);
      && Answered(w', |w.calls|, k, AnswerTo(w, k.route, k.hash, r)) && w'.now == w.now
      && w'.record == w.record
  {
    var id, w0, a := |w.calls|, Next(w, Arrive(k.route, k.hash, k.strict)), Advance(|w.calls|, Ok, Responds(r));
    var w1 := Next(w0, a);
    assert w1.calls[id].pc == Finds(0) && w1.record == w.record;
    ServedMore(w0, id, r, 2, w1);
    ServedMore(w1, id, r, 1, Next(w1, a));
  }

  /** What the key is for. In every world, a request that nobody disturbs and whose awaits
      succeed is answered, within five of them: by the record that holds the key, if one does
      (replayed, in flight, or refused as another request's), and otherwise by its own
      handler, whose response is then kept with the request unless it refuses a malformed
      body. */
  lemma RequestIsAnswered(w: World, route: string, hash: string, strict: bool, r: Response) returns (n: nat)
    ensures n <= 5
    ensures var id, w' := |w.calls|, Served(Next(w, Arrive(route, hash, strict)), |w.calls|, r, n);
      && Answered(w', id, Call(route, hash, strict, Creates(0)), AnswerTo(w, route, hash, r))
      && Keeps(w, w', route, hash, strict, r) && w'.now == w.now
  {
    var k := Call(route, hash, strict, Creates(0));
    if w.record == None {
      FreeKeyIsTaken(w, k, r);
      n := 3;
    } else if Held(w) {
      HeldKeyAnswers(w, k, r);
      n := 2;
    } else {
      ExpiredKeyIsTaken(w, k, r);
      n := 5;
    }
  }

  /** And a retry within a day is answered by what the first request was, whatever its own
      handler would have said. */
  lemma RetryReplays(w: World, route: string, hash: string, r: Response, ms: nat, r': Response) returns (n: nat)
    requires !Held(w) && ms < 24 * 60 * 60 * 1000
    ensures n <= 5
    ensures var first := Served(Next(w, Arrive(route, hash, false)), |w.calls|, r, n);
      var retry := Served(Next(Next(first, Tick(ms)), Arrive(route, hash, false)), |first.calls|, r', 2);
      && Answered(first, |w.calls|, Call(route, hash, false, Creates(0)), Handled(r))
      && Answered(retry, |first.calls|, Call(route, hash, false, Creates(0)), Replayed(r))
      && retry.record == first.record
  {
    n := RequestIsAnswered(w, route, hash, false, r);
    var first := Served(Next(w, Arrive(route, hash, false)), |w.calls|, r, n);
    HeldKeyAnswers(Next(first, Tick(ms)), Call(route, hash, false, Creates(0)), r');
  }
}
