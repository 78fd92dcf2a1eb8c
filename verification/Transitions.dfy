/** The one way a payment's status changes, lib/transitions.ts: a compare-and-swap on the
    status the caller remembers, with the audit event and the lease release in the same
    transaction. */
module Transitions {
  import opened Options
  import opened PaymentState
  import opened Audit

  datatype Move = Move(from: Status, to: Status)

  datatype Row = Row(status: Status, lease: Option<nat>, columns: map<string, string>)

  /** Where a transaction throws, if it does. */
  datatype Fault = NoFault | BeforeCommit | AfterCommit

  /** One call: the status the caller remembers, the status it wants, the columns it writes
      with it, and how the transaction ends. */
  datatype Attempt = Attempt(from: Status, to: Status, columns: map<string, string>, fault: Fault)

  /** A payment with the moves its audit events record, oldest first. */
  datatype Payment = Payment(row: Row, moves: seq<Move>)

  predicate Applies(p: Payment, a: Attempt) {
    CanTransition(a.from, a.to) && p.row.status == a.from && a.fault != BeforeCommit
  }

  /** What an attempt leaves behind, however it ends. */
  function Apply(p: Payment, a: Attempt): Payment {
    if !Applies(p, a) then p
    else
      Payment(
        Row(a.to, if ReleasesLease(a.to) then None else p.row.lease, p.row.columns + a.columns),
        p.moves + [Move(a.from, a.to)])
  }

  /** Any number of writers, each from whatever status it remembers. */
  function ApplyAll(p: Payment, run: seq<Attempt>): Payment
    decreases |run|
  {
    if run == [] then p else ApplyAll(Apply(p, run[0]), run[1..])
  }

  /** The statuses the moves go through, from DRAFT. */
  function Path(moves: seq<Move>): (path: seq<Status>)
    ensures |path| == |moves| + 1
  {
    if moves == [] then [Draft] else Path(moves[..|moves| - 1]) + [moves[|moves| - 1].to]
  }

  /** The audit trail tells the status: folding its moves from DRAFT ends where the row is,
      every move starts where the one before it ended, and every one is legal. */
  ghost predicate Told(p: Payment) {
    && IsPath(Path(p.moves))
    && Path(p.moves)[|p.moves|] == p.row.status
    && forall i :: 0 <= i < |p.moves| ==> p.moves[i].from == Path(p.moves)[i] && p.moves[i].to == Path(p.moves)[i + 1]
  }

  lemma PathAppends(moves: seq<Move>, m: Move)
    ensures Path(moves + [m]) == Path(moves) + [m.to]
  {
    assert (moves + [m])[..|moves|] == moves;
  }

  lemma PathGrows(path: seq<Status>, to: Status)
    requires IsPath(path) && path != [] && CanTransition(path[|path| - 1], to)
    ensures IsPath(path + [to])
  {
  }

  lemma ApplyKeepsTold(p: Payment, a: Attempt)
    requires Told(p)
    ensures Told(Apply(p, a))
  {
    if Applies(p, a) {
      PathAppends(p.moves, Move(a.from, a.to));
      var q, path := Apply(p, a), Path(p.moves);
      assert Path(q.moves) == path + [a.to];
      PathGrows(path, a.to);
      forall i | 0 <= i < |q.moves|
        ensures q.moves[i].from == Path(q.moves)[i] && q.moves[i].to == Path(q.moves)[i + 1]
      {
        assert i < |p.moves| ==> q.moves[i] == p.moves[i];
      }
    }
  }

  /** For every run of racing writers the trail tells the status, and re-quotes aside it is
      no longer than the status table's height. */
  lemma {:induction false} TrailTellsStatus(p: Payment, run: seq<Attempt>)
    requires Told(p)
    ensures var q := ApplyAll(p, run);
      && Told(q)
      && |q.moves| <= Requotes(Path(q.moves)) + Rank(Draft) - Rank(q.row.status)
    decreases |run|
  {
    if run == [] {
      PathStartsInDraft(p.moves);
      PathsAreBounded(Path(p.moves));
    } else {
      ApplyKeepsTold(p, run[0]);
      TrailTellsStatus(Apply(p, run[0]), run[1..]);
    }
  }

  lemma {:induction false} PathStartsInDraft(moves: seq<Move>)
    ensures Path(moves)[0] == Draft
  {
    if moves != [] {
      PathStartsInDraft(moves[..|moves| - 1]);
    }
  }

  /** Of any number of writers racing from one status at most one ever wins, over the whole
      life of the payment; only QUOTED can be left twice, and then only by re-quotes. */
  lemma OneWinnerPerStatus(p: Payment, i: nat, j: nat)
    requires Told(p) && i < j < |p.moves| && p.moves[i].from == p.moves[j].from
    ensures p.moves[i].from == Quoted && forall k :: i <= k < j ==> p.moves[k] == Move(Quoted, Quoted)
  {
    QuotedStretch(p, i, j);
  }

  lemma QuotedStretch(p: Payment, i: nat, j: nat)
    requires Told(p) && i < j <= |p.moves| && Path(p.moves)[i] == Path(p.moves)[j]
    ensures Path(p.moves)[i] == Quoted && forall k :: i <= k < j ==> p.moves[k] == Move(Quoted, Quoted)
  {
    var path := Path(p.moves);
    PathsNeverReturn(path, i, j);
    forall k | i <= k < j ensures p.moves[k] == Move(Quoted, Quoted) {
      assert p.moves[k].from == path[k] && p.moves[k].to == path[k + 1];
    }
  }

  /** No status but QUOTED is entered twice: of two racing executes one enters the compliance
      gate, of two reviewers one decides. */
  lemma EnteredOnce(p: Payment, i: nat, j: nat)
    requires Told(p) && i < |p.moves| && j < |p.moves| && p.moves[i].to == p.moves[j].to != Quoted
    ensures i == j
  {
    var path := Path(p.moves);
    assert p.moves[i].to == path[i + 1] && p.moves[j].to == path[j + 1];
    if i < j {
      PathsNeverReturn(path, i + 1, j + 1);
    } else if j < i {
      PathsNeverReturn(path, j + 1, i + 1);
    }
  }

  /** Moves are only ever added. */
  lemma {:induction false} TrailOnlyGrows(p: Payment, run: seq<Attempt>)
    ensures p.moves <= ApplyAll(p, run).moves
    decreases |run|
  {
    if run != [] {
      TrailOnlyGrows(Apply(p, run[0]), run[1..]);
    }
  }

  /** A swap compares only the status, yet it almost compares the row: if the status a writer
      read is still there when it swaps, nothing moved in between except re-quotes, and
      nothing at all unless it read QUOTED. */
  lemma SameStatusMeansUntouched(p: Payment, run: seq<Attempt>)
    requires Told(p) && ApplyAll(p, run).row.status == p.row.status
    ensures var q := ApplyAll(p, run);
      && (p.row.status != Quoted ==> q == p)
      && forall k :: |p.moves| <= k < |q.moves| ==> q.moves[k] == Move(Quoted, Quoted)
  {
    var q := ApplyAll(p, run);
    TrailTellsStatus(p, run);
    TrailOnlyGrows(p, run);
    PathExtends(p.moves, q.moves);
    assert Path(q.moves)[|p.moves|] == Path(p.moves)[|p.moves|];
    if |p.moves| < |q.moves| {
      QuotedStretch(q, |p.moves|, |q.moves|);
    } else {
      NoMoveNoChange(p, run);
    }
  }

  lemma {:induction false} PathExtends(moves: seq<Move>, more: seq<Move>)
    requires moves <= more
    ensures Path(moves) <= Path(more)
    decreases |more|
  {
    if moves != more {
      var init := more[..|more| - 1];
      assert moves == more[..|moves|] && moves == init[..|moves|];
      PathExtends(moves, init);
    }
  }

  lemma {:induction false} NoMoveNoChange(p: Payment, run: seq<Attempt>)
    requires |ApplyAll(p, run).moves| <= |p.moves|
    ensures ApplyAll(p, run) == p
    decreases |run|
  {
    if run != [] {
      TrailOnlyGrows(Apply(p, run[0]), run[1..]);
      NoMoveNoChange(Apply(p, run[0]), run[1..]);
    }
  }

  /** The exception is real: a writer that read an older quote still swaps over a newer one. */
  lemma RequoteGoesUnnoticed(p: Payment, newer: map<string, string>, older: map<string, string>)
    requires p.row.status == Quoted
    ensures var requoted := Apply(p, Attempt(Quoted, Quoted, newer, NoFault));
      Applies(requoted, Attempt(Quoted, CompliancePending, older, NoFault))
  {
  }

  /** Once concluded for good, no writer changes anything. */
  lemma {:induction false} TerminalIsFinal(p: Payment, run: seq<Attempt>)
    requires Terminal(p.row.status)
    ensures ApplyAll(p, run) == p
    decreases |run|
  {
    if run != [] {
      TerminalMeansStuck(p.row.status);
      TerminalIsFinal(p, run[1..]);
    }
  }

  // ----- the transaction ----------------------------------------------------

  datatype Outcome =
    | Done(row: Row)
    | InvalidTransition
    | StaleTransition
    | Threw

  /** The moves recorded in a log for one payment; other events decode to nothing. */
  function Moves(events: seq<Event>, id: string, decode: string -> Option<Move>): seq<Move> {
    if events == [] then []
    else
      var e := events[|events| - 1].entry;
      Moves(events[..|events| - 1], id, decode) +
      (if e.paymentId == Some(id) && decode(e.detail).Some? then [decode(e.detail).value] else [])
  }

  lemma MovesAppend(events: seq<Event>, e: Event, id: string, decode: string -> Option<Move>)
    ensures Moves(events + [e], id, decode) == Moves(events, id, decode) +
      (if e.entry.paymentId == Some(id) && decode(e.entry.detail).Some? then [decode(e.entry.detail).value] else [])
  {
    assert (events + [e])[..|events|] == events;
  }

  /** What other writers do while this one waits: swap this payment's status, or log
      something that is no move of it. */
  datatype Other = Writes(attempt: Attempt) | Logs(entry: Entry)

  function Attempts(others: seq<Other>): seq<Attempt> {
    if others == [] then []
    else (if others[0].Writes? then [others[0].attempt] else []) + Attempts(others[1..])
  }

  /** One payment's row beside the audit tables. `encode` is the JSON of an event's detail,
      `decode` reads the move back out of it. */
  class PaymentStore {
    const id: string
    const log: Log
    const encode: Move -> string
    const decode: string -> Option<Move>
    var row: Row

    constructor (id: string, log: Log, encode: Move -> string, decode: string -> Option<Move>)
      requires log.Valid() && Moves(log.events, id, decode) == []
      requires forall m: Move :: decode(encode(m)) == Some(m)
      ensures Valid() && this.id == id && this.log == log && Current() == Payment(Row(Draft, None, map[]), [])
    {
      this.id, this.log, this.encode, this.decode := id, log, encode, decode;
      row := Row(Draft, None, map[]);
    }

    ghost function Current(): Payment
      reads this, log
    {
      Payment(row, Moves(log.events, id, decode))
    }

    ghost predicate Valid()
      reads this, log
    {
      log.Valid() && (forall m: Move :: decode(encode(m)) == Some(m)) && Told(Current())
    }

    /** Swap and event commit together or not at all. */
    method TransitionStatus(a: Attempt, action: string, actor: string) returns (r: Outcome)
      requires Valid()
      modifies this, log
      ensures Valid() && Current() == Apply(old(Current()), a)
      ensures r == InvalidTransition <==> !CanTransition(a.from, a.to)
      ensures r == StaleTransition <==> CanTransition(a.from, a.to) && old(row.status) != a.from
      ensures r.Done? <==> Applies(old(Current()), a) && a.fault == NoFault
      ensures r.Done? ==> r.row == row && row.status == a.to
      ensures r.Done? && a.to in {Settled, Compensated, Rejected, Cancelled, Refunded, Expired, Failed} ==>
        row.lease == None
      ensures r.Done? && a.to !in {Settled, Compensated, Rejected, Cancelled, Refunded, Expired, Failed} ==>
        row.lease == old(row.lease)
      ensures r.Done? ==> forall k :: k in row.columns.Keys <==> k in a.columns || k in old(row.columns)
      ensures r.Done? ==> forall k :: k in row.columns ==>
        row.columns[k] == if k in a.columns then a.columns[k] else old(row.columns)[k]
      ensures !Applies(old(Current()), a) ==> log.events == old(log.events) && log.checkpoints == old(log.checkpoints)
      ensures Applies(old(Current()), a) ==>
        |log.events| == |old(log.events)| + 1 && log.events[..|old(log.events)|] == old(log.events)
        && log.events[|old(log.events)|].entry == Entry(action, actor, Some(id), encode(Move(a.from, a.to)))
    {
      if !CanTransition(a.from, a.to) {
        return InvalidTransition;
      }
      if row.status != a.from {
        return StaleTransition;
      }
      var row0, events, checkpoints, nextId := row, log.events, log.checkpoints, log.nextId;
      SwapAndLog(a, action, actor);
      if a.fault == BeforeCommit {
        row := row0;
        log.Rollback(events, checkpoints, nextId);
        return Threw;
      }
      r := if a.fault == NoFault then Done(row) else Threw;
    }

    /** The body of the transaction: the swap, the lease release and the event. */
    method SwapAndLog(a: Attempt, action: string, actor: string)
      requires Valid() && CanTransition(a.from, a.to) && row.status == a.from
      modifies this, log
      ensures Valid() && Current() == Apply(old(Current()), a.(fault := NoFault))
      ensures |log.events| == |old(log.events)| + 1 && log.events[..|old(log.events)|] == old(log.events)
      ensures log.events[|old(log.events)|].entry == Entry(action, actor, Some(id), encode(Move(a.from, a.to)))
      ensures log.nextId >= old(log.nextId)
    {
      ghost var before := Current();
      ApplyKeepsTold(before, a.(fault := NoFault));
      ghost var events := log.events;
      row := Row(a.to, if ReleasesLease(a.to) then None else row.lease, row.columns + a.columns);
      var e := log.AppendEvent(Entry(action, actor, Some(id), encode(Move(a.from, a.to))));
      MovesAppend(events, e, id, decode);
      assert Current() == Payment(row, before.moves + [Move(a.from, a.to)]);
      assert log.events[..|events|] == events;
    }

    /** What the others log is no move of this payment: moves are only logged by swaps. */
    predicate Foreign(others: seq<Other>) {
      forall i :: 0 <= i < |others| && others[i].Logs? ==>
        others[i].entry.paymentId != Some(id) || decode(others[i].entry.detail) == None
    }

    /** Other writers run. */
    method Interleave(others: seq<Other>)
      requires Valid() && Foreign(others)
      modifies this, log
      ensures Valid() && Current() == ApplyAll(old(Current()), Attempts(others))
    {
      var i := 0;
      ghost var p := Current();
      while i < |others|
        invariant i <= |others| && Valid()
        invariant ApplyAll(p, Attempts(others)) == ApplyAll(Current(), Attempts(others[i..]))
      {
        AttemptsCons(others[i..]);
        match others[i] {
          case Writes(a) =>
            var _ := TransitionStatus(a, "", "");
          case Logs(entry) =>
            var _ := LogElsewhere(entry);
        }
        i := i + 1;
      }
    }

    /** An event that is no move of this payment. */
    method LogElsewhere(entry: Entry) returns (e: Event)
      requires Valid() && (entry.paymentId != Some(id) || decode(entry.detail) == None)
      modifies log
      ensures Valid() && Current() == old(Current()) && log.events == old(log.events) + [e]
    {
      ghost var events, before := log.events, Current();
      e := log.AppendEvent(entry);
      MovesAppend(events, e, id, decode);
      assert before.moves + [] == before.moves;
      assert Current() == before;
    }
  }

  lemma AttemptsCons(others: seq<Other>)
    requires others != []
    ensures var rest := Attempts(others[1..]);
      if others[0].Writes? then Attempts(others) != [] &&
        Attempts(others)[0] == others[0].attempt && Attempts(others)[1..] == rest
      else Attempts(others) == rest
  {
  }
}
