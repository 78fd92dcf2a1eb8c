/** The same protocol as the source writes it: the retry loop of beginIdempotent and the
    try/catch of withIdempotentWrite, as methods over a shared table. At every await other
    calls run first; then the method writes its own statement's effect on the table it
    finds. Each write is checked against the step system, so the call is a run of it. */
module IdempotentWrite {
  import opened Options
  import opened Idempotency
  import opened IdempotencyTheorems

  /** What happens at one await: what others do first, how the statement ends, and what the
      handler answers if it is the handler's turn. */
  datatype Moment = Moment(others: seq<Action>, db: Db, handler: Handler)

  datatype Created = Own(owner: nat) | UniqueViolation | CreateThrew

  datatype Found = Expires(id: nat, createdAt: int) | Missing | Answers(outcome: Outcome)

  datatype Claimed = Won(owner: nat) | LostRace | ReclaimThrew

  datatype Begun = Fresh(owner: nat) | Ended(outcome: Outcome)

  /** The claim is the newest, its row is its own, and it has not been answered. */
  predicate FreshClaim(w: World, o: nat, route: string, hash: string) {
    && o + 1 == |w.owners| && RowIs(w, w.owners[o].recordId)
    && w.record.value.route == route && w.record.value.hash == hash && w.record.value.response == None
    && w.owners[o] == Owner(w.record.value.id, w.record.value.createdAt, route, hash, None, false)
  }

  /** What the record must be for a request to be given this answer without running. */
  predicate AnsweredBy(record: Option<Record>, now: int, k: Call, outcome: Outcome) {
    match outcome
    case Mismatch => Live(record, now) && (record.value.route != k.route || record.value.hash != k.hash)
    case InFlight => Same(record, now, k) && record.value.response == None
    case Replayed(r) => Same(record, now, k) && record.value.response == Some(r)
    case Threw => true
    case Handled(_) => false
  }

  predicate Live(record: Option<Record>, now: int) {
    record.Some? && !Expired(record.value.createdAt, now)
  }

  predicate Same(record: Option<Record>, now: int, k: Call) {
    Live(record, now) && record.value.route == k.route && record.value.hash == k.hash
  }

  /** The claim has been released, and its row with it. */
  predicate Released(w: World, o: nat) {
    o < |w.owners| && w.owners[o].abandoned && !RowIs(w, w.owners[o].recordId)
  }

  /** The response is on the claim and on its row. */
  predicate Stamped(w: World, o: nat, response: Response) {
    && o < |w.owners| && w.owners[o].stamped == Some(response)
    && RowIs(w, w.owners[o].recordId) && w.record.value.response == Some(response)
  }

  lemma OtherStepSpares(w: World, a: Action, id: nat)
    requires id < |w.calls| && !(a.Advance? && a.id == id)
    ensures id < |Next(w, a).calls| && Next(w, a).calls[id] == w.calls[id]
    ensures |w.owners| <= |Next(w, a).owners|
  {
  }

  lemma RunSnoc(w: World, run: seq<Action>, a: Action)
    ensures Run(w, run + [a]) == Next(Run(w, run), a)
  {
    RunConcat(w, run, [a]);
    OneStep(Run(w, run), a);
  }

  class KeyTable {
    const env: nat -> Moment
    var w: World
    var awaits: nat
    ghost const start: World
    ghost var trace: seq<Action>

    constructor (now: int, env: nat -> Moment)
      ensures Valid() && w == start == Start(now) && this.env == env
    {
      w, this.env, awaits := Start(now), env, 0;
      start, trace := Start(now), [];
    }

    /** The table is where the step system gets from an unused key by the actions so far. */
    ghost predicate Valid()
      reads this
    {
      start == Start(start.now) && w == Run(start, trace)
    }

    predicate AtPc(id: nat, pc: Pc)
      reads this
    {
      id < |w.calls| && w.calls[id].pc == pc
    }

    /** The same request has got to this point. */
    twostate predicate Reached(id: nat, pc: Pc)
      reads this
    {
      && Valid() && id < |old(w.calls)| && id < |w.calls|
      && w.calls[id] == old(w.calls[id]).(pc := pc)
    }

    /** Others run before an await: the call stands where it stood, and no claim of the key
        is forgotten. */
    method Others(id: nat) returns (m: Moment)
      requires Valid() && id < |w.calls|
      modifies this`w, this`awaits, this`trace
      ensures Valid() && id < |w.calls| && w.calls[id] == old(w.calls[id])
      ensures |old(w.owners)| <= |w.owners|
    {
      m := env(awaits);
      awaits := awaits + 1;
      var others := m.others;
      while others != []
        invariant Valid() && id < |w.calls| && w.calls[id] == old(w.calls[id])
        invariant |old(w.owners)| <= |w.owners|
      {
        var a := others[0];
        others := others[1..];
        if !(a.Advance? && a.id == id) {
          OtherStepSpares(w, a, id);
          RunSnoc(start, trace, a);
          w := Next(w, a);
          trace := trace + [a];
        }
      }
    }

    /** This call's statement: the table it leaves must be what the step system allows. */
    method Commit(id: nat, m: Moment, w': World)
      requires Valid() && id < |w.calls| && w' == Next(w, Advance(id, m.db, m.handler))
      modifies this`w, this`trace
      ensures Valid() && w == w'
    {
      RunSnoc(start, trace, Advance(id, m.db, m.handler));
      w := w';
      trace := trace + [Advance(id, m.db, m.handler)];
    }

    /** create(): the unique index decides. A violation means a row was there, and changes
        nothing; a create that returns found none, and its row is the newest claim's. */
    method Create(id: nat, attempt: nat) returns (r: Created, ghost found: World)
      requires Valid() && AtPc(id, Creates(attempt))
      modifies this`w, this`awaits, this`trace
      ensures Reached(id, match r
        case Own(o) => Handles(o)
        case UniqueViolation => Finds(attempt)
        case CreateThrew => Done(Threw))
      ensures r.UniqueViolation? ==> found.record.Some?
      ensures found.record.Some? ==> !r.Own? && w.record == found.record && w.owners == found.owners
      ensures r.Own? ==>
        FreshClaim(w, r.owner, w.calls[id].route, w.calls[id].hash) && w.record.value.id == found.nextId
    {
      var m := Others(id);
      found := w;
      var k := w.calls[id];
      if m.db == Lost {
        Commit(id, m, At(w, id, Done(Threw)));
        return CreateThrew, found;
      }
      if w.record.Some? {
        Commit(id, m, At(w, id, Finds(attempt)));
        return UniqueViolation, found;
      }
      var o := |w.owners|;
      var w' := w.(nextId := w.nextId + 1,
                   record := Some(Record(w.nextId, w.now, k.route, k.hash, None)),
                   owners := w.owners + [Owner(w.nextId, w.now, k.route, k.hash, None, false)]);
      r := if m.db == Ok then Own(o) else CreateThrew;
      Commit(id, m, At(w', id, if m.db == Ok then Handles(o) else Done(Threw)));
    }

    /** findUnique(), and what the row found says: nothing there, expired, or one of the
        answers. It writes nothing. */
    method Find(id: nat, attempt: nat) returns (r: Found, now: int)
      requires Valid() && AtPc(id, Finds(attempt))
      modifies this`w, this`awaits, this`trace
      ensures Reached(id, match r
        case Expires(rid, createdAt) => Reclaims(attempt, rid, createdAt, now)
        case Missing => Again(attempt)
        case Answers(outcome) => Done(outcome))
      ensures now == w.now
      ensures r.Missing? ==> w.record == None
      ensures r.Expires? ==>
        w.record.Some? && w.record.value.id == r.id && w.record.value.createdAt == r.createdAt &&
          Expired(r.createdAt, now)
      ensures r.Answers? ==> AnsweredBy(w.record, now, w.calls[id], r.outcome)
    {
      var m := Others(id);
      now := w.now;
      r := if m.db != Ok then Answers(Threw) else Reading(w.record, now, w.calls[id]);
      Commit(id, m, At(w, id, match r
        case Expires(rid, createdAt) => Reclaims(attempt, rid, createdAt, now)
        case Missing => Again(attempt)
        case Answers(outcome) => Done(outcome)));
    }

    function Reading(record: Option<Record>, now: int, k: Call): Found {
      match record
      case None => Missing
      case Some(existing) =>
        if Expired(existing.createdAt, now) then Expires(existing.id, existing.createdAt)
        else if existing.route != k.route || existing.hash != k.hash then Answers(Mismatch)
        else if existing.response.None? then Answers(InFlight)
        else Answers(Replayed(existing.response.value))
    }

    /** updateMany() conditional on the row that was read: it wins only over that very row,
        and loses, changing nothing, to any other. */
    method Reclaim(id: nat, attempt: nat, rid: nat, createdAt: int, at: int) returns (r: Claimed, ghost found: World)
      requires Valid() && AtPc(id, Reclaims(attempt, rid, createdAt, at))
      modifies this`w, this`awaits, this`trace
      ensures Reached(id, match r
        case Won(o) => Handles(o)
        case LostRace => Again(attempt)
        case ReclaimThrew => Done(Threw))
      ensures r.Won? ==> RowIs(found, rid) && found.record.value.createdAt == createdAt
      ensures r.LostRace? ==> !(RowIs(found, rid) && found.record.value.createdAt == createdAt)
      ensures !(RowIs(found, rid) && found.record.value.createdAt == createdAt) ==>
        w.record == found.record && w.owners == found.owners
      ensures r.Won? ==>
        && FreshClaim(w, r.owner, w.calls[id].route, w.calls[id].hash)
        && w.record.value.id == rid && w.record.value.createdAt == at
    {
      var m := Others(id);
      found := w;
      var k := w.calls[id];
      if m.db == Lost {
        Commit(id, m, At(w, id, Done(Threw)));
        return ReclaimThrew, found;
      }
      var claimed := w.record.Some? && w.record.value.id == rid && w.record.value.createdAt == createdAt;
      if !claimed {
        Commit(id, m, At(w, id, Again(attempt)));
        return LostRace, found;
      }
      var o := |w.owners|;
      var w' := w.(record := Some(Record(rid, at, k.route, k.hash, None)),
                   owners := w.owners + [Owner(rid, at, k.route, k.hash, None, false)]);
      r := if m.db == Ok then Won(o) else ReclaimThrew;
      Commit(id, m, At(w', id, if m.db == Ok then Handles(o) else Done(Threw)));
    }

    /** Claim the key or report what its record says: create, else read, else reclaim, at
        most twice. A claim is the newest one and its row is fresh; an answer is what the
        record says, or in flight when both passes lost. */
    method BeginIdempotent(id: nat) returns (r: Begun)
      requires Valid() && AtPc(id, Creates(0))
      modifies this`w, this`awaits, this`trace
      ensures Reached(id, match r case Fresh(o) => Handles(o) case Ended(outcome) => Done(outcome))
      ensures r.Fresh? ==> FreshClaim(w, r.owner, w.calls[id].route, w.calls[id].hash)
      ensures r.Ended? && r.outcome != InFlight ==> AnsweredBy(w.record, w.now, w.calls[id], r.outcome)
    {
      var attempt := 0;
      while attempt < 2
        invariant attempt <= 2 && Reached(id, if attempt < 2 then Creates(attempt) else Done(InFlight))
      {
        var created, _ := Create(id, attempt);
        match created {
          case Own(o) => return Fresh(o);
          case CreateThrew => return Ended(Threw);
          case UniqueViolation =>
        }
        var found, now := Find(id, attempt);
        match found {
          case Answers(outcome) => return Ended(outcome);
          case Missing =>
          case Expires(rid, createdAt) =>
            var claimed, _ := Reclaim(id, attempt, rid, createdAt, now);
            match claimed {
              case ReclaimThrew => return Ended(Threw);
              case Won(o) => return Fresh(o);
              case LostRace =>
            }
        }
        attempt := attempt + 1;
      }
      return Ended(InFlight);
    }

    /** abandonIdempotent(): when it returns, the claim is released and its row is gone; no
        other row is touched. */
    method Abandon(id: nat, o: nat, after: Outcome) returns (ok: bool, ghost found: World)
      requires Valid() && AtPc(id, Abandons(o, after)) && o < |w.owners|
      modifies this`w, this`awaits, this`trace
      ensures Reached(id, if ok then Done(after) else if after.Handled? then Abandons(o, Threw) else Done(Threw))
      ensures ok ==> Released(w, o)
      ensures o < |found.owners| && (!RowIs(found, found.owners[o].recordId) ==> w.record == found.record)
      ensures o < |w.owners|
    {
      var m := Others(id);
      found := w;
      ok := m.db == Ok;
      var next := if ok then Done(after) else if after.Handled? then Abandons(o, Threw) else Done(Threw);
      if m.db == Lost {
        Commit(id, m, At(w, id, next));
        return;
      }
      var w' := w.(record := if RowIs(w, w.owners[o].recordId) then None else w.record,
                   owners := w.owners[o := w.owners[o].(abandoned := true)]);
      Commit(id, m, At(w', id, next));
    }

    /** completeIdempotent(): it returns only if the row is still there, and then the row and
        the claim carry the response. */
    method Complete(id: nat, o: nat, response: Response) returns (ok: bool, ghost found: World)
      requires Valid() && AtPc(id, Completes(o, response)) && o < |w.owners|
      modifies this`w, this`awaits, this`trace
      ensures Reached(id, if ok then Done(Handled(response)) else Abandons(o, Threw))
      ensures ok ==> Stamped(w, o, response)
      ensures o < |found.owners| && (!RowIs(found, found.owners[o].recordId) ==> !ok && w.record == found.record)
      ensures o < |w.owners|
    {
      var m := Others(id);
      found := w;
      if !RowIs(w, w.owners[o].recordId) || m.db == Lost {
        Commit(id, m, At(w, id, Abandons(o, Threw)));
        return false, found;
      }
      var w' := w.(record := Some(w.record.value.(response := Some(response))),
                   owners := w.owners[o := w.owners[o].(stamped := Some(response))]);
      ok := m.db == Ok;
      Commit(id, m, At(w', id, if ok then Done(Handled(response)) else Abandons(o, Threw)));
    }

    /** The handler: its answer, or None when it throws. */
    method Handle(id: nat, o: nat, strict: bool) returns (r: Option<Response>)
      requires Valid() && AtPc(id, Handles(o)) && w.calls[id].strict == strict && o < |w.owners|
      modifies this`w, this`awaits, this`trace
      ensures Reached(id, match r
        case None => Abandons(o, Threw)
        case Some(res) => if strict && !IsOk(res) then Abandons(o, Handled(res)) else Completes(o, res))
      ensures o < |w.owners|
    {
      var m := Others(id);
      r := if m.handler.Responds? then Some(m.handler.response) else None;
      Commit(id, m, At(w, id, match r
        case None => Abandons(o, Threw)
        case Some(res) => if strict && !IsOk(res) then Abandons(o, Handled(res)) else Completes(o, res)));
    }

    /** The try block around the handler, and its catch: a response is answered only once it
        is stamped, or, as a refusal of a malformed body, once the key is released; anything
        else releases the key, if the release returns, and throws. */
    method RunClaimed(id: nat, o: nat) returns (outcome: Outcome, ghost freed: bool)
      requires Valid() && AtPc(id, Handles(o)) && o < |w.owners|
      modifies this`w, this`awaits, this`trace
      ensures Reached(id, Done(outcome)) && (outcome.Handled? || outcome.Threw?)
      ensures outcome.Handled? && (!w.calls[id].strict || 200 <= outcome.response.status <= 299) ==>
        Stamped(w, o, outcome.response)
      ensures outcome.Handled? && w.calls[id].strict && !(200 <= outcome.response.status <= 299) ==> Released(w, o)
      ensures outcome.Threw? && freed ==> Released(w, o)
    {
      var strict := w.calls[id].strict;
      var res := Handle(id, o, strict);
      if res.Some? {
        if strict && !IsOk(res.value) {
          var released, _ := Abandon(id, o, Handled(res.value));
          if released {
            return Handled(res.value), true;
          }
        } else {
          var stamped, _ := Complete(id, o, res.value);
          if stamped {
            return Handled(res.value), false;
          }
        }
      }
      // catch: release the key and rethrow.
      var released, _ := Abandon(id, o, Threw);
      return Threw, released;
    }

    /** withIdempotentWrite, from a keyed request to its outcome. While releases spare later
        claims the claims of the key stay apart, and while stamps are true a replay is a
        stamp for this very request. */
    method WithIdempotentWrite(route: string, hash: string, strict: bool) returns (outcome: Outcome, id: nat)
      requires Valid()
      modifies this`w, this`awaits, this`trace
      ensures Valid() && AtPc(id, Done(outcome))
      ensures w.calls[id].route == route && w.calls[id].hash == hash
      ensures SparingRun(start, trace) ==> Separated(w.owners)
      ensures TrueRun(start, trace) && outcome.Replayed? ==> StampedBy(w, outcome.response, route, hash)
    {
      id := Arrives(route, hash, strict);
      var begun := BeginIdempotent(id);
      match begun {
        case Ended(result) =>
          outcome := result;
        case Fresh(o) =>
          var answered, _ := RunClaimed(id, o);
          outcome := answered;
      }
      if SparingRun(start, trace) {
        SparingKeepsWindow(start, trace);
      }
      if TrueRun(start, trace) && outcome.Replayed? {
        ReplaysAreStamps(start.now, trace, id);
      }
    }

    method Arrives(route: string, hash: string, strict: bool) returns (id: nat)
      requires Valid()
      modifies this`w, this`trace
      ensures Valid() && AtPc(id, Creates(0)) && w.calls[id] == Call(route, hash, strict, Creates(0))
    {
      id := |w.calls|;
      RunSnoc(start, trace, Arrive(route, hash, strict));
      w := Next(w, Arrive(route, hash, strict));
      trace := trace + [Arrive(route, hash, strict)];
    }
  }
}
