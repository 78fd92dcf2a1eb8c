/** Reserve-then-stamp idempotency for one (principal, key): lib/idempotency.ts and the
    choreography around it in app/api/idempotency.ts, as a step system. The unique index
    makes the key's record at most one row; any number of calls interleave at their awaits,
    any write may fail or land and throw, and time passes. */
module Idempotency {
  import opened Options

  const TTL_MS: nat := 86_400_000

  datatype Response = Response(status: nat, body: string)

  predicate IsOk(r: Response) {
    200 <= r.status <= 299
  }

  datatype Record = Record(id: nat, createdAt: int, route: string, hash: string, response: Option<Response>)

  /** One claim of the key, with what became of it: the history the record forgets. */
  datatype Owner = Owner(
    recordId: nat, at: int, route: string, hash: string, stamped: Option<Response>, abandoned: bool)

  datatype Outcome = Handled(response: Response) | Threw | Replayed(response: Response) | Mismatch | InFlight

  /** The await a call is about to perform. */
  datatype Pc =
    | Creates(attempt: nat)
    | Finds(attempt: nat)
    | Reclaims(attempt: nat, id: nat, createdAt: int, at: int)
    | Handles(owner: nat)
    | Completes(owner: nat, response: Response)
    | Abandons(owner: nat, after: Outcome)
    | Done(outcome: Outcome)

  /** A keyed request: its target, the fingerprint of its body, and whether a refusal of that
      body must release the key. */
  datatype Call = Call(route: string, hash: string, strict: bool, pc: Pc)

  datatype World = World(now: int, nextId: nat, record: Option<Record>, owners: seq<Owner>, calls: seq<Call>)

  datatype Db = Ok | Lost | Landed

  datatype Handler = HandlerThrows | Responds(response: Response)

  datatype Action =
    | Tick(ms: nat)
    | Arrive(route: string, hash: string, strict: bool)
    | Advance(id: nat, db: Db, handler: Handler)

  predicate Expired(createdAt: int, now: int) {
    now - createdAt >= TTL_MS
  }

  /** The loop's second pass, or its give-up answer. */
  function Again(attempt: nat): Pc {
    if attempt + 1 < 2 then Creates(attempt + 1) else Done(InFlight)
  }

  function At(w: World, id: nat, pc: Pc): World
    requires id < |w.calls|
  {
    w.(calls := w.calls[id := w.calls[id].(pc := pc)])
  }

  /** The call takes the key: a new row, or the expired one in place. */
  function Take(w: World, id: nat, recordId: nat, at: int, db: Db): World
    requires id < |w.calls|
  {
    var k := w.calls[id];
    At(w.(record := Some(Record(recordId, at, k.route, k.hash, None)),
          owners := w.owners + [Owner(recordId, at, k.route, k.hash, None, false)]),
       id, if db == Ok then Handles(|w.owners|) else Done(Threw))
  }

  function Begin(w: World, id: nat, db: Db): World
    requires id < |w.calls|
  {
    var k := w.calls[id];
    match k.pc
    case Creates(n) =>
      if db == Lost then At(w, id, Done(Threw))
      else if w.record.Some? then At(w, id, Finds(n))
      else Take(w.(nextId := w.nextId + 1), id, w.nextId, w.now, db)
    case Finds(n) =>
      if db != Ok then At(w, id, Done(Threw))
      else
        (match w.record
         case None => At(w, id, Again(n))
         case Some(r) =>
           if Expired(r.createdAt, w.now) then At(w, id, Reclaims(n, r.id, r.createdAt, w.now))
           else if r.route != k.route || r.hash != k.hash then At(w, id, Done(Mismatch))
           else if r.response.None? then At(w, id, Done(InFlight))
           else At(w, id, Done(Replayed(r.response.value))))
    case Reclaims(n, rid, createdAt, at) =>
      if db == Lost then At(w, id, Done(Threw))
      else if w.record.Some? && w.record.value.id == rid && w.record.value.createdAt == createdAt
      then Take(w, id, rid, at, db)
      else At(w, id, Again(n))
    case _ => w
  }

  predicate RowIs(w: World, recordId: nat) {
    w.record.Some? && w.record.value.id == recordId
  }

  /** The handler and the stamp or release of its reservation, by row id alone. */
  function Finish(w: World, id: nat, db: Db, handler: Handler): World
    requires id < |w.calls|
  {
    var k := w.calls[id];
    match k.pc
    case Handles(o) =>
      (match handler
       case HandlerThrows => At(w, id, Abandons(o, Threw))
       case Responds(r) => At(w, id, if k.strict && !IsOk(r) then Abandons(o, Handled(r)) else Completes(o, r)))
    case Completes(o, r) =>
      if o < |w.owners| && RowIs(w, w.owners[o].recordId) && db != Lost then
        var w' := w.(record := Some(w.record.value.(response := Some(r))),
          owners := w.owners[o := w.owners[o].(stamped := Some(r))]);
        At(w', id, if db == Ok then Done(Handled(r)) else Abandons(o, Threw))
      else At(w, id, Abandons(o, Threw))
    case Abandons(o, after) =>
      var w' :=
        if o < |w.owners| && db != Lost then
          w.(record := if RowIs(w, w.owners[o].recordId) then None else w.record,
             owners := w.owners[o := w.owners[o].(abandoned := true)])
        else w;
      At(w', id, if db == Ok then Done(after) else if after.Handled? then Abandons(o, Threw) else Done(Threw))
    case _ => w
  }

  function Next(w: World, a: Action): World {
    match a
    case Tick(ms) => w.(now := w.now + ms)
    case Arrive(route, hash, strict) => w.(calls := w.calls + [Call(route, hash, strict, Creates(0))])
    case Advance(id, db, handler) =>
      if id >= |w.calls| then w
      else if w.calls[id].pc.Creates? || w.calls[id].pc.Finds? || w.calls[id].pc.Reclaims? then Begin(w, id, db)
      else Finish(w, id, db, handler)
  }

  function Run(w: World, run: seq<Action>): World
    decreases |run|
  {
    if run == [] then w else Run(Next(w, run[0]), run[1..])
  }

  function Start(now: int): World {
    World(now, 0, None, [], [])
  }

  // ----- what a claimant may do to the row ----------------------------------

  function Holding(pc: Pc): Option<nat> {
    match pc
    case Handles(o) => Some(o)
    case Completes(o, _) => Some(o)
    case Abandons(o, _) => Some(o)
    case _ => None
  }

  /** Some claimant of the key stamped this response for this target and body. */
  ghost predicate StampedBy(w: World, r: Response, route: string, hash: string) {
    exists o :: 0 <= o < |w.owners| &&
      w.owners[o].stamped == Some(r) && w.owners[o].route == route && w.owners[o].hash == hash
  }

  /** A stamp lands on the row only as true for the request whose row it is, or when the row
      is past being replayed: the stamper claimed for that target and body, or someone who
      did has stamped the same response. */
  ghost predicate StampsTrue(w: World, a: Action) {
    a.Advance? && a.id < |w.calls| && w.calls[a.id].pc.Completes? && a.db != Lost ==>
      var o, r := w.calls[a.id].pc.owner, w.calls[a.id].pc.response;
      o < |w.owners| && RowIs(w, w.owners[o].recordId) && !Expired(w.record.value.createdAt, w.now) ==>
        || (w.owners[o].route == w.record.value.route && w.owners[o].hash == w.record.value.hash)
        || StampedBy(w, r, w.record.value.route, w.record.value.hash)
  }

  /** A release drops the row of a later claim only once that claim has expired. */
  predicate SparesClaim(w: World, a: Action) {
    a.Advance? && a.id < |w.calls| && w.calls[a.id].pc.Abandons? && a.db != Lost ==>
      var o := w.calls[a.id].pc.owner;
      o + 1 < |w.owners| && RowIs(w, w.owners[o].recordId) ==> Expired(w.record.value.createdAt, w.now)
  }

  /** Nobody stamps or releases a reservation that has meanwhile expired. */
  predicate Timely(w: World, a: Action) {
    a.Advance? && a.id < |w.calls| && (w.calls[a.id].pc.Completes? || w.calls[a.id].pc.Abandons?) ==>
      var o := Holding(w.calls[a.id].pc).value;
      o < |w.owners| && !Expired(w.owners[o].at, w.now)
  }

  ghost predicate TrueRun(w: World, run: seq<Action>)
    decreases |run|
  {
    run == [] || (StampsTrue(w, run[0]) && TrueRun(Next(w, run[0]), run[1..]))
  }

  predicate SparingRun(w: World, run: seq<Action>)
    decreases |run|
  {
    run == [] || (SparesClaim(w, run[0]) && SparingRun(Next(w, run[0]), run[1..]))
  }

  predicate TimelyRun(w: World, run: seq<Action>)
    decreases |run|
  {
    run == [] || (Timely(w, run[0]) && TimelyRun(Next(w, run[0]), run[1..]))
  }

  // ----- what holds in every run --------------------------------------------

  /** The row, while there is one, is the newest claim's; only its stamp may be another's. */
  ghost predicate NewestOk(w: World) {
    w.record.Some? ==>
      && w.owners != []
      && var r, o := w.record.value, w.owners[|w.owners| - 1];
         r.id == o.recordId && r.createdAt == o.at && r.route == o.route && r.hash == o.hash
  }

  /** Ids are never reused after their row is gone, and no claim is in the future. */
  ghost predicate IdsOk(w: World) {
    && (w.record.Some? ==> w.record.value.id < w.nextId)
    && forall i :: 0 <= i < |w.owners| ==>
         && w.owners[i].at <= w.now && w.owners[i].recordId < w.nextId
         && (w.owners[i].abandoned ==> !RowIs(w, w.owners[i].recordId))
  }

  ghost predicate CallOk(w: World, k: Call) {
    match k.pc
    case Reclaims(_, _, createdAt, at) => createdAt + TTL_MS <= at <= w.now
    case Handles(o) => o < |w.owners| && w.owners[o].stamped == None && !w.owners[o].abandoned
    case Completes(o, _) => o < |w.owners| && w.owners[o].stamped == None && !w.owners[o].abandoned
    case Abandons(o, after) => o < |w.owners| && (after.Handled? || after.Threw?)
    case _ => true
  }

  /** No two calls hold one claim. */
  ghost predicate OwnersDistinct(w: World) {
    forall i, j :: 0 <= i < j < |w.calls| && Holding(w.calls[i].pc).Some? ==>
      Holding(w.calls[i].pc) != Holding(w.calls[j].pc)
  }

  ghost predicate WorldOk(w: World) {
    && NewestOk(w) && IdsOk(w) && OwnersDistinct(w)
    && forall i :: 0 <= i < |w.calls| ==> CallOk(w, w.calls[i])
  }

  // ----- the two promises ---------------------------------------------------

  /** Two claims of the key: the earlier was released, or had expired when the later began. */
  predicate Apart(first: Owner, second: Owner) {
    first.abandoned || second.at >= first.at + TTL_MS
  }

  ghost predicate Separated(owners: seq<Owner>) {
    forall i, j :: 0 <= i < j < |owners| ==> Apart(owners[i], owners[j])
  }

  /** Claims are apart, and while there is no row every claim is over. */
  ghost predicate WindowOk(w: World) {
    && Separated(w.owners)
    && (w.record.None? ==> forall i :: 0 <= i < |w.owners| ==> Over(w.owners[i], w.now))
  }

  predicate Over(o: Owner, now: int) {
    o.abandoned || Expired(o.at, now)
  }

  /** Every replay was stamped for this very target and body. */
  ghost predicate ReplaysTrue(w: World) {
    forall i :: 0 <= i < |w.calls| ==> ReplayTrue(w, w.calls[i])
  }

  ghost predicate ReplayTrue(w: World, k: Call) {
    k.pc.Done? && k.pc.outcome.Replayed? ==> StampedBy(w, k.pc.outcome.response, k.route, k.hash)
  }

  /** And so was whatever the row would replay. */
  ghost predicate RowTrue(w: World) {
    w.record.Some? && w.record.value.response.Some? && !Expired(w.record.value.createdAt, w.now) ==>
      StampedBy(w, w.record.value.response.value, w.record.value.route, w.record.value.hash)
  }
}
