/** The hash-chained audit log of lib/audit.ts: appending, anchoring and verifying. The hash
    and the keyed signature are parameters; nothing is assumed of them but the alphabet of
    the hash's output. */
module Audit {
  import opened Options
  import opened Decimals

  const GENESIS := "GENESIS"

  /** What an event records; its detail is JSON text. */
  datatype Entry = Entry(action: string, actor: string, paymentId: Option<string>, detail: string)

  datatype Event = Event(id: nat, entry: Entry, prevHash: string, hash: string)

  /** A signed anchor; checkpoints are kept in id order. */
  datatype Checkpoint = Checkpoint(lastEventId: nat, chainHash: string, signature: string)

  /** SHA-256 in hex, HMAC in hex, the anchor key if one is configured, and the interval. */
  datatype Setup = Setup(sha: string -> string, mac: (string, string) -> string, key: Option<string>, interval: nat)

  // ----- the chain ----------------------------------------------------------

  /** The string hashEvent hashes: five fields joined by bars, a missing payment as "". */
  function Preimage(prev: string, e: Entry): string {
    prev + "|" + (e.action + "|" + (e.actor + "|" + (PaymentField(e) + "|" + e.detail)))
  }

  function PaymentField(e: Entry): string {
    if e.paymentId.Some? then e.paymentId.value else ""
  }

  function TipHash(es: seq<Event>): string {
    if es == [] then GENESIS else es[|es| - 1].hash
  }

  /** The event an append creates on top of a log. */
  function EventFor(sha: string -> string, es: seq<Event>, id: nat, e: Entry): Event {
    Event(id, e, TipHash(es), sha(Preimage(TipHash(es), e)))
  }

  predicate Linked(sha: string -> string, prev: string, e: Event) {
    e.prevHash == prev && e.hash == sha(Preimage(prev, e.entry))
  }

  /** Every event carries the hash its content produces on top of the previous one. */
  predicate Chained(sha: string -> string, es: seq<Event>) {
    es == [] ||
    (Chained(sha, es[..|es| - 1]) && Linked(sha, TipHash(es[..|es| - 1]), es[|es| - 1]))
  }

  lemma ChainedExtends(sha: string -> string, es: seq<Event>, e: Event)
    requires Chained(sha, es) && Linked(sha, TipHash(es), e)
    ensures Chained(sha, es + [e])
  {
    assert (es + [e])[..|es|] == es;
  }

  lemma {:induction false} ChainedPrefix(sha: string -> string, es: seq<Event>, k: nat)
    requires Chained(sha, es) && k <= |es|
    ensures Chained(sha, es[..k])
    ensures k < |es| ==> Linked(sha, TipHash(es[..k]), es[k])
    decreases |es|
  {
    if k == |es| {
      assert es[..k] == es;
    } else if k < |es| - 1 {
      assert es[..|es| - 1][..k] == es[..k];
      ChainedPrefix(sha, es[..|es| - 1], k);
    }
  }

  ghost predicate Ascending(es: seq<Event>) {
    forall i, j :: 0 <= i < j < |es| ==> es[i].id < es[j].id
  }

  // ----- anchors ------------------------------------------------------------

  /** What a signature covers: the anchor's position and its hash. */
  function AnchorMessage(lastEventId: nat, chainHash: string): string {
    Numeral(lastEventId) + "|" + chainHash
  }

  function Sign(c: Setup, lastEventId: nat, chainHash: string): string
    requires c.key.Some?
  {
    c.mac(c.key.value, AnchorMessage(lastEventId, chainHash))
  }

  function CheckpointAt(c: Setup, e: Event): Checkpoint
    requires c.key.Some?
  {
    Checkpoint(e.id, e.hash, Sign(c, e.id, e.hash))
  }

  /** The newest anchor's position, zero when there is none. */
  function LastAnchor(cs: seq<Checkpoint>): nat {
    if cs == [] then 0 else cs[|cs| - 1].lastEventId
  }

  /** How many events have an id above a given one. */
  function CountAfter(es: seq<Event>, id: nat): nat {
    if es == [] then 0 else CountAfter(es[..|es| - 1], id) + (if es[|es| - 1].id > id then 1 else 0)
  }

  function Since(es: seq<Event>, cs: seq<Checkpoint>): nat {
    CountAfter(es, LastAnchor(cs))
  }

  ghost predicate Anchors(ck: Checkpoint, es: seq<Event>) {
    exists i :: 0 <= i < |es| && es[i].id == ck.lastEventId && es[i].hash == ck.chainHash
  }

  /** One chain with ascending ids, below the next one to be given out. */
  ghost predicate InOrder(c: Setup, es: seq<Event>, nextId: nat) {
    nextId > 0 && Ascending(es) && (forall i :: 0 <= i < |es| ==> 0 < es[i].id < nextId) && Chained(c.sha, es)
  }

  ghost predicate BackedBy(c: Setup, es: seq<Event>, ck: Checkpoint) {
    c.key.Some? && Anchors(ck, es) && ck.signature == Sign(c, ck.lastEventId, ck.chainHash)
  }

  /** Every checkpoint names one of the events with its hash, and is rightly signed. */
  ghost predicate Backed(c: Setup, es: seq<Event>, cs: seq<Checkpoint>) {
    forall j :: 0 <= j < |cs| ==> BackedBy(c, es, cs[j])
  }

  /** Both, and with a key fewer than `bound` events since the newest anchor. */
  ghost predicate Kept(c: Setup, es: seq<Event>, cs: seq<Checkpoint>, nextId: nat, bound: nat) {
    InOrder(c, es, nextId) && Backed(c, es, cs) && (c.key.Some? ==> Since(es, cs) < bound)
  }

  lemma {:induction false} CountAfterAll(es: seq<Event>, id: nat)
    requires forall i :: 0 <= i < |es| ==> es[i].id <= id
    ensures CountAfter(es, id) == 0
  {
    if es != [] {
      CountAfterAll(es[..|es| - 1], id);
    }
  }

  /** In a log with ascending ids the events above an id are those after it. */
  lemma {:induction false} CountAfterIs(es: seq<Event>, id: nat, k: nat)
    requires Ascending(es) && k <= |es|
    requires (forall j :: 0 <= j < k ==> es[j].id <= id) && (forall j :: k <= j < |es| ==> es[j].id > id)
    ensures CountAfter(es, id) == |es| - k
  {
    if es != [] {
      CountAfterIs(es[..|es| - 1], id, if k == |es| then k - 1 else k);
    }
  }

  /** One of the last n events carries the newest anchor, or there are fewer than n events. */
  ghost predicate AnchoredWithin(es: seq<Event>, cs: seq<Checkpoint>, n: nat) {
    |es| < n || (cs != [] && exists i :: 0 <= i < |es| && |es| - n <= i && es[i].id == cs[|cs| - 1].lastEventId)
  }

  /** The count since the newest anchor is a distance in the log. */
  lemma SinceIsDistance(c: Setup, es: seq<Event>, cs: seq<Checkpoint>, nextId: nat, n: nat)
    requires InOrder(c, es, nextId) && Backed(c, es, cs)
    ensures Since(es, cs) < n <==> AnchoredWithin(es, cs, n)
  {
    if cs == [] {
      CountAfterIs(es, 0, 0);
    } else {
      assert BackedBy(c, es, cs[|cs| - 1]);
      var i :| 0 <= i < |es| && es[i].id == LastAnchor(cs);
      forall j | 0 <= j < |es| && es[j].id == LastAnchor(cs) ensures j == i {
      }
      CountAfterIs(es, es[i].id, i + 1);
    }
  }

  lemma OrderExtends(c: Setup, es: seq<Event>, nextId: nat, entry: Entry)
    requires InOrder(c, es, nextId)
    ensures InOrder(c, es + [EventFor(c.sha, es, nextId, entry)], nextId + 1)
  {
    ChainedExtends(c.sha, es, EventFor(c.sha, es, nextId, entry));
  }

  lemma BackingExtends(c: Setup, es: seq<Event>, cs: seq<Checkpoint>, more: seq<Event>)
    requires Backed(c, es, cs) && es <= more
    ensures Backed(c, more, cs)
  {
    forall j | 0 <= j < |cs| ensures BackedBy(c, more, cs[j]) {
      assert BackedBy(c, es, cs[j]);
      var i :| 0 <= i < |es| && es[i].id == cs[j].lastEventId && es[i].hash == cs[j].chainHash;
      assert more[i] == es[i];
    }
  }

  /** An append keeps the log in order, with room for one more event since the anchor. */
  lemma AppendKeeps(c: Setup, es: seq<Event>, cs: seq<Checkpoint>, nextId: nat, bound: nat, entry: Entry)
    requires Kept(c, es, cs, nextId, bound)
    ensures Kept(c, es + [EventFor(c.sha, es, nextId, entry)], cs, nextId + 1, bound + 1)
  {
    var e := EventFor(c.sha, es, nextId, entry);
    OrderExtends(c, es, nextId, entry);
    BackingExtends(c, es, cs, es + [e]);
    assert (es + [e])[..|es|] == es;
  }

  /** Anchoring the tip starts the count again. */
  lemma AnchorKeeps(c: Setup, es: seq<Event>, cs: seq<Checkpoint>, nextId: nat, bound: nat, bound': nat)
    requires Kept(c, es, cs, nextId, bound) && c.key.Some? && es != [] && bound' > 0
    ensures Kept(c, es, cs + [CheckpointAt(c, es[|es| - 1])], nextId, bound')
  {
    var ck := CheckpointAt(c, es[|es| - 1]);
    assert Anchors(ck, es);
    CountAfterAll(es, ck.lastEventId);
  }

  /** Ids a rolled-back transaction used up are gone; the log does not mind the gap. */
  lemma KeptWithMoreIds(c: Setup, es: seq<Event>, cs: seq<Checkpoint>, n: nat, n': nat, bound: nat)
    requires Kept(c, es, cs, n, bound) && n <= n'
    ensures Kept(c, es, cs, n', bound)
  {
  }

  // ----- verification -------------------------------------------------------

  datatype Reason = SignatureMismatch | AnchorMissing | ChainHashMismatch

  datatype Integrity = Integrity(
    valid: bool,
    brokenAtId: Option<nat>,
    reason: Option<Reason>,
    anchored: bool,
    checkpoint: Option<Checkpoint>,
    eventsVerified: nat)

  /** The first event that does not link, if any. */
  function FirstBroken(sha: string -> string, prev: string, es: seq<Event>): Option<nat>
    decreases |es|
  {
    if es == [] then None
    else if !Linked(sha, prev, es[0]) then Some(es[0].id)
    else FirstBroken(sha, es[0].hash, es[1..])
  }

  function FindEvent(es: seq<Event>, id: nat): Option<Event> {
    if es == [] then None
    else if es[0].id == id then Some(es[0])
    else FindEvent(es[1..], id)
  }

  /** The verdict on three reads: the events, then the newest checkpoint, then the event it
      names. */
  function Verdict(c: Setup, es: seq<Event>, cs: seq<Checkpoint>, later: seq<Event>): Integrity {
    var broken := FirstBroken(c.sha, GENESIS, es);
    var full := Integrity(broken.None?, broken, None, c.key.Some?, None, |es|);
    if c.key.None? || cs == [] then full
    else
      var ck := cs[|cs| - 1];
      var base := full.(checkpoint := Some(ck));
      if broken.Some? then base
      else if Sign(c, ck.lastEventId, ck.chainHash) != ck.signature then
        base.(valid := false, reason := Some(SignatureMismatch))
      else
        match FindEvent(later, ck.lastEventId)
        case None => base.(valid := false, reason := Some(AnchorMissing))
        case Some(e) =>
          if e.hash != ck.chainHash then
            base.(valid := false, reason := Some(ChainHashMismatch), brokenAtId := Some(e.id))
          else base
  }

  lemma {:induction false} FirstBrokenSnoc(sha: string -> string, prev: string, es: seq<Event>, e: Event)
    ensures FirstBroken(sha, prev, es + [e]) ==
      if FirstBroken(sha, prev, es).Some? then FirstBroken(sha, prev, es)
      else if Linked(sha, if es == [] then prev else es[|es| - 1].hash, e) then None
      else Some(e.id)
    decreases |es|
  {
    var all := es + [e];
    if es == [] {
      assert all == [e] && all[1..] == [];
    } else if Linked(sha, prev, es[0]) {
      FirstBrokenSnoc(sha, es[0].hash, es[1..], e);
      assert all[1..] == es[1..] + [e];
    }
  }

  /** The one id verification reports as broken is that of the first link that fails: the
      log up to there is a chain. It reports none exactly when the whole log is. */
  lemma {:induction false} FirstBrokenIsFirst(sha: string -> string, es: seq<Event>) returns (k: nat)
    ensures k <= |es| && Chained(sha, es[..k])
    ensures FirstBroken(sha, GENESIS, es) == if k < |es| then Some(es[k].id) else None
    ensures k < |es| ==> !Linked(sha, TipHash(es[..k]), es[k])
    decreases |es|
  {
    if es == [] {
      return 0;
    }
    var init, last := es[..|es| - 1], es[|es| - 1];
    assert es == init + [last];
    k := FirstBrokenIsFirst(sha, init);
    FirstBrokenSnoc(sha, GENESIS, init, last);
    if k < |init| {
      assert es[..k] == init[..k];
    } else {
      assert init[..k] == init && es[..|es|] == es;
      k := if Linked(sha, TipHash(init), last) then |es| else k;
    }
  }

  lemma UnbrokenIsChained(sha: string -> string, es: seq<Event>)
    ensures FirstBroken(sha, GENESIS, es) == None <==> Chained(sha, es)
  {
    var k := FirstBrokenIsFirst(sha, es);
    if k == |es| {
      assert es[..k] == es;
    } else if Chained(sha, es) {
      ChainedPrefix(sha, es, k);
    }
  }

  lemma {:induction false} FindEventFinds(es: seq<Event>, id: nat)
    ensures var found := FindEvent(es, id);
      if found.Some? then found.value in es && found.value.id == id
      else forall i :: 0 <= i < |es| ==> es[i].id != id
  {
    if es != [] && es[0].id != id {
      FindEventFinds(es[1..], id);
      assert es == [es[0]] + es[1..];
    }
  }

  /** Verification passes if and only if every event links and, when there is an anchor to
      check, its signature is right and the event it names is there with the signed hash. */
  lemma ValidMeans(c: Setup, es: seq<Event>, cs: seq<Checkpoint>, later: seq<Event>)
    requires Ascending(later)
    ensures var ck := if cs == [] then Checkpoint(0, "", "") else cs[|cs| - 1];
      Verdict(c, es, cs, later).valid <==>
      && Chained(c.sha, es)
      && (c.key.Some? && cs != [] ==> Sign(c, ck.lastEventId, ck.chainHash) == ck.signature && Anchors(ck, later))
  {
    UnbrokenIsChained(c.sha, es);
    if cs != [] {
      var ck := cs[|cs| - 1];
      FindEventFinds(later, ck.lastEventId);
      if FindEvent(later, ck.lastEventId).Some? {
        var e := FindEvent(later, ck.lastEventId).value;
        var i :| 0 <= i < |later| && later[i] == e;
        forall j | 0 <= j < |later| && later[j].id == ck.lastEventId ensures j == i {
        }
      }
    }
  }

  /** The anchor the verdict checks, if any. */
  predicate HasAnchor(c: Setup, cs: seq<Checkpoint>) {
    c.key.Some? && cs != []
  }

  /** The newest anchor is rightly signed. */
  predicate SignedRightly(c: Setup, cs: seq<Checkpoint>)
    requires HasAnchor(c, cs)
  {
    cs[|cs| - 1].signature == Sign(c, cs[|cs| - 1].lastEventId, cs[|cs| - 1].chainHash)
  }

  /** The event the newest anchor names is in the log. */
  ghost predicate AnchorPresent(cs: seq<Checkpoint>, es: seq<Event>)
    requires cs != []
  {
    exists i :: 0 <= i < |es| && es[i].id == cs[|cs| - 1].lastEventId
  }

  /** The first link of a log that fails, and where the log stops being a chain. */
  ghost predicate FirstBreak(sha: string -> string, es: seq<Event>, id: nat) {
    exists k :: 0 <= k < |es| && es[k].id == id && Chained(sha, es[..k]) && !Linked(sha, TipHash(es[..k]), es[k])
  }

  /** Every reason means one thing, and a failure always says why: a broken link by its id,
      a bad anchor by its reason. */
  lemma VerdictExplains(c: Setup, es: seq<Event>, cs: seq<Checkpoint>, later: seq<Event>)
    requires Ascending(later)
    ensures var r := Verdict(c, es, cs, later);
      && (!Chained(c.sha, es) ==> r.reason == None && r.brokenAtId.Some? && FirstBreak(c.sha, es, r.brokenAtId.value))
      && (r.reason == Some(SignatureMismatch) <==> Chained(c.sha, es) && HasAnchor(c, cs) && !SignedRightly(c, cs))
      && (r.reason == Some(AnchorMissing) <==>
            Chained(c.sha, es) && HasAnchor(c, cs) && SignedRightly(c, cs) && !AnchorPresent(cs, later))
      && (r.reason == Some(ChainHashMismatch) <==>
            && Chained(c.sha, es) && HasAnchor(c, cs) && SignedRightly(c, cs)
            && AnchorPresent(cs, later) && !Anchors(cs[|cs| - 1], later))
      && (r.reason == Some(ChainHashMismatch) ==> r.brokenAtId == Some(cs[|cs| - 1].lastEventId))
      && (r.valid <==> r.brokenAtId == None && r.reason == None)
  {
    var k := FirstBrokenIsFirst(c.sha, es);
    UnbrokenIsChained(c.sha, es);
    ValidMeans(c, es, cs, later);
    if cs != [] {
      FindEventFinds(later, cs[|cs| - 1].lastEventId);
    }
  }

  /** What a verdict on one read of the tables says it looked at, and when it passes. */
  lemma VerdictCovers(c: Setup, es: seq<Event>, cs: seq<Checkpoint>)
    requires Ascending(es)
    ensures var r := Verdict(c, es, cs, es);
      && r.anchored == c.key.Some? && r.eventsVerified == |es|
      && r.checkpoint == (if HasAnchor(c, cs) then Some(cs[|cs| - 1]) else None)
      && (r.valid <==> Chained(c.sha, es) && (HasAnchor(c, cs) ==> SignedRightly(c, cs) && Anchors(cs[|cs| - 1], es)))
  {
    ValidMeans(c, es, cs, es);
    VerdictFields(c, es, cs, es);
  }

  lemma VerdictFields(c: Setup, es: seq<Event>, cs: seq<Checkpoint>, later: seq<Event>)
    ensures var r := Verdict(c, es, cs, later);
      && r.anchored == c.key.Some? && r.eventsVerified == |es|
      && r.checkpoint == (if HasAnchor(c, cs) then Some(cs[|cs| - 1]) else None)
  {
  }

  /** A log in order never fails verification, whatever was appended between the reads. */
  lemma KeptVerifies(c: Setup, es: seq<Event>, mid: seq<Event>, cs: seq<Checkpoint>, later: seq<Event>)
    requires Chained(c.sha, es) && Backed(c, mid, cs) && mid <= later && Ascending(later)
    ensures Verdict(c, es, cs, later).valid
  {
    BackingExtends(c, mid, cs, later);
    ValidMeans(c, es, cs, later);
  }

  // ----- the tables ---------------------------------------------------------

  datatype AnchorError = NotConfigured | NoEvents

  datatype Anchored = Anchored(checkpoint: Checkpoint) | Refused(error: AnchorError)

  /** The audit tables, as one transaction at a time sees them under the chain lock. */
  class Log {
    const c: Setup
    var events: seq<Event>
    var checkpoints: seq<Checkpoint>
    var nextId: nat

    constructor (c: Setup)
      requires c.interval > 0
      ensures this.c == c && events == [] && checkpoints == [] && nextId == 1 && Valid()
    {
      this.c, events, checkpoints, nextId := c, [], [], 1;
    }

    ghost predicate Valid()
      reads this
    {
      c.interval > 0 && Kept(c, events, checkpoints, nextId, c.interval)
    }

    method AppendEvent(entry: Entry) returns (e: Event)
      requires Valid()
      modifies this
      ensures Valid()
      ensures e == EventFor(c.sha, old(events), old(nextId), entry)
      ensures events == old(events) + [e] && nextId == old(nextId) + 1
      ensures checkpoints == old(checkpoints) +
        if c.key.Some? && !AnchoredWithin(events, old(checkpoints), c.interval) then [CheckpointAt(c, e)] else []
      ensures c.key.Some? ==> AnchoredWithin(events, checkpoints, c.interval)
    {
      var prevHash := if events == [] then GENESIS else events[|events| - 1].hash;
      e := Event(nextId, entry, prevHash, c.sha(Preimage(prevHash, entry)));
      assert e == EventFor(c.sha, events, nextId, entry);
      AppendKeeps(c, events, checkpoints, nextId, c.interval, entry);
      events, nextId := events + [e], nextId + 1;
      MaybeCheckpoint(e);
      SinceIsDistance(c, events, checkpoints, nextId, c.interval);
    }

    /** Anchor the event just created if enough have accrued since the last anchor. */
    method MaybeCheckpoint(e: Event)
      requires c.interval > 0 && Kept(c, events, checkpoints, nextId, c.interval + 1)
      requires events != [] && e == events[|events| - 1]
      modifies this`checkpoints
      ensures Valid()
      ensures checkpoints == old(checkpoints) +
        if c.key.Some? && !AnchoredWithin(events, old(checkpoints), c.interval) then [CheckpointAt(c, e)] else []
    {
      SinceIsDistance(c, events, checkpoints, nextId, c.interval);
      if c.key.Some? {
        var since := CountAfter(events, LastAnchor(checkpoints));
        if since >= c.interval {
          AnchorKeeps(c, events, checkpoints, nextId, c.interval + 1, c.interval);
          checkpoints := checkpoints + [CheckpointAt(c, e)];
        }
      }
    }

    /** Anchor the tip on demand; already anchored there, the anchor is returned unchanged. */
    method CreateCheckpoint() returns (r: Anchored)
      requires Valid()
      modifies this`checkpoints
      ensures Valid()
      ensures c.key.None? ==> r == Refused(NotConfigured) && checkpoints == old(checkpoints)
      ensures c.key.Some? && events == [] ==> r == Refused(NoEvents) && checkpoints == old(checkpoints)
      ensures c.key.Some? && events != [] ==>
        && r.Anchored? && checkpoints != [] && r.checkpoint == checkpoints[|checkpoints| - 1]
        && r.checkpoint == CheckpointAt(c, events[|events| - 1])
        && checkpoints == if LastAnchor(old(checkpoints)) == events[|events| - 1].id
                          then old(checkpoints) else old(checkpoints) + [r.checkpoint]
    {
      if c.key.None? {
        return Refused(NotConfigured);
      }
      if events == [] {
        return Refused(NoEvents);
      }
      var tip := events[|events| - 1];
      if checkpoints != [] && checkpoints[|checkpoints| - 1].lastEventId == tip.id {
        assert Anchors(checkpoints[|checkpoints| - 1], events);
        return Anchored(checkpoints[|checkpoints| - 1]);
      }
      AnchorKeeps(c, events, checkpoints, nextId, c.interval, c.interval);
      checkpoints := checkpoints + [CheckpointAt(c, tip)];
      r := Anchored(checkpoints[|checkpoints| - 1]);
    }

    /** The enclosing transaction rolls back: its rows go, the ids they used do not return. */
    method Rollback(es: seq<Event>, cs: seq<Checkpoint>, n: nat)
      requires Valid() && Kept(c, es, cs, n, c.interval) && n <= nextId
      modifies this`events, this`checkpoints
      ensures Valid() && events == es && checkpoints == cs
    {
      KeptWithMoreIds(c, es, cs, n, nextId, c.interval);
      events, checkpoints := es, cs;
    }

    /** Re-hash every event, chaining from `prevHash`; the tables may hold anything. */
    method VerifyFrom(prevHash: string) returns (broken: Option<nat>, eventsVerified: nat)
      ensures broken == FirstBroken(c.sha, prevHash, events) && eventsVerified == |events|
    {
      var prev, i := prevHash, 0;
      while i < |events|
        invariant i <= |events|
        invariant FirstBroken(c.sha, prevHash, events) == FirstBroken(c.sha, prev, events[i..])
      {
        var e := events[i];
        if e.prevHash != prev || e.hash != c.sha(Preimage(prev, e.entry)) {
          return Some(e.id), |events|;
        }
        assert events[i..][1..] == events[i + 1..];
        prev, i := e.hash, i + 1;
      }
      return None, |events|;
    }

    /** Verify the tables, whatever they hold; ids are unique and read in order. */
    method VerifyAuditChain() returns (r: Integrity)
      requires Ascending(events)
      ensures r.valid <==>
        && Chained(c.sha, events)
        && (HasAnchor(c, checkpoints) ==>
              SignedRightly(c, checkpoints) && Anchors(checkpoints[|checkpoints| - 1], events))
      ensures r.valid <==> r.brokenAtId == None && r.reason == None
      ensures !Chained(c.sha, events) ==>
        r.reason == None && r.brokenAtId.Some? && FirstBreak(c.sha, events, r.brokenAtId.value)
      ensures r.reason == Some(SignatureMismatch) <==>
        Chained(c.sha, events) && HasAnchor(c, checkpoints) && !SignedRightly(c, checkpoints)
      ensures r.reason == Some(AnchorMissing) <==>
        && Chained(c.sha, events) && HasAnchor(c, checkpoints) && SignedRightly(c, checkpoints)
        && !AnchorPresent(checkpoints, events)
      ensures r.reason == Some(ChainHashMismatch) <==>
        && Chained(c.sha, events) && HasAnchor(c, checkpoints) && SignedRightly(c, checkpoints)
        && AnchorPresent(checkpoints, events) && !Anchors(checkpoints[|checkpoints| - 1], events)
      ensures r.reason == Some(ChainHashMismatch) ==>
        r.brokenAtId == Some(checkpoints[|checkpoints| - 1].lastEventId)
      ensures r.anchored == c.key.Some? && r.eventsVerified == |events|
      ensures r.checkpoint == if HasAnchor(c, checkpoints) then Some(checkpoints[|checkpoints| - 1]) else None
    {
      VerdictExplains(c, events, checkpoints, events);
      VerdictCovers(c, events, checkpoints);
      r := RunVerification();
    }

    /** The verification itself, branch by branch. */
    method RunVerification() returns (r: Integrity)
      ensures r == Verdict(c, events, checkpoints, events)
    {
      var broken, n := VerifyFrom(GENESIS);
      var full := Integrity(broken.None?, broken, None, c.key.Some?, None, n);
      if c.key.None? || checkpoints == [] {
        return full;
      }
      var ck := checkpoints[|checkpoints| - 1];
      var base := full.(checkpoint := Some(ck));
      if broken.Some? {
        return base;
      }
      if c.mac(c.key.value, AnchorMessage(ck.lastEventId, ck.chainHash)) != ck.signature {
        return base.(valid := false, reason := Some(SignatureMismatch));
      }
      var anchorEvent := FindEvent(events, ck.lastEventId);
      if anchorEvent.None? {
        return base.(valid := false, reason := Some(AnchorMissing));
      }
      if anchorEvent.value.hash != ck.chainHash {
        return base.(valid := false, reason := Some(ChainHashMismatch), brokenAtId := Some(anchorEvent.value.id));
      }
      return base;
    }
  }
}
