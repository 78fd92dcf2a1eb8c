/** What the audit chain protects, and what it does not. No hash is assumed injective: every
    conclusion is "the same preimages, or here is a collision". */
module AuditTamper {
  import opened Options
  import opened Decimals
  import opened Audit

  function Bars(s: string): nat {
    if s == [] then 0 else (if s[0] == '|' then 1 else 0) + Bars(s[1..])
  }

  /** A hex digest: no bar in it, and never the genesis marker. */
  ghost predicate HexLike(sha: string -> string) {
    forall x: string {:trigger sha(x)} :: Bars(sha(x)) == 0 && sha(x) != GENESIS
  }

  predicate Collides(sha: string -> string, x: string, y: string) {
    x != y && sha(x) == sha(y)
  }

  // ----- what a preimage says -----------------------------------------------

  /** Two joins are equal only part by part, once the first parts have as many bars. */
  lemma {:induction false} SplitAtBar(a: string, b: string, c: string, d: string)
    requires a + "|" + b == c + "|" + d && Bars(a) == Bars(c)
    ensures a == c && b == d
  {
    var s := a + "|" + b;
    if a == [] {
      assert s[0] == '|' && s[1..] == b;
      if c != [] {
        assert false;
      }
      assert (c + "|" + d)[1..] == d;
    } else {
      assert s[0] == a[0] && s[1..] == a[1..] + "|" + b;
      if c == [] {
        assert false;
      } else {
        assert (c + "|" + d)[0] == c[0] && (c + "|" + d)[1..] == c[1..] + "|" + d;
        SplitAtBar(a[1..], b, c[1..], d);
        assert a == [a[0]] + a[1..] && c == [c[0]] + c[1..];
      }
    }
  }

  ghost predicate SameFields(p: string, e: Entry, q: string, f: Entry) {
    p == q && e.action == f.action && e.actor == f.actor && PaymentField(e) == PaymentField(f) && e.detail == f.detail
  }

  ghost predicate SameBars(p: string, e: Entry, q: string, f: Entry) {
    && Bars(p) == Bars(q) && Bars(e.action) == Bars(f.action) && Bars(e.actor) == Bars(f.actor)
    && Bars(PaymentField(e)) == Bars(PaymentField(f))
  }

  /** A preimage fixes the fields exactly as far as the bars inside them agree; the detail
      may hold any. */
  lemma PreimageFixesFields(p: string, e: Entry, q: string, f: Entry)
    ensures SameFields(p, e, q, f) <==> Preimage(p, e) == Preimage(q, f) && SameBars(p, e, q, f)
  {
    if Preimage(p, e) == Preimage(q, f) && SameBars(p, e, q, f) {
      var e2, f2 := PaymentField(e) + "|" + e.detail, PaymentField(f) + "|" + f.detail;
      var e1, f1 := e.actor + "|" + e2, f.actor + "|" + f2;
      SplitAtBar(p, e.action + "|" + e1, q, f.action + "|" + f1);
      SplitAtBar(e.action, e1, f.action, f1);
      SplitAtBar(e.actor, e2, f.actor, f2);
      SplitAtBar(PaymentField(e), e.detail, PaymentField(f), f.detail);
    }
  }

  /** Without that, a bar can move between fields unseen, and a missing payment id reads as
      an empty one. */
  lemma BarsCanShift()
    ensures var e, f := Entry("a|b", "c", None, ""), Entry("a", "b|c", None, "");
      e != f && Preimage(GENESIS, e) == Preimage(GENESIS, f)
    ensures var e, f := Entry("a", "b", None, ""), Entry("a", "b", Some(""), "");
      e != f && Preimage(GENESIS, e) == Preimage(GENESIS, f)
  {
    var e, f := Entry("a|b", "c", None, ""), Entry("a", "b|c", None, "");
    assert "a|b" == "a" + "|" + "b" && "b|c" == "b" + "|" + "c";
    assert Preimage(GENESIS, e) == Preimage(GENESIS, f);
  }

  // ----- the chain pins its past --------------------------------------------

  function Preimages(es: seq<Event>): seq<string> {
    if es == [] then []
    else Preimages(es[..|es| - 1]) + [Preimage(es[|es| - 1].prevHash, es[|es| - 1].entry)]
  }

  lemma TipHasNoBar(sha: string -> string, es: seq<Event>)
    requires HexLike(sha) && Chained(sha, es)
    ensures Bars(TipHash(es)) == 0 && (es != [] ==> TipHash(es) != GENESIS)
  {
    if es == [] {
      assert Bars(GENESIS) == 0 by {
        assert GENESIS[1..] == "ENESIS" && "ENESIS"[1..] == "NESIS" && "NESIS"[1..] == "ESIS";
        assert "ESIS"[1..] == "SIS" && "SIS"[1..] == "IS" && "IS"[1..] == "S" && "S"[1..] == [];
      }
    }
  }

  /** Two chains that end in the same hash have the same preimages throughout, or exhibit a
      collision: neither can be longer, reordered or edited anywhere. */
  lemma {:induction false} TipPinsChain(sha: string -> string, es: seq<Event>, fs: seq<Event>)
      returns (x: string, y: string)
    requires HexLike(sha) && Chained(sha, es) && Chained(sha, fs) && TipHash(es) == TipHash(fs)
    ensures Preimages(es) == Preimages(fs) || Collides(sha, x, y)
    decreases |es|
  {
    x, y := "", "";
    TipHasNoBar(sha, es);
    TipHasNoBar(sha, fs);
    if es != [] && fs != [] {
      var e, f := es[|es| - 1], fs[|fs| - 1];
      var es0, fs0 := es[..|es| - 1], fs[..|fs| - 1];
      x, y := Preimage(e.prevHash, e.entry), Preimage(f.prevHash, f.entry);
      if x == y {
        TipHasNoBar(sha, es0);
        TipHasNoBar(sha, fs0);
        SamePrevious(e, f);
        x, y := TipPinsChain(sha, es0, fs0);
      }
    }
  }

  lemma SamePrevious(e: Event, f: Event)
    requires Preimage(e.prevHash, e.entry) == Preimage(f.prevHash, f.entry)
    requires Bars(e.prevHash) == 0 && Bars(f.prevHash) == 0
    ensures e.prevHash == f.prevHash
  {
    var d, g := e.entry, f.entry;
    SplitAtBar(e.prevHash, d.action + "|" + (d.actor + "|" + (PaymentField(d) + "|" + d.detail)),
               f.prevHash, g.action + "|" + (g.actor + "|" + (PaymentField(g) + "|" + g.detail)));
  }

  /** An edit that leaves the stored hashes alone is located: verification names the edited
      event, or its new content collides with the old. */
  lemma EditIsLocated(sha: string -> string, es: seq<Event>, k: nat, entry: Entry)
    requires Chained(sha, es) && k < |es| && Preimage(es[k].prevHash, entry) != Preimage(es[k].prevHash, es[k].entry)
    requires Ascending(es)
    ensures var edited := es[k := es[k].(entry := entry)];
      || FirstBroken(sha, GENESIS, edited) == Some(es[k].id)
      || Collides(sha, Preimage(es[k].prevHash, entry), Preimage(es[k].prevHash, es[k].entry))
  {
    var edited := es[k := es[k].(entry := entry)];
    var j := FirstBrokenIsFirst(sha, edited);
    ChainedPrefix(sha, es, k);
    assert edited[..k] == es[..k];
    if j < k {
      assert edited[..j] == es[..j];
      ChainBreaksNotBefore(sha, es, edited, j);
    } else if j > k {
      LinkHolds(sha, edited, j, k);
    }
  }

  lemma ChainBreaksNotBefore(sha: string -> string, es: seq<Event>, edited: seq<Event>, j: nat)
    requires Chained(sha, es) && j < |es| == |edited| && edited[..j] == es[..j] && edited[j] == es[j]
    ensures Linked(sha, TipHash(edited[..j]), edited[j])
  {
    ChainedPrefix(sha, es, j);
  }

  lemma LinkHolds(sha: string -> string, es: seq<Event>, j: nat, k: nat)
    requires k < j <= |es| && Chained(sha, es[..j])
    ensures Linked(sha, TipHash(es[..k]), es[k])
  {
    ChainedPrefix(sha, es[..j], k);
    assert es[..j][..k] == es[..k];
  }

  // ----- the anchor protects what was signed --------------------------------

  lemma {:induction false} DigitsHaveNoBar(s: string)
    requires AllDigits(s)
    ensures Bars(s) == 0
  {
    if s != [] {
      DigitsHaveNoBar(s[1..]);
    }
  }

  /** A signed message names one position and one hash. */
  lemma AnchorMessageInjective(i: nat, h: string, j: nat, g: string)
    requires AnchorMessage(i, h) == AnchorMessage(j, g)
    ensures i == j && h == g
  {
    DigitsHaveNoBar(Numeral(i));
    DigitsHaveNoBar(Numeral(j));
    SplitAtBar(Numeral(i), h, Numeral(j), g);
    NumeralInjective(i, j);
  }

  /** A log that was anchored at its tip. */
  ghost predicate Genuine(sha: string -> string, log: seq<Event>) {
    log != [] && Chained(sha, log)
  }

  function TipMessage(log: seq<Event>): string
    requires log != []
  {
    AnchorMessage(log[|log| - 1].id, log[|log| - 1].hash)
  }

  /** Nobody without the key can sign: a signature that verifies covers a message some
      genuine anchor signed. */
  ghost predicate Unforged(c: Setup, signed: seq<seq<Event>>, ck: Checkpoint)
    requires c.key.Some?
  {
    ck.signature == Sign(c, ck.lastEventId, ck.chainHash) ==>
      exists a :: 0 <= a < |signed| && signed[a] != [] &&
        TipMessage(signed[a]) == AnchorMessage(ck.lastEventId, ck.chainHash)
  }

  /** Tamper evidence: whatever was edited, re-hashed, inserted or deleted in the tables,
      checkpoints included, if verification passes against an anchor then the log up to the
      anchored event has exactly the preimages it had when it was signed, or the tables
      exhibit a collision. */
  lemma TamperEvidence(c: Setup, signed: seq<seq<Event>>, es: seq<Event>, cs: seq<Checkpoint>)
    returns (a: nat, k: nat, x: string, y: string)
    requires HexLike(c.sha) && c.key.Some? && cs != [] && Ascending(es)
    requires forall i :: 0 <= i < |signed| ==> Genuine(c.sha, signed[i])
    requires Unforged(c, signed, cs[|cs| - 1])
    requires Verdict(c, es, cs, es).valid
    ensures a < |signed| && k < |es| && signed[a] != [] && es[k].id == signed[a][|signed[a]| - 1].id
    ensures Preimages(es[..k + 1]) == Preimages(signed[a]) || Collides(c.sha, x, y)
  {
    var ck := cs[|cs| - 1];
    ValidMeans(c, es, cs, es);
    a :| 0 <= a < |signed| && signed[a] != [] && TipMessage(signed[a]) == AnchorMessage(ck.lastEventId, ck.chainHash);
    assert Genuine(c.sha, signed[a]);
    k :| 0 <= k < |es| && es[k].id == ck.lastEventId && es[k].hash == ck.chainHash;
    x, y := AnchorPins(c.sha, signed[a], es, k);
  }

  lemma AnchorPins(sha: string -> string, log: seq<Event>, es: seq<Event>, k: nat) returns (x: string, y: string)
    requires HexLike(sha) && Genuine(sha, log) && Chained(sha, es) && k < |es|
    requires TipMessage(log) == AnchorMessage(es[k].id, es[k].hash)
    ensures es[k].id == log[|log| - 1].id
    ensures Preimages(es[..k + 1]) == Preimages(log) || Collides(sha, x, y)
  {
    AnchorMessageInjective(log[|log| - 1].id, log[|log| - 1].hash, es[k].id, es[k].hash);
    ChainedPrefix(sha, es, k + 1);
    assert es[..k + 1][k] == es[k];
    x, y := TipPinsChain(sha, es[..k + 1], log);
  }

  // ----- and nothing past it ------------------------------------------------

  /** A log extended by any entries, properly hashed. */
  function Rehashed(sha: string -> string, base: seq<Event>, nextId: nat, entries: seq<Entry>): seq<Event> {
    if entries == [] then base
    else
      var most := Rehashed(sha, base, nextId, entries[..|entries| - 1]);
      most + [EventFor(sha, most, nextId + |entries| - 1, entries[|entries| - 1])]
  }

  lemma {:induction false} RehashedIsChained(sha: string -> string, base: seq<Event>, nextId: nat, entries: seq<Entry>)
    requires Chained(sha, base)
    ensures var es := Rehashed(sha, base, nextId, entries); Chained(sha, es) && base <= es
  {
    if entries != [] {
      var most := Rehashed(sha, base, nextId, entries[..|entries| - 1]);
      RehashedIsChained(sha, base, nextId, entries[..|entries| - 1]);
      ChainedExtends(sha, most, EventFor(sha, most, nextId + |entries| - 1, entries[|entries| - 1]));
    }
  }

  ghost predicate Below(es: seq<Event>, id: nat) {
    forall i :: 0 <= i < |es| ==> es[i].id < id
  }

  lemma {:induction false} RehashedAscends(sha: string -> string, base: seq<Event>, nextId: nat, entries: seq<Entry>)
    requires Ascending(base) && Below(base, nextId)
    ensures var es := Rehashed(sha, base, nextId, entries); Ascending(es) && Below(es, nextId + |entries|)
  {
    if entries != [] {
      RehashedAscends(sha, base, nextId, entries[..|entries| - 1]);
    }
  }

  /** The limit of the protection: with the events after the newest anchor replaced by any
      others, re-hashed, verification still passes; and with the checkpoints deleted too,
      so does a log re-hashed from the start. */
  lemma TailIsUnprotected(c: Setup, es: seq<Event>, cs: seq<Checkpoint>, k: nat, nextId: nat, entries: seq<Entry>)
    requires Chained(c.sha, es) && Ascending(es) && Backed(c, es, cs) && k <= |es|
    requires cs == [] || (k > 0 && LastAnchor(cs) <= es[k - 1].id)
    requires Below(es[..k], nextId)
    ensures var forged := Rehashed(c.sha, es[..k], nextId, entries); Verdict(c, forged, cs, forged).valid
  {
    var forged := Rehashed(c.sha, es[..k], nextId, entries);
    ChainedPrefix(c.sha, es, k);
    RehashedIsChained(c.sha, es[..k], nextId, entries);
    RehashedAscends(c.sha, es[..k], nextId, entries);
    if cs != [] {
      var ck := cs[|cs| - 1];
      assert BackedBy(c, es, ck);
      var i :| 0 <= i < |es| && es[i].id == ck.lastEventId && es[i].hash == ck.chainHash;
      assert i < k;
      assert forged[i] == es[..k][i];
      assert Anchors(ck, forged);
    }
    ValidMeans(c, forged, cs, forged);
  }
}
