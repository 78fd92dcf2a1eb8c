/** The sliding-window limiter of lib/rate-limit.ts: per-key hit lists pruned when read and
    swept when stale, against the full history of admissions they stand for. */
module RateLimit {
  import opened Arithmetic

  /** What is still in the window, order kept. */
  function Recent(times: seq<int>, cutoff: int): seq<int> {
    if times == [] then []
    else Recent(times[..|times| - 1], cutoff) + (if times[|times| - 1] > cutoff then [times[|times| - 1]] else [])
  }

  function Get(m: map<string, seq<int>>, key: string): seq<int> {
    if key in m then m[key] else []
  }

  ghost predicate Sorted(times: seq<int>) {
    forall i, j :: 0 <= i <= j < |times| ==> times[i] <= times[j]
  }

  /** Any two admissions `limit` apart are a window apart. */
  ghost predicate Spaced(times: seq<int>, limit: nat, window: nat) {
    forall i, j :: 0 <= i < j < |times| && j == i + limit ==> times[i] <= times[j] - window
  }

  /** A key's admissions, oldest first, none in the future, never too dense. */
  ghost predicate Orderly(times: seq<int>, limit: nat, window: nat, clock: int) {
    Past(times, clock) && Spaced(times, limit, window)
  }

  ghost predicate Past(times: seq<int>, clock: int) {
    Sorted(times) && forall i :: 0 <= i < |times| ==> times[i] <= clock
  }

  // ----- pruning ------------------------------------------------------------

  /** Pruning twice is pruning to the later cutoff. */
  lemma {:induction false} RecentOfRecent(times: seq<int>, c: int, d: int)
    requires c <= d
    ensures Recent(Recent(times, c), d) == Recent(times, d)
  {
    if times != [] {
      var init, last := times[..|times| - 1], times[|times| - 1];
      RecentOfRecent(init, c, d);
      if last > c {
        RecentSnoc(Recent(init, c), last, d);
      } else {
        assert Recent(times, c) == Recent(init, c);
      }
    }
  }

  lemma RecentSnoc(times: seq<int>, t: int, c: int)
    ensures Recent(times + [t], c) == Recent(times, c) + (if t > c then [t] else [])
  {
    assert (times + [t])[..|times|] == times;
  }

  /** Of sorted times, pruning keeps a suffix. */
  lemma RecentIsSuffix(times: seq<int>, c: int)
    requires Sorted(times)
    ensures |Recent(times, c)| <= |times| && Recent(times, c) == times[|times| - |Recent(times, c)|..]
    ensures forall i :: 0 <= i < |times| ==> (times[i] > c <==> i >= |times| - |Recent(times, c)|)
  {
    var k := RecentSplits(times, c);
  }

  /** Where the suffix starts. */
  lemma {:induction false} RecentSplits(times: seq<int>, c: int) returns (k: nat)
    requires Sorted(times)
    ensures k <= |times| && Recent(times, c) == times[k..]
    ensures forall i :: 0 <= i < |times| ==> (times[i] > c <==> i >= k)
  {
    if times == [] {
      return 0;
    }
    var init, last := times[..|times| - 1], times[|times| - 1];
    if last <= c {
      NoneRecent(times, c);
      return |times|;
    }
    k := RecentSplits(init, c);
    assert times[k..] == init[k..] + [last];
  }

  lemma {:induction false} NoneRecent(times: seq<int>, c: int)
    requires forall i :: 0 <= i < |times| ==> times[i] <= c
    ensures Recent(times, c) == []
  {
    if times != [] {
      NoneRecent(times[..|times| - 1], c);
    }
  }

  // ----- the limit ----------------------------------------------------------

  /** An orderly key never has more than `limit` hits in the window. */
  lemma RecentWithinLimit(times: seq<int>, limit: nat, window: nat, now: int)
    requires Orderly(times, limit, window, now) && limit > 0
    ensures |Recent(times, now - window)| <= limit
  {
    RecentIsSuffix(times, now - window);
    var n, r := |times|, |Recent(times, now - window)|;
    if n > limit {
      assert times[n - 1 - limit] <= times[n - 1] - window;
    }
  }

  /** Admitting only below the limit keeps a key orderly. */
  lemma AdmitKeepsOrderly(times: seq<int>, limit: nat, window: nat, clock: int, now: int)
    requires Orderly(times, limit, window, clock) && clock <= now && limit > 0
    requires |Recent(times, now - window)| < limit
    ensures Orderly(times + [now], limit, window, now)
  {
    RecentIsSuffix(times, now - window);
    var more := times + [now];
    forall i, j | 0 <= i < j < |more| && j == i + limit ensures more[i] <= more[j] - window {
      if j < |times| {
        assert more[j] == times[j] && more[i] == times[i];
      }
    }
  }

  /** How many admissions fall in (lo, hi]. */
  function CountIn(times: seq<int>, lo: int, hi: int): nat {
    if times == [] then 0
    else CountIn(times[..|times| - 1], lo, hi) + (if lo < times[|times| - 1] <= hi then 1 else 0)
  }

  lemma {:induction false} CountInRecent(times: seq<int>, lo: int, hi: int)
    requires forall i :: 0 <= i < |times| ==> times[i] <= hi
    ensures CountIn(times, lo, hi) == |Recent(times, lo)|
  {
    if times != [] {
      CountInRecent(times[..|times| - 1], lo, hi);
    }
  }

  lemma {:induction false} NoneAfter(times: seq<int>, lo: int, hi: int)
    requires forall i :: 0 <= i < |times| ==> times[i] > hi
    ensures CountIn(times, lo, hi) == 0
  {
    if times != [] {
      NoneAfter(times[..|times| - 1], lo, hi);
    }
  }

  /** The limiter's promise: in every window (t - w, t], whenever it is taken, a key has at
      most `limit` admissions. */
  lemma {:induction false} AtMostLimit(times: seq<int>, limit: nat, window: nat, clock: int, t: int)
    requires Orderly(times, limit, window, clock) && limit > 0
    ensures CountIn(times, t - window, t) <= limit
    decreases |times|
  {
    if times != [] {
      if times[|times| - 1] <= t {
        assert Orderly(times, limit, window, t);
        CountInRecent(times, t - window, t);
        RecentWithinLimit(times, limit, window, t);
      } else {
        AtMostLimit(times[..|times| - 1], limit, window, clock, t);
      }
    }
  }

  // ----- decisions ----------------------------------------------------------

  datatype Decision = Decision(allowed: bool, remaining: nat, retryAfterSeconds: nat)

  /** The decision on a full history, with no pruning and no sweep. */
  function Decide(times: seq<int>, limit: nat, window: nat, now: int): Decision
    requires limit > 0
  {
    DecideOn(Recent(times, now - window), limit, window, now)
  }

  /** The same, given the hits still in the window. */
  function DecideOn(recent: seq<int>, limit: nat, window: nat, now: int): Decision
    requires limit > 0
  {
    if |recent| >= limit then
      var wait := CeilDiv(recent[0] + window - now, 1000);
      Decision(false, 0, if wait > 1 then wait else 1)
    else Decision(true, limit - |recent| - 1, 0)
  }

  /** Retry-After is enough: with no admission in between, a refused key is admitted again
      at a time if and only if the oldest hit in the window has left it by then; waiting the
      seconds returned is late enough, and less than a second later than needed. */
  lemma RetryAfterSuffices(times: seq<int>, limit: nat, window: nat, now: int, later: int)
    requires Orderly(times, limit, window, now) && limit > 0 && now <= later
    requires !Decide(times, limit, window, now).allowed
    ensures var oldest := Recent(times, now - window)[0];
      var retry := Decide(times, limit, window, now).retryAfterSeconds;
      && (Decide(times, limit, window, later).allowed <==> later >= oldest + window)
      && now + 1000 * retry >= oldest + window
      && 1 <= retry && now + 1000 * (retry - 1) < oldest + window
  {
    RecentWithinLimit(times, limit, window, now);
    RecentIsSuffix(times, now - window);
    RecentIsSuffix(times, later - window);
    var n, r := |times|, |Recent(times, later - window)|;
    assert |Recent(times, now - window)| == limit;
    assert times[n - limit] > later - window <==> n - limit >= n - r;
    RecentWithinLimit(times, limit, window, now);
    LaterKeepsFewer(times, now - window, later - window);
  }

  /** A key is admitted exactly when it has not yet been admitted `limit` times, or the last
      but `limit` of its admissions is a window old. */
  lemma AdmittedExactly(times: seq<int>, limit: nat, window: nat, now: int)
    requires Past(times, now) && limit > 0
    ensures Decide(times, limit, window, now).allowed <==>
      |times| < limit || times[|times| - limit] <= now - window
  {
    RecentIsSuffix(times, now - window);
    var n, r := |times|, |Recent(times, now - window)|;
    if n >= limit {
      assert times[n - limit] <= now - window <==> n - limit < n - r;
    }
  }

  /** `remaining` counts what is left: once the hit is recorded, it and the hits in the
      window make up the limit. */
  lemma RemainingIsExact(times: seq<int>, limit: nat, window: nat, now: int)
    requires limit > 0 && window > 0 && Decide(times, limit, window, now).allowed
    ensures |Recent(times + [now], now - window)| + Decide(times, limit, window, now).remaining == limit
  {
    RecentSnoc(times, now, now - window);
  }

  lemma LaterKeepsFewer(times: seq<int>, c: int, d: int)
    requires Sorted(times) && c <= d
    ensures |Recent(times, d)| <= |Recent(times, c)|
  {
    RecentIsSuffix(times, c);
    RecentIsSuffix(times, d);
    var n, r := |times|, |Recent(times, d)|;
    if r > 0 {
      assert times[n - r] > d;
    }
  }

  // ----- the limiter --------------------------------------------------------

  const SWEEP_EVERY: nat := 500

  /** A key with nothing left in the window. */
  predicate Stale(times: seq<int>, cutoff: int) {
    times == [] || times[|times| - 1] <= cutoff
  }

  /** A pruned list stands for a history: it has everything still in the window. */
  ghost predicate Tracks(short: seq<int>, full: seq<int>, limit: nat, window: nat, clock: int) {
    && Orderly(full, limit, window, clock) && Past(short, clock)
    && Recent(short, clock - window) == Recent(full, clock - window)
  }

  ghost predicate AllTrack(hits: map<string, seq<int>>, history: map<string, seq<int>>,
      limit: nat, window: nat, clock: int)
  {
    forall key: string :: Tracks(Get(hits, key), Get(history, key), limit, window, clock)
  }

  lemma TracksLater(short: seq<int>, full: seq<int>, limit: nat, window: nat, clock: int, now: int)
    requires Tracks(short, full, limit, window, clock) && clock <= now
    ensures Tracks(short, full, limit, window, now)
  {
    assert Past(short, now) && Orderly(full, limit, window, now);
    SameRecentLater(short, full, clock - window, now - window);
  }

  lemma SameRecentLater(short: seq<int>, full: seq<int>, c: int, d: int)
    requires Recent(short, c) == Recent(full, c) && c <= d
    ensures Recent(short, d) == Recent(full, d)
  {
    RecentOfRecent(short, c, d);
    RecentOfRecent(full, c, d);
  }

  lemma AllTrackLater(hits: map<string, seq<int>>, history: map<string, seq<int>>,
      limit: nat, window: nat, clock: int, now: int)
    requires AllTrack(hits, history, limit, window, clock) && clock <= now
    ensures AllTrack(hits, history, limit, window, now)
  {
    forall key: string ensures Tracks(Get(hits, key), Get(history, key), limit, window, now) {
      TracksLater(Get(hits, key), Get(history, key), limit, window, clock, now);
    }
  }

  lemma RecentIsPast(times: seq<int>, c: int, clock: int)
    requires Past(times, clock)
    ensures Past(Recent(times, c), clock)
  {
    RecentIsSuffix(times, c);
    var k := |times| - |Recent(times, c)|;
    assert forall i :: 0 <= i < |times[k..]| ==> times[k..][i] == times[k + i];
  }

  lemma SnocIsPast(times: seq<int>, now: int)
    requires Past(times, now)
    ensures Past(times + [now], now)
  {
  }

  /** Pruning a list, as a refusal does. */
  lemma PrunedTracks(short: seq<int>, full: seq<int>, limit: nat, window: nat, now: int, recent: seq<int>)
    requires Tracks(short, full, limit, window, now) && recent == Recent(short, now - window)
    ensures Tracks(recent, full, limit, window, now) && recent == Recent(full, now - window)
  {
    assert Past(recent, now) by {
      RecentIsPast(short, now - window, now);
    }
    assert Recent(recent, now - window) == recent by {
      RecentOfRecent(short, now - window, now - window);
    }
  }

  lemma AdmittedRecent(short: seq<int>, full: seq<int>, now: int, c: int)
    requires Recent(short, c) == Recent(full, c)
    ensures Recent(short + [now], c) == Recent(full + [now], c)
  {
    RecentSnoc(short, now, c);
    RecentSnoc(full, now, c);
  }

  /** And recording an admission. */
  lemma AdmittedTracks(short: seq<int>, full: seq<int>, limit: nat, window: nat, now: int)
    requires Tracks(short, full, limit, window, now) && limit > 0 && |Recent(full, now - window)| < limit
    ensures Tracks(short + [now], full + [now], limit, window, now)
  {
    AdmittedRecent(short, full, now, now - window);
    SnocIsPast(short, now);
    AdmitKeepsOrderly(full, limit, window, now, now);
  }

  lemma SetTracks(hits: map<string, seq<int>>, history: map<string, seq<int>>, limit: nat, window: nat, now: int,
      key: string, short: seq<int>, full: seq<int>)
    requires AllTrack(hits, history, limit, window, now) && Tracks(short, full, limit, window, now)
    ensures AllTrack(hits[key := short], history[key := full], limit, window, now)
  {
    var hits', history' := hits[key := short], history[key := full];
    forall other: string ensures Tracks(Get(hits', other), Get(history', other), limit, window, now) {
      if other != key {
        assert Get(hits', other) == Get(hits, other) && Get(history', other) == Get(history, other);
      }
    }
  }

  lemma SameHistoryTracks(hits: map<string, seq<int>>, history: map<string, seq<int>>,
      limit: nat, window: nat, now: int, key: string)
    requires AllTrack(hits, history[key := Get(history, key)], limit, window, now)
    ensures AllTrack(hits, history, limit, window, now)
  {
    var history' := history[key := Get(history, key)];
    forall other: string ensures Tracks(Get(hits, other), Get(history, other), limit, window, now) {
      assert Get(history', other) == Get(history, other);
    }
  }

  /** What a refusal does to the lists. */
  lemma RefusalTracks(hits: map<string, seq<int>>, history: map<string, seq<int>>, limit: nat, window: nat, now: int,
      key: string, recent: seq<int>)
    requires AllTrack(hits, history, limit, window, now) && recent == Recent(Get(hits, key), now - window)
    ensures recent == Recent(Get(history, key), now - window)
    ensures AllTrack(hits[key := recent], history, limit, window, now)
  {
    assert Tracks(Get(hits, key), Get(history, key), limit, window, now);
    PrunedTracks(Get(hits, key), Get(history, key), limit, window, now, recent);
    SetTracks(hits, history, limit, window, now, key, recent, Get(history, key));
    SameHistoryTracks(hits[key := recent], history, limit, window, now, key);
  }

  /** What an admission does. */
  lemma AdmissionTracks(hits: map<string, seq<int>>, history: map<string, seq<int>>, limit: nat, window: nat, now: int,
      key: string, recent: seq<int>)
    requires AllTrack(hits, history, limit, window, now) && recent == Recent(Get(hits, key), now - window)
    requires |recent| < limit
    ensures AllTrack(hits[key := recent + [now]], history[key := Get(history, key) + [now]], limit, window, now)
  {
    assert Tracks(Get(hits, key), Get(history, key), limit, window, now);
    PrunedTracks(Get(hits, key), Get(history, key), limit, window, now, recent);
    AdmittedTracks(recent, Get(history, key), limit, window, now);
    SetTracks(hits, history, limit, window, now, key, recent + [now], Get(history, key) + [now]);
  }

  /** Dropping stale keys. */
  lemma SweptTracks(hits: map<string, seq<int>>, kept: map<string, seq<int>>, history: map<string, seq<int>>,
      limit: nat, window: nat, now: int)
    requires AllTrack(hits, history, limit, window, now)
    requires forall key :: key in kept ==> key in hits && kept[key] == hits[key]
    requires forall key :: key in hits && key !in kept ==> Stale(hits[key], now - window)
    ensures AllTrack(kept, history, limit, window, now)
  {
    forall key: string ensures Tracks(Get(kept, key), Get(history, key), limit, window, now) {
      assert Tracks(Get(hits, key), Get(history, key), limit, window, now);
      if key in hits && key !in kept {
        RecentIsSuffix(hits[key], now - window);
      }
    }
  }

  // ----- one call, whatever its time ----------------------------------------

  /** The module's state, and with it every admission ever. */
  datatype Table = Table(hits: map<string, seq<int>>, sinceSweep: nat, history: map<string, seq<int>>)

  const EMPTY := Table(map[], 0, map[])

  /** The keys a sweep leaves. */
  function Unswept(hits: map<string, seq<int>>, cutoff: int): map<string, seq<int>> {
    map key | key in hits && !Stale(hits[key], cutoff) :: hits[key]
  }

  function Swept(t: Table, window: nat, now: int): Table {
    if t.sinceSweep + 1 < SWEEP_EVERY then t.(sinceSweep := t.sinceSweep + 1)
    else t.(sinceSweep := 0, hits := Unswept(t.hits, now - window))
  }

  /** One call: prune, decide, and on admission record and sweep. Nothing is assumed of the
      clock. */
  function Called(t: Table, limit: nat, window: nat, key: string, now: int): Table {
    var recent := Recent(Get(t.hits, key), now - window);
    if |recent| >= limit then t.(hits := t.hits[key := recent])
    else
      Swept(Table(t.hits[key := recent + [now]], t.sinceSweep, t.history[key := Get(t.history, key) + [now]]),
        window, now)
  }

  /** Every pruned list stands for its key's history. */
  ghost predicate Stands(t: Table, limit: nat, window: nat, clock: int) {
    AllTrack(t.hits, t.history, limit, window, clock)
  }

  lemma SweptStands(t: Table, limit: nat, window: nat, now: int)
    requires Stands(t, limit, window, now)
    ensures Stands(Swept(t, window, now), limit, window, now)
  {
    SweptTracks(t.hits, Unswept(t.hits, now - window), t.history, limit, window, now);
  }

  /** A call no earlier than the last keeps every list standing for its history, and so
      decides as the history does. */
  lemma CalledStands(t: Table, limit: nat, window: nat, clock: int, key: string, now: int)
    requires Stands(t, limit, window, clock) && clock <= now
    ensures Stands(Called(t, limit, window, key, now), limit, window, now)
    ensures Recent(Get(t.hits, key), now - window) == Recent(Get(t.history, key), now - window)
  {
    AllTrackLater(t.hits, t.history, limit, window, clock, now);
    var recent := Recent(Get(t.hits, key), now - window);
    RefusalTracks(t.hits, t.history, limit, window, now, key, recent);
    if |recent| < limit {
      AdmissionTracks(t.hits, t.history, limit, window, now, key, recent);
      SweptStands(Table(t.hits[key := recent + [now]], t.sinceSweep, t.history[key := Get(t.history, key) + [now]]),
                  limit, window, now);
    }
  }

  /** The module for one limit and window; `history` and `clock` are what it stands for:
      every admission ever, and the time of the latest call. */
  class Limiter {
    const limit: nat
    const windowMs: nat
    var hits: map<string, seq<int>>
    var sinceSweep: nat
    ghost var history: map<string, seq<int>>
    ghost var clock: int

    constructor (limit: nat, windowMs: nat, now: int)
      requires limit > 0
      ensures Valid() && this.limit == limit && this.windowMs == windowMs && State() == EMPTY && clock == now
    {
      this.limit, this.windowMs := limit, windowMs;
      hits, sinceSweep, history, clock := map[], 0, map[], now;
    }

    ghost function State(): Table
      reads this
    {
      Table(hits, sinceSweep, history)
    }

    ghost predicate Valid()
      reads this
    {
      limit > 0 && Stands(State(), limit, windowMs, clock)
    }

    /** Whatever calls were made, no key was ever admitted more than `limit` times in any
        window: any admission is a window later than the one `limit` before it. */
    lemma PromiseKept(key: string, t: int)
      requires Valid()
      ensures CountIn(Get(history, key), t - windowMs, t) <= limit
      ensures var h := Get(history, key); forall i :: limit <= i < |h| ==> h[i - limit] + windowMs <= h[i]
    {
      assert Tracks(Get(hits, key), Get(history, key), limit, windowMs, clock);
      AtMostLimit(Get(history, key), limit, windowMs, clock, t);
    }

    /** And a call in order of time is admitted exactly when that leaves it so. */
    lemma AdmitsExactly(key: string, now: int)
      requires Valid() && clock <= now
      ensures Decide(Get(history, key), limit, windowMs, now).allowed <==>
        var h := Get(history, key); |h| < limit || h[|h| - limit] + windowMs <= now
    {
      assert Tracks(Get(hits, key), Get(history, key), limit, windowMs, clock);
      AdmittedExactly(Get(history, key), limit, windowMs, now);
    }

    /** Every call is the pure one, whatever its time. One no earlier than the last decides
        as the full history calls for: neither pruning nor sweeping ever shows. A refused
        request is not recorded. */
    method Consume(key: string, now: int) returns (d: Decision)
      requires limit > 0
      modifies this
      ensures State() == Called(old(State()), limit, windowMs, key, now) && clock == now
      ensures d == DecideOn(Recent(Get(old(hits), key), now - windowMs), limit, windowMs, now)
      ensures history == if d.allowed then old(history)[key := Get(old(history), key) + [now]] else old(history)
      ensures old(Valid()) && old(clock) <= now ==>
        Valid() && d == Decide(Get(old(history), key), limit, windowMs, now)
      ensures old(Valid()) && old(clock) <= now ==>
        (d.allowed <==> var h := Get(old(history), key); |h| < limit || h[|h| - limit] + windowMs <= now)
    {
      if Valid() && clock <= now {
        AdmitsExactly(key, now);
        CalledStands(State(), limit, windowMs, clock, key, now);
      }
      clock := now;
      var recent := Recent(Get(hits, key), now - windowMs);
      if |recent| >= limit {
        hits := hits[key := recent];
        var wait := CeilDiv(recent[0] + windowMs - now, 1000);
        return Decision(false, 0, if wait > 1 then wait else 1);
      }
      var count := Admit(key, recent, now);
      return Decision(true, limit - count, 0);
    }

    /** Record a hit on the pruned list, and sweep. */
    method Admit(key: string, recent: seq<int>, now: int) returns (count: nat)
      modifies this`hits, this`history, this`sinceSweep
      ensures count == |recent| + 1
      ensures history == old(history)[key := Get(old(history), key) + [now]]
      ensures State() == Swept(Table(old(hits)[key := recent + [now]], old(sinceSweep), history), windowMs, now)
    {
      hits := hits[key := recent + [now]];
      history := history[key := Get(history, key) + [now]];
      count := |recent + [now]|;
      Sweep(now);
    }

    /** Every so many admissions, drop the keys with no hit in the window. */
    method Sweep(now: int)
      modifies this`hits, this`sinceSweep
      ensures State() == Swept(old(State()), windowMs, now)
      ensures forall key :: key in hits ==> key in old(hits) && hits[key] == old(hits)[key]
      ensures old(sinceSweep) + 1 < 500 ==> hits == old(hits) && sinceSweep == old(sinceSweep) + 1
      ensures old(sinceSweep) + 1 >= 500 ==>
        sinceSweep == 0 && forall key :: key in old(hits) ==> (key in hits <==> !Stale(old(hits)[key], now - windowMs))
    {
      sinceSweep := sinceSweep + 1;
      if sinceSweep < SWEEP_EVERY {
        return;
      }
      sinceSweep := 0;
      var cutoff := now - windowMs;
      ghost var all := hits;
      var keys := hits.Keys;
      while keys != {}
        invariant sinceSweep == 0 && keys <= all.Keys && hits.Keys <= all.Keys
        invariant forall key :: key in hits ==> hits[key] == all[key]
        invariant forall key :: key in all ==> (key in hits <==> key in keys || !Stale(all[key], cutoff))
        decreases |keys|
      {
        var key :| key in keys;
        if Stale(hits[key], cutoff) {
          hits := hits - {key};
        }
        keys := keys - {key};
      }
      assert hits == Unswept(all, cutoff);
    }
  }

  // ----- when the clock falls -----------------------------------------------

  datatype Hit = Hit(key: string, at: int)

  function CalledAll(t: Table, limit: nat, window: nat, calls: seq<Hit>): Table {
    if calls == [] then t
    else
      var last := calls[|calls| - 1];
      Called(CalledAll(t, limit, window, calls[..|calls| - 1]), limit, window, last.key, last.at)
  }

  /** Calls in order of time, the last of them at this time. */
  ghost predicate EndsAt(calls: seq<Hit>, clock: int) {
    && calls != [] && calls[|calls| - 1].at == clock
    && forall i, j :: 0 <= i <= j < |calls| ==> calls[i].at <= calls[j].at
  }

  ghost predicate Within(times: seq<int>, limit: nat, window: nat, to: int) {
    CountIn(times, to - window, to) <= limit
  }

  /** No key was admitted more than `limit` times in any window. */
  ghost predicate Promised(t: Table, limit: nat, window: nat) {
    forall key: string, to: int :: Within(Get(t.history, key), limit, window, to)
  }

  /** The promise survives one more call. */
  ghost predicate Survives(limit: nat, window: nat, calls: seq<Hit>, key: string, now: int) {
    Promised(Called(CalledAll(EMPTY, limit, window, calls), limit, window, key, now), limit, window)
  }

  lemma StandingIsPromised(t: Table, limit: nat, window: nat, clock: int)
    requires Stands(t, limit, window, clock) && limit > 0
    ensures Promised(t, limit, window)
  {
    forall key: string, to: int ensures Within(Get(t.history, key), limit, window, to) {
      assert Tracks(Get(t.hits, key), Get(t.history, key), limit, window, clock);
      AtMostLimit(Get(t.history, key), limit, window, clock, to);
    }
  }

  lemma {:induction false} OrderedCallsStand(limit: nat, window: nat, calls: seq<Hit>, clock: int)
    requires EndsAt(calls, clock)
    ensures Stands(CalledAll(EMPTY, limit, window, calls), limit, window, clock)
  {
    var init, last := calls[..|calls| - 1], calls[|calls| - 1];
    var before := if init == [] then clock else init[|init| - 1].at;
    if init != [] {
      OrderedCallsStand(limit, window, init, before);
    }
    CalledStands(CalledAll(EMPTY, limit, window, init), limit, window, before, last.key, clock);
  }

  /** An empty window holds nothing. */
  lemma {:induction false} EmptyWindow(times: seq<int>, to: int)
    ensures CountIn(times, to, to) == 0
  {
    if times != [] {
      EmptyWindow(times[..|times| - 1], to);
    }
  }

  /** Only this key has hits, and these are its hits and its history. */
  ghost predicate Alone(t: Table, key: string, times: seq<int>, history: seq<int>) {
    t.hits.Keys <= {key} && Get(t.hits, key) == times && Get(t.history, key) == history
  }

  /** A call that is admitted while no other key has hits: its key is not swept. */
  lemma AdmitsAlone(t: Table, limit: nat, window: nat, key: string, times: seq<int>, history: seq<int>, now: int)
    requires window > 0 && Alone(t, key, times, history) && |Recent(times, now - window)| < limit
    ensures var t' := Called(t, limit, window, key, now);
      && Alone(t', key, Recent(times, now - window) + [now], history + [now])
      && t'.sinceSweep == if t.sinceSweep + 1 < SWEEP_EVERY then t.sinceSweep + 1 else 0
  {
    var kept := Recent(times, now - window) + [now];
    assert t.hits[key := kept] == map[key := kept];
    assert Unswept(map[key := kept], now - window) == map[key := kept];
  }

  lemma CalledAllSnoc(limit: nat, window: nat, calls: seq<Hit>, h: Hit)
    ensures CalledAll(EMPTY, limit, window, calls + [h]) ==
      Called(CalledAll(EMPTY, limit, window, calls), limit, window, h.key, h.at)
  {
    assert (calls + [h])[..|calls|] == calls;
  }

  lemma CountInSnoc(times: seq<int>, t: int, lo: int, hi: int)
    ensures CountIn(times + [t], lo, hi) == CountIn(times, lo, hi) + if lo < t <= hi then 1 else 0
  {
    assert (times + [t])[..|times|] == times;
  }

  /** `n` hits at one time. */
  function Same(at: int, n: nat): seq<int> {
    if n == 0 then [] else Same(at, n - 1) + [at]
  }

  lemma {:induction false} SameRecent(at: int, n: nat, cutoff: int)
    ensures Recent(Same(at, n), cutoff) == if at > cutoff then Same(at, n) else []
    ensures |Same(at, n)| == n
  {
    if n > 0 {
      var most := Same(at, n - 1);
      SameRecent(at, n - 1, cutoff);
      RecentSnoc(most, at, cutoff);
    }
  }

  lemma {:induction false} SameCount(at: int, n: nat, lo: int, hi: int)
    requires lo < at <= hi
    ensures CountIn(Same(at, n), lo, hi) == n
  {
    if n > 0 {
      SameCount(at, n - 1, lo, hi);
      CountInSnoc(Same(at, n - 1), at, lo, hi);
    }
  }

  lemma BurstGrows(t: Table, limit: nat, window: nat, key: string, at: int, n: nat)
    requires 0 < n <= limit && window > 0 && Alone(t, key, Same(at, n - 1), Same(at, n - 1))
    ensures Alone(Called(t, limit, window, key, at), key, Same(at, n), Same(at, n))
  {
    SameRecent(at, n - 1, at - window);
    AdmitsAlone(t, limit, window, key, Same(at, n - 1), Same(at, n - 1), at);
  }

  lemma EndsAtSnoc(calls: seq<Hit>, clock: int, h: Hit)
    requires calls == [] || EndsAt(calls, clock)
    requires clock <= h.at
    ensures EndsAt(calls + [h], h.at)
  {
    var more := calls + [h];
    forall i, j | 0 <= i <= j < |more| ensures more[i].at <= more[j].at {
      if i < |calls| {
        assert calls[i].at <= calls[|calls| - 1].at;
      }
    }
  }

  /** Up to the limit all of a burst is admitted. */
  lemma {:induction false} Burst(limit: nat, window: nat, key: string, at: int, n: nat)
    returns (calls: seq<Hit>, t: Table)
    requires n <= limit && window > 0
    ensures t == CalledAll(EMPTY, limit, window, calls) && Alone(t, key, Same(at, n), Same(at, n))
    ensures if n == 0 then calls == [] else EndsAt(calls, at)
  {
    if n == 0 {
      return [], EMPTY;
    }
    var init, t0 := Burst(limit, window, key, at, n - 1);
    CalledAllSnoc(limit, window, init, Hit(key, at));
    EndsAtSnoc(init, at, Hit(key, at));
    BurstGrows(t0, limit, window, key, at, n);
    return init + [Hit(key, at)], Called(t0, limit, window, key, at);
  }

  /** `limit` hits, one more when they have left the window, and then a call before that: the
      later call forgot the burst, and the earlier one's window still holds it. */
  lemma FallenClockForgets(limit: nat, window: nat, clock: int, now: int, key: string) returns (calls: seq<Hit>)
    requires limit >= 2 && window > 0 && now < clock
    ensures EndsAt(calls, clock) && !Survives(limit, window, calls, key, now)
  {
    var at := if now <= clock - window then now else clock - window;
    var burst, t := Burst(limit, window, key, at, limit);
    calls := burst + [Hit(key, clock)];
    EndsAtSnoc(burst, at, Hit(key, clock));
    CalledAllSnoc(limit, window, burst, Hit(key, clock));
    SameRecent(at, limit, clock - window);
    AdmitsAlone(t, limit, window, key, Same(at, limit), Same(at, limit), clock);
    BurstIsExceeded(Called(t, limit, window, key, clock), limit, window, key, at, clock, now);
  }

  lemma BurstIsExceeded(t: Table, limit: nat, window: nat, key: string, at: int, clock: int, now: int)
    requires limit >= 2 && now - window < at <= now < clock
    requires Alone(t, key, [] + [clock], Same(at, limit) + [clock])
    ensures !Promised(Called(t, limit, window, key, now), limit, window)
  {
    RecentSnoc([], clock, now - window);
    AdmitsAlone(t, limit, window, key, [] + [clock], Same(at, limit) + [clock], now);
    SameCount(at, limit, now - window, now);
    CountInSnoc(Same(at, limit), clock, now - window, now);
    CountInSnoc(Same(at, limit) + [clock], now, now - window, now);
    assert !Within(Get(Called(t, limit, window, key, now).history, key), limit, window, now);
  }

  lemma LadderGrows(t: Table, window: nat, key: string, low: seq<int>, rungs: seq<int>, top: int)
    requires window > 0 && (low == [] || low == [top - window])
    requires t.sinceSweep + 1 < SWEEP_EVERY && Alone(t, key, low, rungs)
    ensures var t' := Called(t, 1, window, key, top);
      t'.sinceSweep == t.sinceSweep + 1 && Alone(t', key, [top], rungs + [top])
  {
    NoneRecent(low, top - window);
    AdmitsAlone(t, 1, window, key, low, rungs, top);
    assert [] + [top] == [top];
  }

  lemma FirstRung(window: nat, key: string, top: int)
    requires window > 0
    ensures var t := CalledAll(EMPTY, 1, window, [] + [Hit(key, top)]);
      t.sinceSweep == 1 && Alone(t, key, [top], [] + [top])
  {
    CalledAllSnoc(1, window, [], Hit(key, top));
    LadderGrows(EMPTY, window, key, [], [], top);
  }

  /** Under a limit of one the key itself cannot forget; a sweep for another key can. First
      `n` hits of the key, each a window after the last. */
  lemma {:induction false} Ladder(window: nat, key: string, top: int, n: nat)
    returns (calls: seq<Hit>, t: Table, rungs: seq<int>)
    requires 0 < n < SWEEP_EVERY && window > 0
    ensures t == CalledAll(EMPTY, 1, window, calls) && t.sinceSweep == n && EndsAt(calls, top)
    ensures Alone(t, key, [top], rungs + [top])
    decreases n
  {
    if n == 1 {
      FirstRung(window, key, top);
      EndsAtSnoc([], top, Hit(key, top));
      return [] + [Hit(key, top)], CalledAll(EMPTY, 1, window, [] + [Hit(key, top)]), [];
    }
    var init, t0, low := Ladder(window, key, top - window, n - 1);
    CalledAllSnoc(1, window, init, Hit(key, top));
    EndsAtSnoc(init, top - window, Hit(key, top));
    LadderGrows(t0, window, key, [top - window], low + [top - window], top);
    return init + [Hit(key, top)], Called(t0, 1, window, key, top), low + [top - window];
  }

  /** The call that sweeps, for another key, drops the key once its hits have left the
      window. */
  lemma SweepForgets(t: Table, window: nat, key: string, at: int, history: seq<int>, other: string, clock: int)
    requires window > 0 && at <= clock - window && other != key
    requires t.sinceSweep == SWEEP_EVERY - 1 && Alone(t, key, [at], history)
    ensures var t' := Called(t, 1, window, other, clock);
      Get(t'.hits, key) == [] && Get(t'.history, key) == history
  {
    assert Get(t.hits, other) == [];
    assert key in t.hits && t.hits[other := [] + [clock]][key] == [at];
  }

  lemma SweptKeyExceeds(t: Table, window: nat, key: string, at: int, rungs: seq<int>, now: int)
    requires now - window < at <= now
    requires Get(t.hits, key) == [] && Get(t.history, key) == rungs + [at]
    ensures !Promised(Called(t, 1, window, key, now), 1, window)
  {
    var t' := Called(t, 1, window, key, now);
    assert Get(t'.history, key) == rungs + [at] + [now];
    CountInSnoc(rungs, at, now - window, now);
    CountInSnoc(rungs + [at], now, now - window, now);
    assert !Within(Get(t'.history, key), 1, window, now);
  }

  lemma FallenClockAfterSweep(window: nat, clock: int, now: int, key: string, n: nat) returns (calls: seq<Hit>)
    requires window > 0 && now < clock && n == SWEEP_EVERY - 1
    ensures EndsAt(calls, clock) && !Survives(1, window, calls, key, now)
  {
    var at := if now <= clock - window then now else clock - window;
    var other := key + "'";
    var ladder, t, rungs := Ladder(window, key, at, n);
    calls := ladder + [Hit(other, clock)];
    EndsAtSnoc(ladder, at, Hit(other, clock));
    CalledAllSnoc(1, window, ladder, Hit(other, clock));
    SweepForgets(t, window, key, at, rungs + [at], other, clock);
    SweptKeyExceeds(Called(t, 1, window, other, clock), window, key, at, rungs, now);
  }

  lemma EmptyWindowIsPromised(t: Table, limit: nat, window: nat)
    requires window == 0
    ensures Promised(t, limit, window)
  {
    forall key: string, to: int ensures Within(Get(t.history, key), limit, window, to) {
      EmptyWindow(Get(t.history, key), to);
    }
  }

  lemma OrderedCallSurvives(limit: nat, window: nat, calls: seq<Hit>, clock: int, key: string, now: int)
    requires limit > 0 && EndsAt(calls, clock) && clock <= now
    ensures Survives(limit, window, calls, key, now)
  {
    OrderedCallsStand(limit, window, calls, clock);
    CalledStands(CalledAll(EMPTY, limit, window, calls), limit, window, clock, key, now);
    StandingIsPromised(Called(CalledAll(EMPTY, limit, window, calls), limit, window, key, now), limit, window, now);
  }

  /** The clock must not fall, and that is all: the promise survives a call whatever calls
      went before, in order, up to this time, if and only if the call is not earlier than
      they are, or the window is empty. */
  lemma ClockMustNotFall(limit: nat, window: nat, clock: int, now: int)
    requires limit > 0
    ensures (forall calls: seq<Hit>, key: string :: EndsAt(calls, clock) ==> Survives(limit, window, calls, key, now))
       <==> clock <= now || window == 0
  {
    if clock <= now {
      forall calls: seq<Hit>, key: string | EndsAt(calls, clock) ensures Survives(limit, window, calls, key, now) {
        OrderedCallSurvives(limit, window, calls, clock, key, now);
      }
    } else if window == 0 {
      forall calls: seq<Hit>, key: string | EndsAt(calls, clock) ensures Survives(limit, window, calls, key, now) {
        EmptyWindowIsPromised(Called(CalledAll(EMPTY, limit, window, calls), limit, window, key, now), limit, window);
      }
    } else if limit == 1 {
      var calls := FallenClockAfterSweep(window, clock, now, "", SWEEP_EVERY - 1);
      assert !Survives(limit, window, calls, "", now);
    } else {
      var calls := FallenClockForgets(limit, window, clock, now, "");
      assert !Survives(limit, window, calls, "", now);
    }
  }

  // ----- a limit of one on one key ------------------------------------------

  /** Admissions a window apart, and the one hit kept is the last of them. */
  ghost predicate LastOf(hits: seq<int>, h: seq<int>, window: nat) {
    && Spaced(h, 1, window)
    && if h == [] then hits == [] else Past(h, h[|h| - 1]) && hits == [h[|h| - 1]]
  }

  ghost predicate LastKept(t: Table, key: string, window: nat) {
    t.hits.Keys <= {key} && t.history.Keys <= {key} && LastOf(Get(t.hits, key), Get(t.history, key), window)
  }

  lemma AllOrNone(hits: seq<int>, c: int)
    requires |hits| <= 1
    ensures Recent(hits, c) == [] || Recent(hits, c) == hits
  {
    if hits != [] {
      assert hits == [] + [hits[0]];
      RecentSnoc([], hits[0], c);
    }
  }

  lemma AdmittedIsLast(hits: seq<int>, h: seq<int>, window: nat, now: int)
    requires window > 0 && LastOf(hits, h, window) && Recent(hits, now - window) == []
    ensures LastOf([] + [now], h + [now], window)
  {
    assert [] + [now] == [now];
    if h != [] {
      var last := h[|h| - 1];
      RecentSnoc([], last, now - window);
      assert [] + [last] == [last];
      NoneRecent(h, now - window);
      AdmitKeepsOrderly(h, 1, window, last, now);
    }
  }

  lemma CalledKeepsLast(t: Table, key: string, window: nat, now: int)
    requires LastKept(t, key, window) && window > 0
    ensures LastKept(Called(t, 1, window, key, now), key, window)
  {
    var h, hits := Get(t.history, key), Get(t.hits, key);
    AllOrNone(hits, now - window);
    if Recent(hits, now - window) == [] {
      AdmittedIsLast(hits, h, window, now);
      AdmitsAlone(t, 1, window, key, hits, h, now);
    }
  }

  lemma LastKeptIsPromised(t: Table, key: string, window: nat)
    requires LastKept(t, key, window)
    ensures Promised(t, 1, window)
  {
    forall other: string, to: int ensures Within(Get(t.history, other), 1, window, to) {
      var h := Get(t.history, other);
      if h != [] {
        AtMostLimit(h, 1, window, h[|h| - 1], to);
      }
    }
  }

  lemma {:induction false} CallsKeepLast(key: string, window: nat, calls: seq<Hit>)
    requires window > 0 && forall i :: 0 <= i < |calls| ==> calls[i].key == key
    ensures LastKept(CalledAll(EMPTY, 1, window, calls), key, window)
  {
    if calls != [] {
      var init := calls[..|calls| - 1];
      CallsKeepLast(key, window, init);
      CalledKeepsLast(CalledAll(EMPTY, 1, window, init), key, window, calls[|calls| - 1].at);
    }
  }

  /** With one admission a window and one key the clock may do as it likes: the one hit that
      is kept is enough. Only the sweep for another key breaks the promise then. */
  lemma OneKeyLimitOneForgives(key: string, window: nat, calls: seq<Hit>)
    requires forall i :: 0 <= i < |calls| ==> calls[i].key == key
    ensures Promised(CalledAll(EMPTY, 1, window, calls), 1, window)
  {
    if window == 0 {
      EmptyWindowIsPromised(CalledAll(EMPTY, 1, window, calls), 1, window);
    } else {
      CallsKeepLast(key, window, calls);
      LastKeptIsPromised(CalledAll(EMPTY, 1, window, calls), key, window);
    }
  }
}
