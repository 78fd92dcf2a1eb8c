/** The arithmetic of the tokenized fund in lib/treasury.ts: a share index that accrues by
    whole units, shares minted and redeemed at it, every division a floor. */
module FundMath {
  import opened Arithmetic
  import opened Options

  /** The index at par. */
  const INDEX_SCALE: nat := 1_000_000_000_000_000_000

  /** Basis points times days in a year. */
  const DAY_SCALE: nat := 3_650_000

  /** One day of yield on an index; a negative rate is refused. */
  function DailyIndex(index: nat, rate: int): Option<nat> {
    if rate < 0 then None else Some(index + index * rate / DAY_SCALE)
  }

  function ValueOfShares(shares: nat, index: nat): nat {
    shares * index / INDEX_SCALE
  }

  /** What the fund mints for an amount subscribed. */
  function SharesFor(amount: nat, index: nat): nat
    requires index > 0
  {
    amount * INDEX_SCALE / index
  }

  // ----- accrual ------------------------------------------------------------

  /** A day's accrual is the floor of exact growth at the annual rate in basis points over 365
      days, and there is none at a negative rate. */
  lemma DayIsFloor(index: nat, rate: int, next: nat)
    ensures DailyIndex(index, rate) == Some(next) <==>
      && rate >= 0
      && 3_650_000 * next <= index * (3_650_000 + rate) < 3_650_000 * (next + 1)
  {
    assert index * (3_650_000 + rate) == index * 3_650_000 + index * rate;
    if rate >= 0 {
      MulLe(0, rate, index);
      Floor(index * rate, DAY_SCALE);
      if 3_650_000 * next <= index * (3_650_000 + rate) < 3_650_000 * (next + 1) {
        FloorUnique(index * rate, DAY_SCALE, next - index);
      }
    }
  }

  /** The index after n daily accruals at one rate. */
  function Accrued(index: nat, rate: nat, n: nat): nat {
    if n == 0 then index else DailyIndex(Accrued(index, rate, n - 1), rate).value
  }

  /** The exact compound growth after n days, less what the index shows, in units of
      1 / DAY_SCALE^n. */
  function Gap(index: nat, rate: nat, n: nat): int {
    index * Pow(DAY_SCALE + rate, n) - Accrued(index, rate, n) * Pow(DAY_SCALE, n)
  }

  /** A day scales the gap by the growth factor and adds the floor's remainder. */
  lemma GapGrows(index: nat, rate: nat, n: nat)
    ensures var e := Accrued(index, rate, n) * rate % DAY_SCALE;
      Gap(index, rate, n + 1) == (DAY_SCALE + rate) * Gap(index, rate, n) + e * Pow(DAY_SCALE, n)
  {
    var i, d, p, q := Accrued(index, rate, n), DAY_SCALE, Pow(DAY_SCALE, n), Pow(DAY_SCALE + rate, n);
    var e := i * rate % d;
    assert d * Accrued(index, rate, n + 1) == i * (d + rate) - e;
    RegroupDay(index, i, d, rate, e, p, q, Accrued(index, rate, n + 1));
  }

  lemma RegroupDay(i0: int, i: int, d: int, r: int, e: int, p: int, q: int, next: int)
    requires d * next == i * (d + r) - e
    ensures i0 * ((d + r) * q) - next * (d * p) == (d + r) * (i0 * q - i * p) + e * p
  {
    assert next * (d * p) == (i * (d + r) - e) * p;
    assert (i * (d + r) - e) * p == (d + r) * (i * p) - e * p;
    assert i0 * ((d + r) * q) == (d + r) * (i0 * q);
    assert (d + r) * (i0 * q - i * p) == (d + r) * (i0 * q) - (d + r) * (i * p);
  }

  /** After any number of days the index is never above exact compound growth, and what the
      floors lost is bounded by one unit less 1 / DAY_SCALE a day, itself compounded. */
  lemma {:induction false} AccrualBounds(index: nat, rate: nat, n: nat)
    ensures var d := 10_000 * 365;
      && Accrued(index, rate, n) * Pow(d, n) <= index * Pow(d + rate, n)
      && rate * (index * Pow(d + rate, n) - Accrued(index, rate, n) * Pow(d, n))
         <= (d - 1) * (Pow(d + rate, n) - Pow(d, n))
  {
    if n > 0 {
      AccrualBounds(index, rate, n - 1);
      GapGrows(index, rate, n - 1);
      var e := Accrued(index, rate, n - 1) * rate % DAY_SCALE;
      BoundDay(Gap(index, rate, n - 1), e, DAY_SCALE, rate, Pow(DAY_SCALE, n - 1), Pow(DAY_SCALE + rate, n - 1));
    }
  }

  lemma BoundDay(g: int, e: nat, d: nat, r: nat, p: nat, q: nat)
    requires d > 0 && 0 <= g && r * g <= (d - 1) * (q - p) && e <= d - 1
    ensures 0 <= (d + r) * g + e * p
    ensures r * ((d + r) * g + e * p) <= (d - 1) * ((d + r) * q - d * p)
  {
    MulLe(0, g, d + r);
    MulLe(0, e, p);
    MulLe(r * g, (d - 1) * (q - p), d + r);
    MulLe(e, d - 1, r * p);
    LeftSide(g, e, d, r, p);
    RightSide(d - 1, d, r, p, q);
  }

  lemma LeftSide(g: int, e: int, d: int, r: int, p: int)
    ensures r * ((d + r) * g + e * p) == r * g * (d + r) + e * (r * p)
  {
    assert r * ((d + r) * g) == r * g * (d + r);
    assert r * (e * p) == e * (r * p);
  }

  lemma RightSide(k: int, d: int, r: int, p: int, q: int)
    ensures k * (q - p) * (d + r) + k * (r * p) == k * ((d + r) * q - d * p)
  {
    assert (q - p) * (d + r) + r * p == (d + r) * q - d * p;
    MulAssoc(k, q - p, d + r);
  }

  /** The index never moves backwards, which the fund contract demands. */
  lemma {:induction false} AccrualIsMonotone(index: nat, rate: nat, m: nat, n: nat)
    requires m <= n
    ensures Accrued(index, rate, m) <= Accrued(index, rate, n)
    decreases n
  {
    if m < n {
      AccrualIsMonotone(index, rate, m, n - 1);
      var i := Accrued(index, rate, n - 1);
      MulLe(0, i, rate);
      FloorLe(0, i * rate, DAY_SCALE);
    }
  }

  /** An index gains on a day exactly when a day's yield is at least one whole unit; below
      that it is dust and stays where it is for ever. */
  lemma {:induction false} DustNeverAccrues(index: nat, rate: nat, n: nat)
    requires index * rate < DAY_SCALE
    ensures Accrued(index, rate, n) == index
  {
    if n > 0 {
      DustNeverAccrues(index, rate, n - 1);
      FloorUnique(index * rate, DAY_SCALE, 0);
      assert DailyIndex(index, rate) == Some(index + 0);
    }
  }

  // ----- parking and redeeming ----------------------------------------------

  /** Redeeming at the index of entry returns the amount less the ceiling of what minting
      rounded away: never more, and less by at most the ceiling of (index - 1) / scale. */
  lemma ParkThenRedeem(amount: nat, index: nat)
    requires index > 0
    ensures var back := ValueOfShares(SharesFor(amount, index), index);
      && back == amount - CeilDiv(amount * 1_000_000_000_000_000_000 % index, 1_000_000_000_000_000_000)
      && amount - CeilDiv(index - 1, 1_000_000_000_000_000_000) <= back <= amount
  {
    var e, shares := amount * INDEX_SCALE % index, SharesFor(amount, index);
    assert shares * index == amount * INDEX_SCALE - e;
    var c := CeilDiv(e, INDEX_SCALE);
    Floor(e + INDEX_SCALE - 1, INDEX_SCALE);
    FloorLe(e + INDEX_SCALE - 1, (index - 1) + INDEX_SCALE - 1, INDEX_SCALE);
    FloorUnique(shares * index, INDEX_SCALE, amount - c);
  }

  lemma ValueGrows(shares: nat, i: nat, j: nat)
    requires i <= j
    ensures ValueOfShares(shares, i) <= ValueOfShares(shares, j)
  {
    MulLe(i, j, shares);
    FloorLe(shares * i, shares * j, INDEX_SCALE);
  }

  /** Parked for n days, a position is worth at most exact compound growth of what was
      parked, whatever the index it entered at. */
  lemma YieldIsBounded(amount: nat, index: nat, rate: nat, n: nat)
    requires index > 0
    ensures var worth := ValueOfShares(SharesFor(amount, index), Accrued(index, rate, n));
      worth * Pow(DAY_SCALE, n) <= amount * Pow(DAY_SCALE + rate, n)
  {
    var shares, later := SharesFor(amount, index), Accrued(index, rate, n);
    var worth := ValueOfShares(shares, later);
    Floor(amount * INDEX_SCALE, index);
    Floor(shares * later, INDEX_SCALE);
    AccrualBounds(index, rate, n);
    WorthCompounds(amount, index, shares, later, worth, INDEX_SCALE, Pow(DAY_SCALE, n), Pow(DAY_SCALE + rate, n));
  }

  lemma WorthCompounds(a: nat, i: nat, shares: nat, later: nat, worth: nat, s: nat, p: nat, q: nat)
    requires i > 0 && s > 0
    requires shares * i <= a * s && worth * s <= shares * later && later * p <= i * q
    ensures worth * p <= a * q
  {
    // (worth s)(p i) <= (shares later)(p i) = (shares i)(later p) <= (a s)(i q)
    MulLe(worth * s, shares * later, p * i);
    MulLeBoth(shares * i, a * s, later * p, i * q);
    assert (shares * later) * (p * i) == (shares * i) * (later * p);
    assert (worth * s) * (p * i) == (worth * p) * (s * i);
    assert (a * s) * (i * q) == (a * q) * (s * i);
    MulLe(1, i, s);
    CancelLe(worth * p, a * q, s * i);
  }

  /** Splitting a holding never makes it worth more, and costs less than one unit a part. */
  lemma SplitLosesDust(a: nat, b: nat, index: nat)
    ensures ValueOfShares(a, index) + ValueOfShares(b, index) <= ValueOfShares(a + b, index)
    ensures ValueOfShares(a + b, index) <= ValueOfShares(a, index) + ValueOfShares(b, index) + 1
  {
    Floor(a * index, INDEX_SCALE);
    Floor(b * index, INDEX_SCALE);
    Floor((a + b) * index, INDEX_SCALE);
    assert (a + b) * index == a * index + b * index;
  }
}
