/** The FX engine of lib/fx.ts, in integers: amounts in minor units, rates scaled by
    10^18, every rounding a floor. */
module Fx {
  import opened Options
  import opened Arithmetic
  import opened Decimals
  import opened Money

  datatype Currency = USD | JPY | SGD

  function CurrencyOf(code: string): Option<Currency> {
    if code == "USD" then Some(USD)
    else if code == "JPY" then Some(JPY)
    else if code == "SGD" then Some(SGD)
    else None
  }

  const RATE_SCALE: nat := 1_000_000_000_000_000_000
  const BPS_SCALE: nat := 10_000
  const FX_SPREAD_BPS: nat := 20
  const PLATFORM_FEE_BPS: nat := 10
  const BRIDGE_FEE_BPS: nat := 5

  /** Minor units in one unit of the currency. */
  function MinorScale(c: Currency): (s: nat)
    ensures s >= 1
  {
    match c
    case USD => 100
    case JPY => 1
    case SGD => 100
  }

  /** One over a scaled rate, at rate scale, rounded to nearest. */
  function Inverse(rate: nat): nat
    requires rate > 0
  {
    (RATE_SCALE * RATE_SCALE + rate / 2) / rate
  }

  const USD_JPY: nat := 157_200_000_000_000_000_000
  const USD_SGD: nat := 1_350_000_000_000_000_000
  const SGD_JPY: nat := 116_440_000_000_000_000_000

  /** Mid-market rate of a corridor: one direction is data, the other its inverse. */
  function MidRate(source: Currency, dest: Currency): nat {
    match (source, dest)
    case (USD, JPY) => USD_JPY
    case (USD, SGD) => USD_SGD
    case (SGD, JPY) => SGD_JPY
    case (JPY, USD) => Inverse(USD_JPY)
    case (SGD, USD) => Inverse(USD_SGD)
    case (JPY, SGD) => Inverse(SGD_JPY)
    case _ => RATE_SCALE
  }

  /** A rate worsened by some basis points. */
  function ApplyBps(rate: nat, bps: nat): nat
    requires bps <= BPS_SCALE
  {
    rate * (BPS_SCALE - bps) / BPS_SCALE
  }

  function Convert(amount: nat, rate: nat, source: Currency, dest: Currency): nat {
    amount * rate * MinorScale(dest) / (RATE_SCALE * MinorScale(source))
  }

  /** Slippage tier by USD-equivalent notional, in cents. */
  function SlippageBps(usd: nat): (bps: nat)
    ensures 1 <= bps <= 15
  {
    if usd <= 10_000_00 then 1
    else if usd <= 100_000_00 then 3
    else if usd <= 500_000_00 then 8
    else 15
  }

  function UsdEquivalent(amount: nat, source: Currency): nat {
    if source == USD then amount else Convert(amount, MidRate(source, USD), source, USD)
  }

  function PlatformFee(amount: nat): (fee: nat)
    ensures fee <= amount
  {
    amount * PLATFORM_FEE_BPS / BPS_SCALE
  }

  function Slippage(amount: nat, source: Currency): nat {
    SlippageBps(UsdEquivalent(amount, source))
  }

  /** What the recipient is quoted, given the fee in basis points on top of the mid rate. */
  function Quoted(amount: nat, bps: nat, source: Currency, dest: Currency): nat
    requires bps <= BPS_SCALE
  {
    Convert(amount - PlatformFee(amount), ApplyBps(MidRate(source, dest), bps), source, dest)
  }

  datatype FxQuote = FxQuote(
    midRate: nat, effectiveRate: nat, slippageBps: nat, destinationAmount: nat, platformFee: nat)

  function Quote(amount: nat, source: Currency, dest: Currency): FxQuote {
    var mid, slip, fee := MidRate(source, dest), Slippage(amount, source), PlatformFee(amount);
    var effective := ApplyBps(mid, FX_SPREAD_BPS + slip);
    FxQuote(mid, effective, slip, Convert(amount - fee, effective, source, dest), fee)
  }

  /** quoteFx on currency codes: an unknown code is an unsupported corridor. */
  function QuoteFx(amount: nat, source: string, dest: string): Result<FxQuote> {
    match (CurrencyOf(source), CurrencyOf(dest))
    case (Some(s), Some(d)) => Success(Quote(amount, s, d))
    case _ => Failure(UnsupportedCurrency)
  }

  function CodeOf(c: Currency): string {
    match c
    case USD => "USD"
    case JPY => "JPY"
    case SGD => "SGD"
  }

  /** The codes are the currencies' own, and the conversion's scales their decimals. */
  lemma MinorScaleIsDecimals(c: Currency)
    ensures CurrencyOf("USD") == Some(USD) && CurrencyOf("JPY") == Some(JPY) && CurrencyOf("SGD") == Some(SGD)
    ensures CurrencyOf(CodeOf(c)) == Some(c) && CurrencyDecimals(CodeOf(c)).Success?
    ensures MinorScale(c) == Pow10(CurrencyDecimals(CodeOf(c)).value)
  {
    assert Pow10(2) == 10 * Pow10(1) && Pow10(1) == 10 * Pow10(0);
  }

  // ----- no arbitrage -------------------------------------------------------

  /** A fixed value per minor unit. Each table rate is below the ratio of two weights, or
      above it by less than the spread. */
  function Weight(c: Currency): (w: nat)
    ensures w >= 1
  {
    match c
    case USD => 15720
    case JPY => 10000
    case SGD => 11644
  }

  /** The best effective rate any quote on the corridor can use loses at least 20 basis
      points against the weights. */
  lemma RateIsBelowWeights(source: Currency, dest: Currency, slip: nat)
    requires 1 <= slip <= 15
    ensures ApplyBps(MidRate(source, dest), FX_SPREAD_BPS + slip) * MinorScale(dest) * Weight(dest) * 10_000
         <= 9_980 * Weight(source) * (RATE_SCALE * MinorScale(source))
  {
    var mid := MidRate(source, dest);
    MulLe(BPS_SCALE - (FX_SPREAD_BPS + slip), 9_979, mid);
    FloorLe(mid * (BPS_SCALE - (FX_SPREAD_BPS + slip)), mid * 9_979, BPS_SCALE);
  }

  /** If a rate is worth at most 9980/10000 of par, so is every conversion at it: floors
      only ever lose. */
  lemma ConversionLoses(amount: nat, rate: nat, source: Currency, dest: Currency)
    requires rate * MinorScale(dest) * Weight(dest) * 10_000
      <= 9_980 * Weight(source) * (RATE_SCALE * MinorScale(source))
    ensures Convert(amount, rate, source, dest) * Weight(dest) * 10_000 <= 9_980 * (amount * Weight(source))
  {
    PlainConversionLoses(amount, rate, MinorScale(dest), RATE_SCALE * MinorScale(source), Weight(dest), Weight(source));
  }

  lemma PlainConversionLoses(amount: nat, rate: nat, m: nat, d: nat, to: nat, from: nat)
    requires d > 0 && rate * m * to * 10_000 <= 9_980 * from * d
    ensures amount * rate * m / d * to * 10_000 <= 9_980 * (amount * from)
  {
    var r, k := amount * rate * m / d, to * 10_000;
    Floor(amount * rate * m, d);
    MulLe(r * d, amount * rate * m, k);
    MulLe(rate * m * k, 9_980 * from * d, amount);
    assert amount * rate * m * k == rate * m * k * amount;
    assert 9_980 * from * d * amount == 9_980 * (amount * from) * d;
    assert r * d * k == r * k * d;
    CancelLe(r * k, 9_980 * (amount * from), d);
  }

  /** No quote returns more than 9980/10000 of the value put in, whatever the amount, the
      corridor and the slippage tier. */
  lemma QuoteLosesValue(amount: nat, source: Currency, dest: Currency)
    ensures Quote(amount, source, dest).destinationAmount * Weight(dest) * 10_000 <= 9_980 * (amount * Weight(source))
  {
    var net := amount - PlatformFee(amount);
    var slip := Slippage(amount, source);
    RateIsBelowWeights(source, dest, slip);
    ConversionLoses(net, ApplyBps(MidRate(source, dest), FX_SPREAD_BPS + slip), source, dest);
    MulLe(net, amount, Weight(source));
  }

  /** The amount left after quoting through a chain of currencies. */
  function Chain(amount: nat, from: Currency, path: seq<Currency>): nat
    decreases |path|
  {
    if path == [] then amount
    else Chain(Quote(amount, from, path[0]).destinationAmount, path[0], path[1..])
  }

  function End(from: Currency, path: seq<Currency>): Currency {
    if path == [] then from else path[|path| - 1]
  }

  /** Along any chain of quotes, through any currencies and of any length, value decays by
      at least 20 basis points a hop. */
  lemma {:induction false} ChainsDecay(amount: nat, from: Currency, path: seq<Currency>)
    ensures Chain(amount, from, path) * Weight(End(from, path)) * Pow(10_000, |path|)
         <= Pow(9_980, |path|) * (amount * Weight(from))
    decreases |path|
  {
    if path != [] {
      var next := Quote(amount, from, path[0]).destinationAmount;
      ChainsDecay(next, path[0], path[1..]);
      QuoteLosesValue(amount, from, path[0]);
      assert End(from, path) == End(path[0], path[1..]);
      OneMoreHop(Chain(amount, from, path) * Weight(End(from, path)), next * Weight(path[0]), amount * Weight(from),
                 Pow(10_000, |path| - 1), Pow(9_980, |path| - 1));
    }
  }

  lemma OneMoreHop(last: nat, mid: nat, first: nat, p: nat, q: nat)
    requires last * p <= q * mid && mid * 10_000 <= 9_980 * first
    ensures last * (10_000 * p) <= (9_980 * q) * first
  {
    MulLe(last * p, q * mid, 10_000);
    MulLe(mid * 10_000, 9_980 * first, q);
    assert last * (10_000 * p) == last * p * 10_000;
    assert q * mid * 10_000 == mid * 10_000 * q;
    assert (9_980 * q) * first == 9_980 * first * q;
  }

  lemma {:induction false} PowDecays(n: nat)
    ensures 1 <= Pow(9_980, n) <= Pow(10_000, n)
    ensures n > 0 ==> Pow(9_980, n) < Pow(10_000, n)
  {
    if n > 0 {
      PowDecays(n - 1);
    }
  }

  /** No arbitrage: going round any cycle of currencies never returns more than was put in,
      and returns strictly less whenever anything was. */
  lemma NoArbitrage(amount: nat, from: Currency, path: seq<Currency>)
    requires path != [] && End(from, path) == from
    ensures Chain(amount, from, path) <= amount
    ensures amount > 0 ==> Chain(amount, from, path) < amount
  {
    ChainsDecay(amount, from, path);
    PowDecays(|path|);
    ReturnsLess(Chain(amount, from, path), amount, Weight(from), Pow(10_000, |path|), Pow(9_980, |path|));
  }

  lemma ReturnsLess(back: nat, amount: nat, w: nat, p: nat, q: nat)
    requires back * w * p <= q * (amount * w) && 1 <= q < p && w >= 1
    ensures back <= amount && (amount > 0 ==> back < amount)
  {
    if back > amount || (amount > 0 && back == amount) {
      MulLe(amount, back, w);
      MulLe(amount * w, back * w, p);
      MulLe(q + 1, p, amount * w);
      assert amount * w * p == p * (amount * w);
      assert (q + 1) * (amount * w) == q * (amount * w) + amount * w;
      if amount > 0 {
        MulLe(1, amount, w);
      } else {
        MulLe(1, back, w);
        MulLe(1, back * w, p);
      }
    }
  }

  // ----- rounding -----------------------------------------------------------

  /** The exact destination amount is Exact / (BPS_SCALE * RATE_SCALE * source scale). */
  function Exact(amount: nat, bps: nat, source: Currency, dest: Currency): nat
    requires bps <= BPS_SCALE
  {
    (amount - PlatformFee(amount)) * MinorScale(dest) * (MidRate(source, dest) * (BPS_SCALE - bps))
  }

  function Unit(source: Currency): nat {
    BPS_SCALE * (RATE_SCALE * MinorScale(source))
  }

  /** At any fee: never above the exact rational amount, and below it by less than one minor
      unit plus what truncating the effective rate can cost. */
  lemma QuotedRounding(amount: nat, bps: nat, source: Currency, dest: Currency)
    requires bps <= BPS_SCALE
    ensures var q := Quoted(amount, bps, source, dest);
      && q * Unit(source) <= Exact(amount, bps, source, dest)
      && Exact(amount, bps, source, dest)
         < (q + 1) * Unit(source) + (BPS_SCALE - 1) * ((amount - PlatformFee(amount)) * MinorScale(dest)) + 1
  {
    var net := amount - PlatformFee(amount);
    var exactRate := MidRate(source, dest) * (BPS_SCALE - bps);
    var rate := ApplyBps(MidRate(source, dest), bps);
    Floor(exactRate, BPS_SCALE);
    var d := RATE_SCALE * MinorScale(source);
    Floor(net * rate * MinorScale(dest), d);
    TwoFloors(net * MinorScale(dest), exactRate, rate, d, Quoted(amount, bps, source, dest),
      net * rate * MinorScale(dest));
  }

  lemma TwoFloors(m: nat, exactRate: nat, rate: nat, d: nat, q: nat, x: nat)
    requires x == m * rate && q * d <= x < q * d + d
    requires rate * BPS_SCALE <= exactRate < rate * BPS_SCALE + BPS_SCALE
    ensures q * (BPS_SCALE * d) <= m * exactRate
    ensures m * exactRate < (q + 1) * (BPS_SCALE * d) + (BPS_SCALE - 1) * m + 1
  {
    MulLe(rate * BPS_SCALE, exactRate, m);
    MulLe(exactRate, rate * BPS_SCALE + (BPS_SCALE - 1), m);
    assert m * (rate * BPS_SCALE) == x * BPS_SCALE;
  }

  /** Each rate is within one part in ten thousand of the ratio of two fixed weights. */
  lemma RateNearWeights(source: Currency, dest: Currency)
    ensures var par := Weight(source) * (RATE_SCALE * MinorScale(source));
      && 9_999 * par <= MidRate(source, dest) * (MinorScale(dest) * Weight(dest) * 10_000) <= 10_001 * par
      && 10_000 * (MinorScale(dest) * Weight(dest) * 10_000) <= 9_000 * par
  {
  }

  /** So a quote, at its spread and slippage, is bracketed by its exact amount at its own mid
      rate, and that rate is within one part in ten thousand of the weights' ratio. */
  lemma QuoteRounding(amount: nat, source: Currency, dest: Currency)
    ensures var quote, m := Quote(amount, source, dest), MinorScale(dest);
      var q, net, kept := quote.destinationAmount, amount - quote.platformFee, 9_980 - quote.slippageBps;
      && q * Unit(source) <= net * m * (quote.midRate * kept)
      && net * m * (quote.midRate * kept) < (q + 1) * Unit(source) + (BPS_SCALE - 1) * (net * m) + 1
    ensures var rate, par := Quote(amount, source, dest).midRate, Weight(source) * (RATE_SCALE * MinorScale(source));
      9_999 * par <= rate * (MinorScale(dest) * Weight(dest) * 10_000) <= 10_001 * par
  {
    QuotedRounding(amount, FX_SPREAD_BPS + Slippage(amount, source), source, dest);
    RateNearWeights(source, dest);
  }

  // ----- what a quote is worth ----------------------------------------------

  /** The two directions of a corridor are inverse to each other, as nearly as integers at
      rate scale can be. */
  lemma RatesInvert(x: nat, y: nat, source: Currency, dest: Currency)
    ensures var there, back := Quote(x, source, dest).midRate, Quote(y, dest, source).midRate;
      var off := there * back - RATE_SCALE * RATE_SCALE;
      2 * off <= (if there >= back then there else back) && -2 * off <= (if there >= back then there else back)
  {
  }

  /** An amount is its input's value at the weights less the platform fee, of which this many
      basis points are kept, to one part in ten thousand and one minor unit either way. */
  predicate Priced(q: nat, kept: nat, amount: nat, source: Currency, dest: Currency) {
    && 9_990 * amount * kept * (9_998 * Weight(source)) <= (q + 1) * Weight(dest) * 1_000_000_000_000
    && q * Weight(dest) * 1_000_000_000_000 <= (9_990 * amount + 10_000) * kept * (10_001 * Weight(source))
  }

  /** A product with two floors in it, bracketed. */
  lemma TwoFloorsPriced(net: nat, mid: nat, k: nat, m: nat, d: nat, to: nat, par: nat, q: nat)
    requires d > 0 && q == net * (mid * k / BPS_SCALE) * m / d
    requires 9_999 * par <= mid * (m * to * 10_000) <= 10_001 * par && 10_000 * (m * to * 10_000) <= k * par
    ensures q * d * (to * 100_000_000) <= net * k * (10_001 * par)
    ensures net * k * (9_998 * par) <= (q + 1) * d * (to * 100_000_000)
  {
    var rate := mid * k / BPS_SCALE;
    Floor(mid * k, BPS_SCALE);
    Floor(net * rate * m, d);
    MulLe(q * d, net * rate * m, to * 100_000_000);
    MulLe(net * rate * m, (q + 1) * d, to * 100_000_000);
    RateIsPriced(rate, mid, k, m * to * 10_000, par);
    WorthIsPriced(net, rate * 10_000 * (m * to * 10_000), k, par);
    SameWorth(net, rate, m, to);
  }

  lemma SameWorth(net: nat, rate: nat, m: nat, to: nat)
    ensures net * rate * m * (to * 100_000_000) == net * (rate * 10_000 * (m * to * 10_000))
  {
    assert rate * 10_000 * (m * to * 10_000) == rate * m * (to * 100_000_000);
    assert net * (rate * m * (to * 100_000_000)) == net * rate * m * (to * 100_000_000);
  }

  lemma WorthIsPriced(net: nat, rate: nat, k: nat, par: nat)
    requires k * (9_998 * par) <= rate <= k * (10_001 * par)
    ensures net * k * (9_998 * par) <= net * rate <= net * k * (10_001 * par)
  {
    MulLe(rate, k * (10_001 * par), net);
    MulLe(k * (9_998 * par), rate, net);
    assert net * (k * (10_001 * par)) == net * k * (10_001 * par);
    assert net * (k * (9_998 * par)) == net * k * (9_998 * par);
  }

  lemma RateIsPriced(rate: nat, mid: nat, k: nat, a: nat, par: nat)
    requires rate * 10_000 <= mid * k < rate * 10_000 + 10_000
    requires 9_999 * par <= mid * a <= 10_001 * par && 10_000 * a <= k * par
    ensures k * (9_998 * par) <= rate * 10_000 * a <= k * (10_001 * par)
  {
    MulLe(rate * 10_000, mid * k, a);
    MulLe(mid * k, rate * 10_000 + 10_000, a);
    assert mid * k * a == mid * a * k;
    assert (rate * 10_000 + 10_000) * a == rate * 10_000 * a + 10_000 * a;
    MulLe(mid * a, 10_001 * par, k);
    MulLe(9_999 * par, mid * a, k);
    assert 10_001 * par * k == k * (10_001 * par) && 9_999 * par * k == k * (9_998 * par) + k * par;
  }

  lemma NetIsPriced(amount: nat)
    ensures var net := amount - PlatformFee(amount); 9_990 * amount <= 10_000 * net <= 9_990 * amount + 10_000
  {
    Floor(amount * PLATFORM_FEE_BPS, BPS_SCALE);
  }

  lemma PricedAbove(amount: nat, net: nat, kept: nat, q: nat, d: nat, to: nat, c: nat)
    requires d > 0 && q * d * (to * 100_000_000) <= net * kept * (c * d) && 10_000 * net <= 9_990 * amount + 10_000
    ensures q * to * 1_000_000_000_000 <= (9_990 * amount + 10_000) * kept * c
  {
    assert q * d * (to * 100_000_000) == q * (to * 100_000_000) * d && net * kept * (c * d) == net * kept * c * d;
    CancelLe(q * (to * 100_000_000), net * kept * c, d);
    MulLe(10_000 * net, 9_990 * amount + 10_000, kept * c);
    assert net * kept * c == net * (kept * c);
    assert (9_990 * amount + 10_000) * kept * c == (9_990 * amount + 10_000) * (kept * c);
  }

  lemma PricedBelow(amount: nat, net: nat, kept: nat, q: nat, d: nat, to: nat, c: nat)
    requires d > 0 && net * kept * (c * d) <= q * d * (to * 100_000_000) && 9_990 * amount <= 10_000 * net
    ensures 9_990 * amount * kept * c <= q * to * 1_000_000_000_000
  {
    assert q * d * (to * 100_000_000) == q * (to * 100_000_000) * d && net * kept * (c * d) == net * kept * c * d;
    CancelLe(net * kept * c, q * (to * 100_000_000), d);
    MulLe(9_990 * amount, 10_000 * net, kept * c);
    assert net * kept * c == net * (kept * c);
    assert 9_990 * amount * kept * c == 9_990 * amount * (kept * c);
  }

  lemma QuotedIsPriced(amount: nat, bps: nat, source: Currency, dest: Currency)
    requires bps <= 1_000
    ensures Priced(Quoted(amount, bps, source, dest), 10_000 - bps, amount, source, dest)
  {
    var net, kept := amount - PlatformFee(amount), 10_000 - bps;
    var d, from, to := RATE_SCALE * MinorScale(source), Weight(source), Weight(dest);
    var q := Quoted(amount, bps, source, dest);
    RateNearWeights(source, dest);
    NetIsPriced(amount);
    MulLe(9_000, kept, from * d);
    TwoFloorsPriced(net, MidRate(source, dest), kept, MinorScale(dest), d, to, from * d, q);
    assert 10_001 * (from * d) == 10_001 * from * d && 9_998 * (from * d) == 9_998 * from * d;
    PricedAbove(amount, net, kept, q, d, to, 10_001 * from);
    PricedBelow(amount, net, kept, q + 1, d, to, 9_998 * from);
  }

  /** A quote keeps its input's value but for the platform fee, twenty basis points of spread
      and the tier's slippage, to one part in ten thousand and one minor unit: it is neither
      short of that nor over it, whatever the amount and the corridor. The bridged route keeps
      five basis points less. */
  lemma QuoteIsPriced(amount: nat, source: Currency, dest: Currency)
    ensures var quote := Quote(amount, source, dest);
      && Priced(quote.destinationAmount, 9_980 - quote.slippageBps, amount, source, dest)
      && Priced(Quoted(amount, FX_SPREAD_BPS + quote.slippageBps + BRIDGE_FEE_BPS, source, dest),
                9_975 - quote.slippageBps, amount, source, dest)
  {
    var slip := Slippage(amount, source);
    QuotedIsPriced(amount, FX_SPREAD_BPS + slip, source, dest);
    QuotedIsPriced(amount, FX_SPREAD_BPS + slip + BRIDGE_FEE_BPS, source, dest);
  }

  /** The notional that picks the tier is the amount's value in cents, to one part in ten
      thousand and a cent. */
  lemma EquivalentIsDollars(amount: nat, source: Currency)
    ensures var usd := UsdEquivalent(amount, source);
      && usd * Weight(USD) * 10_000 <= amount * (10_001 * Weight(source))
      && amount * (9_999 * Weight(source)) <= (usd + 1) * Weight(USD) * 10_000
      && (source == USD ==> usd == amount)
  {
    var d, mid := RATE_SCALE * MinorScale(source), MidRate(source, USD);
    RateNearWeights(source, USD);
    Worth(amount, mid, MinorScale(USD), d, Weight(source), Weight(USD), amount * mid * MinorScale(USD) / d);
  }

  /** A floored conversion at a rate near the weights' ratio, bracketed by them. */
  lemma Worth(amount: nat, mid: nat, m: nat, d: nat, from: nat, to: nat, q: nat)
    requires d > 0 && q == amount * mid * m / d
    requires 9_999 * (from * d) <= mid * (m * to * 10_000) <= 10_001 * (from * d)
    ensures q * to * 10_000 <= amount * (10_001 * from)
    ensures amount * (9_999 * from) <= (q + 1) * to * 10_000
  {
    var x, a, k := amount * mid * m, m * to * 10_000, to * 10_000;
    Floor(x, d);
    MulLe(q * d, x, k);
    MulLe(x, (q + 1) * d, k);
    PlainWorth(amount, mid, m, to);
    MulLe(mid * a, 10_001 * (from * d), amount);
    MulLe(9_999 * (from * d), mid * a, amount);
    PerUnit(q, amount, from, d, k);
  }

  lemma PlainWorth(amount: nat, mid: nat, m: nat, to: nat)
    ensures amount * mid * m * (to * 10_000) == amount * (mid * (m * to * 10_000))
  {
    assert mid * m * (to * 10_000) == mid * (m * to * 10_000);
    assert amount * (mid * m * (to * 10_000)) == amount * mid * m * (to * 10_000);
  }

  lemma PerUnit(q: nat, amount: nat, from: nat, d: nat, k: nat)
    requires d > 0
    ensures q * d * k <= amount * (10_001 * (from * d)) ==> q * k <= amount * (10_001 * from)
    ensures amount * (9_999 * (from * d)) <= (q + 1) * d * k ==> amount * (9_999 * from) <= (q + 1) * k
  {
    assert amount * (10_001 * (from * d)) == amount * (10_001 * from) * d;
    assert amount * (9_999 * (from * d)) == amount * (9_999 * from) * d;
    assert q * d * k == q * k * d && (q + 1) * d * k == (q + 1) * k * d;
    if q * d * k <= amount * (10_001 * (from * d)) {
      CancelLe(q * k, amount * (10_001 * from), d);
    }
    if amount * (9_999 * (from * d)) <= (q + 1) * d * k {
      CancelLe(amount * (9_999 * from), (q + 1) * k, d);
    }
  }

  /** Slippage is one of four tiers, with edges at ten, a hundred and five hundred thousand
      dollars, each edge in the cheaper tier. */
  lemma TiersAreDollars(amount: nat, source: Currency, dest: Currency)
    ensures var usd, slip := UsdEquivalent(amount, source), Quote(amount, source, dest).slippageBps;
      && (slip == 1 <==> usd <= 10_000 * 100)
      && (slip == 3 <==> 10_000 * 100 < usd <= 100_000 * 100)
      && (slip == 8 <==> 100_000 * 100 < usd <= 500_000 * 100)
      && (slip == 15 <==> 500_000 * 100 < usd)
  {
  }

  /** A quote by currency codes is given exactly for the three currencies, and is worth what
      a quote should be whichever they are. */
  lemma QuoteByCode(amount: nat, source: string, dest: string)
    ensures QuoteFx(amount, source, dest).Success? <==>
      CurrencyDecimals(source).Success? && CurrencyDecimals(dest).Success?
    ensures QuoteFx(amount, source, dest).Success? ==>
      var quote := QuoteFx(amount, source, dest).value;
      Priced(quote.destinationAmount, 9_980 - quote.slippageBps, amount,
             CurrencyOf(source).value, CurrencyOf(dest).value)
  {
    if CurrencyOf(source).Some? && CurrencyOf(dest).Some? {
      QuoteIsPriced(amount, CurrencyOf(source).value, CurrencyOf(dest).value);
    }
  }

  lemma ConvertIsMonotone(x: nat, y: nat, rate: nat, source: Currency, dest: Currency)
    requires x <= y
    ensures Convert(x, rate, source, dest) <= Convert(y, rate, source, dest)
  {
    MulLe(x, y, rate);
    MulLe(x * rate, y * rate, MinorScale(dest));
    FloorLe(x * rate * MinorScale(dest), y * rate * MinorScale(dest), RATE_SCALE * MinorScale(source));
  }

  lemma NetIsMonotone(x: nat, y: nat)
    requires x <= y
    ensures x - PlatformFee(x) <= y - PlatformFee(y)
  {
    assert PlatformFee(x) == x * 10 / 10_000;
    assert PlatformFee(y) == y * 10 / 10_000;
  }

  /** Within a slippage tier a larger payment never yields less. */
  lemma MonotoneWithinTier(x: nat, y: nat, source: Currency, dest: Currency)
    requires x <= y && Slippage(x, source) == Slippage(y, source)
    ensures Quote(x, source, dest).destinationAmount <= Quote(y, source, dest).destinationAmount
    ensures Quote(x, source, dest).platformFee <= Quote(y, source, dest).platformFee
  {
    NetIsMonotone(x, y);
    ConvertIsMonotone(x - PlatformFee(x), y - PlatformFee(y), Quote(x, source, dest).effectiveRate, source, dest);
    FloorLe(x * PLATFORM_FEE_BPS, y * PLATFORM_FEE_BPS, BPS_SCALE);
  }

  // ----- across a slippage tier ---------------------------------------------

  /** What a payment yields. */
  function Yield(amount: nat, source: Currency, dest: Currency): nat {
    Quote(amount, source, dest).destinationAmount
  }

  /** A larger payment is in the same tier or a dearer one. */
  lemma SlippageIsMonotone(x: nat, y: nat, source: Currency)
    requires x <= y
    ensures Slippage(x, source) <= Slippage(y, source)
  {
    ConvertIsMonotone(x, y, MidRate(source, USD), source, USD);
  }

  /** No currency's minor unit is worth more than a cent. */
  lemma EquivalentIsNoLarger(amount: nat, source: Currency)
    ensures UsdEquivalent(amount, source) <= amount
  {
    if source != USD {
      var d, rate := RATE_SCALE * MinorScale(source), MidRate(source, USD);
      assert rate * 100 <= d;
      MulLe(rate * 100, d, amount);
      assert amount * rate * 100 == rate * 100 * amount;
      Floor(amount * rate * 100, d);
      CancelLe(Convert(amount, rate, source, USD), amount, d);
    }
  }

  /** A tier ends at a million minor units at least, and the next costs two basis points
      more at least. */
  lemma TierEdgeIsHigh(amount: nat, source: Currency)
    requires Slippage(amount, source) != Slippage(amount + 1, source)
    ensures amount >= 1_000_000 && Slippage(amount + 1, source) >= Slippage(amount, source) + 2
  {
    SlippageIsMonotone(amount, amount + 1, source);
    EquivalentIsNoLarger(amount + 1, source);
  }

  /** One more minor unit of the destination is less than what two basis points of an
      amount at a tier's edge buy. */
  lemma UnitIsSmall(net: nat, source: Currency, dest: Currency)
    requires net >= 999_000
    ensures Unit(source) + (BPS_SCALE - 1) * (net * MinorScale(dest)) + 1
         <= MinorScale(dest) * MidRate(source, dest) * (2 * net - 10_000)
  {
    var m, mid := MinorScale(dest), MidRate(source, dest);
    assert m * mid * 900_000 >= Unit(source) && mid >= 10_000;
    MulLe(900_000, net - 10_000, m * mid);
    MulLe(10_000, mid, m * net);
    assert m * mid * (2 * net - 10_000) == m * mid * (net - 10_000) + mid * (m * net);
    assert net * m == m * net && m * net >= 1;
  }

  /** Two basis points cost more than one more minor unit brings. */
  lemma StepCosts(net: nat, net': nat, m: nat, mid: nat, rest: nat, rest': nat)
    requires net' <= net + 1 && rest' + 2 <= rest <= 10_000 && net >= 5_000
    ensures net' * m * (mid * rest') + m * mid * (2 * net - 10_000) <= net * m * (mid * rest)
  {
    assert net' * rest' + (2 * net - 10_000) <= net * rest by {
      MulLe(net', net + 1, rest');
      MulLe(rest' + 2, rest, net);
      assert (net + 1) * rest' == net * rest' + rest' && (rest' + 2) * net == net * rest' + 2 * net;
      assert rest' * net == net * rest' && rest * net == net * rest;
    }
    MulLe(net' * rest' + (2 * net - 10_000), net * rest, m * mid);
    assert net' * m * (mid * rest') == net' * rest' * (m * mid);
    assert net * m * (mid * rest) == net * rest * (m * mid);
    assert m * mid * (2 * net - 10_000) == (2 * net - 10_000) * (m * mid);
  }

  lemma NetGrowsByOne(amount: nat)
    ensures amount + 1 - PlatformFee(amount + 1) <= amount - PlatformFee(amount) + 1
    ensures amount >= 1_000_000 ==> amount - PlatformFee(amount) >= 999_000
  {
    FloorLe(amount * PLATFORM_FEE_BPS, (amount + 1) * PLATFORM_FEE_BPS, BPS_SCALE);
    Floor(amount * PLATFORM_FEE_BPS, BPS_SCALE);
  }

  lemma Below(low: nat, high: nat, unit: nat, exactLow: nat, exactHigh: nat, gap: nat)
    requires unit > 0 && low * unit <= exactLow && exactHigh < (high + 1) * unit + gap
    requires exactLow + unit + gap <= exactHigh
    ensures low < high
  {
    assert (high + 1) * unit == high * unit + unit;
    if high <= low {
      MulLe(high, low, unit);
    }
  }

  /** Every tier edge is a drop, in every corridor: the first minor unit past it makes the
      payment yield less. */
  lemma TierEdgeDrops(amount: nat, source: Currency, dest: Currency)
    requires Slippage(amount, source) != Slippage(amount + 1, source)
    ensures Yield(amount + 1, source, dest) < Yield(amount, source, dest)
  {
    TierEdgeIsHigh(amount, source);
    NetGrowsByOne(amount);
    QuotedRounding(amount, FX_SPREAD_BPS + Slippage(amount, source), source, dest);
    QuotedRounding(amount + 1, FX_SPREAD_BPS + Slippage(amount + 1, source), source, dest);
    var net, net' := amount - PlatformFee(amount), amount + 1 - PlatformFee(amount + 1);
    var bps, bps' := FX_SPREAD_BPS + Slippage(amount, source), FX_SPREAD_BPS + Slippage(amount + 1, source);
    UnitIsSmall(net, source, dest);
    StepCosts(net, net', MinorScale(dest), MidRate(source, dest), BPS_SCALE - bps, BPS_SCALE - bps');
    Below(Yield(amount + 1, source, dest), Yield(amount, source, dest), Unit(source),
          Exact(amount + 1, bps', source, dest), Exact(amount, bps, source, dest),
          (BPS_SCALE - 1) * (net * MinorScale(dest)) + 1);
  }

  /** For one: a cent more than 10,000 dollars yields fewer yen. */
  lemma LargerCanYieldLess()
    ensures Yield(10_000_01, USD, JPY) < Yield(10_000_00, USD, JPY)
  {
    TierEdgeDrops(10_000_00, USD, JPY);
  }

  /** Between two amounts in different tiers lies an edge. */
  lemma {:induction false} EdgeBetween(x: nat, y: nat, source: Currency) returns (a: nat)
    requires x <= y && Slippage(x, source) != Slippage(y, source)
    ensures x <= a < y && Slippage(a, source) != Slippage(a + 1, source)
    decreases y - x
  {
    if Slippage(x, source) != Slippage(x + 1, source) {
      a := x;
    } else {
      a := EdgeBetween(x + 1, y, source);
    }
  }

  /** No amount between the two yields less than a smaller one between them. */
  ghost predicate Monotone(x: nat, y: nat, source: Currency, dest: Currency) {
    forall a: nat, b: nat :: x <= a <= b <= y ==> Yield(a, source, dest) <= Yield(b, source, dest)
  }

  /** A larger payment never yields less, over a range of amounts, if and only if the range
      stays within one slippage tier. */
  lemma MonotoneExactlyWithinTier(x: nat, y: nat, source: Currency, dest: Currency)
    requires x <= y
    ensures Monotone(x, y, source, dest) <==> Slippage(x, source) == Slippage(y, source)
  {
    if Slippage(x, source) == Slippage(y, source) {
      forall a: nat, b: nat | x <= a <= b <= y ensures Yield(a, source, dest) <= Yield(b, source, dest) {
        SlippageIsMonotone(x, a, source);
        SlippageIsMonotone(a, b, source);
        SlippageIsMonotone(b, y, source);
        MonotoneWithinTier(a, b, source, dest);
      }
    } else {
      var a := EdgeBetween(x, y, source);
      TierEdgeDrops(a, source, dest);
      assert !(Yield(a, source, dest) <= Yield(a + 1, source, dest));
    }
  }

  /** More basis points never yield more; in particular the bridged route, which pays the
      bridge fee on top, never yields more than the source-chain fallback. */
  lemma BridgedNeverPaysMore(amount: nat, source: Currency, dest: Currency)
    ensures Quoted(amount, FX_SPREAD_BPS + Slippage(amount, source) + BRIDGE_FEE_BPS, source, dest)
         <= Quote(amount, source, dest).destinationAmount
  {
    var mid, slip, net := MidRate(source, dest), Slippage(amount, source), amount - PlatformFee(amount);
    var plain, bridged := FX_SPREAD_BPS + slip, FX_SPREAD_BPS + slip + BRIDGE_FEE_BPS;
    MulLe(BPS_SCALE - bridged, BPS_SCALE - plain, mid);
    FloorLe(mid * (BPS_SCALE - bridged), mid * (BPS_SCALE - plain), BPS_SCALE);
    MulLe(ApplyBps(mid, bridged), ApplyBps(mid, plain), net);
    MulLe(net * ApplyBps(mid, bridged), net * ApplyBps(mid, plain), MinorScale(dest));
    FloorLe(net * ApplyBps(mid, bridged) * MinorScale(dest), net * ApplyBps(mid, plain) * MinorScale(dest),
            RATE_SCALE * MinorScale(source));
  }

  // A quote's rate is what the strict parser reads from the table's decimal string.

  lemma UsdJpyIsParsed(amount: nat)
    ensures ParseScaledUnits(Text("157" + "." + "2"), 18) == Success(Quote(amount, USD, JPY).midRate)
  {
    UsdJpyParses();
  }

  lemma UsdSgdIsParsed(amount: nat)
    ensures ParseScaledUnits(Text("1" + "." + "35"), 18) == Success(Quote(amount, USD, SGD).midRate)
  {
    UsdSgdParses();
  }

  lemma SgdJpyIsParsed(amount: nat)
    ensures ParseScaledUnits(Text("116" + "." + "44"), 18) == Success(Quote(amount, SGD, JPY).midRate)
  {
    SgdJpyParses();
  }

  lemma UsdJpyParses()
    ensures ParseScaledUnits(Text("157" + "." + "2"), 18) == Success(USD_JPY)
  {
    assert "157" == [] + ['1'] + ['5'] + ['7'] && "157" + "2" == "157" + ['2'];
    NumberSnoc([], '1');
    NumberSnoc([] + ['1'], '5');
    NumberSnoc([] + ['1'] + ['5'], '7');
    NumberSnoc("157", '2');
    RateParses("157", "2", 1572, 17, 100_000_000_000_000_000);
  }

  lemma UsdSgdParses()
    ensures ParseScaledUnits(Text("1" + "." + "35"), 18) == Success(USD_SGD)
  {
    assert "1" == [] + ['1'] && "1" + "35" == [] + ['1'] + ['3'] + ['5'];
    NumberSnoc([], '1');
    NumberSnoc([] + ['1'], '3');
    NumberSnoc([] + ['1'] + ['3'], '5');
    RateParses("1", "35", 135, 16, 10_000_000_000_000_000);
  }

  lemma SgdJpyParses()
    ensures ParseScaledUnits(Text("116" + "." + "44"), 18) == Success(SGD_JPY)
  {
    assert "116" + "44" == [] + ['1'] + ['1'] + ['6'] + ['4'] + ['4'];
    NumberSnoc([], '1');
    NumberSnoc([] + ['1'], '1');
    NumberSnoc([] + ['1'] + ['1'], '6');
    NumberSnoc([] + ['1'] + ['1'] + ['6'], '4');
    NumberSnoc([] + ['1'] + ['1'] + ['6'] + ['4'], '4');
    RateParses("116", "44", 11644, 16, 10_000_000_000_000_000);
  }

  lemma TenTo16And17()
    ensures Pow10(16) == 10_000_000_000_000_000 && Pow10(17) == 100_000_000_000_000_000
  {
    assert Pow10(4) == 10_000;
    PowAdds(4, 4);
    PowAdds(8, 8);
  }

  lemma RateParses(w: string, f: string, n: nat, k: nat, p: nat)
    requires w != [] && f != [] && AllDigits(w) && AllDigits(f) && |w| <= 15 && |f| + k == 18
    requires AllDigits(w + f) && Number(w + f) == n && k in {16, 17}
    requires p == if k == 16 then 10_000_000_000_000_000 else 100_000_000_000_000_000
    ensures ParseScaledUnits(Text(w + "." + f), 18) == Success(n * p)
  {
    TenTo16And17();
    SplitPointed(w, f);
    ParseIsExact(w + "." + f, w, f, 18);
  }
}
