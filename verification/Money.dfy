/** Fixed-precision money at the API boundary and at the chain boundary: lib/money.ts and
    lib/assets.ts. */
module Money {
  import opened Arithmetic
  import opened Decimals

  datatype Result<+T> = Success(value: T) | Failure(error: Error)

  datatype Error = InvalidFormat | ExcessPrecision | TooLarge | NotPositive | UnsupportedCurrency

  /** A value read from JSON or a column: a string, or anything else. */
  datatype Untyped = Text(text: string) | NotText

  const MAX_INTEGER_DIGITS := 15

  // ----- splitting at the decimal point -------------------------------------

  /** What precedes the first point. */
  function Whole(s: string): string {
    if s == [] || s[0] == '.' then [] else [s[0]] + Whole(s[1..])
  }

  /** What follows the first point; empty when there is none. */
  function Fraction(s: string): string {
    if s == [] then [] else if s[0] == '.' then s[1..] else Fraction(s[1..])
  }

  /** The one grammar accepted: digits, optionally a point and more digits. */
  ghost predicate Canonical(s: string) {
    || (s != [] && AllDigits(s))
    || exists w: string, f: string :: w != [] && f != [] && AllDigits(w) && AllDigits(f) && s == w + "." + f
  }

  /** The regular-expression test, read off the split. */
  predicate MatchesGrammar(s: string) {
    var w, f := Whole(s), Fraction(s);
    w != [] && AllDigits(w) && AllDigits(f) && (s == w || f != [])
  }

  lemma {:induction false} SplitPlain(w: string)
    requires AllDigits(w)
    ensures Whole(w) == w && Fraction(w) == []
  {
    if w != [] {
      SplitPlain(w[1..]);
      assert w == [w[0]] + w[1..];
    }
  }

  lemma {:induction false} SplitPointed(w: string, f: string)
    requires AllDigits(w)
    ensures Whole(w + "." + f) == w && Fraction(w + "." + f) == f
  {
    var s := w + "." + f;
    if w == [] {
      assert s[1..] == f;
    } else {
      assert s[1..] == w[1..] + "." + f;
      SplitPointed(w[1..], f);
      assert w == [w[0]] + w[1..];
    }
  }

  lemma {:induction false} Rejoin(s: string)
    ensures s == Whole(s) || s == Whole(s) + "." + Fraction(s)
  {
    if s != [] && s[0] != '.' {
      Rejoin(s[1..]);
      assert s == [s[0]] + s[1..];
    } else if s != [] {
      assert s == [] + "." + s[1..];
    }
  }

  /** The split accepts exactly the grammar. */
  lemma GrammarExactly(s: string)
    ensures MatchesGrammar(s) <==> Canonical(s)
  {
    Rejoin(s);
    if MatchesGrammar(s) && s != Whole(s) {
      assert s == Whole(s) + "." + Fraction(s);
    }
    if Canonical(s) {
      if s != [] && AllDigits(s) {
        SplitPlain(s);
      } else {
        var w, f :| w != [] && f != [] && AllDigits(w) && AllDigits(f) && s == w + "." + f;
        SplitPointed(w, f);
      }
    }
  }

  // ----- the strict parser --------------------------------------------------

  function PadEnd(f: string, width: nat): (r: string)
    ensures |f| <= width ==> |r| == width
    ensures AllDigits(f) ==> AllDigits(r)
  {
    if |f| < width then f + Zeros(width - |f|) else f
  }

  /** A canonical decimal string to an integer scaled by 10^decimals. */
  function ParseScaledUnits(value: Untyped, decimals: nat): Result<nat> {
    if !value.Text? || !MatchesGrammar(value.text) then Failure(InvalidFormat)
    else
      var w, f := Whole(value.text), Fraction(value.text);
      if |w| > MAX_INTEGER_DIGITS then Failure(TooLarge)
      else if |f| > decimals then Failure(ExcessPrecision)
      else Success(Number(w) * Pow10(decimals) + Number(PadEnd(f, decimals)))
  }

  /** What the parse means: a canonical string of at most 15 integer digits and no excess
      precision is exactly the written decimal times 10^decimals; every other string is
      refused, with the first rule it breaks. Nothing is ever rounded away. */
  lemma ParseIsExact(s: string, w: string, f: string, decimals: nat)
    requires w == Whole(s) && f == Fraction(s)
    ensures MatchesGrammar(s) ==> AllDigits(w + f)
    ensures ParseScaledUnits(Text(s), decimals)
         == if !MatchesGrammar(s) then Failure(InvalidFormat)
            else if |w| > 15 then Failure(TooLarge)
            else if |f| > decimals then Failure(ExcessPrecision)
            else Success(Number(w + f) * Pow10(decimals - |f|))
  {
    if MatchesGrammar(s) {
      DigitsJoin(w, f);
      if |w| <= MAX_INTEGER_DIGITS && |f| <= decimals {
        ParseAccepts(s, w, f, decimals, ParseScaledUnits(Text(s), decimals));
      }
    }
  }

  lemma ParseAccepts(s: string, w: string, f: string, decimals: nat, r: Result<nat>)
    requires w == Whole(s) && f == Fraction(s) && MatchesGrammar(s) && |w| <= MAX_INTEGER_DIGITS && |f| <= decimals
    requires r == ParseScaledUnits(Text(s), decimals)
    ensures AllDigits(w + f) && r == Success(Number(w + f) * Pow10(decimals - |f|))
  {
    PaddedValue(w, f, decimals);
  }

  lemma DigitsJoin(a: string, b: string)
    requires AllDigits(a) && AllDigits(b)
    ensures AllDigits(a + b)
  {
  }

  lemma PaddedValue(w: string, f: string, decimals: nat)
    requires AllDigits(w) && AllDigits(f) && |f| <= decimals
    ensures AllDigits(w + f)
    ensures Number(w) * Pow10(decimals) + Number(PadEnd(f, decimals)) == Number(w + f) * Pow10(decimals - |f|)
  {
    var k := decimals - |f|;
    NumberOfConcat(w, f);
    NumberOfZeros(k);
    NumberOfConcat(f, Zeros(k));
    assert PadEnd(f, decimals) == f + Zeros(k) by {
      if k == 0 {
        assert f + Zeros(0) == f;
      }
    }
    PowAdds(|f|, k);
    Distribute(Number(w), Pow10(|f|), Pow10(k), Number(f));
  }

  lemma Distribute(x: nat, p: nat, q: nat, y: nat)
    ensures (x * p + y) * q == x * (p * q) + y * q
  {
  }

  // ----- the printers -------------------------------------------------------

  function PadStart(s: string, width: nat): string {
    if |s| < width then Zeros(width - |s|) + s else s
  }

  /** The point put in before the last digits. */
  function WithPoint(digits: string, decimals: nat): string
    requires decimals <= |digits|
  {
    if decimals == 0 then digits else digits[..|digits| - decimals] + "." + digits[|digits| - decimals..]
  }

  /** A scaled integer back to its decimal string, trailing zeros kept. */
  function FormatScaledUnits(units: nat, decimals: nat): string {
    if decimals == 0 then Numeral(units) else WithPoint(PadStart(Numeral(units), decimals + 1), decimals)
  }

  /** Zeros at the end of a fraction removed. */
  function TrimZeros(f: string): string {
    if f != [] && f[|f| - 1] == '0' then TrimZeros(f[..|f| - 1]) else f
  }

  /** Base units to a decimal string, trailing zeros dropped. */
  function FromBaseUnits(units: nat, decimals: nat): string {
    if decimals == 0 then Numeral(units)
    else
      var digits := PadStart(Numeral(units), decimals + 1);
      var frac := TrimZeros(digits[|digits| - decimals..]);
      if frac == [] then digits[..|digits| - decimals] else digits[..|digits| - decimals] + "." + frac
  }

  // ----- printing then parsing ----------------------------------------------

  /** The digits both printers start from, and what they denote. */
  function Digits(units: nat, decimals: nat): string {
    PadStart(Numeral(units), decimals + 1)
  }

  lemma DigitsDenote(units: nat, decimals: nat)
    ensures var g := Digits(units, decimals);
      && |g| > decimals && AllDigits(g) && Number(g) == units
      && (|g| - decimals <= MAX_INTEGER_DIGITS <==> units < Pow10(MAX_INTEGER_DIGITS + decimals))
  {
    var n := Numeral(units);
    NumeralDenotes(units);
    NumeralLength(units);
    if |n| < decimals + 1 {
      NumberOfZeros(decimals + 1 - |n|);
      NumberOfConcat(Zeros(decimals + 1 - |n|), n);
    }
    if |n| <= MAX_INTEGER_DIGITS + decimals {
      PowGrows(|n|, MAX_INTEGER_DIGITS + decimals);
    } else {
      PowGrows(MAX_INTEGER_DIGITS + decimals, |n| - 1);
    }
  }

  /** What the printer writes, seen by the parser's split: the digits of the units, cut
      where the point stands. */
  lemma Prints(units: nat, decimals: nat, t: string) returns (g: string)
    requires t == FormatScaledUnits(units, decimals)
    ensures decimals < |g| && AllDigits(g) && Number(g) == units
    ensures |g| - decimals <= MAX_INTEGER_DIGITS <==> units < Pow10(MAX_INTEGER_DIGITS + decimals)
    ensures MatchesGrammar(t) && Whole(t) == g[..|g| - decimals] && Fraction(t) == g[|g| - decimals..]
  {
    g := Digits(units, decimals);
    DigitsDenote(units, decimals);
    NumeralLength(units);
    assert t == WithPoint(g, decimals);
    PointSplits(g, decimals);
  }

  lemma PointSplits(g: string, decimals: nat)
    requires decimals < |g| && AllDigits(g)
    ensures var t := WithPoint(g, decimals);
      MatchesGrammar(t) && Whole(t) == g[..|g| - decimals] && Fraction(t) == g[|g| - decimals..]
  {
    if decimals == 0 {
      SplitPlain(g);
      assert g[..|g|] == g;
    } else {
      PointedMatches(g[..|g| - decimals], g[|g| - decimals..]);
    }
  }

  lemma PointedMatches(w: string, f: string)
    requires w != [] && f != [] && AllDigits(w) && AllDigits(f)
    ensures var t := w + "." + f; MatchesGrammar(t) && Whole(t) == w && Fraction(t) == f
  {
    SplitPointed(w, f);
  }

  /** Strict parsing undoes printing exactly on the integers below 10^(15 + decimals); from
      there on it refuses rather than misread. At any finer scale the parse is the same
      number of finer units. */
  lemma ParseUndoesFormat(units: nat, decimals: nat, scale: nat)
    requires decimals <= scale
    ensures ParseScaledUnits(Text(FormatScaledUnits(units, decimals)), scale)
         == if units < Pow10(MAX_INTEGER_DIGITS + decimals) then Success(units * Pow10(scale - decimals))
            else Failure(TooLarge)
  {
    var t := FormatScaledUnits(units, decimals);
    var g := Prints(units, decimals, t);
    ReadsBack(t, g, units, decimals, scale);
  }

  /** A string whose split re-joins to the digits of `units` parses to `units`. */
  lemma ReadsBack(t: string, g: string, units: nat, decimals: nat, scale: nat)
    requires MatchesGrammar(t) && decimals < |g| && AllDigits(g) && Number(g) == units && decimals <= scale
    requires Whole(t) == g[..|g| - decimals] && Fraction(t) == g[|g| - decimals..]
    ensures ParseScaledUnits(Text(t), scale)
         == if |g| - decimals <= MAX_INTEGER_DIGITS then Success(units * Pow10(scale - decimals)) else Failure(TooLarge)
  {
    ParseIsExact(t, Whole(t), Fraction(t), scale);
    assert Whole(t) + Fraction(t) == g;
  }

  lemma FormatRoundTrip(units: nat, decimals: nat)
    ensures ParseScaledUnits(Text(FormatScaledUnits(units, decimals)), decimals)
         == if units < Pow10(MAX_INTEGER_DIGITS + decimals) then Success(units) else Failure(TooLarge)
  {
    ParseUndoesFormat(units, decimals, decimals);
  }

  lemma {:induction false} TrimThenPad(f: string)
    ensures |TrimZeros(f)| <= |f| && PadEnd(TrimZeros(f), |f|) == f
    ensures AllDigits(f) ==> AllDigits(TrimZeros(f))
  {
    if f != [] && f[|f| - 1] == '0' {
      var f0 := f[..|f| - 1];
      TrimThenPad(f0);
      var t := TrimZeros(f0);
      assert f == f0 + ['0'];
      if |t| < |f0| {
        assert Zeros(|f| - |t|) == Zeros(|f0| - |t|) + ['0'];
        assert f0 == t + Zeros(|f0| - |t|);
      } else {
        assert f0 == t;
      }
      assert f == t + Zeros(|f| - |t|);
    }
  }

  /** Dropping trailing zeros loses nothing either. */
  lemma FromBaseUnitsRoundTrip(units: nat, decimals: nat)
    ensures ParseScaledUnits(Text(FromBaseUnits(units, decimals)), decimals)
         == if units < Pow10(MAX_INTEGER_DIGITS + decimals) then Success(units) else Failure(TooLarge)
  {
    if decimals == 0 {
      IntegerRoundTrip(units, decimals);
    } else {
      DigitsDenote(units, decimals);
      TrimmedReadsBack(units, decimals, Digits(units, decimals));
    }
  }

  lemma IntegerRoundTrip(units: nat, decimals: nat)
    requires decimals == 0
    ensures ParseScaledUnits(Text(FromBaseUnits(units, decimals)), decimals)
         == if units < Pow10(MAX_INTEGER_DIGITS + decimals) then Success(units) else Failure(TooLarge)
  {
    FormatRoundTrip(units, decimals);
    assert FromBaseUnits(units, decimals) == FormatScaledUnits(units, decimals);
  }

  lemma TrimmedReadsBack(units: nat, decimals: nat, g: string)
    requires decimals > 0 && g == Digits(units, decimals) && |g| > decimals && AllDigits(g) && Number(g) == units
    ensures ParseScaledUnits(Text(FromBaseUnits(units, decimals)), decimals)
         == if |g| - decimals <= MAX_INTEGER_DIGITS then Success(units) else Failure(TooLarge)
  {
    var w, f := g[..|g| - decimals], g[|g| - decimals..];
    assert g == w + f;
    FromBaseUnitsSplits(units, decimals, w, f);
    TrimThenPad(f);
    PadUndoesTrim(FromBaseUnits(units, decimals), w, TrimZeros(f), f);
  }

  lemma PadUndoesTrim(t: string, w: string, cut: string, f: string)
    requires MatchesGrammar(t) && Whole(t) == w && Fraction(t) == cut
    requires |cut| <= |f| && PadEnd(cut, |f|) == f && AllDigits(w) && AllDigits(f) && AllDigits(cut)
    ensures AllDigits(w + f)
    ensures ParseScaledUnits(Text(t), |f|)
         == if |w| <= MAX_INTEGER_DIGITS then Success(Number(w + f)) else Failure(TooLarge)
  {
    SamePadded(w, cut, f, |f|);
    ParsesTo(t, w, cut, |f|, Number(w + f));
  }

  lemma ParsesTo(t: string, w: string, cut: string, decimals: nat, n: nat)
    requires MatchesGrammar(t) && Whole(t) == w && Fraction(t) == cut
    requires |cut| <= decimals && AllDigits(w + cut) && Number(w + cut) * Pow10(decimals - |cut|) == n
    ensures ParseScaledUnits(Text(t), decimals)
         == if |w| <= MAX_INTEGER_DIGITS then Success(n) else Failure(TooLarge)
  {
    ParseIsExact(t, w, cut, decimals);
  }

  lemma SamePadded(w: string, cut: string, f: string, decimals: nat)
    requires |cut| <= decimals == |f| && PadEnd(cut, decimals) == f && AllDigits(w) && AllDigits(f) && AllDigits(cut)
    ensures AllDigits(w + cut) && AllDigits(w + f)
    ensures Number(w + cut) * Pow10(decimals - |cut|) == Number(w + f)
  {
    PaddedValue(w, cut, decimals);
    NumberOfConcat(w, f);
  }

  lemma FromBaseUnitsSplits(units: nat, decimals: nat, w: string, f: string)
    requires decimals > 0 && Digits(units, decimals) == w + f && |f| == decimals && w != []
    requires AllDigits(w + f)
    ensures AllDigits(w) && AllDigits(f)
    ensures var t := FromBaseUnits(units, decimals);
      MatchesGrammar(t) && Whole(t) == w && Fraction(t) == TrimZeros(f)
  {
    assert (w + f)[..|w|] == w && (w + f)[|w|..] == f;
    TrimThenPad(f);
    if TrimZeros(f) == [] {
      SplitPlain(w);
    } else {
      SplitPointed(w, TrimZeros(f));
    }
  }

  // ----- currencies ---------------------------------------------------------

  function CurrencyDecimals(currency: string): Result<nat> {
    if currency == "USD" then Success(2)
    else if currency == "JPY" then Success(0)
    else if currency == "SGD" then Success(2)
    else Failure(UnsupportedCurrency)
  }

  /** Base-unit precision of the token that settles a currency. */
  function TokenDecimals(currency: string): Result<nat> {
    if currency == "USD" then Success(6)
    else if currency == "JPY" then Success(0)
    else if currency == "SGD" then Success(6)
    else Failure(UnsupportedCurrency)
  }

  /** A client-supplied amount, in minor units; it must be positive. */
  function ParseAmount(amount: Untyped, currency: string): Result<nat> {
    match CurrencyDecimals(currency)
    case Failure(e) => Failure(e)
    case Success(decimals) =>
      match ParseScaledUnits(amount, decimals)
      case Failure(e) => Failure(e)
      case Success(units) => if units == 0 then Failure(NotPositive) else Success(units)
  }

  function FormatMinorUnits(units: nat, currency: string): Result<string> {
    match CurrencyDecimals(currency)
    case Failure(e) => Failure(e)
    case Success(decimals) => Success(FormatScaledUnits(units, decimals))
  }

  function CanonicalAmount(amount: Untyped, currency: string): Result<string> {
    match ParseAmount(amount, currency)
    case Failure(e) => Failure(e)
    case Success(units) => FormatMinorUnits(units, currency)
  }

  /** A parsed amount is never too large to print and parse again. */
  lemma ParsedIsPrintable(value: Untyped, decimals: nat)
    requires ParseScaledUnits(value, decimals).Success?
    ensures ParseScaledUnits(value, decimals).value < Pow10(MAX_INTEGER_DIGITS + decimals)
  {
    var w, f := Whole(value.text), Fraction(value.text);
    NumberIsBounded(w);
    NumberIsBounded(PadEnd(f, decimals));
    PowGrows(|w|, MAX_INTEGER_DIGITS);
    PowAdds(MAX_INTEGER_DIGITS, decimals);
    Fill(Number(w), Pow10(MAX_INTEGER_DIGITS), Pow10(decimals), Number(PadEnd(f, decimals)));
  }

  lemma Fill(x: nat, m: nat, p: nat, y: nat)
    requires x < m && y < p
    ensures x * p + y < m * p
  {
    MulLe(x + 1, m, p);
    assert (x + 1) * p == x * p + p;
  }

  /** The strict parse in minor units: to the cent in dollars of either kind, whole in yen. */
  predicate ParsesToMinor(amount: Untyped, currency: string, units: nat) {
    || ((currency == "USD" || currency == "SGD") && ParseScaledUnits(amount, 2) == Success(units))
    || (currency == "JPY" && ParseScaledUnits(amount, 0) == Success(units))
  }

  /** A client's amount is exactly what parses to more than nothing in its currency's minor
      units; nothing, and unknown currencies, are refused as such. */
  lemma AmountsAreParsed(amount: Untyped, currency: string, units: nat)
    ensures ParseAmount(amount, currency) == Success(units) <==> units > 0 && ParsesToMinor(amount, currency, units)
    ensures ParseAmount(amount, currency) == Failure(NotPositive) <==> ParsesToMinor(amount, currency, 0)
    ensures ParseAmount(amount, currency) == Failure(UnsupportedCurrency) <==>
      currency != "USD" && currency != "SGD" && currency != "JPY"
  {
  }

  /** What is stored parses to the amount that was accepted, and canonicalizing it again
      changes nothing. */
  lemma CanonicalAmountIsStable(amount: Untyped, currency: string)
    requires CanonicalAmount(amount, currency).Success?
    ensures var t := CanonicalAmount(amount, currency).value;
      && ParseAmount(Text(t), currency) == ParseAmount(amount, currency)
      && CanonicalAmount(Text(t), currency) == Success(t)
  {
    var decimals := CurrencyDecimals(currency).value;
    ParsedIsPrintable(amount, decimals);
    FormatRoundTrip(ParseAmount(amount, currency).value, decimals);
  }

  /** A destination amount, canonical in its currency, as base units of its token: the same
      sum at the token's finer scale. */
  lemma DestinationUnitsExact(minor: nat, currency: string)
    requires CurrencyDecimals(currency).Success?
    requires minor < Pow10(MAX_INTEGER_DIGITS + CurrencyDecimals(currency).value)
    ensures var d, token := CurrencyDecimals(currency).value, TokenDecimals(currency);
      && token.Success? && d <= token.value
      && Pow10(token.value - d) == (if currency == "JPY" then 1 else 10_000)
      && ParseScaledUnits(Text(FormatMinorUnits(minor, currency).value), token.value)
         == Success(minor * Pow10(token.value - d))
  {
    ParseUndoesFormat(minor, CurrencyDecimals(currency).value, TokenDecimals(currency).value);
    assert Pow10(4) == 10 * Pow10(3) && Pow10(3) == 10 * Pow10(2) && Pow10(2) == 10 * Pow10(1);
  }

  // ----- the truncating converter -------------------------------------------

  /** What String.trim and BigInt take for white space, line ends included. */
  predicate IsSpace(c: char) {
    var u := c as int;
    || 0x9 <= u <= 0xD || u == 0x20 || u == 0xA0 || u == 0x1680 || 0x2000 <= u <= 0x200A
    || u == 0x2028 || u == 0x2029 || u == 0x202F || u == 0x205F || u == 0x3000 || u == 0xFEFF
  }

  function TrimStart(s: string): string {
    if s != [] && IsSpace(s[0]) then TrimStart(s[1..]) else s
  }

  function TrimEnd(s: string): string {
    if s != [] && IsSpace(s[|s| - 1]) then TrimEnd(s[..|s| - 1]) else s
  }

  function Trim(s: string): string {
    TrimEnd(TrimStart(s))
  }

  /** The value of a digit, in any radix up to sixteen. */
  function DigitValue(c: char): Result<nat> {
    if '0' <= c <= '9' then Success(c as nat - '0' as nat)
    else if 'a' <= c <= 'f' then Success(c as nat - 'a' as nat + 10)
    else if 'A' <= c <= 'F' then Success(c as nat - 'A' as nat + 10)
    else Failure(InvalidFormat)
  }

  function NumberIn(s: string, radix: nat): Result<nat> {
    if s == [] then Success(0)
    else
      match (NumberIn(s[..|s| - 1], radix), DigitValue(s[|s| - 1]))
      case (Success(n), Success(d)) => if d < radix then Success(n * radix + d) else Failure(InvalidFormat)
      case _ => Failure(InvalidFormat)
  }

  /** The radix a literal's prefix names. */
  function RadixOf(s: string): nat {
    if |s| <= 2 || s[0] != '0' then 0
    else if s[1] in {'x', 'X'} then 16
    else if s[1] in {'o', 'O'} then 8
    else if s[1] in {'b', 'B'} then 2
    else 0
  }

  function Minus(n: int): int {
    -n
  }

  /** BigInt of a string: white space around it, then decimal digits, none at all counting as
      zero, perhaps with a sign; or, without a sign, a prefix and digits of its radix. */
  function BigIntOf(s: string): Result<int> {
    var t := Trim(s);
    if AllDigits(t) then Success(Number(t))
    else if t[0] == '-' && |t| > 1 && AllDigits(t[1..]) then Success(Minus(Number(t[1..])))
    else if t[0] == '+' && |t| > 1 && AllDigits(t[1..]) then Success(Number(t[1..]))
    else if RadixOf(t) > 0 then NumberIn(t[2..], RadixOf(t))
    else Failure(InvalidFormat)
  }

  /** toBaseUnits: trim, split at the points, keep the first two parts, cut the fraction to
      the token's decimals. A missing part counts as zero. */
  function ToBaseUnits(amount: string, decimals: nat): Result<int> {
    var t := Trim(amount);
    var frac := (Whole(Fraction(t)) + Zeros(decimals))[..decimals];
    match (BigIntOf(Whole(t)), BigIntOf(frac))
    case (Success(w), Success(f)) => Success(w * Pow10(decimals) + f)
    case _ => Failure(InvalidFormat)
  }

  /** Truncation is rounding down: for every amount whose first two parts are digits or
      missing, whatever white space surrounds it and whatever follows a second point, and at
      any precision, the result is the floor of the written decimal times 10^decimals. */
  lemma ToBaseUnitsFloors(s: string, decimals: nat)
    requires var t := Trim(s); AllDigits(Whole(t)) && AllDigits(Whole(Fraction(t)))
    ensures var t := Trim(s); AllDigits(Whole(t) + Whole(Fraction(t)))
    ensures var t := Trim(s); var w, f := Whole(t), Whole(Fraction(t));
      ToBaseUnits(s, decimals) == Success(Number(w + f) * Pow10(decimals) / Pow10(|f|))
  {
    var t := Trim(s);
    var w, f := Whole(t), Whole(Fraction(t));
    if |f| <= decimals {
      PaddedIsExact(w, f, decimals);
    } else {
      CutIsFloor(w, f, decimals);
    }
    PartsAreRead(s, w, f, decimals);
  }

  lemma PartsAreRead(s: string, w: string, f: string, decimals: nat)
    requires w == Whole(Trim(s)) && f == Whole(Fraction(Trim(s))) && AllDigits(w)
    requires AllDigits((f + Zeros(decimals))[..decimals])
    ensures ToBaseUnits(s, decimals) == Success(Number(w) * Pow10(decimals) + Number((f + Zeros(decimals))[..decimals]))
  {
    DigitsRead(w);
    DigitsRead((f + Zeros(decimals))[..decimals]);
  }

  lemma DigitsRead(s: string)
    requires AllDigits(s)
    ensures BigIntOf(s) == Success(Number(s))
  {
    DigitsUntrimmed(s);
  }

  lemma DigitsUntrimmed(s: string)
    requires s != [] ==> (IsDigit(s[0]) || s[0] == '-') && IsDigit(s[|s| - 1])
    ensures Trim(s) == s
  {
    if s != [] {
      assert !IsSpace(s[0]) && !IsSpace(s[|s| - 1]);
    }
  }

  lemma FloorShift(a: int, b: int, q: int)
    requires q > 0
    ensures (a * q + b) / q == a + b / q
  {
    Floor(b, q);
    assert (a + b / q) * q == a * q + b / q * q;
    FloorUnique(a * q + b, q, a + b / q);
  }

  /** What a minus sign does: it reaches the whole part only, so a negative amount comes out
      as its floor if and only if its fraction is zero. */
  lemma MinusMissesTheFraction(w: string, f: string, decimals: nat)
    requires w != [] && f != [] && AllDigits(w) && AllDigits(f)
    ensures AllDigits(w + f)
    ensures ToBaseUnits("-" + (w + "." + f), decimals) == Success(Minus(Number(w + f) * Pow10(decimals)) / Pow10(|f|))
       <==> Number(f) == 0
  {
    var cut := (f + Zeros(decimals))[..decimals];
    if |f| <= decimals {
      PaddedIsExact(w, f, decimals);
    } else {
      CutIsFloor(w, f, decimals);
    }
    NumberOfConcat(w, f);
    var r := MinusIsRead("-" + (w + "." + f), w, f, decimals);
    MinusFloors(Number(w), Number(f), Pow10(decimals), Pow10(|f|), Number(cut), Number(w + f), r);
  }

  lemma MinusIsRead(s: string, w: string, f: string, decimals: nat) returns (r: Result<int>)
    requires s == "-" + (w + "." + f) && w != [] && f != [] && AllDigits(w) && AllDigits(f)
    requires AllDigits((f + Zeros(decimals))[..decimals])
    ensures r == ToBaseUnits(s, decimals)
    ensures r == Success(Minus(Number(w)) * Pow10(decimals) + Number((f + Zeros(decimals))[..decimals]))
  {
    r := ToBaseUnits(s, decimals);
    SplitPointed(w, f);
    SplitPlain(f);
    assert s[1..] == w + "." + f;
    assert Whole(s) == "-" + w && Fraction(s) == f;
    DigitsUntrimmed(s);
    MinusDigitsRead(w);
    DigitsRead((f + Zeros(decimals))[..decimals]);
  }

  lemma MinusDigitsRead(w: string)
    requires w != [] && AllDigits(w)
    ensures BigIntOf("-" + w) == Success(Minus(Number(w)))
  {
    var s := "-" + w;
    assert s[1..] == w && s[0] == '-' && s[0] in s;
    DigitsUntrimmed(s);
  }

  lemma MinusFloors(w: int, f: int, p: int, q: int, cut: int, n: int, r: Result<int>)
    requires 0 <= w && 0 <= f && p > 0 && q > 0 && 0 <= cut && n == w * q + f && w * p + cut == n * p / q
    requires r == Success(Minus(w) * p + cut)
    ensures r == Success(Minus(n * p) / q) <==> f == 0
  {
    var a, b := w * p, f * p;
    assert n * p == a * q + b && Minus(w) * p == Minus(a) && Minus(n * p) == Minus(a) * q + Minus(b);
    FloorShift(a, b, q);
    FloorShift(Minus(a), Minus(b), q);
    if f > 0 {
      MulLe(1, f, p);
      BelowZero(Minus(b), q);
    }
  }

  lemma BelowZero(x: int, q: int)
    requires x < 0 && q > 0
    ensures x / q < 0
  {
    Floor(x, q);
    if x / q >= 0 {
      MulLe(0, x / q, q);
    }
  }

  /** The strict grammar has no white space to trim and one point at most. */
  lemma GrammarUntrimmed(s: string)
    requires MatchesGrammar(s)
    ensures Trim(s) == s && Whole(Fraction(s)) == Fraction(s)
  {
    var w, f := Whole(s), Fraction(s);
    Rejoin(s);
    assert w[0] in w;
    DigitsUntrimmed(s);
    SplitPlain(f);
  }

  lemma PaddedIsExact(w: string, f: string, decimals: nat)
    requires AllDigits(w) && AllDigits(f) && |f| <= decimals
    ensures AllDigits(w + f) && AllDigits((f + Zeros(decimals))[..decimals])
    ensures Number(w) * Pow10(decimals) + Number((f + Zeros(decimals))[..decimals])
         == Number(w + f) * Pow10(decimals) / Pow10(|f|)
  {
    var k := decimals - |f|;
    NumberOfConcat(w, f);
    assert (f + Zeros(decimals))[..decimals] == f + Zeros(k);
    NumberOfZeros(k);
    NumberOfConcat(f, Zeros(k));
    PowAdds(|f|, k);
    assert Pow10(decimals) == Pow10(k) * Pow10(|f|);
    Distribute(Number(w), Pow10(|f|), Pow10(k), Number(f));
    DivideOut(Number(w + f), Pow10(k), Pow10(|f|));
  }

  lemma CutIsFloor(w: string, f: string, decimals: nat)
    requires AllDigits(w) && AllDigits(f) && |f| > decimals
    ensures AllDigits(w + f) && AllDigits((f + Zeros(decimals))[..decimals])
    ensures Number(w) * Pow10(decimals) + Number((f + Zeros(decimals))[..decimals])
         == Number(w + f) * Pow10(decimals) / Pow10(|f|)
  {
    var cut, rest := f[..decimals], f[decimals..];
    NumberOfConcat(w, f);
    assert (f + Zeros(decimals))[..decimals] == cut;
    assert f == cut + rest;
    NumberOfConcat(cut, rest);
    NumberIsBounded(rest);
    PowAdds(decimals, |rest|);
    CutOff(Number(w), Number(cut), Number(rest), Pow10(decimals), Pow10(|rest|));
  }

  lemma DivideOut(n: nat, q: nat, p: nat)
    requires p > 0
    ensures n * (p * q) / p == n * q
  {
    assert n * (p * q) == (n * q) * p by {
      MulAssoc(n, q, p);
    }
    FloorUnique((n * q) * p, p, n * q);
  }

  lemma CutOff(w: nat, cut: nat, rest: nat, p: nat, q: nat)
    requires p > 0 && q > 0 && rest < q
    ensures p * q > 0
    ensures (w * (p * q) + (cut * q + rest)) * p / (p * q) == w * p + cut
  {
    var n := w * p + cut;
    assert w * (p * q) + cut * q == n * q by {
      MulAssoc(w, p, q);
    }
    assert (n * q + rest) * p == n * (p * q) + rest * p by {
      MulAssoc(n, q, p);
    }
    MulLe(rest + 1, q, p);
    assert (rest + 1) * p == rest * p + p;
    MulLe(0, rest, p);
    FloorUnique(n * (p * q) + rest * p, p * q, n);
  }

  /** Wherever the strict parser accepts, the truncating converter agrees with it. */
  lemma ConvertersAgree(s: string, decimals: nat)
    requires ParseScaledUnits(Text(s), decimals).Success?
    ensures ToBaseUnits(s, decimals) == ParseScaledUnits(Text(s), decimals)
  {
    var w, f := Whole(s), Fraction(s);
    GrammarUntrimmed(s);
    assert (f + Zeros(decimals))[..decimals] == PadEnd(f, decimals);
    DigitsRead(w);
    DigitsRead(PadEnd(f, decimals));
  }
}
