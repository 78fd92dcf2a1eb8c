/** Treasury liquidity in lib/treasury.ts: what is free, what is parked in the fund, and
    the recall loop that frees parked liquidity for a payment; with the two places that
    decide whether a payment can be funded, the quote's check and the executor's. */
module Treasury {
  import opened Arithmetic
  import opened Decimals
  import opened Money
  import opened FundMath

  datatype TreasuryError =
    | InvalidAmount
    | InsufficientFreeBalance
    | PositionNotFound
    | PositionNotActive
    | ChainReverted
    | NotRecorded
    | NotAudited

  datatype Outcome<+T> = Done(value: T) | Threw(error: TreasuryError)

  /** A parked position; positions are kept oldest first and never deleted. */
  datatype Position = Position(shares: nat, assetIn: nat, indexAtEntry: nat, active: bool)

  /** How a fund call ends: it lands at an index and is recorded, it reverts, or it lands
      and the rows recording it do not commit. */
  datatype FundCall = Lands(index: nat) | Reverts | LandsUnrecorded(index: nat)

  datatype Check = Check(ok: bool, recallRequired: bool)

  // ----- what is free and what is parked ------------------------------------

  /** An amount strictly parsed, with the money errors re-typed. */
  function AssetUnits(amount: string, decimals: nat): Outcome<nat> {
    match ParseScaledUnits(Text(amount), decimals)
    case Success(units) => Done(units)
    case Failure(_) => Threw(InvalidAmount)
  }

  function PositiveUnits(amount: string, decimals: nat): Outcome<nat> {
    match AssetUnits(amount, decimals)
    case Done(units) => if units == 0 then Threw(InvalidAmount) else Done(units)
    case Threw(e) => Threw(e)
  }

  /** Base units promised to in-flight payments: one unreadable row makes the sum unreadable. */
  function ReservedUnits(rows: seq<string>, decimals: nat): Outcome<nat> {
    if rows == [] then Done(0)
    else
      match (ReservedUnits(rows[..|rows| - 1], decimals), AssetUnits(rows[|rows| - 1], decimals))
      case (Done(sum), Done(units)) => Done(sum + units)
      case _ => Threw(InvalidAmount)
  }

  /** An amount of asset units is exactly what the strict parser reads, and a positive one is
      that when it is not zero. */
  lemma UnitsAreParsed(amount: string, decimals: nat, n: nat)
    ensures AssetUnits(amount, decimals) == Done(n) <==> ParseScaledUnits(Text(amount), decimals) == Success(n)
    ensures PositiveUnits(amount, decimals) == Done(n) <==>
      ParseScaledUnits(Text(amount), decimals) == Success(n) && n > 0
  {
  }

  predicate Readable(amount: string, decimals: nat) {
    AssetUnits(amount, decimals).Done?
  }

  ghost predicate AllReadable(rows: seq<string>, decimals: nat) {
    forall row :: row in rows ==> Readable(row, decimals)
  }

  lemma AllAndLast(rows: seq<string>, decimals: nat)
    requires rows != []
    ensures AllReadable(rows, decimals) <==>
      AllReadable(rows[..|rows| - 1], decimals) && Readable(rows[|rows| - 1], decimals)
  {
    var init, last := rows[..|rows| - 1], rows[|rows| - 1];
    assert rows == init + [last];
    if AllReadable(init, decimals) && Readable(last, decimals) {
      forall row | row in rows ensures Readable(row, decimals) {
        assert row in init || row == last;
      }
    }
    if AllReadable(rows, decimals) {
      forall row | row in init ensures Readable(row, decimals) {
        assert row in rows;
      }
      assert last in rows;
    }
  }

  /** The reservations are readable exactly when every row is. */
  lemma {:induction false} EveryRowIsRead(rows: seq<string>, decimals: nat)
    ensures ReservedUnits(rows, decimals).Done? <==> AllReadable(rows, decimals)
    ensures ReservedUnits(rows, decimals).Threw? ==> ReservedUnits(rows, decimals) == Threw(InvalidAmount)
  {
    if rows != [] {
      EveryRowIsRead(rows[..|rows| - 1], decimals);
      AllAndLast(rows, decimals);
    }
  }

  /** Reservations add up: one row counts what it says, and the rows of two lists together
      count what the lists count. */
  lemma {:induction false} ReservationsAddUp(a: seq<string>, b: seq<string>, row: string, decimals: nat)
    ensures ReservedUnits([row], decimals) == AssetUnits(row, decimals)
    ensures ReservedUnits(a + b, decimals).Done? <==>
      ReservedUnits(a, decimals).Done? && ReservedUnits(b, decimals).Done?
    ensures ReservedUnits(a + b, decimals).Done? ==>
      ReservedUnits(a + b, decimals).value == ReservedUnits(a, decimals).value + ReservedUnits(b, decimals).value
    decreases |b|
  {
    assert [row][..0] == [];
    if b == [] {
      assert a + b == a;
    } else {
      var init := b[..|b| - 1];
      assert (a + b)[..|a + b| - 1] == a + init;
      ReservationsAddUp(a, init, row, decimals);
    }
  }

  /** Balance minus reservations, clamped at zero. */
  function Free(balance: nat, reserved: nat): nat {
    if balance > reserved then balance - reserved else 0
  }

  function ValueAt(p: Position, index: nat): nat {
    if p.active then ValueOfShares(p.shares, index) else 0
  }

  /** parkedBalance: the derived value of every active position. */
  function Parked(ps: seq<Position>, index: nat): nat {
    if ps == [] then 0 else Parked(ps[..|ps| - 1], index) + ValueAt(ps[|ps| - 1], index)
  }

  /** The clamp is why parked liquidity does not simply add to what is free: it does exactly
      when nothing is parked or the reservations are covered by the balance. */
  lemma ParkedAddsToFree(balance: nat, reserved: nat, parked: nat)
    ensures Free(balance + parked, reserved) == Free(balance, reserved) + parked
       <==> parked == 0 || reserved <= balance
  {
  }

  lemma {:induction false} ParkedSplits(ps: seq<Position>, c: nat, index: nat)
    requires c <= |ps|
    ensures Parked(ps, index) == Parked(ps[..c], index) + Parked(ps[c..], index)
    decreases |ps|
  {
    if c == |ps| {
      assert ps[..c] == ps && ps[c..] == [];
    } else {
      var most := ps[..|ps| - 1];
      ParkedSplits(most, c, index);
      assert most[..c] == ps[..c] && most[c..] == ps[c..][..|ps| - c - 1];
    }
  }

  /** Marking a position recalled takes exactly its own value out of what is parked. */
  lemma RecalledIsWithdrawn(ps: seq<Position>, i: nat, index: nat)
    requires i < |ps|
    ensures Parked(ps[i := ps[i].(active := false)], index) + ValueAt(ps[i], index) == Parked(ps, index)
  {
    var qs := ps[i := ps[i].(active := false)];
    ParkedSplits(ps, i + 1, index);
    ParkedSplits(qs, i + 1, index);
    assert qs[..i + 1][..i] == ps[..i + 1][..i] && qs[i + 1..] == ps[i + 1..];
  }

  // ----- the recall loop's specification ------------------------------------

  /** The first c positions recalled, the rest untouched. */
  function RecalledBefore(ps: seq<Position>, c: nat): (qs: seq<Position>)
    requires c <= |ps|
    ensures |qs| == |ps| && forall j :: 0 <= j < |ps| ==> qs[j] == if j < c then ps[j].(active := false) else ps[j]
  {
    seq(|ps|, j requires 0 <= j < |ps| => if j < c then ps[j].(active := false) else ps[j])
  }

  /** Recalling the next position, or passing over one that is not active. */
  lemma RecalledNext(ps: seq<Position>, c: nat, qs: seq<Position>)
    requires c < |ps|
    requires qs == if ps[c].active then RecalledBefore(ps, c)[c := ps[c].(active := false)] else RecalledBefore(ps, c)
    ensures qs == RecalledBefore(ps, c + 1)
  {
  }

  /** Which of the first c positions are active, oldest first. */
  function ActiveBefore(ps: seq<Position>, c: nat): seq<nat>
    requires c <= |ps|
  {
    if c == 0 then [] else ActiveBefore(ps, c - 1) + (if ps[c - 1].active then [c - 1] else [])
  }

  function PaidBy(p: Position, how: FundCall): nat {
    if how.Lands? then ValueAt(p, how.index) else 0
  }

  /** What redeeming the active ones among the first c positions paid. */
  function Paid(ps: seq<Position>, hows: seq<FundCall>, c: nat): nat
    requires c <= |ps| == |hows|
  {
    if c == 0 then 0 else Paid(ps, hows, c - 1) + PaidBy(ps[c - 1], hows[c - 1])
  }

  /** Cutting the queue after its first c positions covers the shortfall, and cutting it one
      position earlier would not. */
  predicate MinimalPrefix(ps: seq<Position>, hows: seq<FundCall>, shortfall: nat, c: nat)
    requires c <= |ps| == |hows|
  {
    && shortfall <= Paid(ps, hows, c)
    && (c > 0 ==> Paid(ps, hows, c - 1) < shortfall)
  }

  lemma {:induction false} PaidGrows(ps: seq<Position>, hows: seq<FundCall>, b: nat, c: nat)
    requires b <= c <= |ps| == |hows|
    ensures Paid(ps, hows, b) <= Paid(ps, hows, c)
    decreases c
  {
    if b < c {
      PaidGrows(ps, hows, b, c - 1);
    }
  }

  /** There is only one minimal prefix. */
  lemma MinimalPrefixIsUnique(ps: seq<Position>, hows: seq<FundCall>, shortfall: nat, b: nat, c: nat)
    requires b <= |ps| == |hows| && c <= |ps|
    requires MinimalPrefix(ps, hows, shortfall, b) && MinimalPrefix(ps, hows, shortfall, c)
    ensures b == c
  {
    if b < c {
      PaidGrows(ps, hows, b, c - 1);
    } else if c < b {
      PaidGrows(ps, hows, c, b - 1);
    }
  }

  /** Every redemption lands, at an index no lower than the one parked liquidity was valued at. */
  ghost predicate Steady(ps: seq<Position>, hows: seq<FundCall>, index: nat) {
    |hows| == |ps| && forall j :: 0 <= j < |ps| && ps[j].active ==> hows[j].Lands? && hows[j].index >= index
  }

  /** Then redeeming everything pays at least what was counted as parked: floor division
      leaves no dust behind. */
  lemma {:induction false} SteadyPaysParked(ps: seq<Position>, hows: seq<FundCall>, index: nat, c: nat)
    requires Steady(ps, hows, index) && c <= |ps|
    ensures Parked(ps[..c], index) <= Paid(ps, hows, c)
  {
    if c > 0 {
      SteadyPaysParked(ps, hows, index, c - 1);
      assert ps[..c][..c - 1] == ps[..c - 1];
      if ps[c - 1].active {
        ValueGrows(ps[c - 1].shares, index, hows[c - 1].index);
      }
    }
  }

  // ----- the quote's check --------------------------------------------------

  /** Whether the treasury could fund an amount, on readable state. */
  function LiquidityCheck(
    balance: nat, rows: seq<string>, ps: seq<Position>, decimals: nat, index: nat, needed: string): Outcome<Check>
  {
    match (ReservedUnits(rows, decimals), AssetUnits(needed, decimals))
    case (Done(reserved), Done(units)) =>
      var free := Free(balance, reserved);
      if free >= units then Done(Check(true, false))
      else if free + Parked(ps, index) >= units then Done(Check(true, true))
      else Done(Check(false, false))
    case _ => Threw(InvalidAmount)
  }

  /** The quote's check is readable exactly when the amount and every reservation are; it
      passes exactly when what is parked, alone or with what the balance leaves after the
      reservations, covers the amount; and it asks for a recall exactly when the balance alone
      does not. */
  lemma CheckMeans(balance: nat, rows: seq<string>, ps: seq<Position>, decimals: nat, index: nat, needed: string)
    ensures var check := LiquidityCheck(balance, rows, ps, decimals, index, needed);
      check.Done? <==> Readable(needed, decimals) && AllReadable(rows, decimals)
    ensures var check, parked := LiquidityCheck(balance, rows, ps, decimals, index, needed), Parked(ps, index);
      check.Done? ==>
        var units, reserved := AssetUnits(needed, decimals).value, ReservedUnits(rows, decimals).value;
        && (check.value.ok <==> units <= parked || units + reserved <= balance + parked)
        && (check.value.recallRequired <==> check.value.ok && units > 0 && units + reserved > balance)
  {
    EveryRowIsRead(rows, decimals);
  }

  // ----- when the check and the executor agree ------------------------------

  /** Where the recall loop cuts the queue: after the first position that covers the
      shortfall. */
  function Cut(ps: seq<Position>, hows: seq<FundCall>, shortfall: nat, c: nat): (k: nat)
    requires c <= |ps| == |hows|
    ensures k <= c
  {
    if c == 0 || Paid(ps, hows, c - 1) < shortfall then c else Cut(ps, hows, shortfall, c - 1)
  }

  lemma {:induction false} CutIsMinimal(ps: seq<Position>, hows: seq<FundCall>, shortfall: nat, c: nat)
    requires c <= |ps| == |hows| && shortfall <= Paid(ps, hows, c)
    ensures MinimalPrefix(ps, hows, shortfall, Cut(ps, hows, shortfall, c))
  {
    if c > 0 && shortfall <= Paid(ps, hows, c - 1) {
      CutIsMinimal(ps, hows, shortfall, c - 1);
    }
  }

  /** What decides an execution beforehand: free liquidity covers the amount, or the check
      passes and what the loop will recall also makes up for reservations the balance does
      not cover. */
  predicate Fundable(balance: nat, reserved: nat, ps: seq<Position>, hows: seq<FundCall>, index: nat, needed: nat)
    requires |ps| == |hows|
  {
    var free := Free(balance, reserved);
    || free >= needed
    || (&& free + Parked(ps, index) >= needed
        && needed + reserved <= balance + Paid(ps, hows, Cut(ps, hows, needed - free, |ps|)))
  }

  /** With reservations covered by the balance that is the check itself. */
  lemma FundableWhenCovered(balance: nat, reserved: nat, ps: seq<Position>,
      hows: seq<FundCall>, index: nat, needed: nat)
    requires Steady(ps, hows, index) && reserved <= balance
    ensures Fundable(balance, reserved, ps, hows, index, needed)
      <==> Free(balance, reserved) + Parked(ps, index) >= needed
  {
    var free := Free(balance, reserved);
    if free < needed && free + Parked(ps, index) >= needed {
      SteadyPaysParked(ps, hows, index, |ps|);
      assert ps[..|ps|] == ps;
      CutIsMinimal(ps, hows, needed - free, |ps|);
    }
  }

  /** Redemptions at the checked index pay what was counted as parked, so then everything in
      Fundable is known before the call. */
  lemma {:induction false} PaidAtIndex(ps: seq<Position>, hows: seq<FundCall>, index: nat, c: nat)
    requires c <= |ps| == |hows| && forall j :: 0 <= j < |ps| ==> hows[j] == Lands(index)
    ensures Paid(ps, hows, c) == Parked(ps[..c], index)
  {
    if c > 0 {
      PaidAtIndex(ps, hows, index, c - 1);
      assert ps[..c][..c - 1] == ps[..c - 1];
    }
  }

  lemma FiveIsReadable()
    ensures AssetUnits(Numeral(5), 0) == Done(5) && ReservedUnits([Numeral(5)], 0) == Done(5)
  {
    PowGrows(1, 15);
    FormatRoundTrip(5, 0);
    assert [Numeral(5)][..0] == [];
  }

  /** Otherwise the check can be optimistic: with five units reserved, none in the wallet and
      five parked, it offers a route for five that no recall can fund. */
  lemma CheckIsOptimisticWhenOverReserved()
    ensures var ps := [Position(5, 5, INDEX_SCALE, true)];
      && LiquidityCheck(0, [Numeral(5)], ps, 0, INDEX_SCALE, Numeral(5)) == Done(Check(true, true))
      && !Fundable(0, 5, ps, [Lands(INDEX_SCALE)], INDEX_SCALE, 5)
  {
    var p, hows := Position(5, 5, INDEX_SCALE, true), [Lands(INDEX_SCALE)];
    FiveIsReadable();
    assert [p] == [] + [p] && [p][..0] == [];
    FloorUnique(p.shares * INDEX_SCALE, INDEX_SCALE, p.shares);
    assert Parked([p], INDEX_SCALE) == 5;
    assert Paid([p], hows, 1) == Paid([p], hows, 0) + PaidBy(p, hows[0]);
    assert Paid([p], hows, Cut([p], hows, 5, 1)) <= 5;
  }

  // ----- the desk -----------------------------------------------------------

  datatype Recalled = Recalled(positions: seq<nat>, assetAmount: nat)

  datatype Verdict = Funded | Insufficient | RecallFailed | Unreadable

  /** The treasury wallet of one asset on one network, with its rows. */
  class Desk {
    const decimals: nat
    var balance: nat
    var reserved: seq<string>
    var positions: seq<Position>

    constructor (decimals: nat, balance: nat)
      ensures this.decimals == decimals && this.balance == balance && reserved == [] && positions == []
    {
      this.decimals, this.balance, reserved, positions := decimals, balance, [], [];
    }

    /** Subscribe free liquidity at the live index. What is reserved stays untouched, and at
        the minting index nothing is gained and at most dust is lost. */
    method Park(amount: string, seen: nat, how: FundCall) returns (r: Outcome<nat>)
      requires how.Reverts? || how.index > 0
      modifies this`balance, this`positions
      ensures r.Done? <==>
        && ReservedUnits(reserved, decimals).Done? && PositiveUnits(amount, decimals).Done? && how.Lands?
        && PositiveUnits(amount, decimals).value <= Free(old(balance), ReservedUnits(reserved, decimals).value)
      ensures r.Done? ==>
        var a := PositiveUnits(amount, decimals).value;
        && balance == old(balance) - a
        && ReservedUnits(reserved, decimals).value <= balance
        && positions == old(positions) + [Position(SharesFor(a, how.index), a, seen, true)]
        && var before, after := old(balance + Parked(positions, how.index)), balance + Parked(positions, how.index);
           before - CeilDiv(how.index - 1, INDEX_SCALE) <= after <= before
      ensures r == Threw(InvalidAmount) <==>
        PositiveUnits(amount, decimals).Threw? || ReservedUnits(reserved, decimals).Threw?
      ensures r == Threw(InsufficientFreeBalance) <==>
        && PositiveUnits(amount, decimals).Done? && ReservedUnits(reserved, decimals).Done?
        && PositiveUnits(amount, decimals).value > Free(old(balance), ReservedUnits(reserved, decimals).value)
      ensures r.Threw? ==> positions == old(positions)
      ensures r.Threw? && r.error != NotRecorded ==> balance == old(balance)
      ensures r == Threw(NotRecorded) ==>
        how.LandsUnrecorded? && balance == old(balance) - PositiveUnits(amount, decimals).value
    {
      var units := PositiveUnits(amount, decimals);
      if units.Threw? {
        return Threw(units.error);
      }
      var promised := ReservedUnits(reserved, decimals);
      if promised.Threw? {
        return Threw(promised.error);
      }
      if units.value > Free(balance, promised.value) {
        return Threw(InsufficientFreeBalance);
      }
      match how {
        case Reverts =>
          return Threw(ChainReverted);
        case LandsUnrecorded(_) =>
          balance := balance - units.value;
          return Threw(NotRecorded);
        case Lands(index) =>
          var p := Position(SharesFor(units.value, index), units.value, seen, true);
          ParkThenRedeem(units.value, index);
          assert (positions + [p])[..|positions|] == positions;
          balance, positions := balance - units.value, positions + [p];
          return Done(p.shares);
      }
    }

    /** Redeem one position at the live index, exactly once. */
    method Recall(i: nat, how: FundCall) returns (r: Outcome<nat>)
      modifies this`balance, this`positions
      ensures r.Done? <==> i < |old(positions)| && old(positions)[i].active && how.Lands?
      ensures r.Done? ==>
        && r.value == ValueAt(old(positions)[i], how.index)
        && balance == old(balance) + r.value
        && positions == old(positions)[i := old(positions)[i].(active := false)]
        && balance + Parked(positions, how.index) == old(balance + Parked(positions, how.index))
      ensures r.Threw? ==> positions == old(positions)
      ensures i >= |old(positions)| ==> r == Threw(PositionNotFound)
      ensures i < |old(positions)| && !old(positions)[i].active ==> r == Threw(PositionNotActive)
      ensures r == Threw(NotRecorded) <==> i < |old(positions)| && old(positions)[i].active && how.LandsUnrecorded?
      ensures r.Threw? && r.error != NotRecorded ==> balance == old(balance)
      ensures r == Threw(NotRecorded) ==> balance == old(balance) + ValueAt(old(positions)[i], how.index)
      ensures r != Threw(InsufficientFreeBalance) && r != Threw(NotAudited)
    {
      if i >= |positions| {
        return Threw(PositionNotFound);
      }
      if !positions[i].active {
        return Threw(PositionNotActive);
      }
      match how {
        case Reverts =>
          return Threw(ChainReverted);
        case LandsUnrecorded(index) =>
          balance := balance + ValueOfShares(positions[i].shares, index);
          return Threw(NotRecorded);
        case Lands(index) =>
          var paid := ValueOfShares(positions[i].shares, index);
          RecalledIsWithdrawn(positions, i, index);
          balance, positions := balance + paid, positions[i := positions[i].(active := false)];
          return Done(paid);
      }
    }

    /** The loop of recallForPayment: the oldest positions, one at a time, until the
        shortfall is covered. `stop` is where the queue was cut; a redemption that throws
        leaves the earlier recalls standing. */
    method RecallOldest(shortfall: nat, hows: seq<FundCall>) returns (r: Outcome<Recalled>, ghost stop: nat)
      requires |hows| == |positions|
      modifies this`balance, this`positions
      ensures stop <= |old(positions)|
      ensures positions == RecalledBefore(old(positions), stop) && r != Threw(NotAudited)
      ensures r != Threw(NotRecorded) ==> balance == old(balance) + Paid(old(positions), hows, stop)
      ensures r.Done? ==>
        && MinimalPrefix(old(positions), hows, shortfall, stop)
        && r.value == Recalled(ActiveBefore(old(positions), stop), Paid(old(positions), hows, stop))
      ensures r == Threw(InsufficientFreeBalance) ==>
        stop == |old(positions)| && Paid(old(positions), hows, stop) < shortfall
      ensures r.Threw? && r.error != InsufficientFreeBalance ==>
        stop < |old(positions)| && old(positions)[stop].active && !hows[stop].Lands?
      ensures r == Threw(NotRecorded) ==>
        && hows[stop].LandsUnrecorded?
        && balance == old(balance) + Paid(old(positions), hows, stop) + ValueAt(old(positions)[stop], hows[stop].index)
    {
      ghost var ps, b := positions, balance;
      var recalled: seq<nat>, freed: nat, i: nat := [], 0, 0;
      assert positions == RecalledBefore(ps, 0);
      while i < |positions|
        invariant i <= |positions| == |ps| == |hows|
        invariant positions == RecalledBefore(ps, i) && balance == b + freed
        invariant recalled == ActiveBefore(ps, i) && freed == Paid(ps, hows, i)
        invariant i > 0 ==> Paid(ps, hows, i - 1) < shortfall
      {
        if freed >= shortfall {
          break;
        }
        assert positions[i] == ps[i];
        if positions[i].active {
          var paid := Recall(i, hows[i]);
          if paid.Threw? {
            return Threw(paid.error), i;
          }
          recalled, freed := recalled + [i], freed + paid.value;
        }
        RecalledNext(ps, i, positions);
        i := i + 1;
      }
      stop := i;
      r := if freed < shortfall then Threw(InsufficientFreeBalance) else Done(Recalled(recalled, freed));
    }

    /** recallForPayment: with the redemptions landing at an index that has not fallen, it
        recalls whenever parked liquidity covers the shortfall and refuses, touching
        nothing, whenever it does not; its last shortage is never reached. The event that
        closes a recall may fail to be written: then it throws with everything recalled. */
    method RecallForPayment(amount: string, index: nat, hows: seq<FundCall>, logs: bool)
      returns (r: Outcome<Recalled>, ghost stop: nat)
      requires |hows| == |positions|
      modifies this`balance, this`positions
      ensures stop <= |old(positions)|
      ensures positions == RecalledBefore(old(positions), stop)
      ensures r != Threw(NotRecorded) ==> balance == old(balance) + Paid(old(positions), hows, stop)
      ensures PositiveUnits(amount, decimals).Threw? || ReservedUnits(reserved, decimals).Threw?
        ==> r == Threw(InvalidAmount) && stop == 0
      ensures PositiveUnits(amount, decimals).Done? && ReservedUnits(reserved, decimals).Done? ==>
        Answers(old(positions), hows, index, PositiveUnits(amount, decimals).value,
                Free(old(balance), ReservedUnits(reserved, decimals).value), logs, r, stop)
    {
      ghost var ps := positions;
      assert positions == RecalledBefore(ps, 0);
      var units, promised := PositiveUnits(amount, decimals), ReservedUnits(reserved, decimals);
      if units.Threw? || promised.Threw? {
        return Threw(InvalidAmount), 0;
      }
      var free := Free(balance, promised.value);
      if free >= units.value {
        return Done(Recalled([], 0)), 0;
      }
      if Parked(positions, index) < units.value - free {
        return Threw(InsufficientFreeBalance), 0;
      }
      r, stop := RecallOldest(units.value - free, hows);
      if r.Done? && !logs {
        r := Threw(NotAudited);
      }
      if Steady(ps, hows, index) {
        SteadyPaysParked(ps, hows, index, |ps|);
        assert ps[..|ps|] == ps;
      }
    }

    /** Steps 0 and 1 of an execution: recall if what is free falls short, then decide on a
        fresh reading. When nothing moves underneath it the verdict is exactly Fundable,
        which is the quote check's when the reservations are covered, unless a recall was
        needed and its closing event is not written. */
    method Fund(amount: string, index: nat, hows: seq<FundCall>, logs: bool) returns (v: Verdict, ghost stop: nat)
      requires |hows| == |positions|
      modifies this`balance, this`positions
      ensures stop <= |old(positions)| && positions == RecalledBefore(old(positions), stop)
      ensures v == Unreadable <==> old(LiquidityCheck(balance, reserved, positions, decimals, index, amount)).Threw?
      ensures v == Funded ==>
        AssetUnits(amount, decimals).value <= Free(balance, ReservedUnits(reserved, decimals).value)
      ensures v != Unreadable && Steady(old(positions), hows, index) ==>
        var check := old(LiquidityCheck(balance, reserved, positions, decimals, index, amount)).value;
        && (v == RecallFailed <==> check.recallRequired && !logs)
        && (v != RecallFailed ==>
              (v == Funded <==>
                Fundable(old(balance), ReservedUnits(reserved, decimals).value, old(positions), hows, index,
                         AssetUnits(amount, decimals).value)))
        && (v == Funded ==> check.ok)
        && (v == Insufficient && ReservedUnits(reserved, decimals).value <= old(balance) ==> !check.ok)
        && (!check.recallRequired ==> stop == 0 && balance == old(balance))
    {
      ghost var ps := positions;
      assert positions == RecalledBefore(ps, 0);
      stop := 0;
      var needed, promised := AssetUnits(amount, decimals), ReservedUnits(reserved, decimals);
      if needed.Threw? || promised.Threw? {
        return Unreadable, 0;
      }
      ghost var before := balance;
      if Free(balance, promised.value) < needed.value && Parked(positions, index) > 0 {
        var recall;
        recall, stop := RecallForPayment(amount, index, hows, logs);
        if recall.Threw? && recall.error != InsufficientFreeBalance {
          return RecallFailed, stop;
        }
      }
      if Steady(ps, hows, index) {
        RecallDecides(ps, hows, index, before, promised.value, needed.value, stop, balance);
      }
      v := if Free(balance, promised.value) < needed.value then Insufficient else Funded;
    }
  }

  /** What recallForPayment answers on readable amounts. */
  ghost predicate Answers(
    ps: seq<Position>, hows: seq<FundCall>, index: nat, needed: nat, free: nat, logs: bool,
    r: Outcome<Recalled>, stop: nat)
    requires stop <= |ps| == |hows|
  {
    && (free >= needed ==> r == Done(Recalled([], 0)) && stop == 0)
    && (free + Parked(ps, index) < needed ==> r == Threw(InsufficientFreeBalance) && stop == 0)
    && (free < needed && (r.Done? || r == Threw(NotAudited)) ==> MinimalPrefix(ps, hows, needed - free, stop))
    && (free < needed && r.Done? ==> logs && r.value == Recalled(ActiveBefore(ps, stop), Paid(ps, hows, stop)))
    && (r == Threw(NotAudited) ==> !logs)
    && (free < needed <= free + Parked(ps, index) && Steady(ps, hows, index) ==>
      if logs then r.Done? else r == Threw(NotAudited))
  }

  /** What a fresh reading shows after the recall, by what the recall did. */
  lemma RecallDecides(
    ps: seq<Position>, hows: seq<FundCall>, index: nat, balance: nat, reserved: nat, needed: nat, stop: nat, after: nat)
    requires Steady(ps, hows, index) && stop <= |ps|
    requires var free := Free(balance, reserved);
      if free < needed && free + Parked(ps, index) >= needed
      then MinimalPrefix(ps, hows, needed - free, stop) && after == balance + Paid(ps, hows, stop)
      else after == balance
    ensures Free(after, reserved) >= needed <==> Fundable(balance, reserved, ps, hows, index, needed)
    ensures Free(after, reserved) >= needed ==> Free(balance, reserved) + Parked(ps, index) >= needed
    ensures reserved <= balance && Free(balance, reserved) + Parked(ps, index) >= needed ==>
      Free(after, reserved) >= needed
  {
    var free := Free(balance, reserved);
    if free < needed && free + Parked(ps, index) >= needed {
      SteadyPaysParked(ps, hows, index, |ps|);
      assert ps[..|ps|] == ps;
      CutIsMinimal(ps, hows, needed - free, |ps|);
      MinimalPrefixIsUnique(ps, hows, needed - free, stop, Cut(ps, hows, needed - free, |ps|));
    }
  }

  /** And the executor does refuse it. */
  method OverReservedIsRefused() returns (v: Verdict)
    ensures v == Insufficient
  {
    var desk := new Desk(0, 0);
    desk.reserved := [Numeral(5)];
    desk.positions := [Position(5, 5, INDEX_SCALE, true)];
    CheckIsOptimisticWhenOverReserved();
    FiveIsReadable();
    ghost var stop;
    v, stop := desk.Fund(Numeral(5), INDEX_SCALE, [Lands(INDEX_SCALE)], true);
  }
}
