/** The payment lifecycle: the constant transition table of lib/state.ts and what
    every path through it has in common. */
module PaymentState {

  datatype Status =
    | Draft
    | Quoted
    | CompliancePending
    | ManualReview
    | Approved
    | LiquidityReserved
    | SubmittedOnchain
    | ConfirmedOnchain
    | FxOrSwapCompleted
    | PayoutPending
    | Settled
    | CompensationPending
    | Compensated
    | Rejected
    | Failed
    | Cancelled
    | Refunded
    | Expired

  predicate CanTransition(from: Status, to: Status) {
    match from
    case Draft => to in {Quoted, Cancelled, Expired}
    case Quoted => to in {CompliancePending, Quoted, Cancelled, Expired}
    case CompliancePending => to in {Approved, ManualReview, Rejected, Cancelled}
    case ManualReview => to in {Approved, Rejected, Cancelled}
    case Approved => to in {LiquidityReserved, Cancelled, Failed}
    case LiquidityReserved => to in {SubmittedOnchain, Failed, Cancelled}
    case SubmittedOnchain => to in {ConfirmedOnchain, Failed}
    case ConfirmedOnchain => to in {FxOrSwapCompleted, Failed, Refunded, CompensationPending}
    case FxOrSwapCompleted => to in {PayoutPending, Failed, Refunded, CompensationPending}
    case PayoutPending => to in {Settled, Failed, Refunded, CompensationPending}
    case CompensationPending => to in {Compensated}
    case Failed => to in {Refunded}
    case _ => false
  }

  /** States from which the user may still cancel. */
  predicate Cancellable(s: Status) {
    s in {Draft, Quoted, CompliancePending, ManualReview, Approved}
  }

  predicate Terminal(s: Status) {
    s in {Settled, Compensated, Rejected, Cancelled, Refunded, Expired}
  }

  /** Reaching one of these ends the execution attempt and frees its lease. */
  predicate ReleasesLease(s: Status) {
    Terminal(s) || s == Failed
  }

  /** An upper bound on how many further moves, re-quotes aside, a payment has. */
  function Rank(s: Status): nat {
    match s
    case Draft => 11
    case Quoted => 10
    case CompliancePending => 9
    case ManualReview => 8
    case Approved => 7
    case LiquidityReserved => 6
    case SubmittedOnchain => 5
    case ConfirmedOnchain => 4
    case FxOrSwapCompleted => 3
    case PayoutPending => 2
    case CompensationPending => 1
    case Failed => 1
    case _ => 0
  }

  /** A sequence of statuses in which every step is an edge of the table. */
  ghost predicate IsPath(p: seq<Status>) {
    forall i :: 0 < i < |p| ==> CanTransition(p[i - 1], p[i])
  }

  /** How many steps of the path are the one self-loop, QUOTED to QUOTED. */
  function Requotes(p: seq<Status>): nat {
    if |p| < 2 then 0
    else Requotes(p[..|p| - 1]) + (if p[|p| - 2] == Quoted && p[|p| - 1] == Quoted then 1 else 0)
  }

  /** Every path is finite: re-quotes aside, it makes at most Rank(first) - Rank(last)
      moves, so at most eleven from DRAFT. */
  lemma {:induction false} PathsAreBounded(p: seq<Status>)
    requires IsPath(p) && p != []
    ensures Rank(p[|p| - 1]) <= Rank(p[0])
    ensures |p| - 1 <= Requotes(p) + Rank(p[0]) - Rank(p[|p| - 1])
  {
    if |p| > 1 {
      var q := p[..|p| - 1];
      PathsAreBounded(q);
      assert CanTransition(p[|p| - 2], p[|p| - 1]);
    }
  }

  /** No status is revisited on any path, except QUOTED by consecutive re-quotes. */
  lemma {:induction false} PathsNeverReturn(p: seq<Status>, i: nat, j: nat)
    requires IsPath(p) && i < j < |p| && p[i] == p[j]
    ensures p[i] == Quoted && forall k :: i <= k <= j ==> p[k] == Quoted
    decreases j - i
  {
    RankFalls(p, i + 1, j);
    assert CanTransition(p[i], p[i + 1]);
    if i + 1 < j {
      PathsNeverReturn(p, i + 1, j);
    }
  }

  /** Along a path the rank never rises. */
  lemma {:induction false} RankFalls(p: seq<Status>, i: nat, j: nat)
    requires IsPath(p) && i <= j < |p|
    ensures Rank(p[j]) <= Rank(p[i])
    decreases j - i
  {
    if i < j {
      RankFalls(p, i, j - 1);
      assert CanTransition(p[j - 1], p[j]);
    }
  }

  /** Every status is reached by some path from DRAFT. */
  lemma EveryStatusIsReached(s: Status) returns (p: seq<Status>)
    ensures IsPath(p) && p != [] && p[0] == Draft && p[|p| - 1] == s
  {
    var approved := [Draft, Quoted, CompliancePending, ManualReview, Approved];
    var released := approved + [LiquidityReserved, SubmittedOnchain, ConfirmedOnchain, FxOrSwapCompleted];
    match s
    case Draft => p := [Draft];
    case Quoted => p := [Draft, Quoted];
    case CompliancePending => p := [Draft, Quoted, CompliancePending];
    case ManualReview => p := [Draft, Quoted, CompliancePending, ManualReview];
    case Approved => p := approved;
    case LiquidityReserved => p := approved + [LiquidityReserved];
    case SubmittedOnchain => p := approved + [LiquidityReserved, SubmittedOnchain];
    case ConfirmedOnchain => p := approved + [LiquidityReserved, SubmittedOnchain, ConfirmedOnchain];
    case FxOrSwapCompleted => p := released;
    case PayoutPending => p := released + [PayoutPending];
    case Settled => p := released + [PayoutPending, Settled];
    case CompensationPending => p := released + [PayoutPending, CompensationPending];
    case Compensated => p := released + [PayoutPending, CompensationPending, Compensated];
    case Rejected => p := [Draft, Quoted, CompliancePending, Rejected];
    case Failed => p := approved + [Failed];
    case Cancelled => p := [Draft, Cancelled];
    case Refunded => p := approved + [Failed, Refunded];
    case Expired => p := [Draft, Expired];
  }

  /** An approved payment is not judged or left to expire any more. */
  lemma {:induction false} ApprovedIsFinal(p: seq<Status>, i: nat)
    requires IsPath(p) && i < |p| && p[0] == Approved
    ensures i > 0 ==> p[i] in {LiquidityReserved, Cancelled, SubmittedOnchain, ConfirmedOnchain, FxOrSwapCompleted,
                               PayoutPending, Settled, CompensationPending, Compensated, Failed, Refunded}
  {
    if i > 0 {
      ApprovedIsFinal(p, i - 1);
      assert CanTransition(p[i - 1], p[i]);
    }
  }

  /** Once the money is on chain there is no calling the payment off: every path from
      SUBMITTED_ONCHAIN stays among the statuses that say where the money is. */
  lemma {:induction false} NoWayBack(p: seq<Status>, i: nat)
    requires IsPath(p) && i < |p| && p[0] == SubmittedOnchain
    ensures p[i] in {SubmittedOnchain, ConfirmedOnchain, FxOrSwapCompleted, PayoutPending, Settled,
                     CompensationPending, Compensated, Failed, Refunded}
  {
    if i > 0 {
      NoWayBack(p, i - 1);
      assert CanTransition(p[i - 1], p[i]);
    }
  }

  /** A terminal status has no way out, and only terminal statuses have none. */
  lemma TerminalMeansStuck(s: Status)
    ensures Terminal(s) <==> forall t :: !CanTransition(s, t)
  {
    match s
    case Draft => assert CanTransition(s, Quoted);
    case Quoted => assert CanTransition(s, Quoted);
    case CompliancePending => assert CanTransition(s, Approved);
    case ManualReview => assert CanTransition(s, Approved);
    case Approved => assert CanTransition(s, Failed);
    case LiquidityReserved => assert CanTransition(s, Failed);
    case SubmittedOnchain => assert CanTransition(s, Failed);
    case ConfirmedOnchain => assert CanTransition(s, Failed);
    case FxOrSwapCompleted => assert CanTransition(s, Failed);
    case PayoutPending => assert CanTransition(s, Failed);
    case CompensationPending => assert CanTransition(s, Compensated);
    case Failed => assert CanTransition(s, Refunded);
    case _ =>
  }
}
