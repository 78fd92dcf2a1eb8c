/** The route handlers that race on a payment's status: cancel, quote, review, and the
    compliance gate of execute. Each reads the row, waits, and swaps from the status it
    read; `others` is everything other writers do while it waits. */
module Routes {
  import opened Options
  import opened PaymentState
  import opened Transitions
  import Money

  datatype Reply = Replied(status: Status) | Conflict | Invalid | Executes

  /** The route the caller picks, if any: one of the quote's, with the columns it writes, or
      none that the quote knows. */
  datatype Pick = NoPick | Quotes(columns: map<string, string>) | UnknownRoute

  datatype Decision = Approve | Reject

  /** What the compliance checks conclude, if they conclude. */
  datatype Screening = Passed | Flagged | Refused | ScreeningThrew

  function ScreenedTo(s: Screening): Status
    requires s != ScreeningThrew
  {
    match s
    case Passed => Approved
    case Flagged => ManualReview
    case Refused => Rejected
  }

  /** A handler's swap after waiting: it succeeds exactly when the status it read is still
      there, and then the row it read is too, re-quotes aside. */
  method SwapAfter(store: PaymentStore, seen: Status, to: Status, columns: map<string, string>, fault: Fault,
      others: seq<Other>)
    returns (r: Outcome)
    requires store.Valid() && store.Foreign(others) && seen == store.row.status
    modifies store, store.log
    ensures store.Valid()
    ensures var p := ApplyAll(old(store.Current()), Attempts(others));
      && store.Current() == Apply(p, Attempt(seen, to, columns, fault))
      && (r.Done? <==> CanTransition(seen, to) && p.row.status == seen && fault == NoFault)
      && (r.Done? ==> r.row == store.row && r.row.status == to && (seen != Quoted ==> p == old(store.Current())))
  {
    ghost var before := store.Current();
    store.Interleave(others);
    if store.row.status == seen {
      SameStatusMeansUntouched(before, Attempts(others));
    }
    r := store.TransitionStatus(Attempt(seen, to, columns, fault), "", "");
  }

  /** Cancel: succeeds exactly when the payment was cancellable and nobody moved it first. */
  method Cancel(store: PaymentStore, fault: Fault, others: seq<Other>) returns (r: Reply)
    requires store.Valid() && store.Foreign(others)
    modifies store, store.log
    ensures store.Valid()
    ensures r.Replied? <==>
      Cancellable(old(store.row.status)) && fault == NoFault
      && ApplyAll(old(store.Current()), Attempts(others)).row.status == old(store.row.status)
    ensures r.Replied? ==> r.status == Cancelled == store.row.status && store.row.lease == None
    ensures !Cancellable(old(store.row.status)) ==> store.Current() == old(store.Current())
    ensures r.Replied? || r == Conflict
  {
    var seen := store.row.status;
    if !Cancellable(seen) {
      return Conflict;
    }
    var swap := SwapAfter(store, seen, Cancelled, map[], fault, others);
    r := if swap.Done? then Replied(swap.row.status) else Conflict;
  }

  /** Every written column is on the row. */
  ghost predicate Holds(columns: map<string, string>, written: map<string, string>) {
    forall k :: k in written ==> k in columns && columns[k] == written[k]
  }

  lemma ApplyWrites(p: Payment, a: Attempt)
    ensures Applies(p, a) ==> Holds(Apply(p, a).row.columns, a.columns)
  {
  }

  lemma QuotableFrom(s: Status)
    ensures CanTransition(s, Quoted) <==> s in {Draft, Quoted}
  {
  }

  /** Quote: the one writer that may find the status unchanged and the row not. */
  method Quote(store: PaymentStore, quote: map<string, string>, fault: Fault, others: seq<Other>) returns (r: Reply)
    requires store.Valid() && store.Foreign(others)
    modifies store, store.log
    ensures store.Valid()
    ensures r.Replied? <==>
      old(store.row.status) in {Draft, Quoted} && fault == NoFault
      && ApplyAll(old(store.Current()), Attempts(others)).row.status == old(store.row.status)
    ensures r.Replied? ==> r.status == Quoted == store.row.status && Holds(store.row.columns, quote)
    ensures r.Replied? || r == Conflict
  {
    var seen := store.row.status;
    ghost var p := ApplyAll(store.Current(), Attempts(others));
    QuotableFrom(seen);
    var swap := SwapAfter(store, seen, Quoted, quote, fault, others);
    ApplyWrites(p, Attempt(seen, Quoted, quote, fault));
    r := if swap.Done? then Replied(Quoted) else Conflict;
  }

  /** Review: of any number of reviewers, the one whose swap finds MANUAL_REVIEW decides. */
  method Review(store: PaymentStore, decision: Decision, fault: Fault, others: seq<Other>) returns (r: Reply)
    requires store.Valid() && store.Foreign(others)
    modifies store, store.log
    ensures store.Valid()
    ensures r.Replied? <==>
      old(store.row.status) == ManualReview && fault == NoFault
      && ApplyAll(old(store.Current()), Attempts(others)) == old(store.Current())
    ensures r.Replied? ==> r.status == store.row.status == if decision == Approve then Approved else Rejected
    ensures old(store.row.status) != ManualReview ==> store.Current() == old(store.Current())
    ensures r.Replied? || r == Conflict
  {
    if store.row.status != ManualReview {
      return Conflict;
    }
    ghost var before := store.Current();
    if ApplyAll(before, Attempts(others)).row.status == ManualReview {
      SameStatusMeansUntouched(before, Attempts(others));
    }
    var swap := SwapAfter(store, ManualReview, if decision == Approve then Approved else Rejected,
      map[], fault, others);
    r := if swap.Done? then Replied(swap.row.status) else Conflict;
  }

  /** The decision half of the gate: what the screening says, swapped from
      COMPLIANCE_PENDING. */
  method Decide(store: PaymentStore, screening: Screening, fault: Fault, others: seq<Other>) returns (r: Reply)
    requires store.Valid() && store.Foreign(others) && store.row.status == CompliancePending
    modifies store, store.log
    ensures store.Valid()
    ensures var p := ApplyAll(old(store.Current()), Attempts(others));
      && (r == Executes <==> screening == Passed && fault == NoFault && p.row.status == CompliancePending)
      && (r.Replied? <==> screening in {Flagged, Refused} && fault == NoFault && p.row.status == CompliancePending)
      && (screening == ScreeningThrew ==> store.Current() == p)
    ensures r == Executes ==>
      && store.row.status == Approved
      && store.Current().moves == old(store.Current().moves) + [Move(CompliancePending, Approved)]
    ensures r.Replied? ==>
      && r.status == store.row.status && Parks(screening, r.status)
      && store.Current().moves == old(store.Current().moves) + [Move(CompliancePending, r.status)]
    ensures r != Invalid
  {
    ghost var before := store.Current();
    if screening == ScreeningThrew {
      store.Interleave(others);
      return Conflict;
    }
    var decided := SwapAfter(store, CompliancePending, ScreenedTo(screening), map[], fault, others);
    if !decided.Done? {
      return Conflict;
    }
    assert ApplyAll(before, Attempts(others)) == before;
    r := if screening == Passed then Executes else Replied(decided.row.status);
  }

  /** The compliance gate: into COMPLIANCE_PENDING with the picked route, then the
      decision. Of two concurrent executes only one gets in. */
  method Screen(store: PaymentStore, pick: map<string, string>, screening: Screening, fault: Fault, fault2: Fault,
      others: seq<Other>, others2: seq<Other>)
    returns (r: Reply)
    requires store.Valid() && store.Foreign(others) && store.Foreign(others2) && store.row.status == Quoted
    modifies store, store.log
    ensures store.Valid()
    ensures r == Executes <==>
      screening == Passed && fault == NoFault && fault2 == NoFault &&
        StaysForGate(old(store.Current()), pick, others, others2)
    ensures r.Replied? <==>
      screening in {Flagged, Refused} && fault == NoFault && fault2 == NoFault &&
        StaysForGate(old(store.Current()), pick, others, others2)
    ensures r == Executes ==> WentThroughGate(store.Current(), Approved)
    ensures r.Replied? ==> WentThroughGate(store.Current(), r.status) && Parks(screening, r.status)
    ensures r != Invalid
  {
    var gate := SwapAfter(store, Quoted, CompliancePending, pick, fault, others);
    if !gate.Done? {
      return Conflict;
    }
    r := Decide(store, screening, fault2, others2);
  }

  /** Execute, up to the executor: a payment gets there either already approved, or by this
      call's own two swaps through the compliance gate with nothing in between; a flagged one
      is parked for review and a refused one rejected by the same two swaps. A stored
      amount the strict parser refuses, or a pick the quote does not know, is refused before
      anything moves. */
  method RunExecute(store: PaymentStore, amount: string, currency: string, pick: Pick, screening: Screening,
      fault: Fault, fault2: Fault, others: seq<Other>, others2: seq<Other>)
    returns (r: Reply)
    requires store.Valid() && store.Foreign(others) && store.Foreign(others2)
    modifies store, store.log
    ensures store.Valid()
    ensures !Executable(amount, currency) ==> r == Conflict && store.Current() == old(store.Current())
    ensures r == Invalid <==> Executable(amount, currency) && old(store.row.status) == Quoted && pick == UnknownRoute
    ensures r == Invalid ==> store.Current() == old(store.Current())
    ensures old(store.row.status) == Approved ==>
      (r == Executes <==> Executable(amount, currency)) && store.Current() == old(store.Current())
    ensures old(store.row.status) == Quoted ==>
      (r == Executes <==>
        && Executable(amount, currency) && pick != UnknownRoute
        && screening == Passed && fault == NoFault && fault2 == NoFault
        && StaysForGate(old(store.Current()), Written(pick), others, others2))
    ensures old(store.row.status) == Quoted && r == Executes ==> WentThroughGate(store.Current(), Approved)
    ensures r.Replied? <==>
      && Executable(amount, currency) && old(store.row.status) == Quoted && pick != UnknownRoute
      && screening in {Flagged, Refused} && fault == NoFault && fault2 == NoFault
      && StaysForGate(old(store.Current()), Written(pick), others, others2)
    ensures r.Replied? ==> WentThroughGate(store.Current(), r.status) && Parks(screening, r.status)
    ensures old(store.row.status) !in {Quoted, Approved} ==> r == Conflict && store.Current() == old(store.Current())
  {
    if !Executable(amount, currency) {
      return Conflict;
    }
    var seen := store.row.status;
    if seen == Quoted {
      if pick == UnknownRoute {
        return Invalid;
      }
      r := Screen(store, Written(pick), screening, fault, fault2, others, others2);
      return;
    }
    r := if seen == Approved then Executes else Conflict;
  }

  /** The amount on the row can be parsed in its currency. */
  predicate Executable(amount: string, currency: string) {
    Money.ParseAmount(Money.Text(amount), currency).Success?
  }

  function Written(pick: Pick): map<string, string> {
    if pick.Quotes? then pick.columns else map[]
  }

  /** Nobody else moves the payment before either swap of the gate. */
  ghost predicate StaysForGate(p: Payment, pick: map<string, string>, others: seq<Other>, others2: seq<Other>) {
    var p1 := ApplyAll(p, Attempts(others));
    && p1.row.status == Quoted
    && ApplyAll(Apply(p1, Attempt(Quoted, CompliancePending, pick, NoFault)), Attempts(others2)).row.status
      == CompliancePending
  }

  /** The last two moves went through the gate, to this status. */
  ghost predicate WentThroughGate(p: Payment, to: Status) {
    && p.row.status == to && |p.moves| >= 2
    && p.moves[|p.moves| - 2] == Move(Quoted, CompliancePending)
    && p.moves[|p.moves| - 1] == Move(CompliancePending, to)
  }

  /** A payment that is flagged waits for a reviewer, and only a refused one is rejected for
      good. */
  predicate Parks(screening: Screening, status: Status) {
    && status in {ManualReview, Rejected}
    && (status == ManualReview <==> screening == Flagged) && (status == Rejected <==> screening == Refused)
  }
}
