/**
 A deal's stages: how a proposed next stage is held against the current one, and how the client's intent is read and
 moves the deal.
 */
module Stages {
  import opened Wrappers

  datatype Status =
    | Intake | Sizing | Customs | Quoting | Pricing | Negotiation | Contract | Execution
    | AwaitingManager | ClosedWon | ClosedLost | Cancelled

  predicate Terminal(status: Status) { status.ClosedWon? || status.ClosedLost? || status.Cancelled? }

  predicate Late(status: Status) { status.Contract? || status.Execution? }

  function Rank(status: Status): Option<nat> {
    match status
    case Intake => Some(0)
    case Sizing => Some(1)
    case Customs => Some(2)
    case Quoting => Some(3)
    case Pricing => Some(4)
    case Negotiation => Some(5)
    case Contract => Some(6)
    case Execution => Some(7)
    case _ => None
  }

  function HoldStage(prev: Status, proposed: Status): Status {
    if proposed.AwaitingManager? then (if prev.AwaitingManager? then Intake else prev)
    else if Terminal(proposed) then proposed
    else
      var p, n := Rank(prev), Rank(proposed);
      if p.Some? && n.Some? && n.value < p.value then prev else proposed
  }

  const FUNNEL := [Intake, Sizing, Customs, Quoting, Pricing, Negotiation, Contract, Execution]

  /**
   Of two stages of the funnel the later one is held; a manager's turn keeps the stage, and two in a row start anew.
   */
  lemma LaterIsHeld(i: nat, j: nat)
    requires i < |FUNNEL| && j < |FUNNEL|
    ensures HoldStage(FUNNEL[i], FUNNEL[j]) == FUNNEL[if i < j then j else i]
    ensures Rank(FUNNEL[i]) == Some(i)
    ensures HoldStage(FUNNEL[i], AwaitingManager) == FUNNEL[i] && HoldStage(AwaitingManager, FUNNEL[j]) == FUNNEL[j]
    ensures HoldStage(AwaitingManager, AwaitingManager) == Intake
  {
  }

  /** The stage after a series of proposals, each held against the one before. */
  function HoldAll(prev: Status, proposals: seq<Status>): Status {
    if proposals == [] then prev else HoldStage(HoldAll(prev, proposals[..|proposals| - 1]), proposals[|proposals| - 1])
  }

  /** The highest rank among the proposals, at least `least`; proposals without a rank do not count. */
  function Highest(least: nat, proposals: seq<Status>): nat {
    if proposals == [] then least
    else
      var rest, last := Highest(least, proposals[..|proposals| - 1]), Rank(proposals[|proposals| - 1]);
      if last.Some? && rest < last.value then last.value else rest
  }

  /** As long as no terminal status is proposed, a ranked stage is held at the highest rank seen so far. */
  lemma {:induction false} HeldAtHighest(prev: Status, proposals: seq<Status>)
    requires Rank(prev).Some? && forall i :: 0 <= i < |proposals| ==> !Terminal(proposals[i])
    ensures Rank(HoldAll(prev, proposals)) == Some(Highest(Rank(prev).value, proposals))
  {
    if proposals != [] {
      HeldAtHighest(prev, proposals[..|proposals| - 1]);
    }
  }

  /** The held rank never falls along proposals free of terminal statuses, also once a manager's turn is over. */
  lemma {:induction false} HeldRankNeverFalls(prev: Status, proposals: seq<Status>, m: nat, n: nat)
    requires m <= n <= |proposals| && forall i :: 0 <= i < |proposals| ==> !Terminal(proposals[i])
    requires !Terminal(prev)
    ensures var early, late := Rank(HoldAll(prev, proposals[..m])), Rank(HoldAll(prev, proposals[..n]));
            early.Some? ==> late.Some? && early.value <= late.value
  {
    if m < n {
      HeldRankNeverFalls(prev, proposals, m, n - 1);
      assert proposals[..n][..n - 1] == proposals[..n - 1];
    }
  }

  /**
   A terminal proposal is not held, and neither is what follows it: from any status any stage can be reached in two.
   */
  lemma TerminalLetsFall(prev: Status, terminal: Status, next: Status)
    requires Terminal(terminal)
    ensures HoldAll(prev, [terminal, next]) == if next.AwaitingManager? then terminal else next
  {
    assert [terminal, next][..1] == [terminal];
    assert [terminal][..0] == [];
    assert HoldAll(prev, [terminal]) == terminal;
  }

  // --- intents

  datatype Intent =
    | Question | Recalculate | RequestDiscount | AcceptOffer | RejectOffer | AcceptContract
    | RequestContractChange | PaymentSent | Tracking | Claim

  /** Which of the patterns the text matches. */
  datatype Cues = Cues(tracking: bool, payment: bool, claim: bool, recalculate: bool, discount: bool, expensive: bool,
                       notExpensive: bool, reject: bool, contractChange: bool, acceptContract: bool, agree: bool)

  function DetectClientIntent(cues: Cues, status: Status, priced: bool, hinted: Option<Intent>): Intent {
    if hinted.Some? then hinted.value
    else if cues.tracking then Tracking
    else if cues.payment then PaymentSent
    else if cues.claim then Claim
    else if cues.recalculate then Recalculate
    else if cues.discount then RequestDiscount
    else if cues.expensive && !cues.notExpensive then RequestDiscount
    else if cues.reject then RejectOffer
    else if cues.contractChange then RequestContractChange
    else if cues.acceptContract then AcceptContract
    else if cues.agree && status.Contract? then AcceptContract
    else if cues.agree && (status.Negotiation? || status.Pricing? || status.Quoting?) && priced then AcceptOffer
    else Question
  }

  /** The offer is still with the manager. */
  predicate Guarded(escalate: bool, paused: bool, kpHold: bool) { escalate || paused || kpHold }

  /** The status an intent moves the deal to, if it moves it. */
  function Advance(intent: Intent, status: Status, priced: bool, guarded: bool): Option<Status> {
    if intent.AcceptOffer? && priced then (if guarded then None else Some(Contract))
    else if intent.AcceptContract? || (intent.AcceptOffer? && status.Contract?) then Some(Execution)
    else if intent.PaymentSent? then Some(Execution)
    else None
  }

  /**
   When the client's words alone, without a hint, move a deal on: to the contract by agreeing to an offer that staff
   have let go, to execution by a payment or by agreeing to the contract; and by nothing else.
   */
  lemma WordsMoveExactly(cues: Cues, status: Status, priced: bool, guarded: bool)
    ensures var next := Advance(DetectClientIntent(cues, status, priced, None), status, priced, guarded);
            var heard := !cues.tracking && !cues.payment && !cues.claim && !cues.recalculate && !cues.discount
                         && (cues.expensive ==> cues.notExpensive) && !cues.reject && !cues.contractChange;
            && (next == Some(Contract) <==>
                  heard && !cues.acceptContract && cues.agree && priced && !guarded
                  && (status.Negotiation? || status.Pricing? || status.Quoting?))
            && (next == Some(Execution) <==>
                  (cues.payment && !cues.tracking)
                    || (heard && (cues.acceptContract || (cues.agree && status.Contract?))))
            && (next.Some? ==> next.value.Contract? || next.value.Execution?)
  {
  }

  /** The status after a client turn that neither quotes nor escalates. */
  function QuietTurnStatus(prev: Status, proposed: Status, cues: Cues, hinted: Option<Intent>, priced: bool,
                           guarded: bool): Status {
    var held := HoldStage(prev, proposed);
    Advance(DetectClientIntent(cues, held, priced, hinted), held, priced, guarded).GetOr(held)
  }

  /** From a late stage, no wording of the client moves the deal back: it takes a hint. */
  lemma LateStaysLate(prev: Status, proposed: Status, cues: Cues, priced: bool, guarded: bool)
    requires Late(prev) && !Terminal(proposed)
    ensures var next := QuietTurnStatus(prev, proposed, cues, None, priced, guarded);
            Late(next) && (prev.Execution? ==> next.Execution?)
  {
    assert Late(HoldStage(prev, proposed)) && (prev.Execution? ==> HoldStage(prev, proposed).Execution?);
  }

  /** With a hint, execution falls back to contract exactly for a hinted acceptance of a priced, unguarded offer. */
  lemma ExecutionFallsBackExactly(proposed: Status, cues: Cues, hinted: Option<Intent>, priced: bool, guarded: bool)
    requires !Terminal(proposed)
    ensures QuietTurnStatus(Execution, proposed, cues, hinted, priced, guarded) != Execution
            <==> hinted == Some(AcceptOffer) && priced && !guarded
    ensures QuietTurnStatus(Execution, proposed, cues, Some(AcceptOffer), true, false) == Contract
  {
    assert HoldStage(Execution, proposed) == Execution;
  }
}
