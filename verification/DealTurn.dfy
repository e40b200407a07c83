/**
 One deal under client turns, quote runs and staff steps, one at a time: the hold that keeps an offer's price from the
 client until staff let it go, and the escalations that alert staff.
 */
module DealTurn {
  import opened Wrappers
  import opened Stages

  datatype Offer = NoOffer | QuotesPending | Priced(price: real)

  /**
   The deal's row, with the keys of its metadata that matter here. `heldPrice` is the price in pending_kp_messages.
   */
  datatype Deal = Deal(status: Status, previous: Option<Status>, paused: bool, takeover: bool, escalate: bool,
                       offer: Offer, kpHold: bool, heldPrice: Option<real>, rfqAttempted: bool, preflight: bool)

  const NEW_DEAL := Deal(Intake, None, false, false, false, NoOffer, false, None, false, false)

  /** The deal goes to a manager; its status is remembered. */
  function Escalated(d: Deal): Deal {
    d.(previous := Some(d.status), status := AwaitingManager, escalate := true)
  }

  datatype Reason =
    | GreyScheme | UrlUnresolved | MissingChannels | MissingInvoice | AmountThreshold | HumanKpApprove | OpsRequest
    | RfqPreflight | Named(text: string)

  datatype Escalation = Escalation(reason: Reason, pending: bool)

  /** What the gateway is told of an escalation; the RFQ preflight notice has no row behind it. */
  datatype Payload = Payload(id: Option<nat>, reason: Reason, duplicate: bool)

  /** The fixed texts, none of which states a price. */
  datatype Notice =
    | GreyRefused | ComplianceHold | RfqOnHold | CollectingRates | OpsRequestSent | SendTheLink
    | PreparingOffer | ManagerShowsFigure | OfferWithManager | ContractDraft | ContractAgreed | PaymentDetails
    | WhatToChange | PaymentNoted | TrackingReport | CompareLike | ClaimTaken | ContractBeingAgreed | WillComeBack

  /**
   A written line, with whether it asks to agree, whether it looks like a price, and whether it speaks of an invoice.
   */
  datatype Line = Line(text: string, invites: bool, price: bool, invoice: bool)

  /**
   A message to the client. Quote, Fixed and Reminder state the offer's price. Text is a line of the concierge or,
   `fixed`, one of the restrictions' own; it can look like a price, too.
   */
  datatype Reply =
    | Text(line: Line, fixed: bool)
    | Say(notice: Notice)
    | Quote(price: real)
    | Fixed(price: real)
    | Reminder(price: real)

  predicate Carries(r: Reply) { r.Quote? || r.Fixed? || r.Reminder? }

  predicate LooksPriced(r: Reply) { r.Text? && r.line.price }

  ghost predicate NoPrice(replies: seq<Reply>) { forall i :: 0 <= i < |replies| ==> !Carries(replies[i]) }

  ghost predicate NoPriceText(replies: seq<Reply>) { forall i :: 0 <= i < |replies| ==> !LooksPriced(replies[i]) }

  /** Nothing in it is invented: what looks like a price is about an invoice, or is the restrictions' own. */
  ghost predicate Sober(replies: seq<Reply>) {
    forall i :: 0 <= i < |replies| && LooksPriced(replies[i]) ==> replies[i].fixed || replies[i].line.invoice
  }

  ghost predicate Neutral(replies: seq<Reply>) { forall i :: 0 <= i < |replies| ==> replies[i].Say? }

  /** The old messages with fixed texts behind them. */
  ghost predicate Extended(replies: seq<Reply>, old_replies: seq<Reply>) {
    old_replies <= replies && forall i :: |old_replies| <= i < |replies| ==> replies[i].Say?
  }

  /** Messages that go with the deal as it is: no price, and while it is paused nothing that looks like one either. */
  ghost predicate Fit(d: Deal, replies: seq<Reply>) {
    NoPrice(replies) && (d.paused ==> NoPriceText(replies))
  }

  /** The quote's own text asks the client to agree. */
  predicate Invites(r: Reply) { r.Quote? || (r.Text? && r.line.invites) }

  /** A message sent, with what the offer was and whether staff had released it. */
  datatype Shown = Shown(reply: Reply, offer: Offer, released: bool)

  /** What a quote run meets on its way. `breaks` is a failure between saving the priced offer and saving its hold. */
  datatype QuoteInput = QuoteInput(customs: bool, compliance: Option<Reason>, stop: bool, rfqHold: bool, gated: bool,
                                   channels: bool, mock: bool, quotes: bool, dims: bool, price: real,
                                   missingInvoice: bool, aboveThreshold: bool, breach: Option<Reason>, breaks: bool)

  datatype QuoteOut = QuoteOut(deal: Deal, replies: seq<Reply>, escalate: bool, payload: Option<Payload>)

  /** What reading the message comes to: the concierge's answer, the restrictions, and what the text asks for. */
  datatype TurnInput = TurnInput(grey: bool, lines: seq<Line>, proposed: Status, hinted: Option<Intent>, cues: Cues,
                                 hardBlock: bool, restricted: bool, restrictionEscalates: bool, blockReason: Reason,
                                 notices: seq<Line>, note: Option<Line>, urlUnresolved: bool, ready: bool,
                                 fullQuote: bool, invoiceChanged: bool, opsOnly: bool,
                                 first: QuoteInput, second: QuoteInput) {
    predicate Hard() { hardBlock || restricted }

    predicate Quiet() { !grey && !Hard() && !urlUnresolved }
  }

  predicate Stops(q: QuoteInput) { q.customs && q.compliance.Some? && q.stop }

  predicate Prices(q: QuoteInput) { !Stops(q) && q.quotes && q.dims }

  // --- the concierge's lines

  /** Drops the lines that look like a price, other than those about an invoice. */
  function StripInvented(lines: seq<Line>): (r: seq<Line>)
    ensures forall l :: l in r <==> l in lines && (l.price ==> l.invoice)
  {
    if lines == [] then []
    else if lines[0].price && !lines[0].invoice then StripInvented(lines[1..])
    else [lines[0]] + StripInvented(lines[1..])
  }

  /** Line by line, in order: what is kept of two lists is what is kept of each. */
  lemma {:induction false} StripAppend(a: seq<Line>, b: seq<Line>)
    ensures StripInvented(a + b) == StripInvented(a) + StripInvented(b)
  {
    if a == [] {
      assert a + b == b;
    } else {
      assert (a + b)[1..] == a[1..] + b;
      StripAppend(a[1..], b);
    }
  }

  method StripInventedPrices(lines: seq<Line>) returns (out: seq<Line>)
    ensures out == StripInvented(lines)
  {
    out := [];
    for n := 0 to |lines|
      invariant out == StripInvented(lines[..n])
    {
      StripAppend(lines[..n], [lines[n]]);
      assert lines[..n + 1] == lines[..n] + [lines[n]] && [lines[n]][1..] == [];
      if lines[n].invoice {
        out := out + [lines[n]];
        continue;
      }
      if lines[n].price {
        continue;
      }
      out := out + [lines[n]];
    }
    assert lines[..|lines|] == lines;
  }

  function Texts(lines: seq<Line>, fixed: bool): seq<Reply> {
    seq(|lines|, i requires 0 <= i < |lines| => Text(lines[i], fixed))
  }

  /** The lines whose text is none of the others'. */
  function Without(lines: seq<Line>, others: seq<Line>): (r: seq<Line>)
    ensures forall l :: l in r ==> l in lines
  {
    if lines == [] then []
    else (if exists o :: o in others && o.text == lines[0].text then [] else [lines[0]]) + Without(lines[1..], others)
  }

  /** The messages before any quote: the concierge's, with the restrictions' in front or instead. */
  function Opening(t: TurnInput, lines: seq<Line>): seq<Reply> {
    if t.Hard() then
      if t.restricted && t.notices != [] then Texts(t.notices, true)
      else if t.note.Some? then Texts(lines, false) + [Text(t.note.value, true)] else Texts(lines, false)
    else if t.notices != [] then Texts(t.notices, true) + Texts(Without(lines, t.notices), false)
    else if t.note.Some? then Texts(lines, false) + [Text(t.note.value, true)] else Texts(lines, false)
  }

  /**
   What of the concierge reaches the client: every line that does not look like a price or speaks of an invoice, except
   under a restriction with texts of its own, which stand alone, and except a line that says the same as one of them.
   */
  lemma OpeningSays(t: TurnInput, l: Line)
    ensures var opening, own := Opening(t, StripInvented(t.lines)), t.notices != [] && (t.Hard() ==> t.restricted);
            && (Text(l, false) in opening <==>
                  l in t.lines && (l.price ==> l.invoice)
                  && (own ==> !t.Hard() && forall o :: o in t.notices ==> o.text != l.text))
            && (Text(l, true) in opening <==> if own then l in t.notices else t.note == Some(l))
  {
    var lines := StripInvented(t.lines);
    TextsAre(lines, false, l);
    TextsAre(t.notices, true, l);
    TextsAre(Without(lines, t.notices), false, l);
    WithoutIs(lines, t.notices, l);
    hide Texts, StripInvented, Without;
  }

  lemma TextsAre(lines: seq<Line>, fixed: bool, l: Line)
    ensures Text(l, fixed) in Texts(lines, fixed) <==> l in lines
    ensures Text(l, !fixed) !in Texts(lines, fixed)
  {
    if l in lines {
      var i :| 0 <= i < |lines| && lines[i] == l;
      assert Texts(lines, fixed)[i] == Text(l, fixed);
    }
  }

  lemma {:induction false} WithoutIs(lines: seq<Line>, others: seq<Line>, l: Line)
    ensures l in Without(lines, others) <==> l in lines && forall o :: o in others ==> o.text != l.text
  {
    if lines != [] {
      WithoutIs(lines[1..], others, l);
    }
  }

  lemma TextsSober(lines: seq<Line>, fixed: bool)
    requires fixed || forall i :: 0 <= i < |lines| ==> (lines[i].price ==> lines[i].invoice)
    ensures NoPrice(Texts(lines, fixed)) && Sober(Texts(lines, fixed))
  {
  }

  lemma SoberAppend(a: seq<Reply>, b: seq<Reply>)
    requires NoPrice(a) && Sober(a) && NoPrice(b) && Sober(b)
    ensures NoPrice(a + b) && Sober(a + b)
  {
  }

  /** The opening states no price of the deal, and is sober because the invented ones were dropped. */
  lemma OpeningIsSober(t: TurnInput)
    ensures var opening := Opening(t, StripInvented(t.lines));
            NoPrice(opening) && Sober(opening)
  {
    var lines := StripInvented(t.lines);
    var rest := Without(lines, t.notices);
    assert forall i :: 0 <= i < |lines| ==> lines[i] in lines;
    assert forall i :: 0 <= i < |rest| ==> rest[i] in rest && rest[i] in lines;
    TextsSober(t.notices, true);
    TextsSober(lines, false);
    TextsSober(rest, false);
    hide Texts, StripInvented, Without, NoPrice, Sober;
    SoberAppend(Texts(t.notices, true), Texts(rest, false));
    if t.note.Some? {
      NoteSober(t.note.value);
      SoberAppend(Texts(lines, false), [Text(t.note.value, true)]);
    }
  }

  lemma NoteSober(note: Line)
    ensures NoPrice([Text(note, true)]) && Sober([Text(note, true)])
  {
  }

  // --- escalations

  function PendingRow(rows: seq<Escalation>, reason: Reason): Option<nat> {
    if rows == [] then None
    else if rows[|rows| - 1] == Escalation(reason, true) then Some(|rows| - 1)
    else PendingRow(rows[..|rows| - 1], reason)
  }

  lemma {:induction false} PendingRowIs(rows: seq<Escalation>, reason: Reason)
    ensures var i := PendingRow(rows, reason);
            if i.Some? then i.value < |rows| && rows[i.value] == Escalation(reason, true)
            else Escalation(reason, true) !in rows
  {
    if rows != [] && rows[|rows| - 1] != Escalation(reason, true) {
      PendingRowIs(rows[..|rows| - 1], reason);
      assert rows == rows[..|rows| - 1] + [rows[|rows| - 1]];
    }
  }

  ghost predicate PendingUnique(rows: seq<Escalation>) {
    forall i, j :: 0 <= i < j < |rows| && rows[i].pending && rows[j].pending ==> rows[i].reason != rows[j].reason
  }

  /** Alerts are about rows that exist, each about another one. */
  ghost predicate AlertsOnce(alerts: seq<nat>, rows: nat) {
    && (forall i :: 0 <= i < |alerts| ==> alerts[i] < rows)
    && (forall i, j :: 0 <= i < j < |alerts| ==> alerts[i] != alerts[j])
  }

  /** Merges a quote run's escalation into the turn's: a duplicate never replaces one that is to be announced. */
  function MergeQuoteResult(out: QuoteOut, escalate: bool, payload: Option<Payload>): (bool, Option<Payload>) {
    if out.payload.Some? then
      if out.payload.value.duplicate then (escalate, if escalate then payload else out.payload)
      else (true, out.payload)
    else (escalate || out.escalate, payload)
  }

  /** The row that staff are alerted of. */
  function AlertOf(escalate: bool, payload: Option<Payload>): Option<nat> {
    if escalate && payload.Some? && !payload.value.duplicate then payload.value.id else None
  }

  /** What a quote run has to announce goes before what the turn had, and a duplicate or nothing takes nothing away. */
  lemma MergeAnnounces(out: QuoteOut, escalate: bool, payload: Option<Payload>)
    requires Consistent(escalate, payload) && Consistent(out.escalate, out.payload)
    ensures var (e, p) := MergeQuoteResult(out, escalate, payload);
            && AlertOf(e, p) == (if out.escalate then AlertOf(true, out.payload) else AlertOf(escalate, payload))
            && (e <==> escalate || out.escalate)
            && (out.escalate ==> p == out.payload)
  {
  }

  ghost predicate KpPending(rows: seq<Escalation>) { Escalation(HumanKpApprove, true) in rows }

  /** The run raises the approval of an offer as a violation of its own, too. */
  predicate NamesKp(q: QuoteInput) { q.compliance == Some(HumanKpApprove) || q.breach == Some(HumanKpApprove) }

  /** A pending escalation for the reason is to be announced. */
  ghost predicate Announced(reason: Reason, escalate: bool, payload: Option<Payload>, rows: seq<Escalation>) {
    var id := AlertOf(escalate, payload);
    id.Some? && id.value < |rows| && rows[id.value] == Escalation(reason, true)
  }

  /** Staff are alerted of that escalation, and of nothing else. */
  ghost predicate Alerted(reason: Reason, before: seq<nat>, alerts: seq<nat>, rows: seq<Escalation>) {
    exists id: nat :: alerts == before + [id] && id < |rows| && rows[id] == Escalation(reason, true)
  }

  /** An announced escalation, if it has a row, has one that was added since there were n. */
  ghost predicate News(escalate: bool, payload: Option<Payload>, n: nat, rows: nat) {
    n <= rows
    && (payload.Some? && payload.value.id.Some? && !payload.value.duplicate ==> n <= payload.value.id.value < rows)
  }

  /** Escalating goes with an escalation to announce. */
  predicate Consistent(escalate: bool, payload: Option<Payload>) {
    escalate <==> payload.Some? && !payload.value.duplicate
  }

  lemma MergeKeepsNews(out: QuoteOut, escalate: bool, payload: Option<Payload>, n: nat, middle: nat, rows: nat)
    requires News(escalate, payload, n, middle) && News(out.escalate, out.payload, middle, rows)
    requires Consistent(escalate, payload) && Consistent(out.escalate, out.payload)
    ensures var (e, p) := MergeQuoteResult(out, escalate, payload); News(e, p, n, rows) && Consistent(e, p)
  {
  }

  /** The status a decision leaves: as asked for, or as it was before the escalation, or the usual one; or cancelled. */
  function Decided(d: Deal, rfq: bool, approved: bool, resume: Option<Status>): Status {
    if approved then resume.GetOr(d.previous.GetOr(if rfq then Quoting else Negotiation))
    else if rfq then d.previous.GetOr(Quoting)
    else Cancelled
  }

  /** What pricing must bring before a manager is pending. */
  predicate RaisedPricing(q: QuoteInput, rows: seq<Escalation>) {
    && (q.customs && q.missingInvoice ==> Escalation(MissingInvoice, true) in rows)
    && (q.aboveThreshold ==> Escalation(AmountThreshold, true) in rows)
    && (q.breach.Some? ==> Escalation(q.breach.value, true) in rows)
  }

  lemma RowsStay(rows: seq<Escalation>, more: seq<Escalation>)
    requires rows <= more
    ensures forall r :: r in rows ==> r in more
  {
    forall r | r in rows
      ensures r in more
    {
      var i :| 0 <= i < |rows| && rows[i] == r;
      assert more[i] == r;
    }
  }

  lemma NewsGrows(escalate: bool, payload: Option<Payload>, n: nat, rows: nat, more: nat)
    requires News(escalate, payload, n, rows) && rows <= more
    ensures News(escalate, payload, n, more)
  {
  }

  lemma NoNews(n: nat, rows: nat)
    requires n <= rows
    ensures News(false, None, n, rows) && Consistent(false, None)
  {
  }

  lemma NoRowNews(n: nat, rows: nat)
    requires n <= rows
    ensures var p := Some(Payload(None, RfqPreflight, false)); News(true, p, n, rows) && Consistent(true, p)
  {
  }

  // --- prices

  /** With approval required, a priced deal that is not paused has been released. */
  ghost predicate Held(d: Deal, released: bool) {
    d.offer.Priced? && !d.paused ==> released
  }

  /** The price kept back is the offer's, unless the offer is pending again. */
  predicate HeldFits(d: Deal) {
    d.heldPrice.Some? && !d.offer.QuotesPending? ==> d.offer == Priced(d.heldPrice.value)
  }

  /** A price went out only once it was released, and so did a text that looks like one while the deal was priced. */
  ghost predicate NoLeak(log: seq<Shown>) {
    forall i :: 0 <= i < |log| ==>
      && (Carries(log[i].reply) ==> log[i].released)
      && (LooksPriced(log[i].reply) && log[i].offer.Priced? ==> log[i].released)
  }

  /** No invented price ever went out. */
  ghost predicate NothingInvented(log: seq<Shown>) {
    forall i :: 0 <= i < |log| && LooksPriced(log[i].reply) ==> log[i].reply.fixed || log[i].reply.line.invoice
  }

  /** The quotes are pending: no price, no pause, and what was held before still is. */
  predicate LeftPending(before: Deal, after: Deal) {
    && after.offer.QuotesPending? && !after.paused && after.escalate == after.preflight && after.rfqAttempted
    && after.status == (if after.preflight then AwaitingManager else Quoting)
    && after.takeover == before.takeover && after.kpHold == before.kpHold && after.heldPrice == before.heldPrice
  }

  /** The offer has the price, and unless saving broke off it is held where approval is required. */
  predicate PricedAs(before: Deal, after: Deal, price: real, discount: bool, approval: bool, broke: bool) {
    && after.offer == Priced(price) && after.takeover == before.takeover && after.rfqAttempted
    && if approval && !broke
       then after.status == AwaitingManager && after.paused && after.escalate && after.kpHold
            && after.heldPrice == Some(price)
       else after.status == (if discount then Negotiation else Pricing) && after.paused == before.paused
            && after.kpHold == before.kpHold && after.heldPrice == before.heldPrice
  }

  function Saved(d: Deal, price: real, discount: bool): Deal {
    d.(status := if discount then Negotiation else Pricing, offer := Priced(price), rfqAttempted := true)
  }

  lemma SavedIsPriced(before: Deal, previous: Option<Status>, price: real, discount: bool, approval: bool, broke: bool)
    ensures var saved := Saved(before, price, discount);
            if approval && !broke
            then
              var held := saved.(status := AwaitingManager, previous := previous, escalate := true, paused := true,
                                 kpHold := true, heldPrice := Some(price));
              PricedAs(before, held, price, discount, true, false)
            else PricedAs(before, saved, price, discount, approval, broke)
  {
  }

  /** Neither result depends on what preparing the run may have changed. */
  lemma EffectOfPreparing(before: Deal, prepared: Deal, after: Deal, price: real, discount: bool, approval: bool,
                          broke: bool)
    requires prepared == before.(status := prepared.status, previous := prepared.previous,
                                 escalate := prepared.escalate, preflight := prepared.preflight)
    ensures LeftPending(prepared, after) ==> LeftPending(before, after)
    ensures PricedAs(prepared, after, price, discount, approval, broke) ==>
              PricedAs(before, after, price, discount, approval, broke)
  {
  }

  /** Messages that may go out for the deal as it is. */
  ghost predicate Cleared(d: Deal, replies: seq<Reply>, released: bool) {
    && (NoPrice(replies) || released)
    && (NoPriceText(replies) || (d.offer.Priced? ==> released))
  }

  lemma FitIsCleared(d: Deal, replies: seq<Reply>, released: bool)
    requires Held(d, released) && Fit(d, replies)
    ensures Cleared(d, replies, released)
  {
  }

  lemma NeutralFits(d: Deal, replies: seq<Reply>)
    requires Neutral(replies)
    ensures Fit(d, replies) && Sober(replies)
  {
  }

  lemma ExtendedFits(d: Deal, replies: seq<Reply>, old_replies: seq<Reply>)
    requires Extended(replies, old_replies)
    ensures Fit(d, old_replies) ==> Fit(d, replies)
    ensures Sober(old_replies) ==> Sober(replies)
  {
  }

  lemma ExtendedTwice(a: seq<Reply>, b: seq<Reply>, c: seq<Reply>)
    requires Extended(a, b) && Extended(b, c)
    ensures Extended(a, c)
  {
  }

  lemma FitReads(before: Deal, after: Deal, replies: seq<Reply>)
    requires after.paused == before.paused
    ensures Fit(before, replies) ==> Fit(after, replies)
  {
  }

  lemma QuoteIsSober(price: real)
    ensures Sober([Quote(price)])
  {
  }

  lemma SayFits(d: Deal, notice: Notice, released: bool)
    ensures Cleared(d, [Say(notice)], released) && Sober([Say(notice)])
  {
  }

  lemma OneExtends(replies: seq<Reply>, notice: Notice)
    ensures Extended(replies, replies) && Extended(replies + [Say(notice)], replies)
  {
  }

  /**
   Prices that the lifecycle states come from an offer that is not paused, hence released; it invents nothing; and
   beside its own texts it says nothing but what it was given.
   */
  lemma LifecycleCleared(hold: bool, d: Deal, cues: Cues, hinted: Option<Intent>, replies: seq<Reply>,
                         before: Deal, after: Deal, released: bool)
    requires hold ==> Fit(before, replies) && Held(before, released)
    requires d == before.(status := d.status, previous := d.previous, escalate := d.escalate)
    requires d.paused ==> d.status.AwaitingManager?
    requires after == before.(status := after.status)
    ensures hold ==> Cleared(after, LifecycleReplies(d, IntentOf(d, cues, hinted), replies), released)
    ensures hold ==> Held(after, released) && Fit(after, replies)
    ensures Sober(replies) ==> Sober(LifecycleReplies(d, IntentOf(d, cues, hinted), replies))
  {
    hide DetectClientIntent, Invites;
  }

  /** Exactly when the lifecycle states the price of a deal. */
  lemma PriceStatedExactly(d: Deal, intent: Intent, replies: seq<Reply>)
    requires NoPrice(replies)
    ensures !NoPrice(LifecycleReplies(d, intent, replies))
            <==> d.offer.Priced?
                 && ((intent.AcceptOffer? && !d.escalate && !d.paused && !d.kpHold)
                     || (intent.Question? && (d.status.Negotiation? || d.status.Pricing?)
                         && !exists r :: r in replies && Invites(r)))
  {
    var answers := LifecycleReplies(d, intent, replies);
    if intent.AcceptOffer? && d.offer.Priced? && !Guarded(d.escalate, d.paused, d.kpHold) {
      assert Carries(answers[0]);
    } else if intent.Question? && d.offer.Priced? && (d.status.Negotiation? || d.status.Pricing?)
              && !exists r :: r in replies && Invites(r) {
      assert Carries(answers[|replies|]);
    }
  }

  /**
   The hold in the metadata guards only the acceptance: once the pause is off, a question is answered with the price.
   */
  lemma KpHoldGuardsAcceptanceOnly(d: Deal, price: real, replies: seq<Reply>)
    requires d.kpHold && !d.paused && d.offer == Priced(price) && d.status.Pricing?
    requires NoPrice(replies) && forall r :: r in replies ==> !Invites(r)
    ensures NoPrice(LifecycleReplies(d, AcceptOffer, replies))
    ensures Reminder(price) in LifecycleReplies(d, Question, replies)
  {
    assert LifecycleReplies(d, Question, replies)[|replies|] == Reminder(price);
  }

  lemma LogKeepsNoLeak(log: seq<Shown>, replies: seq<Reply>, d: Deal, released: bool)
    ensures NoLeak(log) && Cleared(d, replies, released) ==> NoLeak(log + LogOf(replies, d.offer, released))
    ensures NothingInvented(log) && Sober(replies) ==> NothingInvented(log + LogOf(replies, d.offer, released))
  {
  }

  lemma AlertAdded(alerts: seq<nat>, id: nat, n: nat, rows: nat)
    requires AlertsOnce(alerts, n) && n <= id < rows
    ensures AlertsOnce(alerts + [id], rows)
  {
  }

  function LogOf(replies: seq<Reply>, offer: Offer, released: bool): seq<Shown> {
    seq(|replies|, i requires 0 <= i < |replies| => Shown(replies[i], offer, released))
  }

  function IntentOf(d: Deal, cues: Cues, hinted: Option<Intent>): Intent {
    DetectClientIntent(cues, d.status, d.offer.Priced?, hinted)
  }

  function NextStatus(d: Deal, cues: Cues, hinted: Option<Intent>): Option<Status> {
    Advance(IntentOf(d, cues, hinted), d.status, d.offer.Priced?, Guarded(d.escalate, d.paused, d.kpHold))
  }

  /** The status that a turn without quotes and escalations leads to. */
  function QuietStatus(d: Deal, t: TurnInput): Status {
    QuietTurnStatus(d.status, t.proposed, t.cues, t.hinted, d.offer.Priced?, Guarded(d.escalate, d.paused, d.kpHold))
  }

  lemma QuietIsNext(d: Deal, t: TurnInput)
    ensures var held := d.(status := HoldStage(d.status, t.proposed));
            held.(status := NextStatus(held, t.cues, t.hinted).GetOr(held.status)) == d.(status := QuietStatus(d, t))
  {
  }

  /** What the lifecycle answers. A price is stated only where the offer is fixed or the client is reminded of it. */
  function LifecycleReplies(d: Deal, intent: Intent, replies: seq<Reply>): seq<Reply> {
    if intent.Recalculate? then replies
    else if intent.AcceptOffer? && d.offer.Priced? then
      if Guarded(d.escalate, d.paused, d.kpHold) then [Say(OfferWithManager)]
      else [Fixed(d.offer.price), Say(ContractDraft)]
    else if intent.AcceptContract? || (intent.AcceptOffer? && d.status.Contract?) then
      [Say(ContractAgreed), Say(PaymentDetails)]
    else if intent.RequestContractChange? then
      if replies != [] then replies else [Say(WhatToChange)]
    else if intent.PaymentSent? then [Say(PaymentNoted), Say(TrackingReport)]
    else if intent.Tracking? then [Say(TrackingReport)]
    else if intent.RequestDiscount? then
      if COMPARE in replies then replies else [COMPARE] + replies
    else if intent.Claim? then [Say(ClaimTaken)]
    else if intent.Question? && d.offer.Priced? && (d.status.Negotiation? || d.status.Pricing?) then
      if exists r :: r in replies && Invites(r) then replies else replies + [Reminder(d.offer.price)]
    else if replies == [] && d.status.Contract? then [Say(ContractBeingAgreed)]
    else if replies == [] && d.status.Execution? then [Say(TrackingReport)]
    else replies
  }

  const COMPARE := Say(CompareLike)

  /**
   A client whose deal goes on is told so, and to what; one who asks for a discount or complains is answered; and what
   was written to a client who only asks is kept.
   */
  lemma LifecycleTells(d: Deal, cues: Cues, hinted: Option<Intent>, replies: seq<Reply>)
    ensures var intent, next := IntentOf(d, cues, hinted), NextStatus(d, cues, hinted);
            var answers := LifecycleReplies(d, intent, replies);
            && (next == Some(Contract) ==> answers == [Fixed(d.offer.price), Say(ContractDraft)])
            && (next == Some(Execution) ==>
                  answers == [Say(if intent.PaymentSent? then PaymentNoted else ContractAgreed),
                              Say(if intent.PaymentSent? then TrackingReport else PaymentDetails)])
            && (next.None? && intent.AcceptOffer? && d.offer.Priced? ==> answers == [Say(OfferWithManager)])
            && (intent.Tracking? ==> answers == [Say(TrackingReport)])
            && (intent.Claim? ==> answers == [Say(ClaimTaken)])
            && (intent.RequestDiscount? ==> COMPARE in answers && forall r :: r in replies ==> r in answers)
            && (intent.RequestContractChange? && replies == [] ==> answers == [Say(WhatToChange)])
            && (intent.Question? || intent.RejectOffer? || intent.Recalculate? ==> replies <= answers)
  {
  }

  /** The answers of a turn without quotes and escalations. */
  function QuietReplies(held: Deal, t: TurnInput): seq<Reply> {
    LifecycleReplies(held, IntentOf(held, t.cues, t.hinted), Opening(t, StripInvented(t.lines)))
  }

  /** The turn's first quote comes to a price that is to be held, with no approval pending yet. */
  ghost predicate HoldsFirst(t: TurnInput, rows: seq<Escalation>) {
    !t.opsOnly && Prices(t.first) && !t.first.breaks && !NamesKp(t.first) && !KpPending(rows)
  }

  /** An escalation changes nothing that the turn after it reads, but the status. */
  lemma EscalationReads(t: TurnInput, before: Deal, after: Deal, held: Status, replies: seq<Reply>, released: bool)
    requires after == before.(status := after.status, previous := after.previous, escalate := after.escalate)
    ensures Due(t, after, held) == Due(t, before, held) && HeldFits(after) == HeldFits(before)
    ensures Held(after, released) == Held(before, released) && Fit(after, replies) == Fit(before, replies)
  {
  }

  lemma HoldsFirstReads(t: TurnInput, rows: seq<Escalation>, more: seq<Escalation>)
    requires KpPending(rows) == KpPending(more)
    ensures HoldsFirst(t, rows) == HoldsFirst(t, more)
  {
  }

  lemma HoldsFirstMeans(t: TurnInput, rows: seq<Escalation>)
    ensures HoldsFirst(t, rows) ==>
              !t.opsOnly && Prices(t.first) && !t.first.breaks && !NamesKp(t.first) && !KpPending(rows)
  {
  }

  predicate WantsRecalculation(t: TurnInput) { t.hinted == Some(Recalculate) || t.invoiceChanged }

  predicate MayQuote(t: TurnInput, held: Status) { t.ready && !Late(held) }

  /** A first quote of the turn is due. */
  predicate Due(t: TurnInput, d: Deal, held: Status) {
    MayQuote(t, held)
    && ((!d.rfqAttempted && !d.offer.Priced?) || WantsRecalculation(t)
        || (t.hinted == Some(RequestDiscount) && d.offer.Priced?) || (t.fullQuote && !d.offer.Priced?))
  }

  /** The words of the message ask for another price, where neither the hint nor the cargo did. */
  predicate Recalls(t: TurnInput) {
    t.hinted.None? && !t.invoiceChanged
    && !t.cues.tracking && !t.cues.payment && !t.cues.claim && t.cues.recalculate
  }

  /** The turn makes no quote. */
  predicate QuoteFree(t: TurnInput, held: Deal) {
    !Due(t, held, held.status) && !(MayQuote(t, held.status) && Recalls(t))
  }

  predicate StaysLate(before: Status, after: Status) {
    Late(before) ==> Late(after) && (before.Execution? ==> after.Execution?)
  }

  /** A turn in a late stage makes no quote, and without a hint it keeps the stage. */
  lemma LateTurn(before: Deal, after: Deal, replies: seq<Reply>, broke: bool, t: TurnInput)
    requires t.Quiet() ==> Unquoted(before, after, replies, broke, t)
    ensures t.Quiet() && t.hinted.None? && !Terminal(t.proposed) ==> StaysLate(before.status, after.status)
  {
    if Late(before.status) && t.hinted.None? && !Terminal(t.proposed) {
      LateStaysLate(before.status, t.proposed, t.cues, before.offer.Priced?,
                    Guarded(before.escalate, before.paused, before.kpHold));
      assert QuoteFree(t, before.(status := HoldStage(before.status, t.proposed)));
    }
  }

  lemma DueMeans(t: TurnInput, d: Deal, held: Status)
    ensures Due(t, d, held) <==>
            t.ready && !Late(held)
            && ((!d.rfqAttempted && !d.offer.Priced?) || WantsRecalculation(t)
                || (t.hinted == Some(RequestDiscount) && d.offer.Priced?) || (t.fullQuote && !d.offer.Priced?))
  {
  }

  lemma RecallsIs(d: Deal, t: TurnInput)
    ensures Recalls(t) <==> IntentOf(d, t.cues, t.hinted).Recalculate? && !WantsRecalculation(t)
  {
  }

  // --- what a turn comes to

  /** A hard block sends the deal to the manager, or, as a duplicate or without an escalation, back to intake. */
  predicate Blocked(before: Deal, rows: seq<Escalation>, after: Deal, t: TurnInput) {
    var e := (t.restrictionEscalates || t.hardBlock) && Escalation(t.blockReason, true) !in rows;
    var held := before.(status := HoldStage(before.status, t.proposed));
    after == if e then Escalated(held) else held.(status := Intake)
  }

  /** Where no quote is made, only the intent moves the deal, and it answers. */
  predicate Unquoted(before: Deal, after: Deal, replies: seq<Reply>, broke: bool, t: TurnInput) {
    var held := before.(status := HoldStage(before.status, t.proposed));
    QuoteFree(t, held) ==>
      !broke && after == before.(status := QuietStatus(before, t)) && replies == QuietReplies(held, t)
  }

  /** The offer is what the quote that was due came to. */
  predicate Quoted(before: Deal, after: Deal, t: TurnInput) {
    var held := before.(status := HoldStage(before.status, t.proposed));
    Due(t, held, held.status) && !t.opsOnly && !Stops(t.first) && !Recalls(t) ==>
      after.offer == if Prices(t.first) then Priced(t.first.price) else QuotesPending
  }

  /** A first quote is due, and it comes to a price that is to be held and that nobody has been asked to approve yet. */
  ghost predicate HeldInTurn(before: Deal, rows: seq<Escalation>, t: TurnInput) {
    var held := before.(status := HoldStage(before.status, t.proposed));
    Due(t, held, held.status) && HoldsFirst(t, rows) && !Recalls(t)
  }

  /**
   What staff are told of after a turn, where the turn alone decides it: the grey scheme, the block, the price that is
   held, or, where no quote is made, the link that could not be read; each unless it is pending already.
   */
  ghost function Tells(before: Deal, rows: seq<Escalation>, approval: bool, t: TurnInput): Option<Reason> {
    var held := before.(status := HoldStage(before.status, t.proposed));
    if t.grey then Unless(GreyScheme, rows)
    else if t.Hard() then (if t.restrictionEscalates || t.hardBlock then Unless(t.blockReason, rows) else None)
    else if approval && HeldInTurn(before, rows, t) then Some(HumanKpApprove)
    else if t.urlUnresolved && QuoteFree(t, held) then Unless(UrlUnresolved, rows)
    else None
  }

  ghost function Unless(reason: Reason, rows: seq<Escalation>): Option<Reason> {
    if Escalation(reason, true) in rows then None else Some(reason)
  }

  lemma BrokenIsQuoted(before: Deal, after: Deal, replies: seq<Reply>, other: seq<Reply>, t: TurnInput)
    ensures Unquoted(before, after, replies, true, t) ==> Unquoted(before, after, other, false, t)
  {
  }

  class DealDesk {
    const requireApproval: bool
    var row: Deal
    var rows: seq<Escalation>
    var alerts: seq<nat>
    ghost var released: bool
    ghost var intact: bool
    ghost var whole: bool
    ghost var single: bool
    ghost var log: seq<Shown>

    /**
     `whole` says that no quote run has broken off between its two writes, and `intact` that none has while the deal was
     not paused; as long as that holds and approval is required, every message that states a price was sent after staff
     released it. `single` says that no escalation was put in by hand beside a pending one of its reason.
     */
    ghost predicate Valid()
      reads this
    {
      && (single ==> PendingUnique(rows)) && AlertsOnce(alerts, |rows|) && NothingInvented(log)
      && (requireApproval && intact ==> Held(row, released) && NoLeak(log))
      && (requireApproval && whole ==> HeldFits(row))
    }

    constructor (requireApproval: bool)
      ensures Valid() && this.requireApproval == requireApproval && intact && whole && single
      ensures row == NEW_DEAL && log == [] && alerts == [] && rows == []
    {
      this.requireApproval := requireApproval;
      row := NEW_DEAL;
      rows, alerts, released, intact, whole, single, log := [], [], false, true, true, true, [];
    }

    method CreateEscalation(reason: Reason) returns (p: Payload)
      modifies this`row, this`rows
      ensures old(PendingUnique(rows)) ==> PendingUnique(rows)
      ensures p.reason == reason && p.id.Some? && old(rows) <= rows
      ensures p.duplicate <==> Escalation(reason, true) in old(rows)
      ensures p.duplicate ==> rows == old(rows) && row == old(row)
                              && p.id.value < |rows| && rows[p.id.value] == Escalation(reason, true)
      ensures !p.duplicate ==> rows == old(rows) + [Escalation(reason, true)] && p.id.value == |old(rows)|
                               && row == Escalated(old(row))
    {
      var existing := PendingRow(rows, reason);
      PendingRowIs(rows, reason);
      if existing.Some? {
        return Payload(existing, reason, true);
      }
      row := Escalated(row);
      rows := rows + [Escalation(reason, true)];
      return Payload(Some(|rows| - 1), reason, false);
    }

    /** Creates an escalation to announce, unless it is a duplicate. `n` counts the rows before the turn. */
    method Raise(reason: Reason, ghost n: nat) returns (e: bool, p: Option<Payload>)
      requires n <= |rows|
      modifies this`row, this`rows
      ensures (old(PendingUnique(rows)) ==> PendingUnique(rows)) && old(rows) <= rows && |old(rows)| <= |rows|
      ensures News(e, p, n, |rows|) && Consistent(e, p)
      ensures e <==> Escalation(reason, true) !in old(rows)
      ensures Escalation(reason, true) in rows && p.Some? && p.value.reason == reason
      ensures row == if e then Escalated(old(row)) else old(row)
      ensures e ==> Announced(reason, e, p, rows)
      ensures !reason.HumanKpApprove? ==> KpPending(rows) == old(KpPending(rows))
    {
      var esc := CreateEscalation(reason);
      e, p := !esc.duplicate, Some(esc);
    }

    method RaiseIf(c: bool, reason: Reason, escalate: bool, payload: Option<Payload>, ghost n: nat)
      returns (e: bool, p: Option<Payload>)
      requires n <= |rows| && News(escalate, payload, n, |rows|) && Consistent(escalate, payload)
      modifies this`row, this`rows
      ensures (old(PendingUnique(rows)) ==> PendingUnique(rows)) && old(rows) <= rows && |old(rows)| <= |rows|
      ensures News(e, p, n, |rows|) && Consistent(e, p)
      ensures row == old(row).(status := row.status, previous := row.previous, escalate := row.escalate)
      ensures !c ==> row == old(row) && e == escalate && p == payload
      ensures c ==> Escalation(reason, true) in rows && p.Some? && p.value.reason == reason
      ensures !c || !reason.HumanKpApprove? ==> KpPending(rows) == old(KpPending(rows))
      ensures c && Escalation(reason, true) !in old(rows) ==> Announced(reason, e, p, rows)
      ensures !c ==> rows == old(rows)
    {
      hide PendingUnique, News, Consistent, KpPending, Announced;
      e, p := escalate, payload;
      if c {
        e, p := Raise(reason, n);
      }
    }

    /** Buyout or sourcing without a freight price. */
    method RunOpsRfq(ghost n: nat) returns (out: QuoteOut)
      requires n <= |rows|
      modifies this`row, this`rows
      ensures (old(PendingUnique(rows)) ==> PendingUnique(rows)) && old(rows) <= rows && |old(rows)| <= |rows|
      ensures News(out.escalate, out.payload, n, |rows|) && Consistent(out.escalate, out.payload)
      ensures row == old(row).(status := AwaitingManager, previous := row.previous, rfqAttempted := true,
                               escalate := row.escalate)
      ensures out.deal == row && Neutral(out.replies) && Escalation(OpsRequest, true) in rows
    {
      hide PendingUnique, News, Consistent;
      var e, p := Raise(OpsRequest, n);
      row := row.(status := AwaitingManager, rfqAttempted := true);
      return QuoteOut(row, [Say(OpsRequestSent), Say(SendTheLink)], e, p);
    }

    /** Records the escalations that pricing can raise, the later ones over the earlier. */
    method EscalatePricing(q: QuoteInput, escalate: bool, payload: Option<Payload>, ghost n: nat)
      returns (e: bool, p: Option<Payload>)
      requires n <= |rows| && News(escalate, payload, n, |rows|) && Consistent(escalate, payload)
      modifies this`row, this`rows
      ensures (old(PendingUnique(rows)) ==> PendingUnique(rows)) && old(rows) <= rows && |old(rows)| <= |rows|
      ensures News(e, p, n, |rows|) && Consistent(e, p)
      ensures row == old(row).(status := row.status, previous := row.previous, escalate := row.escalate)
      ensures RaisedPricing(q, rows)
      ensures if !(q.customs && q.missingInvoice) && !q.aboveThreshold && q.breach.None?
              then p == payload && e == escalate
              else p.Some? && p.value.reason == if q.breach.Some? then q.breach.value
                                                else if q.aboveThreshold then AmountThreshold else MissingInvoice
      ensures !NamesKp(q) ==> KpPending(rows) == old(KpPending(rows))
    {
      hide PendingUnique, News, Consistent, KpPending;
      e, p := RaiseIf(q.customs && q.missingInvoice, MissingInvoice, escalate, payload, n);
      ghost var first := rows;
      e, p := RaiseIf(q.aboveThreshold, AmountThreshold, e, p, n);
      ghost var second := rows;
      e, p := RaiseIf(q.breach.Some?, q.breach.GetOr(Named("")), e, p, n);
      RowsStay(first, second);
      RowsStay(second, rows);
    }

    /** Saves the priced offer and, where approval is required, then holds it; `broke` tells that it got no further. */
    method SavePriced(q: QuoteInput, discount: bool, escalate: bool, payload: Option<Payload>, ghost n: nat)
      returns (out: QuoteOut, broke: bool)
      requires n <= |rows| && News(escalate, payload, n, |rows|) && Consistent(escalate, payload)
      modifies this`row, this`rows, this`released, this`intact
      ensures (old(PendingUnique(rows)) ==> PendingUnique(rows)) && old(rows) <= rows && |old(rows)| <= |rows|
      ensures News(out.escalate, out.payload, n, |rows|) && Consistent(out.escalate, out.payload)
      ensures broke == (requireApproval && q.breaks) && !released
      ensures intact == (old(intact) && (!broke || old(row.paused)))
      ensures out.deal == row && PricedAs(old(row), row, q.price, discount, requireApproval, broke)
      ensures if requireApproval then Neutral(out.replies) else out.replies == [Quote(q.price)]
      ensures requireApproval && !broke ==> Escalation(HumanKpApprove, true) in rows
      ensures requireApproval && !broke && !old(KpPending(rows)) ==>
                Announced(HumanKpApprove, out.escalate, out.payload, rows)
    {
      hide PendingUnique, News, Consistent, PricedAs, Announced;
      row := Saved(row, q.price, discount);
      released := false;
      broke := requireApproval && q.breaks;
      intact := intact && (!broke || row.paused);
      SavedIsPriced(old(row), None, q.price, discount, requireApproval, broke);
      hide Saved;
      if broke {
        out := QuoteOut(row, [], escalate, payload);
      } else if requireApproval {
        out := HoldForApproval(q.price, n);
        SavedIsPriced(old(row), row.previous, q.price, discount, requireApproval, broke);
      } else {
        out := QuoteOut(row, [Quote(q.price)], escalate, payload);
      }
    }

    /** Pauses the deal with the price kept back until a manager approves it. */
    method HoldForApproval(price: real, ghost n: nat) returns (out: QuoteOut)
      requires n <= |rows|
      modifies this`row, this`rows
      ensures (old(PendingUnique(rows)) ==> PendingUnique(rows)) && old(rows) <= rows && |old(rows)| <= |rows|
      ensures News(out.escalate, out.payload, n, |rows|) && Consistent(out.escalate, out.payload)
      ensures row == old(row).(status := AwaitingManager, previous := row.previous, escalate := true, paused := true,
                               kpHold := true, heldPrice := Some(price))
      ensures out.deal == row && Neutral(out.replies) && Escalation(HumanKpApprove, true) in rows
      ensures !old(KpPending(rows)) ==> Announced(HumanKpApprove, out.escalate, out.payload, rows)
    {
      hide PendingUnique, News, Consistent, Announced;
      var e, p := Raise(HumanKpApprove, n);
      row := row.(status := AwaitingManager, escalate := true, paused := true, kpHold := true,
                  heldPrice := Some(price));
      return QuoteOut(row, [Say(PreparingOffer), Say(ManagerShowsFigure)], e, p);
    }

    /** The compliance check of goods that need customs; the deal is given as read before it is escalated. */
    method CheckCompliance(q: QuoteInput, replies: seq<Reply>, ghost n: nat)
      returns (deal: Deal, kept: seq<Reply>, escalate: bool, payload: Option<Payload>)
      requires n <= |rows|
      modifies this`row, this`rows
      ensures (old(PendingUnique(rows)) ==> PendingUnique(rows)) && old(rows) <= rows && |old(rows)| <= |rows|
      ensures News(escalate, payload, n, |rows|) && Consistent(escalate, payload)
      ensures row == old(row).(status := row.status, previous := row.previous, escalate := row.escalate)
      ensures Extended(kept, replies) && deal == old(row).(status := Quoting)
      ensures q.customs && q.compliance.Some? ==> Escalation(q.compliance.value, true) in rows
      ensures !NamesKp(q) ==> KpPending(rows) == old(KpPending(rows))
    {
      NoNews(n, |rows|);
      OneExtends(replies, ComplianceHold);
      hide PendingUnique, News, Consistent, Extended, KpPending, Announced;
      row := row.(status := if q.customs then Customs else Quoting);
      kept, escalate, payload := replies, false, None;
      if q.customs {
        row := row.(status := Quoting);
      }
      deal := row;
      if q.customs && q.compliance.Some? {
        escalate, payload := Raise(q.compliance.value, n);
        kept := kept + [Say(ComplianceHold)];
      }
    }

    /** The part of a quote run before prices: compliance, the RFQ and missing channels. */
    method Prepare(sendRfq: bool, q: QuoteInput, replies: seq<Reply>, ghost n: nat)
      returns (deal: Deal, kept: seq<Reply>, escalate: bool, payload: Option<Payload>)
      requires n <= |rows|
      modifies this`row, this`rows
      ensures (old(PendingUnique(rows)) ==> PendingUnique(rows)) && old(rows) <= rows && |old(rows)| <= |rows|
      ensures News(escalate, payload, n, |rows|) && Consistent(escalate, payload)
      ensures row == old(row).(status := row.status, previous := row.previous, escalate := row.escalate,
                               preflight := row.preflight)
      ensures Extended(kept, replies)
      ensures Stops(q) ==> deal == old(row).(status := Quoting) && row.preflight == old(row.preflight)
      ensures row.preflight <==> old(row.preflight) || (!Stops(q) && sendRfq && !q.rfqHold && q.gated)
      ensures !NamesKp(q) ==> KpPending(rows) == old(KpPending(rows))
    {
      hide PendingUnique, News, Consistent, Extended, Stops, KpPending, NamesKp;
      deal, kept, escalate, payload := CheckCompliance(q, replies, n);
      if !Stops(q) {
        ghost var checked := kept;
        kept, escalate, payload := AskSuppliers(sendRfq, q, kept, escalate, payload, n);
        ExtendedTwice(kept, checked, replies);
        deal := row;
      }
    }

    /** Mails the RFQ unless staff hold it back or must see it first, and escalates when there is nobody to ask. */
    method AskSuppliers(sendRfq: bool, q: QuoteInput, replies: seq<Reply>, escalate: bool, payload: Option<Payload>,
                        ghost n: nat)
      returns (kept: seq<Reply>, e: bool, p: Option<Payload>)
      requires n <= |rows| && News(escalate, payload, n, |rows|) && Consistent(escalate, payload)
      modifies this`row, this`rows
      ensures (old(PendingUnique(rows)) ==> PendingUnique(rows)) && old(rows) <= rows && |old(rows)| <= |rows|
      ensures News(e, p, n, |rows|) && Consistent(e, p)
      ensures row == old(row).(status := row.status, previous := row.previous, escalate := row.escalate,
                               preflight := row.preflight)
      ensures Extended(kept, replies)
      ensures row.preflight <==> old(row.preflight) || (sendRfq && !q.rfqHold && q.gated)
      ensures KpPending(rows) == old(KpPending(rows))
    {
      NoRowNews(n, |rows|);
      OneExtends(replies, RfqOnHold);
      hide PendingUnique, News, Consistent, Extended, KpPending, Announced;
      kept, e, p := replies, escalate, payload;
      if sendRfq {
        if q.rfqHold {
          kept := kept + [Say(RfqOnHold)];
          e, p := true, Some(Payload(None, RfqPreflight, false));
        } else if q.gated {
          row := row.(preflight := true, status := AwaitingManager, escalate := true);
          ghost var before := |rows|;
          var raised, unsent := Raise(RfqPreflight, n);
          NewsGrows(e, p, n, before, |rows|);
        }
      }
      var reachable := q.channels || q.quotes || row.preflight || (sendRfq && q.rfqHold);
      e, p := RaiseIf(!reachable && !q.mock, MissingChannels, e, p, n);
    }

    /** The part of a quote run that ends it: the offer stays pending without quotes or dimensions, or is priced. */
    method Conclude(discount: bool, q: QuoteInput, escalate: bool, payload: Option<Payload>, ghost n: nat)
      returns (out: QuoteOut, broke: bool)
      requires n <= |rows| && News(escalate, payload, n, |rows|) && Consistent(escalate, payload)
      modifies this`row, this`rows, this`released, this`intact
      ensures (old(PendingUnique(rows)) ==> PendingUnique(rows)) && old(rows) <= rows && |old(rows)| <= |rows|
      ensures News(out.escalate, out.payload, n, |rows|) && Consistent(out.escalate, out.payload)
      ensures out.deal == row && broke == (requireApproval && q.quotes && q.dims && q.breaks)
      ensures !(q.quotes && q.dims) ==>
                released == old(released) && intact == old(intact) && LeftPending(old(row), row) && Neutral(out.replies)
      ensures q.quotes && q.dims ==>
                && !released && intact == (old(intact) && (!broke || old(row.paused)))
                && PricedAs(old(row), row, q.price, discount, requireApproval, broke)
                && (if requireApproval then Neutral(out.replies) else out.replies == [Quote(q.price)])
                && (requireApproval && !broke ==> Escalation(HumanKpApprove, true) in rows)
                && RaisedPricing(q, rows)
                && (requireApproval && !broke && !NamesKp(q) && !old(KpPending(rows)) ==>
                      Announced(HumanKpApprove, out.escalate, out.payload, rows))
    {
      hide PendingUnique, News, Consistent, KpPending, Announced, NamesKp;
      if !q.quotes || !q.dims {
        row := row.(status := if row.preflight then AwaitingManager else Quoting, paused := false,
                    escalate := row.preflight, offer := QuotesPending, rfqAttempted := true);
        return QuoteOut(row, [Say(CollectingRates)], escalate, payload), false;
      }
      var e, p := EscalatePricing(q, escalate, payload, n);
      ghost var raised := rows;
      out, broke := SavePriced(q, discount, e, p, n);
      RowsStay(raised, rows);
    }

    /**
     A quote run: stopped by compliance, left pending without supplier quotes or dimensions, or priced; a price is held
     for approval where that is required.
     */
    method RunFreightQuote(replies: seq<Reply>, discount: bool, sendRfq: bool, q: QuoteInput, ghost n: nat)
      returns (out: QuoteOut, broke: bool)
      requires n <= |rows|
      modifies this`row, this`rows, this`released, this`intact
      ensures (old(PendingUnique(rows)) ==> PendingUnique(rows)) && old(rows) <= rows && |old(rows)| <= |rows|
      ensures News(out.escalate, out.payload, n, |rows|) && Consistent(out.escalate, out.payload)
      ensures broke == (requireApproval && Prices(q) && q.breaks)
      ensures out.deal == row.(status := out.deal.status, previous := out.deal.previous, escalate := out.deal.escalate)
      ensures out.deal == if Stops(q) then old(row).(status := Quoting) else row
      ensures Stops(q) ==> released == old(released) && intact == old(intact)
      ensures !Stops(q) && !Prices(q) ==>
                released == old(released) && intact == old(intact) && LeftPending(old(row), row) && Neutral(out.replies)
      ensures Prices(q) ==>
                && !released && intact == (old(intact) && (!broke || old(row.paused)))
                && PricedAs(old(row), row, q.price, discount, requireApproval, broke)
                && (if requireApproval then Neutral(out.replies) else out.replies == [Quote(q.price)])
                && (requireApproval && !broke ==> Escalation(HumanKpApprove, true) in rows)
                && RaisedPricing(q, rows)
                && (requireApproval && !broke && !NamesKp(q) && !old(KpPending(rows)) ==>
                      Announced(HumanKpApprove, out.escalate, out.payload, rows))
      ensures Stops(q) ==> Extended(out.replies, replies)
    {
      assert Prices(q) <==> !Stops(q) && q.quotes && q.dims;
      hide *;
      var deal, kept, escalate, payload := Prepare(sendRfq, q, replies, n);
      if Stops(q) {
        return QuoteOut(deal, kept, escalate, payload), false;
      }
      ghost var prepared := row;
      out, broke := Conclude(discount, q, escalate, payload, n);
      EffectOfPreparing(old(row), prepared, row, q.price, discount, requireApproval, broke);
    }

    /** The answers to intents that leave the deal where it is. */
    method AnswerInPlace(d: Deal, intent: Intent, replies: seq<Reply>) returns (answers: seq<Reply>)
      requires !intent.AcceptContract? && !intent.PaymentSent? && !intent.Recalculate?
      requires intent.AcceptOffer? ==> !d.offer.Priced? && !d.status.Contract?
      ensures answers == LifecycleReplies(d, intent, replies)
    {
      answers := replies;
      if intent.RequestContractChange? {
        answers := if replies != [] then replies else [Say(WhatToChange)];
      } else if intent.Tracking? {
        answers := [Say(TrackingReport)];
      } else if intent.RequestDiscount? {
        answers := if COMPARE in replies then replies else [COMPARE] + replies;
      } else if intent.Claim? {
        answers := [Say(ClaimTaken)];
      } else {
        if (d.status.Negotiation? || d.status.Pricing?) && d.offer.Priced? && intent.Question? {
          if !(exists r :: r in answers && Invites(r)) {
            answers := answers + [Reminder(d.offer.price)];
          }
        }
        if d.status.Contract? && answers == [] {
          answers := [Say(ContractBeingAgreed)];
        }
        if d.status.Execution? && answers == [] {
          answers := [Say(TrackingReport)];
        }
      }
    }

    /** Moves the deal along quote, contract, payment and tracking, as the intent read off the message asks. */
    method ApplyLifecycle(d: Deal, cues: Cues, hinted: Option<Intent>, replies: seq<Reply>)
      returns (deal: Deal, answers: seq<Reply>, recalculate: bool)
      requires d == row.(status := d.status, previous := d.previous, escalate := d.escalate)
      modifies this`row
      ensures var next := NextStatus(d, cues, hinted);
              && row == old(row).(status := next.GetOr(old(row.status)))
              && deal == (if next.Some? then row else d)
      ensures recalculate <==> IntentOf(d, cues, hinted).Recalculate?
      ensures answers == LifecycleReplies(d, IntentOf(d, cues, hinted), replies)
    {
      var intent := IntentOf(d, cues, hinted);
      hide IntentOf, Invites;
      deal, answers, recalculate := d, replies, false;
      if intent.Recalculate? {
        recalculate := true;
      } else if intent.AcceptOffer? && d.offer.Priced? {
        if d.escalate || d.paused || d.kpHold {
          answers := [Say(OfferWithManager)];
        } else {
          row := row.(status := Contract);
          deal, answers := row, [Fixed(d.offer.price), Say(ContractDraft)];
        }
      } else if intent.AcceptContract? || (intent.AcceptOffer? && d.status.Contract?) {
        row := row.(status := Execution);
        deal, answers := row, [Say(ContractAgreed), Say(PaymentDetails)];
      } else if intent.PaymentSent? {
        row := row.(status := Execution);
        deal, answers := row, [Say(PaymentNoted), Say(TrackingReport)];
      } else {
        hide LifecycleReplies;
        answers := AnswerInPlace(d, intent, replies);
      }
    }

    /** A hard block: the second one for the same reason, being a duplicate, sends the deal back to intake. */
    method BlockTurn(t: TurnInput, ghost n: nat) returns (e: bool, p: Option<Payload>)
      requires n <= |rows|
      modifies this`row, this`rows
      ensures (old(PendingUnique(rows)) ==> PendingUnique(rows)) && old(rows) <= rows && |old(rows)| <= |rows|
      ensures News(e, p, n, |rows|) && Consistent(e, p)
      ensures e <==> (t.restrictionEscalates || t.hardBlock) && Escalation(t.blockReason, true) !in old(rows)
      ensures row == (if e then Escalated(old(row)) else old(row)).(status := if e then AwaitingManager else Intake)
      ensures e ==> Announced(t.blockReason, e, p, rows)
    {
      NoNews(n, |rows|);
      hide PendingUnique, News, Consistent;
      e, p := false, None;
      if t.restrictionEscalates || t.hardBlock {
        e, p := Raise(t.blockReason, n);
      }
      row := row.(status := if e then AwaitingManager else Intake);
    }

    /** A quote within a turn, its escalation merged into the turn's. */
    method QuoteInTurn(opsOnly: bool, q: QuoteInput, replies: seq<Reply>, discount: bool, sendRfq: bool,
                       escalate: bool, payload: Option<Payload>, ghost n: nat)
      returns (d: Deal, answers: seq<Reply>, e: bool, p: Option<Payload>, broke: bool)
      requires n <= |rows| && News(escalate, payload, n, |rows|) && Consistent(escalate, payload)
      requires (requireApproval && intact ==> Held(row, released) && Fit(row, replies)) && Sober(replies)
      modifies this`row, this`rows, this`released, this`intact
      ensures (old(PendingUnique(rows)) ==> PendingUnique(rows)) && old(rows) <= rows && |old(rows)| <= |rows|
      ensures News(e, p, n, |rows|) && Consistent(e, p)
      ensures d == row.(status := d.status, previous := d.previous, escalate := d.escalate)
              && row.takeover == old(row.takeover)
      ensures intact == (old(intact) && (!broke || old(row.paused)))
      ensures requireApproval && !broke && old(HeldFits(row)) ==> HeldFits(row)
      ensures (requireApproval && intact ==> Held(row, released) && Fit(row, answers)) && Sober(answers)
      ensures d.paused && !broke && !old(row.paused) ==> d.status.AwaitingManager?
      ensures (released ==> old(released)) && (broke ==> q.breaks)
      ensures opsOnly || Stops(q) ==> row.offer == old(row.offer)
      ensures !opsOnly && !Stops(q) ==> row.offer == if Prices(q) then Priced(q.price) else QuotesPending
      ensures !opsOnly && requireApproval && Prices(q) && !broke && !NamesKp(q) && !old(KpPending(rows)) ==>
                Announced(HumanKpApprove, e, p, rows)
    {
      hide PendingUnique, News, NoPrice, Neutral, Extended, Sober, Fit, KpPending, NamesKp;
      ghost var before := |rows|;
      var out;
      if opsOnly {
        out := RunOpsRfq(before);
        broke := false;
      } else {
        out, broke := RunFreightQuote(replies, discount, sendRfq, q, before);
      }
      MergeKeepsNews(out, escalate, payload, n, before, |rows|);
      MergeAnnounces(out, escalate, payload);
      hide Consistent;
      d, answers := out.deal, out.replies;
      if Neutral(answers) {
        NeutralFits(row, answers);
      } else if !opsOnly && Stops(q) {
        FitReads(old(row), row, replies);
        ExtendedFits(row, answers, replies);
      } else {
        QuoteIsSober(q.price);
      }
      var merged := MergeQuoteResult(out, escalate, payload);
      e, p := merged.0, merged.1;
    }

    /** The lifecycle's part of a turn, and the quote it may call for when the first one was not for a recalculation. */
    method Follow(d: Deal, t: TurnInput, replies: seq<Reply>, asked: bool, canQuote: bool,
                  escalate: bool, payload: Option<Payload>, ghost n: nat)
      returns (answers: seq<Reply>, e: bool, p: Option<Payload>, broke: bool)
      requires n <= |rows| && News(escalate, payload, n, |rows|) && Consistent(escalate, payload)
      requires d == row.(status := d.status, previous := d.previous, escalate := d.escalate)
               && (d.paused ==> d.status.AwaitingManager?)
      requires (requireApproval && intact ==> Held(row, released) && Fit(row, replies)) && Sober(replies)
      modifies this`row, this`rows, this`released, this`intact
      ensures (old(PendingUnique(rows)) ==> PendingUnique(rows)) && old(rows) <= rows && |old(rows)| <= |rows|
      ensures News(e, p, n, |rows|) && Consistent(e, p)
      ensures intact == (old(intact) && (!broke || old(row.paused))) && row.takeover == old(row.takeover)
      ensures requireApproval && !broke && old(HeldFits(row)) ==> HeldFits(row)
      ensures (requireApproval && intact ==> Held(row, released) && Cleared(row, answers, released)) && Sober(answers)
      ensures (released ==> old(released)) && (broke ==> t.second.breaks)
      ensures !(canQuote && Recalls(t)) ==>
                !broke && rows == old(rows) && e == escalate && p == payload
                && answers == LifecycleReplies(d, IntentOf(d, t.cues, t.hinted), replies)
                && row == old(row).(status := NextStatus(d, t.cues, t.hinted).GetOr(old(row.status)))
    {
      hide PendingUnique, News, Consistent, Cleared, NextStatus, IntentOf, Held, LifecycleReplies, Fit, Sober;
      e, p, broke := escalate, payload, false;
      var deal, recalculate;
      deal, answers, recalculate := ApplyLifecycle(d, t.cues, t.hinted, replies);
      LifecycleCleared(requireApproval && intact, d, t.cues, t.hinted, replies, old(row), row, released);
      RecallsIs(d, t);
      hide Recalls;
      if recalculate && canQuote && !WantsRecalculation(t) {
        deal, answers, e, p, broke := QuoteInTurn(false, t.second, replies, asked, true, e, p, n);
        if requireApproval && intact {
          FitIsCleared(row, answers, released);
        }
      }
    }

    /** The quote of a turn past the blocks, where one is due. */
    method QuoteIfDue(t: TurnInput, held: Status, replies: seq<Reply>, escalate: bool, payload: Option<Payload>,
                      ghost n: nat)
      returns (d: Deal, answers: seq<Reply>, asked: bool, e: bool, p: Option<Payload>, broke: bool)
      requires n <= |rows| && News(escalate, payload, n, |rows|) && Consistent(escalate, payload)
      requires !row.paused && (requireApproval && intact ==> Held(row, released) && Fit(row, replies)) && Sober(replies)
      modifies this`row, this`rows, this`released, this`intact
      ensures (old(PendingUnique(rows)) ==> PendingUnique(rows)) && old(rows) <= rows && |old(rows)| <= |rows|
      ensures News(e, p, n, |rows|) && Consistent(e, p)
      ensures d == row.(status := d.status, previous := d.previous, escalate := d.escalate)
              && row.takeover == old(row.takeover)
      ensures intact == (old(intact) && !broke) && (released ==> old(released)) && (broke ==> t.first.breaks)
      ensures requireApproval && !broke && old(HeldFits(row)) ==> HeldFits(row)
      ensures (requireApproval && intact ==> Held(row, released) && Fit(row, answers)) && Sober(answers)
      ensures d.paused && !broke ==> d.status.AwaitingManager?
      ensures !Due(t, old(row), held) ==>
                d == row == old(row) && rows == old(rows) && answers == replies && !broke
                && e == escalate && p == payload
      ensures Due(t, old(row), held) && !t.opsOnly && !Stops(t.first) ==>
                row.offer == if Prices(t.first) then Priced(t.first.price) else QuotesPending
      ensures Due(t, old(row), held) && requireApproval && HoldsFirst(t, old(rows)) ==>
                Announced(HumanKpApprove, e, p, rows) && !broke
    {
      HoldsFirstMeans(t, rows);
      hide *;
      d := row;
      answers, e, p, broke := replies, escalate, payload, false;
      var hasOffer := d.offer.Priced?;
      asked := t.hinted == Some(RequestDiscount) && hasOffer;
      var wantRecalc := WantsRecalculation(t);
      var first := !d.rfqAttempted && !hasOffer;
      DueMeans(t, d, held);
      if t.ready && !Late(held) && (first || wantRecalc || asked || (t.fullQuote && !hasOffer)) {
        d, answers, e, p, broke := QuoteInTurn(t.opsOnly, t.first, replies, asked, first || wantRecalc, e, p, n);
      }
    }

    /** A turn past the blocks: a quote where one is due, then the lifecycle. */
    method OpenTurn(t: TurnInput, held: Status, replies: seq<Reply>, escalate: bool, payload: Option<Payload>,
                    ghost n: nat)
      returns (answers: seq<Reply>, e: bool, p: Option<Payload>, broke: bool)
      requires n <= |rows| && News(escalate, payload, n, |rows|) && Consistent(escalate, payload)
      requires !row.paused && (requireApproval && intact ==> Held(row, released)) && Fit(row, replies) && Sober(replies)
      modifies this`row, this`rows, this`released, this`intact
      ensures (old(PendingUnique(rows)) ==> PendingUnique(rows)) && old(rows) <= rows && |old(rows)| <= |rows|
      ensures News(e, p, n, |rows|) && Consistent(e, p)
      ensures (intact ==> old(intact)) && (!broke ==> intact == old(intact)) && row.takeover == old(row.takeover)
      ensures requireApproval && !broke && old(HeldFits(row)) ==> HeldFits(row)
      ensures (requireApproval && intact ==> Held(row, released) && Cleared(row, answers, released)) && Sober(answers)
      ensures (released ==> old(released)) && (broke ==> t.first.breaks || t.second.breaks)
      ensures !Due(t, old(row), held) && !(MayQuote(t, held) && Recalls(t)) ==>
                !broke && rows == old(rows) && e == escalate && p == payload
                && answers == LifecycleReplies(old(row), IntentOf(old(row), t.cues, t.hinted), replies)
                && row == old(row).(status := NextStatus(old(row), t.cues, t.hinted).GetOr(old(row.status)))
      ensures Due(t, old(row), held) && !t.opsOnly && !Stops(t.first) && !Recalls(t) ==>
                row.offer == if Prices(t.first) then Priced(t.first.price) else QuotesPending
      ensures Due(t, old(row), held) && requireApproval && HoldsFirst(t, old(rows)) && !Recalls(t) ==>
                Announced(HumanKpApprove, e, p, rows) && !broke
    {
      var canQuote := MayQuote(t, held);
      hide *;
      var d, asked;
      d, answers, asked, e, p, broke := QuoteIfDue(t, held, replies, escalate, payload, n);
      if !broke {
        answers, e, p, broke := Follow(d, t, answers, asked, canQuote, e, p, n);
      }
    }

    /** The gateway's alert to staff, for an escalation that is news. */
    method Announce(e: bool, p: Option<Payload>, ghost n: nat)
      requires News(e, p, n, |rows|) && AlertsOnce(alerts, n)
      modifies this`alerts
      ensures AlertsOnce(alerts, |rows|) && forall i :: |old(alerts)| <= i < |alerts| ==> n <= alerts[i]
      ensures alerts == old(alerts) + (if AlertOf(e, p).Some? then [AlertOf(e, p).value] else [])
    {
      if e && p.Some? && !p.value.duplicate && p.value.id.Some? {
        AlertAdded(alerts, p.value.id.value, n, |rows|);
        alerts := alerts + [p.value.id.value];
      }
    }

    ghost method Record(replies: seq<Reply>)
      requires (requireApproval && intact ==> NoLeak(log) && Cleared(row, replies, released))
      requires NothingInvented(log) && Sober(replies)
      modifies this`log
      ensures log == old(log) + LogOf(replies, row.offer, released)
      ensures (requireApproval && intact ==> NoLeak(log)) && NothingInvented(log)
    {
      LogKeepsNoLeak(log, replies, row, released);
      log := log + LogOf(replies, row.offer, released);
    }

    /** The turn past the blocks: an escalation for a link that could not be read, then the quote and the lifecycle. */
    method UnblockedTurn(t: TurnInput, replies: seq<Reply>, ghost n: nat)
      returns (answers: seq<Reply>, e: bool, p: Option<Payload>, broke: bool)
      requires n <= |rows|
      requires !row.paused && (requireApproval && intact ==> Held(row, released)) && Fit(row, replies) && Sober(replies)
      modifies this`row, this`rows, this`released, this`intact
      ensures (old(PendingUnique(rows)) ==> PendingUnique(rows)) && old(rows) <= rows && |old(rows)| <= |rows|
      ensures News(e, p, n, |rows|) && Consistent(e, p)
      ensures (intact ==> old(intact)) && (!broke ==> intact == old(intact))
      ensures requireApproval && !broke && old(HeldFits(row)) ==> HeldFits(row)
      ensures (requireApproval && intact ==> Held(row, released) && Cleared(row, answers, released)) && Sober(answers)
      ensures (released ==> old(released)) && (broke ==> t.first.breaks || t.second.breaks)
      ensures !t.urlUnresolved && QuoteFree(t, old(row)) ==>
                !broke && answers == LifecycleReplies(old(row), IntentOf(old(row), t.cues, t.hinted), replies)
                && row == old(row).(status := NextStatus(old(row), t.cues, t.hinted).GetOr(old(row.status)))
      ensures t.urlUnresolved && QuoteFree(t, old(row)) && Escalation(UrlUnresolved, true) !in old(rows) ==>
                Announced(UrlUnresolved, e, p, rows) && !broke
      ensures Due(t, old(row), old(row.status)) && !t.opsOnly && !Stops(t.first) && !Recalls(t) ==>
                row.offer == if Prices(t.first) then Priced(t.first.price) else QuotesPending
      ensures Due(t, old(row), old(row.status)) && requireApproval && HoldsFirst(t, old(rows)) && !Recalls(t) ==>
                Announced(HumanKpApprove, e, p, rows) && !broke
    {
      NoNews(n, |rows|);
      hide PendingUnique, News, Consistent, NextStatus, Cleared, Sober, LifecycleReplies, IntentOf, Prices, Announced;
      hide KpPending, Recalls, NoPrice, NoPriceText;
      var held := row.status;
      e, p := RaiseIf(t.urlUnresolved, UrlUnresolved, false, None, n);
      HoldsFirstReads(t, old(rows), rows);
      EscalationReads(t, old(row), row, held, replies, released);
      hide HoldsFirst, Stops, Held, HeldFits, Fit, Due;
      answers, e, p, broke := OpenTurn(t, held, replies, e, p, n);
    }

    /** The turn of a message that is not blocked as a grey scheme, up to its answers. */
    method PlainTurn(t: TurnInput, ghost n: nat)
      returns (replies: seq<Reply>, e: bool, p: Option<Payload>, broke: bool)
      requires n <= |rows|
      requires !row.paused && (requireApproval && intact ==> Held(row, released))
      modifies this`row, this`rows, this`released, this`intact
      ensures (old(PendingUnique(rows)) ==> PendingUnique(rows)) && old(rows) <= rows && |old(rows)| <= |rows|
      ensures News(e, p, n, |rows|) && Consistent(e, p)
      ensures (intact ==> old(intact)) && (!broke ==> intact == old(intact))
      ensures requireApproval && !broke && old(HeldFits(row)) ==> HeldFits(row)
      ensures (requireApproval && intact ==> Held(row, released) && Cleared(row, replies, released)) && Sober(replies)
      ensures (released ==> old(released)) && (broke ==> t.first.breaks || t.second.breaks)
      ensures t.Hard() ==> Blocked(old(row), old(rows), row, t)
      ensures t.Quiet() ==> Unquoted(old(row), row, replies, broke, t)
      ensures !t.Hard() ==> Quoted(old(row), row, t)
      ensures var reason := Tells(old(row), old(rows), requireApproval, t);
              !t.grey && reason.Some? ==> Announced(reason.value, e, p, rows) && !broke
    {
      OpeningIsSober(t);
      NoNews(n, |rows|);
      QuietIsNext(row, t);
      hide PendingUnique, News, Consistent, NextStatus, Cleared, Opening, HoldStage, Sober, NoPrice, NoPriceText;
      hide LifecycleReplies, IntentOf, QuietStatus, Prices, KpPending, Announced;
      var held := HoldStage(row.status, t.proposed);
      row := row.(status := held);
      var lines := StripInventedPrices(t.lines);
      replies, e, p, broke := Opening(t, lines), false, None, false;
      if t.Hard() {
        e, p := BlockTurn(t, n);
        if requireApproval && intact {
          FitIsCleared(row, replies, released);
        }
      } else {
        hide HoldsFirst, Due, Recalls, MayQuote;
        replies, e, p, broke := UnblockedTurn(t, replies, n);
      }
    }

    /** The answers to a message of a deal that staff do not have. */
    method Reply(t: TurnInput, ghost n: nat) returns (replies: seq<Reply>, e: bool, p: Option<Payload>, broke: bool)
      requires n <= |rows|
      requires !row.paused && (requireApproval && intact ==> Held(row, released))
      modifies this`row, this`rows, this`released, this`intact
      ensures (old(PendingUnique(rows)) ==> PendingUnique(rows)) && old(rows) <= rows && |old(rows)| <= |rows|
      ensures News(e, p, n, |rows|)
      ensures (intact ==> old(intact)) && (!broke ==> intact == old(intact))
      ensures requireApproval && !broke && old(HeldFits(row)) ==> HeldFits(row)
      ensures (requireApproval && intact ==> Held(row, released) && Cleared(row, replies, released)) && Sober(replies)
      ensures (released ==> old(released)) && (broke ==> t.first.breaks || t.second.breaks)
      ensures t.grey ==>
                !broke && replies == [Say(GreyRefused)] && Escalation(GreyScheme, true) in rows
                && row == if Escalation(GreyScheme, true) in old(rows) then old(row) else Escalated(old(row))
      ensures !t.grey && t.Hard() ==> Blocked(old(row), old(rows), row, t)
      ensures t.Quiet() ==> Unquoted(old(row), row, replies, broke, t)
      ensures !t.grey && !t.Hard() ==> Quoted(old(row), row, t)
      ensures var reason := Tells(old(row), old(rows), requireApproval, t);
              reason.Some? ==> Announced(reason.value, e, p, rows) && !broke
    {
      hide PendingUnique, News, Consistent, Cleared, Sober, Blocked, Unquoted, Quoted, HeldInTurn, Announced, QuoteFree;
      if t.grey {
        broke := false;
        e, p := Raise(GreyScheme, n);
        replies := [Say(GreyRefused)];
        SayFits(row, GreyRefused, released);
      } else {
        hide Held, HeldFits;
        replies, e, p, broke := PlainTurn(t, n);
      }
    }

    /** Sends the answers and alerts staff; of a turn that failed, only that the matter is being looked into. */
    method Send(answers: seq<Reply>, e: bool, p: Option<Payload>, broke: bool, ghost n: nat)
      returns (replies: seq<Reply>)
      requires News(e, p, n, |rows|) && AlertsOnce(alerts, n)
      requires (requireApproval && intact ==> NoLeak(log) && Cleared(row, answers, released))
      requires NothingInvented(log) && Sober(answers)
      modifies this`alerts, this`log, this`whole
      ensures replies == if broke then [Say(WillComeBack)] else answers
      ensures whole == (old(whole) && !broke) && log == old(log) + LogOf(replies, row.offer, released)
      ensures AlertsOnce(alerts, |rows|) && old(alerts) <= alerts
      ensures alerts == old(alerts) + (if !broke && AlertOf(e, p).Some? then [AlertOf(e, p).value] else [])
      ensures forall i :: |old(alerts)| <= i < |alerts| ==> n <= alerts[i]
      ensures (requireApproval && intact ==> NoLeak(log) && Cleared(row, replies, released))
      ensures NothingInvented(log) && Sober(replies)
    {
      AlertsGrow(alerts, n, |rows|);
      SayFits(row, WillComeBack, released);
      hide News, AlertsOnce, NoLeak, NothingInvented, LogOf, Cleared, Sober;
      whole := whole && !broke;
      replies := answers;
      if broke {
        replies := [Say(WillComeBack)];
      } else {
        Announce(e, p, n);
      }
      Record(replies);
    }

    /**
     One message of the client. While staff have the deal, it is only taken down. A turn that fails answers with a fixed
     text and alerts nobody.
     */
    method ClientTurn(t: TurnInput) returns (replies: seq<Reply>)
      requires Valid()
      modifies this
      ensures single == old(single)
      ensures Valid() && old(rows) <= rows && old(alerts) <= alerts
      ensures forall i :: |old(alerts)| <= i < |alerts| ==> |old(rows)| <= alerts[i]
      ensures log == old(log) + LogOf(replies, row.offer, released)
      ensures (requireApproval && intact ==> Cleared(row, replies, released)) && Sober(replies)
      ensures released ==> old(released)
      ensures !t.first.breaks && !t.second.breaks ==> intact == old(intact) && whole == old(whole)
      ensures t.Quiet() && t.hinted.None? && !Terminal(t.proposed) ==> StaysLate(old(row.status), row.status)
      ensures old(row.paused || row.takeover) ==>
                replies == [] && row == old(row) && rows == old(rows) && alerts == old(alerts) && intact == old(intact)
      ensures !old(row.paused || row.takeover) && !t.grey && t.Hard() ==> Blocked(old(row), old(rows), row, t)
      ensures !old(row.paused || row.takeover) && t.grey ==>
                replies == [Say(GreyRefused)] && Escalation(GreyScheme, true) in rows
                && row == if Escalation(GreyScheme, true) in old(rows) then old(row)
                          else Escalated(old(row))
      ensures !old(row.paused || row.takeover) && t.Quiet() ==> Unquoted(old(row), row, replies, false, t)
      ensures !old(row.paused || row.takeover) && !t.grey && !t.Hard() ==> Quoted(old(row), row, t)
      ensures var reason := Tells(old(row), old(rows), requireApproval, t);
              !old(row.paused || row.takeover) && reason.Some? ==>
                Alerted(reason.value, old(alerts), alerts, rows)
    {
      ghost var n := |rows|;
      replies := [];
      hide PendingUnique, AlertsOnce, News, NoLeak, NothingInvented, LogOf, Cleared, Sober, Blocked, Quoted, Unquoted;
      hide HeldFits, Held, Tells;
      if row.paused || row.takeover {
        NoLogOf(log, row, released);
        return;
      }
      hide StaysLate;
      var answers, e, p, broke := Reply(t, n);
      LateTurn(old(row), row, answers, broke, t);
      BrokenIsQuoted(old(row), row, answers, [Say(WillComeBack)], t);
      replies := Send(answers, e, p, broke, n);
    }

    // --- steps that are not the client's

    /**
     Staff approve the offer: the messages kept back go out, or the deal goes on to the contract. As long as no quote
     run has broken off, a price that goes out is the present offer's exactly when that offer is not pending again.
     */
    method ApproveKp() returns (replies: seq<Reply>)
      requires Valid()
      modifies this
      ensures single == old(single)
      ensures Valid() && rows == old(rows) && alerts == old(alerts) && intact == old(intact) && whole == old(whole)
      ensures row == old(row).(status := if (old(row.kpHold) || old(row.status.AwaitingManager?))
                                            && (old(row.heldPrice.Some?) || old(row.offer.Priced?))
                                         then Pricing else Contract,
                               escalate := false, paused := false, kpHold := false, heldPrice := None)
      ensures replies == if old(row.kpHold || row.status.AwaitingManager?) && old(row.heldPrice).Some?
                         then [Quote(old(row.heldPrice).value)] else []
      ensures log == old(log) + LogOf(replies, row.offer, released)
      ensures requireApproval && whole ==>
                forall p :: Quote(p) in replies ==> (row.offer == Priced(p) <==> !row.offer.QuotesPending?)
    {
      hide PendingUnique, AlertsOnce, NoLeak, NothingInvented, LogOf;
      var held := row.kpHold || row.status.AwaitingManager?;
      released := true;
      replies := [];
      if held && (row.heldPrice.Some? || row.offer.Priced?) {
        if row.heldPrice.Some? {
          replies := [Quote(row.heldPrice.value)];
        }
        row := row.(status := Pricing, escalate := false, paused := false, kpHold := false, heldPrice := None);
      } else {
        row := row.(status := Contract, escalate := false, paused := false, kpHold := false, heldPrice := None);
      }
      Record(replies);
    }

    /** A manager's direct change. Taking the pause off releases the offer as it is. */
    method Patch(status: Status, paused: bool, takeover: bool)
      requires Valid()
      modifies this`row, this`released
      ensures Valid() && row == old(row).(status := status, paused := paused, takeover := takeover)
      ensures released == (old(released) || (old(row.paused) && !paused))
    {
      hide PendingUnique, NoLeak, NothingInvented, AlertsOnce;
      released := released || (row.paused && !paused);
      row := row.(status := status, paused := paused, takeover := takeover);
    }

    /** Staff send the RFQ that was held for them; this takes the pause off, too. */
    method FlushRfqPreflight()
      requires Valid()
      modifies this`row, this`released
      ensures Valid() && released == (old(released) || old(row.preflight && row.paused))
      ensures !old(row.preflight) ==> row == old(row)
      ensures old(row.preflight) ==>
                row == old(row).(preflight := false, rfqAttempted := true, status := Quoting,
                                             escalate := false, paused := false)
    {
      if row.preflight {
        released := released || row.paused;
        row := row.(preflight := false, rfqAttempted := true, status := Quoting, escalate := false, paused := false);
      }
    }

    /**
     A manager's hint on the route or the suppliers, with a new quote run if it asks for one. `jobsKept`: RFQ mails are
     on file.
     */
    method ApplyOpsHint(keepPaused: bool, jobsKept: bool, rerun: bool, q: QuoteInput)
      requires Valid()
      modifies this
      ensures single == old(single)
      ensures Valid() && old(rows) <= rows && alerts == old(alerts) && log == old(log)
      ensures intact == (old(intact) && (!(rerun && BreaksOff(q)) || keepPaused))
      ensures whole == (old(whole) && !(rerun && BreaksOff(q)))
      ensures released ==> old(released) || (old(row.paused) && !keepPaused)
      ensures rerun && !Stops(q) && !Prices(q) ==>
                row.offer.QuotesPending? && row.kpHold == old(row.kpHold) && row.heldPrice == old(row.heldPrice)
      ensures rerun && Prices(q) ==> row.offer == Priced(q.price)
                                     && (requireApproval && !q.breaks ==> row.paused && row.heldPrice == Some(q.price))
    {
      TakeHint(keepPaused, jobsKept);
      hide *;
      if rerun {
        QuoteOffline(true, q);
      }
    }

    method TakeHint(keepPaused: bool, jobsKept: bool)
      requires Valid()
      modifies this`row, this`released
      ensures Valid() && released == (old(released) || (old(row.paused) && !keepPaused))
      ensures row == old(row).(rfqAttempted := old(row.rfqAttempted) && jobsKept, status := Quoting,
                               paused := keepPaused)
    {
      hide PendingUnique, NoLeak, NothingInvented, AlertsOnce;
      released := released || (row.paused && !keepPaused);
      row := row.(rfqAttempted := row.rfqAttempted && jobsKept, status := Quoting, paused := keepPaused);
    }

    /** The run breaks off between its two writes. */
    predicate BreaksOff(q: QuoteInput) { requireApproval && Prices(q) && q.breaks }

    /** A quote run whose messages nobody is sent. */
    method QuoteOffline(sendRfq: bool, q: QuoteInput)
      requires Valid()
      modifies this`row, this`rows, this`released, this`intact, this`whole
      ensures Valid() && old(rows) <= rows && (released ==> old(released))
      ensures intact == (old(intact) && (!BreaksOff(q) || old(row.paused))) && whole == (old(whole) && !BreaksOff(q))
      ensures !Stops(q) && !Prices(q) ==>
                row.offer.QuotesPending? && row.kpHold == old(row.kpHold) && row.heldPrice == old(row.heldPrice)
      ensures Prices(q) ==>
                !released && PricedAs(old(row), row, q.price, false, requireApproval, requireApproval && q.breaks)
    {
      ghost var n := |rows|;
      hide PendingUnique, NoLeak, NothingInvented, AlertsOnce, Prices, Stops;
      var out, broke := RunFreightQuote([], false, sendRfq, q, n);
      whole := whole && !broke;
      AlertsGrow(alerts, n, |rows|);
    }

    /**
     Rates pulled when a supplier's cabinet stays silent; skipped when the deal has its price. Nothing goes to the
     client.
     */
    method ApiQuoteFallback(skip: bool, q: QuoteInput)
      requires Valid()
      modifies this
      ensures single == old(single)
      ensures Valid() && old(rows) <= rows && alerts == old(alerts) && log == old(log)
      ensures released ==> old(released)
      ensures old(row.offer.Priced?) || skip ==> row == old(row) && rows == old(rows) && released == old(released)
      ensures !old(row.offer.Priced?) && !skip && Prices(q) ==>
                !released && PricedAs(old(row), row, q.price, false, requireApproval, requireApproval && q.breaks)
      ensures var broke := !old(row.offer.Priced?) && !skip && BreaksOff(q);
              intact == (old(intact) && (!broke || old(row.paused))) && whole == (old(whole) && !broke)
    {
      if row.offer.Priced? || skip {
        return;
      }
      QuoteOffline(false, q);
    }

    /**
     A manager's decision on an escalation: the deal resumes, stays open for a rejected RFQ, or is cancelled. The pause,
     and with it the hold on a price, stays as it is, except where an approved RFQ is sent.
     */
    method Decide(id: nat, approved: bool, resume: Option<Status>, flushed: bool)
      requires Valid() && id < |rows|
      modifies this`row, this`rows, this`released
      ensures Valid() && rows == old(rows)[id := old(rows[id]).(pending := false)]
      ensures var rfq := old(rows[id].reason) == RfqPreflight;
              && (!(approved && rfq && flushed) ==>
                    released == old(released)
                    && row == old(row).(status := Decided(old(row), rfq, approved, resume), escalate := false,
                                        preflight := old(row.preflight) && (approved || !rfq)))
              && (!(approved && rfq && flushed) ==>
                    && (approved && resume.Some? ==> row.status == resume.value)
                    && (!approved && !rfq ==> row.status.Cancelled?))
              && (approved && rfq && flushed && old(row.preflight) ==>
                    !row.paused && row.status == Quoting && row.offer == old(row.offer)
                    && released == (old(released) || old(row.paused)))
    {
      var rfq := rows[id].reason == RfqPreflight;
      ClosingKeepsUnique(rows, id);
      hide PendingUnique, NoLeak, NothingInvented, AlertsOnce;
      rows := rows[id := rows[id].(pending := false)];
      row := row.(status := Decided(row, rfq, approved, resume), escalate := false,
                  preflight := row.preflight && (approved || !rfq));
      if approved && rfq && flushed {
        FlushRfqPreflight();
      }
    }

    /** An escalation put in through the API, without a look at pending ones. */
    method EscalateByHand(reason: Reason)
      requires Valid()
      modifies this`row, this`rows, this`single
      ensures Valid() && rows == old(rows) + [Escalation(reason, true)] && row == Escalated(old(row))
      ensures single == (old(single) && Escalation(reason, true) !in old(rows))
      ensures old(PendingUnique(rows)) ==> (PendingUnique(rows) <==> Escalation(reason, true) !in old(rows))
    {
      SecondPending(rows, reason);
      AlertsGrow(alerts, |rows|, |rows| + 1);
      hide PendingUnique, NoLeak, NothingInvented, AlertsOnce;
      single := single && Escalation(reason, true) !in rows;
      row := Escalated(row);
      rows := rows + [Escalation(reason, true)];
    }
  }

  lemma ClosingKeepsUnique(rows: seq<Escalation>, id: nat)
    requires id < |rows|
    ensures PendingUnique(rows) ==> PendingUnique(rows[id := rows[id].(pending := false)])
  {
  }

  /** A row beside the others keeps them single exactly when none of its reason is pending. */
  lemma SecondPending(rows: seq<Escalation>, reason: Reason)
    ensures PendingUnique(rows) ==>
              (PendingUnique(rows + [Escalation(reason, true)]) <==> Escalation(reason, true) !in rows)
  {
    var all := rows + [Escalation(reason, true)];
    if Escalation(reason, true) in rows {
      var i :| 0 <= i < |rows| && rows[i] == Escalation(reason, true);
      assert all[i].pending && all[|rows|].pending && all[i].reason == all[|rows|].reason;
    }
  }

  // --- whole runs

  datatype Event =
    | Message(turn: TurnInput)
    | Approval
    | StaffPatch(status: Status, paused: bool, takeover: bool)
    | Flush
    | OpsHint(keepPaused: bool, jobsKept: bool, rerun: bool, hint: QuoteInput)
    | Fallback(skip: bool, pull: QuoteInput)
    | Decision(id: nat, approved: bool, resume: Option<Status>, flushed: bool)
    | ByHand(reason: Reason)

  predicate Breaks(e: Event) {
    match e
    case Message(t) => t.first.breaks || t.second.breaks
    case OpsHint(_, _, _, q) => q.breaks
    case Fallback(_, q) => q.breaks
    case _ => false
  }

  /**
   Any series of client messages, staff steps and quote runs on one deal. No invented price is ever sent. With approval
   required and no quote run broken off, every message that stated a price was sent after staff had released it, and so
   was every text that looked like one while the deal was priced; and the price kept back is the offer's unless that is
   pending. No escalation is announced twice. No reason has two pending ones, unless one was put in by hand beside a
   pending one.
   */
  method Serve(approval: bool, events: seq<Event>) returns (desk: DealDesk)
    ensures fresh(desk) && desk.requireApproval == approval
    ensures NothingInvented(desk.log)
    ensures approval && (forall i :: 0 <= i < |events| ==> !Breaks(events[i])) ==>
                NoLeak(desk.log) && HeldFits(desk.row)
    ensures AlertsOnce(desk.alerts, |desk.rows|)
    ensures desk.single ==> PendingUnique(desk.rows)
    ensures (forall i :: 0 <= i < |events| ==> !events[i].ByHand?) ==> desk.single
  {
    desk := new DealDesk(approval);
    for i := 0 to |events|
      invariant fresh(desk) && desk.Valid() && desk.requireApproval == approval
      invariant (forall j :: 0 <= j < i ==> !Breaks(events[j])) ==> desk.intact && desk.whole
      invariant (forall j :: 0 <= j < i ==> !events[j].ByHand?) ==> desk.single
    {
      hide NoLeak, NothingInvented, PendingUnique, AlertsOnce, Held, HeldFits;
      var replies;
      match events[i]
      case Message(t) => replies := desk.ClientTurn(t);
      case Approval => replies := desk.ApproveKp();
      case StaffPatch(status, paused, takeover) => desk.Patch(status, paused, takeover);
      case Flush => desk.FlushRfqPreflight();
      case OpsHint(keepPaused, jobsKept, rerun, q) => desk.ApplyOpsHint(keepPaused, jobsKept, rerun, q);
      case Fallback(skip, q) => desk.ApiQuoteFallback(skip, q);
      case ByHand(reason) => desk.EscalateByHand(reason);
      case Decision(id, approved, resume, flushed) =>
        if id < |desk.rows| {
          desk.Decide(id, approved, resume, flushed);
        }
    }
  }

  /**
   A run that breaks off before the hold leaves the price to the next plain question of the client, though nobody has
   released it: the guarantee cannot do without `intact`.
   */
  method BrokenRunLeaks(desk: DealDesk, q: QuoteInput, t: TurnInput) returns (replies: seq<Reply>)
    requires desk.Valid() && desk.requireApproval && !desk.row.paused && !desk.row.takeover && !desk.row.offer.Priced?
    requires Prices(q) && q.breaks
    requires t.Quiet() && t.hinted == Some(Question) && t.proposed.Pricing? && !t.invoiceChanged && !t.fullQuote
    requires forall r :: r in Opening(t, StripInvented(t.lines)) ==> !Invites(r)
    modifies desk
    ensures Reminder(q.price) in replies && !desk.intact && !NoLeak(desk.log)
  {
    desk.ApiQuoteFallback(false, q);
    ghost var held := desk.row.(status := HoldStage(desk.row.status, t.proposed));
    ghost var opening := Opening(t, StripInvented(t.lines));
    ghost var shown := |desk.log| + |opening|;
    assert QuietReplies(held, t)[|opening|] == Reminder(q.price);
    replies := desk.ClientTurn(t);
    assert desk.log[shown] == Shown(Reminder(q.price), desk.row.offer, false);
  }

  /**
   An escalation and its approval, or for an RFQ also its rejection, leave the deal at the status it had; any other
   rejection cancels it.
   */
  method EscalateAndDecide(desk: DealDesk, reason: Reason, approved: bool)
    requires desk.Valid()
    modifies desk
    ensures desk.row == old(desk.row).(previous := Some(old(desk.row.status)), escalate := false,
                                       preflight := old(desk.row.preflight) && (approved || !reason.RfqPreflight?),
                                       status := if approved || reason.RfqPreflight?
                                                 then old(desk.row.status) else Cancelled)
    ensures desk.rows == old(desk.rows) + [Escalation(reason, false)]
  {
    desk.EscalateByHand(reason);
    assert desk.row.status.AwaitingManager?;
    desk.Decide(|desk.rows| - 1, approved, None, false);
  }

  /**
   Messages kept back outlive the offer they came from: approved after a run without quotes, they state the old price.
   */
  method StalePriceReleased(desk: DealDesk, q: QuoteInput) returns (replies: seq<Reply>)
    requires desk.Valid() && desk.row.kpHold && desk.row.heldPrice.Some? && !q.quotes && !q.customs
    modifies desk
    ensures desk.row.offer.QuotesPending? && replies == [Quote(old(desk.row.heldPrice).value)]
  {
    desk.ApplyOpsHint(false, true, true, q);
    replies := desk.ApproveKp();
  }

  lemma AlertsGrow(alerts: seq<nat>, n: nat, rows: nat)
    requires AlertsOnce(alerts, n) && n <= rows
    ensures AlertsOnce(alerts, rows)
  {
  }

  lemma NoLogOf(log: seq<Shown>, d: Deal, released: bool)
    ensures log == log + LogOf([], d.offer, released)
    ensures Cleared(d, [], released) && Sober([])
  {
  }
}
