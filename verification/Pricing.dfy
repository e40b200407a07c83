/** Offer prices in exact arithmetic: margin target, discount, margin floor, and the check after pricing. */
module Pricing {
  import opened Numbers

  datatype Policy = Policy(target: real, floor: real, maxDiscount: real, minProfit: real)

  /** The settings under which the formulas below make sense; the defaults are 18, 10 and 8 percent. */
  ghost predicate Sensible(p: Policy) {
    p.floor <= p.target && p.floor < 100.0 && -100.0 < p.target && 0.0 < p.maxDiscount + 5.0 < 100.0
  }

  /** The target markup leaves at least the floor as a margin on the price. */
  predicate TargetCoversFloor(p: Policy) {
    10000.0 <= (100.0 + p.target) * (100.0 - p.floor)
  }

  function Discount(p: Policy, ask: real): real {
    Min(Max(ask, 0.0), p.maxDiscount + 5.0)
  }

  function TargetPrice(cost: real, p: Policy): real {
    cost * (1.0 + p.target / 100.0)
  }

  function FloorPrice(cost: real, p: Policy): real
    requires p.floor < 100.0
  {
    cost / (1.0 - p.floor / 100.0)
  }

  function Reduced(price: real, discount: real): real {
    price * (1.0 - discount / 100.0)
  }

  /** Margin as a share of the price, in percent. */
  function Margin(cost: real, price: real): real {
    if price == 0.0 then 0.0 else (price - cost) / price * 100.0
  }

  datatype Offer = Offer(price: real, margin: real, needsApprove: bool)

  datatype DiscountStep = DiscountStep(discount: real, price: real, margin: real, profit: real)

  /** The offer before rounding. Without a discount the markup itself is compared with the floor. */
  function PriceOf(cost: real, p: Policy, ask: real): Offer {
    var d := Discount(p, ask);
    var offer := if d == 0.0 then TargetPrice(cost, p) else Reduced(TargetPrice(cost, p), d);
    var margin := if d == 0.0 then p.target else Margin(cost, offer);
    var low := margin < p.floor;
    var price := if !low then offer else if p.floor < 100.0 then FloorPrice(cost, p) else cost;
    Offer(price, if low then p.floor else margin, low || p.maxDiscount < d || price - cost < p.minProfit)
  }

  /** The meaning of the price: the discounted target, or the price at the floor margin where that is higher. */
  function ClosedForm(cost: real, p: Policy, ask: real): real
    requires p.floor < 100.0
  {
    Max(Reduced(TargetPrice(cost, p), Discount(p, ask)), FloorPrice(cost, p))
  }

  lemma MulPositive(a: real, b: real)
    requires 0.0 < a && 0.0 < b
    ensures 0.0 < a * b
  {
  }

  lemma MulMono(a: real, b: real, c: real)
    requires a <= b && 0.0 <= c
    ensures a * c <= b * c && c * a <= c * b
  {
  }

  lemma MulStrict(a: real, b: real, c: real)
    requires a < b && 0.0 < c
    ensures a * c < b * c && c * a < c * b
  {
  }

  /** A price is below the floor price exactly when its margin is below the floor. */
  lemma BelowFloor(cost: real, p: Policy, price: real)
    requires 0.0 < cost && 0.0 < price && p.floor < 100.0
    ensures Margin(cost, price) < p.floor <==> price < FloorPrice(cost, p)
    ensures 0.0 < FloorPrice(cost, p)
    ensures price * (100.0 - p.floor) < 100.0 * cost <==> price < FloorPrice(cost, p)
  {
    var share := 1.0 - p.floor / 100.0;
    var q := FloorPrice(cost, p);
    assert q * share == cost;
    var m := (price - cost) / price;
    assert m * price == price - cost;
    if price < q {
      MulStrict(price, q, share);
    } else {
      MulMono(q, price, share);
    }
    if q <= 0.0 {
      MulMono(q, 0.0, share);
    }
    if m * 100.0 < p.floor {
      MulStrict(m, p.floor / 100.0, price);
    } else {
      MulMono(p.floor / 100.0, m, price);
    }
    assert price * share == price - p.floor / 100.0 * price;
    assert price * (100.0 - p.floor) == 100.0 * (price * share);
  }

  lemma TargetAgainstFloor(cost: real, p: Policy)
    requires 0.0 < cost && Sensible(p)
    ensures 0.0 < TargetPrice(cost, p)
    ensures TargetCoversFloor(p) <==> FloorPrice(cost, p) <= TargetPrice(cost, p)
  {
    var base := TargetPrice(cost, p);
    TargetPositive(cost, p);
    BelowFloor(cost, p, base);
    hide TargetPrice, FloorPrice;
    TargetArea(cost, p);
    var area := (100.0 + p.target) * (100.0 - p.floor);
    if area < 10000.0 {
      MulStrict(area, 10000.0, cost / 100.0);
    } else {
      MulMono(10000.0, area, cost / 100.0);
    }
  }

  lemma TargetPositive(cost: real, p: Policy)
    requires 0.0 < cost && -100.0 < p.target
    ensures 0.0 < TargetPrice(cost, p)
  {
    var k: real := 1.0 + p.target / 100.0;
    assert 0.0 < k;
    MulPositive(cost, k);
    assert TargetPrice(cost, p) == cost * k;
  }

  lemma TargetArea(cost: real, p: Policy)
    ensures TargetPrice(cost, p) * (100.0 - p.floor) == (100.0 + p.target) * (100.0 - p.floor) * (cost / 100.0)
  {
  }

  lemma Discounted(cost: real, p: Policy, ask: real)
    requires 0.0 < cost && Sensible(p)
    ensures var d, base := Discount(p, ask), TargetPrice(cost, p);
            0.0 <= d < 100.0 && 0.0 < Reduced(base, d) <= base
  {
    var d, base := Discount(p, ask), TargetPrice(cost, p);
    TargetPositive(cost, p);
    assert 0.0 <= d < 100.0;
    hide TargetPrice, Discount;
    var k: real := 1.0 - d / 100.0;
    assert 0.0 < k <= 1.0;
    MulPositive(base, k);
    MulMono(k, 1.0, base);
    assert Reduced(base, d) == base * k;
  }

  /**
   What the four amounts are: a markup on the cost, a margin on the price, a share of the price, and the share left.
   */
  lemma AmountsMean(cost: real, p: Policy, price: real, discount: real)
    requires 0.0 < cost && p.floor < 100.0
    ensures 100.0 * (TargetPrice(cost, p) - cost) == p.target * cost
    ensures 0.0 < FloorPrice(cost, p) && Margin(cost, FloorPrice(cost, p)) == p.floor
    ensures 100.0 * (price - Reduced(price, discount)) == discount * price
    ensures price != 0.0 ==> Margin(cost, price) * price == 100.0 * (price - cost)
  {
    BelowFloor(cost, p, cost);
    FloorMargin(cost, p);
    if price != 0.0 {
      var share := (price - cost) / price;
      assert share * price == price - cost;
      assert Margin(cost, price) == share * 100.0;
      assert share * 100.0 * price == 100.0 * (share * price);
    }
  }

  lemma FloorMargin(cost: real, p: Policy)
    requires 0.0 < cost && p.floor < 100.0 && 0.0 < FloorPrice(cost, p)
    ensures Margin(cost, FloorPrice(cost, p)) == p.floor
  {
    var share := 1.0 - p.floor / 100.0;
    var q := FloorPrice(cost, p);
    assert q * share == cost;
    assert p.floor / 100.0 * q == q - cost;
    var m := (q - cost) / q;
    assert m * q == q - cost;
    assert (m - p.floor / 100.0) * q == m * q - p.floor / 100.0 * q;
    Cancel(m - p.floor / 100.0, q);
  }

  /** An ask below nothing counts as none, and one above the cap as the cap. */
  lemma AskIsClamped(cost: real, p: Policy, ask: real)
    requires Sensible(p)
    ensures ask <= 0.0 ==> Discount(p, ask) == 0.0 && PriceOf(cost, p, ask) == PriceOf(cost, p, 0.0)
    ensures 0.0 <= ask <= p.maxDiscount + 5.0 ==> Discount(p, ask) == ask
    ensures p.maxDiscount + 5.0 <= ask ==>
              Discount(p, ask) == p.maxDiscount + 5.0 && PriceOf(cost, p, ask) == PriceOf(cost, p, p.maxDiscount + 5.0)
  {
  }

  /**
   The margin that is reported is the one on the price wherever a discount was asked for, and the markup otherwise. A
   manager must approve exactly where the floor had to be applied, the ask is above the maximum, or the profit too low.
   */
  lemma OfferMeans(cost: real, p: Policy, ask: real)
    requires 0.0 < cost && Sensible(p)
    ensures var offer := PriceOf(cost, p, ask);
            && offer.margin == (if ask <= 0.0 then p.target else Margin(cost, offer.price))
            && (offer.needsApprove <==>
                  (0.0 < ask && Reduced(TargetPrice(cost, p), Discount(p, ask)) < offer.price)
                  || p.maxDiscount < Max(ask, 0.0) || offer.price - cost < p.minProfit)
  {
    var reduced := Reduced(TargetPrice(cost, p), Discount(p, ask));
    Discounted(cost, p, ask);
    BelowFloor(cost, p, reduced);
    FloorMargin(cost, p);
    hide TargetPrice, FloorPrice, Margin, Reduced;
  }

  /** A floor that no price can reach: the offer is at cost, with a manager to approve it. */
  lemma FloorOutOfReach(cost: real, p: Policy)
    requires 100.0 <= p.floor && p.target < p.floor && 0.0 <= p.maxDiscount
    ensures PriceOf(cost, p, 0.0) == Offer(cost, p.floor, true)
  {
  }

  lemma PriceIsClosedForm(cost: real, p: Policy, ask: real)
    requires 0.0 < cost && Sensible(p)
    ensures TargetCoversFloor(p) || Discount(p, ask) != 0.0 ==> PriceOf(cost, p, ask).price == ClosedForm(cost, p, ask)
    ensures Discount(p, ask) == 0.0 ==> PriceOf(cost, p, ask).price == TargetPrice(cost, p)
  {
    Discounted(cost, p, ask);
    TargetAgainstFloor(cost, p);
    BelowFloor(cost, p, Reduced(TargetPrice(cost, p), Discount(p, ask)));
  }

  /** The closed form holds for every discount asked for exactly when the target covers the floor. */
  lemma ClosedFormExactly(cost: real, p: Policy)
    requires 0.0 < cost && Sensible(p)
    ensures TargetCoversFloor(p) <==> forall ask :: PriceOf(cost, p, ask).price == ClosedForm(cost, p, ask)
  {
    hide PriceOf, ClosedForm, TargetPrice, FloorPrice;
    forall ask
      ensures TargetCoversFloor(p) ==> PriceOf(cost, p, ask).price == ClosedForm(cost, p, ask)
    {
      PriceIsClosedForm(cost, p, ask);
    }
    if !TargetCoversFloor(p) {
      UncoveredAtZero(cost, p);
      assert PriceOf(cost, p, 0.0).price != ClosedForm(cost, p, 0.0);
    }
  }

  lemma UncoveredAtZero(cost: real, p: Policy)
    requires 0.0 < cost && Sensible(p) && !TargetCoversFloor(p)
    ensures PriceOf(cost, p, 0.0).price < FloorPrice(cost, p) == ClosedForm(cost, p, 0.0)
    ensures PriceOf(cost, p, 1.0 + p.maxDiscount + 5.0).price == FloorPrice(cost, p)
  {
    var ask := 1.0 + p.maxDiscount + 5.0;
    TargetAgainstFloor(cost, p);
    PriceIsClosedForm(cost, p, 0.0);
    PriceIsClosedForm(cost, p, ask);
    Discounted(cost, p, ask);
  }

  /** Asking for more never raises the price: exactly when the target covers the floor. */
  lemma NeverRisesExactly(cost: real, p: Policy)
    requires 0.0 < cost && Sensible(p)
    ensures TargetCoversFloor(p) <==>
            forall a, b :: a <= b ==> PriceOf(cost, p, b).price <= PriceOf(cost, p, a).price
  {
    hide PriceOf, TargetPrice, FloorPrice, TargetCoversFloor;
    if TargetCoversFloor(p) {
      forall a, b | a <= b
        ensures PriceOf(cost, p, b).price <= PriceOf(cost, p, a).price
      {
        CoveredNeverRises(cost, p, a, b);
      }
    } else {
      UncoveredAtZero(cost, p);
      assert 0.0 <= 1.0 + p.maxDiscount + 5.0;
    }
  }

  lemma CoveredNeverRises(cost: real, p: Policy, a: real, b: real)
    requires 0.0 < cost && Sensible(p) && TargetCoversFloor(p) && a <= b
    ensures PriceOf(cost, p, b).price <= PriceOf(cost, p, a).price
  {
    hide PriceOf, TargetPrice, FloorPrice, TargetCoversFloor;
    PriceIsClosedForm(cost, p, a);
    PriceIsClosedForm(cost, p, b);
    TargetAgainstFloor(cost, p);
    assert Discount(p, a) <= Discount(p, b);
    ReducedFalls(TargetPrice(cost, p), Discount(p, a), Discount(p, b));
    hide Discount, Reduced;
  }

  lemma ReducedFalls(price: real, a: real, b: real)
    requires 0.0 <= price && a <= b
    ensures Reduced(price, b) <= Reduced(price, a)
  {
    MulMono(1.0 - b / 100.0, 1.0 - a / 100.0, price);
  }

  /** Then the margin on the price is never below the floor. */
  lemma MarginHolds(cost: real, p: Policy, ask: real)
    requires 0.0 < cost && Sensible(p)
    ensures TargetCoversFloor(p) || Discount(p, ask) != 0.0 ==> p.floor <= Margin(cost, PriceOf(cost, p, ask).price)
  {
    PriceIsClosedForm(cost, p, ask);
    Discounted(cost, p, ask);
    BelowFloor(cost, p, TargetPrice(cost, p));
    if TargetCoversFloor(p) || Discount(p, ask) != 0.0 {
      hide PriceOf, TargetPrice, FloorPrice, Margin, TargetCoversFloor;
      BelowFloor(cost, p, ClosedForm(cost, p, ask));
    }
  }

  // --- the check after pricing

  const TOLERANCE := 0.000000001

  datatype Issue = MarginBelowFloor | ProfitBelowMinimum | CashflowGap

  /** The vat-mode annotation check of the source can never fire: the mode is derived from the same corridor. */
  method ValidateEconomics(cost: real, price: real, p: Policy, clientPrepay: real, supplierPrepay: real)
    returns (issues: seq<Issue>, needsHuman: bool)
    ensures MarginBelowFloor in issues <==> Margin(cost, price) + 0.000000001 < p.floor
    ensures ProfitBelowMinimum in issues <==> price - cost < p.minProfit
    ensures CashflowGap in issues <==> clientPrepay + 0.000000001 < supplierPrepay
    ensures needsHuman <==> issues != []
  {
    issues := [];
    needsHuman := false;
    if Margin(cost, price) + TOLERANCE < p.floor {
      issues := issues + [MarginBelowFloor];
      needsHuman := true;
    }
    if price - cost < p.minProfit {
      issues := issues + [ProfitBelowMinimum];
      needsHuman := true;
    }
    if clientPrepay + TOLERANCE < supplierPrepay {
      issues := issues + [CashflowGap];
      needsHuman := true;
    }
  }

  /**
   The quote pipeline asks for no discount. There pricing itself never sees a margin breach; the later check does,
   for every cost alike, exactly when the target misses the floor by more than the tolerance.
   */
  lemma BreachOnlySeenByCheck(cost: real, p: Policy)
    requires 0.0 < cost && Sensible(p) && 0.0 <= p.maxDiscount
    ensures var offer := PriceOf(cost, p, 0.0);
            && (offer.needsApprove <==> offer.price - cost < p.minProfit)
            && (Margin(cost, offer.price) < p.floor <==> !TargetCoversFloor(p))
            && (Margin(cost, offer.price) + TOLERANCE < p.floor <==>
                (100.0 + p.target) * (100.0 - p.floor + TOLERANCE) < 10000.0)
  {
    PriceIsClosedForm(cost, p, 0.0);
    TargetAgainstFloor(cost, p);
    BelowFloor(cost, p, TargetPrice(cost, p));
    TargetMargin(cost, p);
    hide PriceOf, TargetPrice, FloorPrice, Margin;
    var r := 10000.0 / (100.0 + p.target);
    assert (100.0 + p.target) * r == 10000.0;
    ShareAgainstRoom(100.0 + p.target, 100.0 - p.floor + TOLERANCE, r, 10000.0);
    assert 100.0 - r + TOLERANCE < p.floor <==> 100.0 - p.floor + TOLERANCE < r;
  }

  lemma ShareAgainstRoom(whole: real, room: real, r: real, area: real)
    requires 0.0 < whole && whole * r == area
    ensures room < r <==> whole * room < area
  {
    if r <= room {
      MulMono(r, room, whole);
    } else {
      MulStrict(room, r, whole);
    }
  }

  lemma TargetMargin(cost: real, p: Policy)
    requires 0.0 < cost && -100.0 < p.target
    ensures Margin(cost, TargetPrice(cost, p)) == 100.0 - 10000.0 / (100.0 + p.target)
  {
    var unit, whole := cost / 100.0, 100.0 + p.target;
    assert 100.0 * unit == cost && TargetPrice(cost, p) == unit * whole;
    MarginOfMultiple(unit, whole, 10000.0 / whole);
  }

  /** The margin on a price of `whole` hundredths of the cost. */
  lemma MarginOfMultiple(unit: real, whole: real, r: real)
    requires 0.0 < unit && 0.0 < whole && r * whole == 10000.0
    ensures Margin(100.0 * unit, unit * whole) == 100.0 - r
  {
    MulPositive(unit, whole);
    var price := unit * whole;
    MarginIs(100.0 * unit, price, 1.0 - r / 100.0, unit * (r * whole), r);
  }

  lemma MarginIs(cost: real, price: real, share: real, product: real, r: real)
    requires 0.0 < price && product == r * price == 100.0 * cost && share == 1.0 - r / 100.0
    ensures Margin(cost, price) == 100.0 - r
  {
    var m := (price - cost) / price;
    assert m * price == price - cost;
    assert (m - share) * price == m * price - share * price;
    assert share * price == price - r * price / 100.0;
    Cancel(m - share, price);
  }

  lemma Cancel(a: real, b: real)
    requires 0.0 < b && a * b == 0.0
    ensures a == 0.0
  {
    if 0.0 < a {
      MulPositive(a, b);
    } else if a < 0.0 {
      MulPositive(-a, b);
    }
  }

  lemma DefaultsCover()
    ensures var p := Policy(18.0, 10.0, 8.0, 3000.0); Sensible(p) && TargetCoversFloor(p)
  {
  }

  /** The pricing routine step by step, with the discount steps it offers to the negotiator. */
  method PriceOffer(cost: real, p: Policy, ask: real) returns (offer: Offer, steps: seq<DiscountStep>)
    ensures offer == PriceOf(cost, p, ask)
    ensures steps == StepsFrom(cost, p, [0.0, 3.0, 5.0, Min(Discount(p, ask), p.maxDiscount)])
  {
    var d := Discount(p, ask);
    var price := TargetPrice(cost, p);
    var margin := p.target;
    var needsApprove := false;
    if d != 0.0 {
      price := Reduced(price, d);
      margin := Margin(cost, price);
    }
    if margin < p.floor {
      needsApprove := true;
      price := if p.floor < 100.0 then FloorPrice(cost, p) else cost;
      margin := p.floor;
    }
    if p.maxDiscount < d {
      needsApprove := true;
    }
    if price - cost < p.minProfit {
      needsApprove := true;
    }
    offer := Offer(price, margin, needsApprove);
    steps := DiscountSteps(cost, p, [0.0, 3.0, 5.0, Min(Discount(p, ask), p.maxDiscount)]);
  }

  function StepOf(cost: real, p: Policy, discount: real): DiscountStep {
    var price := Reduced(TargetPrice(cost, p), discount);
    DiscountStep(discount, price, Margin(cost, price), price - cost)
  }

  predicate Affordable(p: Policy, step: DiscountStep) {
    p.floor <= step.margin && p.minProfit <= step.profit
  }

  function StepsFrom(cost: real, p: Policy, discounts: seq<real>): seq<DiscountStep> {
    if discounts == [] then []
    else
      var step := StepOf(cost, p, discounts[0]);
      (if Affordable(p, step) then [step] else []) + StepsFrom(cost, p, discounts[1..])
  }

  /** Every step on offer keeps the floor margin and the least profit, and no candidate that does is missing. */
  lemma {:induction false} StepsAreAffordable(cost: real, p: Policy, discounts: seq<real>)
    ensures forall s :: s in StepsFrom(cost, p, discounts) <==>
              && s.discount in discounts && s.price == Reduced(TargetPrice(cost, p), s.discount)
              && s.margin == Margin(cost, s.price) && s.profit == s.price - cost
              && p.floor <= s.margin && p.minProfit <= s.profit
  {
    assert forall s: DiscountStep ::
        s == StepOf(cost, p, s.discount) <==>
        s.price == Reduced(TargetPrice(cost, p), s.discount) && s.margin == Margin(cost, s.price)
          && s.profit == s.price - cost;
    assert forall s :: Affordable(p, s) <==> p.floor <= s.margin && p.minProfit <= s.profit;
    hide StepOf, Affordable, Reduced, TargetPrice, Margin;
    if discounts != [] {
      StepsAreAffordable(cost, p, discounts[1..]);
      StepKeepsDiscount(cost, p, discounts[0]);
      assert forall d :: d in discounts <==> d == discounts[0] || d in discounts[1..];
    }
  }

  lemma StepKeepsDiscount(cost: real, p: Policy, discount: real)
    ensures StepOf(cost, p, discount).discount == discount
  {
  }

  method DiscountSteps(cost: real, p: Policy, discounts: seq<real>) returns (steps: seq<DiscountStep>)
    ensures steps == StepsFrom(cost, p, discounts)
  {
    steps := [];
    for n := 0 to |discounts|
      invariant steps + StepsFrom(cost, p, discounts[n..]) == StepsFrom(cost, p, discounts)
    {
      hide StepOf, Affordable;
      assert discounts[n..][1..] == discounts[n + 1..];
      var step := StepOf(cost, p, discounts[n]);
      if Affordable(p, step) {
        steps := steps + [step];
      }
    }
  }
}
