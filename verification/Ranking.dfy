/** Supplier quotes: a comparable tax base, a score, a ranking. Amounts are exact; rounding is to the even neighbour. */
module Ranking {
  import opened Numbers
  import opened Wrappers

  datatype VatMode = Included | Excluded | Zero

  /** Fields as a quote carries them. A missing number is None; the source treats a zero like a missing one. */
  datatype Quote = Quote(
    error: bool, rouble: bool, price: real, priceRub: Option<real>,
    vatMode: Option<VatMode>, notedVat: Option<VatMode>, effective: Option<real>,
    etaMin: Option<real>, etaMax: Option<real>, reliability: Option<real>, safety: Option<real>)

  datatype Ranked = Ranked(quote: Quote, score: real, landed: real)

  /** `x or alt` */
  function Or(x: Option<real>, alt: real): real {
    if x.None? || x.value == 0.0 then alt else x.value
  }

  // --- rounding

  function RoundEven(x: real): int {
    var down, rest := x.Floor, x - x.Floor as real;
    if rest < 0.5 then down
    else if 0.5 < rest then down + 1
    else if down % 2 == 0 then down else down + 1
  }

  function Round2(x: real): real { RoundEven(x * 100.0) as real / 100.0 }
  function Round4(x: real): real { RoundEven(x * 10000.0) as real / 10000.0 }

  lemma RoundEvenMonotone(x: real, y: real)
    requires x <= y
    ensures RoundEven(x) <= RoundEven(y)
  {
  }

  /** To the nearest, and from halfway between two to the even one. */
  lemma RoundEvenMeans(x: real)
    ensures var n := RoundEven(x);
            x - 0.5 <= n as real <= x + 0.5 && (n as real == x - 0.5 || n as real == x + 0.5 ==> n % 2 == 0)
  {
  }

  /** Is x rounded to n or less? */
  predicate UpTo(x: real, n: int) { x < n as real + 0.5 || (x == n as real + 0.5 && n % 2 == 0) }

  lemma RoundEvenUpTo(x: real, n: int)
    ensures RoundEven(x) <= n <==> UpTo(x, n)
  {
  }

  lemma RoundEvenWhole(n: int)
    ensures RoundEven(n as real) == n
  {
  }

  lemma Round2Again(x: real)
    ensures Round2(Round2(x)) == Round2(x)
  {
    var n := RoundEven(x * 100.0);
    assert n as real / 100.0 * 100.0 == n as real;
    RoundEvenWhole(n);
  }

  // --- tax base

  function DetectVat(q: Quote, international: bool): VatMode {
    if q.vatMode.Some? then q.vatMode.value
    else if q.notedVat.Some? then q.notedVat.value
    else if international then Zero
    else Included
  }

  function Times(a: real, b: real): real { a * b }

  function VatFactor(vatPct: real): real { 1.0 + vatPct / 100.0 }

  function Effective(raw: real, mode: VatMode, vatPct: real): real {
    if mode == Excluded then Round2(Times(raw, VatFactor(vatPct))) else Round2(raw)
  }

  function NormalizeTax(q: Quote, international: bool, vatPct: real): Quote {
    var raw := Or(q.priceRub, q.price);
    var mode := DetectVat(q, international);
    q.(vatMode := Some(mode), effective := Some(Effective(raw, mode, vatPct)))
  }

  /** For roubles the rate is one; for another currency it is whatever the day says. */
  /** Without VAT, the VAT is added to the price; otherwise the price is the cost. A stated mode goes before a note. */
  lemma TaxMeans(q: Quote, price: real, international: bool, vatPct: real)
    ensures Effective(price, Excluded, vatPct) == Round2(price + price * vatPct / 100.0)
    ensures Effective(price, Included, vatPct) == Effective(price, Zero, vatPct) == Round2(price)
    ensures q.vatMode.Some? ==> DetectVat(q, international) == q.vatMode.value
    ensures q.vatMode.None? && q.notedVat.Some? ==> DetectVat(q, international) == q.notedVat.value
    ensures q.vatMode.None? && q.notedVat.None? ==> (DetectVat(q, international).Zero? <==> international)
    ensures q.vatMode.None? && q.notedVat.None? ==> (DetectVat(q, international).Included? <==> !international)
  {
    hide Round2;
    assert Times(price, VatFactor(vatPct)) == price + price * vatPct / 100.0;
  }

  function NormalizePrice(q: Quote, rate: real): Quote {
    q.(priceRub := Some(Round2(if q.rouble then q.price else Times(q.price, rate))))
  }

  /** A row of the quotes table: a price column of two decimals beside the whole quote as JSON. */
  datatype QuoteRow = QuoteRow(price: real, raw: Quote)

  function SaveQuote(q: Quote): QuoteRow { QuoteRow(Round2(q.price), q) }

  function LoadQuote(row: QuoteRow): Quote { row.raw.(price := row.price) }

  /**
   A quote comes back from the table as it was exactly if its price is in whole hundredths; else only the price moved.
   */
  lemma SavedExactly(q: Quote)
    ensures var loaded := LoadQuote(SaveQuote(q));
            && (loaded == q <==> exists n: int :: q.price == Hundredths(n))
            && loaded == q.(price := loaded.price) && q.price - 0.005 <= loaded.price <= q.price + 0.005
            && LoadQuote(SaveQuote(loaded)) == loaded
  {
    Round2Again(q.price);
    RoundClose(q.price);
    assert Round2(q.price) == Hundredths(RoundEven(q.price * 100.0));
    if n: int :| q.price == Hundredths(n) {
      assert q.price * 100.0 == n as real;
      RoundEvenWhole(n);
    }
    hide RoundEven;
  }

  function Hundredths(n: int): real { n as real / 100.0 }

  /** The order of the pipeline after ranking: rouble price first, then tax. */
  function Settle(q: Quote, international: bool, rate: real, vatPct: real): Quote {
    NormalizeTax(NormalizePrice(q, rate), international, vatPct)
  }

  /**
   A rouble quote that was saved and is read in a later turn keeps its tax mode, through the first renormalisation and
   through the second, whatever corridor and rates the later turn has; and it keeps its effective cost, unless the VAT
   percentage was changed meanwhile and the quote is without VAT.
   */
  lemma RenormalisingIsStable(q: Quote, corridor: bool, later: bool, rate: real, laterRate: real, vatPct: real,
                              laterVat: real)
    requires q.rouble && 0.01 <= q.price
    ensures var saved := Settle(q, corridor, rate, vatPct);
            var reloaded := NormalizeTax(LoadQuote(SaveQuote(saved)), later, laterVat);
            var settled := Settle(reloaded, later, laterRate, laterVat);
            && reloaded.vatMode == settled.vatMode == saved.vatMode && settled.priceRub == saved.priceRub
            && (laterVat == vatPct || DetectVat(q, corridor) != Excluded ==>
                  reloaded.effective == settled.effective == saved.effective)
  {
    var cents := RoundEven(q.price * 100.0);
    RoundEvenMonotone(1.0, q.price * 100.0);
    RoundEvenWhole(1);
    Round2Again(q.price);
    hide RoundEven;
    assert 0.0 < Round2(q.price);
    hide Round2, Times, VatFactor;
  }

  // --- quotes that are read again at another rate or VAT percentage

  /** A quote with its price in whole hundredths. */
  function Priced(q: Quote, cents: nat): Quote { q.(price := cents as real / 100.0) }

  /** The quote is settled, saved, read in a later turn, taxed and settled again: is its effective cost the same? */
  predicate CostKept(q: Quote, corridor: bool, later: bool, rate: real, laterRate: real,
                     vatPct: real, laterVat: real) {
    var saved := Settle(q, corridor, rate, vatPct);
    Settle(NormalizeTax(LoadQuote(SaveQuote(saved)), later, laterVat), later, laterRate, laterVat).effective
      == saved.effective
  }

  /** The effective cost at a rate. */
  function CostAt(price: real, rate: real, mode: VatMode, vatPct: real): real {
    Effective(Or(Some(Round2(Times(price, rate))), price), mode, vatPct)
  }

  lemma WholePrice(cents: nat)
    ensures Round2(cents as real / 100.0) == cents as real / 100.0
  {
    var p := cents as real / 100.0;
    assert p * 100.0 == cents as real;
    RoundEvenWhole(cents);
    hide RoundEven;
  }

  lemma CostKeptAt(q: Quote, p: real, corridor: bool, later: bool, rate: real, laterRate: real,
                   vatPct: real, laterVat: real)
    requires !q.rouble && q.price == p && Round2(p) == p
    ensures var mode := DetectVat(q, corridor);
            CostKept(q, corridor, later, rate, laterRate, vatPct, laterVat)
            <==> CostAt(p, laterRate, mode, laterVat) == CostAt(p, rate, mode, vatPct)
  {
    var mode := DetectVat(q, corridor);
    var saved := Settle(q, corridor, rate, vatPct);
    var loaded := NormalizeTax(LoadQuote(SaveQuote(saved)), later, laterVat);
    SettledAt(q, corridor, rate, vatPct);
    assert SaveQuote(saved).price == p && loaded.price == p && loaded.vatMode == Some(mode) && !loaded.rouble;
    SettledAt(loaded, later, laterRate, laterVat);
    hide *;
    CostKeptIs(q, corridor, later, rate, laterRate, vatPct, laterVat);
  }

  lemma CostKeptIs(q: Quote, corridor: bool, later: bool, rate: real, laterRate: real,
                   vatPct: real, laterVat: real)
    ensures var saved := Settle(q, corridor, rate, vatPct);
            CostKept(q, corridor, later, rate, laterRate, vatPct, laterVat) <==>
            Settle(NormalizeTax(LoadQuote(SaveQuote(saved)), later, laterVat), later, laterRate, laterVat).effective
              == saved.effective
  {
  }

  lemma SettledAt(q: Quote, corridor: bool, rate: real, vatPct: real)
    requires !q.rouble
    ensures Settle(q, corridor, rate, vatPct).effective == Some(CostAt(q.price, rate, DetectVat(q, corridor), vatPct))
  {
    var n := NormalizePrice(q, rate);
    hide Times, Round2, Effective;
    assert n.priceRub == Some(Round2(Times(q.price, rate)));
    assert Or(n.priceRub, n.price) == Or(Some(Round2(Times(q.price, rate))), q.price);
    assert Settle(q, corridor, rate, vatPct) == NormalizeTax(n, corridor, vatPct);
  }

  /** In another currency, the cost is that of the later rate, whatever happened before. */
  lemma CostKeptMeans(q: Quote, cents: nat, corridor: bool, later: bool, rate: real, laterRate: real,
                      vatPct: real, laterVat: real)
    requires !q.rouble
    ensures var p, mode := cents as real / 100.0, DetectVat(q, corridor);
            CostKept(Priced(q, cents), corridor, later, rate, laterRate, vatPct, laterVat)
            <==> CostAt(p, laterRate, mode, laterVat) == CostAt(p, rate, mode, vatPct)
  {
    WholePrice(cents);
    hide CostKept, CostAt, Round2;
    CostKeptAt(Priced(q, cents), cents as real / 100.0, corridor, later, rate, laterRate, vatPct, laterVat);
  }

  lemma RoundClose(x: real)
    ensures x - 0.005 <= Round2(x) <= x + 0.005
  {
    var n := RoundEven(x * 100.0);
    assert x * 100.0 - 0.5 <= n as real <= x * 100.0 + 0.5;
  }

  lemma TimesFalls(a: real, b: real, c: real)
    requires a <= b && 0.0 <= c
    ensures a * c <= b * c && c * a <= c * b
  {
  }

  lemma EffectiveTaxed(x: real, vatPct: real)
    ensures Effective(x, Excluded, vatPct) == Round2(Times(x, VatFactor(vatPct)))
  {
  }

  lemma EffectiveUntaxed(x: real, mode: VatMode, vatPct: real)
    requires mode != Excluded
    ensures Effective(x, mode, vatPct) == Round2(x)
  {
  }

  lemma VatAdds(vatPct: real)
    requires 0.0 <= vatPct
    ensures 1.0 <= VatFactor(vatPct)
  {
  }

  lemma EffectiveApart(x: real, y: real, mode: VatMode, vatPct: real)
    requires 0.0 <= vatPct && 0.02 <= y - x
    ensures Effective(x, mode, vatPct) < Effective(y, mode, vatPct)
  {
    hide *;
    if mode == Excluded {
      VatAdds(vatPct);
      EffectiveTaxed(x, vatPct);
      EffectiveTaxed(y, vatPct);
      TaxedApart(x, y, VatFactor(vatPct));
    } else {
      EffectiveUntaxed(x, mode, vatPct);
      EffectiveUntaxed(y, mode, vatPct);
      RoundClose(x);
      RoundClose(y);
    }
  }

  lemma CostsApart(price: real, a: real, b: real, mode: VatMode, vatPct: real)
    requires 0.0 <= vatPct && 0.01 <= a && 0.03 <= b - a
    ensures Effective(Or(Some(Round2(a)), price), mode, vatPct) < Effective(Or(Some(Round2(b)), price), mode, vatPct)
  {
    RoundClose(a);
    RoundClose(b);
    hide Round2, Effective;
    EffectiveApart(Round2(a), Round2(b), mode, vatPct);
  }

  /** At a price that is large enough, two rates give two costs. */
  lemma RatesTellApart(price: real, low: real, high: real, mode: VatMode, vatPct: real)
    requires 0.0 < low < high && 0.0 <= vatPct
    requires 0.03 <= Times(price, high) - Times(price, low) && 0.01 <= Times(price, low)
    ensures CostAt(price, low, mode, vatPct) < CostAt(price, high, mode, vatPct)
  {
    hide Effective, Round2;
    CostsApart(price, Times(price, low), Times(price, high), mode, vatPct);
  }

  lemma TaxedApart(x: real, y: real, k: real)
    requires 0.02 <= y - x && 1.0 <= k
    ensures Round2(Times(x, k)) < Round2(Times(y, k))
  {
    RoundClose(Times(x, k));
    RoundClose(Times(y, k));
    hide Round2;
    TimesFalls(1.0, k, y - x);
    assert (y - x) * k == y * k - x * k;
  }

  /** Such a price in whole hundredths. */
  lemma LargePrice(low: real, high: real) returns (cents: nat)
    requires 0.0 < low < high
    ensures var p := cents as real / 100.0; 0.03 <= Times(p, high) - Times(p, low) && 0.01 <= Times(p, low)
  {
    var gap := high - low;
    var bound := 3.0 / gap + 1.0 / low;
    assert 3.0 / gap * gap == 3.0 && 1.0 / low * low == 1.0;
    Quotients(gap, low);
    cents := bound.Floor + 1;
    var n := cents as real;
    TimesFalls(3.0 / gap, n, gap);
    TimesFalls(1.0 / low, n, low);
    assert n / 100.0 * gap == n * gap / 100.0 && n / 100.0 * low == n * low / 100.0;
    assert n / 100.0 * high - n / 100.0 * low == n / 100.0 * gap;
  }

  lemma Quotients(gap: real, low: real)
    requires 0.0 < gap && 0.0 < low
    ensures 0.0 < 3.0 / gap && 0.0 < 1.0 / low
  {
  }

  /**
   In another currency, whatever its tax mode, a quote keeps its effective cost for every price in whole hundredths if
   and only if the rate is the same in the later turn.
   */
  lemma ForeignKeptExactly(q: Quote, corridor: bool, later: bool, rate: real, laterRate: real, vatPct: real)
    requires !q.rouble && 0.0 < rate && 0.0 < laterRate && 0.0 <= vatPct
    ensures laterRate == rate
            <==> forall cents: nat :: CostKept(Priced(q, cents), corridor, later, rate, laterRate, vatPct, vatPct)
  {
    var mode := DetectVat(q, corridor);
    hide CostKept, CostAt, Priced;
    if laterRate == rate {
      forall cents: nat
        ensures CostKept(Priced(q, cents), corridor, later, rate, laterRate, vatPct, vatPct)
      {
        CostKeptMeans(q, cents, corridor, later, rate, laterRate, vatPct, vatPct);
      }
    } else {
      var low, high := if rate < laterRate then rate else laterRate, if rate < laterRate then laterRate else rate;
      var cents := LargePrice(low, high);
      RatesTellApart(cents as real / 100.0, low, high, mode, vatPct);
      CostKeptMeans(q, cents, corridor, later, rate, laterRate, vatPct, vatPct);
      assert !CostKept(Priced(q, cents), corridor, later, rate, laterRate, vatPct, vatPct);
    }
  }

  /** So it is for a quote of 100 dollars, VAT included, when the dollar goes from 90 to 91 roubles. */
  lemma ForeignQuoteMoves()
    ensures var q := Quote(false, false, 100.0, None, Some(Included), None, None, None, None, None, None);
            !CostKept(q, false, false, 90.0, 91.0, 22.0, 22.0)
  {
    var q := Quote(false, false, 100.0, None, Some(Included), None, None, None, None, None, None);
    assert Priced(q, 10000) == q;
    RatesTellApart(100.0, 90.0, 91.0, Included, 22.0);
    CostKeptMeans(q, 10000, false, false, 90.0, 91.0, 22.0, 22.0);
    hide CostKept, CostAt;
  }

  // --- roubles, when the VAT percentage was changed

  lemma RoubleSettledAt(q: Quote, corridor: bool, rate: real, vatPct: real)
    requires q.rouble && Round2(q.price) == q.price && q.price != 0.0
    ensures var n := Settle(q, corridor, rate, vatPct);
            n == q.(priceRub := Some(q.price), vatMode := Some(DetectVat(q, corridor)),
                    effective := Some(Effective(q.price, DetectVat(q, corridor), vatPct)))
  {
    hide Round2, Effective;
  }

  /** In roubles, the cost is that of the later VAT percentage. */
  lemma RoubleKeptMeans(q: Quote, cents: nat, corridor: bool, later: bool, rate: real, laterRate: real,
                        vatPct: real, laterVat: real)
    requires q.rouble && 0 < cents
    ensures var p, mode := cents as real / 100.0, DetectVat(q, corridor);
            CostKept(Priced(q, cents), corridor, later, rate, laterRate, vatPct, laterVat)
            <==> Effective(p, mode, laterVat) == Effective(p, mode, vatPct)
  {
    var p, priced := cents as real / 100.0, Priced(q, cents);
    WholePrice(cents);
    var saved := Settle(priced, corridor, rate, vatPct);
    RoubleSettledAt(priced, corridor, rate, vatPct);
    hide Round2, Effective, Settle;
    assert LoadQuote(SaveQuote(saved)) == saved;
    RoubleSettledAt(NormalizeTax(saved, later, laterVat), later, laterRate, laterVat);
  }

  /** Without VAT, two percentages give two costs at a price that is large enough. */
  lemma PercentagesTellApart(price: real, low: real, high: real)
    requires 0.02 <= Times(price, VatFactor(high)) - Times(price, VatFactor(low))
    ensures Effective(price, Excluded, low) < Effective(price, Excluded, high)
  {
    RoundClose(Times(price, VatFactor(low)));
    RoundClose(Times(price, VatFactor(high)));
    hide Round2, Times, VatFactor;
  }

  /**
   A rouble quote keeps its effective cost for every price in whole kopecks if and only if it is not without VAT or the
   VAT percentage is the same in the later turn.
   */
  lemma RoubleKeptExactly(q: Quote, corridor: bool, later: bool, rate: real, laterRate: real, vatPct: real,
                          laterVat: real)
    requires q.rouble && 0.0 <= vatPct && 0.0 <= laterVat
    ensures DetectVat(q, corridor) != Excluded || laterVat == vatPct
            <==> forall cents: nat | 0 < cents ::
                   CostKept(Priced(q, cents), corridor, later, rate, laterRate, vatPct, laterVat)
  {
    var mode := DetectVat(q, corridor);
    if mode != Excluded || laterVat == vatPct {
      forall cents: nat | 0 < cents
        ensures CostKept(Priced(q, cents), corridor, later, rate, laterRate, vatPct, laterVat)
      {
        hide CostKept, Priced, Round2;
        RoubleKeptMeans(q, cents, corridor, later, rate, laterRate, vatPct, laterVat);
      }
    } else {
      var low, high := if vatPct < laterVat then vatPct else laterVat, if vatPct < laterVat then laterVat else vatPct;
      VatAdds(low);
      assert VatFactor(low) < VatFactor(high);
      var cents := LargePrice(VatFactor(low), VatFactor(high));
      hide CostKept, Priced, Effective, VatFactor;
      assert 0 < cents;
      PercentagesTellApart(cents as real / 100.0, low, high);
      RoubleKeptMeans(q, cents, corridor, later, rate, laterRate, vatPct, laterVat);
      assert !CostKept(Priced(q, cents), corridor, later, rate, laterRate, vatPct, laterVat);
    }
  }

  /** So it is not kept for 100 roubles without VAT when the percentage goes from 20 to 22. */
  lemma RoubleQuoteMoves()
    ensures var q := Quote(false, true, 100.0, None, Some(Excluded), None, None, None, None, None, None);
            !CostKept(q, false, false, 1.0, 1.0, 20.0, 22.0)
  {
    var q := Quote(false, true, 100.0, None, Some(Excluded), None, None, None, None, None, None);
    assert Priced(q, 10000) == q;
    PercentagesTellApart(100.0, 20.0, 22.0);
    hide CostKept, Effective;
    RoubleKeptMeans(q, 10000, false, false, 1.0, 1.0, 20.0, 22.0);
  }

  // --- score

  predicate Admissible(q: Quote) {
    !q.error && q.price < 999999999.0
  }

  function Landed(q: Quote): real {
    Or(q.effective, Or(q.priceRub, Or(Some(q.price), 1.0)))
  }

  function Eta(q: Quote): real {
    (Or(q.etaMin, 14.0) + Or(q.etaMax, 20.0)) / 2.0
  }

  function Reliability(q: Quote): real { Or(q.reliability, 0.5) }

  function Safety(q: Quote): real { Or(q.safety, Reliability(q)) }

  function RawScore(q: Quote): real {
    1000000.0 / Max(Landed(q), 1.0) * 0.45 + Reliability(q) * 0.25 + Safety(q) * 0.15 + 20.0 / Max(Eta(q), 1.0) * 0.15
  }

  function RankedOf(q: Quote): Ranked { Ranked(q, Round4(RawScore(q)), Landed(q)) }

  /** Which of its numbers a quote is judged by; one that is missing or zero gives way to the next. */
  lemma CriteriaMean(q: Quote)
    ensures forall x :: x != 0.0 && q.effective == Some(x) ==> Landed(q) == x
    ensures forall x :: x != 0.0 && q.effective.None? && q.priceRub == Some(x) ==> Landed(q) == x
    ensures q.effective.None? && q.priceRub.None? && q.price != 0.0 ==> Landed(q) == q.price
    ensures forall x, y :: x != 0.0 && y != 0.0 && q.etaMin == Some(x) && q.etaMax == Some(y) ==>
              Eta(q) == x / 2.0 + y / 2.0
    ensures q.etaMin.None? && q.etaMax.None? ==> Eta(q) == 17.0
    ensures forall x :: x != 0.0 && q.reliability == Some(x) ==> Reliability(q) == x
    ensures forall x :: x != 0.0 && q.safety == Some(x) ==> Safety(q) == x
    ensures q.reliability.None? ==> Reliability(q) == 0.5
    ensures q.safety.None? ==> Safety(q) == Reliability(q)
  {
  }

  lemma ReciprocalFallsStrictly(c: real, x: real, y: real)
    requires 0.0 < c && 0.0 < x < y
    ensures c / y < c / x
  {
    var p, q := c / x, c / y;
    assert p * x == c && q * y == c && 0.0 < q;
    TimesGrows(q, x, y);
    if p <= q {
      TimesFalls(p, q, x);
    }
  }

  lemma TimesGrows(a: real, b: real, c: real)
    requires 0.0 < a && b < c
    ensures a * b < a * c
  {
  }

  /** All else equal, the cheaper quote scores higher, by 45 hundredths of the difference of a million over the cost. */
  lemma CheaperScoresHigher(a: Quote, b: Quote)
    requires 1.0 <= Landed(a) < Landed(b)
    requires Eta(a) == Eta(b) && Reliability(a) == Reliability(b) && Safety(a) == Safety(b)
    ensures RawScore(a) - RawScore(b) == 9.0 / 20.0 * (1000000.0 / Landed(a) - 1000000.0 / Landed(b))
    ensures RawScore(b) < RawScore(a)
  {
    ReciprocalFallsStrictly(1000000.0, Landed(a), Landed(b));
    hide Landed, Eta, Reliability, Safety;
  }

  /** All else equal, so does the faster one, by 15 hundredths of the difference of twenty over the days. */
  lemma FasterScoresHigher(a: Quote, b: Quote)
    requires 1.0 <= Eta(a) < Eta(b)
    requires Landed(a) == Landed(b) && Reliability(a) == Reliability(b) && Safety(a) == Safety(b)
    ensures RawScore(a) - RawScore(b) == 3.0 / 20.0 * (20.0 / Eta(a) - 20.0 / Eta(b))
    ensures RawScore(b) < RawScore(a)
  {
    ReciprocalFallsStrictly(20.0, Eta(a), Eta(b));
    hide Landed, Eta, Reliability, Safety;
  }

  /** At the same cost and time, reliability is worth a quarter of itself, and safety three twentieths. */
  lemma TrustIsWorth(a: Quote, b: Quote)
    requires Landed(a) == Landed(b) && Eta(a) == Eta(b)
    ensures RawScore(a) - RawScore(b)
         == (Reliability(a) - Reliability(b)) / 4.0 + 3.0 * (Safety(a) - Safety(b)) / 20.0
  {
    hide Landed, Eta, Reliability, Safety, Max;
  }

  function Scaled(q: Quote): real { RawScore(q) * 10000.0 }

  /** The score of four decimals is higher exactly where a rounding boundary lies between; surely from 0.0001 on. */
  lemma ScoredHigherExactly(a: Quote, b: Quote)
    ensures RankedOf(b).score < RankedOf(a).score
            <==> exists n :: UpTo(Scaled(b), n) && !UpTo(Scaled(a), n)
    ensures 0.0001 < RawScore(a) - RawScore(b) ==> RankedOf(b).score < RankedOf(a).score
  {
    var x, y := Scaled(a), Scaled(b);
    RoundEvenUpTo(y, RoundEven(y));
    RoundEvenUpTo(x, RoundEven(y));
    if n :| UpTo(y, n) && !UpTo(x, n) {
      RoundEvenUpTo(y, n);
      RoundEvenUpTo(x, n);
    }
    RoundEvenMeans(x);
    RoundEvenMeans(y);
    assert x == RawScore(a) * 10000.0 && y == RawScore(b) * 10000.0;
    hide RoundEven, RawScore, UpTo, Scaled;
    assert RankedOf(b).score < RankedOf(a).score <==> RoundEven(y) < RoundEven(x);
  }

  lemma ReciprocalFalls(c: real, x: real, y: real)
    requires 0.0 < c && 0.0 < x <= y
    ensures c / y <= c / x
  {
    var p, q := c / x, c / y;
    assert p * x == c && q * y == c;
  }

  /** No worse in effective cost, time, reliability and safety: never a lower score. */
  lemma DominanceKept(a: Quote, b: Quote)
    requires Landed(a) <= Landed(b) && Eta(a) <= Eta(b) && Reliability(b) <= Reliability(a) && Safety(b) <= Safety(a)
    ensures RankedOf(b).score <= RankedOf(a).score
  {
    ReciprocalFalls(1000000.0, Max(Landed(a), 1.0), Max(Landed(b), 1.0));
    ReciprocalFalls(20.0, Max(Eta(a), 1.0), Max(Eta(b), 1.0));
    hide Landed, Eta, Reliability, Safety, Max;
    assert RawScore(b) <= RawScore(a);
    RoundEvenMonotone(RawScore(b) * 10000.0, RawScore(a) * 10000.0);
  }

  // --- order

  predicate Descending(ranked: seq<Ranked>) {
    forall i, j :: 0 <= i < j < |ranked| ==> ranked[j].score <= ranked[i].score
  }

  function Admitted(quotes: seq<Quote>): seq<Ranked> {
    if quotes == [] then []
    else (if Admissible(quotes[0]) then [RankedOf(quotes[0])] else []) + Admitted(quotes[1..])
  }

  /** The entries with one score, in their order. */
  function WithScore(ranked: seq<Ranked>, score: real): seq<Ranked> {
    if ranked == [] then []
    else (if ranked[0].score == score then [ranked[0]] else []) + WithScore(ranked[1..], score)
  }

  /** Insertion before the first entry that scores no higher: list.sort(reverse=True) keeps equal entries in order. */
  function Insert(x: Ranked, ranked: seq<Ranked>): seq<Ranked> {
    if ranked == [] || ranked[0].score <= x.score then [x] + ranked
    else [ranked[0]] + Insert(x, ranked[1..])
  }

  function SortDescending(ranked: seq<Ranked>): seq<Ranked> {
    if ranked == [] then [] else Insert(ranked[0], SortDescending(ranked[1..]))
  }

  ghost predicate AllAtMost(ranked: seq<Ranked>, top: real) {
    forall i :: 0 <= i < |ranked| ==> ranked[i].score <= top
  }

  lemma ConsDescending(first: Ranked, rest: seq<Ranked>)
    requires Descending(rest) && AllAtMost(rest, first.score)
    ensures Descending([first] + rest)
  {
  }

  lemma {:induction false} InsertAtMost(x: Ranked, ranked: seq<Ranked>, top: real)
    requires x.score <= top && AllAtMost(ranked, top)
    ensures AllAtMost(Insert(x, ranked), top)
  {
    if ranked != [] && x.score < ranked[0].score {
      InsertAtMost(x, ranked[1..], top);
    }
  }

  lemma {:induction false} InsertSorts(x: Ranked, ranked: seq<Ranked>)
    requires Descending(ranked)
    ensures Descending(Insert(x, ranked))
  {
    if ranked == [] || ranked[0].score <= x.score {
      ConsDescending(x, ranked);
    } else {
      var first, rest := ranked[0], ranked[1..];
      InsertSorts(x, rest);
      InsertAtMost(x, rest, first.score);
      hide Descending, AllAtMost;
      ConsDescending(first, Insert(x, rest));
    }
  }

  lemma {:induction false} InsertKeepsEntries(x: Ranked, ranked: seq<Ranked>)
    ensures multiset(Insert(x, ranked)) == multiset{x} + multiset(ranked)
  {
    if ranked != [] && x.score < ranked[0].score {
      assert ranked == [ranked[0]] + ranked[1..];
      InsertKeepsEntries(x, ranked[1..]);
    }
  }

  lemma {:induction false} InsertIsStable(x: Ranked, ranked: seq<Ranked>, score: real)
    requires Descending(ranked)
    ensures WithScore(Insert(x, ranked), score) == (if x.score == score then [x] else []) + WithScore(ranked, score)
  {
    if ranked == [] || ranked[0].score <= x.score {
      assert ([x] + ranked)[1..] == ranked;
    } else {
      var rest := ranked[1..];
      InsertIsStable(x, rest, score);
      assert Insert(x, ranked)[1..] == Insert(x, rest);
      if x.score == score {
        assert ranked[0].score != score;
      }
    }
  }

  /** The ranking is a sorted, stable rearrangement. */
  lemma {:induction false} SortMeaning(ranked: seq<Ranked>, score: real)
    ensures Descending(SortDescending(ranked))
    ensures multiset(SortDescending(ranked)) == multiset(ranked)
    ensures WithScore(SortDescending(ranked), score) == WithScore(ranked, score)
  {
    if ranked != [] {
      var rest := ranked[1..];
      assert ranked == [ranked[0]] + rest;
      SortMeaning(rest, score);
      InsertSorts(ranked[0], SortDescending(rest));
      InsertKeepsEntries(ranked[0], SortDescending(rest));
      InsertIsStable(ranked[0], SortDescending(rest), score);
    }
  }

  lemma SortMeansAll(ranked: seq<Ranked>)
    ensures Descending(SortDescending(ranked)) && multiset(SortDescending(ranked)) == multiset(ranked)
    ensures forall score :: WithScore(SortDescending(ranked), score) == WithScore(ranked, score)
  {
    hide *;
    SortMeaning(ranked, 0.0);
    forall score
      ensures WithScore(SortDescending(ranked), score) == WithScore(ranked, score)
    {
      SortMeaning(ranked, score);
    }
  }

  lemma AdmittedStep(quotes: seq<Quote>, n: nat)
    requires n < |quotes|
    ensures Admitted(quotes[n..])
         == (if Admissible(quotes[n]) then [RankedOf(quotes[n])] else []) + Admitted(quotes[n + 1..])
  {
    hide Admissible, RankedOf;
    assert quotes[n..][1..] == quotes[n + 1..];
  }

  /** Ranked are exactly the quotes without an error and below the price that stands for none. */
  lemma {:induction false} AdmittedMeans(quotes: seq<Quote>)
    ensures forall r :: r in Admitted(quotes) ==> r == RankedOf(r.quote) && r.landed == Landed(r.quote)
    ensures forall q :: q in quotes && !q.error && q.price < 999999999.0 <==> RankedOf(q) in Admitted(quotes)
  {
    if quotes != [] {
      AdmittedMeans(quotes[1..]);
      hide RawScore, Landed, Round4;
      assert forall q :: q in quotes <==> q == quotes[0] || q in quotes[1..];
    }
  }

  lemma SameMembers(a: seq<Ranked>, b: seq<Ranked>)
    requires multiset(a) == multiset(b)
    ensures forall r :: r in a <==> r in b
  {
    forall r
      ensures r in a <==> r in b
    {
      assert r in a <==> r in multiset(a);
      assert r in b <==> r in multiset(b);
    }
  }

  lemma RankedMean(quotes: seq<Quote>, ranked: seq<Ranked>)
    requires multiset(ranked) == multiset(Admitted(quotes))
    ensures forall r :: r in ranked ==> r == RankedOf(r.quote) && r.landed == Landed(r.quote)
    ensures forall q :: q in quotes && !q.error && q.price < 999999999.0 <==> RankedOf(q) in ranked
  {
    AdmittedMeans(quotes);
    SameMembers(ranked, Admitted(quotes));
    hide RankedOf, Admitted, Landed;
  }

  method CompareQuotes(quotes: seq<Quote>) returns (ranked: seq<Ranked>)
    ensures Descending(ranked) && multiset(ranked) == multiset(Admitted(quotes))
    ensures forall score :: WithScore(ranked, score) == WithScore(Admitted(quotes), score)
    ensures forall r :: r in ranked ==> r == RankedOf(r.quote) && r.landed == Landed(r.quote)
    ensures forall q :: q in quotes && !q.error && q.price < 999999999.0 <==> RankedOf(q) in ranked
  {
    assert quotes[0..] == quotes && Admitted(quotes[|quotes|..]) == [];
    hide RankedOf, Admissible, Admitted, SortDescending, Descending, WithScore, Landed;
    ranked := [];
    for n := 0 to |quotes|
      invariant ranked + Admitted(quotes[n..]) == Admitted(quotes)
    {
      AdmittedStep(quotes, n);
      var q := quotes[n];
      if !Admissible(q) {
        continue;
      }
      ranked := ranked + [RankedOf(q)];
    }
    assert ranked == Admitted(quotes);
    SortMeansAll(ranked);
    RankedMean(quotes, SortDescending(ranked));
    ranked := SortDescending(ranked);
  }
}
