/** The operator's prices: costs, the minimal price, the proposed price, margins and discounts,
    with every rounding to cents. Amounts are reals. */
module Pricing {
  import opened Reals
  import opened Wrappers

  // ----- rounding to cents, halves to even

  function HalfEven(x: real): (n: int)
    ensures n as real - 0.5 <= x <= n as real + 0.5
    ensures x == n as real - 0.5 || x == n as real + 0.5 ==> n % 2 == 0
  {
    var below := x.Floor;
    var rest := x - below as real;
    if rest < 0.5 || (rest == 0.5 && below % 2 == 0) then below else below + 1
  }

  function Cents(x: real): int {
    HalfEven(100.0 * x)
  }

  function Round2(x: real): (r: real)
    ensures x - 0.005 <= r <= x + 0.005
  {
    Cents(x) as real / 100.0
  }

  // ----- the rules of the core

  const MIN_MARGIN_PERCENT := 10.0
  const MAX_DISCOUNT_PERCENT := 5.0

  datatype MarginReason = NoObjection | PriceNotPositive | CostNegative | BelowMinimum | BelowMinimumByPrice

  datatype MarginValidation = MarginValidation(isValid: bool, marginPercent: real, reason: MarginReason)

  function ValidateMargin(price: real, cost: real): MarginValidation {
    if price <= 0.0 then MarginValidation(false, 0.0, PriceNotPositive)
    else if cost < 0.0 then MarginValidation(false, 0.0, CostNegative)
    else
      var margin := price - cost;
      var byPrice := margin / price * 100.0;
      var byCost := if cost > 0.0 then margin / cost * 100.0 else 0.0;
      var isValid := byCost >= MIN_MARGIN_PERCENT;
      MarginValidation(isValid, Round2(byPrice),
                       if !isValid then BelowMinimum
                       else if byPrice < MIN_MARGIN_PERCENT then BelowMinimumByPrice
                       else NoObjection)
  }

  predicate ValidateDiscount(original: real, discounted: real) {
    && original > 0.0
    && discounted > 0.0
    && (original - discounted) / original * 100.0 <= MAX_DISCOUNT_PERCENT
  }

  function CalculateMinPrice(cost: real): Option<real> {
    if cost < 0.0 then None else Some(Round2(cost / (1.0 - MIN_MARGIN_PERCENT / 100.0)))
  }

  datatype Economics = Economics(valid: bool, minPriceRequired: Option<real>)

  function ValidateOrderEconomics(price: real, cost: real, hasDiscount: bool, original: Option<real>): Economics {
    var marginOk := ValidateMargin(price, cost).isValid;
    var discountOk := hasDiscount ==> ValidateDiscount(if original.Some? then original.value else price, price);
    Economics(marginOk && discountOk, if cost > 0.0 then CalculateMinPrice(cost) else None)
  }

  // ----- the service

  datatype Rates = Rates(uasPerKm: real, operatorPerHour: real, baseFee: real)

  const RATES := Rates(50.0, 1000.0, 500.0)

  datatype Mission = Mission(distance: Option<real>, duration: Option<real>, cargoValue: Option<real>)

  datatype CostBreakdown = CostBreakdown(uasCost: real, operatorCost: real, insuranceCost: real, total: real)

  datatype Proposal = Proposal(orderId: string, price: real, cost: real, marginPercent: real)

  datatype ProposalError = NegativeCost | NotProfitable(MarginReason)

  function GetOr(x: Option<real>, default: real): real {
    if x.Some? then x.value else default
  }

  function UasCost(rates: Rates, m: Mission): real {
    rates.uasPerKm * GetOr(m.distance, 10.0) + rates.baseFee
  }

  function OperatorCost(rates: Rates, m: Mission): real {
    rates.operatorPerHour * (GetOr(m.duration, 30.0) / 60.0)
  }

  function InsurancePremium(m: Mission): real {
    Round2(GetOr(m.cargoValue, 10000.0) * 0.02)
  }

  function CalculateMissionCost(rates: Rates, m: Mission): CostBreakdown {
    CostBreakdown(Round2(UasCost(rates, m)), Round2(OperatorCost(rates, m)), Round2(InsurancePremium(m)),
                  Round2(UasCost(rates, m) + OperatorCost(rates, m) + InsurancePremium(m)))
  }

  function Propose(orderId: string, cost: real): Result<Proposal, ProposalError> {
    var minPrice := CalculateMinPrice(cost);
    if minPrice.None? then Err(NegativeCost)
    else
      var proposed := minPrice.value * 1.05;
      var check := ValidateMargin(proposed, cost);
      if !check.isValid then Err(NotProfitable(check.reason))
      else Ok(Proposal(orderId, Round2(proposed), cost, check.marginPercent))
  }

  class BusinessLogicService {
    const rates: Rates
    var proposals: map<string, Proposal>

    constructor ()
      ensures rates == RATES && proposals == map[]
    {
      rates, proposals := RATES, map[];
    }

    /** `id` is the fresh identifier drawn for the proposal. */
    method CreateProposal(id: string, orderId: string, m: Mission) returns (r: Result<Proposal, ProposalError>)
      modifies this
      ensures r == Propose(orderId, CalculateMissionCost(rates, m).total)
      ensures proposals == if r.Ok? then old(proposals)[id := r.value] else old(proposals)
    {
      var cost := CalculateMissionCost(rates, m).total;
      var minPrice := CalculateMinPrice(cost);
      if minPrice.None? {
        return Err(NegativeCost);
      }
      var proposed := minPrice.value * 1.05;
      var check := ValidateMargin(proposed, cost);
      if !check.isValid {
        return Err(NotProfitable(check.reason));
      }
      r := Ok(Proposal(orderId, Round2(proposed), cost, check.marginPercent));
      proposals := proposals[id := r.value];
    }
  }

  // ----- what the percentages mean

  lemma Percentage(part: real, whole: real, percent: real)
    requires whole > 0.0
    ensures part / whole * 100.0 >= percent <==> part >= percent / 100.0 * whole
    ensures part / whole * 100.0 <= percent <==> part <= percent / 100.0 * whole
  {
    var q := part / whole;
    assert part == q * whole;
  }

  /** A margin is valid exactly when the cost is positive and the price at least a tenth above it. */
  lemma ValidMarginMeans(price: real, cost: real)
    ensures ValidateMargin(price, cost).isValid <==> cost > 0.0 && price >= 1.1 * cost
  {
    if price > 0.0 && cost > 0.0 {
      Percentage(price - cost, cost, MIN_MARGIN_PERCENT);
    }
  }

  /** A discount is accepted exactly when at least 95 percent of a positive price remain. */
  lemma ValidDiscountMeans(original: real, discounted: real)
    ensures ValidateDiscount(original, discounted) <==> original > 0.0 && discounted >= 0.95 * original
  {
    if original > 0.0 && discounted > 0.0 {
      Percentage(original - discounted, original, MAX_DISCOUNT_PERCENT);
    }
  }

  /** No objection is raised exactly when the price-based margin is reached as well; between the two
      marks the price is accepted with a remark. */
  lemma ReasonMeans(price: real, cost: real)
    requires price > 0.0 && cost >= 0.0
    ensures var v := ValidateMargin(price, cost);
            && (v.reason.NoObjection? <==> cost > 0.0 && 0.9 * price >= cost)
            && (v.reason.BelowMinimumByPrice? <==> cost > 0.0 && 1.1 * cost <= price && 0.9 * price < cost)
  {
    ValidMarginMeans(price, cost);
    Percentage(price - cost, price, MIN_MARGIN_PERCENT);
  }

  /** The margin shown is the share of the price, in percent, to within half a hundredth; nothing is
      shown for a price that is not positive or a negative cost. */
  lemma MarginShown(price: real, cost: real)
    ensures var v := ValidateMargin(price, cost);
            && (v.reason == PriceNotPositive <==> price <= 0.0)
            && (v.reason == CostNegative <==> price > 0.0 && cost < 0.0)
            && (v.reason == BelowMinimum <==> price > 0.0 && cost >= 0.0 && !v.isValid)
            && (price <= 0.0 || cost < 0.0 ==> v.marginPercent == 0.0)
            && (price > 0.0 && cost >= 0.0 ==>
                  (v.marginPercent - 0.005) * price <= 100.0 * (price - cost) <= (v.marginPercent + 0.005) * price)
  {
    hide Round2;
    if price > 0.0 && cost >= 0.0 {
      ShownShare(price - cost, price, Round2((price - cost) / price * 100.0));
    }
  }

  lemma ShownShare(part: real, whole: real, shown: real)
    requires whole > 0.0 && shown - 0.005 <= part / whole * 100.0 <= shown + 0.005
    ensures (shown - 0.005) * whole <= 100.0 * part <= (shown + 0.005) * whole
  {
    Percentage(part, whole, shown - 0.005);
    Percentage(part, whole, shown + 0.005);
    assert (shown - 0.005) / 100.0 * whole * 100.0 == (shown - 0.005) * whole;
    assert (shown + 0.005) / 100.0 * whole * 100.0 == (shown + 0.005) * whole;
  }

  /** The minimal price is the cost over 0.9, in whole cents; a negative cost has none. */
  lemma MinPriceMeans(cost: real)
    ensures CalculateMinPrice(cost).None? <==> cost < 0.0
    ensures cost >= 0.0 ==>
              var price := CalculateMinPrice(cost).value;
              && cost - 0.0045 <= 0.9 * price <= cost + 0.0045
              && Round2(price) == price
  {
    if cost >= 0.0 {
      RoundingTwice(cost / 0.9);
    }
  }

  lemma RoundingTwice(x: real)
    ensures Round2(Round2(x)) == Round2(x)
  {
    hide Round2, Cents;
    TotalInCents(x);
    WholeCentsStay(Cents(x));
  }

  lemma WholeCentsStay(k: int)
    ensures Round2(k as real / 100.0) == k as real / 100.0
  {
    RatioRounds(k, 1, 100.0 * (k as real / 100.0));
    TotalInCents(k as real / 100.0);
  }

  /** An order is in order exactly when its cost is positive, its price a tenth above it or more and, if
      it has a discount, at least 95 percent of a positive original price, which is the price itself
      when none is given. */
  lemma OrderMeans(price: real, cost: real, hasDiscount: bool, original: Option<real>)
    ensures var full := if original == None then price else original.value;
            ValidateOrderEconomics(price, cost, hasDiscount, original).valid
            <==> cost > 0.0 && price >= 1.1 * cost && (hasDiscount ==> full > 0.0 && price >= 0.95 * full)
    ensures ValidateOrderEconomics(price, cost, hasDiscount, original).minPriceRequired
         == if cost > 0.0 then CalculateMinPrice(cost) else None
  {
    hide ValidateMargin, ValidateDiscount, CalculateMinPrice;
    ValidMarginMeans(price, cost);
    ValidDiscountMeans(if original.Some? then original.value else price, price);
  }

  /** A proposal is refused for a negative cost and for one whose minimal price with 5 percent on top is
      less than a tenth above it; else it names the order and the cost, and asks that price in cents. */
  lemma ProposalMeans(orderId: string, cost: real)
    ensures Propose(orderId, cost) == Err(NegativeCost) <==> cost < 0.0
    ensures cost >= 0.0 ==>
              var asked := 1.05 * CalculateMinPrice(cost).value;
              && (Propose(orderId, cost).Ok? <==> cost > 0.0 && asked >= 1.1 * cost)
              && (Propose(orderId, cost).Ok? ==>
                    var p := Propose(orderId, cost).value;
                    && p.orderId == orderId && p.cost == cost && asked - 0.005 <= p.price <= asked + 0.005
                    && (p.marginPercent - 0.005) * asked <= 100.0 * (asked - cost) <= (p.marginPercent + 0.005) * asked)
  {
    hide ValidateMargin, Round2;
    if cost >= 0.0 {
      ValidMarginMeans(CalculateMinPrice(cost).value * 1.05, cost);
      MarginShown(CalculateMinPrice(cost).value * 1.05, cost);
      assert 1.05 * CalculateMinPrice(cost).value == CalculateMinPrice(cost).value * 1.05;
    }
  }

  // ----- every accepted discount keeps the margin

  /** A proposal is made for this cost, and no discount accepted for its stored price falls below
      the minimal margin. */
  ghost predicate DiscountsAreSafe(cost: real) {
    var r := Propose("", cost);
    && r.Ok?
    && forall d: real :: ValidateDiscount(r.value.price, d) ==> ValidateMargin(d, cost).isValid
  }

  lemma SafeMeans(cost: real)
    requires cost >= 0.0
    ensures Propose("", cost).Ok? <==> cost > 0.0 && CalculateMinPrice(cost).value * 1.05 >= 1.1 * cost
    ensures var stored := Round2(CalculateMinPrice(cost).value * 1.05);
            DiscountsAreSafe(cost) <==> (Propose("", cost).Ok? && (stored > 0.0 ==> 0.95 * stored >= 1.1 * cost))
  {
    hide ValidateMargin, ValidateDiscount, Round2;
    var proposed := CalculateMinPrice(cost).value * 1.05;
    var stored := Round2(proposed);
    ValidMarginMeans(proposed, cost);
    forall d: real ensures ValidateDiscount(stored, d) <==> stored > 0.0 && d >= 0.95 * stored {
      ValidDiscountMeans(stored, d);
    }
    forall d: real ensures ValidateMargin(d, cost).isValid <==> cost > 0.0 && d >= 1.1 * cost {
      ValidMarginMeans(d, cost);
    }
    if stored > 0.0 {
      assert ValidateDiscount(stored, 0.95 * stored);
    }
  }

  // ----- the same in whole cents

  /** n / d rounded to a whole number, halves to even. */
  function RatioHalfEven(n: int, d: int): int
    requires d > 0
  {
    var q, r := n / d, n % d;
    if 2 * r < d || (2 * r == d && q % 2 == 0) then q else q + 1
  }

  lemma RatioRounds(n: int, d: int, x: real)
    requires d > 0 && x == n as real / d as real
    ensures HalfEven(x) == RatioHalfEven(n, d)
  {
    var q, r := n / d, n % d;
    assert n == q * d + r;
    assert n as real == q as real * d as real + r as real;
    assert x * d as real == n as real;
    assert (x - q as real) * d as real == r as real;
    var f := x - q as real;
    FractionOf(f, r, d);
    assert x.Floor == q;
  }

  lemma FractionOf(f: real, r: int, d: int)
    requires d > 0 && 0 <= r < d && f * d as real == r as real
    ensures 0.0 <= f < 1.0
    ensures (f < 0.5 <==> 2 * r < d) && (f == 0.5 <==> 2 * r == d)
  {
    ScaledOrder(0.0, f, d as real);
    ScaledOrder(f, 1.0, d as real);
    ScaledOrder(f, 0.5, d as real);
    ScaledOrder(0.5, f, d as real);
    assert (2 * r) as real == 2.0 * (r as real);
  }

  lemma ScaledOrder(a: real, b: real, scale: real)
    requires scale > 0.0
    ensures a < b <==> a * scale < b * scale
  {
    if a < b {
      assert (b - a) * scale > 0.0;
    } else {
      assert (a - b) * scale >= 0.0;
    }
  }

  function MinCents(k: int): int {
    RatioHalfEven(10 * k, 9)
  }

  function StoredCents(k: int): int {
    RatioHalfEven(21 * MinCents(k), 20)
  }

  predicate SafeCents(k: int) {
    k > 0 && 21 * MinCents(k) >= 22 * k && (StoredCents(k) > 0 ==> 19 * StoredCents(k) >= 22 * k)
  }

  lemma InCents(k: nat)
    ensures CalculateMinPrice(k as real / 100.0) == Some(MinCents(k) as real / 100.0)
    ensures Round2(MinCents(k) as real / 100.0 * 1.05) == StoredCents(k) as real / 100.0
  {
    var cost := k as real / 100.0;
    RatioRounds(10 * k, 9, 100.0 * (cost / 0.9));
    var m := MinCents(k);
    RatioRounds(21 * m, 20, 100.0 * (m as real / 100.0 * 1.05));
  }

  lemma SafeInCents(k: nat)
    ensures DiscountsAreSafe(k as real / 100.0) <==> SafeCents(k)
  {
    hide DiscountsAreSafe, CalculateMinPrice, Round2, MinCents, StoredCents;
    SafeMeans(k as real / 100.0);
    InCents(k);
  }

  /** The costs, in cents, for which no proposal is made or an accepted discount is too deep. */
  predicate Unsafe(k: int) {
    0 <= k <= 4 || 7 <= k <= 9 || k == 13 || 20 <= k <= 22 || k == 26 || k == 39 || k == 40 || k == 45 || k == 58
  }

  lemma Quotient(n: int, q: int, e: int)
    requires n == 20 * q + e && 0 <= e < 20
    ensures RatioHalfEven(n, 20) == q + if e < 10 || (e == 10 && q % 2 == 0) then 0 else 1
  {
    assert n / 20 == q;
  }

  /** With the minimum at 20 c + e cents, the stored price in terms of c and e. */
  lemma StoredShape(k: nat, c: int, e: int)
    requires MinCents(k) == 20 * c + e && 0 <= e < 20
    ensures StoredCents(k) == 21 * c + e + if e < 10 || (e == 10 && c % 2 == 0) then 0 else 1
  {
    hide MinCents, RatioHalfEven;
    Quotient(21 * MinCents(k), 21 * c + e, e);
    SameParity(c);
  }

  lemma SameParity(c: int)
    ensures (21 * c + 10) % 2 == c % 2
  {
    assert 21 * c + 10 == 2 * (10 * c + 5) + c;
  }

  lemma ShapeIsSafe(k: int, c: int, e: int, t: int, stored: int)
    requires k > 4 && 0 <= c && 0 <= e < 20 && -4 <= t <= 4
    requires 10 * k == 9 * (20 * c + e) + t
    requires stored == 21 * c + e + if e < 10 || (e == 10 && c % 2 == 0) then 0 else 1
    ensures 19 * stored >= 22 * k <==> !Unsafe(k)
  {
    assert 19 * stored >= 22 * k <==> 30 * c + (if e < 10 || (e == 10 && c % 2 == 0) then 0 else 190) >= 8 * e + 22 * t;
    if c >= 6 {
      assert k >= 108;
    }
  }

  lemma SafeCentsExactly(k: nat)
    ensures SafeCents(k) <==> !Unsafe(k)
  {
    hide StoredCents;
    var m := MinCents(k);
    assert -4 <= 10 * k - 9 * m <= 4 && m >= 0;
    if k > 4 {
      StoredShape(k, m / 20, m % 20);
      ShapeIsSafe(k, m / 20, m % 20, 10 * k - 9 * m, StoredCents(k));
    }
  }

  /** For a cost in whole cents: every discount accepted for the stored price passes the margin check,
      and a proposal is made at all, exactly when the cost is none of seventeen amounts, the largest
      of which is 0.58. */
  lemma SafeExactly(k: nat)
    ensures DiscountsAreSafe(k as real / 100.0) <==> !Unsafe(k)
  {
    SafeInCents(k);
    SafeCentsExactly(k);
  }

  lemma RoundedIsAtLeast(x: real, n: int)
    requires x >= n as real / 100.0
    ensures Cents(x) >= n && Round2(x) >= n as real / 100.0
  {
  }

  /** None of the charges on top of the base fee is negative. */
  lemma ChargesCoverTheFee(rates: Rates, m: Mission)
    requires rates.uasPerKm >= 0.0 && rates.operatorPerHour >= 0.0
    requires GetOr(m.distance, 0.0) >= 0.0 && GetOr(m.duration, 0.0) >= 0.0 && GetOr(m.cargoValue, 0.0) >= 0.0
    ensures UasCost(rates, m) >= rates.baseFee && OperatorCost(rates, m) >= 0.0 && InsurancePremium(m) >= 0.0
  {
    hide Round2;
    var distance, minutes, cargo := GetOr(m.distance, 10.0), GetOr(m.duration, 30.0), GetOr(m.cargoValue, 10000.0);
    assert distance >= 0.0 && minutes >= 0.0 && cargo >= 0.0;
    ProductIsNotNegative(rates.uasPerKm, distance);
    ProductIsNotNegative(rates.operatorPerHour, minutes / 60.0);
    RoundedIsAtLeast(cargo * 0.02, 0);
  }

  lemma CostIsAtLeastTheFee(rates: Rates, m: Mission, feeCents: nat) returns (k: nat)
    requires rates.uasPerKm >= 0.0 && rates.operatorPerHour >= 0.0 && rates.baseFee == feeCents as real / 100.0
    requires GetOr(m.distance, 0.0) >= 0.0 && GetOr(m.duration, 0.0) >= 0.0 && GetOr(m.cargoValue, 0.0) >= 0.0
    ensures k >= feeCents && CalculateMissionCost(rates, m).total == k as real / 100.0
  {
    hide Round2, Cents, UasCost, OperatorCost, InsurancePremium, GetOr;
    ChargesCoverTheFee(rates, m);
    var sum := UasCost(rates, m) + OperatorCost(rates, m) + InsurancePremium(m);
    assert sum >= rates.baseFee;
    RoundedIsAtLeast(sum, feeCents);
    TotalInCents(sum);
    k := Cents(sum);
  }

  lemma TotalInCents(x: real)
    ensures Round2(x) == Cents(x) as real / 100.0
  {
  }

  /** The total is the sum of the charges to within a cent, missing inputs standing for 10 km,
      30 minutes and a cargo of 10000. */
  lemma TotalWithinACent(rates: Rates, m: Mission)
    ensures var exact := rates.baseFee + rates.uasPerKm * GetOr(m.distance, 10.0)
                         + rates.operatorPerHour * GetOr(m.duration, 30.0) / 60.0 + GetOr(m.cargoValue, 10000.0) / 50.0;
            exact - 0.01 <= CalculateMissionCost(rates, m).total <= exact + 0.01
  {
    hide Round2;
    var perHour, minutes := rates.operatorPerHour, GetOr(m.duration, 30.0);
    assert perHour * (minutes / 60.0) == perHour * minutes / 60.0;
  }

  /** At the rates of the service: 50 for each kilometre on top of 500, 1000 for each hour, a fiftieth of
      the cargo's value, each to within a cent. */
  lemma BreakdownMeans(m: Mission)
    ensures var distance := if m.distance == None then 10.0 else m.distance.value;
            var minutes := if m.duration == None then 30.0 else m.duration.value;
            var cargo := if m.cargoValue == None then 10000.0 else m.cargoValue.value;
            var cost := CalculateMissionCost(RATES, m);
            && NearlyIs(cost.uasCost, 500.0 + 50.0 * distance, 0.005)
            && NearlyIs(cost.operatorCost, 1000.0 * minutes / 60.0, 0.005)
            && NearlyIs(cost.insuranceCost, cargo / 50.0, 0.01)
            && NearlyIs(cost.total, 500.0 + 50.0 * distance + 1000.0 * minutes / 60.0 + cargo / 50.0, 0.01)
  {
    hide Round2;
    TotalWithinACent(RATES, m);
    OperatorByTheMinute(GetOr(m.duration, 30.0));
    assert UasCost(RATES, m) == 500.0 + 50.0 * GetOr(m.distance, 10.0);
    assert OperatorCost(RATES, m) == 1000.0 * (GetOr(m.duration, 30.0) / 60.0);
  }

  predicate NearlyIs(x: real, exact: real, tolerance: real) {
    exact - tolerance <= x <= exact + tolerance
  }

  lemma OperatorByTheMinute(minutes: real)
    ensures 1000.0 * (minutes / 60.0) == 1000.0 * minutes / 60.0
  {
  }

  /** A longer, slower or more valuable mission never costs less. */
  lemma CostGrows(m: Mission, m': Mission)
    requires GetOr(m.distance, 10.0) <= GetOr(m'.distance, 10.0) && GetOr(m.duration, 30.0) <= GetOr(m'.duration, 30.0)
    requires GetOr(m.cargoValue, 10000.0) <= GetOr(m'.cargoValue, 10000.0)
    ensures CalculateMissionCost(RATES, m).total <= CalculateMissionCost(RATES, m').total
  {
    hide Round2, UasCost, OperatorCost, InsurancePremium, GetOr;
    ChargesGrow(m, m');
    RoundingIsMonotone(UasCost(RATES, m) + OperatorCost(RATES, m) + InsurancePremium(m),
                       UasCost(RATES, m') + OperatorCost(RATES, m') + InsurancePremium(m'));
  }

  lemma ChargesGrow(m: Mission, m': Mission)
    requires GetOr(m.distance, 10.0) <= GetOr(m'.distance, 10.0) && GetOr(m.duration, 30.0) <= GetOr(m'.duration, 30.0)
    requires GetOr(m.cargoValue, 10000.0) <= GetOr(m'.cargoValue, 10000.0)
    ensures UasCost(RATES, m) <= UasCost(RATES, m') && OperatorCost(RATES, m) <= OperatorCost(RATES, m')
    ensures InsurancePremium(m) <= InsurancePremium(m')
  {
    hide Round2, GetOr;
    var x, y := GetOr(m.cargoValue, 10000.0), GetOr(m'.cargoValue, 10000.0);
    RoundingIsMonotone(x * 0.02, y * 0.02);
  }

  lemma HalfEvenIsMonotone(x: real, y: real)
    requires x <= y
    ensures HalfEven(x) <= HalfEven(y)
  {
    var a, b := x.Floor, y.Floor;
    assert a <= b;
    assert a <= HalfEven(x) <= a + 1 && b <= HalfEven(y) <= b + 1;
  }

  lemma RoundingIsMonotone(x: real, y: real)
    requires x <= y
    ensures Round2(x) <= Round2(y)
  {
    hide HalfEven;
    HalfEvenIsMonotone(100.0 * x, 100.0 * y);
  }

  /** What the base fee is for: with it the cost of a mission is never below the threshold, so for
      all non-negative distances, durations and cargo values a proposal is made and every discount
      accepted for its price keeps the margin. */
  lemma EveryProposalIsSafe(m: Mission)
    requires GetOr(m.distance, 0.0) >= 0.0 && GetOr(m.duration, 0.0) >= 0.0 && GetOr(m.cargoValue, 0.0) >= 0.0
    ensures CalculateMissionCost(RATES, m).total >= 500.0
    ensures DiscountsAreSafe(CalculateMissionCost(RATES, m).total)
  {
    hide CalculateMissionCost, DiscountsAreSafe;
    var k := CostIsAtLeastTheFee(RATES, m, 50000);
    SafeExactly(k);
  }

  /** Any base fee from 0.59 on would do. */
  lemma SmallFeeWouldDo(m: Mission, feeCents: nat)
    requires feeCents >= 59
    requires GetOr(m.distance, 0.0) >= 0.0 && GetOr(m.duration, 0.0) >= 0.0 && GetOr(m.cargoValue, 0.0) >= 0.0
    ensures DiscountsAreSafe(CalculateMissionCost(RATES.(baseFee := feeCents as real / 100.0), m).total)
  {
    hide DiscountsAreSafe, CalculateMissionCost;
    var k := CostIsAtLeastTheFee(RATES.(baseFee := feeCents as real / 100.0), m, feeCents);
    SafeExactly(k);
  }

  /** Without a base fee, a mission of no length whose cargo is worth 29.00 costs 0.58, and there the
      cheapest accepted discount is below the margin. */
  lemma NoFeeWouldNotDo()
    ensures !DiscountsAreSafe(CalculateMissionCost(RATES.(baseFee := 0.0),
                                                   Mission(Some(0.0), Some(0.0), Some(29.0))).total)
  {
    hide DiscountsAreSafe, Round2;
    var m := Mission(Some(0.0), Some(0.0), Some(29.0));
    assert Round2(0.58) == 0.58 by {
      RatioRounds(58, 1, 100.0 * 0.58);
      TotalInCents(0.58);
    }
    assert UasCost(RATES.(baseFee := 0.0), m) == 0.0;
    assert OperatorCost(RATES.(baseFee := 0.0), m) == 0.0;
    assert InsurancePremium(m) == 0.58;
    SafeExactly(58);
  }

  /** An order at any accepted discount of a proposed price passes the complete check of orders. */
  lemma DiscountedOrderPasses(m: Mission, orderId: string, discounted: real)
    requires GetOr(m.distance, 0.0) >= 0.0 && GetOr(m.duration, 0.0) >= 0.0 && GetOr(m.cargoValue, 0.0) >= 0.0
    ensures var cost := CalculateMissionCost(RATES, m).total;
            Propose(orderId, cost).Ok? &&
            var p := Propose(orderId, cost).value;
            p.cost == cost && (ValidateDiscount(p.price, discounted) ==>
                                 ValidateOrderEconomics(discounted, p.cost, true, Some(p.price)).valid)
  {
    hide CalculateMissionCost, ValidateMargin, ValidateDiscount, CalculateMinPrice, Round2;
    EveryProposalIsSafe(m);
  }

  /** The minimal price reckons the margin on the price, the check reckons it on the cost. In whole
      cents, a price at the stated minimum passes the check exactly when the cost is not one of these. */
  predicate UnsafeMinimum(k: int) {
    0 <= k <= 4 || 11 <= k <= 13 || k == 21 || k == 22 || k == 31
  }

  lemma MinPricePasses(k: nat)
    ensures var cost := k as real / 100.0;
            CalculateMinPrice(cost).Some? &&
            (ValidateMargin(CalculateMinPrice(cost).value, cost).isValid <==> !UnsafeMinimum(k))
  {
    hide ValidateMargin, CalculateMinPrice, Round2;
    InCents(k);
    ValidMarginMeans(MinCents(k) as real / 100.0, k as real / 100.0);
    MinPriceInCents(k);
  }

  lemma MinPriceInCents(k: nat)
    ensures k > 0 && 10 * MinCents(k) >= 11 * k <==> !UnsafeMinimum(k)
  {
  }
}
