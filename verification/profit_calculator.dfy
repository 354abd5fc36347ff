/** The profitability engine: currency conversion, the seven-part landed
    cost, profit/margin/ROI, a bucketed 0-100 score, a risk tier and a
    recommendation flag. The process-wide rates and cost parameters are an
    explicit `Calculator` value. */
module ProfitCalculator {
  import opened Common
  import opened Domain

  datatype CostParameters = CostParameters(
    shippingPerCar: real,
    insuranceRate: real,
    customsDutyRate: real,
    vatRate: real,
    clearanceAndHandling: real,
    localTransportation: real,
    documentationFees: real,
    profitMarginTarget: real)

  datatype ExchangeRates = ExchangeRates(jpyToUsd: real, usdToJpy: real)

  datatype Calculator = Calculator(costs: CostParameters, rates: ExchangeRates)

  const DefaultCosts: CostParameters :=
    CostParameters(1500.0, 0.02, 0.25, 0.15, 500.0, 300.0, 200.0, 0.20)

  const DefaultRates: ExchangeRates := ExchangeRates(0.0067, 149.25)

  const Default: Calculator := Calculator(DefaultCosts, DefaultRates)

  // ---------------------------------------------------------------------
  // Configuration updates: an object spread where supplied keys win.

  /** The keys a caller supplies; `None` means the key is not in the object. */
  datatype CostUpdate = CostUpdate(
    shippingPerCar: Option<real>,
    insuranceRate: Option<real>,
    customsDutyRate: Option<real>,
    vatRate: Option<real>,
    clearanceAndHandling: Option<real>,
    localTransportation: Option<real>,
    documentationFees: Option<real>,
    profitMarginTarget: Option<real>)

  datatype RateUpdate = RateUpdate(jpyToUsd: Option<real>, usdToJpy: Option<real>)

  const NoCostUpdate: CostUpdate := CostUpdate(None, None, None, None, None, None, None, None)

  /** `{ ...old, ...new }`: supplied keys are overwritten, the rest kept. */
  function UpdateCostParameters(c: Calculator, u: CostUpdate): (r: Calculator)
    ensures r.rates == c.rates
    ensures u.shippingPerCar.Some? ==> r.costs.shippingPerCar == u.shippingPerCar.value
    ensures u.shippingPerCar.None? ==> r.costs.shippingPerCar == c.costs.shippingPerCar
    ensures u.insuranceRate.Some? ==> r.costs.insuranceRate == u.insuranceRate.value
    ensures u.insuranceRate.None? ==> r.costs.insuranceRate == c.costs.insuranceRate
    ensures u.customsDutyRate.Some? ==> r.costs.customsDutyRate == u.customsDutyRate.value
    ensures u.customsDutyRate.None? ==> r.costs.customsDutyRate == c.costs.customsDutyRate
    ensures u.vatRate.Some? ==> r.costs.vatRate == u.vatRate.value
    ensures u.vatRate.None? ==> r.costs.vatRate == c.costs.vatRate
    ensures u.clearanceAndHandling.Some? ==> r.costs.clearanceAndHandling == u.clearanceAndHandling.value
    ensures u.clearanceAndHandling.None? ==> r.costs.clearanceAndHandling == c.costs.clearanceAndHandling
    ensures u.localTransportation.Some? ==> r.costs.localTransportation == u.localTransportation.value
    ensures u.localTransportation.None? ==> r.costs.localTransportation == c.costs.localTransportation
    ensures u.documentationFees.Some? ==> r.costs.documentationFees == u.documentationFees.value
    ensures u.documentationFees.None? ==> r.costs.documentationFees == c.costs.documentationFees
    ensures u.profitMarginTarget.Some? ==> r.costs.profitMarginTarget == u.profitMarginTarget.value
    ensures u.profitMarginTarget.None? ==> r.costs.profitMarginTarget == c.costs.profitMarginTarget
  {
    var k := c.costs;
    c.(costs := CostParameters(
      u.shippingPerCar.GetOr(k.shippingPerCar),
      u.insuranceRate.GetOr(k.insuranceRate),
      u.customsDutyRate.GetOr(k.customsDutyRate),
      u.vatRate.GetOr(k.vatRate),
      u.clearanceAndHandling.GetOr(k.clearanceAndHandling),
      u.localTransportation.GetOr(k.localTransportation),
      u.documentationFees.GetOr(k.documentationFees),
      u.profitMarginTarget.GetOr(k.profitMarginTarget)))
  }

  /** `{ ...old, ...new }` on the exchange-rate pair. */
  function UpdateExchangeRates(c: Calculator, u: RateUpdate): (r: Calculator)
    ensures r.costs == c.costs
    ensures r.rates.jpyToUsd == (if u.jpyToUsd.Some? then u.jpyToUsd.value else c.rates.jpyToUsd)
    ensures r.rates.usdToJpy == (if u.usdToJpy.Some? then u.usdToJpy.value else c.rates.usdToJpy)
  {
    c.(rates := ExchangeRates(u.jpyToUsd.GetOr(c.rates.jpyToUsd), u.usdToJpy.GetOr(c.rates.usdToJpy)))
  }

  /** The later spread wins key by key. */
  function Later<T>(first: Option<T>, second: Option<T>): Option<T> {
    if second.Some? then second else first
  }

  function MergeCostUpdates(a: CostUpdate, b: CostUpdate): CostUpdate {
    CostUpdate(
      Later(a.shippingPerCar, b.shippingPerCar),
      Later(a.insuranceRate, b.insuranceRate),
      Later(a.customsDutyRate, b.customsDutyRate),
      Later(a.vatRate, b.vatRate),
      Later(a.clearanceAndHandling, b.clearanceAndHandling),
      Later(a.localTransportation, b.localTransportation),
      Later(a.documentationFees, b.documentationFees),
      Later(a.profitMarginTarget, b.profitMarginTarget))
  }

  /** Supplying no keys changes nothing; two updates in a row are one
      merged update; repeating an update is a no-op. */
  lemma CostUpdateAlgebra(c: Calculator, a: CostUpdate, b: CostUpdate)
    ensures UpdateCostParameters(c, NoCostUpdate) == c
    ensures UpdateCostParameters(UpdateCostParameters(c, a), b)
         == UpdateCostParameters(c, MergeCostUpdates(a, b))
    ensures UpdateCostParameters(UpdateCostParameters(c, a), a) == UpdateCostParameters(c, a)
  {
  }

  lemma RateUpdateAlgebra(c: Calculator, a: RateUpdate, b: RateUpdate)
    ensures UpdateExchangeRates(c, RateUpdate(None, None)) == c
    ensures UpdateExchangeRates(UpdateExchangeRates(c, a), b)
         == UpdateExchangeRates(c, RateUpdate(Later(a.jpyToUsd, b.jpyToUsd), Later(a.usdToJpy, b.usdToJpy)))
  {
  }

  // ---------------------------------------------------------------------
  // Currency conversion.

  /** Yen to dollars at the stored rate: zero stays zero, and a positive
      rate keeps the sign of the amount. */
  function ConvertJpyToUsd(c: Calculator, jpy: real): (usd: real)
    ensures jpy == 0.0 ==> usd == 0.0
    ensures c.rates.jpyToUsd > 0.0 ==> (usd > 0.0 <==> jpy > 0.0) && (usd < 0.0 <==> jpy < 0.0)
  {
    SignOfProduct(jpy, c.rates.jpyToUsd);
    jpy * c.rates.jpyToUsd
  }

  /** Dollars to yen at the stored rate, with the same sign laws. */
  function ConvertUsdToJpy(c: Calculator, usd: real): (jpy: real)
    ensures usd == 0.0 ==> jpy == 0.0
    ensures c.rates.usdToJpy > 0.0 ==> (jpy > 0.0 <==> usd > 0.0) && (jpy < 0.0 <==> usd < 0.0)
  {
    SignOfProduct(usd, c.rates.usdToJpy);
    usd * c.rates.usdToJpy
  }

  lemma SignOfProduct(x: real, k: real)
    ensures k > 0.0 ==> (x * k > 0.0 <==> x > 0.0) && (x * k < 0.0 <==> x < 0.0)
  {
    if k > 0.0 {
      if x > 0.0 { MulStrict(0.0, x, k); }
      if x < 0.0 { MulStrict(x, 0.0, k); }
    }
  }

  /** Conversion is linear in the amount. */
  lemma ConversionLinear(c: Calculator, a: real, b: real, k: real)
    ensures ConvertJpyToUsd(c, a + b) == ConvertJpyToUsd(c, a) + ConvertJpyToUsd(c, b)
    ensures ConvertUsdToJpy(c, a + b) == ConvertUsdToJpy(c, a) + ConvertUsdToJpy(c, b)
    ensures ConvertJpyToUsd(c, k * a) == k * ConvertJpyToUsd(c, a)
    ensures ConvertUsdToJpy(c, k * a) == k * ConvertUsdToJpy(c, a)
  {
  }

  /** A larger amount never converts to less under a non-negative rate. */
  lemma ConversionMonotone(c: Calculator, a: real, b: real)
    requires a <= b
    ensures c.rates.jpyToUsd >= 0.0 ==> ConvertJpyToUsd(c, a) <= ConvertJpyToUsd(c, b)
    ensures c.rates.usdToJpy >= 0.0 ==> ConvertUsdToJpy(c, a) <= ConvertUsdToJpy(c, b)
  {
    JpyMonotone(c, a, b);
    UsdMonotone(c, a, b);
  }

  lemma ScaledLe(a: real, b: real, k: real, x: real, y: real)
    requires a <= b && k >= 0.0 && x == a * k && y == b * k
    ensures x <= y
  {
    MulLe(a, b, k);
  }

  lemma JpyMonotone(c: Calculator, a: real, b: real)
    requires a <= b
    ensures c.rates.jpyToUsd >= 0.0 ==> ConvertJpyToUsd(c, a) <= ConvertJpyToUsd(c, b)
  {
    var k := c.rates.jpyToUsd;
    if k >= 0.0 {
      var x, y := ConvertJpyToUsd(c, a), ConvertJpyToUsd(c, b);
      ScaledLe(a, b, k, x, y);
    }
  }

  lemma UsdMonotone(c: Calculator, a: real, b: real)
    requires a <= b
    ensures c.rates.usdToJpy >= 0.0 ==> ConvertUsdToJpy(c, a) <= ConvertUsdToJpy(c, b)
  {
    var k := c.rates.usdToJpy;
    if k >= 0.0 {
      var x, y := ConvertUsdToJpy(c, a), ConvertUsdToJpy(c, b);
      ScaledLe(a, b, k, x, y);
    }
  }

  /** When the two rates are reciprocal, converting there and back is exact. */
  lemma ConversionRoundTrip(c: Calculator, jpy: real, usd: real)
    requires c.rates.jpyToUsd * c.rates.usdToJpy == 1.0
    ensures ConvertUsdToJpy(c, ConvertJpyToUsd(c, jpy)) == jpy
    ensures ConvertJpyToUsd(c, ConvertUsdToJpy(c, usd)) == usd
  {
    assert ConvertUsdToJpy(c, ConvertJpyToUsd(c, jpy)) == jpy * (c.rates.jpyToUsd * c.rates.usdToJpy);
    assert ConvertJpyToUsd(c, ConvertUsdToJpy(c, usd)) == usd * (c.rates.jpyToUsd * c.rates.usdToJpy);
  }

  /** The built-in rates are only approximately reciprocal. */
  lemma DefaultRatesNotReciprocal()
    ensures DefaultRates.jpyToUsd * DefaultRates.usdToJpy == 0.999975
    ensures ConvertUsdToJpy(Default, ConvertJpyToUsd(Default, 1000000.0)) == 999975.0
  {
  }

  // ---------------------------------------------------------------------
  // Landed cost.

  datatype CostBreakdown = CostBreakdown(
    shipping: real,
    insurance: real,
    customsDuty: real,
    vat: real,
    clearance: real,
    transport: real,
    documentation: real,
    totalAdditionalCosts: real)

  /** The fees that do not depend on the car's value. */
  function FixedFees(k: CostParameters): real {
    k.shippingPerCar + k.clearanceAndHandling + k.localTransportation + k.documentationFees
  }

  /** The cost per dollar of car value: insurance, duty, and VAT levied on
      the duty-inclusive value. */
  function ValueRate(k: CostParameters): real {
    k.insuranceRate + k.customsDutyRate + k.vatRate * (1.0 + k.customsDutyRate)
  }

  /** Each fee of importing a car worth `value` dollars, and their sum. */
  function CalculateAllCosts(k: CostParameters, value: real): (b: CostBreakdown)
    ensures b.shipping == k.shippingPerCar && b.clearance == k.clearanceAndHandling
    ensures b.transport == k.localTransportation && b.documentation == k.documentationFees
    ensures b.insurance == value * k.insuranceRate && b.customsDuty == value * k.customsDutyRate
    ensures b.vat == value * (1.0 + k.customsDutyRate) * k.vatRate
    ensures b.totalAdditionalCosts
         == b.shipping + b.insurance + b.customsDuty + b.vat + b.clearance + b.transport + b.documentation
    ensures b.totalAdditionalCosts == FixedFees(k) + value * ValueRate(k)
  {
    var shipping := k.shippingPerCar;
    var insurance := value * k.insuranceRate;
    var customsDuty := value * k.customsDutyRate;
    var vat := (value + customsDuty) * k.vatRate;
    var clearance := k.clearanceAndHandling;
    var transport := k.localTransportation;
    var documentation := k.documentationFees;
    var total := shipping + insurance + customsDuty + vat + clearance + transport + documentation;
    assert vat == value * (1.0 + k.customsDutyRate) * k.vatRate;
    assert insurance + customsDuty + vat == value * ValueRate(k);
    CostBreakdown(shipping, insurance, customsDuty, vat, clearance, transport, documentation, total)
  }

  /** With the default rates, VAT on 100000 is 18750 (15% of 125000), not
      15000 (15% of the bare value). */
  lemma VatOnDutyInclusiveValue()
    ensures CalculateAllCosts(DefaultCosts, 100000.0).customsDuty == 25000.0
    ensures CalculateAllCosts(DefaultCosts, 100000.0).vat == 18750.0
    ensures CalculateAllCosts(DefaultCosts, 100000.0).vat != 100000.0 * DefaultCosts.vatRate
  {
  }

  // ---------------------------------------------------------------------
  // Score.

  datatype Metrics = Metrics(
    profitMargin: Num,
    grossProfit: real,
    roi: Num,
    carAge: int,
    mileage: Option<int>)

  function MarginPoints(m: Num): (p: nat)
    ensures p <= 40
  {
    if AtLeast(m, 30.0) then 40
    else if AtLeast(m, 20.0) then 30
    else if AtLeast(m, 15.0) then 20
    else if AtLeast(m, 10.0) then 10
    else 0
  }

  function ProfitPoints(g: real): (p: nat)
    ensures p <= 30
  {
    if g >= 5000.0 then 30
    else if g >= 3000.0 then 25
    else if g >= 2000.0 then 20
    else if g >= 1000.0 then 15
    else if g >= 500.0 then 10
    else 0
  }

  function RoiPoints(r: Num): (p: nat)
    ensures p <= 20
  {
    if AtLeast(r, 50.0) then 20
    else if AtLeast(r, 30.0) then 15
    else if AtLeast(r, 20.0) then 10
    else if AtLeast(r, 10.0) then 5
    else 0
  }

  function AgePoints(age: int): (p: nat)
    ensures p <= 5
  {
    if age <= 5 then 5
    else if age <= 10 then 3
    else if age <= 15 then 1
    else 0
  }

  /** `mileage && mileage <= limit`: a missing or zero mileage earns nothing. */
  function MileagePoints(m: Option<int>): (p: nat)
    ensures p <= 5
    ensures !TruthyInt(m) ==> p == 0
    ensures TruthyInt(m) ==> p == (if m.value <= 50000 then 5 else if m.value <= 100000 then 3
                                   else if m.value <= 150000 then 1 else 0)
  {
    if TruthyInt(m) && m.value <= 50000 then 5
    else if TruthyInt(m) && m.value <= 100000 then 3
    else if TruthyInt(m) && m.value <= 150000 then 1
    else 0
  }

  function RawScore(m: Metrics): int {
    MarginPoints(m.profitMargin) + ProfitPoints(m.grossProfit) + RoiPoints(m.roi)
      + AgePoints(m.carAge) + MileagePoints(m.mileage)
  }

  function CalculateProfitabilityScore(m: Metrics): (s: int)
    ensures 0 <= s <= 100
    ensures s == RawScore(m)
  {
    var score := RawScore(m);
    if score > 100 then 100 else if score < 0 then 0 else score
  }

  /** The score never falls when margin, profit or ROI rise or the car gets
      younger, the mileage staying the same. */
  lemma ScoreMonotone(a: Metrics, b: Metrics)
    requires NumLe(a.profitMargin, b.profitMargin) || a.profitMargin == b.profitMargin
    requires a.grossProfit <= b.grossProfit
    requires NumLe(a.roi, b.roi) || a.roi == b.roi
    requires a.carAge >= b.carAge
    requires a.mileage == b.mileage
    ensures CalculateProfitabilityScore(a) <= CalculateProfitabilityScore(b)
  {
    assert MarginPoints(a.profitMargin) <= MarginPoints(b.profitMargin) by {
      if NumLe(a.profitMargin, b.profitMargin) {
        forall t: real | AtLeast(a.profitMargin, t) ensures AtLeast(b.profitMargin, t) {
          AtLeastMonotone(a.profitMargin, b.profitMargin, t);
        }
      }
    }
    assert RoiPoints(a.roi) <= RoiPoints(b.roi) by {
      if NumLe(a.roi, b.roi) {
        forall t: real | AtLeast(a.roi, t) ensures AtLeast(b.roi, t) {
          AtLeastMonotone(a.roi, b.roi, t);
        }
      }
    }
  }

  /** Between two recorded mileages, the lower one never earns fewer points. */
  lemma MileagePointsMonotone(lo: int, hi: int)
    requires 0 < lo <= hi
    ensures MileagePoints(Some(hi)) <= MileagePoints(Some(lo))
  {
  }

  // ---------------------------------------------------------------------
  // Risk and recommendation.

  datatype RiskLevel = Low | Medium | High | VeryHigh {
    function Name(): string {
      match this
      case Low => "Low"
      case Medium => "Medium"
      case High => "High"
      case VeryHigh => "Very High"
    }
  }

  /** The risk tier: each better tier needs a higher score and a higher
      margin, and a listing reaches a tier exactly when it meets that
      tier's two thresholds. */
  function AssessRiskLevel(score: int, margin: Num): (r: RiskLevel)
    ensures r == Low <==> score >= 80 && AtLeast(margin, 25.0)
    ensures RiskRank(r) <= 1 <==> score >= 60 && AtLeast(margin, 15.0)
    ensures RiskRank(r) <= 2 <==> score >= 40 && AtLeast(margin, 10.0)
  {
    if score >= 80 && AtLeast(margin, 25.0) then Low
    else if score >= 60 && AtLeast(margin, 15.0) then Medium
    else if score >= 40 && AtLeast(margin, 10.0) then High
    else VeryHigh
  }

  predicate Recommended(score: int, margin: Num) {
    score >= 60 && AtLeast(margin, 15.0)
  }

  /** The recommendation flag and the two best risk tiers coincide. */
  lemma RecommendedIffLowOrMediumRisk(score: int, margin: Num)
    ensures Recommended(score, margin) <==> AssessRiskLevel(score, margin) in {Low, Medium}
  {
  }

  function RiskRank(r: RiskLevel): nat {
    match r
    case Low => 0
    case Medium => 1
    case High => 2
    case VeryHigh => 3
  }

  /** A better score and margin never raise the risk tier. */
  lemma RiskMonotone(s1: int, m1: Num, s2: int, m2: Num)
    requires s1 <= s2 && (NumLe(m1, m2) || m1 == m2)
    ensures RiskRank(AssessRiskLevel(s2, m2)) <= RiskRank(AssessRiskLevel(s1, m1))
  {
    if NumLe(m1, m2) {
      if AtLeast(m1, 25.0) { AtLeastMonotone(m1, m2, 25.0); }
      if AtLeast(m1, 15.0) { AtLeastMonotone(m1, m2, 15.0); }
      if AtLeast(m1, 10.0) { AtLeastMonotone(m1, m2, 10.0); }
    }
  }

  // ---------------------------------------------------------------------
  // The whole analysis.

  /** What the engine reads of a listing. */
  datatype PricedCar = PricedCar(price: real, year: int, mileage: Option<int>)

  datatype ProfitAnalysis = ProfitAnalysis(
    japanPriceUsd: real,
    totalCost: real,
    expectedResaleValue: real,
    grossProfit: real,
    profitMargin: Num,
    roi: Num,
    profitabilityScore: int,
    costBreakdown: CostBreakdown,
    isRecommended: bool,
    riskLevel: RiskLevel)

  /** Price plus every additional cost, in closed form. */
  function LandedCost(c: Calculator, priceJpy: real): real {
    ConvertJpyToUsd(c, priceJpy) * (1.0 + ValueRate(c.costs)) + FixedFees(c.costs)
  }

  lemma LandedCostMonotone(c: Calculator, p1: real, p2: real)
    requires c.rates.jpyToUsd >= 0.0
    requires c.costs.insuranceRate >= 0.0 && c.costs.customsDutyRate >= 0.0 && c.costs.vatRate >= 0.0
    requires p1 <= p2
    ensures LandedCost(c, p1) <= LandedCost(c, p2)
  {
    MulLe(0.0, c.costs.vatRate, 1.0 + c.costs.customsDutyRate);
    MulLe(p1, p2, c.rates.jpyToUsd);
    MulLe(ConvertJpyToUsd(c, p1), ConvertJpyToUsd(c, p2), 1.0 + ValueRate(c.costs));
  }

  /** `(a / b) * 100` as a double. */
  function Percent(a: real, b: real): Num {
    Quotient(a * 100.0, b)
  }

  /** `averageValue || lowValue`, when that is truthy. */
  function ExpectedResale(v: ResaleValue): (e: Option<real>)
    ensures e.Some? <==> Truthy(v.averageValue) || Truthy(v.lowValue)
    ensures e.Some? ==> e.value != 0.0
    ensures Truthy(v.averageValue) ==> e == v.averageValue
    ensures !Truthy(v.averageValue) && Truthy(v.lowValue) ==> e == v.lowValue
  {
    if Truthy(v.averageValue) then v.averageValue
    else if Truthy(v.lowValue) then v.lowValue
    else None
  }

  function CalculateProfitability(c: Calculator, car: Option<PricedCar>, resale: Option<ResaleValue>,
                                  currentYear: int): (r: Option<ProfitAnalysis>)
    ensures r.Some? <==> car.Some? && resale.Some? && ExpectedResale(resale.value).Some?
    ensures r.Some? ==>
      var a := r.value;
      && a.japanPriceUsd == car.value.price * c.rates.jpyToUsd
      && a.expectedResaleValue == ExpectedResale(resale.value).value
      && a.totalCost == LandedCost(c, car.value.price)
      && a.grossProfit == a.expectedResaleValue - a.totalCost
      && a.profitMargin == Percent(a.grossProfit, a.totalCost)
      && a.roi == Percent(a.grossProfit, a.japanPriceUsd)
      && 0 <= a.profitabilityScore <= 100
      && a.profitabilityScore
         == CalculateProfitabilityScore(Metrics(a.profitMargin, a.grossProfit, a.roi,
                                                currentYear - car.value.year, car.value.mileage))
      && a.riskLevel == AssessRiskLevel(a.profitabilityScore, a.profitMargin)
      && a.costBreakdown == CalculateAllCosts(c.costs, a.japanPriceUsd)
      && (a.isRecommended <==> a.riskLevel in {Low, Medium})
      && (a.isRecommended <==> a.profitabilityScore >= 60 && AtLeast(a.profitMargin, 15.0))
  {
    if car.None? || resale.None? then None
    else
      var priceUsd := ConvertJpyToUsd(c, car.value.price);
      var costs := CalculateAllCosts(c.costs, priceUsd);
      var totalCost := priceUsd + costs.totalAdditionalCosts;
      var expected := ExpectedResale(resale.value);
      if expected.None? then None
      else
        var gross := expected.value - totalCost;
        var margin := Percent(gross, totalCost);
        var roi := Percent(gross, priceUsd);
        var score := CalculateProfitabilityScore(
          Metrics(margin, gross, roi, currentYear - car.value.year, car.value.mileage));
        RecommendedIffLowOrMediumRisk(score, margin);
        Some(ProfitAnalysis(priceUsd, totalCost, expected.value, gross, margin, roi, score, costs,
                            Recommended(score, margin), AssessRiskLevel(score, margin)))
  }

  /** Holding everything else fixed, a dearer listing never yields more
      profit (non-negative rates). */
  lemma ProfitFallsWithPrice(c: Calculator, car1: PricedCar, car2: PricedCar, v: ResaleValue, year: int)
    requires c.rates.jpyToUsd >= 0.0
    requires c.costs.insuranceRate >= 0.0 && c.costs.customsDutyRate >= 0.0 && c.costs.vatRate >= 0.0
    requires car1.price <= car2.price
    requires ExpectedResale(v).Some?
    ensures CalculateProfitability(c, Some(car2), Some(v), year).Some?
    ensures CalculateProfitability(c, Some(car1), Some(v), year).Some?
    ensures CalculateProfitability(c, Some(car2), Some(v), year).value.grossProfit
         <= CalculateProfitability(c, Some(car1), Some(v), year).value.grossProfit
  {
    LandedCostMonotone(c, car1.price, car2.price);
  }

  /** The reference scenario: 2,000,000 yen at 0.0067 is 13400 USD; the
      other costs add 8630.5, the car resells for 20000, so it loses 2030.5;
      a five-year-old car with 40000 km scores 10, is not recommended and
      is rated "Very High" risk. */
  lemma GoldenScenario(currentYear: int)
    ensures
      var r := CalculateProfitability(Default, Some(PricedCar(2000000.0, currentYear - 5, Some(40000))),
                                       Some(ResaleValue(None, None, Some(20000.0), "USD", "mock data", None)),
                                       currentYear);
      && r.Some?
      && r.value.japanPriceUsd == 13400.0
      && r.value.costBreakdown.totalAdditionalCosts == 8630.5
      && r.value.totalCost == 22030.5
      && r.value.grossProfit == -2030.5
      && r.value.profitabilityScore == 10
      && !r.value.isRecommended
      && r.value.riskLevel == VeryHigh
  {
    var costs := CalculateAllCosts(DefaultCosts, 13400.0);
    assert costs.customsDuty == 3350.0;
    assert costs.vat == 2512.5;
    assert costs.totalAdditionalCosts == 8630.5;
    var margin := Percent(-2030.5, 22030.5);
    assert margin.Finite? && margin.value < 0.0;
    var roi := Percent(-2030.5, 13400.0);
    assert roi.Finite? && roi.value < 0.0;
  }
}
