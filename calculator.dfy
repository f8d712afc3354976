/** The earlier KSeF cost calculator: from annual revenue and monthly invoice
    volume it estimates, under one of three scenarios, the yearly losses
    without KSeF (fines, wasted time, VAT delays, management time, extra
    accounting), the cost of implementing it, and the savings and return on
    that cost. JavaScript numbers are modelled as exact reals. */
module Calculator {
  import opened Wrappers

  datatype Scenario = Conservative | Realistic | Optimistic

  /** The parameters of a scenario. */
  datatype Params = Params(
    hoursPerInvoice: real,
    hourlyRate: real,
    fineFrequency: real,
    vatDelayRate: real,
    managementTimeMultiplier: real,
    accountingTimePerInvoice: real)

  function ParamsOf(s: Scenario): (p: Params)
    ensures 0.0 < p.managementTimeMultiplier <= 1.2
    ensures 0.0 < p.fineFrequency < 1.0
  {
    match s
    case Conservative => Params(0.10, 100.0, 0.3, 0.003, 0.8, 0.03)
    case Realistic => Params(0.15, 120.0, 0.5, 0.005, 1.0, 0.05)
    case Optimistic => Params(0.20, 140.0, 0.7, 0.008, 1.2, 0.08)
  }

  /** `scenario = 'realistic'`: the scenario when none is given. */
  function ScenarioOrDefault(s: Option<Scenario>): (r: Scenario)
    ensures s.None? ==> r == Realistic
    ensures s.Some? ==> r == s.value
  {
    s.GetOr(Realistic)
  }

  function MinReal(a: real, b: real): real {
    if a <= b then a else b
  }

  function MinInt(a: int, b: int): int {
    if a <= b then a else b
  }

  /** Multiplying by a non-negative number keeps the order. */
  lemma MulMono(a: real, b: real, c: real)
    requires a <= b && 0.0 <= c
    ensures a * c <= b * c
  {
  }

  /** Rounding down keeps the order. */
  lemma FloorMono(x: real, y: real)
    requires x <= y
    ensures x.Floor <= y.Floor
  {
  }

  const MaxViolations := 6
  const FinePerViolation := 500

  /** The expected number of violations a year, `volume * 12 * fineFrequency / 100`. */
  function ExpectedViolations(volume: real, p: Params): real {
    volume * 12.0 * p.fineFrequency / 100.0
  }

  /** Fines: 500 per expected violation, rounded down, at most 6 violations. */
  function Fines(volume: real, p: Params): (fines: int)
    ensures fines % FinePerViolation == 0 && fines <= MaxViolations * FinePerViolation
  {
    MinInt(ExpectedViolations(volume, p).Floor, MaxViolations) * FinePerViolation
  }

  /** No fines below zero for a non-negative volume. */
  lemma FinesNonNegative(volume: real, p: Params)
    requires volume >= 0.0 && p.fineFrequency >= 0.0
    ensures 0 <= Fines(volume, p)
  {
    MulMono(0.0, volume * 12.0, p.fineFrequency);
    FloorMono(0.0, ExpectedViolations(volume, p));
  }

  /** Fines do not decrease with the invoice volume. */
  lemma FinesMonotone(v1: real, v2: real, p: Params)
    requires v1 <= v2 && p.fineFrequency >= 0.0
    ensures Fines(v1, p) <= Fines(v2, p)
  {
    MulMono(v1 * 12.0, v2 * 12.0, p.fineFrequency);
    FloorMono(ExpectedViolations(v1, p), ExpectedViolations(v2, p));
  }

  /** Fines do not decrease with the scenario's fine frequency. */
  lemma FinesMonotoneInFrequency(volume: real, p: Params, q: Params)
    requires volume >= 0.0 && p.fineFrequency <= q.fineFrequency
    ensures Fines(volume, p) <= Fines(volume, q)
  {
    MulMono(p.fineFrequency, q.fineFrequency, volume * 12.0);
    FloorMono(ExpectedViolations(volume, p), ExpectedViolations(volume, q));
  }

  /** Time lost on handling `volume * 12` invoices a year. */
  function TimeWasted(volume: real, p: Params): real {
    volume * 12.0 * p.hoursPerInvoice * p.hourlyRate
  }

  /** Interest lost on delayed VAT, 23% of revenue at the scenario's rate. */
  function VatDelays(revenue: real, p: Params): real {
    revenue * 0.23 * p.vatDelayRate
  }

  /** Management time, `min(volume / 50, 40)` hours scaled by the scenario, at 500 an hour. */
  function OpportunityCost(volume: real, p: Params): (c: real)
    requires p.managementTimeMultiplier <= 1.2 && p.managementTimeMultiplier > 0.0
    ensures c <= 24000.0
    ensures volume >= 0.0 ==> c >= 0.0
  {
    MinReal(volume / 50.0, 40.0) * p.managementTimeMultiplier * 500.0
  }

  /** Extra accounting time at 100 an hour. */
  function AccountingCost(volume: real, p: Params): real {
    volume * 12.0 * p.accountingTimePerInvoice * 100.0
  }

  /** The base implementation cost by revenue tier. */
  function BaseCost(revenue: real): (c: int)
    ensures c in {8000, 10000, 15000, 25000}
  {
    if revenue > 50000000.0 then 25000
    else if revenue > 10000000.0 then 15000
    else if revenue > 2000000.0 then 10000
    else 8000
  }

  /** `calculateImplementationCost(revenue, invoiceVolume)`: the tier's base, 500
      per hundred invoices up to 20 of them, 2000 per whole 5 million of revenue,
      capped at 50000. */
  function ImplementationCost(revenue: real, volume: real): (c: real)
    ensures c <= 50000.0
    ensures revenue >= 0.0 && volume >= 0.0 ==> 8000.0 <= c
  {
    var total := BaseCost(revenue) as real + MinReal(volume / 100.0, 20.0) * 500.0
                 + ((revenue / 5000000.0).Floor * 2000) as real;
    MinReal(total, 50000.0)
  }

  /** The implementation cost does not decrease with revenue. */
  lemma ImplementationCostMonotoneInRevenue(r1: real, r2: real, volume: real)
    requires r1 <= r2
    ensures ImplementationCost(r1, volume) <= ImplementationCost(r2, volume)
  {
    assert BaseCost(r1) <= BaseCost(r2);
    assert (r1 / 5000000.0).Floor <= (r2 / 5000000.0).Floor by {
      assert r1 / 5000000.0 <= r2 / 5000000.0;
    }
  }

  /** The implementation cost does not decrease with invoice volume. */
  lemma ImplementationCostMonotoneInVolume(revenue: real, v1: real, v2: real)
    requires v1 <= v2
    ensures ImplementationCost(revenue, v1) <= ImplementationCost(revenue, v2)
  {
    assert MinReal(v1 / 100.0, 20.0) <= MinReal(v2 / 100.0, 20.0);
  }

  /** A quotient of JavaScript numbers: finite, or `Infinity`/`NaN` when the divisor is zero. */
  datatype Quotient = Finite(value: real) | NotFinite

  function Divide(a: real, b: real): (q: Quotient)
    ensures b != 0.0 <==> q.Finite?
    ensures b != 0.0 ==> q.value * b == a
  {
    if b != 0.0 then Finite(a / b) else NotFinite
  }

  /** The yearly losses without KSeF, the sum of the five items. */
  function Losses(revenue: real, volume: real, p: Params): (r: real)
    requires 0.0 < p.managementTimeMultiplier <= 1.2
    ensures revenue >= 0.0 && volume >= 0.0 && NonNegative(p) ==> r >= 0.0
  {
    ItemsNonNegative(revenue, volume, p);
    Fines(volume, p) as real + TimeWasted(volume, p) + VatDelays(revenue, p)
    + OpportunityCost(volume, p) + AccountingCost(volume, p)
  }

  /** Fines, lost time, VAT delays and accounting cost are never negative
      for non-negative inputs and rates. */
  lemma ItemsNonNegative(revenue: real, volume: real, p: Params)
    ensures revenue >= 0.0 && volume >= 0.0 && NonNegative(p) ==>
      Fines(volume, p) >= 0 && TimeWasted(volume, p) >= 0.0 && VatDelays(revenue, p) >= 0.0
      && AccountingCost(volume, p) >= 0.0
  {
    if revenue >= 0.0 && volume >= 0.0 && NonNegative(p) {
      FinesNonNegative(volume, p);
      MulMono(0.0, p.hoursPerInvoice, volume * 12.0);
      MulMono(0.0, p.hourlyRate, volume * 12.0 * p.hoursPerInvoice);
      MulMono(0.0, p.vatDelayRate, revenue * 0.23);
      MulMono(0.0, p.accountingTimePerInvoice, volume * 12.0);
    }
  }

  /** A scenario whose rates and times are never negative. */
  predicate NonNegative(p: Params) {
    && p.hoursPerInvoice >= 0.0 && p.hourlyRate >= 0.0 && p.fineFrequency >= 0.0
    && p.vatDelayRate >= 0.0 && p.accountingTimePerInvoice >= 0.0
  }

  /** What `calculateKSEFImpact` returns, without the formatted breakdown texts. */
  datatype Results = Results(
    fines: real,
    timeWasted: real,
    vatDelays: real,
    opportunityCost: real,
    accountingCost: real,
    totalLosses: real,
    implementationCost: real,
    savings: real,
    roi: Quotient,
    roiPercentage: Quotient,
    savings6Months: real,
    savings1Year: real,
    savings3Years: real)

  /** `calculateKSEFImpact({revenue, invoiceVolume, scenario})`. */
  function Impact(revenue: real, volume: real, scenario: Option<Scenario>): (r: Results)
    ensures r.totalLosses == r.fines + r.timeWasted + r.vatDelays + r.opportunityCost + r.accountingCost
    ensures r.totalLosses == Losses(revenue, volume, ParamsOf(ScenarioOrDefault(scenario)))
    ensures r.fines == Fines(volume, ParamsOf(ScenarioOrDefault(scenario))) as real
    ensures r.savings == r.totalLosses - r.implementationCost && r.savings1Year == r.savings
    ensures r.savings3Years == 3.0 * r.totalLosses - r.implementationCost
    ensures r.savings6Months == r.totalLosses / 12.0 * 4.0 - r.implementationCost
    ensures r.roi == Divide(r.savings, r.implementationCost)
    ensures r.roi.Finite? <==> r.implementationCost != 0.0
    ensures r.roi.Finite? ==> r.roiPercentage == Finite(r.roi.value * 100.0)
    ensures r.opportunityCost <= 24000.0
    ensures r.implementationCost == ImplementationCost(revenue, volume)
  {
    var p := ParamsOf(ScenarioOrDefault(scenario));
    var fines := Fines(volume, p) as real;
    var timeWasted := TimeWasted(volume, p);
    var vatDelays := VatDelays(revenue, p);
    var opportunityCost := OpportunityCost(volume, p);
    var accountingCost := AccountingCost(volume, p);
    var totalLosses := fines + timeWasted + vatDelays + opportunityCost + accountingCost;
    var implementationCost := ImplementationCost(revenue, volume);
    var savings := totalLosses - implementationCost;
    var roi := Divide(savings, implementationCost);
    var roiPercentage := if roi.Finite? then Finite(roi.value * 100.0) else NotFinite;
    Results(fines, timeWasted, vatDelays, opportunityCost, accountingCost, totalLosses, implementationCost,
            savings, roi, roiPercentage, totalLosses / 12.0 * 4.0 - implementationCost, savings,
            totalLosses * 3.0 - implementationCost)
  }

  /** For non-negative inputs every loss is non-negative, the fines are a
      multiple of 500 between 0 and 3000, the implementation cost lies between
      8000 and 50000, and so the return on it is always a finite number. */
  lemma ImpactOfNonNegativeInputs(revenue: real, volume: real, scenario: Option<Scenario>)
    requires revenue >= 0.0 && volume >= 0.0
    ensures var r := Impact(revenue, volume, scenario);
      0.0 <= r.fines <= 3000.0 && r.timeWasted >= 0.0 && r.vatDelays >= 0.0
      && r.opportunityCost >= 0.0 && r.accountingCost >= 0.0 && r.totalLosses >= 0.0
      && 8000.0 <= r.implementationCost <= 50000.0 && r.roi.Finite?
  {
    var p := ParamsOf(ScenarioOrDefault(scenario));
    assert NonNegative(p);
    ItemsNonNegative(revenue, volume, p);
  }

  /** Outside that range the cost can reach zero, and the return is then not a
      finite number: revenue of minus 20 million with no invoices. */
  lemma NegativeRevenueZeroCost()
    ensures ImplementationCost(-20000000.0, 0.0) == 0.0
    ensures Impact(-20000000.0, 0.0, None).roi == NotFinite
  {
    assert (-20000000.0 / 5000000.0).Floor == -4;
  }

  /** `compareScenarios(revenue, invoiceVolume)`: the three scenarios side by
      side; they share the implementation cost, which does not depend on the scenario. */
  function CompareScenarios(revenue: real, volume: real): (r: (Results, Results, Results))
    ensures r.0 == Impact(revenue, volume, Some(Conservative))
    ensures r.1 == Impact(revenue, volume, Some(Realistic)) && r.1 == Impact(revenue, volume, None)
    ensures r.2 == Impact(revenue, volume, Some(Optimistic))
    ensures r.0.implementationCost == r.1.implementationCost == r.2.implementationCost
  {
    (Impact(revenue, volume, Some(Conservative)), Impact(revenue, volume, Some(Realistic)),
     Impact(revenue, volume, Some(Optimistic)))
  }

  /** Every parameter of `q` is at least the one of `p`: `q` is the more pessimistic scenario. */
  predicate AtMostAsCostly(p: Params, q: Params) {
    && 0.0 <= p.hoursPerInvoice <= q.hoursPerInvoice
    && 0.0 <= p.hourlyRate <= q.hourlyRate
    && p.fineFrequency <= q.fineFrequency
    && p.vatDelayRate <= q.vatDelayRate
    && 0.0 < p.managementTimeMultiplier <= q.managementTimeMultiplier <= 1.2
    && p.accountingTimePerInvoice <= q.accountingTimePerInvoice
  }

  /** For non-negative inputs the losses grow with every parameter. */
  lemma LossesMonotoneInParams(revenue: real, volume: real, p: Params, q: Params)
    requires revenue >= 0.0 && volume >= 0.0 && AtMostAsCostly(p, q)
    ensures Losses(revenue, volume, p) <= Losses(revenue, volume, q)
  {
    FinesMonotoneInFrequency(volume, p, q);
    TimeWastedMono(volume, p, q);
    MulMono(p.vatDelayRate, q.vatDelayRate, revenue * 0.23);
    assert VatDelays(revenue, p) <= VatDelays(revenue, q);
    OpportunityCostMono(volume, p, q);
    MulMono(p.accountingTimePerInvoice, q.accountingTimePerInvoice, volume * 12.0);
    assert AccountingCost(volume, p) <= AccountingCost(volume, q);
  }

  lemma TimeWastedMono(volume: real, p: Params, q: Params)
    requires volume >= 0.0 && 0.0 <= p.hoursPerInvoice <= q.hoursPerInvoice && 0.0 <= p.hourlyRate <= q.hourlyRate
    ensures TimeWasted(volume, p) <= TimeWasted(volume, q)
  {
    var n := volume * 12.0;
    MulMono(p.hoursPerInvoice, q.hoursPerInvoice, n);
    MulMono(p.hourlyRate, q.hourlyRate, n * q.hoursPerInvoice);
    MulMono(n * p.hoursPerInvoice, n * q.hoursPerInvoice, p.hourlyRate);
  }

  lemma OpportunityCostMono(volume: real, p: Params, q: Params)
    requires volume >= 0.0 && 0.0 < p.managementTimeMultiplier <= q.managementTimeMultiplier <= 1.2
    ensures OpportunityCost(volume, p) <= OpportunityCost(volume, q)
  {
    var mv := MinReal(volume / 50.0, 40.0);
    MulMono(p.managementTimeMultiplier, q.managementTimeMultiplier, mv);
  }

  /** For non-negative inputs, a more optimistic scenario never estimates
      smaller losses. */
  lemma ScenariosOrdered(revenue: real, volume: real)
    requires revenue >= 0.0 && volume >= 0.0
    ensures var r := CompareScenarios(revenue, volume);
      r.0.totalLosses <= r.1.totalLosses <= r.2.totalLosses
  {
    LossesMonotoneInParams(revenue, volume, ParamsOf(Conservative), ParamsOf(Realistic));
    LossesMonotoneInParams(revenue, volume, ParamsOf(Realistic), ParamsOf(Optimistic));
  }
}
