/** The project-finance cashflow engine: one row per period
    0..project lifetime, the operating columns, the debt schedule, straight
    line depreciation, tax and the post-tax equity cashflow; the objective
    (equity IRR less cost of equity) and the LCOE that zeroes it.  The IRR and
    the root finder are outside the model and enter as function parameters. */
module Cashflow {
  import opened Reals
  import opened Schema
  import Debt

  const HoursPerYear: real := 8760.0
  /** Initial tariff guess handed to the root finder. */
  const LcoeGuess: real := 30.0
  /** Added to the root so that the LCOE lies just past breakeven. */
  const LcoeOffset: real := 0.0001

  /** One row of the cashflow table.  Money columns are capital cost / 1000
      units, as in the engine. */
  datatype Row = Row(
    period: nat,
    capacityMw: real,
    capacityFactor: real,
    tariffPerMwh: real,
    totalGenerationMwh: real,
    totalRevenuesMn: real,
    omCostsMn: real,
    totalOperatingCostsMn: real,
    ebitdaMn: real,
    cfadsMn: real,
    targetDebtServiceMn: real,
    debtOutstandingEoPMn: real,
    interestExpenseMn: real,
    amortizationMn: real,
    debtOutstandingBoPMn: Debt.Option<real>,  // missing in period 0
    depreciationMn: real,
    taxableIncomeMn: real,
    taxLiabilityMn: real,
    postTaxNetEquityCashflowMn: real)

  // Column formulas, as functions of the period.  Period 0 is the
  // construction year and carries no operations.

  function CapacityAt(a: Assumptions, p: nat): real {
    if p > 0 then a.capacityMw else 0.0
  }

  function CapacityFactorAt(a: Assumptions, p: nat): real {
    if p > 0 then a.capacityFactor else 0.0
  }

  function TariffAt(tariff: real, p: nat): real {
    if p > 0 then tariff else 0.0
  }

  function Generation(a: Assumptions, p: nat): real {
    CapacityAt(a, p) * CapacityFactorAt(a, p) * HoursPerYear
  }

  function Revenues(a: Assumptions, tariff: real, p: nat): real {
    Generation(a, p) * TariffAt(tariff, p) / 1000.0
  }

  function OmCosts(a: Assumptions, p: nat): real {
    if p > 0 then CapitalCost(a) / 1000.0 * a.omCostPctOfCapitalCost else 0.0
  }

  /** EBITDA, which is also the cash flow available for debt service. */
  function Ebitda(a: Assumptions, tariff: real, p: nat): real {
    Revenues(a, tariff, p) - OmCosts(a, p)
  }

  function TargetDebtService(a: Assumptions, tariff: real, p: nat): real
    requires Valid(a)
  {
    if p == 0 then 0.0 else Ebitda(a, tariff, p) / a.dcsr
  }

  function OpeningDebt(a: Assumptions): real {
    a.debtPctOfCapitalCost * CapitalCost(a) / 1000.0
  }

  /** Straight-line depreciation of the capital cost over the lifetime. */
  function AnnualDepreciation(a: Assumptions): real
    requires Valid(a)
  {
    CapitalCost(a) / 1000.0 / (a.projectLifetimeYears as real)
  }

  function Depreciation(a: Assumptions, p: nat): real
    requires Valid(a)
  {
    if p > 0 then AnnualDepreciation(a) else 0.0
  }

  function TaxableIncome(a: Assumptions, tariff: real, p: nat, interest: real): real
    requires Valid(a)
  {
    Ebitda(a, tariff, p) - Depreciation(a, p) - interest
  }

  /** Tax is never refunded: a loss gives zero tax. */
  function TaxLiability(a: Assumptions, tariff: real, p: nat, interest: real): real
    requires Valid(a)
  {
    Max(0.0, a.taxRate * TaxableIncome(a, tariff, p, interest))
  }

  /** Period 0 is the equity share of the capital cost paid in; later periods
      are what is left after debt service and tax. */
  function EquityCashflow(a: Assumptions, tariff: real, p: nat, interest: real): real
    requires Valid(a)
  {
    if p == 0 then -CapitalCost(a) / 1000.0 * a.equityPctOfCapitalCost
    else Ebitda(a, tariff, p) - TargetDebtService(a, tariff, p) - TaxLiability(a, tariff, p, interest)
  }

  /** The target-debt-service column, periods 0..lifetime. */
  function TargetDebtServices(a: Assumptions, tariff: real): seq<real>
    requires Valid(a)
  {
    seq(a.projectLifetimeYears + 1, (p: int) requires 0 <= p => TargetDebtService(a, tariff, p))
  }

  /** Assembles a row from its period and its debt entries. */
  function MakeRow(a: Assumptions, tariff: real, p: nat, interest: real, amortization: real,
                   eop: real, bop: Debt.Option<real>): Row
    requires Valid(a)
  {
    Row(
      period := p,
      capacityMw := CapacityAt(a, p),
      capacityFactor := CapacityFactorAt(a, p),
      tariffPerMwh := TariffAt(tariff, p),
      totalGenerationMwh := Generation(a, p),
      totalRevenuesMn := Revenues(a, tariff, p),
      omCostsMn := OmCosts(a, p),
      totalOperatingCostsMn := OmCosts(a, p),
      ebitdaMn := Ebitda(a, tariff, p),
      cfadsMn := Ebitda(a, tariff, p),
      targetDebtServiceMn := TargetDebtService(a, tariff, p),
      debtOutstandingEoPMn := eop,
      interestExpenseMn := interest,
      amortizationMn := amortization,
      debtOutstandingBoPMn := bop,
      depreciationMn := Depreciation(a, p),
      taxableIncomeMn := TaxableIncome(a, tariff, p, interest),
      taxLiabilityMn := TaxLiability(a, tariff, p, interest),
      postTaxNetEquityCashflowMn := EquityCashflow(a, tariff, p, interest))
  }

  /** The debt schedule of the table, built period by period. */
  function DebtSchedule(a: Assumptions, tariff: real): (s: Debt.Schedule)
    requires Valid(a)
    ensures |s.interest| == |s.amortization| == |s.eop| == |s.bop| == a.projectLifetimeYears + 1
  {
    Debt.Run(OpeningDebt(a), a.costOfDebt, TargetDebtServices(a, tariff), a.projectLifetimeYears + 1)
  }

  /** Row `p` of the table, with its debt entries from the debt schedule. */
  function TableRow(a: Assumptions, tariff: real, p: nat): Row
    requires Valid(a)
    requires p <= a.projectLifetimeYears
  {
    var s := DebtSchedule(a, tariff);
    MakeRow(a, tariff, p, s.interest[p], s.amortization[p], s.eop[p], s.bop[p])
  }

  /** The cashflow table the engine builds for a record and a tariff. */
  function CashflowTable(a: Assumptions, tariff: real): seq<Row>
    requires Valid(a)
  {
    seq(a.projectLifetimeYears + 1, (p: int) requires 0 <= p <= a.projectLifetimeYears => TableRow(a, tariff, p))
  }

  function EquityCashflows(t: seq<Row>): seq<real> {
    seq(|t|, (i: int) requires 0 <= i < |t| => t[i].postTaxNetEquityCashflowMn)
  }

  function Depreciations(t: seq<Row>): seq<real> {
    seq(|t|, (i: int) requires 0 <= i < |t| => t[i].depreciationMn)
  }

  function Amortizations(t: seq<Row>): seq<real> {
    seq(|t|, (i: int) requires 0 <= i < |t| => t[i].amortizationMn)
  }

  /** What the IRR routine gives for a cashflow series: a rate, no rate
      (it returns nothing without raising, as when its iteration does not
      converge), or an exception (as on a series without a sign change). */
  datatype IrrResult = IrrRate(rate: real) | IrrNone | IrrRaises

  /** Post-tax equity IRR less the cost of equity: the value the engine
      returns when no table is requested.  `None` when there is no rate to
      subtract from, where the engine raises: the IRR routine raised, or it
      gave no rate and the subtraction fails. */
  function Objective(a: Assumptions, tariff: real, irr: seq<real> -> IrrResult): Debt.Option<real>
    requires Valid(a)
  {
    match irr(EquityCashflows(CashflowTable(a, tariff)))
    case IrrRate(v) => Debt.Some(v - a.costOfEquity)
    case IrrNone => Debt.None
    case IrrRaises => Debt.None
  }

  datatype Outcome =
    | ModelOutput(table: seq<Row>, postTaxEquityIrr: Debt.Option<real>, tariff: real)
    | IrrShortfall(value: real)
    | Raised  // the engine raised

  /** The engine: builds the operating columns, runs the debt schedule, adds
      depreciation, tax and equity cashflow, and evaluates the equity IRR. */
  method CalculateCashflow(a: Assumptions, tariff: real, irr: seq<real> -> IrrResult, returnModel: bool)
    returns (r: Outcome)
    requires Valid(a)
    ensures irr(EquityCashflows(CashflowTable(a, tariff))).IrrRaises? ==> r == Raised
    ensures returnModel && irr(EquityCashflows(CashflowTable(a, tariff))).IrrRate? ==>
              r == ModelOutput(CashflowTable(a, tariff),
                               Debt.Some(irr(EquityCashflows(CashflowTable(a, tariff))).rate), tariff)
    ensures returnModel && irr(EquityCashflows(CashflowTable(a, tariff))).IrrNone? ==>
              r == ModelOutput(CashflowTable(a, tariff), Debt.None, tariff)
    ensures !returnModel && Objective(a, tariff, irr).None? ==> r == Raised
    ensures !returnModel && Objective(a, tariff, irr).Some? ==> r == IrrShortfall(Objective(a, tariff, irr).value)
  {
    var n := a.projectLifetimeYears + 1;
    var tds := TargetDebtServices(a, tariff);
    var debt := Debt.ComputeSchedule(OpeningDebt(a), a.costOfDebt, tds);
    Debt.RecursUnique(debt, OpeningDebt(a), a.costOfDebt, tds);
    var table := seq(n, (p: int) requires 0 <= p < n =>
      MakeRow(a, tariff, p, debt.interest[p], debt.amortization[p], debt.eop[p], debt.bop[p]));
    assert table == CashflowTable(a, tariff);
    var equityIrr := irr(EquityCashflows(table));
    match equityIrr
    case IrrRaises =>
      r := Raised;
    case IrrNone =>
      r := if returnModel then ModelOutput(table, Debt.None, tariff) else Raised;
    case IrrRate(v) =>
      r := if returnModel then ModelOutput(table, Debt.Some(v), tariff) else IrrShortfall(v - a.costOfEquity);
  }

  function ObjectiveFunction(a: Assumptions, irr: seq<real> -> IrrResult): real -> Debt.Option<real>
    requires Valid(a)
  {
    (tariff: real) => Objective(a, tariff, irr)
  }

  /** The LCOE: the root the solver finds from the initial guess, plus the
      fixed offset.  The solver gives `None` when the objective raised while
      it was being evaluated; the exception then leaves the LCOE too. */
  function Lcoe(a: Assumptions, irr: seq<real> -> IrrResult,
                fsolve: (real -> Debt.Option<real>, real) -> Debt.Option<real>): Debt.Option<real>
    requires Valid(a)
  {
    match fsolve(ObjectiveFunction(a, irr), LcoeGuess)
    case None => Debt.None
    case Some(root) => Debt.Some(root + LcoeOffset)
  }

  /** The LCOE lies exactly the offset above a tariff at which the equity IRR
      equals the cost of equity, whenever the solver returns a root; when
      the solver raises, so does the LCOE. */
  lemma LcoeIsPastBreakeven(a: Assumptions, irr: seq<real> -> IrrResult,
                            fsolve: (real -> Debt.Option<real>, real) -> Debt.Option<real>, root: real)
    requires Valid(a)
    requires fsolve(ObjectiveFunction(a, irr), LcoeGuess) == Debt.Some(root)
    requires ObjectiveFunction(a, irr)(root) == Debt.Some(0.0)
    ensures Lcoe(a, irr, fsolve) == Debt.Some(root + LcoeOffset)
    ensures irr(EquityCashflows(CashflowTable(a, Lcoe(a, irr, fsolve).value - LcoeOffset))) == IrrRate(a.costOfEquity)
  {
  }

  lemma LcoeRaisesWithSolver(a: Assumptions, irr: seq<real> -> IrrResult,
                             fsolve: (real -> Debt.Option<real>, real) -> Debt.Option<real>)
    requires Valid(a)
    ensures Lcoe(a, irr, fsolve).None? <==> fsolve(ObjectiveFunction(a, irr), LcoeGuess).None?
  {
  }

  // Properties of the cashflow table.

  /** One row per period 0..lifetime, in order. */
  lemma TableShape(a: Assumptions, tariff: real)
    requires Valid(a)
    ensures |CashflowTable(a, tariff)| == a.projectLifetimeYears + 1
    ensures forall i :: 0 <= i < |CashflowTable(a, tariff)| ==> CashflowTable(a, tariff)[i].period == i
  {
  }

  /** Period 0 has no operations, no debt service and no depreciation; its
      debt is the opening debt and its equity cashflow the equity outlay. */
  lemma PeriodZeroConvention(a: Assumptions, tariff: real)
    requires Valid(a)
    ensures var r := CashflowTable(a, tariff)[0];
      r.capacityMw == 0.0 && r.capacityFactor == 0.0 && r.tariffPerMwh == 0.0 &&
      r.totalGenerationMwh == 0.0 && r.totalRevenuesMn == 0.0 && r.omCostsMn == 0.0 &&
      r.ebitdaMn == 0.0 && r.targetDebtServiceMn == 0.0 && r.interestExpenseMn == 0.0 &&
      r.amortizationMn == 0.0 && r.depreciationMn == 0.0 && r.taxableIncomeMn == 0.0 &&
      r.taxLiabilityMn == 0.0 && r.debtOutstandingBoPMn == Debt.None &&
      r.debtOutstandingEoPMn == a.debtPctOfCapitalCost * CapitalCost(a) / 1000.0 &&
      r.postTaxNetEquityCashflowMn == -CapitalCost(a) / 1000.0 * a.equityPctOfCapitalCost
  {
    DebtScheduleRecurs(a, tariff);
  }

  /** In every operating period generation, revenue, EBITDA and CFADS follow
      one chain from the assumptions and the tariff. */
  lemma OperatingChain(a: Assumptions, tariff: real, p: nat)
    requires Valid(a)
    requires 1 <= p <= a.projectLifetimeYears
    ensures CashflowTable(a, tariff)[p].capacityMw == a.capacityMw
    ensures CashflowTable(a, tariff)[p].capacityFactor == a.capacityFactor
    ensures CashflowTable(a, tariff)[p].tariffPerMwh == tariff
    ensures CashflowTable(a, tariff)[p].totalGenerationMwh == a.capacityMw * a.capacityFactor * 8760.0
    ensures CashflowTable(a, tariff)[p].totalRevenuesMn ==
              CashflowTable(a, tariff)[p].totalGenerationMwh * tariff / 1000.0
    ensures CashflowTable(a, tariff)[p].omCostsMn == CapitalCost(a) / 1000.0 * a.omCostPctOfCapitalCost
    ensures CashflowTable(a, tariff)[p].totalOperatingCostsMn == CashflowTable(a, tariff)[p].omCostsMn
    ensures CashflowTable(a, tariff)[p].ebitdaMn ==
              CashflowTable(a, tariff)[p].totalRevenuesMn - CashflowTable(a, tariff)[p].omCostsMn
    ensures CashflowTable(a, tariff)[p].cfadsMn == CashflowTable(a, tariff)[p].ebitdaMn
  {
    var r := CashflowTable(a, tariff)[p];
    assert r == TableRow(a, tariff, p);
    assert r.totalGenerationMwh == Generation(a, p);
    assert r.totalRevenuesMn == Revenues(a, tariff, p);
  }

  /** In every operating period the target debt service is covered exactly
      `dcsr` times by CFADS. */
  lemma DebtServiceCoverage(a: Assumptions, tariff: real, p: nat)
    requires Valid(a)
    requires 1 <= p <= a.projectLifetimeYears
    ensures CashflowTable(a, tariff)[p].targetDebtServiceMn * a.dcsr == CashflowTable(a, tariff)[p].cfadsMn
  {
    var r := CashflowTable(a, tariff)[p];
    assert r.targetDebtServiceMn == r.cfadsMn / a.dcsr;
    DivisionUndone(r.cfadsMn, a.dcsr, r.targetDebtServiceMn);
  }

  /** The table's debt schedule follows the debt recurrence, driven by the
      target-debt-service column and starting from the opening debt. */
  lemma DebtScheduleRecurs(a: Assumptions, tariff: real)
    requires Valid(a)
    ensures Debt.Recurs(DebtSchedule(a, tariff), OpeningDebt(a), a.costOfDebt, TargetDebtServices(a, tariff))
  {
    Debt.RunRecurs(OpeningDebt(a), a.costOfDebt, TargetDebtServices(a, tariff));
  }

  /** The debt columns of row `p` are the debt schedule's entries for
      period `p`, driven by the row's target debt service. */
  lemma DebtEntries(a: Assumptions, tariff: real, p: nat)
    requires Valid(a)
    requires p <= a.projectLifetimeYears
    ensures var r, s := CashflowTable(a, tariff)[p], DebtSchedule(a, tariff);
      r.targetDebtServiceMn == TargetDebtServices(a, tariff)[p] &&
      r.interestExpenseMn == s.interest[p] && r.amortizationMn == s.amortization[p] &&
      r.debtOutstandingEoPMn == s.eop[p] && r.debtOutstandingBoPMn == s.bop[p]
  {
    assert CashflowTable(a, tariff)[p] == TableRow(a, tariff, p);
  }

  /** Each period's beginning balance is the previous period's ending
      balance; interest is charged on it, amortization is the debt service
      left after interest capped by it, and the ending balance is what
      remains. */
  lemma DebtChaining(a: Assumptions, tariff: real, p: nat)
    requires Valid(a)
    requires 1 <= p <= a.projectLifetimeYears
    ensures var t := CashflowTable(a, tariff);
      t[p].debtOutstandingBoPMn == Debt.Some(t[p - 1].debtOutstandingEoPMn) &&
      t[p].interestExpenseMn == Debt.InterestOn(t[p - 1].debtOutstandingEoPMn, a.costOfDebt) &&
      t[p].amortizationMn == Min(t[p].targetDebtServiceMn - t[p].interestExpenseMn, t[p - 1].debtOutstandingEoPMn) &&
      t[p].debtOutstandingEoPMn == t[p - 1].debtOutstandingEoPMn - t[p].amortizationMn
  {
    DebtScheduleRecurs(a, tariff);
    Debt.StepRelations(DebtSchedule(a, tariff), OpeningDebt(a), a.costOfDebt, TargetDebtServices(a, tariff), p);
    DebtEntries(a, tariff, p);
    DebtEntries(a, tariff, p - 1);
  }

  lemma OpeningDebtNonNegative(a: Assumptions)
    requires Valid(a)
    ensures 0.0 <= OpeningDebt(a)
  {
    var cc := CapitalCost(a);
    CapitalCostRange(a);
    MulNonNegative(a.debtPctOfCapitalCost, cc);
    assert OpeningDebt(a) == (a.debtPctOfCapitalCost * cc) / 1000.0;
  }

  /** Outstanding debt is never negative: after period 0 it is what debt
      service after interest leaves unpaid, or zero. */
  lemma DebtNeverNegative(a: Assumptions, tariff: real, p: nat)
    requires Valid(a)
    requires p <= a.projectLifetimeYears
    ensures 0.0 <= CashflowTable(a, tariff)[p].debtOutstandingEoPMn
    ensures p >= 1 ==> var t := CashflowTable(a, tariff);
      t[p].debtOutstandingEoPMn ==
        Max(t[p - 1].debtOutstandingEoPMn - (t[p].targetDebtServiceMn - t[p].interestExpenseMn), 0.0)
  {
    var s, tds := DebtSchedule(a, tariff), TargetDebtServices(a, tariff);
    DebtScheduleRecurs(a, tariff);
    OpeningDebtNonNegative(a);
    Debt.EopNonNegative(s, OpeningDebt(a), a.costOfDebt, tds, p);
    if p >= 1 {
      Debt.BalanceClosedForm(s, OpeningDebt(a), a.costOfDebt, tds, p);
    }
  }

  /** While debt service covers interest the balance does not grow. */
  lemma DebtNonIncreasingWhenCovered(a: Assumptions, tariff: real, p: nat)
    requires Valid(a)
    requires 1 <= p <= a.projectLifetimeYears
    requires CashflowTable(a, tariff)[p].targetDebtServiceMn >= CashflowTable(a, tariff)[p].interestExpenseMn
    ensures CashflowTable(a, tariff)[p].debtOutstandingBoPMn.Some?
    ensures CashflowTable(a, tariff)[p].debtOutstandingEoPMn <= CashflowTable(a, tariff)[p].debtOutstandingBoPMn.value
  {
    DebtScheduleRecurs(a, tariff);
    OpeningDebtNonNegative(a);
    Debt.DebtNonIncreasing(DebtSchedule(a, tariff), OpeningDebt(a), a.costOfDebt, TargetDebtServices(a, tariff), p);
  }

  /** Once the debt is repaid it stays repaid while debt service is not
      negative. */
  lemma RepaidStaysRepaid(a: Assumptions, tariff: real, k: nat, m: nat)
    requires Valid(a)
    requires k <= m <= a.projectLifetimeYears
    requires CashflowTable(a, tariff)[k].debtOutstandingEoPMn == 0.0
    requires forall j :: k < j <= m ==> CashflowTable(a, tariff)[j].targetDebtServiceMn >= 0.0
    ensures CashflowTable(a, tariff)[m].debtOutstandingEoPMn == 0.0
  {
    var tds := TargetDebtServices(a, tariff);
    forall j | k < j <= m ensures tds[j] >= 0.0 {
      assert CashflowTable(a, tariff)[j].targetDebtServiceMn == tds[j];
    }
    DebtScheduleRecurs(a, tariff);
    Debt.PaidOffStaysPaidOff(DebtSchedule(a, tariff), OpeningDebt(a), a.costOfDebt, tds, k, m);
  }

  /** Tax is the tax rate on taxable income, floored at zero. */
  lemma TaxNeverNegative(a: Assumptions, tariff: real, p: nat)
    requires Valid(a)
    requires p <= a.projectLifetimeYears
    ensures var r := CashflowTable(a, tariff)[p];
      r.taxableIncomeMn == r.ebitdaMn - r.depreciationMn - r.interestExpenseMn &&
      r.taxLiabilityMn == Max(0.0, a.taxRate * r.taxableIncomeMn) &&
      0.0 <= r.taxLiabilityMn &&
      (r.taxableIncomeMn >= 0.0 ==> r.taxLiabilityMn == a.taxRate * r.taxableIncomeMn)
  {
    var r := CashflowTable(a, tariff)[p];
    if r.taxableIncomeMn >= 0.0 {
      MulNonNegative(a.taxRate, r.taxableIncomeMn);
    }
  }

  /** Equity pays its share of the capital cost in period 0 and then receives
      EBITDA less debt service and tax. */
  lemma EquityCashflowChain(a: Assumptions, tariff: real, p: nat)
    requires Valid(a)
    requires p <= a.projectLifetimeYears
    ensures var t := CashflowTable(a, tariff);
      |EquityCashflows(t)| == a.projectLifetimeYears + 1 &&
      EquityCashflows(t)[p] == t[p].postTaxNetEquityCashflowMn &&
      (p == 0 ==> t[p].postTaxNetEquityCashflowMn == -CapitalCost(a) / 1000.0 * a.equityPctOfCapitalCost) &&
      (p >= 1 ==> t[p].postTaxNetEquityCashflowMn ==
                    t[p].ebitdaMn - t[p].targetDebtServiceMn - t[p].taxLiabilityMn)
  {
  }

  /** A sequence that starts with 0 and continues with `c` sums to `c` times
      its length less one. */
  lemma {:induction false} SumOfEqualShares(s: seq<real>, c: real, k: nat)
    requires |s| == k + 1
    requires s[0] == 0.0
    requires forall i :: 1 <= i < |s| ==> s[i] == c
    ensures Sum(s) == k as real * c
  {
    if k > 0 {
      SumOfEqualShares(s[..k], c, k - 1);
      assert Sum(s) == (k - 1) as real * c + c;
    }
  }

  lemma DepreciationAt(a: Assumptions, tariff: real, p: nat)
    requires Valid(a)
    requires p <= a.projectLifetimeYears
    ensures CashflowTable(a, tariff)[p].depreciationMn == Depreciation(a, p)
  {
  }

  /** Straight-line depreciation writes off exactly the capital cost. */
  lemma DepreciationWritesOffCapitalCost(a: Assumptions, tariff: real)
    requires Valid(a)
    ensures var t := CashflowTable(a, tariff);
      (forall p :: 1 <= p < |t| ==>
         t[p].depreciationMn == CapitalCost(a) / 1000.0 / (a.projectLifetimeYears as real)) &&
      Sum(Depreciations(t)) == CapitalCost(a) / 1000.0
  {
    var t := CashflowTable(a, tariff);
    var col := Depreciations(t);
    forall i | 0 <= i < |t| ensures t[i].depreciationMn == Depreciation(a, i) {
      DepreciationAt(a, tariff, i);
    }
    SumOfEqualShares(col, AnnualDepreciation(a), a.projectLifetimeYears);
    DivisionUndone(CapitalCost(a) / 1000.0, a.projectLifetimeYears as real, AnnualDepreciation(a));
  }

  /** Summed over periods 0..m, amortization is the opening debt less what
      is still outstanding at the end of period m. */
  lemma AmortizationRepaysDebt(a: Assumptions, tariff: real, m: nat)
    requires Valid(a)
    requires m <= a.projectLifetimeYears
    ensures var t := CashflowTable(a, tariff);
      Sum(Amortizations(t)[..m + 1]) == OpeningDebt(a) - t[m].debtOutstandingEoPMn
  {
    var s := DebtSchedule(a, tariff);
    assert Amortizations(CashflowTable(a, tariff)) == s.amortization;
    DebtScheduleRecurs(a, tariff);
    Debt.RepaidIsOpeningLessOutstanding(s, OpeningDebt(a), a.costOfDebt, TargetDebtServices(a, tariff), m);
  }

  /** With no operating income, neither debt service at the coverage ratio
      nor tax leaves anything for equity. */
  lemma NoIncomeNoPayout(ebitda: real, tds: real, dcsr: real, taxable: real, taxRate: real)
    requires ebitda <= 0.0 && 1.0 <= dcsr && tds * dcsr == ebitda
    requires taxable <= 0.0 && 0.0 <= taxRate
    ensures ebitda - tds - Max(0.0, taxRate * taxable) <= 0.0
  {
    MulNonNegative(taxRate, -taxable);
    assert ebitda - tds == tds * (dcsr - 1.0);
    if tds > 0.0 {
      MulNonNegative(tds, dcsr - 1.0);
    } else {
      MulNonNegative(-tds, dcsr - 1.0);
    }
  }

  /** At a zero tariff an operating period earns nothing and still pays
      O&M. */
  lemma ZeroTariffOperatingLoss(a: Assumptions, p: nat)
    requires Valid(a)
    requires 1 <= p <= a.projectLifetimeYears
    ensures CashflowTable(a, 0.0)[p].ebitdaMn <= 0.0
  {
    OperatingChain(a, 0.0, p);
    CapitalCostRange(a);
    MulNonNegative(CapitalCost(a) / 1000.0, a.omCostPctOfCapitalCost);
    assert CashflowTable(a, 0.0)[p].totalRevenuesMn == 0.0;
  }

  /** Interest and depreciation are never negative. */
  lemma DeductionsNonNegative(a: Assumptions, tariff: real, p: nat)
    requires Valid(a)
    requires 1 <= p <= a.projectLifetimeYears
    ensures 0.0 <= CashflowTable(a, tariff)[p].interestExpenseMn
    ensures 0.0 <= CashflowTable(a, tariff)[p].depreciationMn
  {
    DebtChaining(a, tariff, p);
    DebtNeverNegative(a, tariff, p - 1);
    MulNonNegative(CashflowTable(a, tariff)[p - 1].debtOutstandingEoPMn, a.costOfDebt);
    DepreciationAt(a, tariff, p);
    CapitalCostRange(a);
  }

  /** At a zero tariff no period pays equity anything: every entry of the
      equity cashflow column is at most zero, so the column has no sign
      change and its IRR is undefined. */
  lemma ZeroTariffNeverPays(a: Assumptions, p: nat)
    requires Valid(a)
    requires p <= a.projectLifetimeYears
    ensures CashflowTable(a, 0.0)[p].postTaxNetEquityCashflowMn <= 0.0
  {
    var r := CashflowTable(a, 0.0)[p];
    EquityCashflowChain(a, 0.0, p);
    if p == 0 {
      CapitalCostRange(a);
      MulNonNegative(CapitalCost(a) / 1000.0, a.equityPctOfCapitalCost);
    } else {
      ZeroTariffOperatingLoss(a, p);
      DeductionsNonNegative(a, 0.0, p);
      DebtServiceCoverage(a, 0.0, p);
      TaxNeverNegative(a, 0.0, p);
      assert r.cfadsMn == r.ebitdaMn;
      NoIncomeNoPayout(r.ebitdaMn, r.targetDebtServiceMn, a.dcsr, r.taxableIncomeMn, a.taxRate);
    }
  }

  /** The default record: 30 MW at 670,000 per MW is a capital cost of
      20,100,000, of which 80% is borrowed. */
  lemma DefaultsPeriodZero(tariff: real)
    ensures Valid(Defaults())
    ensures CapitalCost(Defaults()) == 20100000.0
    ensures CashflowTable(Defaults(), tariff)[0].debtOutstandingEoPMn == 16080.0
    ensures CashflowTable(Defaults(), tariff)[0].postTaxNetEquityCashflowMn == -4020.0
    ensures |CashflowTable(Defaults(), tariff)| == 26
  {
    DebtScheduleRecurs(Defaults(), tariff);
  }
}
