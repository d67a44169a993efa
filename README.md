# renewables-lcoe-api: the cashflow engine and its assumptions, in Dafny

This project models the core of the renewables LCOE service. It has two parts.

- **The assumptions record** (`SolarPVAssumptions`). A solar PV project is described by eleven numeric fields, each with a closed range, and by a check that the debt and equity shares sum to one. Three quantities are derived from the record: the capital cost, the WACC and the tax-adjusted WACC.
- **The cashflow engine** (`calculate_cashflow_for_renewable_project`). Given a record and a tariff, it builds one row per period, from 0 to the project lifetime. Each row holds:
  - generation, revenue, O&M, EBITDA and CFADS;
  - the target debt service, which is CFADS divided by the DSCR;
  - a debt schedule: interest on the balance brought forward, amortization capped by that balance, and the balance carried forward;
  - straight-line depreciation, taxable income, tax floored at zero, and the post-tax equity cashflow.

  The engine then returns either the table with the equity IRR, or the IRR less the cost of equity. The LCOE (`calculate_lcoe`) is the tariff at which that difference is zero, plus a fixed offset of 0.0001.

Files:

- `reals.dfy` (module `Reals`): `Min`, `Max`, `Sum` and two small arithmetic facts.
- `schema.dfy` (module `Schema`):
  - the record, its fields, ranges and validator, with out-of-range fields reported in declaration order;
  - the defaults;
  - the derived quantities and their bounds.
- `debt.dfy` (module `Debt`):
  - the debt recurrence, written as the predicate `Recurs`;
  - `Run`, which builds the schedule period by period, and a proof that `Recurs` has exactly one solution, the one `Run` builds;
  - the engine's two passes over the debt columns, on arrays. `FirstPass` is the column-wide pass. `PeriodLoop` is the loop that corrects periods 2 onwards in place. `ComputeSchedule` runs both and is proved to produce the schedule `Recurs` describes;
  - the properties of the recurrence.
- `cashflow.dfy` (module `Cashflow`):
  - the column formulas as functions of the period;
  - the table as a function of the record and the tariff;
  - the engine as a method that runs the array-based debt schedule, proved to build that table;
  - the objective and the LCOE;
  - the properties of the table.

The IRR (`pyxirr.irr`) and the root finder (`scipy.optimize.fsolve`) are foreign numeric code. They are function-typed parameters of the model:
- `irr: seq<real> -> IrrResult`, which gives a rate (`IrrRate`), no rate without raising (`IrrNone`, as when its iteration does not converge), or an exception (`IrrRaises`, as on a cashflow series without a sign change);
- `fsolve: (real -> Option<real>, real) -> Option<real>`, where `None` stands for an exception escaping the solver while it evaluates the objective.

Nothing else is assumed about them.

The engine has one financing mode. The target debt service is CFADS / DCSR. The opening debt is the debt share of the capital cost, divided by 1000. The debt schedule runs over every period of the project lifetime. The root finder starts from a tariff of 30. The sum-of-parts check compares the sum of the two shares with 1 exactly.

## Model

| member | source | states |
|---|---|---|
| Schema.Lower | schema.py:6-90 | (definition) the declared `ge` bound of each field: capacity 1, capacity factor 0, capex/MW 1e5, O&M 0, debt 0, equity 0, cost of debt 0, cost of equity 0, tax 0, lifetime 5, DCSR 1 |
| Schema.Upper | schema.py:6-90 | (definition) the declared `le` bound of each field: capacity 1000, capacity factor 0.6, capex/MW 1e6, O&M 0.5, debt 1, equity 1, cost of debt 0.2, cost of equity 0.3, tax 0.5, lifetime 50, DCSR 2 |
| Schema.InRange | schema.py:6-90 | (definition) a field's value lies within the closed range its declaration gives: ge ≤ value ≤ le |
| Schema.FieldsInRange | schema.py:6-90 | (definition) all eleven fields are in range |
| Schema.Valid | schema.py:6-96 | (definition) all fields are in range and debt + equity == 1 |
| Schema.Violations | schema.py:6-90 | the fields reported are exactly the listed fields whose value lies outside their declared closed range, and there are no more of them than fields listed |
| Schema.ViolationsKeepOrder | schema.py:6-90 | the report on two lists one after the other is the report on the first followed by the report on the second, so the order of the listed fields is kept |
| Schema.ViolationOfOne | schema.py:6-90 | a single listed field is reported exactly when it is out of range |
| Schema.ViolationsAmongListed | schema.py:6-90 | the fields reported form a sub-multiset of those listed, so a field listed once is reported at most once |
| Schema.ViolationsOfAllFields | schema.py:6-90 | over all eleven fields, nothing is reported exactly when every field is within its range, and a field is reported exactly when it is out of range |
| Schema.Validate | schema.py:5-96 | accepted iff every field is in range and debt + equity == 1, and the record is then returned unchanged; field errors come first, non-empty and listing exactly the violated fields; the sum-of-parts error is raised iff the fields pass but the shares do not sum to 1 |
| Schema.AcceptedFieldBounds | schema.py:6-96 | an accepted record has every field in its declared range (capacity [1,1000], capacity factor [0,0.6], capex/MW [1e5,1e6], O&M [0,0.5], debt and equity [0,1], cost of debt [0,0.2], cost of equity [0,0.3], tax [0,0.5], lifetime [5,50], DCSR [1,2]); equity is 1 - debt |
| Schema.Defaults | schema.py:6-90 | (definition) the declared defaults: capacity 30, capacity factor 0.10, capex/MW 670,000, O&M 0.02, debt 0.8, equity 0.2, cost of debt 0.05, cost of equity 0.10, tax 0.30, lifetime 25, DCSR 1.3 |
| Schema.DefaultsAccepted | schema.py:6-96 | the default record (30, 0.10, 670000, 0.02, 0.8, 0.2, 0.05, 0.10, 0.30, 25, 1.3) passes validation |
| Schema.UnbalancedSplitRejected | schema.py:92-96 | a record whose fields are in range but whose shares sum to 0.9 is rejected by the sum-of-parts check |
| Schema.CapitalCost | schema.py:98-102 | (definition) capacity × capital expenditure per MW |
| Schema.Wacc | schema.py:112-115 | (definition) debt × cost of debt + equity × cost of equity |
| Schema.TaxAdjustedWacc | schema.py:104-110 | (definition) debt × cost of debt × (1 - tax rate) + equity × cost of equity |
| Schema.CapitalCostRange | schema.py:98-102 | for a valid record, capital cost = capacity × capex/MW lies in [1e5, 1e9] |
| Schema.WaccBetweenCosts | schema.py:112-115 | for a valid record, the WACC lies between the smaller and the larger of the cost of debt and the cost of equity |
| Schema.TaxAdjustedWaccBounds | schema.py:104-115 | for a valid record, equity share × cost of equity ≤ tax-adjusted WACC ≤ WACC |
| Debt.ClosingBalanceBounds | model.py:51-55 | the balance carried forward is max(BoP - (TDS - interest), 0), so it is never negative, and it is at most BoP when BoP ≥ 0 and TDS covers interest |
| Debt.InterestOn | model.py:50 | (definition) balance brought forward × cost of debt |
| Debt.AmortizationOf | model.py:51-54 | (definition) min(TDS - interest, balance brought forward), with Python's `min` |
| Debt.ClosingBalance | model.py:55 | (definition) balance brought forward - amortization |
| Debt.Recurs | model.py:34-57 | (definition) one entry per period; period 0 holds the opening debt, zero interest and amortization, and no BoP; each period p ≥ 1 has BoP = EoP[p-1], interest and amortization from it, and EoP = BoP - amortization |
| Debt.Run | model.py:34-57 | (definition) the schedule built period by period, one entry per period; its lengths are stated |
| Debt.RunRecurs | model.py:34-57 | the schedule built period by period has one entry per period; period 0 holds the opening debt, no interest, no amortization and no BoP; each later period chains from the one before |
| Debt.RecursUnique | model.py:34-57 | any schedule that follows the recurrence is the one built period by period |
| Debt.FirstPass | model.py:34-45 | the column-wide pass returns fresh, distinct columns whose periods 0 and 1, and the BoP of period 2, already follow the recurrence |
| Debt.PeriodLoop | model.py:48-57 | the loop over periods leaves every period following the recurrence; for ≥ 2 it rewrites interest, amortization and EoP from BoP and carries EoP into the next BoP, except after the last period |
| Debt.ComputeSchedule | model.py:34-57 | the first pass followed by the loop produces a schedule that follows the recurrence |
| Debt.StepRelations | model.py:37-45 | in a schedule following the recurrence, for p ≥ 1: BoP[p] = EoP[p-1], interest = BoP × cost of debt, amortization = min(TDS - interest, BoP), EoP = BoP - amortization |
| Debt.BalanceClosedForm | model.py:51-55 | for p ≥ 1, EoP[p] = max(EoP[p-1] - (TDS[p] - interest[p]), 0) ≥ 0 |
| Debt.EopNonNegative | model.py:35-55 | with a non-negative opening debt, no balance is ever negative |
| Debt.DebtNonIncreasing | model.py:51-55 | with a non-negative opening debt, when TDS[p] ≥ interest[p] the BoP is present and EoP[p] ≤ BoP[p] |
| Debt.PaidOffStaysPaidOff | model.py:51-55 | once EoP reaches 0 it stays 0 through every later period whose TDS is not negative |
| Debt.RegrowsBy | model.py:51-55 | a repaid balance facing a negative TDS grows again, to exactly minus that TDS |
| Debt.RepaidIsOpeningLessOutstanding | model.py:39-55 | the amortization of periods 0..m sums to the opening debt less EoP[m] |
| Cashflow.CapacityAt | model.py:19 | (definition) capacity in periods ≥ 1, else 0 |
| Cashflow.CapacityFactorAt | model.py:20 | (definition) capacity factor in periods ≥ 1, else 0 |
| Cashflow.TariffAt | model.py:21 | (definition) tariff in periods ≥ 1, else 0 |
| Cashflow.Generation | model.py:23 | (definition) capacity × capacity factor × 8760 |
| Cashflow.Revenues | model.py:25 | (definition) generation × tariff / 1000 |
| Cashflow.OmCosts | model.py:26 | (definition) capital cost / 1000 × O&M share in periods ≥ 1, else 0 |
| Cashflow.Ebitda | model.py:28-32 | (definition) revenue - operating costs, where operating costs = O&M; it is also the CFADS |
| Cashflow.TargetDebtService | model.py:34 | (definition) 0 in period 0, else CFADS / DCSR |
| Cashflow.TargetDebtServices | model.py:34 | (definition) the target-debt-service column, periods 0..lifetime |
| Cashflow.OpeningDebt | model.py:35 | (definition) debt share × capital cost / 1000 |
| Cashflow.AnnualDepreciation | model.py:61 | (definition) capital cost / 1000 / lifetime |
| Cashflow.Depreciation | model.py:61 | (definition) the annual depreciation in periods ≥ 1, else 0 |
| Cashflow.TaxableIncome | model.py:63 | (definition) EBITDA - depreciation - interest |
| Cashflow.TaxLiability | model.py:65 | (definition) max(0, tax rate × taxable income) |
| Cashflow.EquityCashflow | model.py:67 | (definition) -capital cost / 1000 × equity share in period 0, else EBITDA - TDS - tax |
| Cashflow.DebtSchedule | model.py:34-57 | (definition) the debt schedule built period by period from the opening debt and the TDS column; one entry per period |
| Cashflow.MakeRow | model.py:12-67 | (definition) a row from its period and its debt entries, every other column by the formulas above |
| Cashflow.TableRow | model.py:12-67 | (definition) row p with its debt entries from the debt schedule |
| Cashflow.CashflowTable | model.py:12-67 | (definition) rows 0..lifetime, row p being the row of period p |
| Cashflow.EquityCashflows | model.py:71 | (definition) the equity cashflow column handed to the IRR |
| Cashflow.Objective | model.py:71-74 | (definition) the IRR of the equity cashflow column less the cost of equity; None when the IRR routine raises or gives no rate, since the subtraction then raises |
| Cashflow.ObjectiveFunction | model.py:79 | (definition) the objective as a function of the tariff alone |
| Cashflow.Lcoe | model.py:76-84 | (definition) the solver's root, started at 30, plus 0.0001; None when the solver raises |
| Cashflow.CalculateCashflow | model.py:10-74 | the array pass and loop build exactly the table of the record and tariff; when the IRR routine raises, the engine does too; with return_model the result is that table, the IRR of its equity cashflow column (missing when the routine gives no rate) and the tariff; without it, IRR - cost of equity, or a raise when there is no rate |
| Cashflow.LcoeIsPastBreakeven | model.py:76-84 | when the root finder, started at 30, returns a root of the objective, the LCOE is that root + 0.0001 and the root is a tariff at which the IRR routine gives a rate equal to the cost of equity |
| Cashflow.LcoeRaisesWithSolver | model.py:76-84 | the LCOE fails exactly when the root finder does |
| Cashflow.ZeroTariffNeverPays | model.py:19-67 | at a zero tariff every equity cashflow is ≤ 0: period 0 is the equity outlay; later periods lose O&M, debt service at DCSR ≥ 1 makes it no better, and tax is 0; so the IRR has no sign change to work with |
| Cashflow.TableShape | model.py:12-16 | the table has lifetime + 1 rows, and row i has period i |
| Cashflow.PeriodZeroConvention | model.py:19-67 | in period 0, capacity, capacity factor, tariff, generation, revenue, O&M, EBITDA, TDS, interest, amortization, depreciation, taxable income and tax are 0; BoP is missing; EoP = debt × capital cost / 1000; equity cashflow = -capital cost / 1000 × equity |
| Cashflow.OperatingChain | model.py:19-32 | for p ≥ 1: capacity, capacity factor and tariff are the inputs; generation = capacity × CF × 8760; revenue = generation × tariff / 1000; O&M = capital cost / 1000 × O&M share; opex = O&M; EBITDA = revenue - opex; CFADS = EBITDA |
| Cashflow.DebtServiceCoverage | model.py:34 | for p ≥ 1, TDS × DCSR = CFADS |
| Cashflow.DebtScheduleRecurs | model.py:34-57 | the table's debt columns follow the recurrence, driven by its TDS column and starting from the opening debt |
| Cashflow.DebtChaining | model.py:37-57 | for 1 ≤ p ≤ lifetime, in the table: BoP[p] = EoP[p-1]; interest = EoP[p-1] × cost of debt; amortization = min(TDS - interest, EoP[p-1]); EoP[p] = EoP[p-1] - amortization |
| Cashflow.OpeningDebtNonNegative | model.py:35 | the opening debt of a valid record is not negative |
| Cashflow.DebtNeverNegative | model.py:35-55 | every EoP in the table is ≥ 0, and for p ≥ 1 it equals max(EoP[p-1] - (TDS - interest), 0) |
| Cashflow.DebtNonIncreasingWhenCovered | model.py:51-55 | a row whose TDS covers its interest has a BoP and ends with EoP ≤ BoP |
| Cashflow.RepaidStaysRepaid | model.py:51-55 | in the table, once EoP is 0 it stays 0 while TDS is not negative |
| Cashflow.TaxNeverNegative | model.py:63-65 | taxable income = EBITDA - depreciation - interest; tax = max(0, rate × taxable) ≥ 0, and it equals rate × taxable when taxable income is not negative |
| Cashflow.EquityCashflowChain | model.py:67-71 | the equity cashflow column fed to the IRR has lifetime + 1 entries; it is -capital cost / 1000 × equity in period 0 and EBITDA - TDS - tax afterwards |
| Cashflow.DepreciationWritesOffCapitalCost | model.py:61 | depreciation is capital cost / 1000 / lifetime in every period ≥ 1, and the column sums to capital cost / 1000 |
| Cashflow.AmortizationRepaysDebt | model.py:39-55 | in the table, the amortization of periods 0..m sums to the opening debt less EoP[m] |
| Cashflow.DefaultsPeriodZero | model.py:35-67 | for the default record, capital cost is 20,100,000, opening debt 16,080, the period-0 equity cashflow -4,020, and the table has 26 rows |

## Left out

- `ui.py` (Gradio widgets, charts, formatting and exception-to-string handling), `main.py` (the HTTP endpoint), `gis.py` (geocoding over the network) and `capacity_factors.py` (a raster file read through rasterio) are outside the core. They are I/O and presentation.
- `pyxirr.irr` and `scipy.optimize.fsolve` are foreign numeric solvers. They are parameters, so nothing is claimed about when the IRR routine raises, about convergence or about which root is found. `Cashflow.LcoeIsPastBreakeven` holds only when the solver returns a root. `fsolve` returning a non-root after failing to converge is possible in the source, and the model does not exclude it either.
- Floating point is modelled as exact `real` arithmetic. This covers IEEE rounding and the exact float `!=` in the sum-of-parts check (schema.py:94), which the model treats as exact equality.
- DataFrame mechanics (polars `shift`, null handling, the round trip through pandas) are not modelled. Columns are sequences and arrays indexed by period.
- The missing BoP of period 0 is `None`. In the source it is null, or NaN after the pandas conversion, and no later column reads it.
- Pydantic parsing and type coercion are not modelled: strings to numbers, and the integer lifetime. The record holds numbers already; the lifetime is an `int`.
- Validation errors carry the violated fields only, not pydantic's error messages.
- Debt.ComputeSchedule: the pandas loop writes into a data frame by row label (`model.loc`). The model writes into one array per column.
