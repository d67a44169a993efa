/** The assumptions record of a solar PV project: its fields with their
    declared closed ranges, the validator that accepts a record only when the
    debt and equity shares sum to one, and the computed capital cost and
    costs of capital.  Floating-point fields are modelled as exact reals. */
module Schema {
  import opened Reals

  datatype Assumptions = Assumptions(
    capacityMw: real,
    capacityFactor: real,
    capitalExpenditurePerMw: real,
    omCostPctOfCapitalCost: real,
    debtPctOfCapitalCost: real,
    equityPctOfCapitalCost: real,
    costOfDebt: real,
    costOfEquity: real,
    taxRate: real,
    projectLifetimeYears: int,
    dcsr: real)

  /** The fields of the record, in declaration order. */
  datatype Field =
    | CapacityMw
    | CapacityFactor
    | CapitalExpenditurePerMw
    | OmCostPctOfCapitalCost
    | DebtPctOfCapitalCost
    | EquityPctOfCapitalCost
    | CostOfDebt
    | CostOfEquity
    | TaxRate
    | ProjectLifetimeYears
    | Dcsr

  const AllFields: seq<Field> := [
    CapacityMw, CapacityFactor, CapitalExpenditurePerMw, OmCostPctOfCapitalCost,
    DebtPctOfCapitalCost, EquityPctOfCapitalCost, CostOfDebt, CostOfEquity,
    TaxRate, ProjectLifetimeYears, Dcsr]

  function Value(a: Assumptions, f: Field): real {
    match f
    case CapacityMw => a.capacityMw
    case CapacityFactor => a.capacityFactor
    case CapitalExpenditurePerMw => a.capitalExpenditurePerMw
    case OmCostPctOfCapitalCost => a.omCostPctOfCapitalCost
    case DebtPctOfCapitalCost => a.debtPctOfCapitalCost
    case EquityPctOfCapitalCost => a.equityPctOfCapitalCost
    case CostOfDebt => a.costOfDebt
    case CostOfEquity => a.costOfEquity
    case TaxRate => a.taxRate
    case ProjectLifetimeYears => a.projectLifetimeYears as real
    case Dcsr => a.dcsr
  }

  /** The declared lower bound (`ge`) of a field. */
  function Lower(f: Field): real {
    match f
    case CapacityMw => 1.0
    case CapitalExpenditurePerMw => 100000.0
    case ProjectLifetimeYears => 5.0
    case Dcsr => 1.0
    case _ => 0.0
  }

  /** The declared upper bound (`le`) of a field. */
  function Upper(f: Field): real {
    match f
    case CapacityMw => 1000.0
    case CapacityFactor => 0.6
    case CapitalExpenditurePerMw => 1000000.0
    case OmCostPctOfCapitalCost => 0.5
    case DebtPctOfCapitalCost => 1.0
    case EquityPctOfCapitalCost => 1.0
    case CostOfDebt => 0.2
    case CostOfEquity => 0.3
    case TaxRate => 0.5
    case ProjectLifetimeYears => 50.0
    case Dcsr => 2.0
  }

  predicate InRange(a: Assumptions, f: Field) {
    Lower(f) <= Value(a, f) <= Upper(f)
  }

  /** Every field lies in its closed range. */
  predicate FieldsInRange(a: Assumptions) {
    InRange(a, CapacityMw) && InRange(a, CapacityFactor) &&
    InRange(a, CapitalExpenditurePerMw) && InRange(a, OmCostPctOfCapitalCost) &&
    InRange(a, DebtPctOfCapitalCost) && InRange(a, EquityPctOfCapitalCost) &&
    InRange(a, CostOfDebt) && InRange(a, CostOfEquity) && InRange(a, TaxRate) &&
    InRange(a, ProjectLifetimeYears) && InRange(a, Dcsr)
  }

  /** A record the validator accepts: the only kind of record the cashflow
      engine is ever given. */
  predicate Valid(a: Assumptions) {
    FieldsInRange(a) && a.debtPctOfCapitalCost + a.equityPctOfCapitalCost == 1.0
  }

  datatype ValidationError =
    | OutOfRange(fields: seq<Field>)  // every field outside its range, in declaration order
    | SumOfParts                      // debt and equity percentages do not sum to 1

  datatype Validated = Accepted(assumptions: Assumptions) | Rejected(error: ValidationError)

  /** The fields of `fs` that lie outside their range, in the order of `fs`. */
  function Violations(a: Assumptions, fs: seq<Field>): (r: seq<Field>)
    ensures |r| <= |fs|
    ensures forall f :: f in r <==> f in fs && !InRange(a, f)
  {
    if fs == [] then []
    else (if InRange(a, fs[0]) then [] else [fs[0]]) + Violations(a, fs[1..])
  }

  lemma TailOfConcat(fs: seq<Field>, gs: seq<Field>)
    requires fs != []
    ensures (fs + gs)[0] == fs[0] && (fs + gs)[1..] == fs[1..] + gs
  {
  }

  lemma ViolationsUnfold(a: Assumptions, fs: seq<Field>)
    requires fs != []
    ensures Violations(a, fs) == (if InRange(a, fs[0]) then [] else [fs[0]]) + Violations(a, fs[1..])
  {
  }

  /** Reporting keeps the order of the fields listed: the report on two
      lists one after the other is the report on the first followed by the
      report on the second. */
  lemma {:induction false} ViolationsKeepOrder(a: Assumptions, fs: seq<Field>, gs: seq<Field>)
    ensures Violations(a, fs + gs) == Violations(a, fs) + Violations(a, gs)
  {
    if fs == [] {
      assert fs + gs == gs;
    } else {
      var head := if InRange(a, fs[0]) then [] else [fs[0]];
      calc {
        Violations(a, fs + gs);
        { TailOfConcat(fs, gs); ViolationsUnfold(a, fs + gs); }
        head + Violations(a, fs[1..] + gs);
        { ViolationsKeepOrder(a, fs[1..], gs); }
        head + (Violations(a, fs[1..]) + Violations(a, gs));
        (head + Violations(a, fs[1..])) + Violations(a, gs);
        { ViolationsUnfold(a, fs); }
        Violations(a, fs) + Violations(a, gs);
      }
    }
  }

  /** A single field is reported exactly when it is out of range. */
  lemma ViolationOfOne(a: Assumptions, f: Field)
    ensures Violations(a, [f]) == if InRange(a, f) then [] else [f]
  {
    assert [f][1..] == [];
  }

  /** Each field is reported at most as often as it is listed, so a field
      listed once is reported at most once. */
  lemma {:induction false} ViolationsAmongListed(a: Assumptions, fs: seq<Field>)
    ensures multiset(Violations(a, fs)) <= multiset(fs)
  {
    if fs != [] {
      ViolationsAmongListed(a, fs[1..]);
      assert fs == [fs[0]] + fs[1..];
    }
  }

  lemma EveryFieldListed(f: Field)
    ensures f in AllFields
  {
    match f
    case CapacityMw => assert AllFields[0] == f;
    case CapacityFactor => assert AllFields[1] == f;
    case CapitalExpenditurePerMw => assert AllFields[2] == f;
    case OmCostPctOfCapitalCost => assert AllFields[3] == f;
    case DebtPctOfCapitalCost => assert AllFields[4] == f;
    case EquityPctOfCapitalCost => assert AllFields[5] == f;
    case CostOfDebt => assert AllFields[6] == f;
    case CostOfEquity => assert AllFields[7] == f;
    case TaxRate => assert AllFields[8] == f;
    case ProjectLifetimeYears => assert AllFields[9] == f;
    case Dcsr => assert AllFields[10] == f;
  }

  lemma FieldsInRangeEverywhere(a: Assumptions)
    ensures FieldsInRange(a) <==> forall f :: InRange(a, f)
  {
    if FieldsInRange(a) {
      forall f ensures InRange(a, f) {
        match f
        case CapacityMw =>
        case CapacityFactor =>
        case CapitalExpenditurePerMw =>
        case OmCostPctOfCapitalCost =>
        case DebtPctOfCapitalCost =>
        case EquityPctOfCapitalCost =>
        case CostOfDebt =>
        case CostOfEquity =>
        case TaxRate =>
        case ProjectLifetimeYears =>
        case Dcsr =>
      }
    }
  }

  /** No field is reported exactly when every field is in range. */
  lemma ViolationsOfAllFields(a: Assumptions)
    ensures Violations(a, AllFields) == [] <==> FieldsInRange(a)
    ensures forall f :: f in Violations(a, AllFields) <==> !InRange(a, f)
  {
    var bad := Violations(a, AllFields);
    forall f: Field ensures f in AllFields {
      EveryFieldListed(f);
    }
    FieldsInRangeEverywhere(a);
    if bad != [] {
      assert bad[0] in bad;
    }
  }

  /** Field constraints are checked first, and every violation is reported;
      the sum-of-parts check runs only on a record whose fields passed. */
  function Validate(a: Assumptions): (r: Validated)
    ensures r.Accepted? <==> Valid(a)
    ensures r.Accepted? ==> r.assumptions == a
    ensures r.Rejected? && r.error.OutOfRange? ==>
              r.error.fields != [] && forall f :: f in r.error.fields <==> !InRange(a, f)
    ensures r == Rejected(SumOfParts) <==>
              FieldsInRange(a) && a.debtPctOfCapitalCost + a.equityPctOfCapitalCost != 1.0
  {
    var bad := Violations(a, AllFields);
    ViolationsOfAllFields(a);
    if bad != [] then Rejected(OutOfRange(bad))
    else if a.debtPctOfCapitalCost + a.equityPctOfCapitalCost != 1.0 then Rejected(SumOfParts)
    else Accepted(a)
  }

  /** An accepted record has every field in its declared closed range. */
  lemma AcceptedFieldBounds(a: Assumptions)
    requires Validate(a).Accepted?
    ensures 1.0 <= a.capacityMw <= 1000.0
    ensures 0.0 <= a.capacityFactor <= 0.6
    ensures 100000.0 <= a.capitalExpenditurePerMw <= 1000000.0
    ensures 0.0 <= a.omCostPctOfCapitalCost <= 0.5
    ensures 0.0 <= a.debtPctOfCapitalCost <= 1.0
    ensures 0.0 <= a.equityPctOfCapitalCost <= 1.0
    ensures 0.0 <= a.costOfDebt <= 0.2
    ensures 0.0 <= a.costOfEquity <= 0.3
    ensures 0.0 <= a.taxRate <= 0.5
    ensures 5 <= a.projectLifetimeYears <= 50
    ensures 1.0 <= a.dcsr <= 2.0
    ensures a.equityPctOfCapitalCost == 1.0 - a.debtPctOfCapitalCost
  {
  }

  /** The default values of the record. */
  function Defaults(): Assumptions {
    Assumptions(
      capacityMw := 30.0,
      capacityFactor := 0.10,
      capitalExpenditurePerMw := 670000.0,
      omCostPctOfCapitalCost := 0.02,
      debtPctOfCapitalCost := 0.8,
      equityPctOfCapitalCost := 0.2,
      costOfDebt := 0.05,
      costOfEquity := 0.10,
      taxRate := 0.30,
      projectLifetimeYears := 25,
      dcsr := 1.3)
  }

  lemma DefaultsAccepted()
    ensures Validate(Defaults()) == Accepted(Defaults())
  {
    assert FieldsInRange(Defaults());
  }

  /** Shifting the debt share of the defaults without the equity share is
      refused by the sum-of-parts check alone. */
  lemma UnbalancedSplitRejected()
    ensures Validate(Defaults().(debtPctOfCapitalCost := 0.7)) == Rejected(SumOfParts)
  {
  }

  // Computed fields.

  function CapitalCost(a: Assumptions): real {
    a.capacityMw * a.capitalExpenditurePerMw
  }

  function Wacc(a: Assumptions): real {
    a.debtPctOfCapitalCost * a.costOfDebt + a.equityPctOfCapitalCost * a.costOfEquity
  }

  function TaxAdjustedWacc(a: Assumptions): real {
    a.debtPctOfCapitalCost * a.costOfDebt * (1.0 - a.taxRate)
      + a.equityPctOfCapitalCost * a.costOfEquity
  }

  lemma CapitalCostRange(a: Assumptions)
    requires Valid(a)
    ensures 100000.0 <= CapitalCost(a) <= 1000000000.0
  {
    var c, x := a.capacityMw, a.capitalExpenditurePerMw;
    MulNonNegative(c - 1.0, x);
    MulNonNegative(1000.0 - c, x);
  }

  /** The WACC of an accepted record is a convex combination of the two costs
      of capital, so it lies between them. */
  lemma WaccBetweenCosts(a: Assumptions)
    requires Valid(a)
    ensures Min(a.costOfDebt, a.costOfEquity) <= Wacc(a) <= Max(a.costOfDebt, a.costOfEquity)
  {
    var d, e := a.debtPctOfCapitalCost, a.equityPctOfCapitalCost;
    var lo, hi := Min(a.costOfDebt, a.costOfEquity), Max(a.costOfDebt, a.costOfEquity);
    assert Wacc(a) - lo == d * (a.costOfDebt - lo) + e * (a.costOfEquity - lo);
    MulNonNegative(d, a.costOfDebt - lo);
    MulNonNegative(e, a.costOfEquity - lo);
    assert hi - Wacc(a) == d * (hi - a.costOfDebt) + e * (hi - a.costOfEquity);
    MulNonNegative(d, hi - a.costOfDebt);
    MulNonNegative(e, hi - a.costOfEquity);
  }

  /** The tax shield only lowers the debt term: the tax-adjusted WACC lies
      between the equity term alone and the unadjusted WACC. */
  lemma TaxAdjustedWaccBounds(a: Assumptions)
    requires Valid(a)
    ensures a.equityPctOfCapitalCost * a.costOfEquity <= TaxAdjustedWacc(a) <= Wacc(a)
  {
    var dc := a.debtPctOfCapitalCost * a.costOfDebt;
    MulNonNegative(a.debtPctOfCapitalCost, a.costOfDebt);
    MulNonNegative(dc, 1.0 - a.taxRate);
    assert Wacc(a) - TaxAdjustedWacc(a) == dc * a.taxRate;
    MulNonNegative(dc, a.taxRate);
  }
}
