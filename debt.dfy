/** The debt schedule of the cashflow engine.  Period 0 holds the opening
    debt; in every later period the balance brought forward earns interest at
    the cost of debt, and the target debt service left after interest repays
    principal, never more than the balance brought forward.  Target debt
    service is given per period (index 0 is period 0). */
module Debt {
  import opened Reals

  datatype Option<T> = None | Some(value: T)

  function InterestOn(bop: real, costOfDebt: real): real {
    bop * costOfDebt
  }

  /** Principal repaid in a period: the debt service left after interest,
      capped by the balance brought forward. */
  function AmortizationOf(bop: real, tds: real, costOfDebt: real): real {
    Min(tds - InterestOn(bop, costOfDebt), bop)
  }

  /** The balance carried forward from a period. */
  function ClosingBalance(bop: real, tds: real, costOfDebt: real): real {
    bop - AmortizationOf(bop, tds, costOfDebt)
  }

  /** The balance carried forward is what the debt service left after
      interest does not cover, and never negative; while debt service covers
      interest it is at most the balance brought forward. */
  lemma ClosingBalanceBounds(bop: real, tds: real, costOfDebt: real)
    ensures ClosingBalance(bop, tds, costOfDebt) == Max(bop - (tds - InterestOn(bop, costOfDebt)), 0.0)
    ensures 0.0 <= ClosingBalance(bop, tds, costOfDebt)
    ensures 0.0 <= bop && tds >= InterestOn(bop, costOfDebt) ==> ClosingBalance(bop, tds, costOfDebt) <= bop
  {
  }

  /** The columns the schedule writes, one entry per period. */
  datatype Schedule = Schedule(
    interest: seq<real>,
    amortization: seq<real>,
    eop: seq<real>,
    bop: seq<Option<real>>)

  /** Period `p >= 1` of `s` follows from the balance period `p - 1` carried
      forward. */
  predicate Step(s: Schedule, costOfDebt: real, tds: seq<real>, p: nat)
    requires 1 <= p < |tds|
    requires p < |s.interest| && p < |s.amortization| && p < |s.eop| && p < |s.bop|
  {
    s.bop[p] == Some(s.eop[p - 1]) &&
    s.interest[p] == InterestOn(s.eop[p - 1], costOfDebt) &&
    s.amortization[p] == AmortizationOf(s.eop[p - 1], tds[p], costOfDebt) &&
    s.eop[p] == s.eop[p - 1] - s.amortization[p]
  }

  /** `s` has one entry per period of `tds`, period 0 holds the opening debt
      and no beginning balance, and every later period follows the one
      before. */
  predicate Recurs(s: Schedule, opening: real, costOfDebt: real, tds: seq<real>) {
    |tds| >= 1 &&
    |s.interest| == |tds| && |s.amortization| == |tds| && |s.eop| == |tds| && |s.bop| == |tds| &&
    s.interest[0] == 0.0 && s.amortization[0] == 0.0 && s.eop[0] == opening && s.bop[0] == None &&
    forall p :: 1 <= p < |tds| ==> Step(s, costOfDebt, tds, p)
  }

  /** The schedule of the first `n` periods, built period by period. */
  function Run(opening: real, costOfDebt: real, tds: seq<real>, n: nat): (s: Schedule)
    requires 1 <= n <= |tds|
    ensures |s.interest| == n && |s.amortization| == n && |s.eop| == n && |s.bop| == n
  {
    if n == 1 then Schedule([0.0], [0.0], [opening], [None])
    else
      var prev := Run(opening, costOfDebt, tds, n - 1);
      var bop := prev.eop[n - 2];
      var am := AmortizationOf(bop, tds[n - 1], costOfDebt);
      Schedule(prev.interest + [InterestOn(bop, costOfDebt)], prev.amortization + [am],
               prev.eop + [bop - am], prev.bop + [Some(bop)])
  }

  lemma {:induction false} RunSteps(opening: real, costOfDebt: real, tds: seq<real>, n: nat)
    requires 1 <= n <= |tds|
    ensures var s := Run(opening, costOfDebt, tds, n);
      s.interest[0] == 0.0 && s.amortization[0] == 0.0 && s.eop[0] == opening && s.bop[0] == None &&
      forall p :: 1 <= p < n ==> Step(s, costOfDebt, tds, p)
  {
    if n > 1 {
      RunSteps(opening, costOfDebt, tds, n - 1);
      var prev, s := Run(opening, costOfDebt, tds, n - 1), Run(opening, costOfDebt, tds, n);
      forall p | 1 <= p < n
        ensures Step(s, costOfDebt, tds, p)
      {
        if p < n - 1 {
          assert Step(prev, costOfDebt, tds, p);
        }
      }
    }
  }

  /** The schedule built period by period follows the recurrence. */
  lemma RunRecurs(opening: real, costOfDebt: real, tds: seq<real>)
    requires |tds| >= 1
    ensures Recurs(Run(opening, costOfDebt, tds, |tds|), opening, costOfDebt, tds)
  {
    RunSteps(opening, costOfDebt, tds, |tds|);
  }

  lemma {:induction false} BalancesAgree(s: Schedule, t: Schedule, opening: real, costOfDebt: real, tds: seq<real>, p: nat)
    requires Recurs(s, opening, costOfDebt, tds) && Recurs(t, opening, costOfDebt, tds)
    requires p < |tds|
    ensures s.eop[p] == t.eop[p]
  {
    if p > 0 {
      BalancesAgree(s, t, opening, costOfDebt, tds, p - 1);
      assert Step(s, costOfDebt, tds, p) && Step(t, costOfDebt, tds, p);
    }
  }

  /** The recurrence determines the schedule: there is exactly one, the one
      built period by period. */
  lemma RecursUnique(s: Schedule, opening: real, costOfDebt: real, tds: seq<real>)
    requires Recurs(s, opening, costOfDebt, tds)
    ensures s == Run(opening, costOfDebt, tds, |tds|)
  {
    var t := Run(opening, costOfDebt, tds, |tds|);
    RunRecurs(opening, costOfDebt, tds);
    forall p | 0 <= p < |tds|
      ensures s.interest[p] == t.interest[p] && s.amortization[p] == t.amortization[p]
      ensures s.eop[p] == t.eop[p] && s.bop[p] == t.bop[p]
    {
      BalancesAgree(s, t, opening, costOfDebt, tds, p);
      if p > 0 {
        BalancesAgree(s, t, opening, costOfDebt, tds, p - 1);
        assert Step(s, costOfDebt, tds, p) && Step(t, costOfDebt, tds, p);
      }
    }
    assert s.interest == t.interest && s.amortization == t.amortization;
    assert s.eop == t.eop && s.bop == t.bop;
  }

  // The engine's two passes over the columns.

  /** The periods `p < done` (and always periods 0 and 1) of the columns
      follow the recurrence, given the ending balances. */
  predicate SettledBefore(done: int, opening: real, costOfDebt: real, tds: seq<real>,
                          interest: seq<real>, amortization: seq<real>, eop: seq<real>)
  {
    |tds| >= 1 && |interest| == |tds| && |amortization| == |tds| && |eop| == |tds| &&
    interest[0] == 0.0 && amortization[0] == 0.0 && eop[0] == opening &&
    (forall p :: 1 <= p < |tds| && (p < done || p <= 1) ==>
       interest[p] == InterestOn(eop[p - 1], costOfDebt) &&
       amortization[p] == AmortizationOf(eop[p - 1], tds[p], costOfDebt) &&
       eop[p] == eop[p - 1] - amortization[p])
  }

  /** The beginning balances of periods `1..upTo` (and always of periods 1
      and 2) are the ending balances of the periods before; that of period 0
      is missing. */
  predicate CarriedUpTo(upTo: int, tds: seq<real>, eop: seq<real>, bop: seq<Option<real>>) {
    |tds| >= 1 && |eop| == |tds| && |bop| == |tds| && bop[0] == None &&
    forall p :: 1 <= p < |tds| && (p <= upTo || p <= 2) ==> bop[p] == Some(eop[p - 1])
  }

  /** One turn of the period loop settles period `period` and carries its
      ending balance forward. */
  lemma SettleStep(period: nat, opening: real, costOfDebt: real, tds: seq<real>,
                   interest: seq<real>, amortization: seq<real>, eop: seq<real>, bop: seq<Option<real>>)
    requires 1 < period < |tds|
    requires SettledBefore(period, opening, costOfDebt, tds, interest, amortization, eop)
    requires CarriedUpTo(period, tds, eop, bop)
    ensures var balance := bop[period].value;
      var am := Min(tds[period] - InterestOn(balance, costOfDebt), balance);
      var eop' := eop[period := balance - am];
      SettledBefore(period + 1, opening, costOfDebt, tds,
                    interest[period := InterestOn(balance, costOfDebt)],
                    amortization[period := am], eop') &&
      CarriedUpTo(period + 1, tds, eop',
                  if period < |tds| - 1 then bop[period + 1 := Some(balance - am)] else bop)
  {
  }

  /** The column-wide first pass.  Each column is computed from the columns
      before it: the first ending-balance column holds only the opening debt,
      so this pass is right for periods 0 and 1 (and for the beginning
      balance of period 2) and reads a zero balance for every later
      period. */
  method FirstPass(opening: real, costOfDebt: real, tds: seq<real>)
    returns (interest: array<real>, amortization: array<real>, eop: array<real>, bop: array<Option<real>>)
    requires |tds| >= 1
    ensures fresh(interest) && fresh(amortization) && fresh(eop) && fresh(bop)
    ensures interest != amortization && interest != eop && amortization != eop
    ensures SettledBefore(0, opening, costOfDebt, tds, interest[..], amortization[..], eop[..])
    ensures CarriedUpTo(0, tds, eop[..], bop[..])
  {
    var n := |tds|;
    var eopFirst := new real[n];
    forall p | 0 <= p < n {
      eopFirst[p] := if p == 0 then opening else 0.0;
    }
    interest := new real[n];
    forall p | 0 <= p < n {
      interest[p] := if p == 0 then 0.0 else InterestOn(eopFirst[p - 1], costOfDebt);
    }
    amortization := new real[n];
    forall p | 0 <= p < n {
      amortization[p] := if p == 0 then 0.0 else Min(tds[p] - interest[p], eopFirst[p - 1]);
    }
    eop := new real[n];
    forall p | 0 <= p < n {
      eop[p] := if p == 0 then eopFirst[0] else eopFirst[p - 1] - amortization[p];
    }
    bop := new Option<real>[n];
    forall p | 0 <= p < n {
      bop[p] := if p == 0 then None else Some(eop[p - 1]);
    }
  }

  /** The loop over the periods: from period 2 on, recompute interest,
      amortization and ending balance from the beginning balance in place,
      and carry the ending balance into the next period's beginning balance. */
  method PeriodLoop(opening: real, costOfDebt: real, tds: seq<real>,
                    interest: array<real>, amortization: array<real>, eop: array<real>,
                    bop: array<Option<real>>)
    requires |tds| >= 1
    requires interest != amortization && interest != eop && amortization != eop
    requires SettledBefore(0, opening, costOfDebt, tds, interest[..], amortization[..], eop[..])
    requires CarriedUpTo(0, tds, eop[..], bop[..])
    modifies interest, amortization, eop, bop
    ensures SettledBefore(|tds|, opening, costOfDebt, tds, interest[..], amortization[..], eop[..])
    ensures CarriedUpTo(|tds|, tds, eop[..], bop[..])
  {
    var n := |tds|;
    var lifetime := n - 1;
    var period := 0;
    while period < n
      invariant 0 <= period <= n
      invariant SettledBefore(period, opening, costOfDebt, tds, interest[..], amortization[..], eop[..])
      invariant CarriedUpTo(period, tds, eop[..], bop[..])
    {
      if period > 1 {
        ghost var interest0, amortization0, eop0, bop0 := interest[..], amortization[..], eop[..], bop[..];
        SettleStep(period, opening, costOfDebt, tds, interest0, amortization0, eop0, bop0);
        var balance := bop[period].value;
        var i := InterestOn(balance, costOfDebt);
        var am := Min(tds[period] - i, balance);
        interest[period] := i;
        amortization[period] := am;
        eop[period] := balance - am;
        if period < lifetime {
          bop[period + 1] := Some(balance - am);
        }
        assert interest[..] == interest0[period := i];
        assert amortization[..] == amortization0[period := am];
        assert eop[..] == eop0[period := balance - am];
        assert bop[..] == if period < lifetime then bop0[period + 1 := Some(balance - am)] else bop0;
      }
      period := period + 1;
    }
  }

  /** Builds the debt columns as the engine does, the column-wide first pass
      followed by the period loop that corrects periods 2 onwards, and
      arrives at the recurrence. */
  method ComputeSchedule(opening: real, costOfDebt: real, tds: seq<real>) returns (s: Schedule)
    requires |tds| >= 1
    ensures Recurs(s, opening, costOfDebt, tds)
  {
    var interest, amortization, eop, bop := FirstPass(opening, costOfDebt, tds);
    PeriodLoop(opening, costOfDebt, tds, interest, amortization, eop, bop);
    s := Schedule(interest[..], amortization[..], eop[..], bop[..]);
    forall p | 1 <= p < |tds|
      ensures Step(s, costOfDebt, tds, p)
    {
    }
  }

  // Properties of the recurrence.

  /** Period `p >= 1` of a schedule that follows the recurrence, written
      out: interest on the balance brought forward, the debt service left
      after it capped by that balance, and what remains. */
  lemma StepRelations(s: Schedule, opening: real, costOfDebt: real, tds: seq<real>, p: nat)
    requires Recurs(s, opening, costOfDebt, tds)
    requires 1 <= p < |tds|
    ensures s.bop[p] == Some(s.eop[p - 1])
    ensures s.interest[p] == InterestOn(s.eop[p - 1], costOfDebt)
    ensures s.amortization[p] == Min(tds[p] - s.interest[p], s.eop[p - 1])
    ensures s.eop[p] == s.eop[p - 1] - s.amortization[p]
  {
    assert Step(s, costOfDebt, tds, p);
  }

  /** Every balance after period 0 is the shortfall of debt service after
      interest, or zero, so it is never negative. */
  lemma BalanceClosedForm(s: Schedule, opening: real, costOfDebt: real, tds: seq<real>, p: nat)
    requires Recurs(s, opening, costOfDebt, tds)
    requires 1 <= p < |tds|
    ensures s.eop[p] == Max(s.eop[p - 1] - (tds[p] - s.interest[p]), 0.0)
    ensures 0.0 <= s.eop[p]
  {
    assert Step(s, costOfDebt, tds, p);
    ClosingBalanceBounds(s.eop[p - 1], tds[p], costOfDebt);
  }

  /** Given a non-negative opening balance, no balance is ever negative. */
  lemma EopNonNegative(s: Schedule, opening: real, costOfDebt: real, tds: seq<real>, p: nat)
    requires Recurs(s, opening, costOfDebt, tds)
    requires 0.0 <= opening
    requires p < |tds|
    ensures 0.0 <= s.eop[p]
  {
    if p > 0 {
      BalanceClosedForm(s, opening, costOfDebt, tds, p);
    }
  }

  /** While debt service covers interest the balance does not grow. */
  lemma DebtNonIncreasing(s: Schedule, opening: real, costOfDebt: real, tds: seq<real>, p: nat)
    requires Recurs(s, opening, costOfDebt, tds)
    requires 0.0 <= opening
    requires 1 <= p < |tds|
    requires tds[p] >= s.interest[p]
    ensures s.bop[p].Some? && s.eop[p] <= s.bop[p].value
  {
    EopNonNegative(s, opening, costOfDebt, tds, p - 1);
    assert Step(s, costOfDebt, tds, p);
    ClosingBalanceBounds(s.eop[p - 1], tds[p], costOfDebt);
  }

  /** A repaid loan stays repaid as long as debt service is not negative. */
  lemma {:induction false} PaidOffStaysPaidOff(s: Schedule, opening: real, costOfDebt: real, tds: seq<real>, k: nat, m: nat)
    requires Recurs(s, opening, costOfDebt, tds)
    requires k <= m < |tds|
    requires s.eop[k] == 0.0
    requires forall j :: k < j <= m ==> tds[j] >= 0.0
    ensures s.eop[m] == 0.0
  {
    if m > k {
      PaidOffStaysPaidOff(s, opening, costOfDebt, tds, k, m - 1);
      assert Step(s, costOfDebt, tds, m);
    }
  }

  /** A negative debt service makes a repaid balance grow again, by the
      amount of the negative service. */
  lemma RegrowsBy(s: Schedule, opening: real, costOfDebt: real, tds: seq<real>, p: nat)
    requires Recurs(s, opening, costOfDebt, tds)
    requires 1 <= p < |tds|
    requires s.eop[p - 1] == 0.0 && tds[p] < 0.0
    ensures s.eop[p] == -tds[p]
  {
    assert Step(s, costOfDebt, tds, p);
  }

  /** Principal repaid over periods 0..m is exactly what no longer is
      outstanding. */
  lemma {:induction false} RepaidIsOpeningLessOutstanding(s: Schedule, opening: real, costOfDebt: real, tds: seq<real>, m: nat)
    requires Recurs(s, opening, costOfDebt, tds)
    requires m < |tds|
    ensures Sum(s.amortization[..m + 1]) == opening - s.eop[m]
  {
    assert s.amortization[..m + 1][..m] == s.amortization[..m];
    if m == 0 {
      assert s.amortization[..0] == [];
    } else {
      RepaidIsOpeningLessOutstanding(s, opening, costOfDebt, tds, m - 1);
      assert Step(s, costOfDebt, tds, m);
    }
  }
}
