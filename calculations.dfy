/** The interest engine of lib/calculations.ts: simple interest on the final
    balance, simple interest accrued piecewise between transactions, and
    weekly compounding over Monday-based calendar weeks. Each calculator is a
    method that follows the source loop for loop, proved equal to a reference
    function defined on the unsorted input; the properties of the calculators
    are lemmas about those functions. */
module Calculations {
  import opened Types
  import opened Dates
  import opened Balance
  import opened Sorting

  function Max0(x: real): (m: real)
    ensures m >= 0.0 && m >= x && (m == x || m == 0.0)
  {
    if x > 0.0 then x else 0.0
  }

  /** Simple interest on a balance for a number of weeks at a weekly
      percentage rate. */
  function Interest(balance: real, rate: real, weeks: int): real
  {
    (balance * rate * (weeks as real)) / 100.0
  }

  lemma InterestSign(balance: real, rate: real, weeks: int)
    ensures weeks == 0 || balance == 0.0 ==> Interest(balance, rate, weeks) == 0.0
    ensures balance >= 0.0 && rate >= 0.0 && weeks >= 0 ==> Interest(balance, rate, weeks) >= 0.0
  {
    if balance >= 0.0 && rate >= 0.0 && weeks >= 0 {
      assert balance * rate >= 0.0;
      assert balance * rate * (weeks as real) >= 0.0;
    }
  }

  /** The taken amounts of a list, never reduced by repayments. */
  function TakenTotal(ts: seq<Transaction>): real
  {
    SumAmounts(OfType(ts, Taken))
  }

  /** One more transaction moves the balance by its signed amount and the
      taken total by its amount if it was taken. */
  lemma ExtendByOne(s: seq<Transaction>, i: nat)
    requires i < |s|
    ensures RunningBalance(s[..i + 1]) == RunningBalance(s[..i]) + Signed(s[i])
    ensures TakenTotal(s[..i + 1]) == TakenTotal(s[..i]) + (if s[i].kind == Taken then s[i].amount else 0.0)
  {
    TakeOneMore(s, i);
    ExtendByLast(s[..i], s[i]);
  }

  lemma ExtendByLast(s: seq<Transaction>, t: Transaction)
    ensures RunningBalance(s + [t]) == RunningBalance(s) + Signed(t)
    ensures TakenTotal(s + [t]) == TakenTotal(s) + (if t.kind == Taken then t.amount else 0.0)
  {
    SnocParts(s, t);
    OfTypeSnoc(s, t, Taken);
    if t.kind == Taken {
      SumAmountsSnoc(OfType(s, Taken), t);
    } else {
      ConcatEmpty(OfType(s, Taken));
    }
  }

  /** Sorting first does not change which transactions are on or before x,
      nor their balance and taken total. */
  lemma KeptInAnyOrder(sorted: seq<Transaction>, ts: seq<Transaction>, x: int)
    requires multiset(sorted) == multiset(ts)
    ensures RunningBalance(OnOrBefore(sorted, x)) == RunningBalance(OnOrBefore(ts, x))
    ensures TakenTotal(OnOrBefore(sorted, x)) == TakenTotal(OnOrBefore(ts, x))
  {
    var a, b := OnOrBefore(sorted, x), OnOrBefore(ts, x);
    OnOrBeforePerm(sorted, ts, x);
    RunningBalancePerm(a, b);
    OfTypePerm(a, b, Taken);
    SumAmountsPerm(OfType(a, Taken), OfType(b, Taken));
  }

  // ======================= Simple interest =======================

  /** Reference: interest on the balance of the transactions dated on or
      before asOf, for the whole weeks from the earliest transaction to asOf. */
  function SimpleInterest(rate: real, ts: seq<Transaction>, asOf: int): InterestCalculation
  {
    var kept := OnOrBefore(ts, asOf);
    var balance := RunningBalance(kept);
    var interest := if ts == [] then 0.0
                    else Interest(balance, rate, WeeksBetween(asOf, EarliestDate(ts)));
    InterestCalculation(Simple, interest, TakenTotal(kept), balance + interest, None)
  }

  method CalculateSimpleInterest(borrower: Borrower, transactions: seq<Transaction>, asOfDate: int)
    returns (r: InterestCalculation)
    ensures r == SimpleInterest(borrower.interestRate, transactions, asOfDate)
  {
    var sorted := SortedCopy(transactions);
    var principal, totalInterest, currentBalance := 0.0, 0.0, 0.0;
    var i := 0;
    while i < |sorted|
      invariant 0 <= i <= |sorted|
      invariant 0 < i ==> sorted[i - 1].date <= asOfDate
      invariant currentBalance == RunningBalance(sorted[..i])
      invariant principal == TakenTotal(sorted[..i])
    {
      var t := sorted[i];
      if t.date > asOfDate {
        break;
      }
      ExtendByOne(sorted, i);
      if t.kind == Taken {
        currentBalance := currentBalance + t.amount;
        principal := principal + t.amount;
      } else {
        currentBalance := currentBalance - t.amount;
      }
      i := i + 1;
    }

    SortedPrefixIsOnOrBefore(sorted, i, asOfDate);
    KeptInAnyOrder(sorted, transactions, asOfDate);

    if |sorted| > 0 {
      SortedHeadIsEarliest(sorted, transactions);
      var firstDate := sorted[0].date;
      var weeks := WeeksBetween(asOfDate, firstDate);
      totalInterest := Interest(currentBalance, borrower.interestRate, weeks);
    }
    SimpleFromParts(borrower.interestRate, transactions, asOfDate, currentBalance, principal, totalInterest);
    r := InterestCalculation(Simple, totalInterest, principal, currentBalance + totalInterest, None);
  }

  lemma SimpleFromParts(rate: real, ts: seq<Transaction>, asOf: int, balance: real, principal: real, interest: real)
    requires balance == RunningBalance(OnOrBefore(ts, asOf))
    requires principal == TakenTotal(OnOrBefore(ts, asOf))
    requires interest == if ts == [] then 0.0 else Interest(balance, rate, WeeksBetween(asOf, EarliestDate(ts)))
    ensures InterestCalculation(Simple, interest, principal, balance + interest, None) == SimpleInterest(rate, ts, asOf)
  {
  }

  /** Sorting does not change which date comes first. */
  lemma EarliestDatePerm(a: seq<Transaction>, b: seq<Transaction>)
    requires multiset(a) == multiset(b) && a != []
    ensures b != [] && EarliestDate(a) == EarliestDate(b)
  {
    var s := SortByDate(a);
    SortByDateSorts(a);
    SortedHeadIsEarliest(s, a);
    SortedHeadIsEarliest(s, b);
  }

  /** Simple interest depends on the transactions, not on their order. */
  lemma SimpleIgnoresOrder(rate: real, a: seq<Transaction>, b: seq<Transaction>, asOf: int)
    requires multiset(a) == multiset(b)
    ensures SimpleInterest(rate, a, asOf) == SimpleInterest(rate, b, asOf)
  {
    if a == [] {
      assert |b| == |multiset(b)| == 0;
    } else {
      EarliestDatePerm(a, b);
      KeptInAnyOrder(a, b, asOf);
    }
  }

  /** A transaction dated after asOf changes nothing. */
  lemma SimpleIgnoresLater(rate: real, ts: seq<Transaction>, u: Transaction, asOf: int)
    requires u.date > asOf
    ensures SimpleInterest(rate, ts + [u], asOf) == SimpleInterest(rate, ts, asOf)
  {
    OnOrBeforeSnoc(ts, u, asOf);
    ConcatEmpty(OnOrBefore(ts, asOf));
    var kept := OnOrBefore(ts, asOf);
    var balance := RunningBalance(kept);
    var interest := if ts == [] then 0.0 else Interest(balance, rate, WeeksBetween(asOf, EarliestDate(ts)));
    if ts == [] || EarliestDate(ts) > asOf {
      NoneOnOrBefore(ts, asOf);
      if ts != [] {
        InterestSign(0.0, rate, WeeksBetween(asOf, EarliestDate(ts)));
      }
      InterestSign(0.0, rate, WeeksBetween(asOf, EarliestDate(ts + [u])));
    } else {
      LaterKeepsEarliest(ts, u, asOf);
    }
    SimpleFromParts(rate, ts, asOf, balance, TakenTotal(kept), interest);
    SimpleFromParts(rate, ts + [u], asOf, balance, TakenTotal(kept), interest);
  }

  lemma LaterKeepsEarliest(ts: seq<Transaction>, u: Transaction, asOf: int)
    requires ts != [] && EarliestDate(ts) <= asOf < u.date
    ensures EarliestDate(ts + [u]) == EarliestDate(ts)
  {
    var e, e' := EarliestDate(ts), EarliestDate(ts + [u]);
    var i :| 0 <= i < |ts| && ts[i].date == e;
    assert (ts + [u])[i] == ts[i];
    var j :| 0 <= j < |ts + [u]| && (ts + [u])[j].date == e';
    if j < |ts| {
      assert (ts + [u])[j] == ts[j];
    }
  }

  /** The principal is everything taken up to asOf; repayments lower the
      balance but never the principal. */
  lemma SimplePrincipalIgnoresReturns(rate: real, ts: seq<Transaction>, asOf: int)
    requires forall t :: t in ts ==> t.amount >= 0.0
    ensures var r := SimpleInterest(rate, ts, asOf);
      r.principal >= 0.0 && r.principal >= r.totalAmount - r.totalInterest
  {
    var kept := OnOrBefore(ts, asOf);
    RunningBalanceIsTakenMinusReturned(kept);
    OnOrBeforeSub(ts, asOf);
    OfTypeSub(kept, Taken);
    OfTypeSub(kept, Returned);
    SumAmountsNonNegative(OfType(kept, Taken));
    SumAmountsNonNegative(OfType(kept, Returned));
  }

  lemma {:induction false} SumAmountsNonNegative(ts: seq<Transaction>)
    requires forall t :: t in ts ==> t.amount >= 0.0
    ensures SumAmounts(ts) >= 0.0
    decreases |ts|
  {
    if ts != [] {
      assert forall t :: t in ts[..|ts| - 1] ==> t in ts;
      SumAmountsNonNegative(ts[..|ts| - 1]);
    }
  }

  /** Less than a week after the first transaction no interest is due. */
  lemma SimpleNoInterestInFirstWeek(rate: real, ts: seq<Transaction>, asOf: int)
    requires ts != [] && EarliestDate(ts) <= asOf < EarliestDate(ts) + 7
    ensures var r := SimpleInterest(rate, ts, asOf);
      r.totalInterest == 0.0 && r.totalAmount == RunningBalance(OnOrBefore(ts, asOf))
  {
    InterestSign(RunningBalance(OnOrBefore(ts, asOf)), rate, WeeksBetween(asOf, EarliestDate(ts)));
  }

  /** Rate 10 on 1000 taken on Monday 2024-01-01, as of 2024-01-15. */
  lemma SimpleTwoWeeksExample()
    ensures var r := SimpleInterest(10.0, [Transaction("t1", 19723, Taken, 1000.0)], 19737);
      r.principal == 1000.0 && r.totalInterest == 200.0 && r.totalAmount == 1200.0
  {
    var ts := [Transaction("t1", 19723, Taken, 1000.0)];
    assert OnOrBefore(ts, 19737) == ts;
    assert OfType(ts, Taken) == ts;
    assert ts[..0] == [];
  }

  // ================ Simple interest with repayments ================

  /** The running state of the piecewise accrual: interest so far, balance so
      far and the date the current period started. */
  datatype Accrual = Accrual(interest: real, balance: real, previous: int)

  /** Interest for one period: only whole weeks, only while something is owed. */
  function PeriodInterest(balance: real, rate: real, weeks: int): real
  {
    if weeks > 0 && balance > 0.0 then Interest(balance, rate, weeks) else 0.0
  }

  /** One transaction: close the period since the previous one, then apply it. */
  function Step(a: Accrual, rate: real, t: Transaction): Accrual
  {
    Accrual(a.interest + PeriodInterest(a.balance, rate, WeeksBetween(t.date, a.previous)),
            a.balance + Signed(t), t.date)
  }

  /** The accrual after walking s left to right from the state start. */
  function AccrueFrom(start: Accrual, s: seq<Transaction>, rate: real): Accrual
  {
    if s == [] then start else Step(AccrueFrom(start, s[..|s| - 1], rate), rate, s[|s| - 1])
  }

  /** Reference: accrue period by period over the transactions dated on or
      before asOf, taken in date order and starting on the earliest date of
      the whole list, then once more up to asOf. */
  function SimpleInterestWithRepayment(rate: real, ts: seq<Transaction>, asOf: int): InterestCalculation
  {
    if ts == [] then InterestCalculation(SimpleWithRepay, 0.0, 0.0, 0.0, None)
    else
      var kept := OnOrBefore(ts, asOf);
      var a := AccrueFrom(Accrual(0.0, 0.0, EarliestDate(ts)), SortByDate(kept), rate);
      var interest := a.interest + PeriodInterest(a.balance, rate, WeeksBetween(asOf, a.previous));
      InterestCalculation(SimpleWithRepay, interest, Max0(RunningBalance(kept)), a.balance + interest, None)
  }

  method CalculateSimpleInterestWithRepayment(borrower: Borrower, transactions: seq<Transaction>, asOfDate: int)
    returns (r: InterestCalculation)
    ensures r == SimpleInterestWithRepayment(borrower.interestRate, transactions, asOfDate)
  {
    var sorted := SortedCopy(transactions);
    if |sorted| == 0 {
      return InterestCalculation(SimpleWithRepay, 0.0, 0.0, 0.0, None);
    }
    var rate := borrower.interestRate;
    var totalInterest, currentBalance := 0.0, 0.0;
    var previousDate := sorted[0].date;
    ghost var start := Accrual(0.0, 0.0, previousDate);
    var i := 0;
    while i < |sorted|
      invariant 0 <= i <= |sorted|
      invariant 0 < i ==> sorted[i - 1].date <= asOfDate
      invariant Accrual(totalInterest, currentBalance, previousDate) == AccrueFrom(start, sorted[..i], rate)
    {
      var t := sorted[i];
      if t.date > asOfDate {
        break;
      }
      AccrueOneMore(start, sorted, i, rate);
      var weeksSinceLast := WeeksBetween(t.date, previousDate);
      if weeksSinceLast > 0 && currentBalance > 0.0 {
        totalInterest := totalInterest + Interest(currentBalance, rate, weeksSinceLast);
      }
      if t.kind == Taken {
        currentBalance := currentBalance + t.amount;
      } else {
        currentBalance := currentBalance - t.amount;
      }
      previousDate := t.date;
      i := i + 1;
    }
    SortedPrefixIsOnOrBefore(sorted, i, asOfDate);
    ghost var walked := Accrual(totalInterest, currentBalance, previousDate);
    var weeksSinceLast := WeeksBetween(asOfDate, previousDate);
    if weeksSinceLast > 0 && currentBalance > 0.0 {
      totalInterest := totalInterest + Interest(currentBalance, rate, weeksSinceLast);
    }

    var principal := RunningBalance(OnOrBefore(sorted, asOfDate));
    RepayOfSortedWalk(rate, transactions, sorted, i, asOfDate, walked, totalInterest, principal);
    r := InterestCalculation(SimpleWithRepay, totalInterest, Max0(principal), currentBalance + totalInterest, None);
  }

  /** Walking any date-sorted copy of the list up to asOf accrues what the
      reference accrues. */
  lemma SortedWalkMatches(rate: real, ts: seq<Transaction>, sorted: seq<Transaction>, i: nat, asOf: int)
    requires SortedByDate(sorted) && multiset(sorted) == multiset(ts) && sorted != []
    requires i <= |sorted| && sorted[..i] == OnOrBefore(sorted, asOf)
    ensures ts != []
    ensures AccrueFrom(Accrual(0.0, 0.0, sorted[0].date), sorted[..i], rate)
         == AccrueFrom(Accrual(0.0, 0.0, EarliestDate(ts)), SortByDate(OnOrBefore(ts, asOf)), rate)
    ensures RunningBalance(sorted[..i]) == RunningBalance(OnOrBefore(ts, asOf))
  {
    var kept := OnOrBefore(ts, asOf);
    SortedHeadIsEarliest(sorted, ts);
    OnOrBeforePerm(sorted, ts, asOf);
    RunningBalancePerm(sorted[..i], kept);
    SortByDateSorts(kept);
    PrefixSorted(sorted, i);
    AccrueIgnoresSameDayOrder(Accrual(0.0, 0.0, sorted[0].date), sorted[..i], SortByDate(kept), rate);
  }

  /** The walk over a sorted copy, closed up to asOf, is the reference result. */
  lemma RepayOfSortedWalk(rate: real, ts: seq<Transaction>, sorted: seq<Transaction>, i: nat, asOf: int,
                          a: Accrual, interest: real, principal: real)
    requires SortedByDate(sorted) && multiset(sorted) == multiset(ts) && sorted != []
    requires i <= |sorted| && sorted[..i] == OnOrBefore(sorted, asOf)
    requires a == AccrueFrom(Accrual(0.0, 0.0, sorted[0].date), sorted[..i], rate)
    requires interest == a.interest + PeriodInterest(a.balance, rate, WeeksBetween(asOf, a.previous))
    requires principal == RunningBalance(OnOrBefore(sorted, asOf))
    ensures InterestCalculation(SimpleWithRepay, interest, Max0(principal), a.balance + interest, None)
         == SimpleInterestWithRepayment(rate, ts, asOf)
  {
    SortedWalkMatches(rate, ts, sorted, i, asOf);
    RepayFromParts(rate, ts, asOf, a, interest, principal);
  }

  lemma RepayFromParts(rate: real, ts: seq<Transaction>, asOf: int, a: Accrual, interest: real, principal: real)
    requires ts != []
    requires a == AccrueFrom(Accrual(0.0, 0.0, EarliestDate(ts)), SortByDate(OnOrBefore(ts, asOf)), rate)
    requires interest == a.interest + PeriodInterest(a.balance, rate, WeeksBetween(asOf, a.previous))
    requires principal == RunningBalance(OnOrBefore(ts, asOf))
    ensures InterestCalculation(SimpleWithRepay, interest, Max0(principal), a.balance + interest, None)
         == SimpleInterestWithRepayment(rate, ts, asOf)
  {
  }

  /** The walked balance is the running balance of what was walked. */
  lemma {:induction false} AccrueBalance(start: Accrual, s: seq<Transaction>, rate: real)
    ensures AccrueFrom(start, s, rate).balance == start.balance + RunningBalance(s)
    decreases |s|
  {
    if s != [] {
      AccrueBalance(start, s[..|s| - 1], rate);
    }
  }

  /** At a non-negative rate no period ever subtracts interest. */
  lemma {:induction false} AccrueInterestNonNegative(start: Accrual, s: seq<Transaction>, rate: real)
    requires start.interest >= 0.0 && rate >= 0.0
    ensures AccrueFrom(start, s, rate).interest >= 0.0
    decreases |s|
  {
    if s != [] {
      var a := AccrueFrom(start, s[..|s| - 1], rate);
      AccrueInterestNonNegative(start, s[..|s| - 1], rate);
      InterestSign(a.balance, rate, WeeksBetween(s[|s| - 1].date, a.previous));
    }
  }

  /** The amount due is the net balance up to asOf plus the interest; the
      principal is that net balance clamped at zero. */
  lemma RepayTotals(rate: real, ts: seq<Transaction>, asOf: int)
    ensures var r := SimpleInterestWithRepayment(rate, ts, asOf);
      var net := RunningBalance(OnOrBefore(ts, asOf));
      r.principal >= 0.0 && r.totalAmount == net + r.totalInterest &&
      (net >= 0.0 ==> r.totalAmount == r.principal + r.totalInterest)
  {
    if ts != [] {
      var kept := OnOrBefore(ts, asOf);
      AccrueBalance(Accrual(0.0, 0.0, EarliestDate(ts)), SortByDate(kept), rate);
      SortByDateSorts(kept);
      RunningBalancePerm(SortByDate(kept), kept);
    }
  }

  /** With a non-negative rate the accrued interest is never negative. */
  lemma RepayInterestNonNegative(rate: real, ts: seq<Transaction>, asOf: int)
    requires rate >= 0.0
    ensures SimpleInterestWithRepayment(rate, ts, asOf).totalInterest >= 0.0
  {
    if ts != [] {
      var a := AccrueFrom(Accrual(0.0, 0.0, EarliestDate(ts)), SortByDate(OnOrBefore(ts, asOf)), rate);
      AccrueInterestNonNegative(Accrual(0.0, 0.0, EarliestDate(ts)), SortByDate(OnOrBefore(ts, asOf)), rate);
      InterestSign(a.balance, rate, WeeksBetween(asOf, a.previous));
    }
  }

  /** Less than a week after the earliest transaction no period has a whole
      week, so no interest accrues and the amount is the balance. */
  lemma RepayNoInterestInFirstWeek(rate: real, ts: seq<Transaction>, asOf: int)
    requires ts != [] && EarliestDate(ts) <= asOf < EarliestDate(ts) + 7
    ensures var r := SimpleInterestWithRepayment(rate, ts, asOf);
      r.totalInterest == 0.0 && r.totalAmount == RunningBalance(OnOrBefore(ts, asOf))
  {
    var e := EarliestDate(ts);
    var walk := SortByDate(OnOrBefore(ts, asOf));
    SortByDateSorts(OnOrBefore(ts, asOf));
    WalkWithin(ts, asOf, walk);
    AccrueWithinWeek(Accrual(0.0, 0.0, e), walk, rate, e, asOf);
    var a := AccrueFrom(Accrual(0.0, 0.0, e), walk, rate);
    assert WeeksBetween(asOf, a.previous) == 0;
    RepayTotals(rate, ts, asOf);
  }

  /** Any reordering of the transactions up to asOf lies between the
      earliest date and asOf. */
  lemma WalkWithin(ts: seq<Transaction>, asOf: int, walk: seq<Transaction>)
    requires ts != [] && multiset(walk) == multiset(OnOrBefore(ts, asOf))
    ensures forall t :: t in walk ==> EarliestDate(ts) <= t.date <= asOf
  {
    OnOrBeforeSub(ts, asOf);
    forall t | t in walk ensures EarliestDate(ts) <= t.date <= asOf {
      assert t in multiset(OnOrBefore(ts, asOf));
    }
  }

  /** Along the walk from start over s and then on to asOf, no period that
      begins with something owed lasts a whole week. */
  ghost predicate WalkNeverOwedForAWeek(start: Accrual, s: seq<Transaction>, asOf: int, rate: real)
  {
    && (forall i :: 0 <= i < |s| && AccrueFrom(start, s[..i], rate).balance > 0.0 ==>
          s[i].date < AccrueFrom(start, s[..i], rate).previous + 7)
    && (AccrueFrom(start, s, rate).balance > 0.0 ==> asOf < AccrueFrom(start, s, rate).previous + 7)
  }

  /** The balance is never positive across a whole week, between the
      transactions dated on or before asOf or after the last of them. */
  ghost predicate NeverOwedForAWeek(rate: real, ts: seq<Transaction>, asOf: int)
  {
    ts == [] || WalkNeverOwedForAWeek(Accrual(0.0, 0.0, EarliestDate(ts)), SortByDate(OnOrBefore(ts, asOf)), asOf, rate)
  }

  /** Interest is charged for a period exactly when something is owed at
      its start and it lasts a whole week. */
  lemma PeriodFree(balance: real, rate: real, later: int, earlier: int)
    requires balance <= 0.0 || later < earlier + 7
    ensures PeriodInterest(balance, rate, WeeksBetween(later, earlier)) == 0.0
  {
  }

  lemma PeriodCharged(balance: real, rate: real, later: int, earlier: int)
    requires balance > 0.0 && rate > 0.0 && later >= earlier + 7
    ensures PeriodInterest(balance, rate, WeeksBetween(later, earlier)) > 0.0
  {
    var w := WeeksBetween(later, earlier);
    assert w > 0;
    assert balance * rate > 0.0;
    assert balance * rate * (w as real) > 0.0;
  }

  /** A walk in which nothing is owed across a whole week accrues nothing. */
  lemma {:induction false} AccrueNoOwedWeek(start: Accrual, s: seq<Transaction>, rate: real)
    requires start.interest == 0.0
    requires forall i :: 0 <= i < |s| && AccrueFrom(start, s[..i], rate).balance > 0.0 ==>
               s[i].date < AccrueFrom(start, s[..i], rate).previous + 7
    ensures AccrueFrom(start, s, rate).interest == 0.0
    decreases |s|
  {
    if s != [] {
      var init, last := s[..|s| - 1], s[|s| - 1];
      forall i | 0 <= i < |init| && AccrueFrom(start, init[..i], rate).balance > 0.0
        ensures init[i].date < AccrueFrom(start, init[..i], rate).previous + 7
      {
        assert init[..i] == s[..i];
      }
      AccrueNoOwedWeek(start, init, rate);
      var a := AccrueFrom(start, init, rate);
      assert s[..|s| - 1] == init;
      PeriodFree(a.balance, rate, last.date, a.previous);
    }
  }

  /** At a positive rate, a walk in which something is owed across a whole
      week accrues some interest. */
  lemma {:induction false} AccrueOwedWeekCharged(start: Accrual, s: seq<Transaction>, rate: real)
    requires start.interest >= 0.0 && rate > 0.0
    requires exists i :: 0 <= i < |s| && AccrueFrom(start, s[..i], rate).balance > 0.0 &&
               s[i].date >= AccrueFrom(start, s[..i], rate).previous + 7
    ensures AccrueFrom(start, s, rate).interest > 0.0
    decreases |s|
  {
    var i :| 0 <= i < |s| && AccrueFrom(start, s[..i], rate).balance > 0.0 &&
             s[i].date >= AccrueFrom(start, s[..i], rate).previous + 7;
    var init, last := s[..|s| - 1], s[|s| - 1];
    var a := AccrueFrom(start, init, rate);
    if i == |s| - 1 {
      assert init == s[..i];
      AccrueInterestNonNegative(start, init, rate);
      PeriodCharged(a.balance, rate, last.date, a.previous);
    } else {
      assert init[..i] == s[..i];
      AccrueOwedWeekCharged(start, init, rate);
      InterestSign(a.balance, rate, WeeksBetween(last.date, a.previous));
    }
  }

  /** No interest accrues when the balance is never positive across a whole
      week; at a positive rate that is also the only way to owe none. */
  lemma RepayZeroIffNeverOwedForAWeek(rate: real, ts: seq<Transaction>, asOf: int)
    ensures NeverOwedForAWeek(rate, ts, asOf) ==> SimpleInterestWithRepayment(rate, ts, asOf).totalInterest == 0.0
    ensures rate > 0.0 && SimpleInterestWithRepayment(rate, ts, asOf).totalInterest == 0.0 ==> NeverOwedForAWeek(rate, ts, asOf)
  {
    if ts != [] {
      var start := Accrual(0.0, 0.0, EarliestDate(ts));
      var walk := SortByDate(OnOrBefore(ts, asOf));
      var a := AccrueFrom(start, walk, rate);
      if WalkNeverOwedForAWeek(start, walk, asOf, rate) {
        AccrueNoOwedWeek(start, walk, rate);
        PeriodFree(a.balance, rate, asOf, a.previous);
      } else if rate > 0.0 {
        AccrueInterestNonNegative(start, walk, rate);
        if a.balance > 0.0 && asOf >= a.previous + 7 {
          PeriodCharged(a.balance, rate, asOf, a.previous);
        } else {
          AccrueOwedWeekCharged(start, walk, rate);
          InterestSign(a.balance, rate, WeeksBetween(asOf, a.previous));
        }
      }
    }
  }

  /** Walking transactions whose dates all lie in a span shorter than a week
      adds no interest. */
  lemma {:induction false} AccrueWithinWeek(start: Accrual, s: seq<Transaction>, rate: real, lo: int, hi: int)
    requires start.interest == 0.0 && lo <= start.previous <= hi < lo + 7
    requires forall t :: t in s ==> lo <= t.date <= hi
    ensures AccrueFrom(start, s, rate).interest == 0.0
    ensures lo <= AccrueFrom(start, s, rate).previous <= hi
    decreases |s|
  {
    if s != [] {
      var init, last := s[..|s| - 1], s[|s| - 1];
      assert forall t :: t in init ==> t in s;
      AccrueWithinWeek(start, init, rate, lo, hi);
      assert last in s;
      assert WeeksBetween(last.date, AccrueFrom(start, init, rate).previous) == 0;
    }
  }

  /** The result depends on the transactions, not on the order they were
      recorded in. */
  lemma RepayIgnoresOrder(rate: real, a: seq<Transaction>, b: seq<Transaction>, asOf: int)
    requires multiset(a) == multiset(b)
    ensures SimpleInterestWithRepayment(rate, a, asOf) == SimpleInterestWithRepayment(rate, b, asOf)
  {
    if a == [] {
      assert |b| == |multiset(b)| == 0;
    } else {
      EarliestDatePerm(a, b);
      var ka, kb := OnOrBefore(a, asOf), OnOrBefore(b, asOf);
      OnOrBeforePerm(a, b, asOf);
      RunningBalancePerm(ka, kb);
      SortByDateSorts(ka);
      SortByDateSorts(kb);
      var start := Accrual(0.0, 0.0, EarliestDate(a));
      AccrueIgnoresSameDayOrder(start, SortByDate(ka), SortByDate(kb), rate);
      var acc := AccrueFrom(start, SortByDate(ka), rate);
      var interest := acc.interest + PeriodInterest(acc.balance, rate, WeeksBetween(asOf, acc.previous));
      RepayFromParts(rate, a, asOf, acc, interest, RunningBalance(ka));
      RepayFromParts(rate, b, asOf, acc, interest, RunningBalance(ka));
    }
  }

  /** A transaction dated after asOf changes nothing. */
  lemma RepayIgnoresLater(rate: real, ts: seq<Transaction>, u: Transaction, asOf: int)
    requires u.date > asOf
    ensures SimpleInterestWithRepayment(rate, ts + [u], asOf) == SimpleInterestWithRepayment(rate, ts, asOf)
  {
    OnOrBeforeSnoc(ts, u, asOf);
    ConcatEmpty(OnOrBefore(ts, asOf));
    if ts != [] && EarliestDate(ts) <= asOf {
      LaterKeepsEarliest(ts, u, asOf);
      var kept := OnOrBefore(ts, asOf);
      var acc := AccrueFrom(Accrual(0.0, 0.0, EarliestDate(ts)), SortByDate(kept), rate);
      var interest := acc.interest + PeriodInterest(acc.balance, rate, WeeksBetween(asOf, acc.previous));
      RepayFromParts(rate, ts, asOf, acc, interest, RunningBalance(kept));
      RepayFromParts(rate, ts + [u], asOf, acc, interest, RunningBalance(kept));
    } else {
      if ts != [] {
        NoneOnOrBefore(ts, asOf);
      }
      assert OnOrBefore(ts + [u], asOf) == [];
      assert SortByDate([]) == [];
    }
  }

  /** Repaid within the first week: 1000 taken on day 0 and returned on day
      3 owe no interest on day 10. */
  lemma RepaidWithinWeekExample(rate: real)
    ensures SimpleInterestWithRepayment(rate, [Transaction("a", 0, Taken, 1000.0), Transaction("b", 3, Returned, 1000.0)], 10).totalInterest == 0.0
  {
    var t1, t2 := Transaction("a", 0, Taken, 1000.0), Transaction("b", 3, Returned, 1000.0);
    var ts := [t1, t2];
    assert ts[1..] == [t2] && [t2][1..] == [];
    assert OnOrBefore(ts, 10) == ts;
    assert ts[..1] == [t1] && [t1][..0] == [];
    assert SortByDate([t1]) == [t1];
    assert InsertByDate(t2, [t1]) == ts;
    assert SortByDate(ts) == ts;
    assert ts[..1] == [t1];
    var start := Accrual(0.0, 0.0, 0);
    assert AccrueFrom(start, [t1][..0], rate) == start;
    assert PeriodInterest(0.0, rate, WeeksBetween(0, 0)) == 0.0;
    assert Step(start, rate, t1) == Accrual(0.0, 1000.0, 0);
    var a1 := AccrueFrom(start, [t1], rate);
    assert a1 == Accrual(0.0, 1000.0, 0);
    assert AccrueFrom(Accrual(0.0, 0.0, 0), ts, rate) == Accrual(0.0, 0.0, 3);
  }

  /** Rate 10 on 1000 taken on Monday 2024-01-01, as of 2024-01-15. */
  lemma RepayTwoWeeksExample()
    ensures var r := SimpleInterestWithRepayment(10.0, [Transaction("t1", 19723, Taken, 1000.0)], 19737);
      r.principal == 1000.0 && r.totalInterest == 200.0 && r.totalAmount == 1200.0
  {
    var t := Transaction("t1", 19723, Taken, 1000.0);
    assert [t][1..] == [] && [t][..0] == [];
    assert OnOrBefore([t], 19737) == [t];
    assert SortByDate([t]) == [t];
    assert AccrueFrom(Accrual(0.0, 0.0, 19723), [t], 10.0) == Accrual(0.0, 1000.0, 19723);
    assert WeeksBetween(19737, 19723) == 2;
  }

  lemma PrefixSorted(s: seq<Transaction>, i: nat)
    requires SortedByDate(s) && i <= |s|
    ensures SortedByDate(s[..i])
  {
  }

  lemma AccrueOneMore(start: Accrual, s: seq<Transaction>, i: nat, rate: real)
    requires i < |s|
    ensures AccrueFrom(start, s[..i + 1], rate) == Step(AccrueFrom(start, s[..i], rate), rate, s[i])
  {
    assert s[..i + 1][..i] == s[..i];
  }

  lemma {:induction false} AccrueAppend(start: Accrual, x: seq<Transaction>, y: seq<Transaction>, rate: real)
    ensures AccrueFrom(start, x + y, rate) == AccrueFrom(AccrueFrom(start, x, rate), y, rate)
    decreases |y|
  {
    if y == [] {
      assert x + y == x;
    } else {
      assert (x + y)[..|x + y| - 1] == x + y[..|y| - 1];
      AccrueAppend(start, x, y[..|y| - 1], rate);
    }
  }

  /** Two transactions of the same day can be applied in either order: the
      second closes a period of zero weeks. */
  lemma SameDayCommute(a: Accrual, rate: real, t: Transaction, u: Transaction)
    requires t.date == u.date
    ensures Step(Step(a, rate, t), rate, u) == Step(Step(a, rate, u), rate, t)
  {
  }

  /** A transaction can be moved past later ones of its own day. */
  lemma {:induction false} MoveToEnd(a: Accrual, t: Transaction, q: seq<Transaction>, rate: real)
    requires forall k :: 0 <= k < |q| ==> q[k].date == t.date
    ensures AccrueFrom(Step(a, rate, t), q, rate) == Step(AccrueFrom(a, q, rate), rate, t)
    decreases |q|
  {
    if q != [] {
      var q', v := q[..|q| - 1], q[|q| - 1];
      MoveToEnd(a, t, q', rate);
      SameDayCommute(AccrueFrom(a, q', rate), rate, t, v);
    }
  }

  /** Taking out an entry followed only by entries of its own day and
      applying it last gives the same accrual. */
  lemma ApplyLast(start: Accrual, b: seq<Transaction>, j: nat, rate: real)
    requires j < |b| && forall k :: j < k < |b| ==> b[k].date == b[j].date
    ensures AccrueFrom(start, b, rate) == Step(AccrueFrom(start, b[..j] + b[j + 1..], rate), rate, b[j])
  {
    var p, x, q := b[..j], b[j], b[j + 1..];
    assert b == (p + [x]) + q;
    assert (p + [x])[..|p|] == p;
    AccrueAppend(start, p + [x], q, rate);
    AccrueAppend(start, p, q, rate);
    MoveToEnd(AccrueFrom(start, p, rate), x, q, rate);
  }

  /** In two sorted lists with the same entries, whatever follows an
      occurrence of the last entry of one is dated on its day. */
  lemma SameDayTail(a: seq<Transaction>, b: seq<Transaction>, j: nat)
    requires SortedByDate(a) && SortedByDate(b) && multiset(a) == multiset(b)
    requires a != [] && j < |b| && b[j] == a[|a| - 1]
    ensures forall k :: j < k < |b| ==> b[k].date == b[j].date
  {
    forall k | j < k < |b| ensures b[k].date == b[j].date {
      assert b[k] in multiset(a);
      var m :| 0 <= m < |a| && a[m] == b[k];
    }
  }

  /** The accrual over a date-sorted list depends only on which transactions
      it holds: sorted lists differ only in the order of same-day entries. */
  lemma {:induction false} AccrueIgnoresSameDayOrder(start: Accrual, a: seq<Transaction>, b: seq<Transaction>, rate: real)
    requires SortedByDate(a) && SortedByDate(b) && multiset(a) == multiset(b)
    ensures AccrueFrom(start, a, rate) == AccrueFrom(start, b, rate)
    decreases |a|
  {
    if a == [] {
      assert |b| == |multiset(b)| == 0;
    } else {
      var x, a' := a[|a| - 1], a[..|a| - 1];
      assert x in multiset(b);
      var j :| 0 <= j < |b| && b[j] == x;
      SameDayTail(a, b, j);
      ApplyLast(start, b, j, rate);
      SortedRemove(b, j);
      PrefixSorted(a, |a| - 1);
      MultisetInit(a);
      AccrueIgnoresSameDayOrder(start, a', b[..j] + b[j + 1..], rate);
    }
  }
}
