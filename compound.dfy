/** Weekly compounding of lib/calculations.ts (calculateCompoundInterest):
    Monday-based weeks from the week of the first transaction to the week of
    the as-of date; each week applies the transactions dated in it (and on or
    before the as-of date), then adds a week of interest on the balance. */
module Compounding {
  import opened Types
  import opened Dates
  import opened Balance
  import opened Sorting
  import opened Calculations

  /** The transactions dated in the week starting ws and on or before asOf,
      in their original order. */
  function InWeek(ts: seq<Transaction>, ws: int, asOf: int): (r: seq<Transaction>)
    ensures |r| <= |ts|
  {
    if ts == [] then []
    else (if ws <= ts[0].date <= ws + 6 && ts[0].date <= asOf then [ts[0]] else []) + InWeek(ts[1..], ws, asOf)
  }

  /** What the week starting ws adds to the balance before its interest. */
  function WeekNet(ts: seq<Transaction>, ws: int, asOf: int): real
  {
    RunningBalance(InWeek(ts, ws, asOf))
  }

  /** The weekly interest on a balance at a weekly percentage rate. */
  function WeekInterest(balance: real, rate: real): real
  {
    balance * (rate / 100.0)
  }

  /** The weekly interest rule at a given rate. */
  function Charge(rate: real): real -> real
  {
    p => WeekInterest(p, rate)
  }

  /** The first n records of a weekly sweep over the weeks starting on fws,
      fws + 7, ..., under any rule charge for a week's interest: each week
      starts from the previous week's balance (0 for the first), adds the
      week's transactions and then the week's interest. */
  function Weeks(net: int -> real, fws: int, n: nat, charge: real -> real): (r: seq<WeekBreakdown>)
    ensures |r| == n
  {
    if n == 0 then []
    else
      var prev := Weeks(net, fws, n - 1, charge);
      var before := if n == 1 then 0.0 else prev[n - 2].balance;
      var ws := fws + 7 * (n - 1);
      var p := before + net(ws);
      prev + [WeekBreakdown(n, ws, ws + 6, p, charge(p), p + charge(p))]
  }

  /** Reference: the first n records of the compound breakdown. */
  function CompoundWeeks(ts: seq<Transaction>, rate: real, asOf: int, fws: int, n: nat): (r: seq<WeekBreakdown>)
    ensures |r| == n
  {
    Weeks(Nets(ts, asOf), fws, n, Charge(rate))
  }

  /** The net of every week of a ledger as of a date, by the week's Monday. */
  function Nets(ts: seq<Transaction>, asOf: int): int -> real
  {
    ws => WeekNet(ts, ws, asOf)
  }

  /** The number of weeks the sweep visits: from the Monday of the first
      transaction to the Monday of asOf, inclusive (none when asOf's week
      comes first). */
  function WeekCount(fws: int, asOf: int): nat
  {
    var w := WeeksBetween(MondayOf(asOf), fws) + 1;
    if w > 0 then w else 0
  }

  /** Reference result: the breakdown, its last balance as the amount due,
      the net dated on or before asOf (clamped at zero) as the principal, and
      the difference as the interest. */
  function CompoundInterest(rate: real, ts: seq<Transaction>, asOf: int): InterestCalculation
  {
    if ts == [] then InterestCalculation(Compound, 0.0, 0.0, 0.0, Some([]))
    else
      var fws := MondayOf(EarliestDate(ts));
      var bd := CompoundWeeks(ts, rate, asOf, fws, WeekCount(fws, asOf));
      var principal := Max0(RunningBalance(OnOrBefore(ts, asOf)));
      var final := if |bd| > 0 then bd[|bd| - 1].balance else 0.0;
      InterestCalculation(Compound, final - principal, principal, final, Some(bd))
  }

  /** The last day whose transactions are applied by the end of week k
      (k = -1 is the day before the first week). */
  function Cutoff(fws: int, k: int, asOf: int): int
  {
    if fws + 7 * k + 6 <= asOf then fws + 7 * k + 6 else asOf
  }

  method CalculateCompoundInterest(borrower: Borrower, transactions: seq<Transaction>, asOfDate: int)
    returns (r: InterestCalculation)
    ensures r == CompoundInterest(borrower.interestRate, transactions, asOfDate)
  {
    var sorted := SortedCopy(transactions);
    if |sorted| == 0 {
      return InterestCalculation(Compound, 0.0, 0.0, 0.0, Some([]));
    }
    SortedHeadIsEarliest(sorted, transactions);
    var rate := borrower.interestRate;
    var firstDate := sorted[0].date;
    var firstWeekStart := MondayOf(firstDate);
    var asOfWeekStart := MondayOf(asOfDate);
    var totalWeeks := WeeksBetween(asOfWeekStart, firstWeekStart) + 1;
    SweepBounds(firstWeekStart, asOfDate);

    var breakdown := Sweep(transactions, sorted, rate, asOfDate, firstWeekStart, totalWeeks);
    var principal := RunningBalance(OnOrBefore(sorted, asOfDate));
    KeptInAnyOrder(sorted, transactions, asOfDate);
    var finalBalance := if |breakdown| > 0 then breakdown[|breakdown| - 1].balance else 0.0;
    var totalInterest := finalBalance - Max0(principal);
    CompoundFromParts(rate, transactions, asOfDate, breakdown, principal);
    r := InterestCalculation(Compound, totalInterest, Max0(principal), finalBalance, Some(breakdown));
  }

  /** The sweep's outer loop: weeks 1 to totalWeeks, each applying the
      transactions of its week in date order and then its interest. */
  method Sweep(ts: seq<Transaction>, sorted: seq<Transaction>, rate: real, asOf: int, fws: int, totalWeeks: int)
    returns (breakdown: seq<WeekBreakdown>)
    requires SortedByDate(sorted) && multiset(sorted) == multiset(ts)
    requires |sorted| > 0 ==> sorted[0].date >= fws
    requires totalWeeks > 0 ==> fws + 7 * (totalWeeks - 1) <= asOf
    ensures breakdown == CompoundWeeks(ts, rate, asOf, fws, if totalWeeks > 0 then totalWeeks else 0)
  {
    breakdown := [];
    var balance := 0.0;
    var transactionIndex := 0;
    var week := 0;
    while week < totalWeeks
      invariant 0 <= week && (week <= totalWeeks || week == 0)
      invariant 0 <= transactionIndex <= |sorted|
      invariant 0 < transactionIndex ==> sorted[transactionIndex - 1].date <= Cutoff(fws, week - 1, asOf)
      invariant transactionIndex < |sorted| ==> sorted[transactionIndex].date > Cutoff(fws, week - 1, asOf)
      invariant breakdown == CompoundWeeks(ts, rate, asOf, fws, week)
      invariant balance == if week == 0 then 0.0 else breakdown[week - 1].balance
    {
      transactionIndex, balance, breakdown :=
        SweepWeek(ts, sorted, rate, asOf, fws, week, transactionIndex, balance, breakdown);
      week := week + 1;
    }
  }

  /** The last week the sweep visits starts on or before asOf. */
  lemma SweepBounds(fws: int, asOf: int)
    requires Weekday(fws) == 0
    ensures var n := WeeksBetween(MondayOf(asOf), fws) + 1;
      n > 0 ==> fws + 7 * (n - 1) <= asOf
  {
    WeeksBetweenMondays(MondayOf(asOf), fws);
  }

  /** One pass of the sweep's outer loop: week number week + 1, starting on
      fws + 7 * week, applies its transactions and then its interest, and
      appends its record. */
  method SweepWeek(ts: seq<Transaction>, sorted: seq<Transaction>, rate: real, asOf: int, fws: int, week: nat,
                   i: nat, balance: real, breakdown: seq<WeekBreakdown>)
    returns (j: nat, newBalance: real, next: seq<WeekBreakdown>)
    requires SortedByDate(sorted) && multiset(sorted) == multiset(ts)
    requires fws + 7 * week <= asOf
    requires i <= |sorted|
    requires 0 < i ==> sorted[i - 1].date <= Cutoff(fws, week - 1, asOf)
    requires i < |sorted| ==> sorted[i].date > Cutoff(fws, week - 1, asOf)
    requires breakdown == CompoundWeeks(ts, rate, asOf, fws, week)
    requires balance == if week == 0 then 0.0 else breakdown[week - 1].balance
    ensures j <= |sorted|
    ensures 0 < j ==> sorted[j - 1].date <= Cutoff(fws, week, asOf)
    ensures j < |sorted| ==> sorted[j].date > Cutoff(fws, week, asOf)
    ensures next == CompoundWeeks(ts, rate, asOf, fws, week + 1)
    ensures newBalance == next[week].balance
  {
    var weekStart := fws + 7 * week;
    var weekEnd := weekStart + 6;
    j, newBalance := ApplyWeek(sorted, i, balance, weekEnd, asOf);
    WeekApplied(ts, sorted, i, j, fws, week, asOf);

    // The source tests weekStart <= asOf here; it always holds.
    assert weekStart <= asOf;
    var weeklyInterestRate := rate / 100.0;
    var interest := newBalance * weeklyInterestRate;
    ghost var p := newBalance;
    newBalance := newBalance + interest;
    NextWeek(ts, rate, asOf, fws, week, breakdown, balance, p, interest, weekStart, weekEnd, newBalance);
    next := breakdown + [WeekBreakdown(week + 1, weekStart, weekEnd, newBalance - interest, interest, newBalance)];
  }

  /** The inner loop of the sweep: apply, in order, the transactions from
      index i on that are dated on or before both weekEnd and asOf. */
  method ApplyWeek(sorted: seq<Transaction>, i: nat, balance: real, weekEnd: int, asOf: int)
    returns (j: nat, newBalance: real)
    requires i <= |sorted|
    ensures i <= j <= |sorted|
    ensures i < j ==> sorted[j - 1].date <= weekEnd && sorted[j - 1].date <= asOf
    ensures j < |sorted| ==> sorted[j].date > weekEnd || sorted[j].date > asOf
    ensures newBalance == balance + (RunningBalance(sorted[..j]) - RunningBalance(sorted[..i]))
  {
    j, newBalance := i, balance;
    while j < |sorted| && sorted[j].date <= weekEnd && sorted[j].date <= asOf
      invariant i <= j <= |sorted|
      invariant i < j ==> sorted[j - 1].date <= weekEnd && sorted[j - 1].date <= asOf
      invariant newBalance == balance + (RunningBalance(sorted[..j]) - RunningBalance(sorted[..i]))
    {
      var transaction := sorted[j];
      ExtendByOne(sorted, j);
      if transaction.kind == Taken {
        newBalance := newBalance + transaction.amount;
      } else {
        newBalance := newBalance - transaction.amount;
      }
      j := j + 1;
    }
  }

  /** The transactions the inner loop applied in week k are that week's. */
  lemma WeekApplied(ts: seq<Transaction>, sorted: seq<Transaction>, lo: nat, hi: nat, fws: int, k: int, asOf: int)
    requires SortedByDate(sorted) && multiset(sorted) == multiset(ts)
    requires lo <= hi <= |sorted|
    requires 0 < lo ==> sorted[lo - 1].date <= Cutoff(fws, k - 1, asOf)
    requires lo < |sorted| ==> sorted[lo].date > Cutoff(fws, k - 1, asOf)
    requires lo < hi ==> sorted[hi - 1].date <= Cutoff(fws, k, asOf)
    requires hi < |sorted| ==> sorted[hi].date > Cutoff(fws, k, asOf)
    ensures 0 < hi ==> sorted[hi - 1].date <= Cutoff(fws, k, asOf)
    ensures RunningBalance(sorted[..hi]) - RunningBalance(sorted[..lo]) == WeekNet(ts, fws + 7 * k, asOf)
  {
    var c0, c1 := Cutoff(fws, k - 1, asOf), Cutoff(fws, k, asOf);
    if lo == hi && 0 < hi {
      assert sorted[hi - 1].date <= c0;
    }
    SortedPrefixIsOnOrBefore(sorted, lo, c0);
    SortedPrefixIsOnOrBefore(sorted, hi, c1);
    KeptInAnyOrder(sorted, ts, c0);
    KeptInAnyOrder(sorted, ts, c1);
    CutoffWindow(ts, fws, k, asOf);
  }

  /** Between one week's cutoff and the next lie exactly the transactions
      dated in the week and on or before asOf. */
  lemma {:induction false} CutoffWindow(ts: seq<Transaction>, fws: int, k: int, asOf: int)
    ensures RunningBalance(OnOrBefore(ts, Cutoff(fws, k, asOf)))
         == RunningBalance(OnOrBefore(ts, Cutoff(fws, k - 1, asOf))) + WeekNet(ts, fws + 7 * k, asOf)
    decreases |ts|
  {
    if ts != [] {
      var t, ws := ts[0], fws + 7 * k;
      var hi, lo := Cutoff(fws, k, asOf), Cutoff(fws, k - 1, asOf);
      CutoffWindow(ts[1..], fws, k, asOf);
      RunningBalanceCons(if t.date <= hi then [t] else [], OnOrBefore(ts[1..], hi));
      RunningBalanceCons(if t.date <= lo then [t] else [], OnOrBefore(ts[1..], lo));
      RunningBalanceCons(if ws <= t.date <= ws + 6 && t.date <= asOf then [t] else [], InWeek(ts[1..], ws, asOf));
      SingleBalance(t);
    }
  }

  lemma RunningBalanceCons(h: seq<Transaction>, s: seq<Transaction>)
    ensures RunningBalance(h + s) == RunningBalance(h) + RunningBalance(s)
  {
    RunningBalanceAppend(h, s);
  }

  lemma SingleBalance(t: Transaction)
    ensures RunningBalance([t]) == Signed(t) && RunningBalance([]) == 0.0
  {
    SingleTail(t);
  }

  /** The sweep's record for the week after bd is the reference's. */
  lemma NextWeek(ts: seq<Transaction>, rate: real, asOf: int, fws: int, week: nat, bd: seq<WeekBreakdown>,
                 before: real, p: real, interest: real, ws: int, we: int, nb: real)
    requires bd == CompoundWeeks(ts, rate, asOf, fws, week)
    requires before == if week == 0 then 0.0 else bd[week - 1].balance
    requires p == before + WeekNet(ts, fws + 7 * week, asOf)
    requires interest == p * (rate / 100.0) && nb == p + interest
    requires ws == fws + 7 * week && we == ws + 6
    ensures var next := bd + [WeekBreakdown(week + 1, ws, we, nb - interest, interest, nb)];
      next == CompoundWeeks(ts, rate, asOf, fws, week + 1) && next[week].balance == nb
  {
    assert nb - interest == p;
    assert interest == Charge(rate)(p);
  }

  lemma CompoundFromParts(rate: real, ts: seq<Transaction>, asOf: int, bd: seq<WeekBreakdown>, principal: real)
    requires ts != []
    requires bd == CompoundWeeks(ts, rate, asOf, MondayOf(EarliestDate(ts)), WeekCount(MondayOf(EarliestDate(ts)), asOf))
    requires principal == RunningBalance(OnOrBefore(ts, asOf))
    ensures var final := if |bd| > 0 then bd[|bd| - 1].balance else 0.0;
      InterestCalculation(Compound, final - Max0(principal), Max0(principal), final, Some(bd))
      == CompoundInterest(rate, ts, asOf)
  {
  }

  // ---- What the compound calculator computes ----

  /** Record k does not depend on the weeks after it. */
  lemma {:induction false} WeeksStable(net: int -> real, fws: int, charge: real -> real, k: nat, n: nat)
    requires k < n
    ensures Weeks(net, fws, n, charge)[k] == Weeks(net, fws, k + 1, charge)[k]
    decreases n
  {
    if k + 1 < n {
      WeeksStable(net, fws, charge, k, n - 1);
      var bd, prev := Weeks(net, fws, n, charge), Weeks(net, fws, n - 1, charge);
      assert bd[..n - 1] == prev;
    }
  }

  /** Record k's dates and principal: the previous record's balance (0 for
      the first week) plus the week's net. */
  lemma WeeksPrincipalAt(net: int -> real, fws: int, charge: real -> real, k: nat, n: nat)
    requires k < n
    ensures var bd := Weeks(net, fws, n, charge);
      var w := bd[k];
      && w.week == k + 1 && w.startDate == fws + 7 * k && w.endDate == fws + 7 * k + 6
      && w.principal == (if k == 0 then 0.0 else bd[k - 1].balance) + net(fws + 7 * k)
  {
    WeeksStable(net, fws, charge, k, n);
    if k > 0 {
      WeeksStable(net, fws, charge, k - 1, n);
      WeeksStable(net, fws, charge, k - 1, k);
    }
  }

  /** Record k's interest and balance, from its principal. */
  lemma WeeksChargeAt(net: int -> real, fws: int, charge: real -> real, k: nat, n: nat)
    requires k < n
    ensures var w := Weeks(net, fws, n, charge)[k];
      w.interest == charge(w.principal) && w.balance == w.principal + w.interest
  {
    WeeksStable(net, fws, charge, k, n);
  }

  /** The dates of record k: numbered k + 1, a week starting fws + 7k (a
      Monday when fws is one) and ending six days later. */
  lemma CompoundDates(ts: seq<Transaction>, rate: real, asOf: int, fws: int, k: nat, n: nat)
    requires k < n
    ensures var w := CompoundWeeks(ts, rate, asOf, fws, n)[k];
      && w.week == k + 1
      && w.startDate == fws + 7 * k
      && w.endDate == w.startDate + 6
      && (Weekday(fws) == 0 ==> Weekday(w.startDate) == 0)
  {
    WeeksPrincipalAt(Nets(ts, asOf), fws, Charge(rate), k, n);
    SameWeekday(fws, k);
  }

  /** The chaining of the records: each principal is the previous record's
      balance (0 for the first week) plus the net of the transactions dated
      in its week and on or before asOf; each interest is principal * rate /
      100 and each balance principal + interest. */
  lemma CompoundChain(ts: seq<Transaction>, rate: real, asOf: int, fws: int, k: nat, n: nat)
    requires k < n
    ensures var bd := CompoundWeeks(ts, rate, asOf, fws, n);
      && bd[k].principal == (if k == 0 then 0.0 else bd[k - 1].balance) + WeekNet(ts, bd[k].startDate, asOf)
      && bd[k].interest == bd[k].principal * (rate / 100.0)
      && bd[k].balance == bd[k].principal + bd[k].interest
  {
    var bd := CompoundWeeks(ts, rate, asOf, fws, n);
    assert bd == Weeks(Nets(ts, asOf), fws, n, Charge(rate));
    WeeksPrincipalAt(Nets(ts, asOf), fws, Charge(rate), k, n);
    WeeksChargeAt(Nets(ts, asOf), fws, Charge(rate), k, n);
    var w, before := bd[k], if k == 0 then 0.0 else bd[k - 1].balance;
    assert w.startDate == fws + 7 * k;
    assert w.principal == before + WeekNet(ts, w.startDate, asOf);
    ChargeIs(rate, w.principal);
  }

  lemma ChargeIs(rate: real, p: real)
    ensures Charge(rate)(p) == p * (rate / 100.0)
  {
  }

  lemma SameWeekday(d: int, k: nat)
    ensures Weekday(d + 7 * k) == Weekday(d)
  {
    assert (d + 7 * k + 3) % 7 == (d + 3) % 7 by {
      assert d + 7 * k + 3 == (d + 3) + 7 * k;
    }
  }

  /** The transactions counted in a week are the ledger's, dated in that week
      and on or before asOf: nothing later than asOf is ever applied. */
  lemma {:induction false} InWeekSub(ts: seq<Transaction>, ws: int, asOf: int)
    ensures forall t :: t in InWeek(ts, ws, asOf) ==> t in ts && ws <= t.date <= ws + 6 && t.date <= asOf
    decreases |ts|
  {
    if ts != [] {
      InWeekSub(ts[1..], ws, asOf);
      forall t | t in InWeek(ts, ws, asOf) ensures t in ts && ws <= t.date <= ws + 6 && t.date <= asOf {
        if t != ts[0] {
          assert t in InWeek(ts[1..], ws, asOf);
          assert t in ts[1..];
        }
      }
    }
  }

  /** When the first transaction's week starts on or before asOf, the
      breakdown runs from that Monday to the Monday of asOf: asOf lies in the
      last week. */
  lemma CompoundSpansToAsOf(rate: real, ts: seq<Transaction>, asOf: int)
    requires ts != [] && MondayOf(EarliestDate(ts)) <= asOf
    ensures var bd := CompoundInterest(rate, ts, asOf).breakdown;
      && bd.Some? && |bd.value| > 0
      && bd.value[0].startDate == MondayOf(EarliestDate(ts))
      && bd.value[|bd.value| - 1].startDate == MondayOf(asOf)
      && bd.value[|bd.value| - 1].startDate <= asOf <= bd.value[|bd.value| - 1].endDate
  {
    var fws := MondayOf(EarliestDate(ts));
    var n := WeekCount(fws, asOf);
    WeeksBetweenMondays(MondayOf(asOf), fws);
    CompoundDates(ts, rate, asOf, fws, 0, n);
    CompoundDates(ts, rate, asOf, fws, n - 1, n);
  }

  /** A week's net, read off two consecutive cutoffs. */
  lemma WeekNetByCutoffs(ts: seq<Transaction>, ws: int, asOf: int)
    ensures WeekNet(ts, ws, asOf)
         == RunningBalance(OnOrBefore(ts, Cutoff(ws, 0, asOf))) - RunningBalance(OnOrBefore(ts, Cutoff(ws, -1, asOf)))
  {
    CutoffWindow(ts, ws, 0, asOf);
  }

  lemma WeekNetPerm(a: seq<Transaction>, b: seq<Transaction>, ws: int, asOf: int)
    requires multiset(a) == multiset(b)
    ensures WeekNet(a, ws, asOf) == WeekNet(b, ws, asOf)
  {
    WeekNetByCutoffs(a, ws, asOf);
    WeekNetByCutoffs(b, ws, asOf);
    KeptInAnyOrder(a, b, Cutoff(ws, 0, asOf));
    KeptInAnyOrder(a, b, Cutoff(ws, -1, asOf));
  }

  lemma WeekNetIgnoresLater(ts: seq<Transaction>, u: Transaction, ws: int, asOf: int)
    requires u.date > asOf
    ensures WeekNet(ts + [u], ws, asOf) == WeekNet(ts, ws, asOf)
  {
    WeekNetByCutoffs(ts, ws, asOf);
    WeekNetByCutoffs(ts + [u], ws, asOf);
    var c0, c1 := Cutoff(ws, 0, asOf), Cutoff(ws, -1, asOf);
    OnOrBeforeSnoc(ts, u, c0);
    OnOrBeforeSnoc(ts, u, c1);
    ConcatEmpty(OnOrBefore(ts, c0));
    ConcatEmpty(OnOrBefore(ts, c1));
  }

  /** Record k in full, from the balance of the record before it. */
  lemma WeeksRecordAt(net: int -> real, fws: int, charge: real -> real, k: nat, n: nat)
    requires k < n
    ensures var bd := Weeks(net, fws, n, charge);
      var p := (if k == 0 then 0.0 else bd[k - 1].balance) + net(fws + 7 * k);
      bd[k] == WeekBreakdown(k + 1, fws + 7 * k, fws + 7 * k + 6, p, charge(p), p + charge(p))
  {
    WeeksPrincipalAt(net, fws, charge, k, n);
    WeeksChargeAt(net, fws, charge, k, n);
  }

  /** Two rules for the week nets that agree on every week give the same sweep. */
  lemma {:induction false} WeeksSameNets(a: int -> real, b: int -> real, fws: int, charge: real -> real, n: nat)
    requires forall ws :: a(ws) == b(ws)
    ensures Weeks(a, fws, n, charge) == Weeks(b, fws, n, charge)
    decreases n
  {
    if n > 0 {
      WeeksSameNets(a, b, fws, charge, n - 1);
      var ws := fws + 7 * (n - 1);
      WeeksLast(a, fws, charge, n, ws);
      WeeksLast(b, fws, charge, n, ws);
      assert a(ws) == b(ws);
    }
  }

  /** The sweep of n weeks is the sweep of n - 1 weeks and one more record. */
  lemma {:induction false} WeeksLast(net: int -> real, fws: int, charge: real -> real, n: nat, ws: int)
    requires n > 0 && ws == fws + 7 * (n - 1)
    ensures var prev := Weeks(net, fws, n - 1, charge);
      var p := (if n == 1 then 0.0 else prev[n - 2].balance) + net(ws);
      Weeks(net, fws, n, charge) == prev + [WeekBreakdown(n, ws, ws + 6, p, charge(p), p + charge(p))]
  {
  }

  lemma WeeksPerm(a: seq<Transaction>, b: seq<Transaction>, asOf: int, fws: int, charge: real -> real, n: nat)
    requires multiset(a) == multiset(b)
    ensures Weeks(Nets(a, asOf), fws, n, charge) == Weeks(Nets(b, asOf), fws, n, charge)
  {
    forall ws ensures Nets(a, asOf)(ws) == Nets(b, asOf)(ws) {
      WeekNetPerm(a, b, ws, asOf);
    }
    WeeksSameNets(Nets(a, asOf), Nets(b, asOf), fws, charge, n);
  }

  lemma WeeksIgnoreLater(ts: seq<Transaction>, u: Transaction, asOf: int, fws: int, charge: real -> real, n: nat)
    requires u.date > asOf
    ensures Weeks(Nets(ts + [u], asOf), fws, n, charge) == Weeks(Nets(ts, asOf), fws, n, charge)
  {
    forall ws ensures Nets(ts + [u], asOf)(ws) == Nets(ts, asOf)(ws) {
      WeekNetIgnoresLater(ts, u, ws, asOf);
    }
    WeeksSameNets(Nets(ts + [u], asOf), Nets(ts, asOf), fws, charge, n);
  }

  /** Compound interest depends on the transactions, not on their order. */
  lemma CompoundIgnoresOrder(rate: real, a: seq<Transaction>, b: seq<Transaction>, asOf: int)
    requires multiset(a) == multiset(b)
    ensures CompoundInterest(rate, a, asOf) == CompoundInterest(rate, b, asOf)
  {
    if a == [] {
      assert |b| == |multiset(b)| == 0;
    } else {
      EarliestDatePerm(a, b);
      var fws := MondayOf(EarliestDate(a));
      var n := WeekCount(fws, asOf);
      WeeksPerm(a, b, asOf, fws, Charge(rate), n);
      KeptInAnyOrder(a, b, asOf);
      var bd, principal := CompoundWeeks(a, rate, asOf, fws, n), RunningBalance(OnOrBefore(a, asOf));
      CompoundFromParts(rate, a, asOf, bd, principal);
      CompoundFromParts(rate, b, asOf, bd, principal);
    }
  }

  /** A transaction dated after asOf changes nothing, once some transaction
      is dated on or before asOf. */
  lemma CompoundIgnoresLater(rate: real, ts: seq<Transaction>, u: Transaction, asOf: int)
    requires ts != [] && EarliestDate(ts) <= asOf < u.date
    ensures CompoundInterest(rate, ts + [u], asOf) == CompoundInterest(rate, ts, asOf)
  {
    LaterKeepsEarliest(ts, u, asOf);
    var fws := MondayOf(EarliestDate(ts));
    var n := WeekCount(fws, asOf);
    WeeksIgnoreLater(ts, u, asOf, fws, Charge(rate), n);
    OnOrBeforeSnoc(ts, u, asOf);
    ConcatEmpty(OnOrBefore(ts, asOf));
    var bd, principal := CompoundWeeks(ts, rate, asOf, fws, n), RunningBalance(OnOrBefore(ts, asOf));
    CompoundFromParts(rate, ts, asOf, bd, principal);
    CompoundFromParts(rate, ts + [u], asOf, bd, principal);
  }

  // ---- Zero rate and worked examples ----

  /** Without interest, a week's balance is the net of the transactions up to
      its cutoff (less those before the first week, if any). */
  lemma {:induction false} WeeksNoCharge(ts: seq<Transaction>, asOf: int, fws: int, charge: real -> real, k: nat, n: nat)
    requires k < n
    requires forall p :: charge(p) == 0.0
    ensures var w := Weeks(Nets(ts, asOf), fws, n, charge)[k];
      && w.interest == 0.0
      && w.balance == RunningBalance(OnOrBefore(ts, Cutoff(fws, k, asOf))) - RunningBalance(OnOrBefore(ts, Cutoff(fws, -1, asOf)))
    decreases k
  {
    if k > 0 {
      WeeksNoCharge(ts, asOf, fws, charge, k - 1, n);
    }
    WeeksRecordAt(Nets(ts, asOf), fws, charge, k, n);
    CutoffWindow(ts, fws, k, asOf);
  }

  /** At rate 0 the amount due is the net of the transactions on or before
      asOf and the interest is zero exactly when that net is not negative
      (a negative net shows up as negative interest, the principal being
      clamped at zero). */
  lemma CompoundZeroRate(ts: seq<Transaction>, asOf: int)
    ensures var r := CompoundInterest(0.0, ts, asOf);
      var net := RunningBalance(OnOrBefore(ts, asOf));
      && r.totalAmount == net
      && r.principal == Max0(net)
      && (r.totalInterest == 0.0 <==> net >= 0.0)
  {
    if ts != [] {
      var fws := MondayOf(EarliestDate(ts));
      var n := WeekCount(fws, asOf);
      var first := Cutoff(fws, -1, asOf);
      NoneOnOrBefore(ts, first);
      WeeksBetweenMondays(MondayOf(asOf), fws);
      if n > 0 {
        assert Cutoff(fws, n - 1, asOf) == asOf;
        forall p ensures Charge(0.0)(p) == 0.0 {
          assert WeekInterest(p, 0.0) == 0.0;
        }
        WeeksNoCharge(ts, asOf, fws, Charge(0.0), n - 1, n);
      } else {
        NoneOnOrBefore(ts, asOf);
      }
    }
  }

  /** A single transaction, on any weekday, charges a full week at once: as
      of that same day the breakdown holds its one week (from the Monday on
      or before it) and the interest is a week's worth. */
  lemma FirstWeekCharged(rate: real, t: Transaction)
    ensures var r := CompoundInterest(rate, [t], t.date);
      && r.breakdown.Some? && |r.breakdown.value| == 1
      && r.principal == Max0(Signed(t))
      && r.totalAmount == Signed(t) + Signed(t) * (rate / 100.0)
      && (Signed(t) >= 0.0 ==> r.totalInterest == Signed(t) * (rate / 100.0))
      && (Signed(t) < 0.0 ==> r.totalInterest == r.totalAmount)
  {
    var ts := [t];
    var monday := MondayOf(t.date);
    assert EarliestDate(ts) == t.date;
    WeeksBetweenMondays(monday, monday);
    assert WeekCount(monday, t.date) == 1;
    assert InWeek(ts, monday, t.date) == ts;
    SingleBalance(t);
    assert OnOrBefore(ts, t.date) == ts;
    CompoundChain(ts, rate, t.date, monday, 0, 1);
  }

  /** Rate 10 on 1000 taken on Monday 2024-01-01, as of 2024-01-15: three
      weeks at 1100, 1210 and 1331, so 331 of interest. */
  lemma CompoundThreeWeeksExample()
    ensures var r := CompoundInterest(10.0, [Transaction("t1", 19723, Taken, 1000.0)], 19737);
      && r.principal == 1000.0 && r.totalAmount == 1331.0 && r.totalInterest == 331.0
      && r.breakdown.Some? && |r.breakdown.value| == 3
      && r.breakdown.value[0].balance == 1100.0 && r.breakdown.value[1].balance == 1210.0
  {
    var t := Transaction("t1", 19723, Taken, 1000.0);
    var ts := [t];
    var fws := 19723;
    assert EarliestDate(ts) == fws && MondayOf(fws) == fws;
    assert WeekCount(fws, 19737) == 3;
    assert OnOrBefore(ts, 19737) == ts;
    SingleBalance(t);
    assert InWeek(ts, fws, 19737) == ts;
    assert InWeek(ts, fws + 7, 19737) == [];
    assert InWeek(ts, fws + 14, 19737) == [];
    var bd := CompoundWeeks(ts, 10.0, 19737, fws, 3);
    CompoundChain(ts, 10.0, 19737, fws, 0, 3);
    CompoundDates(ts, 10.0, 19737, fws, 0, 3);
    assert bd[0].principal == 1000.0;
    assert bd[0].balance == 1100.0;
    CompoundChain(ts, 10.0, 19737, fws, 1, 3);
    CompoundDates(ts, 10.0, 19737, fws, 1, 3);
    assert bd[1].principal == 1100.0;
    assert bd[1].balance == 1210.0;
    CompoundChain(ts, 10.0, 19737, fws, 2, 3);
    CompoundDates(ts, 10.0, 19737, fws, 2, 3);
    assert bd[2].principal == 1210.0;
    assert bd[2].balance == 1331.0;
    CompoundFromParts(10.0, ts, 19737, bd, 1000.0);
  }

  /** With no transactions every method reports zero principal, interest and
      amount, and the compound breakdown is empty. */
  lemma EmptyLedger(rate: real, asOf: int)
    ensures var s, w, c := SimpleInterest(rate, [], asOf), SimpleInterestWithRepayment(rate, [], asOf), CompoundInterest(rate, [], asOf);
      && s.principal == 0.0 && s.totalInterest == 0.0 && s.totalAmount == 0.0
      && w.principal == 0.0 && w.totalInterest == 0.0 && w.totalAmount == 0.0
      && c.principal == 0.0 && c.totalInterest == 0.0 && c.totalAmount == 0.0 && c.breakdown == Some([])
  {
    assert OnOrBefore([], asOf) == [];
  }
}
