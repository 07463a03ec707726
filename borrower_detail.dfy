/** The borrower view of components/BorrowerDetail.tsx: the optional date
    window over a borrower's transactions, the summary totals over the
    window, and the running-balance column of the transaction table.
    Dates are day numbers, so the view's comparisons of ISO date strings are
    comparisons of integers. */
module BorrowerDetail {
  import opened Types
  import opened Balance
  import opened Sorting
  import opened Calculations
  import opened Compounding

  /** Whether day d lies in the window; an unset bound does not restrict,
      both bounds are inclusive. */
  predicate InWindow(d: int, start: Option<int>, end: Option<int>)
  {
    (start.None? || start.value <= d) && (end.None? || d <= end.value)
  }

  /** The transactions inside the window, in their original order. */
  function Window(ts: seq<Transaction>, start: Option<int>, end: Option<int>): (r: seq<Transaction>)
    ensures |r| <= |ts|
  {
    if ts == [] then []
    else (if InWindow(ts[0].date, start, end) then [ts[0]] else []) + Window(ts[1..], start, end)
  }

  /** The view's date filter: the list itself when neither bound is set,
      otherwise the transactions inside the window. */
  function FilterByDate(ts: seq<Transaction>, start: Option<int>, end: Option<int>): seq<Transaction>
  {
    if start.None? && end.None? then ts else Window(ts, start, end)
  }

  /** The filter keeps exactly the transactions inside the window, in their
      original order, and keeps everything when no bound is set. */
  lemma FilterByDateKeeps(ts: seq<Transaction>, start: Option<int>, end: Option<int>)
    ensures forall t :: t in FilterByDate(ts, start, end) <==> t in ts && InWindow(t.date, start, end)
    ensures FilterByDate(ts, start, end) == Window(ts, start, end)
    ensures start.None? && end.None? ==> FilterByDate(ts, start, end) == ts
  {
    WindowMembers(ts, start, end);
    OpenWindowKeepsAll(ts);
  }

  lemma {:induction false} WindowMembers(ts: seq<Transaction>, start: Option<int>, end: Option<int>)
    ensures forall t :: t in Window(ts, start, end) <==> t in ts && InWindow(t.date, start, end)
    decreases |ts|
  {
    if ts != [] {
      WindowMembers(ts[1..], start, end);
      assert ts == [ts[0]] + ts[1..];
    }
  }

  /** The window keeps order: filtering a concatenation filters each part. */
  lemma {:induction false} WindowAppend(a: seq<Transaction>, b: seq<Transaction>, start: Option<int>, end: Option<int>)
    ensures Window(a + b, start, end) == Window(a, start, end) + Window(b, start, end)
    decreases |a|
  {
    if a != [] {
      ConsTail(a, b);
      WindowAppend(a[1..], b, start, end);
      Assoc(if InWindow(a[0].date, start, end) then [a[0]] else [], Window(a[1..], start, end), Window(b, start, end));
    } else {
      ConcatEmpty(b);
      ConcatEmpty(Window(b, start, end));
    }
  }

  /** The shortcut for an unset window agrees with the filter itself. */
  lemma {:induction false} OpenWindowKeepsAll(ts: seq<Transaction>)
    ensures Window(ts, None, None) == ts
    decreases |ts|
  {
    if ts != [] {
      OpenWindowKeepsAll(ts[1..]);
      assert ts == [ts[0]] + ts[1..];
    }
  }

  /** The summary over the window: per-type totals, the balance and the
      three interest calculations as of asOf (the derived daily rate is not
      part of this model). */
  function CalculateSummary(b: Borrower, start: Option<int>, end: Option<int>, asOf: int): (s: BorrowerSummary)
    ensures s.currentBalance == s.totalTaken - s.totalReturned
    ensures start.None? && end.None? ==> s.currentBalance == RunningBalance(b.transactions)
  {
    var filtered := FilterByDate(b.transactions, start, end);
    RunningBalanceIsTakenMinusReturned(filtered);
    BorrowerSummary(
      SumAmounts(OfType(filtered, Taken)),
      SumAmounts(OfType(filtered, Returned)),
      RunningBalance(filtered),
      InterestCalculations(
        SimpleInterest(b.interestRate, filtered, asOf),
        SimpleInterestWithRepayment(b.interestRate, filtered, asOf),
        CompoundInterest(b.interestRate, filtered, asOf)))
  }

  /** Each transaction of the table with the balance after it. */
  datatype BalancedTransaction = BalancedTransaction(tx: Transaction, runningBalance: real)

  /** The balance the table starts from: nothing without a start date,
      otherwise the net of every transaction dated before the start. */
  function Seed(ts: seq<Transaction>, start: Option<int>): real
  {
    if start.None? then 0.0 else RunningBalance(OnOrBefore(ts, start.value - 1))
  }

  /** r lists txs in order, each with seed plus the net up to and including it. */
  ghost predicate Annotates(r: seq<BalancedTransaction>, seed: real, txs: seq<Transaction>)
  {
    && |r| == |txs|
    && forall i :: 0 <= i < |r| ==> r[i].tx == txs[i] && r[i].runningBalance == seed + RunningBalance(txs[..i + 1])
  }

  /** The table rows: the transactions sorted by date and filtered to the
      window, each with its running balance, seeded by the transactions
      before the start date. */
  method TransactionsWithBalance(transactions: seq<Transaction>, startDate: Option<int>, endDate: Option<int>)
    returns (r: seq<BalancedTransaction>)
    ensures Annotates(r, Seed(transactions, startDate), FilterByDate(SortByDate(transactions), startDate, endDate))
  {
    var all := SortByDate(transactions);
    SortByDateSorts(transactions);
    var initialBalance := SeedOf(all, startDate);
    KeptInAnyOrder(all, transactions, if startDate.None? then 0 else startDate.value - 1);
    var filtered := FilterByDate(all, startDate, endDate);
    r := Annotate(filtered, initialBalance);
  }

  /** The seeding loop: adds up the sorted transactions until the first one
      dated on or after the start. */
  method SeedOf(all: seq<Transaction>, startDate: Option<int>) returns (initialBalance: real)
    requires SortedByDate(all)
    ensures initialBalance == if startDate.None? then 0.0 else RunningBalance(OnOrBefore(all, startDate.value - 1))
  {
    initialBalance := 0.0;
    if startDate.Some? {
      var start := startDate.value;
      var i := 0;
      while i < |all|
        invariant 0 <= i <= |all|
        invariant 0 < i ==> all[i - 1].date < start
        invariant initialBalance == RunningBalance(all[..i])
      {
        var t := all[i];
        if t.date < start {
          ExtendByOne(all, i);
          if t.kind == Taken {
            initialBalance := initialBalance + t.amount;
          } else {
            initialBalance := initialBalance - t.amount;
          }
        } else {
          break;
        }
        i := i + 1;
      }
      SortedPrefixIsOnOrBefore(all, i, start - 1);
    }
  }

  /** The annotating map: each row's balance is the previous row's moved by
      the row's signed amount. */
  method Annotate(filtered: seq<Transaction>, initialBalance: real) returns (r: seq<BalancedTransaction>)
    ensures Annotates(r, initialBalance, filtered)
  {
    r := [];
    var runningBalance := initialBalance;
    var k := 0;
    while k < |filtered|
      invariant 0 <= k <= |filtered|
      invariant |r| == k
      invariant runningBalance == initialBalance + RunningBalance(filtered[..k])
      invariant forall i :: 0 <= i < k ==>
        r[i].tx == filtered[i] && r[i].runningBalance == initialBalance + RunningBalance(filtered[..i + 1])
    {
      var transaction := filtered[k];
      ExtendByOne(filtered, k);
      if transaction.kind == Taken {
        runningBalance := runningBalance + transaction.amount;
      } else {
        runningBalance := runningBalance - transaction.amount;
      }
      r := r + [BalancedTransaction(transaction, runningBalance)];
      k := k + 1;
    }
  }

  // ---- What the table shows ----

  /** The first row moves the seed by its own amount, and each later row
      moves the row before it by its own amount. */
  lemma AnnotationSteps(r: seq<BalancedTransaction>, seed: real, txs: seq<Transaction>)
    requires Annotates(r, seed, txs)
    ensures |r| > 0 ==> r[0].runningBalance == seed + Signed(r[0].tx)
    ensures forall i :: 0 < i < |r| ==> r[i].runningBalance == r[i - 1].runningBalance + Signed(r[i].tx)
  {
    if |r| > 0 {
      ExtendByOne(txs, 0);
      assert txs[..0] == [];
    }
    forall i | 0 < i < |r|
      ensures r[i].runningBalance == r[i - 1].runningBalance + Signed(r[i].tx)
    {
      ExtendByOne(txs, i);
    }
  }

  /** Splitting at a start day: the net before it plus the net from it on is
      the whole net. */
  lemma {:induction false} SplitAtStart(ts: seq<Transaction>, start: int)
    ensures RunningBalance(OnOrBefore(ts, start - 1)) + RunningBalance(Window(ts, Some(start), None)) == RunningBalance(ts)
    decreases |ts|
  {
    if ts != [] {
      var h := [ts[0]];
      SplitAtStart(ts[1..], start);
      assert ts == h + ts[1..];
      RunningBalanceAppend(h, ts[1..]);
      RunningBalanceAppend(if ts[0].date <= start - 1 then h else [], OnOrBefore(ts[1..], start - 1));
      RunningBalanceAppend(if InWindow(ts[0].date, Some(start), None) then h else [], Window(ts[1..], Some(start), None));
      SingleBalance(ts[0]);
    }
  }

  /** The last row shows the seed moved by the net of every row. */
  lemma AnnotationLast(r: seq<BalancedTransaction>, seed: real, txs: seq<Transaction>)
    requires Annotates(r, seed, txs) && r != []
    ensures r[|r| - 1].runningBalance == seed + RunningBalance(txs)
  {
    assert txs[..|r|] == txs;
  }

  /** Without an end date, the seed and the rows together cover every
      transaction, whatever the start date. */
  lemma SeedAndRowsCoverAll(ts: seq<Transaction>, start: Option<int>)
    ensures Seed(ts, start) + RunningBalance(FilterByDate(SortByDate(ts), start, None)) == RunningBalance(ts)
  {
    SortByDateSorts(ts);
    SeedSplit(SortByDate(ts), ts, start);
  }

  lemma SeedSplit(all: seq<Transaction>, ts: seq<Transaction>, start: Option<int>)
    requires multiset(all) == multiset(ts)
    ensures Seed(ts, start) + RunningBalance(FilterByDate(all, start, None)) == RunningBalance(ts)
  {
    RunningBalancePerm(all, ts);
    if start.Some? {
      var x := start.value;
      KeptInAnyOrder(all, ts, x - 1);
      SplitAtStart(all, x);
      SeedSplitAt(all, ts, x);
      assert start == Some(x);
    }
  }

  lemma SeedSplitAt(all: seq<Transaction>, ts: seq<Transaction>, x: int)
    requires RunningBalance(OnOrBefore(all, x - 1)) == RunningBalance(OnOrBefore(ts, x - 1))
    requires RunningBalance(all) == RunningBalance(ts)
    requires RunningBalance(OnOrBefore(all, x - 1)) + RunningBalance(Window(all, Some(x), None)) == RunningBalance(all)
    ensures Seed(ts, Some(x)) + RunningBalance(FilterByDate(all, Some(x), None)) == RunningBalance(ts)
  {
    var before, rows := RunningBalance(OnOrBefore(ts, x - 1)), RunningBalance(Window(all, Some(x), None));
    assert Seed(ts, Some(x)) == before;
    assert FilterByDate(all, Some(x), None) == Window(all, Some(x), None);
  }

  /** Without an end date the last row shows the borrower's whole balance,
      whatever the start date. */
  lemma LastRowIsBalance(ts: seq<Transaction>, start: Option<int>, r: seq<BalancedTransaction>)
    requires Annotates(r, Seed(ts, start), FilterByDate(SortByDate(ts), start, None))
    requires r != []
    ensures r[|r| - 1].runningBalance == RunningBalance(ts)
  {
    AnnotationLast(r, Seed(ts, start), FilterByDate(SortByDate(ts), start, None));
    SeedAndRowsCoverAll(ts, start);
  }

  /** Rows are exactly the window's transactions in date order. */
  lemma RowsAreWindow(ts: seq<Transaction>, start: Option<int>, end: Option<int>, r: seq<BalancedTransaction>)
    requires Annotates(r, Seed(ts, start), FilterByDate(SortByDate(ts), start, end))
    ensures forall i, j :: 0 <= i < j < |r| ==> r[i].tx.date <= r[j].tx.date
    ensures forall i :: 0 <= i < |r| ==> r[i].tx in ts && InWindow(r[i].tx.date, start, end)
  {
    var all := SortByDate(ts);
    SortByDateSorts(ts);
    var filtered := FilterByDate(all, start, end);
    FilterByDateKeeps(all, start, end);
    WindowSorted(all, start, end);
    forall i | 0 <= i < |r| ensures r[i].tx in ts {
      assert filtered[i] in all;
      assert filtered[i] in multiset(ts);
    }
  }

  lemma {:induction false} WindowSorted(s: seq<Transaction>, start: Option<int>, end: Option<int>)
    requires SortedByDate(s)
    ensures SortedByDate(Window(s, start, end))
    decreases |s|
  {
    if s != [] {
      WindowSorted(s[1..], start, end);
      WindowMembers(s[1..], start, end);
      var rest := Window(s[1..], start, end);
      if InWindow(s[0].date, start, end) {
        forall u | u in rest ensures s[0].date <= u.date {
          var j :| 1 <= j < |s| && s[j] == u;
        }
        ConsSorted(s[0], rest);
      } else {
        ConcatEmpty(rest);
      }
    }
  }
}
