/** The aggregates and the per-borrower row of components/Dashboard.tsx:
    the total outstanding over all borrowers, the borrowers with an active
    loan, and each row's amount, label and colour. */
module Dashboard {
  import opened Types
  import opened Balance

  /** The balance a borrower's row shows. */
  function BorrowerBalance(b: Borrower): real
  {
    RunningBalance(b.transactions)
  }

  /** The left fold adding every borrower's balance to a sum that starts at 0. */
  function TotalOutstanding(bs: seq<Borrower>): real
  {
    if bs == [] then 0.0
    else TotalOutstanding(bs[..|bs| - 1]) + BorrowerBalance(bs[|bs| - 1])
  }

  /** Every borrower's transactions, one borrower after the other. */
  function AllTransactions(bs: seq<Borrower>): seq<Transaction>
  {
    if bs == [] then []
    else AllTransactions(bs[..|bs| - 1]) + bs[|bs| - 1].transactions
  }

  /** The borrowers whose balance is positive, in their original order. */
  function ActiveLoans(bs: seq<Borrower>): (r: seq<Borrower>)
    ensures |r| <= |bs|
    ensures forall i :: 0 <= i < |r| ==> BorrowerBalance(r[i]) > 0.0
  {
    if bs == [] then []
    else (if BorrowerBalance(bs[0]) > 0.0 then [bs[0]] else []) + ActiveLoans(bs[1..])
  }

  /** The three-way split on a balance's sign that a row's label and its
      colour both follow. */
  datatype Sign = Owing | InCredit | Level

  function SignOf(balance: real): (s: Sign)
    ensures s == Owing <==> balance > 0.0
    ensures s == InCredit <==> balance < 0.0
    ensures s == Level <==> balance == 0.0
  {
    if balance > 0.0 then Owing else if balance < 0.0 then InCredit else Level
  }

  /** The label under a row's amount. */
  function RowLabel(balance: real): (r: string)
    ensures r == "Outstanding" <==> balance > 0.0
    ensures r == "Credit" <==> balance < 0.0
    ensures r == "Settled" <==> balance == 0.0
  {
    match SignOf(balance)
      case Owing => "Outstanding"
      case InCredit => "Credit"
      case Level => "Settled"
  }

  /** The colour class of a row's amount. */
  function RowColour(balance: real): string
  {
    match SignOf(balance)
      case Owing => "text-green-400"
      case InCredit => "text-red-400"
      case Level => "text-gray-400"
  }

  /** A row's colour goes with its label: green for "Outstanding", red for
      "Credit", grey for "Settled". */
  lemma RowColourMatchesLabel(balance: real)
    ensures RowColour(balance) == "text-green-400" <==> RowLabel(balance) == "Outstanding"
    ensures RowColour(balance) == "text-red-400" <==> RowLabel(balance) == "Credit"
    ensures RowColour(balance) == "text-gray-400" <==> RowLabel(balance) == "Settled"
  {
  }

  /** The amount a row shows: the balance without its sign. */
  function RowAmount(balance: real): (r: real)
    ensures r >= 0.0
    ensures r == balance || r == -balance
  {
    if balance < 0.0 then -balance else balance
  }

  // ---- What the dashboard shows ----

  /** The total is the net of every borrower's transactions taken together. */
  lemma {:induction false} TotalIsNetOfAllTransactions(bs: seq<Borrower>)
    ensures TotalOutstanding(bs) == RunningBalance(AllTransactions(bs))
    decreases |bs|
  {
    if bs != [] {
      var init := bs[..|bs| - 1];
      TotalIsNetOfAllTransactions(init);
      RunningBalanceAppend(AllTransactions(init), bs[|bs| - 1].transactions);
    }
  }

  /** The total over two lists of borrowers is the sum of their totals. */
  lemma {:induction false} TotalAppend(a: seq<Borrower>, b: seq<Borrower>)
    ensures TotalOutstanding(a + b) == TotalOutstanding(a) + TotalOutstanding(b)
    decreases |b|
  {
    if b == [] {
      assert a + b == a;
    } else {
      var init := b[..|b| - 1];
      TotalAppend(a, init);
      assert a + b == (a + init) + [b[|b| - 1]];
      TotalSnoc(a + init, b[|b| - 1]);
    }
  }

  /** The total does not depend on the order of the borrowers. */
  lemma {:induction false} TotalPerm(a: seq<Borrower>, b: seq<Borrower>)
    requires multiset(a) == multiset(b)
    ensures TotalOutstanding(a) == TotalOutstanding(b)
    decreases |a|
  {
    if a == [] {
      assert |b| == |multiset(b)| == 0;
    } else {
      var x, init := a[|a| - 1], a[..|a| - 1];
      var k := MatchLast(a, b);
      TotalPerm(init, b[..k] + b[k + 1..]);
      TotalRemove(b, k);
      assert TotalOutstanding(a) == TotalOutstanding(init) + BorrowerBalance(x);
    }
  }

  /** A position of b holding a's last element, and what is left of each. */
  lemma MatchLast<T>(a: seq<T>, b: seq<T>) returns (k: nat)
    requires a != [] && multiset(a) == multiset(b)
    ensures k < |b| && b[k] == a[|a| - 1]
    ensures multiset(a[..|a| - 1]) == multiset(b[..k] + b[k + 1..])
  {
    var x := a[|a| - 1];
    assert x in multiset(b);
    k :| 0 <= k < |b| && b[k] == x;
    MultisetInit(a);
    RemoveAt(b, k);
  }

  lemma TotalRemove(b: seq<Borrower>, k: nat)
    requires k < |b|
    ensures TotalOutstanding(b) == TotalOutstanding(b[..k] + b[k + 1..]) + BorrowerBalance(b[k])
  {
    var pre, x, post := b[..k], b[k], b[k + 1..];
    SplitAt(b, k);
    assert b == (pre + [x]) + post;
    TotalAppend(pre + [x], post);
    TotalSnoc(pre, x);
    TotalAppend(pre, post);
  }

  lemma TotalSnoc(bs: seq<Borrower>, x: Borrower)
    ensures TotalOutstanding(bs + [x]) == TotalOutstanding(bs) + BorrowerBalance(x)
  {
    assert (bs + [x])[..|bs|] == bs;
  }

  /** A borrower has an active loan exactly when it is listed and its balance
      is positive. */
  lemma {:induction false} ActiveLoansMembers(bs: seq<Borrower>)
    ensures forall b :: b in ActiveLoans(bs) <==> b in bs && BorrowerBalance(b) > 0.0
    decreases |bs|
  {
    if bs != [] {
      ActiveLoansMembers(bs[1..]);
      assert bs == [bs[0]] + bs[1..];
    }
  }

  /** The filter keeps order: over two lists it is the two filters in turn. */
  lemma {:induction false} ActiveLoansAppend(a: seq<Borrower>, b: seq<Borrower>)
    ensures ActiveLoans(a + b) == ActiveLoans(a) + ActiveLoans(b)
    decreases |a|
  {
    if a == [] {
      assert a + b == b;
    } else {
      assert (a + b)[0] == a[0] && (a + b)[1..] == a[1..] + b;
      ActiveLoansAppend(a[1..], b);
    }
  }

  /** The active borrowers are exactly the rows labelled Outstanding, and
      those are the rows coloured green. */
  lemma ActiveAreOutstanding(bs: seq<Borrower>, b: Borrower)
    ensures b in ActiveLoans(bs) <==> b in bs && RowLabel(BorrowerBalance(b)) == "Outstanding"
    ensures b in ActiveLoans(bs) <==> b in bs && RowColour(BorrowerBalance(b)) == "text-green-400"
  {
    ActiveLoansMembers(bs);
  }

  /** The total outstanding never exceeds what the active borrowers owe,
      which is never negative: credits only lower the total. */
  lemma {:induction false} TotalAtMostActive(bs: seq<Borrower>)
    ensures TotalOutstanding(bs) <= TotalOutstanding(ActiveLoans(bs))
    ensures TotalOutstanding(ActiveLoans(bs)) >= 0.0
    decreases |bs|
  {
    if bs != [] {
      var h := bs[0];
      var tail := bs[1..];
      TotalAtMostActive(tail);
      assert bs == [h] + tail;
      TotalAppend([h], tail);
      var kept := if BorrowerBalance(h) > 0.0 then [h] else [];
      assert ActiveLoans(bs) == kept + ActiveLoans(tail);
      TotalAppend(kept, ActiveLoans(tail));
      TotalSnoc([], h);
    }
  }

  /** With no borrowers the total is 0 and no loan is active. */
  lemma NoBorrowers()
    ensures TotalOutstanding([]) == 0.0 && ActiveLoans([]) == []
  {
  }
}
