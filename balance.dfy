/** The balance engine (lib/calculations.ts, calculateRunningBalance) and the
    list filters and sums that the interest engine and the borrower view apply
    to transaction lists. */
module Balance {
  import opened Types

  /** The signed effect of one transaction on what the borrower owes. */
  function Signed(t: Transaction): real
  {
    if t.kind == Taken then t.amount else -t.amount
  }

  /** The balance after applying the transactions left to right from 0:
      positive means the borrower owes the lender. */
  function RunningBalance(ts: seq<Transaction>): real
  {
    if ts == [] then 0.0 else RunningBalance(ts[..|ts| - 1]) + Signed(ts[|ts| - 1])
  }

  /** Sum of the amounts, whatever their type. */
  function SumAmounts(ts: seq<Transaction>): real
  {
    if ts == [] then 0.0 else SumAmounts(ts[..|ts| - 1]) + ts[|ts| - 1].amount
  }

  /** The transactions of one type, in their original order. */
  function OfType(ts: seq<Transaction>, k: TxType): (r: seq<Transaction>)
    ensures |r| <= |ts|
  {
    if ts == [] then []
    else (if ts[0].kind == k then [ts[0]] else []) + OfType(ts[1..], k)
  }

  /** The transactions dated on or before day x, in their original order. */
  function OnOrBefore(ts: seq<Transaction>, x: int): (r: seq<Transaction>)
    ensures |r| <= |ts|
  {
    if ts == [] then []
    else (if ts[0].date <= x then [ts[0]] else []) + OnOrBefore(ts[1..], x)
  }

  /** Every transaction with its type swapped. */
  function Flipped(ts: seq<Transaction>): (r: seq<Transaction>)
    ensures |r| == |ts|
    ensures forall i :: 0 <= i < |ts| ==>
      r[i].amount == ts[i].amount && r[i].date == ts[i].date && r[i].kind != ts[i].kind
  {
    if ts == [] then []
    else Flipped(ts[..|ts| - 1]) + [ts[|ts| - 1].(kind := if ts[|ts| - 1].kind == Taken then Returned else Taken)]
  }

  // ---- Sequence facts, kept apart from the folds so that each is cheap ----

  lemma LastSplit<T>(s: seq<T>)
    requires s != []
    ensures s == s[..|s| - 1] + [s[|s| - 1]]
  {
  }

  lemma TakeOneMore<T>(s: seq<T>, i: nat)
    requires i < |s|
    ensures s[..i + 1] == s[..i] + [s[i]]
  {
  }

  lemma SnocParts<T>(a: seq<T>, t: T)
    ensures (a + [t])[..|a|] == a && (a + [t])[|a|] == t
  {
  }

  lemma ConcatInit<T>(a: seq<T>, b: seq<T>)
    requires b != []
    ensures (a + b)[..|a + b| - 1] == a + b[..|b| - 1] && (a + b)[|a + b| - 1] == b[|b| - 1]
  {
  }

  lemma ConsTail<T>(a: seq<T>, b: seq<T>)
    requires a != []
    ensures (a + b)[0] == a[0] && (a + b)[1..] == a[1..] + b
  {
  }

  lemma Assoc<T>(x: seq<T>, y: seq<T>, z: seq<T>)
    ensures x + (y + z) == (x + y) + z
  {
  }

  lemma ConcatEmpty<T>(a: seq<T>)
    ensures a + [] == a && [] + a == a
  {
  }

  lemma SingleTail<T>(t: T)
    ensures [t][1..] == [] && [t][..0] == []
  {
  }

  // ---- Folds over concatenations ----

  lemma {:induction false} RunningBalanceAppend(a: seq<Transaction>, b: seq<Transaction>)
    ensures RunningBalance(a + b) == RunningBalance(a) + RunningBalance(b)
    decreases |b|
  {
    if b == [] {
      ConcatEmpty(a);
    } else {
      ConcatInit(a, b);
      RunningBalanceAppend(a, b[..|b| - 1]);
    }
  }

  lemma {:induction false} SumAmountsAppend(a: seq<Transaction>, b: seq<Transaction>)
    ensures SumAmounts(a + b) == SumAmounts(a) + SumAmounts(b)
    decreases |b|
  {
    if b == [] {
      ConcatEmpty(a);
    } else {
      ConcatInit(a, b);
      SumAmountsAppend(a, b[..|b| - 1]);
    }
  }

  lemma SumAmountsSnoc(s: seq<Transaction>, t: Transaction)
    ensures SumAmounts(s + [t]) == SumAmounts(s) + t.amount
  {
    SnocParts(s, t);
  }

  lemma {:induction false} OfTypeAppend(a: seq<Transaction>, b: seq<Transaction>, k: TxType)
    ensures OfType(a + b, k) == OfType(a, k) + OfType(b, k)
    decreases |a|
  {
    if a == [] {
      ConcatEmpty(b);
      ConcatEmpty(OfType(b, k));
    } else {
      var h := if a[0].kind == k then [a[0]] else [];
      ConsTail(a, b);
      OfTypeAppend(a[1..], b, k);
      Assoc(h, OfType(a[1..], k), OfType(b, k));
    }
  }

  lemma OfTypeSnoc(s: seq<Transaction>, t: Transaction, k: TxType)
    ensures OfType(s + [t], k) == OfType(s, k) + (if t.kind == k then [t] else [])
  {
    OfTypeAppend(s, [t], k);
    SingleTail(t);
    ConcatEmpty(if t.kind == k then [t] else []);
  }

  lemma {:induction false} OnOrBeforeAppend(a: seq<Transaction>, b: seq<Transaction>, x: int)
    ensures OnOrBefore(a + b, x) == OnOrBefore(a, x) + OnOrBefore(b, x)
    decreases |a|
  {
    if a == [] {
      ConcatEmpty(b);
      ConcatEmpty(OnOrBefore(b, x));
    } else {
      var h := if a[0].date <= x then [a[0]] else [];
      ConsTail(a, b);
      OnOrBeforeAppend(a[1..], b, x);
      Assoc(h, OnOrBefore(a[1..], x), OnOrBefore(b, x));
    }
  }

  lemma OnOrBeforeSnoc(s: seq<Transaction>, t: Transaction, x: int)
    ensures OnOrBefore(s + [t], x) == OnOrBefore(s, x) + (if t.date <= x then [t] else [])
  {
    OnOrBeforeAppend(s, [t], x);
    SingleTail(t);
    ConcatEmpty(if t.date <= x then [t] else []);
  }

  // ---- What the balance engine computes ----

  /** The balance is what was taken minus what was returned. */
  lemma {:induction false} RunningBalanceIsTakenMinusReturned(ts: seq<Transaction>)
    ensures RunningBalance(ts) == SumAmounts(OfType(ts, Taken)) - SumAmounts(OfType(ts, Returned))
    decreases |ts|
  {
    if ts != [] {
      var init, last := ts[..|ts| - 1], ts[|ts| - 1];
      LastSplit(ts);
      RunningBalanceIsTakenMinusReturned(init);
      OfTypeSnoc(init, last, Taken);
      OfTypeSnoc(init, last, Returned);
      if last.kind == Taken {
        SumAmountsSnoc(OfType(init, Taken), last);
        ConcatEmpty(OfType(init, Returned));
      } else {
        SumAmountsSnoc(OfType(init, Returned), last);
        ConcatEmpty(OfType(init, Taken));
      }
    }
  }

  /** Swapping every type negates the balance. */
  lemma {:induction false} RunningBalanceOfFlipped(ts: seq<Transaction>)
    ensures RunningBalance(Flipped(ts)) == -RunningBalance(ts)
    decreases |ts|
  {
    if ts != [] {
      var f := Flipped(ts);
      assert f[..|f| - 1] == Flipped(ts[..|ts| - 1]);
      RunningBalanceOfFlipped(ts[..|ts| - 1]);
    }
  }

  // ---- Reordering changes no sum ----

  /** How many copies of t a filter keeps. */
  lemma {:induction false} OfTypeCount(ts: seq<Transaction>, k: TxType, t: Transaction)
    ensures multiset(OfType(ts, k))[t] == if t.kind == k then multiset(ts)[t] else 0
    decreases |ts|
  {
    if ts != [] {
      assert ts == [ts[0]] + ts[1..];
      OfTypeCount(ts[1..], k, t);
    }
  }

  lemma {:induction false} OnOrBeforeCount(ts: seq<Transaction>, x: int, t: Transaction)
    ensures multiset(OnOrBefore(ts, x))[t] == if t.date <= x then multiset(ts)[t] else 0
    decreases |ts|
  {
    if ts != [] {
      assert ts == [ts[0]] + ts[1..];
      OnOrBeforeCount(ts[1..], x, t);
    }
  }

  lemma OfTypeSub(ts: seq<Transaction>, k: TxType)
    ensures forall t :: t in OfType(ts, k) ==> t in ts && t.kind == k
  {
    forall t | t in OfType(ts, k) ensures t in ts && t.kind == k {
      OfTypeCount(ts, k, t);
      assert t in multiset(OfType(ts, k));
    }
  }

  lemma OnOrBeforeSub(ts: seq<Transaction>, x: int)
    ensures forall t :: t in OnOrBefore(ts, x) ==> t in ts && t.date <= x
  {
    forall t | t in OnOrBefore(ts, x) ensures t in ts && t.date <= x {
      OnOrBeforeCount(ts, x, t);
      assert t in multiset(OnOrBefore(ts, x));
    }
  }

  lemma OfTypePerm(a: seq<Transaction>, b: seq<Transaction>, k: TxType)
    requires multiset(a) == multiset(b)
    ensures multiset(OfType(a, k)) == multiset(OfType(b, k))
  {
    forall t ensures multiset(OfType(a, k))[t] == multiset(OfType(b, k))[t] {
      OfTypeCount(a, k, t);
      OfTypeCount(b, k, t);
    }
  }

  lemma OnOrBeforePerm(a: seq<Transaction>, b: seq<Transaction>, x: int)
    requires multiset(a) == multiset(b)
    ensures multiset(OnOrBefore(a, x)) == multiset(OnOrBefore(b, x))
  {
    forall t ensures multiset(OnOrBefore(a, x))[t] == multiset(OnOrBefore(b, x))[t] {
      OnOrBeforeCount(a, x, t);
      OnOrBeforeCount(b, x, t);
    }
  }

  lemma SplitAt<T>(s: seq<T>, j: nat)
    requires j < |s|
    ensures s == s[..j] + [s[j]] + s[j + 1..]
  {
  }

  /** Taking out the entry at j removes exactly one copy of it. */
  lemma RemoveAt<T>(s: seq<T>, j: nat)
    requires j < |s|
    ensures multiset(s[..j] + s[j + 1..]) == multiset(s) - multiset{s[j]}
  {
    SplitAt(s, j);
  }

  lemma MultisetInit<T>(s: seq<T>)
    requires s != []
    ensures multiset(s[..|s| - 1]) == multiset(s) - multiset{s[|s| - 1]}
  {
    LastSplit(s);
  }

  lemma SumAmountsMiddle(p: seq<Transaction>, x: Transaction, q: seq<Transaction>)
    ensures SumAmounts(p + [x] + q) == SumAmounts(p + q) + x.amount
  {
    SumAmountsAppend(p + [x], q);
    SumAmountsAppend(p, q);
    assert (p + [x])[..|p|] == p;
  }

  lemma SumAmountsRemoveAt(s: seq<Transaction>, j: nat)
    requires j < |s|
    ensures SumAmounts(s) == SumAmounts(s[..j] + s[j + 1..]) + s[j].amount
  {
    SplitAt(s, j);
    SumAmountsMiddle(s[..j], s[j], s[j + 1..]);
  }

  lemma {:induction false} SumAmountsPerm(a: seq<Transaction>, b: seq<Transaction>)
    requires multiset(a) == multiset(b)
    ensures SumAmounts(a) == SumAmounts(b)
    decreases |a|
  {
    if a == [] {
      assert |b| == |multiset(b)| == 0;
    } else {
      var init, last := a[..|a| - 1], a[|a| - 1];
      assert a == init + [last];
      assert last in multiset(b);
      var j :| 0 <= j < |b| && b[j] == last;
      RemoveAt(b, j);
      assert multiset(a) == multiset(init) + multiset{last};
      SumAmountsPerm(init, b[..j] + b[j + 1..]);
      SumAmountsRemoveAt(b, j);
    }
  }

  /** The balance does not depend on the order of the transactions. */
  lemma RunningBalancePerm(a: seq<Transaction>, b: seq<Transaction>)
    requires multiset(a) == multiset(b)
    ensures RunningBalance(a) == RunningBalance(b)
  {
    RunningBalanceIsTakenMinusReturned(a);
    RunningBalanceIsTakenMinusReturned(b);
    OfTypePerm(a, b, Taken);
    OfTypePerm(a, b, Returned);
    SumAmountsPerm(OfType(a, Taken), OfType(b, Taken));
    SumAmountsPerm(OfType(a, Returned), OfType(b, Returned));
  }

}
