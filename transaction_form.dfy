/** The submit logic of components/TransactionForm.tsx: create or pick the
    borrower, rewrite its rate and method when the form changed them, then
    add one transaction through the store. Parsing a number is abstract: a
    field that does not parse is None. The generated ids and the clock are
    parameters. */
module TransactionForm {
  import opened Types
  import opened Utils
  import opened Sorting
  import opened Storage

  /** The form's fields. loaded is the borrower list read when the form
      opened; the selected borrower is looked up there. */
  datatype Form = Form(
    selectedBorrowerId: string,
    kind: TxType,
    amount: Option<real>,
    date: int,
    newBorrowerName: string,
    showNewBorrower: bool,
    interestRate: Option<real>,
    interestMethod: InterestMethod)

  /** A rate that does not parse, or parses to 0, becomes 10. */
  function RateOrDefault(parsed: Option<real>): (r: real)
    ensures r != 0.0
    ensures parsed.Some? && parsed.value != 0.0 ==> r == parsed.value
    ensures parsed.None? || parsed.value == 0.0 ==> r == 10.0
  {
    if parsed.Some? && parsed.value != 0.0 then parsed.value else 10.0
  }

  /** An amount that does not parse becomes 0. */
  function AmountOrZero(parsed: Option<real>): real
  {
    if parsed.Some? then parsed.value else 0.0
  }

  /** Whether the stored rate differs from the parsed one; a rate that does
      not parse differs from every stored rate. */
  predicate RateDiffers(stored: real, parsed: Option<real>)
  {
    parsed.None? || parsed.value != stored
  }

  /** Whether the submit creates a new borrower. */
  predicate Creates(f: Form)
  {
    f.showNewBorrower && Trim(f.newBorrowerName) != []
  }

  function NewBorrower(f: Form, id: string, now: string): Borrower
  {
    Borrower(id, "default", Trim(f.newBorrowerName), RateOrDefault(f.interestRate), f.interestMethod, [], now, now)
  }

  function FormTransaction(f: Form, txId: string): Transaction
  {
    Transaction(txId, f.date, f.kind, AmountOrZero(f.amount))
  }

  /** The loaded copy of an existing borrower with the form's rate and
      method, when they differ from its own. */
  function Retuned(b: Borrower, f: Form): Borrower
  {
    b.(interestRate := RateOrDefault(f.interestRate), interestMethod := f.interestMethod)
  }

  predicate NeedsRetune(b: Borrower, f: Form)
  {
    RateDiffers(b.interestRate, f.interestRate) || b.interestMethod != f.interestMethod
  }

  /** The store after a submit, or None when no borrower is selected. */
  function Submitted(bs: seq<Borrower>, loaded: seq<Borrower>, f: Form, newId: string, txId: string, now: string)
    : Option<seq<Borrower>>
  {
    var tx := FormTransaction(f, txId);
    if Creates(f) then
      Some(AfterAdd(Saved(bs, NewBorrower(f, newId, now)), newId, tx, now))
    else match BorrowerIndex(loaded, f.selectedBorrowerId)
      case None => None
      case Some(i) =>
        var b := loaded[i];
        var bs' := if NeedsRetune(b, f) then Saved(bs, Retuned(b, f)) else bs;
        Some(AfterAdd(bs', f.selectedBorrowerId, tx, now))
  }

  method HandleSubmit(store: LedgerStore, loaded: seq<Borrower>, f: Form, newId: string, txId: string, now: string)
    returns (submitted: bool)
    modifies store
    ensures var r := Submitted(old(store.borrowers), loaded, f, newId, txId, now);
      && submitted == r.Some?
      && store.borrowers == if r.Some? then r.value else old(store.borrowers)
  {
    var borrowerId := f.selectedBorrowerId;
    if f.showNewBorrower && Trim(f.newBorrowerName) != [] {
      var newBorrower := NewBorrower(f, newId, now);
      store.SaveBorrower(newBorrower);
      borrowerId := newBorrower.id;
    } else {
      var index := BorrowerIndex(loaded, borrowerId);
      if index.None? {
        return false;
      }
      var targetBorrower := loaded[index.value];
      if RateDiffers(targetBorrower.interestRate, f.interestRate) || targetBorrower.interestMethod != f.interestMethod {
        targetBorrower := targetBorrower.(interestRate := RateOrDefault(f.interestRate), interestMethod := f.interestMethod);
        store.SaveBorrower(targetBorrower);
      }
    }
    var transaction := Transaction(txId, f.date, f.kind, AmountOrZero(f.amount));
    store.AddTransaction(borrowerId, transaction, now);
    submitted := true;
  }

  // ---- What a submit does ----

  /** A new borrower (with an id not yet in the store) is appended with the
      trimmed name, the rate or its default, the form's method, and the one
      new transaction. */
  lemma CreateAppends(bs: seq<Borrower>, loaded: seq<Borrower>, f: Form, newId: string, txId: string, now: string)
    requires Creates(f)
    requires forall j :: 0 <= j < |bs| ==> bs[j].id != newId
    ensures Submitted(bs, loaded, f, newId, txId, now)
         == Some(bs + [NewBorrower(f, newId, now).(transactions := [FormTransaction(f, txId)])])
  {
    var nb := NewBorrower(f, newId, now);
    var tx := FormTransaction(f, txId);
    assert Saved(bs, nb) == bs + [nb];
    AppendedGetsTransaction(bs, nb, tx, now);
  }

  lemma AppendedGetsTransaction(bs: seq<Borrower>, nb: Borrower, tx: Transaction, now: string)
    requires nb.transactions == [] && nb.updatedAt == now
    requires forall j :: 0 <= j < |bs| ==> bs[j].id != nb.id
    ensures AfterAdd(bs + [nb], nb.id, tx, now) == bs + [nb.(transactions := [tx])]
  {
    IndexAfterAppend(bs, nb);
    SingleSorted(tx);
    assert nb.transactions + [tx] == [tx];
    assert (bs + [nb])[|bs| := nb.(transactions := [tx], updatedAt := now)] == bs + [nb.(transactions := [tx])];
  }

  lemma SingleSorted(t: Transaction)
    ensures SortByDate([t]) == [t]
  {
    assert [t][1..] == [];
  }

  /** Without the new-borrower path, a selected id that is not among the
      loaded borrowers aborts the submit. */
  lemma UnknownSelectionAborts(bs: seq<Borrower>, loaded: seq<Borrower>, f: Form, newId: string, txId: string, now: string)
    requires !Creates(f)
    requires forall j :: 0 <= j < |loaded| ==> loaded[j].id != f.selectedBorrowerId
    ensures Submitted(bs, loaded, f, newId, txId, now).None?
  {
  }

  /** With the loaded list current, a submit for an existing borrower adds
      exactly the form's transaction to it (in date order), sets its rate to
      the parsed rate or its default and its method to the form's when they
      differ, and stamps it with the time of the change; its other fields
      and every other borrower stay as they were. */
  lemma ExistingGetsOneTransaction(bs: seq<Borrower>, f: Form, newId: string, txId: string, now: string, i: nat)
    requires !Creates(f)
    requires BorrowerIndex(bs, f.selectedBorrowerId) == Some(i)
    ensures var r := Submitted(bs, bs, f, newId, txId, now);
      && r.Some? && |r.value| == |bs|
      && multiset(r.value[i].transactions) == multiset(bs[i].transactions) + multiset{FormTransaction(f, txId)}
      && SortedByDate(r.value[i].transactions)
      && r.value[i].interestRate == (if NeedsRetune(bs[i], f) then RateOrDefault(f.interestRate) else bs[i].interestRate)
      && r.value[i].interestMethod == f.interestMethod
      && r.value[i] == bs[i].(transactions := r.value[i].transactions, interestRate := r.value[i].interestRate,
                              interestMethod := r.value[i].interestMethod, updatedAt := now)
      && forall k :: 0 <= k < |bs| && k != i ==> r.value[k] == bs[k]
  {
    var b := bs[i];
    var bs' := if NeedsRetune(b, f) then Saved(bs, Retuned(b, f)) else bs;
    if NeedsRetune(b, f) {
      assert bs' == bs[i := Retuned(b, f)];
      IndexAfterWrite(bs, i, Retuned(b, f));
    }
    assert BorrowerIndex(bs', f.selectedBorrowerId) == Some(i);
    AddFacts(bs', f.selectedBorrowerId, FormTransaction(f, txId), now);
    if !NeedsRetune(b, f) {
      assert f.interestRate.Some? && f.interestRate.value == b.interestRate;
    }
  }

  /** The form never writes a rate of 0: a rate it writes is the parsed
      rate when that is non-zero, and 10 otherwise. */
  lemma WrittenRateNonZero(b: Borrower, f: Form, newId: string, now: string)
    ensures NewBorrower(f, newId, now).interestRate != 0.0
    ensures Retuned(b, f).interestRate != 0.0
  {
  }
}
