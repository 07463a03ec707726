/** The borrower store of lib/storage.ts. The browser's persistent storage
    and its JSON encoding become one field holding the list of borrowers;
    each operation reads that list, changes it and writes it back. The clock
    the store reads for updatedAt is a parameter. */
module Storage {
  import opened Types
  import opened Balance
  import opened Sorting

  /** The fields an edit of a transaction sets; an absent field is kept. */
  datatype TxUpdate = TxUpdate(id: Option<string>, date: Option<int>, kind: Option<TxType>, amount: Option<real>)

  /** The edit written over a transaction, field by field. */
  function ApplyUpdate(u: TxUpdate, t: Transaction): Transaction
  {
    Transaction(
      if u.id.Some? then u.id.value else t.id,
      if u.date.Some? then u.date.value else t.date,
      if u.kind.Some? then u.kind.value else t.kind,
      if u.amount.Some? then u.amount.value else t.amount)
  }

  function BorrowerId(b: Borrower): string { b.id }

  function TxId(t: Transaction): string { t.id }

  /** The position of the first element whose id is the given one, if any:
      the findIndex and find of the store, over borrowers and over a
      borrower's transactions alike. */
  function FirstIndex<T>(s: seq<T>, idOf: T -> string, id: string): (r: Option<nat>)
    ensures r.Some? ==> r.value < |s| && idOf(s[r.value]) == id && forall j :: 0 <= j < r.value ==> idOf(s[j]) != id
    ensures r.None? ==> forall j :: 0 <= j < |s| ==> idOf(s[j]) != id
  {
    if s == [] then None
    else if idOf(s[0]) == id then Some(0)
    else match FirstIndex(s[1..], idOf, id)
      case None => None
      case Some(k) => Some(k + 1)
  }

  function BorrowerIndex(bs: seq<Borrower>, id: string): Option<nat>
  {
    FirstIndex(bs, BorrowerId, id)
  }

  function TxIndex(ts: seq<Transaction>, id: string): Option<nat>
  {
    FirstIndex(ts, TxId, id)
  }

  /** No two borrowers share an id. */
  predicate DistinctIds(bs: seq<Borrower>)
  {
    forall i, j :: 0 <= i < j < |bs| ==> bs[i].id != bs[j].id
  }

  // ---- What each operation leaves in the store ----

  /** Saving: overwrite the first borrower with the same id, else append. */
  function Saved(bs: seq<Borrower>, b: Borrower): seq<Borrower>
  {
    match BorrowerIndex(bs, b.id)
      case Some(i) => bs[i := b]
      case None => bs + [b]
  }

  /** The elements whose id is not the given one, in order: the filter
      that deletes a borrower, and a borrower's transactions. */
  function WithoutId<T>(s: seq<T>, idOf: T -> string, id: string): (r: seq<T>)
    ensures |r| <= |s|
  {
    if s == [] then []
    else (if idOf(s[0]) != id then [s[0]] else []) + WithoutId(s[1..], idOf, id)
  }

  function WithoutBorrower(bs: seq<Borrower>, id: string): seq<Borrower>
  {
    WithoutId(bs, BorrowerId, id)
  }

  function WithoutTx(ts: seq<Transaction>, id: string): seq<Transaction>
  {
    WithoutId(ts, TxId, id)
  }

  /** Adding: the first borrower with id borrowerId gets the transaction,
      its list re-sorted by date, and the time of the change; the store is as
      it was if there is no such borrower. */
  function AfterAdd(bs: seq<Borrower>, borrowerId: string, t: Transaction, now: string): seq<Borrower>
  {
    match BorrowerIndex(bs, borrowerId)
      case None => bs
      case Some(i) => bs[i := bs[i].(transactions := SortByDate(bs[i].transactions + [t]), updatedAt := now)]
  }

  /** The list after an edit of its first transaction with id txId, re-sorted;
      None when no transaction has that id. */
  function Edited(ts: seq<Transaction>, txId: string, u: TxUpdate): Option<seq<Transaction>>
  {
    match TxIndex(ts, txId)
      case None => None
      case Some(j) => Some(SortByDate(ts[j := ApplyUpdate(u, ts[j])]))
  }

  /** Editing: as adding, with the edited list; the store is as it was if
      the transaction is not found either. */
  function AfterUpdate(bs: seq<Borrower>, borrowerId: string, txId: string, u: TxUpdate, now: string): seq<Borrower>
  {
    match BorrowerIndex(bs, borrowerId)
      case None => bs
      case Some(i) =>
        match Edited(bs[i].transactions, txId, u)
          case None => bs
          case Some(ts) => bs[i := bs[i].(transactions := ts, updatedAt := now)]
  }

  /** Deleting a transaction: as adding, with the filtered list. */
  function AfterDelete(bs: seq<Borrower>, borrowerId: string, txId: string, now: string): seq<Borrower>
  {
    match BorrowerIndex(bs, borrowerId)
      case None => bs
      case Some(i) => bs[i := bs[i].(transactions := WithoutTx(bs[i].transactions, txId), updatedAt := now)]
  }

  /** Every borrower's transactions are in date order. */
  ghost predicate AllSorted(bs: seq<Borrower>)
  {
    forall i :: 0 <= i < |bs| ==> SortedByDate(bs[i].transactions)
  }

  class LedgerStore {
    var borrowers: seq<Borrower>

    constructor ()
      ensures borrowers == []
    {
      borrowers := [];
    }

    method SaveBorrower(borrower: Borrower)
      modifies this
      ensures borrowers == Saved(old(borrowers), borrower)
    {
      var index := BorrowerIndex(borrowers, borrower.id);
      if index.Some? {
        borrowers := borrowers[index.value := borrower];
      } else {
        borrowers := borrowers + [borrower];
      }
    }

    method DeleteBorrower(borrowerId: string)
      modifies this
      ensures borrowers == WithoutBorrower(old(borrowers), borrowerId)
    {
      borrowers := WithoutBorrower(borrowers, borrowerId);
    }

    method AddTransaction(borrowerId: string, transaction: Transaction, now: string)
      modifies this
      ensures borrowers == AfterAdd(old(borrowers), borrowerId, transaction, now)
    {
      var index := BorrowerIndex(borrowers, borrowerId);
      if index.Some? {
        var borrower := borrowers[index.value];
        var transactions := SortByDate(borrower.transactions + [transaction]);
        borrower := borrower.(transactions := transactions, updatedAt := now);
        SaveBorrower(borrower);
      }
    }

    method UpdateTransaction(borrowerId: string, transactionId: string, updates: TxUpdate, now: string)
      modifies this
      ensures borrowers == AfterUpdate(old(borrowers), borrowerId, transactionId, updates, now)
    {
      var index := BorrowerIndex(borrowers, borrowerId);
      if index.Some? {
        var borrower := borrowers[index.value];
        var found := TxIndex(borrower.transactions, transactionId);
        if found.Some? {
          var j := found.value;
          var transactions := borrower.transactions[j := ApplyUpdate(updates, borrower.transactions[j])];
          transactions := SortByDate(transactions);
          borrower := borrower.(transactions := transactions, updatedAt := now);
          SaveBorrower(borrower);
        }
      }
    }

    method DeleteTransaction(borrowerId: string, transactionId: string, now: string)
      modifies this
      ensures borrowers == AfterDelete(old(borrowers), borrowerId, transactionId, now)
    {
      var index := BorrowerIndex(borrowers, borrowerId);
      if index.Some? {
        var borrower := borrowers[index.value];
        borrower := borrower.(transactions := WithoutTx(borrower.transactions, transactionId), updatedAt := now);
        SaveBorrower(borrower);
      }
    }
  }

  // ---- What the store guarantees ----

  /** Saving a borrower whose id is present overwrites the first such entry
      and nothing else; otherwise the borrower is appended. Either way it is
      then the first entry with its id. */
  lemma SavedFacts(bs: seq<Borrower>, b: Borrower)
    ensures var r := Saved(bs, b);
      && ((forall j :: 0 <= j < |bs| ==> bs[j].id != b.id) ==> r == bs + [b])
      && ((exists j :: 0 <= j < |bs| && bs[j].id == b.id) ==>
            |r| == |bs| && b in r && BorrowerIndex(r, b.id) == BorrowerIndex(bs, b.id))
      && BorrowerIndex(r, b.id).Some? && r[BorrowerIndex(r, b.id).value] == b
      && forall j :: 0 <= j < |bs| && j != BorrowerIndex(r, b.id).value ==> r[j] == bs[j]
  {
    var r := Saved(bs, b);
    match BorrowerIndex(bs, b.id)
    case Some(i) =>
      assert r == bs[i := b];
      IndexAfterWrite(bs, i, b);
    case None =>
      assert r == bs + [b];
      IndexAfterAppend(bs, b);
  }

  lemma IndexAfterWrite(bs: seq<Borrower>, i: nat, b: Borrower)
    requires BorrowerIndex(bs, b.id) == Some(i)
    ensures BorrowerIndex(bs[i := b], b.id) == Some(i)
  {
    var r := bs[i := b];
    assert r[i].id == b.id;
    assert forall j :: 0 <= j < i ==> r[j].id != b.id;
  }

  lemma IndexAfterAppend(bs: seq<Borrower>, b: Borrower)
    requires BorrowerIndex(bs, b.id).None?
    ensures BorrowerIndex(bs + [b], b.id) == Some(|bs|)
  {
    var r := bs + [b];
    assert r[|bs|].id == b.id;
    assert forall j :: 0 <= j < |bs| ==> r[j] == bs[j];
  }

  /** Saving keeps ids distinct. */
  lemma SavedKeepsIdsDistinct(bs: seq<Borrower>, b: Borrower)
    requires DistinctIds(bs)
    ensures DistinctIds(Saved(bs, b))
  {
    var r := Saved(bs, b);
    match BorrowerIndex(bs, b.id)
    case Some(i) =>
      forall p, q | 0 <= p < q < |r| ensures r[p].id != r[q].id {
        if p == i {
          assert bs[q].id != bs[i].id;
        } else if q == i {
          assert bs[p].id != bs[i].id;
        }
      }
    case None =>
      forall p, q | 0 <= p < q < |r| ensures r[p].id != r[q].id {
        if q == |bs| {
          assert r[p] == bs[p];
        }
      }
  }

  /** The filter keeps exactly the elements with another id and leaves
      none with that id. */
  lemma {:induction false} WithoutIdFacts<T>(s: seq<T>, idOf: T -> string, id: string)
    ensures forall x :: x in WithoutId(s, idOf, id) <==> x in s && idOf(x) != id
    ensures FirstIndex(WithoutId(s, idOf, id), idOf, id).None?
    decreases |s|
  {
    if s != [] {
      WithoutIdFacts(s[1..], idOf, id);
      assert s == [s[0]] + s[1..];
    }
  }

  /** The filter keeps order: over a concatenation it filters each part. */
  lemma {:induction false} WithoutIdAppend<T>(a: seq<T>, b: seq<T>, idOf: T -> string, id: string)
    ensures WithoutId(a + b, idOf, id) == WithoutId(a, idOf, id) + WithoutId(b, idOf, id)
    decreases |a|
  {
    if a == [] {
      assert a + b == b;
    } else {
      assert (a + b)[1..] == a[1..] + b;
      WithoutIdAppend(a[1..], b, idOf, id);
    }
  }

  /** Deleting keeps ids distinct. */
  lemma {:induction false} WithoutBorrowerKeepsIdsDistinct(bs: seq<Borrower>, id: string)
    requires DistinctIds(bs)
    ensures DistinctIds(WithoutBorrower(bs, id))
    decreases |bs|
  {
    if bs != [] {
      var rest := WithoutBorrower(bs[1..], id);
      assert DistinctIds(bs[1..]);
      WithoutBorrowerKeepsIdsDistinct(bs[1..], id);
      if bs[0].id != id {
        WithoutIdFacts(bs[1..], BorrowerId, id);
        HeadIdUnique(bs);
        ConsKeepsIdsDistinct(bs[0], rest);
      } else {
        assert [] + rest == rest;
      }
    }
  }

  lemma HeadIdUnique(bs: seq<Borrower>)
    requires DistinctIds(bs) && bs != []
    ensures forall b :: b in bs[1..] ==> b.id != bs[0].id
  {
    forall b | b in bs[1..] ensures b.id != bs[0].id {
      var k :| 0 <= k < |bs[1..]| && bs[1..][k] == b;
      assert bs[k + 1] == b;
    }
  }

  lemma ConsKeepsIdsDistinct(h: Borrower, rest: seq<Borrower>)
    requires DistinctIds(rest)
    requires forall b :: b in rest ==> b.id != h.id
    ensures DistinctIds([h] + rest)
  {
    var r := [h] + rest;
    forall p, q | 0 <= p < q < |r| ensures r[p].id != r[q].id {
      assert r[q] == rest[q - 1];
      if p > 0 {
        assert r[p] == rest[p - 1];
      } else {
        assert rest[q - 1] in rest;
      }
    }
  }

  /** Deleting transactions keeps a date-ordered list in date order. */
  lemma {:induction false} WithoutTxSorted(ts: seq<Transaction>, id: string)
    requires SortedByDate(ts)
    ensures SortedByDate(WithoutTx(ts, id))
    decreases |ts|
  {
    if ts != [] {
      WithoutTxSorted(ts[1..], id);
      WithoutIdFacts(ts[1..], TxId, id);
      var rest := WithoutTx(ts[1..], id);
      if ts[0].id != id {
        forall u | u in rest ensures ts[0].date <= u.date {
          var k :| 1 <= k < |ts| && ts[k] == u;
        }
        ConsSorted(ts[0], rest);
      } else {
        assert [] + rest == rest;
      }
    }
  }

  /** Adding to a known borrower: its list grows by the new transaction and
      is in date order; only its transactions and updatedAt change, and no
      other borrower changes. An unknown borrower leaves the store as it was. */
  lemma AddFacts(bs: seq<Borrower>, borrowerId: string, t: Transaction, now: string)
    ensures var r := AfterAdd(bs, borrowerId, t, now);
      && |r| == |bs|
      && (BorrowerIndex(bs, borrowerId).None? ==> r == bs)
      && (BorrowerIndex(bs, borrowerId).Some? ==>
            var i := BorrowerIndex(bs, borrowerId).value;
            && r[i] == bs[i].(transactions := r[i].transactions, updatedAt := now)
            && |r[i].transactions| == |bs[i].transactions| + 1
            && multiset(r[i].transactions) == multiset(bs[i].transactions) + multiset{t}
            && SortedByDate(r[i].transactions)
            && forall j :: 0 <= j < |bs| && j != i ==> r[j] == bs[j])
  {
    match BorrowerIndex(bs, borrowerId)
    case None =>
    case Some(i) =>
      SortByDateSorts(bs[i].transactions + [t]);
  }

  /** Editing a known transaction of a known borrower writes the edit over
      the first transaction with that id and re-sorts: the list keeps its
      length, is in date order, and holds the same transactions with that one
      replaced. Otherwise the store is as it was. */
  lemma UpdateFacts(bs: seq<Borrower>, borrowerId: string, txId: string, u: TxUpdate, now: string)
    ensures var r := AfterUpdate(bs, borrowerId, txId, u, now);
      && |r| == |bs|
      && (BorrowerIndex(bs, borrowerId).None? ==> r == bs)
      && (BorrowerIndex(bs, borrowerId).Some? ==>
            var i := BorrowerIndex(bs, borrowerId).value;
            var old_ts := bs[i].transactions;
            && (TxIndex(old_ts, txId).None? ==> r == bs)
            && (TxIndex(old_ts, txId).Some? ==>
                  var j := TxIndex(old_ts, txId).value;
                  && r[i] == bs[i].(transactions := r[i].transactions, updatedAt := now)
                  && |r[i].transactions| == |old_ts|
                  && multiset(r[i].transactions) == multiset(old_ts) - multiset{old_ts[j]} + multiset{ApplyUpdate(u, old_ts[j])}
                  && SortedByDate(r[i].transactions)
                  && forall k :: 0 <= k < |bs| && k != i ==> r[k] == bs[k]))
  {
    match BorrowerIndex(bs, borrowerId)
    case None =>
    case Some(i) =>
      var ts := bs[i].transactions;
      match TxIndex(ts, txId)
      case None =>
      case Some(j) =>
        var edited := ts[j := ApplyUpdate(u, ts[j])];
        SortByDateSorts(edited);
        ReplaceMultiset(ts, j, ApplyUpdate(u, ts[j]));
  }

  lemma ReplaceMultiset(ts: seq<Transaction>, j: nat, x: Transaction)
    requires j < |ts|
    ensures multiset(ts[j := x]) == multiset(ts) - multiset{ts[j]} + multiset{x}
  {
    assert ts == ts[..j] + [ts[j]] + ts[j + 1..];
    assert ts[j := x] == ts[..j] + [x] + ts[j + 1..];
  }

  /** Deleting a transaction of a known borrower removes every transaction
      with that id and keeps the rest in order (the order and the repeats
      are kept by WithoutIdAppend); only that borrower's
      transactions and updatedAt change. An unknown borrower leaves the store
      as it was. */
  lemma DeleteFacts(bs: seq<Borrower>, borrowerId: string, txId: string, now: string)
    ensures var r := AfterDelete(bs, borrowerId, txId, now);
      && |r| == |bs|
      && (BorrowerIndex(bs, borrowerId).None? ==> r == bs)
      && (BorrowerIndex(bs, borrowerId).Some? ==>
            var i := BorrowerIndex(bs, borrowerId).value;
            && r[i] == bs[i].(transactions := r[i].transactions, updatedAt := now)
            && (forall t :: t in r[i].transactions <==> t in bs[i].transactions && t.id != txId)
            && (SortedByDate(bs[i].transactions) ==> SortedByDate(r[i].transactions))
            && forall k :: 0 <= k < |bs| && k != i ==> r[k] == bs[k])
  {
    match BorrowerIndex(bs, borrowerId)
    case None =>
    case Some(i) =>
      WithoutIdFacts(bs[i].transactions, TxId, txId);
      if SortedByDate(bs[i].transactions) {
        WithoutTxSorted(bs[i].transactions, txId);
      }
  }

  /** The transaction operations never change a borrower's id, so they keep
      ids distinct; the add and the edit leave every list in date order if
      all were, and so does the delete. */
  lemma TransactionOpsKeepInvariants(bs: seq<Borrower>, borrowerId: string, txId: string, t: Transaction, u: TxUpdate, now: string)
    requires DistinctIds(bs) && AllSorted(bs)
    ensures DistinctIds(AfterAdd(bs, borrowerId, t, now)) && AllSorted(AfterAdd(bs, borrowerId, t, now))
    ensures DistinctIds(AfterUpdate(bs, borrowerId, txId, u, now)) && AllSorted(AfterUpdate(bs, borrowerId, txId, u, now))
    ensures DistinctIds(AfterDelete(bs, borrowerId, txId, now)) && AllSorted(AfterDelete(bs, borrowerId, txId, now))
  {
    AddKeepsInvariants(bs, borrowerId, t, now);
    UpdateKeepsInvariants(bs, borrowerId, txId, u, now);
    DeleteKeepsInvariants(bs, borrowerId, txId, now);
  }

  lemma AddKeepsInvariants(bs: seq<Borrower>, borrowerId: string, t: Transaction, now: string)
    requires DistinctIds(bs) && AllSorted(bs)
    ensures DistinctIds(AfterAdd(bs, borrowerId, t, now)) && AllSorted(AfterAdd(bs, borrowerId, t, now))
  {
    var r := AfterAdd(bs, borrowerId, t, now);
    AddFacts(bs, borrowerId, t, now);
    SameIds(bs, r);
  }

  lemma UpdateKeepsInvariants(bs: seq<Borrower>, borrowerId: string, txId: string, u: TxUpdate, now: string)
    requires DistinctIds(bs) && AllSorted(bs)
    ensures DistinctIds(AfterUpdate(bs, borrowerId, txId, u, now)) && AllSorted(AfterUpdate(bs, borrowerId, txId, u, now))
  {
    var r := AfterUpdate(bs, borrowerId, txId, u, now);
    UpdateFacts(bs, borrowerId, txId, u, now);
    SameIds(bs, r);
  }

  lemma DeleteKeepsInvariants(bs: seq<Borrower>, borrowerId: string, txId: string, now: string)
    requires DistinctIds(bs) && AllSorted(bs)
    ensures DistinctIds(AfterDelete(bs, borrowerId, txId, now)) && AllSorted(AfterDelete(bs, borrowerId, txId, now))
  {
    var r := AfterDelete(bs, borrowerId, txId, now);
    DeleteFacts(bs, borrowerId, txId, now);
    SameIds(bs, r);
  }

  lemma SameIds(bs: seq<Borrower>, r: seq<Borrower>)
    requires DistinctIds(bs) && |r| == |bs|
    requires forall k :: 0 <= k < |bs| ==> r[k].id == bs[k].id
    ensures DistinctIds(r)
  {
  }
}
