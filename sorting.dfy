/** Sorting a transaction list by date, as lib/calculations.ts and
    lib/storage.ts do with a stable comparison sort on the dates. */
module Sorting {
  import opened Types
  import opened Balance

  ghost predicate SortedByDate(s: seq<Transaction>)
  {
    forall i, j :: 0 <= i < j < |s| ==> s[i].date <= s[j].date
  }

  /** Puts t after every element dated on or before it, so that equal dates
      keep their order of arrival. */
  function InsertByDate(t: Transaction, s: seq<Transaction>): (r: seq<Transaction>)
    ensures |r| == |s| + 1
  {
    if s == [] then [t]
    else if t.date < s[0].date then [t] + s
    else
      assert s == [s[0]] + s[1..];
      [s[0]] + InsertByDate(t, s[1..])
  }

  lemma {:induction false} InsertByDatePermutes(t: Transaction, s: seq<Transaction>)
    ensures multiset(InsertByDate(t, s)) == multiset(s) + multiset{t}
    decreases |s|
  {
    if s != [] && t.date >= s[0].date {
      assert s == [s[0]] + s[1..];
      InsertByDatePermutes(t, s[1..]);
    }
  }

  lemma {:induction false} InsertByDateSorts(t: Transaction, s: seq<Transaction>)
    requires SortedByDate(s)
    ensures SortedByDate(InsertByDate(t, s))
    decreases |s|
  {
    if s == [] {
    } else if t.date < s[0].date {
      assert forall u :: u in s ==> t.date <= u.date;
      ConsSorted(t, s);
    } else {
      assert s == [s[0]] + s[1..];
      InsertByDateSorts(t, s[1..]);
      InsertByDatePermutes(t, s[1..]);
      var rest := InsertByDate(t, s[1..]);
      forall u | u in rest ensures s[0].date <= u.date {
        assert u in multiset(rest);
        if u != t {
          assert u in multiset(s[1..]);
          var k :| 0 <= k < |s[1..]| && s[1..][k] == u;
          assert s[k + 1] == u;
        }
      }
      ConsSorted(s[0], rest);
    }
  }

  lemma ConsSorted(x: Transaction, s: seq<Transaction>)
    requires SortedByDate(s)
    requires forall u :: u in s ==> x.date <= u.date
    ensures SortedByDate([x] + s)
  {
    var r := [x] + s;
    forall i, j | 0 <= i < j < |r| ensures r[i].date <= r[j].date {
      if i == 0 {
        assert r[j] == s[j - 1];
        assert r[j] in s;
      } else {
        assert r[i] == s[i - 1] && r[j] == s[j - 1];
      }
    }
  }

  /** The stable sort by date: insertion sort, element by element from the
      left. That it sorts is lemma SortByDateSorts. */
  function SortByDate(ts: seq<Transaction>): (r: seq<Transaction>)
    ensures |r| == |ts|
  {
    if ts == [] then []
    else
      InsertByDate(ts[|ts| - 1], SortByDate(ts[..|ts| - 1]))
  }

  lemma {:induction false} SortByDateSorts(ts: seq<Transaction>)
    ensures SortedByDate(SortByDate(ts))
    ensures multiset(SortByDate(ts)) == multiset(ts)
    decreases |ts|
  {
    if ts != [] {
      var init, last := ts[..|ts| - 1], ts[|ts| - 1];
      assert ts == init + [last];
      SortByDateSorts(init);
      InsertByDateSorts(last, SortByDate(init));
      InsertByDatePermutes(last, SortByDate(init));
    }
  }

  /** Taking one element out of a sorted list leaves it sorted. */
  lemma SortedRemove(s: seq<Transaction>, j: nat)
    requires SortedByDate(s) && j < |s|
    ensures SortedByDate(s[..j] + s[j + 1..])
    ensures multiset(s[..j] + s[j + 1..]) == multiset(s) - multiset{s[j]}
  {
    var r := s[..j] + s[j + 1..];
    forall m, n | 0 <= m < n < |r| ensures r[m].date <= r[n].date {
      var m' := if m < j then m else m + 1;
      var n' := if n < j then n else n + 1;
      assert r[m] == s[m'] && r[n] == s[n'];
    }
    RemoveAt(s, j);
  }

  /** The earliest date of a non-empty list. */
  function EarliestDate(ts: seq<Transaction>): (d: int)
    requires ts != []
    ensures exists i :: 0 <= i < |ts| && ts[i].date == d
    ensures forall i :: 0 <= i < |ts| ==> d <= ts[i].date
  {
    if |ts| == 1 then ts[0].date
    else
      var rest := EarliestDate(ts[1..]);
      if ts[0].date <= rest then ts[0].date else rest
  }

  /** After sorting, the first element carries the earliest date. */
  lemma SortedHeadIsEarliest(s: seq<Transaction>, ts: seq<Transaction>)
    requires SortedByDate(s) && multiset(s) == multiset(ts) && ts != []
    ensures s != [] && s[0].date == EarliestDate(ts)
  {
    assert |s| == |multiset(s)| == |ts|;
    var i :| 0 <= i < |ts| && ts[i].date == EarliestDate(ts);
    assert ts[i] in multiset(s);
    assert s[0] in multiset(ts);
  }

  /** In a sorted list, the elements dated on or before x form a prefix: a
      scan that stops at the first later element has seen exactly them. */
  lemma {:induction false} SortedPrefixIsOnOrBefore(s: seq<Transaction>, i: nat, x: int)
    requires SortedByDate(s) && i <= |s|
    requires 0 < i ==> s[i - 1].date <= x
    requires i < |s| ==> s[i].date > x
    ensures s[..i] == OnOrBefore(s, x)
    decreases |s|
  {
    if s != [] {
      if i == 0 {
        assert forall j :: 0 <= j < |s| ==> s[0].date <= s[j].date;
        NoneOnOrBefore(s, x);
      } else {
        assert s[1..][..i - 1] == s[1..i];
        SortedPrefixIsOnOrBefore(s[1..], i - 1, x);
        assert s[..i] == [s[0]] + s[1..i];
      }
    }
  }

  lemma {:induction false} NoneOnOrBefore(s: seq<Transaction>, x: int)
    requires forall j :: 0 <= j < |s| ==> s[j].date > x
    ensures OnOrBefore(s, x) == []
    decreases |s|
  {
    if s != [] {
      NoneOnOrBefore(s[1..], x);
    }
  }

  /** A sorted copy, as the source takes with a spread and an in-place sort;
      callers see that it is in date order and holds the same transactions. */
  method SortedCopy(ts: seq<Transaction>) returns (s: seq<Transaction>)
    ensures SortedByDate(s) && multiset(s) == multiset(ts) && |s| == |ts|
  {
    s := SortByDate(ts);
    SortByDateSorts(ts);
  }
}
