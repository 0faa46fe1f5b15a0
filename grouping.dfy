/** The month-by-month view the page renders: for each month from January
    to December that has records, that month's records in list order. */
module Grouping {
  import opened Records

  datatype MonthGroup = MonthGroup(month: int, expenses: seq<Expense>)

  /** `expenses.filter(exp => exp.month === k)` */
  function OfMonth(es: seq<Expense>, k: int): (r: seq<Expense>)
    ensures |r| <= |es|
    ensures forall i :: 0 <= i < |r| ==> r[i].month == k
  {
    if es == [] then []
    else OfMonth(es[..|es| - 1], k) + (if es[|es| - 1].month == k then [es[|es| - 1]] else [])
  }

  /** A month's group holds exactly the records of that month. */
  lemma {:induction false} OfMonthMembers(es: seq<Expense>, k: int)
    ensures forall e :: e in OfMonth(es, k) <==> e in es && e.month == k
    decreases |es|
  {
    if es != [] {
      OfMonthMembers(es[..|es| - 1], k);
      assert es == es[..|es| - 1] + [es[|es| - 1]];
    }
  }

  /** The filter distributes over concatenation: within a month, records keep
      the order they have in the list. */
  lemma {:induction false} OfMonthAppend(a: seq<Expense>, b: seq<Expense>, k: int)
    ensures OfMonth(a + b, k) == OfMonth(a, k) + OfMonth(b, k)
    decreases |b|
  {
    if b == [] {
      assert a + b == a;
    } else {
      assert (a + b)[..|a + b| - 1] == a + b[..|b| - 1];
      OfMonthAppend(a, b[..|b| - 1], k);
    }
  }

  function AmountSum(es: seq<Expense>): int {
    if es == [] then 0 else AmountSum(es[..|es| - 1]) + es[|es| - 1].amount
  }

  /** A month's total is the sum of the amounts listed under that month. */
  lemma {:induction false} MonthSumIsGroupSum(es: seq<Expense>, k: int)
    ensures MonthSum(es, k) == AmountSum(OfMonth(es, k))
    decreases |es|
  {
    if es != [] {
      var init, last := es[..|es| - 1], es[|es| - 1];
      MonthSumIsGroupSum(init, k);
      var g := OfMonth(init, k);
      if last.month == k {
        assert (g + [last])[..|g + [last]| - 1] == g;
      } else {
        assert g + [] == g;
      }
    }
  }

  /** Some record falls in month `k`. */
  predicate HasMonth(es: seq<Expense>, k: int) {
    exists e :: e in es && e.month == k
  }

  /** The view has a group for month `k`. */
  predicate Listed(groups: seq<MonthGroup>, k: int) {
    exists i :: 0 <= i < |groups| && groups[i].month == k
  }

  /** `g` is a rendered card for a month in `m..11`: that month's records, at least one. */
  predicate CardFrom(es: seq<Expense>, g: MonthGroup, m: int) {
    m <= g.month < 12 && g.expenses == OfMonth(es, g.month) && g.expenses != []
  }

  /** The groups for months `m` to 11. */
  function GroupsFrom(es: seq<Expense>, m: nat): seq<MonthGroup>
    requires m <= 12
    decreases 12 - m
  {
    if m == 12 then []
    else
      var g := OfMonth(es, m);
      (if g == [] then [] else [MonthGroup(m, g)]) + GroupsFrom(es, m + 1)
  }

  lemma GroupsFromUnfold(es: seq<Expense>, m: nat)
    requires m < 12
    ensures OfMonth(es, m) == [] ==> GroupsFrom(es, m) == GroupsFrom(es, m + 1)
    ensures OfMonth(es, m) != [] ==>
      GroupsFrom(es, m) == [MonthGroup(m, OfMonth(es, m))] + GroupsFrom(es, m + 1)
  {
  }

  /** Every group in `r` is a card for a month in `m..11`. */
  predicate CardsFrom(es: seq<Expense>, r: seq<MonthGroup>, m: int) {
    forall i :: 0 <= i < |r| ==> CardFrom(es, r[i], m)
  }

  lemma CardsCons(es: seq<Expense>, g: MonthGroup, rest: seq<MonthGroup>, m: int)
    requires CardFrom(es, g, m) && CardsFrom(es, rest, m + 1)
    ensures CardsFrom(es, [g] + rest, m)
  {
    var r := [g] + rest;
    forall i | 0 < i < |r| ensures CardFrom(es, r[i], m) {
      assert r[i] == rest[i - 1];
      assert CardFrom(es, rest[i - 1], m + 1);
    }
  }

  lemma CardsWiden(es: seq<Expense>, r: seq<MonthGroup>, m: int)
    requires CardsFrom(es, r, m + 1)
    ensures CardsFrom(es, r, m)
  {
    forall i | 0 <= i < |r| ensures CardFrom(es, r[i], m) {
      assert CardFrom(es, r[i], m + 1);
    }
  }

  /** Every group for months `m` to 11 is a card for one of those months. */
  lemma {:induction false} GroupsFromCards(es: seq<Expense>, m: nat)
    requires m <= 12
    ensures CardsFrom(es, GroupsFrom(es, m), m)
    decreases 12 - m
  {
    if m < 12 {
      GroupsFromCards(es, m + 1);
      GroupsFromUnfold(es, m);
      var g := OfMonth(es, m);
      if g != [] {
        CardsCons(es, MonthGroup(m, g), GroupsFrom(es, m + 1), m);
      } else {
        CardsWiden(es, GroupsFrom(es, m + 1), m);
      }
    }
  }

  /** Groups within months `m..11`, in strictly ascending month order. */
  predicate AscendingFrom(r: seq<MonthGroup>, m: int) {
    && (forall i :: 0 <= i < |r| ==> m <= r[i].month < 12)
    && (forall i, j :: 0 <= i < j < |r| ==> r[i].month < r[j].month)
  }

  lemma AscendingCons(g: MonthGroup, rest: seq<MonthGroup>, m: int)
    requires g.month == m < 12 && AscendingFrom(rest, m + 1)
    ensures AscendingFrom([g] + rest, m)
  {
    var r := [g] + rest;
    assert forall i :: 0 < i < |r| ==> r[i] == rest[i - 1];
  }

  lemma AscendingWiden(r: seq<MonthGroup>, m: int)
    requires AscendingFrom(r, m + 1)
    ensures AscendingFrom(r, m)
  {
  }

  /** The groups for months `m` to 11 come in ascending month order. */
  lemma {:induction false} GroupsFromAscending(es: seq<Expense>, m: nat)
    requires m <= 12
    ensures AscendingFrom(GroupsFrom(es, m), m)
    decreases 12 - m
  {
    if m < 12 {
      GroupsFromAscending(es, m + 1);
      GroupsFromUnfold(es, m);
      var g := OfMonth(es, m);
      if g != [] {
        AscendingCons(MonthGroup(m, g), GroupsFrom(es, m + 1), m);
      } else {
        AscendingWiden(GroupsFrom(es, m + 1), m);
      }
    }
  }

  /** Every month in `m..11` with at least one record has a group in `r`. */
  predicate CompleteFrom(es: seq<Expense>, r: seq<MonthGroup>, m: int) {
    forall k :: m <= k < 12 && OfMonth(es, k) != [] ==> Listed(r, k)
  }

  lemma ListedCons(g: MonthGroup, rest: seq<MonthGroup>, k: int)
    requires g.month == k || Listed(rest, k)
    ensures Listed([g] + rest, k)
  {
    var r := [g] + rest;
    if g.month != k {
      var i :| 0 <= i < |rest| && rest[i].month == k;
      assert r[i + 1] == rest[i];
    } else {
      assert r[0] == g;
    }
  }

  /** Every month from `m` to 11 with at least one record has a group. */
  lemma {:induction false} GroupsFromComplete(es: seq<Expense>, m: nat)
    requires m <= 12
    ensures CompleteFrom(es, GroupsFrom(es, m), m)
    decreases 12 - m
  {
    if m < 12 {
      GroupsFromComplete(es, m + 1);
      GroupsFromUnfold(es, m);
      var rest := GroupsFrom(es, m + 1);
      var g := OfMonth(es, m);
      forall k | m <= k < 12 && OfMonth(es, k) != [] ensures Listed(GroupsFrom(es, m), k) {
        if g != [] {
          ListedCons(MonthGroup(m, g), rest, k);
        }
      }
    }
  }

  /** The view: months ascending, each month with at least one record exactly
      once, holding exactly that month's records in list order. */
  function GroupByMonth(es: seq<Expense>): (r: seq<MonthGroup>)
    ensures forall i, j :: 0 <= i < j < |r| ==> r[i].month < r[j].month
    ensures forall i :: 0 <= i < |r| ==> 0 <= r[i].month < 12 && r[i].expenses == OfMonth(es, r[i].month)
    ensures forall k :: 0 <= k < 12 ==> (Listed(r, k) <==> HasMonth(es, k))
  {
    var r := GroupsFrom(es, 0);
    GroupsFromCards(es, 0);
    GroupsFromAscending(es, 0);
    GroupsFromComplete(es, 0);
    assert forall k :: 0 <= k < 12 ==> (Listed(r, k) <==> HasMonth(es, k)) by {
      forall k | 0 <= k < 12 ensures Listed(r, k) <==> HasMonth(es, k) {
        if Listed(r, k) {
          var i :| 0 <= i < |r| && r[i].month == k;
          assert CardFrom(es, r[i], 0);
          OfMonthMembers(es, k);
          assert r[i].expenses[0] in OfMonth(es, k);
        }
        if HasMonth(es, k) {
          var e :| e in es && e.month == k;
          OfMonthMembers(es, k);
          assert e in OfMonth(es, k);
        }
      }
    }
    r
  }
}
