/** One submission of the expense form and the records it expands into:
    `installments` copies of the full amount on consecutive months,
    wrapping from December to January. */
module Installments {
  import opened Decimal
  import opened Records

  /** The form's fields after parsing, plus the base id the clock would
      have supplied (record `i` gets id `baseId + i`). */
  datatype AddRequest = AddRequest(month: int, description: string, amount: int,
                                   installments: int, baseId: int)

  /** The form check: a non-empty description, a non-zero amount and a
      non-zero installment count. Negative values pass. */
  predicate Accepts(p: AddRequest) {
    p.description != [] && p.amount != 0 && p.installments != 0
  }

  /** How many times the loop body runs: none for a negative count. */
  function Count(p: AddRequest): nat {
    if p.installments > 0 then p.installments else 0
  }

  /** `<description> (Parcela <i+1>/<n>)` */
  function Label(description: string, i: nat, n: nat): string {
    description + " (Parcela " + Numeral(i + 1) + "/" + Numeral(n) + ")"
  }

  /** The label keeps the typed description as its prefix and closes the
      parenthesised counter. */
  lemma LabelShape(description: string, i: nat, n: nat)
    ensures var r := Label(description, i, n);
      |r| > |description| && r[..|description|] == description && r[|r| - 1] == ')'
  {
    var r := Label(description, i, n);
    assert r == description + (" (Parcela " + Numeral(i + 1) + "/" + Numeral(n) + ")");
  }

  /** Two digit strings that are each followed by a slash in the same string
      are the same digit string. */
  lemma DigitsBeforeSlash(a: string, b: string, t: string, u: string)
    requires forall i :: 0 <= i < |a| ==> IsDigit(a[i])
    requires forall i :: 0 <= i < |b| ==> IsDigit(b[i])
    requires |t| > 0 && t[0] == '/' && |u| > 0 && u[0] == '/'
    requires a + t == b + u
    ensures a == b
  {
    // the slash is the first non-digit of the string, so both prefixes end there
    assert !IsDigit((a + t)[|a|]) && !IsDigit((b + u)[|b|]);
    assert forall i :: 0 <= i < |a| ==> IsDigit((a + t)[i]);
    assert forall i :: 0 <= i < |b| ==> IsDigit((b + u)[i]);
    assert |a| == |b|;
    assert a == (a + t)[..|a|] && b == (b + u)[..|b|];
  }

  /** The installments of one submission carry distinct descriptions: the
      counter is followed by `/`, which is not a digit, so the label
      determines the counter. */
  lemma LabelInjective(description: string, i: nat, j: nat, n: nat)
    ensures Label(description, i, n) == Label(description, j, n) ==> i == j
  {
    if Label(description, i, n) == Label(description, j, n) {
      var prefix := description + " (Parcela ";
      var a, b := Numeral(i + 1), Numeral(j + 1);
      var tail := "/" + Numeral(n) + ")";
      assert Label(description, i, n) == prefix + (a + tail);
      assert Label(description, j, n) == prefix + (b + tail);
      assert a + tail == (prefix + (a + tail))[|prefix|..];
      assert b + tail == (prefix + (b + tail))[|prefix|..];
      DigitsBeforeSlash(a, b, tail, tail);
      NumeralInjective(i + 1, j + 1);
    }
  }

  /** The record that iteration `i` of the loop pushes. */
  function Installment(p: AddRequest, i: nat): (e: Expense)
    requires i < p.installments
    ensures e.id == p.baseId + i && e.amount == p.amount && !e.paid
    ensures 0 <= e.month < 12
  {
    Expense(p.baseId + i, Label(p.description, i, p.installments), p.amount, (p.month + i) % 12, false)
  }

  /** The records pushed by the first `count` iterations, in push order. */
  function Pushed(p: AddRequest, count: nat): (r: seq<Expense>)
    requires count <= Count(p)
    ensures |r| == count
    ensures forall i :: 0 <= i < count ==> r[i] == Installment(p, i)
  {
    if count == 0 then [] else Pushed(p, count - 1) + [Installment(p, count - 1)]
  }

  /** Everything one accepted submission appends. */
  function Expansion(p: AddRequest): seq<Expense> {
    Pushed(p, Count(p))
  }

  /** Record `i` of the expansion: its own id, the full amount, month
      `(month + i) % 12` within 0..11, unpaid, and the numbered description. */
  lemma ExpansionRecord(p: AddRequest, i: nat)
    requires 0 <= p.month < 12 && i < Count(p)
    ensures var e := Expansion(p)[i];
      && e.id == p.baseId + i
      && e.amount == p.amount
      && e.month == (p.month + i) % 12 && 0 <= e.month < 12
      && !e.paid
      && e.description == p.description + " (Parcela " + Numeral(i + 1) + "/" + Numeral(Count(p)) + ")"
  {
  }

  /** The number of `i` in `[0, n)` with `(start + i) % 12 == k`. */
  function HitCount(start: int, n: nat, k: int): nat {
    if n == 0 then 0 else HitCount(start, n - 1, k) + (if (start + n - 1) % 12 == k then 1 else 0)
  }

  /** What the first `n` iterations add to month `k`: the full amount once
      per iteration that lands there. */
  function Landed(p: AddRequest, n: nat, k: int): int {
    if n == 0 then 0 else Landed(p, n - 1, k) + (if (p.month + n - 1) % 12 == k then p.amount else 0)
  }

  /** The amount added to a month is the amount times the number of
      installments that land on it. */
  lemma {:induction false} LandedScaled(p: AddRequest, n: nat, k: int)
    ensures Landed(p, n, k) == p.amount * HitCount(p.month, n, k)
  {
    if n > 0 {
      LandedScaled(p, n - 1, k);
      ScaleStep(p.amount, HitCount(p.month, n - 1, k), (p.month + n - 1) % 12 == k);
    }
  }

  /** `a * (h + [hit]) == a * h + (if hit then a else 0)`, kept apart so that
      the proofs that use it stay linear. */
  lemma ScaleStep(a: int, h: nat, hit: bool)
    ensures a * (h + (if hit then 1 else 0)) == a * h + (if hit then a else 0)
  {
  }

  /** The totals after the first `count` iterations of
      `monthlyTotals[month] += amount`. */
  function Accumulate(totals: seq<int>, p: AddRequest, count: nat): (r: seq<int>)
    requires |totals| == 12
    ensures |r| == 12
    ensures forall k :: 0 <= k < 12 ==> r[k] == totals[k] + Landed(p, count, k)
  {
    if count == 0 then totals
    else
      var t := Accumulate(totals, p, count - 1);
      var m := (p.month + count - 1) % 12;
      t[m := t[m] + p.amount]
  }

  /** One more iteration pushes record `i` and adds the amount to its month. */
  lemma PushStep(totals: seq<int>, p: AddRequest, i: nat)
    requires |totals| == 12 && i < Count(p)
    ensures Pushed(p, i + 1) == Pushed(p, i) + [Installment(p, i)]
    ensures var m := (p.month + i) % 12;
      Accumulate(totals, p, i + 1) == Accumulate(totals, p, i)[m := Accumulate(totals, p, i)[m] + p.amount]
  {
  }

  /** The records pushed so far add to month `k` exactly what the totals
      gained for month `k`. */
  lemma {:induction false} PushedMonthSum(p: AddRequest, count: nat, k: int)
    requires count <= Count(p)
    ensures MonthSum(Pushed(p, count), k) == Landed(p, count, k)
  {
    if count > 0 {
      var prev, x := Pushed(p, count - 1), Installment(p, count - 1);
      assert Pushed(p, count) == prev + [x];
      PushedMonthSum(p, count - 1, k);
      MonthSumAppend(prev, [x], k);
      MonthSumSingle(x, k);
    }
  }

  /** A month outside 0..11 is never hit. */
  lemma {:induction false} HitCountOutside(start: int, n: nat, k: int)
    requires k < 0 || 12 <= k
    ensures HitCount(start, n, k) == 0
  {
    if n > 0 {
      HitCountOutside(start, n - 1, k);
    }
  }

  lemma ModTwelve(x: int, q: int, r: int)
    requires x == 12 * q + r && 0 <= r < 12
    ensures x % 12 == r && x / 12 == q
  {
  }

  /** Closed form: each month is hit `n / 12` times, plus once more when its
      offset from the start month is below `n % 12`. So with more than 12
      installments some month is hit twice or more. */
  lemma {:induction false} HitCountClosedForm(start: int, n: nat, k: int)
    requires 0 <= k < 12
    ensures HitCount(start, n, k) == n / 12 + (if (k - start) % 12 < n % 12 then 1 else 0)
  {
    if n > 0 {
      var m := n - 1;
      HitCountClosedForm(start, m, k);
      var d, r := (k - start) % 12, m % 12;
      // iteration m lands on k exactly when m and k - start agree modulo 12
      var a := k - start;
      ModTwelve(a, a / 12, d);
      ModTwelve(m, m / 12, r);
      assert start + m == 12 * (m / 12 - a / 12) + (k + r - d);
      if r == d {
        ModTwelve(start + m, m / 12 - a / 12, k);
      } else if k + r - d < 0 {
        ModTwelve(start + m, m / 12 - a / 12 - 1, k + r - d + 12);
      } else if k + r - d < 12 {
        ModTwelve(start + m, m / 12 - a / 12, k + r - d);
      } else {
        ModTwelve(start + m, m / 12 - a / 12 + 1, k + r - d - 12);
      }
      assert ((start + m) % 12 == k) == (r == d);
      if r < 11 {
        ModTwelve(n, m / 12, r + 1);
      } else {
        ModTwelve(n, m / 12 + 1, 0);
      }
    }
  }

  /** Fresh ids: no existing record carries any of the ids the submission
      will hand out. */
  predicate FreshFor(es: seq<Expense>, p: AddRequest) {
    forall j :: 0 <= j < |es| ==> !(p.baseId <= es[j].id < p.baseId + Count(p))
  }

  /** Appending the expansion keeps ids unique when its ids are fresh. */
  lemma ExpansionKeepsIdsUnique(es: seq<Expense>, p: AddRequest)
    requires UniqueIds(es) && FreshFor(es, p)
    ensures UniqueIds(es + Expansion(p))
  {
    var x := Expansion(p);
    var r := es + x;
    forall a, b | 0 <= a < |r| && 0 <= b < |r| && a != b ensures r[a].id != r[b].id {
      if a < |es| && b < |es| {
      } else if a < |es| {
        assert r[b] == x[b - |es|] && x[b - |es|].id == p.baseId + (b - |es|);
      } else if b < |es| {
        assert r[a] == x[a - |es|] && x[a - |es|].id == p.baseId + (a - |es|);
      } else {
        assert r[a] == x[a - |es|] && r[b] == x[b - |es|];
      }
    }
  }
}
