/** Expense records and the queries over a list of them that the ledger's
    operations use: find-by-id, filter-by-id and the per-month sum. */
module Records {

  datatype Option<T> = None | Some(value: T)

  /** One stored expense. `amount` is in centavos; `month` is 0 (January)
      to 11 (December), with no year. */
  datatype Expense = Expense(id: int, description: string, amount: int, month: int, paid: bool)

  predicate UniqueIds(es: seq<Expense>) {
    forall i, j :: 0 <= i < |es| && 0 <= j < |es| && i != j ==> es[i].id != es[j].id
  }

  predicate HasId(es: seq<Expense>, id: int) {
    exists j :: 0 <= j < |es| && es[j].id == id
  }

  /** The position of the first record with `id`, as `Array.prototype.find` locates it. */
  function FirstIndex(es: seq<Expense>, id: int): (r: Option<nat>)
    ensures r.Some? ==> r.value < |es| && es[r.value].id == id
                        && forall j :: 0 <= j < r.value ==> es[j].id != id
    ensures r.None? <==> !HasId(es, id)
  {
    if es == [] then None
    else if es[0].id == id then Some(0)
    else match FirstIndex(es[1..], id)
      case None =>
        assert forall j :: 1 <= j < |es| ==> es[j] == es[1..][j - 1];
        None
      case Some(i) => Some(i + 1)
  }

  /** What one record adds to the total of month `k`. */
  function Contribution(e: Expense, k: int): int {
    if e.month == k then e.amount else 0
  }

  /** The sum of the amounts of the records in month `k`, paid or not. */
  function MonthSum(es: seq<Expense>, k: int): int {
    if es == [] then 0 else MonthSum(es[..|es| - 1], k) + Contribution(es[|es| - 1], k)
  }

  /** A month no record falls in sums to zero; in particular every month
      outside 0..11 does when the records' months are in range. */
  lemma {:induction false} MonthSumEmptyMonth(es: seq<Expense>, k: int)
    requires forall j :: 0 <= j < |es| ==> es[j].month != k
    ensures MonthSum(es, k) == 0
    decreases |es|
  {
    if es != [] {
      MonthSumEmptyMonth(es[..|es| - 1], k);
    }
  }

  lemma {:induction false} MonthSumAppend(a: seq<Expense>, b: seq<Expense>, k: int)
    ensures MonthSum(a + b, k) == MonthSum(a, k) + MonthSum(b, k)
    decreases |b|
  {
    if b != [] {
      assert (a + b)[..|a + b| - 1] == a + b[..|b| - 1];
      MonthSumAppend(a, b[..|b| - 1], k);
    } else {
      assert a + b == a;
    }
  }

  lemma MonthSumSingle(e: Expense, k: int)
    ensures MonthSum([e], k) == Contribution(e, k)
  {
    assert [e][..0] == [];
  }

  /** Replacing a record by one with the same month and amount (a paid flag
      flipped, say) changes no month's sum. */
  lemma MonthSumUpdate(es: seq<Expense>, i: nat, x: Expense, k: int)
    requires i < |es| && x.month == es[i].month && x.amount == es[i].amount
    ensures MonthSum(es[i := x], k) == MonthSum(es, k)
  {
    assert es == es[..i] + [es[i]] + es[i + 1..];
    assert es[i := x] == es[..i] + [x] + es[i + 1..];
    MonthSumAppend(es[..i] + [es[i]], es[i + 1..], k);
    MonthSumAppend(es[..i] + [x], es[i + 1..], k);
    MonthSumAppend(es[..i], [es[i]], k);
    MonthSumAppend(es[..i], [x], k);
    MonthSumSingle(es[i], k);
    MonthSumSingle(x, k);
  }

  /** Taking record `i` out lowers exactly its own month's sum, by its amount. */
  lemma MonthSumRemoveAt(es: seq<Expense>, i: nat, k: int)
    requires i < |es|
    ensures MonthSum(es[..i] + es[i + 1..], k) == MonthSum(es, k) - Contribution(es[i], k)
  {
    assert es == es[..i] + [es[i]] + es[i + 1..];
    MonthSumAppend(es[..i] + [es[i]], es[i + 1..], k);
    MonthSumAppend(es[..i], [es[i]], k);
    MonthSumAppend(es[..i], es[i + 1..], k);
    MonthSumSingle(es[i], k);
  }

  /** The records whose id is not `id`, in their original order
      (`expenses.filter(exp => exp.id !== id)`). */
  function WithoutId(es: seq<Expense>, id: int): (r: seq<Expense>)
    ensures |r| <= |es|
    ensures |r| == |es| <==> !HasId(es, id)
  {
    if es == [] then []
    else
      var init, last := es[..|es| - 1], es[|es| - 1];
      assert HasId(es, id) <==> HasId(init, id) || last.id == id by {
        if HasId(init, id) {
          var j :| 0 <= j < |init| && init[j].id == id;
          assert es[j] == init[j];
        }
      }
      WithoutId(init, id) + (if last.id == id then [] else [last])
  }

  /** The filter keeps exactly the records with another id. */
  lemma {:induction false} WithoutIdMembers(es: seq<Expense>, id: int)
    ensures forall e :: e in WithoutId(es, id) <==> e in es && e.id != id
    decreases |es|
  {
    if es != [] {
      WithoutIdMembers(es[..|es| - 1], id);
      assert es == es[..|es| - 1] + [es[|es| - 1]];
    }
  }

  /** Filtering distributes over concatenation: the kept records stay in order. */
  lemma {:induction false} WithoutIdAppend(a: seq<Expense>, b: seq<Expense>, id: int)
    ensures WithoutId(a + b, id) == WithoutId(a, id) + WithoutId(b, id)
    decreases |b|
  {
    if b == [] {
      assert a + b == a;
    } else {
      assert (a + b)[..|a + b| - 1] == a + b[..|b| - 1];
      WithoutIdAppend(a, b[..|b| - 1], id);
    }
  }

  lemma {:induction false} WithoutIdAbsent(es: seq<Expense>, id: int)
    requires !HasId(es, id)
    ensures WithoutId(es, id) == es
    decreases |es|
  {
    if es != [] {
      var init := es[..|es| - 1];
      assert !HasId(init, id) by {
        forall j | 0 <= j < |init| ensures init[j].id != id {
          assert init[j] == es[j];
        }
      }
      WithoutIdAbsent(init, id);
      assert es == init + [es[|es| - 1]];
    }
  }

  lemma WithoutIdSingle(e: Expense, id: int)
    ensures WithoutId([e], id) == if e.id == id then [] else [e]
  {
    assert [e][..0] == [];
  }

  /** With unique ids, no record but record `i` carries its id. */
  lemma OnlyOneWithId(es: seq<Expense>, i: nat)
    requires UniqueIds(es) && i < |es|
    ensures !HasId(es[..i], es[i].id) && !HasId(es[i + 1..], es[i].id)
  {
    var id, pre, post := es[i].id, es[..i], es[i + 1..];
    forall j | 0 <= j < |pre| ensures pre[j].id != id {
      assert pre[j] == es[j];
    }
    forall j | 0 <= j < |post| ensures post[j].id != id {
      assert post[j] == es[i + 1 + j];
    }
  }

  lemma WithoutIdSplice(pre: seq<Expense>, x: Expense, post: seq<Expense>)
    requires !HasId(pre, x.id) && !HasId(post, x.id)
    ensures WithoutId(pre + [x] + post, x.id) == pre + post
  {
    var id := x.id;
    calc {
      WithoutId(pre + [x] + post, id);
      { WithoutIdAppend(pre + [x], post, id); }
      WithoutId(pre + [x], id) + WithoutId(post, id);
      { WithoutIdAppend(pre, [x], id); }
      WithoutId(pre, id) + WithoutId([x], id) + WithoutId(post, id);
      { WithoutIdSingle(x, id); WithoutIdAbsent(pre, id); WithoutIdAbsent(post, id); }
      pre + [] + post;
    }
    assert pre + [] + post == pre + post;
  }

  /** With unique ids, filtering out the id of record `i` removes that record only. */
  lemma WithoutIdUnique(es: seq<Expense>, i: nat)
    requires UniqueIds(es) && i < |es|
    ensures WithoutId(es, es[i].id) == es[..i] + es[i + 1..]
  {
    OnlyOneWithId(es, i);
    assert es == es[..i] + [es[i]] + es[i + 1..];
    WithoutIdSplice(es[..i], es[i], es[i + 1..]);
  }

  /** Removing one record keeps the remaining ids unique. */
  lemma UniqueIdsRemoveAt(es: seq<Expense>, i: nat)
    requires UniqueIds(es) && i < |es|
    ensures UniqueIds(es[..i] + es[i + 1..])
  {
    var r := es[..i] + es[i + 1..];
    forall a | 0 <= a < |r| ensures r[a] == es[if a < i then a else a + 1] {
    }
  }
}
