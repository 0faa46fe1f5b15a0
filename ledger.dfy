/** The page's ledger state and the three handlers that change it in place:
    the `expenses` list and the 12-slot `monthlyTotals` array. */
module ExpenseLedger {
  import opened Records
  import opened Installments
  import opened LedgerSpec

  /** `expenses.find(exp => exp.id === id)`, as the position it stops at. */
  method FindById(es: seq<Expense>, id: int) returns (r: Option<nat>)
    ensures r == FirstIndex(es, id)
  {
    var i := 0;
    while i < |es|
      invariant 0 <= i <= |es|
      invariant forall j :: 0 <= j < i ==> es[j].id != id
    {
      if es[i].id == id {
        return Some(i);
      }
      i := i + 1;
    }
    return None;
  }

  class Ledger {
    var expenses: seq<Expense>
    const monthlyTotals: array<int>

    ghost predicate Valid()
      reads this
    {
      monthlyTotals.Length == 12
    }

    /** The ledger's value, as the functions of LedgerSpec describe it. */
    ghost function Snapshot(): State
      reads this, monthlyTotals
    {
      State(expenses, monthlyTotals[..])
    }

    /** Page load as written: the stored records, and totals that start at
        zero whatever was stored. */
    constructor (stored: seq<Expense>)
      ensures Valid() && fresh(monthlyTotals)
      ensures Snapshot() == Startup(stored)
    {
      expenses := stored;
      monthlyTotals := new int[12](_ => 0);
      new;
      assert monthlyTotals[..] == seq(12, _ => 0);
    }

    /** Page load with the totals rebuilt from the stored records, so that
        they agree with the list from the start. */
    constructor Load(stored: seq<Expense>)
      ensures Valid() && fresh(monthlyTotals)
      ensures expenses == stored && Consistent(Snapshot())
    {
      var totals := new int[12](_ => 0);
      for j := 0 to |stored|
        invariant forall k :: 0 <= k < 12 ==> totals[k] == MonthSum(stored[..j], k)
      {
        var e := stored[j];
        if 0 <= e.month < 12 {
          totals[e.month] := totals[e.month] + e.amount;
        }
        assert stored[..j + 1][..j] == stored[..j];
      }
      assert stored[..|stored|] == stored;
      expenses := stored;
      monthlyTotals := totals;
    }

    /** The form's submit handler. The month is the index selected in a 12-option select. */
    method AddExpense(p: AddRequest) returns (ok: bool)
      requires Valid() && 0 <= p.month
      modifies this, monthlyTotals
      ensures Valid()
      ensures ok == Accepts(p)
      ensures Snapshot() == Added(old(Snapshot()), p)
      ensures old(Invariant(Snapshot())) && FreshFor(old(expenses), p) ==> Invariant(Snapshot())
    {
      if p.description == [] || p.amount == 0 || p.installments == 0 {
        return false;
      }
      ghost var s := Snapshot();
      PushInstallments(p);
      AddedAccepted(s, p);
      if Invariant(s) && FreshFor(s.expenses, p) {
        AddedInvariant(s, p);
      }
      return true;
    }

    /** The handler's loop: one record per installment, each adding the full
        amount to the total of the month it lands on. */
    method PushInstallments(p: AddRequest)
      requires Valid() && 0 <= p.month
      modifies this, monthlyTotals
      ensures Valid()
      ensures expenses == old(expenses) + Expansion(p)
      ensures monthlyTotals[..] == Accumulate(old(monthlyTotals[..]), p, Count(p))
    {
      ghost var before := monthlyTotals[..];
      var i := 0;
      while i < p.installments
        invariant 0 <= i <= Count(p)
        invariant expenses == old(expenses) + Pushed(p, i)
        invariant monthlyTotals[..] == Accumulate(before, p, i)
      {
        var month := (p.month + i) % 12;
        var expense := Expense(p.baseId + i, Label(p.description, i, p.installments), p.amount, month, false);
        assert expense == Installment(p, i);
        PushStep(before, p, i);
        expenses := expenses + [expense];
        monthlyTotals[month] := monthlyTotals[month] + p.amount;
        i := i + 1;
      }
    }

    /** The "Pago" button handler. */
    method MarkAsPaid(id: int)
      requires Valid()
      modifies this
      ensures Valid()
      ensures Snapshot() == MarkedPaid(old(Snapshot()), id)
      ensures old(Invariant(Snapshot())) ==> Invariant(Snapshot())
    {
      var found := FindById(expenses, id);
      if found.Some? {
        var i := found.value;
        expenses := expenses[i := expenses[i].(paid := true)];
      }
      if old(Invariant(Snapshot())) {
        MarkedPaidInvariant(old(Snapshot()), id);
      }
    }

    /** The "Excluir" button handler. */
    method DeleteExpense(id: int)
      requires Valid()
      modifies this, monthlyTotals
      ensures Valid()
      ensures Snapshot() == Deleted(old(Snapshot()), id)
      ensures old(Invariant(Snapshot())) ==> Invariant(Snapshot())
    {
      ghost var s := Snapshot();
      var found := FindById(expenses, id);
      if found.Some? {
        var expense := expenses[found.value];
        ghost var totals := s.totals;
        if 0 <= expense.month < 12 {
          monthlyTotals[expense.month] := monthlyTotals[expense.month] - expense.amount;
          totals := s.totals[expense.month := s.totals[expense.month] - expense.amount];
          assert monthlyTotals[..] == totals;
        }
        expenses := WithoutId(expenses, id);
        DeletedFound(s, id, found.value);
        assert Snapshot() == State(WithoutId(s.expenses, id), totals);
      }
      if Invariant(s) {
        DeletedInvariant(s, id);
      }
    }
  }
}
