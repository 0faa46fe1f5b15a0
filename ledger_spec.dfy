/** The ledger as a value: the expense list and the 12 cached monthly
    totals, the effect of each operation on them, and the invariant that
    the cached totals equal the per-month sums of the list. */
module LedgerSpec {
  import opened Records
  import opened Installments

  datatype State = State(expenses: seq<Expense>, totals: seq<int>)

  /** The totals hold one slot per month. */
  predicate Shaped(s: State) {
    |s.totals| == 12
  }

  /** Every slot equals the sum of the amounts of the records of its month. */
  predicate Consistent(s: State) {
    Shaped(s) && forall k :: 0 <= k < 12 ==> s.totals[k] == MonthSum(s.expenses, k)
  }

  /** What every operation is proved to keep. */
  predicate Invariant(s: State) {
    Consistent(s) && UniqueIds(s.expenses)
  }

  /** The state after the page loads: the stored records, and totals that
      all start at zero whatever was stored. */
  function Startup(stored: seq<Expense>): (s: State)
    ensures Shaped(s) && s.expenses == stored
    ensures forall k :: 0 <= k < 12 ==> s.totals[k] == 0
  {
    State(stored, seq(12, _ => 0))
  }

  /** Submitting the form: a rejected submission changes nothing; an accepted
      one appends the expansion and adds the amount to each month it lands on,
      once per landing. */
  function Added(s: State, p: AddRequest): (r: State)
    requires Shaped(s)
    ensures Shaped(r)
    ensures !Accepts(p) ==> r == s
    ensures Accepts(p) ==> r.expenses == s.expenses + Expansion(p)
    ensures Accepts(p) ==> forall k :: 0 <= k < 12 ==>
      r.totals[k] == s.totals[k] + p.amount * HitCount(p.month, Count(p), k)
  {
    if Accepts(p) then
      assert forall k :: 0 <= k < 12 ==> Landed(p, Count(p), k) == p.amount * HitCount(p.month, Count(p), k) by {
        forall k | 0 <= k < 12 {
          LandedScaled(p, Count(p), k);
        }
      }
      State(s.expenses + Expansion(p), Accumulate(s.totals, p, Count(p)))
    else s
  }

  lemma AddedAccepted(s: State, p: AddRequest)
    requires Shaped(s) && Accepts(p)
    ensures Added(s, p) == State(s.expenses + Expansion(p), Accumulate(s.totals, p, Count(p)))
  {
  }

  /** The form check lets a negative installment count through, but the loop
      then runs no iteration, so the submission changes nothing. */
  lemma NegativeInstallmentsAccepted(s: State, p: AddRequest)
    requires Shaped(s) && p.description != [] && p.amount != 0 && p.installments < 0
    ensures Accepts(p) && Count(p) == 0 && Added(s, p) == s
  {
    assert s.expenses + Expansion(p) == s.expenses;
  }

  /** Marking as paid: the first record with `id` becomes paid; nothing else
      changes, and an unknown id changes nothing. */
  function MarkedPaid(s: State, id: int): (r: State)
    ensures r.totals == s.totals && |r.expenses| == |s.expenses|
    ensures !HasId(s.expenses, id) ==> r == s
    ensures forall j :: 0 <= j < |s.expenses| ==>
      r.expenses[j] == s.expenses[j]
      || (s.expenses[j].id == id && r.expenses[j] == s.expenses[j].(paid := true)
          && forall i :: 0 <= i < j ==> s.expenses[i].id != id)
    ensures forall j :: (0 <= j < |s.expenses| && s.expenses[j].id == id
                         && forall i :: 0 <= i < j ==> s.expenses[i].id != id) ==> r.expenses[j].paid
  {
    match FirstIndex(s.expenses, id)
    case None => s
    case Some(i) => State(s.expenses[i := s.expenses[i].(paid := true)], s.totals)
  }

  /** Deleting: the total of the first matching record's month drops by its
      amount, and every record carrying `id` leaves the list. */
  function Deleted(s: State, id: int): (r: State)
    requires Shaped(s)
    ensures Shaped(r)
    ensures !HasId(s.expenses, id) ==> r == s
    ensures r.expenses == WithoutId(s.expenses, id)
    ensures HasId(s.expenses, id) ==>
      var e := s.expenses[FirstIndex(s.expenses, id).value];
      forall k :: 0 <= k < 12 ==> r.totals[k] == s.totals[k] - Contribution(e, k)
  {
    match FirstIndex(s.expenses, id)
    case None =>
      WithoutIdAbsent(s.expenses, id);
      s
    case Some(i) =>
      var e := s.expenses[i];
      var totals := if 0 <= e.month < 12 then s.totals[e.month := s.totals[e.month] - e.amount] else s.totals;
      WithoutIdMembers(s.expenses, id);
      State(WithoutId(s.expenses, id), totals)
  }

  /** The value of a delete whose id is found, in the terms of the handler's
      two statements. */
  lemma DeletedFound(s: State, id: int, i: nat)
    requires Shaped(s) && FirstIndex(s.expenses, id) == Some(i)
    ensures var e := s.expenses[i];
      Deleted(s, id) == State(WithoutId(s.expenses, id),
        if 0 <= e.month < 12 then s.totals[e.month := s.totals[e.month] - e.amount] else s.totals)
  {
  }

  // ----- the operations keep the invariant -----

  /** An accepted or rejected submission keeps the totals consistent, whatever its ids. */
  lemma AddedConsistent(s: State, p: AddRequest)
    requires Consistent(s)
    ensures Consistent(Added(s, p))
  {
    if Accepts(p) {
      var r := Added(s, p);
      forall k | 0 <= k < 12 ensures r.totals[k] == MonthSum(r.expenses, k) {
        MonthSumAppend(s.expenses, Expansion(p), k);
        PushedMonthSum(p, Count(p), k);
      }
    }
  }

  lemma AddedInvariant(s: State, p: AddRequest)
    requires Invariant(s) && FreshFor(s.expenses, p)
    ensures Invariant(Added(s, p))
  {
    AddedConsistent(s, p);
    if Accepts(p) {
      ExpansionKeepsIdsUnique(s.expenses, p);
    }
  }

  lemma MarkedPaidInvariant(s: State, id: int)
    requires Invariant(s)
    ensures Invariant(MarkedPaid(s, id))
  {
    match FirstIndex(s.expenses, id)
    case None =>
    case Some(i) =>
      var es := s.expenses;
      var r := MarkedPaid(s, id);
      forall k | 0 <= k < 12 ensures r.totals[k] == MonthSum(r.expenses, k) {
        MonthSumUpdate(es, i, es[i].(paid := true), k);
      }
      assert forall j :: 0 <= j < |es| ==> r.expenses[j].id == es[j].id;
  }

  /** With unique ids, deleting a present id removes that one record, keeps
      the rest in order (installments of the same purchase included), and
      lowers only its month's total, by its amount. */
  lemma DeletedUnique(s: State, i: nat)
    requires Shaped(s) && UniqueIds(s.expenses) && i < |s.expenses|
    ensures var e, r := s.expenses[i], Deleted(s, s.expenses[i].id);
      && r.expenses == s.expenses[..i] + s.expenses[i + 1..]
      && |r.expenses| == |s.expenses| - 1
      && forall k :: 0 <= k < 12 ==> r.totals[k] == s.totals[k] - Contribution(e, k)
  {
    var es := s.expenses;
    assert FirstIndex(es, es[i].id) == Some(i);
    WithoutIdUnique(es, i);
  }

  lemma DeletedInvariant(s: State, id: int)
    requires Invariant(s)
    ensures Invariant(Deleted(s, id))
  {
    match FirstIndex(s.expenses, id)
    case None =>
    case Some(i) =>
      var es := s.expenses;
      var r := Deleted(s, id);
      DeletedUnique(s, i);
      forall k | 0 <= k < 12 ensures r.totals[k] == MonthSum(r.expenses, k) {
        MonthSumRemoveAt(es, i, k);
      }
      UniqueIdsRemoveAt(es, i);
  }

  // ----- repeated requests on a missing or handled id -----

  lemma MarkedPaidIdempotent(s: State, id: int)
    ensures MarkedPaid(MarkedPaid(s, id), id) == MarkedPaid(s, id)
  {
    match FirstIndex(s.expenses, id)
    case None =>
    case Some(i) =>
      var r := MarkedPaid(s, id);
      assert FirstIndex(r.expenses, id) == Some(i);
  }

  /** Deleting the same id twice is deleting it once, even with duplicate ids:
      the first call leaves no record with that id. */
  lemma DeletedIdempotent(s: State, id: int)
    requires Shaped(s)
    ensures Deleted(Deleted(s, id), id) == Deleted(s, id)
  {
    var r := Deleted(s, id);
    WithoutIdMembers(s.expenses, id);
    assert !HasId(r.expenses, id) by {
      forall j | 0 <= j < |r.expenses| ensures r.expenses[j].id != id {
        assert r.expenses[j] in r.expenses;
      }
    }
  }

  // ----- where the invariant fails -----

  /** Without unique ids, delete breaks the totals: it subtracts one record
      but removes two. */
  lemma DuplicateIdsBreakDelete()
    ensures var s := State([Expense(7, "Luz", 100, 0, false), Expense(7, "Gás", 50, 0, false)],
                           [150] + seq(11, _ => 0));
      Consistent(s) && !Consistent(Deleted(s, 7))
  {
    var es := [Expense(7, "Luz", 100, 0, false), Expense(7, "Gás", 50, 0, false)];
    var s := State(es, [150] + seq(11, _ => 0));
    MonthSumAppend([es[0]], [es[1]], 0);
    MonthSumSingle(es[0], 0);
    MonthSumSingle(es[1], 0);
    forall k | 1 <= k < 12 ensures s.totals[k] == MonthSum(es, k) {
      MonthSumAppend([es[0]], [es[1]], k);
      MonthSumSingle(es[0], k);
      MonthSumSingle(es[1], k);
      assert es == [es[0]] + [es[1]];
    }
    assert es == [es[0]] + [es[1]];
    var r := Deleted(s, 7);
    WithoutIdAppend([es[0]], [es[1]], 7);
    WithoutIdSingle(es[0], 7);
    WithoutIdSingle(es[1], 7);
    assert r.expenses == [];
    assert r.totals[0] == 50;
  }

  /** The stored records sum to zero in every month. */
  predicate SumsToZero(es: seq<Expense>) {
    forall k :: 0 <= k < 12 ==> MonthSum(es, k) == 0
  }

  /** The startup state is consistent exactly when the stored records sum to
      zero in every month; an empty store is the case that holds in practice. */
  lemma StartupConsistent(stored: seq<Expense>)
    ensures Consistent(Startup(stored)) <==> SumsToZero(stored)
    ensures Consistent(Startup([]))
  {
    var s := Startup(stored);
    if !SumsToZero(stored) {
      var k :| 0 <= k < 12 && MonthSum(stored, k) != 0;
      assert s.totals[k] != MonthSum(s.expenses, k);
    }
  }

  /** A page reload with one stored record already shows a zero total for
      its month, and deleting that record then drives the total negative. */
  lemma StartupDrift()
    ensures var s := Startup([Expense(1, "Aluguel (Parcela 1/1)", 120000, 0, false)]);
      !Consistent(s) && Deleted(s, 1).totals[0] == -120000
  {
    var e := Expense(1, "Aluguel (Parcela 1/1)", 120000, 0, false);
    MonthSumSingle(e, 0);
    assert FirstIndex([e], 1) == Some(0);
  }

  // ----- any run of operations -----

  datatype Op = AddOp(request: AddRequest) | MarkPaidOp(id: int) | DeleteOp(id: int)

  function Apply(s: State, op: Op): (r: State)
    requires Shaped(s)
    ensures Shaped(r)
  {
    match op
    case AddOp(p) => Added(s, p)
    case MarkPaidOp(id) => MarkedPaid(s, id)
    case DeleteOp(id) => Deleted(s, id)
  }

  function Run(s: State, ops: seq<Op>): (r: State)
    requires Shaped(s)
    ensures Shaped(r)
    decreases |ops|
  {
    if ops == [] then s else Run(Apply(s, ops[0]), ops[1..])
  }

  /** Every submission in the run hands out ids no record has at that point. */
  predicate FreshRun(s: State, ops: seq<Op>)
    requires Shaped(s)
    decreases |ops|
  {
    ops == []
    || ((ops[0].AddOp? ==> FreshFor(s.expenses, ops[0].request)) && FreshRun(Apply(s, ops[0]), ops[1..]))
  }

  /** After any run of add, mark-paid and delete with fresh ids, starting
      from a state that satisfies the invariant, the totals still equal the
      per-month sums and the ids are still unique. */
  lemma {:induction false} RunInvariant(s: State, ops: seq<Op>)
    requires Invariant(s) && FreshRun(s, ops)
    ensures Invariant(Run(s, ops))
    decreases |ops|
  {
    if ops != [] {
      match ops[0] {
        case AddOp(p) => AddedInvariant(s, p);
        case MarkPaidOp(id) => MarkedPaidInvariant(s, id);
        case DeleteOp(id) => DeletedInvariant(s, id);
      }
      RunInvariant(Apply(s, ops[0]), ops[1..]);
    }
  }

  /** In particular from a first visit, with nothing stored. */
  lemma FirstVisitRun(ops: seq<Op>)
    requires FreshRun(Startup([]), ops)
    ensures Consistent(Run(Startup([]), ops))
  {
    RunInvariant(Startup([]), ops);
  }
}
