# Expense ledger of the monthly spending page

The page keeps two pieces of state:

- `expenses`, the list of expense records. Each record has an id, a description, an amount, a month index 0..11 and a paid flag.
- `monthlyTotals`, twelve cached sums that feed the monthly chart.

Three handlers change that state:

- **Submitting the form** adds a purchase. The purchase expands into one record per installment on consecutive months, wrapping from December to January. Each record carries the **full** amount and a description suffixed with ` (Parcela i/n)`, and adds its amount to its month's total.
- **"Pago"** marks the first record with a given id as paid.
- **"Excluir"** lowers the month total of the first record with that id by its amount, then drops every record with that id.

The page also renders the list grouped by month. A month appears, from January to December, only when it has records, and it lists them in list order.

The model has six modules:

- `Decimal`: the decimal numerals printed into installment descriptions.
- `Records`: the expense record, id lookup, per-month sums and the id filter.
- `Installments`: one form submission, the records it expands into and what it adds to each month.
- `LedgerSpec`: the ledger as a value, with the effect of each handler on it. It defines the invariant "each cached total is the sum of its month's amounts, and ids are unique" and proves that the handlers keep it, one call at a time and over any run of calls.
- `ExpenseLedger`: the handlers as methods of a `Ledger` class. The class holds a `seq` of records and a 12-slot `array` of totals, updated in place. Each method is proved to leave the state that the matching `LedgerSpec` function describes.
- `Grouping`: the month-by-month view.

Amounts are integers (centavos). The handler reads the clock once per installment and gives installment `i` the id `Date.now() + i`. The model reads the clock once per submission, as a caller-supplied `baseId`, so installment `i` gets `baseId + i` (see "## Left out"). The invariant lemmas assume that these ids are fresh. The code itself only hopes so, since two submissions in the same millisecond, or with overlapping installment runs, produce duplicate ids. `LedgerSpec.DuplicateIdsBreakDelete` shows what duplicate ids do to deletion.

## Model

| member | source | states |
|---|---|---|
| ExpenseLedger.Ledger.AddExpense | script.js:121-156 | For any non-negative selected month index: a submission is accepted exactly when the description is non-empty and the amount and installment count are non-zero. The new state is `Added` of the old one. A state with consistent totals and unique ids keeps both when the new ids are fresh. |
| ExpenseLedger.Ledger.PushInstallments | script.js:135-149 | The installment loop appends exactly the expansion of the request. Each month's total gains what the loop's additions land on that month. |
| ExpenseLedger.Ledger.MarkAsPaid | script.js:159-166 | The new state is `MarkedPaid` of the old one. The invariant is preserved. |
| ExpenseLedger.Ledger.DeleteExpense | script.js:169-180 | The new state is `Deleted` of the old one. The invariant is preserved. |
| ExpenseLedger.FindById | script.js:160 | The scan stops at the first record with the id, or reports none: the result is `FirstIndex`. |
| ExpenseLedger.Ledger.constructor | script.js:11-12 | Page load as written: the stored records with all twelve totals at zero. |
| ExpenseLedger.Ledger.Load | script.js:11-12 | Corrected page load: the stored records, with totals equal to the per-month sums of those records. |
| Records.FirstIndex | script.js:160 | `find` by id: a found index holds the id and no earlier record does. Nothing is found exactly when no record has the id. |
| Records.WithoutId | script.js:174 | The filter never lengthens the list, and it keeps every record exactly when no record has the id. |
| Records.WithoutIdMembers | script.js:174 | After the filter, a record is present exactly when it was present before and its id differs from the deleted one. |
| Records.WithoutIdUnique | script.js:174 | With unique ids, the filter removes exactly the one record with that id and keeps the rest in order. |
| Records.WithoutIdAbsent | script.js:174 | Filtering an id that no record has leaves the list unchanged. |
| Records.WithoutIdAppend | script.js:174 | The filter distributes over concatenation. |
| Records.MonthSum | script.js:148 | What a month's total should be: the sum of the amounts of the records of that month, paid or not. A plain definition; the lemmas below state its laws. |
| Records.MonthSumEmptyMonth | script.js:148 | A month that no record falls in sums to zero. |
| Records.MonthSumRemoveAt | script.js:173-174 | Removing one record lowers its month's sum by its amount and leaves the other months alone. |
| Records.MonthSumUpdate | script.js:162 | Changing a record's paid flag leaves every month's sum unchanged. |
| Records.MonthSumAppend | script.js:147-148 | A month's sum over a concatenation is the sum of the two parts. |
| Records.UniqueIdsRemoveAt | script.js:174 | Removing a record keeps ids unique. |
| Decimal.Numeral | script.js:141 | The printed installment counter is a non-empty string of digits with no leading zero. |
| Decimal.ValueOfNumeral | script.js:141 | Reading a printed counter back gives the number it was printed from. |
| Decimal.NumeralInjective | script.js:141 | Different counters print differently. |
| Installments.Accepts | script.js:129-132 | The form check: a non-empty description, a non-zero amount and a non-zero installment count. A plain definition; `LedgerSpec.Added` and `LedgerSpec.NegativeInstallmentsAccepted` state its effect. |
| Installments.Count | script.js:135 | How many times the loop runs: the installment count, or none when it is negative. A plain definition; `LedgerSpec.NegativeInstallmentsAccepted` states its effect. |
| Installments.Label | script.js:141 | The description template. A plain definition; `Installments.LabelShape` and `Installments.LabelInjective` state its laws. |
| Installments.LabelShape | script.js:141 | The label starts with the typed description and ends with the closing parenthesis. |
| Installments.LabelInjective | script.js:141 | Within one submission, installments with different counters get different descriptions: the counter is followed by a slash, which is not a digit. |
| Installments.Installment | script.js:137-145 | The record of iteration `i`: id `baseId + i`, the full amount, unpaid, and a month in 0..11. |
| Installments.Pushed | script.js:135-147 | Iteration `i` pushes record `i`: id `baseId + i`, the full amount, month `(month + i) % 12`, unpaid, and the numbered description. |
| Installments.ExpansionRecord | script.js:136-145 | Every record of an accepted submission has its own id, the full amount, a month in 0..11 offset by its index from the chosen one, and is unpaid. |
| Installments.Accumulate | script.js:148 | After `count` iterations, each month's total has gained the loop's additions that land on that month. |
| Installments.LandedScaled | script.js:142-148 | What the loop adds to a month is the full amount times the number of installments that land on it. |
| Installments.PushedMonthSum | script.js:147-148 | The pushed records add to each month's sum exactly what the loop adds to that month's total. |
| Installments.HitCountClosedForm | script.js:135-136 | Each month is hit `n / 12` times, plus once when its offset from the chosen month is below `n % 12`. |
| Installments.HitCountOutside | script.js:136 | No installment lands outside 0..11. |
| Installments.ExpansionKeepsIdsUnique | script.js:137 | Appending an expansion with fresh ids keeps all ids unique. |
| LedgerSpec.Startup | script.js:11-12 | The loaded state: the stored list, twelve zero totals. |
| LedgerSpec.Added | script.js:129-149 | A rejected submission changes nothing. An accepted one appends the expansion, and month `k` gains the amount times the number of installments landing on `k`. |
| LedgerSpec.NegativeInstallmentsAccepted | script.js:129-135 | A negative installment count passes the form check, but the loop runs no iteration, so the submission changes nothing. |
| LedgerSpec.MarkedPaid | script.js:159-166 | Only the first record with the id changes, and it becomes paid. Totals and length are unchanged. An unknown id is a no-op. |
| LedgerSpec.Deleted | script.js:169-180 | The list becomes the id filter of the old list, so the survivors keep their order and multiplicity. When the id is present, every month's total drops by the first matching record's contribution, even when later records share the id. An unknown id is a no-op. |
| LedgerSpec.DeletedUnique | script.js:169-174 | With unique ids, deleting a present id removes one record, keeps the rest in order and lowers only its month's total, by its amount. |
| LedgerSpec.AddedConsistent | script.js:135-149 | A submission keeps the totals equal to the per-month sums, whatever its ids. |
| LedgerSpec.AddedInvariant | script.js:135-149 | A submission with fresh ids keeps the totals consistent and the ids unique. |
| LedgerSpec.MarkedPaidInvariant | script.js:159-166 | Marking paid keeps the totals consistent and the ids unique. |
| LedgerSpec.DeletedInvariant | script.js:169-180 | With unique ids, deleting keeps the totals consistent and the ids unique. |
| LedgerSpec.MarkedPaidIdempotent | script.js:159-166 | Marking the same id paid twice is marking it once. |
| LedgerSpec.DeletedIdempotent | script.js:169-180 | Deleting the same id twice is deleting it once, even with duplicate ids. |
| LedgerSpec.DuplicateIdsBreakDelete | script.js:170-174 | Two records sharing an id: deletion subtracts one amount but removes both, so the totals drift. |
| LedgerSpec.StartupConsistent | script.js:11-12 | The loaded state is consistent exactly when the stored records sum to zero in every month. An empty store is consistent. |
| LedgerSpec.StartupDrift | script.js:11-12 | A reload with one stored record leaves that record's month total at zero, inconsistent with the list. Deleting that record then drives the total to minus its amount. |
| LedgerSpec.RunInvariant | script.js:121-180 | Any run of submissions with fresh ids, payments and deletions keeps the totals consistent and the ids unique. |
| LedgerSpec.FirstVisitRun | script.js:11-12 | From a first visit with nothing stored, the totals stay consistent over any such run. |
| Grouping.GroupByMonth | script.js:69-71 | Groups come in strictly ascending month order, each for a month in 0..11 and holding exactly that month's records. A month has a group exactly when some record falls in it. |
| Grouping.OfMonth | script.js:70 | The month filter returns only records of that month, never more than the list holds. |
| Grouping.OfMonthMembers | script.js:70 | A month's group holds exactly the records of that month. |
| Grouping.OfMonthAppend | script.js:70 | Grouping keeps list order within a month. |
| Grouping.MonthSumIsGroupSum | script.js:70 | A month's sum is the sum of the amounts shown under that month. |

## Left out

- Page elements, event wiring, `alert`, `form.reset()` and the rendered HTML: user interface, not ledger logic. The grouping keeps only which records each month card lists.
- The chart (`updateChart`): it only displays `monthlyTotals`.
- Local storage and JSON: `Ledger` is constructed from the list that storage returned, and saving is not modelled.
- Parsing of the form's text: the pt-BR separator rewrite, `parseFloat` and `parseInt`. The request holds the parsed values. Amounts are integer centavos, so NaN, non-integer amounts and floating-point rounding are not modelled.
- `Intl.NumberFormat` currency formatting: display only.
- Installments.Pushed: the clock is treated as constant during one submission. The handler reads `Date.now()` on every iteration. If the clock ticks mid-loop, the ids still increase but with gaps that no single `baseId` produces. The model gives installment `i` the id `baseId + i`. Freshness of the ids is a hypothesis of the invariant lemmas, and it covers only that gap-free range.
- ExpenseLedger.Ledger.AddExpense: requires a non-negative month index. The select gives -1 when nothing is selected. For negative operands, JavaScript's `%` keeps the dividend's sign, so the source would then file installments under negative months. Dafny's `%` is Euclidean, so `Installments.Installment` and `LedgerSpec.Added` would place them in 0..11 instead. The model does not cover negative indices.
- ExpenseLedger.Ledger.DeleteExpense: a stored record whose month lies outside 0..11 subtracts from no slot. For a month of 12 or more, the source's `monthlyTotals[month] -= amount` stores NaN (undefined minus the amount) at a new index, which lengthens the array handed to the chart. For a negative or fractional month, it adds a NaN-valued property that is not an array index.
- Records are values in a sequence, not shared objects. Mutating the record that `find` returned is modelled as replacing it at its index, and no other alias is observable.

## Findings

| source | as written | input that shows it | evidently intended | confidence | as-written member | corrected member |
|---|---|---|---|---|---|---|
| script.js:11-12 | On load the records come from storage but all twelve totals start at zero, so the chart disagrees with the list, and a later delete can drive a total negative. | One stored record with amount 120000 in month 0: its month total is 0, not 120000. | The totals are rebuilt from the stored records, so that each equals its month's sum. | not executed; high | LedgerSpec.StartupDrift | ExpenseLedger.Ledger.Load |
