# Budget ledger model

A Dafny model of the budget ledger of a client-side budgeting widget: the
`budgetController` closure of `assets/js/app.js`, plus the `formatNumber`
helper the user interface uses to print amounts.

The ledger keeps two ordered sequences of records, incomes and expenses. It
also stores four figures: the income total, the expense total, the budget and
the share of income spent. Those figures are recomputed only when the caller
asks for it. The model has these parts:

- `LedgerSpec` (`ledger_spec.dfy`) holds the pure rules. A new id is the tail's
  id plus one, or 0 (`NextId`). Deletion finds an id with `indexOf` (`IndexOf`)
  and cuts it out with `splice` (`RemoveAt`). Totals are sums (`Sum`). A
  percentage is `Math.round(part / whole * 100)` computed exactly on whole
  numbers (`RoundedPercent`), or the sentinel -1 when the whole is not
  positive (`Percent`).
- `BudgetController` (`budget_controller.dfy`) holds the state.
  - `Income` is a datatype, because nothing changes an income after it is created.
  - `Expense` is a class: its `percentage` field is rewritten in place by
    `CalcPercentage`, while its id, description and value are constants.
  - `Ledger` is a class with the fields `incomes`, `expenses`, `totalInc`,
    `totalExp`, `budget` and `percentage`. `Valid()` is its invariant: ids
    strictly increase along each sequence, every stored entry passed the
    caller's guard, every stored expense percentage is -1 or a non-negative
    share, and the stored figures agree with each other
    (`budget == totalInc - totalExp`, and `percentage` is the rounded share
    of `totalExp` in `totalInc`, or -1), even when they are stale. The constructor
    establishes `Valid()` and the four commands `AddItem`, `DeleteItem`,
    `CalculateBudget` and `CalculatePercentages` keep it, so the `requires
    Valid()` of the queries holds in every state those commands reach.
- `Formatting` (`format_number.dfy`) holds `formatNumber` on whole numbers of
  cents, with a parser as its inverse.
- `Scenarios` (`scenarios.dfy`) is client code that drives the ledger through the
  documented command sequences, using only the ledger's contracts.

Amounts are whole numbers, read as cents. The caller's guard
(`description !== ""`, and a value that is a number greater than zero) is the
precondition of `AddItem`. Floating point is not modelled.

Where the system's specification and the code differ, the model follows the
code. The specification says that deleting the newest entry makes its id the
next one handed out. The code does that only when no gap precedes the deleted id: with
ids `[0, 2]`, deleting `2` makes `1` the next id, not `2`.
`LedgerSpec.DeleteTailNextId` states the exact condition, and
`LedgerSpec.DeleteNewestReusesId` proves the documented case, where only
additions came before.

## Model

| member | source | states |
|---|---|---|
| `BudgetController.Expense.constructor` | assets/js/app.js:12-18 | a new expense has the given id, description and value, and the sentinel -1 as its percentage |
| `BudgetController.Expense.CalcPercentage` | assets/js/app.js:20-26 | the stored percentage is the rounded share of the given total income when that total is positive, and -1 exactly when it is not |
| `BudgetController.Expense.GetPercentage` | assets/js/app.js:28-30 | returns the stored percentage without recomputing it, and that value is either the sentinel -1 or a non-negative share, since the constructor and `CalcPercentage` are the only writers |
| `BudgetController.Ledger.constructor` | assets/js/app.js:34-48 | the ledger starts with empty sequences, zero totals, zero budget and percentage -1, and satisfies the invariant |
| `BudgetController.Ledger.CalculateTotal` | assets/js/app.js:50-58 | the loop leaves the sum of the values of that kind in that kind's total; the other total is unchanged, and the records stay valid |
| `BudgetController.Ledger.AddItem` | assets/js/app.js:61-83 | appends exactly one record, with id = tail id + 1 (or 0), the given description and value, and percentage -1 for an expense; returns that record; the other sequence and all stored figures are unchanged; the invariant is kept |
| `BudgetController.Ledger.DeleteItem` | assets/js/app.js:85-97 | if the id is present, removes the record at its `indexOf` position and keeps the rest in order, so the values of that kind lose exactly that position; otherwise changes nothing; afterwards the id is absent; the other sequence and the stored figures are unchanged |
| `BudgetController.Ledger.CalculateBudget` | assets/js/app.js:99-115 | totals become the sums of the current values, budget = income total - expense total exactly, and percentage is the rounded share of expenses in income, or -1 exactly when there is no income |
| `BudgetController.Ledger.CalculatePercentages` | assets/js/app.js:117-121 | every expense's percentage becomes its rounded share of the stored (possibly stale) income total, or -1 when that total is 0; only expense percentages change |
| `BudgetController.Ledger.GetPercentages` | assets/js/app.js:123-129 | returns one entry per expense, in sequence order, each the expense's stored percentage, and each entry is -1 or a non-negative share; reads only |
| `BudgetController.AcceptedInput` | assets/js/app.js:400-404 | the guard accepts exactly a non-empty description with a value of at least one cent, so an accepted value is positive |
| `BudgetController.Ledger.GetBudget` | assets/js/app.js:131-138 | returns the four stored figures as they are; under the invariant budget = totalInc - totalExp, and percentage is -1 exactly when totalInc is 0 |
| `LedgerSpec.NextId` | assets/js/app.js:65-69 | the next id is 0 for an empty sequence, and exceeds every present id when the ids increase |
| `LedgerSpec.IndexOf` | assets/js/app.js:88-92 | returns -1 exactly when the id is absent; otherwise the first position holding it |
| `LedgerSpec.RemoveAt` | assets/js/app.js:94-96 | `splice(index, 1)`: one element shorter, the elements before the index unchanged, the ones after moved down by one position |
| `LedgerSpec.RoundedPercent` | assets/js/app.js:109-111 | the whole number r with r - 1/2 <= 100 * part / whole < r + 1/2 |
| `LedgerSpec.Percent` | assets/js/app.js:21-25 | -1 exactly when the whole is not positive; otherwise a non-negative rounded percentage, so the sentinel is unambiguous |
| `LedgerSpec.RoundedPercentIsRound` | assets/js/app.js:22 | over the reals, the result is floor(part / whole * 100 + 1/2), which is what `Math.round` gives for these operands |
| `LedgerSpec.RoundedPercentUnique` | assets/js/app.js:22 | no other whole number meets the rounding bounds |
| `LedgerSpec.RoundedPercentAtMost100` | assets/js/app.js:109-111 | when expenses do not exceed income, the spend percentage is at most 100 |
| `LedgerSpec.RoundedPercentMonotone` | assets/js/app.js:22 | a larger expense never gets a smaller percentage of the same income |
| `LedgerSpec.AppendNextIdKeepsIncreasing` | assets/js/app.js:65-79 | appending the next id keeps the ids strictly increasing, and the new id is not already present |
| `LedgerSpec.RemoveAtKeepsIncreasing` | assets/js/app.js:94-96 | splicing one id out keeps the ids strictly increasing, and the removed id no longer occurs |
| `LedgerSpec.IdsAfterAddsCount` | assets/js/app.js:65-69 | n additions with no deletion in between hand out the ids 0, 1, ..., n - 1 in order |
| `LedgerSpec.DeleteTailNextId` | assets/js/app.js:65-69 | after deleting the tail, the next id is never above the deleted id, and equals it exactly when the id before it is one less (or it was id 0 alone) |
| `LedgerSpec.DeleteNewestReusesId` | assets/js/app.js:85-97 | after n plain additions, deleting id n - 1 makes n - 1 the next id again |
| `LedgerSpec.SumAppend` | assets/js/app.js:53-55 | adding one more value to the sequence adds it to the sum |
| `LedgerSpec.SumRemoveAt` | assets/js/app.js:50-58 | after a record is deleted, the recomputed total is lower by exactly that record's value |
| `LedgerSpec.SumOfPositive` | assets/js/app.js:400-404 | with positive values, totals are never negative, and are positive when there is a record |
| `Formatting.FormatNumber` | assets/js/app.js:169-188 | the text starts with "- " for an expense and "+ " for an income, the digits between the space and the point (commas dropped) denote the whole units of the absolute amount, and the two digits after the point denote its cents |
| `Formatting.InsertComma` | assets/js/app.js:178-183 | up to three digits are left alone; a longer string gets one comma, placed before its last three characters, with every other character kept in order |
| `Formatting.FormatNumberCommas` | assets/js/app.js:178-183 | the text has exactly one comma when the integer part has more than three digits, and none otherwise |
| `Formatting.UngroupInsertComma` | assets/js/app.js:178-183 | dropping the comma from the grouped integer part gives back its digits |
| `Formatting.DecimalStringDigits` | assets/js/app.js:173-176 | the integer part is a non-empty string of digits denoting the number, with more than three digits exactly from 1000 on |
| `Formatting.TwoDigitsValue` | assets/js/app.js:185 | the decimal part is two digits denoting the cents |
| `Formatting.FormatNumberRoundTrip` | assets/js/app.js:169-188 | parsing the formatted text gives back the kind and the absolute amount in cents |

## Left out

- The user interface (`UIController`: reading input, building list HTML, removing list nodes, clearing fields, showing the budget and the percentages, switching the input style) is DOM presentation and is not part of this model.
- `displayMonth` reads the clock through `new Date()` and is not part of this model.
- `appController` (event listeners, the DOM walk in `ctrlDeleteItem`, `parseInt` of the clicked id, `init`) is browser glue. Only its input guard is kept, as the precondition of `AddItem`.
- `calculateTotal` is private to the closure in the source and is reached only through `calculateBudget`. Dafny cannot hide a class member, so `Ledger.CalculateTotal` is public here: it keeps `RecordsValid()`, but a client that calls it alone leaves `FiguresAgree()` (and so `Valid()`) broken until `CalculateBudget` runs.
- `testing()` only logs the data to the console and is not modelled.
- Amounts are whole numbers (cents), not IEEE doubles. Floating-point artefacts of `value / total * 100` and of `toFixed(2)` are not reproduced. Rounding is exact floor(x + 1/2).
- `Formatting.FormatNumberRoundTrip`: `formatNumber` is modelled on whole cents, so the `toFixed(2)` rounding of a double to two decimals is not modelled.
- An item kind other than "inc" or "exp" (where the source would fail on an undefined array) cannot be expressed, because `Kind` has only the two kinds.
- `DeleteItem` takes an integer id. A `NaN` id from `parseInt` never matches and is a no-op in the source; the model cannot express that input.
- The record returned by `addItem` is the stored object itself. For expenses the model returns the same `Expense` object. For incomes it returns an equal value, which is the same thing here because an income is never changed.
