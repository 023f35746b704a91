# Financial budget tracker: the analytics engine, in Dafny

The budget tracker dashboard reads a table of transactions. Each row has a
Date, a Category, an Amount and a Type. It shows four derived results:

- the headline totals: total income, total expense and net savings;
- the expense per configured category, with zero fill;
- a budget table with Budget, Spent, Remaining and Status per category;
- a monthly pivot of amounts by month and Type.

This project models those computations as pure Dafny functions over a
sequence of rows and proves what they promise. The dashboard's widgets,
charts and file handling are not modelled.

Modules, one per piece of the engine:

- `Strings` (strings.dfy): Python's string order. `SortedDistinct` models the sorted,
  duplicate-free key index that `groupby` builds.
- `Grouping` (grouping.dfy): `groupby(...).sum()` over (key, amount) pairs as a map.
  Zero-fill lookup. The partition of a column's total into the groups of a
  key list plus everything outside it.
- `Ledger` (ledger.dfy): dates in the range a pandas timestamp holds, the
  transaction row, and the Month column (`'%Y-%m'`, zero padded).
- `Totals` (totals.dfy): total income, total expense, net savings.
- `Categories` (categories.dfy): per-category expense, the budget comparison and the
  status.
- `Monthly` (monthly.dfy): the (Month, Type) pivot.
- `Dashboard` (dashboard.dfy): the configured category list, the default budgets, and
  the whole report with the properties that tie its pieces together.

Notes on the program's behaviour that the model follows:

- Nothing in the aggregation validates a row: amounts, Types and categories
  are never checked. A negative amount is summed like any other. A Type other than "Income" or "Expense" reaches
  neither headline total, but it does get its own column in the monthly
  pivot. An unconfigured category counts in the total expense and has no line
  in the category table. The aggregation has no error cases.
- The pivot's columns are the distinct Type values present in the data,
  sorted. They are not a fixed income/expense pair. With no income row at
  all, there is no "Income" column (`MissingColumnTotal` shows that total
  is then 0).
- Months are sorted as strings, as `groupby` sorts them. `MonthKeyOrder`
  proves that this string order is calendar order for the zero-padded
  `'%Y-%m'` keys.
- The sidebar builds a budget for every configured category (budget.py:18-20).
  A missing budget would give NaN and "Over Budget" in pandas; the model
  requires budgets for exactly the configured categories.

## Model

| member | source | states |
|---|---|---|
| `Strings.SortedDistinct` | budget.py:85 | the group index is strictly sorted (so has no duplicates) and holds exactly the distinct keys |
| `Strings.Insert` | budget.py:85 | adding a key keeps the index strictly sorted and adds exactly that key |
| `Grouping.GroupSum` | budget.py:58 | the grouped sum has one entry per key present, equal to the sum of that key's amounts |
| `Grouping.LookupGroupSum` | budget.py:58 | reading a grouped sum with zero fill gives the key's sum, 0 for an absent key |
| `Grouping.Partition` | budget.py:58 | for distinct keys, the groups' sums plus the amounts outside them give the column total |
| `Ledger.MonthKey` | budget.py:42 | the Month key is seven characters: four decimal digits reading back as the year, a dash, two decimal digits reading back as the month; so two dates share a key iff they are in the same calendar month |
| `Ledger.PadRoundTrip` | budget.py:42 | a zero-padded number is all decimal digits and reads back as the number |
| `Ledger.PadOrder` | budget.py:42 | zero-padded numbers of one width order and compare as strings exactly as the numbers do |
| `Ledger.MonthKeyOrder` | budget.py:42 | one Month key sorts before another iff its date is in an earlier calendar month |
| `Totals.NetSavingsIsBalance` | budget.py:45-47 | `NetSavings` (income minus expense) is the signed row-by-row balance of the ledger, and it is negative iff expense exceeds income |
| `Totals.TypePartition` | budget.py:45-46 | each amount counts once: in `TotalIncome` and `TotalExpense` (`KindTotal` of "Income" and "Expense", exact match) or among rows of another Type |
| `Totals.OtherTypeIgnored` | budget.py:45-46 | adding a row of another Type changes neither total income nor total expense |
| `Totals.KindTotalAbsent` | budget.py:45-46 | `KindTotal` of a Type that no row carries is 0, as an empty `.sum()` |
| `Totals.KindTotalAppend` | budget.py:45-46 | the total of a Type over two batches is the sum of the totals of each |
| `Totals.KindTotalPermutation` | budget.py:45-46 | the totals do not depend on the order of the rows |
| `Categories.CategoryExpense` | budget.py:58 | one entry per configured category, in configured order, holding the sum of its expense rows (0 if none) |
| `Categories.CategoryPartition` | budget.py:58 | with distinct categories, the configured categories' spend plus the unconfigured expense equals the total expense |
| `Categories.SpentWithoutRows` | budget.py:58 | a category with no expense row has spent 0 |
| `Categories.Compare` | budget.py:61-66 | each line carries the category's budget and spend, Remaining = Budget - Spent, and the `StatusOf` it gets is Over Budget iff spent exceeds budget |
| `Categories.BudgetTable` | budget.py:58-66 | one line per configured category in order, spent the sum of its expense rows, Within Budget iff spent <= budget (equality is within) |
| `Categories.NoExpenseAllWithin` | budget.py:58-66 | with no expense rows and non-negative budgets, every category has spent 0 and is Within Budget |
| `Categories.SingleExpense` | budget.py:58-66 | one expense row: its category has spent its amount and every other category 0, each status set by its own budget |
| `Monthly.MonthTypePairs` | budget.py:85 | the (Month, Type) key column has one pair per row, and the pairs' total is the sum of all amounts |
| `Monthly.MonthTypeKeySum` | budget.py:85 | the amounts keyed by (m, t) in that column sum to the independent `CellSum` of month m and Type t |
| `Monthly.MonthlyPivot` | budget.py:85 | months strictly ascending and exactly those of the rows; Types likewise; each cell the sum for that month and Type, 0 if none |
| `Monthly.ColumnTotals` | budget.py:85 | each Type's column summed over all months equals that Type's grand total |
| `Monthly.MissingColumnTotal` | budget.py:85 | a Type without a column in the pivot has grand total 0 |
| `Monthly.MonthlyChronological` | budget.py:85 | a transaction of an earlier pivot row lies in an earlier calendar month than one of a later row |
| `Monthly.IncomeThenExpense` | budget.py:85 | an income and a later expense give two month rows in order, columns Expense and Income, and 0 where a month lacks a Type |
| `Dashboard.DefaultBudgets` | budget.py:17-20 | the initial budgets cover exactly the configured categories, each at 1000 |
| `Dashboard.DefaultBudgetStatus` | budget.py:17-66 | with the initial budgets every line has budget 1000, and a category is Over Budget iff its expense rows sum to more than 1000 |
| `Dashboard.ConfiguredCategoriesDistinct` | budget.py:17 | the configured categories are distinct |
| `Dashboard.Analyze` | budget.py:42-85 | net savings = income - expense; category spend + unconfigured expense = total expense; the budget table matches the category spend; the Income and Expense columns of the pivot sum to the headline totals (0 when absent) |
| `Dashboard.EmptyLedger` | budget.py:45-85 | an empty ledger gives zero totals, every category spent 0 and Within Budget, and no month rows |

## Left out

- The Streamlit page: page setup, sidebar widgets, metrics, headers, tables, messages and status colouring (budget.py:8-20, 49-55, 68-70, 101-105). Budgets are a parameter instead of widget state.
- CSV upload and parsing, and `pd.to_datetime` (budget.py:14, 34-35, 41): foreign I/O. An unparseable Date raises at budget.py:41 and no report is produced; the model's rows hold an already parsed date.
- Missing values: every model row has a date, a Type and an amount. In the program an empty Date becomes NaT (budget.py:41) and its Month NaN (budget.py:42); `groupby` drops such rows from the pivot (budget.py:85) while they still count in the totals (budget.py:45-46), so `ColumnTotals` and the column sums of `Analyze` do not hold there. An empty Amount is skipped by `.sum()`; an empty Type reaches no total and no pivot column.
- The random sample data (budget.py:23-31).
- All charts (budget.py:73-79, 86-90, 94-98), including the average-budget line and the pie percentages: floating point and rendering.
- Currency formatting `:,.2f` (budget.py:50-52), and the Data Explorer sort (budget.py:103): presentation only.
- Amounts are unbounded integers. Whole-number amounts (the sample data's `randint`, budget.py:28, or a CSV of whole numbers) are int64 columns whose sums wrap around on overflow; that wrap-around is not modelled. Float columns round; that rounding is not modelled either.
- Ledger.IsTimestamp: the pandas timestamp range is taken as whole years 1677 to 2262. The real bounds fall within those years (September 1677, April 2262).
- Categories.BudgetTable: requires budgets for exactly the configured categories. The sidebar always builds them so. The NaN path of a missing or extra budget is not modelled.
