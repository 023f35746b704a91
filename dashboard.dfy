/**
 The dashboard's analytics as one report: the headline figures, the
 per-category spend, the budget table and the monthly pivot, computed from
 the transaction rows and the budgets set in the sidebar.
 */
module Dashboard {
  import opened Strings
  import opened Ledger
  import opened Totals
  import opened Categories
  import opened Monthly

  /** The configured categories, in sidebar order. */
  const ConfiguredCategories: seq<string> :=
    ["Housing", "Food", "Transport", "Entertainment", "Healthcare", "Utilities", "Other"]

  /** The budget each sidebar input starts at. */
  const DefaultBudget: nat := 1000

  /** The budgets before the user changes any input: the default for every configured category. */
  function DefaultBudgets(): (b: map<string, nat>)
    ensures b.Keys == set c | c in ConfiguredCategories
    ensures forall c :: c in b ==> b[c] == DefaultBudget
  {
    map c | c in ConfiguredCategories :: DefaultBudget
  }

  lemma ConfiguredCategoriesDistinct()
    ensures Distinct(ConfiguredCategories)
  {
  }

  datatype Report = Report(
    totalIncome: int,
    totalExpense: int,
    netSavings: int,
    categoryExpense: seq<CategorySpend>,
    budgetTable: seq<BudgetLine>,
    monthly: MonthlyTable)

  /**
   Everything the dashboard shows, from one batch of rows. The pieces agree
   with one another: net savings is income minus expense; the category
   spend plus the expense of unconfigured categories is the total expense;
   and in the monthly pivot the "Income" and "Expense" columns add up to the
   two headline totals, a total being 0 when its column is absent.
   */
  function Analyze(rows: seq<Row>, budgets: map<string, nat>): (r: Report)
    requires budgets.Keys == set c | c in ConfiguredCategories
    ensures r.netSavings == r.totalIncome - r.totalExpense
    ensures r.totalIncome == KindTotal(rows, Income) && r.totalExpense == KindTotal(rows, Expense)
    ensures SpentTotal(r.categoryExpense) + UnconfiguredExpense(rows, ConfiguredCategories) == r.totalExpense
    ensures |r.budgetTable| == |r.categoryExpense| == |ConfiguredCategories|
    ensures forall i :: 0 <= i < |r.budgetTable| ==> r.budgetTable[i].spent == r.categoryExpense[i].spent
    ensures forall i :: 0 <= i < |r.monthly.cells| ==> |r.monthly.cells[i]| == |r.monthly.kinds|
    ensures forall j :: 0 <= j < |r.monthly.kinds| && r.monthly.kinds[j] == Income ==>
      ColumnSum(r.monthly.cells, j) == r.totalIncome
    ensures forall j :: 0 <= j < |r.monthly.kinds| && r.monthly.kinds[j] == Expense ==>
      ColumnSum(r.monthly.cells, j) == r.totalExpense
    ensures Income !in r.monthly.kinds ==> r.totalIncome == 0
    ensures Expense !in r.monthly.kinds ==> r.totalExpense == 0
  {
    var mp := MonthlyPivot(rows);
    ConfiguredCategoriesDistinct();
    CategoryPartition(rows, ConfiguredCategories);
    assert Income !in mp.kinds ==> KindTotal(rows, Income) == 0 by {
      if Income !in mp.kinds { MissingColumnTotal(rows, Income); }
    }
    assert Expense !in mp.kinds ==> KindTotal(rows, Expense) == 0 by {
      if Expense !in mp.kinds { MissingColumnTotal(rows, Expense); }
    }
    assert forall j :: 0 <= j < |mp.kinds| ==> ColumnSum(mp.cells, j) == KindTotal(rows, mp.kinds[j]) by {
      forall j | 0 <= j < |mp.kinds| {
        ColumnTotals(rows, j);
      }
    }
    Report(
      TotalIncome(rows),
      TotalExpense(rows),
      NetSavings(rows),
      CategoryExpense(rows, ConfiguredCategories),
      BudgetTable(rows, ConfiguredCategories, budgets),
      mp)
  }

  /**
   An empty ledger: all totals 0, every category spent 0 and within budget,
   and an empty monthly pivot.
   */
  lemma EmptyLedger(budgets: map<string, nat>)
    requires budgets.Keys == set c | c in ConfiguredCategories
    ensures Analyze([], budgets).totalIncome == 0
    ensures Analyze([], budgets).totalExpense == 0
    ensures Analyze([], budgets).netSavings == 0
    ensures forall i :: 0 <= i < |ConfiguredCategories| ==>
      Analyze([], budgets).budgetTable[i].spent == 0 && Analyze([], budgets).budgetTable[i].status == WithinBudget
    ensures Analyze([], budgets).monthly.months == []
  {
    NoExpenseAllWithin([], ConfiguredCategories, budgets);
  }

  /**
   With the budgets the sidebar starts with, a category is over budget
   exactly when its expense rows add up to more than 1000.
   */
  lemma DefaultBudgetStatus(rows: seq<Row>)
    ensures forall i :: 0 <= i < |ConfiguredCategories| ==>
      && Analyze(rows, DefaultBudgets()).budgetTable[i].budget == DefaultBudget
      && (Analyze(rows, DefaultBudgets()).budgetTable[i].status == OverBudget <==>
          Spent(rows, ConfiguredCategories[i]) > DefaultBudget)
  {
  }
}
