/**
 "Expenses by Category": expense amounts summed per category and laid out on
 the configured category list with zero fill, then set against the budget of
 each category to give the remaining amount and a status.
 */
module Categories {
  import opened Ledger
  import opened Totals
  import opened Grouping
  import opened Strings

  /** The Category and Amount columns of the rows whose Type is "Expense". */
  function ExpensePairs(rows: seq<Row>): seq<(string, int)>
  {
    if rows == [] then []
    else (if rows[0].kind == Expense then [(rows[0].category, rows[0].amount)] else [])
         + ExpensePairs(rows[1..])
  }

  /** Reference meaning of a category's spend: the sum of its expense rows. */
  function Spent(rows: seq<Row>, c: string): int
  {
    if rows == [] then 0
    else (if rows[0].kind == Expense && rows[0].category == c then rows[0].amount else 0)
         + Spent(rows[1..], c)
  }

  /** Expense whose category is not one of `cats`; such rows have no line in the category table. */
  function UnconfiguredExpense(rows: seq<Row>, cats: seq<string>): int
  {
    if rows == [] then 0
    else (if rows[0].kind == Expense && rows[0].category !in cats then rows[0].amount else 0)
         + UnconfiguredExpense(rows[1..], cats)
  }

  datatype CategorySpend = CategorySpend(category: string, spent: int)

  /** `reindex(cats, fill_value=0)`: one entry per label of `cats`, in that order. */
  function Reindex(g: map<string, int>, cats: seq<string>): (r: seq<CategorySpend>)
    ensures |r| == |cats|
    ensures forall i :: 0 <= i < |cats| ==> r[i] == CategorySpend(cats[i], Lookup(g, cats[i]))
  {
    if cats == [] then [] else [CategorySpend(cats[0], Lookup(g, cats[0]))] + Reindex(g, cats[1..])
  }

  lemma {:induction false} ExpensePairsSums(rows: seq<Row>, cats: seq<string>)
    ensures Total(ExpensePairs(rows)) == TotalExpense(rows)
    ensures Outside(ExpensePairs(rows), cats) == UnconfiguredExpense(rows, cats)
    ensures forall c :: KeySum(ExpensePairs(rows), c) == Spent(rows, c)
  {
    if rows != [] {
      ExpensePairsSums(rows[1..], cats);
      var p := ExpensePairs(rows[1..]);
      if rows[0].kind == Expense {
        var x := (rows[0].category, rows[0].amount);
        assert ExpensePairs(rows) == [x] + p;
        assert ([x] + p)[1..] == p;
      } else {
        assert ExpensePairs(rows) == p;
      }
    }
  }

  /**
   `groupby('Category')['Amount'].sum().reindex(categories, fill_value=0)` over
   the expense rows: exactly one entry per configured category, in the
   configured order, holding the sum of that category's expense rows (0 when
   it has none).
   */
  function CategoryExpense(rows: seq<Row>, cats: seq<string>): (r: seq<CategorySpend>)
    ensures |r| == |cats|
    ensures forall i :: 0 <= i < |cats| ==> r[i].category == cats[i] && r[i].spent == Spent(rows, cats[i])
  {
    var p := ExpensePairs(rows);
    ExpensePairsSums(rows, cats);
    assert forall c :: Lookup(GroupSum(p), c) == KeySum(p, c) by {
      forall c ensures Lookup(GroupSum(p), c) == KeySum(p, c) {
        LookupGroupSum(p, c);
      }
    }
    Reindex(GroupSum(p), cats)
  }

  function SpentTotal(t: seq<CategorySpend>): int
  {
    if t == [] then 0 else t[0].spent + SpentTotal(t[1..])
  }

  lemma {:induction false} ReindexTotal(p: seq<(string, int)>, cats: seq<string>)
    ensures SpentTotal(Reindex(GroupSum(p), cats)) == SumOver(cats, p)
  {
    if cats != [] {
      LookupGroupSum(p, cats[0]);
      ReindexTotal(p, cats[1..]);
    }
  }

  /**
   Expense of unconfigured categories is left out of the category table but
   not out of the total: the configured categories' spend plus the
   unconfigured expense is the total expense.
   */
  lemma CategoryPartition(rows: seq<Row>, cats: seq<string>)
    requires Distinct(cats)
    ensures SpentTotal(CategoryExpense(rows, cats)) + UnconfiguredExpense(rows, cats) == TotalExpense(rows)
  {
    var p := ExpensePairs(rows);
    ExpensePairsSums(rows, cats);
    ReindexTotal(p, cats);
    Partition(cats, p);
  }

  /** A category with no expense row has spent 0. */
  lemma {:induction false} SpentWithoutRows(rows: seq<Row>, c: string)
    requires forall r :: r in rows && r.kind == Expense ==> r.category != c
    ensures Spent(rows, c) == 0
  {
    if rows != [] {
      assert rows[0] in rows;
      assert forall r :: r in rows[1..] ==> r in rows;
      SpentWithoutRows(rows[1..], c);
    }
  }

  datatype Status = WithinBudget | OverBudget

  /** `np.where(Remaining >= 0, 'Within Budget', 'Over Budget')` */
  function StatusOf(remaining: int): Status
  {
    if remaining >= 0 then WithinBudget else OverBudget
  }

  /** One line of the budget table: the columns Budget, Spent, Remaining and Status. */
  datatype BudgetLine = BudgetLine(category: string, budget: int, spent: int, remaining: int, status: Status)

  /**
   The budget table built from the per-category spend and the budgets:
   Remaining is Budget minus Spent, and a category is over budget exactly
   when it spent more than its budget (spending exactly the budget is within it).
   */
  function Compare(budgets: map<string, nat>, spend: seq<CategorySpend>): (r: seq<BudgetLine>)
    requires forall i :: 0 <= i < |spend| ==> spend[i].category in budgets
    ensures |r| == |spend|
    ensures forall i :: 0 <= i < |spend| ==>
      && r[i].category == spend[i].category
      && r[i].budget == budgets[spend[i].category]
      && r[i].spent == spend[i].spent
      && r[i].remaining == r[i].budget - r[i].spent
      && (r[i].status == OverBudget <==> r[i].spent > r[i].budget)
  {
    seq(|spend|, i requires 0 <= i < |spend| =>
      var b := budgets[spend[i].category];
      BudgetLine(spend[i].category, b, spend[i].spent, b - spend[i].spent, StatusOf(b - spend[i].spent)))
  }

  /**
   The whole budget table for the configured categories: one line per
   category in the configured order with its budget, the sum of its expense
   rows, the remainder and the status. The budgets cover exactly the
   configured categories, as the sidebar builds them.
   */
  function BudgetTable(rows: seq<Row>, cats: seq<string>, budgets: map<string, nat>): (r: seq<BudgetLine>)
    requires budgets.Keys == set c | c in cats
    ensures |r| == |cats|
    ensures forall i :: 0 <= i < |cats| ==>
      && r[i].category == cats[i]
      && r[i].budget == budgets[cats[i]]
      && r[i].spent == Spent(rows, cats[i])
      && r[i].remaining == budgets[cats[i]] - Spent(rows, cats[i])
      && (r[i].status == WithinBudget <==> Spent(rows, cats[i]) <= budgets[cats[i]])
  {
    Compare(budgets, CategoryExpense(rows, cats))
  }

  /**
   With no expense rows and budgets that are never negative, every category
   has spent 0 and is within budget.
   */
  lemma NoExpenseAllWithin(rows: seq<Row>, cats: seq<string>, budgets: map<string, nat>)
    requires budgets.Keys == set c | c in cats
    requires forall r :: r in rows ==> r.kind != Expense
    ensures forall i :: 0 <= i < |cats| ==>
      BudgetTable(rows, cats, budgets)[i].spent == 0 && BudgetTable(rows, cats, budgets)[i].status == WithinBudget
  {
    forall c {
      SpentWithoutRows(rows, c);
    }
  }

  /**
   A ledger of one expense row: its category (when configured) has spent its
   amount, every other category 0, each line classified by its own budget.
   */
  lemma SingleExpense(r: Row, cats: seq<string>, budgets: map<string, nat>)
    requires budgets.Keys == set c | c in cats
    requires r.kind == Expense
    ensures forall i :: 0 <= i < |cats| ==>
      && BudgetTable([r], cats, budgets)[i].spent == (if cats[i] == r.category then r.amount else 0)
      && (BudgetTable([r], cats, budgets)[i].status == OverBudget <==>
          (if cats[i] == r.category then r.amount else 0) > budgets[cats[i]])
  {
    assert forall c :: Spent([r], c) == (if c == r.category then r.amount else 0) by {
      assert [r][1..] == [];
    }
  }
}
