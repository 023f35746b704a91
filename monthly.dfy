/**
 "Monthly Trends": amounts grouped by (Month, Type) and unstacked into one
 row per month with one column per Type, a missing (month, Type) cell
 filled with 0.
 */
module Monthly {
  import opened Strings
  import opened Grouping
  import opened Ledger
  import opened Totals

  /** The (Month, Type) and Amount columns, row by row: every amount is kept, whatever its Type. */
  function MonthTypePairs(rows: seq<Row>): (p: seq<((string, string), int)>)
    ensures |p| == |rows|
    ensures Total(p) == AmountTotal(rows)
  {
    if rows == [] then []
    else
      var x := ((Month(rows[0]), rows[0].kind), rows[0].amount);
      var q := MonthTypePairs(rows[1..]);
      assert ([x] + q)[1..] == q;
      [x] + q
  }

  function MonthsOf(rows: seq<Row>): (s: seq<string>)
    ensures forall m :: m in s <==> exists r :: r in rows && Month(r) == m
  {
    var s := seq(|rows|, i requires 0 <= i < |rows| => Month(rows[i]));
    assert forall m :: m in s ==> exists r :: r in rows && Month(r) == m by {
      forall m | m in s ensures exists r :: r in rows && Month(r) == m {
        var i :| 0 <= i < |s| && s[i] == m;
        assert rows[i] in rows;
      }
    }
    assert forall r :: r in rows ==> Month(r) in s by {
      forall r | r in rows ensures Month(r) in s {
        var i :| 0 <= i < |rows| && rows[i] == r;
        assert s[i] == Month(r);
      }
    }
    s
  }

  function KindsOf(rows: seq<Row>): (s: seq<string>)
    ensures forall k :: k in s <==> exists r :: r in rows && r.kind == k
  {
    var s := seq(|rows|, i requires 0 <= i < |rows| => rows[i].kind);
    assert forall k :: k in s ==> exists r :: r in rows && r.kind == k by {
      forall k | k in s ensures exists r :: r in rows && r.kind == k {
        var i :| 0 <= i < |s| && s[i] == k;
        assert rows[i] in rows;
      }
    }
    assert forall r :: r in rows ==> r.kind in s by {
      forall r | r in rows ensures r.kind in s {
        var i :| 0 <= i < |rows| && rows[i] == r;
        assert s[i] == r.kind;
      }
    }
    s
  }

  /** Reference meaning of one cell: the sum of the amounts of month `m` and Type `t`. */
  function CellSum(rows: seq<Row>, m: string, t: string): int
  {
    if rows == [] then 0
    else (if Month(rows[0]) == m && rows[0].kind == t then rows[0].amount else 0) + CellSum(rows[1..], m, t)
  }

  lemma {:induction false} MonthTypeKeySum(rows: seq<Row>, m: string, t: string)
    ensures KeySum(MonthTypePairs(rows), (m, t)) == CellSum(rows, m, t)
  {
    if rows != [] {
      assert MonthTypePairs(rows)[1..] == MonthTypePairs(rows[1..]);
      MonthTypeKeySum(rows[1..], m, t);
    }
  }

  /**
   The pivot as pandas holds it: the month index, the Type columns and one
   row of cells per month, `cells[i][j]` under `months[i]` and `kinds[j]`.
   */
  datatype MonthlyTable = MonthlyTable(months: seq<string>, kinds: seq<string>, cells: seq<seq<int>>)

  /** `unstack().fillna(0)` for the row of month `m`. */
  function Unstack(g: map<(string, string), int>, m: string, kinds: seq<string>): seq<int>
  {
    seq(|kinds|, j requires 0 <= j < |kinds| => Lookup(g, (m, kinds[j])))
  }

  function PivotCells(g: map<(string, string), int>, months: seq<string>, kinds: seq<string>): (c: seq<seq<int>>)
    ensures |c| == |months|
    ensures forall i :: 0 <= i < |months| ==> c[i] == Unstack(g, months[i], kinds)
  {
    if months == [] then [] else [Unstack(g, months[0], kinds)] + PivotCells(g, months[1..], kinds)
  }

  /** The grouped sums read with zero fill are the cell sums. */
  lemma GroupedCell(rows: seq<Row>, m: string, k: string)
    ensures Lookup(GroupSum(MonthTypePairs(rows)), (m, k)) == CellSum(rows, m, k)
  {
    LookupGroupSum(MonthTypePairs(rows), (m, k));
    MonthTypeKeySum(rows, m, k);
  }

  lemma PivotCellsAreCellSums(rows: seq<Row>, months: seq<string>, kinds: seq<string>)
    ensures forall i, j :: 0 <= i < |months| && 0 <= j < |kinds| ==>
      PivotCells(GroupSum(MonthTypePairs(rows)), months, kinds)[i][j] == CellSum(rows, months[i], kinds[j])
  {
    forall i, j | 0 <= i < |months| && 0 <= j < |kinds|
      ensures PivotCells(GroupSum(MonthTypePairs(rows)), months, kinds)[i][j] == CellSum(rows, months[i], kinds[j])
    {
      GroupedCell(rows, months[i], kinds[j]);
    }
  }

  /**
   `df.groupby(['Month', 'Type'])['Amount'].sum().unstack().fillna(0)`:
   one row per distinct month, sorted ascending with no duplicates; one
   column per distinct Type, sorted likewise; each cell the sum of the
   amounts of that month and Type, 0 when there are none.
   */
  function MonthlyPivot(rows: seq<Row>): (t: MonthlyTable)
    ensures StrictlySorted(t.months)
    ensures forall m :: m in t.months <==> exists r :: r in rows && Month(r) == m
    ensures StrictlySorted(t.kinds)
    ensures forall k :: k in t.kinds <==> exists r :: r in rows && r.kind == k
    ensures |t.cells| == |t.months|
    ensures forall i :: 0 <= i < |t.months| ==> |t.cells[i]| == |t.kinds|
    ensures forall i, j :: 0 <= i < |t.months| && 0 <= j < |t.kinds| ==>
      t.cells[i][j] == CellSum(rows, t.months[i], t.kinds[j])
  {
    var months := SortedDistinct(MonthsOf(rows));
    var kinds := SortedDistinct(KindsOf(rows));
    PivotCellsAreCellSums(rows, months, kinds);
    MonthlyTable(months, kinds, PivotCells(GroupSum(MonthTypePairs(rows)), months, kinds))
  }

  /** Sum of column `j` over all rows of cells. */
  function ColumnSum(cells: seq<seq<int>>, j: nat): int
    requires forall i :: 0 <= i < |cells| ==> j < |cells[i]|
  {
    if cells == [] then 0 else cells[0][j] + ColumnSum(cells[1..], j)
  }

  /** The (Month, Amount) columns of the rows whose Type is `t`. */
  function MonthPairs(rows: seq<Row>, t: string): seq<(string, int)>
  {
    if rows == [] then []
    else (if rows[0].kind == t then [(Month(rows[0]), rows[0].amount)] else []) + MonthPairs(rows[1..], t)
  }

  lemma {:induction false} MonthPairsTotal(rows: seq<Row>, t: string)
    ensures Total(MonthPairs(rows, t)) == KindTotal(rows, t)
  {
    if rows != [] {
      MonthPairsTotal(rows[1..], t);
      var p := MonthPairs(rows[1..], t);
      if rows[0].kind == t {
        var x := (Month(rows[0]), rows[0].amount);
        assert MonthPairs(rows, t) == [x] + p;
        assert ([x] + p)[1..] == p;
      } else {
        assert MonthPairs(rows, t) == p;
      }
    }
  }

  lemma {:induction false} MonthPairsKeySum(rows: seq<Row>, t: string, m: string)
    ensures KeySum(MonthPairs(rows, t), m) == CellSum(rows, m, t)
  {
    if rows != [] {
      MonthPairsKeySum(rows[1..], t, m);
      var p := MonthPairs(rows[1..], t);
      if rows[0].kind == t {
        var x := (Month(rows[0]), rows[0].amount);
        assert MonthPairs(rows, t) == [x] + p;
        assert ([x] + p)[1..] == p;
      } else {
        assert MonthPairs(rows, t) == p;
      }
    }
  }

  ghost predicate HasMonth(rows: seq<Row>, m: string)
  {
    exists r :: r in rows && Month(r) == m
  }

  lemma {:induction false} MonthPairsMonths(rows: seq<Row>, t: string)
    ensures forall i :: 0 <= i < |MonthPairs(rows, t)| ==> HasMonth(rows, MonthPairs(rows, t)[i].0)
  {
    if rows != [] {
      MonthPairsMonths(rows[1..], t);
      var p := MonthPairs(rows[1..], t);
      var x := (Month(rows[0]), rows[0].amount);
      var q := MonthPairs(rows, t);
      assert q == if rows[0].kind == t then [x] + p else p;
      forall i | 0 <= i < |q| ensures HasMonth(rows, q[i].0) {
        if rows[0].kind == t && i == 0 {
          assert rows[0] in rows;
        } else {
          var i' := if rows[0].kind == t then i - 1 else i;
          assert q[i] == p[i'];
          assert HasMonth(rows[1..], p[i'].0);
          var r :| r in rows[1..] && Month(r) == p[i'].0;
          assert r in rows;
        }
      }
    }
  }

  lemma MonthPairsSums(rows: seq<Row>, t: string)
    ensures Total(MonthPairs(rows, t)) == KindTotal(rows, t)
    ensures forall m :: KeySum(MonthPairs(rows, t), m) == CellSum(rows, m, t)
    ensures forall i :: 0 <= i < |MonthPairs(rows, t)| ==> exists r :: r in rows && Month(r) == MonthPairs(rows, t)[i].0
  {
    MonthPairsTotal(rows, t);
    forall m ensures KeySum(MonthPairs(rows, t), m) == CellSum(rows, m, t) {
      MonthPairsKeySum(rows, t, m);
    }
    MonthPairsMonths(rows, t);
  }

  lemma {:induction false} ColumnSumOver(rows: seq<Row>, months: seq<string>, kinds: seq<string>, j: nat)
    requires j < |kinds|
    ensures ColumnSum(PivotCells(GroupSum(MonthTypePairs(rows)), months, kinds), j)
      == SumOver(months, MonthPairs(rows, kinds[j]))
  {
    if months != [] {
      var g := GroupSum(MonthTypePairs(rows));
      assert PivotCells(g, months, kinds)[1..] == PivotCells(g, months[1..], kinds);
      GroupedCell(rows, months[0], kinds[j]);
      MonthPairsSums(rows, kinds[j]);
      ColumnSumOver(rows, months[1..], kinds, j);
    }
  }

  /**
   Summing a Type's column over all months gives that Type's grand total:
   the "Income" column adds up to the total income, the "Expense" column to
   the total expense.
   */
  lemma ColumnTotals(rows: seq<Row>, j: nat)
    requires j < |MonthlyPivot(rows).kinds|
    ensures ColumnSum(MonthlyPivot(rows).cells, j) == KindTotal(rows, MonthlyPivot(rows).kinds[j])
  {
    var months := SortedDistinct(MonthsOf(rows));
    var kinds := SortedDistinct(KindsOf(rows));
    var t := kinds[j];
    ColumnSumOver(rows, months, kinds, j);
    StrictlySortedIsDistinct(months);
    Partition(months, MonthPairs(rows, t));
    MonthPairsSums(rows, t);
    OutsideCovered(MonthPairs(rows, t), months);
  }

  /** A Type with no column in the pivot has no rows, so its grand total is 0. */
  lemma {:induction false} MissingColumnTotal(rows: seq<Row>, k: string)
    requires k !in MonthlyPivot(rows).kinds
    ensures KindTotal(rows, k) == 0
  {
    KindTotalAbsent(rows, k);
  }

  /**
   The pivot's rows are in calendar order: any transaction of an earlier row
   falls in an earlier calendar month than any transaction of a later row, so
   no calendar month has two rows.
   */
  lemma MonthlyChronological(rows: seq<Row>)
    ensures var t := MonthlyPivot(rows);
      forall i, j, a, b ::
        (0 <= i < j < |t.months| && a in rows && b in rows && Month(a) == t.months[i] && Month(b) == t.months[j])
        ==> MonthBefore(a.date, b.date)
  {
    var t := MonthlyPivot(rows);
    forall i, j, a, b | 0 <= i < j < |t.months| && a in rows && b in rows
      && Month(a) == t.months[i] && Month(b) == t.months[j]
      ensures MonthBefore(a.date, b.date)
    {
      MonthKeyOrder(a.date, b.date);
    }
  }

  /** The two rows' month keys and Types, for the scenario below. */
  lemma TwoRowIndex(a: Row, b: Row)
    requires a.kind == Income && b.kind == Expense
    requires MonthBefore(a.date, b.date)
    ensures MonthlyPivot([a, b]).months == [Month(a), Month(b)]
    ensures MonthlyPivot([a, b]).kinds == [Expense, Income]
  {
    var t := MonthlyPivot([a, b]);
    MonthKeyOrder(a.date, b.date);
    assert a in [a, b] && b in [a, b];
    assert forall r :: r in [a, b] ==> r == a || r == b;
    SortedPair(t.months, Month(a), Month(b));
    assert Less(Expense, Income);
    SortedPair(t.kinds, Expense, Income);
  }

  /**
   An income in one month and an expense in a later month give two pivot
   rows in calendar order, the columns "Expense" and "Income", and a 0
   wherever a month lacks a Type.
   */
  lemma IncomeThenExpense(a: Row, b: Row)
    requires a.kind == Income && b.kind == Expense
    requires MonthBefore(a.date, b.date)
    ensures MonthlyPivot([a, b]).months == [Month(a), Month(b)]
    ensures MonthlyPivot([a, b]).kinds == [Expense, Income]
    ensures MonthlyPivot([a, b]).cells == [[0, a.amount], [b.amount, 0]]
  {
    TwoRowIndex(a, b);
    assert Month(a) != Month(b);
    var t := MonthlyPivot([a, b]);
    assert [a, b][1..] == [b] && [b][1..] == [];
    assert Income != Expense by {
      assert Income[0] != Expense[0];
    }
    assert CellSum([b], Month(b), Expense) == b.amount;
    assert CellSum([a, b], Month(b), Expense) == b.amount;
    assert CellSum([b], Month(b), Income) == 0;
    assert CellSum([a, b], Month(b), Income) == 0;
    assert CellSum([b], Month(a), Expense) == 0;
    assert CellSum([a, b], Month(a), Expense) == 0;
    assert CellSum([b], Month(a), Income) == 0;
    assert CellSum([a, b], Month(a), Income) == a.amount;
    assert t.cells[0] == [0, a.amount];
    assert t.cells[1] == [b.amount, 0];
  }
}
