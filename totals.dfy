/**
 The three headline figures of the dashboard: total income, total expense and
 net savings.
 */
module Totals {
  import opened Ledger

  /** What one row adds to the total of one Type. */
  function Share(r: Row, kind: string): int
  {
    if r.kind == kind then r.amount else 0
  }

  /** `df[df['Type'] == kind]['Amount'].sum()`: 0 when no row has that Type. */
  function KindTotal(rows: seq<Row>, kind: string): int
  {
    if rows == [] then 0 else Share(rows[0], kind) + KindTotal(rows[1..], kind)
  }

  function TotalIncome(rows: seq<Row>): int
  {
    KindTotal(rows, Income)
  }

  function TotalExpense(rows: seq<Row>): int
  {
    KindTotal(rows, Expense)
  }

  function NetSavings(rows: seq<Row>): int
  {
    TotalIncome(rows) - TotalExpense(rows)
  }

  /** The signed effect of one row on the balance: income adds, expense subtracts, any other Type does nothing. */
  function Signed(r: Row): int
  {
    if r.kind == Income then r.amount
    else if r.kind == Expense then -r.amount
    else 0
  }

  /** The running balance of the ledger, row by row. */
  function Balance(rows: seq<Row>): int
  {
    if rows == [] then 0 else Signed(rows[0]) + Balance(rows[1..])
  }

  /** Sum of every amount, whatever its Type. */
  function AmountTotal(rows: seq<Row>): int
  {
    if rows == [] then 0 else rows[0].amount + AmountTotal(rows[1..])
  }

  /** Sum of the amounts whose Type is neither "Income" nor "Expense". */
  function OtherTotal(rows: seq<Row>): int
  {
    if rows == [] then 0
    else (if rows[0].kind in {Income, Expense} then 0 else rows[0].amount) + OtherTotal(rows[1..])
  }

  /** Net savings is the signed balance of the ledger; it is negative when expense exceeds income. */
  lemma {:induction false} NetSavingsIsBalance(rows: seq<Row>)
    ensures NetSavings(rows) == Balance(rows)
    ensures NetSavings(rows) < 0 <==> TotalExpense(rows) > TotalIncome(rows)
  {
    if rows != [] {
      NetSavingsIsBalance(rows[1..]);
    }
  }

  /** A Type that no row carries totals 0. */
  lemma {:induction false} KindTotalAbsent(rows: seq<Row>, kind: string)
    requires forall r :: r in rows ==> r.kind != kind
    ensures KindTotal(rows, kind) == 0
  {
    if rows != [] {
      assert rows[0] in rows;
      assert forall r :: r in rows[1..] ==> r in rows;
      KindTotalAbsent(rows[1..], kind);
    }
  }

  lemma {:induction false} KindTotalAppend(a: seq<Row>, b: seq<Row>, kind: string)
    ensures KindTotal(a + b, kind) == KindTotal(a, kind) + KindTotal(b, kind)
  {
    if a != [] {
      assert (a + b)[1..] == a[1..] + b;
      KindTotalAppend(a[1..], b, kind);
    } else {
      assert a + b == b;
    }
  }

  /**
   Every amount is counted in exactly one of total income, total expense and
   the rows of any other Type, which reach neither headline total.
   */
  lemma {:induction false} TypePartition(rows: seq<Row>)
    ensures AmountTotal(rows) == TotalIncome(rows) + TotalExpense(rows) + OtherTotal(rows)
  {
    if rows != [] {
      TypePartition(rows[1..]);
    }
  }

  /** Appending a row of any other Type leaves both headline totals unchanged. */
  lemma OtherTypeIgnored(rows: seq<Row>, r: Row)
    requires r.kind != Income && r.kind != Expense
    ensures TotalIncome(rows + [r]) == TotalIncome(rows)
    ensures TotalExpense(rows + [r]) == TotalExpense(rows)
  {
    KindTotalAppend(rows, [r], Income);
    KindTotalAppend(rows, [r], Expense);
  }

  /** Taking the row at `i` out of the ledger takes its share out of the total. */
  lemma RemoveAt(b: seq<Row>, i: nat, kind: string)
    requires i < |b|
    ensures multiset(b[..i] + b[i + 1..]) == multiset(b) - multiset{b[i]}
    ensures KindTotal(b, kind) == KindTotal(b[..i] + b[i + 1..], kind) + Share(b[i], kind)
  {
    assert b == b[..i] + ([b[i]] + b[i + 1..]);
    KindTotalAppend(b[..i], b[i + 1..], kind);
    KindTotalAppend(b[..i], [b[i]] + b[i + 1..], kind);
    assert ([b[i]] + b[i + 1..])[1..] == b[i + 1..];
  }

  /** Totals do not depend on the order of the rows. */
  lemma {:induction false} KindTotalPermutation(a: seq<Row>, b: seq<Row>, kind: string)
    requires multiset(a) == multiset(b)
    ensures KindTotal(a, kind) == KindTotal(b, kind)
  {
    if a != [] {
      assert a[0] in multiset(b);
      var i :| 0 <= i < |b| && b[i] == a[0];
      RemoveAt(b, i, kind);
      assert a == [a[0]] + a[1..];
      assert multiset(a[1..]) == multiset(a) - multiset{a[0]};
      KindTotalPermutation(a[1..], b[..i] + b[i + 1..], kind);
    } else {
      assert |b| == |multiset(b)| == 0;
    }
  }
}
