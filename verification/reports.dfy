/** The reports of the financial dashboard, assembled from the aggregations:
    cash flow by ledger type, the combined payables/receivables status table
    and revenue versus expense for the current month (the top-clients report
    is `Ranking.TopClients` itself). Each is a function of one snapshot of
    the tables and, for the last, of the date of "today". */
module Reports {
  import opened Wrappers
  import opened Calendar
  import opened Tables
  import opened Grouping
  import opened WindowSum
  import opened Ranking

  // ---------------------------------------------------------------------
  // Grouped sums
  // ---------------------------------------------------------------------

  /** Cash-flow report: ledger amounts summed per ledger type. */
  function CashFlow(ls: seq<Lancamento>): (r: seq<Group>)
    ensures DistinctKeys(r) && GroupKeys(r) == RowKeys(ls, TipoOf)
    ensures forall i :: 0 <= i < |r| ==> r[i].total == KeySum(ls, TipoOf, LancamentoValor, r[i].key)
    ensures SumTotals(r) == Total(ls, LancamentoValor)
  {
    GroupSumMeaning(ls, TipoOf, LancamentoValor);
    GroupSum(ls, TipoOf, LancamentoValor)
  }

  /** Payable amounts summed per status. */
  function PayablesByStatus(ps: seq<Payable>): (r: seq<Group>)
    ensures DistinctKeys(r) && GroupKeys(r) == RowKeys(ps, PayableStatus)
    ensures forall i :: 0 <= i < |r| ==> r[i].total == KeySum(ps, PayableStatus, PayableValor, r[i].key)
    ensures SumTotals(r) == Total(ps, PayableValor)
  {
    GroupSumMeaning(ps, PayableStatus, PayableValor);
    GroupSum(ps, PayableStatus, PayableValor)
  }

  /** Receivable amounts summed per status. */
  function ReceivablesByStatus(rs: seq<Receivable>): (r: seq<Group>)
    ensures DistinctKeys(r) && GroupKeys(r) == RowKeys(rs, ReceivableStatus)
    ensures forall i :: 0 <= i < |r| ==> r[i].total == KeySum(rs, ReceivableStatus, ReceivableValor, r[i].key)
    ensures SumTotals(r) == Total(rs, ReceivableValor)
  {
    GroupSumMeaning(rs, ReceivableStatus, ReceivableValor);
    GroupSum(rs, ReceivableStatus, ReceivableValor)
  }

  // ---------------------------------------------------------------------
  // Combined status table
  // ---------------------------------------------------------------------

  /** A row of the combined status table: a grouped row plus its source tag. */
  datatype StatusRow = StatusRow(status: string, total: int, tipo: string)

  /** Adds the column `tipo` with the same value to every grouped row. */
  function Tag(gs: seq<Group>, tipo: string): (r: seq<StatusRow>)
    ensures |r| == |gs|
    ensures forall i :: 0 <= i < |gs| ==> r[i] == StatusRow(gs[i].key, gs[i].total, tipo)
  {
    if |gs| == 0 then [] else [StatusRow(gs[0].key, gs[0].total, tipo)] + Tag(gs[1..], tipo)
  }

  /** The rows tagged `tipo`, with the tag dropped, in order. */
  function Untag(rows: seq<StatusRow>, tipo: string): seq<Group> {
    if |rows| == 0 then []
    else if rows[0].tipo == tipo then [Group(rows[0].status, rows[0].total)] + Untag(rows[1..], tipo)
    else Untag(rows[1..], tipo)
  }

  /** Tagging then selecting the tag gives back the grouped rows; selecting
      another tag gives nothing. */
  lemma {:induction false} UntagTag(gs: seq<Group>, tipo: string, other: string)
    ensures Untag(Tag(gs, tipo), tipo) == gs
    ensures other != tipo ==> Untag(Tag(gs, tipo), other) == []
  {
    if |gs| > 0 {
      UntagTag(gs[1..], tipo, other);
      assert Tag(gs, tipo)[1..] == Tag(gs[1..], tipo);
    }
  }

  lemma {:induction false} UntagConcat(a: seq<StatusRow>, b: seq<StatusRow>, tipo: string)
    ensures Untag(a + b, tipo) == Untag(a, tipo) + Untag(b, tipo)
  {
    if |a| == 0 {
      assert a + b == b;
    } else {
      assert (a + b)[1..] == a[1..] + b;
      UntagConcat(a[1..], b, tipo);
    }
  }

  /** Payables rows tagged "Contas a Pagar", then receivables rows tagged
      "Contas a Receber" (`pd.concat` keeps the order of its operands). Every
      row keeps its status and total, and selecting either tag gives back
      exactly that side. */
  function Combine(pagar: seq<Group>, receber: seq<Group>): (r: seq<StatusRow>)
    ensures |r| == |pagar| + |receber|
    ensures forall i :: 0 <= i < |pagar| ==>
      r[i] == StatusRow(pagar[i].key, pagar[i].total, ContasAPagar)
    ensures forall i :: |pagar| <= i < |r| ==>
      r[i] == StatusRow(receber[i - |pagar|].key, receber[i - |pagar|].total, ContasAReceber)
    ensures Untag(r, ContasAPagar) == pagar
    ensures Untag(r, ContasAReceber) == receber
  {
    var p := Tag(pagar, ContasAPagar);
    var q := Tag(receber, ContasAReceber);
    UntagTag(pagar, ContasAPagar, ContasAReceber);
    UntagTag(receber, ContasAReceber, ContasAPagar);
    UntagConcat(p, q, ContasAPagar);
    UntagConcat(p, q, ContasAReceber);
    p + q
  }

  /** "Status das Contas a Pagar e Receber": both status breakdowns, tagged
      and concatenated. Selecting a tag gives one row per status present in
      that source table, so the table has one row per present status of
      each side. */
  function StatusComparison(ps: seq<Payable>, rs: seq<Receivable>): (r: seq<StatusRow>)
    ensures |r| == |RowKeys(ps, PayableStatus)| + |RowKeys(rs, ReceivableStatus)|
    ensures GroupKeys(Untag(r, ContasAPagar)) == RowKeys(ps, PayableStatus)
    ensures DistinctKeys(Untag(r, ContasAPagar))
    ensures GroupKeys(Untag(r, ContasAReceber)) == RowKeys(rs, ReceivableStatus)
    ensures DistinctKeys(Untag(r, ContasAReceber))
  {
    var p := PayablesByStatus(ps);
    var q := ReceivablesByStatus(rs);
    DistinctKeysCount(p);
    DistinctKeysCount(q);
    Combine(p, q)
  }

  /** Each row of the status table is one status present in its source table,
      with the sum of that status's amounts, and no other tag occurs. */
  lemma StatusComparisonRows(ps: seq<Payable>, rs: seq<Receivable>, i: int)
    requires 0 <= i < |StatusComparison(ps, rs)|
    ensures var row := StatusComparison(ps, rs)[i];
      || (&& row.tipo == ContasAPagar
          && row.status in RowKeys(ps, PayableStatus)
          && row.total == KeySum(ps, PayableStatus, PayableValor, row.status))
      || (&& row.tipo == ContasAReceber
          && row.status in RowKeys(rs, ReceivableStatus)
          && row.total == KeySum(rs, ReceivableStatus, ReceivableValor, row.status))
  {
    var p := PayablesByStatus(ps);
    var q := ReceivablesByStatus(rs);
    if i < |p| {
      assert p[i] in p;
    } else {
      assert q[i - |p|] in q;
    }
  }

  // ---------------------------------------------------------------------
  // Revenue versus expense for the current month
  // ---------------------------------------------------------------------

  /** The two month totals, each coalesced to 0. */
  datatype Comparison = Comparison(receita: int, despesa: int)

  /** "Comparação Receita vs Despesa": both windowed totals over the window
      of today's month. Fails, as the source raises, when the window cannot
      be computed, which is exactly December of the last representable year.
      Otherwise each total is the sum over the entries of its type dated in
      today's calendar month (0 for a type with no such entry), whenever the
      ledger dates are real calendar dates. */
  function RevenueVsExpense(ls: seq<Lancamento>, today: Date): (r: Result<Comparison, DateError>)
    requires Valid(today)
    ensures r.Err? <==> today.year == MaxYear && today.month == 12
    ensures r.Err? ==> r.error == OverflowError
    ensures r.Ok? && ValidDates(ls) ==>
      r.value == Comparison(MonthSum(ls, Receita, today.year, today.month),
                            MonthSum(ls, Despesa, today.year, today.month))
  {
    var w :- MonthWindow(today);
    WindowTotalIsMonthSum(ls, Receita, today);
    WindowTotalIsMonthSum(ls, Despesa, today);
    Ok(Comparison(WindowTotal(ls, Receita, w), WindowTotal(ls, Despesa, w)))
  }

  // ---------------------------------------------------------------------
  // Worked examples
  // ---------------------------------------------------------------------

  /** A leap February ends on the 29th. */
  lemma LeapFebruaryExample()
    ensures MonthWindow(Date(2024, 2, 15)) == Ok(Window(Date(2024, 2, 1), Date(2024, 2, 29)))
  {
  }

  /** A common February ends on the 28th. */
  lemma CommonFebruaryExample()
    ensures MonthWindow(Date(2023, 2, 15)) == Ok(Window(Date(2023, 2, 1), Date(2023, 2, 28)))
  {
  }

  /** April ends on the 30th. */
  lemma AprilExample()
    ensures MonthWindow(Date(2024, 4, 10)) == Ok(Window(Date(2024, 4, 1), Date(2024, 4, 30)))
  {
  }

  /** December ends on the 31st, although the 4-day step lands in January. */
  lemma DecemberExample()
    ensures MonthWindow(Date(2024, 12, 31)) == Ok(Window(Date(2024, 12, 1), Date(2024, 12, 31)))
  {
    assert DaysInMonth(2024, 12) == 31;
    assert MonthWindow(Date(2024, 12, 31)).Ok?;
  }

  /** The year 1900 is not a leap year, the year 2000 is. */
  lemma CenturyFebruaryExample()
    ensures MonthWindow(Date(1900, 2, 1)) == Ok(Window(Date(1900, 2, 1), Date(1900, 2, 28)))
    ensures MonthWindow(Date(2000, 2, 1)) == Ok(Window(Date(2000, 2, 1), Date(2000, 2, 29)))
  {
    assert !IsLeapYear(1900) && IsLeapYear(2000);
    assert MonthWindow(Date(1900, 2, 1)).Ok?;
    assert MonthWindow(Date(2000, 2, 1)).Ok?;
  }

  /** Revenue 300 on 2024-03-05, expense 120 on 2024-03-20 and revenue 50 on
      2024-02-28, reported in March 2024: 300 and 120, the February entry
      falling outside the window. */
  lemma RevenueVsExpenseExample()
    ensures RevenueVsExpense(
      [Lancamento(1, Receita, 300, Date(2024, 3, 5)),
       Lancamento(2, Despesa, 120, Date(2024, 3, 20)),
       Lancamento(3, Receita, 50, Date(2024, 2, 28))],
      Date(2024, 3, 15)) == Ok(Comparison(300, 120))
  {
    var ls := [Lancamento(1, Receita, 300, Date(2024, 3, 5)),
               Lancamento(2, Despesa, 120, Date(2024, 3, 20)),
               Lancamento(3, Receita, 50, Date(2024, 2, 28))];
    assert ValidDates(ls);
    assert MonthSum(ls[2..], Receita, 2024, 3) == 0;
    assert MonthSum(ls[1..], Receita, 2024, 3) == 0;
    assert MonthSum(ls, Receita, 2024, 3) == 300;
    assert MonthSum(ls[2..], Despesa, 2024, 3) == 0;
    assert MonthSum(ls[1..], Despesa, 2024, 3) == 120;
    assert MonthSum(ls, Despesa, 2024, 3) == 120;
  }

  /** Client A collected 100 (and has 50 pending), client B collected 200:
      the ranking is B with 200, then A with 100. */
  lemma TopClientsExample()
    ensures TopClients(
      [Client(1, "A", "a@example.com", "1"), Client(2, "B", "b@example.com", "2")],
      [Receivable(1, 1, Recebido, 100), Receivable(2, 1, "Pendente", 50),
       Receivable(3, 2, Recebido, 200)])
      == [ClientRevenue(2, "B", "b@example.com", "2", 200),
          ClientRevenue(1, "A", "a@example.com", "1", 100)]
  {
    var rs := [Receivable(1, 1, Recebido, 100), Receivable(2, 1, "Pendente", 50),
               Receivable(3, 2, Recebido, 200)];
    var a := Client(1, "A", "a@example.com", "1");
    var b := Client(2, "B", "b@example.com", "2");
    var ra := ClientRevenue(1, "A", "a@example.com", "1", 100);
    var rb := ClientRevenue(2, "B", "b@example.com", "2", 200);
    var t2 := [Receivable(3, 2, Recebido, 200)];
    var t1 := [Receivable(2, 1, "Pendente", 50)] + t2;
    assert rs[1..] == t1 && t1[1..] == t2 && t2[1..] == [];
    assert !Received(t1[0], 1) by { assert t1[0].status[0] != Recebido[0]; }
    assert ReceivedSum(t2, 1) == 0;
    assert ReceivedSum(t1, 1) == 0;
    assert ReceivedSum(rs, 1) == 100;
    assert ReceivedSum(t2, 2) == 200;
    assert ReceivedSum(t1, 2) == 200;
    assert ReceivedSum(rs, 2) == 200;
    assert Received(rs[0], 1) && Received(rs[2], 2);
    assert Revenue(a, rs) == ra && Revenue(b, rs) == rb;
    assert Candidates([b], rs) == [rb];
    assert [a, b][1..] == [b];
    assert Candidates([a, b], rs) == [ra, rb];
    assert SortDesc([rb]) == [rb];
    assert [ra, rb][1..] == [rb];
    assert Insert(ra, [rb]) == [rb] + Insert(ra, []);
    assert SortDesc([ra, rb]) == [rb, ra];
  }
}
