/** The month total of one ledger type: the SQL sum of the amounts of the
    entries of that type dated inside a closed window, followed by the
    coalescing of a NULL sum to 0. SQL's `SUM` over no rows is NULL, not 0;
    the report then replaces NULL by 0, so the total shown is always a
    number. */
module WindowSum {
  import opened Wrappers
  import opened Calendar
  import opened Tables

  /** The row filter: the exact ledger type, and the date inside the
      window with both bounds included. */
  predicate Selected(l: Lancamento, tipo: string, w: Window) {
    l.tipo == tipo && InWindow(l.data, w)
  }

  /** Sum of the amounts of the selected rows, 0 when none is selected. */
  function SelectedSum(ls: seq<Lancamento>, tipo: string, w: Window): int {
    if |ls| == 0 then 0
    else (if Selected(ls[0], tipo, w) then ls[0].valor else 0) + SelectedSum(ls[1..], tipo, w)
  }

  /** SQL `SUM` over the selection: NULL (`None`) when no row is selected. */
  function SqlSum(ls: seq<Lancamento>, tipo: string, w: Window): (r: Option<int>)
    ensures r.None? <==> forall i :: 0 <= i < |ls| ==> !Selected(ls[i], tipo, w)
    ensures r.Some? ==> r.value == SelectedSum(ls, tipo, w)
    ensures r.None? ==> SelectedSum(ls, tipo, w) == 0
  {
    if |ls| == 0 then None
    else
      var rest := SqlSum(ls[1..], tipo, w);
      assert forall i :: 1 <= i < |ls| ==> ls[i] == ls[1..][i - 1];
      if Selected(ls[0], tipo, w) then Some(ls[0].valor + rest.GetOr(0))
      else rest
  }

  /** The month total as reported: the SQL sum, NULL coalesced to 0. */
  function WindowTotal(ls: seq<Lancamento>, tipo: string, w: Window): (r: int)
    ensures r == SelectedSum(ls, tipo, w)
    ensures (forall i :: 0 <= i < |ls| ==> !Selected(ls[i], tipo, w)) ==> r == 0
  {
    SqlSum(ls, tipo, w).GetOr(0)
  }

  /** A row of another type, or dated outside the window, changes no total. */
  lemma {:induction false} UnselectedRowIgnored(ls: seq<Lancamento>, x: Lancamento, tipo: string, w: Window)
    requires !Selected(x, tipo, w)
    ensures WindowTotal(ls + [x], tipo, w) == WindowTotal(ls, tipo, w)
  {
    SelectedSumAppend(ls, x, tipo, w);
  }

  /** A selected row adds exactly its amount. */
  lemma {:induction false} SelectedRowCounted(ls: seq<Lancamento>, x: Lancamento, tipo: string, w: Window)
    requires Selected(x, tipo, w)
    ensures WindowTotal(ls + [x], tipo, w) == WindowTotal(ls, tipo, w) + x.valor
  {
    SelectedSumAppend(ls, x, tipo, w);
  }

  lemma {:induction false} SelectedSumAppend(ls: seq<Lancamento>, x: Lancamento, tipo: string, w: Window)
    ensures SelectedSum(ls + [x], tipo, w) ==
      SelectedSum(ls, tipo, w) + (if Selected(x, tipo, w) then x.valor else 0)
  {
    if |ls| == 0 {
      assert ls + [x] == [x];
      assert [x][1..] == [];
    } else {
      assert (ls + [x])[1..] == ls[1..] + [x];
      SelectedSumAppend(ls[1..], x, tipo, w);
    }
  }

  /** Sum of the amounts of type `tipo` dated in month `month` of year `year`:
      the month total defined without any window. */
  function MonthSum(ls: seq<Lancamento>, tipo: string, year: int, month: int): int {
    if |ls| == 0 then 0
    else
      (if ls[0].tipo == tipo && ls[0].data.year == year && ls[0].data.month == month
       then ls[0].valor else 0)
      + MonthSum(ls[1..], tipo, year, month)
  }

  /** Every ledger date is a real calendar date. */
  predicate ValidDates(ls: seq<Lancamento>) {
    forall i :: 0 <= i < |ls| ==> Valid(ls[i].data)
  }

  /** The closed window from the first to the last day of month `month` of year `year`. */
  function CalendarMonth(year: int, month: int): Window
    requires 1 <= month <= 12
  {
    Window(Date(year, month, 1), Date(year, month, DaysInMonth(year, month)))
  }

  /** Over a whole calendar month, the windowed total is the month total. */
  lemma {:induction false} CalendarMonthTotal(ls: seq<Lancamento>, tipo: string, year: int, month: int)
    requires 1 <= month <= 12 && ValidDates(ls)
    ensures WindowTotal(ls, tipo, CalendarMonth(year, month)) == MonthSum(ls, tipo, year, month)
  {
    if |ls| > 0 {
      assert ValidDates(ls[1..]) by {
        forall i | 0 <= i < |ls[1..]| ensures Valid(ls[1..][i].data) {
          assert ls[1..][i] == ls[i + 1];
        }
      }
      assert Valid(ls[0].data);
      CalendarMonthTotal(ls[1..], tipo, year, month);
    }
  }

  /** Over the current-month window, the windowed total is the total of the
      entries dated in today's year and month, whenever every ledger date is
      a real calendar date. */
  lemma WindowTotalIsMonthSum(ls: seq<Lancamento>, tipo: string, today: Date)
    requires Valid(today) && !(today.year == MaxYear && today.month == 12)
    ensures ValidDates(ls) ==>
      WindowTotal(ls, tipo, MonthWindow(today).value) == MonthSum(ls, tipo, today.year, today.month)
  {
    if ValidDates(ls) {
      CalendarMonthTotal(ls, tipo, today.year, today.month);
    }
  }
}
