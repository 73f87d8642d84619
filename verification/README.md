# Financial reporting core of the ERP dashboard, in Dafny

The dashboard (`app.py`) reads a SQLite database of clients (`clientes`),
payables (`contas_pagar`), receivables (`contas_receber`) and ledger entries
(`lancamentos`). It shows a few aggregate reports. This project models the
logic behind those reports as pure functions over immutable row sequences,
and proves what each report means:

- **Cash flow** (`Reports.CashFlow`): `SUM(valor)` of `lancamentos` grouped by `tipo`.
- **Status of payables and receivables** (`Reports.StatusComparison`): `SUM(valor)` grouped by `status`,
  once for `contas_pagar` and once for `contas_receber`. Each side's rows get a
  `tipo` column, `'Contas a Pagar'` or `'Contas a Receber'`, and the two sides
  are concatenated with payables first.
- **Top clients by revenue** (`Ranking.TopClients`): an inner join of `clientes`
  and `contas_receber`, restricted to `status = 'Recebido'`, grouped by client,
  ordered by the summed amount descending, `LIMIT 5`.
- **Revenue versus expense for the current month** (`Reports.RevenueVsExpense`):
  the window runs from day 1 of today's month to its last day. The last day is
  found by taking day 28 of the month, adding 4 days, and stepping back by the
  day-of-month of the result. Two SQL sums, one for `'Receita'` and one for
  `'Despesa'`, run over the entries dated inside the window (both ends
  included), and a NULL sum is coalesced to 0.

Modules:

- `Wrappers`: `Option` (a SQL value that may be NULL) and `Result` (a computation that may raise).
- `Calendar`: proleptic Gregorian dates with Python `datetime` semantics.
  Years run from 1 to 9999. `replace(day=…)` raises `ValueError`. Day arithmetic
  raises `OverflowError` when it leaves that year range. Day arithmetic is
  specified against the day number of a date, the count Python's
  `date.toordinal()` returns (0001-01-01 is day 1). The module also holds the month window.
- `Tables`: the row types and the literal labels.
- `Grouping`: the `GROUP BY` sum, generic over the row type.
- `WindowSum`: the windowed, NULL-aware `SUM` and its coalescing.
- `Ranking`: the top-5 join ranking.
- `Reports`: the report compositions and worked examples.

Amounts are integers in the smallest currency unit. "Today" is a parameter.
Because the day arithmetic is modelled with Python's year range, the window
computation fails for every date of December 9999: there, the 4-day step
lands past 9999-12-31 and Python raises `OverflowError`. The model returns
that error. Everywhere else the window is exactly the calendar month.

SQL does not fix the order of groups in a `GROUP BY` result. It also leaves
the order of clients with equal totals in the ranking open. The contracts
therefore state those results relationally. The functions compute one
admissible answer:

- groups come in one fixed order;
- clients with equal totals keep their order in `clientes`.

This tie-break is a refinement of the query, not a property of it. Since two
clients can have equal totals, the ranking is non-increasing, not strictly
decreasing. Nothing in the query requires a ranked total to be positive, so
the contracts do not claim it. Status and type stay open strings compared
literally, as in the queries.

## Model

| member | source | states |
|---|---|---|
| `Calendar.NextDay` | app.py:109 | Adding one day gives a valid later date whose day number is one more. It fails with `OverflowError` exactly at 9999-12-31. |
| `Calendar.PrevDay` | app.py:110 | Subtracting one day gives a valid earlier date whose day number is one less. It fails exactly at 0001-01-01. |
| `Calendar.PrevOfNext` | app.py:109-110 | Stepping a day forward and then back returns the original date. |
| `Calendar.NextOfPrev` | app.py:109-110 | Stepping a day back and then forward returns the original date. |
| `Calendar.NextDayIsImmediate` | app.py:109 | No valid date lies strictly between a date and its next day. A date with any later valid date has a next day. |
| `Calendar.AddDays` | app.py:109 | `d + timedelta(days=n)` is the valid date whose day number is `n` more than `d`'s. It raises `OverflowError` exactly when that day number is past 9999-12-31's. |
| `Calendar.SubDays` | app.py:110 | `d - timedelta(days=n)` is the valid date whose day number is `n` less than `d`'s. It raises `OverflowError` exactly when that day number is below 0001-01-01's. |
| `Calendar.OrdinalOrder` | app.py:109-110 | Day numbers order valid dates chronologically, and two valid dates are equal exactly when their day numbers are. So the day number pins down the result of the day arithmetic. |
| `Calendar.AddThenSub` | app.py:109-110 | For every `n`, adding `n` days and then subtracting `n` days returns the original date, whenever the addition succeeds. |
| `Calendar.SubThenAdd` | app.py:109-110 | For every `n`, subtracting `n` days and then adding `n` days returns the original date, whenever the subtraction succeeds. |
| `Calendar.ReplaceDay` | app.py:107-109 | `replace(day=k)` succeeds exactly when the month has a day `k`, and then gives day `k` of the same year and month. Otherwise it raises `ValueError`. |
| `Calendar.AddDaysInMonth` | app.py:109 | Adding days that stay inside the month only raises the day-of-month. |
| `Calendar.AddDaysPastMonthEnd` | app.py:109 | Adding 1 to 28 days past the month's end lands on the matching day of the next month, December rolling into January. In December 9999 it raises instead. |
| `Calendar.SubDaysToPrevMonthEnd` | app.py:110 | Subtracting a date's own day-of-month gives the last day of the previous month, for every month length. |
| `Calendar.MonthEndSteps` | app.py:109-110 | From day 28, the 4-day step raises exactly in December 9999. Otherwise stepping back by the reached date's day-of-month gives the last day of day 28's month. |
| `Calendar.MonthWindow` | app.py:106-110 | "Day 28 + 4 days − day-of-month" gives the last day of today's month, per the Gregorian leap rule, and the first day is day 1. The computation fails exactly in December 9999. |
| `Calendar.InMonthWindowIffSameMonth` | app.py:107-110 | A valid date is inside the window (both bounds inclusive) exactly when it has today's year and month. `first <= today <= last` holds. |
| `Grouping.AddTo` | app.py:38 | Accounting one row keeps keys distinct and adds its key to the key set. It raises only that key's total, by the row's amount, and the grand total by the same amount. |
| `Grouping.GroupSum` | app.py:38 | The grouped sum has distinct keys and exactly the keys present in the table. Each key's total is the sum of that key's amounts, and the totals add up to the sum of all amounts. |
| `Grouping.GroupSumMeaning` | app.py:38 | One row per distinct key present, none for an absent key. Each row's total is the sum of its key's rows, and the totals are conserved. |
| `Grouping.DistinctKeysCount` | app.py:38 | A grouped result with distinct keys has as many rows as distinct keys. |
| `Grouping.GroupTotalIsKeySum` | app.py:38 | A key's total in a grouped result is the generic per-key `SUM` taken over the result's rows. |
| `Grouping.SumTotalsIsTotal` | app.py:38 | The grand total of a grouped result is the generic `SUM` of its rows' totals. |
| `Reports.CashFlow` | app.py:38 | Cash flow has one row per `tipo` present in `lancamentos`. Each total is that type's sum of `valor`, and together they are the sum of all `valor`. |
| `Reports.PayablesByStatus` | app.py:76-80 | Payables have one row per `status` present. Each total is that status's sum, and the totals add up to the sum of all payables. |
| `Reports.ReceivablesByStatus` | app.py:81-85 | Receivables have one row per `status` present. Each total is that status's sum, and the totals add up to the sum of all receivables. |
| `Reports.Tag` | app.py:90-91 | Tagging keeps the length and each row's status and total, and sets the tag. `Reports.UntagTag` is its inverse. |
| `Reports.UntagTag` | app.py:90-91 | Selecting the rows of a tag after tagging gives back the grouped rows exactly. Any other tag selects nothing. |
| `Reports.UntagConcat` | app.py:92 | Selecting a tag distributes over concatenation. |
| `Reports.Combine` | app.py:90-92 | The combined table's length is the sum of the two lengths. Position `i` holds payables row `i` tagged `'Contas a Pagar'`, and past the payables rows, the receivables row at the remaining offset tagged `'Contas a Receber'`. Each side is recovered unchanged from its tag. |
| `Reports.StatusComparisonRows` | app.py:76-92 | Every row of the status table is tagged with one of the two sources. Its status occurs in that source, and its total is that status's sum there. |
| `Reports.StatusComparison` | app.py:76-92 | Each side of the status table has exactly one row per status present in its source. The table's length is the number of payable statuses plus the number of receivable statuses. |
| `WindowSum.SqlSum` | app.py:112-125 | The SQL sum over the entries of type `t` dated inside the closed window is NULL exactly when no row qualifies. Otherwise it is the sum of the qualifying amounts. |
| `WindowSum.WindowTotal` | app.py:127-128 | After coalescing, the total is the sum of the qualifying amounts: 0, never absent, when nothing qualifies. |
| `WindowSum.UnselectedRowIgnored` | app.py:115 | A row of the other type or dated outside the window does not change the total. |
| `WindowSum.SelectedRowCounted` | app.py:113-115 | A qualifying row, including one on either boundary day, adds exactly its amount. |
| `WindowSum.SelectedSumAppend` | app.py:113-115 | Appending a row adds its amount to the windowed sum exactly when it qualifies. |
| `WindowSum.WindowTotalIsMonthSum` | app.py:106-128 | Over today's window, the coalesced total is the sum of the entries of that type dated in today's year and month. |
| `WindowSum.CalendarMonthTotal` | app.py:112-128 | Over the window from the first to the last day of a calendar month, the coalesced total of a type is the sum of its entries dated in that month. |
| `Reports.RevenueVsExpense` | app.py:103-128 | The report fails exactly in December 9999. Otherwise it gives the revenue and expense totals of the entries dated in today's calendar month, 0 for a type with no entries. |
| `Reports.LeapFebruaryExample` | app.py:106-110 | For 2024-02-15 the window is 2024-02-01 to 2024-02-29. |
| `Reports.CommonFebruaryExample` | app.py:106-110 | For 2023-02-15 the window is 2023-02-01 to 2023-02-28. |
| `Reports.AprilExample` | app.py:106-110 | For 2024-04-10 the window is 2024-04-01 to 2024-04-30. |
| `Reports.DecemberExample` | app.py:106-110 | For 2024-12-31 the window is 2024-12-01 to 2024-12-31. |
| `Reports.CenturyFebruaryExample` | app.py:106-110 | February 1900 ends on the 28th and February 2000 on the 29th. |
| `Reports.RevenueVsExpenseExample` | app.py:112-128 | Revenue 300 and expense 120 in March 2024, with revenue 50 on 2024-02-28, report as 300 and 120. |
| `Ranking.CandidatesSound` | app.py:50-58 | Every grouped-join row belongs to a client of `clientes` that has a `'Recebido'` receivable. Its total is the sum of exactly those receivables. |
| `Ranking.Candidates` | app.py:50-58 | The grouped join has at most one row per client. Each row's client appears in the filtered join, and its total is that client's `'Recebido'` sum. Its ids are exactly the ids of the qualifying clients. |
| `Ranking.CandidatesComplete` | app.py:50-58 | Every client with a `'Recebido'` receivable has its grouped-join row. |
| `Ranking.CandidatesDistinct` | app.py:57-58 | With client ids a key, the grouped-join rows have distinct ids. |
| `Ranking.Insert` | app.py:59-60 | Inserting into a non-increasing sequence keeps it non-increasing. The result is the old elements plus the new one (multiset). |
| `Ranking.SortDesc` | app.py:59-60 | `ORDER BY total_receita DESC` returns a non-increasing permutation of its input. |
| `Ranking.PermutationDistinctIds` | app.py:57-60 | Reordering rows with distinct ids keeps them distinct. |
| `Ranking.TopClients` | app.py:44-61 | The ranking has at most 5 rows, non-increasing totals and distinct client ids. Each row belongs to a client of `clientes` that has a `'Recebido'` receivable, and its total is the sum of that client's `'Recebido'` receivables. |
| `Ranking.TopClientsMaximal` | app.py:59-61 | A qualifying client missing from the ranking means the ranking holds 5 rows, each with a total at least that client's. |
| `Ranking.TopClientsAllWhenFew` | app.py:61 | When at most 5 clients qualify, every one of them is ranked. |
| `Ranking.ReceivedAppend` | app.py:53-56 | One more receivable raises a client's received sum, and makes it qualify, exactly when it is that client's `'Recebido'` receivable. |
| `Ranking.CandidatesIgnore` | app.py:53-56 | A receivable that is no listed client's `'Recebido'` receivable leaves the grouped join unchanged. |
| `Ranking.UncollectedIgnored` | app.py:55-56 | A receivable with any status other than `'Recebido'` never changes the ranking. |
| `Ranking.DanglingIgnored` | app.py:53-54 | A receivable whose `cliente_id` matches no client never changes the ranking: the inner join drops it. |
| `Reports.TopClientsExample` | app.py:44-61 | Client A has 100 received and 50 pending, and client B has 200 received. The ranking is B (200), then A (100). |

## Left out

- Streamlit presentation (app.py:10-13, headers, `st.dataframe`, `st.write`, `st.pyplot`): user interface only.
- The menu and the `selectbox` dispatch (app.py:12-13, 16, 21, 26, 31, 36, 41, 73, 103): the four report branches (app.py:36-39, 41-71, 73-101, 103-141) each map to one report function here; the four listing branches (app.py:16-34) are left out below.
- The `sqlite3` connection lifecycle and `pandas.read_sql_query` (app.py:14, 18, 23, 28, 33, 63, 87-88, 124-125, 143): I/O and foreign libraries. The model states the queries' meaning over row sequences instead.
- The plain `SELECT *` listings (app.py:18, 23, 28, 33): they pass the rows through unchanged, so nothing is left to state.
- The matplotlib/seaborn charts (app.py:66-71, 96-101, 133-141): rendering only. The bar-chart series of the ranking is the ranking itself.
- The currency formatting `R${…:,.2f}` (app.py:130-131): floating-point and locale formatting.
- `datetime.today()` (app.py:106): the clock becomes the parameter `today`.
- Time of day and how the bound dates are compared: `datetime.today()` carries a time of day that `replace(day=1)` keeps. SQLite compares the bound parameters with the stored `data` as text. So the real behaviour on the first and last day depends on the stored format of `data`, which is not part of this model. The model states the intended inclusive calendar-date window.
- Floating-point amounts: `valor` is an integer number of cents, so sums are exact.
- NULL values in `valor`, `status`, `tipo` or `data` are not modelled; the columns are taken as non-NULL. `SUM` would skip a NULL amount, and `GROUP BY` would form a NULL group.
- Columns of the tables that no query reads (for instance the payables' dates) are left out of the row types.
- Ranking.TopClients: requires client ids to be unique, because `clientes.id` is the table's key. With duplicate ids, `GROUP BY c.id` would merge clients, and that is not modelled.
- WindowSum.WindowTotalIsMonthSum: states the month total only when every ledger date is a valid calendar date. Text dates that no valid date matches are not modelled.
- WindowSum.CalendarMonthTotal: requires every ledger date to be a valid calendar date, for the same reason.
- Reports.RevenueVsExpense: states the month totals only when every ledger date is a valid calendar date, for the same reason.
