/** The four tables the reports read, as immutable rows, and the literal
    category labels the queries filter and tag with. Amounts (`valor`) are
    integers in the smallest currency unit. */
module Tables {
  import opened Calendar

  /** A row of `clientes`; `id` is the table's key. */
  datatype Client = Client(id: int, nome: string, email: string, telefone: string)

  /** A row of `contas_pagar`. */
  datatype Payable = Payable(id: int, status: string, valor: int)

  /** A row of `contas_receber`; `clienteId` refers to `clientes.id`. */
  datatype Receivable = Receivable(id: int, clienteId: int, status: string, valor: int)

  /** A row of `lancamentos`. */
  datatype Lancamento = Lancamento(id: int, tipo: string, valor: int, data: Date)

  /** Ledger type of a revenue entry. */
  const Receita := "Receita"
  /** Ledger type of an expense entry. */
  const Despesa := "Despesa"
  /** Status of a receivable that has been collected. */
  const Recebido := "Recebido"
  /** Tag of the payables rows in the combined status table. */
  const ContasAPagar := "Contas a Pagar"
  /** Tag of the receivables rows in the combined status table. */
  const ContasAReceber := "Contas a Receber"

  /** `clientes.id` is a key: no two rows share it. */
  predicate UniqueIds(cs: seq<Client>) {
    forall i, j :: 0 <= i < j < |cs| ==> cs[i].id != cs[j].id
  }

  // Column projections, the arguments of the grouped sums.

  function TipoOf(l: Lancamento): string { l.tipo }
  function LancamentoValor(l: Lancamento): int { l.valor }
  function PayableStatus(p: Payable): string { p.status }
  function PayableValor(p: Payable): int { p.valor }
  function ReceivableStatus(r: Receivable): string { r.status }
  function ReceivableValor(r: Receivable): int { r.valor }
}
