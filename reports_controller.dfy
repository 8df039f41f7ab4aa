/**
 * The figures reports.controller.js derives from the report queries before answering: the balance
 * sheet and its equity line, the income statement and its margin, the cash-flow statement, the
 * administrator's summary and the running balance printed on a member's statement.
 */
module ReportsController {
  import opened Wrappers
  import opened Sums
  import opened Db
  import opened Reports

  // ---------------------------------------------------------------------------
  // balanceSheet
  // ---------------------------------------------------------------------------

  datatype Equity = Equity(shareCapital: real, retainedEarnings: real, total: real)
  datatype BalanceSheet = BalanceSheet(assetsTotal: real, liabilitiesTotal: real, equity: Equity, totalLiabilitiesEquity: real)

  /** `balanceSheet`: the answer built from getBalanceSheetData. */
  function BalanceSheetReport(data: BalanceSheetData): BalanceSheet {
    var equity := Equity(data.shareCapital, data.retainedEarnings, data.shareCapital + data.retainedEarnings);
    BalanceSheet(data.totalAssets, data.totalLiabilities, equity, data.totalLiabilities + equity.total)
  }

  /** The sheet always balances: liabilities plus equity equal total assets. */
  lemma BalanceSheetBalances(transactions: seq<Transaction>, expenses: seq<Expense>, loans: seq<Loan>,
                             assets: seq<Asset>, deposits: seq<Deposit>, date: int)
    ensures var s := BalanceSheetReport(GetBalanceSheetData(transactions, expenses, loans, assets, deposits, date));
      && s.totalLiabilitiesEquity == s.assetsTotal
      && s.equity.total == s.assetsTotal - s.liabilitiesTotal
  {
  }

  // ---------------------------------------------------------------------------
  // incomeStatement
  // ---------------------------------------------------------------------------

  datatype IncomeStatement = IncomeStatement(revenue: real, expenses: real, netIncome: real, profitMargin: Rate)

  /** `incomeStatement`: revenue is interest plus fees, expenses are operating costs plus dividends
      paid, and the margin is `netIncome / revenue` as a percentage, or "0%" without revenue. */
  function IncomeStatementReport(data: IncomeData): (s: IncomeStatement)
    ensures s.revenue == data.interest + data.penalties
    ensures s.expenses == data.expenses + data.dividends
    ensures s.netIncome == s.revenue - s.expenses
    ensures s.profitMargin == ZeroPercent <==> s.revenue <= 0.0
    ensures s.profitMargin.Percent? ==> s.profitMargin.decimals == 2
    ensures s.profitMargin.Percent? ==> s.profitMargin.value * s.revenue == s.netIncome * 100.0
    ensures s.profitMargin.Percent? && s.expenses >= 0.0 ==> s.profitMargin.value <= 100.0
    ensures s.profitMargin.Percent? && s.netIncome >= 0.0 ==> s.profitMargin.value >= 0.0
  {
    var revenue := data.interest + data.penalties;
    var expenses := data.expenses + data.dividends;
    var net := revenue - expenses;
    if revenue > 0.0 then
      MarginBounds(net, revenue);
      IncomeStatement(revenue, expenses, net, Percent(net / revenue * 100.0, 2))
    else IncomeStatement(revenue, expenses, net, ZeroPercent)
  }

  lemma MarginBounds(net: real, revenue: real)
    requires revenue > 0.0
    ensures net / revenue * 100.0 * revenue == net * 100.0
    ensures net <= revenue ==> net / revenue * 100.0 <= 100.0
    ensures net >= 0.0 ==> net / revenue * 100.0 >= 0.0
  {
    assert net / revenue * revenue == net;
  }

  /** Net income over two adjoining periods adds up to the net income over the whole. */
  lemma NetIncomePeriodsAdd(loans: seq<Loan>, transactions: seq<Transaction>, expenses: seq<Expense>,
                            allocations: seq<Allocation>, a: int, b: int, c: int)
    requires a <= b < c
    ensures IncomeStatementReport(GetIncomeStatementData(loans, transactions, expenses, allocations, a, c)).netIncome
         == IncomeStatementReport(GetIncomeStatementData(loans, transactions, expenses, allocations, a, b)).netIncome
          + IncomeStatementReport(GetIncomeStatementData(loans, transactions, expenses, allocations, b + 1, c)).netIncome
  {
    IncomePeriodsAdd(loans, transactions, expenses, allocations, a, b, c);
  }

  // ---------------------------------------------------------------------------
  // cashFlow
  // ---------------------------------------------------------------------------

  datatype CashFlow = CashFlow(opInflow: real, opOutflow: real, operatingNet: real, investingNet: real, netCashFlow: real)

  /** `cashFlow`: repayments count as operating inflow, expenses as operating outflow, dividend
      distributions as the only investing line. */
  function CashFlowReport(data: CashFlowData): (f: CashFlow)
    ensures f.opInflow == data.moneyIn + data.loanRepayments
    ensures f.opOutflow == data.moneyOut + data.opExpenses
    ensures f.operatingNet == f.opInflow - f.opOutflow
    ensures f.netCashFlow == f.operatingNet + f.investingNet
    ensures f.investingNet == -data.investingOutflow
  {
    var inflow := data.moneyIn + data.loanRepayments;
    var outflow := data.moneyOut + data.opExpenses;
    CashFlow(inflow, outflow, inflow - outflow, -data.investingOutflow, inflow - outflow - data.investingOutflow)
  }

  /** The net cash flow over two adjoining periods adds up to the net cash flow over the whole. */
  lemma NetCashFlowPeriodsAdd(transactions: seq<Transaction>, expenses: seq<Expense>, allocations: seq<Allocation>,
                              a: int, b: int, c: int)
    requires a <= b < c
    ensures CashFlowReport(GetCashFlowData(transactions, expenses, allocations, a, c)).netCashFlow
         == CashFlowReport(GetCashFlowData(transactions, expenses, allocations, a, b)).netCashFlow
          + CashFlowReport(GetCashFlowData(transactions, expenses, allocations, b + 1, c)).netCashFlow
  {
    CashFlowPeriodsAdd(transactions, expenses, allocations, a, b, c);
  }

  // ---------------------------------------------------------------------------
  // summaryJson
  // ---------------------------------------------------------------------------

  datatype Summary = Summary(netSavings: real, totalRevenue: real, cashOnHand: real, activeLoansCount: nat, outstandingBalance: real)

  /** `summaryJson`: the outstanding balance is the ACTIVE loans' total due less what they repaid. */
  function SummaryReport(data: LedgerData): Summary {
    Summary(data.netSavings, data.totalRevenue, data.cashOnHand, data.loanStats.count,
            data.loanStats.totalDue - data.loanStats.repaid)
  }

  /** The summary's outstanding balance is the dashboard's loan portfolio when every ACTIVE loan has
      a total due; the count is the dashboard's number of active loans. */
  lemma SummaryMatchesDashboard(deposits: seq<Deposit>, transactions: seq<Transaction>, loans: seq<Loan>, assets: seq<Asset>)
    requires forall i :: 0 <= i < |loans| && loans[i].status == Active ==> loans[i].totalDue.Some?
    ensures var s := SummaryReport(GetFullLedgerData(deposits, transactions, loans));
      && s.outstandingBalance == Portfolio(loans)
      && s.activeLoansCount == GetDashboardSummary(loans, deposits, assets).activeLoans
  {
    SumWhereSub(loans, IsActiveLoan, Due, Repaid, Outstanding);
    SumWhereExt(loans, IsActiveLoan, ActiveWithDue, Outstanding, Outstanding);
    CountWhereSame(loans, IsActiveLoan, StatusIs(Active));
  }

  lemma {:induction false} CountWhereSame<T>(xs: seq<T>, p: T -> bool, q: T -> bool)
    requires forall i :: 0 <= i < |xs| ==> (p(xs[i]) <==> q(xs[i]))
    ensures CountWhere(xs, p) == CountWhere(xs, q)
  {
    CountWhereMono(xs, p, q);
    CountWhereMono(xs, q, p);
  }

  // ---------------------------------------------------------------------------
  // downloadStatement: the running balance
  // ---------------------------------------------------------------------------

  /** DEPOSIT, LOAN_DISBURSEMENT and DIVIDEND rows print as money in; every other row, one with no
      type included, prints as money out. */
  predicate IsCredit(t: Transaction) {
    t.kind == Some("DEPOSIT") || t.kind == Some("LOAN_DISBURSEMENT") || t.kind == Some("DIVIDEND")
  }

  predicate IsDebit(t: Transaction) { !IsCredit(t) }

  /** One printed line: the amount in the credit or the debit column and the balance so far. */
  datatype StatementLine = StatementLine(moneyIn: real, moneyOut: real, balance: real)

  /** The balance after the first rows of a statement. */
  function RunningBalance(txs: seq<Transaction>): real {
    SumWhere(txs, IsCredit, TxAmount) - SumWhere(txs, IsDebit, TxAmount)
  }

  /** The loop of `downloadStatement` over the member's transactions, oldest first. */
  method StatementLines(txs: seq<Transaction>) returns (lines: seq<StatementLine>, balance: real, totalCredit: real, totalDebit: real)
    ensures |lines| == |txs|
    ensures totalCredit == SumWhere(txs, IsCredit, TxAmount)
    ensures totalDebit == SumWhere(txs, IsDebit, TxAmount)
    ensures balance == totalCredit - totalDebit
    ensures forall i :: 0 <= i < |txs| ==> lines[i].balance == RunningBalance(txs[..i + 1])
    ensures forall i :: 0 <= i < |txs| ==> if IsCredit(txs[i]) then lines[i].moneyIn == txs[i].amount && lines[i].moneyOut == 0.0
                                           else lines[i].moneyOut == txs[i].amount && lines[i].moneyIn == 0.0
  {
    lines, balance, totalCredit, totalDebit := [], 0.0, 0.0, 0.0;
    var i := 0;
    while i < |txs|
      invariant 0 <= i <= |txs|
      invariant |lines| == i
      invariant totalCredit == SumWhere(txs[..i], IsCredit, TxAmount)
      invariant totalDebit == SumWhere(txs[..i], IsDebit, TxAmount)
      invariant balance == totalCredit - totalDebit
      invariant forall k :: 0 <= k < i ==> lines[k].balance == RunningBalance(txs[..k + 1])
      invariant forall k :: 0 <= k < i ==> if IsCredit(txs[k]) then lines[k].moneyIn == txs[k].amount && lines[k].moneyOut == 0.0
                                           else lines[k].moneyOut == txs[k].amount && lines[k].moneyIn == 0.0
    {
      var tx := txs[i];
      var amt := tx.amount;
      var moneyIn, moneyOut := 0.0, 0.0;
      if IsCredit(tx) {
        moneyIn := amt;
        totalCredit := totalCredit + amt;
        balance := balance + amt;
      } else {
        moneyOut := amt;
        totalDebit := totalDebit + amt;
        balance := balance - amt;
      }
      assert txs[..i + 1][..i] == txs[..i];
      lines := lines + [StatementLine(moneyIn, moneyOut, balance)];
      i := i + 1;
    }
    assert txs[..i] == txs;
  }

  /** Every row is in exactly one column, so the two totals together are the sum of all amounts. */
  lemma ColumnsCoverEveryRow(txs: seq<Transaction>)
    ensures SumWhere(txs, IsCredit, TxAmount) + SumWhere(txs, IsDebit, TxAmount) == SumWhere(txs, AnyRow, TxAmount)
  {
    SumWherePartition(txs, AnyRow, IsCredit, IsDebit, TxAmount);
  }

  predicate AnyRow(t: Transaction) { true }
}
