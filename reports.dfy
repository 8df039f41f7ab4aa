/**
 * The report queries (reports.service.js): dashboard and analytics figures, the balance sheet,
 * income and cash-flow totals, the active loan portfolio and the cooperative's letterhead details.
 * Each figure is a filtered sum over the tables; `COALESCE(SUM(..), 0)` over no row is 0, and a
 * NULL column adds nothing to a SUM.
 */
module Reports {
  import opened Wrappers
  import opened Sums
  import opened Text
  import opened Db
  import opened Assets
  import Loans
  import Deposits

  /** A percentage as the reports show it: the literal "0%", or `x.toFixed(decimals) + '%'`. */
  datatype Rate = ZeroPercent | Percent(value: real, decimals: nat)

  /** `whole > 0 ? ((part / whole) * 100).toFixed(d) + '%' : '0%'` for a count within a count. */
  function RateOf(part: nat, whole: nat, decimals: nat): (r: Rate)
    ensures r == ZeroPercent <==> whole == 0
    ensures r.Percent? ==> r.decimals == decimals && r.value * (whole as real) == (part as real) * 100.0
    ensures r.Percent? && part <= whole ==> 0.0 <= r.value <= 100.0
  {
    if whole > 0 then
      FractionWithin(part as real, whole as real);
      DivideBack(part as real, whole);
      Percent((part as real) / (whole as real) * 100.0, decimals)
    else ZeroPercent
  }

  lemma FractionAtMostOne(a: real, b: real)
    requires 0.0 <= a <= b && b > 0.0
    ensures 0.0 <= a / b <= 1.0
  {
    assert a / b * b == a;
  }

  lemma FractionWithin(a: real, b: real)
    requires b > 0.0
    ensures 0.0 <= a <= b ==> 0.0 <= a / b <= 1.0
  {
    if 0.0 <= a <= b {
      FractionAtMostOne(a, b);
    }
  }

  lemma DivideBack(a: real, n: nat)
    requires n > 0
    ensures a / (n as real) * (n as real) == a
  {
  }

  // ---------------------------------------------------------------------------
  // Loan columns
  // ---------------------------------------------------------------------------

  function Due(l: Loan): real { l.totalDue.GetOr(0.0) }
  function Repaid(l: Loan): real { l.amountRepaid }
  function Outstanding(l: Loan): real { Due(l) - l.amountRepaid }
  function Requested(l: Loan): real { l.amountRequested.GetOr(0.0) }
  function InterestOf(l: Loan): real { l.interestAmount.GetOr(0.0) }

  function StatusIs(s: LoanStatus): Loan -> bool { (l: Loan) => l.status == s }

  /** `SUM(total_due - amount_repaid) WHERE status = 'ACTIVE'`: a NULL total_due drops the row. */
  predicate ActiveWithDue(l: Loan) { l.status == Active && l.totalDue.Some? }

  /** `status IN ('ACTIVE', 'COMPLETED', 'DEFAULT')`. */
  predicate Rated(l: Loan) { l.status == Active || l.status == Completed || l.status == Default }

  predicate ActiveOrCompleted(l: Loan) { l.status == Active || l.status == Completed }
  predicate HasRequested(l: Loan) { l.amountRequested.Some? }
  predicate HasInterest(l: Loan) { l.interestAmount.Some? }

  /** The money still owed on ACTIVE loans. */
  function Portfolio(loans: seq<Loan>): real { SumWhere(loans, ActiveWithDue, Outstanding) }

  /** `SUM(current_value) WHERE status = 'ACTIVE'` on the fixed assets. */
  function FixedAssetTotal(assets: seq<Asset>): real { SumWhere(assets, IsActiveAsset, CurrentValue) }

  predicate IsCompletedDeposit(d: Deposit) { d.status == "COMPLETED" }
  function DepositAmount(d: Deposit): real { d.amount }

  /** `COALESCE(AVG(column), 0)`: the mean of the non-NULL values, 0 when there is none. */
  function Average<T>(xs: seq<T>, present: T -> bool, value: T -> real): (a: real)
    ensures CountWhere(xs, present) > 0 ==> a * (CountWhere(xs, present) as real) == SumWhere(xs, present, value)
    ensures CountWhere(xs, present) == 0 ==> a == 0.0
  {
    var n := CountWhere(xs, present);
    if n == 0 then 0.0 else SumWhere(xs, present, value) / (n as real)
  }

  // ---------------------------------------------------------------------------
  // getDashboardSummary
  // ---------------------------------------------------------------------------

  datatype Dashboard = Dashboard(assetsTotal: real, liabilitiesTotal: real, activeLoans: nat, defaultRate: Rate)

  /** `getDashboardSummary()`: assets are the money owed on ACTIVE loans plus the ACTIVE fixed
      assets, liabilities the COMPLETED deposits, and the default rate the DEFAULT loans as a
      percentage of the ACTIVE, COMPLETED and DEFAULT ones. */
  function GetDashboardSummary(loans: seq<Loan>, deposits: seq<Deposit>, assets: seq<Asset>): (d: Dashboard)
    ensures d.assetsTotal == SumWhere(loans, ActiveWithDue, Outstanding) + SumWhere(assets, IsActiveAsset, CurrentValue)
    ensures d.liabilitiesTotal == SumWhere(deposits, IsCompletedDeposit, DepositAmount)
    ensures d.activeLoans == CountWhere(loans, StatusIs(Active))
    ensures d.defaultRate == ZeroPercent <==> forall i :: 0 <= i < |loans| ==> !Rated(loans[i])
    ensures d.defaultRate.Percent? ==> 0.0 <= d.defaultRate.value <= 100.0 && d.defaultRate.decimals == 1
    ensures d.defaultRate == RateOf(CountWhere(loans, StatusIs(Default)), CountWhere(loans, Rated), 1)
    ensures d.activeLoans <= |loans|
    ensures |loans| == 0 && |assets| == 0 ==> d.assetsTotal == 0.0
    ensures |deposits| == 0 ==> d.liabilitiesTotal == 0.0
  {
    var defaulted := CountWhere(loans, StatusIs(Default));
    var total := CountWhere(loans, Rated);
    CountWhereMono(loans, StatusIs(Default), Rated);
    CountWhereZero(loans, Rated);
    Dashboard(Portfolio(loans) + FixedAssetTotal(assets),
              SumWhere(deposits, IsCompletedDeposit, DepositAmount),
              CountWhere(loans, StatusIs(Active)),
              RateOf(defaulted, total, 1))
  }

  // ---------------------------------------------------------------------------
  // getLoanAnalytics
  // ---------------------------------------------------------------------------

  datatype LoanAnalytics = LoanAnalytics(
    activeLoans: nat,
    totalLoans: nat,
    totalPortfolio: real,
    totalRepaid: real,
    totalDefaulted: int,
    totalOverdue: int,
    defaultRate: Rate,
    repaymentRate: Rate,
    averageLoan: real,
    averageInterest: real)

  /** `parseInt(SUM(total_due) FILTER (WHERE status = s))`: the amount, cut to a whole number. */
  function DueTruncated(loans: seq<Loan>, s: LoanStatus): int {
    Loans.Trunc(SumWhere(loans, StatusIs(s), Due))
  }

  /** getLoanAnalytics as written: the two rates divide `total_defaulted`, which is a sum of money
      owed on DEFAULT loans, by `total_loans`, a count of ACTIVE and COMPLETED loans. */
  function LoanAnalyticsAsWritten(loans: seq<Loan>): LoanAnalytics {
    var totalLoans := CountWhere(loans, ActiveOrCompleted);
    var totalDefaulted := DueTruncated(loans, Default);
    var rates := RatesAsWritten(totalDefaulted, totalLoans);
    LoanAnalytics(
      CountWhere(loans, StatusIs(Active)),
      totalLoans,
      Portfolio(loans),
      SumWhere(loans, StatusIs(Completed), Repaid),
      totalDefaulted,
      DueTruncated(loans, Overdue),
      rates.0,
      rates.1,
      Average(loans, HasRequested, Requested),
      Average(loans, HasInterest, InterestOf))
  }

  /** The default and repayment rates of lines 67-68, from the two figures they divide. */
  function RatesAsWritten(totalDefaulted: int, totalLoans: nat): (Rate, Rate) {
    if totalLoans > 0 then
      (Percent((totalDefaulted as real) / (totalLoans as real) * 100.0, 2),
       Percent(((totalLoans - totalDefaulted) as real) / (totalLoans as real) * 100.0, 2))
    else (ZeroPercent, ZeroPercent)
  }

  /** One ACTIVE loan and one DEFAULT loan owing 1100: the default rate comes out at 110000% and
      the repayment rate at -109900%. */
  lemma LoanAnalyticsRatesAsWritten()
    ensures var active := Loan(1, 1, Active, 0, 500.0, None, Some(1000.0), None, None, 0.0, Some(100.0), Some(1100.0), Some(0), []);
      var defaulted := Loan(2, 2, Default, 0, 500.0, None, Some(1000.0), None, None, 0.0, Some(100.0), Some(1100.0), Some(0), []);
      var a := LoanAnalyticsAsWritten([active, defaulted]);
      && a.defaultRate == Percent(110000.0, 2) && a.defaultRate.value > 100.0
      && a.repaymentRate == Percent(-109900.0, 2) && a.repaymentRate.value < 0.0
  {
    var active := Loan(1, 1, Active, 0, 500.0, None, Some(1000.0), None, None, 0.0, Some(100.0), Some(1100.0), Some(0), []);
    var defaulted := Loan(2, 2, Default, 0, 500.0, None, Some(1000.0), None, None, 0.0, Some(100.0), Some(1100.0), Some(0), []);
    var loans := [active, defaulted];
    assert loans[..1] == [active] && [active][..0] == [];
    assert CountWhere(loans, ActiveOrCompleted) == 1;
    assert SumWhere([active], StatusIs(Default), Due) == 0.0;
    assert SumWhere(loans, StatusIs(Default), Due) == SumWhere([active], StatusIs(Default), Due) + Due(defaulted);
    assert DueTruncated(loans, Default) == 1100;
    assert RatesAsWritten(1100, 1) == (Percent(110000.0, 2), Percent(-109900.0, 2));
  }

  /** `getLoanAnalytics()`, with the rates counted as the dashboard counts them: DEFAULT loans among
      the ACTIVE, COMPLETED and DEFAULT ones. The other figures are as the source computes them. */
  function GetLoanAnalytics(loans: seq<Loan>): (a: LoanAnalytics)
    ensures a.defaultRate == ZeroPercent <==> forall i :: 0 <= i < |loans| ==> !Rated(loans[i])
    ensures a.repaymentRate == ZeroPercent <==> a.defaultRate == ZeroPercent
    ensures a.defaultRate.Percent? ==> 0.0 <= a.defaultRate.value <= 100.0
    ensures a.repaymentRate.Percent? ==> 0.0 <= a.repaymentRate.value <= 100.0
    ensures a.defaultRate.Percent? ==> a.defaultRate.value + a.repaymentRate.value == 100.0
    ensures a.defaultRate == RateOf(CountWhere(loans, StatusIs(Default)), CountWhere(loans, Rated), 2)
    ensures a.activeLoans <= a.totalLoans <= |loans|
    ensures a == LoanAnalyticsAsWritten(loans).(defaultRate := a.defaultRate, repaymentRate := a.repaymentRate)
  {
    var rated := CountWhere(loans, Rated);
    var defaulted := CountWhere(loans, StatusIs(Default));
    CountWhereMono(loans, StatusIs(Default), Rated);
    CountWhereMono(loans, StatusIs(Active), ActiveOrCompleted);
    CountWhereZero(loans, Rated);
    var d := RateOf(defaulted, rated, 2);
    var r := RateOf(rated - defaulted, rated, 2);
    RatesComplement(defaulted, rated);
    var original := LoanAnalyticsAsWritten(loans);
    original.(defaultRate := d, repaymentRate := r)
  }

  lemma RatesComplement(d: nat, n: nat)
    requires d <= n
    ensures n > 0 ==> (d as real) / (n as real) * 100.0 + ((n - d) as real) / (n as real) * 100.0 == 100.0
  {
    if n > 0 {
      assert (d as real) / (n as real) + ((n - d) as real) / (n as real) == (n as real) / (n as real);
    }
  }

  // ---------------------------------------------------------------------------
  // getDepositAnalytics
  // ---------------------------------------------------------------------------

  datatype DepositAnalytics = DepositAnalytics(
    totalMembers: nat,
    totalDeposits: nat,
    totalAmount: real,
    shareCapital: real,
    emergencyFund: real,
    welfare: real,
    averageDeposit: real,
    averagePerMember: real)

  /** `COUNT(DISTINCT user_id)` over the COMPLETED deposits. */
  function Depositors(deposits: seq<Deposit>): set<nat>
    decreases |deposits|
  {
    if |deposits| == 0 then {}
    else
      var d := deposits[|deposits| - 1];
      Depositors(deposits[..|deposits| - 1]) + (if IsCompletedDeposit(d) then {d.userId} else {})
  }

  /** There are no more depositors than deposits, and some depositor exactly when some deposit. */
  lemma {:induction false} DepositorsBound(deposits: seq<Deposit>)
    ensures |Depositors(deposits)| <= CountWhere(deposits, IsCompletedDeposit)
    ensures |Depositors(deposits)| == 0 <==> CountWhere(deposits, IsCompletedDeposit) == 0
    decreases |deposits|
  {
    if |deposits| > 0 {
      var init := deposits[..|deposits| - 1];
      var d := deposits[|deposits| - 1];
      DepositorsBound(init);
      if IsCompletedDeposit(d) {
        assert d.userId in Depositors(deposits);
      }
    }
  }

  /** `type = name OR category = name` on a COMPLETED deposit. */
  function CompletedTypedOr(name: string): Deposit -> bool {
    (d: Deposit) => d.status == "COMPLETED" && (d.kind == name || d.category == Some(name))
  }

  /** `getDepositAnalytics()`. */
  function GetDepositAnalytics(deposits: seq<Deposit>): DepositAnalytics {
    var members := |Depositors(deposits)|;
    var total := SumWhere(deposits, IsCompletedDeposit, DepositAmount);
    DepositAnalytics(
      members,
      CountWhere(deposits, IsCompletedDeposit),
      total,
      SumWhere(deposits, CompletedTypedOr("SHARE_CAPITAL"), DepositAmount),
      SumWhere(deposits, CompletedTypedOr("EMERGENCY_FUND"), DepositAmount),
      SumWhere(deposits, CompletedTypedOr("WELFARE"), DepositAmount),
      Average(deposits, IsCompletedDeposit, DepositAmount),
      if members > 0 then total / (members as real) else 0.0)
  }

  /** The member count never exceeds the deposit count and is 0 exactly when it is. */
  lemma DepositAnalyticsCounts(deposits: seq<Deposit>)
    ensures var a := GetDepositAnalytics(deposits);
      && a.totalMembers <= a.totalDeposits
      && (a.totalMembers == 0 <==> a.totalDeposits == 0)
  {
    DepositorsBound(deposits);
  }

  /** The average deposit multiplies back to the total, and is 0 when there is no deposit. */
  lemma AverageDepositBack(deposits: seq<Deposit>)
    ensures var a := GetDepositAnalytics(deposits);
      && (a.totalDeposits > 0 ==> a.averageDeposit * (a.totalDeposits as real) == a.totalAmount)
      && (a.totalDeposits == 0 ==> a.averageDeposit == 0.0)
  {
  }

  /** The average per member multiplies back to the total, and is 0 when nobody has deposited. */
  lemma AveragePerMemberBack(deposits: seq<Deposit>)
    ensures var a := GetDepositAnalytics(deposits);
      && (a.totalMembers > 0 ==> a.averagePerMember * (a.totalMembers as real) == a.totalAmount)
      && (a.totalMembers == 0 ==> a.averagePerMember == 0.0)
  {
    var a := GetDepositAnalytics(deposits);
    if a.totalMembers > 0 {
      DivideBack(a.totalAmount, a.totalMembers);
    }
  }

  // ---------------------------------------------------------------------------
  // getBalanceSheetData
  // ---------------------------------------------------------------------------

  /** `type IN (...)`: a NULL type is in no list. */
  predicate TypeIn(kind: Option<string>, types: seq<string>) { kind.Some? && kind.value in types }

  const CashInTypes: seq<string> := ["DEPOSIT", "SAVINGS", "SHARE_CAPITAL", "REGISTRATION_FEE", "LOAN_REPAYMENT"]
  const CashOutTypes: seq<string> := ["WITHDRAWAL", "LOAN_DISBURSEMENT"]

  function TxAmount(t: Transaction): real { t.amount }

  function CompletedBy(date: int, types: seq<string>): Transaction -> bool {
    (t: Transaction) => t.status == Some("COMPLETED") && t.createdAt <= date && TypeIn(t.kind, types)
  }

  function ExpenseAmount(e: Expense): real { e.amount }
  function ExpenseBy(date: int): Expense -> bool { (e: Expense) => e.expenseDate <= date }

  function ActiveWithDueBy(date: int): Loan -> bool { (l: Loan) => ActiveWithDue(l) && l.createdAt <= date }

  function ActiveOfKind(kind: string): Asset -> bool { (a: Asset) => a.status == "ACTIVE" && a.kind == Some(kind) }
  /** `type NOT IN ('LAND', 'BUILDING')`: a NULL type is not in the "other" line either. */
  predicate ActiveOther(a: Asset) { a.status == "ACTIVE" && a.kind.Some? && a.kind.value != "LAND" && a.kind.value != "BUILDING" }
  predicate ActiveUntyped(a: Asset) { a.status == "ACTIVE" && a.kind.None? }

  function CompletedDepositBy(date: int, types: seq<string>): Deposit -> bool {
    (d: Deposit) => d.status == "COMPLETED" && d.createdAt <= date && d.kind in types
  }

  /** Share capital (line 132): every SHARE_CAPITAL row up to the date, whatever its status. */
  function ShareCapitalBy(date: int): Deposit -> bool { (d: Deposit) => d.kind == "SHARE_CAPITAL" && d.createdAt <= date }

  datatype FixedAssets = FixedAssets(total: real, land: real, buildings: real, other: real)
  datatype Liabilities = Liabilities(memberSavings: real, emergencyFund: real, welfareFund: real)
  datatype BalanceSheetData = BalanceSheetData(
    cashAtHand: real,
    loansOutstanding: real,
    fixedAssets: FixedAssets,
    totalAssets: real,
    liabs: Liabilities,
    totalLiabilities: real,
    shareCapital: real,
    retainedEarnings: real)

  function CashAtHand(transactions: seq<Transaction>, expenses: seq<Expense>, date: int): real {
    SumWhere(transactions, CompletedBy(date, CashInTypes), TxAmount)
    - SumWhere(transactions, CompletedBy(date, CashOutTypes), TxAmount)
    - SumWhere(expenses, ExpenseBy(date), ExpenseAmount)
  }

  function LiabilitiesBy(deposits: seq<Deposit>, date: int): Liabilities {
    Liabilities(SumWhere(deposits, CompletedDepositBy(date, ["DEPOSIT", "SAVINGS"]), DepositAmount),
                SumWhere(deposits, CompletedDepositBy(date, ["EMERGENCY_FUND"]), DepositAmount),
                SumWhere(deposits, CompletedDepositBy(date, ["WELFARE"]), DepositAmount))
  }

  function FixedAssetsNow(assets: seq<Asset>): FixedAssets {
    FixedAssets(FixedAssetTotal(assets),
                SumWhere(assets, ActiveOfKind("LAND"), CurrentValue),
                SumWhere(assets, ActiveOfKind("BUILDING"), CurrentValue),
                SumWhere(assets, ActiveOther, CurrentValue))
  }

  /** `getBalanceSheetData(date)`: retained earnings are whatever makes the sheet balance. */
  function GetBalanceSheetData(transactions: seq<Transaction>, expenses: seq<Expense>, loans: seq<Loan>,
                               assets: seq<Asset>, deposits: seq<Deposit>, date: int): (b: BalanceSheetData)
    ensures b.totalAssets == b.totalLiabilities + b.shareCapital + b.retainedEarnings
    ensures b.totalLiabilities == b.liabs.memberSavings + b.liabs.emergencyFund + b.liabs.welfareFund
    ensures b.totalAssets == b.cashAtHand + b.loansOutstanding + b.fixedAssets.total
  {
    var cash := CashAtHand(transactions, expenses, date);
    var outstanding := SumWhere(loans, ActiveWithDueBy(date), Outstanding);
    var fixed := FixedAssetsNow(assets);
    var totalAssets := cash + outstanding + fixed.total;
    var liabs := LiabilitiesBy(deposits, date);
    var totalLiabilities := liabs.memberSavings + liabs.emergencyFund + liabs.welfareFund;
    var shareCapital := SumWhere(deposits, ShareCapitalBy(date), DepositAmount);
    BalanceSheetData(cash, outstanding, fixed, totalAssets, liabs, totalLiabilities, shareCapital,
                     totalAssets - (totalLiabilities + shareCapital))
  }

  /** The land, building and other lines add up to the fixed-asset total except for ACTIVE assets
      with no type, which are in the total and in no line. */
  lemma FixedAssetLines(assets: seq<Asset>)
    ensures var f := FixedAssetsNow(assets);
      f.total == f.land + f.buildings + f.other + SumWhere(assets, ActiveUntyped, CurrentValue)
  {
    var typed := (a: Asset) => a.status == "ACTIVE" && a.kind.Some?;
    var landOrBuilding := (a: Asset) => a.status == "ACTIVE" && (a.kind == Some("LAND") || a.kind == Some("BUILDING"));
    SumWherePartition(assets, IsActiveAsset, typed, ActiveUntyped, CurrentValue);
    SumWherePartition(assets, typed, landOrBuilding, ActiveOther, CurrentValue);
    SumWherePartition(assets, landOrBuilding, ActiveOfKind("LAND"), ActiveOfKind("BUILDING"), CurrentValue);
  }

  /** A deposit recorded on both ledgers (a COMPLETED DEPOSIT transaction and a COMPLETED DEPOSIT
      row of the same amount, up to the date) adds that amount to cash and to member savings and
      leaves retained earnings where they were. */
  lemma DepositKeepsRetainedEarnings(transactions: seq<Transaction>, expenses: seq<Expense>, loans: seq<Loan>,
                                     assets: seq<Asset>, deposits: seq<Deposit>, date: int, t: Transaction, d: Deposit)
    requires t.status == Some("COMPLETED") && t.kind == Some("DEPOSIT") && t.createdAt <= date
    requires d.status == "COMPLETED" && d.kind == "DEPOSIT" && d.createdAt <= date && d.amount == t.amount
    ensures var b := GetBalanceSheetData(transactions, expenses, loans, assets, deposits, date);
      var b' := GetBalanceSheetData(transactions + [t], expenses, loans, assets, deposits + [d], date);
      && b'.cashAtHand == b.cashAtHand + t.amount
      && b'.totalLiabilities == b.totalLiabilities + t.amount
      && b'.shareCapital == b.shareCapital
      && b'.retainedEarnings == b.retainedEarnings
  {
    SumWhereSnoc(transactions, t, CompletedBy(date, CashInTypes), TxAmount);
    SumWhereSnoc(transactions, t, CompletedBy(date, CashOutTypes), TxAmount);
    SumWhereSnoc(deposits, d, CompletedDepositBy(date, ["DEPOSIT", "SAVINGS"]), DepositAmount);
    SumWhereSnoc(deposits, d, CompletedDepositBy(date, ["EMERGENCY_FUND"]), DepositAmount);
    SumWhereSnoc(deposits, d, CompletedDepositBy(date, ["WELFARE"]), DepositAmount);
    SumWhereSnoc(deposits, d, ShareCapitalBy(date), DepositAmount);
  }

  /** An expense up to the date lowers cash, and so retained earnings, by its amount. */
  lemma ExpenseLowersRetainedEarnings(transactions: seq<Transaction>, expenses: seq<Expense>, loans: seq<Loan>,
                                      assets: seq<Asset>, deposits: seq<Deposit>, date: int, e: Expense)
    requires e.expenseDate <= date
    ensures var b := GetBalanceSheetData(transactions, expenses, loans, assets, deposits, date);
      var b' := GetBalanceSheetData(transactions, expenses + [e], loans, assets, deposits, date);
      && b'.cashAtHand == b.cashAtHand - e.amount
      && b'.retainedEarnings == b.retainedEarnings - e.amount
  {
    SumWhereSnoc(expenses, e, ExpenseBy(date), ExpenseAmount);
  }

  /** Share capital is read with no status filter: a SHARE_CAPITAL row that is still PENDING raises
      equity by its amount, brings in no cash, and so lowers retained earnings by the same amount. */
  lemma PendingShareCapitalCounts(transactions: seq<Transaction>, expenses: seq<Expense>, loans: seq<Loan>,
                                  assets: seq<Asset>, deposits: seq<Deposit>, date: int, d: Deposit)
    requires d.kind == "SHARE_CAPITAL" && d.status == "PENDING" && d.createdAt <= date
    ensures var b := GetBalanceSheetData(transactions, expenses, loans, assets, deposits, date);
      var b' := GetBalanceSheetData(transactions, expenses, loans, assets, deposits + [d], date);
      && b'.cashAtHand == b.cashAtHand
      && b'.shareCapital == b.shareCapital + d.amount
      && b'.retainedEarnings == b.retainedEarnings - d.amount
  {
    SumWhereSnoc(deposits, d, CompletedDepositBy(date, ["DEPOSIT", "SAVINGS"]), DepositAmount);
    SumWhereSnoc(deposits, d, CompletedDepositBy(date, ["EMERGENCY_FUND"]), DepositAmount);
    SumWhereSnoc(deposits, d, CompletedDepositBy(date, ["WELFARE"]), DepositAmount);
    SumWhereSnoc(deposits, d, ShareCapitalBy(date), DepositAmount);
  }

  /** The dashboard's assets are the balance sheet's loans outstanding plus its fixed assets at any
      date no earlier than every loan's creation; the dashboard leaves cash out. */
  lemma DashboardAssetsOnBalanceSheet(transactions: seq<Transaction>, expenses: seq<Expense>, loans: seq<Loan>,
                                      assets: seq<Asset>, deposits: seq<Deposit>, date: int)
    requires forall i :: 0 <= i < |loans| ==> loans[i].createdAt <= date
    ensures var b := GetBalanceSheetData(transactions, expenses, loans, assets, deposits, date);
      GetDashboardSummary(loans, deposits, assets).assetsTotal == b.loansOutstanding + b.fixedAssets.total
  {
    SumWhereExt(loans, ActiveWithDue, ActiveWithDueBy(date), Outstanding, Outstanding);
  }

  // ---------------------------------------------------------------------------
  // getIncomeStatementData, getCashFlowData
  // ---------------------------------------------------------------------------

  /** `BETWEEN start AND end`, both ends included. */
  predicate Within(t: int, start: int, end: int) { start <= t <= end }

  function LoanCreatedWithin(start: int, end: int): Loan -> bool { (l: Loan) => Within(l.createdAt, start, end) }
  function TxWithin(start: int, end: int, types: seq<string>): Transaction -> bool {
    (t: Transaction) => Within(t.createdAt, start, end) && TypeIn(t.kind, types)
  }
  function ExpenseWithin(start: int, end: int): Expense -> bool { (e: Expense) => Within(e.expenseDate, start, end) }
  function PaidWithin(start: int, end: int): Allocation -> bool {
    (a: Allocation) => a.status == "PAID" && Within(a.paymentDate, start, end)
  }
  function AllocationAmount(a: Allocation): real { a.amount }

  const FeeTypes: seq<string> := ["PENALTY", "FINE", "REGISTRATION_FEE"]

  datatype IncomeData = IncomeData(interest: real, penalties: real, expenses: real, dividends: real)

  /** `getIncomeStatementData(start, end)`. */
  function GetIncomeStatementData(loans: seq<Loan>, transactions: seq<Transaction>, expenses: seq<Expense>,
                                  allocations: seq<Allocation>, start: int, end: int): IncomeData
  {
    IncomeData(SumWhere(loans, LoanCreatedWithin(start, end), InterestOf),
               SumWhere(transactions, TxWithin(start, end, FeeTypes), TxAmount),
               SumWhere(expenses, ExpenseWithin(start, end), ExpenseAmount),
               SumWhere(allocations, PaidWithin(start, end), AllocationAmount))
  }

  /** A period that ends before it starts earns, spends and pays nothing. */
  lemma IncomeEmptyPeriod(loans: seq<Loan>, transactions: seq<Transaction>, expenses: seq<Expense>,
                          allocations: seq<Allocation>, start: int, end: int)
    requires end < start
    ensures GetIncomeStatementData(loans, transactions, expenses, allocations, start, end) == IncomeData(0.0, 0.0, 0.0, 0.0)
  {
    SumWhereNoMatch(loans, LoanCreatedWithin(start, end), InterestOf);
    SumWhereNoMatch(transactions, TxWithin(start, end, FeeTypes), TxAmount);
    SumWhereNoMatch(expenses, ExpenseWithin(start, end), ExpenseAmount);
    SumWhereNoMatch(allocations, PaidWithin(start, end), AllocationAmount);
  }

  /** `created_at BETWEEN start AND end AND (status = 'COMPLETED' OR status IS NULL)` of the given types. */
  function SettledWithin(start: int, end: int, types: seq<string>): Transaction -> bool {
    (t: Transaction) => Within(t.createdAt, start, end) && (t.status == Some("COMPLETED") || t.status.None?) && TypeIn(t.kind, types)
  }

  const MoneyInTypes: seq<string> := ["DEPOSIT", "SAVINGS", "SHARE_CAPITAL", "REGISTRATION_FEE"]

  datatype CashFlowData = CashFlowData(moneyIn: real, moneyOut: real, loanRepayments: real, opExpenses: real, investingOutflow: real)

  /** `getCashFlowData(start, end)`. */
  function GetCashFlowData(transactions: seq<Transaction>, expenses: seq<Expense>, allocations: seq<Allocation>,
                           start: int, end: int): CashFlowData
  {
    CashFlowData(SumWhere(transactions, SettledWithin(start, end, MoneyInTypes), TxAmount),
                 SumWhere(transactions, SettledWithin(start, end, CashOutTypes), TxAmount),
                 SumWhere(transactions, SettledWithin(start, end, ["LOAN_REPAYMENT"]), TxAmount),
                 SumWhere(expenses, ExpenseWithin(start, end), ExpenseAmount),
                 SumWhere(allocations, PaidWithin(start, end), AllocationAmount))
  }

  /** A transaction still PENDING moves no cash-flow figure, whatever its type. */
  lemma PendingTransactionNoCashFlow(transactions: seq<Transaction>, expenses: seq<Expense>, allocations: seq<Allocation>,
                                     start: int, end: int, t: Transaction)
    requires t.status == Some("PENDING")
    ensures GetCashFlowData(transactions + [t], expenses, allocations, start, end)
         == GetCashFlowData(transactions, expenses, allocations, start, end)
  {
    SumWhereSnoc(transactions, t, SettledWithin(start, end, MoneyInTypes), TxAmount);
    SumWhereSnoc(transactions, t, SettledWithin(start, end, CashOutTypes), TxAmount);
    SumWhereSnoc(transactions, t, SettledWithin(start, end, ["LOAN_REPAYMENT"]), TxAmount);
  }

  /** Every income figure over two adjoining periods adds up to the figure over the whole. */
  lemma IncomePeriodsAdd(loans: seq<Loan>, transactions: seq<Transaction>, expenses: seq<Expense>,
                         allocations: seq<Allocation>, a: int, b: int, c: int)
    requires a <= b < c
    ensures var x := GetIncomeStatementData(loans, transactions, expenses, allocations, a, b);
      var y := GetIncomeStatementData(loans, transactions, expenses, allocations, b + 1, c);
      var z := GetIncomeStatementData(loans, transactions, expenses, allocations, a, c);
      && z.interest == x.interest + y.interest
      && z.penalties == x.penalties + y.penalties
      && z.expenses == x.expenses + y.expenses
      && z.dividends == x.dividends + y.dividends
  {
    SumWherePartition(loans, LoanCreatedWithin(a, c), LoanCreatedWithin(a, b), LoanCreatedWithin(b + 1, c), InterestOf);
    SumWherePartition(transactions, TxWithin(a, c, FeeTypes), TxWithin(a, b, FeeTypes), TxWithin(b + 1, c, FeeTypes), TxAmount);
    SumWherePartition(expenses, ExpenseWithin(a, c), ExpenseWithin(a, b), ExpenseWithin(b + 1, c), ExpenseAmount);
    SumWherePartition(allocations, PaidWithin(a, c), PaidWithin(a, b), PaidWithin(b + 1, c), AllocationAmount);
  }

  /** Every cash-flow figure over two adjoining periods adds up to the figure over the whole. */
  lemma CashFlowPeriodsAdd(transactions: seq<Transaction>, expenses: seq<Expense>, allocations: seq<Allocation>,
                           a: int, b: int, c: int)
    requires a <= b < c
    ensures var x := GetCashFlowData(transactions, expenses, allocations, a, b);
      var y := GetCashFlowData(transactions, expenses, allocations, b + 1, c);
      var z := GetCashFlowData(transactions, expenses, allocations, a, c);
      && z.moneyIn == x.moneyIn + y.moneyIn
      && z.moneyOut == x.moneyOut + y.moneyOut
      && z.loanRepayments == x.loanRepayments + y.loanRepayments
      && z.opExpenses == x.opExpenses + y.opExpenses
      && z.investingOutflow == x.investingOutflow + y.investingOutflow
  {
    SumWherePartition(transactions, SettledWithin(a, c, MoneyInTypes), SettledWithin(a, b, MoneyInTypes),
                      SettledWithin(b + 1, c, MoneyInTypes), TxAmount);
    SumWherePartition(transactions, SettledWithin(a, c, CashOutTypes), SettledWithin(a, b, CashOutTypes),
                      SettledWithin(b + 1, c, CashOutTypes), TxAmount);
    SumWherePartition(transactions, SettledWithin(a, c, ["LOAN_REPAYMENT"]), SettledWithin(a, b, ["LOAN_REPAYMENT"]),
                      SettledWithin(b + 1, c, ["LOAN_REPAYMENT"]), TxAmount);
    SumWherePartition(expenses, ExpenseWithin(a, c), ExpenseWithin(a, b), ExpenseWithin(b + 1, c), ExpenseAmount);
    SumWherePartition(allocations, PaidWithin(a, c), PaidWithin(a, b), PaidWithin(b + 1, c), AllocationAmount);
  }

  // ---------------------------------------------------------------------------
  // getMemberStatementData, getActivePortfolio
  // ---------------------------------------------------------------------------

  /** `getMemberStatementData(userId)`: the user's row and their transactions, oldest first. */
  function GetMemberStatementData(users: seq<User>, transactions: seq<Transaction>, u: nat): (r: (Option<User>, seq<Transaction>))
    ensures r.0.Some? <==> exists j :: 0 <= j < |users| && users[j].id == u
    ensures r.0.Some? ==> r.0.value.id == u && r.0.value in users
    ensures forall t | t in r.1 :: t in transactions && t.userId == u
    ensures forall t | t in transactions && t.userId == u :: t in r.1
    ensures var idx := MatchIndices(transactions, Deposits.TxOf(u));
      |r.1| == |idx| && forall k :: 0 <= k < |r.1| ==> r.1[k] == transactions[idx[k]]
  {
    FilterAt(transactions, Deposits.TxOf(u));
    var user := match FirstWhere(users, UserIdIs(u)) case None => None case Some(j) => Some(users[j]);
    (user, Filter(transactions, Deposits.TxOf(u)))
  }

  /** Is r a whole number of tenths? */
  predicate Tenths(r: real) { (r * 10.0).Floor as real == r * 10.0 }

  function Abs(x: real): real { if x < 0.0 then -x else x }

  /** `ROUND(x, 1)` on a numeric: to the nearest tenth, halves away from zero. */
  function Round1(x: real): (r: real)
    ensures Tenths(r)
    ensures -0.05 <= r - x <= 0.05
    ensures 0.0 <= x <= 100.0 ==> 0.0 <= r <= 100.0
  {
    if x >= 0.0 then
      var n := (x * 10.0 + 0.5).Floor;
      TenthsOf(n);
      (n as real) / 10.0
    else
      var n := (-x * 10.0 + 0.5).Floor;
      TenthsOf(-n);
      -((n as real) / 10.0)
  }

  lemma TenthsOf(n: int)
    ensures Tenths((n as real) / 10.0)
  {
    assert (n as real) / 10.0 * 10.0 == n as real;
  }

  /** No multiple of a tenth is nearer to x than Round1(x). */
  lemma Round1Nearest(x: real, m: int)
    ensures Abs(Round1(x) - x) <= Abs((m as real) / 10.0 - x)
  {
    var r := Round1(x);
    var n := (r * 10.0).Floor;
    assert r == (n as real) / 10.0;
    if m != n {
      assert m <= n - 1 || m >= n + 1;
    }
  }

  /** A value halfway between two tenths goes to the one farther from zero, on either side. */
  lemma Round1Halves(k: nat)
    ensures Round1(((k as real) + 0.5) / 10.0) == ((k + 1) as real) / 10.0
    ensures Round1(-((k as real) + 0.5) / 10.0) == -(((k + 1) as real) / 10.0)
  {
    assert ((k as real) + 0.5) / 10.0 * 10.0 + 0.5 == (k + 1) as real;
    assert -(-((k as real) + 0.5) / 10.0) * 10.0 + 0.5 == (k + 1) as real;
  }

  /** A row of the active portfolio. */
  datatype PortfolioRow = PortfolioRow(
    id: nat,
    fullName: string,
    totalDue: real,
    amountRepaid: real,
    outstandingBalance: real,
    disbursedAt: Option<int>,
    principal: real,
    progress: real)

  /** `CASE WHEN total_due > 0 THEN ROUND(repaid / total_due * 100, 1) ELSE 0 END`. */
  function Progress(due: real, repaid: real): (p: real)
    ensures due <= 0.0 ==> p == 0.0
    ensures due > 0.0 ==> p == Round1(repaid / due * 100.0)
    ensures Tenths(p) && (due > 0.0 ==> -0.05 <= p - repaid / due * 100.0 <= 0.05)
    ensures due > 0.0 && 0.0 <= repaid <= due ==> 0.0 <= p <= 100.0
  {
    if due > 0.0 then
      FractionWithin(repaid, due);
      Round1(repaid / due * 100.0)
    else 0.0
  }

  function PortfolioRowOf(n: Named<Loan>): PortfolioRow {
    var l := n.row;
    PortfolioRow(l.id, n.fullName, Due(l), l.amountRepaid, Due(l) - l.amountRepaid, l.disbursedAt,
                 Requested(l), Progress(Due(l), l.amountRepaid))
  }

  predicate IsActiveLoan(l: Loan) { l.status == Active }

  /** `getActivePortfolio()`: the ACTIVE loans with their borrower's name, newest first. */
  function GetActivePortfolio(loans: seq<Loan>, users: seq<User>): seq<PortfolioRow> {
    var joined := Reverse(JoinUsers(loans, users, Loans.Applicant, IsActiveLoan));
    seq(|joined|, k requires 0 <= k < |joined| => PortfolioRowOf(joined[k]))
  }

  /** The row shows an ACTIVE loan of the table with that loan's own amounts. */
  predicate ShowsActiveLoan(loans: seq<Loan>, row: PortfolioRow) {
    exists l :: l in loans && l.status == Active && l.id == row.id
           && row.totalDue == l.totalDue.GetOr(0.0) && row.amountRepaid == l.amountRepaid
  }

  /** Every row is an ACTIVE loan of the table with its own amounts; the outstanding balance is what
      is due less what is repaid; progress is 0 when nothing is due and a percentage when the loan
      is repaid no further than it is due. */
  lemma ActivePortfolioRows(loans: seq<Loan>, users: seq<User>)
    ensures var r := GetActivePortfolio(loans, users);
      && (forall k :: 0 <= k < |r| ==> ShowsActiveLoan(loans, r[k]))
      && (forall k :: 0 <= k < |r| ==> r[k].outstandingBalance == r[k].totalDue - r[k].amountRepaid)
      && (forall k :: 0 <= k < |r| && r[k].totalDue <= 0.0 ==> r[k].progress == 0.0)
      && (forall k :: 0 <= k < |r| && 0.0 <= r[k].amountRepaid <= r[k].totalDue ==> 0.0 <= r[k].progress <= 100.0)
  {
    var plain := JoinUsers(loans, users, Loans.Applicant, IsActiveLoan);
    var joined := Reverse(plain);
    ReverseMembers(plain);
    var r := GetActivePortfolio(loans, users);
    forall k | 0 <= k < |r|
      ensures ShowsActiveLoan(loans, r[k])
    {
      assert joined[k] in joined;
      var l := joined[k].row;
      assert r[k] == PortfolioRowOf(joined[k]);
      assert l in loans && l.status == Active;
    }
  }

  /** Every ACTIVE loan whose borrower has a user row appears in the portfolio. */
  lemma ActivePortfolioComplete(loans: seq<Loan>, users: seq<User>, i: nat)
    requires i < |loans| && loans[i].status == Active
    requires exists j :: 0 <= j < |users| && users[j].id == loans[i].userId
    ensures exists k :: 0 <= k < |GetActivePortfolio(loans, users)| && GetActivePortfolio(loans, users)[k].id == loans[i].id
  {
    var plain := JoinUsers(loans, users, Loans.Applicant, IsActiveLoan);
    var joined := Reverse(plain);
    ReverseMembers(plain);
    assert IsActiveLoan(loans[i]) && Loans.Applicant(loans[i]) == loans[i].userId;
    JoinUsersComplete(loans, users, Loans.Applicant, IsActiveLoan, i);
    var q :| q in plain && q.row == loans[i];
    assert q in joined;
    var k :| 0 <= k < |joined| && joined[k] == q;
    var r := GetActivePortfolio(loans, users);
    assert r[k] == PortfolioRowOf(q);
    assert 0 <= k < |r| && r[k].id == loans[i].id;
  }

  // ---------------------------------------------------------------------------
  // getSaccoDetails
  // ---------------------------------------------------------------------------

  /** `category = 'SACCO' OR setting_key LIKE 'sacco_%'`; in LIKE, `_` is any one character. */
  predicate SaccoRow(s: Setting) {
    s.category == "SACCO" || (|s.key| >= 6 && s.key[..5] == "sacco")
  }

  /** The value the last row with this key carries, the one `settings[key] = value` leaves behind. */
  predicate LastFor(rows: seq<Setting>, i: nat) {
    i < |rows| && forall j :: i < j < |rows| ==> rows[j].key != rows[i].key
  }

  /** `rows.forEach(r => settings[r.setting_key] = r.setting_value)`. */
  method CollectSettings(rows: seq<Setting>) returns (m: map<string, Option<string>>)
    ensures forall k :: k in m <==> exists i :: 0 <= i < |rows| && rows[i].key == k
    ensures forall i :: 0 <= i < |rows| && LastFor(rows, i) ==> m[rows[i].key] == rows[i].value
  {
    m := map[];
    var n := 0;
    while n < |rows|
      invariant 0 <= n <= |rows|
      invariant forall k :: k in m <==> exists i :: 0 <= i < n && rows[i].key == k
      invariant forall i :: 0 <= i < n && LastFor(rows[..n], i) ==> m[rows[i].key] == rows[i].value
    {
      m := m[rows[n].key := rows[n].value];
      n := n + 1;
      forall i | 0 <= i < n && LastFor(rows[..n], i)
        ensures m[rows[i].key] == rows[i].value
      {
        if i < n - 1 {
          assert LastFor(rows[..n - 1], i);
        }
      }
    }
    assert rows[..n] == rows;
  }

  /** The letterhead. */
  datatype SaccoDetails = SaccoDetails(name: string, address: string, email: string, phone: string, logo: Option<string>)

  function Lookup(m: map<string, Option<string>>, key: string): Option<string> {
    if key in m then m[key] else None
  }

  /** Each of the four texts is the stored value when it is a non-empty string and a fixed default
      otherwise; the logo is whatever is stored, if anything. */
  function DetailsFrom(m: map<string, Option<string>>): (d: SaccoDetails)
    ensures d.name == (if Truthy(Lookup(m, "sacco_name")) then m["sacco_name"].value else "Sacco System")
    ensures d.address == (if Truthy(Lookup(m, "sacco_address")) then m["sacco_address"].value else "P.O Box 12345, Nairobi, Kenya")
    ensures d.email == (if Truthy(Lookup(m, "sacco_email")) then m["sacco_email"].value else "info@sacco.com")
    ensures d.phone == (if Truthy(Lookup(m, "sacco_phone")) then m["sacco_phone"].value else "+254 700 000 000")
    ensures d.logo == Lookup(m, "sacco_logo")
  {
    SaccoDetails(OrElse(Lookup(m, "sacco_name"), "Sacco System"),
                 OrElse(Lookup(m, "sacco_address"), "P.O Box 12345, Nairobi, Kenya"),
                 OrElse(Lookup(m, "sacco_email"), "info@sacco.com"),
                 OrElse(Lookup(m, "sacco_phone"), "+254 700 000 000"),
                 Lookup(m, "sacco_logo"))
  }

  /** The details handed out when the settings query throws. */
  const FallbackDetails := SaccoDetails("Sacco System", "P.O Box 12345", "admin@sacco.com", "", None)

  /** `getSaccoDetails()`; `queryFailed` says whether the settings query threw. */
  method GetSaccoDetails(db: Database, queryFailed: bool) returns (d: SaccoDetails)
    ensures queryFailed ==> d == FallbackDetails
    ensures !queryFailed ==> var rows := Filter(db.settings, SaccoRow);
      exists m :: d == DetailsFrom(m)
        && (forall k :: k in m <==> exists i :: 0 <= i < |rows| && rows[i].key == k)
        && (forall i :: 0 <= i < |rows| && LastFor(rows, i) ==> m[rows[i].key] == rows[i].value)
        && (forall k :: k in m <==> exists i :: 0 <= i < |db.settings| && SaccoRow(db.settings[i]) && db.settings[i].key == k)
    ensures !queryFailed ==> var rows := Filter(db.settings, SaccoRow);
      forall i :: 0 <= i < |rows| && LastFor(rows, i) && rows[i].key == "sacco_name" ==> d.name == OrElse(rows[i].value, "Sacco System")
    ensures !queryFailed ==> var rows := Filter(db.settings, SaccoRow);
      forall i :: 0 <= i < |rows| && LastFor(rows, i) && rows[i].key == "sacco_logo" ==> d.logo == rows[i].value
    ensures !queryFailed && (forall i :: 0 <= i < |db.settings| ==> db.settings[i].key != "sacco_name")
            ==> d.name == "Sacco System"
  {
    if queryFailed {
      return FallbackDetails;
    }
    var rows := Filter(db.settings, SaccoRow);
    var m := CollectSettings(rows);
    d := DetailsFrom(m);
    forall k
      ensures k in m <==> exists i :: 0 <= i < |db.settings| && SaccoRow(db.settings[i]) && db.settings[i].key == k
    {
      SaccoKeys(db.settings, k);
    }
    forall i | 0 <= i < |rows| && LastFor(rows, i) && rows[i].key == "sacco_name"
      ensures d.name == OrElse(rows[i].value, "Sacco System")
    {
      assert Lookup(m, "sacco_name") == rows[i].value;
    }
    forall i | 0 <= i < |rows| && LastFor(rows, i) && rows[i].key == "sacco_logo"
      ensures d.logo == rows[i].value
    {
      assert Lookup(m, "sacco_logo") == rows[i].value;
    }
  }

  /** A key is among the selected rows exactly when some SACCO row of the table carries it. */
  lemma SaccoKeys(settings: seq<Setting>, k: string)
    ensures (exists i :: 0 <= i < |Filter(settings, SaccoRow)| && Filter(settings, SaccoRow)[i].key == k)
            ==> exists j :: 0 <= j < |settings| && SaccoRow(settings[j]) && settings[j].key == k
    ensures (exists j :: 0 <= j < |settings| && SaccoRow(settings[j]) && settings[j].key == k)
            ==> exists i :: 0 <= i < |Filter(settings, SaccoRow)| && Filter(settings, SaccoRow)[i].key == k
  {
    var rows := Filter(settings, SaccoRow);
    if i :| 0 <= i < |rows| && rows[i].key == k {
      assert rows[i] in rows;
      var j :| 0 <= j < |settings| && settings[j] == rows[i];
      assert SaccoRow(settings[j]) && settings[j].key == k;
    }
    if j :| 0 <= j < |settings| && SaccoRow(settings[j]) && settings[j].key == k {
      assert settings[j] in rows;
      var i :| 0 <= i < |rows| && rows[i] == settings[j];
      assert rows[i].key == k;
    }
  }

  // ---------------------------------------------------------------------------
  // getFullLedgerData
  // ---------------------------------------------------------------------------

  datatype LoanStats = LoanStats(count: nat, principal: real, interest: real, repaid: real, totalDue: real)
  datatype LedgerData = LedgerData(netSavings: real, totalRevenue: real, loanStats: LoanStats, cashOnHand: real)

  function AnyStatusOf(types: seq<string>): Transaction -> bool { (t: Transaction) => TypeIn(t.kind, types) }

  const RevenueTypes: seq<string> := ["FINE", "PENALTY", "REGISTRATION_FEE", "LOAN_FORM_FEE", "FEE_PAYMENT"]
  const LedgerInTypes: seq<string> := ["DEPOSIT", "LOAN_REPAYMENT", "FINE", "PENALTY", "REGISTRATION_FEE", "FEE_PAYMENT"]

  predicate CompletedSavings(d: Deposit) { d.status == "COMPLETED" && d.kind == "DEPOSIT" }

  /** `getFullLedgerData()` without the recent-transactions list. */
  function GetFullLedgerData(deposits: seq<Deposit>, transactions: seq<Transaction>, loans: seq<Loan>): LedgerData {
    LedgerData(SumWhere(deposits, CompletedSavings, DepositAmount),
               SumWhere(transactions, AnyStatusOf(RevenueTypes), TxAmount),
               Stats(loans),
               SumWhere(transactions, AnyStatusOf(LedgerInTypes), TxAmount) - SumWhere(transactions, AnyStatusOf(CashOutTypes), TxAmount))
  }

  /** The ledger's cash on hand counts a transaction whatever its status, the balance sheet's cash
      only once it is COMPLETED: a PENDING deposit raises the first and leaves the second. */
  lemma PendingDepositOnlyInLedger(deposits: seq<Deposit>, transactions: seq<Transaction>, loans: seq<Loan>,
                                   expenses: seq<Expense>, t: Transaction, date: int)
    requires t.kind == Some("DEPOSIT") && t.status == Some("PENDING")
    ensures GetFullLedgerData(deposits, transactions + [t], loans).cashOnHand
         == GetFullLedgerData(deposits, transactions, loans).cashOnHand + t.amount
    ensures CashAtHand(transactions + [t], expenses, date) == CashAtHand(transactions, expenses, date)
  {
    SumWhereSnoc(transactions, t, AnyStatusOf(LedgerInTypes), TxAmount);
    SumWhereSnoc(transactions, t, AnyStatusOf(CashOutTypes), TxAmount);
    SumWhereSnoc(transactions, t, CompletedBy(date, CashInTypes), TxAmount);
    SumWhereSnoc(transactions, t, CompletedBy(date, CashOutTypes), TxAmount);
  }

  /** The ACTIVE-loan aggregate; NULL columns add nothing. */
  function Stats(loans: seq<Loan>): LoanStats {
    LoanStats(CountWhere(loans, IsActiveLoan),
              SumWhere(loans, IsActiveLoan, Requested),
              SumWhere(loans, IsActiveLoan, InterestOf),
              SumWhere(loans, IsActiveLoan, Repaid),
              SumWhere(loans, IsActiveLoan, Due))
  }
}
