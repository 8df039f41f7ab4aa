/**
 * The payment router and its callers (payments.service.js).
 *
 * Every completed payment is first credited to the member's savings as a `DEP-` row. A payment
 * for anything other than plain savings is then moved out again by a `TRF-` row of the opposite
 * sign and applied to its purpose: a loan repayment, a loan-form fee, or a contribution to a
 * category. The callers run the router inside one database transaction, modelled by saving the
 * tables and restoring them when the router fails.
 */
module Payments {
  import opened Wrappers
  import opened Sums
  import opened Text
  import opened Db
  import opened Settings
  import opened Deposits
  import opened Loans

  /** The two tables the router writes. */
  datatype Ledger = Ledger(loans: seq<Loan>, deposits: seq<Deposit>)

  /** `type || 'DEPOSIT'`. */
  function SafeType(kind: Option<string>): string { OrElse(kind, "DEPOSIT") }

  /** `reference_code.substring(0, 40)`. */
  function SafeRef(ref: string): (r: string)
    ensures |r| == if |ref| < 40 then |ref| else 40
    ensures r == ref[..|r|]
  {
    Take(ref, 40)
  }

  /** `s.replace(/_/g, ' ')`. */
  function Spaced(s: string): (r: string)
    ensures |r| == |s| && forall i :: 0 <= i < |s| ==> r[i] == if s[i] == '_' then ' ' else s[i]
  {
    seq(|s|, i requires 0 <= i < |s| => if s[i] == '_' then ' ' else s[i])
  }

  function DepositRef(ref: string): string { "DEP-" + SafeRef(ref) }
  function TransferRef(ref: string): string { "TRF-" + SafeRef(ref) }
  function RefundRef(ref: string): string { "RFD-" + SafeRef(ref) }

  /** The savings credit every routed payment starts with. */
  function CreditRow(tx: Transaction, ref: string, now: int): Deposit {
    Deposit(tx.userId, tx.amount, "DEPOSIT", DepositRef(ref), "COMPLETED",
            Some("Incoming Funds: " + SafeType(tx.kind)), None, now)
  }

  /** The savings debit that moves the payment to its purpose. */
  function TransferRow(tx: Transaction, ref: string, now: int): Deposit {
    Deposit(tx.userId, -tx.amount, "DEPOSIT", TransferRef(ref), "COMPLETED",
            Some("Transfer to: " + Spaced(SafeType(tx.kind))), None, now)
  }

  /** A repayment with no active loan is credited back to savings. */
  function RefundRow(tx: Transaction, ref: string, now: int): Deposit {
    Deposit(tx.userId, tx.amount, "DEPOSIT", RefundRef(ref), "COMPLETED", Some("Refund: No Active Loan"), None, now)
  }

  /** A contribution to a category (or share capital), typed by the payment type. */
  function CategoryRow(tx: Transaction, ref: string, now: int): Deposit {
    var ty := SafeType(tx.kind);
    Deposit(tx.userId, tx.amount, ty, SafeRef(ref), "COMPLETED",
            Some(if ty == "SHARE_CAPITAL" then "Purchase of Shares" else "Contribution: " + ty), None, now)
  }

  function ActiveOf(u: nat): Loan -> bool { (l: Loan) => l.userId == u && l.status == Active }
  function FeePendingOf(u: nat): Loan -> bool { (l: Loan) => l.userId == u && l.status == FeePending }

  /** `parseFloat(total_due || amount_requested)`: NUMERIC columns come back as text, so any stored
      total due (even "0.00") is truthy and only a NULL one falls back to the requested amount;
      None is the NaN of a loan with neither. */
  function RepaymentTotal(l: Loan): Option<real> {
    if l.totalDue.Some? then l.totalDue else l.amountRequested
  }

  /** The loan is settled once the amount repaid reaches the total less a tolerance of 5
      (a NaN total settles nothing). */
  function RepaymentStatus(l: Loan, amount: real): (s: LoanStatus)
    ensures s == Completed <==> RepaymentTotal(l).Some? && l.amountRepaid + amount >= RepaymentTotal(l).value - 5.0
    ensures s == Completed || s == Active
  {
    var total := RepaymentTotal(l);
    if total.Some? && l.amountRepaid + amount >= total.value - 5.0 then Completed else Active
  }

  /** The repayment update, with the figures computed from the selected loan `l`. */
  function Repaid(l: Loan, amount: real): Loan -> Loan {
    (x: Loan) => x.(amountRepaid := l.amountRepaid + amount, status := RepaymentStatus(l, amount))
  }

  function PayFee(ref: string, amount: real): Loan -> Loan {
    (x: Loan) => x.(status := FeePaid, feeTransactionRef := Some(ref), feeAmount := amount)
  }

  function IsFeeType(ty: string): bool { ty == "LOAN_FORM_FEE" || ty == "FEE_PAYMENT" }

  /** Step 3 of the router: apply a non-savings payment to its purpose. */
  function ApplyToPurpose(loans: seq<Loan>, deposits: seq<Deposit>, tx: Transaction, ref: string, now: int): Result<Ledger> {
    var ty := SafeType(tx.kind);
    if ty == "LOAN_REPAYMENT" then
      match FirstWhere(loans, ActiveOf(tx.userId))
      case Some(i) => Ok(Ledger(UpdateWhere(loans, LoanIdIs(loans[i].id), Repaid(loans[i], tx.amount)), deposits))
      case None =>
        // a plain INSERT: a taken refund reference violates the unique column
        if FirstWhere(deposits, HasRef(RefundRef(ref))).Some? then Err(DuplicateReference)
        else Ok(Ledger(loans, deposits + [RefundRow(tx, ref, now)]))
    else if IsFeeType(ty) then
      match LastWhere(loans, FeePendingOf(tx.userId))
      case Some(i) => Ok(Ledger(UpdateWhere(loans, LoanIdIs(loans[i].id), PayFee(SafeRef(ref), tx.amount)), deposits))
      case None => Ok(Ledger(loans, deposits))
    else Ok(Ledger(loans, InsertIfAbsent(deposits, CategoryRow(tx, ref, now))))
  }

  /** processCompletedTransaction as a function of the two tables. A null reference fails on
      `substring`. */
  function Route(loans: seq<Loan>, deposits: seq<Deposit>, tx: Transaction, now: int): (r: Result<Ledger>)
    ensures tx.ref.None? ==> r == Err(NullReference)
    ensures r.Err? ==> r.error == NullReference || r.error == DuplicateReference
    ensures tx.ref.Some? && SafeType(tx.kind) == "DEPOSIT"
            ==> r == Ok(Ledger(loans, InsertIfAbsent(deposits, CreditRow(tx, tx.ref.value, now))))
    ensures tx.ref.Some? && SafeType(tx.kind) != "DEPOSIT"
            ==> r == ApplyToPurpose(loans, InsertIfAbsent(InsertIfAbsent(deposits, CreditRow(tx, tx.ref.value, now)),
                                                          TransferRow(tx, tx.ref.value, now)), tx, tx.ref.value, now)
  {
    if tx.ref.None? then Err(NullReference)
    else
      var ref := tx.ref.value;
      var credited := InsertIfAbsent(deposits, CreditRow(tx, ref, now));
      if SafeType(tx.kind) == "DEPOSIT" then Ok(Ledger(loans, credited))
      else ApplyToPurpose(loans, InsertIfAbsent(credited, TransferRow(tx, ref, now)), tx, ref, now)
  }

  /** `processCompletedTransaction(client, transaction)`, step by step. On failure the tables are
      left part-written; every caller rolls them back. */
  method ProcessCompletedTransaction(db: Database, tx: Transaction, now: int) returns (r: Outcome)
    modifies db`loans, db`deposits
    ensures var expected := Route(old(db.loans), old(db.deposits), tx, now);
      && (r == Done <==> expected.Ok?)
      && (expected.Ok? ==> Ledger(db.loans, db.deposits) == expected.value)
      && (expected.Err? ==> r == Fail(expected.error))
  {
    if tx.ref.None? {
      return Fail(NullReference);
    }
    var ref := tx.ref.value;
    db.deposits := InsertIfAbsent(db.deposits, CreditRow(tx, ref, now));
    var ty := SafeType(tx.kind);
    if ty == "DEPOSIT" {
      return Done;
    }
    db.deposits := InsertIfAbsent(db.deposits, TransferRow(tx, ref, now));
    if ty == "LOAN_REPAYMENT" {
      var target := FirstWhere(db.loans, ActiveOf(tx.userId));
      if target.Some? {
        var loan := db.loans[target.value];
        db.loans := UpdateWhere(db.loans, LoanIdIs(loan.id), Repaid(loan, tx.amount));
      } else {
        if FirstWhere(db.deposits, HasRef(RefundRef(ref))).Some? {
          return Fail(DuplicateReference);
        }
        db.deposits := db.deposits + [RefundRow(tx, ref, now)];
      }
    } else if IsFeeType(ty) {
      var target := LastWhere(db.loans, FeePendingOf(tx.userId));
      if target.Some? {
        db.loans := UpdateWhere(db.loans, LoanIdIs(db.loans[target.value].id), PayFee(SafeRef(ref), tx.amount));
      }
    } else {
      db.deposits := InsertIfAbsent(db.deposits, CategoryRow(tx, ref, now));
    }
    return Done;
  }

  /** The credit and the transfer references never collide. */
  lemma RefsDiffer(ref: string)
    ensures DepositRef(ref) != TransferRef(ref) && DepositRef(ref) != RefundRef(ref) && TransferRef(ref) != RefundRef(ref)
  {
    assert DepositRef(ref)[0] == 'D' && TransferRef(ref)[0] == 'T' && RefundRef(ref)[0] == 'R';
  }

  /** A plain savings payment writes one COMPLETED DEPOSIT row of +amount under `DEP-<ref>`
      (none when that reference is taken) and touches no loan; it raises the member's savings by
      the amount. */
  lemma SavingsPayment(loans: seq<Loan>, deposits: seq<Deposit>, tx: Transaction, now: int)
    requires tx.ref.Some? && SafeType(tx.kind) == "DEPOSIT" && !RefTaken(deposits, DepositRef(tx.ref.value))
    ensures var r := Route(loans, deposits, tx, now);
      && r.Ok? && r.value.loans == loans
      && r.value.deposits == deposits + [CreditRow(tx, tx.ref.value, now)]
      && Savings(r.value.deposits, tx.userId) == Savings(deposits, tx.userId) + tx.amount
  {
    BalanceAfterInsert(deposits, CreditRow(tx, tx.ref.value, now), tx.userId);
  }

  /** The credit and the transfer, written both or neither, leave every member's savings as they were. */
  lemma CreditTransferNets(deposits: seq<Deposit>, tx: Transaction, ref: string, now: int, v: nat)
    requires RefTaken(deposits, DepositRef(ref)) <==> RefTaken(deposits, TransferRef(ref))
    ensures Savings(InsertIfAbsent(InsertIfAbsent(deposits, CreditRow(tx, ref, now)), TransferRow(tx, ref, now)), v)
         == Savings(deposits, v)
  {
    var c := CreditRow(tx, ref, now);
    var t := TransferRow(tx, ref, now);
    RefsDiffer(ref);
    var d1 := InsertIfAbsent(deposits, c);
    if !RefTaken(deposits, c.ref) {
      assert d1 == deposits + [c];
      assert !RefTaken(d1, t.ref) by {
        forall i | 0 <= i < |d1| ensures d1[i].ref != t.ref {
          if i < |deposits| { assert d1[i] == deposits[i]; } else { assert d1[i] == c; }
        }
      }
      BalanceAfterInsert(deposits, c, v);
      BalanceAfterInsert(d1, t, v);
    }
  }

  /** Applying a payment to a loan or a category does not touch DEPOSIT-type savings; only a refund does. */
  lemma PurposeKeepsSavings(loans: seq<Loan>, deposits: seq<Deposit>, tx: Transaction, ref: string, now: int, v: nat)
    requires SafeType(tx.kind) != "DEPOSIT"
    requires SafeType(tx.kind) == "LOAN_REPAYMENT" ==> FirstWhere(loans, ActiveOf(tx.userId)).Some?
    ensures ApplyToPurpose(loans, deposits, tx, ref, now).Ok?
    ensures Savings(ApplyToPurpose(loans, deposits, tx, ref, now).value.deposits, v) == Savings(deposits, v)
  {
    var ty := SafeType(tx.kind);
    if ty != "LOAN_REPAYMENT" && !IsFeeType(ty) {
      var g := CategoryRow(tx, ref, now);
      if !RefTaken(deposits, g.ref) {
        BalanceAfterInsert(deposits, g, v);
      }
    }
  }

  /** The savings credit and debit of a non-savings payment cancel out (when both are written or
      neither is): only a refund moves DEPOSIT-type savings. */
  lemma TransferNetsToZero(loans: seq<Loan>, deposits: seq<Deposit>, tx: Transaction, now: int, v: nat)
    requires tx.ref.Some? && SafeType(tx.kind) != "DEPOSIT"
    requires RefTaken(deposits, DepositRef(tx.ref.value)) <==> RefTaken(deposits, TransferRef(tx.ref.value))
    requires SafeType(tx.kind) == "LOAN_REPAYMENT" ==> FirstWhere(loans, ActiveOf(tx.userId)).Some?
    ensures var r := Route(loans, deposits, tx, now);
      r.Ok? && Savings(r.value.deposits, v) == Savings(deposits, v)
  {
    var ref := tx.ref.value;
    var d2 := InsertIfAbsent(InsertIfAbsent(deposits, CreditRow(tx, ref, now)), TransferRow(tx, ref, now));
    CreditTransferNets(deposits, tx, ref, now, v);
    PurposeKeepsSavings(loans, d2, tx, ref, now, v);
  }

  /** Routing the same payment again writes no second DEP-, TRF- or category row; only a loan
      repayment differs, as the loan update is not guarded. */
  lemma RouteAgainAddsNoRows(loans: seq<Loan>, deposits: seq<Deposit>, tx: Transaction, now: int, later: int)
    requires tx.ref.Some? && SafeType(tx.kind) != "LOAN_REPAYMENT"
    ensures var r1 := Route(loans, deposits, tx, now);
      r1.Ok? ==> var r2 := Route(r1.value.loans, r1.value.deposits, tx, later);
                 r2.Ok? && r2.value.deposits == r1.value.deposits
  {
    var ref := tx.ref.value;
    var d1 := InsertIfAbsent(deposits, CreditRow(tx, ref, now));
    assert RefTaken(d1, DepositRef(ref));
    if SafeType(tx.kind) == "DEPOSIT" {
      assert InsertIfAbsent(d1, CreditRow(tx, ref, later)) == d1;
    } else {
      var d2 := InsertIfAbsent(d1, TransferRow(tx, ref, now));
      RefTakenStays(d1, TransferRow(tx, ref, now), DepositRef(ref));
      var r1 := ApplyToPurpose(loans, d2, tx, ref, now);
      if IsFeeType(SafeType(tx.kind)) {
        assert r1.Ok? && r1.value.deposits == d2;
        SecondPass(r1.value.loans, d2, tx, later);
      } else {
        var d3 := InsertIfAbsent(d2, CategoryRow(tx, ref, now));
        assert r1 == Ok(Ledger(loans, d3));
        RefTakenStays(d2, CategoryRow(tx, ref, now), DepositRef(ref));
        RefTakenStays(d2, CategoryRow(tx, ref, now), TransferRef(ref));
        SecondPass(loans, d3, tx, later);
        assert InsertIfAbsent(d3, CategoryRow(tx, ref, later)) == d3;
      }
    }
  }

  /** Once the credit and the transfer rows of a payment are in, routing it again adds neither. */
  lemma SecondPass(loans: seq<Loan>, deposits: seq<Deposit>, tx: Transaction, later: int)
    requires tx.ref.Some? && SafeType(tx.kind) != "DEPOSIT"
    requires RefTaken(deposits, DepositRef(tx.ref.value)) && RefTaken(deposits, TransferRef(tx.ref.value))
    ensures Route(loans, deposits, tx, later) == ApplyToPurpose(loans, deposits, tx, tx.ref.value, later)
  {
    var ref := tx.ref.value;
    assert InsertIfAbsent(deposits, CreditRow(tx, ref, later)) == deposits;
    assert InsertIfAbsent(deposits, TransferRow(tx, ref, later)) == deposits;
  }

  /** A repayment goes to the member's oldest ACTIVE loan: the amount is added to what was repaid,
      and the loan is COMPLETED exactly when that reaches the total less 5. */
  lemma RepaymentApplied(loans: seq<Loan>, deposits: seq<Deposit>, tx: Transaction, now: int)
    requires tx.ref.Some? && SafeType(tx.kind) == "LOAN_REPAYMENT"
    requires FirstWhere(loans, ActiveOf(tx.userId)).Some?
    ensures var i := FirstWhere(loans, ActiveOf(tx.userId)).value;
      var r := Route(loans, deposits, tx, now);
      && r.Ok? && |r.value.loans| == |loans|
      && r.value.loans[i].amountRepaid == loans[i].amountRepaid + tx.amount
      && (r.value.loans[i].status == Completed <==>
            RepaymentTotal(loans[i]).Some? && loans[i].amountRepaid + tx.amount >= RepaymentTotal(loans[i]).value - 5.0)
      && forall k :: 0 <= k < |loans| && loans[k].id != loans[i].id ==> r.value.loans[k] == loans[k]
  {
  }

  /** The tables a repayment leaves when the member's oldest ACTIVE loan is at index `i`. */
  lemma RepaymentRoute(loans: seq<Loan>, deposits: seq<Deposit>, tx: Transaction, i: nat, now: int)
    requires tx.ref.Some? && SafeType(tx.kind) == "LOAN_REPAYMENT"
    requires FirstWhere(loans, ActiveOf(tx.userId)) == Some(i)
    ensures Route(loans, deposits, tx, now)
         == Ok(Ledger(UpdateWhere(loans, LoanIdIs(loans[i].id), Repaid(loans[i], tx.amount)),
                      InsertIfAbsent(InsertIfAbsent(deposits, CreditRow(tx, tx.ref.value, now)), TransferRow(tx, tx.ref.value, now))))
  {
  }

  /** Re-routing a repayment that left its loan ACTIVE applies the amount a second time. */
  lemma RepaymentReapplied(loans: seq<Loan>, deposits: seq<Deposit>, tx: Transaction, i: nat, now: int, later: int)
    requires tx.ref.Some? && SafeType(tx.kind) == "LOAN_REPAYMENT"
    requires FirstWhere(loans, ActiveOf(tx.userId)) == Some(i)
    requires forall k :: 0 <= k < i ==> loans[k].id != loans[i].id
    requires RepaymentStatus(loans[i], tx.amount) == Active
    ensures Route(loans, deposits, tx, now).Ok?
    ensures var r1 := Route(loans, deposits, tx, now).value;
      Route(r1.loans, r1.deposits, tx, later).Ok?
      && Route(r1.loans, r1.deposits, tx, later).value.loans[i].amountRepaid == loans[i].amountRepaid + 2.0 * tx.amount
  {
    RepaymentRoute(loans, deposits, tx, i, now);
    RepaidRow(loans, i, tx.amount);
    var r1 := Route(loans, deposits, tx, now).value;
    StillOldestActive(loans, r1.loans, tx.userId, i);
    RepaymentRoute(r1.loans, r1.deposits, tx, i, later);
    RepaidRow(r1.loans, i, tx.amount);
  }

  /** The repayment update rewrites the selected row and, with unique ids, no row before it. */
  lemma RepaidRow(loans: seq<Loan>, i: nat, amount: real)
    requires i < |loans| && forall k :: 0 <= k < i ==> loans[k].id != loans[i].id
    ensures var l1 := UpdateWhere(loans, LoanIdIs(loans[i].id), Repaid(loans[i], amount));
      && |l1| == |loans|
      && l1[i] == loans[i].(amountRepaid := loans[i].amountRepaid + amount, status := RepaymentStatus(loans[i], amount))
      && forall k :: 0 <= k < i ==> l1[k] == loans[k]
  {
  }

  /** Changing only rows from the member's oldest ACTIVE loan on, and keeping that one ACTIVE,
      keeps it the oldest. */
  lemma StillOldestActive(loans: seq<Loan>, loans': seq<Loan>, u: nat, i: nat)
    requires FirstWhere(loans, ActiveOf(u)) == Some(i)
    requires |loans'| == |loans| && loans'[i].userId == u && loans'[i].status == Active
    requires forall k :: 0 <= k < i ==> loans'[k] == loans[k]
    ensures FirstWhere(loans', ActiveOf(u)) == Some(i)
  {
    assert ActiveOf(u)(loans'[i]);
    var r := FirstWhere(loans', ActiveOf(u));
    assert r.Some? && r.value <= i;
  }

  /** With no ACTIVE loan a repayment is refunded to savings once; routing it again fails on the
      taken refund reference. */
  lemma RefundOnce(loans: seq<Loan>, deposits: seq<Deposit>, tx: Transaction, now: int, later: int)
    requires tx.ref.Some? && SafeType(tx.kind) == "LOAN_REPAYMENT"
    requires FirstWhere(loans, ActiveOf(tx.userId)).None?
    ensures var r1 := Route(loans, deposits, tx, now);
      r1.Ok? ==> && r1.value.loans == loans
                 && RefTaken(r1.value.deposits, RefundRef(tx.ref.value))
                 && Route(r1.value.loans, r1.value.deposits, tx, later) == Err(DuplicateReference)
  {
    var ref := tx.ref.value;
    var r1 := Route(loans, deposits, tx, now);
    if r1.Ok? {
      var d := r1.value.deposits;
      assert d[|d| - 1] == RefundRow(tx, ref, now);
      assert RefTaken(d, RefundRef(ref));
      var d1 := InsertIfAbsent(d, CreditRow(tx, ref, later));
      var d2 := InsertIfAbsent(d1, TransferRow(tx, ref, later));
      RefTakenStays(d, CreditRow(tx, ref, later), RefundRef(ref));
      RefTakenStays(d1, TransferRow(tx, ref, later), RefundRef(ref));
    }
  }

  /** A fee payment credits the member and records the transfer, and marks the member's most
      recent FEE_PENDING loan FEE_PAID with the payment's reference and amount; every other loan
      is kept, and without such a loan no loan changes. */
  lemma FeePayment(loans: seq<Loan>, deposits: seq<Deposit>, tx: Transaction, now: int)
    requires tx.ref.Some? && IsFeeType(SafeType(tx.kind))
    ensures var r := Route(loans, deposits, tx, now);
      && r.Ok?
      && r.value.deposits == InsertIfAbsent(InsertIfAbsent(deposits, CreditRow(tx, tx.ref.value, now)),
                                            TransferRow(tx, tx.ref.value, now))
      && |r.value.loans| == |loans|
      && (LastWhere(loans, FeePendingOf(tx.userId)).None? ==> r.value.loans == loans)
      && (LastWhere(loans, FeePendingOf(tx.userId)).Some? ==>
            var i := LastWhere(loans, FeePendingOf(tx.userId)).value;
            && r.value.loans[i] == loans[i].(status := FeePaid, feeTransactionRef := Some(SafeRef(tx.ref.value)),
                                             feeAmount := tx.amount)
            && forall k :: 0 <= k < |loans| && loans[k].id != loans[i].id ==> r.value.loans[k] == loans[k])
  {
  }

  // ---------------------------------------------------------------------------
  // Callers of the router
  // ---------------------------------------------------------------------------

  /** The three tables a caller of the router may change. */
  datatype Books = Books(loans: seq<Loan>, deposits: seq<Deposit>, transactions: seq<Transaction>)

  function TxIdIs(id: nat): Transaction -> bool { (t: Transaction) => t.id == id }
  function TxRefIs(ref: string): Transaction -> bool { (t: Transaction) => t.ref == Some(ref) }
  function TxCheckoutIs(id: string): Transaction -> bool { (t: Transaction) => t.checkoutId == Some(id) }

  /** Commit the transactions table `transactions'` together with the routing of `tx`, or roll
      everything back. */
  function CommitRouted(b: Books, transactions': seq<Transaction>, tx: Transaction, now: int): (out: (Outcome, Books))
    ensures out.0.Fail? ==> out.1 == b
    ensures out.0 == Done <==> Route(b.loans, b.deposits, tx, now).Ok?
    ensures out.0 == Done ==> out.1 == Books(Route(b.loans, b.deposits, tx, now).value.loans,
                                             Route(b.loans, b.deposits, tx, now).value.deposits, transactions')
  {
    match Route(b.loans, b.deposits, tx, now)
    case Err(e) => (Fail(e), b)
    case Ok(l) => (Done, Books(l.loans, l.deposits, transactions'))
  }

  function WithTxStatus(s: string): Transaction -> Transaction { (t: Transaction) => t.(status := Some(s)) }

  /** reviewDeposit as a function of the tables. */
  function Review(b: Books, txId: nat, decision: string, now: int): (out: (Outcome, Books))
    ensures decision != "COMPLETED" && decision != "REJECTED" ==> out == (Fail(InvalidDecision), b)
    ensures out.0.Fail? ==> out.1 == b
    ensures decision == "REJECTED" && FirstWhere(b.transactions, TxIdIs(txId)).Some?
            ==> out == (Done, Books(b.loans, b.deposits, UpdateWhere(b.transactions, TxIdIs(txId), WithTxStatus(decision))))
    ensures decision == "COMPLETED" && FirstWhere(b.transactions, TxIdIs(txId)).Some?
            ==> out == CommitRouted(b, UpdateWhere(b.transactions, TxIdIs(txId), WithTxStatus(decision)),
                                    b.transactions[FirstWhere(b.transactions, TxIdIs(txId)).value], now)
    ensures (decision == "COMPLETED" || decision == "REJECTED") && FirstWhere(b.transactions, TxIdIs(txId)).None?
            ==> out == (Fail(TransactionNotFound), b)
  {
    if decision != "COMPLETED" && decision != "REJECTED" then (Fail(InvalidDecision), b)
    else match FirstWhere(b.transactions, TxIdIs(txId))
      case None => (Fail(TransactionNotFound), b)
      case Some(i) =>
        var transactions' := UpdateWhere(b.transactions, TxIdIs(txId), WithTxStatus(decision));
        if decision == "COMPLETED" then CommitRouted(b, transactions', b.transactions[i], now)
        else (Done, Books(b.loans, b.deposits, transactions'))
  }

  /** `reviewDeposit(transactionId, decision)`: the prior status is not checked, so an approved
      row approved again is routed again. */
  method ReviewDeposit(db: Database, txId: nat, decision: string, now: int) returns (r: Outcome)
    modifies db`loans, db`deposits, db`transactions
    ensures (r, Books(db.loans, db.deposits, db.transactions))
         == Review(Books(old(db.loans), old(db.deposits), old(db.transactions)), txId, decision, now)
  {
    if decision != "COMPLETED" && decision != "REJECTED" {
      return Fail(InvalidDecision);
    }
    var found := FirstWhere(db.transactions, TxIdIs(txId));
    if found.None? {
      return Fail(TransactionNotFound);
    }
    var tx := db.transactions[found.value];
    var savedLoans, savedDeposits, savedTransactions := db.loans, db.deposits, db.transactions;
    db.transactions := UpdateWhere(db.transactions, TxIdIs(txId), WithTxStatus(decision));
    if decision == "COMPLETED" {
      r := ProcessCompletedTransaction(db, tx, now);
      if r.Fail? {
        db.loans, db.deposits, db.transactions := savedLoans, savedDeposits, savedTransactions;
        return r;
      }
    }
    return Done;
  }

  /** The text of `${transaction.type}`: a null type prints as "null". */
  function TypeText(kind: Option<string>): string { if kind.Some? then kind.value else "null" }

  function Confirmed(receipt: string, kind: Option<string>): Transaction -> Transaction {
    (t: Transaction) => t.(status := Some("COMPLETED"), ref := Some(receipt), description := Some("STK Confirmed: " + TypeText(kind)))
  }

  function Failed(desc: string): Transaction -> Transaction {
    (t: Transaction) => t.(status := Some("FAILED"), description := Some(desc))
  }

  /** The receipt number, `MPESA-<now>` when the callback carries none. */
  function Receipt(receipt: Option<string>, now: int): string { OrElse(receipt, "MPESA-" + IntToString(now)) }

  /** The state part of handleCallback: the tables after an M-Pesa callback. */
  function Callback(b: Books, checkoutId: string, resultCode: int, receipt: Option<string>, resultDesc: Option<string>, now: int)
    : (b': Books)
    ensures FirstWhere(b.transactions, TxCheckoutIs(checkoutId)).None? ==> b' == b
    ensures FirstWhere(b.transactions, TxCheckoutIs(checkoutId)).Some? && resultCode != 0 ==>
      b' == Books(b.loans, b.deposits,
                  UpdateWhere(b.transactions, TxIdIs(b.transactions[FirstWhere(b.transactions, TxCheckoutIs(checkoutId)).value].id),
                              Failed(OrElse(resultDesc, "Failed"))))
    ensures FirstWhere(b.transactions, TxCheckoutIs(checkoutId)).Some? && resultCode == 0 ==>
      var tx := b.transactions[FirstWhere(b.transactions, TxCheckoutIs(checkoutId)).value];
      var rc := Receipt(receipt, now);
      b' == CommitRouted(b, UpdateWhere(b.transactions, TxIdIs(tx.id), Confirmed(rc, tx.kind)), tx.(ref := Some(rc)), now).1
  {
    match FirstWhere(b.transactions, TxCheckoutIs(checkoutId))
    case None => b
    case Some(i) =>
      var tx := b.transactions[i];
      if resultCode == 0 then
        var rc := Receipt(receipt, now);
        CommitRouted(b, UpdateWhere(b.transactions, TxIdIs(tx.id), Confirmed(rc, tx.kind)), tx.(ref := Some(rc)), now).1
      else Books(b.loans, b.deposits, UpdateWhere(b.transactions, TxIdIs(tx.id), Failed(OrElse(resultDesc, "Failed"))))
  }

  /** `handleCallback(body)`: never fails; a routing error rolls back and is swallowed. */
  method HandleCallback(db: Database, checkoutId: string, resultCode: int, receipt: Option<string>, resultDesc: Option<string>, now: int)
    modifies db`loans, db`deposits, db`transactions
    ensures Books(db.loans, db.deposits, db.transactions)
         == Callback(Books(old(db.loans), old(db.deposits), old(db.transactions)), checkoutId, resultCode, receipt, resultDesc, now)
  {
    var found := FirstWhere(db.transactions, TxCheckoutIs(checkoutId));
    if found.None? {
      return;
    }
    var tx := db.transactions[found.value];
    if resultCode == 0 {
      var rc := Receipt(receipt, now);
      var savedLoans, savedDeposits, savedTransactions := db.loans, db.deposits, db.transactions;
      ghost var b0 := Books(savedLoans, savedDeposits, savedTransactions);
      db.transactions := UpdateWhere(db.transactions, TxIdIs(tx.id), Confirmed(rc, tx.kind));
      ghost var expected := CommitRouted(b0, db.transactions, tx.(ref := Some(rc)), now);
      assert Callback(b0, checkoutId, resultCode, receipt, resultDesc, now) == expected.1;
      var r := ProcessCompletedTransaction(db, tx.(ref := Some(rc)), now);
      if r.Fail? {
        db.loans, db.deposits, db.transactions := savedLoans, savedDeposits, savedTransactions;
      }
    } else {
      db.transactions := UpdateWhere(db.transactions, TxIdIs(tx.id), Failed(OrElse(resultDesc, "Failed")));
    }
  }

  /** A confirmed STK payment is COMPLETED under its receipt number and its savings credit is
      filed under `DEP-<receipt>`; a declined one is FAILED with the result text, and no money moves. */
  lemma CallbackOutcomes(b: Books, k: nat, resultCode: int, receipt: string, resultDesc: Option<string>, now: int)
    requires k < |b.transactions| && b.transactions[k].checkoutId.Some?
    requires forall j :: 0 <= j < |b.transactions| && j != k
                         ==> b.transactions[j].id != b.transactions[k].id && b.transactions[j].checkoutId != b.transactions[k].checkoutId
    requires receipt != ""
    ensures var tx := b.transactions[k];
      var b' := Callback(b, tx.checkoutId.value, resultCode, Some(receipt), resultDesc, now);
      && (resultCode != 0 ==> && b'.loans == b.loans && b'.deposits == b.deposits
                              && b'.transactions[k].status == Some("FAILED")
                              && b'.transactions[k].description == Some(OrElse(resultDesc, "Failed")))
      && (resultCode == 0 && SafeType(tx.kind) == "DEPOSIT" ==>
            && b'.transactions[k].status == Some("COMPLETED") && b'.transactions[k].ref == Some(receipt)
            && RefTaken(b'.deposits, DepositRef(receipt)))
  {
    var tx := b.transactions[k];
    assert FirstWhere(b.transactions, TxCheckoutIs(tx.checkoutId.value)) == Some(k);
    assert Receipt(Some(receipt), now) == receipt;
  }

  /** claimMpesaManual as a function of the tables. */
  function Claim(b: Books, u: nat, reference: string, purpose: Option<string>, now: int): (out: (Outcome, Books))
    ensures FirstWhere(b.transactions, TxRefIs(reference)).None? ==> out == (Fail(TransactionNotFound), b)
    ensures FirstWhere(b.transactions, TxRefIs(reference)).Some?
            && b.transactions[FirstWhere(b.transactions, TxRefIs(reference)).value].status == Some("COMPLETED")
            ==> out == (Fail(AlreadyClaimed), b)
    ensures out.0.Fail? ==> out.1 == b
    ensures out.0 == Done ==>
      && FirstWhere(b.transactions, TxRefIs(reference)).Some?
      && var tx := b.transactions[FirstWhere(b.transactions, TxRefIs(reference)).value];
         && tx.status != Some("COMPLETED")
         && out.1.transactions == UpdateWhere(b.transactions, TxIdIs(tx.id), Claimed(u, FinalType(purpose, tx.kind), reference))
  {
    match FirstWhere(b.transactions, TxRefIs(reference))
    case None => (Fail(TransactionNotFound), b)
    case Some(i) =>
      var tx := b.transactions[i];
      if tx.status == Some("COMPLETED") then (Fail(AlreadyClaimed), b)
      else
        var finalType := FinalType(purpose, tx.kind);
        CommitRouted(b, UpdateWhere(b.transactions, TxIdIs(tx.id), Claimed(u, finalType, reference)),
                     tx.(userId := u, kind := Some(finalType)), now)
  }

  /** `purpose || tx.type || 'DEPOSIT'`. */
  function FinalType(purpose: Option<string>, kind: Option<string>): (t: string)
    ensures Truthy(purpose) ==> t == purpose.value
    ensures !Truthy(purpose) && Truthy(kind) ==> t == kind.value
    ensures !Truthy(purpose) && !Truthy(kind) ==> t == "DEPOSIT"
  {
    OrElse(purpose, OrElse(kind, "DEPOSIT"))
  }

  function Claimed(u: nat, finalType: string, reference: string): Transaction -> Transaction {
    (t: Transaction) => t.(userId := u, status := Some("COMPLETED"), kind := Some(finalType), description := Some("Manual Claim: " + reference))
  }

  /** `claimMpesaManual(userId, reference, purpose)`. */
  method ClaimMpesaManual(db: Database, u: nat, reference: string, purpose: Option<string>, now: int) returns (r: Outcome)
    modifies db`loans, db`deposits, db`transactions
    ensures (r, Books(db.loans, db.deposits, db.transactions))
         == Claim(Books(old(db.loans), old(db.deposits), old(db.transactions)), u, reference, purpose, now)
  {
    var found := FirstWhere(db.transactions, TxRefIs(reference));
    if found.None? {
      return Fail(TransactionNotFound);
    }
    var tx := db.transactions[found.value];
    if tx.status == Some("COMPLETED") {
      return Fail(AlreadyClaimed);
    }
    var finalType := FinalType(purpose, tx.kind);
    var savedLoans, savedDeposits, savedTransactions := db.loans, db.deposits, db.transactions;
    db.transactions := UpdateWhere(db.transactions, TxIdIs(tx.id), Claimed(u, finalType, reference));
    r := ProcessCompletedTransaction(db, tx.(userId := u, kind := Some(finalType)), now);
    if r.Fail? {
      db.loans, db.deposits, db.transactions := savedLoans, savedDeposits, savedTransactions;
    }
  }

  /** A claimed payment is the claimant's and COMPLETED, and claiming it again, by anyone, fails
      with "Already claimed". */
  lemma ClaimOnce(b: Books, u: nat, w: nat, reference: string, purpose: Option<string>, again: Option<string>,
                  i: nat, now: int, later: int)
    requires FirstWhere(b.transactions, TxRefIs(reference)) == Some(i)
    ensures var out := Claim(b, u, reference, purpose, now);
      out.0 == Done ==>
        && out.1.transactions[i].userId == u && out.1.transactions[i].status == Some("COMPLETED")
        && out.1.transactions[i].kind == Some(FinalType(purpose, b.transactions[i].kind))
        && Claim(out.1, w, reference, again, later) == (Fail(AlreadyClaimed), out.1)
  {
    var out := Claim(b, u, reference, purpose, now);
    if out.0 == Done {
      var tx := b.transactions[i];
      ClaimedRow(b.transactions, i, u, FinalType(purpose, tx.kind), reference);
      ClaimedRowRefused(out.1, w, reference, again, i, later);
    }
  }

  /** A reference whose first row is COMPLETED cannot be claimed. */
  lemma ClaimedRowRefused(b: Books, w: nat, reference: string, purpose: Option<string>, i: nat, now: int)
    requires FirstWhere(b.transactions, TxRefIs(reference)) == Some(i) && b.transactions[i].status == Some("COMPLETED")
    ensures Claim(b, w, reference, purpose, now) == (Fail(AlreadyClaimed), b)
  {
  }

  /** The claim update changes no reference, so the claimed row is still the first under its
      reference, now the claimant's and COMPLETED. */
  lemma ClaimedRow(transactions: seq<Transaction>, i: nat, u: nat, finalType: string, reference: string)
    requires FirstWhere(transactions, TxRefIs(reference)) == Some(i)
    ensures var txs' := UpdateWhere(transactions, TxIdIs(transactions[i].id), Claimed(u, finalType, reference));
      && FirstWhere(txs', TxRefIs(reference)) == Some(i)
      && txs'[i].userId == u && txs'[i].status == Some("COMPLETED") && txs'[i].kind == Some(finalType)
  {
    var txs' := UpdateWhere(transactions, TxIdIs(transactions[i].id), Claimed(u, finalType, reference));
    var r := FirstWhere(txs', TxRefIs(reference));
    assert TxRefIs(reference)(txs'[i]);
    assert r.Some? && r.value <= i;
  }

  /** The row adminRecordTransaction inserts, already COMPLETED. */
  function AdminRow(transactions: seq<Transaction>, u: nat, kind: Option<string>, amount: real,
                    reference: Option<string>, description: Option<string>, now: int): Transaction {
    Transaction(MaxId(transactions, TransactionKey) + 1, u, kind, amount, Some("COMPLETED"), reference, None, None, description, now)
  }

  /** adminRecordTransaction as a function of the tables. */
  function AdminRecord(b: Books, u: nat, kind: Option<string>, amount: real, reference: Option<string>,
                       description: Option<string>, now: int): (out: (Result<Transaction>, Books))
    ensures out.0.Err? ==> out.1 == b
    ensures out.0.Ok? <==> Route(b.loans, b.deposits, AdminRow(b.transactions, u, kind, amount, reference, description, now), now).Ok?
    ensures reference.None? ==> out == (Err(NullReference), b)
    ensures out.0.Ok? ==> out.0.value == AdminRow(b.transactions, u, kind, amount, reference, description, now)
                          && out.1.transactions == b.transactions + [out.0.value]
  {
    var tx := AdminRow(b.transactions, u, kind, amount, reference, description, now);
    var (r, b') := CommitRouted(b, b.transactions + [tx], tx, now);
    if r == Done then (Ok(tx), b') else (Err(r.error), b')
  }

  /** `adminRecordTransaction(userId, type, amount, reference, description)`. */
  method AdminRecordTransaction(db: Database, u: nat, kind: Option<string>, amount: real, reference: Option<string>,
                                description: Option<string>, now: int) returns (r: Result<Transaction>)
    modifies db`loans, db`deposits, db`transactions
    ensures (r, Books(db.loans, db.deposits, db.transactions))
         == AdminRecord(Books(old(db.loans), old(db.deposits), old(db.transactions)), u, kind, amount, reference, description, now)
  {
    var savedLoans, savedDeposits, savedTransactions := db.loans, db.deposits, db.transactions;
    var tx := AdminRow(db.transactions, u, kind, amount, reference, description, now);
    db.transactions := db.transactions + [tx];
    var routed := ProcessCompletedTransaction(db, tx, now);
    if routed.Fail? {
      db.loans, db.deposits, db.transactions := savedLoans, savedDeposits, savedTransactions;
      return Err(routed.error);
    }
    return Ok(tx);
  }

  /** `recordManualDeposit(userId, type, amount, reference, description)`: a PENDING row for review. */
  method RecordManualDeposit(db: Database, u: nat, kind: Option<string>, amount: real, reference: Option<string>,
                             description: Option<string>, now: int)
    modifies db`transactions
    ensures db.transactions == old(db.transactions)
      + [Transaction(MaxId(old(db.transactions), TransactionKey) + 1, u, Some(SafeType(kind)), amount, Some("PENDING"),
                     reference, None, None, description, now)]
  {
    db.transactions := db.transactions + [Transaction(MaxId(db.transactions, TransactionKey) + 1, u, Some(SafeType(kind)),
                                                      amount, Some("PENDING"), reference, None, None, description, now)];
  }

  /** The text of `${type}` for the request body's `type`: a field left out prints as "undefined". */
  function RequestTypeText(kind: Option<string>): (r: string)
    ensures kind.Some? ==> r == kind.value
    ensures kind.None? ==> r == "undefined"
  {
    if kind.Some? then kind.value else "undefined"
  }

  /** The PENDING row initiateStkPush records once the STK request is accepted; the request
      itself is not modelled. */
  method RecordStkRequest(db: Database, u: nat, kind: Option<string>, amount: real, checkoutId: string,
                          merchantId: string, now: int)
    modifies db`transactions
    ensures db.transactions == old(db.transactions)
      + [Transaction(MaxId(old(db.transactions), TransactionKey) + 1, u, Some(SafeType(kind)), amount, Some("PENDING"),
                     Some("PENDING-" + checkoutId), Some(checkoutId), Some(merchantId), Some("M-Pesa STK: " + RequestTypeText(kind)), now)]
  {
    db.transactions := db.transactions + [Transaction(MaxId(db.transactions, TransactionKey) + 1, u, Some(SafeType(kind)),
                                                      amount, Some("PENDING"), Some("PENDING-" + checkoutId), Some(checkoutId),
                                                      Some(merchantId), Some("M-Pesa STK: " + RequestTypeText(kind)), now)];
  }

  function IsPending(t: Transaction): bool { t.status == Some("PENDING") }
  function Payer(t: Transaction): nat { t.userId }

  /** `getPendingDeposits()`: PENDING transactions with the payer's name, oldest first: the k-th
      is the k-th PENDING transaction of the table whose payer has a user row. */
  function GetPendingDeposits(transactions: seq<Transaction>, users: seq<User>): (r: seq<Named<Transaction>>)
    ensures forall q | q in r :: q.row in transactions && q.row.status == Some("PENDING")
    ensures forall k :: 0 <= k < |transactions| && transactions[k].status == Some("PENDING")
                        && (exists j :: 0 <= j < |users| && users[j].id == transactions[k].userId)
                        ==> exists q :: q in r && q.row == transactions[k]
    ensures var idx := MatchIndices(transactions, Joined(users, Payer, IsPending));
      |r| == |idx| && forall k :: 0 <= k < |r| ==> r[k].row == transactions[idx[k]]
  {
    var r := JoinUsers(transactions, users, Payer, IsPending);
    JoinUsersAt(transactions, users, Payer, IsPending);
    forall k | 0 <= k < |transactions| && transactions[k].status == Some("PENDING")
               && (exists j :: 0 <= j < |users| && users[j].id == transactions[k].userId)
      ensures exists q :: q in r && q.row == transactions[k]
    {
      JoinUsersComplete(transactions, users, Payer, IsPending, k);
    }
    r
  }

  // ---------------------------------------------------------------------------
  // runComplianceCheck
  // ---------------------------------------------------------------------------

  /** `min_weekly_deposit` (250) and `penalty_missed_savings` (50), with the `|| default` rule. */
  function MinWeeklyDeposit(settings: seq<Setting>): real { NumberOr(GetSetting(settings, "min_weekly_deposit"), 250.0) }
  function MissedSavingsPenalty(settings: seq<Setting>): real { NumberOr(GetSetting(settings, "penalty_missed_savings"), 50.0) }

  function DepositThisWeek(u: nat, thisWeek: int -> bool): Transaction -> bool {
    (t: Transaction) => t.userId == u && t.kind == Some("DEPOSIT") && t.status == Some("COMPLETED") && thisWeek(t.createdAt)
  }
  function TxAmount(t: Transaction): real { t.amount }

  /** In the `GROUP BY user_id HAVING SUM(amount) >= min` subquery: a member without any
      deposit this week has no group at all, whatever the minimum. */
  predicate SavedEnough(transactions: seq<Transaction>, u: nat, min: real, thisWeek: int -> bool) {
    FirstWhere(transactions, DepositThisWeek(u, thisWeek)).Some?
    && SumWhere(transactions, DepositThisWeek(u, thisWeek), TxAmount) >= min
  }

  const MissedTitle := "Missed Weekly Deposit"

  /** `title LIKE 'Missed Weekly Deposit%' AND date_created >= date_trunc('week', ..)`. */
  function MissedFineThisWeek(u: nat, thisWeek: int -> bool): Fine -> bool {
    (f: Fine) => f.userId == u && StartsWith(f.title, MissedTitle) && thisWeek(f.dateCreated)
  }

  /** Is this user one the check fines? */
  predicate NonCompliant(transactions: seq<Transaction>, fines: seq<Fine>, u: User, min: real, thisWeek: int -> bool) {
    && u.role == "MEMBER" && u.isActive
    && !SavedEnough(transactions, u.id, min, thisWeek)
    && FirstWhere(fines, MissedFineThisWeek(u.id, thisWeek)).None?
  }

  /** The ids of the members the check fines, in table order. */
  function NonCompliantIds(users: seq<User>, transactions: seq<Transaction>, fines: seq<Fine>, min: real, thisWeek: int -> bool)
    : (ids: seq<nat>)
    ensures forall x | x in ids :: exists j :: 0 <= j < |users| && users[j].id == x && NonCompliant(transactions, fines, users[j], min, thisWeek)
    ensures forall j :: 0 <= j < |users| && NonCompliant(transactions, fines, users[j], min, thisWeek) ==> users[j].id in ids
    ensures (forall j :: 0 <= j < |users| ==> !NonCompliant(transactions, fines, users[j], min, thisWeek)) ==> ids == []
    decreases |users|
  {
    if |users| == 0 then []
    else
      var init := NonCompliantIds(users[..|users| - 1], transactions, fines, min, thisWeek);
      assert forall j :: 0 <= j < |users| - 1 ==> users[..|users| - 1][j] == users[j];
      var u := users[|users| - 1];
      if NonCompliant(transactions, fines, u, min, thisWeek) then init + [u.id] else init
  }

  /** The description of a penalty, `minText` being the minimum as JavaScript prints it. */
  function PenaltyText(minText: string): string { "Penalty for missing " + minText + " deposit" }

  /** The penalty row for one member. */
  function PenaltyFine(fines: seq<Fine>, u: nat, penalty: real, minText: string, now: int): Fine {
    Fine(MaxId(fines, FineKey) + 1, u, MissedTitle, penalty, penalty, PenaltyText(minText), "PENDING",
         NoInterest, now, None, None)
  }

  predicate PenaltyFor(f: Fine, u: nat, penalty: real, minText: string, now: int) {
    f.userId == u && f.title == MissedTitle && f.dateCreated == now && f.currentBalance == penalty
    && f.originalAmount == penalty && f.status == "PENDING" && f.description == PenaltyText(minText)
  }

  /** The fines table after inserting one penalty per id, in order. */
  function WithPenalties(fines: seq<Fine>, ids: seq<nat>, penalty: real, minText: string, now: int): (r: seq<Fine>)
    ensures |r| == |fines| + |ids| && r[..|fines|] == fines
    ensures forall k :: 0 <= k < |ids| ==> PenaltyFor(r[|fines| + k], ids[k], penalty, minText, now)
    decreases |ids|
  {
    if |ids| == 0 then fines
    else
      var init := WithPenalties(fines, ids[..|ids| - 1], penalty, minText, now);
      init + [PenaltyFine(init, ids[|ids| - 1], penalty, minText, now)]
  }

  /** Fining one more member appends that member's penalty row. */
  lemma WithPenaltiesPrefix(fines: seq<Fine>, ids: seq<nat>, k: nat, penalty: real, minText: string, now: int)
    requires k < |ids|
    ensures var init := WithPenalties(fines, ids[..k], penalty, minText, now);
      WithPenalties(fines, ids[..k + 1], penalty, minText, now) == init + [PenaltyFine(init, ids[k], penalty, minText, now)]
  {
    assert ids[..k + 1][..k] == ids[..k] && ids[..k + 1][k] == ids[k];
  }

  /** `runComplianceCheck()`: one "Missed Weekly Deposit" fine for every active member who has
      neither deposited the weekly minimum nor been fined for it this week; returns how many.
      `thisWeek` says whether a time falls in the current week; `show` is JavaScript's
      conversion of a number to text, used for the minimum in each description. */
  method RunComplianceCheck(db: Database, thisWeek: int -> bool, show: real -> string, now: int) returns (n: nat)
    modifies db`fines
    ensures var ids := NonCompliantIds(db.users, db.transactions, old(db.fines), MinWeeklyDeposit(db.settings), thisWeek);
      && n == |ids|
      && db.fines == WithPenalties(old(db.fines), ids, MissedSavingsPenalty(db.settings), show(MinWeeklyDeposit(db.settings)), now)
  {
    var minDeposit := MinWeeklyDeposit(db.settings);
    var penalty := MissedSavingsPenalty(db.settings);
    var minText := show(minDeposit);
    var ids := NonCompliantIds(db.users, db.transactions, db.fines, minDeposit, thisWeek);
    ghost var fines0 := db.fines;
    var k := 0;
    while k < |ids|
      invariant 0 <= k <= |ids|
      invariant db.fines == WithPenalties(fines0, ids[..k], penalty, minText, now)
    {
      WithPenaltiesPrefix(fines0, ids, k, penalty, minText, now);
      db.fines := db.fines + [PenaltyFine(db.fines, ids[k], penalty, minText, now)];
      k := k + 1;
    }
    assert ids[..k] == ids;
    return |ids|;
  }

  /** Within one week the check fines a member at most once: run again straight after, it
      finds nobody to fine. */
  lemma ComplianceOncePerWeek(users: seq<User>, transactions: seq<Transaction>, fines: seq<Fine>, min: real,
                              penalty: real, minText: string, thisWeek: int -> bool, now: int)
    requires thisWeek(now)
    ensures var fines' := WithPenalties(fines, NonCompliantIds(users, transactions, fines, min, thisWeek), penalty, minText, now);
      NonCompliantIds(users, transactions, fines', min, thisWeek) == []
  {
    var ids := NonCompliantIds(users, transactions, fines, min, thisWeek);
    var fines' := WithPenalties(fines, ids, penalty, minText, now);
    forall j | 0 <= j < |users| ensures !NonCompliant(transactions, fines', users[j], min, thisWeek) {
      var u := users[j];
      if NonCompliant(transactions, fines, u, min, thisWeek) {
        var k :| 0 <= k < |ids| && ids[k] == u.id;
        assert PenaltyFor(fines'[|fines| + k], u.id, penalty, minText, now);
        assert StartsWith(fines'[|fines| + k].title, MissedTitle);
        assert MissedFineThisWeek(u.id, thisWeek)(fines'[|fines| + k]);
      } else if FirstWhere(fines, MissedFineThisWeek(u.id, thisWeek)).Some? {
        var i := FirstWhere(fines, MissedFineThisWeek(u.id, thisWeek)).value;
        assert fines'[i] == fines[i];
      }
    }
  }
}
