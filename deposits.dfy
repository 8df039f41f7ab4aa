/**
 * Member balances, transaction history and the withdrawal gate (deposits.service.js).
 * Withdrawable savings are the member's COMPLETED rows of type DEPOSIT; share capital
 * (type SHARE_CAPITAL) cannot be withdrawn; savings pledged on accepted guarantees are locked.
 */
module Deposits {
  import opened Wrappers
  import opened Sums
  import opened Text
  import opened Db

  function Amount(d: Deposit): real { d.amount }

  /** `user_id = u AND status = 'COMPLETED' AND type = kind` on the deposits table. */
  function CompletedOfType(u: nat, kind: string): Deposit -> bool {
    (d: Deposit) => d.userId == u && d.status == "COMPLETED" && d.kind == kind
  }

  /** Withdrawable savings. */
  function Savings(deposits: seq<Deposit>, u: nat): real {
    SumWhere(deposits, CompletedOfType(u, "DEPOSIT"), Amount)
  }

  /** Share capital. */
  function Shares(deposits: seq<Deposit>, u: nat): real {
    SumWhere(deposits, CompletedOfType(u, "SHARE_CAPITAL"), Amount)
  }

  datatype Balance = Balance(balance: real, shares: real)

  /** `getUserBalance(userId)`. */
  function GetUserBalance(deposits: seq<Deposit>, u: nat): (b: Balance)
    ensures (forall i :: 0 <= i < |deposits| ==> deposits[i].userId != u) ==> b == Balance(0.0, 0.0)
  {
    if forall i :: 0 <= i < |deposits| ==> deposits[i].userId != u then
      SumWhereNoMatch(deposits, CompletedOfType(u, "DEPOSIT"), Amount);
      SumWhereNoMatch(deposits, CompletedOfType(u, "SHARE_CAPITAL"), Amount);
      Balance(Savings(deposits, u), Shares(deposits, u))
    else Balance(Savings(deposits, u), Shares(deposits, u))
  }

  /** A new row moves the member's savings by its amount exactly when it is a COMPLETED DEPOSIT row
      of theirs, and their share capital exactly when it is a COMPLETED SHARE_CAPITAL row;
      nobody else's balance moves. */
  lemma BalanceAfterInsert(deposits: seq<Deposit>, d: Deposit, u: nat)
    ensures GetUserBalance(deposits + [d], u).balance
         == GetUserBalance(deposits, u).balance + (if d.userId == u && d.status == "COMPLETED" && d.kind == "DEPOSIT" then d.amount else 0.0)
    ensures GetUserBalance(deposits + [d], u).shares
         == GetUserBalance(deposits, u).shares + (if d.userId == u && d.status == "COMPLETED" && d.kind == "SHARE_CAPITAL" then d.amount else 0.0)
  {
    SumWhereSnoc(deposits, d, CompletedOfType(u, "DEPOSIT"), Amount);
    SumWhereSnoc(deposits, d, CompletedOfType(u, "SHARE_CAPITAL"), Amount);
  }

  function HasRef(ref: string): Deposit -> bool { (d: Deposit) => d.ref == ref }

  /** Is `transaction_ref` taken? (the deposits table's unique column) */
  predicate RefTaken(deposits: seq<Deposit>, ref: string) {
    exists i :: 0 <= i < |deposits| && deposits[i].ref == ref
  }

  /** `INSERT .. ON CONFLICT (transaction_ref) DO NOTHING`. */
  function InsertIfAbsent(deposits: seq<Deposit>, d: Deposit): (r: seq<Deposit>)
    ensures RefTaken(deposits, d.ref) ==> r == deposits
    ensures !RefTaken(deposits, d.ref) ==> r == deposits + [d]
    ensures RefTaken(r, d.ref)
  {
    if FirstWhere(deposits, HasRef(d.ref)).Some? then deposits
    else
      assert (deposits + [d])[|deposits|] == d;
      deposits + [d]
  }

  /** A taken reference stays taken. */
  lemma RefTakenStays(deposits: seq<Deposit>, d: Deposit, ref: string)
    requires RefTaken(deposits, ref)
    ensures RefTaken(InsertIfAbsent(deposits, d), ref)
  {
    var i :| 0 <= i < |deposits| && deposits[i].ref == ref;
    assert InsertIfAbsent(deposits, d)[i] == deposits[i];
  }

  /** Inserting the same reference twice is the same as inserting it once. */
  lemma InsertIfAbsentIdempotent(deposits: seq<Deposit>, d: Deposit, e: Deposit)
    requires e.ref == d.ref
    ensures InsertIfAbsent(InsertIfAbsent(deposits, d), e) == InsertIfAbsent(deposits, d)
  {
  }

  function TxOf(u: nat): Transaction -> bool { (t: Transaction) => t.userId == u }

  /** `getHistory(userId)`: the member's 50 most recent transactions, newest first: the k-th row
      is the k-th of the member's transactions counted from the latest (see Sums.FilterAt for
      where each of those sits in the table). */
  function GetHistory(transactions: seq<Transaction>, u: nat): (r: seq<Transaction>)
    ensures |r| <= 50
    ensures forall t | t in r :: t in transactions && t.userId == u
    ensures CountWhere(transactions, TxOf(u)) <= 50 ==> forall t | t in transactions && t.userId == u :: t in r
    ensures |r| == if CountWhere(transactions, TxOf(u)) < 50 then CountWhere(transactions, TxOf(u)) else 50
    ensures |r| > 0 ==> exists i :: LastWhere(transactions, TxOf(u)) == Some(i) && r[0] == transactions[i]
    ensures var mine := Filter(transactions, TxOf(u));
      |r| <= |mine| && forall k :: 0 <= k < |r| ==> r[k] == mine[|mine| - 1 - k]
  {
    NewestFirst(transactions, TxOf(u), 50)
  }

  // ---------------------------------------------------------------------------
  // requestWithdrawal
  // ---------------------------------------------------------------------------

  function AcceptedBy(u: nat): GuarantorRow -> bool {
    (g: GuarantorRow) => g.guarantorId == u && g.status == "ACCEPTED"
  }

  /** `COALESCE(SUM(amount_guaranteed), 0)`: a null amount adds nothing. */
  function Guaranteed(g: GuarantorRow): real { g.amountGuaranteed.GetOr(0.0) }

  /** Savings the member has pledged on accepted guarantees. */
  function Locked(guarantors: seq<GuarantorRow>, u: nat): real {
    SumWhere(guarantors, AcceptedBy(u), Guaranteed)
  }

  function WithdrawalRef(now: int): string { "WTH-" + IntToString(now) }

  /** The two rows a withdrawal writes: a negative WITHDRAWAL deposit row and a positive WITHDRAWAL transaction. */
  function WithdrawalRow(u: nat, amount: real, now: int): Deposit {
    Deposit(u, -amount, "WITHDRAWAL", WithdrawalRef(now), "COMPLETED", None, None, now)
  }

  function WithdrawalTx(transactions: seq<Transaction>, u: nat, amount: real, now: int): Transaction {
    Transaction(MaxId(transactions, TransactionKey) + 1, u, Some("WITHDRAWAL"), amount, None,
                Some(WithdrawalRef(now)), None, None, Some("Withdrawal to M-Pesa"), now)
  }

  /** The answer of a withdrawal request and the two tables afterwards. */
  datatype WithdrawOutcome = WithdrawOutcome(result: Result<string>, deposits: seq<Deposit>, transactions: seq<Transaction>)

  /** requestWithdrawal as a function of the tables. */
  function Withdraw(deposits: seq<Deposit>, transactions: seq<Transaction>, guarantors: seq<GuarantorRow>,
                    u: nat, amount: real, now: int): (w: WithdrawOutcome)
    ensures amount <= 0.0 ==> w.result == Err(InvalidAmount)
    ensures amount > 0.0 && Savings(deposits, u) < amount ==> w.result == Err(InsufficientWithdrawableSavings)
    ensures amount > 0.0 && Savings(deposits, u) >= amount && Savings(deposits, u) - Locked(guarantors, u) < amount
            ==> w.result == Err(FundsLockedByGuarantees(Locked(guarantors, u)))
    ensures w.result.Ok? <==> amount > 0.0 && Savings(deposits, u) - Locked(guarantors, u) >= amount
                              && Savings(deposits, u) >= amount && !RefTaken(deposits, WithdrawalRef(now))
    ensures w.result.Err? ==> w.deposits == deposits && w.transactions == transactions
    ensures w.result.Ok? ==> w.result.value == WithdrawalRef(now)
                             && w.deposits == deposits + [WithdrawalRow(u, amount, now)]
                             && w.transactions == transactions + [WithdrawalTx(transactions, u, amount, now)]
  {
    if amount <= 0.0 then WithdrawOutcome(Err(InvalidAmount), deposits, transactions)
    else
      var savings := Savings(deposits, u);
      if savings < amount then WithdrawOutcome(Err(InsufficientWithdrawableSavings), deposits, transactions)
      else
        var locked := Locked(guarantors, u);
        if savings - locked < amount then WithdrawOutcome(Err(FundsLockedByGuarantees(locked)), deposits, transactions)
        else if FirstWhere(deposits, HasRef(WithdrawalRef(now))).Some? then
          WithdrawOutcome(Err(DuplicateReference), deposits, transactions)
        else
          WithdrawOutcome(Ok(WithdrawalRef(now)),
                          deposits + [WithdrawalRow(u, amount, now)],
                          transactions + [WithdrawalTx(transactions, u, amount, now)])
  }

  /** `requestWithdrawal(userId, amount)`: both rows or neither, with the gate reading savings
      net of earlier withdrawals (WithdrawTwiceAsWritten shows the gate as written). */
  method RequestWithdrawal(db: Database, u: nat, amount: real, now: int) returns (r: Result<string>)
    modifies db`deposits, db`transactions
    ensures var w := WithdrawCorrected(old(db.deposits), old(db.transactions), db.guarantors, u, amount, now);
      r == w.result && db.deposits == w.deposits && db.transactions == w.transactions
  {
    if amount <= 0.0 {
      return Err(InvalidAmount);
    }
    var savings := NetSavings(db.deposits, u);
    if savings < amount {
      return Err(InsufficientWithdrawableSavings);
    }
    var locked := Locked(db.guarantors, u);
    if savings - locked < amount {
      return Err(FundsLockedByGuarantees(locked));
    }
    var ref := WithdrawalRef(now);
    if FirstWhere(db.deposits, HasRef(ref)).Some? {
      return Err(DuplicateReference);
    }
    db.deposits := db.deposits + [WithdrawalRow(u, amount, now)];
    db.transactions := db.transactions + [WithdrawalTx(db.transactions, u, amount, now)];
    return Ok(ref);
  }

  /** Guarantees lock funds: with savings that alone would cover the amount, a pledge that leaves
      less than the amount free refuses the withdrawal. */
  lemma LockedFundsBlock(deposits: seq<Deposit>, transactions: seq<Transaction>, guarantors: seq<GuarantorRow>,
                         u: nat, amount: real, now: int)
    requires amount > 0.0 && Savings(deposits, u) >= amount
    requires Locked(guarantors, u) > Savings(deposits, u) - amount
    ensures Withdraw(deposits, transactions, guarantors, u, amount, now).result.Err?
  {
  }

  /** Without any accepted guarantee nothing is locked, so savings alone decide. */
  lemma NoGuaranteeNothingLocked(guarantors: seq<GuarantorRow>, u: nat)
    requires forall i :: 0 <= i < |guarantors| ==> guarantors[i].guarantorId != u || guarantors[i].status != "ACCEPTED"
    ensures Locked(guarantors, u) == 0.0
  {
    SumWhereNoMatch(guarantors, AcceptedBy(u), Guaranteed);
  }

  /** The withdrawal row is typed WITHDRAWAL, so a successful withdrawal leaves the member's
      withdrawable savings and share capital, as getUserBalance reads them, unchanged. */
  lemma WithdrawalLeavesBalance(deposits: seq<Deposit>, transactions: seq<Transaction>, guarantors: seq<GuarantorRow>,
                                u: nat, amount: real, now: int, v: nat)
    ensures var w := Withdraw(deposits, transactions, guarantors, u, amount, now);
      GetUserBalance(w.deposits, v) == GetUserBalance(deposits, v)
  {
    var w := Withdraw(deposits, transactions, guarantors, u, amount, now);
    if w.result.Ok? {
      BalanceAfterInsert(deposits, WithdrawalRow(u, amount, now), v);
    }
  }

  /** As written, the withdrawal gate reads savings from DEPOSIT rows only, while the row it
      writes is typed WITHDRAWAL: the same savings pass the gate again, so a member who can
      withdraw an amount once can withdraw it a second time (and a third, ...). */
  lemma WithdrawTwiceAsWritten(deposits: seq<Deposit>, transactions: seq<Transaction>, guarantors: seq<GuarantorRow>,
                               u: nat, amount: real, now: int, later: int)
    requires amount > 0.0 && Savings(deposits, u) >= amount && Savings(deposits, u) - Locked(guarantors, u) >= amount
    requires !RefTaken(deposits, WithdrawalRef(now)) && !RefTaken(deposits, WithdrawalRef(later))
    requires WithdrawalRef(now) != WithdrawalRef(later)
    ensures var w1 := Withdraw(deposits, transactions, guarantors, u, amount, now);
      var w2 := Withdraw(w1.deposits, w1.transactions, guarantors, u, amount, later);
      && w1.result.Ok? && w2.result.Ok?
      && Savings(w2.deposits, u) == Savings(deposits, u)
  {
    var w1 := Withdraw(deposits, transactions, guarantors, u, amount, now);
    WithdrawalLeavesBalance(deposits, transactions, guarantors, u, amount, now, u);
    assert !RefTaken(w1.deposits, WithdrawalRef(later)) by {
      assert w1.deposits == deposits + [WithdrawalRow(u, amount, now)];
    }
    var w2 := Withdraw(w1.deposits, w1.transactions, guarantors, u, amount, later);
    WithdrawalLeavesBalance(w1.deposits, w1.transactions, guarantors, u, amount, later, u);
  }

  /** The rows that make up the money a member can still withdraw: COMPLETED deposits of type
      DEPOSIT and the (negative) WITHDRAWAL rows taken out of them. */
  function NetSavingsRow(u: nat): Deposit -> bool {
    (d: Deposit) => d.userId == u && d.status == "COMPLETED" && (d.kind == "DEPOSIT" || d.kind == "WITHDRAWAL")
  }

  /** Savings net of earlier withdrawals. */
  function NetSavings(deposits: seq<Deposit>, u: nat): real {
    SumWhere(deposits, NetSavingsRow(u), Amount)
  }

  /** requestWithdrawal with the gate reading savings net of earlier withdrawals. */
  function WithdrawCorrected(deposits: seq<Deposit>, transactions: seq<Transaction>, guarantors: seq<GuarantorRow>,
                             u: nat, amount: real, now: int): (w: WithdrawOutcome)
    ensures w.result.Ok? <==> amount > 0.0 && NetSavings(deposits, u) - Locked(guarantors, u) >= amount
                              && NetSavings(deposits, u) >= amount && !RefTaken(deposits, WithdrawalRef(now))
    ensures w.result.Err? ==> w.deposits == deposits && w.transactions == transactions
    ensures w.result.Ok? ==> w.result.value == WithdrawalRef(now)
                             && w.deposits == deposits + [WithdrawalRow(u, amount, now)]
                             && w.transactions == transactions + [WithdrawalTx(transactions, u, amount, now)]
    ensures w.result.Ok? ==> NetSavings(w.deposits, u) == NetSavings(deposits, u) - amount
                             && NetSavings(w.deposits, u) >= Locked(guarantors, u)
  {
    if amount <= 0.0 then WithdrawOutcome(Err(InvalidAmount), deposits, transactions)
    else
      var savings := NetSavings(deposits, u);
      if savings < amount then WithdrawOutcome(Err(InsufficientWithdrawableSavings), deposits, transactions)
      else
        var locked := Locked(guarantors, u);
        if savings - locked < amount then WithdrawOutcome(Err(FundsLockedByGuarantees(locked)), deposits, transactions)
        else if FirstWhere(deposits, HasRef(WithdrawalRef(now))).Some? then
          WithdrawOutcome(Err(DuplicateReference), deposits, transactions)
        else
          SumWhereSnoc(deposits, WithdrawalRow(u, amount, now), NetSavingsRow(u), Amount);
          WithdrawOutcome(Ok(WithdrawalRef(now)),
                          deposits + [WithdrawalRow(u, amount, now)],
                          transactions + [WithdrawalTx(transactions, u, amount, now)])
  }

  /** With the corrected gate two withdrawals in a row never take out more than the savings left
      free by the guarantees. */
  lemma WithdrawCorrectedTwice(deposits: seq<Deposit>, transactions: seq<Transaction>, guarantors: seq<GuarantorRow>,
                               u: nat, a: real, b: real, now: int, later: int)
    ensures var w1 := WithdrawCorrected(deposits, transactions, guarantors, u, a, now);
      var w2 := WithdrawCorrected(w1.deposits, w1.transactions, guarantors, u, b, later);
      w1.result.Ok? && w2.result.Ok? ==> a + b <= NetSavings(deposits, u) - Locked(guarantors, u)
  {
  }
}
