/**
 * The cooperative's database: one row type per table and one in-memory database object
 * whose fields are the tables. Every table is a sequence of rows kept in creation order,
 * so `ORDER BY created_at` reads a table forwards and `ORDER BY created_at DESC` reads it
 * backwards. A column the services may leave NULL is an `Option`.
 */
module Db {
  import opened Wrappers
  import opened Sums

  /** `loan_applications.status`. SUBMITTED, DEFAULT and OVERDUE are read by queries but never written here. */
  datatype LoanStatus =
    | FeePending | FeePaid | PendingGuarantors | Submitted | Verified | Tabled | Voting
    | Approved | Rejected | Active | Completed | Default | Overdue

  /** A row of `loan_applications`. */
  datatype Loan = Loan(
    id: nat,
    userId: nat,
    status: LoanStatus,
    createdAt: int,
    feeAmount: real,
    feeTransactionRef: Option<string>,
    amountRequested: Option<real>,
    purpose: Option<string>,
    repaymentWeeks: Option<int>,
    amountRepaid: real,
    interestAmount: Option<real>,
    totalDue: Option<real>,
    disbursedAt: Option<int>,
    guarantorIds: seq<nat>)

  /** A row of `loan_guarantors`; `status` holds whatever decision the guarantor sent. */
  datatype GuarantorRow = GuarantorRow(
    id: nat,
    loanId: nat,
    guarantorId: nat,
    status: string,
    amountGuaranteed: Option<real>)

  /** A row of `votes`; (loanId, userId) is unique. */
  datatype Vote = Vote(loanId: nat, userId: nat, vote: string)

  /** A row of `deposits`: a signed amount; `ref` is the unique `transaction_ref`. */
  datatype Deposit = Deposit(
    userId: nat,
    amount: real,
    kind: string,
    ref: string,
    status: string,
    description: Option<string>,
    category: Option<string>,
    createdAt: int)

  /** A row of `transactions`: a raw payment event. */
  datatype Transaction = Transaction(
    id: nat,
    userId: nat,
    kind: Option<string>,
    amount: real,
    status: Option<string>,
    ref: Option<string>,
    checkoutId: Option<string>,
    merchantId: Option<string>,
    description: Option<string>,
    createdAt: int)

  /** `member_fines.interest_stage`. */
  datatype InterestStage = NoInterest | Stage1At20 | Stage2At50

  /** A row of `member_fines`. */
  datatype Fine = Fine(
    id: nat,
    userId: nat,
    title: string,
    originalAmount: real,
    currentBalance: real,
    description: string,
    status: string,
    stage: InterestStage,
    dateCreated: int,
    dateStage1: Option<int>,
    dateStage2: Option<int>)

  /** A row of `dividends`. */
  datatype Dividend = Dividend(
    id: nat,
    financialYear: int,
    rate: real,
    totalAmount: real,
    status: string,
    declaredBy: nat,
    description: string)

  /** A row of `dividend_allocations`. */
  datatype Allocation = Allocation(
    dividendId: nat,
    memberId: nat,
    shareValue: real,
    amount: real,
    status: string,
    paymentDate: int)

  /** A row of `users`. */
  datatype User = User(
    id: nat,
    fullName: string,
    email: string,
    passwordHash: string,
    phone: Option<string>,
    role: string,
    idNumber: Option<string>,
    kraPin: Option<string>,
    profileImage: Option<string>,
    nokName: Option<string>,
    nokPhone: Option<string>,
    nokRelation: Option<string>,
    isEmailVerified: bool,
    verificationToken: Option<string>,
    mustChangePassword: bool,
    isActive: bool)

  /** A row of `system_settings`. */
  datatype Setting = Setting(key: string, value: Option<string>, category: string)

  /** A row of `contribution_categories`. */
  datatype Category = Category(id: nat, name: string, description: string, amount: real, isActive: bool)

  /** A row of `fixed_assets`. */
  datatype Asset = Asset(
    id: nat,
    name: string,
    kind: Option<string>,
    purchaseValue: real,
    currentValue: real,
    location: Option<string>,
    description: Option<string>,
    createdBy: nat,
    status: string)

  /** A row of `operational_expenses`. */
  datatype Expense = Expense(
    title: string,
    category: Option<string>,
    amount: real,
    description: Option<string>,
    receiptRef: Option<string>,
    incurredBy: nat,
    expenseDate: int)

  /** A row of `member_movement_log`. */
  datatype Movement = Movement(userId: nat, action: string, reason: string, recordedBy: nat)

  /** The whole database. Services change it through field-level frames, so a method's
      `modifies` clause names exactly the tables it may write. */
  class Database {
    var loans: seq<Loan>
    var guarantors: seq<GuarantorRow>
    var votes: seq<Vote>
    var deposits: seq<Deposit>
    var transactions: seq<Transaction>
    var fines: seq<Fine>
    var dividends: seq<Dividend>
    var allocations: seq<Allocation>
    var users: seq<User>
    var settings: seq<Setting>
    var categories: seq<Category>
    var assets: seq<Asset>
    var expenses: seq<Expense>
    var movements: seq<Movement>

    /** A fresh, empty database. */
    constructor ()
      ensures loans == [] && guarantors == [] && votes == [] && deposits == []
      ensures transactions == [] && fines == [] && dividends == [] && allocations == []
      ensures users == [] && settings == [] && categories == [] && assets == []
      ensures expenses == [] && movements == []
    {
      loans, guarantors, votes, deposits := [], [], [], [];
      transactions, fines, dividends, allocations := [], [], [], [];
      users, settings, categories, assets := [], [], [], [];
      expenses, movements := [], [];
    }
  }

  // Primary keys, for drawing a fresh SERIAL value.
  function LoanKey(l: Loan): nat { l.id }
  function GuarantorKey(g: GuarantorRow): nat { g.id }
  function TransactionKey(t: Transaction): nat { t.id }
  function FineKey(f: Fine): nat { f.id }
  function DividendKey(d: Dividend): nat { d.id }
  function UserKey(u: User): nat { u.id }
  function CategoryKey(c: Category): nat { c.id }
  function AssetKey(a: Asset): nat { a.id }

  /** `WHERE id = $n` on the users table. */
  function UserIdIs(id: nat): User -> bool { (u: User) => u.id == id }

  /** A row joined with its owner's name (`JOIN users u ON .. = u.id`, selecting `u.full_name`). */
  datatype Named<T> = Named(row: T, fullName: string)

  /** The rows satisfying `p` whose owner has a user row, each with that user's name, in table order. */
  function JoinUsers<T>(rows: seq<T>, users: seq<User>, owner: T -> nat, p: T -> bool): (r: seq<Named<T>>)
    ensures forall q | q in r :: q.row in rows && p(q.row) && UserNamed(users, owner(q.row), q.fullName)
    decreases |rows|
  {
    if |rows| == 0 then []
    else
      var x := rows[|rows| - 1];
      var init := JoinUsers(rows[..|rows| - 1], users, owner, p);
      assert forall k :: 0 <= k < |rows| - 1 ==> rows[..|rows| - 1][k] == rows[k];
      match FirstWhere(users, UserIdIs(owner(x)))
      case None => init
      case Some(j) => if p(x) then init + [Named(x, users[j].fullName)] else init
  }

  /** Every row satisfying `p` whose owner has a user row is in the join. */
  lemma {:induction false} JoinUsersComplete<T>(rows: seq<T>, users: seq<User>, owner: T -> nat, p: T -> bool, k: nat)
    requires k < |rows| && p(rows[k])
    requires exists j :: 0 <= j < |users| && users[j].id == owner(rows[k])
    ensures exists q :: q in JoinUsers(rows, users, owner, p) && q.row == rows[k]
    decreases |rows|
  {
    var x := rows[|rows| - 1];
    var init := rows[..|rows| - 1];
    var r := JoinUsers(rows, users, owner, p);
    if k == |rows| - 1 {
      var j := FirstWhere(users, UserIdIs(owner(x))).value;
      assert r == JoinUsers(init, users, owner, p) + [Named(x, users[j].fullName)];
      assert r[|r| - 1].row == rows[k];
    } else {
      assert init[k] == rows[k];
      JoinUsersComplete(init, users, owner, p, k);
      var q :| q in JoinUsers(init, users, owner, p) && q.row == rows[k];
      assert q in r;
    }
  }

  /** The rows JoinUsers keeps: those satisfying `p` whose owner has a user row. */
  function Joined<T>(users: seq<User>, owner: T -> nat, p: T -> bool): T -> bool {
    (x: T) => p(x) && FirstWhere(users, UserIdIs(owner(x))).Some?
  }

  /** The join keeps table order: its k-th row is the row at the k-th joined position, named
      after the first user row with the owner's id. */
  lemma {:induction false} JoinUsersAt<T>(rows: seq<T>, users: seq<User>, owner: T -> nat, p: T -> bool)
    ensures var r := JoinUsers(rows, users, owner, p); var idx := MatchIndices(rows, Joined(users, owner, p));
      |r| == |idx| && forall k :: 0 <= k < |r| ==>
        r[k].row == rows[idx[k]] && r[k].fullName == users[FirstWhere(users, UserIdIs(owner(rows[idx[k]]))).value].fullName
    decreases |rows|
  {
    if |rows| > 0 {
      var init := rows[..|rows| - 1];
      var x := rows[|rows| - 1];
      JoinUsersAt(init, users, owner, p);
      assert forall i :: 0 <= i < |init| ==> init[i] == rows[i];
      var r0 := JoinUsers(init, users, owner, p);
      var i0 := MatchIndices(init, Joined(users, owner, p));
      if Joined(users, owner, p)(x) {
        assert JoinUsers(rows, users, owner, p) == r0 + [Named(x, users[FirstWhere(users, UserIdIs(owner(x))).value].fullName)];
        assert MatchIndices(rows, Joined(users, owner, p)) == i0 + [|rows| - 1];
      } else {
        assert JoinUsers(rows, users, owner, p) == r0;
        assert MatchIndices(rows, Joined(users, owner, p)) == i0;
      }
    }
  }

  /** Has some user row this id and this name? */
  predicate UserNamed(users: seq<User>, id: nat, name: string) {
    exists j :: 0 <= j < |users| && users[j].id == id && users[j].fullName == name
  }
}
