/**
 * The loan lifecycle (loans.service.js):
 *   FEE_PENDING -> FEE_PAID -> PENDING_GUARANTORS -> VERIFIED -> TABLED -> VOTING
 *   -> APPROVED | REJECTED, then APPROVED -> ACTIVE -> COMPLETED.
 * The fee payment and the final repayment happen in the payment router. Only disbursement
 * checks the current status; the other transitions set it whatever it was.
 */
module Loans {
  import opened Wrappers
  import opened Sums
  import opened Text
  import opened Db
  import opened Settings
  import opened Deposits
  import opened AuthMiddleware

  function LoanIdIs(id: nat): Loan -> bool { (l: Loan) => l.id == id }
  function LoanOf(u: nat): Loan -> bool { (l: Loan) => l.userId == u }
  function WithStatus(s: LoanStatus): Loan -> Loan { (l: Loan) => l.(status := s) }

  // ---------------------------------------------------------------------------
  // getMemberLoanStatus
  // ---------------------------------------------------------------------------

  datatype Eligibility = Eligibility(eligible: bool, minSavings: real, currentSavings: real)

  /** `min_savings_for_loan`, 5000 when missing, zero or not a number. */
  function MinSavings(settings: seq<Setting>): real {
    NumberOr(GetSetting(settings, "min_savings_for_loan"), 5000.0)
  }

  /** The eligibility block: withdrawable savings against the minimum. */
  function EligibilityOf(deposits: seq<Deposit>, settings: seq<Setting>, u: nat): (e: Eligibility)
    ensures e.minSavings == MinSavings(settings) && e.currentSavings == Savings(deposits, u)
    ensures e.eligible <==> Savings(deposits, u) >= MinSavings(settings)
  {
    var min := MinSavings(settings);
    var savings := Savings(deposits, u);
    Eligibility(savings >= min, min, savings)
  }

  /** What getMemberLoanStatus returns: NO_APP or the latest loan, with the eligibility either way. */
  datatype StatusView = NoApp(eligibility: Eligibility) | LatestLoan(loan: Loan, eligibility: Eligibility)

  function GetMemberLoanStatus(loans: seq<Loan>, deposits: seq<Deposit>, settings: seq<Setting>, u: nat): (v: StatusView)
    ensures v.NoApp? <==> forall i :: 0 <= i < |loans| ==> loans[i].userId != u
    ensures v.LatestLoan? ==> exists i :: 0 <= i < |loans| && loans[i] == v.loan && loans[i].userId == u
                                        && forall j :: i < j < |loans| ==> loans[j].userId != u
    ensures v.eligibility == EligibilityOf(deposits, settings, u)
  {
    match LastWhere(loans, LoanOf(u))
    case None => NoApp(EligibilityOf(deposits, settings, u))
    case Some(i) => LatestLoan(loans[i], EligibilityOf(deposits, settings, u))
  }

  // ---------------------------------------------------------------------------
  // initApplication
  // ---------------------------------------------------------------------------

  /** `status NOT IN ('REJECTED', 'COMPLETED')`. */
  predicate IsOpen(l: Loan) { l.status != Rejected && l.status != Completed }
  function OpenLoanOf(u: nat): Loan -> bool { (l: Loan) => l.userId == u && IsOpen(l) }

  predicate HasOpenLoan(loans: seq<Loan>, u: nat) {
    exists i :: 0 <= i < |loans| && loans[i].userId == u && IsOpen(loans[i])
  }

  /** `loan_processing_fee`, 500 when missing, zero or not a number. */
  function ProcessingFee(settings: seq<Setting>): real {
    NumberOr(GetSetting(settings, "loan_processing_fee"), 500.0)
  }

  /** The application row initApplication creates. The zero defaults of the repayment columns are
      the table's column defaults. */
  function NewApplication(loans: seq<Loan>, settings: seq<Setting>, u: nat, now: int): (l: Loan)
    ensures l.userId == u && l.status == FeePending && l.feeAmount == ProcessingFee(settings)
    ensures forall i :: 0 <= i < |loans| ==> loans[i].id != l.id
  {
    Loan(MaxId(loans, LoanKey) + 1, u, FeePending, now, ProcessingFee(settings), None, None, None, None,
         0.0, Some(0.0), Some(0.0), None, [])
  }

  /** initApplication as a function of the tables: the answer and the loans table afterwards. */
  function Init(loans: seq<Loan>, deposits: seq<Deposit>, settings: seq<Setting>, u: nat, now: int): (out: (Result<Loan>, seq<Loan>))
    ensures HasOpenLoan(loans, u) ==> out.0 == Err(ActiveApplicationExists)
    ensures !HasOpenLoan(loans, u) && Savings(deposits, u) < MinSavings(settings)
            ==> out.0 == Err(InsufficientSavings(MinSavings(settings)))
    ensures out.0.Ok? <==> !HasOpenLoan(loans, u) && Savings(deposits, u) >= MinSavings(settings)
    ensures out.0.Err? ==> out.1 == loans
    ensures out.0.Ok? ==> out.1 == loans + [out.0.value] && out.0.value == NewApplication(loans, settings, u, now)
  {
    if FirstWhere(loans, OpenLoanOf(u)).Some? then (Err(ActiveApplicationExists), loans)
    else
      var e := GetMemberLoanStatus(loans, deposits, settings, u).eligibility;
      if !e.eligible then (Err(InsufficientSavings(e.minSavings)), loans)
      else (Ok(NewApplication(loans, settings, u, now)), loans + [NewApplication(loans, settings, u, now)])
  }

  /** `initApplication(userId)`. */
  method InitApplication(db: Database, u: nat, now: int) returns (r: Result<Loan>)
    modifies db`loans
    ensures (r, db.loans) == Init(old(db.loans), db.deposits, db.settings, u, now)
  {
    if FirstWhere(db.loans, OpenLoanOf(u)).Some? {
      return Err(ActiveApplicationExists);
    }
    var status := GetMemberLoanStatus(db.loans, db.deposits, db.settings, u);
    if !status.eligibility.eligible {
      return Err(InsufficientSavings(status.eligibility.minSavings));
    }
    var loan := NewApplication(db.loans, db.settings, u, now);
    db.loans := db.loans + [loan];
    return Ok(loan);
  }

  /** A member gets one open application at a time: right after a successful application a second
      one fails and creates nothing, and the new application is the member's latest loan. */
  lemma InitOnce(loans: seq<Loan>, deposits: seq<Deposit>, settings: seq<Setting>, u: nat, now: int, later: int)
    ensures var (r, loans') := Init(loans, deposits, settings, u, now);
      r.Ok? ==> && Init(loans', deposits, settings, u, later) == (Err(ActiveApplicationExists), loans')
                && GetMemberLoanStatus(loans', deposits, settings, u).LatestLoan?
                && GetMemberLoanStatus(loans', deposits, settings, u).loan == r.value
  {
    var (r, loans') := Init(loans, deposits, settings, u, now);
    if r.Ok? {
      assert loans'[|loans|] == r.value;
      assert HasOpenLoan(loans', u);
    }
  }

  /** With no settings stored the minimum is 5000 and the fee is 500. */
  lemma DefaultThresholds(settings: seq<Setting>)
    requires forall i :: 0 <= i < |settings| ==> settings[i].key != "min_savings_for_loan" && settings[i].key != "loan_processing_fee"
    ensures MinSavings(settings) == 5000.0 && ProcessingFee(settings) == 500.0
  {
  }

  // ---------------------------------------------------------------------------
  // submitApplicationDetails
  // ---------------------------------------------------------------------------

  /** `parseInt` of a number written in plain decimal notation: the integer part, truncated toward zero. */
  function Trunc(x: real): (n: int)
    ensures x >= 0.0 ==> n as real <= x < n as real + 1.0
    ensures x < 0.0 ==> n as real - 1.0 < x <= n as real
  {
    if x >= 0.0 then x.Floor else -((-x).Floor)
  }

  /** Every COMPLETED deposits row of the member, of any type. */
  function CompletedOf(u: nat): Deposit -> bool { (d: Deposit) => d.userId == u && d.status == "COMPLETED" }

  /** `loan_multiplier`, 3 when missing, zero or not a number. */
  function Multiplier(settings: seq<Setting>): real {
    NumberOr(GetSetting(settings, "loan_multiplier"), 3.0)
  }

  /** The largest loan a member may ask for: all completed deposit rows times the multiplier. */
  function MaxLimit(deposits: seq<Deposit>, settings: seq<Setting>, u: nat): real {
    SumWhere(deposits, CompletedOf(u), Amount) * Multiplier(settings)
  }

  function WithDetails(amount: real, purpose: Option<string>, weeks: Option<int>): Loan -> Loan {
    (l: Loan) => l.(amountRequested := Some(amount), purpose := purpose, repaymentWeeks := weeks, status := PendingGuarantors)
  }

  /** Does `amount` pass the limit check? `parseInt(amount) > maxLimit` refuses. */
  predicate WithinLimit(deposits: seq<Deposit>, settings: seq<Setting>, u: nat, amount: real) {
    Trunc(amount) as real <= MaxLimit(deposits, settings, u)
  }

  /** submitApplicationDetails as a function of the tables. */
  function Submit(loans: seq<Loan>, deposits: seq<Deposit>, settings: seq<Setting>, u: nat, loanId: nat,
                  amount: real, purpose: Option<string>, weeks: Option<int>): (out: (Outcome, seq<Loan>))
    ensures (forall i :: 0 <= i < |loans| ==> loans[i].id != loanId) ==> out.0 == Fail(LoanNotFound)
    ensures out.0 == Done <==>
      (FirstWhere(loans, LoanIdIs(loanId)).Some? && loans[FirstWhere(loans, LoanIdIs(loanId)).value].userId == u
       && WithinLimit(deposits, settings, u, amount))
    ensures out.0.Fail? ==> out.1 == loans
    ensures out.0 == Done ==> out.1 == UpdateWhere(loans, LoanIdIs(loanId), WithDetails(amount, purpose, weeks))
  {
    match FirstWhere(loans, LoanIdIs(loanId))
    case None => (Fail(LoanNotFound), loans)
    case Some(i) =>
      if loans[i].userId != u then (Fail(Unauthorized), loans)
      else if !WithinLimit(deposits, settings, u, amount) then
        (Fail(LimitExceeded(Multiplier(settings), MaxLimit(deposits, settings, u))), loans)
      else (Done, UpdateWhere(loans, LoanIdIs(loanId), WithDetails(amount, purpose, weeks)))
  }

  /** `submitApplicationDetails(userId, data)`. */
  method SubmitApplicationDetails(db: Database, u: nat, loanId: nat, amount: real, purpose: Option<string>, weeks: Option<int>)
    returns (r: Outcome)
    modifies db`loans
    ensures (r, db.loans) == Submit(old(db.loans), db.deposits, db.settings, u, loanId, amount, purpose, weeks)
  {
    var found := FirstWhere(db.loans, LoanIdIs(loanId));
    if found.None? {
      return Fail(LoanNotFound);
    }
    if db.loans[found.value].userId != u {
      return Fail(Unauthorized);
    }
    if !WithinLimit(db.deposits, db.settings, u, amount) {
      return Fail(LimitExceeded(Multiplier(db.settings), MaxLimit(db.deposits, db.settings, u)));
    }
    db.loans := UpdateWhere(db.loans, LoanIdIs(loanId), WithDetails(amount, purpose, weeks));
    return Done;
  }

  /** Asking for exactly the limit is allowed; since only the integer part is compared, an amount
      less than one unit above a whole-number limit is allowed too (for amounts in plain decimal
      notation). */
  lemma SubmitAtTheLimit(loans: seq<Loan>, deposits: seq<Deposit>, settings: seq<Setting>, u: nat, i: nat,
                         purpose: Option<string>, weeks: Option<int>, extra: real)
    requires i < |loans| && loans[i].userId == u && forall j :: 0 <= j < i ==> loans[j].id != loans[i].id
    requires MaxLimit(deposits, settings, u) >= 0.0 && 0.0 <= extra < 1.0
    requires MaxLimit(deposits, settings, u) == MaxLimit(deposits, settings, u).Floor as real
    ensures Submit(loans, deposits, settings, u, loans[i].id, MaxLimit(deposits, settings, u), purpose, weeks).0 == Done
    ensures Submit(loans, deposits, settings, u, loans[i].id, MaxLimit(deposits, settings, u) + extra, purpose, weeks).0 == Done
  {
    var m := MaxLimit(deposits, settings, u);
    assert FirstWhere(loans, LoanIdIs(loans[i].id)) == Some(i);
    assert Trunc(m + extra) == m.Floor;
  }

  /** Someone else's application is refused and left as it was. */
  lemma SubmitForeignLoan(loans: seq<Loan>, deposits: seq<Deposit>, settings: seq<Setting>, u: nat, i: nat,
                          amount: real, purpose: Option<string>, weeks: Option<int>)
    requires i < |loans| && loans[i].userId != u && forall j :: 0 <= j < i ==> loans[j].id != loans[i].id
    ensures Submit(loans, deposits, settings, u, loans[i].id, amount, purpose, weeks) == (Fail(Unauthorized), loans)
  {
    assert FirstWhere(loans, LoanIdIs(loans[i].id)) == Some(i);
  }

  // ---------------------------------------------------------------------------
  // Guarantors and the guarantor_ids cache
  // ---------------------------------------------------------------------------

  function OnLoan(loanId: nat, acceptedOnly: bool): GuarantorRow -> bool {
    (g: GuarantorRow) => g.loanId == loanId && (acceptedOnly ==> g.status == "ACCEPTED")
  }

  /** Is there a request of guarantor `x` on the loan (an accepted one, when `acceptedOnly`)? */
  predicate RequestedOn(gs: seq<GuarantorRow>, x: nat, loanId: nat, acceptedOnly: bool) {
    exists i :: 0 <= i < |gs| && gs[i].guarantorId == x && gs[i].loanId == loanId && (acceptedOnly ==> gs[i].status == "ACCEPTED")
  }

  /** `ARRAY(SELECT guarantor_id FROM loan_guarantors WHERE loan_application_id = $1 [AND status = 'ACCEPTED'])`. */
  function GuarantorIds(gs: seq<GuarantorRow>, loanId: nat, acceptedOnly: bool): (ids: seq<nat>)
    ensures |ids| == CountWhere(gs, OnLoan(loanId, acceptedOnly))
    ensures forall x | x in ids :: RequestedOn(gs, x, loanId, acceptedOnly)
    ensures forall i :: 0 <= i < |gs| && gs[i].loanId == loanId && (acceptedOnly ==> gs[i].status == "ACCEPTED")
                        ==> gs[i].guarantorId in ids
  {
    var f := Filter(gs, OnLoan(loanId, acceptedOnly));
    var ids := seq(|f|, k requires 0 <= k < |f| => f[k].guarantorId);
    assert forall i :: 0 <= i < |gs| && OnLoan(loanId, acceptedOnly)(gs[i]) ==> gs[i] in f;
    forall x | x in ids
      ensures exists i :: 0 <= i < |gs| && gs[i].guarantorId == x && OnLoan(loanId, acceptedOnly)(gs[i])
    {
      var k :| 0 <= k < |f| && ids[k] == x;
      assert f[k] in gs && OnLoan(loanId, acceptedOnly)(f[k]);
      var i :| 0 <= i < |gs| && gs[i] == f[k];
    }
    assert forall i :: 0 <= i < |gs| && OnLoan(loanId, acceptedOnly)(gs[i]) ==> gs[i].guarantorId in ids by {
      forall i | 0 <= i < |gs| && OnLoan(loanId, acceptedOnly)(gs[i]) ensures gs[i].guarantorId in ids {
        var k :| 0 <= k < |f| && f[k] == gs[i];
        assert ids[k] == gs[i].guarantorId;
      }
    }
    ids
  }

  function WithGuarantorIds(ids: seq<nat>): Loan -> Loan { (l: Loan) => l.(guarantorIds := ids) }

  /** The request row addGuarantor inserts; its status is the table default. */
  function NewGuarantorRow(gs: seq<GuarantorRow>, loanId: nat, guarantorId: nat): (g: GuarantorRow)
    ensures g.loanId == loanId && g.guarantorId == guarantorId && g.status == "PENDING"
    ensures forall i :: 0 <= i < |gs| ==> gs[i].id != g.id
  {
    GuarantorRow(MaxId(gs, GuarantorKey) + 1, loanId, guarantorId, "PENDING", None)
  }

  /** The two tables after addGuarantor: the request row, then the cache rebuilt from every request on the loan. */
  function AfterAddGuarantor(loans: seq<Loan>, gs: seq<GuarantorRow>, loanId: nat, guarantorId: nat): (seq<Loan>, seq<GuarantorRow>) {
    var gs' := gs + [NewGuarantorRow(gs, loanId, guarantorId)];
    (UpdateWhere(loans, LoanIdIs(loanId), WithGuarantorIds(GuarantorIds(gs', loanId, false))), gs')
  }

  /** `addGuarantor(userId, loanId, guarantorId)`. The requester's name is read for the notification
      only after both writes, so an unknown requester fails with the writes in place. */
  method AddGuarantor(db: Database, u: nat, loanId: nat, guarantorId: nat) returns (r: Outcome)
    modifies db`loans, db`guarantors
    ensures (db.loans, db.guarantors) == AfterAddGuarantor(old(db.loans), old(db.guarantors), loanId, guarantorId)
    ensures r == if FirstWhere(db.users, UserIdIs(u)).Some? then Done else Fail(UserNotFound)
  {
    var requester := FirstWhere(db.users, UserIdIs(u));
    db.guarantors := db.guarantors + [NewGuarantorRow(db.guarantors, loanId, guarantorId)];
    db.loans := UpdateWhere(db.loans, LoanIdIs(loanId), WithGuarantorIds(GuarantorIds(db.guarantors, loanId, false)));
    if requester.None? {
      return Fail(UserNotFound);
    }
    return Done;
  }

  /** After addGuarantor the loan's cache lists every guarantor requested on it, whatever their
      answer, the new one included, and nothing else; other loans keep their cache. */
  lemma AddGuarantorCache(loans: seq<Loan>, gs: seq<GuarantorRow>, loanId: nat, guarantorId: nat)
    ensures var (loans', gs') := AfterAddGuarantor(loans, gs, loanId, guarantorId);
      && |loans'| == |loans|
      && (forall k :: 0 <= k < |loans| && loans[k].id == loanId ==>
            && guarantorId in loans'[k].guarantorIds
            && (forall i :: 0 <= i < |gs'| && gs'[i].loanId == loanId ==> gs'[i].guarantorId in loans'[k].guarantorIds)
            && (forall x | x in loans'[k].guarantorIds :: RequestedOn(gs', x, loanId, false)))
      && (forall k :: 0 <= k < |loans| && loans[k].id != loanId ==> loans'[k] == loans[k])
  {
    var (loans', gs') := AfterAddGuarantor(loans, gs, loanId, guarantorId);
    assert gs'[|gs|].loanId == loanId && gs'[|gs|].guarantorId == guarantorId;
  }

  function RequestFor(requestId: nat, u: nat): GuarantorRow -> bool {
    (g: GuarantorRow) => g.id == requestId && g.guarantorId == u
  }
  function GuarantorIdIs(requestId: nat): GuarantorRow -> bool { (g: GuarantorRow) => g.id == requestId }
  function WithDecision(decision: string): GuarantorRow -> GuarantorRow { (g: GuarantorRow) => g.(status := decision) }

  /** respondToGuarantorRequest as a function of the tables. */
  function Respond(loans: seq<Loan>, gs: seq<GuarantorRow>, u: nat, requestId: nat, decision: string)
    : (out: (Outcome, seq<Loan>, seq<GuarantorRow>))
    ensures out.0.Fail? <==> forall i :: 0 <= i < |gs| ==> !(gs[i].id == requestId && gs[i].guarantorId == u)
    ensures out.0.Fail? ==> out == (Fail(UnauthorizedRequest), loans, gs)
    ensures out.0 == Done ==> out.2 == UpdateWhere(gs, GuarantorIdIs(requestId), WithDecision(decision))
    ensures out.0 == Done ==> |out.1| == |loans|
    ensures out.0 == Done ==> forall k :: 0 <= k < |loans| ==> out.1[k] == loans[k].(guarantorIds := out.1[k].guarantorIds)
  {
    match FirstWhere(gs, RequestFor(requestId, u))
    case None => (Fail(UnauthorizedRequest), loans, gs)
    case Some(i) =>
      var gs' := UpdateWhere(gs, GuarantorIdIs(requestId), WithDecision(decision));
      var loanId := gs[i].loanId;
      (Done, UpdateWhere(loans, LoanIdIs(loanId), WithGuarantorIds(GuarantorIds(gs', loanId, true))), gs')
  }

  /** `respondToGuarantorRequest(userId, requestId, decision)`. */
  method RespondToGuarantorRequest(db: Database, u: nat, requestId: nat, decision: string) returns (r: Outcome)
    modifies db`loans, db`guarantors
    ensures (r, db.loans, db.guarantors) == Respond(old(db.loans), old(db.guarantors), u, requestId, decision)
  {
    var check := FirstWhere(db.guarantors, RequestFor(requestId, u));
    if check.None? {
      return Fail(UnauthorizedRequest);
    }
    var loanId := db.guarantors[check.value].loanId;
    db.guarantors := UpdateWhere(db.guarantors, GuarantorIdIs(requestId), WithDecision(decision));
    db.loans := UpdateWhere(db.loans, LoanIdIs(loanId), WithGuarantorIds(GuarantorIds(db.guarantors, loanId, true)));
    return Done;
  }

  /** After an answer the cache of the request's loan lists exactly the ACCEPTED guarantors:
      the responder is in it after accepting, and after declining unless another of their
      requests on the loan stands accepted. */
  lemma RespondCache(loans: seq<Loan>, gs: seq<GuarantorRow>, u: nat, r: nat, decision: string)
    requires r < |gs| && gs[r].guarantorId == u && forall j :: 0 <= j < |gs| && j != r ==> gs[j].id != gs[r].id
    ensures var (o, loans', gs') := Respond(loans, gs, u, gs[r].id, decision);
      && o == Done
      && (forall k :: 0 <= k < |loans| && loans[k].id == gs[r].loanId ==>
            && (forall i :: 0 <= i < |gs'| && gs'[i].loanId == gs[r].loanId && gs'[i].status == "ACCEPTED"
                  ==> gs'[i].guarantorId in loans'[k].guarantorIds)
            && (forall x | x in loans'[k].guarantorIds :: RequestedOn(gs', x, gs[r].loanId, true))
            && (decision == "ACCEPTED" ==> u in loans'[k].guarantorIds)
            && (decision != "ACCEPTED"
                && (forall j :: 0 <= j < |gs| && j != r && gs[j].loanId == gs[r].loanId && gs[j].guarantorId == u ==> gs[j].status != "ACCEPTED")
                ==> u !in loans'[k].guarantorIds))
      && |loans'| == |loans|
      && (forall k :: 0 <= k < |loans| && loans[k].id != gs[r].loanId ==> loans'[k] == loans[k])
      && (forall k :: 0 <= k < |loans| ==> loans'[k] == loans[k].(guarantorIds := loans'[k].guarantorIds))
  {
    var i0 := FirstWhere(gs, RequestFor(gs[r].id, u)).value;
    assert i0 == r;
    var (o, loans', gs') := Respond(loans, gs, u, gs[r].id, decision);
    assert gs'[r].status == decision && gs'[r].guarantorId == u && gs'[r].loanId == gs[r].loanId;
  }

  // ---------------------------------------------------------------------------
  // Committee steps
  // ---------------------------------------------------------------------------

  /** The status update shared by verifyApplication, tableApplication, openVoting and finalizeVote. */
  function SetStatus(loans: seq<Loan>, loanId: nat, s: LoanStatus): (r: seq<Loan>)
    ensures |r| == |loans|
    ensures forall k :: 0 <= k < |loans| ==> r[k] == if loans[k].id == loanId then loans[k].(status := s) else loans[k]
  {
    UpdateWhere(loans, LoanIdIs(loanId), WithStatus(s))
  }

  /** `verifyApplication(loanId)`. */
  method VerifyApplication(db: Database, loanId: nat)
    modifies db`loans
    ensures db.loans == SetStatus(old(db.loans), loanId, Verified)
  {
    db.loans := SetStatus(db.loans, loanId, Verified);
  }

  /** `tableApplication(loanId)`. */
  method TableApplication(db: Database, loanId: nat)
    modifies db`loans
    ensures db.loans == SetStatus(old(db.loans), loanId, Tabled)
  {
    db.loans := SetStatus(db.loans, loanId, Tabled);
  }

  /** `openVoting(loanId)`. */
  method OpenVoting(db: Database, loanId: nat)
    modifies db`loans
    ensures db.loans == SetStatus(old(db.loans), loanId, Voting)
  {
    db.loans := SetStatus(db.loans, loanId, Voting);
  }

  /** The committee's decision: the exact string "APPROVED" approves, anything else rejects. */
  function FinalStatus(decision: string): (s: LoanStatus)
    ensures s == Approved <==> decision == "APPROVED"
    ensures s == Approved || s == Rejected
  {
    if decision == "APPROVED" then Approved else Rejected
  }

  /** `finalizeVote(loanId, decision)`. */
  method FinalizeVote(db: Database, loanId: nat, decision: string)
    modifies db`loans
    ensures db.loans == SetStatus(old(db.loans), loanId, FinalStatus(decision))
  {
    db.loans := SetStatus(db.loans, loanId, FinalStatus(decision));
  }

  /** The committee steps check nothing: each lands in its status from any status, even from ACTIVE. */
  lemma StepsAreUnconditional(loans: seq<Loan>, k: nat, decision: string)
    requires k < |loans|
    ensures SetStatus(loans, loans[k].id, Verified)[k].status == Verified
    ensures SetStatus(loans, loans[k].id, Tabled)[k].status == Tabled
    ensures SetStatus(loans, loans[k].id, Voting)[k].status == Voting
    ensures SetStatus(loans, loans[k].id, FinalStatus(decision))[k].status == FinalStatus(decision)
  {
  }

  function VoteKey(loanId: nat, u: nat): Vote -> bool { (v: Vote) => v.loanId == loanId && v.userId == u }

  /** castVote's `INSERT .. ON CONFLICT DO NOTHING` on the (loan, member) key. */
  function CastVoteTable(votes: seq<Vote>, u: nat, loanId: nat, decision: string): (r: seq<Vote>)
    ensures (exists i :: 0 <= i < |votes| && votes[i].loanId == loanId && votes[i].userId == u) ==> r == votes
    ensures (forall i :: 0 <= i < |votes| ==> !(votes[i].loanId == loanId && votes[i].userId == u))
            ==> r == votes + [Vote(loanId, u, decision)]
  {
    if FirstWhere(votes, VoteKey(loanId, u)).Some? then votes else votes + [Vote(loanId, u, decision)]
  }

  /** `castVote(userId, loanId, decision)`. */
  method CastVote(db: Database, u: nat, loanId: nat, decision: string)
    modifies db`votes
    ensures db.votes == CastVoteTable(old(db.votes), u, loanId, decision)
  {
    db.votes := CastVoteTable(db.votes, u, loanId, decision);
  }

  /** A member's first vote on a loan stands: a second vote, whatever it says, changes nothing. */
  lemma FirstVoteStands(votes: seq<Vote>, u: nat, loanId: nat, first: string, second: string)
    ensures var v1 := CastVoteTable(votes, u, loanId, first);
      && CastVoteTable(v1, u, loanId, second) == v1
      && exists i :: 0 <= i < |v1| && v1[i].loanId == loanId && v1[i].userId == u
  {
    var v1 := CastVoteTable(votes, u, loanId, first);
    if FirstWhere(votes, VoteKey(loanId, u)).None? {
      assert v1[|votes|] == Vote(loanId, u, first);
    }
  }

  // ---------------------------------------------------------------------------
  // disburseLoan
  // ---------------------------------------------------------------------------

  /** `parseFloat(loan_interest_rate || 10)`: only a missing or empty setting gives 10. */
  function InterestRate(settings: seq<Setting>): Option<real> {
    NumberOrIfEmpty(GetSetting(settings, "loan_interest_rate"), 10.0)
  }

  function Activate(interest: real, totalDue: real, now: int): Loan -> Loan {
    (l: Loan) => l.(status := Active, interestAmount := Some(interest), totalDue := Some(totalDue), disbursedAt := Some(now))
  }

  function DisbursementRef(loanId: nat): string { "DISB-" + NatToString(loanId) }

  function DisbursementTx(transactions: seq<Transaction>, l: Loan, principal: real, now: int): Transaction {
    Transaction(MaxId(transactions, TransactionKey) + 1, l.userId, Some("LOAN_DISBURSEMENT"), principal, None,
                Some(DisbursementRef(l.id)), None, None, Some("Disbursement (Flat Rate)"), now)
  }

  /** The flat-rate interest on a principal at a percentage rate. */
  function FlatInterest(principal: real, rate: real): real { principal * (rate / 100.0) }

  /** The two tables after disbursing the approved loan `l` at `rate`. */
  function Disbursed(loans: seq<Loan>, transactions: seq<Transaction>, l: Loan, principal: real, rate: real, now: int)
    : (seq<Loan>, seq<Transaction>)
  {
    var interest := FlatInterest(principal, rate);
    (UpdateWhere(loans, LoanIdIs(l.id), Activate(interest, principal + interest, now)),
     transactions + [DisbursementTx(transactions, l, principal, now)])
  }

  /** Can the loan found first under this id be disbursed? */
  predicate Disbursable(loans: seq<Loan>, settings: seq<Setting>, loanId: nat) {
    && FirstWhere(loans, LoanIdIs(loanId)).Some?
    && loans[FirstWhere(loans, LoanIdIs(loanId)).value].status == Approved
    && loans[FirstWhere(loans, LoanIdIs(loanId)).value].amountRequested.Some?
    && InterestRate(settings).Some?
  }

  /** disburseLoan as a function of the tables. */
  function Disburse(loans: seq<Loan>, transactions: seq<Transaction>, settings: seq<Setting>, loanId: nat, now: int)
    : (out: (Outcome, seq<Loan>, seq<Transaction>))
    ensures out.0.Fail? ==> out.1 == loans && out.2 == transactions
    ensures (forall i :: 0 <= i < |loans| ==> loans[i].id != loanId) ==> out.0 == Fail(InvalidLoanStatus)
    ensures FirstWhere(loans, LoanIdIs(loanId)).Some? && loans[FirstWhere(loans, LoanIdIs(loanId)).value].status != Approved
            ==> out.0 == Fail(InvalidLoanStatus)
    ensures out.0 == Done <==> Disbursable(loans, settings, loanId)
    ensures out.0 == Done ==>
      var l := loans[FirstWhere(loans, LoanIdIs(loanId)).value];
      (out.1, out.2) == Disbursed(loans, transactions, l, l.amountRequested.value, InterestRate(settings).value, now)
  {
    match FirstWhere(loans, LoanIdIs(loanId))
    case None => (Fail(InvalidLoanStatus), loans, transactions)
    case Some(i) =>
      var l := loans[i];
      if l.status != Approved then (Fail(InvalidLoanStatus), loans, transactions)
      else if l.amountRequested.None? || InterestRate(settings).None? then (Fail(NotANumber), loans, transactions)
      else
        var (loans', transactions') := Disbursed(loans, transactions, l, l.amountRequested.value, InterestRate(settings).value, now);
        (Done, loans', transactions')
  }

  /** `disburseLoan(treasurerId, loanId)`: the loan update and the disbursement row, all or nothing.
      The treasurer's id is not used. */
  method DisburseLoan(db: Database, loanId: nat, now: int) returns (r: Outcome)
    modifies db`loans, db`transactions
    ensures (r, db.loans, db.transactions) == Disburse(old(db.loans), old(db.transactions), db.settings, loanId, now)
  {
    var check := FirstWhere(db.loans, LoanIdIs(loanId));
    if check.None? || db.loans[check.value].status != Approved {
      return Fail(InvalidLoanStatus);
    }
    var loan := db.loans[check.value];
    var rate := InterestRate(db.settings);
    if loan.amountRequested.None? || rate.None? {
      return Fail(NotANumber);
    }
    db.loans, db.transactions := Disbursed(db.loans, db.transactions, loan, loan.amountRequested.value, rate.value, now).0,
                                 Disbursed(db.loans, db.transactions, loan, loan.amountRequested.value, rate.value, now).1;
    return Done;
  }

  /** A disbursed loan is ACTIVE with the flat-rate figures, and a second disbursement of it fails
      and writes no second disbursement row. */
  lemma DisburseOnce(loans: seq<Loan>, transactions: seq<Transaction>, settings: seq<Setting>, k: nat, now: int, later: int)
    requires k < |loans| && forall j :: 0 <= j < |loans| && j != k ==> loans[j].id != loans[k].id
    ensures var (o, loans', txs') := Disburse(loans, transactions, settings, loans[k].id, now);
      o == Done ==>
        && loans'[k].status == Active
        && loans'[k].totalDue == Some(loans[k].amountRequested.value + loans'[k].interestAmount.value)
        && loans'[k].interestAmount == Some(FlatInterest(loans[k].amountRequested.value, InterestRate(settings).value))
        && txs'[|transactions|].ref == Some(DisbursementRef(loans[k].id))
        && txs'[|transactions|].amount == loans[k].amountRequested.value
        && Disburse(loans', txs', settings, loans[k].id, later) == (Fail(InvalidLoanStatus), loans', txs')
  {
    var (o, loans', txs') := Disburse(loans, transactions, settings, loans[k].id, now);
    assert FirstWhere(loans, LoanIdIs(loans[k].id)) == Some(k);
    if o == Done {
      assert FirstWhere(loans', LoanIdIs(loans[k].id)) == Some(k);
    }
  }

  /** The rate is 10% when the setting is missing or empty; any other stored value is parsed as
      it is, so a stored "0" lends at 0% and a non-numeric one gives NaN. */
  lemma RateDefaults(settings: seq<Setting>)
    ensures (forall i :: 0 <= i < |settings| ==> settings[i].key != "loan_interest_rate") ==> InterestRate(settings) == Some(10.0)
    ensures !Truthy(GetSetting(settings, "loan_interest_rate")) ==> InterestRate(settings) == Some(10.0)
    ensures Truthy(GetSetting(settings, "loan_interest_rate"))
            ==> InterestRate(settings) == ParseFloat(GetSetting(settings, "loan_interest_rate").value)
    ensures GetSetting(settings, "loan_interest_rate") == Some("0") ==> InterestRate(settings) == Some(0.0)
  {
    StoredZero(10.0);
  }

  /** Disbursement references differ between loans. */
  lemma DisbursementRefsDiffer(a: nat, b: nat)
    requires a != b
    ensures DisbursementRef(a) != DisbursementRef(b)
  {
    if DisbursementRef(a) == DisbursementRef(b) {
      assert DisbursementRef(a)[5..] == NatToString(a);
      assert DisbursementRef(b)[5..] == NatToString(b);
      NatToStringInjective(a, b);
    }
  }

  // ---------------------------------------------------------------------------
  // Work queues and the role table
  // ---------------------------------------------------------------------------

  function InOfficerQueue(l: Loan): bool { l.status == Submitted || l.status == PendingGuarantors }
  function InSecretaryQueue(l: Loan): bool { l.status == Verified }
  function InTreasuryQueue(l: Loan): bool { l.status == Approved }

  function Applicant(l: Loan): nat { l.userId }

  /** `getOfficerQueue()`, `getSecretaryQueue()`, `getTreasuryQueue()`: the loans in those statuses
      joined with their applicant's name. */
  function OfficerQueue(loans: seq<Loan>, users: seq<User>): (r: seq<Named<Loan>>)
    ensures forall q | q in r ::
      && q.row in loans
      && (q.row.status == Submitted || q.row.status == PendingGuarantors)
      && UserNamed(users, q.row.userId, q.fullName)
  {
    JoinUsers(loans, users, Applicant, InOfficerQueue)
  }

  function SecretaryQueue(loans: seq<Loan>, users: seq<User>): (r: seq<Named<Loan>>)
    ensures forall q | q in r :: q.row in loans && q.row.status == Verified && UserNamed(users, q.row.userId, q.fullName)
  {
    JoinUsers(loans, users, Applicant, InSecretaryQueue)
  }

  function TreasuryQueue(loans: seq<Loan>, users: seq<User>): (r: seq<Named<Loan>>)
    ensures forall q | q in r :: q.row in loans && q.row.status == Approved && UserNamed(users, q.row.userId, q.fullName)
  {
    JoinUsers(loans, users, Applicant, InTreasuryQueue)
  }

  /** The queues miss nothing: every loan in a queue's statuses whose applicant has a user row is
      listed in that queue. */
  lemma QueuesComplete(loans: seq<Loan>, users: seq<User>, k: nat)
    requires k < |loans| && exists j :: 0 <= j < |users| && users[j].id == loans[k].userId
    ensures loans[k].status in {Submitted, PendingGuarantors} ==> exists q :: q in OfficerQueue(loans, users) && q.row == loans[k]
    ensures loans[k].status == Verified ==> exists q :: q in SecretaryQueue(loans, users) && q.row == loans[k]
    ensures loans[k].status == Approved ==> exists q :: q in TreasuryQueue(loans, users) && q.row == loans[k]
  {
    if InOfficerQueue(loans[k]) {
      JoinUsersComplete(loans, users, Applicant, InOfficerQueue, k);
    }
    if InSecretaryQueue(loans[k]) {
      JoinUsersComplete(loans, users, Applicant, InSecretaryQueue, k);
    }
    if InTreasuryQueue(loans[k]) {
      JoinUsersComplete(loans, users, Applicant, InTreasuryQueue, k);
    }
  }

  /** Each status sits in at most one queue, so no loan waits on two desks at once. */
  lemma QueuesAreDisjoint(loans: seq<Loan>, users: seq<User>, q: Named<Loan>)
    ensures !(q in OfficerQueue(loans, users) && q in SecretaryQueue(loans, users))
    ensures !(q in OfficerQueue(loans, users) && q in TreasuryQueue(loans, users))
    ensures !(q in SecretaryQueue(loans, users) && q in TreasuryQueue(loans, users))
  {
  }

  /** The role-guarded loan routes. */
  datatype LoanRoute =
    | OfficerApplications | OfficerVerify
    | Agenda | Table | AnnounceMeeting | LiveTally | Finalize
    | ChairAgenda | ChairOpenVoting
    | TreasuryQueueRoute | TreasuryStats | TreasuryDisburse

  /** The one role each route requires. */
  function RouteRole(r: LoanRoute): string {
    match r
    case OfficerApplications | OfficerVerify => "LOAN_OFFICER"
    case Agenda | Table | AnnounceMeeting | LiveTally | Finalize => "SECRETARY"
    case ChairAgenda | ChairOpenVoting => "CHAIRPERSON"
    case TreasuryQueueRoute | TreasuryStats | TreasuryDisburse => "TREASURER"
  }

  function RouteGate(r: LoanRoute, user: Claims): Response { RequireRole(RouteRole(r), user) }

  /** The four committee transitions are each open to one role only, and no role can take a loan
      through two consecutive committee steps on its own; an ADMIN is not let through. */
  lemma SeparationOfDuties(user: Claims)
    ensures RouteGate(OfficerVerify, user).Next? <==> user.role == "LOAN_OFFICER"
    ensures RouteGate(Table, user).Next? <==> user.role == "SECRETARY"
    ensures RouteGate(ChairOpenVoting, user).Next? <==> user.role == "CHAIRPERSON"
    ensures RouteGate(Finalize, user).Next? <==> user.role == "SECRETARY"
    ensures RouteGate(TreasuryDisburse, user).Next? <==> user.role == "TREASURER"
    ensures !(RouteGate(OfficerVerify, user).Next? && RouteGate(Table, user).Next?)
    ensures !(RouteGate(Table, user).Next? && RouteGate(ChairOpenVoting, user).Next?)
    ensures !(RouteGate(Finalize, user).Next? && RouteGate(TreasuryDisburse, user).Next?)
    ensures user.role == "ADMIN" ==> forall r: LoanRoute :: RouteGate(r, user).Reject?
  {
  }
}
