# SACCO backend service layer in Dafny

This project models the service layer of a savings-and-credit cooperative (SACCO) backend. It covers:

- the loan lifecycle (`FEE_PENDING` → `FEE_PAID` → `PENDING_GUARANTORS` → `VERIFIED` → `TABLED` → `VOTING` → `APPROVED`/`REJECTED` → `ACTIVE` → `COMPLETED`);
- the payment router, which credits savings (`DEP-`), debits a transfer (`TRF-`) and then applies the money to its purpose, together with its callers;
- the balance and withdrawal gate;
- fine interest staging;
- dividend declaration and allocation;
- the financial reports and the arithmetic the reports controller does on them;
- the smaller rule sets: settings, contribution categories, member profiles, fixed assets and expenses, registration and login, and the role checks in the authentication middleware.

The database is modelled as one `class Database` (module `Db`). It has one `seq` field per table, in creation order.

- A query is a pure function over those sequences. `COALESCE(SUM(..), 0) … WHERE …` becomes `Sums.SumWhere`, and an empty filter gives 0.
- `INSERT … ON CONFLICT DO NOTHING` becomes `Deposits.InsertIfAbsent`, or an insert-if-absent on the relevant key.
- `UPDATE … WHERE` becomes `Sums.UpdateWhere`.
- A service that writes is a `method` with field-level frames (`modifies db`loans`).
  - Its `ensures` ties the new tables to a pure function of the old ones (`Init`, `Route`, `Disburse`, `WithdrawCorrected`, …).
  - The properties are proved about that function.
  - A `BEGIN … COMMIT/ROLLBACK` block is all or nothing: the function returns either the new tables or an error together with the old tables.

Money is `real` and time is an `int` number of milliseconds. Row ids are `nat` and new ids are one more than the largest in the table. JavaScript's `x || d` on a string is `Text.OrElse`. The database driver returns NUMERIC columns as text, so `column || d` falls back only on NULL (a stored "0.00" is truthy). `parseFloat` is a decimal-prefix parser (`Settings.ParseFloat`), where `None` stands for NaN, and `parseInt` of a number written in plain decimal notation is `Loans.Trunc`.

## Model

| member | source | states |
|---|---|---|
| Loans.EligibilityOf | backend/src/features/loans/loans.service.js:18-33 | eligible exactly when the member's COMPLETED DEPOSIT savings reach `min_savings_for_loan`; both figures are reported |
| Loans.GetMemberLoanStatus | backend/src/features/loans/loans.service.js:8-38 | NO_APP exactly when the member has no loan; otherwise the member's most recently created loan; the eligibility block either way |
| Loans.DefaultThresholds | backend/src/features/loans/loans.service.js:19-48 | with neither setting stored, the minimum savings is 5000 and the processing fee is 500 |
| Loans.NewApplication | backend/src/features/loans/loans.service.js:50-53 | the new row is the member's, FEE_PENDING, with fee_amount = `loan_processing_fee` (default 500), and has a fresh id |
| Loans.Init | backend/src/features/loans/loans.service.js:40-55 | "Active application exists" if the member has a loan that is neither REJECTED nor COMPLETED; "Insufficient savings" below the minimum; success exactly when neither holds, appending exactly the new FEE_PENDING row; an error leaves the table unchanged |
| Loans.InitApplication | backend/src/features/loans/loans.service.js:40-55 | the answer and the loans table are those of `Init` on the old tables |
| Loans.InitOnce | backend/src/features/loans/loans.service.js:41-42 | right after a successful application a second one fails and adds nothing |
| Loans.Trunc | backend/src/features/loans/loans.service.js:73 | `parseInt` of an amount in plain decimal notation truncates toward zero, for both signs |
| Loans.Submit | backend/src/features/loans/loans.service.js:57-81 | "Loan not found" for an unknown id; Done exactly when the loan is the caller's and the integer part of the amount is at most all COMPLETED deposits × multiplier (default 3); on success sets amount, purpose and weeks and moves to PENDING_GUARANTORS; a failure changes nothing |
| Loans.SubmitApplicationDetails | backend/src/features/loans/loans.service.js:57-81 | the answer and the loans table are those of `Submit` on the old tables |
| Loans.SubmitAtTheLimit | backend/src/features/loans/loans.service.js:71-75 | an amount equal to the limit, or the limit plus a fraction below 1 written in plain decimal notation, is accepted |
| Loans.SubmitForeignLoan | backend/src/features/loans/loans.service.js:61-63 | someone else's application fails with "Unauthorized" and changes nothing |
| Loans.GuarantorIds | backend/src/features/loans/loans.service.js:89-104 | the cache array lists exactly the guarantors requested on the loan (only the ACCEPTED ones when so filtered), one entry per row |
| Loans.NewGuarantorRow | backend/src/features/loans/loans.service.js:88 | the request row is for that loan and guarantor, PENDING, with a fresh id |
| Loans.AddGuarantor | backend/src/features/loans/loans.service.js:85-92 | the loans and guarantors tables after the insert and the cache rebuild; the requester's name lookup fails for an unknown user |
| Loans.AddGuarantorCache | backend/src/features/loans/loans.service.js:88-89 | after addGuarantor the loan's `guarantor_ids` holds every guarantor requested on it, whatever their status, and the other loans are unchanged |
| Loans.Respond | backend/src/features/loans/loans.service.js:94-107 | fails with "Unauthorized request", changing nothing, exactly when no request with that id is addressed to the caller; otherwise records the decision, keeps the number of loans, and changes no loan field but `guarantor_ids` |
| Loans.RespondToGuarantorRequest | backend/src/features/loans/loans.service.js:94-107 | the answer and both tables are those of `Respond` on the old tables |
| Loans.RespondCache | backend/src/features/loans/loans.service.js:99-106 | after an answer the loan's `guarantor_ids` lists exactly the ACCEPTED guarantors on it; every other loan is unchanged, and `guarantor_ids` is the only field of that loan that changes |
| Loans.SetStatus | backend/src/features/loans/loans.service.js:112-136 | the rows with that id get the new status and every other row is unchanged |
| Loans.VerifyApplication | backend/src/features/loans/loans.service.js:111-113 | sets VERIFIED unconditionally |
| Loans.TableApplication | backend/src/features/loans/loans.service.js:115-120 | sets TABLED unconditionally |
| Loans.OpenVoting | backend/src/features/loans/loans.service.js:122-125 | sets VOTING unconditionally |
| Loans.FinalStatus | backend/src/features/loans/loans.service.js:135 | APPROVED exactly for the string "APPROVED", REJECTED for anything else |
| Loans.FinalizeVote | backend/src/features/loans/loans.service.js:134-138 | sets `FinalStatus(decision)` unconditionally |
| Loans.StepsAreUnconditional | backend/src/features/loans/loans.service.js:112-136 | each committee step reaches its status from any status |
| Loans.CastVoteTable | backend/src/features/loans/loans.service.js:127-132 | an existing (loan, member) vote leaves the table unchanged; otherwise exactly that vote is appended |
| Loans.CastVote | backend/src/features/loans/loans.service.js:127-132 | the votes table is `CastVoteTable` of the old one |
| Loans.FirstVoteStands | backend/src/features/loans/loans.service.js:128-131 | a second vote by the same member on the same loan leaves the first vote in force |
| Loans.Disburse | backend/src/features/loans/loans.service.js:140-174 | "Invalid loan status", changing nothing, for an unknown loan or one that is not APPROVED; on success the loan is ACTIVE with interest = principal × rate/100 and total_due = principal + interest, and one LOAN_DISBURSEMENT transaction of the principal with ref `DISB-<id>` is appended |
| Loans.DisburseLoan | backend/src/features/loans/loans.service.js:140-174 | the answer and both tables are those of `Disburse` on the old tables |
| Loans.DisburseOnce | backend/src/features/loans/loans.service.js:145-160 | a disbursed loan carries the flat-rate figures, and disbursing it again fails and changes nothing |
| Loans.RateDefaults | backend/src/features/loans/loans.service.js:152-153 | the rate is 10 when the setting is missing or empty; any other stored value is parsed as it is, so a stored "0" lends at 0% and a non-numeric value gives NaN |
| Loans.DisbursementRefsDiffer | backend/src/features/loans/loans.service.js:164 | different loans get different `DISB-` references |
| Loans.OfficerQueue | backend/src/features/loans/loans.service.js:177-180 | lists only SUBMITTED or PENDING_GUARANTORS loans, each with its applicant's name |
| Loans.SecretaryQueue | backend/src/features/loans/loans.service.js:182-185 | lists only VERIFIED loans, each with its applicant's name |
| Loans.TreasuryQueue | backend/src/features/loans/loans.service.js:187-190 | lists only APPROVED loans, each with its applicant's name |
| Loans.QueuesComplete | backend/src/features/loans/loans.service.js:177-190 | every loan in a queue's statuses whose applicant has a user row is in that queue |
| Loans.QueuesAreDisjoint | backend/src/features/loans/loans.service.js:177-190 | no loan is in two of the officer, secretary and treasury queues |
| Loans.SeparationOfDuties | backend/src/features/loans/loans.routes.js:22-36 | each committee route passes for exactly one role; consecutive steps need different roles; ADMIN passes none of them |
| Payments.SafeRef | backend/src/features/payments/payments.service.js:8 | the reference cut to its first 40 characters: the whole reference when it is shorter, otherwise exactly 40 characters |
| Payments.Spaced | backend/src/features/payments/payments.service.js:29 | every `_` becomes a space and every other character is kept |
| Payments.RepaymentStatus | backend/src/features/payments/payments.service.js:40-42 | COMPLETED exactly when newPaid ≥ (total_due, or amount_requested when total_due is NULL) − 5; otherwise ACTIVE |
| Payments.Route | backend/src/features/payments/payments.service.js:5-65 | a null reference fails; for DEPOSIT only the `DEP-` credit is inserted if absent; any other type inserts the `DEP-` credit and then the `TRF-` debit, each if absent, and applies the money to its purpose; the only errors are the null reference and a repeated refund reference |
| Payments.ProcessCompletedTransaction | backend/src/features/payments/payments.service.js:5-65 | step by step, the method reaches the tables `Route` gives, and fails exactly when `Route` does |
| Payments.RefsDiffer | backend/src/features/payments/payments.service.js:13-47 | the `DEP-`, `TRF-` and `RFD-` references of one payment never collide |
| Payments.SavingsPayment | backend/src/features/payments/payments.service.js:7-21 | a DEPOSIT payment adds exactly one COMPLETED DEPOSIT row of +amount under `DEP-<ref>`, touches no loan, and raises the member's savings by the amount |
| Payments.CreditTransferNets | backend/src/features/payments/payments.service.js:13-30 | the `DEP-` credit and the `TRF-` debit together leave every member's savings unchanged |
| Payments.PurposeKeepsSavings | backend/src/features/payments/payments.service.js:33-64 | applying money to a loan, a fee or a category never moves DEPOSIT-type savings (the refund branch aside) |
| Payments.TransferNetsToZero | backend/src/features/payments/payments.service.js:13-64 | routing a non-savings payment leaves every member's DEPOSIT-type savings unchanged |
| Payments.RouteAgainAddsNoRows | backend/src/features/payments/payments.service.js:5-65 | routing the same non-repayment payment again succeeds and adds no `DEP-`, `TRF-` or category row |
| Payments.SecondPass | backend/src/features/payments/payments.service.js:14-30 | once both references are taken, a second routing goes straight to the purpose step |
| Payments.RepaymentApplied | backend/src/features/payments/payments.service.js:33-44 | the member's oldest ACTIVE loan gets amount_repaid + amount and becomes COMPLETED exactly within 5 of its total; every other loan is unchanged |
| Payments.RepaymentRoute | backend/src/features/payments/payments.service.js:13-44 | the exact tables a repayment with an ACTIVE loan leaves |
| Payments.RepaymentReapplied | backend/src/features/payments/payments.service.js:44 | re-routing a repayment that left its loan ACTIVE adds the amount a second time, because the update is not guarded |
| Payments.RepaidRow | backend/src/features/payments/payments.service.js:44 | the update rewrites the selected row and no row before it |
| Payments.StillOldestActive | backend/src/features/payments/payments.service.js:34-37 | the oldest ACTIVE loan stays the oldest when only it and later rows change |
| Payments.RefundOnce | backend/src/features/payments/payments.service.js:45-47 | with no ACTIVE loan the amount is refunded under `RFD-<ref>` with the loans unchanged; a second routing fails on the taken reference |
| Payments.FeePayment | backend/src/features/payments/payments.service.js:50-55 | credits `DEP-<ref>` and debits `TRF-<ref>`, each only if absent; the member's most recent FEE_PENDING loan becomes FEE_PAID with the payment's reference and amount and keeps its other fields; every loan with another id is unchanged; without such a loan no loan changes |
| Payments.CommitRouted | backend/src/features/payments/payments.service.js:126-140 | commits the new transactions table with the routed tables exactly when routing succeeds; otherwise it rolls everything back (the same commit-or-rollback shape is used at lines 164-176 and 262-272) |
| Payments.Review | backend/src/features/payments/payments.service.js:155-177 | a decision other than COMPLETED or REJECTED fails; a missing transaction fails; REJECTED only sets the status; COMPLETED sets it and routes atomically, whatever the prior status; a failure changes nothing |
| Payments.ReviewDeposit | backend/src/features/payments/payments.service.js:155-177 | the answer and the tables are those of `Review` |
| Payments.Callback | backend/src/features/payments/payments.service.js:113-144 | an unknown checkout id changes nothing; ResultCode 0 confirms the row under the receipt and routes it atomically; any other code marks it FAILED with the description or "Failed" |
| Payments.HandleCallback | backend/src/features/payments/payments.service.js:113-144 | the tables after the call are those of `Callback`; a routing error is rolled back and swallowed |
| Payments.CallbackOutcomes | backend/src/features/payments/payments.service.js:122-143 | a declined payment is FAILED and moves no money; a confirmed DEPOSIT payment is COMPLETED under its receipt, and `DEP-<receipt>` is taken |
| Payments.Claim | backend/src/features/payments/payments.service.js:254-273 | an unknown reference fails; a COMPLETED row fails with "Already claimed"; otherwise the row is reassigned and COMPLETED and then routed, all or nothing |
| Payments.FinalType | backend/src/features/payments/payments.service.js:263 | `purpose || old type || 'DEPOSIT'` |
| Payments.ClaimMpesaManual | backend/src/features/payments/payments.service.js:254-273 | the answer and the tables are those of `Claim` |
| Payments.ClaimOnce | backend/src/features/payments/payments.service.js:258-266 | a claimed payment belongs to the claimant, is COMPLETED and has the final type; claiming it again, by anyone, fails with "Already claimed" |
| Payments.ClaimedRowRefused | backend/src/features/payments/payments.service.js:258-259 | a reference whose first row is COMPLETED cannot be claimed, and nothing changes |
| Payments.ClaimedRow | backend/src/features/payments/payments.service.js:262-266 | after the claim update the row is still the first row under its reference, now the claimant's and COMPLETED |
| Payments.AdminRecord | backend/src/features/payments/payments.service.js:219-237 | the COMPLETED row is appended and routed, all or nothing; a null reference fails |
| Payments.AdminRecordTransaction | backend/src/features/payments/payments.service.js:219-237 | the answer and the tables are those of `AdminRecord` |
| Payments.RecordManualDeposit | backend/src/features/payments/payments.service.js:147-153 | appends exactly one PENDING row, with the type defaulting to DEPOSIT |
| Payments.RecordStkRequest | backend/src/features/payments/payments.service.js:103-108 | appends exactly one PENDING row under `PENDING-<checkout id>` with both request ids, type `type || 'DEPOSIT'` and description "M-Pesa STK: " followed by the type, or "undefined" when the request has none |
| Payments.RequestTypeText | backend/src/features/payments/payments.service.js:107 | the `${type}` of the request body: the type itself, or "undefined" when the field is missing |
| Payments.GetPendingDeposits | backend/src/features/payments/payments.service.js:239-246 | every row listed is a PENDING transaction; every PENDING transaction whose payer exists is listed; the k-th row is the k-th such transaction in table order (oldest first), named after its payer |
| Payments.NonCompliantIds | backend/src/features/payments/payments.service.js:183-205 | exactly the active members who neither deposited the weekly minimum nor have a "Missed Weekly Deposit" fine this week |
| Payments.WithPenalties | backend/src/features/payments/payments.service.js:207-212 | the old fines are kept, and one penalty row follows for each member fined, in order: title "Missed Weekly Deposit", the penalty as amount and balance, PENDING, dated now, described as "Penalty for missing <min> deposit" |
| Payments.RunComplianceCheck | backend/src/features/payments/payments.service.js:180-216 | returns the number of members fined, and the fines table is `WithPenalties` of the non-compliant ids, with the penalty setting (default 50) and, in each description, the minimum setting (default 250) as JavaScript prints it |
| Payments.ComplianceOncePerWeek | backend/src/features/payments/payments.service.js:190-205 | run again in the same week, the check finds nobody to fine |
| Deposits.GetUserBalance | backend/src/features/deposits/deposits.service.js:3-19 | the sums of the COMPLETED DEPOSIT and the COMPLETED SHARE_CAPITAL rows; 0 and 0 for a member without rows |
| Deposits.BalanceAfterInsert | backend/src/features/deposits/deposits.service.js:5-13 | a new row moves savings, or share capital, by its amount exactly when it is the member's COMPLETED row of that type |
| Deposits.InsertIfAbsent | backend/src/features/payments/payments.service.js:14-17 | a taken `transaction_ref` leaves the table unchanged; otherwise the row is appended; afterwards the reference is taken |
| Deposits.RefTakenStays | backend/src/features/payments/payments.service.js:25-28 | an insert-if-absent never frees a reference |
| Deposits.InsertIfAbsentIdempotent | backend/src/features/payments/payments.service.js:14-17 | inserting the same reference twice is the same as inserting it once |
| Deposits.GetHistory | backend/src/features/deposits/deposits.service.js:21-27 | at most 50 of the member's transactions; all of them when there are no more than 50; the k-th row is the member's k-th transaction counted from the latest |
| Deposits.Withdraw | backend/src/features/deposits/deposits.service.js:39-94 | as written: rejects amount ≤ 0, then savings below the amount, then free savings (savings − ACCEPTED guarantees) below the amount; on success it adds the WITHDRAWAL deposit row and the WITHDRAWAL transaction; an error changes nothing |
| Deposits.RequestWithdrawal | backend/src/features/deposits/deposits.service.js:39-94 | the answer and both tables are those of `WithdrawCorrected`, the gate that counts earlier withdrawals (see Findings) |
| Deposits.LockedFundsBlock | backend/src/features/deposits/deposits.service.js:59-70 | with savings that would cover the amount, a guarantee that leaves less than the amount free refuses the withdrawal |
| Deposits.NoGuaranteeNothingLocked | backend/src/features/deposits/deposits.service.js:59-65 | with no ACCEPTED guarantee nothing is locked |
| Deposits.WithdrawalLeavesBalance | backend/src/features/deposits/deposits.service.js:75-83 | a withdrawal row is typed WITHDRAWAL, so `getUserBalance` reads the same savings and shares afterwards (the balance query filters on the type at lines 5-8) |
| Deposits.WithdrawTwiceAsWritten | backend/src/features/deposits/deposits.service.js:48-83 | counterexample: as written, once a withdrawal of an amount succeeds, a second withdrawal of the same amount also succeeds, and the savings the gate reads are unchanged after both |
| Deposits.WithdrawCorrected | backend/src/features/deposits/deposits.service.js:39-94 | the gate over savings net of earlier withdrawals: succeeds exactly when the amount is positive, covered by those savings and by the part not locked by guarantees, and the reference is free; a success lowers those savings by exactly the amount and never below the locked amount; an error changes nothing |
| Deposits.WithdrawCorrectedTwice | backend/src/features/deposits/deposits.service.js:39-94 | with the corrected gate, two successive withdrawals never take out more than the free savings |
| Settings.DropSpaces | backend/src/features/loans/loans.service.js:20 | `parseFloat` skips leading whitespace: the result is a suffix, everything dropped is whitespace, and the result is empty or starts with a non-space |
| Settings.LeadingDigits | backend/src/features/loans/loans.service.js:20 | the longest prefix of digits |
| Settings.ParseFloatNat | backend/src/features/loans/loans.service.js:152-153 | a stored decimal numeral parses back to its value |
| Settings.ParseFloatNoDigit | backend/src/features/loans/loans.service.js:20 | text without any digit is NaN |
| Settings.NumberOr | backend/src/features/loans/loans.service.js:19-20 | `parseFloat(v) || d`: the parsed number when there is a value that parses to a nonzero number; the default when the value is missing, does not parse, or parses to 0 (the same rule is used at lines 48 and 68) |
| Settings.NumberOrIfEmpty | backend/src/features/loans/loans.service.js:153 | `parseFloat(v || d)` gives the default only for a missing or empty value |
| Settings.StoredZero | backend/src/features/loans/loans.service.js:152-153 | a stored "0" falls back to the default under the first rule (line 20) but stays 0 under the second (line 153) |
| Settings.StoredNumber | backend/src/features/loans/loans.service.js:152-153 | a stored positive numeral is used under both rules (and under the rule at line 20) |
| Settings.StoredText | backend/src/features/loans/loans.service.js:152-153 | a stored non-numeric text gives the default under the first rule and NaN under the second (the first rule is at line 20) |
| Settings.GetSetting | backend/src/features/settings/settings.service.js:36-39 | null when no row has the key; otherwise the value of the first row with that key |
| Settings.UpdateSetting | backend/src/features/settings/settings.service.js:13-15 | the value of the rows with the key is replaced |
| Settings.UpdateSettingReadsBack | backend/src/features/settings/settings.service.js:13-15 | no row is added and no key changes; reading the key back gives the new value when the key existed, and null when it did not |
| Settings.UpdateSettingKeepsOthers | backend/src/features/settings/settings.service.js:13-15 | every other key reads as before |
| Settings.ReplaceSpaceRuns | backend/src/features/settings/settings.service.js:24 | no whitespace is left and the text does not grow; it is empty exactly when the input is; its first character is `_` when the input starts with whitespace and the input's first character otherwise |
| Settings.CategoryCode | backend/src/features/settings/settings.service.js:24 | the code has no whitespace and no lower-case letter; it is empty exactly when the name is; a name without whitespace is only upper-cased |
| Settings.ReplaceKeepsWord | backend/src/features/settings/settings.service.js:24 | a leading stretch without whitespace is copied as it is |
| Settings.DropRun | backend/src/features/loans/loans.service.js:20 | skipping whitespace drops a whole run of it up to the first non-space |
| Settings.ReplaceRun | backend/src/features/settings/settings.service.js:24 | a run of whitespace, however long, becomes one `_` |
| Settings.CategoryCodeWords | backend/src/features/settings/settings.service.js:24 | two words with any whitespace between them become the upper-cased words joined by one `_` |
| Settings.CategoryCodeIdempotent | backend/src/features/settings/settings.service.js:24 | normalising a code again changes nothing |
| Settings.NewCategory | backend/src/features/settings/settings.service.js:23-29 | name = the code; description = the given one or else the name; amount = the given one or else 0; active; a fresh id |
| Settings.CreateCategory | backend/src/features/settings/settings.service.js:23-29 | appends exactly `NewCategory` |
| Settings.DeleteCategory | backend/src/features/settings/settings.service.js:31-33 | the category table is the update that sets `is_active` false on that id |
| Settings.DeleteCategoryEffect | backend/src/features/settings/settings.service.js:31-33 | the row is kept and only `is_active` changes, and only on that id |
| Settings.SortByName | backend/src/features/settings/settings.service.js:19 | sorted by name and a permutation of its input |
| Settings.GetCategories | backend/src/features/settings/settings.service.js:18-21 | exactly the active categories, as a permutation, sorted by name |
| Fines.DaysExceed | backend/src/features/fines/fines.service.js:9 | more than k whole days have passed exactly when at least (k+1) × 86400000 ms have |
| Fines.InterestRules | backend/src/features/fines/fines.service.js:4-52 | written exactly when stage 1 or stage 2 is due; stage 1 adds 20% of the original amount and dates stage 1 now; stage 2 multiplies the balance by 1.5 and dates stage 2 now; otherwise nothing changes; CLEARED and STAGE_2_50 fines are never due |
| Fines.ApplyInterestRules | backend/src/features/fines/fines.service.js:4-52 | returns the fine with the new balance and stage; the row is written only when a stage applied |
| Fines.Stage1Boundary | backend/src/features/fines/fines.service.js:9-18 | stage 1 applies exactly from 31 whole days; exactly 30 days gives no interest |
| Fines.Stage2Boundary | backend/src/features/fines/fines.service.js:27-31 | stage 2 applies exactly from 366 whole days after the stage-1 date |
| Fines.ReadTwiceSameInstant | backend/src/features/fines/fines.service.js:23-31 | reading again at the same instant applies nothing, so one call never applies both stages |
| Fines.BalanceNeverDecreases | backend/src/features/fines/fines.service.js:13-50 | the balance never decreases, and the returned balance is the written one |
| Fines.WrittenKeepsStagedBalance | backend/src/features/fines/fines.service.js:18-38 | the balance is always the original amount, the original plus 20%, or 1.5 times that, as the stage says |
| Fines.ReadsKeepStagedBalance | backend/src/features/fines/fines.service.js:18-38 | that invariant is kept by any sequence of reads, and the original amount never changes |
| Fines.OpenFines | backend/src/features/fines/fines.service.js:55-57 | exactly the member's fines that are not CLEARED; the k-th is the k-th such fine in table order (oldest first) |
| Fines.GetMemberFines | backend/src/features/fines/fines.service.js:54-61 | returns the rules applied to each open fine, oldest first; the table afterwards is the sweep of those reads |
| Fines.SweepPointwise | backend/src/features/fines/fines.service.js:54-61 | with unique ids, the sweep writes each selected row once and leaves every other row alone |
| Fines.GetMemberFinesEffect | backend/src/features/fines/fines.service.js:54-61 | reading a member's fines writes only that member's open fines, and every other fine is unchanged |
| Fines.NewFine | backend/src/features/fines/fines.service.js:63-70 | `current_balance` = `original_amount` = amount, stage NONE, no stage dates, a fresh id |
| Fines.ImposeFine | backend/src/features/fines/fines.service.js:63-70 | appends exactly `NewFine` |
| Fines.NewFineNotDue | backend/src/features/fines/fines.service.js:18 | a fine less than 31 days old accrues no interest |
| Dividends.Declare | backend/src/features/dividends/dividends.service.js:3-14 | fails exactly when a dividend for the year is not CANCELLED; otherwise appends one PENDING declaration with the given figures and a fresh id |
| Dividends.DeclareDividend | backend/src/features/dividends/dividends.service.js:3-14 | the answer and the table are those of `Declare` |
| Dividends.DeclareOncePerYear | backend/src/features/dividends/dividends.service.js:5-6 | after a declaration, a second one for the same year fails and changes nothing |
| Dividends.CancelledDoesNotBlock | backend/src/features/dividends/dividends.service.js:5-6 | a year with only CANCELLED dividends can be declared |
| Dividends.EligibleMembers | backend/src/features/dividends/dividends.service.js:21-25 | exactly the active MEMBER users with positive COMPLETED SHARE_CAPITAL, each with that share sum |
| Dividends.TotalShares | backend/src/features/dividends/dividends.service.js:29 | the total of positive holdings, when there is at least one, is positive |
| Dividends.AllocationsFor | backend/src/features/dividends/dividends.service.js:33-42 | one PENDING allocation per member: share/total × amount by shares, otherwise amount/n |
| Dividends.AllocateOutcomes | backend/src/features/dividends/dividends.service.js:16-46 | an unknown dividend fails; no eligible member fails; a failure creates nothing |
| Dividends.AllocateFound | backend/src/features/dividends/dividends.service.js:29-45 | on success the result is n and the allocations of every eligible member are appended |
| Dividends.InsertAllocations | backend/src/features/dividends/dividends.service.js:33-42 | the loop appends exactly `AllocationsFor` |
| Dividends.CalculateAllocations | backend/src/features/dividends/dividends.service.js:16-46 | the answer and the allocations table are those of `Allocate` |
| Dividends.ShareAmounts | backend/src/features/dividends/dividends.service.js:34-41 | by shares, each row is for the dividend, records the member's shares and gets share/total × amount |
| Dividends.EqualAmounts | backend/src/features/dividends/dividends.service.js:36-41 | otherwise each row gets amount/n |
| Dividends.SplitSumsToTotal | backend/src/features/dividends/dividends.service.js:29-36 | in exact arithmetic the allocations sum to the total under either method |
| Dividends.ProportionalSum | backend/src/features/dividends/dividends.service.js:34-35 | the share-based amounts sum to (total shares / t) × amount |
| Dividends.SameAmountSum | backend/src/features/dividends/dividends.service.js:36 | n equal amounts sum to n times the amount |
| Dividends.AllocationsSumToTotal | backend/src/features/dividends/dividends.service.js:16-46 | after a successful allocation, the dividend's rows number n and sum to its `total_amount` |
| Dividends.AllocateTwiceDuplicates | backend/src/features/dividends/dividends.service.js:16-46 | nothing stops a second run, which appends a second set of rows |
| Reports.RateOf | backend/src/features/reports/reports.service.js:30-67 | "0%" exactly when the whole is 0; otherwise a percentage p with p × whole = part × 100, which lies within [0, 100] when the part is at most the whole |
| Reports.Average | backend/src/features/reports/reports.service.js:49-83 | SQL `AVG`: the average times the count is the sum, and 0 over no rows |
| Reports.GetDashboardSummary | backend/src/features/reports/reports.service.js:5-38 | assets = the money owed on ACTIVE loans + the ACTIVE fixed assets; liabilities = the COMPLETED deposits; active_loans = the ACTIVE count; default_rate is the DEFAULT count as a one-decimal percentage of the ACTIVE, COMPLETED and DEFAULT count, "0%" exactly when there is none, and within [0, 100] |
| Reports.LoanAnalyticsRatesAsWritten | backend/src/features/reports/reports.service.js:54-68 | counterexample: with one ACTIVE and one DEFAULT loan, the code as written gives default_rate 110000% and repayment_rate −109900% |
| Reports.GetLoanAnalytics | backend/src/features/reports/reports.service.js:40-75 | with the corrected rates: default_rate is the DEFAULT count as a percentage of the ACTIVE, COMPLETED and DEFAULT count; both rates are "0%" exactly when there is no such loan, and otherwise lie in [0, 100] and sum to 100; every other field is the source's; active ≤ total ≤ the number of loans |
| Reports.DepositorsBound | backend/src/features/reports/reports.service.js:80-81 | distinct members ≤ deposits counted, and 0 exactly together |
| Reports.DepositAnalyticsCounts | backend/src/features/reports/reports.service.js:77-105 | total_members ≤ total_deposits, and 0 exactly together |
| Reports.AverageDepositBack | backend/src/features/reports/reports.service.js:83-101 | average_deposit × total_deposits = total_amount, and 0 when there is no deposit |
| Reports.AveragePerMemberBack | backend/src/features/reports/reports.service.js:102 | average_per_member × total_members = total_amount, and 0 when there is no member |
| Reports.GetBalanceSheetData | backend/src/features/reports/reports.service.js:109-141 | totalAssets = cash + loans + fixed assets = totalLiabilities + share_capital + retained_earnings; totalLiabilities is the sum of its three lines |
| Reports.FixedAssetLines | backend/src/features/reports/reports.service.js:121 | the fixed-asset total is land + buildings + other + the untyped assets |
| Reports.DepositKeepsRetainedEarnings | backend/src/features/reports/reports.service.js:111-134 | a completed deposit raises cash and liabilities alike and leaves retained earnings unchanged |
| Reports.ExpenseLowersRetainedEarnings | backend/src/features/reports/reports.service.js:112-134 | an expense lowers cash and retained earnings by its amount |
| Reports.PendingShareCapitalCounts | backend/src/features/reports/reports.service.js:132 | share capital has no status filter, so a PENDING SHARE_CAPITAL row raises share capital and lowers retained earnings |
| Reports.DashboardAssetsOnBalanceSheet | backend/src/features/reports/reports.service.js:109-124 | the dashboard's assets are the balance sheet's loans plus fixed assets when no loan is dated after the date (the dashboard's sums are at lines 7-11) |
| Reports.IncomeEmptyPeriod | backend/src/features/reports/reports.service.js:143-161 | an empty period gives four zeros |
| Reports.IncomePeriodsAdd | backend/src/features/reports/reports.service.js:143-161 | every income line over two adjoining periods adds up to the line over the whole |
| Reports.PendingTransactionNoCashFlow | backend/src/features/reports/reports.service.js:165 | a PENDING transaction does not enter the cash flow |
| Reports.CashFlowPeriodsAdd | backend/src/features/reports/reports.service.js:163-181 | every cash-flow line over two adjoining periods adds up to the line over the whole |
| Reports.GetMemberStatementData | backend/src/features/reports/reports.service.js:185-189 | the user exactly when the id exists; exactly that member's transactions, the k-th being the member's k-th transaction in table order (oldest first) |
| Reports.Round1 | backend/src/features/reports/reports.service.js:204 | `ROUND(x, 1)` is a whole number of tenths within 0.05 of x, and keeps [0, 100] |
| Reports.Round1Nearest | backend/src/features/reports/reports.service.js:204 | no whole number of tenths is nearer to x than `ROUND(x, 1)` |
| Reports.Round1Halves | backend/src/features/reports/reports.service.js:204 | a value halfway between two tenths rounds away from zero, for both signs |
| Reports.Progress | backend/src/features/reports/reports.service.js:202-206 | 0 whenever total_due ≤ 0; otherwise `ROUND(repaid / due × 100, 1)`, a whole number of tenths within 0.05 of the exact percentage, and within [0, 100] when 0 ≤ repaid ≤ due |
| Reports.ActivePortfolioRows | backend/src/features/reports/reports.service.js:191-213 | every row shows an ACTIVE loan, with outstanding = due − repaid and the progress bounds |
| Reports.ActivePortfolioComplete | backend/src/features/reports/reports.service.js:207-209 | every ACTIVE loan whose user exists is listed |
| Reports.CollectSettings | backend/src/features/reports/reports.service.js:220-221 | the map has exactly the keys read, each with the value of the last row with that key |
| Reports.DetailsFrom | backend/src/features/reports/reports.service.js:222-228 | each field is the stored value, or its default when missing or empty |
| Reports.GetSaccoDetails | backend/src/features/reports/reports.service.js:217-232 | on a query error, the fixed fallback; otherwise the details come from a map whose keys are exactly those of the SACCO rows and whose value for each key is that of the last such row; so the name is that row's non-empty `sacco_name`, else "Sacco System", and the logo is that row's `sacco_logo` |
| Reports.SaccoKeys | backend/src/features/reports/reports.service.js:219 | a key is among the rows read exactly when some stored setting with that key matches `category = 'SACCO' OR setting_key LIKE 'sacco_%'` |
| Reports.PendingDepositOnlyInLedger | backend/src/features/reports/reports.service.js:234-248 | a PENDING DEPOSIT transaction raises the ledger's cash on hand but not the balance sheet's cash (the balance sheet's cash query is at line 111) |
| ReportsController.BalanceSheetBalances | backend/src/features/reports/reports.controller.js:68-81 | total_liabilities_equity = assets.total, and equity = assets − liabilities |
| ReportsController.IncomeStatementReport | backend/src/features/reports/reports.controller.js:83-99 | revenue = interest + penalties; expenses = expenses + dividends; net income = revenue − expenses; the margin is "0%" exactly when revenue ≤ 0, and otherwise m with m × revenue = net income × 100; it is at most 100 for non-negative expenses and non-negative for non-negative net income |
| ReportsController.NetIncomePeriodsAdd | backend/src/features/reports/reports.controller.js:88-92 | net income over two adjoining periods adds up |
| ReportsController.CashFlowReport | backend/src/features/reports/reports.controller.js:101-119 | opInflow = money_in + repayments; opOutflow = money_out + expenses; operating net = opInflow − opOutflow; investing = −dividends; net = operating + investing |
| ReportsController.NetCashFlowPeriodsAdd | backend/src/features/reports/reports.controller.js:106-116 | the net cash flow over two adjoining periods adds up |
| ReportsController.SummaryMatchesDashboard | backend/src/features/reports/reports.controller.js:207-224 | outstanding = the dashboard portfolio when every ACTIVE loan has a total_due, and the active count is the dashboard's |
| ReportsController.StatementLines | backend/src/features/reports/reports.controller.js:143-161 | DEPOSIT, LOAN_DISBURSEMENT and DIVIDEND rows are credits and all other rows debits; after every row the balance is credits − debits so far; the totals are the column sums |
| ReportsController.ColumnsCoverEveryRow | backend/src/features/reports/reports.controller.js:143-150 | every row is in exactly one column |
| Members.StripKeepsTheRest | backend/src/features/members/members.service.js:9-13 | stripping removes only the hash and the token: putting them back restores the row |
| Members.GetProfile | backend/src/features/members/members.service.js:4-14 | "User not found" exactly for an unknown id; otherwise the row without its secrets |
| Members.UpdateProfile | backend/src/features/members/members.service.js:16-31 | the users table is the COALESCE update on that id |
| Members.UpdateProfileEffect | backend/src/features/members/members.service.js:20-29 | each given field replaces the old value and a null one keeps it; only that user changes |
| Members.EmptyUpdateIsNoOp | backend/src/features/members/members.service.js:22-27 | an update with every field null changes nothing |
| Members.ActivationFor | backend/src/features/members/members.service.js:44-48 | LEFT or SUSPENDED deactivates; REINSTATED activates; anything else leaves `is_active` alone |
| Members.LogMemberMovement | backend/src/features/members/members.service.js:38-49 | always appends one log row recorded by the admin, then applies the activation to that user |
| Members.SuspendThenReinstate | backend/src/features/members/members.service.js:44-48 | suspending and then reinstating leaves the member active with nothing else changed |
| Assets.GetFixedAssets | backend/src/features/assets/assets.service.js:4-7 | exactly the ACTIVE assets, as many as there are, the k-th being the k-th ACTIVE asset counted from the newest |
| Assets.NewAsset | backend/src/features/assets/assets.service.js:9-15 | `purchase_value` = `current_value` = the value; ACTIVE; a fresh id |
| Assets.AddFixedAsset | backend/src/features/assets/assets.service.js:9-16 | appends exactly `NewAsset` |
| Assets.AddFixedAssetEffect | backend/src/features/assets/assets.service.js:9-15 | the asset total rises by the value, and the new asset is listed first |
| Assets.RevalueAsset | backend/src/features/assets/assets.service.js:18-23 | sets `current_value` on that id |
| Assets.RevalueAssetEffect | backend/src/features/assets/assets.service.js:19 | only `current_value` of that asset changes; `purchase_value` is untouched |
| Assets.DepreciatedAsset | backend/src/features/assets/assets.service.js:40 | a DEPRECIATION expense with a (truthy) asset id targets that asset, and nothing else does |
| Assets.AddExpense | backend/src/features/assets/assets.service.js:31-43 | always appends one expense; a depreciation lowers that asset's `current_value` by the amount, and nothing else changes |
| Assets.DepreciationLowersTotal | backend/src/features/assets/assets.service.js:41 | the asset total drops by the amount for each ACTIVE row with that id, with no floor |
| Auth.NewUser | backend/src/features/auth/auth.service.js:37-49 | role MEMBER by default, not verified, a verification token, must change password, a fresh id |
| Auth.Register | backend/src/features/auth/auth.service.js:18-78 | fails when an existing user has the email or the phone; succeeds exactly when there is no clash and the mail goes out; a failure, including a failed mail, leaves no user |
| Auth.RegisterUser | backend/src/features/auth/auth.service.js:18-78 | the answer and the users table are those of `Register` |
| Auth.RegisterTwice | backend/src/features/auth/auth.service.js:21-25 | a second registration with the same email fails |
| Auth.Login | backend/src/features/auth/auth.service.js:80-99 | an unknown email gives "Invalid Credentials"; success means a verified, active user with that email whose password checks and the token signed on the claims |
| Auth.LoginOrder | backend/src/features/auth/auth.service.js:81-90 | the checks come in this order: unverified, then deactivated, then wrong password |
| Auth.LoginThenAuthenticate | backend/src/features/auth/auth.service.js:92-97 | the token login returns lets the middleware through with the same claims |
| Auth.VerifyEmail | backend/src/features/auth/auth.service.js:101-108 | marks the token's users verified and clears the token; an unknown token fails |
| Auth.VerifyEmailOnce | backend/src/features/auth/auth.service.js:103 | afterwards no user has the token, so it cannot be used twice |
| Auth.ChangePassword | backend/src/features/auth/auth.service.js:110-114 | the hash is replaced on that id |
| Auth.ChangePasswordEffect | backend/src/features/auth/auth.service.js:113 | new hash, `must_change_password` false, nothing else changes |
| AuthMiddleware.JoinSplit | backend/src/features/auth/auth.middleware.js:4 | `split(' ')` loses nothing: joining the parts gives the header back |
| AuthMiddleware.SplitJoin | backend/src/features/auth/auth.middleware.js:4 | splitting joined words gives back the words |
| AuthMiddleware.SecondWord | backend/src/features/auth/auth.middleware.js:4 | there is a second word exactly when the header has a space |
| AuthMiddleware.SelectToken | backend/src/features/auth/auth.middleware.js:4 | the cookie comes first when it is present; an empty token counts as none |
| AuthMiddleware.BearerToken | backend/src/features/auth/auth.middleware.js:4 | without a cookie, `Bearer <t>` yields t |
| AuthMiddleware.Authenticate | backend/src/features/auth/auth.middleware.js:3-13 | 401 exactly without a token; passes exactly for a token that verifies, with its claims; otherwise 403 |
| AuthMiddleware.RequireRole | backend/src/features/auth/auth.middleware.js:15-22 | passes exactly when the role equals the one required; otherwise 403 |
| AuthMiddleware.AuthorizeRoles | backend/src/features/auth/auth.middleware.js:24-31 | passes exactly when the role is in the list; otherwise 403 |
| AuthMiddleware.AuthorizeRolesSingle | backend/src/features/auth/auth.middleware.js:15-31 | a one-role list is `requireRole`, and adding roles never shuts anyone out |
| Db.JoinUsers | backend/src/features/loans/loans.service.js:178 | `JOIN users`: every row listed passes the filter and carries its owner's name |
| Db.JoinUsersComplete | backend/src/features/loans/loans.service.js:178 | every row that passes the filter and has an owner is listed |
| Db.JoinUsersAt | backend/src/features/payments/payments.service.js:241-243 | the join keeps table order: its k-th row is the k-th row that passes the filter and has an owner, named after that owner |
| Sums.FilterAt | backend/src/features/reports/reports.service.js:187 | `WHERE p ORDER BY created_at ASC` keeps table order: the k-th row is the one at the k-th matching position |
| Sums.NewestFirst | backend/src/features/deposits/deposits.service.js:23 | `WHERE p ORDER BY created_at DESC LIMIT n`: min(count, n) matching rows, the k-th being the k-th matching row counted from the last, and every matching row when there are at most n |

## Findings

| source | as written | input that shows it | evidently intended | confidence | as-written member | corrected member |
|---|---|---|---|---|---|---|
| backend/src/features/reports/reports.service.js:54-68 | `total_defaulted` is `SUM(total_due)` over DEFAULT loans (a sum of money), and it is divided by `total_loans`, a count of ACTIVE and COMPLETED loans | one ACTIVE loan, and one DEFAULT loan with total_due 1100, give default_rate "110000.00%" and repayment_rate "-109900.00%" | the number of DEFAULT loans over the ACTIVE, COMPLETED and DEFAULT loans, as the dashboard computes it (lines 22-30); both rates within [0, 100] and summing to 100 | not executed | Reports.LoanAnalyticsRatesAsWritten | Reports.GetLoanAnalytics |
| backend/src/features/deposits/deposits.service.js:48-83 | the gate reads savings as the sum of COMPLETED rows of type DEPOSIT, but the withdrawal is recorded as a negative row of type WITHDRAWAL, which that sum never sees | savings of 100 and no guarantee: a withdrawal of 100 succeeds, and a second withdrawal of 100 succeeds as well | the withdrawal lowers the savings the gate reads, so a member can never take out more than the free savings | not executed | Deposits.WithdrawTwiceAsWritten | Deposits.WithdrawCorrected |

## Left out

- Notifications (`notifyUser`, `notifyAll`), console logging and e-mail content are not modelled. Whether the verification mail went out is a parameter of `Auth.Register`.
- bcrypt, JWT signing and verification, and the random verification token are opaque parameters (`check`, `sign`, `verify`, `hash`, `token`).
- The M-Pesa HTTP calls (OAuth token, STK push) are not modelled; only the row recorded after the request is (`Payments.RecordStkRequest`).
- Concurrency between requests is not modelled: each service call runs alone. The `Promise.all` of notifications is not modelled.
- Text formatting is not modelled: `toFixed`, `toLocaleString`, `%` suffixes and messages. Rates are kept as a value with a number of decimals (`Reports.Rate`), not as text.
- Floating point is not modelled: money is exact `real`. As a result, `Dividends.SplitSumsToTotal` holds exactly, while the source's floats may miss the total by rounding. NUMERIC column rounding is not modelled either.
- NaN paths: `parseFloat` of a column that is NULL or non-numeric is `None`; `Loans.Disburse` refuses a NaN principal or rate instead of writing NaN.
- `Settings.ParseFloat` follows `parseFloat` for signs, digits and a fraction; exponents, `Infinity` and hexadecimal are not modelled.
- The week boundary (`date_trunc('week', …)`) is the predicate `thisWeek`, and the day counts are whole days of 86400000 ms; time zones and `setHours` day boundaries are not modelled.
- The try/catch fallbacks of the income statement and the cash flow (a missing dividends table gives 0) are not modelled; the sacco-details fallback is (`queryFailed`).
- The `getAll*` listings, `getBranding`, `getExpenses`, the CMS feature and the frontend are not part of this model.
- PDF and QR rendering, `exportReport` (a placeholder) and `downloadMasterLedger` (PDF only) are not modelled; the ledger figures are (`Reports.GetFullLedgerData`). The 50 recent transactions of the ledger are not modelled.
- Column defaults the schema sets are not modelled and are parameters where they matter: a fine's default status and the ids of new rows (one more than the largest id). A new fine's `interest_stage` NONE and its empty stage dates are also column defaults, which `Fines.NewFine` fills in.
- The unused `userId` argument of `calculateAllocations` and the unused `notes` of `revalueAsset` are not modelled.
- Table order stands for `ORDER BY created_at`; `COUNT(DISTINCT id)` is a count, because ids are unique; `GROUP BY` order is not modelled.
- Loans.Submit and Loans.Trunc: the amount is a `real`, and `parseInt` is taken to read its plain decimal digits. The source applies `parseInt` to the request value's text form, so it stops at the first character that is not a digit. A body amount of "1e9" reads as 1 and passes the limit check, and then 1e9 is stored. A number of 1e21 or more is written "1e+21" and reads as 1. A non-numeric amount such as "abc" reads as NaN, and `NaN > maxLimit` is false, so it passes too. The model compares the true integer part and refuses all three when they exceed the limit.
- Loans.SubmitAtTheLimit: holds for amounts written in plain decimal notation. A fraction below 1e-6 is written in exponent form ("5e-7"), and `parseInt` reads that as 5. So against a limit of 0 the source refuses 5e-7, where the lemma accepts it.
- Deposits.Withdraw: additionally fails when the `WTH-<time>` reference is already taken, which the unique `transaction_ref` column would make the insert do.
- Reports.GetDepositAnalytics, Reports.GetIncomeStatementData, Reports.GetCashFlowData, Reports.GetActivePortfolio, Reports.GetFullLedgerData, ReportsController.BalanceSheetReport and ReportsController.SummaryReport carry no contract of their own; their properties are the lemmas named in the table (for the last two, `ReportsController.BalanceSheetBalances` and `ReportsController.SummaryMatchesDashboard`).
- Reports.GetLoanAnalytics: the default and repayment rates are the corrected ones (see Findings); the as-written rates are those of `Reports.LoanAnalyticsAsWritten`, whose other fields it keeps.
- Deposits.RequestWithdrawal: follows the corrected gate (see Findings); the gate as written is `Deposits.Withdraw`.
- Settings.CategoryCode: upper-cases ASCII letters only. JavaScript's `toUpperCase` also maps other letters, some to several characters ("ß" becomes "SS"), so for such names the source's code can be longer than the name; `|code| <= |name|` holds for this model only.
- Settings.SortByName: orders names by code point; `ORDER BY name` uses the database collation, which may order case and accents differently.
- Deposits.WithdrawCorrected: the amount is a `real`. In the source `parseFloat(amount)` can be NaN, which passes every guard (every comparison with NaN is false) and writes NaN rows; that path is not modelled, for `Deposits.Withdraw` either.
- Auth.Register and Auth.VerifyEmail: return the whole user row; the source's `RETURNING` gives only `id, full_name, email, role` (line 43) and `id, email` (line 103).
- Assets.NewAsset: the status is ACTIVE, the column default the insert relies on; the schema is not part of this model.
- Settings.NewCategory: `is_active` is true, the column default the insert relies on; the schema is not part of this model.
- Auth.NewUser: `is_active` is true, the column default the insert relies on; the schema is not part of this model.
- Payments.RecordStkRequest: `None` stands for a request body without `type` (printed "undefined"); a `type` sent as JSON null, which would print "null", is not told apart.
