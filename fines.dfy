/**
 * Member fines and their interest stages (fines.service.js). A fine starts at stage NONE with its
 * balance equal to the amount imposed; more than 30 whole days after it was created it is charged
 * 20% of the original amount (STAGE_1_20), and more than 365 whole days after that 50% of the
 * balance it then has (STAGE_2_50). Interest is applied when the fines are read.
 */
module Fines {
  import opened Wrappers
  import opened Sums
  import opened Db

  /** Milliseconds in a day; times are JavaScript millisecond timestamps. */
  const DayMs: int := 86400000

  /** `Math.floor((now - t) / (1000 * 60 * 60 * 24))`: Dafny's division by a positive number floors. */
  function WholeDays(now: int, t: int): int {
    (now - t) / DayMs
  }

  /** More than `k` whole days have passed exactly when at least `k + 1` full days of milliseconds have. */
  lemma DaysExceed(now: int, t: int, k: int)
    ensures WholeDays(now, t) > k <==> now - t >= (k + 1) * DayMs
  {
    var x := now - t;
    var q := x / 86400000;
    assert x == 86400000 * q + x % 86400000;
    if q > k {
      assert q >= k + 1;
      assert 86400000 * q >= 86400000 * (k + 1);
    } else {
      assert q <= k;
      assert 86400000 * q <= 86400000 * k;
    }
  }

  /** The four columns applyInterestRules may rewrite, and whether it rewrites them. */
  datatype Staging = Staging(balance: real, stage: InterestStage, dateStage1: Option<int>, dateStage2: Option<int>, updated: bool)

  /** Rule 1 fires: a NONE fine more than 30 whole days old. */
  predicate Stage1Due(f: Fine, now: int) {
    f.status != "CLEARED" && f.stage == NoInterest && WholeDays(now, f.dateCreated) > 30
  }

  /** Rule 2 fires on a fine that was already at STAGE_1_20 (on one just moved there, the
      stage-1 date is now and no day has passed). */
  predicate Stage2Due(f: Fine, now: int) {
    f.status != "CLEARED" && f.stage == Stage1At20 && f.dateStage1.Some? && WholeDays(now, f.dateStage1.value) > 365
  }

  /** The values applyInterestRules computes for a fine read at time `now`. */
  function InterestRules(f: Fine, now: int): (s: Staging)
    ensures s.updated <==> Stage1Due(f, now) || Stage2Due(f, now)
    ensures Stage1Due(f, now) ==> s == Staging(f.currentBalance + f.originalAmount * 0.20, Stage1At20, Some(now), f.dateStage2, true)
    ensures Stage2Due(f, now) ==> s == Staging(f.currentBalance * 1.5, Stage2At50, f.dateStage1, Some(now), true)
    ensures !s.updated ==> s == Staging(f.currentBalance, f.stage, f.dateStage1, f.dateStage2, false)
    // one call never applies both stages: a NONE fine ends at most at STAGE_1_20
    ensures f.stage == NoInterest ==> s.stage != Stage2At50
    // STAGE_2_50 is final
    ensures f.stage == Stage2At50 ==> !s.updated
  {
    if f.status == "CLEARED" then Staging(f.currentBalance, f.stage, f.dateStage1, f.dateStage2, false)
    else
      var s1 :=
        if f.stage == NoInterest && WholeDays(now, f.dateCreated) > 30
        then Staging(f.currentBalance + f.originalAmount * 0.20, Stage1At20, Some(now), f.dateStage2, true)
        else Staging(f.currentBalance, f.stage, f.dateStage1, f.dateStage2, false);
      if s1.stage == Stage1At20 && s1.dateStage1.Some? && WholeDays(now, s1.dateStage1.value) > 365
      then Staging(s1.balance + s1.balance * 0.50, Stage2At50, s1.dateStage1, Some(now), true)
      else s1
  }

  /** The fine's row with the computed columns written back. */
  function WithStaging(s: Staging): Fine -> Fine {
    (f: Fine) => f.(currentBalance := s.balance, stage := s.stage, dateStage1 := s.dateStage1, dateStage2 := s.dateStage2)
  }

  /** The row as the database holds it after a read at `now`. */
  function Written(f: Fine, now: int): Fine {
    var s := InterestRules(f, now);
    if s.updated then WithStaging(s)(f) else f
  }

  /** The object applyInterestRules hands back: only the balance and the stage are copied onto it;
      the two stage dates keep the values read. */
  function Returned(f: Fine, now: int): Fine {
    var s := InterestRules(f, now);
    if s.updated then f.(currentBalance := s.balance, stage := s.stage) else f
  }

  function FineIdIs(id: nat): Fine -> bool { (f: Fine) => f.id == id }

  /** `applyInterestRules(fine)`: a CLEARED fine is handed back untouched; otherwise the two rules
      run in order on local copies, and the row is written only when one of them fired. */
  method ApplyInterestRules(db: Database, fine: Fine, now: int) returns (r: Fine)
    modifies db`fines
    ensures r == Returned(fine, now)
    ensures var s := InterestRules(fine, now);
      db.fines == if s.updated then UpdateWhere(old(db.fines), FineIdIs(fine.id), WithStaging(s)) else old(db.fines)
  {
    if fine.status == "CLEARED" {
      return fine;
    }
    var daysSinceCreation := WholeDays(now, fine.dateCreated);
    var updated := false;
    var newBalance := fine.currentBalance;
    var newStage := fine.stage;
    var dateStage1 := fine.dateStage1;
    var dateStage2 := fine.dateStage2;

    if fine.stage == NoInterest && daysSinceCreation > 30 {
      newBalance := newBalance + fine.originalAmount * 0.20;
      newStage := Stage1At20;
      dateStage1 := Some(now);
      updated := true;
    }

    if newStage == Stage1At20 && dateStage1.Some? {
      var daysSinceStage1 := WholeDays(now, dateStage1.value);
      if daysSinceStage1 > 365 {
        newBalance := newBalance + newBalance * 0.50;
        newStage := Stage2At50;
        dateStage2 := Some(now);
        updated := true;
      }
    }

    r := fine;
    if updated {
      var s := Staging(newBalance, newStage, dateStage1, dateStage2, true);
      db.fines := UpdateWhere(db.fines, FineIdIs(fine.id), WithStaging(s));
      r := r.(currentBalance := newBalance, stage := newStage);
    }
  }

  /** Stage 1 is due exactly from the 31st full day of milliseconds after creation: a fine that is
      exactly 30 days old (or a millisecond short of 31) is not charged. */
  lemma Stage1Boundary(f: Fine, now: int)
    requires f.status != "CLEARED" && f.stage == NoInterest
    ensures InterestRules(f, now).updated <==> now - f.dateCreated >= 31 * DayMs
    ensures now - f.dateCreated == 30 * DayMs ==> !InterestRules(f, now).updated
  {
    DaysExceed(now, f.dateCreated, 30);
  }

  /** Stage 2 is due exactly from the 366th full day after the stage-1 date. */
  lemma Stage2Boundary(f: Fine, now: int)
    requires f.status != "CLEARED" && f.stage == Stage1At20 && f.dateStage1.Some?
    ensures InterestRules(f, now).updated <==> now - f.dateStage1.value >= 366 * DayMs
  {
    DaysExceed(now, f.dateStage1.value, 365);
  }

  /** Reading at the same instant twice charges once: the written row is not due again. */
  lemma ReadTwiceSameInstant(f: Fine, now: int)
    ensures !InterestRules(Written(f, now), now).updated
    ensures Written(Written(f, now), now) == Written(f, now)
  {
    if InterestRules(f, now).updated && Stage1Due(f, now) {
      assert WholeDays(now, now) == 0;
    }
  }

  /** With a non-negative original amount and balance, a read never lowers the balance. */
  lemma BalanceNeverDecreases(f: Fine, now: int)
    requires f.originalAmount >= 0.0 && f.currentBalance >= 0.0
    ensures Written(f, now).currentBalance >= f.currentBalance
    ensures Returned(f, now).currentBalance == Written(f, now).currentBalance
  {
  }

  /** What the balance is, as a multiple of the original amount, at each stage. */
  function StageFactor(stage: InterestStage): real {
    match stage
    case NoInterest => 1.0
    case Stage1At20 => 1.2
    case Stage2At50 => 1.8
  }

  /** A fine whose balance is fixed by its stage: the original amount, plus 20%, then times 1.5. */
  predicate StagedBalance(f: Fine) {
    f.currentBalance == f.originalAmount * StageFactor(f.stage)
  }

  /** Interest keeps the balance tied to the stage. */
  lemma WrittenKeepsStagedBalance(f: Fine, now: int)
    requires StagedBalance(f)
    ensures StagedBalance(Written(f, now))
  {
    var s := InterestRules(f, now);
    if Stage1Due(f, now) {
      assert s.balance == f.originalAmount * 1.0 + f.originalAmount * 0.20;
    } else if Stage2Due(f, now) {
      assert s.balance == f.originalAmount * 1.2 * 1.5;
    }
  }

  /** The row after reads at each of the given times in turn. */
  function ReadAt(f: Fine, times: seq<int>): Fine
    decreases |times|
  {
    if |times| == 0 then f else ReadAt(Written(f, times[0]), times[1..])
  }

  /** However often a fine imposed at its original amount is read, its balance is the original amount,
      1.2 times it or 1.8 times it, according to its stage: interest never compounds beyond 80%. */
  lemma {:induction false} ReadsKeepStagedBalance(f: Fine, times: seq<int>)
    requires StagedBalance(f)
    ensures StagedBalance(ReadAt(f, times))
    ensures ReadAt(f, times).originalAmount == f.originalAmount
    decreases |times|
  {
    if |times| > 0 {
      WrittenKeepsStagedBalance(f, times[0]);
      ReadsKeepStagedBalance(Written(f, times[0]), times[1..]);
    }
  }

  // ---------------------------------------------------------------------------
  // getMemberFines, imposeFine
  // ---------------------------------------------------------------------------

  function OpenFineOf(u: nat): Fine -> bool { (f: Fine) => f.userId == u && f.status != "CLEARED" }

  /** `user_id = u AND status != 'CLEARED' ORDER BY date_created ASC`: the member's open fines
      oldest first, the k-th being the one at the k-th matching position of the table. */
  function OpenFines(fines: seq<Fine>, u: nat): (r: seq<Fine>)
    ensures forall f | f in r :: f in fines && f.userId == u && f.status != "CLEARED"
    ensures forall f | f in fines && f.userId == u && f.status != "CLEARED" :: f in r
    ensures |r| == CountWhere(fines, OpenFineOf(u))
    ensures var idx := MatchIndices(fines, OpenFineOf(u));
      |r| == |idx| && forall k :: 0 <= k < |r| ==> r[k] == fines[idx[k]]
  {
    FilterAt(fines, OpenFineOf(u));
    Filter(fines, OpenFineOf(u))
  }

  /** The fines table after applying the rules to each row of `sel` in turn. */
  function Sweep(fines: seq<Fine>, sel: seq<Fine>, now: int): seq<Fine>
    decreases |sel|
  {
    if |sel| == 0 then fines
    else
      var init := Sweep(fines, sel[..|sel| - 1], now);
      var f := sel[|sel| - 1];
      var s := InterestRules(f, now);
      if s.updated then UpdateWhere(init, FineIdIs(f.id), WithStaging(s)) else init
  }

  /** Sweeping one more selected row is one more read of that row. */
  lemma SweepPrefix(fines: seq<Fine>, sel: seq<Fine>, k: nat, now: int)
    requires k < |sel|
    ensures var s := InterestRules(sel[k], now);
      var t := Sweep(fines, sel[..k], now);
      Sweep(fines, sel[..k + 1], now) == if s.updated then UpdateWhere(t, FineIdIs(sel[k].id), WithStaging(s)) else t
  {
    assert sel[..k + 1][..k] == sel[..k];
  }

  lemma ReturnedSnoc(r: seq<Fine>, sel: seq<Fine>, f: Fine, now: int)
    requires |r| < |sel| && f == Returned(sel[|r|], now)
    requires forall i :: 0 <= i < |r| ==> r[i] == Returned(sel[i], now)
    ensures forall i :: 0 <= i < |r| + 1 ==> (r + [f])[i] == Returned(sel[i], now)
  {
  }

  /** `getMemberFines(userId)`: the member's open fines, oldest first, each with the rules applied. */
  method GetMemberFines(db: Database, u: nat, now: int) returns (r: seq<Fine>)
    modifies db`fines
    ensures var sel := OpenFines(old(db.fines), u);
      && |r| == |sel|
      && (forall i :: 0 <= i < |sel| ==> r[i] == Returned(sel[i], now))
      && db.fines == Sweep(old(db.fines), sel, now)
  {
    var sel := OpenFines(db.fines, u);
    ghost var fines0 := db.fines;
    r := [];
    var k := 0;
    while k < |sel|
      invariant 0 <= k <= |sel|
      invariant |r| == k
      invariant forall i :: 0 <= i < k ==> r[i] == Returned(sel[i], now)
      invariant db.fines == Sweep(fines0, sel[..k], now)
    {
      SweepPrefix(fines0, sel, k, now);
      var f := ApplyInterestRules(db, sel[k], now);
      ReturnedSnoc(r, sel, f, now);
      r := r + [f];
      k := k + 1;
    }
    assert sel[..k] == sel;
  }

  /** No two rows of the table share an id (the primary key). */
  predicate UniqueIds(fines: seq<Fine>) {
    forall a, b :: 0 <= a < b < |fines| ==> fines[a].id != fines[b].id
  }

  /** With unique ids, sweeping rows of the table writes each selected row once, as a single read
      would, and leaves every other row alone. */
  lemma {:induction false} SweepPointwise(fines: seq<Fine>, sel: seq<Fine>, now: int)
    requires UniqueIds(fines)
    requires forall f | f in sel :: f in fines
    ensures |Sweep(fines, sel, now)| == |fines|
    ensures forall i :: 0 <= i < |fines| ==> Sweep(fines, sel, now)[i] == if fines[i] in sel then Written(fines[i], now) else fines[i]
    decreases |sel|
  {
    if |sel| > 0 {
      var init := sel[..|sel| - 1];
      assert forall g | g in init :: g in sel;
      SweepPointwise(fines, init, now);
      SweepStep(fines, sel, now);
    }
  }

  /** One step of `SweepPointwise`: the last selected row is written over the sweep of the others. */
  lemma SweepStep(fines: seq<Fine>, sel: seq<Fine>, now: int)
    requires UniqueIds(fines) && |sel| > 0 && sel[|sel| - 1] in fines
    requires var init := sel[..|sel| - 1];
      && |Sweep(fines, init, now)| == |fines|
      && forall i :: 0 <= i < |fines| ==> Sweep(fines, init, now)[i] == if fines[i] in init then Written(fines[i], now) else fines[i]
    ensures |Sweep(fines, sel, now)| == |fines|
    ensures forall i :: 0 <= i < |fines| ==> Sweep(fines, sel, now)[i] == if fines[i] in sel then Written(fines[i], now) else fines[i]
  {
    var init := sel[..|sel| - 1];
    var f := sel[|sel| - 1];
    var t := Sweep(fines, init, now);
    var s := InterestRules(f, now);
    var k :| 0 <= k < |fines| && fines[k] == f;
    forall i | 0 <= i < |fines|
      ensures Sweep(fines, sel, now)[i] == if fines[i] in sel then Written(fines[i], now) else fines[i]
    {
      assert fines[i] in sel <==> fines[i] in init || fines[i] == f;
      if i != k {
        assert fines[i].id != f.id;
      }
    }
  }

  /** Reading a member's fines writes only that member's open fines, each as a single read would;
      every other fine, and every CLEARED one, stays as it was. */
  lemma GetMemberFinesEffect(fines: seq<Fine>, u: nat, now: int)
    requires UniqueIds(fines)
    ensures var fines' := Sweep(fines, OpenFines(fines, u), now);
      && |fines'| == |fines|
      && (forall i :: 0 <= i < |fines| ==>
            fines'[i] == if fines[i].userId == u && fines[i].status != "CLEARED" then Written(fines[i], now) else fines[i])
  {
    SweepPointwise(fines, OpenFines(fines, u), now);
  }

  /** The row imposeFine inserts; stage NONE and no stage dates are the column defaults, and the
      status is the column's default, which is not part of this model and so a parameter. */
  function NewFine(fines: seq<Fine>, u: nat, title: string, amount: real, description: string,
                   defaultStatus: string, now: int): (f: Fine)
    ensures f.currentBalance == f.originalAmount == amount
    ensures f.stage == NoInterest && f.dateStage1.None? && f.dateStage2.None?
    ensures StagedBalance(f)
    ensures forall i :: 0 <= i < |fines| ==> fines[i].id != f.id
  {
    Fine(MaxId(fines, FineKey) + 1, u, title, amount, amount, description, defaultStatus, NoInterest, now, None, None)
  }

  /** `imposeFine(data)`. */
  method ImposeFine(db: Database, u: nat, title: string, amount: real, description: string, defaultStatus: string, now: int)
    modifies db`fines
    ensures db.fines == old(db.fines) + [NewFine(old(db.fines), u, title, amount, description, defaultStatus, now)]
  {
    db.fines := db.fines + [NewFine(db.fines, u, title, amount, description, defaultStatus, now)];
  }

  /** A fine newly imposed accrues nothing for 31 days: any sweep run less than 31 days after
      it was imposed leaves it as it is. */
  lemma NewFineNotDue(fines: seq<Fine>, u: nat, title: string, amount: real, description: string,
                      defaultStatus: string, now: int, later: int)
    requires 0 <= later - now < 31 * DayMs
    ensures !InterestRules(NewFine(fines, u, title, amount, description, defaultStatus, now), later).updated
  {
    var f := NewFine(fines, u, title, amount, description, defaultStatus, now);
    DaysExceed(later, now, 30);
  }
}
