/**
 * Dividend declaration and allocation (dividends.service.js). A financial year has at most one
 * dividend that is not CANCELLED; allocating a dividend gives every eligible member either a share
 * proportional to their share capital or an equal share.
 */
module Dividends {
  import opened Wrappers
  import opened Sums
  import opened Db
  import opened Deposits

  function DividendOfYear(year: int): Dividend -> bool {
    (d: Dividend) => d.financialYear == year && d.status != "CANCELLED"
  }

  /** Is a dividend for the year already standing (declared and not cancelled)? */
  predicate Declared(dividends: seq<Dividend>, year: int) {
    exists i :: 0 <= i < |dividends| && dividends[i].financialYear == year && dividends[i].status != "CANCELLED"
  }

  /** The row declareDividend inserts. */
  function NewDividend(dividends: seq<Dividend>, userId: nat, year: int, rate: real, total: real, description: string): Dividend {
    Dividend(MaxId(dividends, DividendKey) + 1, year, rate, total, "PENDING", userId, description)
  }

  /** declareDividend as a function of the dividends table: the answer and the table afterwards. */
  function Declare(dividends: seq<Dividend>, userId: nat, year: int, rate: real, total: real, description: string)
    : (out: (Result<Dividend>, seq<Dividend>))
    ensures out.0.Err? <==> Declared(dividends, year)
    ensures out.0.Err? ==> out.0.error == DividendAlreadyDeclared && out.1 == dividends
    ensures out.0.Ok? ==> && out.1 == dividends + [out.0.value]
                          && out.0.value.status == "PENDING" && out.0.value.financialYear == year
                          && out.0.value.rate == rate && out.0.value.totalAmount == total
                          && out.0.value.declaredBy == userId && out.0.value.description == description
                          && (forall i :: 0 <= i < |dividends| ==> dividends[i].id != out.0.value.id)
  {
    if FirstWhere(dividends, DividendOfYear(year)).Some? then (Err(DividendAlreadyDeclared), dividends)
    else
      var d := NewDividend(dividends, userId, year, rate, total, description);
      (Ok(d), dividends + [d])
  }

  /** `declareDividend(userId, data)`. */
  method DeclareDividend(db: Database, userId: nat, year: int, rate: real, total: real, description: string)
    returns (r: Result<Dividend>)
    modifies db`dividends
    ensures (r, db.dividends) == Declare(old(db.dividends), userId, year, rate, total, description)
  {
    if FirstWhere(db.dividends, DividendOfYear(year)).Some? {
      return Err(DividendAlreadyDeclared);
    }
    var d := NewDividend(db.dividends, userId, year, rate, total, description);
    db.dividends := db.dividends + [d];
    return Ok(d);
  }

  /** A year is declared once: after a successful declaration a second one for the same year fails
      and leaves the table as the first left it. */
  lemma DeclareOncePerYear(dividends: seq<Dividend>, userId: nat, year: int, rate: real, total: real, description: string,
                           userId': nat, rate': real, total': real, description': string)
    requires Declare(dividends, userId, year, rate, total, description).0.Ok?
    ensures var d1 := Declare(dividends, userId, year, rate, total, description).1;
      Declare(d1, userId', year, rate', total', description') == (Err(DividendAlreadyDeclared), d1)
  {
    var d1 := Declare(dividends, userId, year, rate, total, description).1;
    assert d1[|dividends|].financialYear == year && d1[|dividends|].status == "PENDING";
  }

  /** A cancelled dividend does not block a new declaration for its year. */
  lemma CancelledDoesNotBlock(dividends: seq<Dividend>, userId: nat, year: int, rate: real, total: real, description: string)
    requires forall i :: 0 <= i < |dividends| && dividends[i].financialYear == year ==> dividends[i].status == "CANCELLED"
    ensures Declare(dividends, userId, year, rate, total, description).0.Ok?
  {
  }

  // ---------------------------------------------------------------------------
  // calculateAllocations
  // ---------------------------------------------------------------------------

  /** One row of the eligible-members query: a member and their share capital. */
  datatype Holder = Holder(id: nat, shares: real)

  /** `role = 'MEMBER' AND is_active` with positive COMPLETED share capital. */
  predicate IsEligible(deposits: seq<Deposit>, u: User) {
    u.role == "MEMBER" && u.isActive && Shares(deposits, u.id) > 0.0
  }

  /** The eligible-members query, in `users` order. */
  function EligibleMembers(users: seq<User>, deposits: seq<Deposit>): (ms: seq<Holder>)
    ensures |ms| == CountWhere(users, (u: User) => IsEligible(deposits, u))
    ensures forall m | m in ms :: m.shares > 0.0 && m.shares == Shares(deposits, m.id)
                                  && exists j :: 0 <= j < |users| && users[j].id == m.id && IsEligible(deposits, users[j])
    ensures forall j :: 0 <= j < |users| && IsEligible(deposits, users[j]) ==> Holder(users[j].id, Shares(deposits, users[j].id)) in ms
    decreases |users|
  {
    if |users| == 0 then []
    else
      var init := EligibleMembers(users[..|users| - 1], deposits);
      var u := users[|users| - 1];
      assert users[..|users| - 1] + [u] == users;
      CountWhereSnocEligible(users[..|users| - 1], u, deposits);
      if IsEligible(deposits, u) then
        assert forall m | m in init :: exists j :: 0 <= j < |users| - 1 && users[j].id == m.id && IsEligible(deposits, users[j]);
        init + [Holder(u.id, Shares(deposits, u.id))]
      else init
  }

  lemma CountWhereSnocEligible(users: seq<User>, u: User, deposits: seq<Deposit>)
    ensures CountWhere(users + [u], (v: User) => IsEligible(deposits, v))
         == CountWhere(users, (v: User) => IsEligible(deposits, v)) + (if IsEligible(deposits, u) then 1 else 0)
  {
    assert (users + [u])[..|users|] == users;
  }

  /** `members.reduce((sum, m) => sum + m.share_capital, 0)`. */
  function TotalShares(ms: seq<Holder>): (t: real)
    ensures (forall m | m in ms :: m.shares > 0.0) && |ms| > 0 ==> t > 0.0
    decreases |ms|
  {
    if |ms| == 0 then 0.0
    else
      assert forall m | m in ms[..|ms| - 1] :: m in ms;
      TotalShares(ms[..|ms| - 1]) + ms[|ms| - 1].shares
  }

  /** The amount one member is allocated. */
  function AllocationAmount(byShares: bool, share: real, totalShares: real, total: real, n: nat): real
    requires byShares ==> totalShares != 0.0
    requires !byShares ==> n > 0
  {
    if byShares then share / totalShares * total else total / (n as real)
  }

  /** The allocation rows for the given members, in order. */
  function AllocationsFor(dividendId: nat, ms: seq<Holder>, byShares: bool, totalShares: real, total: real, n: nat, now: int)
    : (r: seq<Allocation>)
    requires byShares ==> totalShares != 0.0
    requires !byShares ==> n > 0
    ensures |r| == |ms|
    ensures forall k :: 0 <= k < |ms| ==> r[k] == Allocation(dividendId, ms[k].id, ms[k].shares,
                                                               AllocationAmount(byShares, ms[k].shares, totalShares, total, n), "PENDING", now)
    decreases |ms|
  {
    if |ms| == 0 then []
    else
      var m := ms[|ms| - 1];
      AllocationsFor(dividendId, ms[..|ms| - 1], byShares, totalShares, total, n, now)
        + [Allocation(dividendId, m.id, m.shares, AllocationAmount(byShares, m.shares, totalShares, total, n), "PENDING", now)]
  }

  datatype AllocateOutcome = AllocateOutcome(result: Result<nat>, allocations: seq<Allocation>)

  function DividendIdIs(id: nat): Dividend -> bool { (d: Dividend) => d.id == id }

  /** calculateAllocations as a function of the tables. */
  function Allocate(dividends: seq<Dividend>, users: seq<User>, deposits: seq<Deposit>, allocations: seq<Allocation>,
                    dividendId: nat, calcMethod: string, now: int): AllocateOutcome
  {
    match FirstWhere(dividends, DividendIdIs(dividendId))
    case None => AllocateOutcome(Err(DividendNotFound), allocations)
    case Some(i) =>
      var ms := EligibleMembers(users, deposits);
      if |ms| == 0 then AllocateOutcome(Err(NoEligibleMembers), allocations)
      else
        AllocateOutcome(Ok(|ms|), allocations + AllocationsFor(dividendId, ms, calcMethod == "SHARE_BASED", TotalShares(ms),
                                                               dividends[i].totalAmount, |ms|, now))
  }

  /** An unknown dividend and an empty eligible list are refused with nothing written; otherwise
      one allocation row per eligible member is appended and their number is the answer. */
  lemma AllocateOutcomes(dividends: seq<Dividend>, users: seq<User>, deposits: seq<Deposit>, allocations: seq<Allocation>,
                         dividendId: nat, calcMethod: string, now: int)
    ensures var out := Allocate(dividends, users, deposits, allocations, dividendId, calcMethod, now);
      && ((forall i :: 0 <= i < |dividends| ==> dividends[i].id != dividendId) ==> out.result == Err(DividendNotFound))
      && ((exists i :: 0 <= i < |dividends| && dividends[i].id == dividendId) && |EligibleMembers(users, deposits)| == 0
          ==> out.result == Err(NoEligibleMembers))
      && (out.result.Err? ==> out.allocations == allocations)
      && (out.result.Ok? ==>
            var ms := EligibleMembers(users, deposits);
            && out.result.value == |ms| && |ms| > 0
            && exists i :: 0 <= i < |dividends| && dividends[i].id == dividendId
                 && out.allocations == allocations + AllocationsFor(dividendId, ms, calcMethod == "SHARE_BASED", TotalShares(ms),
                                                                    dividends[i].totalAmount, |ms|, now))
  {
  }

  /** The successful case of Allocate, for the dividend found at `i`. */
  lemma AllocateFound(dividends: seq<Dividend>, users: seq<User>, deposits: seq<Deposit>, allocations: seq<Allocation>,
                      dividendId: nat, calcMethod: string, now: int, i: nat)
    requires FirstWhere(dividends, DividendIdIs(dividendId)) == Some(i)
    requires |EligibleMembers(users, deposits)| > 0
    ensures var ms := EligibleMembers(users, deposits);
      Allocate(dividends, users, deposits, allocations, dividendId, calcMethod, now)
        == AllocateOutcome(Ok(|ms|), allocations + AllocationsFor(dividendId, ms, calcMethod == "SHARE_BASED", TotalShares(ms),
                                                                   dividends[i].totalAmount, |ms|, now))
  {
  }

  /** The `for (const m of members)` loop: one PENDING row per member, inserted in order. */
  method InsertAllocations(db: Database, dividendId: nat, members: seq<Holder>, byShares: bool, totalShares: real,
                           total: real, now: int)
    requires byShares ==> totalShares != 0.0
    requires !byShares ==> |members| > 0
    modifies db`allocations
    ensures db.allocations == old(db.allocations) + AllocationsFor(dividendId, members, byShares, totalShares, total, |members|, now)
  {
    ghost var all := AllocationsFor(dividendId, members, byShares, totalShares, total, |members|, now);
    var k := 0;
    while k < |members|
      invariant 0 <= k <= |members|
      invariant db.allocations == old(db.allocations) + all[..k]
    {
      var m := members[k];
      var amount := AllocationAmount(byShares, m.shares, totalShares, total, |members|);
      assert all[..k + 1] == all[..k] + [all[k]];
      db.allocations := db.allocations + [Allocation(dividendId, m.id, m.shares, amount, "PENDING", now)];
      k := k + 1;
    }
    assert all[..k] == all;
  }

  /** `calculateAllocations(dividendId, method, userId)`: one PENDING allocation per eligible member;
      the answer is the number of members. `now` is the payment-date default. */
  method CalculateAllocations(db: Database, dividendId: nat, calcMethod: string, now: int) returns (r: Result<nat>)
    modifies db`allocations
    ensures var out := Allocate(db.dividends, db.users, db.deposits, old(db.allocations), dividendId, calcMethod, now);
      r == out.result && db.allocations == out.allocations
  {
    var found := FirstWhere(db.dividends, DividendIdIs(dividendId));
    if found.None? {
      return Err(DividendNotFound);
    }
    var dividend := db.dividends[found.value];
    var members := EligibleMembers(db.users, db.deposits);
    if |members| == 0 {
      return Err(NoEligibleMembers);
    }
    var totalShares := TotalShares(members);
    AllocateFound(db.dividends, db.users, db.deposits, db.allocations, dividendId, calcMethod, now, found.value);
    InsertAllocations(db, dividendId, members, calcMethod == "SHARE_BASED", totalShares, dividend.totalAmount, now);
    return Ok(|members|);
  }

  function OfDividend(id: nat): Allocation -> bool { (a: Allocation) => a.dividendId == id }
  function AllocatedAmount(a: Allocation): real { a.amount }

  /** `(a / t) * x + (b / t) * x == ((a + b) / t) * x`. */
  lemma ShareOfSum(a: real, b: real, t: real, x: real)
    requires t != 0.0
    ensures a / t * x + b / t * x == (a + b) / t * x
  {
    assert a / t + b / t == (a + b) / t;
  }

  /** `k * c + c == (k + 1) * c`. */
  lemma CountTimes(k: nat, c: real)
    ensures (k as real) * c + c == ((k + 1) as real) * c
  {
  }

  function ShareValue(a: Allocation): real { a.shareValue }

  /** `(a / t) * x == (x / t) * a`. */
  lemma PartTimes(a: real, t: real, x: real)
    requires t != 0.0
    ensures a / t * x == (x / t) * a
  {
  }

  /** Rows of one dividend that record the members' shares, one each, record the total shares. */
  lemma {:induction false} RecordedShares(rows: seq<Allocation>, ms: seq<Holder>, dividendId: nat)
    requires |rows| == |ms|
    requires forall k :: 0 <= k < |rows| ==> rows[k].dividendId == dividendId && rows[k].shareValue == ms[k].shares
    ensures SumWhere(rows, OfDividend(dividendId), ShareValue) == TotalShares(ms)
    decreases |rows|
  {
    if |rows| > 0 {
      var ri := rows[..|rows| - 1];
      var mi := ms[..|ms| - 1];
      assert forall k :: 0 <= k < |ri| ==> ri[k] == rows[k] && mi[k] == ms[k];
      RecordedShares(ri, mi, dividendId);
    }
  }

  /** Rows that carry each member's part of the shares add up to the members' part of the total. */
  lemma ProportionalSum(rows: seq<Allocation>, ms: seq<Holder>, dividendId: nat, t: real, total: real)
    requires t != 0.0 && |rows| == |ms|
    requires forall k :: 0 <= k < |rows| ==>
               rows[k].dividendId == dividendId && rows[k].shareValue == ms[k].shares && rows[k].amount == ms[k].shares / t * total
    ensures SumWhere(rows, OfDividend(dividendId), AllocatedAmount) == TotalShares(ms) / t * total
  {
    var c := total / t;
    forall k | 0 <= k < |rows|
      ensures AllocatedAmount(rows[k]) == c * ShareValue(rows[k])
    {
      PartTimes(ms[k].shares, t, total);
    }
    SumWhereScale(rows, OfDividend(dividendId), ShareValue, AllocatedAmount, c);
    RecordedShares(rows, ms, dividendId);
    PartTimes(TotalShares(ms), t, total);
  }

  /** With the share-based method every row carries its member's part of the total. */
  lemma ShareAmounts(dividendId: nat, ms: seq<Holder>, totalShares: real, total: real, n: nat, now: int)
    requires totalShares != 0.0
    ensures var rows := AllocationsFor(dividendId, ms, true, totalShares, total, n, now);
      forall k :: 0 <= k < |rows| ==>
        rows[k].dividendId == dividendId && rows[k].shareValue == ms[k].shares && rows[k].amount == ms[k].shares / totalShares * total
  {
    var rows := AllocationsFor(dividendId, ms, true, totalShares, total, n, now);
    forall k | 0 <= k < |rows|
      ensures rows[k].dividendId == dividendId && rows[k].shareValue == ms[k].shares
           && rows[k].amount == ms[k].shares / totalShares * total
    {
      assert AllocationAmount(true, ms[k].shares, totalShares, total, n) == ms[k].shares / totalShares * total;
    }
  }

  /** Rows of one dividend that all carry the same amount add up to that amount times their number. */
  lemma {:induction false} SameAmountSum(rows: seq<Allocation>, dividendId: nat, c: real, count: nat)
    requires |rows| == count
    requires forall k :: 0 <= k < |rows| ==> rows[k].dividendId == dividendId && rows[k].amount == c
    ensures SumWhere(rows, OfDividend(dividendId), AllocatedAmount) == (count as real) * c
    decreases |rows|
  {
    if |rows| > 0 {
      var init := rows[..|rows| - 1];
      assert forall k :: 0 <= k < |init| ==> init[k] == rows[k];
      SameAmountSum(init, dividendId, c, count - 1);
      CountTimes(count - 1, c);
    }
  }

  /** With the equal split every row of the dividend carries total / n. */
  lemma EqualAmounts(dividendId: nat, ms: seq<Holder>, totalShares: real, total: real, n: nat, now: int)
    requires n > 0
    ensures var rows := AllocationsFor(dividendId, ms, false, totalShares, total, n, now);
      forall k :: 0 <= k < |rows| ==> rows[k].dividendId == dividendId && rows[k].amount == total / (n as real)
  {
    var rows := AllocationsFor(dividendId, ms, false, totalShares, total, n, now);
    forall k | 0 <= k < |rows|
      ensures rows[k].dividendId == dividendId && rows[k].amount == total / (n as real)
    {
      assert AllocationAmount(false, ms[k].shares, totalShares, total, n) == total / (n as real);
    }
  }

  lemma WholeShare(t: real, x: real)
    requires t != 0.0
    ensures t / t * x == x
  {
  }

  lemma EqualParts(k: real, x: real)
    requires k != 0.0
    ensures k * (x / k) == x
  {
  }

  /** Either way, the allocations for a non-empty run of shareholders add up to the total. */
  lemma SplitSumsToTotal(dividendId: nat, ms: seq<Holder>, byShares: bool, total: real, now: int)
    requires |ms| > 0 && TotalShares(ms) != 0.0
    ensures SumWhere(AllocationsFor(dividendId, ms, byShares, TotalShares(ms), total, |ms|, now), OfDividend(dividendId), AllocatedAmount)
         == total
  {
    var ts := TotalShares(ms);
    var rows := AllocationsFor(dividendId, ms, byShares, ts, total, |ms|, now);
    if byShares {
      ShareAmounts(dividendId, ms, ts, total, |ms|, now);
      ProportionalSum(rows, ms, dividendId, ts, total);
      WholeShare(ts, total);
    } else {
      EqualAmounts(dividendId, ms, ts, total, |ms|, now);
      SameAmountSum(rows, dividendId, total / (|ms| as real), |ms|);
      EqualParts(|ms| as real, total);
    }
  }

  /** In exact arithmetic the allocations of a dividend that had none add up to its total amount,
      whichever method is chosen, and there is one per eligible member. */
  lemma AllocationsSumToTotal(dividends: seq<Dividend>, users: seq<User>, deposits: seq<Deposit>, allocations: seq<Allocation>,
                              dividendId: nat, calcMethod: string, now: int)
    requires forall k :: 0 <= k < |allocations| ==> allocations[k].dividendId != dividendId
    ensures var out := Allocate(dividends, users, deposits, allocations, dividendId, calcMethod, now);
      out.result.Ok? ==>
        && |out.allocations| == |allocations| + out.result.value
        && exists i :: 0 <= i < |dividends| && dividends[i].id == dividendId
             && SumWhere(out.allocations, OfDividend(dividendId), AllocatedAmount) == dividends[i].totalAmount
  {
    var out := Allocate(dividends, users, deposits, allocations, dividendId, calcMethod, now);
    if out.result.Ok? {
      var i := FirstWhere(dividends, DividendIdIs(dividendId)).value;
      var ms := EligibleMembers(users, deposits);
      var added := AllocationsFor(dividendId, ms, calcMethod == "SHARE_BASED", TotalShares(ms), dividends[i].totalAmount, |ms|, now);
      assert out.allocations == allocations + added;
      SumWhereNoMatch(allocations, OfDividend(dividendId), AllocatedAmount);
      SumWhereAppend(allocations, added, OfDividend(dividendId), AllocatedAmount);
      SplitSumsToTotal(dividendId, ms, calcMethod == "SHARE_BASED", dividends[i].totalAmount, now);
    }
  }

  /** Nothing stops a second run: allocating the same dividend again adds a second full set of rows. */
  lemma AllocateTwiceDuplicates(dividends: seq<Dividend>, users: seq<User>, deposits: seq<Deposit>, allocations: seq<Allocation>,
                                dividendId: nat, calcMethod: string, now: int, later: int)
    ensures var first := Allocate(dividends, users, deposits, allocations, dividendId, calcMethod, now);
      var second := Allocate(dividends, users, deposits, first.allocations, dividendId, calcMethod, later);
      first.result.Ok? ==> second.result == first.result && |second.allocations| == |allocations| + 2 * first.result.value
  {
  }
}
