/**
 * Table-level building blocks that stand for the SQL the services issue:
 * `COALESCE(SUM(..), 0) WHERE ..` is SumWhere, `COUNT(*) WHERE ..` is CountWhere,
 * `SELECT .. WHERE ..` is Filter, `UPDATE .. WHERE ..` is UpdateWhere, and a SERIAL
 * primary key draws a fresh value above MaxId.
 * A table is a sequence of rows in creation order.
 */
module Sums {

  /** Sum of `amt` over the rows that satisfy `p`; no matching row gives 0. */
  function SumWhere<T>(xs: seq<T>, p: T -> bool, amt: T -> real): real
    decreases |xs|
  {
    if |xs| == 0 then 0.0
    else SumWhere(xs[..|xs| - 1], p, amt) + (if p(xs[|xs| - 1]) then amt(xs[|xs| - 1]) else 0.0)
  }

  /** Summing a concatenation sums the parts. */
  lemma {:induction false} SumWhereAppend<T>(xs: seq<T>, ys: seq<T>, p: T -> bool, amt: T -> real)
    ensures SumWhere(xs + ys, p, amt) == SumWhere(xs, p, amt) + SumWhere(ys, p, amt)
    decreases |ys|
  {
    if |ys| == 0 {
      assert xs + ys == xs;
    } else {
      var ys' := ys[..|ys| - 1];
      assert (xs + ys)[..|xs + ys| - 1] == xs + ys';
      SumWhereAppend(xs, ys', p, amt);
    }
  }

  /** Appending one row adds its amount exactly when it matches. */
  lemma SumWhereSnoc<T>(xs: seq<T>, x: T, p: T -> bool, amt: T -> real)
    ensures SumWhere(xs + [x], p, amt) == SumWhere(xs, p, amt) + (if p(x) then amt(x) else 0.0)
  {
    assert (xs + [x])[..|xs|] == xs;
  }

  /** An empty filter sums to 0. */
  lemma {:induction false} SumWhereNoMatch<T>(xs: seq<T>, p: T -> bool, amt: T -> real)
    requires forall i :: 0 <= i < |xs| ==> !p(xs[i])
    ensures SumWhere(xs, p, amt) == 0.0
    decreases |xs|
  {
    if |xs| > 0 {
      SumWhereNoMatch(xs[..|xs| - 1], p, amt);
    }
  }

  /** Two filtered sums agree when the filters and the amounts agree on every row. */
  lemma {:induction false} SumWhereExt<T>(xs: seq<T>, p: T -> bool, q: T -> bool, f: T -> real, g: T -> real)
    requires forall i :: 0 <= i < |xs| ==> p(xs[i]) == q(xs[i])
    requires forall i :: 0 <= i < |xs| && p(xs[i]) ==> f(xs[i]) == g(xs[i])
    ensures SumWhere(xs, p, f) == SumWhere(xs, q, g)
    decreases |xs|
  {
    if |xs| > 0 {
      SumWhereExt(xs[..|xs| - 1], p, q, f, g);
    }
  }

  /** A constant factor on every matching amount comes out of the sum. */
  lemma {:induction false} SumWhereScale<T>(xs: seq<T>, p: T -> bool, f: T -> real, g: T -> real, c: real)
    requires forall i :: 0 <= i < |xs| && p(xs[i]) ==> g(xs[i]) == c * f(xs[i])
    ensures SumWhere(xs, p, g) == c * SumWhere(xs, p, f)
    decreases |xs|
  {
    if |xs| > 0 {
      SumWhereScale(xs[..|xs| - 1], p, f, g, c);
    }
  }

  /** Non-negative amounts give a non-negative sum. */
  lemma {:induction false} SumWhereNonneg<T>(xs: seq<T>, p: T -> bool, amt: T -> real)
    requires forall i :: 0 <= i < |xs| && p(xs[i]) ==> amt(xs[i]) >= 0.0
    ensures SumWhere(xs, p, amt) >= 0.0
    decreases |xs|
  {
    if |xs| > 0 {
      SumWhereNonneg(xs[..|xs| - 1], p, amt);
    }
  }

  /** A filter that is the disjoint union of two others sums to the sum of the two. */
  lemma {:induction false} SumWherePartition<T>(xs: seq<T>, p: T -> bool, q: T -> bool, r: T -> bool, amt: T -> real)
    requires forall i :: 0 <= i < |xs| ==> (p(xs[i]) <==> q(xs[i]) || r(xs[i])) && !(q(xs[i]) && r(xs[i]))
    ensures SumWhere(xs, p, amt) == SumWhere(xs, q, amt) + SumWhere(xs, r, amt)
    decreases |xs|
  {
    if |xs| > 0 {
      SumWherePartition(xs[..|xs| - 1], p, q, r, amt);
    }
  }

  /** A difference of amounts sums to the difference of the sums. */
  lemma {:induction false} SumWhereSub<T>(xs: seq<T>, p: T -> bool, f: T -> real, g: T -> real, h: T -> real)
    requires forall i :: 0 <= i < |xs| && p(xs[i]) ==> h(xs[i]) == f(xs[i]) - g(xs[i])
    ensures SumWhere(xs, p, h) == SumWhere(xs, p, f) - SumWhere(xs, p, g)
    decreases |xs|
  {
    if |xs| > 0 {
      SumWhereSub(xs[..|xs| - 1], p, f, g, h);
    }
  }

  /** Number of rows that satisfy `p`. */
  function CountWhere<T>(xs: seq<T>, p: T -> bool): (n: nat)
    ensures n <= |xs|
    decreases |xs|
  {
    if |xs| == 0 then 0
    else CountWhere(xs[..|xs| - 1], p) + (if p(xs[|xs| - 1]) then 1 else 0)
  }

  /** A constant amount on every matching row sums to that amount times the count. */
  lemma {:induction false} SumWhereConst<T>(xs: seq<T>, p: T -> bool, amt: T -> real, c: real)
    requires forall i :: 0 <= i < |xs| && p(xs[i]) ==> amt(xs[i]) == c
    ensures SumWhere(xs, p, amt) == (CountWhere(xs, p) as real) * c
    decreases |xs|
  {
    if |xs| > 0 {
      SumWhereConst(xs[..|xs| - 1], p, amt, c);
    }
  }

  function Const<T>(c: real): T -> real { (x: T) => c }

  /** When a rewrite lowers every row's contribution by `c` exactly on the rows satisfying `q`,
      the sum drops by `c` times the number of those rows. */
  lemma SumWhereShift<T>(xs: seq<T>, ys: seq<T>, p: T -> bool, f: T -> real, q: T -> bool, c: real)
    requires |xs| == |ys|
    requires forall i :: 0 <= i < |xs| ==>
      (if p(ys[i]) then f(ys[i]) else 0.0) == (if p(xs[i]) then f(xs[i]) else 0.0) - (if q(xs[i]) then c else 0.0)
    ensures SumWhere(ys, p, f) == SumWhere(xs, p, f) - c * (CountWhere(xs, q) as real)
  {
    SumWhereShiftBy(xs, ys, p, f, q, c);
    SumWhereConst(xs, q, Const(c), c);
  }

  lemma {:induction false} SumWhereShiftBy<T>(xs: seq<T>, ys: seq<T>, p: T -> bool, f: T -> real, q: T -> bool, c: real)
    requires |xs| == |ys|
    requires forall i :: 0 <= i < |xs| ==>
      (if p(ys[i]) then f(ys[i]) else 0.0) == (if p(xs[i]) then f(xs[i]) else 0.0) - (if q(xs[i]) then c else 0.0)
    ensures SumWhere(ys, p, f) == SumWhere(xs, p, f) - SumWhere(xs, q, Const(c))
    decreases |xs|
  {
    if |xs| > 0 {
      var n := |xs| - 1;
      assert forall i :: 0 <= i < n ==> xs[..n][i] == xs[i] && ys[..n][i] == ys[i];
      SumWhereShiftBy(xs[..n], ys[..n], p, f, q, c);
    }
  }

  /** A weaker filter counts at least as many rows. */
  lemma {:induction false} CountWhereMono<T>(xs: seq<T>, p: T -> bool, q: T -> bool)
    requires forall i :: 0 <= i < |xs| && p(xs[i]) ==> q(xs[i])
    ensures CountWhere(xs, p) <= CountWhere(xs, q)
    decreases |xs|
  {
    if |xs| > 0 {
      CountWhereMono(xs[..|xs| - 1], p, q);
    }
  }

  /** No row matches exactly when the count is 0. */
  lemma {:induction false} CountWhereZero<T>(xs: seq<T>, p: T -> bool)
    ensures CountWhere(xs, p) == 0 <==> forall i :: 0 <= i < |xs| ==> !p(xs[i])
    decreases |xs|
  {
    if |xs| > 0 {
      CountWhereZero(xs[..|xs| - 1], p);
      assert forall i :: 0 <= i < |xs| - 1 ==> xs[..|xs| - 1][i] == xs[i];
    }
  }

  /** The positions of the rows that satisfy `p`: every such position once, in increasing order. */
  function MatchIndices<T>(xs: seq<T>, p: T -> bool): (idx: seq<nat>)
    ensures forall k :: 0 <= k < |idx| ==> idx[k] < |xs| && p(xs[idx[k]])
    ensures forall k, l :: 0 <= k < l < |idx| ==> idx[k] < idx[l]
    ensures forall i :: 0 <= i < |xs| && p(xs[i]) ==> i in idx
    decreases |xs|
  {
    if |xs| == 0 then []
    else
      var init := MatchIndices(xs[..|xs| - 1], p);
      assert forall i :: 0 <= i < |xs| - 1 ==> xs[..|xs| - 1][i] == xs[i];
      if p(xs[|xs| - 1]) then init + [|xs| - 1] else init
  }

  /** The rows that satisfy `p`, in table order: the k-th row of the result is the row at the
      k-th matching position. */
  function Filter<T>(xs: seq<T>, p: T -> bool): (r: seq<T>)
    ensures |r| == CountWhere(xs, p)
    ensures forall x | x in r :: x in xs && p(x)
    ensures forall x | x in xs && p(x) :: x in r
    decreases |xs|
  {
    if |xs| == 0 then []
    else
      var init := Filter(xs[..|xs| - 1], p);
      assert xs == xs[..|xs| - 1] + [xs[|xs| - 1]];
      if p(xs[|xs| - 1]) then init + [xs[|xs| - 1]] else init
  }

  /** Filter keeps table order: its k-th row is the row at the k-th matching position. */
  lemma {:induction false} FilterAt<T>(xs: seq<T>, p: T -> bool)
    ensures |Filter(xs, p)| == |MatchIndices(xs, p)|
    ensures forall k :: 0 <= k < |Filter(xs, p)| ==> Filter(xs, p)[k] == xs[MatchIndices(xs, p)[k]]
    decreases |xs|
  {
    if |xs| > 0 {
      var init := xs[..|xs| - 1];
      FilterAt(init, p);
      assert forall i :: 0 <= i < |init| ==> init[i] == xs[i];
    }
  }

  /** A table read backwards (ORDER BY created_at DESC over rows kept in creation order). */
  function Reverse<T>(xs: seq<T>): (r: seq<T>)
    ensures |r| == |xs|
    ensures forall i :: 0 <= i < |xs| ==> r[i] == xs[|xs| - 1 - i]
    decreases |xs|
  {
    if |xs| == 0 then [] else [xs[|xs| - 1]] + Reverse(xs[..|xs| - 1])
  }

  /** The last row of a filter is the table's last matching row. */
  lemma {:induction false} FilterLast<T>(xs: seq<T>, p: T -> bool)
    ensures var f := Filter(xs, p);
      |f| > 0 ==> LastWhere(xs, p).Some? && f[|f| - 1] == xs[LastWhere(xs, p).value]
    decreases |xs|
  {
    if |xs| > 0 && !p(xs[|xs| - 1]) {
      var init := xs[..|xs| - 1];
      FilterLast(init, p);
      assert Filter(xs, p) == Filter(init, p);
      assert LastWhere(xs, p) == LastWhere(init, p);
      if LastWhere(init, p).Some? {
        assert init[LastWhere(init, p).value] == xs[LastWhere(init, p).value];
      }
    }
  }

  /** The last m rows of f, the last one first. */
  function Backwards<T>(f: seq<T>, m: nat): (r: seq<T>)
    requires m <= |f|
    ensures |r| == m
    ensures forall k :: 0 <= k < m ==> r[k] == f[|f| - 1 - k]
    ensures forall x | x in r :: x in f
    ensures m == |f| ==> forall x | x in f :: x in r
  {
    var r := seq(m, k requires 0 <= k < m => f[|f| - 1 - k]);
    BackwardsAll(f, m, r);
    r
  }

  /** Reading all of f backwards misses none of its rows. */
  lemma BackwardsAll<T>(f: seq<T>, m: nat, r: seq<T>)
    requires m <= |f| && |r| == m
    requires forall k :: 0 <= k < m ==> r[k] == f[|f| - 1 - k]
    ensures m == |f| ==> forall x | x in f :: x in r
  {
    if m == |f| {
      forall x | x in f ensures x in r {
        var j :| 0 <= j < |f| && f[j] == x;
        assert r[|f| - 1 - j] == x;
      }
    }
  }

  /** `.. WHERE p ORDER BY created_at DESC LIMIT n`: up to n matching rows, the newest first. */
  function NewestFirst<T>(xs: seq<T>, p: T -> bool, n: nat): (r: seq<T>)
    ensures |r| == if CountWhere(xs, p) < n then CountWhere(xs, p) else n
    ensures forall x | x in r :: x in xs && p(x)
    ensures CountWhere(xs, p) <= n ==> forall x | x in xs && p(x) :: x in r
    ensures |r| > 0 ==> LastWhere(xs, p).Some? && r[0] == xs[LastWhere(xs, p).value]
    ensures var f := Filter(xs, p); |r| <= |f| && forall k :: 0 <= k < |r| ==> r[k] == f[|f| - 1 - k]
  {
    var f := Filter(xs, p);
    FilterLast(xs, p);
    Backwards(f, if |f| <= n then |f| else n)
  }

  /** Reading a table backwards keeps exactly its rows. */
  lemma ReverseMembers<T>(xs: seq<T>)
    ensures forall x | x in Reverse(xs) :: x in xs
    ensures forall x | x in xs :: x in Reverse(xs)
  {
    var r := Reverse(xs);
    forall x | x in xs ensures x in r {
      var j :| 0 <= j < |xs| && xs[j] == x;
      assert r[|xs| - 1 - j] == x;
    }
  }

  /** `UPDATE .. SET f(row) WHERE p(row)`: every matching row is rewritten, the rest are kept. */
  function UpdateWhere<T>(xs: seq<T>, p: T -> bool, f: T -> T): (r: seq<T>)
    ensures |r| == |xs|
    ensures forall i :: 0 <= i < |xs| ==> r[i] == if p(xs[i]) then f(xs[i]) else xs[i]
  {
    seq(|xs|, i requires 0 <= i < |xs| => if p(xs[i]) then f(xs[i]) else xs[i])
  }

  /** Index of the first row that satisfies `p` (`.. WHERE p LIMIT 1`), if any. */
  function FirstWhere<T>(xs: seq<T>, p: T -> bool): (r: Option<nat>)
    ensures r.None? <==> forall i :: 0 <= i < |xs| ==> !p(xs[i])
    ensures r.Some? ==> r.value < |xs| && p(xs[r.value]) && forall i :: 0 <= i < r.value ==> !p(xs[i])
    decreases |xs|
  {
    if |xs| == 0 then None
    else if p(xs[0]) then Some(0)
    else
      match FirstWhere(xs[1..], p)
      case None => None
      case Some(k) => Some(k + 1)
  }

  /** Index of the last row that satisfies `p` (`ORDER BY created_at DESC LIMIT 1`), if any. */
  function LastWhere<T>(xs: seq<T>, p: T -> bool): (r: Option<nat>)
    ensures r.None? <==> forall i :: 0 <= i < |xs| ==> !p(xs[i])
    ensures r.Some? ==> r.value < |xs| && p(xs[r.value]) && forall i :: r.value < i < |xs| ==> !p(xs[i])
    decreases |xs|
  {
    if |xs| == 0 then None
    else if p(xs[|xs| - 1]) then Some(|xs| - 1)
    else LastWhere(xs[..|xs| - 1], p)
  }

  /** Largest key in a table, 0 for an empty one. */
  function MaxId<T>(xs: seq<T>, id: T -> nat): (m: nat)
    ensures forall i :: 0 <= i < |xs| ==> id(xs[i]) <= m
    decreases |xs|
  {
    if |xs| == 0 then 0
    else
      var m := MaxId(xs[..|xs| - 1], id);
      assert forall i :: 0 <= i < |xs| - 1 ==> xs[..|xs| - 1][i] == xs[i];
      if id(xs[|xs| - 1]) > m then id(xs[|xs| - 1]) else m
  }

  import opened Wrappers
}
