/**
 * Pure definitions behind the budget ledger: how ids are assigned and looked
 * up, how a record is spliced out, how totals are summed and how a share of
 * the total income is rounded to a whole percentage.
 */
module LedgerSpec {

  /** The -1 that the ledger stores for "percentage not computable". */
  const Sentinel: int := -1

  /** Ids in sequence order are strictly increasing, hence pairwise distinct. */
  ghost predicate StrictlyIncreasing(ids: seq<int>) {
    forall i, j :: 0 <= i < j < |ids| ==> ids[i] < ids[j]
  }

  /** The id a new record receives: the id of the last record plus one, or 0. */
  function NextId(ids: seq<nat>): (r: nat)
    ensures |ids| == 0 ==> r == 0
    ensures StrictlyIncreasing(ids) ==> forall i :: 0 <= i < |ids| ==> ids[i] < r
  {
    if |ids| == 0 then 0 else ids[|ids| - 1] + 1
  }

  /** The first position of `id` in `ids`, or -1 when it does not occur. */
  function IndexOf(ids: seq<int>, id: int): (k: int)
    ensures -1 <= k < |ids|
    ensures k == -1 <==> id !in ids
    ensures 0 <= k ==> ids[k] == id && id !in ids[..k]
  {
    if |ids| == 0 then -1
    else if ids[0] == id then 0
    else
      var k := IndexOf(ids[1..], id);
      assert ids[1..][..(if k < 0 then 0 else k)] == ids[1..(if k < 0 then 0 else k) + 1];
      if k == -1 then -1 else k + 1
  }

  /** The sequence with the element at position `k` cut out, the rest kept in order. */
  function RemoveAt<T>(s: seq<T>, k: nat): (r: seq<T>)
    requires k < |s|
    ensures |r| == |s| - 1
    ensures forall i :: 0 <= i < k ==> r[i] == s[i]
    ensures forall i :: k <= i < |r| ==> r[i] == s[i + 1]
  {
    s[..k] + s[k + 1..]
  }

  /** The sum of a sequence of amounts. */
  function Sum(xs: seq<int>): int {
    if |xs| == 0 then 0 else Sum(xs[..|xs| - 1]) + xs[|xs| - 1]
  }

  ghost predicate AllPositive(xs: seq<int>) {
    forall i :: 0 <= i < |xs| ==> xs[i] > 0
  }

  /**
   * Math.round(part / whole * 100) for part >= 0 and whole > 0, computed
   * exactly: the whole number r with r - 1/2 <= 100 * part / whole < r + 1/2.
   */
  function RoundedPercent(part: nat, whole: nat): (r: nat)
    requires whole > 0
    ensures 2 * whole * r - whole <= 200 * part < 2 * whole * r + whole
  {
    (200 * part + whole) / (2 * whole)
  }

  /** A rounded percentage of `whole`, or the sentinel when `whole` is not positive. */
  function Percent(part: nat, whole: int): (r: int)
    ensures r == Sentinel <==> whole <= 0
    ensures whole > 0 ==> 0 <= r && 2 * whole * r - whole <= 200 * part < 2 * whole * r + whole
  {
    if whole > 0 then RoundedPercent(part, whole) else Sentinel
  }

  // ---------------------------------------------------------------------------
  // Id assignment

  /** Appending the next id keeps the ids strictly increasing. */
  lemma AppendNextIdKeepsIncreasing(ids: seq<nat>)
    requires StrictlyIncreasing(ids)
    ensures StrictlyIncreasing(ids + [NextId(ids)])
    ensures NextId(ids) !in ids
  {
  }

  /** Cutting out one id keeps the ids strictly increasing. */
  lemma RemoveAtKeepsIncreasing(ids: seq<int>, k: nat)
    requires k < |ids| && StrictlyIncreasing(ids)
    ensures StrictlyIncreasing(RemoveAt(ids, k))
    ensures ids[k] !in RemoveAt(ids, k)
  {
    var r := RemoveAt(ids, k);
    forall i, j | 0 <= i < j < |r| ensures r[i] < r[j] {
      var i' := if i < k then i else i + 1;
      var j' := if j < k then j else j + 1;
      assert r[i] == ids[i'] && r[j] == ids[j'];
    }
    forall i | 0 <= i < |r| ensures r[i] != ids[k] {
      if i < k { assert r[i] == ids[i]; } else { assert r[i] == ids[i + 1]; }
    }
  }

  /** Ids produced by `n` additions to an empty sequence, with no deletion in between. */
  function IdsAfterAdds(n: nat): seq<nat> {
    if n == 0 then [] else var ids := IdsAfterAdds(n - 1); ids + [NextId(ids)]
  }

  /** Repeated additions with no deletion hand out 0, 1, 2, ... in order. */
  lemma {:induction false} IdsAfterAddsCount(n: nat)
    ensures |IdsAfterAdds(n)| == n
    ensures forall i :: 0 <= i < n ==> IdsAfterAdds(n)[i] == i
  {
    if n > 0 {
      IdsAfterAddsCount(n - 1);
      var prev := IdsAfterAdds(n - 1);
      assert IdsAfterAdds(n) == prev + [NextId(prev)];
      assert n - 1 > 0 ==> prev[n - 2] == n - 2;
    }
  }

  /**
   * Deleting the record at the tail never raises the next id above the id
   * just deleted, and the deleted id is handed out again exactly when no gap
   * precedes it.
   */
  lemma DeleteTailNextId(ids: seq<nat>)
    requires StrictlyIncreasing(ids) && |ids| > 0
    ensures NextId(RemoveAt(ids, |ids| - 1)) <= ids[|ids| - 1]
    ensures NextId(RemoveAt(ids, |ids| - 1)) == ids[|ids| - 1] <==>
              if |ids| == 1 then ids[0] == 0 else ids[|ids| - 2] + 1 == ids[|ids| - 1]
  {
    var r := RemoveAt(ids, |ids| - 1);
    if |ids| > 1 {
      assert r[|r| - 1] == ids[|ids| - 2];
    }
  }

  /** After `n` plain additions, deleting the newest record makes its id the next one again. */
  lemma DeleteNewestReusesId(n: nat)
    requires n > 0
    ensures |IdsAfterAdds(n)| == n
    ensures IndexOf(IdsAfterAdds(n), n - 1) == n - 1
    ensures NextId(RemoveAt(IdsAfterAdds(n), n - 1)) == n - 1
  {
    IdsAfterAddsCount(n);
    var ids := IdsAfterAdds(n);
    assert StrictlyIncreasing(ids);
    assert n - 1 !in ids[..n - 1];
    DeleteTailNextId(ids);
  }

  // ---------------------------------------------------------------------------
  // Totals

  lemma {:induction false} SumAppend(xs: seq<int>, x: int)
    ensures Sum(xs + [x]) == Sum(xs) + x
  {
    assert (xs + [x])[..|xs|] == xs;
  }

  /** Cutting out one amount lowers the sum by exactly that amount. */
  lemma {:induction false} SumRemoveAt(xs: seq<int>, k: nat)
    requires k < |xs|
    ensures Sum(RemoveAt(xs, k)) == Sum(xs) - xs[k]
  {
    var n := |xs|;
    if k == n - 1 {
      assert RemoveAt(xs, k) == xs[..n - 1];
    } else {
      var init := xs[..n - 1];
      SumRemoveAt(init, k);
      assert RemoveAt(xs, k) == RemoveAt(init, k) + [xs[n - 1]];
      SumAppend(RemoveAt(init, k), xs[n - 1]);
    }
  }

  /** Positive amounts have a non-negative sum, positive unless there are none. */
  lemma {:induction false} SumOfPositive(xs: seq<int>)
    requires AllPositive(xs)
    ensures Sum(xs) >= 0
    ensures |xs| > 0 ==> Sum(xs) > 0
  {
    if |xs| > 0 {
      SumOfPositive(xs[..|xs| - 1]);
    }
  }

  // ---------------------------------------------------------------------------
  // Percentages

  /** The rounding bounds pin the percentage down: no other whole number meets them. */
  lemma RoundedPercentUnique(part: nat, whole: nat, r': int)
    requires whole > 0
    requires 2 * whole * r' - whole <= 200 * part < 2 * whole * r' + whole
    ensures r' == RoundedPercent(part, whole)
  {
    var r := RoundedPercent(part, whole);
    if r' < r {
      MulMonotone(2 * whole, r' + 1, r);
      assert false;
    } else if r' > r {
      MulMonotone(2 * whole, r + 1, r');
      assert false;
    }
  }

  /**
   * Read over the reals, RoundedPercent is Math.round(part / whole * 100) for
   * these operands: the greatest whole number not above part / whole * 100 + 1/2.
   */
  lemma RoundedPercentIsRound(part: nat, whole: nat)
    requires whole > 0
    ensures var r := RoundedPercent(part, whole) as real;
            var x := (part as real) / (whole as real) * 100.0;
            r <= x + 0.5 < r + 1.0
  {
    var r := RoundedPercent(part, whole);
    var c, x := 2.0 * (whole as real), (part as real) / (whole as real) * 100.0;
    ScaledBoundsAsReals(part, whole, r);
    ScaledPercent(part, whole);
    RealScaleCancel(c, r as real - 0.5, x, r as real + 0.5, (200 * part) as real);
  }

  /** The integer rounding bounds, read as products of reals. */
  lemma ScaledBoundsAsReals(part: nat, whole: nat, r: int)
    requires 2 * whole * r - whole <= 200 * part < 2 * whole * r + whole
    ensures var w, rr := whole as real, r as real;
            (2.0 * w) * (rr - 0.5) <= (200 * part) as real < (2.0 * w) * (rr + 0.5)
  {
    var w, rr := whole as real, r as real;
    CastProduct(2 * whole, r);
    assert (2.0 * w) * (rr - 0.5) == ((2 * whole * r) as real) - w;
    assert (2.0 * w) * (rr + 0.5) == ((2 * whole * r) as real) + w;
  }

  /** Twice the whole times part / whole * 100 is 200 * part. */
  lemma ScaledPercent(part: nat, whole: nat)
    requires whole > 0
    ensures (2.0 * (whole as real)) * ((part as real) / (whole as real) * 100.0) == (200 * part) as real
  {
    var w, p := whole as real, part as real;
    assert (p / w) * w == p;
    assert (2.0 * w) * ((p / w) * 100.0) == 200.0 * ((p / w) * w);
  }

  /** A positive factor can be cancelled from a bracket of products around `c * x`. */
  lemma RealScaleCancel(c: real, lo: real, x: real, hi: real, cx: real)
    requires c > 0.0 && c * x == cx && c * lo <= cx < c * hi
    ensures lo <= x < hi
  {
  }

  lemma CastProduct(a: int, b: int)
    ensures (a * b) as real == (a as real) * (b as real)
  {
  }

  /** A part no larger than the whole is at most 100 percent of it. */
  lemma RoundedPercentAtMost100(part: nat, whole: nat)
    requires 0 < whole && part <= whole
    ensures RoundedPercent(part, whole) <= 100
  {
    var r := RoundedPercent(part, whole);
    if r > 100 {
      MulMonotone(2 * whole, 101, r);
      assert false;
    }
  }

  /** A larger part never gets a smaller rounded percentage. */
  lemma RoundedPercentMonotone(p: nat, q: nat, whole: nat)
    requires 0 < whole && p <= q
    ensures RoundedPercent(p, whole) <= RoundedPercent(q, whole)
  {
    var a, b := RoundedPercent(p, whole), RoundedPercent(q, whole);
    if a > b {
      MulMonotone(2 * whole, b + 1, a);
      assert false;
    }
  }

  lemma MulMonotone(c: nat, x: int, y: int)
    requires x <= y
    ensures c * x <= c * y
  {
  }
}
