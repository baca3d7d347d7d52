/** How a state's row of packed keys selects a transition: a linear definition, and the two
    binary searches that compute it. */
module Lookup {

  /** The keys of one state inside the packed array: `singles` single keys from `start`, then
      `ranges` pairs of bounds. */
  datatype Row = Row(start: nat, singles: nat, ranges: nat) {
    function FirstBound(): nat { start + singles }
    function End(): nat { FirstBound() + 2 * ranges }
  }

  function Lo(keys: seq<int>, r: Row, i: nat): int
    requires r.End() <= |keys| && i < r.ranges
  {
    keys[r.FirstBound() + 2 * i]
  }

  function Hi(keys: seq<int>, r: Row, i: nat): int
    requires r.End() <= |keys| && i < r.ranges
  {
    keys[r.FirstBound() + 2 * i + 1]
  }

  /** Does the `i`-th choice of the row take `x`? */
  predicate Takes(keys: seq<int>, r: Row, i: nat, x: int)
    requires r.End() <= |keys| && i < r.singles + r.ranges
  {
    if i < r.singles then keys[r.start + i] == x
    else Lo(keys, r, i - r.singles) <= x <= Hi(keys, r, i - r.singles)
  }

  /** Linear lookup from choice `i` on: the first choice that takes `x`, or else the default,
      which comes after the last. */
  function Linear(keys: seq<int>, r: Row, i: nat, x: int): (t: nat)
    requires r.End() <= |keys| && i <= r.singles + r.ranges
    ensures i <= t <= r.singles + r.ranges
    ensures forall j :: i <= j < t ==> !Takes(keys, r, j, x)
    ensures t < r.singles + r.ranges ==> Takes(keys, r, t, x)
    decreases r.singles + r.ranges - i
  {
    if i == r.singles + r.ranges || Takes(keys, r, i, x) then i else Linear(keys, r, i + 1, x)
  }

  /** What binary search needs: sorted single keys, sorted disjoint ranges. */
  ghost predicate Searchable(keys: seq<int>, r: Row) {
    && r.End() <= |keys|
    && (forall i, j :: r.start <= i < j < r.FirstBound() ==> keys[i] < keys[j])
    && (forall i :: 0 <= i < r.ranges ==> Lo(keys, r, i) <= Hi(keys, r, i))
    && (forall i, j :: 0 <= i < j < r.ranges ==> Hi(keys, r, i) < Lo(keys, r, j))
  }

  /** The search among the single keys. `mid` is the position of `x`, if there is one. */
  method SearchSingles(keys: seq<int>, r: Row, x: int) returns (found: bool, mid: int)
    requires Searchable(keys, r) && 0 < r.singles
    ensures found ==> r.start <= mid < r.FirstBound() && keys[mid] == x
    ensures !found ==> forall i :: r.start <= i < r.FirstBound() ==> keys[i] != x
  {
    var lower, upper := r.start as int, r.start + r.singles - 1;
    mid := lower;
    while true
      invariant r.start <= lower <= r.FirstBound() && r.start - 1 <= upper < r.FirstBound()
      invariant forall i :: r.start <= i < lower ==> keys[i] < x
      invariant forall i :: upper < i < r.FirstBound() ==> x < keys[i]
      decreases upper - lower + 1
    {
      if upper < lower {
        return false, mid;
      }
      mid := lower + (upper - lower) / 2;
      if x < keys[mid] {
        upper := mid - 1;
      } else if x > keys[mid] {
        lower := mid + 1;
      } else {
        return true, mid;
      }
    }
  }

  /** The search among the pairs: `lower`, `mid` and `upper` always stand on a lower bound. */
  method SearchRanges(keys: seq<int>, r: Row, x: int) returns (found: bool, mid: int)
    requires Searchable(keys, r) && 0 < r.ranges
    ensures found ==> exists k :: 0 <= k < r.ranges && mid == r.FirstBound() + 2 * k && Lo(keys, r, k) <= x <= Hi(keys, r, k)
    ensures !found ==> forall i :: 0 <= i < r.ranges ==> !(Lo(keys, r, i) <= x <= Hi(keys, r, i))
  {
    var base := r.FirstBound();
    var lower, upper := base as int, base + 2 * r.ranges - 2;
    mid := lower;
    ghost var lo, hi := 0, r.ranges - 1;
    while true
      invariant 0 <= lo <= r.ranges && -1 <= hi < r.ranges
      invariant lower == base + 2 * lo && upper == base + 2 * hi
      invariant forall i :: 0 <= i < lo ==> Hi(keys, r, i) < x
      invariant forall i :: hi < i < r.ranges ==> x < Lo(keys, r, i)
      decreases hi - lo + 1
    {
      if upper < lower {
        return false, mid;
      }
      var half := (upper - lower) / 2;
      mid := lower + (half - half % 2);
      ghost var k := lo + (hi - lo) / 2;
      assert mid == base + 2 * k;
      assert keys[mid] == Lo(keys, r, k) && keys[mid + 1] == Hi(keys, r, k);
      if x < keys[mid] {
        upper := mid - 2;
        hi := k - 1;
      } else if x > keys[mid + 1] {
        lower := mid + 2;
        lo := k + 1;
      } else {
        return true, mid;
      }
    }
  }

  /** A position among the single keys is the linear answer once it holds `x`. */
  lemma FoundSingle(keys: seq<int>, r: Row, x: int, mid: nat)
    requires Searchable(keys, r) && r.start <= mid < r.FirstBound() && keys[mid] == x
    ensures Linear(keys, r, 0, x) == mid - r.start
  {
    assert Takes(keys, r, mid - r.start, x);
  }

  lemma FoundRange(keys: seq<int>, r: Row, x: int, k: nat)
    requires Searchable(keys, r) && k < r.ranges && Lo(keys, r, k) <= x <= Hi(keys, r, k)
    requires forall i :: r.start <= i < r.FirstBound() ==> keys[i] != x
    ensures Linear(keys, r, 0, x) == r.singles + k
  {
    assert Takes(keys, r, r.singles + k, x);
  }

  /** The whole lookup: `_trans` ends up at the transition that linear lookup selects. */
  method Select(keys: seq<int>, r: Row, indexOffset: nat, x: int) returns (trans: nat)
    requires Searchable(keys, r)
    ensures trans == indexOffset + Linear(keys, r, 0, x)
  {
    trans := indexOffset;
    var at := r.start;
    if r.singles > 0 {
      var found, mid := SearchSingles(keys, r, x);
      if found {
        FoundSingle(keys, r, x, mid);
        trans := trans + (mid - at);
        return;
      }
      at := at + r.singles;
      trans := trans + r.singles;
    }
    if r.ranges > 0 {
      var found, mid := SearchRanges(keys, r, x);
      if found {
        ghost var k :| 0 <= k < r.ranges && mid == r.FirstBound() + 2 * k && Lo(keys, r, k) <= x <= Hi(keys, r, k);
        FoundRange(keys, r, x, k);
        trans := trans + (mid - at) / 2;
        return;
      }
      trans := trans + r.ranges;
    }
    assert Linear(keys, r, 0, x) == r.singles + r.ranges;
  }
}
