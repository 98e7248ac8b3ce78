/**
 * Time-indexed difficulty-attribute lookup of `GameplayMetricText.getAttributeAtTime`:
 * a binary search over the time-ordered list of (time, attributes) snapshots, with the
 * complement of a miss turned into a predecessor index and clamped into the list.
 */
module AttributeLookup {
  import opened Wrappers

  /** One difficulty snapshot: the attributes in effect from `time` on. Ordered by `time`. */
  datatype TimedAttribute<A> = TimedAttribute(time: real, attributes: A)

  function Times<A>(list: seq<TimedAttribute<A>>): (ts: seq<real>)
    ensures |ts| == |list|
    ensures forall i :: 0 <= i < |list| ==> ts[i] == list[i].time
  {
    seq(|list|, i requires 0 <= i < |list| => list[i].time)
  }

  ghost predicate Sorted(ts: seq<real>) {
    forall i, j :: 0 <= i < j < |ts| ==> ts[i] <= ts[j]
  }

  ghost predicate StrictlySorted(ts: seq<real>) {
    forall i, j :: 0 <= i < j < |ts| ==> ts[i] < ts[j]
  }

  /** Bitwise complement of a 32-bit two's-complement integer, `~x`. */
  function Complement(x: int): (r: int)
    ensures x >= 0 <==> r < 0
    ensures -r - 1 == x
  {
    -x - 1
  }

  /**
   * The bisection `List<T>.BinarySearch` performs on `ts[lo..hi+1]`: the index of an
   * element equal to `key`, or the complement of the index where the search ended.
   */
  function Search(ts: seq<real>, key: real, lo: int, hi: int): (r: int)
    requires 0 <= lo <= hi + 1 <= |ts|
    ensures r >= 0 ==> lo <= r <= hi && ts[r] == key
    ensures r < 0 ==> lo <= Complement(r) <= hi + 1
    decreases hi - lo + 1
  {
    if lo > hi then Complement(lo)
    else
      var mid := lo + (hi - lo) / 2;
      if ts[mid] == key then mid
      else if ts[mid] < key then Search(ts, key, mid + 1, hi)
      else Search(ts, key, lo, mid - 1)
  }

  /** `List<T>.BinarySearch(item)` over the whole list, comparing by time. */
  function BinarySearch(ts: seq<real>, key: real): (r: int)
    ensures r >= 0 ==> r < |ts| && ts[r] == key
    ensures r < 0 ==> 0 <= Complement(r) <= |ts|
  {
    Search(ts, key, 0, |ts| - 1)
  }

  /** Every time before index `n` is smaller than `key`. */
  ghost predicate BelowUpTo(ts: seq<real>, key: real, n: int) {
    forall j :: 0 <= j < n && j < |ts| ==> ts[j] < key
  }

  /** Every time from index `n` on is larger than `key`. */
  ghost predicate AboveFrom(ts: seq<real>, key: real, n: int) {
    forall j :: 0 <= n <= j < |ts| ==> ts[j] > key
  }

  /** `c` is an insertion point of `key` as far as its two neighbours can tell. */
  ghost predicate Bracketed(ts: seq<real>, key: real, c: int) {
    0 <= c <= |ts| && (0 < c ==> ts[c - 1] < key) && (c < |ts| ==> ts[c] > key)
  }

  /**
   * On a miss the search ends between a smaller and a larger neighbour, provided the
   * elements just outside `[lo, hi]` already bracket `key`.
   */
  lemma {:induction false} SearchMissIsBracketed(ts: seq<real>, key: real, lo: int, hi: int)
    requires 0 <= lo <= hi + 1 <= |ts|
    requires 0 < lo ==> ts[lo - 1] < key
    requires hi + 1 < |ts| ==> ts[hi + 1] > key
    ensures Search(ts, key, lo, hi) < 0 ==> Bracketed(ts, key, Complement(Search(ts, key, lo, hi)))
    decreases hi - lo + 1
  {
    if lo <= hi {
      var mid := lo + (hi - lo) / 2;
      if ts[mid] < key {
        SearchMissIsBracketed(ts, key, mid + 1, hi);
      } else if ts[mid] > key {
        SearchMissIsBracketed(ts, key, lo, mid - 1);
      }
    }
  }

  /** In a sorted list, an element below `key` has only elements below `key` before it. */
  lemma BelowExtends(ts: seq<real>, key: real, mid: int)
    requires Sorted(ts) && 0 <= mid < |ts| && ts[mid] < key
    ensures BelowUpTo(ts, key, mid + 1)
  {
    forall j | 0 <= j < mid + 1 ensures ts[j] < key {
      if j < mid { assert ts[j] <= ts[mid]; }
    }
  }

  /** In a sorted list, an element above `key` has only elements above `key` after it. */
  lemma AboveExtends(ts: seq<real>, key: real, mid: int)
    requires Sorted(ts) && 0 <= mid < |ts| && ts[mid] > key
    ensures AboveFrom(ts, key, mid)
  {
    forall j | mid <= j < |ts| ensures ts[j] > key {
      if j > mid { assert ts[mid] <= ts[j]; }
    }
  }

  /**
   * The documented contract of `List<T>.BinarySearch` on a sorted list: a non-negative
   * result indexes an equal element; a negative one is the complement of the index of
   * the first element larger than `key` (or of the count if there is none), and then no
   * element equals `key`.
   */
  lemma BinarySearchContract(ts: seq<real>, key: real)
    requires Sorted(ts)
    ensures var r := BinarySearch(ts, key);
      (r >= 0 ==> r < |ts| && ts[r] == key) &&
      (r < 0 ==>
        && 0 <= Complement(r) <= |ts|
        && (forall j :: 0 <= j < Complement(r) ==> ts[j] < key)
        && (forall j :: Complement(r) <= j < |ts| ==> ts[j] > key))
  {
    var r := BinarySearch(ts, key);
    SearchMissIsBracketed(ts, key, 0, |ts| - 1);
    if r < 0 {
      var c := Complement(r);
      if 0 < c { BelowExtends(ts, key, c - 1); }
      if c < |ts| { AboveExtends(ts, key, c); }
    }
  }

  /** `Math.Clamp(v, lo, hi)`. */
  function Clamp(v: int, lo: int, hi: int): (r: int)
    requires lo <= hi
    ensures lo <= r <= hi
    ensures lo <= v <= hi ==> r == v
    ensures v > hi ==> r == hi
    ensures v < lo ==> r == lo
  {
    if v < lo then lo else if v > hi then hi else v
  }

  /** The index `getAttributeAtTime` reads: a hit as is, a miss as its predecessor, clamped. */
  function AttributeIndex(ts: seq<real>, time: real): (i: int)
    requires |ts| > 0
    ensures 0 <= i < |ts|
  {
    var r := BinarySearch(ts, time);
    var pred := if r < 0 then Complement(r) - 1 else r;
    Clamp(pred, 0, |ts| - 1)
  }

  /**
   * `getAttributeAtTime`: no attributes for a missing or empty list; otherwise the
   * attributes of an entry of the list.
   */
  function AttributeAtTime<A>(list: Option<seq<TimedAttribute<A>>>, time: real): (r: Option<A>)
    ensures r.None? <==> (list.None? || |list.value| == 0)
    ensures r.Some? ==> exists i :: 0 <= i < |list.value| && list.value[i].attributes == r.value
  {
    if list.None? || |list.value| == 0 then None
    else
      var i := AttributeIndex(Times(list.value), time);
      Some(list.value[i].attributes)
  }

  /** An exact time match selects an entry with that time. */
  lemma LookupExactMatch(ts: seq<real>, time: real)
    requires Sorted(ts)
    requires exists k :: 0 <= k < |ts| && ts[k] == time
    ensures ts[AttributeIndex(ts, time)] == time
  {
    BinarySearchContract(ts, time);
  }

  /** A query before the first snapshot clamps to the first. */
  lemma LookupBeforeFirst(ts: seq<real>, time: real)
    requires Sorted(ts) && |ts| > 0
    requires time < ts[0]
    ensures AttributeIndex(ts, time) == 0
  {
    BinarySearchContract(ts, time);
  }

  /** A query after the last snapshot selects the last. */
  lemma LookupAfterLast(ts: seq<real>, time: real)
    requires Sorted(ts) && |ts| > 0
    requires time > ts[|ts| - 1]
    ensures AttributeIndex(ts, time) == |ts| - 1
  {
    BinarySearchContract(ts, time);
  }

  /**
   * Without an exact match, the selected snapshot is the latest one strictly before
   * the query, provided one exists.
   */
  lemma LookupLatestBefore(ts: seq<real>, time: real)
    requires Sorted(ts) && |ts| > 0
    requires ts[0] < time
    requires forall k :: 0 <= k < |ts| ==> ts[k] != time
    ensures var i := AttributeIndex(ts, time);
      ts[i] < time && forall j :: i < j < |ts| ==> ts[j] > time
  {
    BinarySearchContract(ts, time);
  }

  /** Reference definition: the index of the last time at or before `time`, or -1. */
  function LastAtOrBefore(ts: seq<real>, time: real): (i: int)
    ensures -1 <= i < |ts|
  {
    if |ts| == 0 then -1
    else if ts[|ts| - 1] <= time then |ts| - 1
    else LastAtOrBefore(ts[..|ts| - 1], time)
  }

  lemma {:induction false} LastAtOrBeforeSpec(ts: seq<real>, time: real)
    ensures var i := LastAtOrBefore(ts, time);
      (i >= 0 ==> ts[i] <= time) && (forall j :: i < j < |ts| ==> ts[j] > time)
  {
    if |ts| > 0 && ts[|ts| - 1] > time {
      LastAtOrBeforeSpec(ts[..|ts| - 1], time);
    }
  }

  /**
   * On strictly increasing times the lookup is exactly "the latest snapshot at or
   * before the query", with queries before the first snapshot clamped to the first.
   */
  lemma LookupIsLatestAtOrBefore(ts: seq<real>, time: real)
    requires StrictlySorted(ts) && |ts| > 0
    ensures AttributeIndex(ts, time) == if LastAtOrBefore(ts, time) < 0 then 0 else LastAtOrBefore(ts, time)
  {
    BinarySearchContract(ts, time);
    LastAtOrBeforeSpec(ts, time);
    var r, i, l := BinarySearch(ts, time), AttributeIndex(ts, time), LastAtOrBefore(ts, time);
    if r >= 0 {
      // An exact match: the last index at or before `time` is the match itself.
      assert i == r;
      assert r <= l;
      assert l == r;
    } else {
      // A miss ending at insertion point `c`: the predecessor `c - 1` is the last one.
      var c := Complement(r);
      assert l < c;
      if 0 < c {
        assert ts[c - 1] < time;
        assert c - 1 <= l;
      }
      assert i == if c == 0 then 0 else c - 1;
    }
  }

  /** Snapshots at 0, 1000 and 2000 ms: a judgement at 1500 ms reads the 1000 ms snapshot. */
  lemma LookupBetweenSnapshots()
    ensures AttributeIndex([0.0, 1000.0, 2000.0], 1500.0) == 1
  {
    var ts := [0.0, 1000.0, 2000.0];
    LookupLatestBefore(ts, 1500.0);
  }
}
