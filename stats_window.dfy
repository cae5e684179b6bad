/**
 * The presence dashboard's sliding window of recent numbers: push drops
 * non-finite values and the oldest surplus, max and median summarise what
 * is left.
 */
module StatsWindow {
  import opened Common
  import opened Js
  import opened RealSort

  const DEFAULT_MAX_N: real := 200.0

  /** Number(maxN) when finite, 200 otherwise. */
  function MaxNOf(maxN: Value): (m: real)
    ensures ToNumber(maxN).Fin? ==> m == ToNumber(maxN).v
    ensures !ToNumber(maxN).Fin? ==> m == DEFAULT_MAX_N
  {
    var n := ToNumber(maxN);
    if n.Fin? then n.v else DEFAULT_MAX_N
  }

  /**
   * How many values the window keeps: ceil(maxN) for a positive bound,
   * none for a bound of zero or less.
   */
  function Capacity(maxN: real): (c: nat)
    ensures maxN <= 0.0 ==> c == 0
    ensures maxN > 0.0 ==> maxN <= c as real < maxN + 1.0
  {
    if maxN <= 0.0 then 0 else -Floor(-maxN)
  }

  /** The last Capacity(maxN) values of s. */
  function Keep(s: seq<real>, maxN: real): (r: seq<real>)
    ensures |r| == Min(|s|, Capacity(maxN))
    ensures r == s[|s| - |r|..]
  {
    s[|s| - Min(|s|, Capacity(maxN))..]
  }

  /**
   * values.splice(0, values.length - maxN) when the length exceeds maxN:
   * the delete count is truncated toward zero and clamped to the length.
   */
  function Splice(s: seq<real>, maxN: real): (r: seq<real>)
  {
    if |s| as real > maxN then
      var deleteCount := Min(Floor(|s| as real - maxN), |s|);
      s[deleteCount..]
    else s
  }

  /** The splice in push keeps exactly the last Capacity(maxN) values of what it is given, however long. */
  lemma SpliceKeeps(s: seq<real>, maxN: real)
    requires |s| > 0
    requires |s| <= Capacity(maxN) + 1
    ensures Splice(s, maxN) == Keep(s, maxN)
  {
    var c := Capacity(maxN);
    if |s| as real > maxN {
      var d := Floor(|s| as real - maxN);
      if maxN > 0.0 {
        assert d == |s| - c;
      } else {
        assert d >= |s|;
      }
    }
  }

  /** Keeping the tail after every push is the same as keeping the tail of everything pushed. */
  lemma KeepAppend(s: seq<real>, v: real, maxN: real)
    ensures Keep(Keep(s, maxN) + [v], maxN) == Keep(s + [v], maxN)
  {
    var k := Keep(s, maxN);
    var a, b := Keep(k + [v], maxN), Keep(s + [v], maxN);
    assert |a| == |b|;
    forall i | 0 <= i < |a| ensures a[i] == b[i] {
      var j := |s| + 1 - |b| + i;
      if j < |s| {
        assert b[i] == s[j];
        assert a[i] == k[|k| + 1 - |a| + i];
      }
    }
  }

  /** The largest of a non-empty window. */
  predicate IsMax(s: seq<real>, m: real)
  {
    m in s && forall x :: x in s ==> x <= m
  }

  /** The middle value of a sorted sequence, or the mean of the two middle ones. */
  function Middle(sorted: seq<real>): (r: Option<real>)
    ensures r.None? <==> sorted == []
  {
    if sorted == [] then None
    else
      var mid := |sorted| / 2;
      if |sorted| % 2 == 1 then Some(sorted[mid])
      else Some((sorted[mid - 1] + sorted[mid]) / 2.0)
  }

  /** median(): the middle of a sorted copy, null when the window is empty. */
  function Median(s: seq<real>): (r: Option<real>)
    ensures r.None? <==> s == []
  {
    Middle(SortAsc(s))
  }

  /** The median depends only on which values the window holds. */
  lemma MedianOrderFree(a: seq<real>, b: seq<real>)
    requires multiset(a) == multiset(b)
    ensures Median(a) == Median(b)
  {
    SortAscOrderFree(a, b);
  }

  /** The median lies between two values of the window, and is one of them when the count is odd. */
  lemma MedianBetween(s: seq<real>)
    requires s != []
    ensures exists i, j :: 0 <= i < |s| && 0 <= j < |s| && s[i] <= Median(s).value <= s[j]
    ensures |s| % 2 == 1 ==> Median(s).value in multiset(s)
  {
    var t := SortAsc(s);
    SortAscSorted(s);
    var mid := |t| / 2;
    var lo := if |t| % 2 == 1 then t[mid] else t[mid - 1];
    assert lo <= Median(s).value <= t[mid];
    assert lo in multiset(s) && t[mid] in multiset(s);
    var i :| 0 <= i < |s| && s[i] == lo;
    var j :| 0 <= j < |s| && s[j] == t[mid];
  }

  class Window {
    const maxN: real
    var values: seq<real>
    /** Every finite value pushed so far, oldest first. */
    ghost var pushed: seq<real>

    ghost predicate Valid()
      reads this
    {
      values == Keep(pushed, maxN)
    }

    /** new StatsWindow({ maxN }) */
    constructor(maxN: Value)
      ensures Valid()
      ensures this.maxN == MaxNOf(maxN) && values == [] && pushed == []
    {
      this.maxN := MaxNOf(maxN);
      values := [];
      pushed := [];
    }

    /** push(value): a finite Number(value) is appended and the window trimmed to its last Capacity(maxN) values. */
    method Push(value: Value)
      requires Valid()
      modifies this
      ensures Valid()
      ensures ToNumber(value).Fin? ==> pushed == old(pushed) + [ToNumber(value).v]
      ensures !ToNumber(value).Fin? ==> pushed == old(pushed) && values == old(values)
      ensures |values| == Min(|pushed|, Capacity(maxN))
    {
      var v := ToNumber(value);
      if !v.Fin? {
        return;
      }
      ghost var next := Keep(pushed + [v.v], maxN);
      KeepAppend(pushed, v.v, maxN);
      SpliceKeeps(values + [v.v], maxN);
      assert Splice(values + [v.v], maxN) == next;
      pushed := pushed + [v.v];
      values := values + [v.v];
      if |values| as real > maxN {
        var deleteCount := Min(Floor(|values| as real - maxN), |values|);
        values := values[deleteCount..];
      }
      assert values == next;
    }

    /** max(): the largest value in the window, null when it is empty. */
    method Max() returns (r: Option<real>)
      ensures r.None? <==> values == []
      ensures r.Some? ==> IsMax(values, r.value)
    {
      if values == [] {
        return None;
      }
      var m := values[0];
      for i := 0 to |values|
        invariant m in values
        invariant forall k :: 0 <= k < i ==> values[k] <= m
      {
        if values[i] > m {
          m := values[i];
        }
      }
      return Some(m);
    }
  }
}
