/**
 * Greedy gated association of tracks to measurements. Tracks are taken in
 * input order; each takes the unused measurement with the smallest
 * variance-normalised squared distance inside the gate, the first such
 * index on ties. Measurements left over are listed in ascending order.
 */
module AssociationEngine {
  import opened Common
  import opened Js

  const DEFAULT_GATE_D2_MAX: real := 9.21

  datatype Point = Point(xMm: real, yMm: real)

  datatype Track = Track(id: string, xMm: real, yMm: real)

  /** One entry of the assignments Map: track id to measurement index. */
  datatype Assignment = Assignment(trackId: string, measIdx: nat)

  datatype Association = Association(assignments: seq<Assignment>, unassignedMeas: seq<nat>)

  /** Number(gateD2Max) || 9.21: NaN and 0 take the default. */
  function GateOf(gateD2Max: Value): (g: Num)
    ensures !g.NaN? && g != Fin(0.0)
    ensures ToNumber(gateD2Max).NaN? || ToNumber(gateD2Max) == Fin(0.0) ==> g == Fin(DEFAULT_GATE_D2_MAX)
  {
    var n := ToNumber(gateD2Max);
    if n.NaN? || n == Fin(0.0) then Fin(DEFAULT_GATE_D2_MAX) else n
  }

  /** d2 <= gateD2Max */
  predicate Within(d2: real, gate: Num)
  {
    match gate
    case Fin(g) => d2 <= g
    case Infinity(negative) => !negative
    case NaN => false
  }

  /** Array.isArray(measVarMm2ByIdx) ? measVarMm2ByIdx : [] */
  function VarsOf(measVarMm2ByIdx: Value): seq<Value>
  {
    if measVarMm2ByIdx.Arr? then measVarMm2ByIdx.items else []
  }

  /**
   * Math.max(1, Number(vars[i]) || 1): a missing, 0 or NaN variance counts
   * as 1, anything below 1 as 1; None stands for +Infinity.
   */
  function Divisor(vars: seq<Value>, i: nat): (d: Option<real>)
    ensures d.Some? ==> d.value >= 1.0
    ensures i >= |vars| ==> d == Some(1.0)
  {
    var n := ToNumber(if i < |vars| then vars[i] else Undefined);
    match n
    case NaN => Some(1.0)
    case Infinity(negative) => if negative then Some(1.0) else None
    case Fin(v) => Some(if v == 0.0 then 1.0 else if v < 1.0 then 1.0 else v)
  }

  /** ((dx * dx) + (dy * dy)) / Math.max(1, varMm2); an infinite variance gives 0. */
  function D2(t: Track, m: Point, d: Option<real>): (r: real)
    requires d.Some? ==> d.value >= 1.0
    ensures r >= 0.0
  {
    var dx, dy := m.xMm - t.xMm, m.yMm - t.yMm;
    match d
    case None => 0.0
    case Some(v) => (dx * dx + dy * dy) / v
  }

  /** Measurement i is still free and inside the gate for track t. */
  predicate Candidate(gate: Num, t: Track, meas: seq<Point>, vars: seq<Value>, used: set<int>, i: int)
  {
    0 <= i < |meas| && i !in used && Within(D2(t, meas[i], Divisor(vars, i)), gate)
  }

  function Cost(t: Track, meas: seq<Point>, vars: seq<Value>, i: nat): real
    requires i < |meas|
  {
    D2(t, meas[i], Divisor(vars, i))
  }

  /** The inner loop from index i on, with the best so far (bestD2 None is Infinity). */
  function BestFrom(gate: Num, t: Track, meas: seq<Point>, vars: seq<Value>, used: set<int>,
                    i: nat, best: int, bestD2: Option<real>): (r: int)
    requires i <= |meas|
    decreases |meas| - i
  {
    if i == |meas| then best
    else
      var d := Cost(t, meas, vars, i);
      if i !in used && Within(d, gate) && (bestD2.None? || d < bestD2.value) then
        BestFrom(gate, t, meas, vars, used, i + 1, i, Some(d))
      else
        BestFrom(gate, t, meas, vars, used, i + 1, best, bestD2)
  }

  /** The index track t takes, or -1. */
  function Best(gate: Num, t: Track, meas: seq<Point>, vars: seq<Value>, used: set<int>): int
  {
    BestFrom(gate, t, meas, vars, used, 0, -1, None)
  }

  /** best is the gated minimum among candidates below i, the first one on ties. */
  predicate BestBelow(gate: Num, t: Track, meas: seq<Point>, vars: seq<Value>, used: set<int>,
                      i: nat, best: int, bestD2: Option<real>)
    requires i <= |meas|
  {
    && (best == -1 <==> bestD2.None?)
    && (best == -1 ==> forall j :: 0 <= j < i ==> !Candidate(gate, t, meas, vars, used, j))
    && (best != -1 ==>
          && 0 <= best < i && Candidate(gate, t, meas, vars, used, best)
          && bestD2 == Some(Cost(t, meas, vars, best))
          && (forall j :: 0 <= j < i && Candidate(gate, t, meas, vars, used, j) ==> Cost(t, meas, vars, best) <= Cost(t, meas, vars, j))
          && (forall j :: 0 <= j < best && Candidate(gate, t, meas, vars, used, j) ==> Cost(t, meas, vars, best) < Cost(t, meas, vars, j)))
  }

  /** The result of the scan is the gated minimum over all candidates. */
  predicate IsBest(gate: Num, t: Track, meas: seq<Point>, vars: seq<Value>, used: set<int>, r: int)
  {
    BestBelow(gate, t, meas, vars, used, |meas|, r, if 0 <= r < |meas| then Some(Cost(t, meas, vars, r)) else None)
  }

  lemma {:induction false} BestFromKeeps(gate: Num, t: Track, meas: seq<Point>, vars: seq<Value>, used: set<int>,
                                         i: nat, best: int, bestD2: Option<real>, r: int)
    requires i <= |meas|
    requires BestBelow(gate, t, meas, vars, used, i, best, bestD2)
    requires r == BestFrom(gate, t, meas, vars, used, i, best, bestD2)
    ensures IsBest(gate, t, meas, vars, used, r)
    decreases |meas| - i
  {
    if i < |meas| {
      var take := BestFromStep(gate, t, meas, vars, used, i, best, bestD2);
      if take {
        BestBelowTake(gate, t, meas, vars, used, i, best, bestD2);
        BestFromKeeps(gate, t, meas, vars, used, i + 1, i, Some(Cost(t, meas, vars, i)), r);
      } else {
        BestBelowSkip(gate, t, meas, vars, used, i, best, bestD2);
        BestFromKeeps(gate, t, meas, vars, used, i + 1, best, bestD2, r);
      }
    } else {
      BestBelowEnd(gate, t, meas, vars, used, best, bestD2);
    }
  }

  /** One step of the scan: whether index i is taken, and where the scan goes on. */
  lemma BestFromStep(gate: Num, t: Track, meas: seq<Point>, vars: seq<Value>, used: set<int>,
                     i: nat, best: int, bestD2: Option<real>) returns (take: bool)
    requires i < |meas|
    ensures take == (Candidate(gate, t, meas, vars, used, i) && (bestD2.None? || Cost(t, meas, vars, i) < bestD2.value))
    ensures BestFrom(gate, t, meas, vars, used, i, best, bestD2)
      == if take then BestFrom(gate, t, meas, vars, used, i + 1, i, Some(Cost(t, meas, vars, i)))
         else BestFrom(gate, t, meas, vars, used, i + 1, best, bestD2)
  {
    take := Candidate(gate, t, meas, vars, used, i) && (bestD2.None? || Cost(t, meas, vars, i) < bestD2.value);
  }

  /** At the end of the scan the best so far is the answer. */
  lemma BestBelowEnd(gate: Num, t: Track, meas: seq<Point>, vars: seq<Value>, used: set<int>,
                     best: int, bestD2: Option<real>)
    requires BestBelow(gate, t, meas, vars, used, |meas|, best, bestD2)
    ensures IsBest(gate, t, meas, vars, used, BestFrom(gate, t, meas, vars, used, |meas|, best, bestD2))
  {
  }

  /** A candidate strictly closer than the best so far becomes the best. */
  lemma BestBelowTake(gate: Num, t: Track, meas: seq<Point>, vars: seq<Value>, used: set<int>,
                      i: nat, best: int, bestD2: Option<real>)
    requires i < |meas| && BestBelow(gate, t, meas, vars, used, i, best, bestD2)
    requires Candidate(gate, t, meas, vars, used, i)
    requires bestD2.None? || Cost(t, meas, vars, i) < bestD2.value
    ensures BestBelow(gate, t, meas, vars, used, i + 1, i, Some(Cost(t, meas, vars, i)))
  {
  }

  /** Anything else leaves the best as it was. */
  lemma BestBelowSkip(gate: Num, t: Track, meas: seq<Point>, vars: seq<Value>, used: set<int>,
                      i: nat, best: int, bestD2: Option<real>)
    requires i < |meas| && BestBelow(gate, t, meas, vars, used, i, best, bestD2)
    requires !(Candidate(gate, t, meas, vars, used, i) && (bestD2.None? || Cost(t, meas, vars, i) < bestD2.value))
    ensures BestBelow(gate, t, meas, vars, used, i + 1, best, bestD2)
  {
  }

  /**
   * Each track takes the strictly smallest gated distance among the unused
   * measurements, the first index on ties, and -1 exactly when no unused
   * measurement is inside the gate.
   */
  lemma BestIsGatedMinimum(gate: Num, t: Track, meas: seq<Point>, vars: seq<Value>, used: set<int>)
    ensures var r := Best(gate, t, meas, vars, used);
      && (r == -1 <==> forall j :: 0 <= j < |meas| ==> !Candidate(gate, t, meas, vars, used, j))
      && (r != -1 ==>
            && Candidate(gate, t, meas, vars, used, r)
            && (forall j :: Candidate(gate, t, meas, vars, used, j) ==> Cost(t, meas, vars, r) <= Cost(t, meas, vars, j))
            && (forall j :: 0 <= j < r && Candidate(gate, t, meas, vars, used, j) ==> Cost(t, meas, vars, r) < Cost(t, meas, vars, j)))
  {
    BestFromKeeps(gate, t, meas, vars, used, 0, -1, None, Best(gate, t, meas, vars, used));
  }

  /** The measurements taken by the picks so far. */
  function UsedOf(picks: seq<int>): set<int>
  {
    set p | p in picks && p >= 0
  }

  /** The pick of each of the first n tracks, in order: what the outer loop decides. */
  function Picks(gate: Num, tracks: seq<Track>, meas: seq<Point>, vars: seq<Value>, n: nat): (picks: seq<int>)
    requires n <= |tracks|
    ensures |picks| == n
  {
    if n == 0 then []
    else
      var prev := Picks(gate, tracks, meas, vars, n - 1);
      prev + [Best(gate, tracks[n - 1], meas, vars, UsedOf(prev))]
  }

  /** A Map holds each key once. */
  predicate UniqueKeys(ps: seq<Assignment>)
  {
    forall i, j :: 0 <= i < j < |ps| ==> ps[i].trackId != ps[j].trackId
  }

  /**
   * assignments.set(id, idx): an existing key keeps its place and takes the
   * new value; a new key is appended; the other entries stay.
   */
  function MapSet(ps: seq<Assignment>, id: string, idx: nat): (r: seq<Assignment>)
    ensures Assignment(id, idx) in r
    ensures forall a :: a in r && a.trackId != id ==> a in ps
    ensures forall a :: a in ps && a.trackId != id ==> a in r
    ensures UniqueKeys(ps) ==> UniqueKeys(r) && forall a :: a in r && a.trackId == id ==> a.measIdx == idx
  {
    if ps == [] then [Assignment(id, idx)]
    else if ps[0].trackId == id then
      assert UniqueKeys(ps) ==> forall a :: a in ps[1..] ==> a.trackId != id;
      [Assignment(id, idx)] + ps[1..]
    else
      var rest := MapSet(ps[1..], id, idx);
      assert UniqueKeys(ps) ==> forall a :: a in ps[1..] ==> a.trackId != ps[0].trackId;
      [ps[0]] + rest
  }

  /** The assignments Map after the given picks. */
  function Assigns(tracks: seq<Track>, picks: seq<int>): seq<Assignment>
    requires |picks| <= |tracks|
  {
    if picks == [] then []
    else
      var n := |picks| - 1;
      var prev := Assigns(tracks, picks[..n]);
      if picks[n] >= 0 then MapSet(prev, tracks[n].id, picks[n]) else prev
  }

  /** The indices below n that are not used, ascending. */
  function Unassigned(n: nat, used: set<int>): seq<nat>
  {
    if n == 0 then []
    else Unassigned(n - 1, used) + (if n - 1 in used then [] else [n - 1])
  }

  /** unassignedMeas holds exactly the unused indices, strictly ascending. */
  lemma {:induction false} UnassignedExact(n: nat, used: set<int>)
    ensures forall x :: x in Unassigned(n, used) <==> 0 <= x < n && x !in used
    ensures forall i, j :: 0 <= i < j < |Unassigned(n, used)| ==> Unassigned(n, used)[i] < Unassigned(n, used)[j]
  {
    if n > 0 {
      UnassignedExact(n - 1, used);
      var u := Unassigned(n - 1, used);
      assert forall i :: 0 <= i < |u| ==> u[i] < n - 1 by {
        forall i | 0 <= i < |u| ensures u[i] < n - 1 {
          assert u[i] in u;
        }
      }
    }
  }

  /**
   * Every pick is a measurement index no earlier track took, inside the
   * gate for its own track; so no measurement goes to two tracks.
   */
  lemma {:induction false} PicksSound(gate: Num, tracks: seq<Track>, meas: seq<Point>, vars: seq<Value>, n: nat)
    requires n <= |tracks|
    ensures var picks := Picks(gate, tracks, meas, vars, n);
      && (forall k :: 0 <= k < n && picks[k] >= 0 ==>
            picks[k] < |meas| && Within(Cost(tracks[k], meas, vars, picks[k]), gate))
      && (forall k, l :: 0 <= k < l < n && picks[k] >= 0 ==> picks[k] != picks[l])
  {
    if n > 0 {
      PicksSound(gate, tracks, meas, vars, n - 1);
      var prev := Picks(gate, tracks, meas, vars, n - 1);
      var b := Best(gate, tracks[n - 1], meas, vars, UsedOf(prev));
      BestIsGatedMinimum(gate, tracks[n - 1], meas, vars, UsedOf(prev));
      var picks := Picks(gate, tracks, meas, vars, n);
      assert picks == prev + [b];
      forall k | 0 <= k < n - 1 && picks[k] >= 0 ensures picks[k] != b {
        assert prev[k] in UsedOf(prev);
      }
    }
  }

  /** The picks of tracks with a non-negative pick, as Map entries in track order. */
  function Entries(tracks: seq<Track>, picks: seq<int>): seq<Assignment>
    requires |picks| <= |tracks|
  {
    if picks == [] then []
    else
      var n := |picks| - 1;
      Entries(tracks, picks[..n]) + (if picks[n] >= 0 then [Assignment(tracks[n].id, picks[n])] else [])
  }

  predicate DistinctIds(tracks: seq<Track>)
  {
    forall k, l :: 0 <= k < l < |tracks| ==> tracks[k].id != tracks[l].id
  }

  lemma {:induction false} EntriesIds(tracks: seq<Track>, picks: seq<int>)
    requires |picks| <= |tracks|
    ensures forall a :: a in Entries(tracks, picks) ==> exists k :: 0 <= k < |picks| && tracks[k].id == a.trackId
  {
    if picks != [] {
      EntriesIds(tracks, picks[..|picks| - 1]);
    }
  }

  /**
   * With distinct track ids the Map never overwrites: its entries are the
   * picks of the tracks that found a measurement, in track order.
   */
  lemma {:induction false} AssignsDistinct(tracks: seq<Track>, picks: seq<int>)
    requires |picks| <= |tracks| && DistinctIds(tracks)
    ensures Assigns(tracks, picks) == Entries(tracks, picks)
  {
    if picks != [] {
      var n := |picks| - 1;
      AssignsDistinct(tracks, picks[..n]);
      if picks[n] >= 0 {
        var es := Entries(tracks, picks[..n]);
        EntriesIds(tracks, picks[..n]);
        assert forall k :: 0 <= k < |es| ==> es[k] in es;
        MapSetNew(es, tracks[n].id, picks[n]);
      }
    }
  }

  lemma {:induction false} MapSetNew(ps: seq<Assignment>, id: string, idx: nat)
    requires forall k :: 0 <= k < |ps| ==> ps[k].trackId != id
    ensures MapSet(ps, id, idx) == ps + [Assignment(id, idx)]
  {
    if ps != [] {
      var tail := ps[1..];
      assert ps[0].trackId != id;
      assert forall k :: 0 <= k < |tail| ==> tail[k].trackId != id by {
        forall k | 0 <= k < |tail| ensures tail[k].trackId != id {
          assert tail[k] == ps[k + 1];
        }
      }
      MapSetNew(tail, id, idx);
      assert MapSet(ps, id, idx) == [ps[0]] + (tail + [Assignment(id, idx)]);
      ConsSnoc(ps, Assignment(id, idx));
    }
  }

  lemma ConsSnoc<T>(s: seq<T>, y: T)
    requires s != []
    ensures [s[0]] + (s[1..] + [y]) == s + [y]
  {
    assert s == [s[0]] + s[1..];
  }

  /** Every measurement is either assigned to exactly one track or listed as unassigned. */
  lemma Partition(gate: Num, tracks: seq<Track>, meas: seq<Point>, vars: seq<Value>, x: nat)
    requires DistinctIds(tracks) && x < |meas|
    ensures var picks := Picks(gate, tracks, meas, vars, |tracks|);
      x in Unassigned(|meas|, UsedOf(picks)) <==> !exists k :: 0 <= k < |tracks| && picks[k] == x
  {
    var picks := Picks(gate, tracks, meas, vars, |tracks|);
    UnassignedExact(|meas|, UsedOf(picks));
    if x in UsedOf(picks) {
      var k :| 0 <= k < |picks| && picks[k] == x;
    }
  }

  /** Recording one more pick adds it to the used set and, when it is a measurement, to the Map. */
  lemma PickStep(tracks: seq<Track>, prev: seq<int>, b: int)
    requires |prev| < |tracks|
    ensures UsedOf(prev + [b]) == UsedOf(prev) + (if b >= 0 then {b} else {})
    ensures Assigns(tracks, prev + [b]) ==
      if b >= 0 then MapSet(Assigns(tracks, prev), tracks[|prev|].id, b) else Assigns(tracks, prev)
  {
    assert (prev + [b])[..|prev|] == prev;
  }

  /** The loop that lists the measurements no track took. */
  method UnusedIndices(n: nat, used: set<int>) returns (u: seq<nat>)
    ensures u == Unassigned(n, used)
  {
    u := [];
    for i := 0 to n
      invariant u == Unassigned(i, used)
    {
      if i !in used {
        u := u + [i];
      }
    }
  }

  class Engine {
    const gate: Num

    /** new AssociationEngine({ gateD2Max }) */
    constructor(gateD2Max: Value)
      ensures gate == GateOf(gateD2Max)
    {
      gate := GateOf(gateD2Max);
    }

    /** The inner loop for one track over the measurements not yet used. */
    method BestFor(t: Track, meas: seq<Point>, vars: seq<Value>, used: set<int>) returns (bestIdx: int)
      ensures bestIdx == Best(gate, t, meas, vars, used)
    {
      bestIdx := -1;
      var bestD2: Option<real> := None;
      var i := 0;
      while i < |meas|
        invariant 0 <= i <= |meas|
        invariant BestFrom(gate, t, meas, vars, used, i, bestIdx, bestD2) == Best(gate, t, meas, vars, used)
      {
        if i !in used {
          var d2 := D2(t, meas[i], Divisor(vars, i));
          if Within(d2, gate) && (bestD2.None? || d2 < bestD2.value) {
            bestD2 := Some(d2);
            bestIdx := i;
          }
        }
        i := i + 1;
      }
    }

    /** associate({ tracks, measurements, measVarMm2ByIdx }) */
    method Associate(tracks: seq<Track>, meas: seq<Point>, measVarMm2ByIdx: Value) returns (r: Association)
      ensures var picks := Picks(gate, tracks, meas, VarsOf(measVarMm2ByIdx), |tracks|);
        r == Association(Assigns(tracks, picks), Unassigned(|meas|, UsedOf(picks)))
    {
      var vars := VarsOf(measVarMm2ByIdx);
      var usedMeas: set<int> := {};
      var assignments: seq<Assignment> := [];
      ghost var picks: seq<int> := [];
      for k := 0 to |tracks|
        invariant picks == Picks(gate, tracks, meas, vars, k)
        invariant usedMeas == UsedOf(picks)
        invariant assignments == Assigns(tracks, picks)
      {
        var bestIdx := BestFor(tracks[k], meas, vars, usedMeas);
        PickStep(tracks, picks, bestIdx);
        picks := picks + [bestIdx];
        if bestIdx >= 0 {
          usedMeas := usedMeas + {bestIdx};
          assignments := MapSet(assignments, tracks[k].id, bestIdx);
        }
      }
      var unassignedMeas := UnusedIndices(|meas|, usedMeas);
      r := Association(assignments, unassignedMeas);
    }
  }
}
