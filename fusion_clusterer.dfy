/**
 * The fusion clusterer of the presence tracker. Observations of one tick
 * that lie within a distance gate of each other are joined in a
 * union-find structure (union by rank, path compression); each resulting
 * group is either passed through or fused into one observation at the
 * inverse-variance weighted centroid.
 *
 * Whether a radar can see a point (the transform into the radar's frame,
 * its bearing and range limits) is trigonometry; it is the parameter
 * `visible`.
 */
module FusionClusterer {
  import opened Common
  import opened Js
  import opened Measurement

  // ------------------------------------------------------------------
  // Union-find: parent and rank arrays

  /**
   * A union-by-rank forest: every parent is an index, ranks are bounded,
   * and a node's rank is below its parent's unless it is a root.
   */
  predicate Forest(p: seq<nat>, rk: seq<nat>, bound: nat)
  {
    |p| == |rk| &&
    forall i :: 0 <= i < |p| ==> p[i] < |p| && rk[i] <= bound && (p[i] != i ==> rk[i] < rk[p[i]])
  }

  /** The root reached by following parents from x. */
  ghost function RootOf(p: seq<nat>, rk: seq<nat>, bound: nat, x: nat): (r: nat)
    requires Forest(p, rk, bound) && x < |p|
    ensures r < |p| && p[r] == r
    ensures r != x ==> rk[x] < rk[r]
    decreases bound - rk[x]
  {
    if p[x] == x then x else RootOf(p, rk, bound, p[x])
  }

  /** Every element's root. */
  ghost function RootsOf(p: seq<nat>, rk: seq<nat>, bound: nat): (rs: seq<nat>)
    requires Forest(p, rk, bound)
    ensures |rs| == |p|
  {
    seq(|p|, i requires 0 <= i < |p| => RootOf(p, rk, bound, i))
  }

  /** The roots depend on the parents alone, not on the ranks that prove termination. */
  lemma {:induction false} RootOfRanks(p: seq<nat>, rk1: seq<nat>, b1: nat, rk2: seq<nat>, b2: nat, x: nat)
    requires Forest(p, rk1, b1) && Forest(p, rk2, b2) && x < |p|
    ensures RootOf(p, rk1, b1, x) == RootOf(p, rk2, b2, x)
    decreases b1 - rk1[x]
  {
    if p[x] != x {
      RootOfRanks(p, rk1, b1, rk2, b2, p[x]);
    }
  }

  /** Pointing x straight at its root keeps the forest and every root. */
  lemma {:induction false} CompressAt(p: seq<nat>, rk: seq<nat>, bound: nat, x: nat, y: nat)
    requires Forest(p, rk, bound) && x < |p| && y < |p|
    requires Forest(p[x := RootOf(p, rk, bound, x)], rk, bound)
    ensures RootOf(p[x := RootOf(p, rk, bound, x)], rk, bound, y) == RootOf(p, rk, bound, y)
    decreases bound - rk[y]
  {
    var p' := p[x := RootOf(p, rk, bound, x)];
    if p[y] != y && y != x {
      CompressAt(p, rk, bound, x, p[y]);
    }
  }

  lemma Compress(p: seq<nat>, rk: seq<nat>, bound: nat, x: nat)
    requires Forest(p, rk, bound) && x < |p|
    ensures Forest(p[x := RootOf(p, rk, bound, x)], rk, bound)
    ensures RootsOf(p[x := RootOf(p, rk, bound, x)], rk, bound) == RootsOf(p, rk, bound)
  {
    var p' := p[x := RootOf(p, rk, bound, x)];
    assert Forest(p', rk, bound);
    forall y | 0 <= y < |p|
      ensures RootOf(p', rk, bound, y) == RootOf(p, rk, bound, y)
    {
      CompressAt(p, rk, bound, x, y);
    }
  }

  /** Hanging root c under root r of higher rank moves exactly c's elements to r. */
  lemma {:induction false} LinkAt(p: seq<nat>, rk: seq<nat>, bound: nat, c: nat, r: nat, y: nat)
    requires Forest(p, rk, bound) && c < |p| && r < |p| && p[c] == c && p[r] == r && rk[c] < rk[r]
    requires Forest(p[c := r], rk, bound) && y < |p|
    ensures RootOf(p[c := r], rk, bound, y) == if RootOf(p, rk, bound, y) == c then r else RootOf(p, rk, bound, y)
    decreases bound - rk[y]
  {
    if p[y] != y {
      LinkAt(p, rk, bound, c, r, p[y]);
    }
  }

  lemma Link(p: seq<nat>, rk: seq<nat>, bound: nat, c: nat, r: nat)
    requires Forest(p, rk, bound) && c < |p| && r < |p| && p[c] == c && p[r] == r && rk[c] < rk[r]
    ensures Forest(p[c := r], rk, bound)
    ensures forall y :: 0 <= y < |p| ==>
      RootsOf(p[c := r], rk, bound)[y] == if RootsOf(p, rk, bound)[y] == c then r else RootsOf(p, rk, bound)[y]
  {
    forall y | 0 <= y < |p|
      ensures RootOf(p[c := r], rk, bound, y) == if RootOf(p, rk, bound, y) == c then r else RootOf(p, rk, bound, y)
    {
      LinkAt(p, rk, bound, c, r, y);
    }
  }

  /** Raising a root's rank keeps the forest and every root. */
  lemma Bump(p: seq<nat>, rk: seq<nat>, bound: nat, r: nat)
    requires Forest(p, rk, bound) && r < |p| && p[r] == r
    ensures Forest(p, rk[r := rk[r] + 1], if rk[r] + 1 > bound then rk[r] + 1 else bound)
    ensures RootsOf(p, rk[r := rk[r] + 1], if rk[r] + 1 > bound then rk[r] + 1 else bound) == RootsOf(p, rk, bound)
  {
    var rk', b' := rk[r := rk[r] + 1], if rk[r] + 1 > bound then rk[r] + 1 else bound;
    forall y | 0 <= y < |p|
      ensures RootOf(p, rk', b', y) == RootOf(p, rk, bound, y)
    {
      RootOfRanks(p, rk', b', rk, bound, y);
    }
  }

  /** The Uf helper class: parent and rank arrays over the indices 0..n-1. */
  class Uf {
    const parent: array<nat>
    const rank: array<nat>
    ghost var bound: nat

    ghost predicate Valid()
      reads this, parent, rank
    {
      parent != rank && Forest(parent[..], rank[..], bound)
    }

    /** Each element's root: its class representative. */
    ghost function Roots(): seq<nat>
      reads this, parent, rank
      requires Valid()
    {
      RootsOf(parent[..], rank[..], bound)
    }

    /** Every element starts as its own root with rank 0. */
    constructor (n: nat)
      ensures Valid() && fresh(parent) && fresh(rank) && parent.Length == n
      ensures forall i :: 0 <= i < n ==> Roots()[i] == i
    {
      parent := new nat[n](i => i);
      rank := new nat[n](_ => 0);
      bound := 0;
    }

    /** find(x): the root of x; path compression changes no element's root. */
    method Find(x: nat) returns (r: nat)
      requires Valid() && x < parent.Length
      modifies parent
      ensures Valid() && bound == old(bound) && rank[..] == old(rank[..])
      ensures r == old(Roots())[x] && Roots() == old(Roots())
      decreases bound - rank[x]
    {
      ghost var p0 := parent[..];
      var p := parent[x];
      if p != x {
        assert RootOf(p0, rank[..], bound, x) == RootOf(p0, rank[..], bound, p);
        p := Find(p);
        ghost var ps := parent[..];
        assert RootsOf(ps, rank[..], bound)[x] == RootsOf(p0, rank[..], bound)[x];
        Compress(ps, rank[..], bound, x);
        parent[x] := p;
        assert parent[..] == ps[x := p];
      }
      r := p;
    }

    /**
     * union(a, b): the classes of a and b become one, whose root is one of
     * their two roots; every other class keeps its root.
     */
    method Union(a: nat, b: nat)
      requires Valid() && a < parent.Length && b < parent.Length
      modifies this, parent, rank
      ensures Valid()
      ensures Roots()[a] == Roots()[b]
      ensures Roots()[a] == old(Roots())[a] || Roots()[a] == old(Roots())[b]
      ensures forall i :: 0 <= i < parent.Length ==>
        Roots()[i] == if old(Roots())[i] == old(Roots())[a] || old(Roots())[i] == old(Roots())[b]
                      then Roots()[a] else old(Roots())[i]
      ensures old(Roots())[a] == old(Roots())[b] ==> Roots() == old(Roots())
    {
      var ra := Find(a);
      var rb := Find(b);
      if ra != rb {
        Join(ra, rb);
      }
    }

    /** The rank comparison of union, for two distinct roots. */
    method Join(ra: nat, rb: nat)
      requires Valid() && ra < parent.Length && rb < parent.Length && ra != rb
      requires Roots()[ra] == ra && Roots()[rb] == rb
      modifies this, parent, rank
      ensures Valid()
      ensures Roots()[ra] == Roots()[rb] && (Roots()[ra] == ra || Roots()[ra] == rb)
      ensures forall i :: 0 <= i < parent.Length ==>
        Roots()[i] == if old(Roots())[i] == ra || old(Roots())[i] == rb then Roots()[ra] else old(Roots())[i]
    {
      var ka := rank[ra];
      var kb := rank[rb];
      if ka < kb {
        Hang(ra, rb);
      } else if kb < ka {
        Hang(rb, ra);
      } else {
        RaiseRank(ra);
        Hang(rb, ra);
      }
    }

    /** parent[c] = r: root c goes under root r of higher rank. */
    method Hang(c: nat, r: nat)
      requires Valid() && c < parent.Length && r < parent.Length
      requires Roots()[c] == c && Roots()[r] == r && rank[c] < rank[r]
      modifies parent
      ensures Valid() && rank[..] == old(rank[..]) && bound == old(bound)
      ensures forall i :: 0 <= i < parent.Length ==> Roots()[i] == if old(Roots())[i] == c then r else old(Roots())[i]
    {
      ghost var ps := parent[..];
      assert ps[c] == c && ps[r] == r;
      Link(ps, rank[..], bound, c, r);
      parent[c] := r;
      assert parent[..] == ps[c := r];
    }

    /** rank[r] += 1 for a root r. */
    method RaiseRank(r: nat)
      requires Valid() && r < parent.Length && Roots()[r] == r
      modifies this, rank
      ensures Valid() && parent[..] == old(parent[..]) && Roots() == old(Roots())
      ensures rank[r] == old(rank[r]) + 1 && forall i :: 0 <= i < rank.Length && i != r ==> rank[i] == old(rank[i])
    {
      ghost var rks := rank[..];
      assert parent[..][r] == r;
      var k1: nat := rank[r] + 1;
      Bump(parent[..], rks, bound, r);
      rank[r] := k1;
      bound := if k1 > bound then k1 else bound;
      assert rank[..] == rks[r := k1];
    }
  }

  // ------------------------------------------------------------------
  // Which observations are joined

  datatype FusionSettings = FusionSettings(enabled: bool, gateMm: Num, maxClusterSize: Num)

  /** cfg.tracking.fusion: enabled === true, clusterGateMm ?? 450, maxClusterSize ?? 10. */
  function FusionSettingsOf(cfg: Value): (s: FusionSettings)
    ensures Nullish(Get(Get(Get(cfg, "tracking"), "fusion"), "clusterGateMm")) ==> s.gateMm == Fin(450.0)
    ensures Nullish(Get(Get(Get(cfg, "tracking"), "fusion"), "maxClusterSize")) ==> s.maxClusterSize == Fin(10.0)
  {
    var f := Get(Get(cfg, "tracking"), "fusion");
    FusionSettings(Get(f, "enabled") == Bool(true),
                   ToNumber(OrElse(Get(f, "clusterGateMm"), Int(450))),
                   ToNumber(OrElse(Get(f, "maxClusterSize"), Int(10))))
  }

  /**
   * d2 > max(1, gate^2) skips a pair; a NaN or infinite gate makes that
   * comparison false, so every pair is then within the gate.
   */
  predicate WithinGate(a: Obs, b: Obs, gate: Num)
  {
    var dx := a.xMm - b.xMm;
    var dy := a.yMm - b.yMm;
    match gate
    case Fin(g) => dx * dx + dy * dy <= (if g * g > 1.0 then g * g else 1.0)
    case _ => true
  }

  /** Pair i, j is joined: within the gate, and either one radar's or seen by both radars at the midpoint. */
  predicate Linked(ms: seq<Obs>, visible: (real, real, real) -> bool, gate: Num, i: nat, j: nat)
    requires i < |ms| && j < |ms|
  {
    var cx := (ms[i].xMm + ms[j].xMm) / 2.0;
    var cy := (ms[i].yMm + ms[j].yMm) / 2.0;
    WithinGate(ms[i], ms[j], gate) &&
    (ms[i].radarId == ms[j].radarId || (visible(ms[i].radarId, cx, cy) && visible(ms[j].radarId, cx, cy)))
  }

  /** A reference partition by labels: joining a and b relabels b's class with a's label. */
  function Relabel(l: seq<nat>, a: nat, b: nat): (r: seq<nat>)
    requires a < |l| && b < |l|
    ensures |r| == |l|
  {
    seq(|l|, k requires 0 <= k < |l| => if l[k] == l[b] then l[a] else l[k])
  }

  /** The inner loop of the pair scan: pairs (i, j), (i, j + 1), ... */
  function LinkRow(l: seq<nat>, ms: seq<Obs>, visible: (real, real, real) -> bool, gate: Num, i: nat, j: nat): (r: seq<nat>)
    requires |l| == |ms| && i < j <= |ms|
    ensures |r| == |l|
    decreases |ms| - j
  {
    if j == |ms| then l
    else LinkRow(if Linked(ms, visible, gate, i, j) then Relabel(l, i, j) else l, ms, visible, gate, i, j + 1)
  }

  /** The outer loop of the pair scan, from row i on. */
  function LinkFrom(l: seq<nat>, ms: seq<Obs>, visible: (real, real, real) -> bool, gate: Num, i: nat): (r: seq<nat>)
    requires |l| == |ms| && i <= |ms|
    ensures |r| == |l|
    decreases |ms| - i
  {
    if i == |ms| then l
    else LinkFrom(LinkRow(l, ms, visible, gate, i, i + 1), ms, visible, gate, i + 1)
  }

  /** Every observation its own label, then every pair scanned in order. */
  function Classes(ms: seq<Obs>, visible: (real, real, real) -> bool, gate: Num): (r: seq<nat>)
    ensures |r| == |ms|
  {
    LinkFrom(seq(|ms|, k => k), ms, visible, gate, 0)
  }

  /** Two labellings that put the same elements together. */
  predicate SameRel(a: seq<nat>, b: seq<nat>)
  {
    |a| == |b| && forall x, y :: 0 <= x < |a| && 0 <= y < |a| ==> (a[x] == a[y] <==> b[x] == b[y])
  }

  /** a2 is a1 with the classes of a and b merged and nothing else changed. */
  predicate MergedAt(a1: seq<nat>, a2: seq<nat>, a: nat, b: nat)
    requires a < |a1| && b < |a1|
  {
    |a2| == |a1| &&
    forall x, y :: 0 <= x < |a1| && 0 <= y < |a1| ==>
      (a2[x] == a2[y] <==> a1[x] == a1[y] || ((a1[x] == a1[a] || a1[x] == a1[b]) && (a1[y] == a1[a] || a1[y] == a1[b])))
  }

  lemma RelabelMerges(l: seq<nat>, a: nat, b: nat)
    requires a < |l| && b < |l|
    ensures MergedAt(l, Relabel(l, a, b), a, b)
  {
  }

  /** The roots after union(a, b) merge exactly the classes of a and b. */
  lemma UnionMerges(rs: seq<nat>, rs': seq<nat>, a: nat, b: nat)
    requires a < |rs| && b < |rs| && |rs'| == |rs|
    requires rs'[a] == rs[a] || rs'[a] == rs[b]
    requires forall i :: 0 <= i < |rs| ==> rs'[i] == if rs[i] == rs[a] || rs[i] == rs[b] then rs'[a] else rs[i]
    ensures MergedAt(rs, rs', a, b)
  {
  }

  /** Merging the same pair in two labellings of one partition gives labellings of one partition. */
  lemma MergedSameRel(a1: seq<nat>, a2: seq<nat>, b1: seq<nat>, b2: seq<nat>, a: nat, b: nat)
    requires a < |a1| && b < |a1| && SameRel(a1, b1)
    requires MergedAt(a1, a2, a, b) && MergedAt(b1, b2, a, b)
    ensures SameRel(a2, b2)
  {
  }

  /** Merging never separates two elements. */
  lemma {:induction false} LinkRowKeeps(l: seq<nat>, ms: seq<Obs>, visible: (real, real, real) -> bool, gate: Num,
                                        i: nat, j: nat, x: nat, y: nat)
    requires |l| == |ms| && i < j <= |ms| && x < |l| && y < |l| && l[x] == l[y]
    ensures LinkRow(l, ms, visible, gate, i, j)[x] == LinkRow(l, ms, visible, gate, i, j)[y]
    decreases |ms| - j
  {
    if j < |ms| {
      LinkRowKeeps(if Linked(ms, visible, gate, i, j) then Relabel(l, i, j) else l, ms, visible, gate, i, j + 1, x, y);
    }
  }

  lemma {:induction false} LinkFromKeeps(l: seq<nat>, ms: seq<Obs>, visible: (real, real, real) -> bool, gate: Num,
                                         i: nat, x: nat, y: nat)
    requires |l| == |ms| && i <= |ms| && x < |l| && y < |l| && l[x] == l[y]
    ensures LinkFrom(l, ms, visible, gate, i)[x] == LinkFrom(l, ms, visible, gate, i)[y]
    decreases |ms| - i
  {
    if i < |ms| {
      LinkRowKeeps(l, ms, visible, gate, i, i + 1, x, y);
      LinkFromKeeps(LinkRow(l, ms, visible, gate, i, i + 1), ms, visible, gate, i + 1, x, y);
    }
  }

  lemma {:induction false} LinkRowJoins(l: seq<nat>, ms: seq<Obs>, visible: (real, real, real) -> bool, gate: Num,
                                        i: nat, j0: nat, j: nat)
    requires |l| == |ms| && i < j0 <= j < |ms| && Linked(ms, visible, gate, i, j)
    ensures LinkRow(l, ms, visible, gate, i, j0)[i] == LinkRow(l, ms, visible, gate, i, j0)[j]
    decreases |ms| - j0
  {
    var l' := if Linked(ms, visible, gate, i, j0) then Relabel(l, i, j0) else l;
    if j0 < j {
      LinkRowJoins(l', ms, visible, gate, i, j0 + 1, j);
    } else {
      LinkRowKeeps(l', ms, visible, gate, i, j0 + 1, i, j);
    }
  }

  lemma {:induction false} LinkFromJoins(l: seq<nat>, ms: seq<Obs>, visible: (real, real, real) -> bool, gate: Num,
                                         i0: nat, i: nat, j: nat)
    requires |l| == |ms| && i0 <= i < j < |ms| && Linked(ms, visible, gate, i, j)
    ensures LinkFrom(l, ms, visible, gate, i0)[i] == LinkFrom(l, ms, visible, gate, i0)[j]
    decreases |ms| - i0
  {
    var l' := LinkRow(l, ms, visible, gate, i0, i0 + 1);
    if i0 < i {
      LinkFromJoins(l', ms, visible, gate, i0 + 1, i, j);
    } else {
      LinkRowJoins(l, ms, visible, gate, i, i + 1, j);
      LinkFromKeeps(l', ms, visible, gate, i0 + 1, i, j);
    }
  }

  /** Every pair within the gate of one radar, or seen by both radars, ends in one class. */
  lemma LinkedJoined(ms: seq<Obs>, visible: (real, real, real) -> bool, gate: Num, i: nat, j: nat)
    requires i < j < |ms| && Linked(ms, visible, gate, i, j)
    ensures Classes(ms, visible, gate)[i] == Classes(ms, visible, gate)[j]
  {
    LinkFromJoins(seq(|ms|, k => k), ms, visible, gate, 0, i, j);
  }

  /** x is linked to no other observation. */
  predicate Unlinked(ms: seq<Obs>, visible: (real, real, real) -> bool, gate: Num, x: nat)
    requires x < |ms|
  {
    (forall y :: x < y < |ms| ==> !Linked(ms, visible, gate, x, y)) &&
    (forall y :: 0 <= y < x ==> !Linked(ms, visible, gate, y, x))
  }

  predicate Alone(l: seq<nat>, x: nat)
    requires x < |l|
  {
    forall y :: 0 <= y < |l| && y != x ==> l[y] != l[x]
  }

  lemma {:induction false} LinkRowAlone(l: seq<nat>, ms: seq<Obs>, visible: (real, real, real) -> bool, gate: Num,
                                        i: nat, j: nat, x: nat)
    requires |l| == |ms| && i < j <= |ms| && x < |l| && Alone(l, x) && Unlinked(ms, visible, gate, x)
    ensures Alone(LinkRow(l, ms, visible, gate, i, j), x)
    decreases |ms| - j
  {
    if j < |ms| {
      var l' := if Linked(ms, visible, gate, i, j) then Relabel(l, i, j) else l;
      LinkRowAlone(l', ms, visible, gate, i, j + 1, x);
    }
  }

  lemma {:induction false} LinkFromAlone(l: seq<nat>, ms: seq<Obs>, visible: (real, real, real) -> bool, gate: Num,
                                         i: nat, x: nat)
    requires |l| == |ms| && i <= |ms| && x < |l| && Alone(l, x) && Unlinked(ms, visible, gate, x)
    ensures Alone(LinkFrom(l, ms, visible, gate, i), x)
    decreases |ms| - i
  {
    if i < |ms| {
      LinkRowAlone(l, ms, visible, gate, i, i + 1, x);
      LinkFromAlone(LinkRow(l, ms, visible, gate, i, i + 1), ms, visible, gate, i + 1, x);
    }
  }

  /** An observation linked to no other stays alone in its class. */
  lemma UnlinkedAlone(ms: seq<Obs>, visible: (real, real, real) -> bool, gate: Num, x: nat)
    requires x < |ms| && Unlinked(ms, visible, gate, x)
    ensures Alone(Classes(ms, visible, gate), x)
  {
    LinkFromAlone(seq(|ms|, k => k), ms, visible, gate, 0, x);
  }

  // ------------------------------------------------------------------
  // Groups in order of first appearance

  /** i is the first index carrying its key. */
  predicate IsLeader(keys: seq<nat>, i: nat)
    requires i < |keys|
  {
    forall j :: 0 <= j < i ==> keys[j] != keys[i]
  }

  /** The first index of each key among the first m, in increasing order. */
  function Leaders(keys: seq<nat>, m: nat): (ls: seq<nat>)
    requires m <= |keys|
    ensures forall k :: 0 <= k < |ls| ==> ls[k] < m
  {
    if m == 0 then [] else Leaders(keys, m - 1) + if IsLeader(keys, m - 1) then [m - 1] else []
  }

  /** The indices among the first m that share f's key, in increasing order. */
  function Members(keys: seq<nat>, f: nat, m: nat): (ms: seq<nat>)
    requires f < |keys| && m <= |keys|
    ensures forall k :: 0 <= k < |ms| ==> ms[k] < m
  {
    if m == 0 then [] else Members(keys, f, m - 1) + if keys[m - 1] == keys[f] then [m - 1] else []
  }

  /** One group per key, in the order its first index appears; each group in index order. */
  function GroupsUpTo(keys: seq<nat>, m: nat): (gs: seq<seq<nat>>)
    requires m <= |keys|
    ensures |gs| == |Leaders(keys, m)|
  {
    var ls := Leaders(keys, m);
    seq(|ls|, p requires 0 <= p < |ls| => Members(keys, ls[p], m))
  }

  function Groups(keys: seq<nat>): (gs: seq<seq<nat>>)
  {
    GroupsUpTo(keys, |keys|)
  }

  lemma {:induction false} LeadersAre(keys: seq<nat>, m: nat, x: nat)
    requires m <= |keys|
    ensures x in Leaders(keys, m) <==> x < m && IsLeader(keys, x)
  {
    if m > 0 {
      LeadersAre(keys, m - 1, x);
    }
  }

  lemma {:induction false} MembersAre(keys: seq<nat>, f: nat, m: nat, x: nat)
    requires f < |keys| && m <= |keys|
    ensures x in Members(keys, f, m) <==> x < m && keys[x] == keys[f]
  {
    if m > 0 {
      MembersAre(keys, f, m - 1, x);
    }
  }

  /** Two leaders never share a key, so leaders and keys correspond one to one. */
  lemma LeaderKeysDistinct(keys: seq<nat>, m: nat, p: nat, q: nat)
    requires m <= |keys| && p < |Leaders(keys, m)| && q < |Leaders(keys, m)| && p != q
    ensures keys[Leaders(keys, m)[p]] != keys[Leaders(keys, m)[q]]
  {
    var ls := Leaders(keys, m);
    LeadersIncreasing(keys, m);
    LeadersAre(keys, m, ls[p]);
    LeadersAre(keys, m, ls[q]);
  }

  lemma {:induction false} LeadersIncreasing(keys: seq<nat>, m: nat)
    requires m <= |keys|
    ensures forall p, q :: 0 <= p < q < |Leaders(keys, m)| ==> Leaders(keys, m)[p] < Leaders(keys, m)[q]
  {
    if m > 0 {
      LeadersIncreasing(keys, m - 1);
    }
  }

  /** Every index below m has its key's leader among the first m. */
  lemma {:induction false} LeaderOf(keys: seq<nat>, m: nat, x: nat) returns (p: nat)
    requires x < m <= |keys|
    ensures p < |Leaders(keys, m)| && keys[Leaders(keys, m)[p]] == keys[x]
    decreases x
  {
    if IsLeader(keys, x) {
      LeadersAre(keys, m, x);
      p :| 0 <= p < |Leaders(keys, m)| && Leaders(keys, m)[p] == x;
    } else {
      var j :| 0 <= j < x && keys[j] == keys[x];
      p := LeaderOf(keys, m, j);
    }
  }

  /** A new key opens a group of its own at the end. */
  lemma GroupsStepLeader(keys: seq<nat>, m: nat)
    requires m < |keys| && IsLeader(keys, m)
    ensures Leaders(keys, m + 1) == Leaders(keys, m) + [m]
    ensures GroupsUpTo(keys, m + 1) == GroupsUpTo(keys, m) + [[m]]
  {
    var ls := Leaders(keys, m);
    var g, g' := GroupsUpTo(keys, m), GroupsUpTo(keys, m + 1);
    assert Leaders(keys, m + 1) == ls + [m];
    forall p | 0 <= p < |g|
      ensures g'[p] == g[p]
    {
      assert keys[ls[p]] != keys[m];
      assert g'[p] == Members(keys, ls[p], m + 1) == Members(keys, ls[p], m);
    }
    assert Members(keys, m, m) == [] by {
      if Members(keys, m, m) != [] {
        MembersAre(keys, m, m, Members(keys, m, m)[0]);
      }
    }
    assert g'[|g|] == Members(keys, m, m + 1) == [m];
  }

  /** A key already seen appends its index to the group that key opened. */
  lemma GroupsStepMember(keys: seq<nat>, m: nat, p: nat)
    requires m < |keys| && p < |Leaders(keys, m)| && keys[Leaders(keys, m)[p]] == keys[m]
    ensures Leaders(keys, m + 1) == Leaders(keys, m)
    ensures GroupsUpTo(keys, m + 1) == GroupsUpTo(keys, m)[p := GroupsUpTo(keys, m)[p] + [m]]
  {
    var ls := Leaders(keys, m);
    var g, g' := GroupsUpTo(keys, m), GroupsUpTo(keys, m + 1);
    assert !IsLeader(keys, m) by {
      assert ls[p] < m;
    }
    assert Leaders(keys, m + 1) == ls;
    forall q | 0 <= q < |ls|
      ensures g'[q] == g[p := g[p] + [m]][q]
    {
      assert g'[q] == Members(keys, ls[q], m + 1);
      if q != p {
        LeaderKeysDistinct(keys, m, p, q);
      }
    }
  }

  /** Every index is in exactly one group, and that group holds exactly the indices of its key. */
  lemma GroupsPartition(keys: seq<nat>, x: nat)
    requires x < |keys|
    ensures exists p :: 0 <= p < |Groups(keys)| && x in Groups(keys)[p]
    ensures forall p :: 0 <= p < |Groups(keys)| && x in Groups(keys)[p] ==>
      forall y :: 0 <= y < |keys| ==> (y in Groups(keys)[p] <==> keys[y] == keys[x])
    ensures forall p, q ::
      0 <= p < |Groups(keys)| && 0 <= q < |Groups(keys)| && x in Groups(keys)[p] && x in Groups(keys)[q] ==> p == q
  {
    var ls := Leaders(keys, |keys|);
    var p := LeaderOf(keys, |keys|, x);
    MembersAre(keys, ls[p], |keys|, x);
    assert x in Groups(keys)[p];
    forall q, y | 0 <= q < |ls| && x in Groups(keys)[q] && 0 <= y < |keys|
      ensures y in Groups(keys)[q] <==> keys[y] == keys[x]
    {
      MembersAre(keys, ls[q], |keys|, x);
      MembersAre(keys, ls[q], |keys|, y);
    }
    forall q, r | 0 <= q < |ls| && 0 <= r < |ls| && x in Groups(keys)[q] && x in Groups(keys)[r]
      ensures q == r
    {
      MembersAre(keys, ls[q], |keys|, x);
      MembersAre(keys, ls[r], |keys|, x);
      if q != r {
        LeaderKeysDistinct(keys, |keys|, q, r);
      }
    }
  }

  /** No group is empty. */
  lemma GroupsNonEmpty(keys: seq<nat>, p: nat)
    requires p < |Groups(keys)|
    ensures Groups(keys)[p] != []
  {
    var ls := Leaders(keys, |keys|);
    MembersAre(keys, ls[p], |keys|, ls[p]);
  }

  function TotalSize(gs: seq<seq<nat>>): nat
  {
    if gs == [] then 0 else TotalSize(gs[..|gs| - 1]) + |gs[|gs| - 1]|
  }

  lemma {:induction false} TotalSizeUpdate(gs: seq<seq<nat>>, p: nat, x: nat)
    requires p < |gs|
    ensures TotalSize(gs[p := gs[p] + [x]]) == TotalSize(gs) + 1
  {
    var gs' := gs[p := gs[p] + [x]];
    if p < |gs| - 1 {
      assert gs'[..|gs'| - 1] == gs[..|gs| - 1][p := gs[p] + [x]];
      TotalSizeUpdate(gs[..|gs| - 1], p, x);
    } else {
      assert gs'[..|gs'| - 1] == gs[..|gs| - 1];
    }
  }

  /** The groups hold n indices in all. */
  lemma {:induction false} GroupsCount(keys: seq<nat>, m: nat)
    requires m <= |keys|
    ensures TotalSize(GroupsUpTo(keys, m)) == m
  {
    if m > 0 {
      GroupsCount(keys, m - 1);
      if IsLeader(keys, m - 1) {
        GroupsStepLeader(keys, m - 1);
        var g := GroupsUpTo(keys, m - 1);
        assert (g + [[m - 1]])[..|g|] == g;
      } else {
        var j :| 0 <= j < m - 1 && keys[j] == keys[m - 1];
        var p := LeaderOf(keys, m - 1, j);
        GroupsStepMember(keys, m - 1, p);
        TotalSizeUpdate(GroupsUpTo(keys, m - 1), p, m - 1);
      }
    }
  }

  /** Grouping depends only on which indices share a key, not on the key values. */
  lemma {:induction false} GroupsSameRel(k1: seq<nat>, k2: seq<nat>, m: nat)
    requires SameRel(k1, k2) && m <= |k1|
    ensures Leaders(k1, m) == Leaders(k2, m)
    ensures GroupsUpTo(k1, m) == GroupsUpTo(k2, m)
  {
    if m > 0 {
      GroupsSameRel(k1, k2, m - 1);
      assert IsLeader(k1, m - 1) == IsLeader(k2, m - 1);
    }
    var ls := Leaders(k1, m);
    forall p | 0 <= p < |ls|
      ensures Members(k1, ls[p], m) == Members(k2, ls[p], m)
    {
      MembersSameRel(k1, k2, ls[p], m);
    }
  }

  lemma {:induction false} MembersSameRel(k1: seq<nat>, k2: seq<nat>, f: nat, m: nat)
    requires SameRel(k1, k2) && f < |k1| && m <= |k1|
    ensures Members(k1, f, m) == Members(k2, f, m)
  {
    if m > 0 {
      MembersSameRel(k1, k2, f, m - 1);
    }
  }

  // ------------------------------------------------------------------
  // Fusing one group

  /** Number(v) || 1: a missing or zero variance counts as 1. */
  function VarAt(vars: seq<real>, i: nat): (v: real)
    ensures v != 0.0
    ensures i < |vars| && vars[i] != 0.0 ==> v == vars[i]
  {
    if i < |vars| && vars[i] != 0.0 then vars[i] else 1.0
  }

  /** 1 / max(1, v) */
  function Weight(v: real): (w: real)
    ensures 0.0 < w <= 1.0
  {
    1.0 / (if v > 1.0 then v else 1.0)
  }

  /** The weighted sums over a group's members. */
  datatype Sums = Sums(w: real, x: real, y: real)

  function SumStep(a: Sums, m: Obs, v: real): Sums
  {
    var w := Weight(v);
    Sums(a.w + w, a.x + w * m.xMm, a.y + w * m.yMm)
  }

  /** Everything else the fusing loop keeps: latest timestamp, radars, zones, least variance. */
  datatype Tally = Tally(tsMax: real, radars: seq<real>, zones: seq<string>, best: nat, bestVar: Option<real>)

  function TallyStep(a: Tally, m: Obs, i: nat, v: real): Tally
  {
    var better := a.bestVar.None? || v < a.bestVar.value;
    Tally(if m.measTs > a.tsMax then m.measTs else a.tsMax,
          if m.radarId in a.radars then a.radars else a.radars + [m.radarId],
          if m.zoneId == "" || m.zoneId in a.zones then a.zones else a.zones + [m.zoneId],
          if better then i else a.best,
          if better then Some(v) else a.bestVar)
  }

  predicate InRange(ms: seq<Obs>, g: seq<nat>)
  {
    forall k :: 0 <= k < |g| ==> g[k] < |ms|
  }

  /** The sums over the first k members of g. */
  function SumsOf(ms: seq<Obs>, vars: seq<real>, g: seq<nat>, k: nat): Sums
    requires k <= |g| && InRange(ms, g)
  {
    if k == 0 then Sums(0.0, 0.0, 0.0)
    else SumStep(SumsOf(ms, vars, g, k - 1), ms[g[k - 1]], VarAt(vars, g[k - 1]))
  }

  /** The tally over the first k members of g. */
  function TallyOf(ms: seq<Obs>, vars: seq<real>, g: seq<nat>, k: nat): Tally
    requires 0 < |g| && k <= |g| && InRange(ms, g)
  {
    if k == 0 then Tally(0.0, [], [], g[0], None)
    else TallyStep(TallyOf(ms, vars, g, k - 1), ms[g[k - 1]], g[k - 1], VarAt(vars, g[k - 1]))
  }

  /**
   * The fused observation: weighted centroid, latest timestamp, the
   * representative's radar and provenance, the single zone if there is
   * one, and the distinct radars; its variance is 1 / sum of weights.
   */
  function Fuse(ms: seq<Obs>, vars: seq<real>, g: seq<nat>): (Obs, real)
    requires 0 < |g| && InRange(ms, g)
  {
    var sums := SumsOf(ms, vars, g, |g|);
    var t := TallyOf(ms, vars, g, |g|);
    TallyBest(ms, vars, g, |g|);
    var rep := ms[t.best];
    var o := Obs(if t.tsMax != 0.0 then t.tsMax else rep.measTs,
                 rep.radarId,
                 if |t.zones| == 1 then t.zones[0] else rep.zoneId,
                 if sums.w > 0.0 then sums.x / sums.w else rep.xMm,
                 if sums.w > 0.0 then sums.y / sums.w else rep.yMm,
                 Or(rep.prov, Null),
                 Some(t.radars));
    (o, if sums.w > 0.0 then 1.0 / sums.w else VarAt(vars, t.best))
  }

  /** The position in g of the first member with the least variance among the first k. */
  function BestPos(vars: seq<real>, g: seq<nat>, k: nat): (b: nat)
    requires 0 < |g| && k <= |g|
    ensures b < |g| && (b < k || b == 0)
  {
    if k <= 1 then 0
    else if VarAt(vars, g[k - 1]) < VarAt(vars, g[BestPos(vars, g, k - 1)]) then k - 1
    else BestPos(vars, g, k - 1)
  }

  lemma {:induction false} BestPosLeast(vars: seq<real>, g: seq<nat>, k: nat)
    requires 0 < |g| && k <= |g|
    ensures forall j :: 0 <= j < k ==> VarAt(vars, g[BestPos(vars, g, k)]) <= VarAt(vars, g[j])
    ensures forall j :: 0 <= j < BestPos(vars, g, k) ==> VarAt(vars, g[j]) > VarAt(vars, g[BestPos(vars, g, k)])
  {
    if k > 1 {
      BestPosLeast(vars, g, k - 1);
    }
  }

  lemma {:induction false} TallyBest(ms: seq<Obs>, vars: seq<real>, g: seq<nat>, k: nat)
    requires 0 < |g| && k <= |g| && InRange(ms, g)
    ensures TallyOf(ms, vars, g, k).best == g[BestPos(vars, g, k)]
    ensures 0 < k ==> TallyOf(ms, vars, g, k).bestVar == Some(VarAt(vars, g[BestPos(vars, g, k)]))
    ensures k == 0 ==> TallyOf(ms, vars, g, k).bestVar.None?
  {
    if k > 0 {
      TallyBest(ms, vars, g, k - 1);
    }
  }

  predicate NoRepeats<T(==)>(s: seq<T>)
  {
    forall i, j :: 0 <= i < j < |s| ==> s[i] != s[j]
  }

  lemma {:induction false} TallySets(ms: seq<Obs>, vars: seq<real>, g: seq<nat>, k: nat)
    requires 0 < |g| && k <= |g| && InRange(ms, g)
    ensures NoRepeats(TallyOf(ms, vars, g, k).radars)
    ensures forall r :: r in TallyOf(ms, vars, g, k).radars <==> exists j :: 0 <= j < k && ms[g[j]].radarId == r
    ensures NoRepeats(TallyOf(ms, vars, g, k).zones)
    ensures forall z :: z in TallyOf(ms, vars, g, k).zones <==> z != "" && exists j :: 0 <= j < k && ms[g[j]].zoneId == z
  {
    if k > 0 {
      TallySets(ms, vars, g, k - 1);
      var a, a0, m := TallyOf(ms, vars, g, k), TallyOf(ms, vars, g, k - 1), ms[g[k - 1]];
      assert a.radars == if m.radarId in a0.radars then a0.radars else a0.radars + [m.radarId];
      assert a.zones == if m.zoneId == "" || m.zoneId in a0.zones then a0.zones else a0.zones + [m.zoneId];
    }
  }

  lemma TallyUnfold(ms: seq<Obs>, vars: seq<real>, g: seq<nat>, k: nat)
    requires 0 < k <= |g| && InRange(ms, g)
    ensures TallyOf(ms, vars, g, k).tsMax ==
      if ms[g[k - 1]].measTs > TallyOf(ms, vars, g, k - 1).tsMax then ms[g[k - 1]].measTs else TallyOf(ms, vars, g, k - 1).tsMax
  {
  }

  lemma {:induction false} TallyLatest(ms: seq<Obs>, vars: seq<real>, g: seq<nat>, k: nat)
    requires 0 < |g| && k <= |g| && InRange(ms, g)
    ensures TallyOf(ms, vars, g, k).tsMax >= 0.0
    ensures forall j :: 0 <= j < k ==> TallyOf(ms, vars, g, k).tsMax >= ms[g[j]].measTs
  {
    if k > 0 {
      TallyLatest(ms, vars, g, k - 1);
      TallyUnfold(ms, vars, g, k);
    }
  }

  lemma {:induction false} TallyLatestAttained(ms: seq<Obs>, vars: seq<real>, g: seq<nat>, k: nat)
    requires 0 < |g| && k <= |g| && InRange(ms, g)
    ensures TallyOf(ms, vars, g, k).tsMax == 0.0 || exists j :: 0 <= j < k && ms[g[j]].measTs == TallyOf(ms, vars, g, k).tsMax
  {
    if k > 0 {
      TallyLatestAttained(ms, vars, g, k - 1);
      TallyUnfold(ms, vars, g, k);
    }
  }

  lemma {:induction false} SumsWeights(ms: seq<Obs>, vars: seq<real>, g: seq<nat>, k: nat)
    requires 0 < |g| && k <= |g| && InRange(ms, g)
    ensures SumsOf(ms, vars, g, k).w >= 0.0
    ensures 0 < k ==> SumsOf(ms, vars, g, k).w > 0.0
    ensures forall j :: 0 <= j < k ==> SumsOf(ms, vars, g, k).w >= Weight(VarAt(vars, g[j]))
  {
    if k > 0 {
      SumsWeights(ms, vars, g, k - 1);
    }
  }

  /** Every weighted sum stays between the smallest and largest member coordinate times the weight. */
  lemma {:induction false} SumsBoxX(ms: seq<Obs>, vars: seq<real>, g: seq<nat>, k: nat, lo: real, hi: real)
    requires 0 < |g| && k <= |g| && InRange(ms, g)
    requires forall j :: 0 <= j < |g| ==> lo <= ms[g[j]].xMm <= hi
    ensures Between(lo, hi, SumsOf(ms, vars, g, k).x, SumsOf(ms, vars, g, k).w)
  {
    var a := SumsOf(ms, vars, g, k);
    if k > 0 {
      SumsBoxX(ms, vars, g, k - 1, lo, hi);
      var a0 := SumsOf(ms, vars, g, k - 1);
      SumsUnfold(ms, vars, g, k);
      BoxStep(a0.x, a0.w, Weight(VarAt(vars, g[k - 1])), ms[g[k - 1]].xMm, lo, hi, a.x, a.w);
    } else {
      BoxStart(lo, hi, a.x, a.w);
    }
  }

  lemma {:induction false} SumsBoxY(ms: seq<Obs>, vars: seq<real>, g: seq<nat>, k: nat, lo: real, hi: real)
    requires 0 < |g| && k <= |g| && InRange(ms, g)
    requires forall j :: 0 <= j < |g| ==> lo <= ms[g[j]].yMm <= hi
    ensures Between(lo, hi, SumsOf(ms, vars, g, k).y, SumsOf(ms, vars, g, k).w)
  {
    var a := SumsOf(ms, vars, g, k);
    if k > 0 {
      SumsBoxY(ms, vars, g, k - 1, lo, hi);
      var a0 := SumsOf(ms, vars, g, k - 1);
      SumsUnfold(ms, vars, g, k);
      BoxStep(a0.y, a0.w, Weight(VarAt(vars, g[k - 1])), ms[g[k - 1]].yMm, lo, hi, a.y, a.w);
    } else {
      BoxStart(lo, hi, a.y, a.w);
    }
  }

  lemma SumsUnfold(ms: seq<Obs>, vars: seq<real>, g: seq<nat>, k: nat)
    requires 0 < k <= |g| && InRange(ms, g)
    ensures SumsOf(ms, vars, g, k) == SumStep(SumsOf(ms, vars, g, k - 1), ms[g[k - 1]], VarAt(vars, g[k - 1]))
  {
  }

  /** s lies between lo and hi times the weight sw. */
  predicate Between(lo: real, hi: real, s: real, sw: real)
  {
    lo * sw <= s <= hi * sw
  }

  lemma BoxStart(lo: real, hi: real, s: real, sw: real)
    requires s == 0.0 && sw == 0.0
    ensures Between(lo, hi, s, sw)
  {
  }

  lemma BoxStep(s: real, sw: real, w: real, x: real, lo: real, hi: real, s': real, sw': real)
    requires Between(lo, hi, s, sw) && 0.0 < w && lo <= x <= hi
    requires s' == s + w * x && sw' == sw + w
    ensures Between(lo, hi, s', sw')
  {
    assert lo * w <= x * w <= hi * w;
  }

  /** The fused observation lists each member radar once, and no other. */
  lemma FusedSources(ms: seq<Obs>, vars: seq<real>, g: seq<nat>)
    requires 0 < |g| && InRange(ms, g)
    ensures Fuse(ms, vars, g).0.sourceRadars.Some?
    ensures NoRepeats(Fuse(ms, vars, g).0.sourceRadars.value)
    ensures forall r :: r in Fuse(ms, vars, g).0.sourceRadars.value <==> exists k :: 0 <= k < |g| && ms[g[k]].radarId == r
  {
    TallySets(ms, vars, g, |g|);
  }

  /** Once any member has a positive timestamp, the fused one is the latest member's. */
  lemma FusedLatest(ms: seq<Obs>, vars: seq<real>, g: seq<nat>)
    requires 0 < |g| && InRange(ms, g)
    requires exists k :: 0 <= k < |g| && ms[g[k]].measTs > 0.0
    ensures forall k :: 0 <= k < |g| ==> Fuse(ms, vars, g).0.measTs >= ms[g[k]].measTs
    ensures exists k :: 0 <= k < |g| && Fuse(ms, vars, g).0.measTs == ms[g[k]].measTs
  {
    TallyLatest(ms, vars, g, |g|);
    TallyLatestAttained(ms, vars, g, |g|);
  }

  /** Radar and provenance come from the first member of least variance. */
  lemma FusedRepresentative(ms: seq<Obs>, vars: seq<real>, g: seq<nat>)
    requires 0 < |g| && InRange(ms, g)
    ensures exists b :: (0 <= b < |g| &&
                         Fuse(ms, vars, g).0.radarId == ms[g[b]].radarId &&
                         Fuse(ms, vars, g).0.prov == Or(ms[g[b]].prov, Null) &&
                         (forall j :: 0 <= j < |g| ==> VarAt(vars, g[b]) <= VarAt(vars, g[j])) &&
                         (forall j :: 0 <= j < b ==> VarAt(vars, g[j]) > VarAt(vars, g[b])))
  {
    TallyBest(ms, vars, g, |g|);
    BestPosLeast(vars, g, |g|);
    var b := BestPos(vars, g, |g|);
    assert Fuse(ms, vars, g).0.radarId == ms[g[b]].radarId;
  }

  /** When the members name exactly one zone, the fused observation carries it. */
  lemma FusedZone(ms: seq<Obs>, vars: seq<real>, g: seq<nat>, z: string)
    requires 0 < |g| && InRange(ms, g) && z != ""
    requires exists k :: 0 <= k < |g| && ms[g[k]].zoneId == z
    requires forall k :: 0 <= k < |g| ==> ms[g[k]].zoneId in {z, ""}
    ensures Fuse(ms, vars, g).0.zoneId == z
  {
    TallySets(ms, vars, g, |g|);
    var zs := TallyOf(ms, vars, g, |g|).zones;
    assert z in zs;
    forall i | 0 <= i < |zs|
      ensures zs[i] == z
    {
      assert zs[i] in zs;
      var j :| 0 <= j < |g| && ms[g[j]].zoneId == zs[i];
    }
    OnlyElement(zs, z);
  }

  /** The fused variance is positive and no larger than any member's max(1, variance). */
  lemma FusedVariance(ms: seq<Obs>, vars: seq<real>, g: seq<nat>)
    requires 0 < |g| && InRange(ms, g)
    ensures Fuse(ms, vars, g).1 > 0.0
    ensures forall k :: 0 <= k < |g| ==>
      Fuse(ms, vars, g).1 <= (if VarAt(vars, g[k]) > 1.0 then VarAt(vars, g[k]) else 1.0)
  {
    SumsWeights(ms, vars, g, |g|);
    var sw := SumsOf(ms, vars, g, |g|).w;
    forall k | 0 <= k < |g|
      ensures 1.0 / sw <= (if VarAt(vars, g[k]) > 1.0 then VarAt(vars, g[k]) else 1.0)
    {
      InverseBelow(sw, if VarAt(vars, g[k]) > 1.0 then VarAt(vars, g[k]) else 1.0);
    }
  }

  lemma InverseBelow(sw: real, m: real)
    requires m >= 1.0 && sw >= 1.0 / m
    ensures 1.0 / sw <= m
  {
    assert sw * m >= 1.0;
  }

  /** The fused position lies within the members' bounding box. */
  lemma FusedWithinBox(ms: seq<Obs>, vars: seq<real>, g: seq<nat>, loX: real, hiX: real, loY: real, hiY: real)
    requires 0 < |g| && InRange(ms, g)
    requires forall k :: 0 <= k < |g| ==> loX <= ms[g[k]].xMm <= hiX && loY <= ms[g[k]].yMm <= hiY
    ensures loX <= Fuse(ms, vars, g).0.xMm <= hiX
    ensures loY <= Fuse(ms, vars, g).0.yMm <= hiY
  {
    var a := SumsOf(ms, vars, g, |g|);
    SumsWeights(ms, vars, g, |g|);
    SumsBoxX(ms, vars, g, |g|, loX, hiX);
    SumsBoxY(ms, vars, g, |g|, loY, hiY);
    Quotient(loX, hiX, a.x, a.w);
    Quotient(loY, hiY, a.y, a.w);
  }

  lemma Quotient(lo: real, hi: real, s: real, sw: real)
    requires Between(lo, hi, s, sw) && sw > 0.0
    ensures lo <= s / sw <= hi
  {
    assert (s / sw) * sw == s;
  }

  lemma {:induction false} NoRepeatsCard<T>(s: seq<T>)
    requires NoRepeats(s)
    ensures |set x | x in s| == |s|
  {
    if s != [] {
      var t := s[..|s| - 1];
      NoRepeatsCard(t);
      assert (set x | x in s) == (set x | x in t) + {s[|s| - 1]};
      assert s[|s| - 1] !in t;
    }
  }

  // ------------------------------------------------------------------
  // The whole tick

  datatype Clustered = Clustered(observations: seq<Obs>, measVarMm2ByIdx: seq<real>)

  /** A finite, positive maximum cluster size that the group exceeds. */
  predicate Oversize(maxClusterSize: Num, size: nat)
  {
    maxClusterSize.Fin? && maxClusterSize.v > 0.0 && size as real > maxClusterSize.v
  }

  /** Each member unchanged, with its variance. */
  function PassThrough(ms: seq<Obs>, vars: seq<real>, g: seq<nat>): (r: Clustered)
    requires InRange(ms, g)
    ensures |r.observations| == |r.measVarMm2ByIdx| == |g|
  {
    Clustered(seq(|g|, k requires 0 <= k < |g| => ms[g[k]]), seq(|g|, k requires 0 <= k < |g| => VarAt(vars, g[k])))
  }

  /** A single observation or an oversize group passes through; any other group fuses into one. */
  function EmitGroup(s: FusionSettings, ms: seq<Obs>, vars: seq<real>, g: seq<nat>): (r: Clustered)
    requires 0 < |g| && InRange(ms, g)
    ensures 1 <= |r.observations| == |r.measVarMm2ByIdx| <= |g|
  {
    if |g| == 1 then Clustered([ms[g[0]]], [VarAt(vars, g[0])])
    else if Oversize(s.maxClusterSize, |g|) then PassThrough(ms, vars, g)
    else Clustered([Fuse(ms, vars, g).0], [Fuse(ms, vars, g).1])
  }

  predicate WellFormedGroups(ms: seq<Obs>, gs: seq<seq<nat>>)
  {
    forall p :: 0 <= p < |gs| ==> 0 < |gs[p]| && InRange(ms, gs[p])
  }

  /** What each group emits, in group order. */
  function Emissions(s: FusionSettings, ms: seq<Obs>, vars: seq<real>, gs: seq<seq<nat>>): (es: seq<Clustered>)
    requires WellFormedGroups(ms, gs)
    ensures |es| == |gs|
  {
    seq(|gs|, p requires 0 <= p < |gs| => EmitGroup(s, ms, vars, gs[p]))
  }

  function Append(a: Clustered, b: Clustered): (r: Clustered)
    ensures |r.observations| == |a.observations| + |b.observations|
    ensures |r.measVarMm2ByIdx| == |a.measVarMm2ByIdx| + |b.measVarMm2ByIdx|
  {
    Clustered(a.observations + b.observations, a.measVarMm2ByIdx + b.measVarMm2ByIdx)
  }

  /** The first k emissions, one after another. */
  function Concat(es: seq<Clustered>, k: nat): Clustered
    requires k <= |es|
  {
    if k == 0 then Clustered([], []) else Append(Concat(es, k - 1), es[k - 1])
  }

  lemma GroupsWellFormed(ms: seq<Obs>, keys: seq<nat>)
    requires |keys| == |ms|
    ensures WellFormedGroups(ms, Groups(keys))
  {
    forall p | 0 <= p < |Groups(keys)|
      ensures 0 < |Groups(keys)[p]| && InRange(ms, Groups(keys)[p])
    {
      GroupsNonEmpty(keys, p);
    }
  }

  /** The clusterer's output for one tick. */
  function ClusterSpec(s: FusionSettings, visible: (real, real, real) -> bool, ms: seq<Obs>, vars: seq<real>): (r: Clustered)
    ensures !s.enabled || |ms| <= 1 ==> r == Clustered(ms, vars)
    ensures s.enabled && |ms| > 1 ==> |r.observations| == |r.measVarMm2ByIdx| && 1 <= |r.observations| <= |ms|
  {
    if !s.enabled || |ms| <= 1 then Clustered(ms, vars)
    else
      var keys := Classes(ms, visible, s.gateMm);
      GroupsWellFormed(ms, keys);
      var gs := Groups(keys);
      EmissionsSized(s, ms, vars, gs);
      ConcatSize(Emissions(s, ms, vars, gs), gs, |gs|);
      GroupsCount(keys, |keys|);
      assert gs[..|gs|] == gs;
      GroupsPartition(keys, 0);
      Concat(Emissions(s, ms, vars, gs), |gs|)
  }

  lemma {:induction false} MembersIncreasing(keys: seq<nat>, f: nat, m: nat)
    requires f < |keys| && m <= |keys|
    ensures forall p, q :: 0 <= p < q < |Members(keys, f, m)| ==> Members(keys, f, m)[p] < Members(keys, f, m)[q]
  {
    if m > 0 {
      MembersIncreasing(keys, f, m - 1);
    }
  }

  /** Emissions of one or more entries, each no longer than its group and paired with variances. */
  predicate SizedBy(es: seq<Clustered>, gs: seq<seq<nat>>)
  {
    |es| == |gs| &&
    forall p :: 0 <= p < |es| ==> 1 <= |es[p].observations| == |es[p].measVarMm2ByIdx| <= |gs[p]|
  }

  lemma EmissionsSized(s: FusionSettings, ms: seq<Obs>, vars: seq<real>, gs: seq<seq<nat>>)
    requires WellFormedGroups(ms, gs)
    ensures SizedBy(Emissions(s, ms, vars, gs), gs)
  {
  }

  lemma {:induction false} ConcatSize(es: seq<Clustered>, gs: seq<seq<nat>>, k: nat)
    requires SizedBy(es, gs) && k <= |es|
    ensures |Concat(es, k).observations| == |Concat(es, k).measVarMm2ByIdx|
    ensures k <= |Concat(es, k).observations| <= TotalSize(gs[..k])
  {
    if k > 0 {
      ConcatSize(es, gs, k - 1);
      assert gs[..k][..k - 1] == gs[..k - 1];
    }
  }

  /** o appears in the output, paired with variance v. */
  predicate Emits(r: Clustered, o: Obs, v: real)
  {
    exists off :: 0 <= off < |r.observations| && off < |r.measVarMm2ByIdx| &&
                  r.observations[off] == o && r.measVarMm2ByIdx[off] == v
  }

  /** Whatever a group emits appears in the tick's output, paired with its variance. */
  lemma {:induction false} ConcatContains(es: seq<Clustered>, gs: seq<seq<nat>>, k: nat, p: nat, i: nat)
    requires SizedBy(es, gs) && p < k <= |es| && i < |es[p].observations|
    ensures Emits(Concat(es, k), es[p].observations[i], es[p].measVarMm2ByIdx[i])
  {
    ConcatSize(es, gs, k - 1);
    if p < k - 1 {
      ConcatContains(es, gs, k - 1, p, i);
      EmitsAppendLeft(Concat(es, k - 1), es[k - 1], es[p].observations[i], es[p].measVarMm2ByIdx[i]);
    } else {
      EmitsAppendRight(Concat(es, k - 1), es[p], i);
    }
  }

  lemma EmitsAppendLeft(a: Clustered, b: Clustered, o: Obs, v: real)
    requires Emits(a, o, v)
    ensures Emits(Append(a, b), o, v)
  {
    var off :| 0 <= off < |a.observations| && off < |a.measVarMm2ByIdx| &&
               a.observations[off] == o && a.measVarMm2ByIdx[off] == v;
    assert Append(a, b).observations[off] == o;
    assert Append(a, b).measVarMm2ByIdx[off] == v;
  }

  lemma EmitsAppendRight(a: Clustered, b: Clustered, i: nat)
    requires |a.observations| == |a.measVarMm2ByIdx| && i < |b.observations| && |b.observations| == |b.measVarMm2ByIdx|
    ensures Emits(Append(a, b), b.observations[i], b.measVarMm2ByIdx[i])
  {
    var off := |a.observations| + i;
    assert Append(a, b).observations[off] == b.observations[i];
    assert Append(a, b).measVarMm2ByIdx[off] == b.measVarMm2ByIdx[i];
  }

  /** When clustering runs, the output is the groups' emissions in order of first appearance. */
  lemma ClusterSpecIs(s: FusionSettings, visible: (real, real, real) -> bool, ms: seq<Obs>, vars: seq<real>)
    requires s.enabled && 1 < |ms|
    ensures WellFormedGroups(ms, Groups(Classes(ms, visible, s.gateMm)))
    ensures SizedBy(Emissions(s, ms, vars, Groups(Classes(ms, visible, s.gateMm))), Groups(Classes(ms, visible, s.gateMm)))
    ensures ClusterSpec(s, visible, ms, vars) ==
      Concat(Emissions(s, ms, vars, Groups(Classes(ms, visible, s.gateMm))), |Groups(Classes(ms, visible, s.gateMm))|)
  {
    GroupsWellFormed(ms, Classes(ms, visible, s.gateMm));
    EmissionsSized(s, ms, vars, Groups(Classes(ms, visible, s.gateMm)));
  }

  /** Any two linked observations end in one group. */
  lemma LinkedShareGroup(ms: seq<Obs>, visible: (real, real, real) -> bool, gate: Num, i: nat, j: nat)
    requires i < j < |ms| && Linked(ms, visible, gate, i, j)
    ensures exists p :: (0 <= p < |Groups(Classes(ms, visible, gate))| &&
                         i in Groups(Classes(ms, visible, gate))[p] && j in Groups(Classes(ms, visible, gate))[p])
  {
    var keys := Classes(ms, visible, gate);
    LinkedJoined(ms, visible, gate, i, j);
    GroupsPartition(keys, i);
  }

  /** The group holding x holds x alone. */
  lemma AloneGroup(keys: seq<nat>, x: nat) returns (p: nat)
    requires x < |keys| && Alone(keys, x)
    ensures p < |Groups(keys)| && Groups(keys)[p] == [x]
  {
    var gs := Groups(keys);
    GroupsPartition(keys, x);
    p :| 0 <= p < |gs| && x in gs[p];
    var g := gs[p];
    var f := Leaders(keys, |keys|)[p];
    assert g == Members(keys, f, |keys|);
    MembersIncreasing(keys, f, |keys|);
    assert NoRepeats(g);
    forall y | y in g
      ensures y == x
    {
      assert keys[y] == keys[x];
    }
    OnlyElement(g, x);
  }

  /** An observation linked to no other is emitted unchanged, with its own variance. */
  lemma UnlinkedPassesThrough(s: FusionSettings, visible: (real, real, real) -> bool, ms: seq<Obs>, vars: seq<real>, x: nat)
    requires s.enabled && 1 < |ms| && x < |ms| && Unlinked(ms, visible, s.gateMm, x)
    ensures Emits(ClusterSpec(s, visible, ms, vars), ms[x], VarAt(vars, x))
  {
    var keys := Classes(ms, visible, s.gateMm);
    UnlinkedAlone(ms, visible, s.gateMm, x);
    var p := AloneGroup(keys, x);
    ClusterSpecIs(s, visible, ms, vars);
    ConcatContains(Emissions(s, ms, vars, Groups(keys)), Groups(keys), |Groups(keys)|, p, 0);
  }

  /** Every member of an oversize group is emitted unchanged, with its own variance. */
  lemma OversizePassesThrough(s: FusionSettings, visible: (real, real, real) -> bool, ms: seq<Obs>, vars: seq<real>,
                              p: nat, x: nat)
    requires s.enabled && 1 < |ms|
    requires p < |Groups(Classes(ms, visible, s.gateMm))|
    requires x in Groups(Classes(ms, visible, s.gateMm))[p]
    requires Oversize(s.maxClusterSize, |Groups(Classes(ms, visible, s.gateMm))[p]|)
    ensures x < |ms| && Emits(ClusterSpec(s, visible, ms, vars), ms[x], VarAt(vars, x))
  {
    var gs := Groups(Classes(ms, visible, s.gateMm));
    ClusterSpecIs(s, visible, ms, vars);
    var i :| 0 <= i < |gs[p]| && gs[p][i] == x;
    ConcatContains(Emissions(s, ms, vars, gs), gs, |gs|, p, i);
  }

  /** A group of two or more within the size limit is emitted as its fused observation. */
  lemma FusedEmitted(s: FusionSettings, visible: (real, real, real) -> bool, ms: seq<Obs>, vars: seq<real>, p: nat)
    requires s.enabled && 1 < |ms|
    requires p < |Groups(Classes(ms, visible, s.gateMm))|
    requires 1 < |Groups(Classes(ms, visible, s.gateMm))[p]|
    requires !Oversize(s.maxClusterSize, |Groups(Classes(ms, visible, s.gateMm))[p]|)
    ensures InRange(ms, Groups(Classes(ms, visible, s.gateMm))[p])
    ensures Emits(ClusterSpec(s, visible, ms, vars), Fuse(ms, vars, Groups(Classes(ms, visible, s.gateMm))[p]).0,
                  Fuse(ms, vars, Groups(Classes(ms, visible, s.gateMm))[p]).1)
  {
    var gs := Groups(Classes(ms, visible, s.gateMm));
    ClusterSpecIs(s, visible, ms, vars);
    ConcatContains(Emissions(s, ms, vars, gs), gs, |gs|, p, 0);
  }

  /** A sequence without repeats whose only value is x is [x]. */
  lemma OnlyElement<T>(s: seq<T>, x: T)
    requires NoRepeats(s) && x in s && forall y :: y in s ==> y == x
    ensures s == [x]
  {
    NoRepeatsCard(s);
    assert (set y | y in s) == {x};
  }

  // ------------------------------------------------------------------
  // The clusterer's loops

  /** The pair scan: union every linked pair (i, j), i < j, in order. */
  method LinkPairs(ms: seq<Obs>, visible: (real, real, real) -> bool, gate: Num) returns (uf: Uf)
    ensures fresh(uf) && fresh(uf.parent) && fresh(uf.rank)
    ensures uf.Valid() && uf.parent.Length == |ms|
    ensures SameRel(uf.Roots(), Classes(ms, visible, gate))
  {
    uf := new Uf(|ms|);
    ghost var l: seq<nat> := seq(|ms|, k => k);
    var i := 0;
    while i < |ms|
      invariant 0 <= i <= |ms|
      invariant fresh(uf) && fresh(uf.parent) && fresh(uf.rank)
      invariant uf.Valid() && uf.parent.Length == |ms|
      invariant |l| == |ms| && SameRel(uf.Roots(), l)
      invariant LinkFrom(l, ms, visible, gate, i) == Classes(ms, visible, gate)
    {
      l := ScanRow(uf, ms, visible, gate, i, l);
      i := i + 1;
    }
  }

  /** Row i of the pair scan: union i with every later j it is linked to. */
  method ScanRow(uf: Uf, ms: seq<Obs>, visible: (real, real, real) -> bool, gate: Num, i: nat, ghost l: seq<nat>)
    returns (ghost l': seq<nat>)
    requires uf.Valid() && uf.parent.Length == |ms| && i < |ms| && |l| == |ms| && SameRel(uf.Roots(), l)
    modifies uf, uf.parent, uf.rank
    ensures uf.Valid()
    ensures l' == LinkRow(l, ms, visible, gate, i, i + 1) && SameRel(uf.Roots(), l')
  {
    l' := l;
    var j := i + 1;
    while j < |ms|
      invariant RowState(uf, ms, visible, gate, i, j, l, l')
    {
      l' := LinkPair(uf, ms, visible, gate, i, j, l, l');
      j := j + 1;
    }
  }

  /** Partway through row i: the classes so far, and what the rest of the row will make of them. */
  ghost predicate RowState(uf: Uf, ms: seq<Obs>, visible: (real, real, real) -> bool, gate: Num,
                           i: nat, j: nat, l0: seq<nat>, l: seq<nat>)
    reads uf, uf.parent, uf.rank
  {
    uf.Valid() && uf.parent.Length == |ms| && i < j <= |ms| && |l| == |ms| && |l0| == |ms| &&
    SameRel(uf.Roots(), l) && LinkRow(l, ms, visible, gate, i, j) == LinkRow(l0, ms, visible, gate, i, i + 1)
  }

  /** One pair of the scan: union i and j when they are linked. */
  method LinkPair(uf: Uf, ms: seq<Obs>, visible: (real, real, real) -> bool, gate: Num, i: nat, j: nat,
                  ghost l0: seq<nat>, ghost l: seq<nat>)
    returns (ghost l': seq<nat>)
    requires RowState(uf, ms, visible, gate, i, j, l0, l) && j < |ms|
    modifies uf, uf.parent, uf.rank
    ensures RowState(uf, ms, visible, gate, i, j + 1, l0, l')
  {
    LinkRowStep(l, ms, visible, gate, i, j);
    l' := l;
    if Linked(ms, visible, gate, i, j) {
      ghost var rs := uf.Roots();
      uf.Union(i, j);
      UnionKeepsSameRel(rs, uf.Roots(), l, i, j);
      l' := Relabel(l, i, j);
    }
  }

  lemma LinkRowStep(l: seq<nat>, ms: seq<Obs>, visible: (real, real, real) -> bool, gate: Num, i: nat, j: nat)
    requires |l| == |ms| && i < j < |ms|
    ensures LinkRow(l, ms, visible, gate, i, j) ==
      LinkRow(if Linked(ms, visible, gate, i, j) then Relabel(l, i, j) else l, ms, visible, gate, i, j + 1)
  {
  }

  lemma UnionKeepsSameRel(rs: seq<nat>, rs': seq<nat>, l: seq<nat>, a: nat, b: nat)
    requires a < |rs| && b < |rs| && |rs'| == |rs| && SameRel(rs, l)
    requires rs'[a] == rs[a] || rs'[a] == rs[b]
    requires forall i :: 0 <= i < |rs| ==> rs'[i] == if rs[i] == rs[a] || rs[i] == rs[b] then rs'[a] else rs[i]
    ensures SameRel(rs', Relabel(l, a, b))
  {
    UnionMerges(rs, rs', a, b);
    RelabelMerges(l, a, b);
    MergedSameRel(rs, rs', l, Relabel(l, a, b), a, b);
  }

  /** Group the indices by root, groups in order of first appearance. */
  method GroupIndices(uf: Uf) returns (gs: seq<seq<nat>>)
    requires uf.Valid()
    modifies uf.parent
    ensures uf.Valid() && uf.Roots() == old(uf.Roots())
    ensures gs == Groups(old(uf.Roots()))
  {
    ghost var keys := uf.Roots();
    var pos: map<nat, nat> := map[];
    gs := [];
    var m := 0;
    while m < uf.parent.Length
      invariant 0 <= m <= uf.parent.Length == |keys|
      invariant uf.Valid() && uf.Roots() == keys
      invariant gs == GroupsUpTo(keys, m) && PositionsOf(keys, m, pos)
    {
      var r := uf.Find(m);
      gs, pos := AddIndex(m, r, gs, pos, keys);
      m := m + 1;
    }
  }

  /** groups.get(r).push(m), opening the group first when r is new. */
  method AddIndex(m: nat, r: nat, gs: seq<seq<nat>>, pos: map<nat, nat>, ghost keys: seq<nat>)
    returns (gs': seq<seq<nat>>, pos': map<nat, nat>)
    requires m < |keys| && r == keys[m] && gs == GroupsUpTo(keys, m) && PositionsOf(keys, m, pos)
    ensures gs' == GroupsUpTo(keys, m + 1) && PositionsOf(keys, m + 1, pos')
  {
    if r in pos {
      PositionsMember(keys, m, pos);
      gs', pos' := gs[pos[r] := gs[pos[r]] + [m]], pos;
    } else {
      PositionsLeader(keys, m, pos);
      gs', pos' := gs + [[m]], pos[r := |gs|];
    }
  }

  /** pos maps every key seen among the first m to the position of its group. */
  ghost predicate PositionsOf(keys: seq<nat>, m: nat, pos: map<nat, nat>)
    requires m <= |keys|
  {
    (forall r :: r in pos <==> exists j :: 0 <= j < m && keys[j] == r) &&
    (forall r :: r in pos ==> pos[r] < |Leaders(keys, m)| && keys[Leaders(keys, m)[pos[r]]] == r)
  }

  lemma PositionsMember(keys: seq<nat>, m: nat, pos: map<nat, nat>)
    requires m < |keys| && PositionsOf(keys, m, pos) && keys[m] in pos
    ensures pos[keys[m]] < |GroupsUpTo(keys, m)|
    ensures PositionsOf(keys, m + 1, pos)
    ensures GroupsUpTo(keys, m + 1) == GroupsUpTo(keys, m)[pos[keys[m]] := GroupsUpTo(keys, m)[pos[keys[m]]] + [m]]
  {
    GroupsStepMember(keys, m, pos[keys[m]]);
  }

  lemma PositionsLeader(keys: seq<nat>, m: nat, pos: map<nat, nat>)
    requires m < |keys| && PositionsOf(keys, m, pos) && keys[m] !in pos
    ensures PositionsOf(keys, m + 1, pos[keys[m] := |GroupsUpTo(keys, m)|])
    ensures GroupsUpTo(keys, m + 1) == GroupsUpTo(keys, m) + [[m]]
  {
    GroupsStepLeader(keys, m);
    var pos' := pos[keys[m] := |GroupsUpTo(keys, m)|];
    forall r | r in pos'
      ensures exists j :: 0 <= j < m + 1 && keys[j] == r
    {
      if r == keys[m] {
        assert keys[m] == r;
      }
    }
  }

  /** The fusing loop over one group's members. */
  method FuseGroup(ms: seq<Obs>, vars: seq<real>, g: seq<nat>) returns (o: Obs, v: real)
    requires 0 < |g| && InRange(ms, g)
    ensures (o, v) == Fuse(ms, vars, g)
  {
    var sums := Sums(0.0, 0.0, 0.0);
    var t := Tally(0.0, [], [], g[0], None);
    var k := 0;
    while k < |g|
      invariant 0 <= k <= |g|
      invariant sums == SumsOf(ms, vars, g, k) && t == TallyOf(ms, vars, g, k)
    {
      var varMm2 := VarAt(vars, g[k]);
      sums := SumStep(sums, ms[g[k]], varMm2);
      t := TallyStep(t, ms[g[k]], g[k], varMm2);
      k := k + 1;
    }
    TallyBest(ms, vars, g, |g|);
    var rep := ms[t.best];
    var cx := if sums.w > 0.0 then sums.x / sums.w else rep.xMm;
    var cy := if sums.w > 0.0 then sums.y / sums.w else rep.yMm;
    o := Obs(if t.tsMax != 0.0 then t.tsMax else rep.measTs, rep.radarId,
             if |t.zones| == 1 then t.zones[0] else rep.zoneId, cx, cy, Or(rep.prov, Null), Some(t.radars));
    v := if sums.w > 0.0 then 1.0 / sums.w else VarAt(vars, t.best);
  }

  /** Emit every group in order: pass through, pass each member through, or fuse. */
  method EmitGroups(s: FusionSettings, ms: seq<Obs>, vars: seq<real>, gs: seq<seq<nat>>) returns (r: Clustered)
    requires WellFormedGroups(ms, gs)
    ensures r == Concat(Emissions(s, ms, vars, gs), |gs|)
  {
    ghost var es := Emissions(s, ms, vars, gs);
    var fused: seq<Obs> := [];
    var fusedVar: seq<real> := [];
    var p := 0;
    while p < |gs|
      invariant 0 <= p <= |gs|
      invariant Clustered(fused, fusedVar) == Concat(es, p)
    {
      assert es[p] == EmitGroup(s, ms, vars, gs[p]);
      fused, fusedVar := EmitOne(s, ms, vars, gs[p], fused, fusedVar);
      p := p + 1;
    }
    r := Clustered(fused, fusedVar);
  }

  /** One group of the emitting loop. */
  method EmitOne(s: FusionSettings, ms: seq<Obs>, vars: seq<real>, g: seq<nat>, fused: seq<Obs>, fusedVar: seq<real>)
    returns (fused': seq<Obs>, fusedVar': seq<real>)
    requires 0 < |g| && InRange(ms, g)
    ensures Clustered(fused', fusedVar') == Append(Clustered(fused, fusedVar), EmitGroup(s, ms, vars, g))
  {
    if |g| == 1 {
      fused', fusedVar' := fused + [ms[g[0]]], fusedVar + [VarAt(vars, g[0])];
    } else if s.maxClusterSize.Fin? && s.maxClusterSize.v > 0.0 && |g| as real > s.maxClusterSize.v {
      fused', fusedVar' := PassMembers(ms, vars, g, fused, fusedVar);
    } else {
      var o, v := FuseGroup(ms, vars, g);
      fused', fusedVar' := fused + [o], fusedVar + [v];
    }
  }

  /** An oversize group: every member is pushed unchanged, with its variance. */
  method PassMembers(ms: seq<Obs>, vars: seq<real>, g: seq<nat>, fused: seq<Obs>, fusedVar: seq<real>)
    returns (fused': seq<Obs>, fusedVar': seq<real>)
    requires InRange(ms, g)
    ensures Clustered(fused', fusedVar') == Append(Clustered(fused, fusedVar), PassThrough(ms, vars, g))
  {
    fused', fusedVar' := fused, fusedVar;
    var k := 0;
    while k < |g|
      invariant 0 <= k <= |g|
      invariant fused' == fused + PassThrough(ms, vars, g[..k]).observations
      invariant fusedVar' == fusedVar + PassThrough(ms, vars, g[..k]).measVarMm2ByIdx
    {
      assert PassThrough(ms, vars, g[..k + 1]).observations == PassThrough(ms, vars, g[..k]).observations + [ms[g[k]]];
      assert PassThrough(ms, vars, g[..k + 1]).measVarMm2ByIdx ==
             PassThrough(ms, vars, g[..k]).measVarMm2ByIdx + [VarAt(vars, g[k])];
      fused', fusedVar' := fused' + [ms[g[k]]], fusedVar' + [VarAt(vars, g[k])];
      k := k + 1;
    }
    assert g[..k] == g;
  }

  /** The fusion clusterer: its configuration is read once, visibility is a parameter. */
  class Clusterer {
    const settings: FusionSettings
    const visible: (real, real, real) -> bool

    constructor (cfg: Value, visible: (real, real, real) -> bool)
      ensures settings == FusionSettingsOf(cfg) && this.visible == visible
    {
      settings := FusionSettingsOf(cfg);
      this.visible := visible;
    }

    /** cluster(): one tick's observations and variances in, the clustered ones out. */
    method Cluster(observations: seq<Obs>, vars: seq<real>) returns (r: Clustered)
      ensures r == ClusterSpec(settings, visible, observations, vars)
    {
      if !settings.enabled || |observations| <= 1 {
        return Clustered(observations, vars);
      }
      var uf := LinkPairs(observations, visible, settings.gateMm);
      ghost var keys := uf.Roots();
      var gs := GroupIndices(uf);
      GroupsSameRel(keys, Classes(observations, visible, settings.gateMm), |keys|);
      GroupsWellFormed(observations, Classes(observations, visible, settings.gateMm));
      r := EmitGroups(settings, observations, vars, gs);
    }
  }
}
