/**
 * The observation stage of the presence tracker. Each tick it filters the
 * observations by bearing, keeps one observation per slot, and gives each
 * kept observation a measurement variance. The variance is the base noise
 * scaled up at the edge of the field of view, at long range, on jitter, on
 * stale measurements and on implausible jumps. Two histories, keyed by slot
 * or radar, remember each key's last position for the jitter and jump
 * scales.
 *
 * Math.atan2 in degrees and the Euclidean norm are the parameters of a
 * Geometry; the noise-scale mapping mapScale is modelled with them.
 */
module TrackingObservationStage {
  import opened Common
  import opened Js
  import opened Measurement

  /** The trigonometry the stage calls: atan2(x, y) in degrees, and sqrt(x * x + y * y). */
  datatype Geometry = Geometry(bearingDeg: (real, real) -> real, hypot: (real, real) -> real)

  function AbsR(x: real): (r: real)
    ensures r >= 0.0 && (r == x || r == -x)
  {
    if x < 0.0 then -x else x
  }

  // ------------------------------------------------------------------
  // Noise scales

  /** clamp01 on a finite number. */
  function Clamp01(x: real): (r: real)
    ensures 0.0 <= r <= 1.0
    ensures 0.0 <= x <= 1.0 ==> r == x
  {
    if x < 0.0 then 0.0 else if x > 1.0 then 1.0 else x
  }

  /**
   * x * y. Products go through this function so that the facts proved
   * about one product are found again wherever the same product appears.
   */
  function Mul(x: real, y: real): real
  {
    x * y
  }

  /** lerp(a, b, t) = a + (b - a) * clamp01(t) */
  function Lerp(a: real, b: real, t: real): real
  {
    a + Mul(b - a, Clamp01(t))
  }

  /** Between a and b, interpolation stays between them and grows with t. */
  lemma LerpBetween(a: real, b: real, t: real, t': real)
    requires a <= b
    ensures a <= Lerp(a, b, t) <= b
    ensures t <= t' ==> Lerp(a, b, t) <= Lerp(a, b, t')
  {
    LerpBounds(a, b, t);
    if t <= t' {
      LerpMonotone(a, b, t, t');
    }
  }

  lemma LerpBounds(a: real, b: real, t: real)
    requires a <= b
    ensures a <= Lerp(a, b, t) <= b
  {
    Fraction(b - a, Clamp01(t));
  }

  lemma LerpMonotone(a: real, b: real, t: real, t': real)
    requires a <= b && t <= t'
    ensures Lerp(a, b, t) <= Lerp(a, b, t')
  {
    MulMono(b - a, Clamp01(t), Clamp01(t'));
  }

  lemma MulMono(k: real, x: real, y: real)
    requires k >= 0.0 && x <= y
    ensures Mul(k, x) <= Mul(k, y)
  {
    assert k * y - k * x == k * (y - x);
  }

  lemma MulMonoLeft(k: real, x: real, y: real)
    requires k >= 0.0 && x <= y
    ensures Mul(x, k) <= Mul(y, k)
  {
    assert y * k - x * k == (y - x) * k;
  }

  /** A fraction c in [0, 1] of a non-negative x is between 0 and x. */
  lemma Fraction(x: real, c: real)
    requires x >= 0.0 && 0.0 <= c <= 1.0
    ensures 0.0 <= Mul(x, c) <= x
  {
    MulMono(x, c, 1.0);
    MulMono(x, 0.0, c);
  }

  lemma DivMono(x: real, y: real, d: real)
    requires x <= y && d > 0.0
    ensures x / d <= y / d
  {
    assert y / d - x / d == (y - x) / d;
  }

  /**
   * mapScale (src/domains/presence/tracking/debug/trackingDebugFormat.js):
   * 1 up to full, scaleMax from cutoff on, linear in between; 1 whenever
   * a bound is not finite or scaleMax is at most 1.
   */
  function MapScale(v: real, full: Num, cutoff: Num, scaleMax: Num): real
  {
    if !(full.Fin? && cutoff.Fin? && scaleMax.Fin?) then 1.0
    else if scaleMax.v <= 1.0 then 1.0
    else if v <= full.v then 1.0
    else if v >= cutoff.v then scaleMax.v
    else
      var span := if cutoff.v - full.v > 0.000000001 then cutoff.v - full.v else 0.000000001;
      Lerp(1.0, scaleMax.v, (v - full.v) / span)
  }

  /** The scale is at least 1 and at most max(1, scaleMax). */
  lemma MapScaleBounds(v: real, full: Num, cutoff: Num, scaleMax: Num)
    ensures 1.0 <= MapScale(v, full, cutoff, scaleMax)
    ensures MapScale(v, full, cutoff, scaleMax) <= (if scaleMax.Fin? && scaleMax.v > 1.0 then scaleMax.v else 1.0)
  {
    if full.Fin? && cutoff.Fin? && scaleMax.Fin? && scaleMax.v > 1.0 {
      LerpBetween(1.0, scaleMax.v, (v - full.v) / (if cutoff.v - full.v > 0.000000001 then cutoff.v - full.v else 0.000000001), 0.0);
    }
  }

  /** A larger bearing, range or displacement never gets a smaller scale. */
  lemma MapScaleMonotone(v: real, v': real, full: Num, cutoff: Num, scaleMax: Num)
    requires v <= v'
    ensures MapScale(v, full, cutoff, scaleMax) <= MapScale(v', full, cutoff, scaleMax)
  {
    MapScaleBounds(v, full, cutoff, scaleMax);
    MapScaleBounds(v', full, cutoff, scaleMax);
    if full.Fin? && cutoff.Fin? && scaleMax.Fin? && scaleMax.v > 1.0 && full.v < v && v' < cutoff.v {
      var span := if cutoff.v - full.v > 0.000000001 then cutoff.v - full.v else 0.000000001;
      DivMono(v - full.v, v' - full.v, span);
      LerpBetween(1.0, scaleMax.v, (v - full.v) / span, (v' - full.v) / span);
    }
  }

  // ------------------------------------------------------------------
  // Settings

  /** Number(x[key] ?? d) */
  function Setting(x: Value, key: string, d: int): (r: Num)
    ensures Nullish(Get(x, key)) ==> r == Fin(d as real)
    ensures Get(x, key).Number? ==> r == Get(x, key).n
  {
    ToNumber(OrElse(Get(x, key), Int(d)))
  }

  /** A finite positive n floored, or the default d. */
  function PositiveFloorOr(n: Num, d: real): (r: real)
    requires d >= 0.0
    ensures r >= 0.0
  {
    if n.Fin? && n.v > 0.0 then
      var f := Floor(n.v);
      assert f as real > -1.0;
      f as real
    else d
  }

  /** What the stage reads from its configuration. */
  datatype StageSettings = StageSettings(
    filterCutoffDeg: Num,
    baseMm: Num,
    fullBear: Num, cutBear: Num, edgeMax: Num,
    fullRange: Num, cutRange: Num, rangeMax: Num,
    jitWinMs: Num, jitFull: Num, jitCut: Num, jitMax: Num,
    staleMaxMs: real, staleMax: Num,
    historyWindowMs: real)

  /**
   * quality.* with their defaults; the bearing filter's cutoff has none.
   * A quality that is falsy or not an object reads as {}: Get answers
   * undefined for every key of either.
   */
  function SettingsOf(cfg: Value): StageSettings
  {
    var q := Get(cfg, "quality");
    var stale := ToNumber(Get(Get(Get(cfg, "tracking"), "snapshot"), "staleMeasMaxMs"));
    var win := Setting(q, "jitterWindowMs", 500);
    StageSettings(
      ToNumber(Get(q, "edgeBearingCutoffDeg")),
      Setting(Get(Get(cfg, "tracking"), "kf"), "measNoiseBaseMm", 160),
      Setting(q, "edgeBearingFullDeg", 30), Setting(q, "edgeBearingCutoffDeg", 45), Setting(q, "edgeNoiseScaleMax", 4),
      Setting(q, "rangeFullMm", 1200), Setting(q, "rangeCutoffMm", 3000), Setting(q, "rangeNoiseScaleMax", 3),
      win, Setting(q, "jitterFullMm", 60), Setting(q, "jitterCutoffMm", 250), Setting(q, "jitterNoiseScaleMax", 3),
      PositiveFloorOr(stale, 250.0),
      Setting(q, "staleNoiseScaleMax", 1),
      PositiveFloorOr(win, 500.0))
  }

  /**
   * The defaults: a base noise of 160 mm, a 500 ms jitter window (which is
   * also the history window), no stale scaling; the two millisecond
   * windows are never negative.
   */
  lemma SettingsDefaults(cfg: Value)
    ensures SettingsOf(cfg).staleMaxMs >= 0.0 && SettingsOf(cfg).historyWindowMs >= 0.0
    ensures Nullish(Get(Get(Get(cfg, "tracking"), "kf"), "measNoiseBaseMm")) ==> SettingsOf(cfg).baseMm == Fin(160.0)
    ensures Nullish(Get(Get(cfg, "quality"), "jitterWindowMs")) ==>
      SettingsOf(cfg).jitWinMs == Fin(500.0) && SettingsOf(cfg).historyWindowMs == 500.0
    ensures Nullish(Get(Get(cfg, "quality"), "staleNoiseScaleMax")) ==> SettingsOf(cfg).staleMax == Fin(1.0)
  {
    var q := Get(cfg, "quality");
    var win := Setting(q, "jitterWindowMs", 500);
    var stale := ToNumber(Get(Get(Get(cfg, "tracking"), "snapshot"), "staleMeasMaxMs"));
    assert SettingsOf(cfg).staleMaxMs == PositiveFloorOr(stale, 250.0);
    assert SettingsOf(cfg).historyWindowMs == PositiveFloorOr(win, 500.0);
  }

  // ------------------------------------------------------------------
  // The bearing filter

  /** prov.localMm as a finite position, when both coordinates are finite. */
  function LocalMm(m: Obs): Option<(real, real)>
  {
    var local := Get(m.prov, "localMm");
    var x := ToNumber(Get(local, "xMm"));
    var y := ToNumber(Get(local, "yMm"));
    if x.Fin? && y.Fin? then Some((x.v, y.v)) else None
  }

  /** The filter runs only with a finite, positive cutoff. */
  predicate BearingGate(cutoff: Num)
  {
    cutoff.Fin? && cutoff.v > 0.0
  }

  /** An observation without a finite local position is kept; otherwise its bearing must be within the cutoff. */
  predicate Kept(cutoff: real, g: Geometry, m: Obs)
  {
    match LocalMm(m)
    case None => true
    case Some(p) => AbsR(g.bearingDeg(p.0, p.1)) <= cutoff
  }

  function KeptBy(cutoff: real, g: Geometry): Obs -> bool
  {
    m => Kept(cutoff, g, m)
  }

  /** The observations keep accepts, in order; modelled for any keep, the stage's is KeptBy. */
  function KeepIn(keep: Obs -> bool, obs: seq<Obs>): seq<Obs>
    decreases |obs|
  {
    if obs == [] then []
    else KeepIn(keep, obs[..|obs| - 1]) + (if keep(obs[|obs| - 1]) then [obs[|obs| - 1]] else [])
  }

  /** #filterObservations */
  function Filtered(cutoff: Num, g: Geometry, obs: seq<Obs>): seq<Obs>
  {
    if BearingGate(cutoff) then KeepIn(KeptBy(cutoff.v, g), obs) else obs
  }

  /** The kept observations are exactly the input's that pass, no more of them than the input has. */
  lemma {:induction false} KeepInMembers(keep: Obs -> bool, obs: seq<Obs>)
    ensures |KeepIn(keep, obs)| <= |obs|
    ensures forall m :: m in KeepIn(keep, obs) <==> m in obs && keep(m)
    decreases |obs|
  {
    if obs != [] {
      KeepInMembers(keep, obs[..|obs| - 1]);
      assert obs == obs[..|obs| - 1] + [obs[|obs| - 1]];
    }
  }

  lemma {:induction false} KeepInIdempotent(keep: Obs -> bool, obs: seq<Obs>)
    ensures KeepIn(keep, KeepIn(keep, obs)) == KeepIn(keep, obs)
    decreases |obs|
  {
    if obs != [] {
      var p, m := obs[..|obs| - 1], obs[|obs| - 1];
      KeepInIdempotent(keep, p);
      var r := KeepIn(keep, p);
      if keep(m) {
        assert KeepIn(keep, obs) == r + [m];
        assert (r + [m])[..|r|] == r;
        assert KeepIn(keep, r + [m]) == KeepIn(keep, r) + [m];
      } else {
        assert KeepIn(keep, obs) == r;
      }
    }
  }

  /**
   * Without a finite positive cutoff the input is returned as it is; with
   * one, an observation is kept exactly when it has no finite local
   * position or its bearing is within the cutoff, and filtering twice
   * filters once.
   */
  lemma FilterSound(cutoff: Num, g: Geometry, obs: seq<Obs>)
    ensures !BearingGate(cutoff) ==> Filtered(cutoff, g, obs) == obs
    ensures BearingGate(cutoff) ==> forall m :: m in Filtered(cutoff, g, obs) <==> m in obs && Kept(cutoff.v, g, m)
    ensures |Filtered(cutoff, g, obs)| <= |obs|
    ensures Filtered(cutoff, g, Filtered(cutoff, g, obs)) == Filtered(cutoff, g, obs)
  {
    if BearingGate(cutoff) {
      KeepInMembers(KeptBy(cutoff.v, g), obs);
      KeepInIdempotent(KeptBy(cutoff.v, g), obs);
    }
  }

  method FilterObservations(cutoff: Num, g: Geometry, observations: seq<Obs>) returns (out: seq<Obs>)
    ensures out == Filtered(cutoff, g, observations)
  {
    if !BearingGate(cutoff) {
      return observations;
    }
    var cutoffAbs := AbsR(cutoff.v);
    ghost var keep := KeptBy(cutoffAbs, g);
    out := [];
    var i := 0;
    while i < |observations|
      invariant 0 <= i <= |observations|
      invariant out == KeepIn(keep, observations[..i])
    {
      var m := observations[i];
      assert observations[..i + 1][..i] == observations[..i];
      assert keep(m) == Kept(cutoffAbs, g, m);
      match LocalMm(m) {
        case None =>
          out := out + [m];
        case Some(p) =>
          if AbsR(g.bearingDeg(p.0, p.1)) <= cutoffAbs {
            out := out + [m];
          }
      }
      i := i + 1;
    }
    assert observations[..i] == observations;
  }

  // ------------------------------------------------------------------
  // Keeping one observation per slot

  /** publishAs:slotId with a publish name and a finite slot, else radarId:slotId, or radarId:na. */
  function DedupKey(m: Obs): string
  {
    var publishAs := TrimmedOrBlank(Get(m.prov, "publishAs"));
    var slot := ToNumber(Get(m.prov, "slotId"));
    if publishAs != [] && slot.Fin? then publishAs + ":" + NumToString(slot)
    else NumToString(Fin(m.radarId)) + ":" + (if slot.Fin? then NumToString(slot) else "na")
  }

  // The Map is modelled for any key function; the stage's is DedupKey.

  predicate HasKey(key: Obs -> string, s: seq<Obs>, k: string)
  {
    exists i :: 0 <= i < |s| && key(s[i]) == k
  }

  predicate KeysDistinct(key: Obs -> string, s: seq<Obs>)
  {
    forall i, j :: 0 <= i < j < |s| ==> key(s[i]) != key(s[j])
  }

  /** The position of k's entry among the Map's values. */
  function IndexOfKey(key: Obs -> string, out: seq<Obs>, k: string): (r: Option<nat>)
    ensures r.Some? ==> r.value < |out| && key(out[r.value]) == k
    ensures r.None? ==> !HasKey(key, out, k)
    decreases |out|
  {
    if out == [] then None
    else match IndexOfKey(key, out[..|out| - 1], k)
      case Some(i) => Some(i)
      case None => if key(out[|out| - 1]) == k then Some(|out| - 1) else None
  }

  /** latestByKey after one more observation: a new key goes last, a newer or equal timestamp replaces. */
  function DedupStep(key: Obs -> string, out: seq<Obs>, m: Obs): seq<Obs>
  {
    match IndexOfKey(key, out, key(m))
    case None => out + [m]
    case Some(p) => if m.measTs >= out[p].measTs then out[p := m] else out
  }

  /** The Map's values in order of first insertion. */
  function DedupBy(key: Obs -> string, obs: seq<Obs>): seq<Obs>
    decreases |obs|
  {
    if obs == [] then [] else DedupStep(key, DedupBy(key, obs[..|obs| - 1]), obs[|obs| - 1])
  }

  /** #dedupObservations */
  function Dedup(obs: seq<Obs>): seq<Obs>
  {
    DedupBy(DedupKey, obs)
  }

  /** obs[j] has the latest timestamp of its key, and every later one of its key is strictly older. */
  predicate Newest(key: Obs -> string, obs: seq<Obs>, j: nat)
    requires j < |obs|
  {
    (forall k :: 0 <= k < |obs| && key(obs[k]) == key(obs[j]) ==> obs[k].measTs <= obs[j].measTs) &&
    (forall k :: j < k < |obs| && key(obs[k]) == key(obs[j]) ==> obs[k].measTs < obs[j].measTs)
  }

  /** Each entry of out is some observation of obs that is the newest of its key. */
  predicate FromNewest(key: Obs -> string, out: seq<Obs>, obs: seq<Obs>)
  {
    forall i :: 0 <= i < |out| ==> NewestIn(key, out[i], obs)
  }

  /** x is some observation of obs that is the newest of its key. */
  predicate NewestIn(key: Obs -> string, x: Obs, obs: seq<Obs>)
  {
    exists j :: 0 <= j < |obs| && obs[j] == x && Newest(key, obs, j)
  }

  /** What the dedup keeps of obs in out: distinct keys, exactly obs's keys, each the newest of its key. */
  ghost predicate DedupOf(key: Obs -> string, out: seq<Obs>, obs: seq<Obs>)
  {
    KeysDistinct(key, out) && (forall k :: HasKey(key, out, k) <==> HasKey(key, obs, k)) && FromNewest(key, out, obs)
  }

  lemma IndexOfKeyUnique(key: Obs -> string, out: seq<Obs>, p: nat)
    requires KeysDistinct(key, out) && p < |out|
    ensures IndexOfKey(key, out, key(out[p])) == Some(p)
  {
  }

  /**
   * At most one observation per key; exactly the input's keys; and each
   * kept observation is the newest of its key, the later one winning a tie.
   */
  lemma {:induction false} DedupSound(key: Obs -> string, obs: seq<Obs>)
    ensures DedupOf(key, DedupBy(key, obs), obs)
    decreases |obs|
  {
    if obs != [] {
      var p, m := obs[..|obs| - 1], obs[|obs| - 1];
      DedupSound(key, p);
      DedupStepSound(key, p, DedupBy(key, p), m);
      SplitLast(obs);
    }
  }

  lemma SplitLast<T>(s: seq<T>)
    requires s != []
    ensures s == s[..|s| - 1] + [s[|s| - 1]]
  {
  }

  lemma TakeNext<T>(s: seq<T>, i: nat)
    requires i < |s|
    ensures s[..i + 1] == s[..i] + [s[i]]
  {
  }

  /** One step of the dedup keeps DedupOf. */
  lemma DedupStepSound(key: Obs -> string, p: seq<Obs>, out: seq<Obs>, m: Obs)
    requires DedupOf(key, out, p)
    ensures DedupOf(key, DedupStep(key, out, m), p + [m])
  {
    match IndexOfKey(key, out, key(m)) {
      case None =>
        DedupNew(key, p, out, m);
      case Some(q) =>
        if m.measTs >= out[q].measTs {
          DedupReplace(key, p, out, m, q);
        } else {
          DedupKeep(key, p, out, m, q);
        }
    }
  }

  lemma NewestSource(key: Obs -> string, out: seq<Obs>, p: seq<Obs>, i: nat)
    requires FromNewest(key, out, p) && i < |out|
    ensures exists j :: 0 <= j < |p| && p[j] == out[i] && Newest(key, p, j)
  {
    assert NewestIn(key, out[i], p);
  }

  lemma DedupNew(key: Obs -> string, p: seq<Obs>, out: seq<Obs>, m: Obs)
    requires DedupOf(key, out, p) && !HasKey(key, out, key(m))
    ensures DedupOf(key, out + [m], p + [m])
  {
    DedupNewKeys(key, p, out, m);
    DedupNewNewest(key, p, out, m);
  }

  lemma DedupNewKeys(key: Obs -> string, p: seq<Obs>, out: seq<Obs>, m: Obs)
    requires DedupOf(key, out, p) && !HasKey(key, out, key(m))
    ensures KeysDistinct(key, out + [m])
    ensures forall k :: HasKey(key, out + [m], k) <==> HasKey(key, p + [m], k)
  {
    var obs, out' := p + [m], out + [m];
    forall k | HasKey(key, obs, k)
      ensures HasKey(key, out', k)
    {
      var i :| 0 <= i < |obs| && key(obs[i]) == k;
      if i < |p| {
        assert HasKey(key, p, k);
        var j :| 0 <= j < |out| && key(out[j]) == k;
        assert out'[j] == out[j];
      } else {
        assert out'[|out|] == m;
      }
    }
    forall k | HasKey(key, out', k)
      ensures HasKey(key, obs, k)
    {
      var i :| 0 <= i < |out'| && key(out'[i]) == k;
      if i < |out| {
        assert HasKey(key, out, k);
        var j :| 0 <= j < |p| && key(p[j]) == k;
        assert obs[j] == p[j];
      } else {
        assert obs[|p|] == m;
      }
    }
  }

  lemma DedupNewNewest(key: Obs -> string, p: seq<Obs>, out: seq<Obs>, m: Obs)
    requires DedupOf(key, out, p) && !HasKey(key, out, key(m))
    ensures FromNewest(key, out + [m], p + [m])
  {
    var obs, out' := p + [m], out + [m];
    forall i | 0 <= i < |out'|
      ensures NewestIn(key, out'[i], obs)
    {
      if i < |out| {
        NewestSource(key, out, p, i);
        var j :| 0 <= j < |p| && p[j] == out[i] && Newest(key, p, j);
        assert HasKey(key, out, key(p[j]));
        assert obs[j] == out'[i] && Newest(key, obs, j);
      } else {
        assert !HasKey(key, p, key(m));
        assert obs[|p|] == out'[i] && Newest(key, obs, |p|);
      }
    }
  }

  lemma DedupReplace(key: Obs -> string, p: seq<Obs>, out: seq<Obs>, m: Obs, q: nat)
    requires DedupOf(key, out, p)
    requires q < |out| && key(out[q]) == key(m) && m.measTs >= out[q].measTs
    ensures DedupOf(key, out[q := m], p + [m])
  {
    DedupReplaceKeys(key, p, out, m, q);
    DedupReplaceNewest(key, p, out, m, q);
  }

  lemma DedupReplaceKeys(key: Obs -> string, p: seq<Obs>, out: seq<Obs>, m: Obs, q: nat)
    requires DedupOf(key, out, p)
    requires q < |out| && key(out[q]) == key(m)
    ensures KeysDistinct(key, out[q := m])
    ensures forall k :: HasKey(key, out[q := m], k) <==> HasKey(key, p + [m], k)
  {
    var obs, out' := p + [m], out[q := m];
    forall k
      ensures HasKey(key, out', k) <==> HasKey(key, obs, k)
    {
      if HasKey(key, obs, k) {
        var i :| 0 <= i < |obs| && key(obs[i]) == k;
        if i < |p| {
          assert HasKey(key, p, k);
          var j :| 0 <= j < |out| && key(out[j]) == k;
          assert key(out'[j]) == k;
        } else {
          assert key(out'[q]) == k;
        }
      }
      if HasKey(key, out', k) {
        var i :| 0 <= i < |out'| && key(out'[i]) == k;
        assert key(out[i]) == k;
        assert HasKey(key, out, k);
        var j :| 0 <= j < |p| && key(p[j]) == k;
        assert obs[j] == p[j];
      }
    }
  }

  lemma DedupReplaceNewest(key: Obs -> string, p: seq<Obs>, out: seq<Obs>, m: Obs, q: nat)
    requires DedupOf(key, out, p)
    requires q < |out| && key(out[q]) == key(m) && m.measTs >= out[q].measTs
    ensures FromNewest(key, out[q := m], p + [m])
  {
    var obs, out' := p + [m], out[q := m];
    forall i | 0 <= i < |out'|
      ensures NewestIn(key, out'[i], obs)
    {
      if i == q {
        NewestSource(key, out, p, q);
        var j0 :| 0 <= j0 < |p| && p[j0] == out[q] && Newest(key, p, j0);
        assert obs[|p|] == out'[i] && Newest(key, obs, |p|);
      } else {
        NewestSource(key, out, p, i);
        var j :| 0 <= j < |p| && p[j] == out[i] && Newest(key, p, j);
        assert key(out[i]) != key(m);
        assert obs[j] == out'[i] && Newest(key, obs, j);
      }
    }
  }

  lemma DedupKeep(key: Obs -> string, p: seq<Obs>, out: seq<Obs>, m: Obs, q: nat)
    requires DedupOf(key, out, p)
    requires q < |out| && key(out[q]) == key(m) && m.measTs < out[q].measTs
    ensures DedupOf(key, out, p + [m])
  {
    var obs := p + [m];
    forall k
      ensures HasKey(key, out, k) <==> HasKey(key, obs, k)
    {
      if HasKey(key, obs, k) {
        var i :| 0 <= i < |obs| && key(obs[i]) == k;
        if i < |p| {
          assert HasKey(key, p, k);
        } else {
          assert key(out[q]) == k;
        }
      }
      if HasKey(key, out, k) {
        var j :| 0 <= j < |p| && key(p[j]) == k;
        assert obs[j] == p[j];
      }
    }
    forall i | 0 <= i < |out|
      ensures NewestIn(key, out[i], obs)
    {
      NewestSource(key, out, p, i);
      var j :| 0 <= j < |p| && p[j] == out[i] && Newest(key, p, j);
      assert obs[j] == out[i] && Newest(key, obs, j);
    }
  }

  /** Two observations of one key: the later wins unless it is strictly older. */
  lemma LaterWins(key: Obs -> string, a: Obs, b: Obs)
    requires key(a) == key(b)
    ensures DedupBy(key, [a, b]) == [if b.measTs >= a.measTs then b else a]
  {
    assert [a, b][..1] == [a];
    assert [a][..0] == [];
    assert DedupBy(key, [a]) == [a];
    assert IndexOfKey(key, [a], key(b)) == Some(0);
  }

  /** The dedup loop, for the Map keyed by key; the stage passes DedupKey. */
  method DedupObservations(key: Obs -> string, observations: seq<Obs>) returns (out: seq<Obs>)
    ensures out == DedupBy(key, observations)
  {
    var pos: map<string, nat> := map[];
    out := [];
    var i := 0;
    while i < |observations|
      invariant 0 <= i <= |observations|
      invariant out == DedupBy(key, observations[..i]) && KeysDistinct(key, out)
      invariant Positions(key, out, pos)
    {
      var m := observations[i];
      out, pos := DedupOne(key, out, pos, m, observations[..i]);
      assert observations[..i + 1] == observations[..i] + [m];
      i := i + 1;
    }
    assert observations[..i] == observations;
  }

  /** pos maps every key of out to its entry's position. */
  ghost predicate Positions(key: Obs -> string, out: seq<Obs>, pos: map<string, nat>)
  {
    (forall k :: k in pos <==> HasKey(key, out, k)) &&
    (forall k :: k in pos ==> pos[k] < |out| && key(out[pos[k]]) == k)
  }

  /** One observation of the dedup loop. */
  method DedupOne(key: Obs -> string, out: seq<Obs>, pos: map<string, nat>, m: Obs, ghost seen: seq<Obs>)
    returns (out': seq<Obs>, pos': map<string, nat>)
    requires out == DedupBy(key, seen) && KeysDistinct(key, out) && Positions(key, out, pos)
    ensures out' == DedupBy(key, seen + [m]) && KeysDistinct(key, out') && Positions(key, out', pos')
  {
    assert (seen + [m])[..|seen|] == seen;
    DedupSound(key, seen + [m]);
    var k := key(m);
    if k !in pos {
      out', pos' := out + [m], pos[k := |out|];
      PositionsAppend(key, out, pos, m);
    } else {
      IndexOfKeyUnique(key, out, pos[k]);
      out', pos' := out, pos;
      if m.measTs >= out[pos[k]].measTs {
        out' := out[pos[k] := m];
        PositionsReplace(key, out, pos, pos[k], m);
      }
    }
  }

  lemma PositionsAppend(key: Obs -> string, out: seq<Obs>, pos: map<string, nat>, m: Obs)
    requires Positions(key, out, pos) && key(m) !in pos
    ensures Positions(key, out + [m], pos[key(m) := |out|])
  {
    var out', pos' := out + [m], pos[key(m) := |out|];
    forall k
      ensures k in pos' <==> HasKey(key, out', k)
    {
      if k in pos {
        assert key(out'[pos[k]]) == k;
      } else if k == key(m) {
        assert key(out'[|out|]) == k;
      }
      if HasKey(key, out', k) {
        var i :| 0 <= i < |out'| && key(out'[i]) == k;
        if i < |out| {
          assert HasKey(key, out, k);
        }
      }
    }
  }

  lemma PositionsReplace(key: Obs -> string, out: seq<Obs>, pos: map<string, nat>, q: nat, m: Obs)
    requires Positions(key, out, pos) && q < |out| && key(out[q]) == key(m)
    ensures Positions(key, out[q := m], pos)
  {
    var out' := out[q := m];
    forall k
      ensures k in pos <==> HasKey(key, out', k)
    {
      if k in pos {
        assert key(out'[pos[k]]) == k;
      }
      if HasKey(key, out', k) {
        var i :| 0 <= i < |out'| && key(out'[i]) == k;
        assert key(out[i]) == k;
        assert HasKey(key, out, k);
      }
    }
  }

  // ------------------------------------------------------------------
  // Measurement variances

  /** A slot's or radar's last recorded time and world position. */
  datatype Hist = Hist(ts: real, xMm: real, yMm: real)

  /** slot:publishAs:slotId with a publish name and a finite slot, else radar:radarId; never empty. */
  function SlotOrRadarKey(m: Obs): (k: string)
    ensures |k| > 0
  {
    var publishAs := TrimmedOrBlank(Get(m.prov, "publishAs"));
    var slot := ToNumber(Get(m.prov, "slotId"));
    if publishAs != [] && slot.Fin? then "slot:" + publishAs + ":" + NumToString(slot)
    else "radar:" + NumToString(Fin(m.radarId))
  }

  /** The observation's time: its measTs when positive, else now. */
  function TsOf(m: Obs, now: real): (t: real)
    ensures m.measTs > 0.0 ==> t == m.measTs
    ensures m.measTs <= 0.0 ==> t == now
  {
    if m.measTs > 0.0 then m.measTs else now
  }

  /** Whether observation m, at time t, is recorded under key k: k is its key, k is not empty and t is positive. */
  predicate Records(key: Obs -> string, m: Obs, now: real, k: string)
  {
    key(m) == k && k != [] && TsOf(m, now) > 0.0
  }

  /** The history entry a scale is computed against: none for an empty key or a time that is not positive. */
  function Prev(h: map<string, Hist>, k: string, t: real): (r: Option<Hist>)
    ensures r.Some? <==> k != [] && t > 0.0 && k in h
    ensures r.Some? ==> r.value == h[k]
  {
    if k != [] && t > 0.0 && k in h then Some(h[k]) else None
  }

  /** The history after a scale computation: the entry for k becomes (t, x, y) unless k is empty or t not positive. */
  function Record(h: map<string, Hist>, k: string, t: real, x: real, y: real): (r: map<string, Hist>)
    ensures k != [] && t > 0.0 ==> r == h[k := Hist(t, x, y)]
    ensures k == [] || t <= 0.0 ==> r == h
  {
    if k != [] && t > 0.0 then h[k := Hist(t, x, y)] else h
  }

  /**
   * The time and distance since the previous entry, when there is one, the
   * time is positive and it is inside a finite positive window.
   */
  function Motion(g: Geometry, prev: Option<Hist>, t: real, x: real, y: real, winMs: Num): (r: Option<(real, real)>)
    ensures r.Some? ==> prev.Some? && r.value.0 == t - prev.value.ts && r.value.0 > 0.0
    ensures r.Some? && winMs.Fin? && winMs.v > 0.0 ==> r.value.0 <= winMs.v
  {
    match prev
    case None => None
    case Some(h) =>
      var dt := t - h.ts;
      if dt <= 0.0 then None
      else if winMs.Fin? && winMs.v > 0.0 && dt > winMs.v then None
      else Some((dt, g.hypot(x - h.xMm, y - h.yMm)))
  }

  /** #computeJitterScaleForKey's value: mapScale of the displacement since the previous entry. */
  function JitterScale(s: StageSettings, g: Geometry, prev: Option<Hist>, t: real, x: real, y: real): (r: real)
    ensures 1.0 <= r <= Cap(s.jitMax)
    ensures prev.None? ==> r == 1.0
  {
    match Motion(g, prev, t, x, y, s.jitWinMs)
    case None => 1.0
    case Some(d) =>
      MapScaleBounds(d.1, s.jitFull, s.jitCut, s.jitMax);
      MapScale(d.1, s.jitFull, s.jitCut, s.jitMax)
  }

  const SuspiciousMmS: real := 3500.0
  const ImpossibleMmS: real := 8000.0
  const JumpScaleMax: real := 10.0

  /** 1 up to susp, sMax from imp on, linear in between; 1 when sMax is at most 1 or imp is not above susp. */
  function SpeedScale(speed: real, susp: real, imp: real, sMax: real): real
  {
    if sMax <= 1.0 then 1.0
    else if imp <= susp then 1.0
    else if speed <= susp then 1.0
    else if speed >= imp then sMax
    else Lerp(1.0, sMax, (speed - susp) / (imp - susp))
  }

  /** A speed scale is at least 1, at most max(1, sMax), and never smaller for a larger speed. */
  lemma SpeedScaleBounds(speed: real, speed': real, susp: real, imp: real, sMax: real)
    ensures 1.0 <= SpeedScale(speed, susp, imp, sMax) <= (if sMax > 1.0 then sMax else 1.0)
    ensures speed <= speed' ==> SpeedScale(speed, susp, imp, sMax) <= SpeedScale(speed', susp, imp, sMax)
  {
    if sMax > 1.0 && imp > susp {
      var d := imp - susp;
      LerpBetween(1.0, sMax, (speed - susp) / d, (speed' - susp) / d);
      LerpBetween(1.0, sMax, (speed' - susp) / d, (speed' - susp) / d);
      if speed <= speed' {
        DivMono(speed - susp, speed' - susp, d);
      }
    }
  }

  /** #computeJumpScaleForKey's value: the speed scale of the displacement per second since the previous entry. */
  function JumpScale(s: StageSettings, g: Geometry, prev: Option<Hist>, t: real, x: real, y: real): (r: real)
    ensures 1.0 <= r <= JumpScaleMax
    ensures prev.None? ==> r == 1.0
  {
    match Motion(g, prev, t, x, y, s.jitWinMs)
    case None => 1.0
    case Some(d) =>
      var speed := d.1 / (d.0 / 1000.0);
      SpeedScaleBounds(speed, speed, SuspiciousMmS, ImpossibleMmS, JumpScaleMax);
      SpeedScale(speed, SuspiciousMmS, ImpossibleMmS, JumpScaleMax)
  }

  /** Whether stale measurements are scaled: staleNoiseScaleMax above 1 and a positive staleMeasMaxMs. */
  predicate UseStaleScale(s: StageSettings)
  {
    s.staleMax.Fin? && s.staleMax.v > 1.0 && s.staleMaxMs > 0.0
  }

  /** From 1 for a fresh measurement to staleNoiseScaleMax for one staleMeasMaxMs old or older. */
  function StaleScale(s: StageSettings, now: real, t: real): real
  {
    if UseStaleScale(s) then
      var age := if now - t > 0.0 then now - t else 0.0;
      Lerp(1.0, s.staleMax.v, Clamp01(age / s.staleMaxMs))
    else 1.0
  }

  /** The stale scale is between 1 and max(1, staleMax) and grows as the measurement ages. */
  lemma StaleScaleBounds(s: StageSettings, now: real, now': real, t: real)
    ensures 1.0 <= StaleScale(s, now, t) <= Cap(s.staleMax)
    ensures now <= now' ==> StaleScale(s, now, t) <= StaleScale(s, now', t)
  {
    if UseStaleScale(s) {
      var age := if now - t > 0.0 then now - t else 0.0;
      var age' := if now' - t > 0.0 then now' - t else 0.0;
      LerpBetween(1.0, s.staleMax.v, Clamp01(age / s.staleMaxMs), Clamp01(age' / s.staleMaxMs));
      if now <= now' {
        DivMono(age, age', s.staleMaxMs);
      }
    }
  }

  /** The largest value a scale with maximum scaleMax takes: scaleMax when finite and above 1, else 1. */
  function Cap(scaleMax: Num): (r: real)
    ensures r >= 1.0
  {
    if scaleMax.Fin? && scaleMax.v > 1.0 then scaleMax.v else 1.0
  }

  /** The edge scale of an observation with a finite local position, from the absolute bearing. */
  function EdgeScale(s: StageSettings, g: Geometry, local: Option<(real, real)>): (r: real)
    ensures 1.0 <= r <= Cap(s.edgeMax)
    ensures local.None? ==> r == 1.0
  {
    match local
    case None => 1.0
    case Some(p) =>
      MapScaleBounds(AbsR(g.bearingDeg(p.0, p.1)), s.fullBear, s.cutBear, s.edgeMax);
      MapScale(AbsR(g.bearingDeg(p.0, p.1)), s.fullBear, s.cutBear, s.edgeMax)
  }

  /** The range scale of an observation with a finite local position, from its distance to the radar. */
  function RangeScale(s: StageSettings, g: Geometry, local: Option<(real, real)>): (r: real)
    ensures 1.0 <= r <= Cap(s.rangeMax)
    ensures local.None? ==> r == 1.0
  {
    match local
    case None => 1.0
    case Some(p) =>
      MapScaleBounds(g.hypot(p.0, p.1), s.fullRange, s.cutRange, s.rangeMax);
      MapScale(g.hypot(p.0, p.1), s.fullRange, s.cutRange, s.rangeMax)
  }

  /** max(1, baseMm * baseMm) */
  function BaseVar(s: StageSettings): (r: Num)
    ensures s.baseMm.Fin? ==> r.Fin? && r.v >= 1.0 && r.v >= s.baseMm.v * s.baseMm.v
  {
    match s.baseMm
    case Fin(b) =>
      var sq := b * b;
      Fin(if sq > 1.0 then sq else 1.0)
    case Infinity(_) => Infinity(false)
    case NaN => NaN
  }

  /** A number times a positive real scale. */
  function Scaled(n: Num, x: real): Num
    requires x > 0.0
  {
    match n
    case Fin(v) => Fin(Mul(v, x))
    case _ => n
  }

  /** The five scales of one observation. */
  datatype Scales = Scales(edge: real, range: real, jitter: real, stale: real, jump: real)

  /** Each scale between 1 and its counterpart in caps. */
  predicate Dominated(sc: Scales, caps: Scales)
  {
    1.0 <= sc.edge <= caps.edge && 1.0 <= sc.range <= caps.range && 1.0 <= sc.jitter <= caps.jitter &&
    1.0 <= sc.stale <= caps.stale && 1.0 <= sc.jump <= caps.jump
  }

  /** The largest value of each scale under the settings. */
  function CapsOf(s: StageSettings): Scales
  {
    Scales(Cap(s.edgeMax), Cap(s.rangeMax), Cap(s.jitMax), Cap(s.staleMax), JumpScaleMax)
  }

  /** Each scale between 1 and its maximum. */
  predicate Bounded(s: StageSettings, sc: Scales)
  {
    Dominated(sc, CapsOf(s))
  }

  /** An observation's scales, given its local position and the history entry before it. */
  function ScalesOf(s: StageSettings, g: Geometry, local: Option<(real, real)>, prev: Option<Hist>, m: Obs, now: real): (sc: Scales)
    ensures Bounded(s, sc)
    ensures prev.None? ==> sc.jitter == 1.0 && sc.jump == 1.0
  {
    var t := TsOf(m, now);
    StaleScaleBounds(s, now, now, t);
    Scales(EdgeScale(s, g, local), RangeScale(s, g, local), JitterScale(s, g, prev, t, m.xMm, m.yMm),
           StaleScale(s, now, t), JumpScale(s, g, prev, t, m.xMm, m.yMm))
  }

  function Product(sc: Scales): real
  {
    Mul(Mul(Mul(Mul(sc.edge, sc.range), sc.jitter), sc.stale), sc.jump)
  }

  /** The largest product of scales the settings allow. */
  function MaxScale(s: StageSettings): real
  {
    Product(CapsOf(s))
  }

  /** 1 <= x <= X and 1 <= y <= Y bound their product by 1 and X * Y. */
  lemma ProductBounds(x: real, X: real, y: real, Y: real)
    requires 1.0 <= x <= X && 1.0 <= y <= Y
    ensures 1.0 <= Mul(x, y) <= Mul(X, Y)
  {
    MulMonoLeft(y, 1.0, x);
    MulMonoLeft(y, x, X);
    MulMono(X, y, Y);
  }

  /** Five factors between 1 and their maxima multiply to between 1 and the product of the maxima. */
  lemma Product5Bounds(a: real, b: real, c: real, d: real, e: real, A: real, B: real, C: real, D: real, E: real)
    requires 1.0 <= a <= A && 1.0 <= b <= B && 1.0 <= c <= C && 1.0 <= d <= D && 1.0 <= e <= E
    ensures 1.0 <= Mul(Mul(Mul(Mul(a, b), c), d), e) <= Mul(Mul(Mul(Mul(A, B), C), D), E)
  {
    ProductBounds(a, A, b, B);
    ProductBounds(Mul(a, b), Mul(A, B), c, C);
    ProductBounds(Mul(Mul(a, b), c), Mul(Mul(A, B), C), d, D);
    ProductBounds(Mul(Mul(Mul(a, b), c), d), Mul(Mul(Mul(A, B), C), D), e, E);
  }

  /** Scales between 1 and their caps multiply to at least 1 and at most the caps' product. */
  lemma ProductWithin(sc: Scales, caps: Scales)
    requires Dominated(sc, caps)
    ensures 1.0 <= Product(sc) <= Product(caps)
  {
    Product5Bounds(sc.edge, sc.range, sc.jitter, sc.stale, sc.jump, caps.edge, caps.range, caps.jitter, caps.stale, caps.jump);
  }

  /** baseVar * bearingScale * rangeScale * jitterScale * staleScale * jumpScale */
  function VarOf(s: StageSettings, sc: Scales): Num
    requires Bounded(s, sc)
  {
    ProductWithin(sc, CapsOf(s));
    Scaled(BaseVar(s), Product(sc))
  }

  /**
   * The jitter and jump Maps after the observations, in order: each one at
   * a positive time overwrites its key's entry with its time and position;
   * the Maps are keyed by key, the stage's being SlotOrRadarKey.
   */
  function HistoryAfter(key: Obs -> string, h: map<string, Hist>, obs: seq<Obs>, now: real): map<string, Hist>
    decreases |obs|
  {
    if obs == [] then h
    else
      var m := obs[|obs| - 1];
      Record(HistoryAfter(key, h, obs[..|obs| - 1], now), key(m), TsOf(m, now), m.xMm, m.yMm)
  }

  /** One observation's variance, against the entry for its key in history h. */
  function ObsVar(s: StageSettings, g: Geometry, key: Obs -> string, local: Obs -> Option<(real, real)>,
                  h: map<string, Hist>, m: Obs, now: real): Num
  {
    VarOf(s, ScalesOf(s, g, local(m), Prev(h, key(m), TsOf(m, now)), m, now))
  }

  /**
   * #computeMeasVarByIdx: one variance per observation, in order, each
   * observation's scales computed against the history the earlier ones
   * left; positions come from local, the stage's being LocalMm.
   */
  function VarsOf(s: StageSettings, g: Geometry, key: Obs -> string, local: Obs -> Option<(real, real)>,
                  h: map<string, Hist>, obs: seq<Obs>, now: real): (r: seq<Num>)
    ensures |r| == |obs|
    decreases |obs|
  {
    if obs == [] then []
    else
      var p := obs[..|obs| - 1];
      VarsOf(s, g, key, local, h, p, now) + [ObsVar(s, g, key, local, HistoryAfter(key, h, p, now), obs[|obs| - 1], now)]
  }

  /** The variances and history of obs + [m] are those of obs, then m's against the history obs leaves. */
  lemma VarsStep(s: StageSettings, g: Geometry, key: Obs -> string, local: Obs -> Option<(real, real)>,
                 h: map<string, Hist>, obs: seq<Obs>, m: Obs, now: real)
    ensures var hp := HistoryAfter(key, h, obs, now);
      VarsOf(s, g, key, local, h, obs + [m], now) == VarsOf(s, g, key, local, h, obs, now) + [ObsVar(s, g, key, local, hp, m, now)] &&
      HistoryAfter(key, h, obs + [m], now) == Record(hp, key(m), TsOf(m, now), m.xMm, m.yMm)
  {
    assert (obs + [m])[..|obs|] == obs;
  }

  /** A variance that is the base variance scaled by 1 to hi: between base and base * hi when base is finite, base itself otherwise. */
  predicate Within(base: Num, v: Num, hi: real)
  {
    if base.Fin? then v.Fin? && base.v <= v.v <= Mul(base.v, hi) else v == base
  }

  /** A base of at least 1 scaled by 1 to hi lies between base and base * hi. */
  lemma ScaledWithin(base: Num, x: real, hi: real)
    requires base.Fin? ==> base.v >= 1.0
    requires 1.0 <= x <= hi
    ensures Within(base, Scaled(base, x), hi)
  {
    if base.Fin? {
      MulMono(base.v, 1.0, x);
      MulMono(base.v, x, hi);
    }
  }

  lemma VarWithin(s: StageSettings, sc: Scales)
    requires Bounded(s, sc)
    ensures Within(BaseVar(s), VarOf(s, sc), MaxScale(s))
  {
    ProductWithin(sc, CapsOf(s));
    ScaledWithin(BaseVar(s), Product(sc), MaxScale(s));
  }

  /**
   * Every variance is at least the base variance max(1, baseMm^2) and at
   * most the base times the product of the scale maxima; a base that is
   * not finite is passed through.
   */
  lemma {:induction false} VarsWithin(s: StageSettings, g: Geometry, key: Obs -> string, local: Obs -> Option<(real, real)>,
                                      h: map<string, Hist>, obs: seq<Obs>, now: real)
    ensures forall i :: 0 <= i < |obs| ==> Within(BaseVar(s), VarsOf(s, g, key, local, h, obs, now)[i], MaxScale(s))
    decreases |obs|
  {
    if obs != [] {
      var p := obs[..|obs| - 1];
      VarsWithin(s, g, key, local, h, p, now);
      var m := obs[|obs| - 1];
      var sc := ScalesOf(s, g, local(m), Prev(HistoryAfter(key, h, p, now), key(m), TsOf(m, now)), m, now);
      VarWithin(s, sc);
      assert VarsOf(s, g, key, local, h, obs, now) == VarsOf(s, g, key, local, h, p, now) + [VarOf(s, sc)];
    }
  }

  /** Keys no observation records under keep their history entry, or their absence. */
  lemma {:induction false} HistoryUntouched(key: Obs -> string, h: map<string, Hist>, obs: seq<Obs>, now: real, k: string)
    requires forall j :: 0 <= j < |obs| ==> !Records(key, obs[j], now, k)
    ensures var h' := HistoryAfter(key, h, obs, now); (k in h' <==> k in h) && (k in h ==> h'[k] == h[k])
    decreases |obs|
  {
    if obs != [] {
      HistoryUntouched(key, h, obs[..|obs| - 1], now, k);
      assert !Records(key, obs[|obs| - 1], now, k);
    }
  }

  /** A key's history entry is the time and position of the last observation recorded under it. */
  lemma {:induction false} HistoryHoldsLast(key: Obs -> string, h: map<string, Hist>, obs: seq<Obs>, now: real, j: nat)
    requires j < |obs| && Records(key, obs[j], now, key(obs[j]))
    requires forall i :: j < i < |obs| ==> !Records(key, obs[i], now, key(obs[j]))
    ensures var h' := HistoryAfter(key, h, obs, now);
      key(obs[j]) in h' && h'[key(obs[j])] == Hist(TsOf(obs[j], now), obs[j].xMm, obs[j].yMm)
    decreases |obs|
  {
    var n := |obs| - 1;
    if j < n {
      HistoryHoldsLast(key, h, obs[..n], now, j);
      assert !Records(key, obs[n], now, key(obs[j]));
    }
  }

  // ------------------------------------------------------------------
  // History clean-up

  /** #cleanupHistory on one Map: with a positive ttl, the entries older than ttl at now are dropped. */
  function Pruned(h: map<string, Hist>, now: real, ttl: real): map<string, Hist>
  {
    if ttl <= 0.0 then h else map k | k in h && now - h[k].ts <= ttl :: h[k]
  }

  /**
   * Without a positive ttl nothing is dropped; with one, exactly the
   * entries at most ttl old survive, unchanged; pruning twice prunes once,
   * and a later clean-up keeps no entry an earlier one dropped.
   */
  lemma PrunedSound(h: map<string, Hist>, now: real, now': real, ttl: real)
    ensures ttl <= 0.0 ==> Pruned(h, now, ttl) == h
    ensures ttl > 0.0 ==> forall k :: k in Pruned(h, now, ttl) <==> k in h && now - h[k].ts <= ttl
    ensures forall k :: k in Pruned(h, now, ttl) ==> Pruned(h, now, ttl)[k] == h[k]
    ensures Pruned(Pruned(h, now, ttl), now, ttl) == Pruned(h, now, ttl)
    ensures now <= now' ==> Pruned(h, now', ttl).Keys <= Pruned(h, now, ttl).Keys
  {
  }

  /** The deletion loop over one Map's entries. */
  method PruneHistory(h: map<string, Hist>, now: real, ttl: real) returns (r: map<string, Hist>)
    ensures r == Pruned(h, now, ttl)
  {
    if ttl <= 0.0 {
      return h;
    }
    r := h;
    var pending := h.Keys;
    while pending != {}
      invariant pending <= h.Keys
      invariant forall k :: k in r <==> k in h && (k in pending || now - h[k].ts <= ttl)
      invariant forall k :: k in r ==> r[k] == h[k]
      decreases pending
    {
      var k :| k in pending;
      if now - h[k].ts > ttl {
        r := r - {k};
      }
      pending := pending - {k};
    }
    assert r.Keys == Pruned(h, now, ttl).Keys;
  }

  // ------------------------------------------------------------------
  // The stage

  /** What process returns. */
  datatype Processed = Processed(filtered: seq<Obs>, deduped: seq<Obs>, measVarMm2ByIdx: seq<Num>)

  /**
   * One tick of the stage on a history h: the deduplicated observations
   * have distinct keys and are the newest of each key among the filtered
   * ones, and there is one variance per deduplicated observation, each
   * between the base variance and the base times the largest scale.
   */
  lemma StageOutput(s: StageSettings, g: Geometry, h: map<string, Hist>, observations: seq<Obs>, now: real)
    ensures var f := Filtered(s.filterCutoffDeg, g, observations);
      var d := Dedup(f);
      var v := VarsOf(s, g, SlotOrRadarKey, LocalMm, h, d, now);
      DedupOf(DedupKey, d, f) && |v| == |d| && forall i :: 0 <= i < |v| ==> Within(BaseVar(s), v[i], MaxScale(s))
  {
    var f := Filtered(s.filterCutoffDeg, g, observations);
    DedupSound(DedupKey, f);
    VarsWithin(s, g, SlotOrRadarKey, LocalMm, h, Dedup(f), now);
  }

  /** The stage object: its settings, the trigonometry, and the jitter and jump Maps keyed by slot or radar. */
  class Stage {
    const settings: StageSettings
    const g: Geometry
    var jitterLast: map<string, Hist>
    var jumpLast: map<string, Hist>

    /** The two Maps are written and cleared together, so they hold the same entries. */
    predicate Valid()
      reads this
    {
      jitterLast == jumpLast
    }

    /** cfg || {} */
    constructor (cfg: Value, g: Geometry)
      ensures settings == SettingsOf(Or(cfg, Obj([]))) && this.g == g
      ensures jitterLast == map[] && jumpLast == map[] && Valid()
    {
      settings := SettingsOf(Or(cfg, Obj([])));
      this.g := g;
      jitterLast, jumpLast := map[], map[];
    }

    method Dispose()
      modifies this
      ensures jitterLast == map[] && jumpLast == map[] && Valid()
    {
      jitterLast, jumpLast := map[], map[];
    }

    /** cleanup(now): drop the entries older than twice the jitter window from both Maps. */
    method Cleanup(now: real)
      requires Valid()
      modifies this
      ensures Valid()
      ensures jitterLast == Pruned(old(jitterLast), now, 2.0 * settings.historyWindowMs)
      ensures jumpLast == Pruned(old(jumpLast), now, 2.0 * settings.historyWindowMs)
    {
      var ttl := settings.historyWindowMs * 2.0;
      jitterLast := PruneHistory(jitterLast, now, ttl);
      jumpLast := PruneHistory(jumpLast, now, ttl);
    }

    /** #computeJitterScaleForKey: read, then overwrite, the jitter Map's entry for k. */
    method JitterScaleFor(k: string, t: real, x: real, y: real) returns (scale: real)
      modifies this
      ensures scale == JitterScale(settings, g, Prev(old(jitterLast), k, t), t, x, y)
      ensures jitterLast == Record(old(jitterLast), k, t, x, y) && jumpLast == old(jumpLast)
    {
      if k == [] || t <= 0.0 {
        return 1.0;
      }
      var prev := if k in jitterLast then Some(jitterLast[k]) else None;
      jitterLast := jitterLast[k := Hist(t, x, y)];
      if prev.None? {
        return 1.0;
      }
      var dt := t - prev.value.ts;
      if dt <= 0.0 {
        return 1.0;
      }
      if settings.jitWinMs.Fin? && settings.jitWinMs.v > 0.0 && dt > settings.jitWinMs.v {
        return 1.0;
      }
      var dist := g.hypot(x - prev.value.xMm, y - prev.value.yMm);
      scale := MapScale(dist, settings.jitFull, settings.jitCut, settings.jitMax);
    }

    /** #computeJumpScaleForKey: read, then overwrite, the jump Map's entry for k. */
    method JumpScaleFor(k: string, t: real, x: real, y: real) returns (scale: real)
      modifies this
      ensures scale == JumpScale(settings, g, Prev(old(jumpLast), k, t), t, x, y)
      ensures jumpLast == Record(old(jumpLast), k, t, x, y) && jitterLast == old(jitterLast)
    {
      if k == [] || t <= 0.0 {
        return 1.0;
      }
      var prev := if k in jumpLast then Some(jumpLast[k]) else None;
      jumpLast := jumpLast[k := Hist(t, x, y)];
      if prev.None? {
        return 1.0;
      }
      var dtMs := t - prev.value.ts;
      if dtMs <= 0.0 {
        return 1.0;
      }
      if settings.jitWinMs.Fin? && settings.jitWinMs.v > 0.0 && dtMs > settings.jitWinMs.v {
        return 1.0;
      }
      var dist := g.hypot(x - prev.value.xMm, y - prev.value.yMm);
      var speed := dist / (dtMs / 1000.0);
      scale := SpeedScale(speed, SuspiciousMmS, ImpossibleMmS, JumpScaleMax);
    }

    /** The body of #computeMeasVarByIdx's loop for one observation. */
    method VarFor(m: Obs, now: real) returns (v: Num)
      requires Valid()
      modifies this
      ensures Valid()
      ensures v == ObsVar(settings, g, SlotOrRadarKey, LocalMm, old(jitterLast), m, now)
      ensures jitterLast == Record(old(jitterLast), SlotOrRadarKey(m), TsOf(m, now), m.xMm, m.yMm)
    {
      var local := LocalMm(m);
      var edge, range := EdgeScale(settings, g, local), RangeScale(settings, g, local);
      var t := TsOf(m, now);
      var k := SlotOrRadarKey(m);
      var jitter := JitterScaleFor(k, t, m.xMm, m.yMm);
      var stale := StaleScale(settings, now, t);
      StaleScaleBounds(settings, now, now, t);
      var jump := JumpScaleFor(k, t, m.xMm, m.yMm);
      v := VarOf(settings, Scales(edge, range, jitter, stale, jump));
    }

    /** #computeMeasVarByIdx: the base variance for every observation, then each one scaled in turn. */
    method ComputeMeasVar(observations: seq<Obs>, now: real) returns (vars: seq<Num>)
      requires Valid()
      modifies this
      ensures Valid()
      ensures vars == VarsOf(settings, g, SlotOrRadarKey, LocalMm, old(jitterLast), observations, now)
      ensures jitterLast == HistoryAfter(SlotOrRadarKey, old(jitterLast), observations, now)
    {
      ghost var h0 := jitterLast;
      vars := seq(|observations|, _ => BaseVar(settings));
      var i := 0;
      while i < |observations|
        invariant 0 <= i <= |observations| && |vars| == |observations| && Valid()
        invariant vars[..i] == VarsOf(settings, g, SlotOrRadarKey, LocalMm, h0, observations[..i], now)
        invariant jitterLast == HistoryAfter(SlotOrRadarKey, h0, observations[..i], now)
      {
        var m := observations[i];
        VarsStep(settings, g, SlotOrRadarKey, LocalMm, h0, observations[..i], m, now);
        var v := VarFor(m, now);
        vars := vars[i := v];
        TakeNext(observations, i);
        TakeNext(vars, i);
        i := i + 1;
      }
      assert vars[..i] == vars;
      assert observations[..i] == observations;
    }

    /** process: filter by bearing, keep one observation per slot, then compute the variances. */
    method Process(observations: seq<Obs>, now: real) returns (r: Processed)
      requires Valid()
      modifies this
      ensures Valid()
      ensures r.filtered == Filtered(settings.filterCutoffDeg, g, observations)
      ensures r.deduped == Dedup(r.filtered)
      ensures r.measVarMm2ByIdx == VarsOf(settings, g, SlotOrRadarKey, LocalMm, old(jitterLast), r.deduped, now)
      ensures jitterLast == HistoryAfter(SlotOrRadarKey, old(jitterLast), r.deduped, now)
    {
      var filtered := FilterObservations(settings.filterCutoffDeg, g, observations);
      var deduped := DedupObservations(DedupKey, filtered);
      var vars := ComputeMeasVar(deduped, now);
      r := Processed(filtered, deduped, vars);
    }
  }
}
