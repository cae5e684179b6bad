/**
 * The presence tracking pipeline. It takes LD2450 frames off the presence
 * bus into the radar snapshot buffer, clamping a measurement time that went
 * backwards, and every tick maintains the tracks: predict, apply the
 * association's hits (confirming tentative tracks), spawn tracks for the
 * measurements nobody took, and drop tracks not seen for too long.
 *
 * The Kalman filter is a parameter (predict and update); the association
 * result is the input of the track phase.
 */
module TrackingPipeline {
  import opened Common
  import opened Js
  import opened Measurement
  import Snap = RadarSnapshotBuffer
  import Observe = TrackingObservationStage

  // ------------------------------------------------------------------
  // Settings

  /** The pipeline's three modes. */
  datatype Mode = Passthrough | AssocOnly | Kf

  function ModeName(m: Mode): string
  {
    match m
    case Passthrough => "passthrough"
    case AssocOnly => "assocOnly"
    case Kf => "kf"
  }

  /** A mode name read back; any other text is kf. */
  function ModeNamed(s: string): Mode
  {
    if s == "passthrough" then Passthrough
    else if s == "assocOnly" then AssocOnly
    else Kf
  }

  /** Reading a mode's name gives the mode back; a text that is not kf's default is a mode's own name. */
  lemma ModeNames(m: Mode, s: string)
    ensures ModeNamed(ModeName(m)) == m
    ensures ModeNamed(s) != Kf ==> ModeName(ModeNamed(s)) == s
  {
  }

  /** #mode: String(tracking.mode || 'kf') as a mode. */
  function ModeOf(x: Value): Mode
  {
    ModeNamed(ToStr(Or(x, Str("kf"))))
  }

  /** A missing or falsy mode is kf; a mode's own name selects it. */
  lemma ModeOfSetting(x: Value, m: Mode)
    ensures !Truthy(x) ==> ModeOf(x) == Kf
    ensures x == Str(ModeName(m)) ==> ModeOf(x) == m
  {
    if x == Str(ModeName(m)) {
      assert Truthy(x);
      assert ToStr(Or(x, Str("kf"))) == ModeName(m);
    }
  }

  /** #toNonNegInt: a finite number floored and raised to 0; anything else 0. */
  function ToNonNegInt(x: Value): (r: nat)
    ensures ToNumber(x).Fin? && ToNumber(x).v >= 0.0 ==> r as real <= ToNumber(x).v < r as real + 1.0
    ensures !(ToNumber(x).Fin? && ToNumber(x).v >= 1.0) ==> r == 0
  {
    match ToNumber(x)
    case Fin(v) => if Floor(v) > 0 then Floor(v) else 0
    case _ => 0
  }

  /** The pipeline's toNonNegInt and the snapshot buffer's non-negative floor agree on every value. */
  lemma ToNonNegIntAgrees(x: Value)
    ensures ToNonNegInt(x) == Snap.NonNegativeFloor(x)
  {
  }

  /** A whole number of milliseconds is taken as given. */
  lemma ToNonNegIntOfNat(n: nat)
    ensures ToNonNegInt(Int(n)) == n
  {
    assert (n as real).Floor == n;
  }

  /** What the pipeline reads from the controller configuration. */
  datatype Settings = Settings(
    enabled: bool, debugEnabled: bool, mode: Mode, updateIntervalMs: nat,
    dtClampMs: nat, dropTimeoutMs: nat,
    confirmEnabled: bool, confirmCount: nat, confirmWindowMs: nat,
    spawnGateMm: Num)

  function SettingsOf(cfg: Value): Settings
  {
    var t := Get(cfg, "tracking");
    var a := Get(t, "association");
    Settings(
      Get(cfg, "enabled") != Bool(false),
      Get(Get(cfg, "debug"), "enabled") == Bool(true),
      ModeOf(Get(t, "mode")),
      Snap.PositiveFloorOr(Get(t, "updateIntervalMs"), 50),
      ToNonNegInt(OrElse(Get(t, "maxDtMs"), Int(400))),
      ToNonNegInt(OrElse(Get(t, "dropTimeoutMs"), Int(1500))),
      Get(a, "newTrackConfirmEnabled") != Bool(false),
      ToNonNegInt(OrElse(Get(a, "newTrackConfirmCount"), Int(3))),
      ToNonNegInt(OrElse(Get(a, "newTrackConfirmWindowMs"), Int(400))),
      ToNumber(Get(a, "newTrackSpawnGateMm")))
  }

  /**
   * The defaults: enabled, no debug, kf mode, a 50 ms tick, a 400 ms
   * prediction clamp, a 1500 ms drop timeout, confirmation on after 3 hits
   * within 400 ms, and no spawn gate.
   */
  lemma SettingsDefaults(cfg: Value)
    ensures var t := Get(cfg, "tracking"); var a := Get(t, "association"); var s := SettingsOf(cfg);
      && (Nullish(Get(cfg, "enabled")) ==> s.enabled)
      && (!Truthy(Get(t, "mode")) ==> s.mode == Kf)
      && (Nullish(Get(t, "updateIntervalMs")) ==> s.updateIntervalMs == 50)
      && (Nullish(Get(t, "maxDtMs")) ==> s.dtClampMs == 400)
      && (Nullish(Get(t, "dropTimeoutMs")) ==> s.dropTimeoutMs == 1500)
      && (Nullish(Get(a, "newTrackConfirmEnabled")) ==> s.confirmEnabled)
      && (Nullish(Get(a, "newTrackConfirmCount")) ==> s.confirmCount == 3)
      && (Nullish(Get(a, "newTrackConfirmWindowMs")) ==> s.confirmWindowMs == 400)
      && (Nullish(Get(a, "newTrackSpawnGateMm")) ==> !GateOn(s.spawnGateMm))
  {
    var t := Get(cfg, "tracking");
    ModeOfSetting(Get(t, "mode"), Kf);
    ToNonNegIntOfNat(400);
    ToNonNegIntOfNat(1500);
    ToNonNegIntOfNat(3);
  }

  // ------------------------------------------------------------------
  // Taking LD2450 frames in

  const TsMissing := "ld2450Tracks event.ts must be present"

  /** event?.payload || {} */
  function Payload(event: Value): Value
  {
    Or(Get(event, "payload"), Obj([]))
  }

  /**
   * The measurement time handed on: a raw time behind the radar's latest
   * (when there is one) becomes latest + 1.
   */
  function ClampedMeasTs(raw: real, prev: real): (r: real)
    ensures r >= raw
    ensures prev > 0.0 ==> r >= prev
    ensures r != raw <==> prev > 0.0 && raw < prev
    ensures r != raw ==> r == prev + 1.0
  {
    if prev > 0.0 && raw < prev then prev + 1.0 else raw
  }

  /** (t?.world || {}) as a finite position. */
  function WorldOf(t: Value): Option<(real, real)>
  {
    var w := Or(Get(t, "world"), Obj([]));
    var x := ToNumber(Get(w, "xMm"));
    var y := ToNumber(Get(w, "yMm"));
    if x.Fin? && y.Fin? then Some((x.v, y.v)) else None
  }

  /** The provenance fields the tracker keeps when debugging is off. */
  const ProvenanceKeys := ["publishAs", "radarId", "slotId", "measTs", "localMm"]

  /** { key: prov[key] ?? null } for each of keys, in order. */
  function KeptProps(prov: Value, keys: seq<string>): (ps: seq<Prop>)
    ensures |ps| == |keys| && forall i :: 0 <= i < |keys| ==> ps[i].key == keys[i]
  {
    seq(|keys|, i requires 0 <= i < |keys| => Prop(keys[i], OrElse(Get(prov, keys[i]), Null)))
  }

  /** #stripProvenanceForTracking */
  function StripProvenance(prov: Value, debugEnabled: bool): Value
  {
    if !(prov.Obj? || prov.Arr?) then Null
    else if debugEnabled then prov
    else Obj(KeptProps(prov, ProvenanceKeys))
  }

  /**
   * Without debugging, a provenance object keeps exactly the five tracking
   * fields, a missing one as null; with debugging it is kept whole; anything
   * that is not an object becomes null.
   */
  lemma StripProvenanceKeeps(prov: Value, debugEnabled: bool, k: string)
    ensures !(prov.Obj? || prov.Arr?) ==> StripProvenance(prov, debugEnabled) == Null
    ensures (prov.Obj? || prov.Arr?) && debugEnabled ==> StripProvenance(prov, debugEnabled) == prov
    ensures (prov.Obj? || prov.Arr?) && !debugEnabled && k in ProvenanceKeys ==>
      Get(StripProvenance(prov, debugEnabled), k) == OrElse(Get(prov, k), Null)
    ensures (prov.Obj? || prov.Arr?) && !debugEnabled && k !in ProvenanceKeys ==>
      Get(StripProvenance(prov, debugEnabled), k) == Undefined
  {
    if (prov.Obj? || prov.Arr?) && !debugEnabled {
      var ps := KeptProps(prov, ProvenanceKeys);
      if k in ProvenanceKeys {
        var i :| 0 <= i < 5 && ProvenanceKeys[i] == k;
        KeysDistinct(i);
        assert ps[i].val == OrElse(Get(prov, k), Null);
        assert Lookup(ps, k) == Some(ps[i].val);
      }
    }
  }

  /**
   * A provenance with a publish name but no slotId: kept whole (debugging
   * on), it has no finite slot; stripped (debugging off), the copy's slotId
   * is null, which Number reads as slot 0. The observation stage then keys
   * its dedup and history by the radar in the first case and by slot 0 of
   * the publish name in the second.
   */
  lemma StrippedSlotIsZero(pa: string, debugEnabled: bool)
    ensures var p := StripProvenance(Obj([Prop("publishAs", Str(pa))]), debugEnabled);
      && TrimmedOrBlank(Get(p, "publishAs")) == Trim(pa)
      && (debugEnabled ==> ToNumber(Get(p, "slotId")) == NaN)
      && (!debugEnabled ==> ToNumber(Get(p, "slotId")) == Fin(0.0))
  {
    var prov := Obj([Prop("publishAs", Str(pa))]);
    StripProvenanceKeeps(prov, debugEnabled, "publishAs");
    StripProvenanceKeeps(prov, debugEnabled, "slotId");
    assert Lookup(prov.props, "slotId").None? by { assert prov.props[0].key[0] == 'p'; }
  }

  /** The five kept keys are different strings. */
  lemma KeysDistinct(i: nat)
    requires i < 5
    ensures forall j :: 0 <= j < 5 && ProvenanceKeys[j] == ProvenanceKeys[i] ==> j == i
  {
    assert ProvenanceKeys[0][0] == 'p' && ProvenanceKeys[1][0] == 'r' && ProvenanceKeys[2][0] == 's';
    assert ProvenanceKeys[3][0] == 'm' && ProvenanceKeys[4][0] == 'l';
  }

  /** The observation a track of the frame gives, when its world position is finite. */
  function ObsOf(t: Value, measTs: real, radarId: real, zoneId: string, debugEnabled: bool): Option<Obs>
  {
    match WorldOf(t)
    case None => None
    case Some(p) =>
      Some(Obs(measTs, radarId, zoneId, p.0, p.1,
               StripProvenance(Or(Get(t, "provenance"), Null), debugEnabled), None))
  }

  /** The frame's observations, one per track with a finite world position, in order. */
  function ObservationsOf(ts: seq<Value>, measTs: real, radarId: real, zoneId: string, debugEnabled: bool): seq<Obs>
    decreases |ts|
  {
    if ts == [] then []
    else
      ObservationsOf(ts[..|ts| - 1], measTs, radarId, zoneId, debugEnabled) +
      (match ObsOf(ts[|ts| - 1], measTs, radarId, zoneId, debugEnabled)
       case Some(o) => [o]
       case None => [])
  }

  /**
   * Every observation carries the frame's clamped time, radar and zone and no
   * source radars; every track with a finite world position gives one; there
   * are no more observations than tracks.
   */
  lemma {:induction false} ObservationsSound(ts: seq<Value>, measTs: real, radarId: real, zoneId: string, debugEnabled: bool)
    ensures |ObservationsOf(ts, measTs, radarId, zoneId, debugEnabled)| <= |ts|
    ensures forall o :: o in ObservationsOf(ts, measTs, radarId, zoneId, debugEnabled) ==>
      o.measTs == measTs && o.radarId == radarId && o.zoneId == zoneId && o.sourceRadars == None
    ensures forall t :: t in ts && WorldOf(t).Some? ==>
      ObsOf(t, measTs, radarId, zoneId, debugEnabled).Some? &&
      ObsOf(t, measTs, radarId, zoneId, debugEnabled).value in ObservationsOf(ts, measTs, radarId, zoneId, debugEnabled)
    decreases |ts|
  {
    if ts != [] {
      var p := ts[..|ts| - 1];
      ObservationsSound(p, measTs, radarId, zoneId, debugEnabled);
      SplitLast(ts);
    }
  }

  lemma SplitLast<T>(s: seq<T>)
    requires s != []
    ensures s == s[..|s| - 1] + [s[|s| - 1]]
  {
  }

  lemma TakeNext<T>(s: seq<T>, i: nat)
    requires i < |s|
    ensures s[..i + 1] == s[..i] + [s[i]]
  {
  }

  /**
   * #onLd2450Tracks as a value: an error when event.ts is not a finite
   * positive number; nothing when the radar id is not finite or the
   * measurement time not finite and positive; otherwise the radar and the
   * frame to ingest, its time clamped against the radar's latest in b.
   */
  function FrameOf(event: Value, b: Snap.Buf, debugEnabled: bool): (r: Result<Option<(real, Snap.Entry)>, string>)
    ensures var recv := ToNumber(Get(event, "ts"));
      r.Err? <==> !(recv.Fin? && recv.v > 0.0)
    ensures var recv := ToNumber(Get(event, "ts"));
      var rid := ToNumber(Get(Payload(event), "radarId"));
      var raw := ToNumber(Get(Payload(event), "measTs"));
      r == Ok(None) <==> recv.Fin? && recv.v > 0.0 && (!rid.Fin? || !(raw.Fin? && raw.v > 0.0))
    ensures r.Ok? && r.value.Some? ==> r.value.value.1.detectionCount == |r.value.value.1.measurements|
  {
    var recv := ToNumber(Get(event, "ts"));
    var p := Payload(event);
    var rid := ToNumber(Get(p, "radarId"));
    var raw := ToNumber(Get(p, "measTs"));
    if !(recv.Fin? && recv.v > 0.0) then Err(TsMissing)
    else if !rid.Fin? then Ok(None)
    else if !(raw.Fin? && raw.v > 0.0) then Ok(None)
    else
      var measTs := ClampedMeasTs(raw.v, Snap.LatestMeasTs(b, rid));
      var zoneId := ToStr(Or(Get(p, "zoneId"), Str("")));
      var list := Get(p, "tracks");
      var obs := ObservationsOf(if list.Arr? then list.items else [], measTs, rid.v, zoneId, debugEnabled);
      Ok(Some((rid.v, Snap.Entry(measTs, recv.v, |obs|, obs))))
  }

  /**
   * An event without a finite positive ts is an error; one without a finite
   * radar id or a finite positive measurement time is dropped; a frame that
   * is taken has a time no earlier than its raw time nor than the radar's
   * latest, counts its own observations, and stamps each with its time and
   * radar.
   */
  lemma FrameSound(event: Value, b: Snap.Buf, debugEnabled: bool)
    ensures var recv := ToNumber(Get(event, "ts"));
      FrameOf(event, b, debugEnabled).Err? <==> !(recv.Fin? && recv.v > 0.0)
    ensures var recv := ToNumber(Get(event, "ts"));
      var rid := ToNumber(Get(Payload(event), "radarId"));
      var raw := ToNumber(Get(Payload(event), "measTs"));
      FrameOf(event, b, debugEnabled) == Ok(None) <==>
        recv.Fin? && recv.v > 0.0 && (!rid.Fin? || !(raw.Fin? && raw.v > 0.0))
    ensures var r := FrameOf(event, b, debugEnabled);
      var raw := ToNumber(Get(Payload(event), "measTs"));
      r.Ok? && r.value.Some? ==>
        var rid := r.value.value.0;
        var e := r.value.value.1;
        && raw.Fin? && e.measTs >= raw.v > 0.0
        && e.measTs >= Snap.LatestMeasTs(b, Fin(rid))
        && e.detectionCount == |e.measurements|
        && forall o :: o in e.measurements ==> o.measTs == e.measTs && o.radarId == rid
  {
    var r := FrameOf(event, b, debugEnabled);
    if r.Ok? && r.value.Some? {
      var p := Payload(event);
      var list := Get(p, "tracks");
      var e := r.value.value.1;
      ObservationsSound(if list.Arr? then list.items else [], e.measTs, r.value.value.0,
                        ToStr(Or(Get(p, "zoneId"), Str(""))), debugEnabled);
    }
  }

  /** After a frame is taken, its radar's latest measurement time is positive and has not gone backwards. */
  lemma LatestNeverGoesBack(event: Value, b: Snap.Buf, s: Snap.Settings, debugEnabled: bool, now: real)
    ensures var r := FrameOf(event, b, debugEnabled);
      r.Ok? && r.value.Some? ==>
        var rid := r.value.value.0;
        var b' := Snap.IngestSpec(b, s, Fin(rid), r.value.value.1, now);
        Snap.LatestMeasTs(b', Fin(rid)) >= Snap.LatestMeasTs(b, Fin(rid)) && Snap.LatestMeasTs(b', Fin(rid)) > 0.0
  {
    var r := FrameOf(event, b, debugEnabled);
    if r.Ok? && r.value.Some? {
      FrameSound(event, b, debugEnabled);
      Snap.LatestAfterIngest(b, s, Fin(r.value.value.0), r.value.value.1, now);
    }
  }

  /** The loop over the frame's tracks. */
  method CollectObservations(ts: seq<Value>, measTs: real, radarId: real, zoneId: string, debugEnabled: bool)
    returns (obs: seq<Obs>)
    ensures obs == ObservationsOf(ts, measTs, radarId, zoneId, debugEnabled)
  {
    obs := [];
    for i := 0 to |ts|
      invariant obs == ObservationsOf(ts[..i], measTs, radarId, zoneId, debugEnabled)
    {
      TakeNext(ts, i);
      assert ts[..i + 1][..i] == ts[..i];
      var t := ts[i];
      var w := Or(Get(t, "world"), Obj([]));
      var xMm := ToNumber(Get(w, "xMm"));
      var yMm := ToNumber(Get(w, "yMm"));
      if !(xMm.Fin? && yMm.Fin?) {
        continue;
      }
      var prov := StripProvenance(Or(Get(t, "provenance"), Null), debugEnabled);
      obs := obs + [Obs(measTs, radarId, zoneId, xMm.v, yMm.v, prov, None)];
    }
    assert ts[..|ts|] == ts;
  }

  // ------------------------------------------------------------------
  // Tracks

  datatype TrackState = Tentative | Confirmed

  /** A track id t<now>:<seq>: the creation time and the pipeline's counter. */
  datatype TrackId = TrackId(createdAt: real, n: nat)

  /** Position and velocity: the Kalman state's mean, or the last measurement at rest. */
  datatype Kin = Kin(xMm: real, yMm: real, vxMmS: real, vyMmS: real)

  /**
   * The constant-velocity Kalman filter: predict over dt seconds, and update
   * with a measured position and its variance (at least 1), whose square
   * root is the filter's sigma.
   */
  datatype KalmanFilter = KalmanFilter(predict: (Kin, real) -> Kin, update: (Kin, real, real, real) -> Kin)

  /** One track record. */
  datatype Track = Track(
    id: TrackId, state: TrackState, kin: Kin,
    createdTs: real, firstSeenTs: real, lastSeenTs: real, lastUpdateTs: real,
    confirmHits: nat, lastRadarId: real, lastZoneId: string, sourceRadars: set<real>,
    updatedThisTick: bool)

  /** Distinct ids, each numbered below n: what the counter guarantees. */
  predicate WellFormed(ts: seq<Track>, n: nat)
  {
    (forall i :: 0 <= i < |ts| ==> ts[i].id.n < n) &&
    (forall i, j :: 0 <= i < j < |ts| ==> ts[i].id != ts[j].id)
  }

  /** The radars a new track starts from: the source list when there is one, else the measuring radar. */
  function SpawnRadars(m: Obs): set<real>
  {
    match m.sourceRadars
    case Some(rs) => set r | r in rs
    case None => {m.radarId}
  }

  /** The radars a hit adds: a non-empty source list, else the measuring radar. */
  function HitRadars(m: Obs): set<real>
  {
    match m.sourceRadars
    case Some(rs) => if |rs| > 0 then set r | r in rs else {m.radarId}
    case None => {m.radarId}
  }

  /** #createTrackFromMeasurement; the filter starts at the measured position at rest. */
  function NewTrack(m: Obs, now: real, n: nat, confirmEnabled: bool): Track
  {
    Track(TrackId(now, n), if confirmEnabled then Tentative else Confirmed, Kin(m.xMm, m.yMm, 0.0, 0.0),
          now, now, now, now, 1, m.radarId, m.zoneId, SpawnRadars(m), true)
  }

  /** min(dtClampMs, max(0, now - lastUpdateTs)) */
  function PredictDtMs(now: real, lastUpdateTs: real, dtClampMs: nat): (r: real)
    ensures 0.0 <= r <= dtClampMs as real
    ensures 0.0 <= now - lastUpdateTs <= dtClampMs as real ==> r == now - lastUpdateTs
  {
    var d := if now - lastUpdateTs > 0.0 then now - lastUpdateTs else 0.0;
    if d < dtClampMs as real then d else dtClampMs as real
  }

  /** A track at the start of a tick: not yet updated, and in kf mode predicted to now. */
  function Predicted(tr: Track, s: Settings, kf: KalmanFilter, now: real): Track
  {
    if s.mode == Kf then
      tr.(kin := kf.predict(tr.kin, PredictDtMs(now, tr.lastUpdateTs, s.dtClampMs) / 1000.0), updatedThisTick := false)
    else tr.(updatedThisTick := false)
  }

  function PredictAll(ts: seq<Track>, s: Settings, kf: KalmanFilter, now: real): seq<Track>
  {
    seq(|ts|, i requires 0 <= i < |ts| => Predicted(ts[i], s, kf, now))
  }

  /** Number(fusedVarMm2ByIdx[idx]) || 1, raised to at least 1. */
  function VarAt(vars: seq<real>, idx: nat): (v: real)
    ensures v >= 1.0
    ensures idx < |vars| && vars[idx] >= 1.0 ==> v == vars[idx]
  {
    var x := if idx < |vars| && vars[idx] != 0.0 then vars[idx] else 1.0;
    if x > 1.0 then x else 1.0
  }

  /**
   * A track after a hit by m: moved (by the filter in kf mode, onto m at
   * rest otherwise), seen and updated now on m's radar and zone, with m's
   * radars added; a tentative track with confirmation on counts the hit,
   * and is confirmed once the hits reach the count within the window.
   */
  function Hit(tr: Track, m: Obs, varMm2: real, now: real, s: Settings, kf: KalmanFilter): (r: Track)
    ensures r.id == tr.id && r.firstSeenTs == tr.firstSeenTs && r.createdTs == tr.createdTs
    ensures r.lastSeenTs == now && r.lastUpdateTs == now && r.updatedThisTick
    ensures r.lastRadarId == m.radarId && r.lastZoneId == m.zoneId
    ensures tr.sourceRadars <= r.sourceRadars && HitRadars(m) <= r.sourceRadars
    ensures r.confirmHits == if s.confirmEnabled && tr.state == Tentative then tr.confirmHits + 1 else tr.confirmHits
    ensures r.state == Confirmed <==>
      tr.state == Confirmed ||
      (s.confirmEnabled && tr.confirmHits + 1 >= s.confirmCount && now - tr.firstSeenTs <= s.confirmWindowMs as real)
  {
    var kin := if s.mode == Kf then kf.update(tr.kin, m.xMm, m.yMm, varMm2) else Kin(m.xMm, m.yMm, 0.0, 0.0);
    var counting := s.confirmEnabled && tr.state == Tentative;
    var hits := if counting then tr.confirmHits + 1 else tr.confirmHits;
    var confirm := counting && hits >= s.confirmCount && now - tr.firstSeenTs <= s.confirmWindowMs as real;
    tr.(kin := kin, lastUpdateTs := now, lastSeenTs := now,
        lastRadarId := m.radarId, lastZoneId := m.zoneId, updatedThisTick := true,
        sourceRadars := tr.sourceRadars + HitRadars(m),
        confirmHits := hits, state := if confirm then Confirmed else tr.state)
  }

  /** The position of the track with id, if any. */
  function IndexOfId(ts: seq<Track>, id: TrackId): (r: Option<nat>)
    ensures r.Some? ==> r.value < |ts| && ts[r.value].id == id
    ensures r.None? ==> forall i :: 0 <= i < |ts| ==> ts[i].id != id
  {
    if ts == [] then None
    else if ts[|ts| - 1].id == id then Some(|ts| - 1)
    else IndexOfId(ts[..|ts| - 1], id)
  }

  /** Whether every assignment and every unassigned index names an observation. */
  predicate IndicesIn(assignments: seq<(TrackId, nat)>, unassigned: seq<nat>, n: nat)
  {
    (forall k :: 0 <= k < |assignments| ==> assignments[k].1 < n) &&
    (forall k :: 0 <= k < |unassigned| ==> unassigned[k] < n)
  }

  /** The assignments applied in order; an assignment to an unknown track is skipped. */
  function HitsAll(ts: seq<Track>, obs: seq<Obs>, vars: seq<real>, assignments: seq<(TrackId, nat)>,
                   now: real, s: Settings, kf: KalmanFilter): seq<Track>
    requires IndicesIn(assignments, [], |obs|)
    decreases |assignments|
  {
    if assignments == [] then ts
    else
      var a := assignments[|assignments| - 1];
      var prev := HitsAll(ts, obs, vars, assignments[..|assignments| - 1], now, s, kf);
      match IndexOfId(prev, a.0)
      case None => prev
      case Some(p) => prev[p := Hit(prev[p], obs[a.1], VarAt(vars, a.1), now, s, kf)]
  }

  /** Applying hits keeps every track in its place with its id, and never takes a confirmation back. */
  lemma {:induction false} HitsKeepIds(ts: seq<Track>, obs: seq<Obs>, vars: seq<real>, assignments: seq<(TrackId, nat)>,
                                       now: real, s: Settings, kf: KalmanFilter)
    requires IndicesIn(assignments, [], |obs|)
    ensures var h := HitsAll(ts, obs, vars, assignments, now, s, kf);
      |h| == |ts| &&
      forall i :: 0 <= i < |ts| ==> h[i].id == ts[i].id && (ts[i].state == Confirmed ==> h[i].state == Confirmed)
    decreases |assignments|
  {
    if assignments != [] {
      HitsKeepIds(ts, obs, vars, assignments[..|assignments| - 1], now, s, kf);
    }
  }

  /** Squared distance of a point from a track's position within gate. */
  predicate Near(xMm: real, yMm: real, tr: Track, gate: real)
  {
    var dx := xMm - tr.kin.xMm;
    var dy := yMm - tr.kin.yMm;
    dx * dx + dy * dy <= gate * gate
  }

  /** A spawn gate is in force when it is a finite positive number of millimetres. */
  predicate GateOn(gate: Num)
  {
    gate.Fin? && gate.v > 0.0
  }

  /** #canSpawnNewTrack: without a gate always; with one, only away from every track. */
  predicate CanSpawn(m: Obs, ts: seq<Track>, gate: Num)
  {
    !GateOn(gate) || forall i :: 0 <= i < |ts| ==> !Near(m.xMm, m.yMm, ts[i], gate.v)
  }

  /** The unassigned measurements in order, each spawning a track when nothing already there is near. */
  function SpawnAll(ts: seq<Track>, n: nat, obs: seq<Obs>, unassigned: seq<nat>, now: real, s: Settings): (seq<Track>, nat)
    requires IndicesIn([], unassigned, |obs|)
    decreases |unassigned|
  {
    if unassigned == [] then (ts, n)
    else
      var prev := SpawnAll(ts, n, obs, unassigned[..|unassigned| - 1], now, s);
      var m := obs[unassigned[|unassigned| - 1]];
      if CanSpawn(m, prev.0, s.spawnGateMm) then (prev.0 + [NewTrack(m, now, prev.1, s.confirmEnabled)], prev.1 + 1)
      else prev
  }

  /** What a track spawned now looks like: fresh, at its measurement at rest, tentative exactly when confirmation is on. */
  predicate Spawned(tr: Track, now: real, s: Settings)
  {
    && tr.id.createdAt == now && tr.kin.vxMmS == 0.0 && tr.kin.vyMmS == 0.0
    && tr.state == (if s.confirmEnabled then Tentative else Confirmed) && tr.confirmHits == 1
    && tr.createdTs == now && tr.firstSeenTs == now && tr.lastSeenTs == now && tr.lastUpdateTs == now
  }

  /**
   * Spawning keeps the existing tracks in front and appends tracks numbered
   * from n on, each as Spawned says, each outside the gate of every track
   * before it (those spawned earlier in the tick included); well-formed
   * tracks stay well-formed.
   */
  lemma {:induction false} SpawnSound(ts: seq<Track>, n: nat, obs: seq<Obs>, unassigned: seq<nat>, now: real, s: Settings)
    requires IndicesIn([], unassigned, |obs|)
    ensures var r := SpawnAll(ts, n, obs, unassigned, now, s);
      && |ts| <= |r.0| && r.0[..|ts|] == ts && r.1 == n + (|r.0| - |ts|)
      && (forall k :: |ts| <= k < |r.0| ==> Spawned(r.0[k], now, s) && r.0[k].id.n == n + (k - |ts|))
      && (forall k :: |ts| <= k < |r.0| ==> GateOn(s.spawnGateMm) ==>
            forall j :: 0 <= j < k ==> !Near(r.0[k].kin.xMm, r.0[k].kin.yMm, r.0[j], s.spawnGateMm.v))
      && (WellFormed(ts, n) ==> WellFormed(r.0, r.1))
    decreases |unassigned|
  {
    if unassigned != [] {
      var prev := SpawnAll(ts, n, obs, unassigned[..|unassigned| - 1], now, s);
      SpawnSound(ts, n, obs, unassigned[..|unassigned| - 1], now, s);
      var m := obs[unassigned[|unassigned| - 1]];
      if CanSpawn(m, prev.0, s.spawnGateMm) {
        var r := prev.0 + [NewTrack(m, now, prev.1, s.confirmEnabled)];
        assert r[..|prev.0|] == prev.0;
        assert r[..|ts|] == prev.0[..|ts|];
      }
    }
  }

  /** The tracks seen less than timeout ago, in order. */
  function Live(ts: seq<Track>, now: real, timeout: nat): seq<Track>
    decreases |ts|
  {
    if ts == [] then []
    else Live(ts[..|ts| - 1], now, timeout) +
         (if now - ts[|ts| - 1].lastSeenTs < timeout as real then [ts[|ts| - 1]] else [])
  }

  /**
   * Dropping keeps exactly the tracks seen less than timeout ago, no more
   * of them than there were, and keeps the tracks well-formed.
   */
  lemma {:induction false} LiveSound(ts: seq<Track>, now: real, timeout: nat, n: nat)
    ensures |Live(ts, now, timeout)| <= |ts|
    ensures forall t :: t in Live(ts, now, timeout) <==> t in ts && now - t.lastSeenTs < timeout as real
    ensures WellFormed(ts, n) ==> WellFormed(Live(ts, now, timeout), n)
    decreases |ts|
  {
    if ts != [] {
      var p := ts[..|ts| - 1];
      var x := ts[|ts| - 1];
      LiveSound(p, now, timeout, n);
      SplitLast(ts);
      if WellFormed(ts, n) {
        assert WellFormed(p, n);
        var l := Live(p, now, timeout);
        forall i | 0 <= i < |l|
          ensures l[i].id != x.id
        {
          assert l[i] in p;
        }
      }
    }
  }

  /** One tick of track maintenance; passthrough mode leaves the tracks alone. */
  function TickTracks(s: Settings, kf: KalmanFilter, ts: seq<Track>, n: nat, obs: seq<Obs>, vars: seq<real>,
                      assignments: seq<(TrackId, nat)>, unassigned: seq<nat>, now: real): (r: (seq<Track>, nat))
    requires IndicesIn(assignments, unassigned, |obs|)
    ensures s.mode == Passthrough ==> r == (ts, n)
    ensures s.mode != Passthrough ==> forall t :: t in r.0 ==> now - t.lastSeenTs < s.dropTimeoutMs as real
  {
    if s.mode == Passthrough then (ts, n)
    else
      var h := HitsAll(PredictAll(ts, s, kf, now), obs, vars, assignments, now, s, kf);
      var sp := SpawnAll(h, n, obs, unassigned, now, s);
      LiveSound(sp.0, now, s.dropTimeoutMs, sp.1);
      (Live(sp.0, now, s.dropTimeoutMs), sp.1)
  }

  lemma PredictKeepsIds(ts: seq<Track>, s: Settings, kf: KalmanFilter, now: real)
    ensures var p := PredictAll(ts, s, kf, now);
      |p| == |ts| && forall i :: 0 <= i < |ts| ==> p[i].id == ts[i].id && p[i].state == ts[i].state
  {
  }

  /**
   * A tick keeps the tracks well-formed, and every track it leaves (in kf
   * and assocOnly mode) was seen less than dropTimeoutMs ago.
   */
  lemma TickSound(s: Settings, kf: KalmanFilter, ts: seq<Track>, n: nat, obs: seq<Obs>, vars: seq<real>,
                  assignments: seq<(TrackId, nat)>, unassigned: seq<nat>, now: real)
    requires IndicesIn(assignments, unassigned, |obs|)
    requires WellFormed(ts, n)
    ensures var r := TickTracks(s, kf, ts, n, obs, vars, assignments, unassigned, now);
      && WellFormed(r.0, r.1) && r.1 >= n
      && (s.mode != Passthrough ==> forall t :: t in r.0 ==> now - t.lastSeenTs < s.dropTimeoutMs as real)
  {
    if s.mode != Passthrough {
      var p := PredictAll(ts, s, kf, now);
      PredictKeepsIds(ts, s, kf, now);
      assert WellFormed(p, n);
      assert IndicesIn(assignments, [], |obs|);
      var h := HitsAll(p, obs, vars, assignments, now, s, kf);
      HitsKeepIds(p, obs, vars, assignments, now, s, kf);
      assert WellFormed(h, n);
      assert IndicesIn([], unassigned, |obs|);
      var sp := SpawnAll(h, n, obs, unassigned, now, s);
      SpawnSound(h, n, obs, unassigned, now, s);
      LiveSound(sp.0, now, s.dropTimeoutMs, sp.1);
    }
  }

  /** A confirmed track that survives a tick is still confirmed: confirmation is never taken back. */
  lemma NeverUnconfirmed(s: Settings, kf: KalmanFilter, ts: seq<Track>, n: nat, obs: seq<Obs>, vars: seq<real>,
                         assignments: seq<(TrackId, nat)>, unassigned: seq<nat>, now: real, i: nat, j: nat)
    requires IndicesIn(assignments, unassigned, |obs|)
    requires WellFormed(ts, n) && i < |ts| && ts[i].state == Confirmed
    ensures var r := TickTracks(s, kf, ts, n, obs, vars, assignments, unassigned, now).0;
      j < |r| && r[j].id == ts[i].id ==> r[j].state == Confirmed
  {
    var r := TickTracks(s, kf, ts, n, obs, vars, assignments, unassigned, now).0;
    if s.mode != Passthrough && j < |r| && r[j].id == ts[i].id {
      var p := PredictAll(ts, s, kf, now);
      PredictKeepsIds(ts, s, kf, now);
      assert WellFormed(p, n);
      assert IndicesIn(assignments, [], |obs|);
      var h := HitsAll(p, obs, vars, assignments, now, s, kf);
      HitsKeepIds(p, obs, vars, assignments, now, s, kf);
      assert WellFormed(h, n);
      assert IndicesIn([], unassigned, |obs|);
      var sp := SpawnAll(h, n, obs, unassigned, now, s);
      SpawnSound(h, n, obs, unassigned, now, s);
      LiveSound(sp.0, now, s.dropTimeoutMs, sp.1);
      assert sp.0[i] == h[i] by { assert sp.0[..|h|][i] == h[i]; }
      assert r[j] in sp.0;
      var k :| 0 <= k < |sp.0| && sp.0[k] == r[j];
      assert sp.0[k].id == sp.0[i].id;
    }
  }

  // ------------------------------------------------------------------
  // The tick's loops

  /** The two passes over the tracks before association: clear the update flag, predict in kf mode. */
  method PredictTracks(ts: seq<Track>, s: Settings, kf: KalmanFilter, now: real) returns (r: seq<Track>)
    ensures r == PredictAll(ts, s, kf, now)
  {
    r := [];
    for i := 0 to |ts|
      invariant r == PredictAll(ts[..i], s, kf, now)
    {
      var tr := ts[i].(updatedThisTick := false);
      if s.mode == Kf {
        var dtMs := PredictDtMs(now, tr.lastUpdateTs, s.dtClampMs);
        tr := tr.(kin := kf.predict(tr.kin, dtMs / 1000.0));
      }
      r := r + [tr];
    }
    assert ts[..|ts|] == ts;
  }

  /** The loop over the assignments. */
  method ApplyHits(ts: seq<Track>, obs: seq<Obs>, vars: seq<real>, assignments: seq<(TrackId, nat)>,
                   now: real, s: Settings, kf: KalmanFilter) returns (r: seq<Track>)
    requires IndicesIn(assignments, [], |obs|)
    ensures r == HitsAll(ts, obs, vars, assignments, now, s, kf)
  {
    r := ts;
    for k := 0 to |assignments|
      invariant IndicesIn(assignments[..k], [], |obs|)
      invariant r == HitsAll(ts, obs, vars, assignments[..k], now, s, kf)
    {
      TakeNext(assignments, k);
      assert assignments[..k + 1][..k] == assignments[..k];
      var a := assignments[k];
      var p := IndexOfId(r, a.0);
      if p.None? {
        continue;
      }
      var m := obs[a.1];
      r := r[p.value := Hit(r[p.value], m, VarAt(vars, a.1), now, s, kf)];
    }
    assert assignments[..|assignments|] == assignments;
  }

  /** #canSpawnNewTrack's loop over the tracks. */
  method CanSpawnNewTrack(m: Obs, ts: seq<Track>, gate: Num) returns (ok: bool)
    ensures ok == CanSpawn(m, ts, gate)
  {
    if !GateOn(gate) {
      return true;
    }
    for i := 0 to |ts|
      invariant forall j :: 0 <= j < i ==> !Near(m.xMm, m.yMm, ts[j], gate.v)
    {
      var dx := m.xMm - ts[i].kin.xMm;
      var dy := m.yMm - ts[i].kin.yMm;
      if dx * dx + dy * dy <= gate.v * gate.v {
        assert Near(m.xMm, m.yMm, ts[i], gate.v);
        return false;
      }
    }
    return true;
  }

  /** The loop over the unassigned measurements. */
  method SpawnUnassigned(ts: seq<Track>, n: nat, obs: seq<Obs>, unassigned: seq<nat>, now: real, s: Settings)
    returns (r: seq<Track>, n': nat)
    requires IndicesIn([], unassigned, |obs|)
    ensures (r, n') == SpawnAll(ts, n, obs, unassigned, now, s)
  {
    r, n' := ts, n;
    for k := 0 to |unassigned|
      invariant IndicesIn([], unassigned[..k], |obs|)
      invariant (r, n') == SpawnAll(ts, n, obs, unassigned[..k], now, s)
    {
      TakeNext(unassigned, k);
      assert unassigned[..k + 1][..k] == unassigned[..k];
      var m := obs[unassigned[k]];
      var ok := CanSpawnNewTrack(m, r, s.spawnGateMm);
      if ok {
        r := r + [NewTrack(m, now, n', s.confirmEnabled)];
        n' := n' + 1;
      }
    }
    assert unassigned[..|unassigned|] == unassigned;
  }

  /** The two passes that mark and delete the tracks not seen for dropTimeoutMs. */
  method DropStale(ts: seq<Track>, now: real, timeout: nat) returns (r: seq<Track>)
    ensures r == Live(ts, now, timeout)
  {
    r := [];
    for i := 0 to |ts|
      invariant r == Live(ts[..i], now, timeout)
    {
      TakeNext(ts, i);
      assert ts[..i + 1][..i] == ts[..i];
      if !(now - ts[i].lastSeenTs >= timeout as real) {
        r := r + [ts[i]];
      }
    }
    assert ts[..|ts|] == ts;
  }

  // ------------------------------------------------------------------
  // The pipeline object

  /** new RadarSnapshotBuffer({ clock, cfg }) */
  method NewSnapshot(cfg: Value) returns (b: Snap.SnapshotBuffer)
    ensures fresh(b) && b.State() == Snap.Empty
  {
    b := new Snap.SnapshotBuffer(cfg);
  }

  /** new TrackingObservationStage({ cfg }) */
  method NewStage(cfg: Value, g: Observe.Geometry) returns (st: Observe.Stage)
    ensures fresh(st) && st.jitterLast == map[] && st.Valid()
  {
    st := new Observe.Stage(cfg, g);
  }

  /**
   * The pipeline: its settings, the filter, the snapshot buffer and the
   * observation stage it owns, the tracks in creation order, the id
   * counter, and whether it is subscribed with a tick timer running.
   */
  class Pipeline {
    const settings: Settings
    const kf: KalmanFilter
    const snapshot: Snap.SnapshotBuffer
    const observe: Observe.Stage
    var tracks: seq<Track>
    var nextSeq: nat
    var subscribed: bool
    var timerMs: Option<nat>

    predicate Valid()
      reads this
    {
      WellFormed(tracks, nextSeq)
    }

    /** controllerConfig || {} configures the pipeline and the parts it owns. */
    constructor (controllerConfig: Value, kf: KalmanFilter, g: Observe.Geometry)
      ensures settings == SettingsOf(Or(controllerConfig, Obj([]))) && this.kf == kf
      ensures fresh(snapshot) && snapshot.State() == Snap.Empty
      ensures fresh(observe) && observe.jitterLast == map[] && observe.Valid()
      ensures tracks == [] && nextSeq == 0 && !subscribed && timerMs == None
      ensures Valid()
    {
      var cfg := Or(controllerConfig, Obj([]));
      settings := SettingsOf(cfg);
      this.kf := kf;
      var b := NewSnapshot(cfg);
      var st := NewStage(cfg, g);
      snapshot, observe := b, st;
      tracks := [];
      nextSeq := 0;
      subscribed := false;
      timerMs := None;
    }

    /** start(): when enabled and not yet running, subscribe and run the tick every updateIntervalMs. */
    method Start()
      modifies this
      ensures tracks == old(tracks) && nextSeq == old(nextSeq)
      ensures !settings.enabled || old(subscribed) || old(timerMs).Some? ==>
        subscribed == old(subscribed) && timerMs == old(timerMs)
      ensures settings.enabled && !old(subscribed) && old(timerMs).None? ==>
        subscribed && timerMs == Some(settings.updateIntervalMs)
    {
      if !settings.enabled {
        return;
      }
      if subscribed || timerMs.Some? {
        return;
      }
      subscribed := true;
      timerMs := Some(settings.updateIntervalMs);
    }

    /** dispose(): unsubscribe, stop the timer, forget the tracks and clear the parts. */
    method Dispose()
      requires Valid()
      modifies this, snapshot, observe
      ensures !subscribed && timerMs == None && tracks == [] && nextSeq == old(nextSeq)
      ensures snapshot.State() == Snap.Empty
      ensures observe.jitterLast == map[] && observe.Valid()
      ensures Valid()
    {
      subscribed := false;
      timerMs := None;
      tracks := [];
      snapshot.Dispose();
      observe.Dispose();
    }

    /** #onLd2450Tracks(event), now being the clock's reading. */
    method OnLd2450Tracks(event: Value, now: real) returns (r: Result<(), string>)
      modifies snapshot
      ensures match FrameOf(event, old(snapshot.State()), settings.debugEnabled)
        case Err(e) => r == Err(e) && snapshot.State() == old(snapshot.State())
        case Ok(None) => r == Ok(()) && snapshot.State() == old(snapshot.State())
        case Ok(Some(f)) =>
          (r == Ok(()) && snapshot.State() == Snap.IngestSpec(old(snapshot.State()), snapshot.settings, Fin(f.0), f.1, now))
    {
      var p := Payload(event);
      var recvTs := ToNumber(Get(event, "ts"));
      if !(recvTs.Fin? && recvTs.v > 0.0) {
        return Err(TsMissing);
      }
      var radarId := ToNumber(Get(p, "radarId"));
      if !radarId.Fin? {
        return Ok(());
      }
      var zoneId := ToStr(Or(Get(p, "zoneId"), Str("")));
      var raw := ToNumber(Get(p, "measTs"));
      if !(raw.Fin? && raw.v > 0.0) {
        return Ok(());
      }
      var prev := snapshot.GetLatestMeasTs(Number(radarId));
      var measTs := ClampedMeasTs(raw.v, prev);
      var list := Get(p, "tracks");
      var obs := CollectObservations(if list.Arr? then list.items else [], measTs, radarId.v, zoneId, settings.debugEnabled);
      snapshot.Ingest(Number(radarId), Snap.Entry(measTs, recvTs.v, |obs|, obs), now);
      return Ok(());
    }

    /**
     * The track phase of #tick, from the association's assignments (track
     * id to observation index) and unassigned observation indices on.
     */
    method UpdateTracks(obs: seq<Obs>, vars: seq<real>, assignments: seq<(TrackId, nat)>, unassigned: seq<nat>, now: real)
      requires Valid()
      requires IndicesIn(assignments, unassigned, |obs|)
      modifies this
      ensures Valid()
      ensures (tracks, nextSeq) == TickTracks(settings, kf, old(tracks), old(nextSeq), obs, vars, assignments, unassigned, now)
      ensures subscribed == old(subscribed) && timerMs == old(timerMs)
    {
      TickSound(settings, kf, tracks, nextSeq, obs, vars, assignments, unassigned, now);
      if settings.mode == Passthrough {
        return;
      }
      var p := PredictTracks(tracks, settings, kf, now);
      var h := ApplyHits(p, obs, vars, assignments, now, settings, kf);
      var sp, n := SpawnUnassigned(h, nextSeq, obs, unassigned, now, settings);
      var live := DropStale(sp, now, settings.dropTimeoutMs);
      tracks, nextSeq := live, n;
    }
  }
}
