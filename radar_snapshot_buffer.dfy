/**
 * The radar snapshot buffer of the presence tracker: per radar a short
 * window of recent LD2450 frames, the latest frame, the radars ever seen
 * and the measurement time each radar had at the previous tick. Every
 * tracking tick takes a snapshot: one frame per expected radar, chosen at
 * a sample time, classified fresh, stale or missing by its age, with the
 * fresh frames' measurements collected for the tracker.
 *
 * Radar ids are the numbers Number(radarId) gives; frame timestamps are
 * finite, as the tracking pipeline only ingests frames with a finite
 * positive measurement time. The clock is the `now` parameter.
 */
module RadarSnapshotBuffer {
  import opened Common
  import opened Js
  import opened Measurement

  /** One radar frame as the tracking pipeline hands it over. */
  datatype Entry = Entry(measTs: real, recvTs: real, detectionCount: int, measurements: seq<Obs>)

  // ------------------------------------------------------------------
  // Configuration

  /** cfg?.tracking?.snapshot */
  function SnapshotCfg(cfg: Value): Value
  {
    Get(Get(cfg, "tracking"), "snapshot")
  }

  /** Number(x), floored when it is finite and positive; otherwise the fallback. */
  function PositiveFloorOr(x: Value, fallback: nat): (r: nat)
    ensures ToNumber(x).Fin? && ToNumber(x).v > 0.0 ==> r as real <= ToNumber(x).v < r as real + 1.0
    ensures !(ToNumber(x).Fin? && ToNumber(x).v > 0.0) ==> r == fallback
  {
    match ToNumber(x)
    case Fin(v) => if v > 0.0 then Floor(v) else fallback
    case _ => fallback
  }

  /** Number(x), floored when it is finite and not negative; otherwise 0. */
  function NonNegativeFloor(x: Value): (r: nat)
    ensures ToNumber(x).Fin? && ToNumber(x).v >= 0.0 ==> r as real <= ToNumber(x).v < r as real + 1.0
    ensures !(ToNumber(x).Fin? && ToNumber(x).v >= 0.0) ==> r == 0
  {
    match ToNumber(x)
    case Fin(v) => if v >= 0.0 then Floor(v) else 0
    case _ => 0
  }

  /** A whole number of milliseconds is taken as given; zero gives the fallback. */
  lemma WholeSettingKept(n: nat, fallback: nat)
    ensures PositiveFloorOr(Int(n), fallback) == if n > 0 then n else fallback
    ensures NonNegativeFloor(Int(n)) == n
  {
    assert (n as real).Floor == n;
  }

  /** The snapshot settings, each read through its getter. */
  datatype Settings = Settings(updateIntervalMs: nat, jitterDelayMs: nat, maxFrames: nat, windowMs: nat,
                               waitForAll: bool, waitTimeoutMs: nat, staleMaxMs: nat,
                               missingTimeoutMs: nat, stuckWarn: real)

  const Defaults := Settings(50, 0, 5, 4000, false, 120, 250, 1500, 20.0)

  /** stuckTicksWarn ?? 20, used when finite and positive, else 20. */
  function StuckWarn(x: Value): (r: real)
    ensures r > 0.0
    ensures Nullish(x) ==> r == 20.0
  {
    match ToNumber(OrElse(x, Int(20)))
    case Fin(v) => if v > 0.0 then v else 20.0
    case _ => 20.0
  }

  function SettingsOf(cfg: Value): (s: Settings)
    ensures !cfg.Obj? ==> s == Defaults
  {
    var snap := SnapshotCfg(cfg);
    var wait := Get(snap, "waitForAll");
    Settings(PositiveFloorOr(Get(Get(cfg, "tracking"), "updateIntervalMs"), 50),
             NonNegativeFloor(Get(snap, "jitterDelayMs")),
             PositiveFloorOr(Get(snap, "radarBufferMaxFrames"), 5),
             PositiveFloorOr(Get(snap, "radarBufferWindowMs"), 4000),
             Get(wait, "enabled") == Bool(true),
             PositiveFloorOr(Get(wait, "timeoutMs"), 120),
             PositiveFloorOr(Get(snap, "staleMeasMaxMs"), 250),
             PositiveFloorOr(Get(snap, "radarMissingTimeoutMs"), 1500),
             StuckWarn(Get(snap, "stuckTicksWarn")))
  }

  /** cfg.layout.ld2450 when it is an array, else no radars. */
  function LayoutList(cfg: Value): seq<Value>
  {
    var l := Get(Get(cfg, "layout"), "ld2450");
    if l.Arr? then l.items else []
  }

  predicate Enabled(x: Value)
  {
    Get(x, "enabled") == Bool(true)
  }

  /** The expected radars: the positions of the layout entries with enabled === true. */
  function EnabledIn(list: seq<Value>): (ids: set<real>)
    ensures forall id :: id in ids ==> 0.0 <= id < |list| as real && id == id.Floor as real
  {
    if list == [] then {}
    else
      var n := |list| - 1;
      EnabledIn(list[..n]) + if Enabled(list[n]) then {n as real} else {}
  }

  /** Position i is expected exactly when the layout entry at i is enabled. */
  lemma {:induction false} EnabledInMembers(list: seq<Value>, i: nat)
    ensures i as real in EnabledIn(list) <==> i < |list| && Enabled(list[i])
  {
    if list != [] {
      var n := |list| - 1;
      EnabledInMembers(list[..n], i);
      if i < n {
        assert list[..n][i] == list[i];
      }
    }
  }

  // ------------------------------------------------------------------
  // Ascending radar ids

  predicate Increasing(ids: seq<real>)
  {
    forall i, j :: 0 <= i < j < |ids| ==> ids[i] < ids[j]
  }

  /** The least element of a finite non-empty set of numbers. */
  lemma Inhabited(s: set<real>)
    requires s != {}
    ensures exists p :: p in s
  {
    if forall p :: p !in s {
      assert false;
    }
  }

  /** Some element of a non-empty set. */
  ghost function Pick(s: set<real>): (p: real)
    requires s != {}
    ensures p in s
  {
    Inhabited(s);
    var p :| p in s;
    p
  }

  ghost function Least(s: set<real>): (m: real)
    requires s != {}
    ensures m in s && forall x :: x in s ==> m <= x
    decreases |s|
  {
    var p := Pick(s);
    var rest := s - {p};
    if rest == {} then
      assert s == {p};
      p
    else
      var m := Least(rest);
      assert forall x :: x in s ==> x == p || x in rest;
      if p <= m then p else m
  }

  /** [...ids].sort((a, b) => a - b) for distinct ids. */
  ghost function Ascending(s: set<real>): (ids: seq<real>)
    ensures Increasing(ids) && |ids| == |s|
    ensures forall x :: x in ids <==> x in s
    decreases |s|
  {
    if s == {} then []
    else
      var m := Least(s);
      var rest := Ascending(s - {m});
      LeastThenRest(s, m, rest);
      [m] + rest
  }

  /** Putting the least element in front of the ascending rest keeps the order and the elements. */
  lemma LeastThenRest(s: set<real>, m: real, rest: seq<real>)
    requires m in s && forall x :: x in s ==> m <= x
    requires Increasing(rest) && |rest| == |s - {m}| && forall x :: x in rest <==> x in s - {m}
    ensures Increasing([m] + rest) && |[m] + rest| == |s|
    ensures forall x :: x in [m] + rest <==> x in s
  {
    forall k | 0 <= k < |rest|
      ensures m < rest[k]
    {
      assert rest[k] in rest;
    }
  }

  /** The first element of an increasing sequence is its least. */
  lemma HeadLeast(a: seq<real>, x: real)
    requires Increasing(a) && x in a
    ensures a[0] <= x
  {
    var i :| 0 <= i < |a| && a[i] == x;
  }

  /** Two increasing sequences with the same elements are the same sequence. */
  lemma {:induction false} IncreasingUnique(a: seq<real>, b: seq<real>)
    requires Increasing(a) && Increasing(b)
    requires |a| == |b| && forall x :: x in a <==> x in b
    ensures a == b
    decreases |a|
  {
    if a != [] {
      assert a[0] in a && b[0] in b;
      HeadLeast(a, b[0]);
      HeadLeast(b, a[0]);
      var a', b' := a[1..], b[1..];
      forall x
        ensures x in a' <==> x in b'
      {
        if x in a' {
          var i :| 0 <= i < |a'| && a'[i] == x;
          assert a[i + 1] == x && x in a;
        }
        if x in b' {
          var i :| 0 <= i < |b'| && b'[i] == x;
          assert b[i + 1] == x && x in b;
        }
      }
      IncreasingUnique(a', b');
      assert a == [a[0]] + a' && b == [b[0]] + b';
    }
  }

  // ------------------------------------------------------------------
  // The buffer's state

  /**
   * #latestByRadarId, #bufferByRadarId, #radarsSeenEver,
   * #lastTickMeasTsByRadarId and #stuckTicks.
   */
  datatype Buf = Buf(latest: map<real, Entry>, buffers: map<real, seq<Entry>>, seen: set<real>,
                     lastTick: map<real, real>, stuckTicks: nat)

  const Empty := Buf(map[], map[], {}, map[], 0)

  function BufferOf(b: Buf, id: real): seq<Entry>
  {
    if id in b.buffers then b.buffers[id] else []
  }

  // ------------------------------------------------------------------
  // Ingest

  /** buf.filter(e => Number(e.measTs) >= cutoff) */
  function Recent(buf: seq<Entry>, cutoff: real): (r: seq<Entry>)
    ensures |r| <= |buf|
    ensures forall k :: 0 <= k < |r| ==> r[k].measTs >= cutoff
  {
    if buf == [] then []
    else
      var n := |buf| - 1;
      Recent(buf[..n], cutoff) + if buf[n].measTs >= cutoff then [buf[n]] else []
  }

  /** A frame survives the filter exactly when it is in the buffer and not older than the cutoff. */
  lemma {:induction false} RecentMembers(buf: seq<Entry>, cutoff: real, e: Entry)
    ensures e in Recent(buf, cutoff) <==> e in buf && e.measTs >= cutoff
  {
    if buf != [] {
      var n := |buf| - 1;
      RecentMembers(buf[..n], cutoff, e);
      assert buf == buf[..n] + [buf[n]];
    }
  }

  /** Filtering twice with the same cutoff is filtering once. */
  lemma RecentIdempotent(buf: seq<Entry>, cutoff: real)
    ensures Recent(Recent(buf, cutoff), cutoff) == Recent(buf, cutoff)
  {
    RecentAll(Recent(buf, cutoff), cutoff);
  }

  /** keep.slice(keep.length - maxFrames) when maxFrames is positive and exceeded. */
  function Newest(s: seq<Entry>, maxFrames: nat): seq<Entry>
  {
    if maxFrames > 0 && |s| > maxFrames then s[|s| - maxFrames..] else s
  }

  /** The newest frames are a suffix: min(|s|, maxFrames) of them, or all when maxFrames is 0. */
  lemma NewestSuffix(s: seq<Entry>, maxFrames: nat)
    ensures var r := Newest(s, maxFrames);
      && |r| <= |s| && r == s[|s| - |r|..]
      && (maxFrames > 0 ==> |r| == Min(|s|, maxFrames))
      && (maxFrames == 0 ==> r == s)
  {
  }

  /**
   * The frames a radar keeps once a new frame arrives: those inside the
   * window, at most maxFrames of them, newest last.
   */
  function Kept(buf: seq<Entry>, entry: Entry, cutoff: real, maxFrames: nat): seq<Entry>
  {
    Newest(Recent(buf + [entry], cutoff), maxFrames)
  }

  /**
   * The kept frames are all inside the window and at most maxFrames; the new
   * frame is the newest of them when it is inside the window, and absent
   * when it is not.
   */
  lemma KeptWindow(buf: seq<Entry>, entry: Entry, cutoff: real, maxFrames: nat)
    ensures var r := Kept(buf, entry, cutoff, maxFrames);
      && (forall k :: 0 <= k < |r| ==> r[k].measTs >= cutoff)
      && (maxFrames > 0 ==> |r| <= maxFrames)
      && (entry.measTs >= cutoff ==> r != [] && r[|r| - 1] == entry)
      && (entry.measTs < cutoff ==> entry !in r)
  {
    var all := buf + [entry];
    var recent := Recent(all, cutoff);
    assert all[..|all| - 1] == buf;
    RecentMembers(all, cutoff, entry);
    NewestSuffix(recent, maxFrames);
    var r := Newest(recent, maxFrames);
    assert forall k :: 0 <= k < |r| ==> r[k] == recent[|recent| - |r| + k];
    if entry.measTs >= cutoff {
      KeptEndsWithEntry(buf, entry, cutoff, maxFrames);
    }
  }

  /** A frame inside the window is the last of the kept frames. */
  lemma KeptEndsWithEntry(buf: seq<Entry>, entry: Entry, cutoff: real, maxFrames: nat)
    requires entry.measTs >= cutoff
    ensures var r := Kept(buf, entry, cutoff, maxFrames);
      r != [] && r[|r| - 1] == entry
  {
    var all := buf + [entry];
    assert all[..|all| - 1] == buf;
    var recent := Recent(all, cutoff);
    assert recent == Recent(buf, cutoff) + [entry];
    NewestSuffix(recent, maxFrames);
  }

  /** ingestEntry(radarId, entry, now) */
  function IngestSpec(b: Buf, s: Settings, rid: Num, entry: Entry, now: real): (r: Buf)
    ensures !rid.Fin? ==> r == b
    ensures rid.Fin? ==> r.latest == b.latest[rid.v := entry] && r.seen == b.seen + {rid.v}
    ensures r.lastTick == b.lastTick && r.stuckTicks == b.stuckTicks
  {
    if !rid.Fin? then b
    else
      var id := rid.v;
      var keep := Kept(BufferOf(b, id), entry, now - s.windowMs as real, s.maxFrames);
      b.(buffers := b.buffers[id := keep], latest := b.latest[id := entry], seen := b.seen + {id})
  }

  /**
   * Ingesting a frame replaces the radar's buffer by the kept frames, makes
   * the frame the radar's latest (whether it was kept or not) and the radar
   * seen; other radars keep their buffers.
   */
  lemma IngestEffect(b: Buf, s: Settings, id: real, entry: Entry, now: real)
    ensures var b' := IngestSpec(b, s, Fin(id), entry, now);
      && BufferOf(b', id) == Kept(BufferOf(b, id), entry, now - s.windowMs as real, s.maxFrames)
      && b'.latest == b.latest[id := entry] && b'.seen == b.seen + {id}
      && b'.lastTick == b.lastTick && b'.stuckTicks == b.stuckTicks
      && forall other :: other != id ==> BufferOf(b', other) == BufferOf(b, other)
  {
    var keep := Kept(BufferOf(b, id), entry, now - s.windowMs as real, s.maxFrames);
    var b' := IngestSpec(b, s, Fin(id), entry, now);
    assert b' == b.(buffers := b.buffers[id := keep], latest := b.latest[id := entry], seen := b.seen + {id});
  }

  /** getLatestMeasTs(radarId): the latest frame's measurement time, 0 when there is none. */
  function LatestMeasTs(b: Buf, rid: Num): (ts: real)
    ensures !rid.Fin? || rid.v !in b.latest ==> ts == 0.0
  {
    if !rid.Fin? || rid.v !in b.latest then 0.0 else b.latest[rid.v].measTs
  }

  /** The latest measurement time is the last ingested frame's, filtered out or not. */
  lemma LatestAfterIngest(b: Buf, s: Settings, rid: Num, entry: Entry, now: real)
    requires rid.Fin?
    ensures LatestMeasTs(IngestSpec(b, s, rid, entry, now), rid) == entry.measTs
  {
  }

  // ------------------------------------------------------------------
  // Choosing a radar's frame at the sample time

  /** The position of the newest frame measured at or before t, if any. */
  function LastAtOrBefore(buf: seq<Entry>, t: real): (r: Option<nat>)
    ensures r.Some? ==> r.value < |buf| && buf[r.value].measTs <= t
                        && forall j :: r.value < j < |buf| ==> buf[j].measTs > t
    ensures r.None? ==> forall j :: 0 <= j < |buf| ==> buf[j].measTs > t
  {
    if buf == [] then None
    else if buf[|buf| - 1].measTs <= t then Some(|buf| - 1)
    else LastAtOrBefore(buf[..|buf| - 1], t)
  }

  /** #selectRadarEntry(radarId, sampleTs): the newest frame not after t, else the newest frame. */
  function Select(buf: seq<Entry>, t: real): (r: Option<Entry>)
    ensures r.None? <==> buf == []
    ensures r.Some? ==> r.value in buf
    ensures (exists k :: 0 <= k < |buf| && buf[k].measTs <= t) ==> r.Some? && r.value.measTs <= t
    ensures (exists k :: 0 <= k < |buf| && buf[k].measTs <= t) ==>
      exists i :: 0 <= i < |buf| && r == Some(buf[i]) && buf[i].measTs <= t
        && forall j :: i < j < |buf| ==> buf[j].measTs > t
    ensures buf != [] && (forall k :: 0 <= k < |buf| ==> buf[k].measTs > t) ==> r == Some(buf[|buf| - 1])
  {
    if buf == [] then None
    else match LastAtOrBefore(buf, t)
      case Some(i) => Some(buf[i])
      case None => Some(buf[|buf| - 1])
  }

  /** The backward scan of #selectRadarEntry. */
  method SelectEntry(buf: seq<Entry>, t: real) returns (r: Option<Entry>)
    ensures r == Select(buf, t)
  {
    if buf == [] {
      return None;
    }
    var i := |buf|;
    while i > 0
      invariant 0 <= i <= |buf|
      invariant forall j :: i <= j < |buf| ==> buf[j].measTs > t
    {
      i := i - 1;
      if buf[i].measTs <= t {
        return Some(buf[i]);
      }
    }
    return Some(buf[|buf| - 1]);
  }

  // ------------------------------------------------------------------
  // Cleanup

  /** Each buffer filtered to the frames not older than the cutoff; emptied buffers are deleted. */
  function Pruned(buffers: map<real, seq<Entry>>, cutoff: real): map<real, seq<Entry>>
  {
    map id | id in buffers && Recent(buffers[id], cutoff) != [] :: Recent(buffers[id], cutoff)
  }

  /** The buffers with those outside todo already filtered (and deleted when emptied). */
  function PrunedExcept(m: map<real, seq<Entry>>, cutoff: real, todo: set<real>): map<real, seq<Entry>>
  {
    map id | id in m && (id in todo || Recent(m[id], cutoff) != []) :: if id in todo then m[id] else Recent(m[id], cutoff)
  }

  /** cleanup(now): ttl = 2 * window; nothing happens unless it is positive. */
  function CleanupSpec(b: Buf, s: Settings, now: real): (r: Buf)
    ensures r.latest == b.latest && r.seen == b.seen && r.lastTick == b.lastTick
    ensures s.windowMs > 0 ==> forall id :: id in r.buffers ==> r.buffers[id] != [] && id in b.buffers
  {
    if s.windowMs * 2 <= 0 then b
    else b.(buffers := Pruned(b.buffers, now - (s.windowMs * 2) as real))
  }

  /**
   * After cleanup with a positive window no buffer is empty and every frame
   * is at most twice the window old; latest frames, seen radars and tick
   * times are untouched.
   */
  lemma CleanupBounds(b: Buf, s: Settings, now: real)
    requires s.windowMs > 0
    ensures var c := CleanupSpec(b, s, now);
      && (forall id :: id in c.buffers ==> c.buffers[id] != [] && id in b.buffers)
      && (forall id, k :: id in c.buffers && 0 <= k < |c.buffers[id]| ==>
            c.buffers[id][k].measTs >= now - (2 * s.windowMs) as real)
      && c.latest == b.latest && c.seen == b.seen && c.lastTick == b.lastTick
  {
  }

  /** Cleaning up twice at the same time is cleaning up once. */
  lemma CleanupIdempotent(b: Buf, s: Settings, now: real)
    ensures CleanupSpec(CleanupSpec(b, s, now), s, now) == CleanupSpec(b, s, now)
  {
    if s.windowMs > 0 {
      var cutoff := now - (s.windowMs * 2) as real;
      var p := Pruned(b.buffers, cutoff);
      forall id | id in p
        ensures Recent(p[id], cutoff) == p[id]
      {
        RecentIdempotent(b.buffers[id], cutoff);
      }
      assert Pruned(p, cutoff) == p;
    }
  }

  /** A radar's buffer right after an ingest survives a cleanup at the same time unchanged. */
  lemma CleanupKeepsJustIngested(b: Buf, s: Settings, id: real, entry: Entry, now: real)
    requires s.windowMs > 0
    requires entry.measTs >= now - s.windowMs as real
    ensures var b' := IngestSpec(b, s, Fin(id), entry, now);
      BufferOf(CleanupSpec(b', s, now), id) == BufferOf(b', id)
  {
    var b' := IngestSpec(b, s, Fin(id), entry, now);
    IngestEffect(b, s, id, entry, now);
    KeptWindow(BufferOf(b, id), entry, now - s.windowMs as real, s.maxFrames);
    CleanupKeepsRecent(b', s, now, id);
  }

  /** A non-empty buffer whose frames are all inside the window survives cleanup unchanged. */
  lemma CleanupKeepsRecent(b: Buf, s: Settings, now: real, id: real)
    requires s.windowMs > 0 && BufferOf(b, id) != []
    requires forall k :: 0 <= k < |BufferOf(b, id)| ==> BufferOf(b, id)[k].measTs >= now - s.windowMs as real
    ensures BufferOf(CleanupSpec(b, s, now), id) == BufferOf(b, id)
  {
    var cutoff := now - (s.windowMs * 2) as real;
    RecentAll(b.buffers[id], cutoff);
  }

  /** Frames all at or after the cutoff pass the filter unchanged. */
  lemma {:induction false} RecentAll(buf: seq<Entry>, cutoff: real)
    requires forall k :: 0 <= k < |buf| ==> buf[k].measTs >= cutoff
    ensures Recent(buf, cutoff) == buf
  {
    if buf != [] {
      var n := |buf| - 1;
      RecentAll(buf[..n], cutoff);
      assert buf == buf[..n] + [buf[n]];
    }
  }

  // ------------------------------------------------------------------
  // The snapshot: which radars, at what sample time

  /** The radars a snapshot covers, ascending: the expected ones, or every radar with a latest frame when none is expected. */
  ghost function SnapshotIds(b: Buf, expected: set<real>): seq<real>
  {
    Ascending(if |expected| > 0 then expected else b.latest.Keys)
  }

  /** The least positive latest measurement time among the radars ids, if any. */
  function MinLatest(ids: seq<real>, latest: map<real, Entry>): Option<real>
  {
    if ids == [] then None
    else
      var n := |ids| - 1;
      var m := MinLatest(ids[..n], latest);
      var id := ids[n];
      if id !in latest || latest[id].measTs <= 0.0 then m
      else match m
        case None => Some(latest[id].measTs)
        case Some(v) => Some(if latest[id].measTs < v then latest[id].measTs else v)
  }

  /** The radar at k has a latest frame with a positive measurement time. */
  predicate HasPositiveLatest(ids: seq<real>, latest: map<real, Entry>, k: int)
  {
    0 <= k < |ids| && ids[k] in latest && latest[ids[k]].measTs > 0.0
  }

  /**
   * MinLatest is the least positive latest measurement time: it is one of
   * them, no other is smaller, and there is none exactly when it is absent.
   */
  lemma {:induction false} MinLatestLeast(ids: seq<real>, latest: map<real, Entry>)
    ensures var m := MinLatest(ids, latest);
      && (m.Some? ==> exists k :: HasPositiveLatest(ids, latest, k) && latest[ids[k]].measTs == m.value)
      && (m.Some? ==> forall k :: HasPositiveLatest(ids, latest, k) ==> m.value <= latest[ids[k]].measTs)
      && (m.None? ==> forall k :: !HasPositiveLatest(ids, latest, k))
  {
    if ids != [] {
      var n := |ids| - 1;
      var pre := ids[..n];
      MinLatestLeast(pre, latest);
      assert forall k :: 0 <= k < n ==> pre[k] == ids[k];
      assert forall k :: HasPositiveLatest(pre, latest, k) <==> k < n && HasPositiveLatest(ids, latest, k);
    }
  }

  /**
   * The sample time: now - jitterDelay, or with waitForAll the least latest
   * measurement time of the covered radars, but no further back than the
   * wait timeout.
   */
  function SampleTs(s: Settings, ids: seq<real>, latest: map<real, Entry>, now: real): real
  {
    var base := now - s.jitterDelayMs as real;
    if !s.waitForAll then base
    else match MinLatest(ids, latest)
      case None => base
      case Some(m) =>
        var back := now - s.waitTimeoutMs as real;
        if m > back then m else back
  }

  /**
   * With waitForAll and some radar reporting, the sample time is never
   * further back than the timeout, the slowest radar's latest frame is not
   * after it, and unless the timeout holds it back no radar's latest frame is
   * before it. With no radar reporting the jitter delay alone decides.
   */
  lemma WaitForAllSample(s: Settings, ids: seq<real>, latest: map<real, Entry>, now: real)
    requires s.waitForAll
    ensures var t := SampleTs(s, ids, latest, now);
      (exists k :: HasPositiveLatest(ids, latest, k)) ==>
        && t >= now - s.waitTimeoutMs as real
        && (exists k :: HasPositiveLatest(ids, latest, k) && latest[ids[k]].measTs <= t)
        && (t == now - s.waitTimeoutMs as real
            || forall k :: HasPositiveLatest(ids, latest, k) ==> t <= latest[ids[k]].measTs)
    ensures (forall k :: !HasPositiveLatest(ids, latest, k)) ==> SampleTs(s, ids, latest, now) == now - s.jitterDelayMs as real
  {
    MinLatestLeast(ids, latest);
  }

  // ------------------------------------------------------------------
  // Per radar rows

  datatype Status = Fresh | Stale | Missing

  /** One entry of the snapshot's radars list. */
  datatype Row = Row(radarId: real, status: Status, included: bool, advanced: bool, measTs: Option<real>,
                     recvTs: Option<real>, ageMs: Option<real>, recvLagMs: Option<real>, detectionCount: int)

  /** Older than the missing timeout: missing; else older than the stale limit: stale; else fresh. */
  function StatusOf(s: Settings, age: real): (st: Status)
    ensures st == Missing <==> age > s.missingTimeoutMs as real
    ensures st == Stale <==> s.staleMaxMs as real < age <= s.missingTimeoutMs as real
    ensures st == Fresh <==> age <= s.staleMaxMs as real && age <= s.missingTimeoutMs as real
  {
    if age > s.missingTimeoutMs as real then Missing
    else if age > s.staleMaxMs as real then Stale
    else Fresh
  }

  /** The measurement time a radar had at the previous tick; 0 when it had none. */
  function Tick(lastTick: map<real, real>, id: real): real
  {
    if id in lastTick then lastTick[id] else 0.0
  }

  /** The row of one radar, given the frame chosen for it (none when its buffer is empty). */
  function RowOf(s: Settings, now: real, lastTick: map<real, real>, id: real, pick: Option<Entry>): (r: Row)
    ensures r.radarId == id
    ensures r.included <==> r.status == Fresh
    ensures pick.None? ==> r.status == Missing && !r.advanced && r.measTs.None? && r.detectionCount == 0
    ensures pick.Some? ==> r.measTs == Some(pick.value.measTs) && r.ageMs.Some? && r.ageMs.value >= 0.0
  {
    match pick
    case None => Row(id, Missing, false, false, None, None, None, None, 0)
    case Some(e) =>
      var age := if now - e.measTs > 0.0 then now - e.measTs else 0.0;
      var lag := if e.recvTs != 0.0 && e.measTs != 0.0 && e.recvTs - e.measTs > 0.0 then e.recvTs - e.measTs else 0.0;
      var st := StatusOf(s, age);
      Row(id, st, st == Fresh, e.measTs > Tick(lastTick, id), Some(e.measTs),
          if e.recvTs != 0.0 then Some(e.recvTs) else None, Some(age), Some(lag), e.detectionCount)
  }

  /** The frame chosen for each radar at the sample time. */
  function Picks(b: Buf, ids: seq<real>, t: real): (ps: seq<Option<Entry>>)
    ensures |ps| == |ids|
  {
    seq(|ids|, k requires 0 <= k < |ids| => Select(BufferOf(b, ids[k]), t))
  }

  function Rows(s: Settings, now: real, lastTick: map<real, real>, ids: seq<real>, ps: seq<Option<Entry>>): (rows: seq<Row>)
    requires |ps| == |ids|
    ensures |rows| == |ids|
  {
    seq(|ids|, k requires 0 <= k < |ids| => RowOf(s, now, lastTick, ids[k], ps[k]))
  }

  // ------------------------------------------------------------------
  // The counters of one snapshot

  datatype Tally = Tally(freshCount: nat, staleCount: nat, missingCount: nat, withDetections: nat, measIn: int,
                         maxAge: real, minAge: Option<real>, maxLag: real, advanced: nat,
                         observations: seq<Obs>)

  const NoTally := Tally(0, 0, 0, 0, 0, 0.0, None, 0.0, 0, [])

  function MeasurementsOf(pick: Option<Entry>): seq<Obs>
  {
    if pick.Some? then pick.value.measurements else []
  }

  /** One radar's contribution: every radar counts by status and advance; only included ones add ages, detections and measurements. */
  function Add(t: Tally, r: Row, ms: seq<Obs>): Tally
  {
    var t1 := t.(advanced := t.advanced + if r.advanced then 1 else 0);
    match r.status
    case Missing => t1.(missingCount := t1.missingCount + 1)
    case Stale => t1.(staleCount := t1.staleCount + 1)
    case Fresh =>
      var age := if r.ageMs.Some? then r.ageMs.value else 0.0;
      var lag := if r.recvLagMs.Some? then r.recvLagMs.value else 0.0;
      t1.(freshCount := t1.freshCount + 1,
          maxAge := if age > t1.maxAge then age else t1.maxAge,
          minAge := Some(if t1.minAge.Some? && t1.minAge.value < age then t1.minAge.value else age),
          maxLag := if lag > t1.maxLag then lag else t1.maxLag,
          withDetections := t1.withDetections + if r.detectionCount > 0 then 1 else 0,
          measIn := t1.measIn + r.detectionCount,
          observations := t1.observations + ms)
  }

  function TallyOf(rows: seq<Row>, ps: seq<Option<Entry>>): Tally
    requires |rows| == |ps|
  {
    if rows == [] then NoTally
    else
      var n := |rows| - 1;
      Add(TallyOf(rows[..n], ps[..n]), rows[n], MeasurementsOf(ps[n]))
  }

  /** Every radar is counted exactly once as fresh, stale or missing, and at most once as advanced. */
  lemma {:induction false} TallyCounts(rows: seq<Row>, ps: seq<Option<Entry>>)
    requires |rows| == |ps|
    ensures var t := TallyOf(rows, ps);
      t.freshCount + t.staleCount + t.missingCount == |rows| && t.advanced <= |rows|
  {
    if rows != [] {
      TallyCounts(rows[..|rows| - 1], ps[..|rows| - 1]);
    }
  }

  /** No radar advanced exactly when the advanced count is zero. */
  lemma {:induction false} NoneAdvanced(rows: seq<Row>, ps: seq<Option<Entry>>)
    requires |rows| == |ps|
    ensures TallyOf(rows, ps).advanced == 0 <==> forall k :: 0 <= k < |rows| ==> !rows[k].advanced
  {
    if rows != [] {
      var n := |rows| - 1;
      NoneAdvanced(rows[..n], ps[..n]);
      assert forall k :: 0 <= k < n ==> rows[..n][k] == rows[k];
    }
  }

  /** A fresh row has an age within the stale limit. */
  predicate FreshAgeBounded(s: Settings, r: Row)
  {
    r.status == Fresh ==> r.ageMs.Some? && 0.0 <= r.ageMs.value <= s.staleMaxMs as real
  }

  /** Every row a snapshot makes keeps fresh ages within the stale limit. */
  lemma RowsFreshAgeBounded(s: Settings, now: real, lastTick: map<real, real>, ids: seq<real>, ps: seq<Option<Entry>>)
    requires |ps| == |ids|
    ensures forall k :: 0 <= k < |ids| ==> FreshAgeBounded(s, Rows(s, now, lastTick, ids, ps)[k])
  {
  }

  /**
   * The age counters cover only included radars: the largest is within the
   * stale limit, and the smallest, present once any radar is fresh, is
   * between 0 and the largest.
   */
  lemma {:induction false} TallyAges(s: Settings, rows: seq<Row>, ps: seq<Option<Entry>>)
    requires |rows| == |ps|
    requires forall k :: 0 <= k < |rows| ==> FreshAgeBounded(s, rows[k])
    ensures var t := TallyOf(rows, ps);
      && 0.0 <= t.maxAge <= s.staleMaxMs as real
      && (t.minAge.Some? <==> t.freshCount > 0)
      && (t.minAge.Some? ==> 0.0 <= t.minAge.value <= t.maxAge)
  {
    if rows != [] {
      var n := |rows| - 1;
      assert forall k :: 0 <= k < n ==> rows[..n][k] == rows[k];
      TallyAges(s, rows[..n], ps[..n]);
      assert FreshAgeBounded(s, rows[n]);
    }
  }

  /** Without a fresh radar the snapshot has no observations and no detections. */
  lemma {:induction false} NoFreshNoObservations(rows: seq<Row>, ps: seq<Option<Entry>>)
    requires |rows| == |ps|
    requires forall k :: 0 <= k < |rows| ==> rows[k].status != Fresh
    ensures TallyOf(rows, ps).observations == [] && TallyOf(rows, ps).measIn == 0
    ensures TallyOf(rows, ps).freshCount == 0
  {
    if rows != [] {
      var n := |rows| - 1;
      assert forall k :: 0 <= k < n ==> rows[..n][k] == rows[k];
      NoFreshNoObservations(rows[..n], ps[..n]);
    }
  }

  // ------------------------------------------------------------------
  // Tick times

  /** The measurement time selected for a row: 0 when the radar had no frame. */
  function SelectedTs(r: Row): real
  {
    if r.measTs.Some? then r.measTs.value else 0.0
  }

  /** Each radar's previous-tick time rises to its selected measurement time when that is later. */
  function AdvanceTicks(lastTick: map<real, real>, rows: seq<Row>): map<real, real>
  {
    if rows == [] then lastTick
    else
      var n := |rows| - 1;
      var m := AdvanceTicks(lastTick, rows[..n]);
      var r := rows[n];
      if SelectedTs(r) > Tick(m, r.radarId) then m[r.radarId := SelectedTs(r)] else m
  }

  /** A radar's previous-tick time never decreases. */
  lemma {:induction false} TicksNeverDecrease(lastTick: map<real, real>, rows: seq<Row>, id: real)
    ensures Tick(AdvanceTicks(lastTick, rows), id) >= Tick(lastTick, id)
  {
    if rows != [] {
      TicksNeverDecrease(lastTick, rows[..|rows| - 1], id);
    }
  }

  predicate DistinctRadars(rows: seq<Row>)
  {
    forall i, j :: 0 <= i < j < |rows| ==> rows[i].radarId != rows[j].radarId
  }

  /** With one row per radar, a covered radar's new tick time is the larger of its old one and its selected time; other radars keep theirs. */
  lemma {:induction false} TickOfRow(lastTick: map<real, real>, rows: seq<Row>, id: real)
    requires DistinctRadars(rows)
    ensures forall k :: 0 <= k < |rows| && rows[k].radarId == id ==>
      Tick(AdvanceTicks(lastTick, rows), id) == if SelectedTs(rows[k]) > Tick(lastTick, id) then SelectedTs(rows[k]) else Tick(lastTick, id)
    ensures (forall k :: 0 <= k < |rows| ==> rows[k].radarId != id) ==> Tick(AdvanceTicks(lastTick, rows), id) == Tick(lastTick, id)
  {
    if rows != [] {
      var n := |rows| - 1;
      assert forall k :: 0 <= k < n ==> rows[..n][k] == rows[k];
      TickOfRow(lastTick, rows[..n], id);
    }
  }

  predicate TicksNonNegative(lastTick: map<real, real>)
  {
    forall id :: id in lastTick ==> lastTick[id] >= 0.0
  }

  /**
   * A radar advanced this tick exactly when its previous-tick time moves:
   * advanced is measTs > the time it had at the previous tick.
   */
  lemma AdvancedIffTickMoves(s: Settings, now: real, lastTick: map<real, real>, ids: seq<real>,
                             ps: seq<Option<Entry>>, k: nat)
    requires Increasing(ids) && |ps| == |ids| && k < |ids| && TicksNonNegative(lastTick)
    ensures var rows := Rows(s, now, lastTick, ids, ps);
      rows[k].advanced <==> Tick(AdvanceTicks(lastTick, rows), ids[k]) > Tick(lastTick, ids[k])
  {
    var rows := Rows(s, now, lastTick, ids, ps);
    assert DistinctRadars(rows);
    TickOfRow(lastTick, rows, ids[k]);
    assert Tick(lastTick, ids[k]) >= 0.0;
  }

  // ------------------------------------------------------------------
  // The snapshot key and the stuck counter

  /** `${radarId}:${Math.floor(measTs)}` for a positive selected time, else `${radarId}:na`. */
  function KeyPart(r: Row): string
  {
    NumToString(Fin(r.radarId)) + ":" +
      if r.measTs.Some? && r.measTs.value > 0.0 then NatToString(r.measTs.value.Floor) else "na"
  }

  function KeyParts(rows: seq<Row>): seq<string>
  {
    seq(|rows|, k requires 0 <= k < |rows| => KeyPart(rows[k]))
  }

  /** The parts joined with '|'. */
  function SnapshotKey(rows: seq<Row>): string
  {
    Join(KeyParts(rows), "|")
  }

  lemma NoBarInDigits(s: string)
    requires AllDigits(s)
    ensures '|' !in s
  {
  }

  lemma NoBarInInt(i: int)
    ensures '|' !in IntToString(i)
  {
    if i < 0 {
      NoBarInDigits(NatToString(-i));
      assert IntToString(i) == "-" + NatToString(-i);
    } else {
      NoBarInDigits(NatToString(i));
    }
  }

  /** Splitting the snapshot key at '|' gives back one part per covered radar, in order. */
  lemma SnapshotKeyFields(rows: seq<Row>)
    requires rows != []
    requires forall k :: 0 <= k < |rows| ==> rows[k].radarId == rows[k].radarId.Floor as real
    ensures Split(SnapshotKey(rows), '|') == KeyParts(rows)
  {
    var parts := KeyParts(rows);
    forall i | 0 <= i < |parts|
      ensures '|' !in parts[i]
    {
      NoBarInInt(rows[i].radarId.Floor);
      if rows[i].measTs.Some? && rows[i].measTs.value > 0.0 {
        NoBarInDigits(NatToString(rows[i].measTs.value.Floor));
      }
    }
    SplitJoin(parts, '|');
  }

  /** #stuckTicks: one more when radars are expected and none advanced, else 0. */
  function StuckAfter(stuckTicks: nat, expectedCount: nat, advanced: nat): nat
  {
    if expectedCount > 0 && advanced == 0 then stuckTicks + 1 else 0
  }

  /** The stuck counter resets exactly when no radar is expected or some radar advanced. */
  lemma StuckResets(stuckTicks: nat, expectedCount: nat, rows: seq<Row>, ps: seq<Option<Entry>>)
    requires |rows| == |ps|
    ensures StuckAfter(stuckTicks, expectedCount, TallyOf(rows, ps).advanced) == 0 <==>
      expectedCount == 0 || exists k :: 0 <= k < |rows| && rows[k].advanced
    ensures StuckAfter(stuckTicks, expectedCount, TallyOf(rows, ps).advanced) != 0 ==>
      StuckAfter(stuckTicks, expectedCount, TallyOf(rows, ps).advanced) == stuckTicks + 1
  {
    NoneAdvanced(rows, ps);
  }

  // ------------------------------------------------------------------
  // A whole snapshot

  /** The snapshot's meta block (the tick interval, limits, counters and the stuck flag). */
  datatype Meta = Meta(tickIntervalMs: nat, staleMeasMaxMs: nat, radarMissingTimeoutMs: nat, jitterDelayMs: nat,
                       sampleTs: real, snapshotKey: string, waitForAll: bool, waitForAllTimeoutMs: Option<nat>,
                       radarsExpected: Option<nat>, radarsSeenTotal: nat,
                       radarsFresh: nat, radarsStale: nat, radarsMissing: nat,
                       framesFreshUsed: nat, framesFreshWithDetections: nat, measIn: int,
                       maxRadarAgeMs: real, minRadarAgeMs: real, maxRecvLagMs: real,
                       snapshotsAdvancedThisTick: bool, radarsAdvancedCount: nat, stuckTicks: nat, stuck: bool)

  /** makeSnapshot's result: the fresh radars' measurements, one row per covered radar, and the meta block. */
  datatype Snapshot = Snapshot(observations: seq<Obs>, radars: seq<Row>, meta: Meta)

  function MetaOf(s: Settings, expectedCount: nat, seenTotal: nat, sampleTs: real, rows: seq<Row>,
                  t: Tally, stuckTicks: nat): Meta
  {
    Meta(s.updateIntervalMs, s.staleMaxMs, s.missingTimeoutMs, s.jitterDelayMs,
         sampleTs, SnapshotKey(rows), s.waitForAll, if s.waitForAll then Some(s.waitTimeoutMs) else None,
         if expectedCount > 0 then Some(expectedCount) else None, seenTotal,
         t.freshCount, t.staleCount, t.missingCount, t.freshCount, t.withDetections, t.measIn,
         t.maxAge, if t.minAge.Some? then t.minAge.value else 0.0, t.maxLag,
         t.advanced > 0, t.advanced, stuckTicks, stuckTicks as real >= s.stuckWarn)
  }

  /** What one snapshot looks at: the covered radars, the sample time, the chosen frames and the rows. */
  datatype Pass = Pass(ids: seq<real>, sampleTs: real, picks: seq<Option<Entry>>, rows: seq<Row>)

  ghost function PassOf(b: Buf, s: Settings, expected: set<real>, now: real): (p: Pass)
    ensures |p.picks| == |p.rows| == |p.ids|
  {
    var ids := SnapshotIds(b, expected);
    var t := SampleTs(s, ids, b.latest, now);
    var ps := Picks(b, ids, t);
    Pass(ids, t, ps, Rows(s, now, b.lastTick, ids, ps))
  }

  /** makeSnapshot(now): the snapshot returned. */
  ghost function SnapshotOf(b: Buf, s: Settings, expected: set<real>, now: real): Snapshot
  {
    var p := PassOf(b, s, expected, now);
    var t := TallyOf(p.rows, p.picks);
    var stuck := StuckAfter(b.stuckTicks, |expected|, t.advanced);
    Snapshot(t.observations, p.rows, MetaOf(s, |expected|, |b.seen|, p.sampleTs, p.rows, t, stuck))
  }

  /** makeSnapshot(now): the buffer's new state (tick times and the stuck counter). */
  ghost function AfterSnapshot(b: Buf, s: Settings, expected: set<real>, now: real): Buf
  {
    var p := PassOf(b, s, expected, now);
    var t := TallyOf(p.rows, p.picks);
    b.(lastTick := AdvanceTicks(b.lastTick, p.rows), stuckTicks := StuckAfter(b.stuckTicks, |expected|, t.advanced))
  }

  /**
   * Every snapshot covers each radar once, in ascending order, and counts
   * each as exactly one of fresh, stale or missing.
   */
  lemma SnapshotCoversRadars(b: Buf, s: Settings, expected: set<real>, now: real)
    ensures var snap := SnapshotOf(b, s, expected, now);
      && |snap.radars| == (if |expected| > 0 then |expected| else |b.latest|)
      && (forall i, j :: 0 <= i < j < |snap.radars| ==> snap.radars[i].radarId < snap.radars[j].radarId)
      && snap.meta.radarsFresh + snap.meta.radarsStale + snap.meta.radarsMissing == |snap.radars|
  {
    var p := PassOf(b, s, expected, now);
    PassRowsAscending(b, s, expected, now);
    TallyCounts(p.rows, p.picks);
    assert SnapshotOf(b, s, expected, now).radars == p.rows;
  }

  /** A pass has one row per covered radar, in ascending radar order. */
  lemma PassRowsAscending(b: Buf, s: Settings, expected: set<real>, now: real)
    ensures var rows := PassOf(b, s, expected, now).rows;
      && |rows| == (if |expected| > 0 then |expected| else |b.latest|)
      && forall i, j :: 0 <= i < j < |rows| ==> rows[i].radarId < rows[j].radarId
  {
  }

  /** The snapshot's age statistics lie between 0 and the stale limit. */
  lemma SnapshotAgesBounded(b: Buf, s: Settings, expected: set<real>, now: real)
    ensures var m := SnapshotOf(b, s, expected, now).meta;
      0.0 <= m.minRadarAgeMs <= m.maxRadarAgeMs <= s.staleMaxMs as real
  {
    var p := PassOf(b, s, expected, now);
    RowsFreshAgeBounded(s, now, b.lastTick, p.ids, p.picks);
    TallyAges(s, p.rows, p.picks);
  }

  /** Snapshots never move a radar's previous-tick time back. */
  lemma SnapshotTicksNeverDecrease(b: Buf, s: Settings, expected: set<real>, now: real, id: real)
    ensures Tick(AfterSnapshot(b, s, expected, now).lastTick, id) >= Tick(b.lastTick, id)
  {
    TicksNeverDecrease(b.lastTick, PassOf(b, s, expected, now).rows, id);
  }

  // ------------------------------------------------------------------
  // The loops of makeSnapshot

  /** [...ids].sort((a, b) => a - b), by repeatedly taking the least remaining id. */
  method SortIds(s: set<real>) returns (ids: seq<real>)
    ensures ids == Ascending(s)
  {
    ids := [];
    var rest := s;
    while rest != {}
      invariant rest <= s
      invariant Increasing(ids) && |ids| + |rest| == |s|
      invariant forall x :: x in ids <==> x in s && x !in rest
      invariant forall i, y :: 0 <= i < |ids| && y in rest ==> ids[i] < y
      decreases |rest|
    {
      ghost var least := Least(rest);
      var x :| x in rest && forall y :: y in rest ==> x <= y;
      ids := ids + [x];
      rest := rest - {x};
    }
    IncreasingUnique(ids, Ascending(s));
  }

  /** The sample time, with the waitForAll scan for the least positive latest measurement time. */
  method SampleTime(s: Settings, ids: seq<real>, latest: map<real, Entry>, now: real) returns (t: real)
    ensures t == SampleTs(s, ids, latest, now)
  {
    t := now - s.jitterDelayMs as real;
    if s.waitForAll {
      var minLatest := 0.0;
      var haveAny := false;
      for i := 0 to |ids|
        invariant MinLatest(ids[..i], latest) == if haveAny then Some(minLatest) else None
      {
        assert ids[..i + 1][..i] == ids[..i];
        if ids[i] in latest && latest[ids[i]].measTs > 0.0 {
          var ts := latest[ids[i]].measTs;
          if !haveAny || ts < minLatest {
            minLatest := ts;
          }
          haveAny := true;
        }
      }
      assert ids[..|ids|] == ids;
      if haveAny {
        var back := now - s.waitTimeoutMs as real;
        t := if minLatest > back then minLatest else back;
      }
    }
  }

  /** The per-radar loop of makeSnapshot: choose each radar's frame, make its row, count it. */
  method Survey(b: Buf, s: Settings, ids: seq<real>, t: real, now: real) returns (rows: seq<Row>, tally: Tally)
    ensures rows == Rows(s, now, b.lastTick, ids, Picks(b, ids, t))
    ensures tally == TallyOf(rows, Picks(b, ids, t))
  {
    ghost var ps := Picks(b, ids, t);
    rows := [];
    tally := NoTally;
    for i := 0 to |ids|
      invariant rows == Rows(s, now, b.lastTick, ids[..i], ps[..i])
      invariant tally == TallyOf(rows, ps[..i])
    {
      var pick := SelectEntry(BufferOf(b, ids[i]), t);
      assert pick == ps[i];
      var row := RowOf(s, now, b.lastTick, ids[i], pick);
      RowsStep(s, now, b.lastTick, ids, ps, i);
      TallyStep(rows, row, ps, i);
      tally := Add(tally, row, MeasurementsOf(pick));
      rows := rows + [row];
    }
    assert ids[..|ids|] == ids && ps[..|ids|] == ps;
  }

  /** The rows of the first i + 1 radars are those of the first i and then radar i's row. */
  lemma RowsStep(s: Settings, now: real, lastTick: map<real, real>, ids: seq<real>, ps: seq<Option<Entry>>, i: nat)
    requires i < |ids| == |ps|
    ensures Rows(s, now, lastTick, ids[..i + 1], ps[..i + 1]) ==
      Rows(s, now, lastTick, ids[..i], ps[..i]) + [RowOf(s, now, lastTick, ids[i], ps[i])]
  {
  }

  /** Counting one more row adds it to the tally of the rows before it. */
  lemma TallyStep(rows: seq<Row>, row: Row, ps: seq<Option<Entry>>, i: nat)
    requires |rows| == i < |ps|
    ensures TallyOf(rows + [row], ps[..i + 1]) == Add(TallyOf(rows, ps[..i]), row, MeasurementsOf(ps[i]))
  {
    assert (rows + [row])[..i] == rows && ps[..i + 1][..i] == ps[..i];
  }

  /** ingest's trimming: drop frames older than the cutoff, then keep the newest maxFrames. */
  method KeepFrames(buf: seq<Entry>, entry: Entry, cutoff: real, maxFrames: nat) returns (keep: seq<Entry>)
    ensures keep == Kept(buf, entry, cutoff, maxFrames)
  {
    keep := Recent(buf + [entry], cutoff);
    if maxFrames > 0 && |keep| > maxFrames {
      keep := keep[|keep| - maxFrames..];
    }
  }

  /** The loop of cleanup: filter every buffer, deleting the ones left empty. */
  method PruneBuffers(buffers: map<real, seq<Entry>>, cutoff: real) returns (m: map<real, seq<Entry>>)
    ensures m == Pruned(buffers, cutoff)
  {
    m := buffers;
    var todo := buffers.Keys;
    while todo != {}
      invariant todo <= buffers.Keys
      invariant m == PrunedExcept(buffers, cutoff, todo)
      decreases |todo|
    {
      Inhabited(todo);
      var id :| id in todo;
      var keep := Recent(m[id], cutoff);
      if keep == [] {
        m := m - {id};
      } else {
        m := m[id := keep];
      }
      todo := todo - {id};
    }
  }

  /** The expected radars: a scan over the layout list. */
  method ExpectedIds(list: seq<Value>) returns (ids: set<real>)
    ensures ids == EnabledIn(list)
  {
    ids := {};
    for radarId := 0 to |list|
      invariant ids == EnabledIn(list[..radarId])
    {
      assert list[..radarId + 1][..radarId] == list[..radarId];
      if Get(list[radarId], "enabled") == Bool(true) {
        ids := ids + {radarId as real};
      }
    }
    assert list[..|list|] == list;
  }

  // ------------------------------------------------------------------
  // The buffer object

  class SnapshotBuffer {
    const settings: Settings
    const expected: set<real>
    var latest: map<real, Entry>
    var buffers: map<real, seq<Entry>>
    var seenEver: set<real>
    var lastTick: map<real, real>
    var stuckTicks: nat

    function State(): Buf
      reads this
    {
      Buf(latest, buffers, seenEver, lastTick, stuckTicks)
    }

    /** The settings come from the configuration; the expected radars are the enabled layout positions. */
    constructor (cfg: Value)
      ensures settings == SettingsOf(cfg) && expected == EnabledIn(LayoutList(cfg))
      ensures State() == Empty
    {
      settings := SettingsOf(cfg);
      var ids := ExpectedIds(LayoutList(cfg));
      expected := ids;
      latest := map[];
      buffers := map[];
      seenEver := {};
      lastTick := map[];
      stuckTicks := 0;
    }

    /** dispose(): every map and set is cleared and the stuck counter is 0. */
    method Dispose()
      modifies this
      ensures State() == Empty
    {
      latest := map[];
      buffers := map[];
      seenEver := {};
      lastTick := map[];
      stuckTicks := 0;
    }

    method Ingest(radarId: Value, entry: Entry, now: real)
      modifies this
      ensures State() == IngestSpec(old(State()), settings, ToNumber(radarId), entry, now)
    {
      var rid := ToNumber(radarId);
      if !rid.Fin? {
        return;
      }
      var id := rid.v;
      var keep := KeepFrames(if id in buffers then buffers[id] else [], entry,
                             now - settings.windowMs as real, settings.maxFrames);
      buffers := buffers[id := keep];
      latest := latest[id := entry];
      seenEver := seenEver + {id};
    }

    function GetLatestMeasTs(radarId: Value): (ts: real)
      reads this
      ensures ts == LatestMeasTs(State(), ToNumber(radarId))
    {
      var rid := ToNumber(radarId);
      if rid.Fin? && rid.v in latest then latest[rid.v].measTs else 0.0
    }

    method Cleanup(now: real)
      modifies this
      ensures State() == CleanupSpec(old(State()), settings, now)
    {
      var ttl := settings.windowMs * 2;
      if ttl <= 0 {
        return;
      }
      buffers := PruneBuffers(buffers, now - ttl as real);
    }

    /** The tick-time loop of makeSnapshot. */
    method AdvanceTickTimes(rows: seq<Row>)
      modifies this
      ensures lastTick == AdvanceTicks(old(lastTick), rows)
      ensures latest == old(latest) && buffers == old(buffers) && seenEver == old(seenEver)
      ensures stuckTicks == old(stuckTicks)
    {
      for i := 0 to |rows|
        invariant lastTick == AdvanceTicks(old(lastTick), rows[..i])
        invariant latest == old(latest) && buffers == old(buffers) && seenEver == old(seenEver)
        invariant stuckTicks == old(stuckTicks)
      {
        assert rows[..i + 1][..i] == rows[..i];
        var r := rows[i];
        var ts := if r.measTs.Some? then r.measTs.value else 0.0;
        var last := if r.radarId in lastTick then lastTick[r.radarId] else 0.0;
        if ts > last {
          lastTick := lastTick[r.radarId := ts];
        }
      }
      assert rows[..|rows|] == rows;
    }

    method MakeSnapshot(now: real) returns (snap: Snapshot)
      modifies this
      ensures snap == SnapshotOf(old(State()), settings, expected, now)
      ensures State() == AfterSnapshot(old(State()), settings, expected, now)
    {
      ghost var b := State();
      ghost var p := PassOf(b, settings, expected, now);
      var ids := SortIds(if |expected| > 0 then expected else latest.Keys);
      assert ids == p.ids;
      var t := SampleTime(settings, ids, latest, now);
      assert t == p.sampleTs;
      var rows, tally := Survey(State(), settings, ids, t, now);
      assert rows == p.rows;
      assert tally == TallyOf(p.rows, p.picks);
      AdvanceTickTimes(rows);
      stuckTicks := StuckAfter(stuckTicks, |expected|, tally.advanced);
      snap := Snapshot(tally.observations, rows,
                       MetaOf(settings, |expected|, |seenEver|, t, rows, tally, stuckTicks));
    }
  }
}
