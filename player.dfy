/**
 * The recording player: it loads a validated recording and replays its
 * events on a logical clock that runs at a chosen speed, sending each
 * event, once its tMs is reached, to the sink its stream is routed to.
 * Only the device sink is implemented: it injects the event's payload
 * into the device manager.
 */
module Player {
  import opened Common
  import opened Js
  import RecordingFormat

  datatype PlayState = Idle | Loaded | Playing | Paused

  /** The dispatch counters and the last dispatch error. */
  datatype Stats = Stats(dispatched: nat, injected: nat, failed: nat, lastError: Value)

  const NoStats: Stats := Stats(0, 0, 0, Null)

  /** A normalised routing: the default sink and the sink of each routed stream. */
  datatype Routing = Routing(defaultSink: string, sinksByStream: map<string, string>)

  /** What deviceManager.inject(deviceId, payload) did: returned a value, or threw one. */
  datatype Injection = Returned(out: Value) | Threw(e: Value)

  // ------------------------------------------------------------------
  // Routing

  const DeviceSink: string := "device"
  const BusSink: string := "bus"

  /**
   * The loop over Object.entries(sinksByStream): each entry whose trimmed
   * key and trimmed value are both non-blank routes that stream to that
   * sink; a later entry for the same stream replaces an earlier one.
   */
  function SinkMap(entries: seq<Prop>): (m: map<string, string>)
    ensures forall s :: s in m ==> s != [] && m[s] != []
  {
    if entries == [] then map[]
    else
      var init := entries[..|entries| - 1];
      var e := entries[|entries| - 1];
      var m := SinkMap(init);
      assert forall j :: 0 <= j < |init| ==> init[j] == entries[j];
      if Routed(e) then m[Trim(e.key) := TrimmedOrBlank(e.val)] else m
  }

  /** An entry whose trimmed stream and trimmed sink are both non-blank. */
  predicate Routed(e: Prop)
  {
    Trim(e.key) != [] && TrimmedOrBlank(e.val) != []
  }

  /** The last entry routing a stream decides its sink. */
  lemma {:induction false} LastEntryWins(entries: seq<Prop>, j: nat, key: string)
    requires j < |entries| && Routed(entries[j]) && key == Trim(entries[j].key)
    requires forall l :: j < l < |entries| ==> !Routed(entries[l]) || Trim(entries[l].key) != key
    ensures key in SinkMap(entries) && SinkMap(entries)[key] == TrimmedOrBlank(entries[j].val)
  {
    var init := entries[..|entries| - 1];
    var e := entries[|entries| - 1];
    if j < |entries| - 1 {
      assert init[j] == entries[j];
      assert forall l :: j < l < |init| ==> init[l] == entries[l];
      LastEntryWins(init, j, key);
      assert !Routed(e) || Trim(e.key) != key;
    }
  }

  /** Every entry that routes a stream leaves the stream routed, by it or by a later entry. */
  lemma {:induction false} RoutedIsMapped(entries: seq<Prop>, j: nat, key: string)
    requires j < |entries| && Routed(entries[j]) && key == Trim(entries[j].key)
    ensures key in SinkMap(entries)
  {
    var init := entries[..|entries| - 1];
    if j < |entries| - 1 {
      assert init[j] == entries[j];
      RoutedIsMapped(init, j, key);
    }
  }

  /** A routing whose sinks are all non-blank, as normalizeRouting makes them. */
  predicate NormalRouting(r: Routing)
  {
    r.defaultSink != [] && forall s :: s in r.sinksByStream ==> s != [] && r.sinksByStream[s] != []
  }

  /** normalizeRouting(routing) */
  function NormalizeRouting(routing: Value): (r: Routing)
    ensures NormalRouting(r)
    ensures !Truthy(Get(routing, "defaultSink")) ==> r.defaultSink == BusSink
  {
    var cfg := if IsPlainObject(routing) then routing else Obj([]);
    var d := DefaultSinkOf(Get(cfg, "defaultSink"));
    var sinks := Get(cfg, "sinksByStream");
    Routing(if d == [] then BusSink else d, SinkMap(if IsPlainObject(sinks) then sinks.props else []))
  }

  /** String(x || 'bus').trim(), with "bus" needing no trimming (BusTrimmed). */
  function DefaultSinkOf(x: Value): (d: string)
    ensures !Truthy(x) ==> d == BusSink
  {
    if Truthy(x) then TrimmedOrBlank(x) else BusSink
  }

  /** DefaultSinkOf is the expression normalizeRouting writes. */
  lemma DefaultSinkIsTrimmedOr(x: Value)
    ensures DefaultSinkOf(x) == TrimmedOrBlank(Or(x, Str(BusSink)))
  {
    if !Truthy(x) {
      BusTrimmed();
    }
  }

  /** The routing a new player starts with: everything to the bus sink. */
  const DefaultRouting: Routing := Routing(BusSink, map[])

  /** normalizeRouting(null) is the default routing. */
  lemma NullRouting()
    ensures NormalizeRouting(Null) == DefaultRouting
  {
    assert SinkMap([]) == map[];
  }

  /** resolveSink({ stream, routing }): the stream's own sink, else the default sink, else bus. */
  function ResolveSink(stream: string, routing: Routing): (sink: string)
    ensures stream in routing.sinksByStream ==> sink == routing.sinksByStream[stream]
    ensures stream !in routing.sinksByStream && routing.defaultSink != [] ==> sink == routing.defaultSink
    ensures stream !in routing.sinksByStream && routing.defaultSink == [] ==> sink == BusSink
  {
    if stream in routing.sinksByStream then routing.sinksByStream[stream]
    else if routing.defaultSink != [] then routing.defaultSink
    else BusSink
  }

  /** Under a normalised routing every stream resolves to a non-blank sink. */
  lemma ResolveSinkNonBlank(stream: string, routing: Value)
    ensures ResolveSink(stream, NormalizeRouting(routing)) != []
  {
  }

  /** With no routing configured every stream goes to the bus sink. */
  lemma UnroutedGoesToBus(routing: Value, stream: string)
    requires !IsPlainObject(routing)
    ensures ResolveSink(stream, NormalizeRouting(routing)) == BusSink
  {
    assert SinkMap([]) == map[];
  }

  /** The sink names are told apart by their first letter. */
  lemma SinkNamesDiffer()
    ensures DeviceSink != BusSink
  {
    assert DeviceSink[0] != BusSink[0];
  }

  /** "bus" needs no trimming. */
  lemma BusTrimmed()
    ensures Trim(BusSink) == BusSink && TrimmedOrBlank(Str(BusSink)) == BusSink
  {
    assert !IsJsSpace(BusSink[0]) && !IsJsSpace(BusSink[|BusSink| - 1]);
    TrimByNoop(BusSink, IsJsSpace);
  }

  /** String(ev?.stream || '').trim() */
  function StreamOf(ev: Value): string
  {
    TrimmedOrBlank(Get(ev, "stream"))
  }

  /** String(ev?.raw?.payload?.deviceId || '').trim() */
  function DeviceIdOf(ev: Value): string
  {
    TrimmedOrBlank(Get(Get(Get(ev, "raw"), "payload"), "deviceId"))
  }

  /** ev.tMs */
  function TimeOf(ev: Value): Num
  {
    RecordingFormat.NumField(ev, "tMs")
  }

  // ------------------------------------------------------------------
  // Dispatch

  /**
   * #dispatch(ev) and #dispatchToDevice: every event counts as dispatched
   * and as either injected or failed; only the device sink can inject.
   */
  function Dispatch(st: Stats, routing: Routing, ev: Value, inject: (string, Value) -> Injection): (r: Stats)
    ensures r.dispatched == st.dispatched + 1
    ensures (r.injected == st.injected + 1 && r.failed == st.failed && r.lastError == st.lastError)
         || (r.injected == st.injected && r.failed == st.failed + 1)
    ensures r.injected > st.injected ==> ResolveSink(StreamOf(ev), routing) == DeviceSink && DeviceIdOf(ev) != []
    ensures ResolveSink(StreamOf(ev), routing) == BusSink ==> r.failed > st.failed && r.lastError == Str("BUS_SINK_NOT_IMPLEMENTED")
  {
    SinkNamesDiffer();
    var st1 := st.(dispatched := st.dispatched + 1);
    var sink := ResolveSink(StreamOf(ev), routing);
    if sink == DeviceSink then
      var payload := Get(Get(ev, "raw"), "payload");
      var id := DeviceIdOf(ev);
      if id == [] then st1.(failed := st.failed + 1, lastError := Str("MISSING_DEVICE_ID"))
      else
        match inject(id, payload)
        case Returned(out) =>
          if Truthy(Get(out, "ok")) then st1.(injected := st.injected + 1)
          else st1.(failed := st.failed + 1, lastError := Or(Get(out, "error"), Str("INJECT_FAILED")))
        case Threw(e) =>
          st1.(failed := st.failed + 1, lastError := Or(Get(e, "code"), Str("INJECT_THROW")))
    else if sink == BusSink then st1.(failed := st.failed + 1, lastError := Str("BUS_SINK_NOT_IMPLEMENTED"))
    else st1.(failed := st.failed + 1, lastError := Str("UNKNOWN_SINK"))
  }

  // ------------------------------------------------------------------
  // The player's state

  /**
   * The player's fields. canBlock and canUnblock say whether the device
   * manager offers blockDevices and unblockDevices; timer is the delay
   * of the armed timer, if one is armed.
   */
  datatype Play = Play(
    canBlock: bool, canUnblock: bool,
    loaded: bool, events: seq<Value>,
    state: PlayState, speed: real,
    timer: Option<Num>, nextIndex: nat,
    baseReal: int, baseLogical: real,
    stats: Stats, routing: Routing,
    isolation: Option<seq<Prop>>, blockToken: Option<Value>)

  /** The events of a validated recording: times never negative or NaN, and never decreasing. */
  predicate Timed(events: seq<Value>)
  {
    forall k :: 0 <= k < |events| ==> TimedStep(events, k)
  }

  /** Event k's time is a number, and not below the time of event k - 1. */
  predicate TimedStep(events: seq<Value>, k: nat)
    requires k < |events|
  {
    RecordingFormat.NonNegative(TimeOf(events[k]))
    && (k == 0 || !NumLess(TimeOf(events[k]), TimeOf(events[k - 1])))
  }

  /** In a timed run every time is a number, and no later time is below an earlier one. */
  lemma {:induction false} TimedAt(events: seq<Value>, j: nat, k: nat)
    requires Timed(events) && j <= k < |events|
    ensures RecordingFormat.NonNegative(TimeOf(events[k]))
    ensures !NumLess(TimeOf(events[k]), TimeOf(events[j]))
    decreases k - j
  {
    assert TimedStep(events, k);
    if j < k {
      TimedAt(events, j, k - 1);
      assert TimedStep(events, k - 1);
      NumLessOrder(TimeOf(events[k - 1]), TimeOf(events[k]), TimeOf(events[j]));
    }
  }

  /** The checks recordingFormat makes on times give a timed run. */
  lemma TimedOfChecks(events: seq<Value>)
    requires forall k :: 0 <= k < |events| ==> RecordingFormat.NonNegative(TimeOf(events[k]))
    requires RecordingFormat.NonDecreasing(RecordingFormat.Times(events))
    ensures Timed(events)
  {
    var ts := RecordingFormat.Times(events);
    forall k | 0 <= k < |events|
      ensures TimedStep(events, k)
    {
      if k > 0 {
        assert !NumLess(ts[k], ts[k - 1]);
      }
    }
  }

  predicate Inv(p: Play)
  {
    p.nextIndex <= |p.events|
    && p.speed > 0.0 && p.baseLogical >= 0.0
    && p.stats.dispatched == p.stats.injected + p.stats.failed
    && (p.state == Idle <==> !p.loaded)
    && (!p.loaded ==> p.events == [] && p.nextIndex == 0)
    && (p.state != Playing ==> p.timer.None?)
    && NormalRouting(p.routing)
    && Timed(p.events)
  }

  /** The constructor's state. */
  function Initial(canBlock: bool, canUnblock: bool): (p: Play)
    ensures Inv(p) && p.state == Idle
  {
    Play(canBlock, canUnblock, false, [], Idle, 1.0, None, 0, 0, 0.0, NoStats, DefaultRouting, None, None)
  }

  /**
   * #logicalNowMs(): the logical time, which stands still unless playing
   * and otherwise runs at speed from the base times, never below 0.
   */
  function Logical(p: Play, now: int): (t: real)
    ensures p.state != Playing ==> t == p.baseLogical
    ensures p.state == Playing ==> t >= 0.0
  {
    if p.state != Playing then p.baseLogical
    else
      var logical := p.baseLogical + (now - p.baseReal) as real * p.speed;
      if logical < 0.0 then 0.0 else logical
  }

  /** Logical time never goes negative. */
  lemma LogicalNonNegative(p: Play, now: int)
    requires Inv(p)
    ensures Logical(p, now) >= 0.0
  {
    if p.state != Playing {
      assert p.baseLogical >= 0.0;
    }
  }

  /** `next.tMs - logicalNow <= 0` */
  predicate Due(t: Num, logical: real)
  {
    match t
    case NaN => false
    case Infinity(negative) => negative
    case Fin(v) => v - logical <= 0.0
  }

  /** Math.ceil */
  function Ceil(x: real): (r: int)
    ensures x <= r as real < x + 1.0
  {
    -((-x).Floor)
  }

  /** Math.max(0, Math.ceil((tMs - logicalNow) / speed)): the timer's delay in real milliseconds. */
  function Delay(t: Num, logical: real, speed: real): (d: Num)
    requires speed > 0.0
    ensures !Due(t, logical) && t.Fin? ==> d.Fin? && d.v >= 1.0 && logical + d.v * speed >= t.v
  {
    match t
    case NaN => NaN
    case Infinity(negative) => if negative then Fin(0.0) else Infinity(false)
    case Fin(v) =>
      var c := Ceil((v - logical) / speed);
      assert !Due(t, logical) ==> c as real * speed >= v - logical by {
        if !Due(t, logical) {
          assert c as real >= (v - logical) / speed;
        }
      }
      Fin((if c < 0 then 0 else c) as real)
  }

  /**
   * #scheduleNext(), with the clock reading now throughout: while playing,
   * dispatch every next event that is due, in index order; arm a timer for
   * the first one that is not yet due; with no events left, stop in loaded.
   */
  function Drain(p: Play, now: int, inject: (string, Value) -> Injection): (r: Play)
    requires p.nextIndex <= |p.events| && p.speed > 0.0
    ensures r.events == p.events && r.loaded == p.loaded && r.speed == p.speed
    ensures r.baseReal == p.baseReal && r.baseLogical == p.baseLogical
    ensures r.routing == p.routing && r.isolation == p.isolation && r.blockToken == p.blockToken
    ensures r.canBlock == p.canBlock && r.canUnblock == p.canUnblock
    ensures p.nextIndex <= r.nextIndex <= |r.events|
    ensures r.stats.dispatched - p.stats.dispatched == r.nextIndex - p.nextIndex
    ensures r.stats.injected + r.stats.failed - p.stats.injected - p.stats.failed == r.nextIndex - p.nextIndex
    ensures p.state != Playing ==> r == p
    decreases |p.events| - p.nextIndex
  {
    if p.state != Playing then p
    else if p.nextIndex == |p.events| then p.(state := Loaded)
    else
      var next := p.events[p.nextIndex];
      var logical := Logical(p, now);
      if Due(TimeOf(next), logical) then
        Drain(p.(stats := Dispatch(p.stats, p.routing, next, inject), nextIndex := p.nextIndex + 1), now, inject)
      else p.(timer := Some(Delay(TimeOf(next), logical, p.speed)))
  }

  /**
   * What #scheduleNext achieves: the events it dispatches are those from
   * nextIndex on that are due at the logical time, in index order; it
   * stops at the first event not yet due, with a timer armed for it, or
   * after the last event, in the loaded state.
   */
  lemma DrainDispatchesDue(p: Play, now: int, inject: (string, Value) -> Injection)
    requires p.nextIndex <= |p.events| && p.speed > 0.0 && p.state == Playing
    ensures var r := Drain(p, now, inject);
      (forall k :: p.nextIndex <= k < r.nextIndex ==> Due(TimeOf(p.events[k]), Logical(p, now)))
      && (r.nextIndex < |p.events| ==>
            r.state == Playing && !Due(TimeOf(p.events[r.nextIndex]), Logical(p, now))
            && r.timer == Some(Delay(TimeOf(p.events[r.nextIndex]), Logical(p, now), p.speed)))
      && (r.nextIndex == |p.events| ==> r.state == Loaded && r.timer == p.timer)
  {
    DrainOnlyDue(p, now, inject);
    DrainStops(p, now, inject);
  }

  /** Every event #scheduleNext dispatches was due at the logical time it started from. */
  lemma {:induction false} DrainOnlyDue(p: Play, now: int, inject: (string, Value) -> Injection)
    requires p.nextIndex <= |p.events| && p.speed > 0.0 && p.state == Playing
    ensures forall k :: p.nextIndex <= k < Drain(p, now, inject).nextIndex ==> Due(TimeOf(p.events[k]), Logical(p, now))
    decreases |p.events| - p.nextIndex
  {
    if p.nextIndex < |p.events| {
      var logical := Logical(p, now);
      var next := p.events[p.nextIndex];
      if Due(TimeOf(next), logical) {
        var q := p.(stats := Dispatch(p.stats, p.routing, next, inject), nextIndex := p.nextIndex + 1);
        DrainStep(p, now, inject);
        SameClock(p, q, now);
        DrainOnlyDue(q, now, inject);
        var r := Drain(p, now, inject);
        forall k | p.nextIndex <= k < r.nextIndex
          ensures Due(TimeOf(p.events[k]), logical)
        {
          if k > p.nextIndex {
            assert q.nextIndex <= k && q.events == p.events;
          }
        }
      } else {
        DrainWait(p, now, inject);
      }
    } else {
      DrainEnd(p, now, inject);
    }
  }

  /** #scheduleNext stops at the first event not yet due, with its timer armed, or at the end, loaded. */
  lemma {:induction false} DrainStops(p: Play, now: int, inject: (string, Value) -> Injection)
    requires p.nextIndex <= |p.events| && p.speed > 0.0 && p.state == Playing
    ensures var r := Drain(p, now, inject);
      r.nextIndex < |p.events| ==>
        r.state == Playing && !Due(TimeOf(p.events[r.nextIndex]), Logical(p, now))
        && r.timer == Some(Delay(TimeOf(p.events[r.nextIndex]), Logical(p, now), p.speed))
    ensures var r := Drain(p, now, inject);
      r.nextIndex == |p.events| ==> r.state == Loaded && r.timer == p.timer
    decreases |p.events| - p.nextIndex
  {
    if p.nextIndex < |p.events| {
      var next := p.events[p.nextIndex];
      if Due(TimeOf(next), Logical(p, now)) {
        var q := p.(stats := Dispatch(p.stats, p.routing, next, inject), nextIndex := p.nextIndex + 1);
        DrainStep(p, now, inject);
        SameClock(p, q, now);
        DrainStops(q, now, inject);
      } else {
        DrainWait(p, now, inject);
      }
    } else {
      DrainEnd(p, now, inject);
    }
  }

  /** The logical time depends only on the state, the speed and the base times. */
  lemma SameClock(p: Play, q: Play, now: int)
    requires q.state == p.state && q.speed == p.speed
    requires q.baseReal == p.baseReal && q.baseLogical == p.baseLogical
    ensures Logical(q, now) == Logical(p, now)
  {
  }

  /** One turn of #scheduleNext's loop: a due event is dispatched and the loop goes on. */
  lemma DrainStep(p: Play, now: int, inject: (string, Value) -> Injection)
    requires p.nextIndex < |p.events| && p.speed > 0.0 && p.state == Playing
    requires Due(TimeOf(p.events[p.nextIndex]), Logical(p, now))
    ensures Drain(p, now, inject)
         == Drain(p.(stats := Dispatch(p.stats, p.routing, p.events[p.nextIndex], inject), nextIndex := p.nextIndex + 1), now, inject)
  {
  }

  /** #scheduleNext meeting an event not yet due: it arms the timer and returns. */
  lemma DrainWait(p: Play, now: int, inject: (string, Value) -> Injection)
    requires p.nextIndex < |p.events| && p.speed > 0.0 && p.state == Playing
    requires !Due(TimeOf(p.events[p.nextIndex]), Logical(p, now))
    ensures Drain(p, now, inject) == p.(timer := Some(Delay(TimeOf(p.events[p.nextIndex]), Logical(p, now), p.speed)))
  {
  }

  /** #scheduleNext with no event left: playback ends in the loaded state. */
  lemma DrainEnd(p: Play, now: int, inject: (string, Value) -> Injection)
    requires p.nextIndex == |p.events| && p.speed > 0.0 && p.state == Playing
    ensures Drain(p, now, inject) == p.(state := Loaded)
  {
  }

  /** Among events in time order, an event not yet due is followed only by events not yet due. */
  lemma NotDueOnward(events: seq<Value>, j: nat, k: nat, logical: real)
    requires Timed(events) && j <= k < |events|
    requires !Due(TimeOf(events[j]), logical)
    ensures !Due(TimeOf(events[k]), logical)
  {
    TimedAt(events, j, k);
    TimedAt(events, j, j);
  }

  /** After #scheduleNext, with events in time order, no event still pending is due. */
  lemma PendingNotDue(p: Play, now: int, inject: (string, Value) -> Injection, k: nat)
    requires Inv(p) && p.state == Playing
    requires Drain(p, now, inject).nextIndex <= k < |p.events|
    ensures !Due(TimeOf(p.events[k]), Logical(p, now))
  {
    DrainDispatchesDue(p, now, inject);
    NotDueOnward(p.events, Drain(p, now, inject).nextIndex, k, Logical(p, now));
  }

  /** #scheduleNext keeps the invariant when it starts with no timer armed. */
  lemma DrainKeepsInv(p: Play, now: int, inject: (string, Value) -> Injection)
    requires Inv(p) && p.timer.None?
    ensures Inv(Drain(p, now, inject))
  {
    if p.state == Playing {
      DrainDispatchesDue(p, now, inject);
    }
  }

  // ------------------------------------------------------------------
  // The operations

  /** load's error code, or None when the recording is valid. */
  function LoadError(rec: Value): (e: Option<string>)
    ensures e.None? <==> RecordingFormat.Validate(rec).Ok?
    ensures e.Some? ==> e.value == RecordingFormat.Validate(rec).error
  {
    match RecordingFormat.Validate(rec)
    case Ok(_) => None
    case Err(code) => Some(code)
  }

  /**
   * stop(): the timer is cleared, the devices are unblocked when the
   * device manager can do it, and the position goes back to the start.
   */
  function StopSpec(p: Play): (r: Play)
    ensures r.state == (if p.loaded then Loaded else Idle)
    ensures r.nextIndex == 0 && r.timer.None? && r.baseLogical == 0.0 && r.baseReal == 0
    ensures r.events == p.events && r.loaded == p.loaded && r.stats == p.stats && r.speed == p.speed
    ensures r.blockToken == (if p.canUnblock then None else p.blockToken)
  {
    p.(timer := None,
       blockToken := if p.blockToken.Some? && p.canUnblock then None else p.blockToken,
       state := if p.loaded then Loaded else Idle,
       nextIndex := 0, baseReal := 0, baseLogical := 0.0)
  }

  /** load(recording) on a valid recording: stop, then the recording's events from the start, with fresh counters. */
  function LoadSpec(p: Play, rec: Value): (r: Play)
    requires RecordingFormat.Validate(rec).Ok?
    ensures r.loaded && r.state == Loaded && r.nextIndex == 0 && r.stats == NoStats
    ensures r.events == Get(rec, "events").items
    ensures Timed(r.events)
  {
    RecordingFormat.ValidIff(rec);
    var events := Get(rec, "events").items;
    ValidTimed(rec);
    StopSpec(p).(loaded := true, events := events, state := Loaded, nextIndex := 0, stats := NoStats)
  }

  /** The events of a valid recording are in time order. */
  lemma ValidTimed(rec: Value)
    requires RecordingFormat.Validate(rec).Ok?
    ensures Get(rec, "events").Arr? && Timed(Get(rec, "events").items)
  {
    RecordingFormat.ValidIff(rec);
    var events := Get(rec, "events").items;
    var streams := Get(rec, "streamsObserved");
    forall k | 0 <= k < |events|
      ensures RecordingFormat.NonNegative(TimeOf(events[k]))
    {
      assert RecordingFormat.EventShapeOk(events[k], streams);
    }
    TimedOfChecks(events);
  }

  /** Number(speed) when it is a positive number, as start, resume and setSpeed demand. */
  function SpeedOf(speed: Value): (s: Option<real>)
    requires ToNumber(speed) != Infinity(false)
    ensures s.Some? <==> Positive(ToNumber(speed))
    ensures s.Some? ==> s.value > 0.0 && ToNumber(speed) == Fin(s.value)
  {
    match ToNumber(speed)
    case Fin(v) => if v > 0.0 then Some(v) else None
    case _ => None
  }

  /** The speed start uses: its parameter defaults to 1. */
  function StartSpeed(speed: Value): Value
  {
    if speed.Undefined? then Int(1) else speed
  }

  /** The distinct device ids of the events routed to the device sink. */
  function DevicesToBlock(events: seq<Value>, routing: Routing): (ids: set<string>)
    ensures forall id :: id in ids ==> id != []
    ensures forall k :: 0 <= k < |events| && ResolveSink(StreamOf(events[k]), routing) == DeviceSink && DeviceIdOf(events[k]) != [] ==>
      DeviceIdOf(events[k]) in ids
  {
    set k | 0 <= k < |events| && ResolveSink(StreamOf(events[k]), routing) == DeviceSink && DeviceIdOf(events[k]) != [] :: DeviceIdOf(events[k])
  }

  /** The owner and the reason #maybeBlockDevices passes to blockDevices. */
  function BlockLabels(isolation: seq<Prop>): (labels: (string, string))
    ensures labels.0 != [] && labels.1 != []
    ensures TrimmedOrBlank(Get(Obj(isolation), "owner")) != [] ==> labels.0 == TrimmedOrBlank(Get(Obj(isolation), "owner"))
    ensures TrimmedOrBlank(Get(Obj(isolation), "owner")) == [] ==> labels.0 == "recordingPlayer"
    ensures TrimmedOrBlank(Get(Obj(isolation), "reason")) == [] ==> labels.1 == "playback"
  {
    var owner := TrimmedOrBlank(Get(Obj(isolation), "owner"));
    var reason := TrimmedOrBlank(Get(Obj(isolation), "reason"));
    (if owner == [] then "recordingPlayer" else owner, if reason == [] then "playback" else reason)
  }

  /**
   * #maybeBlockDevices(), given what blockDevices answered (undefined when
   * it threw): the token is kept only from an answer { ok, token }.
   */
  function BlockedToken(p: Play, answer: Value): (t: Option<Value>)
    ensures t != p.blockToken ==> p.isolation.Some? && p.canBlock && DevicesToBlock(p.events, p.routing) != {}
    ensures t != p.blockToken ==> t == Some(Get(answer, "token")) && Truthy(Get(answer, "ok"))
  {
    if p.isolation.None? || !p.canBlock || DevicesToBlock(p.events, p.routing) == {} then p.blockToken
    else if Truthy(Get(answer, "ok")) && Truthy(Get(answer, "token")) then Some(Get(answer, "token"))
    else p.blockToken
  }

  /** start's error code: no recording, or a speed that is not a positive number. */
  function StartError(p: Play, speed: Value): (e: Option<string>)
    requires ToNumber(StartSpeed(speed)) != Infinity(false)
    ensures !p.loaded ==> e == Some("BAD_REQUEST")
    ensures e.None? ==> p.loaded && (p.state == Playing || SpeedOf(StartSpeed(speed)).Some?)
    ensures e.Some? ==> e.value == "BAD_REQUEST"
  {
    if !p.loaded then Some("BAD_REQUEST")
    else if p.state == Playing then None
    else if SpeedOf(StartSpeed(speed)).None? then Some("BAD_REQUEST")
    else None
  }

  /** start's configuration step: the routing and isolation options, then #maybeBlockDevices(). */
  function ConfigureSpec(p: Play, routing: Value, isolation: Value, answer: Value): (r: Play)
    requires Inv(p)
    ensures Inv(r)
    ensures r.routing == NormalizeRouting(routing)
    ensures r.isolation.Some? <==> IsPlainObject(isolation)
    ensures r.canBlock == p.canBlock && r.canUnblock == p.canUnblock && r.loaded == p.loaded
    ensures r.events == p.events && r.state == p.state && r.speed == p.speed && r.timer == p.timer
    ensures r.nextIndex == p.nextIndex && r.baseReal == p.baseReal && r.baseLogical == p.baseLogical
    ensures r.stats == p.stats
  {
    var q := p.(routing := NormalizeRouting(routing),
                isolation := if IsPlainObject(isolation) then Some(isolation.props) else None);
    q.(blockToken := BlockedToken(q, answer))
  }

  /** start's last step: play from logical time 0 at the given speed, dispatching what is already due. */
  function PlaySpec(p: Play, speed: real, now: int, inject: (string, Value) -> Injection): (r: Play)
    requires Inv(p) && speed > 0.0 && p.loaded && p.state != Playing
    ensures Inv(r)
    ensures r.speed == speed && r.baseReal == now && r.baseLogical == 0.0
    ensures r.routing == p.routing && r.nextIndex >= p.nextIndex
    ensures r.state == Playing || r.state == Loaded
  {
    var q := p.(speed := speed, state := Playing, baseReal := now, baseLogical := 0.0);
    DrainKeepsInv(q, now, inject);
    DrainDispatchesDue(q, now, inject);
    Drain(q, now, inject)
  }

  /** pause(): from playing only, it freezes the logical time and disarms the timer. */
  function PauseSpec(p: Play, now: int): (r: Play)
    ensures p.state != Playing ==> r == p
    ensures p.state == Playing ==> r.state == Paused && r.timer.None? && r.baseLogical == Logical(p, now)
    ensures Logical(r, now) == Logical(p, now)
    ensures r.nextIndex == p.nextIndex && r.stats == p.stats
  {
    if p.state != Playing then p
    else p.(baseLogical := Logical(p, now), baseReal := 0, timer := None, state := Paused)
  }

  /** resume's error code: a speed given that is not a positive number. */
  function ResumeError(p: Play, speed: Value): (e: Option<string>)
    requires ToNumber(speed) != Infinity(false)
    ensures e.Some? <==> p.state == Paused && !speed.Undefined? && !Positive(ToNumber(speed))
  {
    if p.state == Paused && !speed.Undefined? && SpeedOf(speed).None? then Some("BAD_REQUEST") else None
  }

  /** resume({ speed }): from paused only, it plays on from the frozen logical time, at the new speed if one is given. */
  function ResumeSpec(p: Play, speed: Value, now: int, inject: (string, Value) -> Injection): (r: Play)
    requires Inv(p) && ToNumber(speed) != Infinity(false)
    ensures Inv(r)
    ensures p.state != Paused || ResumeError(p, speed).Some? ==> r == p
    ensures p.state == Paused && ResumeError(p, speed).None? ==>
      r.baseLogical == p.baseLogical && r.baseReal == now
      && r.speed == (if speed.Undefined? then p.speed else SpeedOf(speed).value)
  {
    if p.state != Paused || ResumeError(p, speed).Some? then p
    else
      var q := if speed.Undefined? then p else p.(speed := SpeedOf(speed).value);
      var q2 := q.(baseReal := now, state := Playing);
      DrainKeepsInv(q2, now, inject);
      Drain(q2, now, inject)
  }

  /**
   * setSpeed({ speed }) past its check, with s = Number(speed): while
   * playing the logical time is rebased, so that it does not jump, and
   * #scheduleNext runs at the new speed; otherwise only the speed changes.
   */
  function SpeedChange(p: Play, s: real, now: int, inject: (string, Value) -> Injection): (r: Play)
    requires Inv(p) && s > 0.0
    ensures Inv(r) && r.speed == s
    ensures p.state != Playing ==> r == p.(speed := s)
    ensures p.state == Playing ==> r.baseLogical == Logical(p, now) && r.baseReal == now
  {
    if p.state == Playing then
      LogicalNonNegative(p, now);
      var q := p.(baseLogical := Logical(p, now), baseReal := now, timer := None, speed := s);
      DrainKeepsInv(q, now, inject);
      Drain(q, now, inject)
    else p.(speed := s)
  }

  /** The timer firing: it is disarmed and #scheduleNext runs. */
  function FireSpec(p: Play, now: int, inject: (string, Value) -> Injection): (r: Play)
    requires Inv(p)
    ensures Inv(r)
    ensures r.nextIndex >= p.nextIndex
    ensures p.state != Playing ==> r == p
  {
    var q := p.(timer := None);
    DrainKeepsInv(q, now, inject);
    Drain(q, now, inject)
  }

  // ------------------------------------------------------------------
  // Properties of the operations

  /** load rejects exactly the recordings that fail validation; a loaded recording plays from the start. */
  lemma LoadResets(p: Play, rec: Value)
    requires Inv(p) && LoadError(rec).None?
    ensures Inv(LoadSpec(p, rec))
  {
    var r := LoadSpec(p, rec);
    assert r.blockToken == StopSpec(p).blockToken;
  }

  /** stop keeps the invariant and leaves the player loaded or idle, at the start. */
  lemma StopKeepsInv(p: Play)
    requires Inv(p)
    ensures Inv(StopSpec(p))
    ensures StopSpec(p).state != Playing && StopSpec(p).state != Paused
  {
  }

  /** pause keeps the invariant. */
  lemma PauseKeepsInv(p: Play, now: int)
    requires Inv(p)
    ensures Inv(PauseSpec(p, now))
  {
    LogicalNonNegative(p, now);
  }

  /** Pausing and then resuming later, without a new speed, plays on from the logical time of the pause. */
  lemma PauseResumeContinues(p: Play, paused: int, resumed: int, inject: (string, Value) -> Injection)
    requires Inv(p) && p.state == Playing
    ensures Inv(PauseSpec(p, paused))
    ensures Logical(ResumeSpec(PauseSpec(p, paused), Undefined, resumed, inject), resumed) == Logical(p, paused)
  {
    PauseKeepsInv(p, paused);
    var q := PauseSpec(p, paused);
    LogicalNonNegative(p, paused);
    var r := ResumeSpec(q, Undefined, resumed, inject);
    assert r.baseLogical == q.baseLogical && r.baseReal == resumed;
    AtBase(r, resumed);
  }

  /** A speed change while playing leaves the logical time where it was. */
  lemma SetSpeedContinues(p: Play, s: real, now: int, inject: (string, Value) -> Injection)
    requires Inv(p) && s > 0.0 && p.state == Playing
    ensures Logical(SpeedChange(p, s, now, inject), now) == Logical(p, now)
  {
    LogicalNonNegative(p, now);
    var r := SpeedChange(p, s, now, inject);
    AtBase(r, now);
  }

  /**
   * start after playback ran to the end, with no stop in between, plays
   * nothing: the position stays after the last event and the player
   * goes straight back to loaded.
   */
  lemma PlayAtEndDispatchesNothing(p: Play, speed: real, now: int, inject: (string, Value) -> Injection)
    requires Inv(p) && speed > 0.0 && p.loaded && p.state != Playing && p.nextIndex == |p.events|
    ensures PlaySpec(p, speed, now, inject).state == Loaded
    ensures PlaySpec(p, speed, now, inject).stats == p.stats
  {
    DrainEnd(p.(speed := speed, state := Playing, baseReal := now, baseLogical := 0.0), now, inject);
  }

  /** At the real time it was based at, the logical clock reads its base. */
  lemma AtBase(p: Play, now: int)
    requires p.baseReal == now && p.baseLogical >= 0.0
    ensures Logical(p, now) == p.baseLogical
  {
    assert (now - p.baseReal) as real * p.speed == 0.0;
  }

  /** pause when not playing, and resume when not paused, change nothing. */
  lemma WrongStateNoOps(p: Play, speed: Value, now: int, inject: (string, Value) -> Injection)
    requires Inv(p) && ToNumber(speed) != Infinity(false)
    ensures p.state != Playing ==> PauseSpec(p, now) == p
    ensures p.state != Paused ==> ResumeSpec(p, speed, now, inject) == p
  {
  }

  // ------------------------------------------------------------------
  // The class

  class Player {
    const canBlock: bool
    const canUnblock: bool
    var loaded: bool
    var events: seq<Value>
    var state: PlayState
    var speed: real
    var timer: Option<Num>
    var nextIndex: nat
    var baseReal: int
    var baseLogical: real
    var stats: Stats
    var routing: Routing
    var isolation: Option<seq<Prop>>
    var blockToken: Option<Value>

    function State(): Play
      reads this
    {
      Play(canBlock, canUnblock, loaded, events, state, speed, timer, nextIndex,
           baseReal, baseLogical, stats, routing, isolation, blockToken)
    }

    predicate Valid()
      reads this
    {
      Inv(State())
    }

    /** A player over a device manager that does or does not offer blockDevices and unblockDevices. */
    constructor (canBlock: bool, canUnblock: bool)
      ensures State() == Initial(canBlock, canUnblock)
      ensures Valid()
    {
      this.canBlock := canBlock;
      this.canUnblock := canUnblock;
      loaded := false;
      events := [];
      state := Idle;
      speed := 1.0;
      timer := None;
      nextIndex := 0;
      baseReal := 0;
      baseLogical := 0.0;
      stats := NoStats;
      routing := DefaultRouting;
      isolation := None;
      blockToken := None;
      new;
      assert this.canBlock == canBlock && this.canUnblock == canUnblock && routing == DefaultRouting;
      assert stats == NoStats && events == [] && isolation == None && blockToken == None && timer == None;
      assert !loaded && state == Idle && speed == 1.0 && nextIndex == 0 && baseReal == 0 && baseLogical == 0.0;
    }

    /** #logicalNowMs() with the clock reading now. */
    function LogicalNowMs(now: int): real
      reads this
    {
      Logical(State(), now)
    }

    /** #scheduleNext(), with the clock reading now. */
    method ScheduleNext(now: int, inject: (string, Value) -> Injection)
      requires nextIndex <= |events| && speed > 0.0
      modifies this
      ensures State() == Drain(old(State()), now, inject)
    {
      if state != Playing {
        return;
      }
      ghost var start := State();
      while nextIndex < |events|
        invariant nextIndex <= |events| && state == Playing && speed > 0.0
        invariant Drain(start, now, inject) == Drain(State(), now, inject)
        decreases |events| - nextIndex
      {
        var more := Step(now, inject);
        if !more {
          return;
        }
      }
      ghost var p := State();
      state := Loaded;
      assert State() == p.(state := Loaded);
      DrainEnd(p, now, inject);
    }

    /**
     * One turn of #scheduleNext's loop: a due event is dispatched and the
     * loop goes on; otherwise the timer is armed and the loop ends.
     */
    method Step(now: int, inject: (string, Value) -> Injection) returns (more: bool)
      requires nextIndex < |events| && speed > 0.0 && state == Playing
      modifies this
      ensures more ==> state == Playing && speed == old(speed) && events == old(events) && nextIndex == old(nextIndex) + 1
      ensures more ==> Drain(old(State()), now, inject) == Drain(State(), now, inject)
      ensures !more ==> Drain(old(State()), now, inject) == State()
    {
      ghost var p := State();
      var logicalNow := LogicalNowMs(now);
      var next := events[nextIndex];
      if Due(TimeOf(next), logicalNow) {
        DispatchEvent(next, inject);
        Advance();
        DrainStep(p, now, inject);
        return true;
      }
      ArmTimer(Delay(TimeOf(next), logicalNow, speed));
      DrainWait(p, now, inject);
      return false;
    }

    /** #dispatch(ev): the event is counted and handed to its sink. */
    method DispatchEvent(ev: Value, inject: (string, Value) -> Injection)
      modifies this
      ensures State() == old(State()).(stats := Dispatch(old(stats), routing, ev, inject))
    {
      stats := Dispatch(stats, routing, ev, inject);
    }

    /** The cursor moves past the event just dispatched. */
    method Advance()
      modifies this
      ensures State() == old(State()).(nextIndex := old(nextIndex) + 1)
    {
      nextIndex := nextIndex + 1;
    }

    /** The timer is armed for the given delay. */
    method ArmTimer(delay: Num)
      modifies this
      ensures State() == old(State()).(timer := Some(delay))
    {
      timer := Some(delay);
    }

    /** load(recording): the validation error code, or the recording loaded. */
    method Load(rec: Value) returns (r: Result<(), string>)
      requires Valid()
      modifies this
      ensures Valid()
      ensures r.Err? <==> LoadError(rec).Some?
      ensures r.Err? ==> r.error == LoadError(rec).value && State() == old(State())
      ensures r.Ok? ==> State() == LoadSpec(old(State()), rec)
    {
      var v := RecordingFormat.ValidateRecording(rec);
      if v.Err? {
        return Err(v.error);
      }
      ValidTimed(rec);
      Install(Get(rec, "events").items);
      r := Ok(());
    }

    /** The second half of load: after stop, the new events from the start, with fresh counters. */
    method Install(newEvents: seq<Value>)
      requires Valid() && Timed(newEvents)
      modifies this
      ensures State() == StopSpec(old(State())).(loaded := true, events := newEvents, state := Loaded, nextIndex := 0, stats := NoStats)
      ensures Valid()
    {
      Stop();
      loaded := true;
      events := newEvents;
      state := Loaded;
      nextIndex := 0;
      stats := NoStats;
    }

    /** stop() */
    method Stop()
      requires Valid()
      modifies this
      ensures State() == StopSpec(old(State())) && Valid()
    {
      timer := None;
      if blockToken.Some? && canUnblock {
        blockToken := None;
      }
      state := if loaded then Loaded else Idle;
      nextIndex := 0;
      baseReal := 0;
      baseLogical := 0.0;
    }

    /** start({ speed, routing, isolation }), with blockDevices answering `answer`. */
    method Start(speed: Value, routingCfg: Value, isolationCfg: Value, answer: Value,
                 now: int, inject: (string, Value) -> Injection) returns (r: Result<(), string>)
      requires Valid() && ToNumber(StartSpeed(speed)) != Infinity(false)
      modifies this
      ensures r.Err? <==> StartError(old(State()), speed).Some?
      ensures r.Err? ==> r.error == "BAD_REQUEST"
      ensures StartError(old(State()), speed).Some? || old(state) == Playing ==> State() == old(State())
      ensures StartError(old(State()), speed).None? && old(state) != Playing ==>
        State() == PlaySpec(ConfigureSpec(old(State()), routingCfg, isolationCfg, answer),
                            SpeedOf(StartSpeed(speed)).value, now, inject)
    {
      var e := StartError(State(), speed);
      if e.Some? {
        r := Err(e.value);
      } else if state == Playing {
        r := Ok(());
      } else {
        Configure(routingCfg, isolationCfg, answer);
        PlayFrom(SpeedOf(StartSpeed(speed)).value, now, inject);
        r := Ok(());
      }
    }

    /** Set the routing and isolation, then block the devices. */
    method Configure(routingCfg: Value, isolationCfg: Value, answer: Value)
      requires Valid()
      modifies this
      ensures State() == ConfigureSpec(old(State()), routingCfg, isolationCfg, answer) && Valid()
    {
      SetOptions(NormalizeRouting(routingCfg), if IsPlainObject(isolationCfg) then Some(isolationCfg.props) else None);
      MaybeBlockDevices(answer);
    }

    /** The routing and isolation options that start stores. */
    method SetOptions(r: Routing, iso: Option<seq<Prop>>)
      modifies this
      ensures State() == old(State()).(routing := r, isolation := iso)
    {
      routing := r;
      isolation := iso;
    }

    /** #maybeBlockDevices(), with blockDevices answering `answer` (undefined when it threw). */
    method MaybeBlockDevices(answer: Value)
      modifies this
      ensures State() == old(State()).(blockToken := BlockedToken(old(State()), answer))
    {
      if isolation.None? || !canBlock || DevicesToBlock(events, routing) == {} {
        return;
      }
      if Truthy(Get(answer, "ok")) && Truthy(Get(answer, "token")) {
        blockToken := Some(Get(answer, "token"));
      }
    }

    /** Play from logical time 0 at the given speed. */
    method PlayFrom(speed: real, now: int, inject: (string, Value) -> Injection)
      requires Valid() && speed > 0.0 && loaded && state != Playing
      modifies this
      ensures State() == PlaySpec(old(State()), speed, now, inject)
    {
      ghost var p := State();
      this.speed := speed;
      state := Playing;
      baseReal := now;
      baseLogical := 0.0;
      assert State() == p.(speed := speed, state := Playing, baseReal := now, baseLogical := 0.0);
      ScheduleNext(now, inject);
    }

    /** pause() */
    method Pause(now: int)
      requires Valid()
      modifies this
      ensures State() == PauseSpec(old(State()), now) && Valid()
    {
      PauseKeepsInv(State(), now);
      if state != Playing {
        return;
      }
      baseLogical := LogicalNowMs(now);
      baseReal := 0;
      timer := None;
      state := Paused;
    }

    /** setSpeed({ speed }) */
    method SetSpeed(speed: Value, now: int, inject: (string, Value) -> Injection) returns (r: Result<(), string>)
      requires Valid() && ToNumber(speed) != Infinity(false)
      modifies this
      ensures r.Err? <==> SpeedOf(speed).None?
      ensures r.Err? ==> r.error == "BAD_REQUEST" && State() == old(State())
      ensures r.Ok? ==> State() == SpeedChange(old(State()), SpeedOf(speed).value, now, inject)
      ensures Valid()
    {
      var s := SpeedOf(speed);
      if s.None? {
        return Err("BAD_REQUEST");
      }
      ChangeSpeed(s.value, now, inject);
      r := Ok(());
    }

    /** setSpeed past its check. */
    method ChangeSpeed(s: real, now: int, inject: (string, Value) -> Injection)
      requires Valid() && s > 0.0
      modifies this
      ensures State() == SpeedChange(old(State()), s, now, inject) && Valid()
    {
      ghost var p := State();
      if state == Playing {
        LogicalNonNegative(p, now);
        baseLogical := LogicalNowMs(now);
        baseReal := now;
        timer := None;
        this.speed := s;
        assert State() == p.(baseLogical := Logical(p, now), baseReal := now, timer := None, speed := s);
        ScheduleNext(now, inject);
        return;
      }
      this.speed := s;
      assert State() == p.(speed := s);
    }

    /** resume({ speed }) */
    method Resume(speed: Value, now: int, inject: (string, Value) -> Injection) returns (r: Result<(), string>)
      requires Valid() && ToNumber(speed) != Infinity(false)
      modifies this
      ensures r.Err? <==> ResumeError(old(State()), speed).Some?
      ensures State() == ResumeSpec(old(State()), speed, now, inject) && Valid()
    {
      if state != Paused {
        return Ok(());
      }
      if !speed.Undefined? {
        var s := SpeedOf(speed);
        if s.None? {
          return Err("BAD_REQUEST");
        }
        this.speed := s.value;
      }
      baseReal := now;
      state := Playing;
      ScheduleNext(now, inject);
      r := Ok(());
    }

    /** The armed timer firing while the clock reads now. */
    method Fire(now: int, inject: (string, Value) -> Injection)
      requires Valid()
      modifies this
      ensures State() == FireSpec(old(State()), now, inject) && Valid()
    {
      timer := None;
      ScheduleNext(now, inject);
    }
  }
}
