/**
 * The recorder: while started, it keeps every event the subscribed buses
 * deliver that names a stream and passes the configured filter, stamped
 * with its time since start, which never goes back. stop always answers a
 * recording of what was kept.
 */
module Recorder {
  import opened Common
  import opened Js
  import RecordingFormat

  /** The first non-blank string of a list, or blank. */
  function FirstNonBlank(cs: seq<string>): (r: string)
    ensures r == [] <==> forall k :: 0 <= k < |cs| ==> cs[k] == []
    ensures r != [] ==> exists k :: 0 <= k < |cs| && r == cs[k] && forall j :: 0 <= j < k ==> cs[j] == []
  {
    if cs == [] then []
    else if cs[0] != [] then cs[0]
    else
      var r := FirstNonBlank(cs[1..]);
      assert forall k :: 1 <= k < |cs| ==> cs[k] == cs[1..][k - 1];
      r
  }

  /** The candidates for an event's stream, in priority order. */
  function StreamCandidates(raw: Value): (cs: seq<string>)
    ensures |cs| == 4
  {
    var p := if IsPlainObject(Get(raw, "payload")) then Get(raw, "payload") else Null;
    [TrimmedOrBlank(Get(p, "publishAs")), TrimmedOrBlank(Get(p, "deviceId")),
     TrimmedOrBlank(Get(raw, "source")), TrimmedOrBlank(Get(raw, "type"))]
  }

  /**
   * deriveStream(raw): the first non-blank of the payload's publishAs and
   * deviceId (when the payload is a plain object), the event's source and
   * its type, or blank.
   */
  function DeriveStream(raw: Value): (r: string)
  {
    var p := if IsPlainObject(Get(raw, "payload")) then Get(raw, "payload") else Null;
    var a := TrimmedOrBlank(Get(p, "publishAs"));
    if a != [] then a
    else
      var b := TrimmedOrBlank(Get(p, "deviceId"));
      if b != [] then b
      else
        var c := TrimmedOrBlank(Get(raw, "source"));
        if c != [] then c
        else TrimmedOrBlank(Get(raw, "type"))
  }

  /** The stream is the first non-blank candidate: publishAs, deviceId, source, type. */
  lemma DeriveStreamPriority(raw: Value)
    ensures DeriveStream(raw) == FirstNonBlank(StreamCandidates(raw))
  {
    var cs := StreamCandidates(raw);
    FirstOfFour(cs[0], cs[1], cs[2], cs[3]);
    assert cs == [cs[0], cs[1], cs[2], cs[3]];
  }

  lemma FirstOfFour(a: string, b: string, c: string, d: string)
    ensures FirstNonBlank([a, b, c, d]) == if a != [] then a else if b != [] then b else if c != [] then c else d
  {
    assert [a, b, c, d][1..] == [b, c, d] && [b, c, d][1..] == [c, d] && [c, d][1..] == [d] && [d][1..] == [];
    assert FirstNonBlank([d]) == d;
    assert FirstNonBlank([c, d]) == if c != [] then c else d;
    assert FirstNonBlank([b, c, d]) == if b != [] then b else FirstNonBlank([c, d]);
  }

  /** A non-blank publishAs names the stream, whatever else the event carries. */
  lemma PublishAsFirst(raw: Value)
    requires IsPlainObject(Get(raw, "payload")) && TrimmedOrBlank(Get(Get(raw, "payload"), "publishAs")) != []
    ensures DeriveStream(raw) == TrimmedOrBlank(Get(Get(raw, "payload"), "publishAs"))
  {
  }

  /** The strings of a list that are not blank, in order. */
  function NonEmpty(ss: seq<string>): (r: seq<string>)
    ensures |r| <= |ss|
    ensures forall k :: 0 <= k < |r| ==> r[k] != []
    ensures forall x :: x in r <==> x in ss && x != []
  {
    if ss == [] then []
    else
      var rest := NonEmpty(ss[1..]);
      assert forall x :: x in ss <==> x == ss[0] || x in ss[1..];
      if ss[0] != [] then [ss[0]] + rest else rest
  }

  /** Array.isArray(v) ? v.map(x => String(x || '').trim()).filter(Boolean) : [] */
  function NameList(v: Value): (names: seq<string>)
    ensures forall k :: 0 <= k < |names| ==> names[k] != []
    ensures !v.Arr? ==> names == []
    ensures v.Arr? ==> forall x :: x in names <==> x != [] && exists k :: 0 <= k < |v.items| && TrimmedOrBlank(v.items[k]) == x
  {
    if v.Arr? then
      var ts := seq(|v.items|, k requires 0 <= k < |v.items| => TrimmedOrBlank(v.items[k]));
      forall x | x in ts
        ensures exists k :: 0 <= k < |v.items| && TrimmedOrBlank(v.items[k]) == x
      {
        var k :| 0 <= k < |ts| && ts[k] == x;
      }
      forall k | 0 <= k < |v.items|
        ensures TrimmedOrBlank(v.items[k]) in ts
      {
        assert ts[k] == TrimmedOrBlank(v.items[k]);
      }
      NonEmpty(ts)
    else []
  }

  /** The normalised filter: each list, when it names anything, as a set. */
  datatype Filter = Filter(includeStreams: Option<set<string>>, excludeStreams: Option<set<string>>,
                           includeTypes: Option<set<string>>, excludeTypes: Option<set<string>>)

  /** includeStreams.length ? new Set(includeStreams) : null */
  function SetOrNone(names: seq<string>): (r: Option<set<string>>)
    ensures r.None? <==> names == []
    ensures r.Some? ==> r.value == set n | n in names
  {
    if names == [] then None else Some(set n | n in names)
  }

  /** normalizeFilter(filter): anything but a plain object is no filter at all. */
  function NormalizeFilter(filter: Value): (f: Filter)
    ensures !IsPlainObject(filter) ==> f == Filter(None, None, None, None)
  {
    var f := if IsPlainObject(filter) then filter else Obj([]);
    Filter(SetOrNone(NameList(Get(f, "includeStreams"))), SetOrNone(NameList(Get(f, "excludeStreams"))),
           SetOrNone(NameList(Get(f, "includeTypes"))), SetOrNone(NameList(Get(f, "excludeTypes"))))
  }

  /** passesFilter({ stream, raw, filter }) */
  function PassesFilter(stream: string, raw: Value, filter: Option<Filter>): (ok: bool)
    ensures filter.None? ==> ok
    ensures filter.Some? ==>
      (ok <==>
        var f := filter.value;
        var t := TrimmedOrBlank(Get(raw, "type"));
        && (f.includeStreams.None? || stream in f.includeStreams.value)
        && (f.excludeStreams.None? || stream !in f.excludeStreams.value)
        && (f.includeTypes.None? || t in f.includeTypes.value)
        && (f.excludeTypes.None? || t !in f.excludeTypes.value))
  {
    match filter
    case None => true
    case Some(f) =>
      if f.includeStreams.Some? && stream !in f.includeStreams.value then false
      else if f.excludeStreams.Some? && stream in f.excludeStreams.value then false
      else
        var t := TrimmedOrBlank(Get(raw, "type"));
        if f.includeTypes.Some? && t !in f.includeTypes.value then false
        else if f.excludeTypes.Some? && t in f.excludeTypes.value then false
        else true
  }

  /** A filter given as anything but a plain object lets every event through. */
  lemma NoFilterPassesAll(filter: Value, stream: string, raw: Value)
    requires !IsPlainObject(filter)
    ensures PassesFilter(stream, raw, Some(NormalizeFilter(filter)))
  {
  }

  /** A recorded event: its time since start, its stream and the event. */
  datatype Entry = Entry(tMs: int, stream: string, raw: Value)

  /** The recorder's state. */
  datatype Rec = Rec(started: bool, stopped: bool, t0: int, lastTMs: int, warned: bool, subs: seq<string>, events: seq<Entry>)

  /** An event the recorder may keep under a filter: a plain object with a stream that passes it. */
  predicate Admitted(e: Entry, filter: Filter)
  {
    IsPlainObject(e.raw) && e.stream == DeriveStream(e.raw) && e.stream != [] && PassesFilter(e.stream, e.raw, Some(filter))
  }

  /** What the recorder keeps true: times are non-negative, never go back and reach at most lastTMs. */
  predicate Inv(s: Rec, filter: Filter)
  {
    s.lastTMs >= -1
    && (!s.started ==> s.events == [] && !s.stopped)
    && (forall k :: 0 <= k < |s.events| ==> 0 <= s.events[k].tMs <= s.lastTMs && Admitted(s.events[k], filter))
    && (forall k, l :: 0 <= k < l < |s.events| ==> s.events[k].tMs <= s.events[l].tMs)
  }

  function Initial(): Rec
  {
    Rec(false, false, 0, -1, false, [], [])
  }

  /** The buses start subscribes to: every named bus that exists, in order. */
  function Subscribable(busNames: seq<string>, available: set<string>): (r: seq<string>)
    ensures forall b :: b in r <==> b in busNames && b in available
  {
    if busNames == [] then []
    else
      var rest := Subscribable(busNames[1..], available);
      assert forall b :: b in busNames <==> b == busNames[0] || b in busNames[1..];
      if busNames[0] in available then [busNames[0]] + rest else rest
  }

  /** start(): once only; it takes the start time and subscribes to the buses that exist. */
  function StartSpec(s: Rec, busNames: seq<string>, available: set<string>, now: int): (r: Rec)
    ensures s.started ==> r == s
    ensures !s.started ==> r.started && !r.stopped && r.t0 == now && r.lastTMs == -1 && r.events == s.events
  {
    if s.started then s
    else s.(started := true, stopped := false, t0 := now, lastTMs := -1, warned := false,
            subs := s.subs + Subscribable(busNames, available))
  }

  /** stop(): the first stop after start ends the subscriptions; the events stay. */
  function StopSpec(s: Rec): (r: Rec)
    ensures r.events == s.events && r.started == s.started
    ensures s.started ==> r.stopped && r.subs == (if s.stopped then s.subs else [])
    ensures !s.started ==> r == s
  {
    if !s.started || s.stopped then s
    else s.(stopped := true, subs := [])
  }

  /** #onEvent({ evt }), with the clock's reading and whether JSON.stringify(evt) succeeds. */
  function OnEventSpec(s: Rec, filter: Filter, evt: Value, now: int, serializable: bool): (r: Rec)
    ensures r.started == s.started && r.stopped == s.stopped && r.t0 == s.t0 && r.subs == s.subs
    ensures s.stopped ==> r == s
    ensures r.events == s.events || r.events == s.events + [Entry(r.lastTMs, DeriveStream(evt), evt)]
    ensures r.events != s.events ==> serializable && Admitted(Entry(r.lastTMs, DeriveStream(evt), evt), filter)
    ensures r != s ==> r.lastTMs == Max(Max(now - s.t0, 0), s.lastTMs)
    ensures !s.stopped && serializable && Admitted(Entry(0, DeriveStream(evt), evt), filter) ==>
      r.events == s.events + [Entry(Max(Max(now - s.t0, 0), s.lastTMs), DeriveStream(evt), evt)]
  {
    if s.stopped || !IsPlainObject(evt) then s
    else
      var stream := DeriveStream(evt);
      if stream == [] || !PassesFilter(stream, evt, Some(filter)) then s
      else
        var t := if now - s.t0 < 0 then 0 else now - s.t0;
        var back := t < s.lastTMs;
        var tMs := if back then s.lastTMs else t;
        var s1 := s.(lastTMs := tMs, warned := s.warned || back);
        if !serializable then s1
        else s1.(events := s.events + [Entry(tMs, stream, evt)])
  }

  /** Every event keeps the invariant: a kept event's time is the largest so far and not negative. */
  lemma OnEventKeepsInv(s: Rec, filter: Filter, evt: Value, now: int, serializable: bool)
    requires Inv(s, filter) && s.started
    ensures Inv(OnEventSpec(s, filter, evt, now, serializable), filter)
  {
    var r := OnEventSpec(s, filter, evt, now, serializable);
    if r.events != s.events {
      assert r.events == s.events + [Entry(r.lastTMs, DeriveStream(evt), evt)];
      assert forall k :: 0 <= k < |s.events| ==> r.events[k] == s.events[k];
    }
  }

  /** Events delivered one after another, each with the clock's reading and its serializability. */
  function Run(s: Rec, filter: Filter, steps: seq<(Value, int, bool)>): (r: Rec)
    ensures r.stopped == s.stopped && r.started == s.started
    decreases |steps|
  {
    if steps == [] then s
    else
      var s1 := OnEventSpec(s, filter, steps[0].0, steps[0].1, steps[0].2);
      Run(s1, filter, steps[1..])
  }

  /** Over any run of events the recorded times stay non-negative and non-decreasing, and only admitted events are kept. */
  lemma {:induction false} RunKeepsInv(s: Rec, filter: Filter, steps: seq<(Value, int, bool)>)
    requires Inv(s, filter) && s.started
    ensures Inv(Run(s, filter, steps), filter)
    ensures |Run(s, filter, steps).events| >= |s.events| && Run(s, filter, steps).events[..|s.events|] == s.events
    decreases |steps|
  {
    if steps != [] {
      var s1 := OnEventSpec(s, filter, steps[0].0, steps[0].1, steps[0].2);
      OnEventKeepsInv(s, filter, steps[0].0, steps[0].1, steps[0].2);
      RunKeepsInv(s1, filter, steps[1..]);
      assert s1.events[..|s.events|] == s.events;
    }
  }

  /** After stop, no event is recorded, whatever arrives. */
  lemma {:induction false} NothingAfterStop(s: Rec, filter: Filter, steps: seq<(Value, int, bool)>)
    requires s.started
    ensures Run(StopSpec(s), filter, steps) == StopSpec(s)
    decreases |steps|
  {
    if steps != [] {
      NothingAfterStop(s, filter, steps[1..]);
    }
  }

  /** start is idempotent, and a stopped recorder cannot be started again. */
  lemma StartOnce(s: Rec, busNames: seq<string>, available: set<string>, now: int, later: int)
    ensures StartSpec(StartSpec(s, busNames, available, now), busNames, available, later) == StartSpec(s, busNames, available, now)
    ensures var r := StopSpec(StartSpec(s, busNames, available, now));
      StartSpec(r, busNames, available, later) == r && r.stopped
  {
  }

  /** A second stop changes nothing, and stop never drops a recorded event. */
  lemma StopOnce(s: Rec)
    ensures StopSpec(StopSpec(s)) == StopSpec(s)
    ensures StopSpec(s).events == s.events
  {
  }

  /** The recording stop and getRecording build: format, version, meta and a copy of the events. */
  datatype Recording = Recording(format: string, version: string, meta: seq<Prop>, events: seq<Entry>)

  /** #buildRecording(): meta is { recordedAtMs, buses, ...meta }. */
  function Build(busNames: seq<string>, meta: seq<Prop>, events: seq<Entry>, now: int): (r: Recording)
    ensures r.format == RecordingFormat.Format && r.version == RecordingFormat.Version && r.events == events
    ensures forall k :: Lookup(meta, k).Some? ==> Lookup(r.meta, k).Some?
  {
    Recording(RecordingFormat.Format, RecordingFormat.Version,
              Spread([Prop("recordedAtMs", Int(now)), Prop("buses", StrArr(busNames))], meta), events)
  }

  /** The bus names as an array of strings. */
  function StrArr(names: seq<string>): (v: Value)
    ensures v.Arr? && |v.items| == |names| && forall k :: 0 <= k < |names| ==> v.items[k] == Str(names[k])
  {
    Arr(seq(|names|, k requires 0 <= k < |names| => Str(names[k])))
  }

  /** The recording's meta carries the stop time and the bus names unless the configured meta overrides them. */
  lemma BuildMeta(busNames: seq<string>, meta: seq<Prop>, events: seq<Entry>, now: int)
    ensures var m := Build(busNames, meta, events, now).meta;
      (Lookup(meta, "recordedAtMs").None? ==> Lookup(m, "recordedAtMs") == Some(Int(now)))
      && (Lookup(meta, "buses").None? ==> Lookup(m, "buses") == Some(StrArr(busNames)))
  {
    var base := [Prop("recordedAtMs", Int(now)), Prop("buses", StrArr(busNames))];
    BaseMeta(busNames, now);
    if Lookup(meta, "recordedAtMs").None? {
      SpreadKeepsBase(base, meta, "recordedAtMs");
    }
    if Lookup(meta, "buses").None? {
      SpreadKeepsBase(base, meta, "buses");
    }
  }

  lemma SpreadKeepsBase(base: seq<Prop>, over: seq<Prop>, k: string)
    requires Lookup(over, k).None?
    ensures Lookup(Spread(base, over), k) == Lookup(base, k)
  {
  }

  lemma BaseMeta(busNames: seq<string>, now: int)
    ensures var base := [Prop("recordedAtMs", Int(now)), Prop("buses", StrArr(busNames))];
      Lookup(base, "recordedAtMs") == Some(Int(now)) && Lookup(base, "buses") == Some(StrArr(busNames))
  {
    var base := [Prop("recordedAtMs", Int(now)), Prop("buses", StrArr(busNames))];
    assert "buses"[0] != "recordedAtMs"[0];
    assert base[1..] == [Prop("buses", StrArr(busNames))];
  }

  class Recorder {
    const busNames: seq<string>
    /** The names of the buses that exist and can be subscribed to. */
    const available: set<string>
    const meta: seq<Prop>
    const filter: Filter

    var started: bool
    var stopped: bool
    var t0: int
    var lastTMs: int
    var warned: bool
    var subs: seq<string>
    var events: seq<Entry>

    function State(): Rec
      reads this
    {
      Rec(started, stopped, t0, lastTMs, warned, subs, events)
    }

    predicate Valid()
      reads this
    {
      Inv(State(), filter)
    }

    constructor (busNamesCfg: Value, available: set<string>, metaCfg: Value, filterCfg: Value)
      ensures busNames == NameList(busNamesCfg) && this.available == available
      ensures meta == (if IsPlainObject(metaCfg) then metaCfg.props else [])
      ensures filter == NormalizeFilter(filterCfg)
      ensures State() == Initial() && Valid()
    {
      busNames := NameList(busNamesCfg);
      this.available := available;
      meta := if IsPlainObject(metaCfg) then metaCfg.props else [];
      filter := NormalizeFilter(filterCfg);
      started, stopped := false, false;
      t0, lastTMs, warned := 0, -1, false;
      subs, events := [], [];
    }

    method Start(now: int)
      requires Valid()
      modifies this
      ensures State() == StartSpec(old(State()), busNames, available, now) && Valid()
    {
      if started {
        return;
      }
      started := true;
      stopped := false;
      t0 := now;
      lastTMs := -1;
      warned := false;
      var unsubs := SubscribeAll(busNames, available);
      subs := subs + unsubs;
    }

    /** The loop of start over the bus names: the buses that exist are subscribed, in order. */
    static method SubscribeAll(busNames: seq<string>, available: set<string>) returns (unsubs: seq<string>)
      ensures unsubs == Subscribable(busNames, available)
    {
      unsubs := [];
      for k := 0 to |busNames|
        invariant unsubs == Subscribable(busNames[..k], available)
      {
        assert busNames[..k + 1] == busNames[..k] + [busNames[k]];
        SubscribableAppend(busNames[..k], busNames[k], available);
        if busNames[k] in available {
          unsubs := unsubs + [busNames[k]];
        }
      }
      assert busNames[..|busNames|] == busNames;
    }

    method Stop(now: int) returns (r: Recording)
      requires Valid()
      modifies this
      ensures State() == StopSpec(old(State())) && Valid()
      ensures r == Build(busNames, meta, events, now)
    {
      if !started || stopped {
        return Build(busNames, meta, events, now);
      }
      stopped := true;
      subs := [];
      return Build(busNames, meta, events, now);
    }

    /** The subscription callback for one event; start registers it, so it runs only once started. */
    method OnEvent(evt: Value, now: int, serializable: bool)
      requires Valid() && started
      modifies this
      ensures State() == OnEventSpec(old(State()), filter, evt, now, serializable) && Valid()
    {
      OnEventKeepsInv(State(), filter, evt, now, serializable);
      if stopped || !IsPlainObject(evt) {
        return;
      }
      var stream := DeriveStream(evt);
      if stream == [] {
        return;
      }
      if !PassesFilter(stream, evt, Some(filter)) {
        return;
      }
      var tMs := now - t0;
      if tMs < 0 {
        tMs := 0;
      }
      if tMs < lastTMs {
        tMs := lastTMs;
        if !warned {
          warned := true;
        }
      }
      lastTMs := tMs;
      if !serializable {
        return;
      }
      events := events + [Entry(tMs, stream, evt)];
    }
  }

  lemma SubscribableAppend(names: seq<string>, b: string, available: set<string>)
    ensures Subscribable(names + [b], available) == Subscribable(names, available) + (if b in available then [b] else [])
  {
    if names != [] {
      assert (names + [b])[1..] == names[1..] + [b];
      SubscribableAppend(names[1..], b, available);
    }
  }
}
