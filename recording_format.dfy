/**
 * The recording file format: a recording is an object naming the format
 * and its version, with meta data, a millisecond timeline, the streams it
 * observed and its events in order. validateRecording answers the first
 * check that fails, by its error code.
 */
module RecordingFormat {
  import opened Common
  import opened Js

  const Format: string := "charlie.recording"
  const Version: string := "1.0.0"

  /** String(v || ''), untrimmed. */
  function TextOf(v: Value): string
  {
    if Truthy(v) then ToStr(v) else []
  }

  /** /^[0-9]+\.[0-9]+\.[0-9]+$/ on String(v || ''). */
  predicate IsSemver(v: Value)
  {
    var parts := Split(TextOf(v), '.');
    |parts| == 3 && forall k :: 0 <= k < 3 ==> parts[k] != [] && AllDigits(parts[k])
  }

  /** Three non-empty digit runs joined by dots match the semver pattern. */
  lemma SemverOfParts(a: string, b: string, c: string)
    requires a != [] && b != [] && c != [] && AllDigits(a) && AllDigits(b) && AllDigits(c)
    ensures IsSemver(Str(a + ['.'] + b + ['.'] + c))
  {
    assert '.' !in a && '.' !in b && '.' !in c;
    SplitThree(a, b, c, '.');
  }

  /** The version check (semver and equal to 1.0.0) is equality with 1.0.0. */
  lemma VersionCheck(v: Value)
    ensures (!IsSemver(v) || v != Str(Version)) <==> v != Str(Version)
  {
    if v == Str(Version) {
      SemverOfParts("1", "0", "0");
      assert "1" + ['.'] + "0" + ['.'] + "0" == Version;
    }
  }

  /** No bus name is blank once String(b || '') is trimmed. */
  predicate BusNamesOk(names: seq<Value>)
  {
    forall k :: 0 <= k < |names| ==> TrimmedOrBlank(names[k]) != []
  }

  /** The error code of the first failing check before the events, or None. */
  function HeaderError(rec: Value): (e: Option<string>)
    ensures e.None? ==> rec.Obj? && Get(rec, "format") == Str(Format) && Get(rec, "version") == Str(Version)
    ensures e.None? ==> Get(rec, "events").Arr? && Get(rec, "streamsObserved").Obj?
    ensures e.None? ==> var buses := Get(Get(rec, "meta"), "buses");
      buses.Arr? && |buses.items| > 0 && BusNamesOk(buses.items)
  {
    if !IsPlainObject(rec) then Some("INVALID_RECORDING")
    else if Get(rec, "format") != Str(Format) then Some("INVALID_FORMAT")
    else if !IsSemver(Get(rec, "version")) || Get(rec, "version") != Str(Version) then Some("INVALID_VERSION")
    else
      var meta := Get(rec, "meta");
      if !IsPlainObject(meta) then Some("INVALID_META")
      else if TrimmedOrBlank(Get(meta, "mode")) == [] then Some("INVALID_META_MODE")
      else
        var buses := Get(meta, "buses");
        if !buses.Arr? || buses.items == [] then Some("INVALID_META_BUSES")
        else if !BusNamesOk(buses.items) then Some("INVALID_META_BUSES")
        else
          var timeline := Get(rec, "timeline");
          if !IsPlainObject(timeline) then Some("INVALID_TIMELINE")
          else if TrimmedOrBlank(Get(timeline, "unit")) != "ms" then Some("INVALID_TIMELINE_UNIT")
          else if !IsPlainObject(Get(rec, "streamsObserved")) then Some("INVALID_STREAMS_OBSERVED")
          else if !Get(rec, "events").Arr? then Some("INVALID_EVENTS")
          else None
  }

  /** A numeric field, NaN when the field is not a number. */
  function NumField(ev: Value, key: string): (n: Num)
    ensures Get(ev, key).Number? ==> n == Get(ev, key).n
    ensures !Get(ev, key).Number? ==> n == NaN
  {
    if Get(ev, key).Number? then Get(ev, key).n else NaN
  }

  /** typeof n === 'number' && !Number.isNaN(n) && !(n < 0) */
  predicate NonNegative(n: Num)
  {
    !n.NaN? && !NumLess(n, Fin(0.0))
  }

  /** Every check on one event that does not look at its neighbours. */
  predicate EventShapeOk(ev: Value, streams: Value)
  {
    IsPlainObject(ev) && TrimmedOrBlank(Get(ev, "id")) != []
    && NonNegative(NumField(ev, "i")) && NonNegative(NumField(ev, "tMs"))
    && IsPlainObject(Get(ev, "raw"))
    && var key := TrimmedOrBlank(Get(Get(ev, "raw"), "streamKey"));
    key != [] && Truthy(Get(streams, key))
  }

  /**
   * One turn of the event loop, after an event with index lastI at lastT:
   * the error code of the first check the event fails, or None.
   */
  function EventError(ev: Value, lastI: Num, lastT: Num, streams: Value): (e: Option<string>)
    ensures e.None? <==> (EventShapeOk(ev, streams) && NumLess(lastI, NumField(ev, "i"))
                          && !NumLess(NumField(ev, "tMs"), lastT))
  {
    if !IsPlainObject(ev) then Some("INVALID_EVENT")
    else if TrimmedOrBlank(Get(ev, "id")) == [] then Some("INVALID_EVENT_ID")
    else
      var i := NumField(ev, "i");
      if !NonNegative(i) then Some("INVALID_EVENT_I")
      else if !NumLess(lastI, i) then Some("NON_MONOTONIC_I")
      else
        var t := NumField(ev, "tMs");
        if !NonNegative(t) then Some("INVALID_TMS")
        else if NumLess(t, lastT) then Some("NON_MONOTONIC_TMS")
        else
          var raw := Get(ev, "raw");
          if !IsPlainObject(raw) then Some("INVALID_RAW")
          else
            var key := TrimmedOrBlank(Get(raw, "streamKey"));
            if key == [] then Some("INVALID_STREAMKEY")
            else if !Truthy(Get(streams, key)) then Some("STREAMKEY_NOT_OBSERVED")
            else None
  }

  /** The event loop from the front: the first failing event's error code, or None. */
  function Scan(events: seq<Value>, lastI: Num, lastT: Num, streams: Value): (e: Option<string>)
  {
    if events == [] then None
    else
      match EventError(events[0], lastI, lastT, streams)
      case Some(e) => Some(e)
      case None => Scan(events[1..], NumField(events[0], "i"), NumField(events[0], "tMs"), streams)
  }

  /** validateRecording(recording): Ok, or the first failing check's error code. */
  function Validate(rec: Value): (r: Result<(), string>)
  {
    match HeaderError(rec)
    case Some(e) => Err(e)
    case None =>
      match Scan(Get(rec, "events").items, Fin(-1.0), Fin(-1.0), Get(rec, "streamsObserved"))
      case Some(e) => Err(e)
      case None => Ok(())
  }

  /** The i values of the events, in order (NaN where an event has none). */
  function Indices(events: seq<Value>): (xs: seq<Num>)
    ensures |xs| == |events|
    ensures forall k :: 0 <= k < |events| ==> xs[k] == NumField(events[k], "i")
  {
    seq(|events|, k requires 0 <= k < |events| => NumField(events[k], "i"))
  }

  /** The tMs values of the events, in order (NaN where an event has none). */
  function Times(events: seq<Value>): (xs: seq<Num>)
    ensures |xs| == |events|
    ensures forall k :: 0 <= k < |events| ==> xs[k] == NumField(events[k], "tMs")
  {
    seq(|events|, k requires 0 <= k < |events| => NumField(events[k], "tMs"))
  }

  predicate StrictlyIncreasing(xs: seq<Num>)
  {
    forall k, l :: 0 <= k < l < |xs| ==> NumLess(xs[k], xs[l])
  }

  predicate NonDecreasing(xs: seq<Num>)
  {
    forall k, l :: 0 <= k < l < |xs| ==> !NumLess(xs[l], xs[k])
  }

  /** A first element below the second extends an increasing tail. */
  lemma StrictlyIncreasingCons(xs: seq<Num>)
    requires |xs| > 0 && StrictlyIncreasing(xs[1..])
    requires |xs| > 1 ==> NumLess(xs[0], xs[1])
    ensures StrictlyIncreasing(xs)
  {
    forall k, l | 0 <= k < l < |xs|
      ensures NumLess(xs[k], xs[l])
    {
      if k == 0 && l > 1 {
        assert xs[1..][l - 1] == xs[l];
        NumLessOrder(xs[0], xs[1], xs[l]);
      } else if k > 0 {
        assert xs[1..][k - 1] == xs[k] && xs[1..][l - 1] == xs[l];
      }
    }
  }

  /** A first element not above the second extends a non-decreasing tail of numbers. */
  lemma NonDecreasingCons(xs: seq<Num>)
    requires |xs| > 0 && NonDecreasing(xs[1..])
    requires forall k :: 0 <= k < |xs| ==> !xs[k].NaN?
    requires |xs| > 1 ==> !NumLess(xs[1], xs[0])
    ensures NonDecreasing(xs)
  {
    forall k, l | 0 <= k < l < |xs|
      ensures !NumLess(xs[l], xs[k])
    {
      if k == 0 && l > 1 {
        assert xs[1..][l - 2 + 1] == xs[l] && xs[1..][0] == xs[1];
        assert !NumLess(xs[l], xs[1]);
        NumLessOrder(xs[l], xs[1], xs[0]);
        NumLessOrder(xs[1], xs[l], xs[0]);
        NumLessOrder(xs[l], xs[0], xs[1]);
      } else if k > 0 {
        assert xs[1..][k - 1] == xs[k] && xs[1..][l - 1] == xs[l];
      }
    }
  }

  /** Removing the first element keeps an order. */
  lemma OrderedTail(xs: seq<Num>)
    requires |xs| > 0
    ensures StrictlyIncreasing(xs) ==> StrictlyIncreasing(xs[1..])
    ensures NonDecreasing(xs) ==> NonDecreasing(xs[1..])
  {
    assert forall k :: 0 <= k < |xs| - 1 ==> xs[1..][k] == xs[k + 1];
  }

  /** Every event passes its own checks. */
  predicate AllShapesOk(events: seq<Value>, streams: Value)
  {
    forall k :: 0 <= k < |events| ==> EventShapeOk(events[k], streams)
  }

  lemma AllShapesCons(events: seq<Value>, streams: Value)
    requires |events| > 0
    ensures AllShapesOk(events, streams) <==> EventShapeOk(events[0], streams) && AllShapesOk(events[1..], streams)
  {
    EveryCons(events, ev => EventShapeOk(ev, streams));
  }

  lemma EveryCons<T>(s: seq<T>, p: T -> bool)
    requires |s| > 0
    ensures (forall k :: 0 <= k < |s| ==> p(s[k])) <==> p(s[0]) && forall k :: 0 <= k < |s[1..]| ==> p(s[1..][k])
  {
    if p(s[0]) && forall k :: 0 <= k < |s[1..]| ==> p(s[1..][k]) {
      forall k | 0 < k < |s|
        ensures p(s[k])
      {
        assert s[k] == s[1..][k - 1];
      }
    }
  }

  lemma ShapesNotNaN(events: seq<Value>, streams: Value)
    requires AllShapesOk(events, streams)
    ensures forall k :: 0 <= k < |Times(events)| ==> !Times(events)[k].NaN?
  {
    forall k | 0 <= k < |events|
      ensures !Times(events)[k].NaN?
    {
      assert EventShapeOk(events[k], streams);
    }
  }

  lemma FieldsTail(events: seq<Value>)
    requires |events| > 0
    ensures Indices(events[1..]) == Indices(events)[1..]
    ensures Times(events[1..]) == Times(events)[1..]
    ensures Indices(events)[0] == NumField(events[0], "i") && Times(events)[0] == NumField(events[0], "tMs")
    ensures |events| > 1 ==> Indices(events)[1] == NumField(events[1], "i") && Times(events)[1] == NumField(events[1], "tMs")
  {
  }

  /**
   * The events of a valid recording, stated without the loop: each event
   * passes its own checks, the i values strictly increase and the tMs
   * values never decrease, between any two events.
   */
  predicate EventsOk(events: seq<Value>, streams: Value)
  {
    AllShapesOk(events, streams) && StrictlyIncreasing(Indices(events)) && NonDecreasing(Times(events))
  }

  /** An EventsOk list splits into its first event, ordered before the second, and an EventsOk tail. */
  lemma EventsOkUncons(events: seq<Value>, streams: Value)
    requires |events| > 0 && EventsOk(events, streams)
    ensures EventShapeOk(events[0], streams) && EventsOk(events[1..], streams)
    ensures |events| > 1 ==> (NumLess(NumField(events[0], "i"), NumField(events[1], "i"))
                              && !NumLess(NumField(events[1], "tMs"), NumField(events[0], "tMs")))
  {
    AllShapesCons(events, streams);
    FieldsTail(events);
    OrderedTail(Indices(events));
    OrderedTail(Times(events));
  }

  /** A first event that passes its checks, ordered before an EventsOk tail, gives an EventsOk list. */
  lemma EventsOkCons(events: seq<Value>, streams: Value)
    requires |events| > 0 && EventShapeOk(events[0], streams) && EventsOk(events[1..], streams)
    requires |events| > 1 ==> (NumLess(NumField(events[0], "i"), NumField(events[1], "i"))
                               && !NumLess(NumField(events[1], "tMs"), NumField(events[0], "tMs")))
    ensures EventsOk(events, streams)
  {
    AllShapesCons(events, streams);
    FieldsTail(events);
    StrictlyIncreasingCons(Indices(events));
    ShapesNotNaN(events, streams);
    NonDecreasingCons(Times(events));
  }

  /** Every index or time a valid event may carry lies above the loop's starting value -1. */
  lemma AboveStart(n: Num)
    requires NonNegative(n)
    ensures NumLess(Fin(-1.0), n) && !NumLess(n, Fin(-1.0))
  {
  }

  /** One step of the loop: a failing event ends it with an error, a passing one moves on. */
  lemma ScanStep(events: seq<Value>, lastI: Num, lastT: Num, streams: Value)
    requires events != []
    ensures EventError(events[0], lastI, lastT, streams).Some? ==> Scan(events, lastI, lastT, streams).Some?
    ensures EventError(events[0], lastI, lastT, streams).None? ==>
      Scan(events, lastI, lastT, streams) == Scan(events[1..], NumField(events[0], "i"), NumField(events[0], "tMs"), streams)
  {
  }

  /** The loop accepts exactly the events that are ordered after (lastI, lastT) and EventsOk. */
  lemma {:induction false} ScanAccepts(events: seq<Value>, lastI: Num, lastT: Num, streams: Value)
    requires !lastI.NaN? && !lastT.NaN?
    ensures Scan(events, lastI, lastT, streams).None? <==>
      (EventsOk(events, streams)
       && (events != [] ==> (NumLess(lastI, NumField(events[0], "i")) && !NumLess(NumField(events[0], "tMs"), lastT))))
  {
    if events != [] {
      var ev := events[0];
      var i := NumField(ev, "i");
      var t := NumField(ev, "tMs");
      ScanStep(events, lastI, lastT, streams);
      if EventsOk(events, streams) {
        EventsOkUncons(events, streams);
      }
      if EventError(ev, lastI, lastT, streams).None? {
        ScanAccepts(events[1..], i, t, streams);
        if Scan(events[1..], i, t, streams).None? {
          EventsOkCons(events, streams);
        }
      }
    }
  }

  /**
   * A recording is valid exactly when it has the charlie.recording format
   * at version 1.0.0, a mode, a non-empty list of non-blank bus names, an
   * 'ms' timeline, an object of observed streams and events whose i values
   * strictly increase from 0 on, whose tMs values are non-negative and
   * never decrease, and whose stream keys were all observed.
   */
  lemma ValidIff(rec: Value)
    ensures Validate(rec).Ok? <==> HeaderError(rec).None? && EventsOk(Get(rec, "events").items, Get(rec, "streamsObserved"))
  {
    if HeaderError(rec).None? {
      var events := Get(rec, "events").items;
      ScanAccepts(events, Fin(-1.0), Fin(-1.0), Get(rec, "streamsObserved"));
      if events != [] && EventsOk(events, Get(rec, "streamsObserved")) {
        EventsOkUncons(events, Get(rec, "streamsObserved"));
        AboveStart(NumField(events[0], "i"));
        AboveStart(NumField(events[0], "tMs"));
      }
    }
  }

  /** A valid recording's events carry increasing indices and non-decreasing, non-negative times. */
  lemma ValidEventsOrdered(rec: Value, k: nat, l: nat)
    requires Validate(rec).Ok?
    requires k < l < |Get(rec, "events").items|
    ensures var evs := Get(rec, "events").items;
      NumLess(NumField(evs[k], "i"), NumField(evs[l], "i"))
      && !NumLess(NumField(evs[l], "tMs"), NumField(evs[k], "tMs"))
      && NonNegative(NumField(evs[k], "tMs"))
  {
    ValidIff(rec);
    var evs := Get(rec, "events").items;
    assert Indices(evs)[k] == NumField(evs[k], "i") && Times(evs)[k] == NumField(evs[k], "tMs");
    assert Indices(evs)[l] == NumField(evs[l], "i") && Times(evs)[l] == NumField(evs[l], "tMs");
    assert EventShapeOk(evs[k], Get(rec, "streamsObserved"));
  }

  /** Scanning from idx on checks the event at idx, then scans on from idx + 1 with its i and tMs. */
  lemma ScanFrom(events: seq<Value>, idx: nat, lastI: Num, lastT: Num, streams: Value)
    requires idx < |events|
    ensures var err := EventError(events[idx], lastI, lastT, streams);
      Scan(events[idx..], lastI, lastT, streams) ==
        if err.Some? then err
        else Scan(events[idx + 1..], NumField(events[idx], "i"), NumField(events[idx], "tMs"), streams)
  {
    assert events[idx..][0] == events[idx] && events[idx..][1..] == events[idx + 1..];
  }

  /** The events loop of validateRecording: the first failing event's error code, or None. */
  method ScanEvents(events: seq<Value>, streams: Value) returns (e: Option<string>)
    ensures e == Scan(events, Fin(-1.0), Fin(-1.0), streams)
  {
    var lastT := Fin(-1.0);
    var lastI := Fin(-1.0);
    var idx := 0;
    while idx < |events|
      invariant 0 <= idx <= |events|
      invariant Scan(events, Fin(-1.0), Fin(-1.0), streams) == Scan(events[idx..], lastI, lastT, streams)
    {
      var ev := events[idx];
      ScanFrom(events, idx, lastI, lastT, streams);
      var err := EventError(ev, lastI, lastT, streams);
      if err.Some? {
        return err;
      }
      lastI := NumField(ev, "i");
      lastT := NumField(ev, "tMs");
      idx := idx + 1;
    }
    return None;
  }

  /** The bus-name loop of validateRecording. */
  method CheckBusNames(names: seq<Value>) returns (ok: bool)
    ensures ok <==> BusNamesOk(names)
  {
    for k := 0 to |names|
      invariant forall j :: 0 <= j < k ==> TrimmedOrBlank(names[j]) != []
    {
      if TrimmedOrBlank(names[k]) == [] {
        return false;
      }
    }
    return true;
  }

  /** validateRecording(recording), check by check. */
  method ValidateRecording(rec: Value) returns (r: Result<(), string>)
    ensures r == Validate(rec)
  {
    if !IsPlainObject(rec) {
      return Err("INVALID_RECORDING");
    }
    if Get(rec, "format") != Str(Format) {
      return Err("INVALID_FORMAT");
    }
    if !IsSemver(Get(rec, "version")) || Get(rec, "version") != Str(Version) {
      return Err("INVALID_VERSION");
    }
    var meta := Get(rec, "meta");
    if !IsPlainObject(meta) {
      return Err("INVALID_META");
    }
    if TrimmedOrBlank(Get(meta, "mode")) == [] {
      return Err("INVALID_META_MODE");
    }
    var buses := Get(meta, "buses");
    if !buses.Arr? || buses.items == [] {
      return Err("INVALID_META_BUSES");
    }
    var named := CheckBusNames(buses.items);
    if !named {
      return Err("INVALID_META_BUSES");
    }
    var timeline := Get(rec, "timeline");
    if !IsPlainObject(timeline) {
      return Err("INVALID_TIMELINE");
    }
    if TrimmedOrBlank(Get(timeline, "unit")) != "ms" {
      return Err("INVALID_TIMELINE_UNIT");
    }
    if !IsPlainObject(Get(rec, "streamsObserved")) {
      return Err("INVALID_STREAMS_OBSERVED");
    }
    if !Get(rec, "events").Arr? {
      return Err("INVALID_EVENTS");
    }
    var e := ScanEvents(Get(rec, "events").items, Get(rec, "streamsObserved"));
    if e.Some? {
      return Err(e.value);
    }
    return Ok(());
  }
}
