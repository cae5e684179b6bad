/**
 * The buttonEdge device: it subscribes to a binary input and publishes a
 * buttonRaw:edge press on every rising edge while it is enabled. There is
 * no debounce here; block and unblock only switch publishing off and on.
 * A virtual input can be pressed by inject, which drives the input high
 * and, after the hold time, low again.
 */
module ButtonEdge {
  import opened Common
  import opened Js
  import BaseDevice

  /** The buttonRaw:edge event: its ts and the payload's deviceId and publishAs (edge is always press). */
  datatype Press = Press(ts: int, deviceId: string, publishAs: string)

  function PressOf(cfg: BaseDevice.DeviceConfig, now: int): (p: Press)
    ensures p.deviceId == cfg.id && p.publishAs == BaseDevice.PublishAs(cfg) && p.ts == now
  {
    Press(now, cfg.id, BaseDevice.PublishAs(cfg))
  }

  // ------------------------------------------------------------------
  // The subscription callback

  /** What the callback reads and writes: #enabled and #last. */
  datatype EdgeState = EdgeState(enabled: bool, last: Option<bool>)

  /** One call of the callback: Boolean(value) becomes #last; a press is published on a rising edge while enabled. */
  function OnLevel(s: EdgeState, value: Value): (r: (EdgeState, bool))
    ensures r.0.enabled == s.enabled && r.0.last == Some(Truthy(value))
    ensures r.1 ==> s.enabled && Truthy(value)
    ensures s.enabled && Truthy(value) ==> (r.1 <==> s.last != Some(true))
  {
    var v := Truthy(value);
    (EdgeState(s.enabled, Some(v)), s.enabled && v && s.last != Some(true))
  }

  /** The callback over a sequence of levels: the final state and the positions at which a press was published. */
  function Feed(s: EdgeState, levels: seq<bool>): (r: (EdgeState, seq<nat>))
    ensures r.0.enabled == s.enabled
    ensures r.0.last == if levels == [] then s.last else Some(levels[|levels| - 1])
    ensures forall k :: 0 <= k < |r.1| ==> r.1[k] < |levels|
  {
    if levels == [] then (s, [])
    else
      var p := Feed(s, levels[..|levels| - 1]);
      var step := OnLevel(p.0, Bool(levels[|levels| - 1]));
      (step.0, p.1 + (if step.1 then [|levels| - 1] else []))
  }

  /** A rising edge at position i: the level is high and the one before (or the last seen before the run) is not. */
  predicate RisingAt(before: Option<bool>, levels: seq<bool>, i: nat)
    requires i < |levels|
  {
    levels[i] && (if i == 0 then before != Some(true) else !levels[i - 1])
  }

  /** A press is published at exactly the rising edges, and only while enabled. */
  lemma {:induction false} PressesAreRisingEdges(s: EdgeState, levels: seq<bool>)
    ensures forall i: nat :: i in Feed(s, levels).1 <==> i < |levels| && s.enabled && RisingAt(s.last, levels, i)
  {
    if levels != [] {
      var init := levels[..|levels| - 1];
      PressesAreRisingEdges(s, init);
      var n := |levels| - 1;
      var p := Feed(s, init);
      assert forall i: nat :: i < n ==> (RisingAt(s.last, init, i) <==> RisingAt(s.last, levels, i));
      assert p.0.last == if n == 0 then s.last else Some(levels[n - 1]);
    }
  }

  /** Two presses are always separated by a release. */
  lemma ReleaseBetweenPresses(s: EdgeState, levels: seq<bool>, i: nat, j: nat)
    requires i < j && i in Feed(s, levels).1 && j in Feed(s, levels).1
    ensures exists k :: i < k < j && !levels[k]
  {
    PressesAreRisingEdges(s, levels);
    assert RisingAt(s.last, levels, i) && RisingAt(s.last, levels, j);
    assert i < j - 1 && !levels[j - 1];
  }

  // ------------------------------------------------------------------
  // The whole device

  /**
   * The device's state: #enabled, #last, whether the input subscription is
   * held (#unsub), the level of its virtual input and the presses
   * published so far.
   */
  datatype Edge = Edge(enabled: bool, last: Option<bool>, subscribed: bool, level: bool, published: seq<Press>)

  /** The constructor: enabled when the configured state is active. */
  function Initial(cfg: BaseDevice.DeviceConfig, initialLevel: bool): (e: Edge)
    ensures e.enabled <==> BaseDevice.ConfiguredState(cfg) == "active"
    ensures !e.subscribed && e.last.None? && e.published == [] && e.level == initialLevel
  {
    Edge(BaseDevice.ConfiguredState(cfg) == "active", None, false, initialLevel, [])
  }

  /** start(): subscribes once, forgetting the last level; a second start changes nothing. */
  function StartEdge(e: Edge): (r: Edge)
    ensures e.subscribed ==> r == e
    ensures !e.subscribed ==> r == e.(subscribed := true, last := None)
  {
    if e.subscribed then e else e.(subscribed := true, last := None)
  }

  /** dispose(): the subscription and the input's handlers are dropped. */
  function DisposeEdge(e: Edge): (r: Edge)
    ensures !r.subscribed && r == e.(subscribed := false)
  {
    e.(subscribed := false)
  }

  /** The callback, run only while subscribed; it publishes through the device's own config. */
  function Deliver(cfg: BaseDevice.DeviceConfig, e: Edge, value: Value, now: int): (r: Edge)
    ensures r.enabled == e.enabled && r.subscribed == e.subscribed && r.level == e.level
    ensures !e.subscribed ==> r == e
    ensures e.subscribed ==> r.last == Some(Truthy(value))
    ensures r.published == e.published || r.published == e.published + [PressOf(cfg, now)]
    ensures r.published != e.published <==> e.subscribed && e.enabled && Truthy(value) && e.last != Some(true)
  {
    if !e.subscribed then e
    else
      var step := OnLevel(EdgeState(e.enabled, e.last), value);
      e.(last := step.0.last, published := e.published + (if step.1 then [PressOf(cfg, now)] else []))
  }

  /** set(value) on the device's virtual input: a change of level is passed to the callback. */
  function SetInput(cfg: BaseDevice.DeviceConfig, e: Edge, value: Value, now: int): (r: Edge)
    ensures r.level == Truthy(value)
    ensures Truthy(value) == e.level ==> r == e
    ensures Truthy(value) != e.level ==> r == Deliver(cfg, e.(level := Truthy(value)), Bool(Truthy(value)), now)
  {
    var next := Truthy(value);
    if next == e.level then e else Deliver(cfg, e.(level := next), Bool(next), now)
  }

  /**
   * The checks of inject(command): the hold time for a press on a settable
   * input (Number(ms) when positive, else 30), or the message it throws.
   */
  function InjectCommand(command: Value, settable: bool): (r: Result<Num, string>)
    ensures r == Err("unsupported_command") <==> Get(command, "type") != Str("press")
    ensures r == Err("inject_requires_settable_input") <==> Get(command, "type") == Str("press") && !settable
    ensures r.Ok? ==> Positive(r.value)
    ensures r.Ok? ==> (r.value == Fin(30.0) <==> !Positive(ToNumber(Get(command, "ms"))) || ToNumber(Get(command, "ms")) == Fin(30.0))
  {
    if Get(command, "type") != Str("press") then Err("unsupported_command")
    else
      var ms := ToNumber(Get(command, "ms"));
      var holdMs := if Positive(ms) then ms else Fin(30.0);
      if !settable then Err("inject_requires_settable_input")
      else Ok(holdMs)
  }

  /** inject(command): on success the input is driven high now; the release after the hold time is ReleaseEdge. */
  function InjectEdge(cfg: BaseDevice.DeviceConfig, settable: bool, e: Edge, command: Value, now: int): (r: (Edge, Result<Num, string>))
    ensures r.1 == InjectCommand(command, settable)
    ensures r.1.Err? ==> r.0 == e
    ensures r.1.Ok? ==> r.0 == SetInput(cfg, e, Bool(true), now)
  {
    match InjectCommand(command, settable)
    case Err(msg) => (e, Err(msg))
    case Ok(holdMs) => (SetInput(cfg, e, Bool(true), now), Ok(holdMs))
  }

  /** The timer inject arms: the input is driven low again. */
  function ReleaseEdge(cfg: BaseDevice.DeviceConfig, e: Edge, now: int): (r: Edge)
    ensures r.level == false && r.published == e.published
  {
    SetInput(cfg, e, Bool(false), now)
  }

  /** An injected press on a started, enabled device with the input low publishes one press; the release publishes nothing. */
  lemma InjectThenRelease(cfg: BaseDevice.DeviceConfig, e: Edge, command: Value, t0: int, t1: int)
    requires e.subscribed && e.enabled && !e.level && e.last != Some(true)
    requires InjectCommand(command, true).Ok?
    ensures var pressed := InjectEdge(cfg, true, e, command, t0).0;
      pressed.published == e.published + [PressOf(cfg, t0)]
      && ReleaseEdge(cfg, pressed, t1).published == pressed.published
      && ReleaseEdge(cfg, pressed, t1) == pressed.(level := false, last := Some(false))
  {
    var pressed := InjectEdge(cfg, true, e, command, t0).0;
    assert pressed == Deliver(cfg, e.(level := true), Bool(true), t0);
  }

  class ButtonEdgeDevice {
    const cfg: BaseDevice.DeviceConfig
    /** Whether the input has a settable level (the virtual protocol). */
    const settable: bool
    var enabled: bool
    var last: Option<bool>
    var subscribed: bool
    var level: bool
    var published: seq<Press>

    function State(): Edge
      reads this
    {
      Edge(enabled, last, subscribed, level, published)
    }

    constructor (cfg: BaseDevice.DeviceConfig, settable: bool, initialLevel: bool)
      requires cfg.id != []
      ensures this.cfg == cfg && this.settable == settable
      ensures State() == Initial(cfg, initialLevel)
    {
      this.cfg := cfg;
      this.settable := settable;
      enabled := BaseDevice.ConfiguredState(cfg) == "active";
      last := None;
      subscribed := false;
      level := initialLevel;
      published := [];
    }

    method Start()
      modifies this
      ensures State() == StartEdge(old(State()))
    {
      if subscribed {
        return;
      }
      last := None;
      subscribed := true;
    }

    method Dispose()
      modifies this
      ensures State() == DisposeEdge(old(State()))
    {
      subscribed := false;
    }

    method Block()
      modifies this
      ensures State() == old(State()).(enabled := false)
    {
      enabled := false;
    }

    method Unblock()
      modifies this
      ensures State() == old(State()).(enabled := true)
    {
      enabled := true;
    }

    /** The subscription callback, called by the input with a level. */
    method OnValue(value: Value, now: int)
      modifies this
      ensures State() == Deliver(cfg, old(State()), value, now)
    {
      if !subscribed {
        return;
      }
      var v := Truthy(value);
      if enabled && v && last != Some(true) {
        published := published + [PressOf(cfg, now)];
      }
      last := Some(v);
    }

    /** The virtual input's set(value). */
    method SetLevel(value: Value, now: int)
      modifies this
      ensures State() == SetInput(cfg, old(State()), value, now)
    {
      var next := Truthy(value);
      if next == level {
        return;
      }
      level := next;
      OnValue(Bool(next), now);
    }

    method Inject(command: Value, now: int) returns (r: Result<Num, string>)
      modifies this
      ensures (State(), r) == InjectEdge(cfg, settable, old(State()), command, now)
    {
      if Get(command, "type") != Str("press") {
        return Err("unsupported_command");
      }
      var ms := ToNumber(Get(command, "ms"));
      var holdMs := if Positive(ms) then ms else Fin(30.0);
      if !settable {
        return Err("inject_requires_settable_input");
      }
      SetLevel(Bool(true), now);
      r := Ok(holdMs);
    }

    /** The hold timer firing. */
    method Release(now: int)
      modifies this
      ensures State() == ReleaseEdge(cfg, old(State()), now)
    {
      SetLevel(Bool(false), now);
    }
  }
}
