/**
 * The button controller: it turns buttonRaw:edge presses from the button
 * bus into button:press events on the main bus, for the configured
 * devices, suppressing a press that comes within the device's cooldown of
 * its last accepted press.
 */
module ButtonController {
  import opened Common
  import opened Js

  /** domainEventTypes.button.edge */
  const EdgeType: string := "buttonRaw:edge"

  /** The default cooldown, in ms. */
  const DefaultCooldownMs: int := 250

  /** The payload of a button:press event, with the event's ts. */
  datatype Press = Press(ts: int, coreRole: Value, deviceId: Value, publishAs: Value, sensorId: Value)

  /**
   * The controller's state: the configured devices by id, the time of each
   * device's last accepted press, whether the bus subscription is held and
   * the presses published on the main bus.
   */
  datatype Ctl = Ctl(devices: map<Value, Value>, last: map<Value, Option<int>>, subscribed: bool, published: seq<Press>)

  /** Every configured device has a last-press entry, and no other id has one. */
  predicate Inv(c: Ctl)
  {
    c.devices.Keys == c.last.Keys
  }

  /** Array.isArray(devices) ? devices : [] */
  function DeviceList(devices: Value): (list: seq<Value>)
    ensures devices.Arr? ==> list == devices.items
    ensures !devices.Arr? ==> list == []
  {
    if devices.Arr? then devices.items else []
  }

  /**
   * The constructor's loop: every entry with a truthy id is registered
   * under that id with no press yet; a later entry with the same id
   * replaces an earlier one.
   */
  function Register(list: seq<Value>): (r: (map<Value, Value>, map<Value, Option<int>>))
    ensures r.0.Keys == r.1.Keys
    ensures forall id :: id in r.1 ==> r.1[id] == None
    ensures forall id :: id in r.0 ==> Truthy(id) && Get(r.0[id], "id") == id
    ensures forall id :: id in r.0 <==> Truthy(id) && exists i :: 0 <= i < |list| && Get(list[i], "id") == id
  {
    if list == [] then (map[], map[])
    else
      var p := Register(list[..|list| - 1]);
      var d := list[|list| - 1];
      assert forall i :: 0 <= i < |list| - 1 ==> list[..|list| - 1][i] == list[i];
      var id := Get(d, "id");
      if !Truthy(id) then p else (p.0[id := d], p.1[id := None])
  }

  /** device.params?.cooldownMs ?? 250, as a number. */
  function Cooldown(device: Value): Num
  {
    ToNumber(OrElse(Get(Get(device, "params"), "cooldownMs"), Int(DefaultCooldownMs)))
  }

  /** `last !== null && cooldownMs > 0 && now - last < cooldownMs` */
  predicate Suppressed(last: Option<int>, cooldown: Num, now: int)
  {
    last.Some? && Positive(cooldown) && Below((now - last.value) as real, cooldown)
  }

  /** With no earlier press, or a cooldown that is not positive, nothing is suppressed. */
  lemma NoCooldownNoSuppression(last: Option<int>, cooldown: Num, now: int)
    requires last.None? || !Positive(cooldown)
    ensures !Suppressed(last, cooldown, now)
  {
  }

  /** event?.payload || {} */
  function PayloadOf(event: Value): (p: Value)
    ensures Truthy(Get(event, "payload")) ==> p == Get(event, "payload")
    ensures !Truthy(Get(event, "payload")) ==> p == Obj([])
  {
    Or(Get(event, "payload"), Obj([]))
  }

  /** The press #publishPress publishes: coreRole from the device, sensorId = publishAs ?? deviceId ?? null. */
  function PressOf(device: Value, deviceId: Value, publishAs: Value, now: int): (p: Press)
    ensures p.ts == now && p.deviceId == OrElse(deviceId, Null) && p.publishAs == OrElse(publishAs, Null)
    ensures !Nullish(publishAs) ==> p.sensorId == publishAs
    ensures Nullish(publishAs) && !Nullish(deviceId) ==> p.sensorId == deviceId
    ensures Nullish(OrElse(Get(device, "coreRole"), Get(device, "CoreRole"))) ==> p.coreRole == Null
  {
    var coreRole := OrElse(OrElse(Get(device, "coreRole"), Get(device, "CoreRole")), Null);
    Press(now, OrElse(coreRole, Null), OrElse(deviceId, Null), OrElse(publishAs, Null), OrElse(publishAs, OrElse(deviceId, Null)))
  }

  /** What #onEdge did with an event. */
  datatype Outcome = NotPress | MissingDeviceId | UnknownDevice | CooledDown | Accepted | PublishFailed

  /** #onEdge(event): the edge must be a press from a configured device outside its cooldown. */
  function OnEdge(c: Ctl, event: Value, now: int): (r: (Ctl, Outcome))
    requires Inv(c)
    ensures Inv(r.0) && r.0.devices == c.devices && r.0.subscribed == c.subscribed
    ensures r.1 == NotPress <==> Get(PayloadOf(event), "edge") != Str("press")
    ensures r.1 == MissingDeviceId <==> Get(PayloadOf(event), "edge") == Str("press") && !Truthy(Get(PayloadOf(event), "deviceId"))
    ensures r.1 == UnknownDevice <==> (Get(PayloadOf(event), "edge") == Str("press") && Truthy(Get(PayloadOf(event), "deviceId"))
      && Get(PayloadOf(event), "deviceId") !in c.devices)
    ensures r.1 in {NotPress, MissingDeviceId, UnknownDevice, CooledDown, Accepted}
    ensures r.1 != Accepted ==> r.0 == c
    ensures var id := Get(PayloadOf(event), "deviceId");
      r.1 in {CooledDown, Accepted} ==> id in c.devices && (r.1 == CooledDown <==> Suppressed(c.last[id], Cooldown(c.devices[id]), now))
    ensures var id := Get(PayloadOf(event), "deviceId");
      r.1 == Accepted ==> (r.0.last == c.last[id := Some(now)]
        && r.0.published == c.published + [PressOf(c.devices[id], id, Get(PayloadOf(event), "publishAs"), now)])
  {
    var p := PayloadOf(event);
    if Get(p, "edge") != Str("press") then (c, NotPress)
    else
      var deviceId := Get(p, "deviceId");
      if !Truthy(deviceId) then (c, MissingDeviceId)
      else if deviceId !in c.devices then (c, UnknownDevice)
      else
        var device := c.devices[deviceId];
        if Suppressed(c.last[deviceId], Cooldown(device), now) then (c, CooledDown)
        else
          (c.(last := c.last[deviceId := Some(now)],
              published := c.published + [PressOf(device, deviceId, Get(p, "publishAs"), now)]), Accepted)
  }

  /** The subscription callback: only buttonRaw:edge events reach #onEdge, and only while subscribed. */
  function Deliver(c: Ctl, event: Value, now: int): (r: Ctl)
    requires Inv(c)
    ensures Inv(r) && r.devices == c.devices && r.subscribed == c.subscribed
    ensures !c.subscribed || Get(event, "type") != Str(EdgeType) ==> r == c
    ensures c.subscribed && Get(event, "type") == Str(EdgeType) ==> r == OnEdge(c, event, now).0
  {
    if !c.subscribed || Get(event, "type") != Str(EdgeType) then c
    else OnEdge(c, event, now).0
  }

  /** The callback over a run of events, each with the clock's time. */
  function Run(c: Ctl, steps: seq<(Value, int)>): (r: Ctl)
    requires Inv(c)
    ensures Inv(r) && r.devices == c.devices && r.subscribed == c.subscribed
    ensures |r.published| >= |c.published| && r.published[..|c.published|] == c.published
  {
    if steps == [] then c
    else
      var p := Run(c, steps[..|steps| - 1]);
      var r := Deliver(p, steps[|steps| - 1].0, steps[|steps| - 1].1);
      assert r.published[..|p.published|] == p.published;
      r
  }

  /**
   * After an accepted press at t0 with a finite positive cooldown, no
   * further press of that device is published while the clock stays
   * within the cooldown, and its last press stays t0.
   */
  lemma {:induction false} QuietDuringCooldown(c: Ctl, id: Value, t0: int, steps: seq<(Value, int)>)
    requires Inv(c) && id in c.devices && c.last[id] == Some(t0)
    requires Cooldown(c.devices[id]).Fin? && Cooldown(c.devices[id]).v > 0.0
    requires forall k :: 0 <= k < |steps| ==> t0 <= steps[k].1 && ((steps[k].1 - t0) as real) < Cooldown(c.devices[id]).v
    ensures Run(c, steps).last[id] == Some(t0)
    ensures forall k :: |c.published| <= k < |Run(c, steps).published| ==> Run(c, steps).published[k].deviceId != id
  {
    if steps != [] {
      var init := steps[..|steps| - 1];
      assert forall k :: 0 <= k < |init| ==> init[k] == steps[k];
      QuietDuringCooldown(c, id, t0, init);
      var p := Run(c, init);
      var r := Run(c, steps);
      assert r == Deliver(p, steps[|steps| - 1].0, steps[|steps| - 1].1);
      QuietStep(p, id, t0, steps[|steps| - 1].0, steps[|steps| - 1].1);
      assert forall k :: |c.published| <= k < |p.published| ==> r.published[k] == p.published[k];
    }
  }

  /** One event inside the cooldown: the device's last press stays, and any press published is another device's. */
  lemma QuietStep(p: Ctl, id: Value, t0: int, event: Value, now: int)
    requires Inv(p) && id in p.devices && p.last[id] == Some(t0)
    requires Cooldown(p.devices[id]).Fin? && Cooldown(p.devices[id]).v > 0.0
    requires t0 <= now && ((now - t0) as real) < Cooldown(p.devices[id]).v
    ensures Deliver(p, event, now).last[id] == Some(t0)
    ensures forall k :: |p.published| <= k < |Deliver(p, event, now).published| ==> Deliver(p, event, now).published[k].deviceId != id
  {
    assert Suppressed(p.last[id], Cooldown(p.devices[id]), now);
  }

  // ------------------------------------------------------------------
  // The code as written

  /**
   * #onEdge as written: eventTypes (src/core/eventTypes.js) has no button
   * entry, so reading eventTypes.button.press in #publishPress throws a
   * TypeError after the press time has been recorded.
   */
  function OnEdgeAsWritten(c: Ctl, event: Value, now: int): (r: (Ctl, Outcome))
    requires Inv(c)
    ensures r.0.published == c.published
    ensures r.1 == PublishFailed <==> OnEdge(c, event, now).1 == Accepted
    ensures r.1 == PublishFailed ==> r.0.last == OnEdge(c, event, now).0.last
    ensures r.1 != PublishFailed ==> r == OnEdge(c, event, now)
  {
    var r := OnEdge(c, event, now);
    if r.1 == Accepted then (r.0.(published := c.published), PublishFailed) else r
  }

  /** A configured button with the default cooldown. */
  const SampleButton: Value := Obj([Prop("id", Str("b1"))])

  function PressEvent(id: string): Value
  {
    Obj([Prop("type", Str(EdgeType)), Prop("payload", Obj([Prop("edge", Str("press")), Prop("deviceId", Str(id))]))])
  }

  /**
   * As written, an accepted press publishes nothing yet starts the
   * cooldown: the same press repeated within the cooldown is suppressed,
   * so no button:press is ever published.
   */
  lemma AsWrittenPressIsLost(c: Ctl, event: Value, t0: int, t1: int)
    requires Inv(c) && OnEdge(c, event, t0).1 == Accepted
    requires var id := Get(PayloadOf(event), "deviceId");
      Cooldown(c.devices[id]).Fin? && t0 <= t1 && ((t1 - t0) as real) < Cooldown(c.devices[id]).v
    ensures var a := OnEdgeAsWritten(c, event, t0);
      a.1 == PublishFailed && a.0.published == c.published && OnEdgeAsWritten(a.0, event, t1).1 == CooledDown
  {
    var id := Get(PayloadOf(event), "deviceId");
    var a := OnEdgeAsWritten(c, event, t0);
    assert a.0.last[id] == Some(t0) && a.0.devices == c.devices;
    SuppressedPress(a.0, event, t1);
  }

  /** A press from a configured device whose cooldown is running is suppressed. */
  lemma SuppressedPress(c: Ctl, event: Value, now: int)
    requires Inv(c) && Get(PayloadOf(event), "edge") == Str("press")
    requires var id := Get(PayloadOf(event), "deviceId");
      id in c.devices && Truthy(id) && Suppressed(c.last[id], Cooldown(c.devices[id]), now)
    ensures OnEdge(c, event, now).1 == CooledDown && OnEdgeAsWritten(c, event, now).1 == CooledDown
  {
  }

  /** With the event type defined, a first press of a configured button b1 publishes one button:press for b1. */
  lemma CorrectedPressIsPublished()
    ensures var c := Ctl(map[Str("b1") := SampleButton], map[Str("b1") := None], true, []);
      var a := OnEdge(c, PressEvent("b1"), 1000);
      a.1 == Accepted && |a.0.published| == 1 && a.0.published[0].sensorId == Str("b1")
  {
    var e := PressEvent("b1");
    assert Get(e, "payload") == Obj([Prop("edge", Str("press")), Prop("deviceId", Str("b1"))]);
    assert Get(PayloadOf(e), "edge") == Str("press");
    assert Get(PayloadOf(e), "deviceId") == Str("b1");
    assert Get(PayloadOf(e), "publishAs") == Undefined;
  }

  // ------------------------------------------------------------------
  // The class

  class Controller {
    var devices: map<Value, Value>
    var last: map<Value, Option<int>>
    var subscribed: bool
    var published: seq<Press>

    function State(): Ctl
      reads this
    {
      Ctl(devices, last, subscribed, published)
    }

    constructor (deviceList: Value)
      ensures (State().devices, State().last) == Register(DeviceList(deviceList))
      ensures !subscribed && published == [] && Inv(State())
    {
      var list := DeviceList(deviceList);
      var ds: map<Value, Value> := map[];
      var ls: map<Value, Option<int>> := map[];
      for i := 0 to |list|
        invariant (ds, ls) == Register(list[..i])
      {
        assert list[..i + 1][..i] == list[..i];
        var id := Get(list[i], "id");
        if Truthy(id) {
          ds := ds[id := list[i]];
          ls := ls[id := None];
        }
      }
      assert list[..|list|] == list;
      devices := ds;
      last := ls;
      subscribed := false;
      published := [];
    }

    method Start()
      modifies this
      ensures State() == old(State()).(subscribed := true)
    {
      if subscribed {
        return;
      }
      subscribed := true;
    }

    method Dispose()
      modifies this
      ensures State() == old(State()).(subscribed := false)
    {
      if !subscribed {
        return;
      }
      subscribed := false;
    }

    /** The bus delivering an event while the clock reads now. */
    method OnEvent(event: Value, now: int)
      requires Inv(State())
      modifies this
      ensures State() == Deliver(old(State()), event, now)
    {
      if !subscribed || Get(event, "type") != Str(EdgeType) {
        return;
      }
      var p := PayloadOf(event);
      if Get(p, "edge") != Str("press") {
        return;
      }
      var deviceId := Get(p, "deviceId");
      if !Truthy(deviceId) {
        return;
      }
      if deviceId !in devices {
        return;
      }
      var device := devices[deviceId];
      if Suppressed(last[deviceId], Cooldown(device), now) {
        return;
      }
      last := last[deviceId := Some(now)];
      published := published + [PressOf(device, deviceId, Get(p, "publishAs"), now)];
    }
  }
}
