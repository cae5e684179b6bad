/**
 * The vibration controller: it turns vibrationRaw:hit events from the
 * vibration bus into vibration:hit events on the main bus, for the
 * configured and enabled sensors, dropping a hit that comes within the
 * sensor's cooldown of its last accepted hit.
 */
module VibrationController {
  import opened Common
  import opened Js

  /** domainEventTypes.vibration.hit */
  const HitType: string := "vibrationRaw:hit"

  /** The payload of a vibration:hit event, with the event's ts. */
  datatype Hit = Hit(ts: int, level: Value, sensorId: Value)

  /**
   * The controller's state: the configured sensors by id, the time of each
   * sensor's last accepted hit, whether the bus subscription is held and
   * the hits published on the main bus.
   */
  datatype Ctl = Ctl(sensors: map<Value, Value>, last: map<Value, Option<int>>, subscribed: bool, published: seq<Hit>)

  /** Every configured sensor has a last-hit entry, and no other id has one. */
  predicate Inv(c: Ctl)
  {
    c.sensors.Keys == c.last.Keys
  }

  /**
   * The constructor's loop over Array.isArray(devices) ? devices : []:
   * every entry with a truthy id is registered under that id with no hit
   * yet; a later entry with the same id replaces an earlier one.
   */
  function Register(list: seq<Value>): (r: (map<Value, Value>, map<Value, Option<int>>))
    ensures r.0.Keys == r.1.Keys
    ensures forall id :: id in r.1 ==> r.1[id] == None
    ensures forall id :: id in r.0 ==> Truthy(id) && Get(r.0[id], "id") == id
    ensures forall id :: id in r.0 <==> Truthy(id) && exists i :: 0 <= i < |list| && Get(list[i], "id") == id
  {
    if list == [] then (map[], map[])
    else
      var p := Register(list[..|list| - 1]);
      var s := list[|list| - 1];
      assert forall i :: 0 <= i < |list| - 1 ==> list[..|list| - 1][i] == list[i];
      var id := Get(s, "id");
      if !Truthy(id) then p else (p.0[id := s], p.1[id := None])
  }

  /** sensor.params?.cooldownMs ?? 0, as a number: no cooldown unless configured. */
  function Cooldown(sensor: Value): Num
  {
    ToNumber(OrElse(Get(Get(sensor, "params"), "cooldownMs"), Int(0)))
  }

  /** `last !== null && cooldownMs > 0 && now - last < cooldownMs` */
  predicate Suppressed(last: Option<int>, cooldown: Num, now: int)
  {
    last.Some? && Positive(cooldown) && Below((now - last.value) as real, cooldown)
  }

  /** A sensor without a configured cooldown never drops a hit. */
  lemma DefaultNoCooldown(sensor: Value, last: Option<int>, now: int)
    requires Nullish(Get(Get(sensor, "params"), "cooldownMs"))
    ensures !Suppressed(last, Cooldown(sensor), now)
  {
    assert Cooldown(sensor) == Fin(0.0);
  }

  /** sensor.level || sensor.params?.level || 'unknown' */
  function LevelOf(sensor: Value): (l: Value)
    ensures Truthy(l)
    ensures Truthy(Get(sensor, "level")) ==> l == Get(sensor, "level")
    ensures !Truthy(Get(sensor, "level")) && !Truthy(Get(Get(sensor, "params"), "level")) ==> l == Str("unknown")
  {
    Or(Get(sensor, "level"), Or(Get(Get(sensor, "params"), "level"), Str("unknown")))
  }

  /** What #onHit did with an event. */
  datatype Outcome = UnknownSensor | Disabled | CooledDown | Accepted | PublishFailed

  /** #onHit(event): the hit must come from a configured sensor that is not disabled, outside its cooldown. */
  function OnHit(c: Ctl, event: Value, now: int): (r: (Ctl, Outcome))
    requires Inv(c)
    ensures Inv(r.0) && r.0.sensors == c.sensors && r.0.subscribed == c.subscribed
    ensures var id := Get(Or(Get(event, "payload"), Obj([])), "sensorId");
      (r.1 == UnknownSensor <==> id !in c.sensors)
      && (r.1 == Disabled <==> id in c.sensors && Get(c.sensors[id], "enabled") == Bool(false))
      && (r.1 == CooledDown <==> (id in c.sensors && Get(c.sensors[id], "enabled") != Bool(false)
                                  && Suppressed(c.last[id], Cooldown(c.sensors[id]), now)))
      && (r.1 == Accepted ==> (r.0.last == c.last[id := Some(now)]
                               && r.0.published == c.published + [Hit(now, LevelOf(c.sensors[id]), id)]))
    ensures r.1 != PublishFailed
    ensures r.1 != Accepted ==> r.0 == c
  {
    var p := Or(Get(event, "payload"), Obj([]));
    var sensorId := Get(p, "sensorId");
    if sensorId !in c.sensors then (c, UnknownSensor)
    else
      var sensor := c.sensors[sensorId];
      if Get(sensor, "enabled") == Bool(false) then (c, Disabled)
      else if Suppressed(c.last[sensorId], Cooldown(sensor), now) then (c, CooledDown)
      else
        (c.(last := c.last[sensorId := Some(now)],
            published := c.published + [Hit(now, LevelOf(sensor), sensorId)]), Accepted)
  }

  /** The subscription callback: only vibrationRaw:hit events reach #onHit, and only while subscribed. */
  function Deliver(c: Ctl, event: Value, now: int): (r: Ctl)
    requires Inv(c)
    ensures Inv(r) && r.sensors == c.sensors && r.subscribed == c.subscribed
    ensures !c.subscribed || Get(event, "type") != Str(HitType) ==> r == c
    ensures c.subscribed && Get(event, "type") == Str(HitType) ==> r == OnHit(c, event, now).0
  {
    if !c.subscribed || Get(event, "type") != Str(HitType) then c
    else OnHit(c, event, now).0
  }

  /** The callback over a run of events, each with the clock's time. */
  function Run(c: Ctl, steps: seq<(Value, int)>): (r: Ctl)
    requires Inv(c)
    ensures Inv(r) && r.sensors == c.sensors && r.subscribed == c.subscribed
    ensures |r.published| >= |c.published| && r.published[..|c.published|] == c.published
  {
    if steps == [] then c
    else
      var p := Run(c, steps[..|steps| - 1]);
      var r := Deliver(p, steps[|steps| - 1].0, steps[|steps| - 1].1);
      assert r.published[..|p.published|] == p.published;
      r
  }

  /** A sensor configured with enabled: false never publishes a hit, whatever the events. */
  lemma {:induction false} DisabledNeverPublishes(c: Ctl, id: Value, steps: seq<(Value, int)>)
    requires Inv(c) && id in c.sensors && Get(c.sensors[id], "enabled") == Bool(false)
    ensures forall k :: |c.published| <= k < |Run(c, steps).published| ==> Run(c, steps).published[k].sensorId != id
    ensures Run(c, steps).last[id] == c.last[id]
  {
    if steps != [] {
      var init := steps[..|steps| - 1];
      DisabledNeverPublishes(c, id, init);
      var p := Run(c, init);
      var r := Run(c, steps);
      assert r == Deliver(p, steps[|steps| - 1].0, steps[|steps| - 1].1);
      assert forall k :: |c.published| <= k < |p.published| ==> r.published[k] == p.published[k];
    }
  }

  /** Two accepted hits of one sensor are at least its cooldown apart when the clock does not go back. */
  lemma AcceptedHitsSpaced(c: Ctl, event: Value, now: int)
    requires Inv(c) && OnHit(c, event, now).1 == Accepted
    requires var id := Get(Or(Get(event, "payload"), Obj([])), "sensorId");
      c.last[id].Some? && c.last[id].value <= now && Cooldown(c.sensors[id]).Fin? && Cooldown(c.sensors[id]).v > 0.0
    ensures var id := Get(Or(Get(event, "payload"), Obj([])), "sensorId");
      ((now - c.last[id].value) as real) >= Cooldown(c.sensors[id]).v
  {
  }

  // ------------------------------------------------------------------
  // The code as written

  /**
   * #onHit as written: eventTypes (src/core/eventTypes.js) has no
   * vibration entry, so reading eventTypes.vibration.hit in #publishHit
   * throws a TypeError after the hit time has been recorded.
   */
  function OnHitAsWritten(c: Ctl, event: Value, now: int): (r: (Ctl, Outcome))
    requires Inv(c)
    ensures r.0.published == c.published
    ensures r.1 == PublishFailed <==> OnHit(c, event, now).1 == Accepted
    ensures r.1 == PublishFailed ==> r.0.last == OnHit(c, event, now).0.last
    ensures r.1 != PublishFailed ==> r == OnHit(c, event, now)
  {
    var r := OnHit(c, event, now);
    if r.1 == Accepted then (r.0.(published := c.published), PublishFailed) else r
  }

  /** A hit from a configured sensor s1 with no cooldown, first hit at 1000 ms. */
  lemma CorrectedHitIsPublished()
    ensures var s1 := Obj([Prop("id", Str("s1"))]);
      var c := Ctl(map[Str("s1") := s1], map[Str("s1") := None], true, []);
      var e := Obj([Prop("payload", Obj([Prop("sensorId", Str("s1"))]))]);
      OnHit(c, e, 1000).1 == Accepted && OnHit(c, e, 1000).0.published == [Hit(1000, Str("unknown"), Str("s1"))]
      && OnHitAsWritten(c, e, 1000).0.published == []
  {
    var s1 := Obj([Prop("id", Str("s1"))]);
    var e := Obj([Prop("payload", Obj([Prop("sensorId", Str("s1"))]))]);
    assert Get(Or(Get(e, "payload"), Obj([])), "sensorId") == Str("s1");
    assert Get(s1, "enabled") == Undefined && Get(s1, "level") == Undefined && Get(s1, "params") == Undefined;
  }

  // ------------------------------------------------------------------
  // The class

  class Controller {
    var sensors: map<Value, Value>
    var last: map<Value, Option<int>>
    var subscribed: bool
    var published: seq<Hit>

    function State(): Ctl
      reads this
    {
      Ctl(sensors, last, subscribed, published)
    }

    constructor (devices: Value)
      ensures (State().sensors, State().last) == Register(if devices.Arr? then devices.items else [])
      ensures !subscribed && published == [] && Inv(State())
    {
      var list := if devices.Arr? then devices.items else [];
      var ss: map<Value, Value> := map[];
      var ls: map<Value, Option<int>> := map[];
      for i := 0 to |list|
        invariant (ss, ls) == Register(list[..i])
      {
        assert list[..i + 1][..i] == list[..i];
        var id := Get(list[i], "id");
        if Truthy(id) {
          ss := ss[id := list[i]];
          ls := ls[id := None];
        }
      }
      assert list[..|list|] == list;
      sensors := ss;
      last := ls;
      subscribed := false;
      published := [];
    }

    method Start()
      modifies this
      ensures State() == old(State()).(subscribed := true)
    {
      if subscribed {
        return;
      }
      subscribed := true;
    }

    method Dispose()
      modifies this
      ensures State() == old(State()).(subscribed := false)
    {
      if !subscribed {
        return;
      }
      subscribed := false;
    }

    /** The bus delivering an event while the clock reads now. */
    method OnEvent(event: Value, now: int)
      requires Inv(State())
      modifies this
      ensures State() == Deliver(old(State()), event, now)
    {
      if !subscribed || Get(event, "type") != Str(HitType) {
        return;
      }
      var p := Or(Get(event, "payload"), Obj([]));
      var sensorId := Get(p, "sensorId");
      if sensorId !in sensors {
        return;
      }
      var sensor := sensors[sensorId];
      if Get(sensor, "enabled") == Bool(false) {
        return;
      }
      if Suppressed(last[sensorId], Cooldown(sensor), now) {
        return;
      }
      last := last[sensorId := Some(now)];
      published := published + [Hit(now, LevelOf(sensor), sensorId)];
    }
  }
}
