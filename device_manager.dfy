/**
 * The device manager: it reads config.devices, starts the devices of the
 * current mode, keeps a runtime state per configured device id
 * (active, degraded, manualBlocked) and publishes every change of it on
 * the main bus as a system hardware event. block, unblock and inject act
 * on a device by id and answer { ok, error }.
 */
module DeviceManager {
  import opened Common
  import opened Js
  import BaseDevice
  import ButtonEdge

  /** An entry of config.devices: the device fields, its role and its protocol's type and initial level. */
  datatype DeviceEntry = DeviceEntry(
    device: BaseDevice.DeviceConfig,
    role: Option<string>,
    protocolType: Option<string>,
    initial: bool)

  /** The detail object of a hardware event. */
  datatype Detail =
    | Phase(phase: string)
    | PhaseError(phase: string, error: string)
    | Reason(reason: string)
    | ReasonNote(reason: string, note: string)
    | ReasonMode(reason: string, mode: string)

  datatype HardwareEvent = HardwareEvent(ts: int, deviceId: string, publishAs: string, state: string, detail: Detail)

  /** A started device: the entry it was made from, whether its input is settable (virt) and its state. */
  datatype Started = Started(entry: DeviceEntry, settable: bool, edge: ButtonEdge.Edge)

  /**
   * The manager's state: #devices (the ids of the started devices, in start
   * order), #deviceById, #deviceConfigById with the insertion order of its
   * keys, #runtimeStateById, and the events published so far.
   */
  datatype Mgr = Mgr(
    devices: seq<string>,
    byId: map<string, Started>,
    configs: map<string, DeviceEntry>,
    order: seq<string>,
    runtime: map<string, string>,
    events: seq<HardwareEvent>)

  const Empty: Mgr := Mgr([], map[], map[], [], map[], [])

  predicate Distinct(s: seq<string>)
  {
    forall i, j :: 0 <= i < j < |s| ==> s[i] != s[j]
  }

  /** The bookkeeping every operation keeps: the order lists each config id once, and states and devices are only kept for configured ids. */
  predicate Inv(m: Mgr)
  {
    Distinct(m.order)
    && (forall id :: id in m.order ==> id in m.configs)
    && (forall id :: id in m.configs ==> id in m.order)
    && (forall id :: id in m.byId ==> id in m.configs)
    && (forall id :: id in m.runtime ==> id in m.configs)
  }

  // ------------------------------------------------------------------
  // #setRuntimeState and #makeDevice

  /** cfg?.publishAs ?? deviceId, for the config registered under the id. */
  function PublishAsOf(m: Mgr, id: string): (s: string)
    ensures id in m.configs ==> s == BaseDevice.PublishAs(m.configs[id].device)
    ensures id !in m.configs ==> s == id
  {
    if id in m.configs then BaseDevice.PublishAs(m.configs[id].device) else id
  }

  /** #setRuntimeState(deviceId, state, detail): the state is stored and published. */
  function SetRuntime(m: Mgr, id: string, state: string, detail: Detail, now: int): (r: Mgr)
    ensures r.runtime == m.runtime[id := state]
    ensures r.events == m.events + [HardwareEvent(now, id, PublishAsOf(m, id), state, detail)]
    ensures r.devices == m.devices && r.byId == m.byId && r.configs == m.configs && r.order == m.order
  {
    m.(runtime := m.runtime[id := state], events := m.events + [HardwareEvent(now, id, PublishAsOf(m, id), state, detail)])
  }

  /** String(cfg?.domain || '').trim() */
  function DomainOf(e: DeviceEntry): string
  {
    if e.device.domain.Some? then Trim(e.device.domain.value) else []
  }

  /** String(p?.type || '').trim() */
  function ProtocolOf(e: DeviceEntry): string
  {
    if e.protocolType.Some? then Trim(e.protocolType.value) else []
  }

  /** String(cfg.kind), undefined when absent. */
  function KindText(e: DeviceEntry): string
  {
    if e.device.kind.Some? then e.device.kind.value else "undefined"
  }

  /**
   * #makeDevice(cfg) followed by dev.start(): a started buttonEdge device
   * over a virt or gpio input, or the message it throws.
   */
  function MakeDevice(e: DeviceEntry, buses: set<string>): (r: Result<Started, string>)
    requires e.device.id != []
    ensures DomainOf(e) == [] ==> r == Err("device_requires_domain")
    ensures DomainOf(e) != [] && DomainOf(e) !in buses ==> r == Err("unknown_domain_bus:" + DomainOf(e))
    ensures r.Ok? <==> DomainOf(e) != [] && DomainOf(e) in buses && e.device.kind == Some("buttonEdge")
                       && ProtocolOf(e) in {"virt", "gpio"}
    ensures r.Ok? ==> r.value.entry == e && (r.value.settable <==> ProtocolOf(e) == "virt")
    ensures r.Ok? ==> r.value.edge.subscribed && r.value.edge.published == []
                      && (r.value.edge.enabled <==> BaseDevice.ConfiguredState(e.device) == "active")
  {
    var domain := DomainOf(e);
    if domain == [] then Err("device_requires_domain")
    else if domain !in buses then Err("unknown_domain_bus:" + domain)
    else if e.device.kind != Some("buttonEdge") then Err("unsupported_device_kind:" + KindText(e))
    else
      var t := ProtocolOf(e);
      if t == "virt" then Ok(Started(e, true, ButtonEdge.StartEdge(ButtonEdge.Initial(e.device, e.initial))))
      else if t == "gpio" then Ok(Started(e, false, ButtonEdge.StartEdge(ButtonEdge.Initial(e.device, false))))
      else Err("unsupported_protocol_type:" + (if t == [] then "missing" else t))
  }

  // ------------------------------------------------------------------
  // start()

  /** An entry the manager considers: an object with a truthy id. */
  predicate Considered(c: Option<DeviceEntry>)
  {
    c.Some? && c.value.device.id != []
  }

  /** The first loop of start: every entry with an id is registered, a later entry replacing an earlier one in place. */
  function Register(m: Mgr, cs: seq<Option<DeviceEntry>>): (r: Mgr)
    ensures r.devices == m.devices && r.byId == m.byId && r.runtime == m.runtime && r.events == m.events
    ensures Inv(m) ==> Inv(r)
    ensures forall id :: id in r.configs <==> id in m.configs || exists i :: 0 <= i < |cs| && Considered(cs[i]) && cs[i].value.device.id == id
  {
    if cs == [] then m
    else
      var p := Register(m, cs[..|cs| - 1]);
      var c := cs[|cs| - 1];
      assert forall i :: 0 <= i < |cs| - 1 ==> cs[..|cs| - 1][i] == cs[i];
      if !Considered(c) then p
      else
        var id := c.value.device.id;
        p.(configs := p.configs[id := c.value], order := if id in p.configs then p.order else p.order + [id])
  }

  /** The runtime state start gives an entry, or None when it skips it (a mode that is not listed). */
  function StartOutcome(e: DeviceEntry, mode: string, buses: set<string>): (r: Option<string>)
    requires e.device.id != []
    ensures r == Some("manualBlocked") <==> BaseDevice.ConfiguredState(e.device) == "manualBlocked"
    ensures r.None? <==> BaseDevice.ConfiguredState(e.device) != "manualBlocked" && mode !in e.device.modes
    ensures r == Some("active") <==> BaseDevice.ConfiguredState(e.device) != "manualBlocked" && mode in e.device.modes && MakeDevice(e, buses).Ok?
    ensures r.Some? ==> r.value in {"manualBlocked", "active", "degraded"}
  {
    if BaseDevice.ConfiguredState(e.device) == "manualBlocked" then Some("manualBlocked")
    else if mode !in e.device.modes then None
    else if MakeDevice(e, buses).Ok? then Some("active")
    else Some("degraded")
  }

  /** One pass of the second loop of start. */
  function StartOne(m: Mgr, c: Option<DeviceEntry>, mode: string, buses: set<string>, now: int): (r: Mgr)
    ensures r.configs == m.configs && r.order == m.order
    ensures !Considered(c) ==> r == m
    ensures Considered(c) ==> (c.value.device.id in r.byId <==> c.value.device.id in m.byId || StartOutcome(c.value, mode, buses) == Some("active"))
    ensures Considered(c) ==> forall id :: id != c.value.device.id ==> (id in r.byId <==> id in m.byId)
    ensures Considered(c) ==> forall id :: id != c.value.device.id ==> (id in r.runtime <==> id in m.runtime)
    ensures Considered(c) ==> forall id :: id != c.value.device.id && id in m.runtime ==> r.runtime[id] == m.runtime[id]
    ensures Considered(c) && StartOutcome(c.value, mode, buses).Some? ==> r.runtime == m.runtime[c.value.device.id := StartOutcome(c.value, mode, buses).value]
    ensures Considered(c) && StartOutcome(c.value, mode, buses).None? ==> r == m
  {
    if !Considered(c) then m
    else
      var e := c.value;
      var id := e.device.id;
      if BaseDevice.ConfiguredState(e.device) == "manualBlocked" then SetRuntime(m, id, "manualBlocked", Phase("config"), now)
      else if mode !in e.device.modes then m
      else
        match MakeDevice(e, buses)
        case Ok(d) => SetRuntime(m.(devices := m.devices + [id], byId := m.byId[id := d]), id, "active", Phase("start"), now)
        case Err(msg) => SetRuntime(m, id, "degraded", PhaseError("start", msg), now)
  }

  /** The second loop of start over a prefix of the entries. */
  function StartEach(m: Mgr, cs: seq<Option<DeviceEntry>>, mode: string, buses: set<string>, now: int): (r: Mgr)
    ensures r.configs == m.configs && r.order == m.order
    ensures |r.devices| <= |m.devices| + |cs|
    ensures forall id :: id in r.byId ==> id in m.byId || exists i :: 0 <= i < |cs| && Considered(cs[i]) && cs[i].value.device.id == id
    ensures forall id :: id in r.runtime ==> id in m.runtime || exists i :: 0 <= i < |cs| && Considered(cs[i]) && cs[i].value.device.id == id
  {
    if cs == [] then m
    else
      var p := StartEach(m, cs[..|cs| - 1], mode, buses, now);
      assert forall i :: 0 <= i < |cs| - 1 ==> cs[..|cs| - 1][i] == cs[i];
      StartOne(p, cs[|cs| - 1], mode, buses, now)
  }

  /** start(): nothing once a device has been started; otherwise register the entries, then start each one. */
  function StartSpec(m: Mgr, cs: seq<Option<DeviceEntry>>, mode: string, buses: set<string>, now: int): (r: Mgr)
    ensures |m.devices| > 0 ==> r == m
    ensures Inv(m) ==> Inv(r)
  {
    if |m.devices| > 0 then m
    else StartEach(Register(m, cs), cs, mode, buses, now)
  }

  predicate DistinctIds(cs: seq<Option<DeviceEntry>>)
  {
    forall i, j :: 0 <= i < j < |cs| && Considered(cs[i]) && Considered(cs[j]) ==> cs[i].value.device.id != cs[j].value.device.id
  }

  /**
   * With distinct ids, each entry's runtime state after the second loop is
   * the one StartOutcome gives it, and it is started exactly when that is
   * active.
   */
  predicate OutcomeHolds(r: Mgr, e: DeviceEntry, mode: string, buses: set<string>)
    requires e.device.id != []
  {
    var o := StartOutcome(e, mode, buses);
    (e.device.id in r.byId <==> o == Some("active"))
    && (e.device.id in r.runtime <==> o.Some?)
    && (o.Some? ==> r.runtime[e.device.id] == o.value)
  }

  lemma {:induction false} StartEachOutcome(m: Mgr, cs: seq<Option<DeviceEntry>>, mode: string, buses: set<string>, now: int, i: nat)
    requires DistinctIds(cs) && m.byId == map[] && m.runtime == map[]
    requires i < |cs| && Considered(cs[i])
    ensures OutcomeHolds(StartEach(m, cs, mode, buses, now), cs[i].value, mode, buses)
    decreases |cs|
  {
    var n := |cs| - 1;
    var init := cs[..n];
    var p := StartEach(m, init, mode, buses, now);
    var id := cs[i].value.device.id;
    assert StartEach(m, cs, mode, buses, now) == StartOne(p, cs[n], mode, buses, now);
    assert forall k :: 0 <= k < n ==> init[k] == cs[k];
    if i < n {
      assert DistinctIds(init);
      StartEachOutcome(m, init, mode, buses, now, i);
      if Considered(cs[n]) {
        assert cs[n].value.device.id != id;
      }
    } else {
      assert id !in p.byId && id !in p.runtime by {
        forall k | 0 <= k < n && Considered(init[k]) ensures init[k].value.device.id != id {
          assert cs[k].value.device.id != cs[n].value.device.id;
        }
      }
    }
  }

  /** start() on a fresh manager with distinct ids: the outcome of each entry. */
  lemma StartOutcomes(cs: seq<Option<DeviceEntry>>, mode: string, buses: set<string>, now: int, i: nat)
    requires DistinctIds(cs) && i < |cs| && Considered(cs[i])
    ensures OutcomeHolds(StartSpec(Empty, cs, mode, buses, now), cs[i].value, mode, buses)
    ensures cs[i].value.device.id in StartSpec(Empty, cs, mode, buses, now).configs
  {
    StartEachOutcome(Register(Empty, cs), cs, mode, buses, now, i);
  }

  // ------------------------------------------------------------------
  // dispose(), list(), block(), unblock(), inject()

  /** dispose(): every map and list is cleared; the events already published stay published. */
  function DisposeSpec(m: Mgr): (r: Mgr)
    ensures Inv(r) && r.devices == [] && r.byId == map[] && r.configs == map[] && r.runtime == map[] && r.events == m.events
  {
    Empty.(events := m.events)
  }

  /** An element of list().devices. */
  datatype Listed = Listed(
    id: string, publishAs: string, role: Option<string>, kind: Option<string>, bus: Option<string>,
    enabled: bool, started: bool, runtimeState: string)

  /** runtimeStateById.get(id) || 'unknown' */
  function RuntimeOf(m: Mgr, id: string): (s: string)
    ensures id in m.runtime && m.runtime[id] != [] ==> s == m.runtime[id]
    ensures id !in m.runtime ==> s == "unknown"
  {
    if id in m.runtime && m.runtime[id] != [] then m.runtime[id] else "unknown"
  }

  function ListedOf(m: Mgr, id: string): (l: Listed)
    requires id in m.configs
    ensures l.id == id && l.started == (id in m.byId) && l.runtimeState == RuntimeOf(m, id)
    ensures l.enabled <==> RuntimeOf(m, id) != "manualBlocked"
    ensures l.publishAs == BaseDevice.PublishAs(m.configs[id].device)
  {
    var cfg := m.configs[id];
    var state := RuntimeOf(m, id);
    Listed(id, BaseDevice.PublishAs(cfg.device), cfg.role, cfg.device.kind, cfg.device.domain,
      state != "manualBlocked", id in m.byId, state)
  }

  /** list(): one element per configured id, in the order the ids were first registered. */
  function List(m: Mgr): (r: seq<Listed>)
    requires Inv(m)
    ensures |r| == |m.order|
    ensures forall i :: 0 <= i < |r| ==> r[i] == ListedOf(m, m.order[i])
    ensures forall id :: id in m.configs <==> exists i :: 0 <= i < |r| && r[i].id == id
  {
    var r := seq(|m.order|, i requires 0 <= i < |m.order| => ListedOf(m, m.order[i]));
    assert forall id :: id in m.configs ==> exists i :: 0 <= i < |r| && r[i].id == id by {
      forall id | id in m.configs ensures exists i :: 0 <= i < |r| && r[i].id == id {
        var i :| 0 <= i < |m.order| && m.order[i] == id;
        assert r[i].id == id;
      }
    }
    r
  }

  /** The { ok, error, message } answers. */
  datatype Outcome = Success | Fail(error: string) | InjectFailed(message: string)

  /** d.block() or d.unblock() on the device started under id, when there is one. */
  function SetEnabled(m: Mgr, id: string, on: bool): (r: Mgr)
    ensures r.byId.Keys == m.byId.Keys
    ensures id in m.byId ==> r.byId[id] == m.byId[id].(edge := m.byId[id].edge.(enabled := on))
    ensures forall k :: k in m.byId && k != id ==> r.byId[k] == m.byId[k]
    ensures r == m.(byId := r.byId)
  {
    if id in m.byId then m.(byId := m.byId[id := m.byId[id].(edge := m.byId[id].edge.(enabled := on))]) else m
  }

  /**
   * block(deviceId, reason) for id = String(deviceId || '').trim(): a
   * configured id is marked manualBlocked and its device, when started,
   * stops publishing; any other id is DEVICE_NOT_FOUND and changes nothing.
   */
  function BlockSpec(m: Mgr, id: string, reason: string, now: int): (r: (Mgr, Outcome))
    ensures r.1 == Success || r.1 == Fail("DEVICE_NOT_FOUND")
    ensures r.1 == Fail("DEVICE_NOT_FOUND") <==> id == [] || id !in m.configs
    ensures r.1.Fail? ==> r.0 == m
    ensures r.1 == Success ==> r.0 == SetRuntime(SetEnabled(m, id, false), id, "manualBlocked", Reason(reason), now)
    ensures Inv(m) ==> Inv(r.0)
  {
    if id == [] || id !in m.configs then (m, Fail("DEVICE_NOT_FOUND"))
    else (SetRuntime(SetEnabled(m, id, false), id, "manualBlocked", Reason(reason), now), Success)
  }

  /**
   * unblock(deviceId, reason): a configured id whose modes include the
   * current one is marked active and its device, when started, publishes
   * again; a configured id of another mode is marked manualBlocked and
   * answered MODE_MISMATCH.
   */
  function UnblockSpec(m: Mgr, id: string, reason: string, mode: string, now: int): (r: (Mgr, Outcome))
    ensures r.1 == Success || r.1 == Fail("DEVICE_NOT_FOUND") || r.1 == Fail("MODE_MISMATCH")
    ensures r.1 == Fail("DEVICE_NOT_FOUND") <==> id == [] || id !in m.configs
    ensures r.1 == Fail("DEVICE_NOT_FOUND") ==> r.0 == m
    ensures r.1 == Fail("MODE_MISMATCH") <==> id != [] && id in m.configs && mode !in m.configs[id].device.modes
    ensures r.1 == Fail("MODE_MISMATCH") ==> r.0 == SetRuntime(m, id, "manualBlocked", ReasonMode("mode_mismatch", mode), now)
    ensures r.1 == Success ==> r.0.runtime == m.runtime[id := "active"]
    ensures r.1 == Success ==>
      r.0 == SetRuntime(SetEnabled(m, id, true), id, "active", if id in m.byId then Reason(reason) else ReasonNote(reason, "not_started_v1"), now)
    ensures Inv(m) ==> Inv(r.0)
  {
    if id == [] || id !in m.configs then (m, Fail("DEVICE_NOT_FOUND"))
    else if mode !in m.configs[id].device.modes then
      (SetRuntime(m, id, "manualBlocked", ReasonMode("mode_mismatch", mode), now), Fail("MODE_MISMATCH"))
    else if id in m.byId then (SetRuntime(SetEnabled(m, id, true), id, "active", Reason(reason), now), Success)
    else (SetRuntime(m, id, "active", ReasonNote(reason, "not_started_v1"), now), Success)
  }

  /** inject(deviceId, command): handed to a started device; what the device throws comes back as INJECT_FAILED. */
  function InjectSpec(m: Mgr, id: string, command: Value, now: int): (r: (Mgr, Outcome))
    ensures r.1 == Fail("DEVICE_NOT_FOUND") <==> id == []
    ensures r.1 == Fail("NOT_SUPPORTED") <==> id != [] && id !in m.byId
    ensures r.1 != Success ==> r.0 == m
    ensures id != [] && id in m.byId ==> (r.1 == Success <==> ButtonEdge.InjectCommand(command, m.byId[id].settable).Ok?)
    ensures id != [] && id in m.byId && ButtonEdge.InjectCommand(command, m.byId[id].settable).Err? ==>
      r.1 == InjectFailed(ButtonEdge.InjectCommand(command, m.byId[id].settable).error)
    ensures r.1 == Success ==> (r.0.byId.Keys == m.byId.Keys && r.0 == m.(byId := r.0.byId)
      && r.0.byId[id].edge == ButtonEdge.InjectEdge(m.byId[id].entry.device, m.byId[id].settable, m.byId[id].edge, command, now).0)
    ensures Inv(m) ==> Inv(r.0)
  {
    if id == [] then (m, Fail("DEVICE_NOT_FOUND"))
    else if id !in m.byId then (m, Fail("NOT_SUPPORTED"))
    else
      var d := m.byId[id];
      match ButtonEdge.InjectCommand(command, d.settable)
      case Err(msg) => (m, InjectFailed(msg))
      case Ok(_) => (m.(byId := m.byId[id := d.(edge := ButtonEdge.InjectEdge(d.entry.device, d.settable, d.edge, command, now).0)]), Success)
  }

  /** Blocking then unblocking a device of the current mode leaves it active and, when started, publishing as before. */
  lemma BlockThenUnblock(m: Mgr, id: string, mode: string, t0: int, t1: int)
    requires Inv(m)
    requires BlockSpec(m, id, "manual", t0).1 == Success
    requires mode in m.configs[id].device.modes
    ensures var b := BlockSpec(m, id, "manual", t0).0;
      var u := UnblockSpec(b, id, "manual", mode, t1);
      u.1 == Success && u.0.runtime == m.runtime[id := "active"]
      && u.0.byId == SetEnabled(m, id, true).byId
      && u.0.configs == m.configs && u.0.order == m.order && u.0.devices == m.devices
  {
    var b := BlockSpec(m, id, "manual", t0).0;
    assert b.configs == m.configs && b.byId == SetEnabled(m, id, false).byId;
    SetEnabledTwice(m, id, false, true);
    assert SetEnabled(b, id, true).byId == SetEnabled(m, id, true).byId;
  }

  /** The later of two block/unblock calls decides whether the device publishes. */
  lemma SetEnabledTwice(m: Mgr, id: string, first: bool, second: bool)
    ensures SetEnabled(SetEnabled(m, id, first), id, second) == SetEnabled(m, id, second)
  {
    if id in m.byId {
      var d := m.byId[id];
      assert d.(edge := d.edge.(enabled := first)).(edge := d.edge.(enabled := second)) == d.(edge := d.edge.(enabled := second));
    }
  }

  /** After a successful block the device is listed as not enabled, and its runtime state is manualBlocked. */
  lemma BlockedIsListed(m: Mgr, id: string, reason: string, now: int)
    requires Inv(m) && BlockSpec(m, id, reason, now).1 == Success
    ensures var l := List(BlockSpec(m, id, reason, now).0);
      exists i :: 0 <= i < |l| && l[i].id == id && !l[i].enabled && l[i].runtimeState == "manualBlocked"
  {
    var b := BlockSpec(m, id, reason, now).0;
    assert b.runtime[id] == "manualBlocked";
    var i :| 0 <= i < |b.order| && b.order[i] == id;
    assert List(b)[i] == ListedOf(b, id);
  }

  // ------------------------------------------------------------------
  // The code as written

  /**
   * #setRuntimeState as written: src/core/eventTypes.js has no system
   * entry, so reading eventTypes.system.hardware throws a TypeError after
   * the state has been stored and before anything is published.
   */
  function SetRuntimeAsWritten(m: Mgr, id: string, state: string): (r: Mgr)
    ensures r.runtime == m.runtime[id := state] && r.events == m.events
    ensures r.devices == m.devices && r.byId == m.byId && r.configs == m.configs && r.order == m.order
  {
    m.(runtime := m.runtime[id := state])
  }

  /**
   * The second loop of start as written, with the id of the entry whose
   * #setRuntimeState threw out of start, if any. A started device's
   * 'active' throws inside the try; the catch then stores 'degraded' and
   * its own #setRuntimeState throws out of start.
   */
  function StartEachAsWritten(m: Mgr, cs: seq<Option<DeviceEntry>>, mode: string, buses: set<string>): (r: (Mgr, Option<string>))
    ensures r.0.events == m.events && r.0.configs == m.configs && r.0.order == m.order
    ensures r.1.None? <==> forall k :: 0 <= k < |cs| && Considered(cs[k]) ==> StartOutcome(cs[k].value, mode, buses).None?
    ensures r.1.None? ==> r.0 == m
    decreases |cs|
  {
    if cs == [] then (m, None)
    else if !Considered(cs[0]) || StartOutcome(cs[0].value, mode, buses).None? then
      var r := StartEachAsWritten(m, cs[1..], mode, buses);
      assert forall k :: 1 <= k < |cs| ==> cs[1..][k - 1] == cs[k];
      r
    else
      var e := cs[0].value;
      var id := e.device.id;
      if BaseDevice.ConfiguredState(e.device) == "manualBlocked" then (SetRuntimeAsWritten(m, id, "manualBlocked"), Some(id))
      else
        match MakeDevice(e, buses)
        case Ok(d) => (SetRuntimeAsWritten(m.(devices := m.devices + [id], byId := m.byId[id := d]), id, "degraded"), Some(id))
        case Err(_) => (SetRuntimeAsWritten(m, id, "degraded"), Some(id))
  }

  /** start() as written. */
  function StartAsWritten(m: Mgr, cs: seq<Option<DeviceEntry>>, mode: string, buses: set<string>): (r: (Mgr, Option<string>))
    ensures |m.devices| > 0 ==> r == (m, None)
    ensures r.0.events == m.events
  {
    if |m.devices| > 0 then (m, None)
    else StartEachAsWritten(Register(m, cs), cs, mode, buses)
  }

  /**
   * As written, the second loop stops at the first entry that start does
   * not skip: its state is stored (degraded even when its device started),
   * nothing is published and no later entry is reached.
   */
  lemma {:induction false} StartEachAsWrittenStops(m: Mgr, cs: seq<Option<DeviceEntry>>, mode: string, buses: set<string>, i: nat)
    requires i < |cs| && Considered(cs[i]) && StartOutcome(cs[i].value, mode, buses).Some?
    requires forall k :: 0 <= k < i && Considered(cs[k]) ==> StartOutcome(cs[k].value, mode, buses).None?
    ensures var r := StartEachAsWritten(m, cs, mode, buses);
      var e := cs[i].value;
      var o := StartOutcome(e, mode, buses);
      && r.1 == Some(e.device.id)
      && r.0.runtime == m.runtime[e.device.id := if o == Some("manualBlocked") then "manualBlocked" else "degraded"]
      && r.0.devices == m.devices + (if o == Some("active") then [e.device.id] else [])
      && r.0.events == m.events
    decreases |cs|
  {
    if i > 0 {
      assert forall k :: 0 <= k < i - 1 ==> cs[1..][k] == cs[k + 1];
      StartEachAsWrittenStops(m, cs[1..], mode, buses, i - 1);
    }
  }

  /**
   * As written, start() on a fresh manager throws at the first entry it
   * does not skip: only that entry has a runtime state, at most it was
   * started, and no hardware event is ever published.
   */
  lemma StartAsWrittenStops(cs: seq<Option<DeviceEntry>>, mode: string, buses: set<string>, i: nat)
    requires i < |cs| && Considered(cs[i]) && StartOutcome(cs[i].value, mode, buses).Some?
    requires forall k :: 0 <= k < i && Considered(cs[k]) ==> StartOutcome(cs[k].value, mode, buses).None?
    ensures var r := StartAsWritten(Empty, cs, mode, buses);
      var e := cs[i].value;
      var o := StartOutcome(e, mode, buses);
      && r.1 == Some(e.device.id) && r.0.events == []
      && r.0.runtime == map[e.device.id := if o == Some("manualBlocked") then "manualBlocked" else "degraded"]
      && r.0.devices == (if o == Some("active") then [e.device.id] else [])
  {
    StartEachAsWrittenStops(Register(Empty, cs), cs, mode, buses, i);
  }

  /** A call as written returns its answer or throws. */
  datatype Answer = Returned(outcome: Outcome) | Threw

  /** block(deviceId, reason) as written: a configured id throws instead of answering ok. */
  function BlockAsWritten(m: Mgr, id: string, reason: string): (r: (Mgr, Answer))
    ensures r.1 == Threw || r == (m, Returned(Fail("DEVICE_NOT_FOUND")))
    ensures r.0.events == m.events
  {
    if id == [] || id !in m.configs then (m, Returned(Fail("DEVICE_NOT_FOUND")))
    else (SetRuntimeAsWritten(SetEnabled(m, id, false), id, "manualBlocked"), Threw)
  }

  /** unblock(deviceId, reason) as written: a configured id throws, on the mode mismatch path as on the others. */
  function UnblockAsWritten(m: Mgr, id: string, reason: string, mode: string): (r: (Mgr, Answer))
    ensures r.1 == Threw || r == (m, Returned(Fail("DEVICE_NOT_FOUND")))
    ensures r.0.events == m.events
  {
    if id == [] || id !in m.configs then (m, Returned(Fail("DEVICE_NOT_FOUND")))
    else if mode !in m.configs[id].device.modes then (SetRuntimeAsWritten(m, id, "manualBlocked"), Threw)
    else if id in m.byId then (SetRuntimeAsWritten(SetEnabled(m, id, true), id, "active"), Threw)
    else (SetRuntimeAsWritten(m, id, "active"), Threw)
  }

  /**
   * As written, every block and unblock the corrected code answers ok or
   * MODE_MISMATCH throws instead, after storing the same state, and
   * publishes nothing.
   */
  lemma AsWrittenBlockUnblockThrow(m: Mgr, id: string, reason: string, mode: string, now: int)
    ensures BlockSpec(m, id, reason, now).1 == Success <==> BlockAsWritten(m, id, reason).1 == Threw
    ensures BlockAsWritten(m, id, reason).0 == BlockSpec(m, id, reason, now).0.(events := m.events)
    ensures UnblockSpec(m, id, reason, mode, now).1 != Fail("DEVICE_NOT_FOUND") <==> UnblockAsWritten(m, id, reason, mode).1 == Threw
    ensures UnblockAsWritten(m, id, reason, mode).0 == UnblockSpec(m, id, reason, mode, now).0.(events := m.events)
  {
  }

  // ------------------------------------------------------------------
  // The class

  class Manager {
    const mode: string
    /** The domain buses that can publish. */
    const buses: set<string>
    /** config.devices (an absent or non-array value is the empty list). */
    const entries: seq<Option<DeviceEntry>>
    var devices: seq<string>
    var byId: map<string, Started>
    var configs: map<string, DeviceEntry>
    var order: seq<string>
    var runtime: map<string, string>
    var events: seq<HardwareEvent>

    function State(): Mgr
      reads this
    {
      Mgr(devices, byId, configs, order, runtime, events)
    }

    ghost predicate Valid()
      reads this
    {
      Inv(State())
    }

    constructor (mode: string, buses: set<string>, entries: seq<Option<DeviceEntry>>)
      ensures State() == Empty && Valid()
      ensures this.mode == mode && this.buses == buses && this.entries == entries
    {
      this.mode := mode;
      this.buses := buses;
      this.entries := entries;
      devices := [];
      byId := map[];
      configs := map[];
      order := [];
      runtime := map[];
      events := [];
    }

    method SetRuntimeState(id: string, state: string, detail: Detail, now: int)
      modifies this
      ensures State() == SetRuntime(old(State()), id, state, detail, now)
    {
      var publishAs := if id in configs then BaseDevice.PublishAs(configs[id].device) else id;
      runtime := runtime[id := state];
      events := events + [HardwareEvent(now, id, publishAs, state, detail)];
    }

    /** The first loop of start. */
    method RegisterEntries()
      modifies this
      ensures State() == Register(old(State()), entries)
    {
      ghost var m0 := State();
      for i := 0 to |entries|
        invariant State() == Register(m0, entries[..i])
      {
        assert entries[..i + 1][..i] == entries[..i];
        var c := entries[i];
        if c.Some? && c.value.device.id != [] {
          var id := c.value.device.id;
          if id !in configs {
            order := order + [id];
          }
          configs := configs[id := c.value];
        }
      }
      assert entries[..|entries|] == entries;
    }

    /** The body of the second loop of start, for one entry. */
    method StartEntry(c: Option<DeviceEntry>, now: int)
      modifies this
      ensures State() == StartOne(old(State()), c, mode, buses, now)
    {
      if c.Some? && c.value.device.id != [] {
        var e := c.value;
        var id := e.device.id;
        if BaseDevice.ConfiguredState(e.device) == "manualBlocked" {
          SetRuntimeState(id, "manualBlocked", Phase("config"), now);
        } else if mode in e.device.modes {
          var made := MakeDevice(e, buses);
          match made {
            case Ok(d) =>
              devices := devices + [id];
              byId := byId[id := d];
              SetRuntimeState(id, "active", Phase("start"), now);
            case Err(msg) =>
              SetRuntimeState(id, "degraded", PhaseError("start", msg), now);
          }
        }
      }
    }

    method Start(now: int)
      requires Valid()
      modifies this
      ensures Valid()
      ensures State() == StartSpec(old(State()), entries, mode, buses, now)
    {
      if |devices| > 0 {
        return;
      }
      RegisterEntries();
      ghost var m1 := State();
      for i := 0 to |entries|
        invariant State() == StartEach(m1, entries[..i], mode, buses, now)
      {
        assert entries[..i + 1][..i] == entries[..i];
        StartEntry(entries[i], now);
      }
      assert entries[..|entries|] == entries;
    }

    method Dispose()
      modifies this
      ensures Valid() && State() == DisposeSpec(old(State()))
    {
      devices := [];
      byId := map[];
      configs := map[];
      order := [];
      runtime := map[];
    }

    method ListDevices() returns (r: seq<Listed>)
      requires Valid()
      ensures r == List(State())
    {
      var m := State();
      r := [];
      for i := 0 to |order|
        invariant |r| == i
        invariant forall k :: 0 <= k < i ==> r[k] == ListedOf(m, m.order[k])
      {
        r := r + [ListedOf(m, order[i])];
      }
      assert r == List(m);
    }

    method Block(deviceId: Value, reason: string, now: int) returns (r: Outcome)
      requires Valid()
      modifies this
      ensures Valid()
      ensures (State(), r) == BlockSpec(old(State()), TrimmedOrBlank(deviceId), reason, now)
    {
      var id := TrimmedOrBlank(deviceId);
      if id == [] || id !in configs {
        return Fail("DEVICE_NOT_FOUND");
      }
      if id in byId {
        var d := byId[id];
        byId := byId[id := d.(edge := d.edge.(enabled := false))];
      }
      SetRuntimeState(id, "manualBlocked", Reason(reason), now);
      r := Success;
    }

    method Unblock(deviceId: Value, reason: string, now: int) returns (r: Outcome)
      requires Valid()
      modifies this
      ensures Valid()
      ensures (State(), r) == UnblockSpec(old(State()), TrimmedOrBlank(deviceId), reason, mode, now)
    {
      var id := TrimmedOrBlank(deviceId);
      if id == [] || id !in configs {
        return Fail("DEVICE_NOT_FOUND");
      }
      if mode !in configs[id].device.modes {
        SetRuntimeState(id, "manualBlocked", ReasonMode("mode_mismatch", mode), now);
        return Fail("MODE_MISMATCH");
      }
      if id in byId {
        var d := byId[id];
        byId := byId[id := d.(edge := d.edge.(enabled := true))];
        SetRuntimeState(id, "active", Reason(reason), now);
        return Success;
      }
      SetRuntimeState(id, "active", ReasonNote(reason, "not_started_v1"), now);
      r := Success;
    }

    method Inject(deviceId: Value, command: Value, now: int) returns (r: Outcome)
      requires Valid()
      modifies this
      ensures Valid()
      ensures (State(), r) == InjectSpec(old(State()), TrimmedOrBlank(deviceId), command, now)
    {
      var id := TrimmedOrBlank(deviceId);
      if id == [] {
        return Fail("DEVICE_NOT_FOUND");
      }
      if id !in byId {
        return Fail("NOT_SUPPORTED");
      }
      var d := byId[id];
      var res := ButtonEdge.InjectCommand(command, d.settable);
      if res.Err? {
        return InjectFailed(res.error);
      }
      ghost var spec := InjectSpec(State(), id, command, now);
      byId := byId[id := d.(edge := ButtonEdge.InjectEdge(d.entry.device, d.settable, d.edge, command, now).0)];
      r := Success;
      assert State() == spec.0;
    }
  }
}
