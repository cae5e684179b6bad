/**
 * The host side of the status LED: a device that turns LED commands from
 * the domain bus (or injected payloads) into "r,g,b\n" lines on the USB
 * serial link to the reset-button microcontroller, and reports its
 * hardware state on the main bus.
 *
 * Serial writes and their outcome are parameters: `writeError` is None for
 * a write the link accepted and Some(message) for one it refused.
 */
module Ws2812Led {
  import opened Common
  import opened Js
  import BaseDevice
  import opened PicoResetPixel

  // ------------------------------------------------------------------
  // Payloads

  /** #parseRgbPayload: an rgb array, or an object with any of r, g, b. */
  function ParseRgbPayload(payload: Value): (c: Option<Rgb>)
    ensures c.Some? <==> Get(payload, "rgb").Arr? || Has(payload, "r") || Has(payload, "g") || Has(payload, "b")
    ensures Get(payload, "rgb").Arr? ==>
      c == Some(Rgb(ClampByte(At(Get(payload, "rgb"), 0)), ClampByte(At(Get(payload, "rgb"), 1)),
                    ClampByte(At(Get(payload, "rgb"), 2))))
    ensures !Get(payload, "rgb").Arr? && c.Some? ==>
      c.value == Rgb(ClampByte(Get(payload, "r")), ClampByte(Get(payload, "g")), ClampByte(Get(payload, "b")))
  {
    var arr := Get(payload, "rgb");
    if arr.Arr? then
      Some(Rgb(ClampByte(At(arr, 0)), ClampByte(At(arr, 1)), ClampByte(At(arr, 2))))
    else if Has(payload, "r") || Has(payload, "g") || Has(payload, "b") then
      Some(Rgb(ClampByte(Get(payload, "r")), ClampByte(Get(payload, "g")), ClampByte(Get(payload, "b"))))
    else None
  }

  /** The payload { rgb: [r, g, b] } of a colour. */
  function ArrayPayload(c: Rgb): Value
  {
    Obj([Prop("rgb", Arr([Int(c.r as int), Int(c.g as int), Int(c.b as int)]))])
  }

  /** The payload { r, g, b } of a colour. */
  function FieldsPayload(c: Rgb): Value
  {
    Obj([Prop("r", Int(c.r as int)), Prop("g", Int(c.g as int)), Prop("b", Int(c.b as int))])
  }

  /** The array payload of a colour parses back to that colour. */
  lemma ParseArrayPayload(c: Rgb)
    ensures ParseRgbPayload(ArrayPayload(c)) == Some(c)
  {
    ClampByteOfByte(c.r);
    ClampByteOfByte(c.g);
    ClampByteOfByte(c.b);
  }

  /** The field payload of a colour parses back to that colour. */
  lemma ParseFieldsPayload(c: Rgb)
    ensures ParseRgbPayload(FieldsPayload(c)) == Some(c)
  {
    ClampByteOfByte(c.r);
    ClampByteOfByte(c.g);
    ClampByteOfByte(c.b);
    var p := FieldsPayload(c);
    assert Lookup(p.props, "rgb") == None;
    assert Get(p, "r") == Int(c.r as int);
    assert Lookup(p.props[1..], "g") == Some(Int(c.g as int));
    assert Lookup(p.props[1..][1..], "b") == Some(Int(c.b as int));
  }

  /** A payload without rgb, r, g and b is rejected whatever else it holds. */
  lemma ParseRejectsColourless(props: seq<Prop>)
    requires forall i :: 0 <= i < |props| ==> props[i].key !in {"rgb", "r", "g", "b"}
    ensures ParseRgbPayload(Obj(props)) == None
  {
    assert Lookup(props, "rgb").None?;
    assert Lookup(props, "r").None?;
    assert Lookup(props, "g").None?;
    assert Lookup(props, "b").None?;
  }

  // ------------------------------------------------------------------
  // The serial command

  /** #encodeRgbCommand: the line "r,g,b\n" in decimal. */
  function EncodeRgbCommand(c: Rgb): (line: string)
    ensures line != [] && line[|line| - 1] == '\n'
    ensures Split(line[..|line| - 1], ',') == [NatToString(c.r as nat), NatToString(c.g as nat), NatToString(c.b as nat)]
  {
    var a, b, d := NatToString(c.r as nat), NatToString(c.g as nat), NatToString(c.b as nat);
    var line := a + "," + b + "," + d + "\n";
    assert line[..|line| - 1] == a + "," + b + "," + d;
    NoCommaInDigits(a);
    NoCommaInDigits(b);
    NoCommaInDigits(d);
    SplitThree(a, b, d, ',');
    line
  }

  lemma NoCommaInDigits(s: string)
    requires AllDigits(s)
    ensures ',' !in s
  {
    assert forall k :: 0 <= k < |s| ==> s[k] != ',';
  }

  /** The microcontroller parses every command line back to the colour it encodes. */
  lemma EncodeThenParse(c: Rgb)
    ensures ParseLine(EncodeRgbCommand(c)) == Color(c)
  {
    var x, y, z := c.r as int, c.g as int, c.b as int;
    assert IntToString(x) == NatToString(c.r as nat);
    assert IntToString(y) == NatToString(c.g as nat);
    assert IntToString(z) == NatToString(c.b as nat);
    ParseLineOfIntegers(x, y, z);
    assert ClampField(x) == c.r && ClampField(y) == c.g && ClampField(z) == c.b;
  }

  // ------------------------------------------------------------------
  // Targeting

  /** #asOptId: String(x || '').trim(), or nothing when blank. */
  function AsOptId(x: Value): (id: Option<string>)
    ensures id.Some? ==> id.value != [] && id.value == TrimmedOrBlank(x)
    ensures id.None? <==> TrimmedOrBlank(x) == []
  {
    var s := TrimmedOrBlank(x);
    if |s| > 0 then Some(s) else None
  }

  /** #isTargetMatch: a ledId decides by id, else a publishAs by publishAs, else every device matches. */
  function IsTargetMatch(payload: Value, cfg: BaseDevice.DeviceConfig): (m: bool)
    ensures AsOptId(Get(payload, "ledId")).Some? ==> (m <==> AsOptId(Get(payload, "ledId")).value == cfg.id)
    ensures AsOptId(Get(payload, "ledId")).None? && AsOptId(Get(payload, "publishAs")).Some? ==>
      (m <==> AsOptId(Get(payload, "publishAs")).value == BaseDevice.PublishAs(cfg))
    ensures AsOptId(Get(payload, "ledId")).None? && AsOptId(Get(payload, "publishAs")).None? ==> m
  {
    match AsOptId(Get(payload, "ledId"))
    case Some(ledId) => ledId == cfg.id
    case None =>
      match AsOptId(Get(payload, "publishAs"))
      case Some(p) => p == BaseDevice.PublishAs(cfg)
      case None => true
  }

  /** A command naming a device by its own id reaches it, whatever its publishAs says. */
  lemma TargetByOwnId(cfg: BaseDevice.DeviceConfig, other: Value)
    requires cfg.id != [] && Trim(cfg.id) == cfg.id
    ensures IsTargetMatch(Obj([Prop("ledId", Str(cfg.id)), Prop("publishAs", other)]), cfg)
  {
    var p := Obj([Prop("ledId", Str(cfg.id)), Prop("publishAs", other)]);
    assert Get(p, "ledId") == Str(cfg.id);
  }

  // ------------------------------------------------------------------
  // inject

  datatype InjectError = InvalidInjectPayload

  /** The result of inject(payload): the colour it applies, or the error it returns. */
  function InjectOutcome(payload: Value): (r: Result<Rgb, InjectError>)
    ensures Nullish(payload) ==> r == Err(InvalidInjectPayload)
    ensures payload.Bool? || payload.Number? || payload.Str? ==> r == Err(InvalidInjectPayload)
    ensures r.Ok? <==> (payload.Obj? || payload.Arr?) && ParseRgbPayload(payload).Some?
    ensures r.Ok? ==> r.value == ParseRgbPayload(payload).value
  {
    if Nullish(payload) then Err(InvalidInjectPayload)
    else if !(payload.Obj? || payload.Arr?) then Err(InvalidInjectPayload)
    else
      match ParseRgbPayload(payload)
      case None => Err(InvalidInjectPayload)
      case Some(c) => Ok(c)
  }

  // ------------------------------------------------------------------
  // The device

  datatype RuntimeState = Unknown | Active | Degraded | ManualBlocked

  datatype Source = FromBus | FromInject | FromRecovery

  datatype Detail = NoDetail | Applied(rgb: Rgb, source: Source) | Simulated(rgb: Rgb, source: Source)

  /** A system:hardware report on the main bus. */
  datatype Hardware = Hardware(state: RuntimeState, error: Option<string>, detail: Detail)

  class Device {
    const cfg: BaseDevice.DeviceConfig
    var blocked: bool
    var disposed: bool
    var lastError: Option<string>
    var runtimeState: RuntimeState
    var lastRgb: Rgb
    /** Whether a serial duplex is bound (#duplex !== null). */
    var linked: bool
    /** Every line written to the serial link, oldest first. */
    var written: seq<string>
    /** Every report published on the main bus, oldest first. */
    var published: seq<Hardware>
    /** Payloads rejected with the led_invalid_command_payload warning. */
    var warnings: seq<Value>

    constructor (cfg: BaseDevice.DeviceConfig)
      requires cfg.id != []
      ensures this.cfg == cfg && !blocked && !disposed && lastError == None
      ensures runtimeState == Unknown && lastRgb == Black && !linked
      ensures written == [] && published == [] && warnings == []
    {
      this.cfg := cfg;
      blocked := false;
      disposed := false;
      lastError := None;
      runtimeState := Unknown;
      lastRgb := Black;
      linked := false;
      written := [];
      published := [];
      warnings := [];
    }

    /** #setRuntimeState(state, error) */
    method SetRuntimeState(state: RuntimeState, error: Option<string>)
      modifies this`runtimeState, this`lastError, this`published
      ensures runtimeState == state
      ensures lastError == (if error == Some([]) then None else error)
      ensures published == old(published) + [Hardware(state, lastError, NoDetail)]
    {
      runtimeState := state;
      lastError := if error == Some([]) then None else error;
      published := published + [Hardware(state, lastError, NoDetail)];
    }

    /**
     * #applyRgb: remembers the colour, then either reports the intent
     * (blocked, disposed or not active) or writes the line and reports it
     * applied.
     */
    method ApplyRgb(c: Rgb, source: Source, writeError: Option<string>)
      modifies this`lastRgb, this`runtimeState, this`lastError, this`published, this`written
      ensures lastRgb == c
      ensures old(blocked || disposed || runtimeState != Active) ==>
        && written == old(written) && runtimeState == old(runtimeState) && lastError == old(lastError)
        && published == old(published) + [Hardware(if old(runtimeState) == ManualBlocked then ManualBlocked else Degraded,
                                                   old(lastError), Simulated(c, source))]
      ensures old(!(blocked || disposed || runtimeState != Active)) && !linked ==>
        && written == old(written) && runtimeState == Degraded && lastError == Some("serial_not_ready")
        && published == old(published) + [Hardware(Degraded, Some("serial_not_ready"), NoDetail)]
      ensures old(!(blocked || disposed || runtimeState != Active)) && linked ==>
        && written == old(written) + [EncodeRgbCommand(c)]
        && (writeError.None? ==>
              runtimeState == Active && lastError == old(lastError)
              && published == old(published) + [Hardware(Active, None, Applied(c, source))])
        && (writeError.Some? ==>
              runtimeState == Degraded
              && lastError == Some(if writeError.value == [] then "serial_write_failed" else writeError.value)
              && published == old(published) + [Hardware(Degraded, lastError, NoDetail)])
    {
      lastRgb := c;
      if blocked || disposed || runtimeState != Active {
        var state := if runtimeState == ManualBlocked then ManualBlocked else Degraded;
        published := published + [Hardware(state, lastError, Simulated(c, source))];
        return;
      }
      if !linked {
        SetRuntimeState(Degraded, Some("serial_not_ready"));
        return;
      }
      written := written + [EncodeRgbCommand(c)];
      if writeError.Some? {
        var msg := if writeError.value == [] then "serial_write_failed" else writeError.value;
        SetRuntimeState(Degraded, Some(msg));
        return;
      }
      published := published + [Hardware(Active, None, Applied(c, source))];
    }

    /** inject(payload): a valid colour is applied and ok returned. */
    method Inject(payload: Value, writeError: Option<string>) returns (r: Result<(), InjectError>)
      modifies this`lastRgb, this`runtimeState, this`lastError, this`published, this`written
      ensures r.Ok? <==> InjectOutcome(payload).Ok?
      ensures r.Err? ==>
        r.error == InvalidInjectPayload && lastRgb == old(lastRgb)
        && written == old(written) && published == old(published)
      ensures r.Ok? ==> lastRgb == InjectOutcome(payload).value
    {
      match InjectOutcome(payload)
      case Err(e) => r := Err(e);
      case Ok(c) =>
        ApplyRgb(c, FromInject, writeError);
        r := Ok(());
    }

    /** #onLedCommand: a command for this device with a colour is applied; one without is warned about. */
    method OnLedCommand(eventPayload: Value, writeError: Option<string>)
      modifies this`lastRgb, this`runtimeState, this`lastError, this`published, this`written, this`warnings
      ensures
        var p := if Truthy(eventPayload) then eventPayload else Obj([]);
        var live := !old(disposed) && !old(blocked) && IsTargetMatch(p, cfg);
        && (live && ParseRgbPayload(p).Some? ==> lastRgb == ParseRgbPayload(p).value)
        && (live && ParseRgbPayload(p).None? ==> warnings == old(warnings) + [p] && lastRgb == old(lastRgb))
        && (!live ==> lastRgb == old(lastRgb) && written == old(written) && published == old(published)
                      && warnings == old(warnings))
    {
      if disposed || blocked {
        return;
      }
      var p := if Truthy(eventPayload) then eventPayload else Obj([]);
      if !IsTargetMatch(p, cfg) {
        return;
      }
      match ParseRgbPayload(p)
      case None => warnings := warnings + [p];
      case Some(c) => ApplyRgb(c, FromBus, writeError);
    }

    // ----------------------------------------------------------------
    // The code as written

    /**
     * #setRuntimeState as written: src/core/eventTypes.js has no system
     * entry, so #publishHardwareState throws a TypeError reading
     * eventTypes.system.hardware after the state and the error are stored.
     */
    method SetRuntimeStateAsWritten(state: RuntimeState, error: Option<string>)
      modifies this`runtimeState, this`lastError
      ensures runtimeState == state
      ensures lastError == (if error == Some([]) then None else error)
    {
      runtimeState := state;
      lastError := if error == Some([]) then None else error;
    }

    /**
     * #applyRgb as written: every branch ends in #publishHardwareState, so
     * the promise rejects after the same changes as the corrected ApplyRgb
     * and nothing is ever reported, not even a colour written to the link.
     */
    method ApplyRgbAsWritten(c: Rgb, source: Source, writeError: Option<string>)
      modifies this`lastRgb, this`runtimeState, this`lastError, this`written
      ensures published == old(published)
      ensures lastRgb == c
      ensures old(blocked || disposed || runtimeState != Active) ==>
        written == old(written) && runtimeState == old(runtimeState) && lastError == old(lastError)
      ensures old(!(blocked || disposed || runtimeState != Active)) && !linked ==>
        written == old(written) && runtimeState == Degraded && lastError == Some("serial_not_ready")
      ensures old(!(blocked || disposed || runtimeState != Active)) && linked ==>
        && written == old(written) + [EncodeRgbCommand(c)]
        && (writeError.None? ==> runtimeState == Active && lastError == old(lastError))
        && (writeError.Some? ==>
              runtimeState == Degraded && lastError == Some(if writeError.value == [] then "serial_write_failed" else writeError.value))
    {
      lastRgb := c;
      if blocked || disposed || runtimeState != Active {
        return;
      }
      if !linked {
        SetRuntimeStateAsWritten(Degraded, Some("serial_not_ready"));
        return;
      }
      written := written + [EncodeRgbCommand(c)];
      if writeError.Some? {
        var msg := if writeError.value == [] then "serial_write_failed" else writeError.value;
        SetRuntimeStateAsWritten(Degraded, Some(msg));
      }
    }
  }
}
