/**
 * The LED configuration validator: colours as [r,g,b] arrays or palette
 * names, gradient stops, loop counts, the breathe period, rule targets and
 * the `do` part of a rule (effect, priority, restore, ttl, interrupt).
 * Every refusal is an error naming what is wrong; the model keeps the
 * fixed part of each message.
 */
module LedValidate {
  import opened Common
  import opened Js

  /** A colour as the LED effects use it. */
  datatype Rgb = Rgb(r: int, g: int, b: int)

  predicate IsByte(x: int) { 0 <= x <= 255 }

  predicate ByteRgb(c: Rgb) { IsByte(c.r) && IsByte(c.g) && IsByte(c.b) }

  const Black := Rgb(0, 0, 0)

  /** String(x ?? '').trim() */
  function AsString(x: Value): (s: string)
    ensures Nullish(x) ==> s == []
  {
    TrimmedOrBlankNullish(x)
  }

  /** isObject(x) ? x : {} */
  function AsObject(x: Value): (o: Value)
    ensures o.Obj?
    ensures x.Obj? ==> o == x
  {
    if x.Obj? then x else Obj([])
  }

  // ------------------------------------------------------------------
  // Numbers

  /** toNonNegIntOrNull(x): null and undefined give none, a non-number 0, a number its floor clamped at 0. */
  function ToNonNegIntOrNull(x: Value): (r: Option<int>)
    ensures r.None? <==> Nullish(x)
    ensures r.Some? ==> r.value >= 0
    ensures r.Some? && !ToNumber(x).Fin? ==> r.value == 0
    ensures r.Some? && ToNumber(x).Fin? ==> r.value == Max(0, Floor(ToNumber(x).v))
  {
    if Nullish(x) then None
    else
      var n := ToNumber(x);
      if !n.Fin? then Some(0) else Some(Max(0, Floor(n.v)))
  }

  /** toNonNegInt(x, def): undefined and non-numbers give def, a number its floor clamped at 0. */
  function ToNonNegInt(x: Value, def: int): (r: int)
    ensures x.Undefined? || !ToNumber(x).Fin? ==> r == def
    ensures !x.Undefined? && ToNumber(x).Fin? ==> r >= 0
    ensures !x.Undefined? && ToNumber(x).Fin? ==> r == Max(0, Floor(ToNumber(x).v))
  {
    if x.Undefined? then def
    else
      var n := ToNumber(x);
      if !n.Fin? then def else Max(0, Floor(n.v))
  }

  /** clamp01(x): non-numbers give 0, numbers are clamped into [0, 1]. */
  function Clamp01(x: Value): (r: real)
    ensures 0.0 <= r <= 1.0
    ensures !ToNumber(x).Fin? ==> r == 0.0
    ensures ToNumber(x).Fin? && 0.0 <= ToNumber(x).v <= 1.0 ==> r == ToNumber(x).v
    ensures ToNumber(x).Fin? && ToNumber(x).v < 0.0 ==> r == 0.0
    ensures ToNumber(x).Fin? && ToNumber(x).v > 1.0 ==> r == 1.0
  {
    var n := ToNumber(x);
    if !n.Fin? then 0.0
    else if n.v < 0.0 then 0.0
    else if n.v > 1.0 then 1.0
    else n.v
  }

  // ------------------------------------------------------------------
  // Colours

  /** validateRgbArray(rgb): an array of at least three entries, each clamped to a byte. */
  function ValidateRgbArray(rgb: Value): (r: Result<Rgb, string>)
    ensures r.Ok? <==> rgb.Arr? && |rgb.items| >= 3
    ensures r.Err? ==> r.error == "rgb must be [r,g,b]"
    ensures r.Ok? ==> ByteRgb(r.value)
    ensures r.Ok? ==> r.value == Rgb(ClampByte(rgb.items[0]) as int, ClampByte(rgb.items[1]) as int,
                                     ClampByte(rgb.items[2]) as int)
  {
    if !rgb.Arr? || |rgb.items| < 3 then Err("rgb must be [r,g,b]")
    else Ok(Rgb(ClampByte(rgb.items[0]) as int, ClampByte(rgb.items[1]) as int, ClampByte(rgb.items[2]) as int))
  }

  /** Bytes given as numbers pass unchanged. */
  lemma RgbArrayOfBytes(r: byte, g: byte, b: byte)
    ensures ValidateRgbArray(Arr([Int(r as int), Int(g as int), Int(b as int)])) == Ok(Rgb(r as int, g as int, b as int))
  {
    ClampByteOfByte(r);
    ClampByteOfByte(g);
    ClampByteOfByte(b);
  }

  /** A colour in a configuration: a palette name or a triple. */
  datatype RgbSpec = Named(key: string) | Triple(rgb: Rgb)

  /**
   * validateRgbValue({ rgb, paletteColors }): a string must name a palette
   * colour and gives the trimmed name; an array is validated as a triple;
   * anything else is refused.
   */
  function ValidateRgbValue(rgb: Value, paletteColors: Value): (r: Result<RgbSpec, string>)
    ensures rgb.Str? ==> (r.Ok? <==> Trim(rgb.s) != [] && Truthy(Get(paletteColors, Trim(rgb.s))))
    ensures rgb.Str? && r.Ok? ==> r.value == Named(Trim(rgb.s))
    ensures rgb.Arr? ==> (r.Ok? <==> |rgb.items| >= 3)
    ensures rgb.Arr? && r.Ok? ==> r.value.Triple? && ByteRgb(r.value.rgb)
    ensures !rgb.Str? && !rgb.Arr? ==> r.Err?
  {
    if rgb.Str? then
      var key := Trim(rgb.s);
      if key == [] then Err("rgb string must be non-empty")
      else if !Truthy(Get(paletteColors, key)) then Err("unknown rgb (not found in palette.colors)")
      else Ok(Named(key))
    else if rgb.Arr? then
      match ValidateRgbArray(rgb)
      case Ok(c) => Ok(Triple(c))
      case Err(e) => Err(e)
    else Err("rgb must be a color name string or [r,g,b]")
  }

  /** A palette name is accepted exactly when the palette has a colour under it. */
  lemma PaletteNameAccepted(name: string, paletteColors: Value)
    requires name != [] && Trim(name) == name
    ensures ValidateRgbValue(Str(name), paletteColors).Ok? <==> Truthy(Get(paletteColors, name))
  {
  }

  // ------------------------------------------------------------------
  // Gradients

  /** A validated gradient stop. */
  datatype Stop = Stop(t: real, rgb: Rgb)

  /** One stop of the loop in validateGradientStops. */
  function CheckStop(s: Value): (r: Result<Stop, string>)
    ensures r.Ok? ==> 0.0 <= r.value.t <= 1.0 && ByteRgb(r.value.rgb)
  {
    if !s.Obj? then Err("stop must be object")
    else if !ToNumber(Get(s, "t")).Fin? then Err("t must be number")
    else
      match ValidateRgbArray(Get(s, "rgb"))
      case Err(e) => Err(e)
      case Ok(c) => Ok(Stop(Clamp01(Get(s, "t")), c))
  }

  /** A stop is accepted exactly when it is an object with a numeric t and a valid rgb; its t is clamped into [0, 1]. */
  lemma CheckStopOk(s: Value)
    ensures CheckStop(s).Ok? <==> s.Obj? && ToNumber(Get(s, "t")).Fin? && ValidateRgbArray(Get(s, "rgb")).Ok?
    ensures CheckStop(s).Ok? ==> CheckStop(s).value == Stop(Clamp01(Get(s, "t")), ValidateRgbArray(Get(s, "rgb")).value)
  {
  }

  /** out after the loop has seen the first n checked stops; the first bad stop decides the error. */
  function Collect(checks: seq<Result<Stop, string>>, n: nat): (r: Result<seq<Stop>, string>)
    requires n <= |checks|
    ensures r.Ok? ==> |r.value| == n
  {
    if n == 0 then Ok([])
    else
      match Collect(checks, n - 1)
      case Err(e) => Err(e)
      case Ok(out) =>
        match checks[n - 1]
        case Err(e) => Err(e)
        case Ok(s) => Ok(out + [s])
  }

  /** Each stop kept is the checked stop at the same position. */
  lemma {:induction false} CollectValues(checks: seq<Result<Stop, string>>, n: nat, k: nat)
    requires k < n <= |checks| && Collect(checks, n).Ok?
    ensures checks[k] == Ok(Collect(checks, n).value[k])
  {
    if k < n - 1 {
      CollectValues(checks, n - 1, k);
    }
  }

  /** The stops are accepted exactly when every one of them is. */
  lemma {:induction false} CollectOk(checks: seq<Result<Stop, string>>, n: nat)
    requires n <= |checks|
    ensures Collect(checks, n).Ok? <==> forall k :: 0 <= k < n ==> checks[k].Ok?
  {
    if n > 0 {
      CollectOk(checks, n - 1);
    }
  }

  /** Once the check at i fails, the result is that error, whatever follows. */
  lemma {:induction false} FirstBadStop(checks: seq<Result<Stop, string>>, n: nat, i: nat)
    requires i < n <= |checks| && Collect(checks, i).Ok? && checks[i].Err?
    ensures Collect(checks, n) == Err(checks[i].error)
  {
    if n > i + 1 {
      FirstBadStop(checks, n - 1, i);
    }
  }

  predicate StopsSorted(s: seq<Stop>)
  {
    forall i, j :: 0 <= i < j < |s| ==> s[i].t <= s[j].t
  }

  /** Inserts x after every stop whose t is not greater, so equal stops keep their order. */
  function InsertStop(x: Stop, s: seq<Stop>): (r: seq<Stop>)
    ensures multiset(r) == multiset(s) + multiset{x}
    ensures |r| == |s| + 1
  {
    if s == [] || s[0].t > x.t then [x] + s
    else
      assert s == [s[0]] + s[1..];
      [s[0]] + InsertStop(x, s[1..])
  }

  lemma {:induction false} InsertStopSorted(x: Stop, s: seq<Stop>)
    requires StopsSorted(s)
    ensures StopsSorted(InsertStop(x, s))
    decreases |s|
  {
    if s != [] && s[0].t <= x.t {
      InsertStopSorted(x, s[1..]);
      var t := InsertStop(x, s[1..]);
      forall j | 0 <= j < |t|
        ensures s[0].t <= t[j].t
      {
        assert t[j] in multiset(t);
        if t[j] != x {
          assert t[j] in multiset(s[1..]);
          var m :| 0 <= m < |s[1..]| && s[1..][m] == t[j];
          assert s[1..][m] == s[m + 1];
        }
      }
    }
  }

  /** out.sort((a, b) => a.t - b.t): a stable sort by t. */
  function SortStops(s: seq<Stop>): (r: seq<Stop>)
    ensures multiset(r) == multiset(s)
    ensures |r| == |s|
  {
    if s == [] then []
    else
      assert s == s[..|s| - 1] + [s[|s| - 1]];
      InsertStop(s[|s| - 1], SortStops(s[..|s| - 1]))
  }

  lemma {:induction false} SortStopsSorted(s: seq<Stop>)
    ensures StopsSorted(SortStops(s))
    decreases |s|
  {
    if s != [] {
      SortStopsSorted(s[..|s| - 1]);
      InsertStopSorted(s[|s| - 1], SortStops(s[..|s| - 1]));
    }
  }

  /** asArray(x) */
  function AsArray(x: Value): seq<Value>
  {
    if x.Arr? then x.items else []
  }

  /** Every entry of the list, checked as a stop. */
  function CheckAll(list: seq<Value>): (r: seq<Result<Stop, string>>)
    ensures |r| == |list|
    ensures forall k :: 0 <= k < |r| ==> r[k] == CheckStop(list[k])
    ensures ChecksInRange(r)
  {
    seq(|list|, k requires 0 <= k < |list| => CheckStop(list[k]))
  }

  /** A stop as the validator produces it: t in [0, 1], colour channels bytes. */
  predicate StopInRange(s: Stop) { 0.0 <= s.t <= 1.0 && ByteRgb(s.rgb) }

  predicate ChecksInRange(checks: seq<Result<Stop, string>>)
  {
    forall k :: 0 <= k < |checks| && checks[k].Ok? ==> StopInRange(checks[k].value)
  }

  /** The stops a successful check keeps are all in range. */
  lemma CollectInRange(checks: seq<Result<Stop, string>>, n: nat)
    requires n <= |checks| && ChecksInRange(checks) && Collect(checks, n).Ok?
    ensures forall s: Stop :: s in multiset(Collect(checks, n).value) ==> StopInRange(s)
  {
    var out := Collect(checks, n).value;
    forall s: Stop | s in multiset(out)
      ensures StopInRange(s)
    {
      var m :| 0 <= m < |out| && out[m] == s;
      CollectValues(checks, n, m);
    }
  }

  /**
   * validateGradientStops(name, stops): at least two stops, each a plain
   * object with a numeric t (clamped into [0, 1]) and a valid rgb, sorted
   * by t.
   */
  function GradientStopsSpec(stops: Value): (r: Result<seq<Stop>, string>)
    ensures |AsArray(stops)| < 2 ==> r == Err("requires at least 2 stops")
    ensures r.Ok? ==> |r.value| == |AsArray(stops)| >= 2
    ensures r.Ok? ==> forall k :: 0 <= k < |r.value| ==> StopInRange(r.value[k])
  {
    var list := AsArray(stops);
    if |list| < 2 then Err("requires at least 2 stops")
    else
      match Collect(CheckAll(list), |list|)
      case Err(e) => Err(e)
      case Ok(out) =>
        var sorted := SortStops(out);
        CollectInRange(CheckAll(list), |list|);
        assert forall k :: 0 <= k < |sorted| ==> sorted[k] in multiset(out);
        Ok(sorted)
  }

  /** The validated stops are sorted by t and are exactly the checked stops, rearranged. */
  lemma GradientStopsSorted(stops: Value)
    requires GradientStopsSpec(stops).Ok?
    ensures StopsSorted(GradientStopsSpec(stops).value)
    ensures multiset(GradientStopsSpec(stops).value) == multiset(Collect(CheckAll(AsArray(stops)), |AsArray(stops)|).value)
  {
    SortStopsSorted(Collect(CheckAll(AsArray(stops)), |AsArray(stops)|).value);
  }

  /** Gradients are accepted exactly when there are two stops or more and every one of them is valid. */
  lemma GradientStopsOk(stops: Value)
    ensures GradientStopsSpec(stops).Ok?
        <==> |AsArray(stops)| >= 2 && forall k :: 0 <= k < |AsArray(stops)| ==> CheckStop(AsArray(stops)[k]).Ok?
  {
    CollectOk(CheckAll(AsArray(stops)), |AsArray(stops)|);
  }

  /** validateGradientStops as the loop runs it. */
  method ValidateGradientStops(stops: Value) returns (r: Result<seq<Stop>, string>)
    ensures r == GradientStopsSpec(stops)
  {
    var list := AsArray(stops);
    if |list| < 2 {
      return Err("requires at least 2 stops");
    }
    ghost var checks := CheckAll(list);
    var out: seq<Stop> := [];
    for i := 0 to |list|
      invariant Collect(checks, i) == Ok(out)
    {
      var s := CheckStop(list[i]);
      assert s == checks[i];
      if s.Err? {
        FirstBadStop(checks, |list|, i);
        return Err(s.error);
      }
      out := out + [s.value];
    }
    r := Ok(SortStops(out));
  }

  // ------------------------------------------------------------------
  // Loops and the breathe period

  /** A loop setting: absent, forever, or a number of passes. */
  datatype Loop = NoLoop | Forever | Times(n: int)

  /** normalizeLoop(loop): undefined stays absent; true and 'inf' loop forever; a number gives max(1, floor n). */
  function NormalizeLoop(loop: Value): (r: Result<Loop, string>)
    ensures loop.Undefined? ==> r == Ok(NoLoop)
    ensures loop == Bool(true) || loop == Str("inf") ==> r == Ok(Forever)
    ensures r.Ok? && r.value.Times? ==> r.value.n >= 1
    ensures !loop.Undefined? && loop != Bool(true) && loop != Str("inf") ==>
              (r.Ok? <==> ToNumber(loop).Fin?)
    ensures !loop.Undefined? && loop != Bool(true) && loop != Str("inf") && r.Ok? ==>
              r == Ok(Times(Max(1, Floor(ToNumber(loop).v))))
  {
    if loop.Undefined? then Ok(NoLoop)
    else if loop == Bool(true) then Ok(Forever)
    else if loop == Str("inf") then Ok(Forever)
    else
      var n := ToNumber(loop);
      if n.Fin? then Ok(Times(Max(1, Floor(n.v))))
      else Err("loop: must be true|'inf'|N")
  }

  /** A whole number of passes n >= 1 is kept as it is. */
  lemma LoopCountKept(n: int)
    requires n >= 1
    ensures NormalizeLoop(Int(n)) == Ok(Times(n))
  {
    assert Floor(n as real) == n;
  }

  /** periodMs !== undefined ? Math.max(50, toNonNegInt(periodMs, 2400)) : undefined */
  function BreathePeriod(periodMs: Value): (r: Option<int>)
    ensures r.None? <==> periodMs.Undefined?
    ensures r.Some? ==> r.value >= 50
    ensures r.Some? && !ToNumber(periodMs).Fin? ==> r.value == 2400
    ensures r.Some? && ToNumber(periodMs).Fin? && ToNumber(periodMs).v >= 50.0 ==> r.value == Floor(ToNumber(periodMs).v)
  {
    if periodMs.Undefined? then None else Some(Max(50, ToNonNegInt(periodMs, 2400)))
  }

  // ------------------------------------------------------------------
  // Rule targets and the do part

  /**
   * validateTargetSelector({ targetRaw, targets }): a ledId wins; otherwise
   * an alias must name an entry of targets.alias with a ledId. The
   * validated aliases map a name to its non-blank ledId.
   */
  function ValidateTargetSelector(targetRaw: Value, alias: map<string, string>): (r: Result<string, string>)
    ensures AsString(Get(AsObject(targetRaw), "ledId")) != [] ==> r == Ok(AsString(Get(AsObject(targetRaw), "ledId")))
    ensures AsString(Get(AsObject(targetRaw), "ledId")) == [] ==>
              var a := AsString(Get(AsObject(targetRaw), "alias"));
              (r.Ok? <==> a != [] && a in alias && alias[a] != [])
              && (r.Ok? ==> r.value == alias[a])
    ensures r.Ok? ==> r.value != []
  {
    var t := AsObject(targetRaw);
    var ledId := AsString(Get(t, "ledId"));
    if ledId != [] then Ok(ledId)
    else
      var a := AsString(Get(t, "alias"));
      if a != [] then
        if a !in alias || alias[a] == [] then Err("target.alias not found in targets.alias")
        else Ok(alias[a])
      else Err("rule target requires ledId or alias")
  }

  /** A target with both a ledId and an alias is decided by the ledId alone. */
  lemma LedIdWinsOverAlias(ledId: string, a: string, alias: map<string, string>)
    requires Trim(ledId) != []
    ensures ValidateTargetSelector(Obj([Prop("ledId", Str(ledId)), Prop("alias", Str(a))]), alias) == Ok(Trim(ledId))
  {
    assert Get(Obj([Prop("ledId", Str(ledId)), Prop("alias", Str(a))]), "ledId") == Str(ledId);
  }

  datatype Interrupt = Always | IfLower | Never

  /** A validated rule.do. */
  datatype DoSpec = DoSpec(effect: string, priority: real, restore: bool, ttlMs: Option<int>,
                           interrupt: Interrupt, params: Option<Value>)

  /** asString(d.interrupt) || 'ifLower', which must be always, ifLower or never. */
  function InterruptOf(x: Value): (r: Result<Interrupt, string>)
    ensures AsString(x) == [] ==> r == Ok(IfLower)
    ensures r.Ok? <==> AsString(x) in {"", "always", "ifLower", "never"}
  {
    var s := AsString(x);
    if s == [] || s == "ifLower" then Ok(IfLower)
    else if s == "always" then Ok(Always)
    else if s == "never" then Ok(Never)
    else Err("rule.do.interrupt must be 'always'|'ifLower'|'never'")
  }

  /**
   * validateDo({ doRaw, effects }): the effect must be named and exist;
   * priority is the number or 0; restore is its truthiness; ttlMs is
   * absent for null/undefined and a non-negative integer otherwise.
   */
  function ValidateDo(doRaw: Value, effects: set<string>): (r: Result<DoSpec, string>)
    ensures r.Ok? <==> AsString(Get(AsObject(doRaw), "effect")) in effects
                       && AsString(Get(AsObject(doRaw), "effect")) != []
                       && InterruptOf(Get(AsObject(doRaw), "interrupt")).Ok?
    ensures r.Ok? ==> r.value.effect in effects
    ensures r.Ok? ==> (r.value.ttlMs.None? <==> Nullish(Get(AsObject(doRaw), "ttlMs")))
    ensures r.Ok? ==> InterruptOf(Get(AsObject(doRaw), "interrupt")) == Ok(r.value.interrupt)
    ensures r.Ok? && r.value.ttlMs.Some? ==> r.value.ttlMs.value >= 0
    ensures r.Ok? ==> r.value.restore == Truthy(Get(AsObject(doRaw), "restore"))
    ensures r.Ok? && !ToNumber(Get(AsObject(doRaw), "priority")).Fin? ==> r.value.priority == 0.0
    ensures r.Ok? && ToNumber(Get(AsObject(doRaw), "priority")).Fin? ==> r.value.priority == ToNumber(Get(AsObject(doRaw), "priority")).v
  {
    var d := AsObject(doRaw);
    var effect := AsString(Get(d, "effect"));
    if effect == [] then Err("rule.do.effect missing")
    else if effect !in effects then Err("rule.do.effect not found in effects")
    else
      var p := ToNumber(Get(d, "priority"));
      var priority := if p.Fin? then p.v else 0.0;
      match InterruptOf(Get(d, "interrupt"))
      case Err(e) => Err(e)
      case Ok(interrupt) =>
        Ok(DoSpec(effect, priority, Truthy(Get(d, "restore")), ToNonNegIntOrNull(Get(d, "ttlMs")), interrupt,
                  if Get(d, "params").Undefined? then None else Some(Get(d, "params"))))
  }

  /** Without an interrupt setting a rule interrupts only lower priorities, and without a ttlMs it never expires. */
  lemma DoDefaults(effect: string, effects: set<string>)
    requires Trim(effect) != [] && Trim(effect) in effects
    ensures var r := ValidateDo(Obj([Prop("effect", Str(effect))]), effects);
            r.Ok? && r.value.interrupt == IfLower && r.value.ttlMs.None? && r.value.priority == 0.0 && !r.value.restore
  {
    var d := Obj([Prop("effect", Str(effect))]);
    assert Get(d, "effect") == Str(effect);
    assert Get(d, "interrupt") == Undefined;
    assert Get(d, "ttlMs") == Undefined;
    assert Get(d, "priority") == Undefined;
    assert Get(d, "restore") == Undefined;
    assert AsObject(d) == d;
    assert InterruptOf(Undefined) == Ok(IfLower);
  }
}
