/**
 * The LED effect runners: frames played in order with a hold time each and
 * a loop count, a fade from one colour to another, a breathe effect whose
 * colour follows a wave, and a sequence of holds and fades replayed a number
 * of times. Each runner answers next(now) with a step: an optional colour,
 * the delay before the next call and whether it is done.
 *
 * The frames and sequence runners keep mutable state between calls and are
 * classes here; their steps are also given as pure functions on a state
 * value, which the scheduler holds. The easing and breathe curves are
 * floating-point trigonometry and are parameters (Curves).
 */
module LedEffects {
  import opened Common
  import opened Js
  import opened LedValidate

  /** The validated palette: colour name to colour. */
  type Palette = map<string, Rgb>

  /** What next(now) returns. */
  datatype Step = Step(rgb: Option<Rgb>, nextInMs: Option<int>, done: bool)

  const Done := Step(None, None, true)

  /** The loop counter of the frames and sequence runners: Infinity or a count. */
  datatype Count = Endless | Passes(n: int)

  /** effectDef.loop === 'inf' ? Infinity : effectDef.loop ?? 1 */
  function LoopCount(loop: Loop): (c: Count)
    ensures loop.NoLoop? ==> c == Passes(1)
    ensures loop.Forever? <==> c.Endless?
    ensures loop.Times? ==> c == Passes(loop.n)
  {
    match loop
    case NoLoop => Passes(1)
    case Forever => Endless
    case Times(n) => Passes(n)
  }

  /** loops -= 1 (Infinity stays Infinity) */
  function Dec(c: Count): Count
  {
    match c
    case Endless => Endless
    case Passes(n) => Passes(n - 1)
  }

  /** loops <= 0 */
  predicate Exhausted(c: Count) { c.Passes? && c.n <= 0 }

  // ------------------------------------------------------------------
  // Colours

  /** A colour as a JavaScript array of three numbers. */
  function RgbValue(c: Rgb): Value
  {
    Arr([Int(c.r), Int(c.g), Int(c.b)])
  }

  /**
   * resolveRgbValue(rgbVal, config) with colors = config.palette.colors: a
   * string is looked up (trimmed) and gives the entry's rgb array, or black
   * when there is none; an array of three or more is itself; anything else
   * is null.
   */
  function ResolveRgbValue(rgbVal: Value, colors: Value): (r: Option<Value>)
    ensures r.None? <==> !rgbVal.Str? && !(rgbVal.Arr? && |rgbVal.items| >= 3)
    ensures rgbVal.Arr? && |rgbVal.items| >= 3 ==> r == Some(rgbVal)
    ensures rgbVal.Str? ==> r.value.Arr? && |r.value.items| >= 3
  {
    if rgbVal.Str? then
      var hit := Get(Get(colors, Trim(rgbVal.s)), "rgb");
      if hit.Arr? && |hit.items| >= 3 then Some(hit) else Some(RgbValue(Black))
    else if rgbVal.Arr? && |rgbVal.items| >= 3 then Some(rgbVal)
    else None
  }

  /** A name missing from the palette resolves to black. */
  lemma UnknownNameIsBlack(name: string, colors: Value)
    requires !Get(Get(colors, Trim(name)), "rgb").Arr?
    ensures ResolveRgbValue(Str(name), colors) == Some(RgbValue(Black))
  {
  }

  /** resolveRgbValue(...) || [0, 0, 0] on a validated colour and palette. */
  function ResolveSpec(spec: RgbSpec, palette: Palette): (c: Rgb)
    ensures spec.Triple? ==> c == spec.rgb
    ensures spec.Named? && spec.key !in palette ==> c == Black
  {
    match spec
    case Triple(c) => c
    case Named(key) => if key in palette then palette[key] else Black
  }

  /** The palette value colors holds the validated palette at key. */
  predicate PaletteEntry(colors: Value, key: string, palette: Palette)
  {
    (key in palette ==> Get(Get(colors, key), "rgb") == RgbValue(palette[key]))
    && (key !in palette ==> !Get(Get(colors, key), "rgb").Arr?)
  }

  /** The validated colour as the configuration writes it. */
  function SpecValue(spec: RgbSpec): Value
  {
    match spec
    case Named(key) => Str(key)
    case Triple(c) => RgbValue(c)
  }

  /** On validated colours, resolving the configuration value and resolving the validated one agree. */
  lemma ResolveAgrees(spec: RgbSpec, colors: Value, palette: Palette)
    requires spec.Named? ==> Trim(spec.key) == spec.key && PaletteEntry(colors, spec.key, palette)
    ensures ResolveRgbValue(SpecValue(spec), colors) == Some(RgbValue(ResolveSpec(spec, palette)))
  {
  }

  // ------------------------------------------------------------------
  // The fade runner

  /** ease(name, t): inOutSine follows the sine curve, every other name is linear. */
  datatype Ease = Linear | InOutSine

  /** easeName || 'linear', then ease(name, t) */
  function EaseOf(name: string): (e: Ease)
    ensures e.InOutSine? <==> name == "inOutSine"
  {
    if name == "inOutSine" then InOutSine else Linear
  }

  /** The floating-point curves: 0.5 - 0.5 cos(pi t) and the breathe colour at a time. */
  datatype Curves = Curves(sine: real -> real, breathe: (BreatheState, int) -> Rgb)

  function EaseValue(e: Ease, t: real, curves: Curves): real
  {
    if e.InOutSine? then curves.sine(t) else t
  }

  /** A fade as createFadeRunner closes over it. */
  datatype Fade = Fade(from: Rgb, to: Rgb, duration: nat, ease: Ease, startMs: int)

  /** clamp((now - startMs) / duration, 0, 1) */
  function Progress(f: Fade, now: int): (t: real)
    requires f.duration > 0
    ensures 0.0 <= t <= 1.0
    ensures t >= 1.0 <==> now - f.startMs >= f.duration
    ensures now <= f.startMs ==> t == 0.0
  {
    var x := (now - f.startMs) as real / f.duration as real;
    assert x >= 1.0 <==> now - f.startMs >= f.duration by {
      assert x * f.duration as real == (now - f.startMs) as real;
    }
    assert now <= f.startMs ==> x <= 0.0;
    Clamp01Real(x)
  }

  function Clamp01Real(x: real): (t: real)
    ensures 0.0 <= t <= 1.0
    ensures 0.0 <= x <= 1.0 ==> t == x
    ensures x >= 1.0 <==> t >= 1.0
    ensures x <= 0.0 ==> t == 0.0
  {
    if x < 0.0 then 0.0 else if x > 1.0 then 1.0 else x
  }

  /** Math.round(lerp(a, b, u)) */
  function Channel(a: int, b: int, u: real): int
  {
    Round(a as real + (b - a) as real * u)
  }

  function Mix(from: Rgb, to: Rgb, u: real): Rgb
  {
    Rgb(Channel(from.r, to.r, u), Channel(from.g, to.g, u), Channel(from.b, to.b, u))
  }

  /** The fade runner's next(now). */
  function FadeNext(f: Fade, now: int, curves: Curves): (s: Step)
    ensures s.rgb.Some?
    ensures s.done <==> f.duration == 0 || now - f.startMs >= f.duration
    ensures !s.done ==> s.nextInMs == Some(20)
    ensures s.done ==> s.nextInMs.None?
    ensures f.duration == 0 ==> s.rgb == Some(f.to)
  {
    if f.duration == 0 then Step(Some(f.to), None, true)
    else
      var t := Progress(f, now);
      var rgb := Mix(f.from, f.to, EaseValue(f.ease, t, curves));
      if t >= 1.0 then Step(Some(rgb), None, true) else Step(Some(rgb), Some(20), false)
  }

  lemma MixEnds(from: Rgb, to: Rgb)
    ensures Mix(from, to, 0.0) == from
    ensures Mix(from, to, 1.0) == to
  {
    assert Round(from.r as real) == from.r && Round(from.g as real) == from.g && Round(from.b as real) == from.b;
    assert Round(to.r as real) == to.r && Round(to.g as real) == to.g && Round(to.b as real) == to.b;
  }

  /** A linear fade that is done shows exactly its target colour. */
  lemma LinearFadeEndsAtTarget(f: Fade, now: int, curves: Curves)
    requires f.ease.Linear? && FadeNext(f, now, curves).done
    ensures FadeNext(f, now, curves).rgb == Some(f.to)
  {
    MixEnds(f.from, f.to);
  }

  /** A linear fade of non-zero length starts from its source colour. */
  lemma LinearFadeStartsAtSource(f: Fade, now: int, curves: Curves)
    requires f.ease.Linear? && f.duration > 0 && now <= f.startMs
    ensures FadeNext(f, now, curves) == Step(Some(f.from), Some(20), false)
  {
    MixEnds(f.from, f.to);
  }

  predicate Between(x: int, a: int, b: int) { Min(a, b) <= x <= Max(a, b) }

  lemma {:induction false} ChannelBetween(a: int, b: int, u: real)
    requires 0.0 <= u <= 1.0
    ensures Between(Channel(a, b, u), a, b)
  {
    var d := (b - a) as real;
    if a <= b {
      NonNegProduct(d, u);
      NonNegProduct(d, 1.0 - u);
    } else {
      NonNegProduct(-d, u);
      NonNegProduct(-d, 1.0 - u);
    }
  }

  lemma NonNegProduct(x: real, y: real)
    requires x >= 0.0 && y >= 0.0
    ensures x * y >= 0.0
  {
  }

  /** While the easing stays in [0, 1] (always for linear), every colour of a fade lies between its two ends, channel by channel. */
  lemma FadeStaysBetween(f: Fade, now: int, curves: Curves)
    requires f.duration > 0
    requires f.ease.InOutSine? ==> 0.0 <= curves.sine(Progress(f, now)) <= 1.0
    ensures var c := FadeNext(f, now, curves).rgb.value;
            Between(c.r, f.from.r, f.to.r) && Between(c.g, f.from.g, f.to.g) && Between(c.b, f.from.b, f.to.b)
  {
    var u := EaseValue(f.ease, Progress(f, now), curves);
    ChannelBetween(f.from.r, f.to.r, u);
    ChannelBetween(f.from.g, f.to.g, u);
    ChannelBetween(f.from.b, f.to.b, u);
  }

  // ------------------------------------------------------------------
  // The frames runner

  /** A validated frame: its colour and how long it is held. */
  datatype Frame = Frame(rgb: RgbSpec, holdMs: nat)

  /** The frames runner's closure state: the next frame index and the loops left. */
  datatype FramesState = FramesState(i: nat, loops: Count)

  function FramesStart(loop: Loop): FramesState
  {
    FramesState(0, LoopCount(loop))
  }

  /** { rgb: resolveRgbValue(f.rgb) || [0, 0, 0], nextInMs: f.holdMs, done: false } */
  function FrameStep(f: Frame, palette: Palette): (s: Step)
    ensures !s.done && s.nextInMs == Some(f.holdMs) && s.rgb == Some(ResolveSpec(f.rgb, palette))
  {
    Step(Some(ResolveSpec(f.rgb, palette)), Some(f.holdMs), false)
  }

  /** The frames runner's next(): past the last frame a loop is used up and the frames restart, or the runner is done. */
  function FramesNext(frames: seq<Frame>, palette: Palette, st: FramesState): (r: (FramesState, Step))
    requires |frames| > 0 && st.i <= |frames|
    ensures r.0.i <= |frames|
    ensures r.1.done <==> st.i == |frames| && Exhausted(Dec(st.loops))
  {
    if st.i >= |frames| then
      var loops := Dec(st.loops);
      if Exhausted(loops) then (FramesState(st.i, loops), Done)
      else (FramesState(1, loops), FrameStep(frames[0], palette))
    else (FramesState(st.i + 1, st.loops), FrameStep(frames[st.i], palette))
  }

  /** The state after k calls of next(). */
  function FramesAfter(frames: seq<Frame>, palette: Palette, st: FramesState, k: nat): (r: FramesState)
    requires |frames| > 0 && st.i <= |frames|
    ensures r.i <= |frames|
  {
    if k == 0 then st else FramesNext(frames, palette, FramesAfter(frames, palette, st, k - 1)).0
  }

  /** What call number k (from 0) of next() returns. */
  function FramesCall(frames: seq<Frame>, palette: Palette, st: FramesState, k: nat): Step
    requires |frames| > 0 && st.i <= |frames|
  {
    FramesNext(frames, palette, FramesAfter(frames, palette, st, k)).1
  }

  /** After p full passes and q frames of the next one, the runner points past frame q with n - p loops left. */
  lemma {:induction false} FramesPosition(frames: seq<Frame>, palette: Palette, n: int, p: nat, q: nat)
    requires |frames| > 0 && 1 <= n && p < n && 1 <= q <= |frames|
    ensures FramesAfter(frames, palette, FramesStart(Times(n)), p * |frames| + q) == FramesState(q, Passes(n - p))
    decreases p, q
  {
    var len := |frames|;
    if q > 1 {
      FramesPosition(frames, palette, n, p, q - 1);
    } else if p > 0 {
      FramesPosition(frames, palette, n, p - 1, len);
      assert (p - 1) * len + len == p * len + q - 1;
    }
  }

  lemma QuotientBelow(k: nat, n: int, len: nat)
    requires len > 0 && k < n * len
    ensures k / len < n
  {
    var q := k / len;
    assert q * len <= k;
    assert (q - n) * len < 0;
  }

  /** With loop N the runner yields frame k mod len at call k, for every k below N * len. */
  lemma FramesInOrder(frames: seq<Frame>, palette: Palette, n: int, k: nat)
    requires |frames| > 0 && 1 <= n && k < n * |frames|
    ensures FramesCall(frames, palette, FramesStart(Times(n)), k) == FrameStep(frames[k % |frames|], palette)
  {
    var len := |frames|;
    var p, r := k / len, k % len;
    assert k == p * len + r;
    if k > 0 {
      if r > 0 {
        FramesPosition(frames, palette, n, p, r);
      } else {
        assert p >= 1;
        QuotientBelow(k, n, len);
        FramesPosition(frames, palette, n, p - 1, len);
        assert (p - 1) * len + len == k;
      }
    }
  }

  /** With loop N the call after the N * len frames is done. */
  lemma FramesThenDone(frames: seq<Frame>, palette: Palette, n: int)
    requires |frames| > 0 && 1 <= n
    ensures FramesCall(frames, palette, FramesStart(Times(n)), n * |frames|).done
  {
    FramesPosition(frames, palette, n, n - 1, |frames|);
    assert (n - 1) * |frames| + |frames| == n * |frames|;
  }

  /** Without a loop setting, the frames play once and the runner is then done. */
  lemma FramesPlayOnce(frames: seq<Frame>, palette: Palette)
    requires |frames| > 0
    ensures FramesCall(frames, palette, FramesStart(NoLoop), |frames|).done
  {
    assert FramesStart(NoLoop) == FramesStart(Times(1));
    FramesThenDone(frames, palette, 1);
  }

  lemma {:induction false} EndlessStaysEndless(frames: seq<Frame>, palette: Palette, k: nat)
    requires |frames| > 0
    ensures FramesAfter(frames, palette, FramesStart(Forever), k).loops == Endless
  {
    if k > 0 {
      EndlessStaysEndless(frames, palette, k - 1);
    }
  }

  /** A frames runner that loops forever is never done. */
  lemma EndlessFramesNeverDone(frames: seq<Frame>, palette: Palette, k: nat)
    requires |frames| > 0
    ensures !FramesCall(frames, palette, FramesStart(Forever), k).done
  {
    EndlessStaysEndless(frames, palette, k);
  }

  /** The frames runner with its closure state in fields. */
  class FramesRunner {
    const frames: seq<Frame>
    const palette: Palette
    var i: nat
    var loops: Count

    function State(): FramesState
      reads this
    {
      FramesState(i, loops)
    }

    predicate Valid()
      reads this
    {
      |frames| > 0 && i <= |frames|
    }

    constructor (frames: seq<Frame>, loop: Loop, palette: Palette)
      requires |frames| > 0
      ensures Valid() && this.frames == frames && this.palette == palette
      ensures State() == FramesStart(loop)
    {
      this.frames := frames;
      this.palette := palette;
      i := 0;
      loops := LoopCount(loop);
    }

    method Next() returns (step: Step)
      requires Valid()
      modifies this
      ensures Valid()
      ensures (State(), step) == FramesNext(frames, palette, old(State()))
    {
      if i >= |frames| {
        loops := Dec(loops);
        if Exhausted(loops) {
          return Done;
        }
        i := 0;
      }
      var f := frames[i];
      i := i + 1;
      step := FrameStep(f, palette);
    }
  }

  // ------------------------------------------------------------------
  // The sequence runner

  /** A validated sequence step. */
  datatype SeqStep = Hold(ms: nat) | FadeStep(rgb: RgbSpec, ms: nat, ease: Ease) | UnknownOp

  /** The sequence runner's closure state. */
  datatype SeqState = SeqState(idx: nat, loops: Count, current: Rgb, fade: Option<Fade>)

  /** The index never passes the end, and a running fade belongs to a step. */
  predicate SeqOk(steps: seq<SeqStep>, st: SeqState)
  {
    st.idx <= |steps| && (st.fade.Some? ==> st.idx < |steps|)
  }

  function SeqStart(loop: Loop, initialRgb: Rgb): SeqState
  {
    SeqState(0, LoopCount(loop), initialRgb, None)
  }

  /** advanceLoopIfNeeded(): past the last step a loop is used up and the steps restart, or it fails. */
  function Advance(steps: seq<SeqStep>, st: SeqState): (r: (SeqState, bool))
    requires SeqOk(steps, st)
    ensures SeqOk(steps, r.0)
    ensures r.1 && |steps| > 0 ==> r.0.idx < |steps|
    ensures r.0.current == st.current && r.0.fade == st.fade
  {
    if st.idx < |steps| then (st, true)
    else
      var loops := Dec(st.loops);
      if Exhausted(loops) then (st.(loops := loops), false)
      else (st.(loops := loops, idx := 0), true)
  }

  /** One pass of the loop body: the new state, and the step to return or none to go on. */
  function SeqIter(steps: seq<SeqStep>, palette: Palette, curves: Curves, st: SeqState, now: int)
    : (r: (SeqState, Option<Step>))
    requires SeqOk(steps, st)
    ensures SeqOk(steps, r.0)
  {
    var (st1, ok) := Advance(steps, st);
    if !ok then (st1, Some(Done))
    else if |steps| == 0 then (st1, Some(Done))
    else if st1.fade.Some? then
      var r := FadeNext(st1.fade.value, now, curves);
      var st2 := st1.(current := r.rgb.value);
      if r.done then (st2.(fade := None, idx := st2.idx + 1), None)
      else (st2, Some(r))
    else
      match steps[st1.idx]
      case Hold(ms) =>
        var st2 := st1.(idx := st1.idx + 1);
        if ms == 0 then (st2, None) else (st2, Some(Step(None, Some(ms), false)))
      case FadeStep(rgb, ms, ease) =>
        (st1.(fade := Some(Fade(st1.current, ResolveSpec(rgb, palette), ms, ease, now))), None)
      case UnknownOp => (st1, Some(Done))
  }

  /** The while (guard < 16) loop of next(now), from iteration guard on. */
  function SeqLoop(steps: seq<SeqStep>, palette: Palette, curves: Curves, st: SeqState, now: int, guard: nat)
    : (r: (SeqState, Step))
    requires SeqOk(steps, st) && guard <= 16
    ensures SeqOk(steps, r.0)
    decreases 16 - guard
  {
    if guard >= 16 then (st, Done)
    else
      match SeqIter(steps, palette, curves, st, now)
      case (st', Some(step)) => (st', step)
      case (st', None) => SeqLoop(steps, palette, curves, st', now, guard + 1)
  }

  /** The sequence runner's next(now). */
  function SeqNext(steps: seq<SeqStep>, palette: Palette, curves: Curves, st: SeqState, now: int): (r: (SeqState, Step))
    requires SeqOk(steps, st)
    ensures SeqOk(steps, r.0)
  {
    SeqLoop(steps, palette, curves, st, now, 0)
  }

  /** A sequence without steps is done at once. */
  lemma EmptySequenceDone(palette: Palette, curves: Curves, st: SeqState, now: int, guard: nat)
    requires SeqOk([], st) && guard <= 16
    ensures SeqLoop([], palette, curves, st, now, guard).1 == Done
  {
  }

  /** A hold of 0 ms is skipped: the loop goes on with the next step. */
  lemma ZeroHoldSkipped(steps: seq<SeqStep>, palette: Palette, curves: Curves, st: SeqState, now: int, guard: nat)
    requires SeqOk(steps, st) && guard < 16
    requires st.fade.None? && st.idx < |steps| && steps[st.idx] == Hold(0)
    ensures SeqLoop(steps, palette, curves, st, now, guard)
         == SeqLoop(steps, palette, curves, st.(idx := st.idx + 1), now, guard + 1)
  {
  }

  /** A hold of ms > 0 moves past the step and asks to be called again after ms. */
  lemma HoldWaits(steps: seq<SeqStep>, palette: Palette, curves: Curves, st: SeqState, now: int, guard: nat)
    requires SeqOk(steps, st) && guard < 16
    requires st.fade.None? && st.idx < |steps| && steps[st.idx].Hold? && steps[st.idx].ms > 0
    ensures SeqLoop(steps, palette, curves, st, now, guard)
         == (st.(idx := st.idx + 1), Step(None, Some(steps[st.idx].ms), false))
  {
  }

  /** A linear fade step of non-zero length starts at the current colour and asks for the next call in 20 ms. */
  lemma FadeStepStarts(steps: seq<SeqStep>, palette: Palette, curves: Curves, st: SeqState, now: int, guard: nat)
    requires SeqOk(steps, st) && guard < 15
    requires st.fade.None? && st.idx < |steps| && steps[st.idx].FadeStep?
    requires steps[st.idx].ms > 0 && steps[st.idx].ease.Linear?
    ensures SeqLoop(steps, palette, curves, st, now, guard).1 == Step(Some(st.current), Some(20), false)
    ensures SeqLoop(steps, palette, curves, st, now, guard).0.fade.Some?
  {
    var s := steps[st.idx];
    var fade := Fade(st.current, ResolveSpec(s.rgb, palette), s.ms, s.ease, now);
    LinearFadeStartsAtSource(fade, now, curves);
  }

  predicate AllZeroHolds(steps: seq<SeqStep>)
  {
    forall k :: 0 <= k < |steps| ==> steps[k] == Hold(0)
  }

  /** The 16-step guard: even a sequence of zero holds looping forever returns, done. */
  lemma {:induction false} ZeroHoldsEndCall(steps: seq<SeqStep>, palette: Palette, curves: Curves, st: SeqState, now: int,
                                            guard: nat)
    requires SeqOk(steps, st) && guard <= 16
    requires AllZeroHolds(steps) && st.fade.None? && st.loops.Endless?
    ensures SeqLoop(steps, palette, curves, st, now, guard).1 == Done
    decreases 16 - guard
  {
    if guard < 16 && |steps| > 0 {
      var st1 := Advance(steps, st).0;
      ZeroHoldsEndCall(steps, palette, curves, st1.(idx := st1.idx + 1), now, guard + 1);
    }
  }

  /** The sequence runner with its closure state in fields. */
  class SequenceRunner {
    const steps: seq<SeqStep>
    const palette: Palette
    const curves: Curves
    var idx: nat
    var loops: Count
    var current: Rgb
    var fade: Option<Fade>

    function State(): SeqState
      reads this
    {
      SeqState(idx, loops, current, fade)
    }

    predicate Valid()
      reads this
    {
      SeqOk(steps, State())
    }

    constructor (steps: seq<SeqStep>, loop: Loop, palette: Palette, curves: Curves, initialRgb: Rgb)
      ensures Valid() && this.steps == steps && this.palette == palette && this.curves == curves
      ensures State() == SeqStart(loop, initialRgb)
    {
      this.steps := steps;
      this.palette := palette;
      this.curves := curves;
      idx := 0;
      loops := LoopCount(loop);
      current := initialRgb;
      fade := None;
    }

    method AdvanceLoopIfNeeded() returns (ok: bool)
      requires Valid()
      modifies this
      ensures Valid()
      ensures (State(), ok) == Advance(steps, old(State()))
    {
      if idx < |steps| {
        return true;
      }
      loops := Dec(loops);
      if Exhausted(loops) {
        return false;
      }
      idx := 0;
      return true;
    }

    /** One pass of the loop body of next(now). */
    method Iterate(now: int) returns (step: Option<Step>)
      requires Valid()
      modifies this
      ensures Valid()
      ensures (State(), step) == SeqIter(steps, palette, curves, old(State()), now)
    {
      var ok := AdvanceLoopIfNeeded();
      if !ok || |steps| == 0 {
        return Some(Done);
      }
      if fade.Some? {
        var r := FadeNext(fade.value, now, curves);
        current := r.rgb.value;
        if r.done {
          fade := None;
          idx := idx + 1;
          return None;
        }
        return Some(r);
      }
      match steps[idx]
      case Hold(ms) =>
        idx := idx + 1;
        step := if ms == 0 then None else Some(Step(None, Some(ms), false));
      case FadeStep(rgb, ms, ease) =>
        fade := Some(Fade(current, ResolveSpec(rgb, palette), ms, ease, now));
        step := None;
      case UnknownOp =>
        step := Some(Done);
    }

    method Next(now: int) returns (step: Step)
      requires Valid()
      modifies this
      ensures Valid()
      ensures (State(), step) == SeqNext(steps, palette, curves, old(State()), now)
    {
      var guard := 0;
      while guard < 16
        invariant guard <= 16 && Valid()
        invariant SeqLoop(steps, palette, curves, State(), now, guard) == SeqNext(steps, palette, curves, old(State()), now)
        decreases 16 - guard
      {
        guard := guard + 1;
        var r := Iterate(now);
        if r.Some? {
          return r.value;
        }
      }
      return Done;
    }
  }

  // ------------------------------------------------------------------
  // Breathe and the runner factory

  /** What the breathe runner closes over: the effect, its start and the primary target's xy, when the event has one. */
  datatype BreatheState = BreatheState(def: Value, start: int, xy: Option<seq<Value>>)

  /** The breathe runner's next(now): a colour on the wave, every 20 ms, never done. */
  function BreatheNext(b: BreatheState, now: int, curves: Curves): (s: Step)
    ensures !s.done && s.nextInMs == Some(20) && s.rgb.Some?
  {
    Step(Some(curves.breathe(b, now)), Some(20), false)
  }

  /**
   * The xy of getPrimary(evt) when it is an array: distanceM(evt) is
   * null exactly when this is none.
   */
  function PrimaryXy(evt: Value): (r: Option<seq<Value>>)
    ensures Nullish(evt) ==> r.None?
  {
    var payload := Get(evt, "payload");
    var p := Or(Get(payload, "primary"), Or(At(Get(payload, "targets"), 0), Null));
    var xy := Get(p, "xy");
    if xy.Arr? then Some(xy.items) else None
  }

  /** A validated effect definition. */
  datatype EffectDef =
    | FramesDef(frames: seq<Frame>, loop: Loop)
    | FadeToDef(rgb: RgbSpec, ms: nat, ease: Ease)
    | BreatheDef(def: Value)
    | SequenceDef(steps: seq<SeqStep>, loop: Loop)
    | OtherDef

  /** A frames effect has at least one frame. */
  predicate ValidDef(def: EffectDef)
  {
    def.FramesDef? ==> |def.frames| > 0
  }

  /** A runner as a value: the state its closure holds. */
  datatype Runner =
    | FramesRun(frames: seq<Frame>, fst: FramesState)
    | FadeRun(fade: Fade)
    | BreatheRun(b: BreatheState)
    | SeqRun(steps: seq<SeqStep>, sst: SeqState)
    | IdleRun

  predicate RunnerOk(r: Runner)
  {
    match r
    case FramesRun(frames, fst) => |frames| > 0 && fst.i <= |frames|
    case SeqRun(steps, sst) => SeqOk(steps, sst)
    case _ => true
  }

  /** createEffectRunner({ effectDef, config, initialRgb, sourceEvent, clockNowMs }) */
  function CreateRunner(def: EffectDef, palette: Palette, initialRgb: Rgb, sourceEvent: Value, now: int): (r: Runner)
    requires ValidDef(def)
    ensures RunnerOk(r)
    ensures def.OtherDef? <==> r.IdleRun?
    ensures def.FadeToDef? ==> r == FadeRun(Fade(initialRgb, ResolveSpec(def.rgb, palette), def.ms, def.ease, now))
    ensures def.BreatheDef? ==> r == BreatheRun(BreatheState(def.def, now, PrimaryXy(sourceEvent)))
  {
    match def
    case FramesDef(frames, loop) => FramesRun(frames, FramesStart(loop))
    case FadeToDef(rgb, ms, ease) => FadeRun(Fade(initialRgb, ResolveSpec(rgb, palette), ms, ease, now))
    case BreatheDef(d) => BreatheRun(BreatheState(d, now, PrimaryXy(sourceEvent)))
    case SequenceDef(steps, loop) => SeqRun(steps, SeqStart(loop, initialRgb))
    case OtherDef => IdleRun
  }

  /** runner.next(now) with the runner's new state. */
  function RunnerNext(r: Runner, palette: Palette, curves: Curves, now: int): (res: (Runner, Step))
    requires RunnerOk(r)
    ensures RunnerOk(res.0)
    ensures r.IdleRun? ==> res == (IdleRun, Done)
    ensures r.BreatheRun? || r.FadeRun? ==> res.0 == r
  {
    match r
    case FramesRun(frames, fst) =>
      var (fst', s) := FramesNext(frames, palette, fst);
      (FramesRun(frames, fst'), s)
    case FadeRun(f) => (r, FadeNext(f, now, curves))
    case BreatheRun(b) => (r, BreatheNext(b, now, curves))
    case SeqRun(steps, sst) =>
      var (sst', s) := SeqNext(steps, palette, curves, sst, now);
      (SeqRun(steps, sst'), s)
    case IdleRun => (r, Done)
  }

  /** An effect of an unknown type is done on every call, whenever it is called. */
  lemma UnknownTypeDone(palette: Palette, initialRgb: Rgb, sourceEvent: Value, created: int, curves: Curves, now: int)
    ensures var r := CreateRunner(OtherDef, palette, initialRgb, sourceEvent, created);
            RunnerNext(r, palette, curves, now) == (r, Done)
  {
  }

  /** A fadeTo effect of 0 ms shows its target colour at the first call and is done. */
  lemma InstantFadeTo(rgb: RgbSpec, ease: Ease, palette: Palette, initialRgb: Rgb, sourceEvent: Value, created: int,
                      curves: Curves, now: int)
    ensures RunnerNext(CreateRunner(FadeToDef(rgb, 0, ease), palette, initialRgb, sourceEvent, created), palette, curves, now).1
         == Step(Some(ResolveSpec(rgb, palette)), None, true)
  {
  }
}
