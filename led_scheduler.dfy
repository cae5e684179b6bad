/**
 * The LED priority scheduler of one LED: one active effect at a time, an
 * interrupt policy deciding whether a request may replace it, a restore
 * stack of effects to resume, a time-to-live, and a timer that calls the
 * active runner and publishes every colour it yields.
 *
 * The clock is the `now` parameter, the timer is the delay of the pending
 * tick, and the LED bus is the sequence of colours published.
 */
module LedScheduler {
  import opened Common
  import opened Js
  import opened LedValidate
  import opened LedEffects

  /** A request: a validated rule.do and the event that caused it. */
  datatype Request = Request(effectId: string, priority: real, restore: bool, ttlMs: Option<nat>,
                             interrupt: Interrupt, sourceEvent: Value)

  /** The active entry: its request, its runner and when it expires. */
  datatype Active = Active(request: Request, runner: Runner, expiresAt: Option<int>)

  /** The scheduler's fields: #active, #stack, #lastRgb, the pending #timer delay and the colours published. */
  datatype Sched = Sched(active: Option<Active>, stack: seq<Active>, lastRgb: Rgb, timer: Option<int>,
                         emitted: seq<Rgb>)

  /** The validated configuration: effects by name, the palette, and the floating-point curves. */
  datatype Config = Config(effects: map<string, EffectDef>, palette: Palette, curves: Curves)

  predicate ConfigOk(cfg: Config)
  {
    forall id :: id in cfg.effects ==> ValidDef(cfg.effects[id])
  }

  /** Every runner held, active or stacked, is in a state its next() accepts. */
  predicate Inv(s: Sched)
  {
    (s.active.Some? ==> RunnerOk(s.active.value.runner))
    && forall k :: 0 <= k < |s.stack| ==> RunnerOk(s.stack[k].runner)
  }

  const Initial := Sched(None, [], Black, None, [])

  /** #accept(req): whether a request may replace the active effect. */
  function Accept(active: Option<Active>, req: Request): (b: bool)
    ensures active.None? ==> b
    ensures active.Some? && req.interrupt.Always? ==> b
    ensures active.Some? && req.interrupt.Never? ==> !b
    ensures active.Some? && req.interrupt.IfLower? ==> (b <==> req.priority >= active.value.request.priority)
  {
    if active.None? then true
    else if req.interrupt.Always? then true
    else if req.interrupt.Never? then false
    else req.priority >= active.value.request.priority
  }

  /** The request names the active effect with the same priority. */
  predicate SameEffect(active: Option<Active>, req: Request)
  {
    active.Some? && req.effectId == active.value.request.effectId && req.priority == active.value.request.priority
  }

  /** req.ttlMs === null ? null : now + req.ttlMs */
  function ExpiresAt(ttlMs: Option<nat>, now: int): (e: Option<int>)
    ensures e.None? <==> ttlMs.None?
    ensures e.Some? ==> e.value == now + ttlMs.value && e.value >= now
  {
    if ttlMs.None? then None else Some(now + ttlMs.value)
  }

  /** The active effect goes on the stack when a restoring request of strictly higher priority replaces it. */
  predicate Pushes(active: Option<Active>, req: Request)
  {
    active.Some? && req.restore && req.priority > active.value.request.priority
  }

  /** An accepted request becomes active with a fresh runner started from the last colour; the tick is due at once. */
  function Start(cfg: Config, s: Sched, req: Request, now: int, sourceEvent: Value): (t: Sched)
    requires ConfigOk(cfg) && req.effectId in cfg.effects && Inv(s)
    ensures Inv(t)
  {
    var stack := if Pushes(s.active, req) then s.stack + [s.active.value] else s.stack;
    var runner := CreateRunner(cfg.effects[req.effectId], cfg.palette, s.lastRgb, sourceEvent, now);
    s.(active := Some(Active(req, runner, ExpiresAt(req.ttlMs, now))), stack := stack, timer := Some(0))
  }

  /**
   * request(req), given the event the runner is created with: as written the
   * runner receives no event (the scheduler passes it under the name
   * requestRef), corrected it receives req.sourceEvent.
   */
  function RequestWith(cfg: Config, s: Sched, req: Request, now: int, asWritten: bool): (t: Sched)
    requires ConfigOk(cfg) && req.effectId in cfg.effects && Inv(s)
    ensures Inv(t)
  {
    if SameEffect(s.active, req) then
      var a := s.active.value;
      s.(active := Some(a.(request := a.request.(sourceEvent := req.sourceEvent))))
    else if !Accept(s.active, req) then s
    else Start(cfg, s, req, now, if asWritten then Undefined else req.sourceEvent)
  }

  /** request(req), with the event handed to the runner. */
  function RequestSpec(cfg: Config, s: Sched, req: Request, now: int): (t: Sched)
    requires ConfigOk(cfg) && req.effectId in cfg.effects && Inv(s)
    ensures Inv(t)
  {
    RequestWith(cfg, s, req, now, false)
  }

  /** request(req) as written: the runner never sees the event. */
  function RequestAsWritten(cfg: Config, s: Sched, req: Request, now: int): (t: Sched)
    requires ConfigOk(cfg) && req.effectId in cfg.effects && Inv(s)
    ensures Inv(t)
  {
    RequestWith(cfg, s, req, now, true)
  }

  /** #finish(): the last stacked effect resumes, with a tick due at once; with an empty stack nothing is active. */
  function FinishSpec(s: Sched): (t: Sched)
    requires Inv(s)
    ensures Inv(t)
    ensures |s.stack| == 0 ==> t == s.(active := None)
    ensures |s.stack| > 0 ==> t.active == Some(s.stack[|s.stack| - 1]) && t.stack == s.stack[..|s.stack| - 1]
                              && t.timer == Some(0)
    ensures t.lastRgb == s.lastRgb && t.emitted == s.emitted
  {
    if |s.stack| == 0 then s.(active := None)
    else s.(active := Some(s.stack[|s.stack| - 1]), stack := s.stack[..|s.stack| - 1], timer := Some(0))
  }

  /** The runner's step applied: a colour is remembered and published; done finishes, otherwise the next tick is set. */
  function AfterStep(s: Sched, a: Active, r: Runner, step: Step): (t: Sched)
    requires Inv(s) && s.active.Some? && RunnerOk(r)
    ensures Inv(t)
  {
    var s1 := s.(active := Some(a.(runner := r)));
    var s2 := if step.rgb.Some? then s1.(lastRgb := step.rgb.value, emitted := s1.emitted + [step.rgb.value]) else s1;
    if step.done then FinishSpec(s2)
    else s2.(timer := Some(if step.nextInMs.Some? then step.nextInMs.value else 30))
  }

  /** #tick() when the pending timer fires at now. */
  function TickSpec(cfg: Config, s: Sched, now: int): (t: Sched)
    requires Inv(s)
    ensures Inv(t)
  {
    var s0 := s.(timer := None);
    if s.active.None? then s0
    else
      var a := s.active.value;
      if a.expiresAt.Some? && now >= a.expiresAt.value then FinishSpec(s0)
      else
        var (r, step) := RunnerNext(a.runner, cfg.palette, cfg.curves, now);
        AfterStep(s0, a, r, step)
  }

  // ------------------------------------------------------------------
  // Properties

  /** The same effect at the same priority only refreshes the event: the runner, its phase and all else stay. */
  lemma SameEffectOnlyUpdatesEvent(cfg: Config, s: Sched, req: Request, now: int)
    requires ConfigOk(cfg) && req.effectId in cfg.effects && Inv(s)
    requires SameEffect(s.active, req)
    ensures var t := RequestSpec(cfg, s, req, now);
            t.stack == s.stack && t.lastRgb == s.lastRgb && t.timer == s.timer && t.emitted == s.emitted
            && t.active.Some? && t.active.value.runner == s.active.value.runner
            && t.active.value.expiresAt == s.active.value.expiresAt
            && t.active.value.request == s.active.value.request.(sourceEvent := req.sourceEvent)
  {
  }

  /** A refused request changes nothing. */
  lemma RefusedChangesNothing(cfg: Config, s: Sched, req: Request, now: int)
    requires ConfigOk(cfg) && req.effectId in cfg.effects && Inv(s)
    requires !SameEffect(s.active, req) && !Accept(s.active, req)
    ensures RequestSpec(cfg, s, req, now) == s
  {
  }

  /** A request that never interrupts leaves a running effect alone. */
  lemma NeverDoesNotInterrupt(cfg: Config, s: Sched, req: Request, now: int)
    requires ConfigOk(cfg) && req.effectId in cfg.effects && Inv(s)
    requires s.active.Some? && req.interrupt.Never? && !SameEffect(s.active, req)
    ensures RequestSpec(cfg, s, req, now) == s
  {
  }

  /** An accepted request becomes the active effect, with its own runner and expiry, and is ticked at once. */
  lemma AcceptedBecomesActive(cfg: Config, s: Sched, req: Request, now: int)
    requires ConfigOk(cfg) && req.effectId in cfg.effects && Inv(s)
    requires !SameEffect(s.active, req) && Accept(s.active, req)
    ensures var t := RequestSpec(cfg, s, req, now);
            t.active == Some(Active(req, CreateRunner(cfg.effects[req.effectId], cfg.palette, s.lastRgb, req.sourceEvent, now),
                                    ExpiresAt(req.ttlMs, now)))
            && t.timer == Some(0) && t.lastRgb == s.lastRgb && t.emitted == s.emitted
            && t.stack == (if Pushes(s.active, req) then s.stack + [s.active.value] else s.stack)
  {
  }

  /** Without restore (or without a higher priority) the replaced effect is dropped, not stacked. */
  lemma ReplacedWithoutRestoreIsDropped(cfg: Config, s: Sched, req: Request, now: int)
    requires ConfigOk(cfg) && req.effectId in cfg.effects && Inv(s)
    requires !Pushes(s.active, req)
    ensures RequestSpec(cfg, s, req, now).stack == s.stack
  {
  }

  /** A restoring higher-priority request, once finished, gives back exactly the effect it replaced (LIFO). */
  lemma RestoreThenFinishResumes(cfg: Config, s: Sched, req: Request, now: int)
    requires ConfigOk(cfg) && req.effectId in cfg.effects && Inv(s)
    requires !SameEffect(s.active, req) && Accept(s.active, req) && Pushes(s.active, req)
    ensures FinishSpec(RequestSpec(cfg, s, req, now)).active == s.active
    ensures FinishSpec(RequestSpec(cfg, s, req, now)).stack == s.stack
  {
    var t := RequestSpec(cfg, s, req, now);
    assert t.stack == s.stack + [s.active.value];
    assert t.stack[..|t.stack| - 1] == s.stack;
  }

  /** An expired effect is finished without calling its runner. */
  lemma ExpiredIsFinished(cfg: Config, s: Sched, now: int)
    requires Inv(s) && s.active.Some? && s.active.value.expiresAt.Some? && now >= s.active.value.expiresAt.value
    ensures TickSpec(cfg, s, now) == FinishSpec(s.(timer := None))
    ensures TickSpec(cfg, s, now).emitted == s.emitted
  {
  }

  /** A tick publishes exactly the colour the runner yields, if any, and remembers it as the last colour. */
  lemma TickPublishesStep(cfg: Config, s: Sched, now: int)
    requires Inv(s) && s.active.Some?
    requires s.active.value.expiresAt.None? || now < s.active.value.expiresAt.value
    ensures var step := RunnerNext(s.active.value.runner, cfg.palette, cfg.curves, now).1;
            var t := TickSpec(cfg, s, now);
            (step.rgb.Some? ==> t.emitted == s.emitted + [step.rgb.value] && t.lastRgb == step.rgb.value)
            && (step.rgb.None? ==> t.emitted == s.emitted && t.lastRgb == s.lastRgb)
            && (!step.done ==> t.timer == Some(if step.nextInMs.Some? then step.nextInMs.value else 30))
  {
  }

  /** A request with ttlMs 0 is finished at its first tick, before its runner yields anything. */
  lemma ZeroTtlShowsNothing(cfg: Config, s: Sched, req: Request, now: int)
    requires ConfigOk(cfg) && req.effectId in cfg.effects && Inv(s)
    requires !SameEffect(s.active, req) && Accept(s.active, req) && req.ttlMs == Some(0)
    ensures TickSpec(cfg, RequestSpec(cfg, s, req, now), now).emitted == s.emitted
  {
  }

  /** A tick with nothing active changes nothing but the timer. */
  lemma IdleTick(cfg: Config, s: Sched, now: int)
    requires Inv(s) && s.active.None?
    ensures TickSpec(cfg, s, now) == s.(timer := None)
  {
  }

  /** A fadeTo request shows its target when the fade takes no time, and the LED then falls back to what was stacked. */
  lemma InstantFadeFinishes(cfg: Config, s: Sched, req: Request, now: int)
    requires ConfigOk(cfg) && req.effectId in cfg.effects && Inv(s)
    requires !SameEffect(s.active, req) && Accept(s.active, req)
    requires cfg.effects[req.effectId].FadeToDef? && cfg.effects[req.effectId].ms == 0
    requires req.ttlMs != Some(0)
    ensures var t := TickSpec(cfg, RequestSpec(cfg, s, req, now), now);
            t.lastRgb == ResolveSpec(cfg.effects[req.effectId].rgb, cfg.palette)
            && t.emitted == s.emitted + [t.lastRgb]
  {
    var t := RequestSpec(cfg, s, req, now);
    assert t.active.value.runner == FadeRun(Fade(s.lastRgb, ResolveSpec(cfg.effects[req.effectId].rgb, cfg.palette), 0,
                                                 cfg.effects[req.effectId].ease, now));
  }

  // ------------------------------------------------------------------
  // The finding: the runner never receives the request's event

  /** An event whose primary target has a position. */
  const EventWithPosition := Obj([Prop("payload", Obj([Prop("primary", Obj([Prop("xy", Arr([Int(1), Int(2)]))]))]))])

  lemma EventHasPosition()
    ensures PrimaryXy(EventWithPosition) == Some([Int(1), Int(2)])
  {
    var p := Obj([Prop("xy", Arr([Int(1), Int(2)]))]);
    var payload := Obj([Prop("primary", p)]);
    assert Get(EventWithPosition, "payload") == payload;
    assert Get(payload, "primary") == p;
    assert Get(p, "xy") == Arr([Int(1), Int(2)]);
  }

  /**
   * As written, a breathe effect started for an event with a position runs
   * without it, so its distance modulators never apply; corrected, it has
   * the position.
   */
  lemma BreatheLosesEvent(cfg: Config, req: Request, now: int)
    requires ConfigOk(cfg) && req.effectId in cfg.effects && cfg.effects[req.effectId].BreatheDef?
    requires req.sourceEvent == EventWithPosition
    ensures RequestAsWritten(cfg, Initial, req, now).active.value.runner.b.xy.None?
    ensures RequestSpec(cfg, Initial, req, now).active.value.runner.b.xy == Some([Int(1), Int(2)])
  {
    EventHasPosition();
  }

  /** Corrected, the breathe runner carries the position of the request's event. */
  lemma BreatheSeesEvent(cfg: Config, s: Sched, req: Request, now: int)
    requires ConfigOk(cfg) && req.effectId in cfg.effects && Inv(s) && cfg.effects[req.effectId].BreatheDef?
    requires !SameEffect(s.active, req) && Accept(s.active, req)
    ensures RequestSpec(cfg, s, req, now).active.value.runner.b.xy == PrimaryXy(req.sourceEvent)
  {
  }

  // ------------------------------------------------------------------
  // The scheduler object

  class Scheduler {
    const cfg: Config
    var active: Option<Active>
    var stack: seq<Active>
    var lastRgb: Rgb
    var timer: Option<int>
    var emitted: seq<Rgb>

    function State(): Sched
      reads this
    {
      Sched(active, stack, lastRgb, timer, emitted)
    }

    predicate Valid()
      reads this
    {
      ConfigOk(cfg) && Inv(State())
    }

    constructor (cfg: Config)
      requires ConfigOk(cfg)
      ensures Valid() && this.cfg == cfg && State() == Initial
    {
      this.cfg := cfg;
      active := None;
      stack := [];
      lastRgb := Black;
      timer := None;
      emitted := [];
    }

    /** dispose(): the timer is cleared and nothing is active or stacked. */
    method Dispose()
      requires Valid()
      modifies this
      ensures Valid()
      ensures State() == old(State()).(active := None, stack := [], timer := None)
    {
      timer := None;
      active := None;
      stack := [];
    }

    /** #schedule(ms): the pending tick is replaced by one after ms. */
    method Schedule(ms: int)
      modifies this
      ensures State() == old(State()).(timer := Some(ms))
    {
      timer := Some(ms);
    }

    method Request(req: Request, now: int)
      requires Valid() && req.effectId in cfg.effects
      modifies this
      ensures Valid()
      ensures State() == RequestSpec(cfg, old(State()), req, now)
    {
      if SameEffect(active, req) {
        var a := active.value;
        active := Some(a.(request := a.request.(sourceEvent := req.sourceEvent)));
        return;
      }
      if !Accept(active, req) {
        return;
      }
      if Pushes(active, req) {
        stack := stack + [active.value];
      }
      var runner := CreateRunner(cfg.effects[req.effectId], cfg.palette, lastRgb, req.sourceEvent, now);
      active := Some(Active(req, runner, ExpiresAt(req.ttlMs, now)));
      Schedule(0);
    }

    method Finish()
      requires Inv(State())
      modifies this
      ensures State() == FinishSpec(old(State()))
    {
      if |stack| == 0 {
        active := None;
      } else {
        active := Some(stack[|stack| - 1]);
        stack := stack[..|stack| - 1];
        Schedule(0);
      }
    }

    /** #emit(rgb): the colour is published on the LED bus. */
    method Emit(rgb: Rgb)
      modifies this
      ensures State() == old(State()).(emitted := old(emitted) + [rgb])
    {
      emitted := emitted + [rgb];
    }

    /** The pending timer fires at now. */
    method Tick(now: int)
      requires Valid()
      modifies this
      ensures Valid()
      ensures State() == TickSpec(cfg, old(State()), now)
    {
      timer := None;
      if active.None? {
        return;
      }
      var a := active.value;
      if a.expiresAt.Some? && now >= a.expiresAt.value {
        Finish();
        return;
      }
      var (r, step) := RunnerNext(a.runner, cfg.palette, cfg.curves, now);
      active := Some(a.(runner := r));
      if step.rgb.Some? {
        lastRgb := step.rgb.value;
        Emit(step.rgb.value);
      }
      if step.done {
        Finish();
        return;
      }
      Schedule(if step.nextInMs.Some? then step.nextInMs.value else 30);
    }
  }
}
