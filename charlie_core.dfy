/**
 * Charlie's conversation state machine. Presence events from the front and
 * back zones and the expiry of its own timers move it through IDLE,
 * ARMING, ACTIVE and COOLDOWN; each change of state bumps a version that
 * timer events must carry to be acted on, and cancels the timers that do
 * not belong to the new state. Entering ACTIVE starts a conversation in
 * the mode the rule engine selects, leaving it stops the conversation.
 *
 * The state is modelled together with the scheduler's timer map (a World),
 * because the core's central promise is about both: every timer token the
 * core holds names a pending timer of its kind carrying the current version.
 * The clock's reading, its frozen flag and time-zone offset, and the token
 * the scheduler would generate, are the environment (Env) of each step; the
 * calls made to the conversation adapter are returned.
 */
module CharlieCore {
  import opened Common
  import opened Js
  import opened RuleEngine
  import LogicalClock
  import TS = TimeScheduler

  const DEFAULT_ARMING_DELAY_MS: int := 1200
  const DEFAULT_EXIT_CONFIRM_MS: int := 2000
  const DEFAULT_COOLDOWN_MS: int := 60000

  datatype Phase = Idle | Arming | Active | Cooldown

  datatype PresenceState = Both | FrontOnly | BackOnly | NoPresence

  datatype TimerKind = ArmingTimer | ExitConfirmTimer | CooldownTimer

  /** config.timers: each delay a number, or absent for its default. */
  datatype TimerConfig = TimerConfig(armingDelayMs: Option<int>, exitConfirmMs: Option<int>, conversationCooldownMs: Option<int>)

  /** A call made to the conversation adapter. */
  datatype Call =
    | StartConversation(requestId: RequestId, modeId: Value, openerId: Value)
    | StopConversation(requestId: RequestId, reason: string)

  /** The bus events the core reacts to; any other type is Unhandled. */
  datatype Event =
    | PresenceEnter(zone: Value)
    | PresenceExit(zone: Value)
    | TimeExpired(kind: TimerKind, payload: Value)
    | Unhandled

  /** What one step reads from outside: the clock and the token the scheduler would hand out next. */
  datatype Env = Env(now: int, frozen: bool, tzOffsetMs: int, nextToken: string)

  datatype CoreState = CoreState(
    state: Phase, version: nat, front: bool, back: bool,
    armingToken: Option<string>, exitConfirmToken: Option<string>, cooldownToken: Option<string>,
    sessionActive: bool, activeRuleId: Value, activeModeId: Value, activeOpenerId: Value)

  datatype World = World(core: CoreState, timers: map<string, TS.Timer>)

  /** The world after a handler, the conversation call it made, and whether it threw. */
  datatype Outcome = Outcome(world: World, call: Option<Call>, thrown: bool)

  const INITIAL: CoreState := CoreState(Idle, 0, false, false, None, None, None, false, Null, Null, Null)

  // ------------------------------------------------------------------
  // Events and presence

  function TypeName(k: TimerKind): string
  {
    match k
    case ArmingTimer => "time:armingExpired"
    case ExitConfirmTimer => "time:exitConfirmExpired"
    case CooldownTimer => "time:cooldownExpired"
  }

  /**
   * #handleEvent's dispatch on event.type; reading payload.zone of a
   * presence event without a payload throws.
   */
  function Classify(kind: string, payload: Value): (r: Result<Event, string>)
    ensures r.Err? <==> (kind == "presence:enter" || kind == "presence:exit") && Nullish(payload)
    ensures forall k :: r == Ok(TimeExpired(k, payload)) <==> kind == TypeName(k)
    ensures r == Ok(Unhandled) <==>
      kind !in {"presence:enter", "presence:exit", TypeName(ArmingTimer), TypeName(ExitConfirmTimer), TypeName(CooldownTimer)}
  {
    if kind == "presence:enter" then (if Nullish(payload) then Err(TYPE_ERROR) else Ok(PresenceEnter(Get(payload, "zone"))))
    else if kind == "presence:exit" then (if Nullish(payload) then Err(TYPE_ERROR) else Ok(PresenceExit(Get(payload, "zone"))))
    else if kind == TypeName(ArmingTimer) then Ok(TimeExpired(ArmingTimer, payload))
    else if kind == TypeName(ExitConfirmTimer) then Ok(TimeExpired(ExitConfirmTimer, payload))
    else if kind == TypeName(CooldownTimer) then Ok(TimeExpired(CooldownTimer, payload))
    else Ok(Unhandled)
  }

  /** #getPresenceState() from the two zone flags. */
  function PresenceOf(front: bool, back: bool): (p: PresenceState)
    ensures p == Both <==> front && back
    ensures p == FrontOnly <==> front && !back
    ensures p == BackOnly <==> !front && back
    ensures p == NoPresence <==> !front && !back
  {
    if front && back then Both
    else if front then FrontOnly
    else if back then BackOnly
    else NoPresence
  }

  function Presence(c: CoreState): PresenceState
  {
    PresenceOf(c.front, c.back)
  }

  /** #setPresence(zone, present): only the zones 'front' and 'back' exist. */
  function WithPresence(c: CoreState, zone: Value, present: bool): (r: CoreState)
    ensures zone == Str("front") ==> r == c.(front := present)
    ensures zone == Str("back") ==> r == c.(back := present)
    ensures zone != Str("front") && zone != Str("back") ==> r == c
  {
    if zone == Str("front") then c.(front := present)
    else if zone == Str("back") then c.(back := present)
    else c
  }

  /** #isCurrentTimeEvent: payload?.stateVersion === stateVersion. */
  predicate IsCurrent(payload: Value, version: nat)
  {
    Get(payload, "stateVersion") == Int(version)
  }

  // ------------------------------------------------------------------
  // Timers

  function TokenOf(c: CoreState, k: TimerKind): Option<string>
  {
    match k
    case ArmingTimer => c.armingToken
    case ExitConfirmTimer => c.exitConfirmToken
    case CooldownTimer => c.cooldownToken
  }

  function WithToken(c: CoreState, k: TimerKind, t: Option<string>): (r: CoreState)
    ensures TokenOf(r, k) == t && forall j :: j != k ==> TokenOf(r, j) == TokenOf(c, j)
  {
    match k
    case ArmingTimer => c.(armingToken := t)
    case ExitConfirmTimer => c.(exitConfirmToken := t)
    case CooldownTimer => c.(cooldownToken := t)
  }

  /** A token is truthy: present and not empty. */
  predicate Live(t: Option<string>)
  {
    t.Some? && t.value != []
  }

  /** The timer each state keeps when it is entered. */
  predicate Owns(s: Phase, k: TimerKind)
  {
    (s == Arming && k == ArmingTimer) || (s == Active && k == ExitConfirmTimer) || (s == Cooldown && k == CooldownTimer)
  }

  /**
   * #cancelTimer(kind): a live token of that kind is cancelled in the
   * scheduler and forgotten; without one nothing happens.
   */
  function CancelOne(w: World, k: TimerKind): (r: World)
    ensures Live(TokenOf(w.core, k)) ==> r == World(WithToken(w.core, k, None), w.timers - {TokenOf(w.core, k).value})
    ensures !Live(TokenOf(w.core, k)) ==> r == w
  {
    var t := TokenOf(w.core, k);
    if Live(t) then World(WithToken(w.core, k, None), w.timers - {t.value}) else w
  }

  function CancelAll(w: World): World
  {
    CancelOne(CancelOne(CancelOne(w, ArmingTimer), ExitConfirmTimer), CooldownTimer)
  }

  /** The timer of kind k a state cancels when it is entered: the live one, unless the state owns it. */
  function CancelSet(c: CoreState, s: Phase, k: TimerKind): set<string>
  {
    if !Owns(s, k) && Live(TokenOf(c, k)) then {TokenOf(c, k).value} else {}
  }

  /** The live tokens a state cancels when it is entered: those of the timers it does not own. */
  function Cancelled(c: CoreState, s: Phase): set<string>
  {
    CancelSet(c, s, ArmingTimer) + CancelSet(c, s, ExitConfirmTimer) + CancelSet(c, s, CooldownTimer)
  }

  /** The cancellation one case of #transitionTo's switch makes: none for the timer the new state owns. */
  function CancelUnowned(w: World, s: Phase, k: TimerKind): (r: World)
    ensures r == if !Owns(s, k) && Live(TokenOf(w.core, k))
                 then World(WithToken(w.core, k, None), w.timers - {TokenOf(w.core, k).value}) else w
  {
    if Owns(s, k) then w else CancelOne(w, k)
  }

  /**
   * #transitionTo(state): a real change moves the version on by one and
   * cancels every timer the new state does not own (all of them for IDLE);
   * a transition to the current state does nothing at all.
   */
  function Transition(w: World, s: Phase): (r: World)
    ensures r.core.state == s
    ensures r.core.version == w.core.version + (if w.core.state == s then 0 else 1)
    ensures w.core.state == s ==> r == w
  {
    if w.core.state == s then w
    else
      var w1 := w.(core := w.core.(state := s, version := w.core.version + 1));
      CancelUnowned(CancelUnowned(CancelUnowned(w1, s, ArmingTimer), s, ExitConfirmTimer), s, CooldownTimer)
  }

  /** One cancellation removes at most its own timer and leaves the other tokens alone. */
  lemma CancelUnownedParts(w: World, s: Phase, k: TimerKind)
    ensures var r := CancelUnowned(w, s, k);
      && r.timers == w.timers - CancelSet(w.core, s, k)
      && forall j :: j != k ==> TokenOf(r.core, j) == TokenOf(w.core, j)
  {
  }

  /** A cancellation whose token of kind k is still the one c holds removes the timers CancelSet(c, s, k) names. */
  lemma CancelStep(w: World, c: CoreState, s: Phase, k: TimerKind)
    requires TokenOf(w.core, k) == TokenOf(c, k)
    ensures CancelUnowned(w, s, k).timers == w.timers - CancelSet(c, s, k)
    ensures forall j :: j != k ==> TokenOf(CancelUnowned(w, s, k).core, j) == TokenOf(w.core, j)
  {
    CancelUnownedParts(w, s, k);
  }

  lemma MapMinusUnion(m: map<string, TS.Timer>, a: set<string>, b: set<string>, c: set<string>)
    ensures m - a - b - c == m - (a + b + c)
  {
  }

  /** A real transition removes exactly the live timers the new state does not own. */
  lemma TransitionTimers(w: World, s: Phase)
    requires w.core.state != s
    ensures Transition(w, s).timers == w.timers - Cancelled(w.core, s)
  {
    var c := w.core;
    var w1 := w.(core := c.(state := s, version := c.version + 1));
    var w2 := CancelUnowned(w1, s, ArmingTimer);
    var w3 := CancelUnowned(w2, s, ExitConfirmTimer);
    var a, b, d := CancelSet(c, s, ArmingTimer), CancelSet(c, s, ExitConfirmTimer), CancelSet(c, s, CooldownTimer);
    assert w2.timers == w.timers - a && TokenOf(w2.core, ExitConfirmTimer) == TokenOf(c, ExitConfirmTimer)
      && TokenOf(w2.core, CooldownTimer) == TokenOf(c, CooldownTimer) by {
      CancelStep(w1, c, s, ArmingTimer);
    }
    assert w3.timers == w.timers - a - b && TokenOf(w3.core, CooldownTimer) == TokenOf(c, CooldownTimer) by {
      CancelStep(w2, c, s, ExitConfirmTimer);
    }
    assert Transition(w, s).timers == w.timers - a - b - d by {
      CancelStep(w3, c, s, CooldownTimer);
    }
    MapMinusUnion(w.timers, a, b, d);
  }

  /** The cancellations #transitionTo makes for each new state, once the state and version are set. */
  lemma TransitionCases(w: World, s: Phase)
    requires w.core.state != s
    ensures var w1 := w.(core := w.core.(state := s, version := w.core.version + 1));
      Transition(w, s) == match s
        case Idle => CancelAll(w1)
        case Arming => CancelOne(CancelOne(w1, ExitConfirmTimer), CooldownTimer)
        case Active => CancelOne(CancelOne(w1, ArmingTimer), CooldownTimer)
        case Cooldown => CancelOne(CancelOne(w1, ArmingTimer), ExitConfirmTimer)
  {
  }

  /**
   * A real transition forgets the tokens of those timers and changes nothing
   * else of the core but its state and version.
   */
  lemma TransitionTokens(w: World, s: Phase)
    requires w.core.state != s
    ensures var r := Transition(w, s);
      r.core == w.core.(state := s, version := w.core.version + 1,
                        armingToken := Kept(w.core.armingToken, s, ArmingTimer),
                        exitConfirmToken := Kept(w.core.exitConfirmToken, s, ExitConfirmTimer),
                        cooldownToken := Kept(w.core.cooldownToken, s, CooldownTimer))
  {
    var c := w.core;
    var c1 := c.(state := s, version := c.version + 1);
    var c2 := c1.(armingToken := Kept(c.armingToken, s, ArmingTimer));
    var c3 := c2.(exitConfirmToken := Kept(c.exitConfirmToken, s, ExitConfirmTimer));
    var c4 := c3.(cooldownToken := Kept(c.cooldownToken, s, CooldownTimer));
    var w1 := w.(core := c1);
    var w2 := CancelUnowned(w1, s, ArmingTimer);
    assert w2.core == c2;
    var w3 := CancelUnowned(w2, s, ExitConfirmTimer);
    assert w3.core == c3;
    assert Transition(w, s).core == c4;
  }

  /** The token a state keeps of kind k on entry. */
  function Kept(t: Option<string>, s: Phase, k: TimerKind): Option<string>
  {
    if !Owns(s, k) && Live(t) then None else t
  }

  function DelayOf(cfg: TimerConfig, k: TimerKind): int
  {
    match k
    case ArmingTimer => if cfg.armingDelayMs.Some? then cfg.armingDelayMs.value else DEFAULT_ARMING_DELAY_MS
    case ExitConfirmTimer => if cfg.exitConfirmMs.Some? then cfg.exitConfirmMs.value else DEFAULT_EXIT_CONFIRM_MS
    case CooldownTimer => if cfg.conversationCooldownMs.Some? then cfg.conversationCooldownMs.value else DEFAULT_COOLDOWN_MS
  }

  /** The timer scheduleIn files for kind k: due now + delay, its payload the current version. */
  function TimerFor(c: CoreState, k: TimerKind, cfg: TimerConfig, env: Env): TS.Timer
  {
    TS.Arm(TS.Timer(env.nextToken, env.now + DelayOf(cfg, k), TypeName(k), [Prop("stateVersion", Int(c.version))], TS.Unarmed),
           env.now, env.frozen)
  }

  /** this.#<kind>Token = scheduler.scheduleIn({ delayMs, type, payload: { stateVersion } }) */
  function Schedule(w: World, k: TimerKind, cfg: TimerConfig, env: Env): (r: World)
    ensures TokenOf(r.core, k) == Some(env.nextToken) && env.nextToken in r.timers
    ensures r.timers[env.nextToken].atMs == env.now + DelayOf(cfg, k)
  {
    World(WithToken(w.core, k, Some(env.nextToken)), w.timers[env.nextToken := TimerFor(w.core, k, cfg, env)])
  }

  // ------------------------------------------------------------------
  // Rule selection

  /** The clock's local time lies where a Date can hold it, and the scheduler's token is not empty. */
  predicate EnvOk(env: Env)
  {
    -LogicalClock.MAX_TIME_MS <= env.now + env.tzOffsetMs <= LogicalClock.MAX_TIME_MS && env.nextToken != []
  }

  /** #buildRuleContext(now): the front zone wins when both are present. */
  function ContextOf(c: CoreState, env: Env): Context
    requires EnvOk(env)
  {
    ContextAt(c.front, env)
  }

  /** The rule context for the clock's local time, given whether the front zone is present. */
  function ContextAt(front: bool, env: Env): (ctx: Context)
    requires EnvOk(env)
    ensures 1 <= ctx.weekday <= 7 && 0 <= ctx.minuteOfDay < 1440
    ensures ctx.zone == if front then "front" else "back"
  {
    var adjusted := env.now + env.tzOffsetMs;
    var p := LogicalClock.Parts(adjusted).value;
    LogicalClock.MinuteOfDay(adjusted);
    Context(if front then "front" else "back", p.weekday, p.hour * 60 + p.minute)
  }

  function OrNull(v: Value): Value
  {
    if Nullish(v) then Null else v
  }

  /** selection.actions?.modePromptId ?? null */
  function ModeOf(sel: Selection): Value
  {
    OrNull(Get(sel.actions, "modePromptId"))
  }

  /** selection.actions?.openerPromptId ?? null */
  function OpenerOf(sel: Selection): Value
  {
    OrNull(Get(sel.actions, "openerPromptId"))
  }

  /** A request id `req_${now}_${what}`, kept as its two parts; Text() writes it out. */
  datatype RequestId = RequestId(now: int, what: string)
  {
    function Text(): string
    {
      "req_" + IntToString(now) + "_" + what
    }
  }

  // ------------------------------------------------------------------
  // Handlers

  /**
   * #maybeEnterArming(): with someone present, no cooldown pending and a
   * mode selected, enter ARMING and schedule its expiry.
   */
  function EnterArmingIfSelected(w: World, engine: Engine, cfg: TimerConfig, env: Env): Outcome
    requires EnvOk(env)
  {
    if Presence(w.core) == NoPresence || Live(w.core.cooldownToken) then Outcome(w, None, false)
    else
      match Select(engine, ContextOf(w.core, env))
      case Err(_) => Outcome(w, None, true)
      case Ok(sel) =>
        if ModeOf(sel) == Null then Outcome(w, None, false)
        else Outcome(Schedule(Transition(w, Arming), ArmingTimer, cfg, env), None, false)
  }

  /** #onPresenceChanged(), after the zone flag has been set. */
  function PresenceChanged(w: World, engine: Engine, cfg: TimerConfig, env: Env): Outcome
    requires EnvOk(env)
  {
    match w.core.state
    case Idle => EnterArmingIfSelected(w, engine, cfg, env)
    case Arming =>
      if Presence(w.core) == NoPresence then Outcome(Transition(CancelOne(w, ArmingTimer), Idle), None, false)
      else Outcome(w, None, false)
    case Active =>
      if Presence(w.core) == NoPresence then
        Outcome(if Live(w.core.exitConfirmToken) then w else Schedule(w, ExitConfirmTimer, cfg, env), None, false)
      else Outcome(if Live(w.core.exitConfirmToken) then CancelOne(w, ExitConfirmTimer) else w, None, false)
    case Cooldown => Outcome(w, None, false)
  }

  /** #onArmingExpired after its token is forgotten: start the conversation, or go back to IDLE. */
  function ArmingExpired(w: World, engine: Engine, cfg: TimerConfig, env: Env): Outcome
    requires EnvOk(env)
  {
    if w.core.state != Arming then Outcome(w, None, false)
    else if Presence(w.core) == NoPresence then Outcome(Transition(w, Idle), None, false)
    else
      match Select(engine, ContextOf(w.core, env))
      case Err(_) => Outcome(w, None, true)
      case Ok(sel) =>
        var modeId := ModeOf(sel);
        if modeId == Null then Outcome(Transition(w, Idle), None, false)
        else
          var openerId := OpenerOf(sel);
          var c := w.core.(activeRuleId := sel.ruleId, activeModeId := modeId, activeOpenerId := openerId, sessionActive := true);
          Outcome(Transition(w.(core := c), Active), Some(StartConversation(RequestId(env.now, "start"), modeId, openerId)), false)
  }

  /** #onExitConfirmExpired after its token is forgotten: with nobody present, stop and cool down. */
  function ExitConfirmExpired(w: World, cfg: TimerConfig, env: Env): Outcome
  {
    if w.core.state != Active || Presence(w.core) != NoPresence then Outcome(w, None, false)
    else
      var call := if w.core.sessionActive then Some(StopConversation(RequestId(env.now, "stop"), "no_presence")) else None;
      var c := w.core.(sessionActive := false, activeRuleId := Null, activeModeId := Null, activeOpenerId := Null);
      Outcome(Schedule(Transition(w.(core := c), Cooldown), CooldownTimer, cfg, env), call, false)
  }

  /** #onCooldownExpired after its token is forgotten. */
  function CooldownExpired(w: World): Outcome
  {
    if w.core.state != Cooldown then Outcome(w, None, false) else Outcome(Transition(w, Idle), None, false)
  }

  /** this.#<kind>Token = null */
  function Forget(w: World, k: TimerKind): (r: World)
    ensures r.timers == w.timers && TokenOf(r.core, k).None?
  {
    w.(core := WithToken(w.core, k, None))
  }

  /** A time event: ignored unless it carries the current version, else its token is forgotten and its handler runs. */
  function OnTimeExpired(w: World, k: TimerKind, payload: Value, engine: Engine, cfg: TimerConfig, env: Env): Outcome
    requires EnvOk(env)
  {
    if !IsCurrent(payload, w.core.version) then Outcome(w, None, false)
    else
      var w1 := Forget(w, k);
      match k
      case ArmingTimer => ArmingExpired(w1, engine, cfg, env)
      case ExitConfirmTimer => ExitConfirmExpired(w1, cfg, env)
      case CooldownTimer => CooldownExpired(w1)
  }

  /** #handleEvent(event) for a classified event. */
  function Step(w: World, ev: Event, engine: Engine, cfg: TimerConfig, env: Env): Outcome
    requires EnvOk(env)
  {
    match ev
    case PresenceEnter(zone) => PresenceChanged(w.(core := WithPresence(w.core, zone, true)), engine, cfg, env)
    case PresenceExit(zone) => PresenceChanged(w.(core := WithPresence(w.core, zone, false)), engine, cfg, env)
    case TimeExpired(k, payload) => OnTimeExpired(w, k, payload, engine, cfg, env)
    case Unhandled => Outcome(w, None, false)
  }

  // ------------------------------------------------------------------
  // The invariant

  /** Each token belongs to its own state, and none is empty. */
  predicate TokensMatchState(c: CoreState)
  {
    && (c.armingToken.Some? ==> c.state == Arming && c.armingToken.value != [])
    && (c.exitConfirmToken.Some? ==> c.state == Active && c.exitConfirmToken.value != [])
    && (c.cooldownToken.Some? ==> c.state == Cooldown && c.cooldownToken.value != [])
  }

  /** A token of kind k names a pending timer of that type whose payload carries the current version. */
  predicate Pending(w: World, k: TimerKind)
  {
    TokenOf(w.core, k).Some? ==>
      var t := TokenOf(w.core, k).value;
      && t in w.timers && w.timers[t].token == t && w.timers[t].kind == TypeName(k)
      && Lookup(w.timers[t].payload, "stateVersion") == Some(Int(w.core.version))
  }

  /**
   * The core's invariant: tokens match the state and name pending timers of
   * the current version, and a conversation is running, with a mode, exactly
   * while the core is ACTIVE.
   */
  predicate Inv(w: World)
  {
    && TokensMatchState(w.core)
    && Pending(w, ArmingTimer) && Pending(w, ExitConfirmTimer) && Pending(w, CooldownTimer)
    && (w.core.sessionActive <==> w.core.state == Active)
    && (w.core.activeModeId != Null <==> w.core.state == Active)
  }

  lemma InitialInv(timers: map<string, TS.Timer>)
    ensures Inv(World(INITIAL, timers))
  {
  }

  /** After a real transition no token is left: the one the new state owns was not held in the old one. */
  lemma TransitionClears(w: World, s: Phase)
    requires TokensMatchState(w.core) && w.core.state != s
    ensures var r := Transition(w, s);
      r.core.armingToken.None? && r.core.exitConfirmToken.None? && r.core.cooldownToken.None?
  {
    var r := Transition(w, s);
    TransitionTokens(w, s);
    forall k ensures TokenOf(r.core, k).None? {
      if Owns(s, k) {
        assert TokenOf(w.core, k).None?;
      }
    }
    assert TokenOf(r.core, ArmingTimer).None? && TokenOf(r.core, ExitConfirmTimer).None? && TokenOf(r.core, CooldownTimer).None?;
  }

  /** Entering a new state keeps the invariant when the session flags already suit it. */
  lemma TransitionInv(w: World, s: Phase)
    requires TokensMatchState(w.core) && w.core.state != s
    requires w.core.sessionActive <==> s == Active
    requires w.core.activeModeId != Null <==> s == Active
    ensures Inv(Transition(w, s))
  {
    TransitionClears(w, s);
  }

  /** Scheduling the timer of the current state, when it holds no token, keeps the invariant. */
  lemma ScheduleInv(w: World, k: TimerKind, cfg: TimerConfig, env: Env)
    requires Inv(w) && EnvOk(env) && Owns(w.core.state, k) && TokenOf(w.core, k).None?
    ensures Inv(Schedule(w, k, cfg, env))
  {
    var r := Schedule(w, k, cfg, env);
    forall j ensures Pending(r, j) {
      if j != k {
        assert TokenOf(w.core, j).None?;
      }
    }
  }

  /** Forgetting a token, or cancelling it, keeps the invariant. */
  lemma CancelInv(w: World, k: TimerKind)
    requires Inv(w)
    ensures Inv(CancelOne(w, k)) && Inv(w.(core := WithToken(w.core, k, None)))
  {
  }

  lemma PresenceChangedInv(w: World, engine: Engine, cfg: TimerConfig, env: Env)
    requires Inv(w) && EnvOk(env)
    ensures Inv(PresenceChanged(w, engine, cfg, env).world)
  {
    match w.core.state
    case Idle =>
      if Presence(w.core) != NoPresence && !Live(w.core.cooldownToken) {
        TransitionInv(w, Arming);
        ScheduleInv(Transition(w, Arming), ArmingTimer, cfg, env);
      }
    case Arming =>
      CancelInv(w, ArmingTimer);
      if Presence(w.core) == NoPresence {
        TransitionInv(CancelOne(w, ArmingTimer), Idle);
      }
    case Active =>
      CancelInv(w, ExitConfirmTimer);
      if Presence(w.core) == NoPresence && !Live(w.core.exitConfirmToken) {
        ScheduleInv(w, ExitConfirmTimer, cfg, env);
      }
    case Cooldown =>
  }

  lemma TimeExpiredInv(w: World, k: TimerKind, payload: Value, engine: Engine, cfg: TimerConfig, env: Env)
    requires EnvOk(env)
    requires IsCurrent(payload, w.core.version) ==> Inv(w.(core := WithToken(w.core, k, None)))
    requires !IsCurrent(payload, w.core.version) ==> Inv(w)
    ensures Inv(OnTimeExpired(w, k, payload, engine, cfg, env).world)
  {
    if IsCurrent(payload, w.core.version) {
      var w1 := w.(core := WithToken(w.core, k, None));
      match k
      case ArmingTimer =>
        if w1.core.state == Arming {
          if Presence(w1.core) == NoPresence {
            TransitionInv(w1, Idle);
          } else {
            var r := Select(engine, ContextOf(w1.core, env));
            if r.Ok? && ModeOf(r.value) == Null {
              TransitionInv(w1, Idle);
            } else if r.Ok? {
              var sel := r.value;
              var c := w1.core.(activeRuleId := sel.ruleId, activeModeId := ModeOf(sel), activeOpenerId := OpenerOf(sel), sessionActive := true);
              TransitionInv(w1.(core := c), Active);
            }
          }
        }
      case ExitConfirmTimer =>
        if w1.core.state == Active && Presence(w1.core) == NoPresence {
          var c := w1.core.(sessionActive := false, activeRuleId := Null, activeModeId := Null, activeOpenerId := Null);
          TransitionInv(w1.(core := c), Cooldown);
          ScheduleInv(Transition(w1.(core := c), Cooldown), CooldownTimer, cfg, env);
        }
      case CooldownTimer =>
        if w1.core.state == Cooldown {
          TransitionInv(w1, Idle);
        }
    }
  }

  /**
   * What a step needs to keep the invariant: the invariant itself, or for a
   * current time event, the invariant once the token of its kind is forgotten.
   */
  predicate InvBefore(w: World, ev: Event)
  {
    match ev
    case TimeExpired(k, payload) =>
      if IsCurrent(payload, w.core.version) then Inv(w.(core := WithToken(w.core, k, None))) else Inv(w)
    case _ => Inv(w)
  }

  lemma StepInvBefore(w: World, ev: Event, engine: Engine, cfg: TimerConfig, env: Env)
    requires InvBefore(w, ev) && EnvOk(env)
    ensures Inv(Step(w, ev, engine, cfg, env).world)
  {
    match ev
    case PresenceEnter(zone) =>
      var w1 := w.(core := WithPresence(w.core, zone, true));
      PresenceKeepsInv(w, zone, true);
      assert Step(w, ev, engine, cfg, env) == PresenceChanged(w1, engine, cfg, env);
      PresenceChangedInv(w1, engine, cfg, env);
    case PresenceExit(zone) =>
      var w1 := w.(core := WithPresence(w.core, zone, false));
      PresenceKeepsInv(w, zone, false);
      assert Step(w, ev, engine, cfg, env) == PresenceChanged(w1, engine, cfg, env);
      PresenceChangedInv(w1, engine, cfg, env);
    case TimeExpired(k, payload) =>
      assert Step(w, ev, engine, cfg, env) == OnTimeExpired(w, k, payload, engine, cfg, env);
      TimeExpiredInv(w, k, payload, engine, cfg, env);
    case Unhandled =>
  }

  /** Recording a zone's presence touches neither the tokens, the state nor the timers. */
  lemma PresenceKeepsInv(w: World, zone: Value, present: bool)
    requires Inv(w)
    ensures Inv(w.(core := WithPresence(w.core, zone, present)))
  {
    var c := WithPresence(w.core, zone, present);
    assert c.state == w.core.state && c.version == w.core.version;
    assert c.armingToken == w.core.armingToken && c.exitConfirmToken == w.core.exitConfirmToken;
    assert c.cooldownToken == w.core.cooldownToken;
    assert c.sessionActive == w.core.sessionActive && c.activeModeId == w.core.activeModeId;
    forall k: TimerKind ensures TokenOf(c, k) == TokenOf(w.core, k) {
    }
  }

  /** Every event the core handles keeps the invariant, whether it acts, ignores the event or throws. */
  lemma StepInv(w: World, ev: Event, engine: Engine, cfg: TimerConfig, env: Env)
    requires Inv(w) && EnvOk(env)
    ensures Inv(Step(w, ev, engine, cfg, env).world)
  {
    if ev.TimeExpired? {
      CancelInv(w, ev.kind);
    }
    StepInvBefore(w, ev, engine, cfg, env);
  }

  /** Removing a timer the core holds no token for keeps the invariant. */
  lemma RemoveForeignInv(w: World, token: string)
    requires Inv(w)
    requires forall k :: TokenOf(w.core, k) != Some(token)
    ensures Inv(w.(timers := w.timers - {token}))
  {
    assert TokenOf(w.core, ArmingTimer) != Some(token);
    assert TokenOf(w.core, ExitConfirmTimer) != Some(token);
    assert TokenOf(w.core, CooldownTimer) != Some(token);
  }

  /**
   * The scheduler fires a filed timer: it is removed and its event published,
   * and the core's handling of that event keeps the invariant. A timer the
   * core holds a token for carries the current version, so its handler runs
   * and first forgets the token of the timer that has gone.
   */
  lemma FiredTimerKeepsInv(w: World, token: string, engine: Engine, cfg: TimerConfig, env: Env)
    requires Inv(w) && EnvOk(env) && token in w.timers && TS.Filed(w.timers)
    ensures var ev := TS.FireEvent(w.timers[token], env.now);
      var r := Classify(ev.kind, Obj(ev.payload));
      r.Ok? && Inv(Step(w.(timers := w.timers - {token}), r.value, engine, cfg, env).world)
  {
    FiredInvBefore(w, token, env.now);
    var ev := TS.FireEvent(w.timers[token], env.now);
    StepInvBefore(w.(timers := w.timers - {token}), Classify(ev.kind, Obj(ev.payload)).value, engine, cfg, env);
  }

  /** The fired event meets what its step needs once the scheduler has removed the timer. */
  lemma FiredInvBefore(w: World, token: string, now: int)
    requires Inv(w) && token in w.timers && TS.Filed(w.timers)
    ensures var ev := TS.FireEvent(w.timers[token], now);
      var r := Classify(ev.kind, Obj(ev.payload));
      r.Ok? && InvBefore(w.(timers := w.timers - {token}), r.value)
  {
    var t := w.timers[token];
    var ev := TS.FireEvent(t, now);
    if exists k :: t.kind == TypeName(k) {
      var k :| t.kind == TypeName(k);
      assert Classify(ev.kind, Obj(ev.payload)) == Ok(TimeExpired(k, Obj(ev.payload)));
      FiredTimeEvent(w, token, k, now);
    } else {
      assert !Classify(ev.kind, Obj(ev.payload)).value.TimeExpired?;
      FiredOtherEvent(w, token);
    }
  }

  /** A fired timer of one of the core's types: its own timer is current, and its token is forgotten. */
  lemma FiredTimeEvent(w: World, token: string, k: TimerKind, now: int)
    requires Inv(w) && token in w.timers && TS.Filed(w.timers) && w.timers[token].kind == TypeName(k)
    ensures InvBefore(w.(timers := w.timers - {token}), TimeExpired(k, Obj(TS.FireEvent(w.timers[token], now).payload)))
  {
    var t := w.timers[token];
    var payload := Obj(TS.FireEvent(t, now).payload);
    var w1 := w.(timers := w.timers - {token});
    if TokenOf(w.core, k) == Some(token) {
      assert IsCurrent(payload, w.core.version) by {
        TS.FirePayload(t, now, "stateVersion");
      }
      ForgetFiredInv(w, k);
    } else {
      assert forall j :: TokenOf(w.core, j) != Some(token);
      RemoveForeignInv(w, token);
      CancelInv(w1, k);
    }
  }

  /** Any other fired timer is not one the core holds a token for. */
  lemma FiredOtherEvent(w: World, token: string)
    requires Inv(w) && token in w.timers && forall k :: w.timers[token].kind != TypeName(k)
    ensures Inv(w.(timers := w.timers - {token}))
  {
    RemoveForeignInv(w, token);
  }

  /** Removing the timer a token names and forgetting the token keeps the invariant. */
  lemma ForgetFiredInv(w: World, k: TimerKind)
    requires Inv(w) && TokenOf(w.core, k).Some?
    ensures var w1 := w.(timers := w.timers - {TokenOf(w.core, k).value});
      Inv(w1.(core := WithToken(w1.core, k, None)))
  {
  }

  /** A time event of an earlier version is ignored: nothing changes and no call is made. */
  lemma StaleTimeEventIgnored(w: World, k: TimerKind, payload: Value, engine: Engine, cfg: TimerConfig, env: Env)
    requires EnvOk(env) && Get(payload, "stateVersion") != Int(w.core.version)
    ensures Step(w, TimeExpired(k, payload), engine, cfg, env) == Outcome(w, None, false)
  {
  }

  /** Each step makes at most one transition, so the version moves on exactly when the state changes. */
  lemma StepVersion(w: World, ev: Event, engine: Engine, cfg: TimerConfig, env: Env)
    requires EnvOk(env)
    ensures var r := Step(w, ev, engine, cfg, env).world.core;
      r.version == w.core.version + (if r.state == w.core.state then 0 else 1)
  {
    match ev
    case PresenceEnter(zone) => PresenceVersion(w.(core := WithPresence(w.core, zone, true)), engine, cfg, env);
    case PresenceExit(zone) => PresenceVersion(w.(core := WithPresence(w.core, zone, false)), engine, cfg, env);
    case TimeExpired(k, payload) =>
      if IsCurrent(payload, w.core.version) {
        TimeVersion(w.(core := WithToken(w.core, k, None)), k, engine, cfg, env);
      }
    case Unhandled =>
  }

  lemma PresenceVersion(w: World, engine: Engine, cfg: TimerConfig, env: Env)
    requires EnvOk(env)
    ensures var r := PresenceChanged(w, engine, cfg, env).world.core;
      r.version == w.core.version + (if r.state == w.core.state then 0 else 1)
  {
    match w.core.state
    case Idle =>
    case Arming =>
      var w1 := CancelOne(w, ArmingTimer);
      assert w1.core.state == w.core.state && w1.core.version == w.core.version;
    case Active =>
    case Cooldown =>
  }

  lemma TimeVersion(w: World, k: TimerKind, engine: Engine, cfg: TimerConfig, env: Env)
    requires EnvOk(env)
    ensures var r := (match k
      case ArmingTimer => ArmingExpired(w, engine, cfg, env)
      case ExitConfirmTimer => ExitConfirmExpired(w, cfg, env)
      case CooldownTimer => CooldownExpired(w)).world.core;
      r.version == w.core.version + (if r.state == w.core.state then 0 else 1)
  {
  }

  /**
   * In IDLE, someone entering leads to ARMING exactly when a rule selects a
   * mode for the context; the arming timer is then pending, due after the
   * arming delay.
   */
  lemma EnterArmingIff(w: World, zone: Value, engine: Engine, cfg: TimerConfig, env: Env)
    requires Inv(w) && EnvOk(env) && w.core.state == Idle
    requires zone == Str("front") || zone == Str("back")
    ensures var c := WithPresence(w.core, zone, true);
      var sel := Select(engine, ContextOf(c, env));
      var o := Step(w, PresenceEnter(zone), engine, cfg, env);
      && (o.world.core.state == Arming <==> sel.Ok? && ModeOf(sel.value) != Null)
      && (o.world.core.state != Arming ==> o.world == w.(core := c))
      && (o.world.core.state == Arming ==>
            && o.world.core.armingToken == Some(env.nextToken)
            && o.world.timers[env.nextToken].atMs == env.now + DelayOf(cfg, ArmingTimer)
            && o.world.core.version == w.core.version + 1)
      && o.call.None?
  {
  }

  /**
   * In ACTIVE with nobody left, the exit-confirm timer is scheduled once:
   * a further exit while it is pending changes nothing.
   */
  lemma ExitConfirmScheduledOnce(w: World, zone: Value, engine: Engine, cfg: TimerConfig, env: Env)
    requires Inv(w) && EnvOk(env) && w.core.state == Active && Presence(w.core) == NoPresence
    ensures var o := Step(w, PresenceExit(zone), engine, cfg, env);
      && (Live(w.core.exitConfirmToken) ==> o == Outcome(w, None, false))
      && (!Live(w.core.exitConfirmToken) ==>
            && o.world.core.exitConfirmToken == Some(env.nextToken)
            && o.world.timers[env.nextToken].atMs == env.now + DelayOf(cfg, ExitConfirmTimer)
            && o.world.core.state == Active)
  {
    assert WithPresence(w.core, zone, false) == w.core;
  }

  /** Someone coming back while the exit is being confirmed cancels the exit-confirm timer. */
  lemma ReturnCancelsExitConfirm(w: World, zone: Value, engine: Engine, cfg: TimerConfig, env: Env)
    requires Inv(w) && EnvOk(env) && w.core.state == Active && Live(w.core.exitConfirmToken)
    requires zone == Str("front") || zone == Str("back")
    ensures var o := Step(w, PresenceEnter(zone), engine, cfg, env);
      && o.world.core.state == Active && o.world.core.exitConfirmToken.None?
      && o.world.timers == w.timers - {w.core.exitConfirmToken.value}
      && o.call.None?
  {
  }

  /**
   * The current exit-confirm timer firing with nobody present stops the
   * conversation with reason no_presence and enters COOLDOWN, whose timer
   * is then pending.
   */
  lemma ExitConfirmStops(w: World, payload: Value, engine: Engine, cfg: TimerConfig, env: Env)
    requires Inv(w) && EnvOk(env) && w.core.state == Active && Presence(w.core) == NoPresence
    requires IsCurrent(payload, w.core.version)
    ensures var o := Step(w, TimeExpired(ExitConfirmTimer, payload), engine, cfg, env);
      && o.call == Some(StopConversation(RequestId(env.now, "stop"), "no_presence"))
      && o.world.core.state == Cooldown && !o.world.core.sessionActive && o.world.core.activeModeId == Null
      && o.world.core.cooldownToken == Some(env.nextToken)
      && o.world.timers[env.nextToken].atMs == env.now + DelayOf(cfg, CooldownTimer)
  {
  }

  /**
   * The current arming timer firing with someone present and a mode selected
   * starts the conversation in that mode and enters ACTIVE.
   */
  lemma ArmingStarts(w: World, payload: Value, engine: Engine, cfg: TimerConfig, env: Env)
    requires Inv(w) && EnvOk(env) && w.core.state == Arming && Presence(w.core) != NoPresence
    requires IsCurrent(payload, w.core.version)
    requires var sel := Select(engine, ContextOf(w.core, env)); sel.Ok? && ModeOf(sel.value) != Null
    ensures var sel := Select(engine, ContextOf(w.core, env)).value;
      var o := Step(w, TimeExpired(ArmingTimer, payload), engine, cfg, env);
      && o.call == Some(StartConversation(RequestId(env.now, "start"), ModeOf(sel), OpenerOf(sel)))
      && o.world.core.state == Active && o.world.core.sessionActive
      && o.world.core.activeRuleId == sel.ruleId && o.world.core.activeModeId == ModeOf(sel)
  {
  }

  /**
   * Conversation calls bracket ACTIVE: a start is made exactly on entering
   * ACTIVE, from ARMING, and a stop only on leaving it for COOLDOWN.
   */
  lemma CallsBracketActive(w: World, ev: Event, engine: Engine, cfg: TimerConfig, env: Env)
    requires Inv(w) && EnvOk(env)
    ensures var o := Step(w, ev, engine, cfg, env);
      && (o.call.Some? && o.call.value.StartConversation? <==> w.core.state != Active && o.world.core.state == Active)
      && (o.call.Some? && o.call.value.StartConversation? ==> w.core.state == Arming)
      && (o.call.Some? && o.call.value.StopConversation? ==> w.core.state == Active && o.world.core.state == Cooldown)
  {
    match ev
    case PresenceEnter(zone) =>
      PresenceBrackets(w.(core := WithPresence(w.core, zone, true)), engine, cfg, env);
    case PresenceExit(zone) =>
      PresenceBrackets(w.(core := WithPresence(w.core, zone, false)), engine, cfg, env);
    case TimeExpired(k, payload) =>
      if IsCurrent(payload, w.core.version) {
        var w1 := Forget(w, k);
        assert w1.core.state == w.core.state;
        match k
        case ArmingTimer => ArmingBrackets(w1, engine, cfg, env);
        case ExitConfirmTimer => ExitConfirmBrackets(w1, cfg, env);
        case CooldownTimer =>
      }
    case Unhandled =>
  }

  /** A presence change makes no call and never enters ACTIVE. */
  lemma PresenceBrackets(w: World, engine: Engine, cfg: TimerConfig, env: Env)
    requires EnvOk(env)
    ensures var o := PresenceChanged(w, engine, cfg, env);
      o.call == None && (o.world.core.state == Active ==> w.core.state == Active)
  {
    if w.core.state == Idle {
      var o := EnterArmingIfSelected(w, engine, cfg, env);
      assert o.world.core.state in {Idle, Arming};
    }
  }

  /** The arming timer makes a call only when it starts the conversation on entering ACTIVE from ARMING. */
  lemma ArmingBrackets(w: World, engine: Engine, cfg: TimerConfig, env: Env)
    requires EnvOk(env)
    ensures var o := ArmingExpired(w, engine, cfg, env);
      && (o.call.Some? <==> w.core.state != Active && o.world.core.state == Active)
      && (o.call.Some? ==> o.call.value.StartConversation? && w.core.state == Arming)
  {
  }

  /** The exit-confirm timer makes a call only when it stops the conversation on leaving ACTIVE for COOLDOWN. */
  lemma ExitConfirmBrackets(w: World, cfg: TimerConfig, env: Env)
    requires EnvOk(env)
    ensures var o := ExitConfirmExpired(w, cfg, env);
      && (o.call.Some? ==> o.call.value.StopConversation? && w.core.state == Active && o.world.core.state == Cooldown)
      && (o.world.core.state == Active ==> w.core.state == Active)
  {
  }

  // ------------------------------------------------------------------
  // The core object

  /** The stopping branch of #onExitConfirmExpired, step by step. */
  lemma ExitConfirmStopsAt(w: World, c: CoreState, cfg: TimerConfig, env: Env)
    requires w.core.state == Active && Presence(w.core) == NoPresence
    requires c == w.core.(sessionActive := false, activeRuleId := Null, activeModeId := Null, activeOpenerId := Null)
    ensures ExitConfirmExpired(w, cfg, env).world == Schedule(Transition(w.(core := c), Cooldown), CooldownTimer, cfg, env)
    ensures ExitConfirmExpired(w, cfg, env).call ==
      if w.core.sessionActive then Some(StopConversation(RequestId(env.now, "stop"), "no_presence")) else None
  {
  }

  /** What getSnapshot() returns. */
  datatype Snapshot = Snapshot(
    state: Phase, stateVersion: nat, presenceFront: bool, presenceBack: bool, presenceState: PresenceState,
    sessionActive: bool, activeRuleId: Value, activeModeId: Value, activeOpenerId: Value)

  /** What a step takes as given about the world it starts from, for the bus event (kind, payload). */
  predicate Ready(w: World, kind: string, payload: Value)
  {
    match Classify(kind, payload)
    case Err(_) => Inv(w)
    case Ok(ev) => InvBefore(w, ev)
  }

  lemma InvReady(w: World, kind: string, payload: Value)
    requires Inv(w)
    ensures Ready(w, kind, payload)
  {
    var r := Classify(kind, payload);
    if r.Ok? && r.value.TimeExpired? {
      CancelInv(w, r.value.kind);
    }
  }

  class Core {
    const clock: LogicalClock.Clock
    const scheduler: TS.Scheduler
    const engine: Engine
    const timerConfig: TimerConfig

    var state: Phase
    var stateVersion: nat
    var presenceFront: bool
    var presenceBack: bool
    var armingToken: Option<string>
    var exitConfirmToken: Option<string>
    var cooldownToken: Option<string>
    var sessionActive: bool
    var activeRuleId: Value
    var activeModeId: Value
    var activeOpenerId: Value
    /** Whether the core still listens to the bus. */
    var subscribed: bool

    function CoreNow(): CoreState
      reads this
    {
      CoreState(state, stateVersion, presenceFront, presenceBack, armingToken, exitConfirmToken, cooldownToken,
                sessionActive, activeRuleId, activeModeId, activeOpenerId)
    }

    function WorldNow(): World
      reads this, scheduler
    {
      World(CoreNow(), scheduler.timers)
    }

    ghost predicate Valid()
      reads this, scheduler
    {
      Inv(WorldNow()) && scheduler.Valid()
    }

    /** The clock as the core reads it at the real instant realNow, and the scheduler's next token. */
    function EnvAt(realNow: int, nextToken: string): Env
      reads clock
    {
      Env(clock.NowMs(realNow), clock.isFrozen, clock.tzOffsetMs, nextToken)
    }

    /**
     * new CharlieCore({ clock, bus, scheduler, conversation, config }): IDLE
     * at version 0, nobody present, no timers held, the rules sorted once.
     */
    constructor(clock: LogicalClock.Clock, scheduler: TS.Scheduler, rules: Option<seq<Rule>>, timerConfig: TimerConfig)
      requires scheduler.Valid()
      ensures Valid() && CoreNow() == INITIAL && subscribed
      ensures this.clock == clock && this.scheduler == scheduler && this.timerConfig == timerConfig
      ensures engine == NewEngine(if rules.Some? then rules.value else [])
    {
      this.clock := clock;
      this.scheduler := scheduler;
      this.timerConfig := timerConfig;
      engine := NewEngine(if rules.Some? then rules.value else []);
      state := Idle;
      stateVersion := 0;
      presenceFront := false;
      presenceBack := false;
      armingToken := None;
      exitConfirmToken := None;
      cooldownToken := None;
      sessionActive := false;
      activeRuleId := Null;
      activeModeId := Null;
      activeOpenerId := Null;
      subscribed := true;
      new;
      InitialInv(scheduler.timers);
    }

    /** getSnapshot(): a session is reported active, with a mode, exactly in ACTIVE. */
    function GetSnapshot(): (s: Snapshot)
      reads this, scheduler
      ensures Valid() ==> (s.sessionActive <==> s.state == Active) && (s.activeModeId != Null <==> s.state == Active)
      ensures s.presenceState == NoPresence <==> !s.presenceFront && !s.presenceBack
    {
      Snapshot(state, stateVersion, presenceFront, presenceBack, PresenceOf(presenceFront, presenceBack),
               sessionActive, activeRuleId, activeModeId, activeOpenerId)
    }

    /** dispose(): stops listening to the bus and cancels every timer held. */
    method Dispose()
      requires Valid()
      modifies this, scheduler
      ensures Valid() && !subscribed
      ensures WorldNow() == CancelAll(old(WorldNow()))
    {
      subscribed := false;
      CancelAllTimers();
      CancelInv(old(WorldNow()), ArmingTimer);
      CancelInv(CancelOne(old(WorldNow()), ArmingTimer), ExitConfirmTimer);
      CancelInv(CancelOne(CancelOne(old(WorldNow()), ArmingTimer), ExitConfirmTimer), CooldownTimer);
    }

    /**
     * #handleEvent(event) for the bus event (kind, payload): a presence event
     * without a payload throws before anything changes; every other event is
     * the step of the pure model, and the invariant holds afterwards.
     */
    method HandleEvent(kind: string, payload: Value, realNow: int, nextToken: string) returns (call: Option<Call>, thrown: bool)
      requires scheduler.Valid() && Ready(WorldNow(), kind, payload) && EnvOk(EnvAt(realNow, nextToken))
      modifies this, scheduler
      ensures Valid() && subscribed == old(subscribed)
      ensures Classify(kind, payload).Err? ==> WorldNow() == old(WorldNow()) && call.None? && thrown
      ensures Classify(kind, payload).Ok? ==>
        Outcome(WorldNow(), call, thrown) == Step(old(WorldNow()), Classify(kind, payload).value, engine, timerConfig, EnvAt(realNow, nextToken))
    {
      var env := EnvAt(realNow, nextToken);
      var r := Classify(kind, payload);
      if r.Err? {
        assert Inv(WorldNow());
        return None, true;
      }
      StepInvBefore(WorldNow(), r.value, engine, timerConfig, env);
      call, thrown := None, false;
      match r.value
      case PresenceEnter(zone) =>
        SetPresence(zone, true);
        thrown := OnPresenceChanged(env);
      case PresenceExit(zone) =>
        SetPresence(zone, false);
        thrown := OnPresenceChanged(env);
      case TimeExpired(k, p) =>
        match k {
          case ArmingTimer => call, thrown := OnArmingExpired(p, env);
          case ExitConfirmTimer => call := OnExitConfirmExpired(p, env);
          case CooldownTimer => OnCooldownExpired(p);
        }
      case Unhandled =>
    }

    /** #setPresence(zone, present) */
    method SetPresence(zone: Value, present: bool)
      modifies this
      ensures CoreNow() == WithPresence(old(CoreNow()), zone, present) && subscribed == old(subscribed)
    {
      if zone == Str("front") {
        presenceFront := present;
        return;
      }
      if zone == Str("back") {
        presenceBack := present;
      }
    }

    /** #onPresenceChanged(); thrown when the rule engine throws. */
    method OnPresenceChanged(env: Env) returns (thrown: bool)
      requires scheduler.Valid() && EnvOk(env)
      modifies this, scheduler
      ensures scheduler.Valid() && subscribed == old(subscribed)
      ensures Outcome(WorldNow(), None, thrown) == PresenceChanged(old(WorldNow()), engine, timerConfig, env)
    {
      thrown := false;
      var presence := Presence(CoreNow());
      if state == Idle {
        thrown := MaybeEnterArming(env);
        return;
      }
      if state == Arming {
        if presence == NoPresence {
          CancelTimer(ArmingTimer);
          TransitionTo(Idle);
        }
        return;
      }
      if state == Active {
        if presence == NoPresence {
          if !Live(exitConfirmToken) {
            ScheduleTimer(ExitConfirmTimer, env);
          }
          return;
        }
        if Live(exitConfirmToken) {
          CancelTimer(ExitConfirmTimer);
        }
      }
    }

    /** #maybeEnterArming(); thrown when the rule engine throws. */
    method MaybeEnterArming(env: Env) returns (thrown: bool)
      requires scheduler.Valid() && EnvOk(env)
      modifies this, scheduler
      ensures scheduler.Valid() && subscribed == old(subscribed)
      ensures Outcome(WorldNow(), None, thrown) == EnterArmingIfSelected(old(WorldNow()), engine, timerConfig, env)
    {
      thrown := false;
      if Presence(CoreNow()) == NoPresence {
        return;
      }
      if Live(cooldownToken) {
        return;
      }
      var selection := Select(engine, ContextOf(CoreNow(), env));
      if selection.Err? {
        return true;
      }
      var modeId := ModeOf(selection.value);
      if modeId == Null {
        return;
      }
      TransitionTo(Arming);
      ScheduleTimer(ArmingTimer, env);
    }

    /** #onArmingExpired(event) */
    method OnArmingExpired(payload: Value, env: Env) returns (call: Option<Call>, thrown: bool)
      requires scheduler.Valid() && EnvOk(env)
      modifies this, scheduler
      ensures scheduler.Valid() && subscribed == old(subscribed)
      ensures !IsCurrent(payload, old(stateVersion)) ==> WorldNow() == old(WorldNow()) && call.None? && !thrown
      ensures IsCurrent(payload, old(stateVersion)) ==>
        Outcome(WorldNow(), call, thrown) == ArmingExpired(Forget(old(WorldNow()), ArmingTimer), engine, timerConfig, env)
    {
      call, thrown := None, false;
      if !IsCurrent(payload, stateVersion) {
        return;
      }
      var presence := Presence(CoreNow());
      armingToken := None;
      if state != Arming {
        return;
      }
      if presence == NoPresence {
        TransitionTo(Idle);
        return;
      }
      call, thrown := StartIfSelected(env);
    }

    /** The rest of #onArmingExpired with someone present in ARMING: select a mode and start, or go back to IDLE. */
    method StartIfSelected(env: Env) returns (call: Option<Call>, thrown: bool)
      requires scheduler.Valid() && EnvOk(env) && state == Arming && Presence(CoreNow()) != NoPresence
      modifies this, scheduler
      ensures scheduler.Valid() && subscribed == old(subscribed)
      ensures Outcome(WorldNow(), call, thrown) == ArmingExpired(old(WorldNow()), engine, timerConfig, env)
    {
      call, thrown := None, false;
      var selection := Select(engine, ContextOf(CoreNow(), env));
      if selection.Err? {
        return None, true;
      }
      var modeId := ModeOf(selection.value);
      if modeId == Null {
        TransitionTo(Idle);
        return;
      }
      var openerId := OpenerOf(selection.value);
      ghost var w := WorldNow();
      ghost var c := w.core.(activeRuleId := selection.value.ruleId, activeModeId := modeId, activeOpenerId := openerId, sessionActive := true);
      activeRuleId := selection.value.ruleId;
      activeModeId := modeId;
      activeOpenerId := openerId;
      call := Some(StartConversation(RequestId(env.now, "start"), modeId, openerId));
      sessionActive := true;
      assert WorldNow() == w.(core := c);
      TransitionTo(Active);
    }

    /** #onExitConfirmExpired(event) */
    method OnExitConfirmExpired(payload: Value, env: Env) returns (call: Option<Call>)
      requires scheduler.Valid()
      modifies this, scheduler
      ensures scheduler.Valid() && subscribed == old(subscribed)
      ensures !IsCurrent(payload, old(stateVersion)) ==> WorldNow() == old(WorldNow()) && call.None?
      ensures IsCurrent(payload, old(stateVersion)) ==>
        Outcome(WorldNow(), call, false) == ExitConfirmExpired(Forget(old(WorldNow()), ExitConfirmTimer), timerConfig, env)
    {
      call := None;
      if !IsCurrent(payload, stateVersion) {
        return;
      }
      exitConfirmToken := None;
      if state != Active {
        return;
      }
      if Presence(CoreNow()) != NoPresence {
        return;
      }
      call := StopForNoPresence(env);
    }

    /** The rest of #onExitConfirmExpired with nobody present in ACTIVE: stop, clear the session, cool down. */
    method StopForNoPresence(env: Env) returns (call: Option<Call>)
      requires scheduler.Valid() && state == Active && Presence(CoreNow()) == NoPresence
      modifies this, scheduler
      ensures scheduler.Valid() && subscribed == old(subscribed)
      ensures Outcome(WorldNow(), call, false) == ExitConfirmExpired(old(WorldNow()), timerConfig, env)
    {
      ghost var w := WorldNow();
      ghost var c := w.core.(sessionActive := false, activeRuleId := Null, activeModeId := Null, activeOpenerId := Null);
      ExitConfirmStopsAt(w, c, timerConfig, env);
      call := None;
      if sessionActive {
        call := Some(StopConversation(RequestId(env.now, "stop"), "no_presence"));
      }
      sessionActive := false;
      activeRuleId := Null;
      activeModeId := Null;
      activeOpenerId := Null;
      assert WorldNow() == w.(core := c);
      TransitionTo(Cooldown);
      ScheduleTimer(CooldownTimer, env);
    }

    /** #onCooldownExpired(event) */
    method OnCooldownExpired(payload: Value)
      requires scheduler.Valid()
      modifies this, scheduler
      ensures scheduler.Valid() && subscribed == old(subscribed)
      ensures !IsCurrent(payload, old(stateVersion)) ==> WorldNow() == old(WorldNow())
      ensures IsCurrent(payload, old(stateVersion)) ==> WorldNow() == CooldownExpired(Forget(old(WorldNow()), CooldownTimer)).world
    {
      if !IsCurrent(payload, stateVersion) {
        return;
      }
      cooldownToken := None;
      if state != Cooldown {
        return;
      }
      TransitionTo(Idle);
    }

    /** #transitionTo(state) */
    method TransitionTo(s: Phase)
      requires scheduler.Valid()
      modifies this, scheduler
      ensures scheduler.Valid() && subscribed == old(subscribed)
      ensures WorldNow() == Transition(old(WorldNow()), s)
    {
      if state == s {
        return;
      }
      ghost var w0 := WorldNow();
      state := s;
      stateVersion := stateVersion + 1;
      ghost var w1 := WorldNow();
      assert w1 == w0.(core := w0.core.(state := s, version := w0.core.version + 1));
      TransitionCases(w0, s);
      if s == Idle {
        CancelAllTimers();
        return;
      }
      if s == Arming {
        CancelTimer(ExitConfirmTimer);
        ghost var w2 := WorldNow();
        CancelTimer(CooldownTimer);
        assert WorldNow() == CancelOne(w2, CooldownTimer);
        return;
      }
      if s == Active {
        CancelTimer(ArmingTimer);
        ghost var w2 := WorldNow();
        CancelTimer(CooldownTimer);
        assert WorldNow() == CancelOne(w2, CooldownTimer);
        return;
      }
      CancelTimer(ArmingTimer);
      ghost var w2 := WorldNow();
      CancelTimer(ExitConfirmTimer);
      assert WorldNow() == CancelOne(w2, ExitConfirmTimer);
    }

    /** #cancelAllTimers() */
    method CancelAllTimers()
      requires scheduler.Valid()
      modifies this, scheduler
      ensures scheduler.Valid() && subscribed == old(subscribed)
      ensures WorldNow() == CancelAll(old(WorldNow()))
    {
      CancelTimer(ArmingTimer);
      CancelTimer(ExitConfirmTimer);
      CancelTimer(CooldownTimer);
    }

    /** #cancelTimer(kind) */
    method CancelTimer(k: TimerKind)
      requires scheduler.Valid()
      modifies this, scheduler
      ensures scheduler.Valid() && subscribed == old(subscribed)
      ensures WorldNow() == CancelOne(old(WorldNow()), k)
    {
      match k
      case ArmingTimer =>
        if Live(armingToken) {
          scheduler.Cancel(armingToken);
          armingToken := None;
        }
      case ExitConfirmTimer =>
        if Live(exitConfirmToken) {
          scheduler.Cancel(exitConfirmToken);
          exitConfirmToken := None;
        }
      case CooldownTimer =>
        if Live(cooldownToken) {
          scheduler.Cancel(cooldownToken);
          cooldownToken := None;
        }
    }

    /** this.#<kind>Token = this.#scheduler.scheduleIn({ delayMs, type, payload: { stateVersion } }) */
    method ScheduleTimer(k: TimerKind, env: Env)
      requires scheduler.Valid()
      modifies this, scheduler
      ensures scheduler.Valid() && subscribed == old(subscribed)
      ensures WorldNow() == Schedule(old(WorldNow()), k, timerConfig, env)
    {
      var token := scheduler.ScheduleIn(env.nextToken, DelayOf(timerConfig, k), TypeName(k),
                                        [Prop("stateVersion", Int(stateVersion))], env.now, env.frozen);
      match k
      case ArmingTimer => armingToken := Some(token);
      case ExitConfirmTimer => exitConfirmToken := Some(token);
      case CooldownTimer => cooldownToken := Some(token);
    }
  }

  /**
   * The bus wiring between scheduler and core: the scheduler fires a timer
   * and the event it publishes is handled by the core. The core's invariant
   * holds again afterwards, whichever timer fired.
   */
  method DeliverTimer(core: Core, token: string, realNow: int, nextToken: string)
    returns (call: Option<Call>, thrown: bool)
    requires core.Valid() && EnvOk(core.EnvAt(realNow, nextToken))
    modifies core, core.scheduler
    ensures core.Valid()
    ensures token !in old(core.scheduler.timers) ==> core.WorldNow() == old(core.WorldNow()) && call.None? && !thrown
  {
    ghost var w := core.WorldNow();
    var now := core.clock.NowMs(realNow);
    var published := core.scheduler.Fire(token, now);
    if published.None? {
      return None, false;
    }
    FiredInvBefore(w, token, now);
    call, thrown := core.HandleEvent(published.value.kind, Obj(published.value.payload), realNow, nextToken);
  }
}
