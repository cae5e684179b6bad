/**
 * The scheduler of logical-time events. Each timer is kept under its token
 * until it fires or is cancelled; firing removes it and publishes its event
 * on the bus. A timer is armed with a real-time delay of max(0, atMs - now),
 * and whenever the clock changes every timer is re-armed, a frozen clock
 * arming only the timers already due.
 *
 * The clock's reading (now) and its frozen flag are parameters, as is the
 * token the random generator would produce; an armed handle records the
 * delay its setTimeout was given, and the published event is returned.
 */
module TimeScheduler {
  import opened Common
  import opened Js

  datatype Handle = Unarmed | Armed(delayMs: nat)

  datatype Timer = Timer(token: string, atMs: int, kind: string, payload: seq<Prop>, handle: Handle)

  /** What #fire publishes: { type, ts, source: 'time', payload }. */
  datatype Event = Event(kind: string, ts: int, source: string, payload: seq<Prop>)

  /**
   * #armTimer(timer, frozen): a due timer is armed with delay 0; a later one
   * gets the remaining delay unless the clock is frozen, when it is left
   * unarmed. Nothing but the handle changes. Both callers hand it a timer
   * whose handle is cleared.
   */
  function Arm(t: Timer, now: int, frozen: bool): (r: Timer)
    requires t.handle == Unarmed
    ensures r == t.(handle := r.handle)
    ensures r.handle.Armed? ==> r.handle.delayMs == Max(0, t.atMs - now)
    ensures r.handle.Unarmed? <==> frozen && t.atMs > now
  {
    var delayMs := Max(0, t.atMs - now);
    if delayMs == 0 then t.(handle := Armed(0))
    else if frozen then t
    else t.(handle := Armed(delayMs))
  }

  /** While the clock is frozen no timer waits on a real-time delay. */
  ghost predicate QuietWhileFrozen(timers: map<string, Timer>, frozen: bool)
  {
    frozen ==> forall k :: k in timers ==> timers[k].handle == Unarmed || timers[k].handle == Armed(0)
  }

  /** Each timer is filed under its own token. */
  ghost predicate Filed(timers: map<string, Timer>)
  {
    forall k :: k in timers ==> timers[k].token == k
  }

  /**
   * { ...props, [key]: v }: an existing key keeps its place and takes the
   * new value, a new key is appended.
   */
  function SetProp(props: seq<Prop>, key: string, v: Value): (r: seq<Prop>)
    ensures Lookup(r, key) == Some(v)
    ensures forall k :: k != key ==> Lookup(r, k) == Lookup(props, k)
  {
    if props == [] then [Prop(key, v)]
    else if props[0].key == key then [Prop(key, v)] + props[1..]
    else
      var rest := SetProp(props[1..], key, v);
      assert forall k :: k != props[0].key ==> Lookup([props[0]] + rest, k) == Lookup(rest, k);
      [props[0]] + rest
  }

  /** The event #fire publishes for a timer at logical time now. */
  function FireEvent(t: Timer, now: int): Event
  {
    Event(t.kind, now, "time", SetProp(SetProp(t.payload, "token", Str(t.token)), "atMs", Int(t.atMs)))
  }

  /**
   * The fired payload carries the timer's token and atMs, over any such key
   * of its own payload, and every other key of that payload unchanged.
   */
  lemma FirePayload(t: Timer, now: int, key: string)
    ensures var p := FireEvent(t, now).payload;
      && Lookup(p, "token") == Some(Str(t.token))
      && Lookup(p, "atMs") == Some(Int(t.atMs))
      && (key != "token" && key != "atMs" ==> Lookup(p, key) == Lookup(t.payload, key))
  {
  }

  /** scheduleAt as written arms the new timer without passing the clock's frozen flag. */
  function ArmOnScheduleAsWritten(t: Timer, now: int): (r: Timer)
    requires t.handle == Unarmed
    ensures r == t.(handle := Armed(Max(0, t.atMs - now)))
  {
    Arm(t, now, false)
  }

  /**
   * With the clock frozen, scheduleIn({ delayMs: 1200 }) as written starts
   * a real 1200 ms timeout, so the event fires on real time while logical
   * time stands still; passing the frozen flag leaves the timer unarmed.
   */
  lemma FrozenScheduleArmsRealTimeout()
    ensures var t := Timer("a", 1200, "time:armingExpired", [], Unarmed);
      && ArmOnScheduleAsWritten(t, 0).handle == Armed(1200)
      && !QuietWhileFrozen(map["a" := ArmOnScheduleAsWritten(t, 0)], true)
      && Arm(t, 0, true).handle == Unarmed
  {
    var t := Timer("a", 1200, "time:armingExpired", [], Unarmed);
    assert "a" in map["a" := ArmOnScheduleAsWritten(t, 0)];
  }

  /** Arming with the frozen flag keeps a frozen scheduler quiet. */
  lemma ArmKeepsQuiet(timers: map<string, Timer>, t: Timer, now: int, frozen: bool)
    requires t.handle == Unarmed && QuietWhileFrozen(timers, frozen)
    ensures QuietWhileFrozen(timers[t.token := Arm(t, now, frozen)], frozen)
  {
  }

  class Scheduler {
    var timers: map<string, Timer>
    /** Whether the scheduler still listens to the clock's changes. */
    var subscribed: bool

    ghost predicate Valid()
      reads this
    {
      Filed(timers)
    }

    /** new TimeScheduler({ clock, bus }): no timers, listening to the clock. */
    constructor()
      ensures Valid() && timers == map[] && subscribed
    {
      timers := map[];
      subscribed := true;
    }

    /**
     * scheduleAt({ atMs, kind, payload }): files a new timer under a new
     * token, armed for the clock as it reads now, and returns the token.
     */
    method ScheduleAt(token: string, atMs: int, kind: string, payload: seq<Prop>, now: int, frozen: bool)
      returns (r: string)
      requires Valid()
      modifies this
      ensures Valid() && subscribed == old(subscribed)
      ensures r == token && r in timers
      ensures timers == old(timers)[token := Arm(Timer(token, atMs, kind, payload, Unarmed), now, frozen)]
      ensures QuietWhileFrozen(old(timers), frozen) ==> QuietWhileFrozen(timers, frozen)
    {
      var timer := Timer(token, atMs, kind, payload, Unarmed);
      if QuietWhileFrozen(timers, frozen) {
        ArmKeepsQuiet(timers, timer, now, frozen);
      }
      timers := timers[token := Arm(timer, now, frozen)];
      r := token;
    }

    /** scheduleIn({ delayMs, ... }): scheduleAt with atMs = now + delayMs. */
    method ScheduleIn(token: string, delayMs: int, kind: string, payload: seq<Prop>, now: int, frozen: bool)
      returns (r: string)
      requires Valid()
      modifies this
      ensures Valid() && subscribed == old(subscribed)
      ensures r == token && r in timers && timers[r].atMs == now + delayMs
      ensures timers == old(timers)[token := Arm(Timer(token, now + delayMs, kind, payload, Unarmed), now, frozen)]
      ensures QuietWhileFrozen(old(timers), frozen) ==> QuietWhileFrozen(timers, frozen)
    {
      r := ScheduleAt(token, now + delayMs, kind, payload, now, frozen);
    }

    /** cancel(token): a null, empty or unknown token changes nothing; a known one is removed. */
    method Cancel(token: Option<string>)
      requires Valid()
      modifies this
      ensures Valid() && subscribed == old(subscribed)
      ensures token.None? || token.value == [] ==> timers == old(timers)
      ensures token.Some? && token.value != [] ==> timers == old(timers) - {token.value}
      ensures forall k :: k in timers ==> k in old(timers) && timers[k] == old(timers)[k]
    {
      if token.None? || token.value == [] {
        return;
      }
      if token.value !in timers {
        return;
      }
      timers := timers - {token.value};
    }

    /** dispose(): stops listening to the clock and drops every timer. */
    method Dispose()
      modifies this
      ensures Valid() && timers == map[] && !subscribed
    {
      subscribed := false;
      timers := map[];
    }

    /**
     * #rescheduleAll(): every timer's handle is cleared and armed again for
     * the clock as it reads now; afterwards a frozen scheduler is quiet.
     */
    method RescheduleAll(now: int, frozen: bool)
      requires Valid()
      modifies this
      ensures Valid() && subscribed == old(subscribed)
      ensures timers.Keys == old(timers).Keys
      ensures forall k :: k in timers ==> timers[k] == Arm(old(timers)[k].(handle := Unarmed), now, frozen)
      ensures QuietWhileFrozen(timers, frozen)
    {
      var pending := timers.Keys;
      while pending != {}
        invariant pending <= timers.Keys && timers.Keys == old(timers).Keys && Filed(timers)
        invariant subscribed == old(subscribed)
        invariant forall k :: k in timers ==>
          timers[k] == (if k in pending then old(timers)[k] else Arm(old(timers)[k].(handle := Unarmed), now, frozen))
        decreases pending
      {
        var k :| k in pending;
        timers := timers[k := Arm(timers[k].(handle := Unarmed), now, frozen)];
        pending := pending - {k};
      }
    }

    /**
     * #fire(token): a timer still filed is removed before its event is
     * published, so it fires at most once; an unknown token does nothing.
     */
    method Fire(token: string, now: int) returns (published: Option<Event>)
      requires Valid()
      modifies this
      ensures Valid() && subscribed == old(subscribed)
      ensures token !in old(timers) ==> published.None? && timers == old(timers)
      ensures token in old(timers) ==> published == Some(FireEvent(old(timers)[token], now))
      ensures timers == old(timers) - {token} && token !in timers
    {
      if token !in timers {
        return None;
      }
      var timer := timers[token];
      timers := timers - {token};
      published := Some(FireEvent(timer, now));
    }
  }
}
