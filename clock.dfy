/**
 * The logical clock every timer and rule reads: real time plus an offset,
 * or a frozen instant that only moves when advanced or set. The real clock
 * is a parameter (realNow) of each operation that reads it, and the change
 * notifications the clock sends its listeners are returned.
 */
module LogicalClock {
  import opened Common

  const DEFAULT_TZ_OFFSET_MINUTES: int := 480
  const MS_PER_MINUTE: int := 60000
  const MS_PER_HOUR: int := 3600000
  const MS_PER_DAY: int := 86400000
  /** The largest distance from the epoch a Date can hold, 8.64e15 ms. */
  const MAX_TIME_MS: int := 8640000000000000

  datatype State = State(tzOffsetMs: int, isFrozen: bool, frozenNowMs: int, offsetMs: int)

  /** The payload of a change notification: { reason, deltaMs?, nowMs, isFrozen }. */
  datatype Change = Change(reason: string, deltaMs: Option<int>, nowMs: int, isFrozen: bool)

  /** weekday 1..7 with Monday = 1, hour and minute of the local time. */
  datatype LocalParts = LocalParts(weekday: int, hour: int, minute: int)

  /** nowMs(): the frozen instant, or real time plus the offset. */
  function Now(s: State, realNow: int): int
  {
    if s.isFrozen then s.frozenNowMs else realNow + s.offsetMs
  }

  /** freeze(): logical time stops at what it reads now; freezing a frozen clock changes nothing. */
  function FreezeAt(s: State, realNow: int): (r: State)
    ensures r.isFrozen && r.tzOffsetMs == s.tzOffsetMs
    ensures forall t :: Now(r, t) == Now(s, realNow)
    ensures s.isFrozen ==> r == s
  {
    if s.isFrozen then s else s.(frozenNowMs := Now(s, realNow), isFrozen := true)
  }

  /**
   * resume(): logical time runs on from the frozen instant, with no jump at
   * the real instant of the resume; resuming a running clock changes nothing.
   */
  function ResumeAt(s: State, realNow: int): (r: State)
    ensures !r.isFrozen && r.tzOffsetMs == s.tzOffsetMs
    ensures s.isFrozen ==> forall t :: Now(r, t) == Now(s, realNow) + (t - realNow)
    ensures !s.isFrozen ==> r == s
  {
    if s.isFrozen then s.(offsetMs := s.frozenNowMs - realNow, isFrozen := false) else s
  }

  /** setNowMs(t): the clock reads t at once, then stands (frozen) or runs on from it. */
  function SetNowAt(s: State, nowMs: int, realNow: int): (r: State)
    ensures r.isFrozen == s.isFrozen && r.tzOffsetMs == s.tzOffsetMs
    ensures Now(r, realNow) == nowMs
    ensures forall t :: Now(r, t) == nowMs + (if s.isFrozen then 0 else t - realNow)
  {
    if s.isFrozen then s.(frozenNowMs := nowMs) else s.(offsetMs := nowMs - realNow)
  }

  /** advance(ms): every later reading is ms further on, frozen or not. */
  function AdvanceBy(s: State, ms: int): (r: State)
    ensures r.isFrozen == s.isFrozen && r.tzOffsetMs == s.tzOffsetMs
    ensures forall t :: Now(r, t) == Now(s, t) + ms
  {
    if s.isFrozen then s.(frozenNowMs := s.frozenNowMs + ms) else s.(offsetMs := s.offsetMs + ms)
  }

  /** Freezing and resuming later drops exactly the real time spent frozen. */
  lemma FreezeThenResume(s: State, frozeAt: int, resumedAt: int, t: int)
    requires !s.isFrozen
    ensures Now(ResumeAt(FreezeAt(s, frozeAt), resumedAt), t) == Now(s, t) - (resumedAt - frozeAt)
  {
  }

  /**
   * new Date(adjustedMs) read back in UTC: the day of the week, hour and
   * minute, or None (every part NaN) outside the range a Date can hold.
   * getUTCDay counts from Sunday = 0, and 1 January 1970 was a Thursday.
   */
  function Parts(adjustedMs: int): (r: Option<LocalParts>)
    ensures r.Some? <==> -MAX_TIME_MS <= adjustedMs <= MAX_TIME_MS
    ensures r.Some? ==> 1 <= r.value.weekday <= 7 && 0 <= r.value.hour < 24 && 0 <= r.value.minute < 60
  {
    if adjustedMs < -MAX_TIME_MS || adjustedMs > MAX_TIME_MS then None
    else
      Some(LocalParts(WeekdayOfDay(adjustedMs / MS_PER_DAY), (adjustedMs / MS_PER_HOUR) % 24, (adjustedMs / MS_PER_MINUTE) % 60))
  }

  /**
   * The weekday, Monday = 1, of the day numbered day from the epoch: getUTCDay
   * counts from Sunday = 0, and 1 January 1970 was a Thursday.
   */
  function WeekdayOfDay(day: int): (w: int)
    ensures 1 <= w <= 7
  {
    var utcDay := (day + 4) % 7;
    (utcDay + 6) % 7 + 1
  }

  /** The weekday moves on by one each day, Sunday (7) wrapping to Monday (1). */
  lemma WeekdayNextDay(adjustedMs: int)
    requires -MAX_TIME_MS <= adjustedMs && adjustedMs + MS_PER_DAY <= MAX_TIME_MS
    ensures Parts(adjustedMs + MS_PER_DAY).value.weekday == Parts(adjustedMs).value.weekday % 7 + 1
  {
    var d, r := adjustedMs / MS_PER_DAY, adjustedMs % MS_PER_DAY;
    assert adjustedMs + MS_PER_DAY == MS_PER_DAY * (d + 1) + r && 0 <= r < MS_PER_DAY;
    assert (adjustedMs + MS_PER_DAY) / MS_PER_DAY == d + 1;
    WeekdayOfNextDay(d);
  }

  lemma WeekdayOfNextDay(d: int)
    ensures WeekdayOfDay(d + 1) == WeekdayOfDay(d) % 7 + 1
  {
    var q, u := (d + 4) / 7, (d + 4) % 7;
    assert d + 4 == 7 * q + u && 0 <= u < 7;
    if u < 6 {
      assert d + 1 + 4 == 7 * q + (u + 1);
      assert (d + 1 + 4) % 7 == u + 1;
    } else {
      assert d + 1 + 4 == 7 * (q + 1);
      assert (d + 1 + 4) % 7 == 0;
    }
  }

  /** Monday is 1: exactly the days 4, 11, 18, ... after the epoch (5 January 1970 was a Monday). */
  lemma MondayIsOne(adjustedMs: int)
    requires -MAX_TIME_MS <= adjustedMs <= MAX_TIME_MS
    ensures Parts(adjustedMs).value.weekday == 1 <==> (adjustedMs / MS_PER_DAY) % 7 == 4
  {
    var d := adjustedMs / MS_PER_DAY;
    var q, u := d / 7, d % 7;
    assert d + 4 == 7 * q + (u + 4) && 0 <= u < 7;
    if u < 3 {
      assert (d + 4) % 7 == u + 4;
    } else {
      assert d + 4 == 7 * (q + 1) + (u - 3);
      assert (d + 4) % 7 == u - 3;
    }
  }

  /**
   * The minute of the day the rule engine uses, hour * 60 + minute, is the
   * number of whole minutes since local midnight, so it lies in 0..1439.
   */
  lemma MinuteOfDay(adjustedMs: int)
    requires -MAX_TIME_MS <= adjustedMs <= MAX_TIME_MS
    ensures var p := Parts(adjustedMs).value;
      p.hour * 60 + p.minute == (adjustedMs % MS_PER_DAY) / MS_PER_MINUTE
    ensures var p := Parts(adjustedMs).value;
      0 <= p.hour * 60 + p.minute < 1440
  {
    var a := adjustedMs;
    var m, sec := a / MS_PER_MINUTE, a % MS_PER_MINUTE;
    var h, minute := m / 60, m % 60;
    var day, hour := h / 24, h % 24;
    var inHour := MS_PER_MINUTE * minute + sec;
    assert a == MS_PER_HOUR * h + inHour && 0 <= inHour < MS_PER_HOUR;
    DivModOf(a, MS_PER_HOUR, h, inHour);
    var inDay := MS_PER_HOUR * hour + inHour;
    assert a == MS_PER_DAY * day + inDay && 0 <= inDay < MS_PER_DAY;
    DivModOf(a, MS_PER_DAY, day, inDay);
    assert inDay == MS_PER_MINUTE * (60 * hour + minute) + sec;
    DivModOf(inDay, MS_PER_MINUTE, 60 * hour + minute, sec);
  }

  /** Quotient and remainder are the unique q and r with a == d * q + r and 0 <= r < d. */
  lemma DivModOf(a: int, d: int, q: int, r: int)
    requires d > 0 && a == d * q + r && 0 <= r < d
    ensures a / d == q && a % d == r
  {
    var q', r' := a / d, a % d;
    assert d * (q - q') == r' - r;
    if q > q' {
      MulAtLeast(d, q - q');
    } else if q < q' {
      MulAtLeast(d, q' - q);
    }
  }

  lemma MulAtLeast(d: int, k: int)
    requires d > 0 && k >= 1
    ensures d * k >= d
  {
  }

  class Clock {
    var tzOffsetMs: int
    var isFrozen: bool
    var frozenNowMs: int
    var offsetMs: int

    function Snapshot(): State
      reads this
    {
      State(tzOffsetMs, isFrozen, frozenNowMs, offsetMs)
    }

    /** new Clock({ tzOffsetMinutes = 480 }): running, with no offset. */
    constructor(tzOffsetMinutes: Option<int>)
      ensures Snapshot() == State((if tzOffsetMinutes.Some? then tzOffsetMinutes.value else DEFAULT_TZ_OFFSET_MINUTES) * MS_PER_MINUTE, false, 0, 0)
    {
      var minutes := if tzOffsetMinutes.Some? then tzOffsetMinutes.value else DEFAULT_TZ_OFFSET_MINUTES;
      tzOffsetMs := minutes * 60 * 1000;
      isFrozen := false;
      frozenNowMs := 0;
      offsetMs := 0;
    }

    /** nowMs() at the real instant realNow. */
    function NowMs(realNow: int): int
      reads this
    {
      Now(Snapshot(), realNow)
    }

    /** The payload #emitChange hands to every listener. */
    function ChangeOf(reason: string, deltaMs: Option<int>, realNow: int): Change
      reads this
    {
      Change(reason, deltaMs, NowMs(realNow), isFrozen)
    }

    method Freeze(realNow: int) returns (change: Option<Change>)
      modifies this
      ensures Snapshot() == FreezeAt(old(Snapshot()), realNow)
      ensures change == if old(isFrozen) then None else Some(ChangeOf("freeze", None, realNow))
    {
      change := None;
      if !isFrozen {
        frozenNowMs := NowMs(realNow);
        isFrozen := true;
        change := Some(ChangeOf("freeze", None, realNow));
      }
    }

    method Resume(realNow: int) returns (change: Option<Change>)
      modifies this
      ensures Snapshot() == ResumeAt(old(Snapshot()), realNow)
      ensures change == if old(isFrozen) then Some(ChangeOf("resume", None, realNow)) else None
    {
      change := None;
      if isFrozen {
        offsetMs := frozenNowMs - realNow;
        isFrozen := false;
        change := Some(ChangeOf("resume", None, realNow));
      }
    }

    method SetNowMs(nowMs: int, realNow: int) returns (change: Change)
      modifies this
      ensures Snapshot() == SetNowAt(old(Snapshot()), nowMs, realNow)
      ensures change == Change("setNowMs", None, nowMs, isFrozen)
    {
      if isFrozen {
        frozenNowMs := nowMs;
        return ChangeOf("setNowMs", None, realNow);
      }
      offsetMs := nowMs - realNow;
      change := ChangeOf("setNowMs", None, realNow);
    }

    method Advance(ms: int, realNow: int) returns (change: Change)
      modifies this
      ensures Snapshot() == AdvanceBy(old(Snapshot()), ms)
      ensures change == Change("advance", Some(ms), old(NowMs(realNow)) + ms, isFrozen)
    {
      if isFrozen {
        frozenNowMs := frozenNowMs + ms;
        return ChangeOf("advance", Some(ms), realNow);
      }
      offsetMs := offsetMs + ms;
      change := ChangeOf("advance", Some(ms), realNow);
    }

    method SetTzOffsetMinutes(minutes: int, realNow: int) returns (change: Change)
      modifies this
      ensures Snapshot() == old(Snapshot()).(tzOffsetMs := minutes * MS_PER_MINUTE)
      ensures change == Change("tzChanged", None, NowMs(realNow), isFrozen)
    {
      tzOffsetMs := minutes * 60 * 1000;
      change := ChangeOf("tzChanged", None, realNow);
    }

    /** toLocalParts(ms): the parts of ms shifted by the time-zone offset. */
    function ToLocalParts(ms: int): Option<LocalParts>
      reads this
    {
      Parts(ms + tzOffsetMs)
    }
  }
}
