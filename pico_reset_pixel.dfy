/**
 * The reset-button microcontroller (a CircuitPython program on an RP2040).
 *
 * One pass of its endless loop:
 *  - shows the persistent colour on the external NeoPixel while the button
 *    is released, red while it is pressed;
 *  - on a long press, blanks the colour, drives the reset line low, shows
 *    green on the onboard pixel and starts a 2000 ms reset timer;
 *  - once the timer has run out, drives the reset line high again;
 *  - reads serial text, and on a line terminator parses "r,g,b" into the
 *    persistent colour.
 *
 * The debouncer, the long-press detector, the tick counter and the serial
 * port are inputs of Controller.Iterate; every neopixel_write is recorded
 * in npWrites or stWrites.
 */
module PicoResetPixel {
  import opened Common

  /** How long the reset line is held low, in milliseconds. */
  const RESET_ACTIV: int := 2000

  /** adafruit_ticks counts milliseconds modulo 2^29. */
  const TICKS_PERIOD: int := 0x2000_0000
  const TICKS_HALFPERIOD: int := 0x1000_0000

  datatype Rgb = Rgb(r: byte, g: byte, b: byte)

  const Black := Rgb(0, 0, 0)

  /** The three bytes of a colour, in the order the firmware copies them. */
  function Bytes(c: Rgb): (s: seq<byte>)
    ensures |s| == 3 && s[0] == c.r && s[1] == c.g && s[2] == c.b
  {
    [c.r, c.g, c.b]
  }

  /** What the external pixel shows before a long press or a command is handled. */
  function Composed(released: bool, persistent: Rgb): (s: seq<byte>)
    ensures released ==> s == Bytes(persistent)
    ensures !released ==> s == [255, 0, 0]
  {
    if released then Bytes(persistent) else [255, 0, 0]
  }

  // ------------------------------------------------------------------
  // The tick counter

  /**
   * adafruit_ticks.ticks_diff(t1, t2): the difference of two tick readings,
   * taken modulo the tick period into [-period/2, period/2).
   */
  function TicksDiff(t1: int, t2: int): (d: int)
    ensures -TICKS_HALFPERIOD <= d < TICKS_HALFPERIOD
    ensures (t1 - t2 - d) % TICKS_PERIOD == 0
  {
    var diff := (t1 - t2) % TICKS_PERIOD;
    var d := (diff + TICKS_HALFPERIOD) % TICKS_PERIOD - TICKS_HALFPERIOD;
    assert (t1 - t2 - d) % TICKS_PERIOD == 0 by { ModCongruence(t1 - t2, diff, d); }
    d
  }

  lemma ModCongruence(x: int, diff: int, d: int)
    requires diff == x % TICKS_PERIOD
    requires d == (diff + TICKS_HALFPERIOD) % TICKS_PERIOD - TICKS_HALFPERIOD
    ensures (x - d) % TICKS_PERIOD == 0
  {
    var q1 := x / TICKS_PERIOD;
    assert x == q1 * TICKS_PERIOD + diff;
    var q2 := (diff + TICKS_HALFPERIOD) / TICKS_PERIOD;
    assert diff + TICKS_HALFPERIOD == q2 * TICKS_PERIOD + (d + TICKS_HALFPERIOD);
    assert x - d == (q1 + q2) * TICKS_PERIOD;
  }

  /**
   * A reading taken e milliseconds after a reading t0 (the counter having
   * wrapped or not) differs from it by exactly e, for any e within half a
   * period.
   */
  lemma TicksDiffElapsed(t0: int, e: int)
    requires 0 <= t0 < TICKS_PERIOD
    requires -TICKS_HALFPERIOD <= e < TICKS_HALFPERIOD
    ensures TicksDiff((t0 + e) % TICKS_PERIOD, t0) == e
  {
    var t1 := (t0 + e) % TICKS_PERIOD;
    var d := TicksDiff(t1, t0);
    var q := (t0 + e) / TICKS_PERIOD;
    assert t1 - t0 - e == -q * TICKS_PERIOD;
    var k := (t1 - t0 - d) / TICKS_PERIOD;
    assert t1 - t0 - d == k * TICKS_PERIOD;
    assert e - d == (k + q) * TICKS_PERIOD;
    assert -TICKS_PERIOD < e - d < TICKS_PERIOD;
    assert k + q == 0;
  }

  /** Whether the reset timer has run out at tick now (ticks_diff(now, start) > RESET_ACTIV). */
  predicate Expired(timer: Option<int>, now: int)
  {
    timer.Some? && TicksDiff(now, timer.value) > RESET_ACTIV
  }

  /**
   * The reset timer started at tick t0 has run out at a reading taken e
   * milliseconds later exactly when e > RESET_ACTIV.
   */
  lemma ResetExpiry(t0: int, e: int)
    requires 0 <= t0 < TICKS_PERIOD
    requires 0 <= e < TICKS_HALFPERIOD
    ensures TicksDiff((t0 + e) % TICKS_PERIOD, t0) > RESET_ACTIV <==> e > RESET_ACTIV
  {
    TicksDiffElapsed(t0, e);
  }

  // ------------------------------------------------------------------
  // The serial colour command

  /** Decimal digits with single underscores between digits, as int() accepts them. */
  predicate IsUnderscoredDigits(s: string)
    decreases |s|
  {
    |s| >= 1 && IsDigit(s[0])
    && (|s| == 1 || IsUnderscoredDigits(if s[1] == '_' then s[2..] else s[1..]))
  }

  /** A non-empty run of plain digits is accepted. */
  lemma {:induction false} DigitsAreAccepted(s: string)
    requires s != [] && AllDigits(s)
    ensures IsUnderscoredDigits(s)
    decreases |s|
  {
    if |s| > 1 {
      assert s[1] != '_';
      DigitsAreAccepted(s[1..]);
    }
  }

  /** The digits of s, in order; under IsUnderscoredDigits this drops just the underscores. */
  function DigitsOf(s: string): (r: string)
    ensures AllDigits(r)
    ensures AllDigits(s) ==> r == s
  {
    if s == [] then []
    else (if IsDigit(s[0]) then [s[0]] else []) + DigitsOf(s[1..])
  }

  /** Python's int(s) in base 10: surrounding white space, an optional sign, digits. */
  function PyInt(s: string): (r: Option<int>)
    ensures r.Some? ==> Strip(s) != []
  {
    var t := Strip(s);
    if t != [] && (t[0] == '+' || t[0] == '-') then
      var body := t[1..];
      if IsUnderscoredDigits(body) then
        var v := DigitsValue(DigitsOf(body)) as int;
        Some(if t[0] == '-' then -v else v)
      else None
    else if IsUnderscoredDigits(t) then Some(DigitsValue(DigitsOf(t)))
    else None
  }

  /** int() reads back every decimal integer rendering. */
  lemma PyIntOfIntString(i: int)
    ensures PyInt(IntToString(i)) == Some(i)
  {
    var n: nat := if i < 0 then -i else i;
    var ds := NatToString(n);
    DigitsAreUnderscored(n);
    StripOfIntString(i);
    if i < 0 {
      var s := IntToString(i);
      assert s == "-" + ds;
      assert s[0] == '-' && s[1..] == ds;
    }
  }

  /** A decimal rendering is accepted by int() and reads back as its number. */
  lemma DigitsAreUnderscored(n: nat)
    ensures IsUnderscoredDigits(NatToString(n))
    ensures DigitsValue(DigitsOf(NatToString(n))) == n
  {
    var ds := NatToString(n);
    NatToStringValue(n);
    DigitsAreAccepted(ds);
    assert DigitsOf(ds) == ds;
  }

  /** Clamping of one parsed field: max(0, min(v, 255)). */
  function ClampField(v: int): (b: byte)
    ensures 0 <= v <= 255 ==> b as int == v
    ensures v < 0 ==> b == 0
    ensures v > 255 ==> b == 255
  {
    Clamp(0, 255, v) as byte
  }

  datatype LineOutcome =
    | Color(rgb: Rgb)   // three integer fields
    | NoComma           // dropped without a message
    | Rejected          // the except branch: wrong field count or a non-integer field

  /**
   * What the firmware does with the accumulated serial text once it holds a
   * line terminator: strip it, split it at commas, and read three clamped
   * integers.
   */
  function ParseLine(buffer: string): LineOutcome
  {
    var comanda := Strip(buffer);
    if ',' !in comanda then NoComma
    else
      var fields := Split(comanda, ',');
      if |fields| != 3 then Rejected
      else
        var r := PyInt(Strip(fields[0]));
        var g := PyInt(Strip(fields[1]));
        var b := PyInt(Strip(fields[2]));
        if r.Some? && g.Some? && b.Some? then
          Color(Rgb(ClampField(r.value), ClampField(g.value), ClampField(b.value)))
        else Rejected
  }

  /**
   * The three outcomes of a line: dropped when it has no comma, rejected
   * unless it has exactly three fields that int() accepts, otherwise the
   * three clamped values.
   */
  lemma ParseLineOutcomes(buffer: string)
    ensures ParseLine(buffer).NoComma? <==> ',' !in Strip(buffer)
    ensures ',' in Strip(buffer) && |Split(Strip(buffer), ',')| != 3 ==> ParseLine(buffer).Rejected?
    ensures ParseLine(buffer).Color? <==>
      var f := Split(Strip(buffer), ',');
      ',' in Strip(buffer) && |f| == 3
      && PyInt(Strip(f[0])).Some? && PyInt(Strip(f[1])).Some? && PyInt(Strip(f[2])).Some?
    ensures ParseLine(buffer).Color? ==>
      var f := Split(Strip(buffer), ',');
      ParseLine(buffer).rgb == Rgb(ClampField(PyInt(Strip(f[0])).value), ClampField(PyInt(Strip(f[1])).value),
                                   ClampField(PyInt(Strip(f[2])).value))
  {
  }

  /** Stripping removes one trailing newline from a string that does not start or end with a space. */
  lemma StripNewline(s: string)
    requires s != [] && !IsPySpace(s[0]) && !IsPySpace(s[|s| - 1])
    ensures Strip(s + "\n") == s
  {
    var t := s + "\n";
    assert LeadingCount(t, IsPySpace) == 0;
    assert t[0..] == t;
    assert t[..|t| - 1] == s;
    assert TrailingCount(s, IsPySpace) == 0;
    assert TrailingCount(t, IsPySpace) == 1;
  }

  /**
   * A line of three integers, each rendered in decimal and separated by
   * commas, sets the colour to the three values clamped into [0, 255].
   */
  lemma ParseLineOfIntegers(x: int, y: int, z: int)
    ensures ParseLine(IntToString(x) + "," + IntToString(y) + "," + IntToString(z) + "\n")
         == Color(Rgb(ClampField(x), ClampField(y), ClampField(z)))
  {
    var a, b, c := IntToString(x), IntToString(y), IntToString(z);
    var body := a + "," + b + "," + c;
    assert body + "\n" == a + "," + b + "," + c + "\n";
    StripOfIntString(x);
    StripOfIntString(y);
    StripOfIntString(z);
    assert body[0] == a[0] && body[|body| - 1] == c[|c| - 1];
    StripNewline(body);
    SplitThree(a, b, c, ',');
    PyIntOfIntString(x);
    PyIntOfIntString(y);
    PyIntOfIntString(z);
    ParseLineOfFields(body + "\n", body, a, b, c);
  }

  /** The colour of a line whose stripped text has three fields int() accepts. */
  lemma ParseLineOfFields(line: string, body: string, a: string, b: string, c: string)
    requires Strip(line) == body && ',' in body && Split(body, ',') == [a, b, c]
    requires PyInt(Strip(a)).Some? && PyInt(Strip(b)).Some? && PyInt(Strip(c)).Some?
    ensures ParseLine(line) == Color(Rgb(ClampField(PyInt(Strip(a)).value), ClampField(PyInt(Strip(b)).value),
                                         ClampField(PyInt(Strip(c)).value)))
  {
  }

  lemma StripOfIntString(i: int)
    ensures Strip(IntToString(i)) == IntToString(i)
    ensures ',' !in IntToString(i)
  {
    var s := IntToString(i);
    var n: nat := if i < 0 then -i else i;
    var ds := NatToString(n);
    assert s == (if i < 0 then "-" + ds else ds);
    assert IsDigit(s[|s| - 1]);
    assert s[0] == '-' || IsDigit(s[0]);
    TrimByNoop(s, IsPySpace);
    assert forall k :: 0 <= k < |s| ==> s[k] == '-' || IsDigit(s[k]);
  }

  /** A line is complete once the text holds a line feed or carriage return. */
  predicate Terminated(s: string) { '\n' in s || '\r' in s }

  datatype Serial = Serial(buffer: string, color: Option<Rgb>)

  /**
   * The serial handling of one pass: the chunk is appended to the pending
   * text; once that text holds a line terminator it is parsed as a whole and
   * discarded, and a well-formed command yields a colour.
   */
  function SerialStep(pending: string, chunk: string): (st: Serial)
    ensures !Terminated(st.buffer) || (Terminated(pending) && chunk == [])
    ensures st.color.Some? ==> chunk != [] && Terminated(pending + chunk) && st.buffer == []
  {
    if chunk == [] then Serial(pending, None)
    else
      var buf := pending + chunk;
      if Terminated(buf) then
        var cmd := ParseLine(buf);
        Serial([], if cmd.Color? then Some(cmd.rgb) else None)
      else Serial(buf, None)
  }

  /**
   * Text without a terminator accumulates; a terminated chunk is consumed
   * whole, and sets the colour exactly when the accumulated text parses.
   */
  lemma SerialStepConsumes(pending: string, chunk: string)
    requires chunk != []
    ensures !Terminated(pending + chunk) ==> SerialStep(pending, chunk) == Serial(pending + chunk, None)
    ensures Terminated(pending + chunk) ==>
      && SerialStep(pending, chunk).buffer == []
      && (SerialStep(pending, chunk).color.Some? <==> ParseLine(pending + chunk).Color?)
      && (ParseLine(pending + chunk).Color? ==> SerialStep(pending, chunk).color.value == ParseLine(pending + chunk).rgb)
  {
  }

  // ------------------------------------------------------------------
  // The controller state as a value, and one pass of the loop over it

  /** Everything the loop reads or changes, apart from the two pixel buffers. */
  datatype State = State(
    color: Rgb,                  // rgb_persistent
    pinReset: bool,              // the level of the reset line GP15
    timer: Option<int>,          // hard_reset_activ: the tick the reset pulse started at
    buffer: string,              // input_buffer
    npWrites: seq<seq<byte>>,    // every neopixel_write to the external pixel, oldest first
    stWrites: seq<seq<byte>>)    // every neopixel_write to the onboard pixel, oldest first

  /** The state once the start-up sequence before the loop has run. */
  function Initial(): State
  {
    State(Rgb(0, 10, 0), true, None, [], [[10, 10, 10]], [[30, 0, 0]])
  }

  /** The invariant of the loop: the reset line is low, and the onboard pixel green, exactly while a reset pulse runs. */
  ghost predicate Inv(s: State)
  {
    && !Terminated(s.buffer)
    && (s.pinReset <==> s.timer.None?)
    && |s.npWrites| > 0
    && |s.stWrites| > 0
    && s.stWrites[|s.stWrites| - 1] == (if s.pinReset then [30, 0, 0] else [0, 200, 0])
  }

  /** The first step of a pass: the button level chooses the external pixel's colour. */
  function ShowButton(s: State, released: bool): State
  {
    s.(npWrites := s.npWrites + [Composed(released, s.color)])
  }

  /** A long press blanks the colour, pulls the reset line low, shows green and (re)starts the timer. */
  function LongPress(s: State, pressTicks: int): State
  {
    s.(color := Black, pinReset := false, timer := Some(pressTicks),
       npWrites := s.npWrites + [Bytes(Black)], stWrites := s.stWrites + [[0, 200, 0]])
  }

  /** Once the timer has run out, the reset line goes high and the onboard pixel back to (30,0,0). */
  function TimerCheck(s: State, now: int): State
  {
    if Expired(s.timer, now) then s.(pinReset := true, timer := None, stWrites := s.stWrites + [[30, 0, 0]])
    else s
  }

  /** Applies the outcome of the serial handling: a received colour becomes persistent, and is shown at once while released. */
  function ApplySerial(s: State, released: bool, step: Serial): State
  {
    if step.color.Some? then
      s.(buffer := step.buffer, color := step.color.value,
         npWrites := s.npWrites + (if released then [Bytes(step.color.value)] else []))
    else s.(buffer := step.buffer)
  }

  /** The serial phase of a pass. */
  function SerialPhase(s: State, released: bool, chunk: string): State
  {
    ApplySerial(s, released, SerialStep(s.buffer, chunk))
  }

  /**
   * One pass of the loop. released is the debounced button level
   * (debouncer.value), longPress the detector's long_press flag,
   * pressTicks and now the two ticks_ms() readings of the pass, and chunk
   * the text read from the serial port ("" when nothing waits).
   */
  function Pass(s: State, released: bool, longPress: bool, pressTicks: int, now: int, chunk: string): State
  {
    var s1 := ShowButton(s, released);
    var s2 := if longPress then LongPress(s1, pressTicks) else s1;
    SerialPhase(TimerCheck(s2, now), released, chunk)
  }

  /** The start-up state satisfies the invariant. */
  lemma InitialInv()
    ensures Inv(Initial())
  {
  }

  /** Every pass keeps the invariant. */
  lemma {:induction false} PassInv(s: State, released: bool, longPress: bool, pressTicks: int, now: int, chunk: string)
    requires Inv(s)
    ensures Inv(Pass(s, released, longPress, pressTicks, now, chunk))
  {
    var s1 := ShowButton(s, released);
    var s2 := if longPress then LongPress(s1, pressTicks) else s1;
    var s3 := TimerCheck(s2, now);
    assert Inv(s3);
    var step := SerialStep(s3.buffer, chunk);
    assert !Terminated(step.buffer);
    ApplySerialInv(s3, released, step);
  }

  /** Applying a serial outcome that leaves no terminator pending keeps the invariant. */
  lemma ApplySerialInv(s: State, released: bool, step: Serial)
    requires Inv(s) && !Terminated(step.buffer)
    ensures Inv(ApplySerial(s, released, step))
  {
  }

  /**
   * After a pass the external pixel shows the persistent colour while the
   * button is released; while it is pressed it shows red, or black after a
   * long press.
   */
  lemma PassPixel(s: State, released: bool, longPress: bool, pressTicks: int, now: int, chunk: string)
    ensures var t := Pass(s, released, longPress, pressTicks, now, chunk);
      |t.npWrites| > 0 &&
      t.npWrites[|t.npWrites| - 1] == (if released then Bytes(t.color) else if longPress then Bytes(Black) else [255, 0, 0])
  {
  }

  /**
   * The colour after a pass: a command received in the pass wins over a
   * long press of the same pass, which wins over the colour before.
   */
  lemma PassColor(s: State, released: bool, longPress: bool, pressTicks: int, now: int, chunk: string)
    ensures var c := SerialStep(s.buffer, chunk).color;
      Pass(s, released, longPress, pressTicks, now, chunk).color
        == if c.Some? then c.value else if longPress then Black else s.color
  {
  }

  /** A long press pulls the reset line low unless the pulse already ends in the same pass. */
  lemma LongPressStartsPulse(s: State, released: bool, t0: int, e: int, chunk: string)
    requires 0 <= t0 < TICKS_PERIOD && 0 <= e < TICKS_HALFPERIOD
    ensures var t := Pass(s, released, true, t0, (t0 + e) % TICKS_PERIOD, chunk);
      (t.pinReset <==> e > RESET_ACTIV) && (t.timer.Some? <==> e <= RESET_ACTIV)
  {
    ResetExpiry(t0, e);
  }

  /**
   * While a pulse started at t0 runs, a later pass without a long press
   * raises the line exactly when more than RESET_ACTIV ms have passed.
   */
  lemma PulseEnds(s: State, released: bool, t0: int, e: int, chunk: string)
    requires s.timer == Some(t0) && !s.pinReset
    requires 0 <= t0 < TICKS_PERIOD && 0 <= e < TICKS_HALFPERIOD
    ensures var t := Pass(s, released, false, 0, (t0 + e) % TICKS_PERIOD, chunk);
      (t.pinReset <==> e > RESET_ACTIV) && (t.stWrites == s.stWrites + if e > RESET_ACTIV then [[30, 0, 0]] else [])
  {
    ResetExpiry(t0, e);
  }

  // ------------------------------------------------------------------
  // The controller

  class Controller {
    var rgbPersistent: Rgb
    /** The external pixel's bytearray (np_buf) and the onboard one (st_buf). */
    const npBuf: array<byte>
    const stBuf: array<byte>
    var pinReset: bool
    var hardResetActiv: Option<int>
    var inputBuffer: string
    var npWrites: seq<seq<byte>>
    var stWrites: seq<seq<byte>>

    function Snapshot(): State
      reads this
    {
      State(rgbPersistent, pinReset, hardResetActiv, inputBuffer, npWrites, stWrites)
    }

    /** Each buffer holds what was last written from it. */
    ghost predicate Buffers()
      reads this, npBuf, stBuf
    {
      npBuf.Length == 3 && stBuf.Length == 3 && npBuf != stBuf
      && |npWrites| > 0 && npBuf[..] == npWrites[|npWrites| - 1]
      && |stWrites| > 0 && stBuf[..] == stWrites[|stWrites| - 1]
    }

    ghost predicate Valid()
      reads this, npBuf, stBuf
    {
      Buffers() && Inv(Snapshot())
    }

    /** The start-up sequence before the loop. */
    constructor ()
      ensures Valid() && fresh(npBuf) && fresh(stBuf)
      ensures Snapshot() == Initial()
    {
      npBuf := new byte[3] [0, 0, 0];
      stBuf := new byte[3] [0, 0, 0];
      pinReset := true;
      hardResetActiv := None;
      rgbPersistent := Rgb(0, 10, 0);
      inputBuffer := [];
      new;
      npBuf[0] := 10;
      npBuf[1] := 10;
      npBuf[2] := 10;
      assert npBuf[..] == [10, 10, 10];
      npWrites := [npBuf[..]];
      stBuf[0] := 30;
      assert stBuf[..] == [30, 0, 0];
      stWrites := [stBuf[..]];
    }

    /** Fills np_buf with c and writes it to the external pixel. */
    method ShowNp(c: seq<byte>)
      requires |c| == 3 && npBuf.Length == 3
      modifies npBuf, this`npWrites
      ensures npBuf[..] == c && npWrites == old(npWrites) + [c]
    {
      npBuf[0] := c[0];
      npBuf[1] := c[1];
      npBuf[2] := c[2];
      assert npBuf[..] == c;
      npWrites := npWrites + [c];
    }

    /** Fills st_buf with c and writes it to the onboard pixel. */
    method ShowSt(c: seq<byte>)
      requires |c| == 3 && stBuf.Length == 3
      modifies stBuf, this`stWrites
      ensures stBuf[..] == c && stWrites == old(stWrites) + [c]
    {
      stBuf[0] := c[0];
      stBuf[1] := c[1];
      stBuf[2] := c[2];
      assert stBuf[..] == c;
      stWrites := stWrites + [c];
    }

    /** One pass of the loop; see Pass. */
    method Iterate(released: bool, longPress: bool, pressTicks: int, nowTicks: int, chunk: string)
      requires Valid()
      modifies this, npBuf, stBuf
      ensures Valid()
      ensures Snapshot() == Pass(old(Snapshot()), released, longPress, pressTicks, nowTicks, chunk)
    {
      ghost var s0 := Snapshot();
      ShowNp(Composed(released, rgbPersistent));
      if longPress {
        StartReset(pressTicks);
      }
      CheckResetTimer(nowTicks);
      ReadSerial(released, chunk);
      PassInv(s0, released, longPress, pressTicks, nowTicks, chunk);
    }

    method StartReset(pressTicks: int)
      requires Buffers()
      modifies this, npBuf, stBuf
      ensures Buffers()
      ensures Snapshot() == LongPress(old(Snapshot()), pressTicks)
    {
      rgbPersistent := Black;
      ShowNp(Bytes(Black));
      pinReset := false;
      ShowSt([0, 200, 0]);
      hardResetActiv := Some(pressTicks);
    }

    method CheckResetTimer(nowTicks: int)
      requires Buffers()
      modifies this, stBuf
      ensures Buffers()
      ensures Snapshot() == TimerCheck(old(Snapshot()), nowTicks)
    {
      if hardResetActiv.Some? {
        var elapsed := TicksDiff(nowTicks, hardResetActiv.value);
        if elapsed > RESET_ACTIV {
          pinReset := true;
          ShowSt([30, 0, 0]);
          hardResetActiv := None;
        }
      }
    }

    method ReadSerial(released: bool, chunk: string)
      requires Buffers()
      modifies this`inputBuffer, this`rgbPersistent, this`npWrites, npBuf
      ensures Buffers()
      ensures Snapshot() == SerialPhase(old(Snapshot()), released, chunk)
    {
      var step := SerialStep(inputBuffer, chunk);
      Apply(released, step);
    }

    /** Stores the pending text and any received colour, and shows the colour while released. */
    method Apply(released: bool, step: Serial)
      requires Buffers()
      modifies this`inputBuffer, this`rgbPersistent, this`npWrites, npBuf
      ensures Buffers()
      ensures Snapshot() == ApplySerial(old(Snapshot()), released, step)
    {
      inputBuffer := step.buffer;
      if step.color.Some? {
        rgbPersistent := step.color.value;
        if released {
          ShowNp(Bytes(step.color.value));
        }
      }
    }
  }
}
