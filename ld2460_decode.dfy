/**
 * The HLK-LD2460 tracking-radar decoder: a scanner that finds report frames
 * (header F4 F3 F2 F1, function code 0x04, a 16-bit packet length, tail
 * F8 F7 F6 F5) in a byte buffer and decodes one X/Y target per four payload
 * bytes, and the stream decoder that carries the unconsumed bytes from one
 * chunk to the next.
 */
module Ld2460Decode {
  import opened Common
  import opened Js
  import opened ByteSearch

  const REPORT_HEADER: seq<byte> := [0xF4, 0xF3, 0xF2, 0xF1]
  const REPORT_TAIL: seq<byte> := [0xF8, 0xF7, 0xF6, 0xF5]
  const FUNC_CODE_TRACKING: byte := 0x04
  /** header (4) + function code (1) + length (2) + tail (4) */
  const FIXED_OVERHEAD: nat := 11
  /** X (2) + Y (2) */
  const TARGET_STRIDE: nat := 4
  /** One unit of a coordinate is 0.1 m. */
  const POS_UNIT_MM: int := 100
  /** The header, function code and length must all be present before the length can be read. */
  const PREAMBLE_LEN: nat := 7
  const DEFAULT_MAX_BUFFER_BYTES: real := 4096.0
  const DEFAULT_NOISE_LOG_THRESHOLD: real := 32.0

  // ------------------------------------------------------------------
  // Field decoding

  /** A 16-bit word read as two's-complement int16. */
  function Int16(u: int): (v: int)
    requires 0 <= u < 0x1_0000
    ensures -0x8000 <= v < 0x8000
    ensures (v - u) % 0x1_0000 == 0
  {
    if u >= 0x8000 then u - 0x1_0000 else u
  }

  /** decodePosMm: the int16 value of the word, in units of 100 mm. */
  function DecodePosMm(u: int): (mm: int)
    requires 0 <= u < 0x1_0000
    ensures mm % POS_UNIT_MM == 0
    ensures -0x8000 * POS_UNIT_MM <= mm <= 0x7FFF * POS_UNIT_MM
    ensures mm < 0 <==> u >= 0x8000
    ensures mm == 0 <==> u == 0
  {
    Int16(u) * POS_UNIT_MM
  }

  /** How the radar writes a coordinate: the low 16 bits of the value in units of 100 mm. */
  function EncodePosMm(mm: int): (u: int)
    requires mm % POS_UNIT_MM == 0 && -0x8000 * POS_UNIT_MM <= mm <= 0x7FFF * POS_UNIT_MM
    ensures 0 <= u < 0x1_0000
  {
    (mm / POS_UNIT_MM) % 0x1_0000
  }

  /** Decoding inverts the radar's encoding on every representable coordinate. */
  lemma DecodeEncodePos(mm: int)
    requires mm % POS_UNIT_MM == 0 && -0x8000 * POS_UNIT_MM <= mm <= 0x7FFF * POS_UNIT_MM
    ensures DecodePosMm(EncodePosMm(mm)) == mm
  {
    var v := mm / POS_UNIT_MM;
    assert mm == v * POS_UNIT_MM;
    if v < 0 {
      assert v % 0x1_0000 == v + 0x1_0000;
    }
  }

  /** Every word is the encoding of its decoded coordinate, so no two words decode alike. */
  lemma EncodeDecodePos(u: int)
    requires 0 <= u < 0x1_0000
    ensures EncodePosMm(DecodePosMm(u)) == u
  {
    var v := Int16(u);
    assert DecodePosMm(u) / POS_UNIT_MM == v;
    if v < 0 {
      assert v % 0x1_0000 == v + 0x1_0000;
    }
  }

  /** The LD2460 report carries X and Y only; speed and resolution are always 0. */
  datatype Target = Target(id: int, xMm: int, yMm: int, speedCms: int, resolutionMm: int, valid: bool)

  /** isValidByRule: which fields make a target count as present. */
  function IsValidByRule(t: Target, rule: string): (b: bool)
  {
    if rule == "resolution" then t.resolutionMm != 0
    else if rule == "nonzeroXY" then t.xMm != 0 || t.yMm != 0
    else if rule == "either" then t.resolutionMm != 0 || t.xMm != 0 || t.yMm != 0
    else t.xMm != 0 || t.yMm != 0
  }

  /** An unknown rule behaves as 'nonzeroXY', and 'either' is the union of the other two. */
  lemma ValidityRules(t: Target, rule: string)
    ensures rule !in {"resolution", "nonzeroXY", "either"} ==> IsValidByRule(t, rule) == IsValidByRule(t, "nonzeroXY")
    ensures IsValidByRule(t, "either") == (IsValidByRule(t, "resolution") || IsValidByRule(t, "nonzeroXY"))
    ensures IsValidByRule(t, "resolution") <==> t.resolutionMm != 0
    ensures IsValidByRule(t, "nonzeroXY") <==> t.xMm != 0 || t.yMm != 0
  {
  }

  /** The validRule option: a string is used as given, anything else means 'nonzeroXY'. */
  function RuleOf(validRule: Value): (rule: string)
    ensures !validRule.Str? ==> rule == "nonzeroXY"
  {
    StringOr(validRule, "nonzeroXY")
  }

  /** The target whose two words start at base. */
  function TargetAt(buf: seq<byte>, base: nat, id: int, rule: string): Target
    requires base + TARGET_STRIDE <= |buf|
  {
    var t := Target(id, DecodePosMm(U16(buf, base)), DecodePosMm(U16(buf, base + 2)), 0, 0, false);
    t.(valid := IsValidByRule(t, rule))
  }

  /** Under the default rule a target is valid exactly when one of its raw words is nonzero. */
  lemma DefaultRuleValid(buf: seq<byte>, base: nat, id: int, rule: string)
    requires base + TARGET_STRIDE <= |buf|
    requires rule !in {"resolution", "either"}
    ensures TargetAt(buf, base, id, rule).valid <==> U16(buf, base) != 0 || U16(buf, base + 2) != 0
  {
  }

  datatype Frame = Frame(targets: seq<Target>, present: bool)

  /** targets.some((t) => t.valid) */
  predicate AnyValid(ts: seq<Target>)
  {
    exists k :: 0 <= k < |ts| && ts[k].valid
  }

  /** The packet length word at h + 5, little-endian. */
  function PacketLen(buf: seq<byte>, h: nat): nat
    requires h + PREAMBLE_LEN <= |buf|
  {
    U16(buf, h + 5)
  }

  /** A packet length covers the fixed overhead and a whole number of targets. */
  predicate LengthOk(len: nat)
  {
    len >= FIXED_OVERHEAD && (len - FIXED_OVERHEAD) % TARGET_STRIDE == 0
  }

  /** The number of targets a packet of that length carries. */
  function TargetCount(len: nat): (n: nat)
    requires LengthOk(len)
    ensures FIXED_OVERHEAD + n * TARGET_STRIDE == len
  {
    (len - FIXED_OVERHEAD) / TARGET_STRIDE
  }

  /** The packet whose header is at h lies inside buf, with a valid length. */
  predicate Sized(buf: seq<byte>, h: nat)
  {
    h + PREAMBLE_LEN <= |buf| && LengthOk(PacketLen(buf, h)) && h + PacketLen(buf, h) <= |buf|
  }

  /** The four bytes at h + packetLen - 4 are the report tail. */
  predicate TailAt(buf: seq<byte>, h: nat)
    requires Sized(buf, h)
  {
    var k := h + PacketLen(buf, h) - 4;
    buf[k] == REPORT_TAIL[0] && buf[k + 1] == REPORT_TAIL[1] && buf[k + 2] == REPORT_TAIL[2] && buf[k + 3] == REPORT_TAIL[3]
  }

  /** The targets of the frame whose header is at h. */
  function FrameAt(buf: seq<byte>, h: nat, rule: string): Frame
    requires Sized(buf, h)
  {
    var n := TargetCount(PacketLen(buf, h));
    var ts := seq(n, t requires 0 <= t < n => TargetAt(buf, h + PREAMBLE_LEN + t * TARGET_STRIDE, t + 1, rule));
    Frame(ts, AnyValid(ts))
  }

  /** A decoded frame of n targets numbered 1 to n, present exactly when one is valid. */
  predicate WellFormed(f: Frame, n: nat)
  {
    && |f.targets| == n
    && (forall t :: 0 <= t < n ==> f.targets[t].id == t + 1 && f.targets[t].speedCms == 0 && f.targets[t].resolutionMm == 0)
    && (f.present <==> AnyValid(f.targets))
  }

  /** A frame has (packetLen - 11) / 4 targets, ids 1.., the t-th read at h + 7 + 4t. */
  lemma FrameAtShape(buf: seq<byte>, h: nat, rule: string)
    requires Sized(buf, h)
    ensures var n := TargetCount(PacketLen(buf, h));
      && WellFormed(FrameAt(buf, h, rule), n)
      && forall t :: 0 <= t < n ==>
           FrameAt(buf, h, rule).targets[t] == TargetAt(buf, h + PREAMBLE_LEN + t * TARGET_STRIDE, t + 1, rule)
  {
  }

  /** Decodes the targets of the frame at h, one after the other, then whether any is valid. */
  method DecodeFrame(buf: seq<byte>, h: nat, rule: string) returns (f: Frame)
    requires Sized(buf, h)
    ensures f == FrameAt(buf, h, rule)
  {
    var packetLen := PacketLen(buf, h);
    var targetsCount := (packetLen - FIXED_OVERHEAD) / TARGET_STRIDE;
    var targets: seq<Target> := [];
    var t := 0;
    while t < targetsCount
      invariant 0 <= t <= targetsCount
      invariant targets == seq(t, k requires 0 <= k < t => TargetAt(buf, h + PREAMBLE_LEN + k * TARGET_STRIDE, k + 1, rule))
    {
      var target := TargetAt(buf, h + PREAMBLE_LEN + t * TARGET_STRIDE, t + 1, rule);
      targets := targets + [target];
      t := t + 1;
    }
    var present := false;
    var k := 0;
    while k < |targets|
      invariant 0 <= k <= |targets|
      invariant present <==> exists j :: 0 <= j < k && targets[j].valid
    {
      present := present || targets[k].valid;
      k := k + 1;
    }
    f := Frame(targets, present);
  }

  // ------------------------------------------------------------------
  // The scanner

  datatype Stats = Stats(scannedBytes: nat, foundHeaders: nat, decodedFrames: nat, badFooters: nat,
                         badLengths: nat, badFunc: nat)

  /** Where the scan found frames, and what it leaves over. */
  datatype Scanned = Scanned(offsets: seq<nat>, remainder: seq<byte>, droppedBytes: nat, stats: Stats)

  datatype Decoded = Decoded(frames: seq<Frame>, remainder: seq<byte>, droppedBytes: nat, stats: Stats)

  /** frames.length < maxFrames, with None standing for Infinity. */
  predicate Below(n: nat, maxFrames: Option<real>)
  {
    maxFrames.None? || (n as real) < maxFrames.value
  }

  /** The loop variables of the scan: the cursor, the offsets of the frames decoded so far, droppedBytes and the stats. */
  datatype Cursor = Cursor(i: nat, offsets: seq<nat>, dropped: nat, stats: Stats)

  datatype Step = Done(result: Scanned) | Next(next: Cursor)

  /** The initial loop variables for buf. */
  function Start(buf: seq<byte>): Cursor
  {
    Cursor(0, [], 0, Stats(|buf|, 0, 0, 0, 0, 0))
  }

  /** droppedBytes when the scan stops at a header: the header offset if no frame came before it. */
  function DroppedAt(c: Cursor, h: nat): nat
  {
    if |c.offsets| == 0 then h else c.dropped
  }

  /** The checks a header passes, in the order the scanner makes them. */
  datatype Verdict = Truncated | WrongFunc | WrongLength | WrongTail | Accept

  /** The packet at h has function code 0x04, a valid length, lies inside buf and ends with the tail. */
  predicate FrameOk(buf: seq<byte>, h: nat)
  {
    Sized(buf, h) && buf[h + 4] == FUNC_CODE_TRACKING && TailAt(buf, h)
  }

  /** What the scanner makes of the header at h. */
  function Classify(buf: seq<byte>, h: nat): (v: Verdict)
    ensures v == Accept <==> FrameOk(buf, h)
  {
    if h + PREAMBLE_LEN > |buf| then Truncated
    else if buf[h + 4] != FUNC_CODE_TRACKING then WrongFunc
    else if !LengthOk(PacketLen(buf, h)) then WrongLength
    else if h + PacketLen(buf, h) > |buf| then Truncated
    else if !TailAt(buf, h) then WrongTail
    else Accept
  }

  /**
   * A header is truncated exactly when the length word or, for a tracking
   * packet of valid length, the packet runs past the end of buf; the
   * function code is checked before the length, and the length before the
   * tail.
   */
  lemma Verdicts(buf: seq<byte>, h: nat)
    ensures Classify(buf, h) == Truncated <==>
      h + PREAMBLE_LEN > |buf| || (buf[h + 4] == FUNC_CODE_TRACKING && LengthOk(PacketLen(buf, h)) && h + PacketLen(buf, h) > |buf|)
    ensures Classify(buf, h) == WrongFunc <==> h + PREAMBLE_LEN <= |buf| && buf[h + 4] != FUNC_CODE_TRACKING
    ensures Classify(buf, h) == WrongLength <==>
      h + PREAMBLE_LEN <= |buf| && buf[h + 4] == FUNC_CODE_TRACKING && !LengthOk(PacketLen(buf, h))
    ensures Classify(buf, h) == WrongTail <==> Sized(buf, h) && buf[h + 4] == FUNC_CODE_TRACKING && !TailAt(buf, h)
  {
  }

  /** The counter a rejected header increments. */
  function Reject(s: Stats, v: Verdict): (t: Stats)
    requires v == WrongFunc || v == WrongLength || v == WrongTail
    ensures t.foundHeaders == s.foundHeaders && t.decodedFrames == s.decodedFrames && t.scannedBytes == s.scannedBytes
    ensures t.badFooters + t.badLengths + t.badFunc == s.badFooters + s.badLengths + s.badFunc + 1
  {
    match v
    case WrongFunc => s.(badFunc := s.badFunc + 1)
    case WrongLength => s.(badLengths := s.badLengths + 1)
    case WrongTail => s.(badFooters := s.badFooters + 1)
  }

  /** Where the scan resumes after an accepted frame: right after its tail. */
  function FrameEnd(buf: seq<byte>, h: nat): nat
  {
    if h + PREAMBLE_LEN <= |buf| then h + PacketLen(buf, h) else h
  }

  /**
   * One iteration of the scanning loop, given where buf.indexOf(REPORT_HEADER, i)
   * found the next header: it returns, or moves the cursor forward.
   */
  function ScanStep(buf: seq<byte>, maxFrames: Option<real>, asWritten: bool, c: Cursor, found: Option<nat>): (st: Step)
    requires c.i <= |buf|
    requires found.Some? ==> c.i <= found.value <= |buf|
    ensures st.Next? ==> c.i < st.next.i <= |buf|
  {
    if !(c.i + |REPORT_HEADER| <= |buf| && Below(|c.offsets|, maxFrames)) then
      Done(Scanned(c.offsets, buf[c.i..], c.dropped, c.stats))
    else
      match found
      case None =>
        var keep := Min(|buf|, |REPORT_HEADER| - 1);
        Done(Scanned(c.offsets, buf[|buf| - keep..], if asWritten || |c.offsets| == 0 then |buf| - keep else c.dropped, c.stats))
      case Some(h) =>
        var st := c.stats.(foundHeaders := c.stats.foundHeaders + 1);
        match Classify(buf, h)
        case Truncated => Done(Scanned(c.offsets, buf[h..], DroppedAt(c, h), st))
        case Accept => Next(Cursor(FrameEnd(buf, h), c.offsets + [h], DroppedAt(c, h), st.(decodedFrames := st.decodedFrames + 1)))
        case v => Next(Cursor(h + 1, c.offsets, c.dropped, Reject(st, v)))
  }

  /** The scan from the loop variables c on. */
  function Scan(buf: seq<byte>, maxFrames: Option<real>, asWritten: bool, c: Cursor): Scanned
    requires c.i <= |buf|
    decreases |buf| - c.i
  {
    match ScanStep(buf, maxFrames, asWritten, c, IndexOfFrom(buf, REPORT_HEADER, c.i))
    case Done(r) => r
    case Next(c') => Scan(buf, maxFrames, asWritten, c')
  }

  /** A frame the scan accepts at h: the header, then function code 0x04, a valid length inside buf and the tail. */
  predicate Accepted(buf: seq<byte>, h: nat)
  {
    PatternAt(buf, h, REPORT_HEADER) && FrameOk(buf, h)
  }

  /** The frames at the given header offsets. */
  function FramesAt(buf: seq<byte>, offsets: seq<nat>, rule: string): (fs: seq<Frame>)
    requires forall k :: 0 <= k < |offsets| ==> Sized(buf, offsets[k])
    ensures |fs| == |offsets|
    ensures forall k :: 0 <= k < |offsets| ==> fs[k] == FrameAt(buf, offsets[k], rule)
  {
    seq(|offsets|, k requires 0 <= k < |offsets| => FrameAt(buf, offsets[k], rule))
  }

  /** Every recorded offset starts an accepted frame. */
  predicate AllAccepted(buf: seq<byte>, offsets: seq<nat>)
  {
    forall k :: 0 <= k < |offsets| ==> Accepted(buf, offsets[k])
  }

  /** Each recorded frame ends before every later one begins. */
  predicate Apart(buf: seq<byte>, offsets: seq<nat>)
  {
    forall j, k :: 0 <= j < k < |offsets| ==> FrameEnd(buf, offsets[j]) <= offsets[k]
  }

  /** What the loop keeps: decodedFrames counts the frames, and none is added once maxFrames are reached. */
  predicate Counted(buf: seq<byte>, maxFrames: Option<real>, offsets: seq<nat>, stats: Stats)
  {
    && AllAccepted(buf, offsets) && Apart(buf, offsets)
    && stats.decodedFrames == |offsets| && stats.scannedBytes == |buf|
    && stats.decodedFrames + stats.badFooters + stats.badLengths + stats.badFunc <= stats.foundHeaders
    && stats.foundHeaders <= stats.decodedFrames + stats.badFooters + stats.badLengths + stats.badFunc + 1
    && (maxFrames.Some? && |offsets| > 0 ==> ((|offsets| - 1) as real) < maxFrames.value)
  }

  predicate CursorOk(buf: seq<byte>, maxFrames: Option<real>, c: Cursor)
  {
    && c.i <= |buf|
    && Counted(buf, maxFrames, c.offsets, c.stats)
    && c.stats.foundHeaders == c.stats.decodedFrames + c.stats.badFooters + c.stats.badLengths + c.stats.badFunc
    && (|c.offsets| > 0 ==> FrameEnd(buf, c.offsets[|c.offsets| - 1]) <= c.i)
  }

  lemma AcceptedAppend(buf: seq<byte>, offsets: seq<nat>, h: nat)
    requires AllAccepted(buf, offsets) && Accepted(buf, h)
    ensures AllAccepted(buf, offsets + [h])
  {
    var o := offsets + [h];
    assert forall k :: 0 <= k < |offsets| ==> o[k] == offsets[k];
  }

  lemma ApartAppend(buf: seq<byte>, offsets: seq<nat>, h: nat)
    requires Apart(buf, offsets)
    requires |offsets| > 0 ==> FrameEnd(buf, offsets[|offsets| - 1]) <= h
    requires forall k :: 0 <= k < |offsets| ==> offsets[k] <= FrameEnd(buf, offsets[k])
    ensures Apart(buf, offsets + [h])
  {
    var o := offsets + [h];
    forall j, k | 0 <= j < k < |o|
      ensures FrameEnd(buf, o[j]) <= o[k]
    {
      if k == |offsets| && j < |offsets| - 1 {
        assert FrameEnd(buf, offsets[j]) <= offsets[|offsets| - 1];
      }
    }
  }

  /** Recording an accepted header at or after the cursor keeps the loop invariant. */
  lemma AppendKeeps(buf: seq<byte>, maxFrames: Option<real>, c: Cursor, h: nat)
    requires CursorOk(buf, maxFrames, c) && c.i <= h && Accepted(buf, h) && Below(|c.offsets|, maxFrames)
    ensures CursorOk(buf, maxFrames, Cursor(FrameEnd(buf, h), c.offsets + [h], DroppedAt(c, h),
                                            c.stats.(foundHeaders := c.stats.foundHeaders + 1,
                                                     decodedFrames := c.stats.decodedFrames + 1)))
  {
    AcceptedAppend(buf, c.offsets, h);
    ApartAppend(buf, c.offsets, h);
  }

  /** Counting a rejected header at or after the cursor keeps the loop invariant. */
  lemma RejectKeeps(buf: seq<byte>, maxFrames: Option<real>, c: Cursor, h: nat, v: Verdict)
    requires CursorOk(buf, maxFrames, c) && c.i <= h < |buf|
    requires v == WrongFunc || v == WrongLength || v == WrongTail
    ensures CursorOk(buf, maxFrames, Cursor(h + 1, c.offsets, c.dropped, Reject(c.stats.(foundHeaders := c.stats.foundHeaders + 1), v)))
  {
  }

  /**
   * The scan returns non-overlapping accepted frames, counted in
   * decodedFrames, and no more than maxFrames allow; every header it found
   * was decoded or counted once as a bad function code, length or footer,
   * except possibly the one it stopped at.
   */
  lemma {:induction false} ScanKeeps(buf: seq<byte>, maxFrames: Option<real>, asWritten: bool, c: Cursor)
    requires CursorOk(buf, maxFrames, c)
    ensures var r := Scan(buf, maxFrames, asWritten, c); Counted(buf, maxFrames, r.offsets, r.stats)
    decreases |buf| - c.i
  {
    if !(c.i + 4 <= |buf| && Below(|c.offsets|, maxFrames)) {
      LoopExitStops(buf, maxFrames, asWritten, c);
    } else {
      IndexOfFromFinds(buf, REPORT_HEADER, c.i);
      match IndexOfFrom(buf, REPORT_HEADER, c.i)
      case None => NoHeaderStops(buf, maxFrames, asWritten, c);
      case Some(h) =>
        match Classify(buf, h)
        case Truncated => TruncatedStops(buf, maxFrames, asWritten, c, h);
        case Accept =>
          var c' := AcceptAdvances(buf, maxFrames, asWritten, c, h);
          AppendKeeps(buf, maxFrames, c, h);
          ScanKeeps(buf, maxFrames, asWritten, c');
        case _ =>
          var c' := RejectSkips(buf, maxFrames, asWritten, c, h);
          RejectKeeps(buf, maxFrames, c, h, Classify(buf, h));
          ScanKeeps(buf, maxFrames, asWritten, c');
    }
  }

  /**
   * decodeLd2460TrackingFrames(buf, { maxFrames, validRule }), with
   * droppedBytes kept at the first frame's offset once a frame is decoded
   * (see DecodeAsWritten).
   */
  function Decode(buf: seq<byte>, maxFrames: Option<real>, rule: string): (r: Decoded)
    ensures r.stats.decodedFrames == |r.frames| && r.stats.scannedBytes == |buf|
    ensures maxFrames.Some? && |r.frames| > 0 ==> ((|r.frames| - 1) as real) < maxFrames.value
  {
    var sc := Scan(buf, maxFrames, false, Start(buf));
    ScanKeeps(buf, maxFrames, false, Start(buf));
    Decoded(FramesAt(buf, sc.offsets, rule), sc.remainder, sc.droppedBytes, sc.stats)
  }

  /**
   * decodeLd2460TrackingFrames as written: when no further header is found
   * it sets droppedBytes to all bytes before the kept remainder, frames
   * decoded earlier included.
   */
  function DecodeAsWritten(buf: seq<byte>, maxFrames: Option<real>, rule: string): (r: Decoded)
    ensures r.stats.decodedFrames == |r.frames| && r.stats.scannedBytes == |buf|
    ensures maxFrames.Some? && |r.frames| > 0 ==> ((|r.frames| - 1) as real) < maxFrames.value
  {
    var sc := Scan(buf, maxFrames, true, Start(buf));
    ScanKeeps(buf, maxFrames, true, Start(buf));
    Decoded(FramesAt(buf, sc.offsets, rule), sc.remainder, sc.droppedBytes, sc.stats)
  }

  /**
   * Every decoded frame passed all four checks and has (packetLen - 11) / 4
   * targets numbered from 1; stats.decodedFrames counts the frames, no frame
   * is decoded once maxFrames are reached, and every header found is either
   * decoded or counted as one kind of rejection, except one the scan stops at.
   */
  lemma DecodeFacts(buf: seq<byte>, maxFrames: Option<real>, rule: string)
    ensures var sc := Scan(buf, maxFrames, false, Start(buf));
      && (forall k :: 0 <= k < |sc.offsets| ==> Accepted(buf, sc.offsets[k]))
      && Decode(buf, maxFrames, rule).frames == FramesAt(buf, sc.offsets, rule)
      && (forall k :: 0 <= k < |sc.offsets| ==>
            WellFormed(FrameAt(buf, sc.offsets[k], rule), TargetCount(PacketLen(buf, sc.offsets[k]))))
    ensures var r := Decode(buf, maxFrames, rule);
      && r.stats.decodedFrames == |r.frames| && r.stats.scannedBytes == |buf|
      && (maxFrames.Some? && |r.frames| > 0 ==> ((|r.frames| - 1) as real) < maxFrames.value)
      && r.stats.decodedFrames + r.stats.badFooters + r.stats.badLengths + r.stats.badFunc <= r.stats.foundHeaders
      && r.stats.foundHeaders <= r.stats.decodedFrames + r.stats.badFooters + r.stats.badLengths + r.stats.badFunc + 1
  {
    var sc := Scan(buf, maxFrames, false, Start(buf));
    ScanKeeps(buf, maxFrames, false, Start(buf));
    forall k | 0 <= k < |sc.offsets|
      ensures WellFormed(FrameAt(buf, sc.offsets[k], rule), TargetCount(PacketLen(buf, sc.offsets[k])))
    {
      FrameAtShape(buf, sc.offsets[k], rule);
    }
  }

  /** droppedBytes is the offset of the first frame, once there is one. */
  predicate DroppedAtFirst(offsets: seq<nat>, dropped: nat)
  {
    |offsets| > 0 ==> dropped == offsets[0]
  }

  lemma {:induction false} ScanDropped(buf: seq<byte>, maxFrames: Option<real>, c: Cursor)
    requires c.i <= |buf| && DroppedAtFirst(c.offsets, c.dropped)
    ensures var r := Scan(buf, maxFrames, false, c); DroppedAtFirst(r.offsets, r.droppedBytes)
    decreases |buf| - c.i
  {
    match ScanStep(buf, maxFrames, false, c, IndexOfFrom(buf, REPORT_HEADER, c.i))
    case Done(_) =>
    case Next(c') => ScanDropped(buf, maxFrames, c');
  }

  /** Once a frame is decoded, droppedBytes counts only the bytes before the first frame. */
  lemma DroppedBeforeFirstFrame(buf: seq<byte>, maxFrames: Option<real>)
    ensures var sc := Scan(buf, maxFrames, false, Start(buf));
      |sc.offsets| > 0 ==> sc.droppedBytes == sc.offsets[0] && Accepted(buf, sc.offsets[0])
  {
    ScanDropped(buf, maxFrames, Start(buf));
    ScanKeeps(buf, maxFrames, false, Start(buf));
  }

  /** The scan stops, once the buffer is too short for a header or maxFrames frames are decoded. */
  lemma LoopExitStops(buf: seq<byte>, maxFrames: Option<real>, asWritten: bool, c: Cursor)
    requires c.i <= |buf|
    requires !(c.i + 4 <= |buf| && Below(|c.offsets|, maxFrames))
    ensures Scan(buf, maxFrames, asWritten, c) == Scanned(c.offsets, buf[c.i..], c.dropped, c.stats)
  {
  }

  /** Without a further header the scan stops and keeps only the last min(len, 3) bytes. */
  lemma NoHeaderStops(buf: seq<byte>, maxFrames: Option<real>, asWritten: bool, c: Cursor)
    requires c.i + 4 <= |buf| && Below(|c.offsets|, maxFrames)
    requires IndexOfFrom(buf, REPORT_HEADER, c.i) == None
    ensures var keep := Min(|buf|, 3);
      Scan(buf, maxFrames, asWritten, c)
        == Scanned(c.offsets, buf[|buf| - keep..], if asWritten || |c.offsets| == 0 then |buf| - keep else c.dropped, c.stats)
  {
  }

  /** A header whose length word or whole packet lies beyond the buffer stops the scan; the remainder starts at that header. */
  lemma TruncatedStops(buf: seq<byte>, maxFrames: Option<real>, asWritten: bool, c: Cursor, h: nat)
    requires c.i + 4 <= |buf| && Below(|c.offsets|, maxFrames)
    requires IndexOfFrom(buf, REPORT_HEADER, c.i) == Some(h) && Classify(buf, h) == Truncated
    ensures Scan(buf, maxFrames, asWritten, c)
      == Scanned(c.offsets, buf[h..], DroppedAt(c, h), c.stats.(foundHeaders := c.stats.foundHeaders + 1))
  {
  }

  /** A rejected header is counted in its own counter, and the scan resumes one byte later. */
  lemma RejectSkips(buf: seq<byte>, maxFrames: Option<real>, asWritten: bool, c: Cursor, h: nat) returns (c': Cursor)
    requires c.i + 4 <= |buf| && Below(|c.offsets|, maxFrames)
    requires IndexOfFrom(buf, REPORT_HEADER, c.i) == Some(h)
    requires Classify(buf, h) == WrongFunc || Classify(buf, h) == WrongLength || Classify(buf, h) == WrongTail
    ensures c' == c.(i := h + 1, stats := Reject(c.stats.(foundHeaders := c.stats.foundHeaders + 1), Classify(buf, h)))
    ensures c.i < c'.i <= |buf| && Scan(buf, maxFrames, asWritten, c) == Scan(buf, maxFrames, asWritten, c')
  {
    c' := c.(i := h + 1, stats := Reject(c.stats.(foundHeaders := c.stats.foundHeaders + 1), Classify(buf, h)));
    assert ScanStep(buf, maxFrames, asWritten, c, Some(h)) == Next(c');
  }

  /** A frame that passes every check is recorded, and the scan resumes right after its tail. */
  lemma AcceptAdvances(buf: seq<byte>, maxFrames: Option<real>, asWritten: bool, c: Cursor, h: nat) returns (c': Cursor)
    requires c.i + 4 <= |buf| && Below(|c.offsets|, maxFrames)
    requires IndexOfFrom(buf, REPORT_HEADER, c.i) == Some(h) && FrameOk(buf, h)
    ensures c' == Cursor(FrameEnd(buf, h), c.offsets + [h], DroppedAt(c, h),
                         c.stats.(foundHeaders := c.stats.foundHeaders + 1, decodedFrames := c.stats.decodedFrames + 1))
    ensures c.i < c'.i <= |buf| && Scan(buf, maxFrames, asWritten, c) == Scan(buf, maxFrames, asWritten, c')
  {
    c' := Cursor(FrameEnd(buf, h), c.offsets + [h], DroppedAt(c, h),
                 c.stats.(foundHeaders := c.stats.foundHeaders + 1, decodedFrames := c.stats.decodedFrames + 1));
    assert ScanStep(buf, maxFrames, asWritten, c, Some(h)) == Next(c');
  }

  /** Without any header the remainder is the last min(len, 3) bytes and the rest is dropped. */
  lemma NoHeader(buf: seq<byte>, maxFrames: Option<real>, rule: string)
    requires Below(0, maxFrames)
    requires forall j :: !PatternAt(buf, j, REPORT_HEADER)
    ensures var keep := Min(|buf|, 3);
      Decode(buf, maxFrames, rule) == Decoded([], buf[|buf| - keep..], |buf| - keep, Stats(|buf|, 0, 0, 0, 0, 0))
  {
    if |buf| < 4 {
      NoHeaderShort(buf, maxFrames, rule);
    } else {
      NoHeaderLong(buf, maxFrames, rule);
    }
  }

  /** NoHeader for a buffer too short to hold a header. */
  lemma NoHeaderShort(buf: seq<byte>, maxFrames: Option<real>, rule: string)
    requires Below(0, maxFrames) && |buf| < 4
    ensures Decode(buf, maxFrames, rule) == Decoded([], buf, 0, Stats(|buf|, 0, 0, 0, 0, 0))
  {
    IndexOfFromFinds(buf, REPORT_HEADER, 0);
  }

  /** NoHeader for a buffer of four bytes or more. */
  lemma NoHeaderLong(buf: seq<byte>, maxFrames: Option<real>, rule: string)
    requires Below(0, maxFrames) && |buf| >= 4
    requires forall j :: !PatternAt(buf, j, REPORT_HEADER)
    ensures Decode(buf, maxFrames, rule) == Decoded([], buf[|buf| - 3..], |buf| - 3, Stats(|buf|, 0, 0, 0, 0, 0))
  {
    IndexOfFromFinds(buf, REPORT_HEADER, 0);
    NoHeaderStops(buf, maxFrames, false, Start(buf));
  }

  /**
   * A frame at offset 0 followed by at least four bytes without a header:
   * as written, droppedBytes counts the frame and every byte after it but
   * the last three; the corrected decoder reports 0, the offset of the frame.
   */
  lemma FrameThenNoise(buf: seq<byte>, maxFrames: Option<real>, rule: string)
    requires Accepted(buf, 0) && PacketLen(buf, 0) + 4 <= |buf| && Below(1, maxFrames)
    requires forall j :: PacketLen(buf, 0) <= j ==> !PatternAt(buf, j, REPORT_HEADER)
    ensures |DecodeAsWritten(buf, maxFrames, rule).frames| == 1 && DecodeAsWritten(buf, maxFrames, rule).droppedBytes == |buf| - 3
    ensures |Decode(buf, maxFrames, rule).frames| == 1 && Decode(buf, maxFrames, rule).droppedBytes == 0
  {
    assert IndexOfFrom(buf, REPORT_HEADER, 0) == Some(0);
    IndexOfFromFinds(buf, REPORT_HEADER, PacketLen(buf, 0));
    var c := AcceptAdvances(buf, maxFrames, true, Start(buf), 0);
    NoHeaderStops(buf, maxFrames, true, c);
    var d := AcceptAdvances(buf, maxFrames, false, Start(buf), 0);
    NoHeaderStops(buf, maxFrames, false, d);
  }

  /** A buffer holding exactly one accepted frame decodes to that frame, with nothing left or dropped. */
  lemma SingleFrame(buf: seq<byte>, maxFrames: Option<real>, rule: string)
    requires Accepted(buf, 0) && PacketLen(buf, 0) == |buf| && Below(0, maxFrames)
    ensures Decode(buf, maxFrames, rule) == Decoded([FrameAt(buf, 0, rule)], [], 0, Stats(|buf|, 1, 1, 0, 0, 0))
  {
    assert IndexOfFrom(buf, REPORT_HEADER, 0) == Some(0);
    var c := AcceptAdvances(buf, maxFrames, false, Start(buf), 0);
    LoopExitStops(buf, maxFrames, false, c);
  }

  /**
   * One pass of the scanning loop body, with the checks in the source's
   * order: it returns the decoder result, or the next loop variables, as
   * the scan does.
   */
  method ScanOnce(buf: seq<byte>, maxFrames: Option<real>, rule: string, i: nat, frames: seq<Frame>,
                  ghost offsets: seq<nat>, dropped: nat, stats: Stats)
    returns (done: bool, r: Decoded, ghost sc: Scanned, i': nat, frames': seq<Frame>, ghost offsets': seq<nat>,
             dropped': nat, stats': Stats)
    requires i + |REPORT_HEADER| <= |buf| && Below(|offsets|, maxFrames) && |frames| == |offsets|
    requires forall k :: 0 <= k < |offsets| ==> Sized(buf, offsets[k])
    requires frames == FramesAt(buf, offsets, rule)
    ensures done ==> Scan(buf, maxFrames, false, Cursor(i, offsets, dropped, stats)) == sc
    ensures done ==> r == Decoded(frames, sc.remainder, sc.droppedBytes, sc.stats) && sc.offsets == offsets
    ensures !done ==> i < i' <= |buf| && |frames'| == |offsets'|
    ensures !done ==> forall k :: 0 <= k < |offsets'| ==> Sized(buf, offsets'[k])
    ensures !done ==> frames' == FramesAt(buf, offsets', rule)
    ensures !done ==> Scan(buf, maxFrames, false, Cursor(i, offsets, dropped, stats))
                      == Scan(buf, maxFrames, false, Cursor(i', offsets', dropped', stats'))
  {
    ghost var c := Cursor(i, offsets, dropped, stats);
    done, i', frames', offsets', dropped', stats' := true, i, frames, offsets, dropped, stats;
    var headerIdx := IndexOfFrom(buf, REPORT_HEADER, i);
    if headerIdx.None? {
      var keep := Min(|buf|, |REPORT_HEADER| - 1);
      NoHeaderStops(buf, maxFrames, false, c);
      r := Decoded(frames, buf[|buf| - keep..], if |frames| == 0 then |buf| - keep else dropped, stats);
      sc := Scanned(offsets, r.remainder, r.droppedBytes, r.stats);
      return;
    }
    var h := headerIdx.value;
    stats' := stats.(foundHeaders := stats.foundHeaders + 1);
    var verdict := CheckHeader(buf, h);
    match verdict
    case Truncated =>
      TruncatedStops(buf, maxFrames, false, c, h);
      r := Decoded(frames, buf[h..], if |frames| == 0 then h else dropped, stats');
      sc := Scanned(offsets, r.remainder, r.droppedBytes, r.stats);
    case Accept =>
      var frame := DecodeFrame(buf, h, rule);
      ghost var c' := AcceptAdvances(buf, maxFrames, false, c, h);
      FramesAtAppend(buf, offsets, h, rule);
      done, r, sc := false, Decoded([], [], 0, stats'), Scanned([], [], 0, stats');
      if |frames| == 0 {
        dropped' := h;
      }
      frames' := frames + [frame];
      offsets' := offsets + [h];
      stats' := stats'.(decodedFrames := stats'.decodedFrames + 1);
      i' := h + U16(buf, h + 5);
      assert Cursor(i', offsets', dropped', stats') == c';
    case _ =>
      // a wrong function code, length or tail: its own counter, and the search resumes one byte on
      ghost var c' := RejectSkips(buf, maxFrames, false, c, h);
      done, r, sc := false, Decoded([], [], 0, stats'), Scanned([], [], 0, stats');
      stats' := Reject(stats', verdict);
      i' := h + 1;
      assert Cursor(i', offsets', dropped', stats') == c';
  }

  /** The checks of the scanning loop on the header at h, in the source's order. */
  method CheckHeader(buf: seq<byte>, h: nat) returns (v: Verdict)
    ensures v == Classify(buf, h)
  {
    if h + PREAMBLE_LEN > |buf| {
      return Truncated;
    }
    if buf[h + 4] != FUNC_CODE_TRACKING {
      return WrongFunc;
    }
    var packetLen := U16(buf, h + 5);
    if packetLen < FIXED_OVERHEAD || (packetLen - FIXED_OVERHEAD) % TARGET_STRIDE != 0 {
      return WrongLength;
    }
    if h + packetLen > |buf| {
      return Truncated;
    }
    var tailIdx := h + packetLen - |REPORT_TAIL|;
    if buf[tailIdx] != REPORT_TAIL[0] || buf[tailIdx + 1] != REPORT_TAIL[1]
       || buf[tailIdx + 2] != REPORT_TAIL[2] || buf[tailIdx + 3] != REPORT_TAIL[3] {
      return WrongTail;
    }
    return Accept;
  }

  /**
   * The scanning loop of decodeLd2460TrackingFrames: the result is the scan's,
   * with the frame decoded at each offset the scan records (so r is
   * Decode(buf, maxFrames, rule), by DecodeOf).
   */
  method DecodeTrackingFrames(buf: seq<byte>, maxFrames: Option<real>, rule: string)
    returns (r: Decoded, ghost sc: Scanned)
    ensures forall k :: 0 <= k < |sc.offsets| ==> Sized(buf, sc.offsets[k])
    ensures Scan(buf, maxFrames, false, Start(buf)) == sc
    ensures r == Decoded(FramesAt(buf, sc.offsets, rule), sc.remainder, sc.droppedBytes, sc.stats)
  {
    var frames: seq<Frame> := [];
    ghost var offsets: seq<nat> := [];
    var stats := Stats(|buf|, 0, 0, 0, 0, 0);
    var dropped: nat := 0;
    var i: nat := 0;
    while i + |REPORT_HEADER| <= |buf| && Below(|frames|, maxFrames)
      invariant i <= |buf| && |frames| == |offsets|
      invariant forall k :: 0 <= k < |offsets| ==> Sized(buf, offsets[k])
      invariant frames == FramesAt(buf, offsets, rule)
      invariant Scan(buf, maxFrames, false, Cursor(i, offsets, dropped, stats)) == Scan(buf, maxFrames, false, Start(buf))
      decreases |buf| - i
    {
      var done;
      done, r, sc, i, frames, offsets, dropped, stats := ScanOnce(buf, maxFrames, rule, i, frames, offsets, dropped, stats);
      if done {
        return;
      }
    }
    LoopExitStops(buf, maxFrames, false, Cursor(i, offsets, dropped, stats));
    sc := Scanned(offsets, buf[i..], dropped, stats);
    r := Decoded(frames, buf[i..], dropped, stats);
  }

  /** Decode in terms of the scan's result. */
  lemma DecodeOf(buf: seq<byte>, maxFrames: Option<real>, rule: string, sc: Scanned)
    requires Scan(buf, maxFrames, false, Start(buf)) == sc
    requires forall k :: 0 <= k < |sc.offsets| ==> Sized(buf, sc.offsets[k])
    ensures Decode(buf, maxFrames, rule) == Decoded(FramesAt(buf, sc.offsets, rule), sc.remainder, sc.droppedBytes, sc.stats)
  {
  }

  /** Appending one header offset appends its frame. */
  lemma FramesAtAppend(buf: seq<byte>, offsets: seq<nat>, h: nat, rule: string)
    requires forall k :: 0 <= k < |offsets| ==> Sized(buf, offsets[k])
    requires Sized(buf, h)
    ensures FramesAt(buf, offsets + [h], rule) == FramesAt(buf, offsets, rule) + [FrameAt(buf, h, rule)]
  {
    var o := offsets + [h];
    assert forall k :: 0 <= k < |o| ==> Sized(buf, o[k]);
  }

  // ------------------------------------------------------------------
  // The stream decoder

  datatype Options = Options(rule: string, maxFramesPerPush: Option<real>, maxBufferBytes: real,
                             noiseLogThreshold: real, emitStats: bool)

  /** The options createLd2460StreamDecoder reads, with their defaults. */
  function OptionsOf(opts: Value): (o: Options)
    ensures !opts.Obj? ==> o == Options("nonzeroXY", None, DEFAULT_MAX_BUFFER_BYTES, DEFAULT_NOISE_LOG_THRESHOLD, false)
  {
    Options(RuleOf(Get(opts, "validRule")),
            FiniteOr(Get(opts, "maxFramesPerPush"), None),
            FiniteOr(Get(opts, "maxBufferBytes"), Some(DEFAULT_MAX_BUFFER_BYTES)).value,
            FiniteOr(Get(opts, "noiseLogThreshold"), Some(DEFAULT_NOISE_LOG_THRESHOLD)).value,
            Get(opts, "emitStats") == Bool(true))
  }

  /** getState() */
  datatype Totals = Totals(carryBytes: nat, totalFrames: nat, totalBadFooters: nat, totalBadLengths: nat,
                           totalBadFunc: nat, totalDropped: nat)

  datatype Event =
    | InvalidChunk
    | OverflowDropAll(droppedBytes: nat)
    | OverflowDropPrefix(droppedBytes: nat)
    | DroppedNoise(droppedBytes: nat)
    | BadFooter(count: nat)
    | BadLength(count: nat)
    | BadFunc(count: nat)
    | FrameEvent(ts: int, frame: Frame)
    | StatsEvent(ts: int, stats: Stats, droppedBytes: nat, carryBytes: nat, totals: Totals)

  datatype Stream = Stream(carry: seq<byte>, totalFrames: nat, totalBadFooters: nat, totalBadLengths: nat,
                           totalBadFunc: nat, totalDropped: nat, events: seq<Event>)

  /** The overflow guard: a carry beyond maxBufferBytes is cut at its last header, or dropped whole. */
  function Overflow(s: Stream, maxBufferBytes: real): (t: Stream)
    ensures t.totalFrames == s.totalFrames && t.totalBadFooters == s.totalBadFooters
    ensures t.totalBadLengths == s.totalBadLengths && t.totalBadFunc == s.totalBadFunc
    ensures (|s.carry| as real) <= maxBufferBytes ==> t == s
    ensures (|s.carry| as real) > maxBufferBytes ==>
      match LastIndexOf(s.carry, REPORT_HEADER)
      case None => t.carry == [] && t.totalDropped == s.totalDropped + |s.carry|
      case Some(h) => t.carry == s.carry[h..] && PatternAt(t.carry, 0, REPORT_HEADER) && t.totalDropped == s.totalDropped + h
  {
    if (|s.carry| as real) <= maxBufferBytes then s
    else
      match LastIndexOf(s.carry, REPORT_HEADER)
      case None => s.(carry := [], totalDropped := s.totalDropped + |s.carry|,
                      events := s.events + [OverflowDropAll(|s.carry|)])
      case Some(h) =>
        assert PatternAt(s.carry[h..], 0, REPORT_HEADER) by {
          assert forall k :: 0 <= k < 4 ==> s.carry[h..][k] == s.carry[h + k];
        }
        if h > 0 then s.(carry := s.carry[h..], totalDropped := s.totalDropped + h,
                         events := s.events + [OverflowDropPrefix(h)])
        else s
  }

  /** One FrameEvent per decoded frame, in order. */
  function FrameEvents(frames: seq<Frame>, ts: int): (es: seq<Event>)
    ensures |es| == |frames|
    ensures forall k :: 0 <= k < |frames| ==> es[k] == FrameEvent(ts, frames[k])
  {
    seq(|frames|, k requires 0 <= k < |frames| => FrameEvent(ts, frames[k]))
  }

  /** The rejection counters of one decoder result: each nonzero one is added to its total and reported. */
  function NoteRejects(s: Stream, st: Stats): (t: Stream)
    ensures t.carry == s.carry && t.totalFrames == s.totalFrames && t.totalDropped == s.totalDropped
    ensures t.totalBadFooters == s.totalBadFooters + st.badFooters
    ensures t.totalBadLengths == s.totalBadLengths + st.badLengths
    ensures t.totalBadFunc == s.totalBadFunc + st.badFunc
    ensures |t.events| == |s.events| + (if st.badFooters > 0 then 1 else 0) + (if st.badLengths > 0 then 1 else 0)
                                     + (if st.badFunc > 0 then 1 else 0)
  {
    var s1 := if st.badFooters > 0
      then s.(totalBadFooters := s.totalBadFooters + st.badFooters, events := s.events + [BadFooter(st.badFooters)])
      else s;
    var s2 := if st.badLengths > 0
      then s1.(totalBadLengths := s1.totalBadLengths + st.badLengths, events := s1.events + [BadLength(st.badLengths)])
      else s1;
    if st.badFunc > 0
      then s2.(totalBadFunc := s2.totalBadFunc + st.badFunc, events := s2.events + [BadFunc(st.badFunc)])
      else s2
  }

  /** What the decoder result adds to the stream state, step by step as push does it. */
  function Absorb(s: Stream, res: Decoded, o: Options, now: int): (t: Stream)
    ensures t.carry == res.remainder && t.totalFrames == s.totalFrames + |res.frames|
    ensures t.totalDropped == s.totalDropped + res.droppedBytes
    ensures t.totalBadFooters == s.totalBadFooters + res.stats.badFooters
    ensures t.totalBadLengths == s.totalBadLengths + res.stats.badLengths
    ensures t.totalBadFunc == s.totalBadFunc + res.stats.badFunc
  {
    var s1 := s.(totalDropped := s.totalDropped + res.droppedBytes);
    var s2 := if (res.droppedBytes as real) >= o.noiseLogThreshold
      then s1.(events := s1.events + [DroppedNoise(res.droppedBytes)]) else s1;
    var s3 := NoteRejects(s2, res.stats);
    var s4 := s3.(totalFrames := s3.totalFrames + |res.frames|, events := s3.events + FrameEvents(res.frames, now));
    var s5 := if o.emitStats
      then s4.(events := s4.events + [StatsEvent(now, res.stats, res.droppedBytes, |res.remainder|,
                                                 Totals(|s4.carry|, s4.totalFrames, s4.totalBadFooters,
                                                        s4.totalBadLengths, s4.totalBadFunc, s4.totalDropped))])
      else s4;
    s5.(carry := res.remainder)
  }

  /** push(chunk): None stands for an argument that is not a Buffer; now is the clock reading used for the events. */
  function PushStep(s: Stream, o: Options, chunk: Option<seq<byte>>, now: int): Stream
  {
    if chunk.None? then s.(events := s.events + [InvalidChunk])
    else
      var joined := s.(carry := s.carry + chunk.value);
      var t := Overflow(joined, o.maxBufferBytes);
      if (|joined.carry| as real) > o.maxBufferBytes && LastIndexOf(joined.carry, REPORT_HEADER).None? then t
      else if |t.carry| < PREAMBLE_LEN then t
      else Absorb(t, Decode(t.carry, o.maxFramesPerPush, o.rule), o, now)
  }

  /**
   * After a push that reaches the decoder, the carry is exactly the
   * decoder's remainder, and the totals grow by the decoded frames, the
   * dropped bytes and each kind of rejection.
   */
  lemma PushCarriesRemainder(s: Stream, o: Options, chunk: seq<byte>, now: int)
    requires var t := Overflow(s.(carry := s.carry + chunk), o.maxBufferBytes);
      !((|s.carry + chunk| as real) > o.maxBufferBytes && LastIndexOf(s.carry + chunk, REPORT_HEADER).None?)
      && |t.carry| >= PREAMBLE_LEN
    ensures var t := Overflow(s.(carry := s.carry + chunk), o.maxBufferBytes);
      var res := Decode(t.carry, o.maxFramesPerPush, o.rule);
      var u := PushStep(s, o, Some(chunk), now);
      && u.carry == res.remainder
      && u.totalFrames == s.totalFrames + |res.frames|
      && u.totalDropped == t.totalDropped + res.droppedBytes
      && u.totalBadFooters == s.totalBadFooters + res.stats.badFooters
      && u.totalBadLengths == s.totalBadLengths + res.stats.badLengths
      && u.totalBadFunc == s.totalBadFunc + res.stats.badFunc
  {
  }

  /** A carry shorter than seven bytes (and within maxBufferBytes) is kept whole and not decoded. */
  lemma PushShortCarryWaits(s: Stream, o: Options, chunk: seq<byte>, now: int)
    requires (|s.carry + chunk| as real) <= o.maxBufferBytes && |s.carry + chunk| < PREAMBLE_LEN
    ensures PushStep(s, o, Some(chunk), now) == s.(carry := s.carry + chunk)
  {
  }

  /** A carry beyond maxBufferBytes without any header is dropped whole and nothing is decoded. */
  lemma PushOverflowDropsAll(s: Stream, o: Options, chunk: seq<byte>, now: int)
    requires (|s.carry + chunk| as real) > o.maxBufferBytes
    requires forall j :: !PatternAt(s.carry + chunk, j, REPORT_HEADER)
    ensures var u := PushStep(s, o, Some(chunk), now);
      u.carry == [] && u.totalDropped == s.totalDropped + |s.carry + chunk| && u.totalFrames == s.totalFrames
      && u.events == s.events + [OverflowDropAll(|s.carry + chunk|)]
  {
  }

  /** The closure state of createLd2460StreamDecoder: the carry, the totals and what it emitted. */
  class StreamDecoder {
    const opts: Options
    var carry: seq<byte>
    var totalFrames: nat
    var totalBadFooters: nat
    var totalBadLengths: nat
    var totalBadFunc: nat
    var totalDropped: nat
    var events: seq<Event>

    function Snapshot(): Stream
      reads this
    {
      Stream(carry, totalFrames, totalBadFooters, totalBadLengths, totalBadFunc, totalDropped, events)
    }

    constructor (options: Value)
      ensures opts == OptionsOf(options)
      ensures Snapshot() == Stream([], 0, 0, 0, 0, 0, [])
    {
      opts := OptionsOf(options);
      carry := [];
      totalFrames := 0;
      totalBadFooters := 0;
      totalBadLengths := 0;
      totalBadFunc := 0;
      totalDropped := 0;
      events := [];
    }

    /** reset() empties the carry and keeps the totals. */
    method Reset()
      modifies this`carry
      ensures carry == []
    {
      carry := [];
    }

    /** getState() */
    function GetState(): (t: Totals)
      reads this
      ensures t.carryBytes == |carry| && t.totalFrames == totalFrames && t.totalDropped == totalDropped
    {
      Totals(|carry|, totalFrames, totalBadFooters, totalBadLengths, totalBadFunc, totalDropped)
    }

    /** push(chunk) */
    method Push(chunk: Option<seq<byte>>, now: int)
      modifies this
      ensures Snapshot() == PushStep(old(Snapshot()), opts, chunk, now)
    {
      if chunk.None? {
        events := events + [InvalidChunk];
        return;
      }
      ghost var joined := Snapshot().(carry := carry + chunk.value);
      carry := if |carry| == 0 then chunk.value else carry + chunk.value;
      assert Snapshot() == joined;
      var proceed := DropOverflow();
      if !proceed || |carry| < PREAMBLE_LEN {
        return;
      }
      var res, sc := DecodeTrackingFrames(carry, opts.maxFramesPerPush, opts.rule);
      DecodeOf(carry, opts.maxFramesPerPush, opts.rule, sc);
      Emit(res, now);
    }

    /**
     * The overflow guard of push: it returns false when the whole carry was
     * dropped and push returns.
     */
    method DropOverflow() returns (proceed: bool)
      modifies this
      ensures Snapshot() == Overflow(old(Snapshot()), opts.maxBufferBytes)
      ensures !proceed <==> (|old(carry)| as real) > opts.maxBufferBytes && LastIndexOf(old(carry), REPORT_HEADER).None?
    {
      proceed := true;
      if (|carry| as real) > opts.maxBufferBytes {
        var lastHeader := LastIndexOf(carry, REPORT_HEADER);
        if lastHeader.None? {
          totalDropped := totalDropped + |carry|;
          events := events + [OverflowDropAll(|carry|)];
          carry := [];
          proceed := false;
        } else if lastHeader.value > 0 {
          totalDropped := totalDropped + lastHeader.value;
          events := events + [OverflowDropPrefix(lastHeader.value)];
          carry := carry[lastHeader.value..];
        }
      }
    }

    /** What push does with the decoder result: the totals, the events, and the remainder as the new carry. */
    method Emit(res: Decoded, now: int)
      modifies this
      ensures Snapshot() == Absorb(old(Snapshot()), res, opts, now)
    {
      totalDropped := totalDropped + res.droppedBytes;
      if (res.droppedBytes as real) >= opts.noiseLogThreshold {
        events := events + [DroppedNoise(res.droppedBytes)];
      }
      CountRejects(res.stats);
      EmitFrames(res.frames, now);
      if opts.emitStats {
        events := events + [StatsEvent(now, res.stats, res.droppedBytes, |res.remainder|, GetState())];
      }
      carry := res.remainder;
    }

    /** The BAD_FOOTER, BAD_LENGTH and BAD_FUNC reports of push. */
    method CountRejects(st: Stats)
      modifies this
      ensures Snapshot() == NoteRejects(old(Snapshot()), st)
    {
      if st.badFooters > 0 {
        totalBadFooters := totalBadFooters + st.badFooters;
        events := events + [BadFooter(st.badFooters)];
      }
      if st.badLengths > 0 {
        totalBadLengths := totalBadLengths + st.badLengths;
        events := events + [BadLength(st.badLengths)];
      }
      if st.badFunc > 0 {
        totalBadFunc := totalBadFunc + st.badFunc;
        events := events + [BadFunc(st.badFunc)];
      }
    }

    /** The frame loop of push: one frame event per frame, each counted in totalFrames. */
    method EmitFrames(frames: seq<Frame>, now: int)
      modifies this
      ensures Snapshot() == old(Snapshot()).(totalFrames := old(totalFrames) + |frames|,
                                             events := old(events) + FrameEvents(frames, now))
    {
      var k := 0;
      while k < |frames|
        invariant 0 <= k <= |frames|
        invariant Snapshot() == old(Snapshot()).(totalFrames := old(totalFrames) + k,
                                                 events := old(events) + FrameEvents(frames[..k], now))
      {
        totalFrames := totalFrames + 1;
        assert FrameEvents(frames[..k + 1], now) == FrameEvents(frames[..k], now) + [FrameEvent(now, frames[k])];
        events := events + [FrameEvent(now, frames[k])];
        k := k + 1;
      }
      assert frames[..k] == frames;
    }
  }
}
