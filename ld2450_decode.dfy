/**
 * The HLK-LD2450 tracking-radar decoder: a scanner that finds 30-byte
 * report frames (header AA FF 03 00, tail 55 CC) in a byte buffer and
 * decodes three targets from each, and the stream decoder that carries the
 * unconsumed bytes from one chunk to the next.
 */
module Ld2450Decode {
  import opened Common
  import opened Js
  import opened ByteSearch

  const REPORT_HEADER: seq<byte> := [0xAA, 0xFF, 0x03, 0x00]
  const TAIL0: byte := 0x55
  const TAIL1: byte := 0xCC
  const FRAME_LEN: nat := 30
  const TARGETS: nat := 3
  const TARGET_STRIDE: nat := 8
  const DEFAULT_MAX_BUFFER_BYTES: real := 4096.0
  const DEFAULT_NOISE_LOG_THRESHOLD: real := 32.0

  // ------------------------------------------------------------------
  // Field decoding

  /** Sign-magnitude with bit 15 as the "positive" flag: set gives u - 0x8000, clear gives -u. */
  function DecodeSigned15PosBit(u: int): (v: int)
    requires 0 <= u < 0x1_0000
    ensures -0x8000 < v < 0x8000
    ensures u >= 0x8000 <==> v >= 0 && (v > 0 || u == 0x8000)
    ensures u >= 0x8000 ==> v == u - 0x8000
    ensures u < 0x8000 ==> v == -u
  {
    if u >= 0x8000 then u - 0x8000 else -u
  }

  /** How the radar writes a coordinate: bit 15 set for non-negative values. */
  function EncodeSigned15PosBit(v: int): (u: int)
    requires -0x8000 < v < 0x8000
    ensures 0 <= u < 0x1_0000
  {
    if v >= 0 then v + 0x8000 else -v
  }

  /** Decoding inverts the radar's encoding. */
  lemma DecodeEncode(v: int)
    requires -0x8000 < v < 0x8000
    ensures DecodeSigned15PosBit(EncodeSigned15PosBit(v)) == v
  {
  }

  /** Every raw word except 0 (a negative zero) is the encoding of its decoded value. */
  lemma EncodeDecode(u: int)
    requires 0 < u < 0x1_0000
    ensures EncodeSigned15PosBit(DecodeSigned15PosBit(u)) == u
  {
  }

  datatype Target = Target(id: int, xMm: int, yMm: int, speedCms: int, resolutionMm: int, valid: bool)

  /** isValidByRule: which fields make a target count as present. */
  function IsValidByRule(t: Target, rule: string): (b: bool)
  {
    if rule == "resolution" then t.resolutionMm != 0
    else if rule == "nonzeroXY" then t.xMm != 0 || t.yMm != 0
    else if rule == "either" then t.resolutionMm != 0 || t.xMm != 0 || t.yMm != 0
    else t.resolutionMm != 0
  }

  /** An unknown rule behaves as 'resolution', and 'either' is the union of the other two. */
  lemma ValidityRules(t: Target, rule: string)
    ensures rule !in {"resolution", "nonzeroXY", "either"} ==> IsValidByRule(t, rule) == IsValidByRule(t, "resolution")
    ensures IsValidByRule(t, "either") == (IsValidByRule(t, "resolution") || IsValidByRule(t, "nonzeroXY"))
    ensures IsValidByRule(t, "resolution") <==> t.resolutionMm != 0
    ensures IsValidByRule(t, "nonzeroXY") <==> t.xMm != 0 || t.yMm != 0
  {
  }

  /** The target whose four words start at base. */
  function TargetAt(buf: seq<byte>, base: nat, id: int, rule: string): Target
    requires base + 8 <= |buf|
  {
    var t := Target(id, DecodeSigned15PosBit(U16(buf, base)), DecodeSigned15PosBit(U16(buf, base + 2)),
                    DecodeSigned15PosBit(U16(buf, base + 4)), U16(buf, base + 6), false);
    t.(valid := IsValidByRule(t, rule))
  }

  datatype Frame = Frame(targets: seq<Target>, present: bool)

  /** targets.some((t) => t.valid) */
  predicate AnyValid(ts: seq<Target>)
  {
    exists k :: 0 <= k < |ts| && ts[k].valid
  }

  /** The three targets of the frame whose header is at h. */
  function FrameAt(buf: seq<byte>, h: nat, rule: string): Frame
    requires h + FRAME_LEN <= |buf|
  {
    var ts := seq(TARGETS, t requires 0 <= t < TARGETS => TargetAt(buf, h + 4 + t * TARGET_STRIDE, t + 1, rule));
    Frame(ts, AnyValid(ts))
  }

  /** A decoded frame: three targets numbered 1 to 3, present exactly when one is valid. */
  predicate WellFormed(f: Frame)
  {
    && |f.targets| == TARGETS
    && (forall t :: 0 <= t < TARGETS ==> f.targets[t].id == t + 1)
    && (f.present <==> AnyValid(f.targets))
  }

  /** Each frame has three targets, ids 1..3, the t-th read at h + 4 + 8t. */
  lemma FrameAtShape(buf: seq<byte>, h: nat, rule: string)
    requires h + FRAME_LEN <= |buf|
    ensures WellFormed(FrameAt(buf, h, rule))
    ensures forall t :: 0 <= t < TARGETS ==> FrameAt(buf, h, rule).targets[t] == TargetAt(buf, h + 4 + t * TARGET_STRIDE, t + 1, rule)
  {
  }

  /** Decodes the three targets of the frame at h, one after the other. */
  method DecodeFrame(buf: seq<byte>, h: nat, rule: string) returns (f: Frame)
    requires h + FRAME_LEN <= |buf|
    ensures f == FrameAt(buf, h, rule)
  {
    var targets: seq<Target> := [];
    var t := 0;
    while t < TARGETS
      invariant 0 <= t <= TARGETS
      invariant targets == seq(t, k requires 0 <= k < t => TargetAt(buf, h + 4 + k * TARGET_STRIDE, k + 1, rule))
    {
      var target := TargetAt(buf, h + 4 + t * TARGET_STRIDE, t + 1, rule);
      targets := targets + [target];
      t := t + 1;
    }
    var present := false;
    var k := 0;
    while k < |targets|
      invariant 0 <= k <= |targets|
      invariant present <==> exists j :: 0 <= j < k && targets[j].valid
    {
      present := present || targets[k].valid;
      k := k + 1;
    }
    f := Frame(targets, present);
  }

  // ------------------------------------------------------------------
  // The scanner

  datatype Stats = Stats(scannedBytes: nat, foundHeaders: nat, decodedFrames: nat, badFooters: nat)

  /** Where the scan found frames, and what it leaves over. */
  datatype Scanned = Scanned(offsets: seq<nat>, remainder: seq<byte>, droppedBytes: nat, stats: Stats)

  datatype Decoded = Decoded(frames: seq<Frame>, remainder: seq<byte>, droppedBytes: nat, stats: Stats)

  /** frames.length < maxFrames, with None standing for Infinity. */
  predicate Below(n: nat, maxFrames: Option<real>)
  {
    maxFrames.None? || (n as real) < maxFrames.value
  }

  /** Whether the bytes at h + 28 and h + 29 are the report tail. */
  predicate TailAt(buf: seq<byte>, h: nat)
    requires h + FRAME_LEN <= |buf|
  {
    buf[h + 28] == TAIL0 && buf[h + 29] == TAIL1
  }

  /** The loop variables of the scan: the cursor, the offsets of the frames decoded so far, droppedBytes and the stats. */
  datatype Cursor = Cursor(i: nat, offsets: seq<nat>, dropped: nat, stats: Stats)

  datatype Step = Done(result: Scanned) | Next(next: Cursor)

  /** The initial loop variables for buf. */
  function Start(buf: seq<byte>): Cursor
  {
    Cursor(0, [], 0, Stats(|buf|, 0, 0, 0))
  }

  /**
   * One iteration of the scanning loop, given where buf.indexOf(REPORT_HEADER, i)
   * found the next header: it returns, or moves the cursor forward.
   */
  function ScanStep(buf: seq<byte>, maxFrames: Option<real>, asWritten: bool, c: Cursor, found: Option<nat>): (st: Step)
    requires c.i <= |buf|
    requires found.Some? ==> c.i <= found.value <= |buf|
    ensures st.Next? ==> c.i < st.next.i <= |buf|
  {
    if !(c.i + |REPORT_HEADER| <= |buf| && Below(|c.offsets|, maxFrames)) then
      Done(Scanned(c.offsets, buf[c.i..], c.dropped, c.stats))
    else
      match found
      case None =>
        var keep := Min(|buf|, |REPORT_HEADER| - 1);
        Done(Scanned(c.offsets, buf[|buf| - keep..], if asWritten || |c.offsets| == 0 then |buf| - keep else c.dropped, c.stats))
      case Some(h) =>
        var st := c.stats.(foundHeaders := c.stats.foundHeaders + 1);
        if h + FRAME_LEN > |buf| then
          Done(Scanned(c.offsets, buf[h..], if |c.offsets| == 0 then h else c.dropped, st))
        else if !TailAt(buf, h) then
          Next(Cursor(h + 1, c.offsets, c.dropped, st.(badFooters := st.badFooters + 1)))
        else
          Next(Cursor(h + FRAME_LEN, c.offsets + [h], if |c.offsets| == 0 then h else c.dropped,
                      st.(decodedFrames := st.decodedFrames + 1)))
  }

  /** The scan from the loop variables c on. */
  function Scan(buf: seq<byte>, maxFrames: Option<real>, asWritten: bool, c: Cursor): Scanned
    requires c.i <= |buf|
    decreases |buf| - c.i
  {
    match ScanStep(buf, maxFrames, asWritten, c, IndexOfFrom(buf, REPORT_HEADER, c.i))
    case Done(r) => r
    case Next(c') => Scan(buf, maxFrames, asWritten, c')
  }

  /** The frames at the given header offsets. */
  function FramesAt(buf: seq<byte>, offsets: seq<nat>, rule: string): (fs: seq<Frame>)
    requires forall k :: 0 <= k < |offsets| ==> offsets[k] + FRAME_LEN <= |buf|
    ensures |fs| == |offsets|
    ensures forall k :: 0 <= k < |offsets| ==> fs[k] == FrameAt(buf, offsets[k], rule)
  {
    seq(|offsets|, k requires 0 <= k < |offsets| => FrameAt(buf, offsets[k], rule))
  }

  /** Every recorded offset starts a complete frame with its header and tail, and frames do not overlap. */
  predicate FrameOffsets(buf: seq<byte>, offsets: seq<nat>)
  {
    && (forall k :: 0 <= k < |offsets| ==>
          offsets[k] + FRAME_LEN <= |buf| && PatternAt(buf, offsets[k], REPORT_HEADER) && TailAt(buf, offsets[k]))
    && (forall k :: 0 < k < |offsets| ==> offsets[k - 1] + FRAME_LEN <= offsets[k])
  }

  /** What the loop keeps: decodedFrames counts the frames, and none is added once maxFrames are reached. */
  predicate Counted(buf: seq<byte>, maxFrames: Option<real>, offsets: seq<nat>, stats: Stats)
  {
    && FrameOffsets(buf, offsets)
    && stats.decodedFrames == |offsets| && stats.scannedBytes == |buf|
    && (maxFrames.Some? && |offsets| > 0 ==> ((|offsets| - 1) as real) < maxFrames.value)
  }

  predicate CursorOk(buf: seq<byte>, maxFrames: Option<real>, c: Cursor)
  {
    && c.i <= |buf|
    && Counted(buf, maxFrames, c.offsets, c.stats)
    && (|c.offsets| > 0 ==> c.offsets[|c.offsets| - 1] + FRAME_LEN <= c.i)
  }

  /** One iteration keeps the loop invariant, and a return keeps the frames found. */
  lemma StepKeeps(buf: seq<byte>, maxFrames: Option<real>, asWritten: bool, c: Cursor, found: Option<nat>)
    requires CursorOk(buf, maxFrames, c)
    requires found.Some? ==> c.i <= found.value && PatternAt(buf, found.value, REPORT_HEADER)
    ensures var st := ScanStep(buf, maxFrames, asWritten, c, found);
      && (st.Next? ==> CursorOk(buf, maxFrames, st.next))
      && (st.Done? ==> Counted(buf, maxFrames, st.result.offsets, st.result.stats))
  {
    if c.i + 4 <= |buf| && Below(|c.offsets|, maxFrames) && found.Some? {
      var h := found.value;
      if h + FRAME_LEN <= |buf| && TailAt(buf, h) {
        var o := c.offsets + [h];
        assert forall k :: 0 <= k < |c.offsets| ==> o[k] == c.offsets[k];
        assert FrameOffsets(buf, o);
      }
    }
  }

  /** The scan returns non-overlapping complete frames, counted in decodedFrames, and no more than maxFrames allow. */
  lemma {:induction false} ScanKeeps(buf: seq<byte>, maxFrames: Option<real>, asWritten: bool, c: Cursor)
    requires CursorOk(buf, maxFrames, c)
    ensures var r := Scan(buf, maxFrames, asWritten, c); Counted(buf, maxFrames, r.offsets, r.stats)
    decreases |buf| - c.i
  {
    IndexOfFromFinds(buf, REPORT_HEADER, c.i);
    StepKeeps(buf, maxFrames, asWritten, c, IndexOfFrom(buf, REPORT_HEADER, c.i));
    match ScanStep(buf, maxFrames, asWritten, c, IndexOfFrom(buf, REPORT_HEADER, c.i))
    case Done(_) =>
    case Next(c') => ScanKeeps(buf, maxFrames, asWritten, c');
  }

  /**
   * decodeLd2450TrackingFrames(buf, { maxFrames, validRule }), with
   * droppedBytes kept at the first frame's offset once a frame is decoded
   * (see DecodeAsWritten).
   */
  function Decode(buf: seq<byte>, maxFrames: Option<real>, rule: string): (r: Decoded)
    ensures r.stats.decodedFrames == |r.frames| && r.stats.scannedBytes == |buf|
    ensures maxFrames.Some? && |r.frames| > 0 ==> ((|r.frames| - 1) as real) < maxFrames.value
  {
    var sc := Scan(buf, maxFrames, false, Start(buf));
    ScanKeeps(buf, maxFrames, false, Start(buf));
    Decoded(FramesAt(buf, sc.offsets, rule), sc.remainder, sc.droppedBytes, sc.stats)
  }

  /**
   * decodeLd2450TrackingFrames as written: when no further header is found
   * it sets droppedBytes to all bytes before the kept remainder, frames
   * decoded earlier included.
   */
  function DecodeAsWritten(buf: seq<byte>, maxFrames: Option<real>, rule: string): (r: Decoded)
    ensures r.stats.decodedFrames == |r.frames| && r.stats.scannedBytes == |buf|
    ensures maxFrames.Some? && |r.frames| > 0 ==> ((|r.frames| - 1) as real) < maxFrames.value
  {
    var sc := Scan(buf, maxFrames, true, Start(buf));
    ScanKeeps(buf, maxFrames, true, Start(buf));
    Decoded(FramesAt(buf, sc.offsets, rule), sc.remainder, sc.droppedBytes, sc.stats)
  }

  /**
   * Every decoded frame is a complete report with the 55 CC tail and three
   * targets numbered 1 to 3; stats.decodedFrames counts the frames, and no
   * frame is decoded once maxFrames are reached.
   */
  lemma DecodeFacts(buf: seq<byte>, maxFrames: Option<real>, rule: string)
    ensures var r := Decode(buf, maxFrames, rule);
      && (forall k :: 0 <= k < |r.frames| ==> WellFormed(r.frames[k]))
      && r.stats.decodedFrames == |r.frames| && r.stats.scannedBytes == |buf|
      && (maxFrames.Some? && |r.frames| > 0 ==> ((|r.frames| - 1) as real) < maxFrames.value)
  {
    var sc := Scan(buf, maxFrames, false, Start(buf));
    ScanKeeps(buf, maxFrames, false, Start(buf));
    forall k | 0 <= k < |sc.offsets|
      ensures WellFormed(FrameAt(buf, sc.offsets[k], rule))
    {
      FrameAtShape(buf, sc.offsets[k], rule);
    }
  }

  /** droppedBytes is the offset of the first frame, once there is one. */
  predicate DroppedAtFirst(offsets: seq<nat>, dropped: nat)
  {
    offsets != [] ==> dropped == offsets[0]
  }

  lemma StepDropped(buf: seq<byte>, maxFrames: Option<real>, c: Cursor, found: Option<nat>)
    requires c.i <= |buf| && DroppedAtFirst(c.offsets, c.dropped)
    requires found.Some? ==> c.i <= found.value <= |buf|
    ensures var st := ScanStep(buf, maxFrames, false, c, found);
      && (st.Next? ==> DroppedAtFirst(st.next.offsets, st.next.dropped))
      && (st.Done? ==> DroppedAtFirst(st.result.offsets, st.result.droppedBytes))
  {
  }

  lemma {:induction false} ScanDropped(buf: seq<byte>, maxFrames: Option<real>, c: Cursor)
    requires c.i <= |buf| && DroppedAtFirst(c.offsets, c.dropped)
    ensures var r := Scan(buf, maxFrames, false, c); DroppedAtFirst(r.offsets, r.droppedBytes)
    decreases |buf| - c.i
  {
    StepDropped(buf, maxFrames, c, IndexOfFrom(buf, REPORT_HEADER, c.i));
    match ScanStep(buf, maxFrames, false, c, IndexOfFrom(buf, REPORT_HEADER, c.i))
    case Done(_) =>
    case Next(c') => ScanDropped(buf, maxFrames, c');
  }

  /** Once a frame is decoded, droppedBytes counts only the bytes before the first frame. */
  lemma DroppedBeforeFirstFrame(buf: seq<byte>, maxFrames: Option<real>)
    ensures var sc := Scan(buf, maxFrames, false, Start(buf));
      sc.offsets != [] ==> sc.droppedBytes == sc.offsets[0] && PatternAt(buf, sc.offsets[0], REPORT_HEADER)
  {
    ScanDropped(buf, maxFrames, Start(buf));
    ScanKeeps(buf, maxFrames, false, Start(buf));
  }

  /**
   * One report frame followed by five bytes without a header: as written,
   * droppedBytes is 32, the threshold of the noise event, though only two
   * bytes are dropped; the corrected decoder reports 0, the offset of the
   * frame.
   */
  lemma FrameThenNoise(buf: seq<byte>, maxFrames: Option<real>, rule: string)
    requires |buf| == FRAME_LEN + 5 && PatternAt(buf, 0, REPORT_HEADER) && TailAt(buf, 0) && Below(1, maxFrames)
    requires forall j :: FRAME_LEN <= j ==> !PatternAt(buf, j, REPORT_HEADER)
    ensures |DecodeAsWritten(buf, maxFrames, rule).frames| == 1 && DecodeAsWritten(buf, maxFrames, rule).droppedBytes == 32
    ensures |Decode(buf, maxFrames, rule).frames| == 1 && Decode(buf, maxFrames, rule).droppedBytes == 0
  {
    assert IndexOfFrom(buf, REPORT_HEADER, 0) == Some(0);
    IndexOfFromFinds(buf, REPORT_HEADER, FRAME_LEN);
    var c := GoodFrameAdvances(buf, maxFrames, true, Start(buf), 0);
    NoHeaderStops(buf, maxFrames, true, c);
    var d := GoodFrameAdvances(buf, maxFrames, false, Start(buf), 0);
    NoHeaderStops(buf, maxFrames, false, d);
  }

  /**
   * The scanning loop of decodeLd2450TrackingFrames: the result is the scan's,
   * with the frame decoded at each offset the scan records (so r is
   * Decode(buf, maxFrames, rule), by DecodeOf).
   */
  method DecodeTrackingFrames(buf: seq<byte>, maxFrames: Option<real>, rule: string)
    returns (r: Decoded, ghost offsets: seq<nat>)
    ensures forall k :: 0 <= k < |offsets| ==> offsets[k] + FRAME_LEN <= |buf|
    ensures Scan(buf, maxFrames, false, Start(buf)) == Scanned(offsets, r.remainder, r.droppedBytes, r.stats)
    ensures r.frames == FramesAt(buf, offsets, rule)
  {
    var frames: seq<Frame> := [];
    var c := Start(buf);
    while c.i + |REPORT_HEADER| <= |buf| && Below(|frames|, maxFrames)
      invariant c.i <= |buf| && |frames| == |c.offsets|
      invariant forall k :: 0 <= k < |c.offsets| ==> c.offsets[k] + FRAME_LEN <= |buf|
      invariant frames == FramesAt(buf, c.offsets, rule)
      invariant Scan(buf, maxFrames, false, c) == Scan(buf, maxFrames, false, Start(buf))
      decreases |buf| - c.i
    {
      var found := IndexOfFrom(buf, REPORT_HEADER, c.i);
      if found.None? {
        var keep := Min(|buf|, |REPORT_HEADER| - 1);
        r := Decoded(frames, buf[|buf| - keep..], if |frames| == 0 then |buf| - keep else c.dropped, c.stats);
        offsets := c.offsets;
        NoHeaderStops(buf, maxFrames, false, c);
        return;
      }
      var h := found.value;
      if h + FRAME_LEN > |buf| {
        IncompleteTail(buf, maxFrames, false, c, h);
        r := Decoded(frames, buf[h..], if |frames| == 0 then h else c.dropped, c.stats.(foundHeaders := c.stats.foundHeaders + 1));
        offsets := c.offsets;
        return;
      }
      c, frames := ConsumeHeader(buf, maxFrames, rule, c, frames, h);
    }
    LoopExitStops(buf, maxFrames, false, c);
    r := Decoded(frames, buf[c.i..], c.dropped, c.stats);
    offsets := c.offsets;
  }

  /**
   * The loop body for a header with room for a whole frame: without the tail
   * it counts a bad footer and resumes one byte on; with it, it decodes and
   * keeps the frame and resumes after it.
   */
  method ConsumeHeader(buf: seq<byte>, maxFrames: Option<real>, rule: string, c: Cursor, frames: seq<Frame>, h: nat)
    returns (c': Cursor, frames': seq<Frame>)
    requires c.i + 4 <= |buf| && Below(|c.offsets|, maxFrames)
    requires IndexOfFrom(buf, REPORT_HEADER, c.i) == Some(h) && h + FRAME_LEN <= |buf|
    requires forall k :: 0 <= k < |c.offsets| ==> c.offsets[k] + FRAME_LEN <= |buf|
    requires frames == FramesAt(buf, c.offsets, rule)
    ensures c.i < c'.i <= |buf| && |frames'| == |c'.offsets|
    ensures forall k :: 0 <= k < |c'.offsets| ==> c'.offsets[k] + FRAME_LEN <= |buf|
    ensures frames' == FramesAt(buf, c'.offsets, rule)
    ensures Scan(buf, maxFrames, false, c') == Scan(buf, maxFrames, false, c)
  {
    if buf[h + 28] != TAIL0 || buf[h + 29] != TAIL1 {
      ghost var next := BadFooterSkips(buf, maxFrames, false, c, h);
      c' := c.(i := h + 1, stats := c.stats.(foundHeaders := c.stats.foundHeaders + 1, badFooters := c.stats.badFooters + 1));
      frames' := frames;
      assert c' == next;
    } else {
      var frame := DecodeFrame(buf, h, rule);
      ghost var next := GoodFrameAdvances(buf, maxFrames, false, c, h);
      FramesAtAppend(buf, c.offsets, h, rule);
      c' := Cursor(h + FRAME_LEN, c.offsets + [h], if |frames| == 0 then h else c.dropped,
                   c.stats.(foundHeaders := c.stats.foundHeaders + 1, decodedFrames := c.stats.decodedFrames + 1));
      frames' := frames + [frame];
      assert c' == next;
    }
  }

  /** Decode in terms of the scan's result. */
  lemma DecodeOf(buf: seq<byte>, maxFrames: Option<real>, rule: string, sc: Scanned)
    requires Scan(buf, maxFrames, false, Start(buf)) == sc
    requires forall k :: 0 <= k < |sc.offsets| ==> sc.offsets[k] + FRAME_LEN <= |buf|
    ensures Decode(buf, maxFrames, rule) == Decoded(FramesAt(buf, sc.offsets, rule), sc.remainder, sc.droppedBytes, sc.stats)
  {
  }

  /** Appending one header offset appends its frame. */
  lemma FramesAtAppend(buf: seq<byte>, offsets: seq<nat>, h: nat, rule: string)
    requires forall k :: 0 <= k < |offsets| ==> offsets[k] + FRAME_LEN <= |buf|
    requires h + FRAME_LEN <= |buf|
    ensures FramesAt(buf, offsets + [h], rule) == FramesAt(buf, offsets, rule) + [FrameAt(buf, h, rule)]
  {
    var o := offsets + [h];
    assert forall k :: 0 <= k < |o| ==> o[k] + FRAME_LEN <= |buf|;
  }

  /** The scan stops, once the buffer is too short for a header or maxFrames frames are decoded. */
  lemma LoopExitStops(buf: seq<byte>, maxFrames: Option<real>, asWritten: bool, c: Cursor)
    requires c.i <= |buf|
    requires !(c.i + 4 <= |buf| && Below(|c.offsets|, maxFrames))
    ensures Scan(buf, maxFrames, asWritten, c) == Scanned(c.offsets, buf[c.i..], c.dropped, c.stats)
  {
  }

  /** Without a further header the scan stops and keeps only the last min(len, 3) bytes. */
  lemma NoHeaderStops(buf: seq<byte>, maxFrames: Option<real>, asWritten: bool, c: Cursor)
    requires c.i + 4 <= |buf| && Below(|c.offsets|, maxFrames)
    requires IndexOfFrom(buf, REPORT_HEADER, c.i) == None
    ensures var keep := Min(|buf|, 3);
      Scan(buf, maxFrames, asWritten, c)
        == Scanned(c.offsets, buf[|buf| - keep..], if asWritten || |c.offsets| == 0 then |buf| - keep else c.dropped, c.stats)
  {
  }

  /** A complete frame with its tail is recorded, and the scan resumes right after it. */
  lemma GoodFrameAdvances(buf: seq<byte>, maxFrames: Option<real>, asWritten: bool, c: Cursor, h: nat) returns (c': Cursor)
    requires c.i + 4 <= |buf| && Below(|c.offsets|, maxFrames)
    requires IndexOfFrom(buf, REPORT_HEADER, c.i) == Some(h) && h + FRAME_LEN <= |buf|
    requires buf[h + 28] == TAIL0 && buf[h + 29] == TAIL1
    ensures c' == Cursor(h + FRAME_LEN, c.offsets + [h], if |c.offsets| == 0 then h else c.dropped,
                         c.stats.(foundHeaders := c.stats.foundHeaders + 1, decodedFrames := c.stats.decodedFrames + 1))
    ensures c'.i <= |buf| && Scan(buf, maxFrames, asWritten, c) == Scan(buf, maxFrames, asWritten, c')
  {
    c' := Cursor(h + FRAME_LEN, c.offsets + [h], if |c.offsets| == 0 then h else c.dropped,
                 c.stats.(foundHeaders := c.stats.foundHeaders + 1, decodedFrames := c.stats.decodedFrames + 1));
    assert ScanStep(buf, maxFrames, asWritten, c, Some(h)) == Next(c');
  }

  /** Without any header the remainder is the last min(len, 3) bytes and the rest is dropped. */
  lemma NoHeader(buf: seq<byte>, maxFrames: Option<real>, rule: string)
    requires Below(0, maxFrames)
    requires forall j :: !PatternAt(buf, j, REPORT_HEADER)
    ensures var keep := Min(|buf|, 3);
      Decode(buf, maxFrames, rule) == Decoded([], buf[|buf| - keep..], |buf| - keep, Stats(|buf|, 0, 0, 0))
  {
    IndexOfFromFinds(buf, REPORT_HEADER, 0);
    if |buf| < 4 {
      assert buf[|buf| - Min(|buf|, 3)..] == buf[0..];
    }
  }

  /** A header too close to the end stops the scan; the remainder starts at that header. */
  lemma IncompleteTail(buf: seq<byte>, maxFrames: Option<real>, asWritten: bool, c: Cursor, h: nat)
    requires c.i + 4 <= |buf| && Below(|c.offsets|, maxFrames)
    requires IndexOfFrom(buf, REPORT_HEADER, c.i) == Some(h) && h + FRAME_LEN > |buf|
    ensures Scan(buf, maxFrames, asWritten, c) == Scanned(c.offsets, buf[h..], if |c.offsets| == 0 then h else c.dropped,
                                                          c.stats.(foundHeaders := c.stats.foundHeaders + 1))
  {
  }

  /** A header without the 55 CC tail is counted in badFooters, and the scan resumes one byte later. */
  lemma BadFooterSkips(buf: seq<byte>, maxFrames: Option<real>, asWritten: bool, c: Cursor, h: nat) returns (c': Cursor)
    requires c.i + 4 <= |buf| && Below(|c.offsets|, maxFrames)
    requires IndexOfFrom(buf, REPORT_HEADER, c.i) == Some(h) && h + FRAME_LEN <= |buf|
    requires buf[h + 28] != TAIL0 || buf[h + 29] != TAIL1
    ensures c' == c.(i := h + 1, stats := c.stats.(foundHeaders := c.stats.foundHeaders + 1,
                                                   badFooters := c.stats.badFooters + 1))
    ensures c'.i <= |buf| && Scan(buf, maxFrames, asWritten, c) == Scan(buf, maxFrames, asWritten, c')
  {
    c' := c.(i := h + 1, stats := c.stats.(foundHeaders := c.stats.foundHeaders + 1, badFooters := c.stats.badFooters + 1));
    assert ScanStep(buf, maxFrames, asWritten, c, Some(h)) == Next(c');
  }

  /** A buffer holding exactly one report frame decodes to that frame, with nothing left or dropped. */
  lemma SingleFrame(buf: seq<byte>, maxFrames: Option<real>, rule: string)
    requires |buf| == FRAME_LEN && PatternAt(buf, 0, REPORT_HEADER) && TailAt(buf, 0) && Below(0, maxFrames)
    ensures Decode(buf, maxFrames, rule) == Decoded([FrameAt(buf, 0, rule)], [], 0, Stats(FRAME_LEN, 1, 1, 0))
  {
    assert IndexOfFrom(buf, REPORT_HEADER, 0) == Some(0);
    var c := GoodFrameAdvances(buf, maxFrames, false, Start(buf), 0);
    LoopExitStops(buf, maxFrames, false, c);
  }

  // ------------------------------------------------------------------
  // The stream decoder

  datatype Options = Options(rule: string, maxFramesPerPush: Option<real>, maxBufferBytes: real,
                             noiseLogThreshold: real, emitStats: bool)

  /** The options createLd2450StreamDecoder reads, with their defaults. */
  function OptionsOf(opts: Value): (o: Options)
    ensures !opts.Obj? ==> o == Options("resolution", None, DEFAULT_MAX_BUFFER_BYTES, DEFAULT_NOISE_LOG_THRESHOLD, false)
  {
    Options(StringOr(Get(opts, "validRule"), "resolution"),
            FiniteOr(Get(opts, "maxFramesPerPush"), None),
            FiniteOr(Get(opts, "maxBufferBytes"), Some(DEFAULT_MAX_BUFFER_BYTES)).value,
            FiniteOr(Get(opts, "noiseLogThreshold"), Some(DEFAULT_NOISE_LOG_THRESHOLD)).value,
            Get(opts, "emitStats") == Bool(true))
  }

  /** getState() */
  datatype Totals = Totals(carryBytes: nat, totalFrames: nat, totalBadFooters: nat, totalDropped: nat)

  datatype Event =
    | InvalidChunk
    | OverflowDropAll(droppedBytes: nat)
    | OverflowDropPrefix(droppedBytes: nat)
    | DroppedNoise(droppedBytes: nat)
    | BadFooter(count: nat)
    | FrameEvent(ts: int, frame: Frame)
    | StatsEvent(ts: int, decodedFrames: nat, foundHeaders: nat, badFooters: nat, droppedBytes: nat,
                 carryBytes: nat, totals: Totals)

  datatype Stream = Stream(carry: seq<byte>, totalFrames: nat, totalBadFooters: nat, totalDropped: nat,
                           events: seq<Event>)

  /** The overflow guard: a carry beyond maxBufferBytes is cut at its last header, or dropped whole. */
  function Overflow(s: Stream, maxBufferBytes: real): (t: Stream)
    ensures t.totalFrames == s.totalFrames && t.totalBadFooters == s.totalBadFooters
    ensures (|s.carry| as real) <= maxBufferBytes ==> t == s
    ensures (|s.carry| as real) > maxBufferBytes ==>
      match LastIndexOf(s.carry, REPORT_HEADER)
      case None => t.carry == [] && t.totalDropped == s.totalDropped + |s.carry|
      case Some(h) => t.carry == s.carry[h..] && PatternAt(t.carry, 0, REPORT_HEADER) && t.totalDropped == s.totalDropped + h
  {
    if (|s.carry| as real) <= maxBufferBytes then s
    else
      match LastIndexOf(s.carry, REPORT_HEADER)
      case None => s.(carry := [], totalDropped := s.totalDropped + |s.carry|,
                      events := s.events + [OverflowDropAll(|s.carry|)])
      case Some(h) =>
        assert PatternAt(s.carry[h..], 0, REPORT_HEADER) by {
          assert forall k :: 0 <= k < 4 ==> s.carry[h..][k] == s.carry[h + k];
        }
        if h > 0 then s.(carry := s.carry[h..], totalDropped := s.totalDropped + h,
                         events := s.events + [OverflowDropPrefix(h)])
        else s
  }

  /** One FrameEvent per decoded frame, in order. */
  function FrameEvents(frames: seq<Frame>, ts: int): (es: seq<Event>)
    ensures |es| == |frames|
    ensures forall k :: 0 <= k < |frames| ==> es[k] == FrameEvent(ts, frames[k])
  {
    seq(|frames|, k requires 0 <= k < |frames| => FrameEvent(ts, frames[k]))
  }

  /** What the decoder result adds to the stream state, once the carry is long enough, step by step as push does it. */
  function Absorb(s: Stream, res: Decoded, o: Options, now: int): (t: Stream)
    ensures t.carry == res.remainder && t.totalFrames == s.totalFrames + |res.frames|
    ensures t.totalDropped == s.totalDropped + res.droppedBytes
    ensures t.totalBadFooters == s.totalBadFooters + res.stats.badFooters
  {
    var s1 := s.(totalDropped := s.totalDropped + res.droppedBytes);
    var s2 := if (res.droppedBytes as real) >= o.noiseLogThreshold
      then s1.(events := s1.events + [DroppedNoise(res.droppedBytes)]) else s1;
    var s3 := if res.stats.badFooters > 0
      then s2.(totalBadFooters := s2.totalBadFooters + res.stats.badFooters,
               events := s2.events + [BadFooter(res.stats.badFooters)])
      else s2;
    var s4 := s3.(totalFrames := s3.totalFrames + |res.frames|, events := s3.events + FrameEvents(res.frames, now));
    var s5 := if o.emitStats
      then s4.(events := s4.events + [StatsEvent(now, res.stats.decodedFrames, res.stats.foundHeaders,
                                                 res.stats.badFooters, res.droppedBytes, |res.remainder|,
                                                 Totals(|s4.carry|, s4.totalFrames, s4.totalBadFooters, s4.totalDropped))])
      else s4;
    s5.(carry := res.remainder)
  }

  /** push(chunk): None stands for an argument that is not a Buffer; now is the clock reading used for the events. */
  function PushStep(s: Stream, o: Options, chunk: Option<seq<byte>>, now: int): Stream
  {
    if chunk.None? then s.(events := s.events + [InvalidChunk])
    else
      var joined := s.(carry := s.carry + chunk.value);
      var t := Overflow(joined, o.maxBufferBytes);
      if (|joined.carry| as real) > o.maxBufferBytes && LastIndexOf(joined.carry, REPORT_HEADER).None? then t
      else if |t.carry| < FRAME_LEN then t
      else Absorb(t, Decode(t.carry, o.maxFramesPerPush, o.rule), o, now)
  }

  /**
   * After a push that reaches the decoder, the carry is exactly the
   * decoder's remainder, and the totals grow by the decoded frames and the
   * dropped bytes.
   */
  lemma PushCarriesRemainder(s: Stream, o: Options, chunk: seq<byte>, now: int)
    requires var t := Overflow(s.(carry := s.carry + chunk), o.maxBufferBytes);
      !((|s.carry + chunk| as real) > o.maxBufferBytes && LastIndexOf(s.carry + chunk, REPORT_HEADER).None?)
      && |t.carry| >= FRAME_LEN
    ensures var t := Overflow(s.(carry := s.carry + chunk), o.maxBufferBytes);
      var res := Decode(t.carry, o.maxFramesPerPush, o.rule);
      var u := PushStep(s, o, Some(chunk), now);
      && u.carry == res.remainder
      && u.totalFrames == s.totalFrames + |res.frames|
      && u.totalDropped == t.totalDropped + res.droppedBytes
      && u.totalBadFooters == s.totalBadFooters + res.stats.badFooters
  {
  }

  /** A carry beyond maxBufferBytes without any header is dropped whole and nothing is decoded. */
  lemma PushOverflowDropsAll(s: Stream, o: Options, chunk: seq<byte>, now: int)
    requires (|s.carry + chunk| as real) > o.maxBufferBytes
    requires forall j :: !PatternAt(s.carry + chunk, j, REPORT_HEADER)
    ensures var u := PushStep(s, o, Some(chunk), now);
      u.carry == [] && u.totalDropped == s.totalDropped + |s.carry + chunk| && u.totalFrames == s.totalFrames
      && u.events == s.events + [OverflowDropAll(|s.carry + chunk|)]
  {
  }

  /** The closure state of createLd2450StreamDecoder: the carry, the totals and what it emitted. */
  class StreamDecoder {
    const opts: Options
    var carry: seq<byte>
    var totalFrames: nat
    var totalBadFooters: nat
    var totalDropped: nat
    var events: seq<Event>

    function Snapshot(): Stream
      reads this
    {
      Stream(carry, totalFrames, totalBadFooters, totalDropped, events)
    }

    constructor (options: Value)
      ensures opts == OptionsOf(options)
      ensures Snapshot() == Stream([], 0, 0, 0, [])
    {
      opts := OptionsOf(options);
      carry := [];
      totalFrames := 0;
      totalBadFooters := 0;
      totalDropped := 0;
      events := [];
    }

    /** reset() empties the carry and keeps the totals. */
    method Reset()
      modifies this`carry
      ensures carry == []
    {
      carry := [];
    }

    /** getState() */
    function GetState(): (t: Totals)
      reads this
      ensures t.carryBytes == |carry|
    {
      Totals(|carry|, totalFrames, totalBadFooters, totalDropped)
    }

    /** push(chunk) */
    method Push(chunk: Option<seq<byte>>, now: int)
      modifies this
      ensures Snapshot() == PushStep(old(Snapshot()), opts, chunk, now)
    {
      if chunk.None? {
        events := events + [InvalidChunk];
        return;
      }
      ghost var joined := Snapshot().(carry := carry + chunk.value);
      carry := if |carry| == 0 then chunk.value else carry + chunk.value;
      assert Snapshot() == joined;
      var proceed := DropOverflow();
      if !proceed || |carry| < FRAME_LEN {
        return;
      }
      var res, offsets := DecodeTrackingFrames(carry, opts.maxFramesPerPush, opts.rule);
      DecodeOf(carry, opts.maxFramesPerPush, opts.rule, Scanned(offsets, res.remainder, res.droppedBytes, res.stats));
      Emit(res, now);
    }

    /**
     * The overflow guard of push: it returns false when the whole carry was
     * dropped and push returns.
     */
    method DropOverflow() returns (proceed: bool)
      modifies this
      ensures Snapshot() == Overflow(old(Snapshot()), opts.maxBufferBytes)
      ensures !proceed <==> (|old(carry)| as real) > opts.maxBufferBytes && LastIndexOf(old(carry), REPORT_HEADER).None?
    {
      proceed := true;
      if (|carry| as real) > opts.maxBufferBytes {
        var lastHeader := LastIndexOf(carry, REPORT_HEADER);
        if lastHeader.None? {
          totalDropped := totalDropped + |carry|;
          events := events + [OverflowDropAll(|carry|)];
          carry := [];
          proceed := false;
        } else if lastHeader.value > 0 {
          totalDropped := totalDropped + lastHeader.value;
          events := events + [OverflowDropPrefix(lastHeader.value)];
          carry := carry[lastHeader.value..];
        }
      }
    }

    /** What push does with the decoder result: the totals, the events, and the remainder as the new carry. */
    method Emit(res: Decoded, now: int)
      modifies this
      ensures Snapshot() == Absorb(old(Snapshot()), res, opts, now)
    {
      totalDropped := totalDropped + res.droppedBytes;
      if (res.droppedBytes as real) >= opts.noiseLogThreshold {
        events := events + [DroppedNoise(res.droppedBytes)];
      }
      if res.stats.badFooters > 0 {
        totalBadFooters := totalBadFooters + res.stats.badFooters;
        events := events + [BadFooter(res.stats.badFooters)];
      }
      EmitFrames(res.frames, now);
      if opts.emitStats {
        events := events + [StatsEvent(now, res.stats.decodedFrames, res.stats.foundHeaders, res.stats.badFooters,
                                       res.droppedBytes, |res.remainder|, GetState())];
      }
      carry := res.remainder;
    }

    /** The frame loop of push: one frame event per frame, each counted in totalFrames. */
    method EmitFrames(frames: seq<Frame>, now: int)
      modifies this
      ensures Snapshot() == old(Snapshot()).(totalFrames := old(totalFrames) + |frames|,
                                             events := old(events) + FrameEvents(frames, now))
    {
      var k := 0;
      while k < |frames|
        invariant 0 <= k <= |frames|
        invariant Snapshot() == old(Snapshot()).(totalFrames := old(totalFrames) + k,
                                                 events := old(events) + FrameEvents(frames[..k], now))
      {
        totalFrames := totalFrames + 1;
        assert FrameEvents(frames[..k + 1], now) == FrameEvents(frames[..k], now) + [FrameEvent(now, frames[k])];
        events := events + [FrameEvent(now, frames[k])];
        k := k + 1;
      }
      assert frames[..k] == frames;
    }
  }
}
