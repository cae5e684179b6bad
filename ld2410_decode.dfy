/**
 * The HLK-LD2410 presence-radar decoder: a scanner that finds report frames
 * (header F4 F3 F2 F1, a 16-bit payload length, the payload, tail F8 F7 F6
 * F5) in a byte buffer, checks the inner framing of the payload (AA after
 * the type byte, 55 00 at its end) and decodes the basic target fields and,
 * for engineering reports, the per-gate energies; and the stream decoder
 * that carries the unconsumed bytes from one chunk to the next.
 */
module Ld2410Decode {
  import opened Common
  import opened Js
  import opened ByteSearch

  const REPORT_HEADER: seq<byte> := [0xF4, 0xF3, 0xF2, 0xF1]
  const REPORT_TAIL: seq<byte> := [0xF8, 0xF7, 0xF6, 0xF5]
  const INNER_HEAD: byte := 0xAA
  const INNER_TAIL: byte := 0x55
  const INNER_CHECK: byte := 0x00
  const TYPE_ENGINEERING: byte := 0x01
  const TYPE_BASIC: byte := 0x02
  const BASIC_PAYLOAD_LEN: nat := 0x0D
  const ENGINEERING_PAYLOAD_LEN: nat := 0x23
  /** Header, length word, an empty payload and the tail. */
  const MIN_OUTER_LEN: nat := 12
  /** push hands the carry to the decoder once it holds this many bytes. */
  const MIN_DECODE_BYTES: nat := 10
  const DEFAULT_MAX_BUFFER_BYTES: real := 4096.0
  const DEFAULT_NOISE_LOG_THRESHOLD: real := 32.0

  // ------------------------------------------------------------------
  // Field decoding

  /** decodeTargetState: the name of a target-state byte. */
  function DecodeTargetState(v: byte): (s: string)
  {
    if v == 0 then "none"
    else if v == 1 then "moving"
    else if v == 2 then "stationary"
    else if v == 3 then "moving+stationary"
    else "unknown"
  }

  /** isPresentByState */
  predicate IsPresentByState(stateVal: byte)
  {
    stateVal != 0
  }

  /**
   * A target is present exactly when its state is not 'none'; the four
   * defined states have four different names, and every other byte is
   * 'unknown'.
   */
  lemma TargetStates(v: byte, w: byte)
    ensures IsPresentByState(v) <==> DecodeTargetState(v) != "none"
    ensures DecodeTargetState(v) == "unknown" <==> v > 3
    ensures v <= 3 && w <= 3 && v != w ==> DecodeTargetState(v) != DecodeTargetState(w)
  {
  }

  /** The name of the report type byte. */
  function KindOf(t: byte): string
  {
    if t == TYPE_ENGINEERING then "engineering" else if t == TYPE_BASIC then "basic" else "unknown"
  }

  datatype Target = Target(state: string, stateVal: byte, movingDistCm: int, movingEnergy: byte,
                           stationaryDistCm: int, stationaryEnergy: byte, detectionDistCm: int)

  /** The engineering block: the gate energies, or the parse error when they would run into the inner tail. */
  datatype Layout =
    | Gates(movingEnergies: seq<byte>, staticEnergies: seq<byte>, light: byte, outPin: byte)
    | LayoutError(parseError: string)

  datatype Engineering = Engineering(maxMovingGate: byte, maxStaticGate: byte, layout: Layout)

  datatype Frame = Frame(offset: nat, raw: Option<seq<byte>>, kind: string, target: Target, present: bool,
                         engineering: Option<Engineering>)

  /** The engineering block of a 35-byte payload p, read as the decoder reads it. */
  function EngineeringOf(p: seq<byte>): Engineering
    requires |p| == ENGINEERING_PAYLOAD_LEN
  {
    var mg := p[11];
    var sg := p[12];
    var movingCount := Max(0, mg as int + 1);
    var staticCount := Max(0, sg as int + 1);
    var staticStart := 13 + movingCount;
    var staticEnd := staticStart + staticCount;
    if staticEnd + 1 < |p| - 2 then
      Engineering(mg, sg, Gates(p[13..staticStart], p[staticStart..staticEnd], p[staticEnd], p[staticEnd + 1]))
    else
      Engineering(mg, sg, LayoutError("engineering_layout_out_of_bounds"))
  }

  /**
   * The energies are read only when the whole layout ends before the inner
   * tail, that is when maxMovingGate + maxStaticGate < 17; then there are
   * maxMovingGate + 1 moving and maxStaticGate + 1 static energies, read
   * from offset 13 on, followed by the light and out-pin bytes.
   */
  lemma EngineeringLayout(p: seq<byte>)
    requires |p| == ENGINEERING_PAYLOAD_LEN
    ensures var e := EngineeringOf(p); var mg := p[11] as int; var sg := p[12] as int;
      && e.maxMovingGate == p[11] && e.maxStaticGate == p[12]
      && (e.layout.Gates? <==> mg + sg < 17)
      && (e.layout.LayoutError? ==> e.layout.parseError == "engineering_layout_out_of_bounds")
      && (e.layout.Gates? ==>
            && |e.layout.movingEnergies| == mg + 1 && |e.layout.staticEnergies| == sg + 1
            && (forall k :: 0 <= k <= mg ==> e.layout.movingEnergies[k] == p[13 + k])
            && (forall k :: 0 <= k <= sg ==> e.layout.staticEnergies[k] == p[14 + mg + k])
            && e.layout.light == p[15 + mg + sg] && e.layout.outPin == p[16 + mg + sg]
            && 16 + mg + sg < ENGINEERING_PAYLOAD_LEN - 2)
  {
  }

  /** The engineering block, the energies collected one gate at a time. */
  method DecodeEngineering(p: seq<byte>) returns (e: Engineering)
    requires |p| == ENGINEERING_PAYLOAD_LEN
    ensures e == EngineeringOf(p)
  {
    var maxMovingGate := p[11];
    var maxStaticGate := p[12];
    var movingCount := Max(0, maxMovingGate as int + 1);
    var staticCount := Max(0, maxStaticGate as int + 1);
    var movingStart := 13;
    var staticStart := movingStart + movingCount;
    var staticEnd := staticStart + staticCount;
    var lightOff := staticEnd;
    var outPinOff := staticEnd + 1;
    if outPinOff < |p| - 2 {
      var movingEnergies: seq<byte> := [];
      var k := 0;
      while k < movingCount
        invariant 0 <= k <= movingCount
        invariant movingEnergies == p[movingStart..movingStart + k]
      {
        movingEnergies := movingEnergies + [p[movingStart + k]];
        k := k + 1;
      }
      var staticEnergies: seq<byte> := [];
      k := 0;
      while k < staticCount
        invariant 0 <= k <= staticCount
        invariant staticEnergies == p[staticStart..staticStart + k]
      {
        staticEnergies := staticEnergies + [p[staticStart + k]];
        k := k + 1;
      }
      e := Engineering(maxMovingGate, maxStaticGate, Gates(movingEnergies, staticEnergies, p[lightOff], p[outPinOff]));
    } else {
      e := Engineering(maxMovingGate, maxStaticGate, LayoutError("engineering_layout_out_of_bounds"));
    }
  }

  /** The payload length word of the frame whose header is at h. */
  function PayloadLen(buf: seq<byte>, h: nat): nat
    requires h + 6 <= |buf|
  {
    U16(buf, h + 4)
  }

  /** A complete frame of one of the two report lengths starts at h. */
  predicate Sized(buf: seq<byte>, h: nat)
  {
    && h + MIN_OUTER_LEN <= |buf|
    && (PayloadLen(buf, h) == BASIC_PAYLOAD_LEN || PayloadLen(buf, h) == ENGINEERING_PAYLOAD_LEN)
    && h + 10 + PayloadLen(buf, h) <= |buf|
  }

  /** The frame at h, built from its payload as the decoder builds it. */
  /** The frame with header offset h and payload p. */
  function FrameOf(h: nat, raw: Option<seq<byte>>, p: seq<byte>): (f: Frame)
    requires |p| == BASIC_PAYLOAD_LEN || |p| == ENGINEERING_PAYLOAD_LEN
    ensures f.offset == h && f.raw == raw
  {
    var stateVal := p[2];
    Frame(h, raw, KindOf(p[0]),
          Target(DecodeTargetState(stateVal), stateVal, U16(p, 3), p[5], U16(p, 6), p[8], U16(p, 9)),
          IsPresentByState(stateVal),
          if p[0] == TYPE_ENGINEERING && |p| == ENGINEERING_PAYLOAD_LEN then Some(EngineeringOf(p)) else None)
  }

  /** The frame at h, built from its payload as the decoder builds it. */
  function FrameAt(buf: seq<byte>, h: nat, includeRaw: bool): (f: Frame)
    requires Sized(buf, h)
    ensures f.offset == h
  {
    var len := PayloadLen(buf, h);
    FrameOf(h, if includeRaw then Some(buf[h..h + 10 + len]) else None, buf[h + 6..h + 6 + len])
  }

  /**
   * The fields of a frame sit at fixed offsets from its header: the type at
   * h + 6, the state at h + 8, the distances at h + 9, h + 12 and h + 15;
   * it is present exactly when the state byte is not zero, and it carries
   * an engineering block exactly when it is a 35-byte engineering report.
   */
  lemma FrameAtShape(buf: seq<byte>, h: nat, includeRaw: bool)
    requires Sized(buf, h)
    ensures var f := FrameAt(buf, h, includeRaw);
      && f.offset == h && f.kind == KindOf(buf[h + 6])
      && f.target.stateVal == buf[h + 8] && f.target.state == DecodeTargetState(buf[h + 8])
      && f.target.movingDistCm == U16(buf, h + 9) && f.target.movingEnergy == buf[h + 11]
      && f.target.stationaryDistCm == U16(buf, h + 12) && f.target.stationaryEnergy == buf[h + 14]
      && f.target.detectionDistCm == U16(buf, h + 15)
      && (f.present <==> buf[h + 8] != 0)
      && (f.engineering.Some? <==> buf[h + 6] == TYPE_ENGINEERING && PayloadLen(buf, h) == ENGINEERING_PAYLOAD_LEN)
      && (includeRaw <==> f.raw.Some?)
      && (f.raw.Some? ==> f.raw.value == buf[h..h + 10 + PayloadLen(buf, h)])
  {
  }

  /** Builds the frame at h from its payload, decoding the engineering block when there is one. */
  method DecodeFrame(buf: seq<byte>, h: nat, includeRaw: bool) returns (f: Frame)
    requires Sized(buf, h)
    ensures f == FrameAt(buf, h, includeRaw)
  {
    var len := PayloadLen(buf, h);
    var payload := buf[h + 6..h + 6 + len];
    var stateVal := payload[2];
    var target := Target(DecodeTargetState(stateVal), stateVal, U16(payload, 3), payload[5], U16(payload, 6),
                         payload[8], U16(payload, 9));
    f := Frame(h, if includeRaw then Some(buf[h..h + 10 + len]) else None, KindOf(payload[0]), target,
               IsPresentByState(stateVal), None);
    if payload[0] == TYPE_ENGINEERING && len == ENGINEERING_PAYLOAD_LEN {
      var e := DecodeEngineering(payload);
      f := f.(engineering := Some(e));
    }
  }

  // ------------------------------------------------------------------
  // The scanner

  datatype Stats = Stats(scannedBytes: nat, foundHeaders: nat, decodedFrames: nat, badFooters: nat,
                         badLengths: nat, badInner: nat)

  /** What decodeLd2410ReportFrames returns. */
  datatype Decoded = Decoded(frames: seq<Frame>, remainder: seq<byte>, droppedBytes: nat, stats: Stats)

  /** The options of decodeLd2410ReportFrames: maxFrames (None for Infinity) and includeRaw. */
  datatype DecodeOptions = DecodeOptions(maxFrames: Option<real>, includeRaw: bool)

  /** frames.length < maxFrames, with None standing for Infinity. */
  predicate Below(n: nat, maxFrames: Option<real>)
  {
    maxFrames.None? || (n as real) < maxFrames.value
  }

  /** The four bytes at t are the report tail, compared one by one as the decoder does. */
  predicate TailAt(buf: seq<byte>, t: nat)
    requires t + 4 <= |buf|
  {
    buf[t] == REPORT_TAIL[0] && buf[t + 1] == REPORT_TAIL[1] && buf[t + 2] == REPORT_TAIL[2] && buf[t + 3] == REPORT_TAIL[3]
  }

  /** The outcome of the checks on a header at h, in the order the decoder makes them. */
  datatype Verdict = Truncated | TailMismatch | InnerMismatch | LengthMismatch | Accepted

  function Classify(buf: seq<byte>, h: nat): (v: Verdict)
    requires h <= |buf|
    ensures v.Accepted? ==> Sized(buf, h)
  {
    if h + MIN_OUTER_LEN > |buf| then Truncated
    else
      var len := PayloadLen(buf, h);
      if h + 10 + len > |buf| then Truncated
      else if !TailAt(buf, h + 6 + len) then TailMismatch
      else if len < 2 || buf[h + 7] != INNER_HEAD then InnerMismatch
      else if len != BASIC_PAYLOAD_LEN && len != ENGINEERING_PAYLOAD_LEN then LengthMismatch
      else if buf[h + 4 + len] != INNER_TAIL || buf[h + 5 + len] != INNER_CHECK then InnerMismatch
      else Accepted
  }

  /**
   * A header is truncated exactly when its frame does not fit in the
   * buffer, and accepted exactly when the whole frame is in the buffer, the
   * outer tail follows the payload, and the payload has the AA inner head,
   * one of the two report lengths and the 55 00 inner tail.
   */
  lemma Verdicts(buf: seq<byte>, h: nat)
    requires h <= |buf|
    ensures Classify(buf, h).Truncated? <==> h + MIN_OUTER_LEN > |buf| || h + 10 + U16(buf, h + 4) > |buf|
    ensures Classify(buf, h).Accepted? <==>
      && Sized(buf, h)
      && TailAt(buf, h + 6 + PayloadLen(buf, h))
      && buf[h + 7] == INNER_HEAD
      && buf[h + 4 + PayloadLen(buf, h)] == INNER_TAIL && buf[h + 5 + PayloadLen(buf, h)] == INNER_CHECK
  {
  }

  /** A frame the decoder accepts at h: header, length, outer tail and inner framing. */
  predicate FrameOk(buf: seq<byte>, h: nat)
  {
    h <= |buf| && PatternAt(buf, h, REPORT_HEADER) && Classify(buf, h).Accepted?
  }

  /** The stats after a rejected header, each verdict counted in its own field. */
  function Reject(st: Stats, v: Verdict): (t: Stats)
    requires v.TailMismatch? || v.InnerMismatch? || v.LengthMismatch?
    ensures t.badFooters + t.badLengths + t.badInner == st.badFooters + st.badLengths + st.badInner + 1
    ensures t.scannedBytes == st.scannedBytes && t.foundHeaders == st.foundHeaders && t.decodedFrames == st.decodedFrames
  {
    match v
    case TailMismatch => st.(badFooters := st.badFooters + 1)
    case InnerMismatch => st.(badInner := st.badInner + 1)
    case LengthMismatch => st.(badLengths := st.badLengths + 1)
  }

  /** The loop variables of the scan: the cursor, the frames decoded so far, and the stats. */
  datatype Cursor = Cursor(i: nat, frames: seq<Frame>, stats: Stats)

  datatype Step = Done(result: Decoded) | Next(next: Cursor)

  /** The initial loop variables for buf. */
  function Start(buf: seq<byte>): Cursor
  {
    Cursor(0, [], Stats(|buf|, 0, 0, 0, 0, 0))
  }

  /** frames.length > 0 ? frames[0].offset : otherwise */
  function FirstOffsetOr(frames: seq<Frame>, otherwise: nat): nat
  {
    if |frames| > 0 then frames[0].offset else otherwise
  }

  /** The end of the frame whose header is at h. */
  function FrameEnd(buf: seq<byte>, h: nat): (e: nat)
    ensures e > h
  {
    if h + 6 <= |buf| then h + 10 + PayloadLen(buf, h) else h + 1
  }

  /**
   * One iteration of the scanning loop, given where buf.indexOf(REPORT_HEADER, i)
   * found the next header: it returns, or moves the cursor forward. With
   * asWritten the returns are those of the source; otherwise the
   * unscanned bytes are kept and droppedBytes never counts decoded frames
   * (see the findings in the README).
   */
  function ScanStep(buf: seq<byte>, o: DecodeOptions, asWritten: bool, c: Cursor, found: Option<nat>): (st: Step)
    requires c.i <= |buf|
    requires found.Some? ==> c.i <= found.value <= |buf|
    ensures st.Next? ==> c.i < st.next.i <= |buf|
  {
    if !(c.i + MIN_OUTER_LEN <= |buf| && Below(|c.frames|, o.maxFrames)) then
      Done(Decoded(c.frames, if asWritten then [] else buf[c.i..], FirstOffsetOr(c.frames, 0), c.stats))
    else
      match found
      case None =>
        if asWritten then Done(Decoded(c.frames, [], |buf|, c.stats))
        else
          var keep := Min(|buf|, |REPORT_HEADER| - 1);
          Done(Decoded(c.frames, buf[|buf| - keep..], FirstOffsetOr(c.frames, |buf| - keep), c.stats))
      case Some(h) =>
        var st := c.stats.(foundHeaders := c.stats.foundHeaders + 1);
        match Classify(buf, h)
        case Truncated => Done(Decoded(c.frames, buf[h..], if asWritten then h else FirstOffsetOr(c.frames, h), st))
        case Accepted =>
          Next(Cursor(FrameEnd(buf, h), c.frames + [FrameAt(buf, h, o.includeRaw)],
                      st.(decodedFrames := st.decodedFrames + 1)))
        case _ => Next(Cursor(h + 1, c.frames, Reject(st, Classify(buf, h))))
  }

  /** The scan from the loop variables c on. */
  function Scan(buf: seq<byte>, o: DecodeOptions, asWritten: bool, c: Cursor): Decoded
    requires c.i <= |buf|
    decreases |buf| - c.i
  {
    match ScanStep(buf, o, asWritten, c, IndexOfFrom(buf, REPORT_HEADER, c.i))
    case Done(r) => r
    case Next(c') => Scan(buf, o, asWritten, c')
  }

  /** Every frame starts an accepted frame and is the one decoded at its offset. */
  predicate FramesDecoded(buf: seq<byte>, includeRaw: bool, frames: seq<Frame>)
  {
    forall k :: 0 <= k < |frames| ==>
      FrameOk(buf, frames[k].offset) && frames[k] == FrameAt(buf, frames[k].offset, includeRaw)
  }

  /** Each frame ends before the next one starts. */
  predicate FramesApart(buf: seq<byte>, frames: seq<Frame>)
  {
    forall j, k :: 0 <= j < k < |frames| ==> FrameEnd(buf, frames[j].offset) <= frames[k].offset
  }

  predicate FramesOk(buf: seq<byte>, includeRaw: bool, frames: seq<Frame>)
  {
    FramesDecoded(buf, includeRaw, frames) && FramesApart(buf, frames)
  }

  /**
   * What the loop keeps: decodedFrames counts the frames, every header
   * found is either decoded or counted in one of the rejection counters
   * (or is the one that ended the scan), and no frame is added once
   * maxFrames are reached.
   */
  predicate Counted(buf: seq<byte>, o: DecodeOptions, frames: seq<Frame>, stats: Stats)
  {
    && FramesOk(buf, o.includeRaw, frames)
    && stats.decodedFrames == |frames| && stats.scannedBytes == |buf|
    && stats.decodedFrames + stats.badFooters + stats.badLengths + stats.badInner <= stats.foundHeaders
    && stats.foundHeaders <= stats.decodedFrames + stats.badFooters + stats.badLengths + stats.badInner + 1
    && (o.maxFrames.Some? && |frames| > 0 ==> ((|frames| - 1) as real) < o.maxFrames.value)
  }

  predicate CursorOk(buf: seq<byte>, o: DecodeOptions, c: Cursor)
  {
    && c.i <= |buf|
    && Counted(buf, o, c.frames, c.stats)
    && c.stats.foundHeaders == c.stats.decodedFrames + c.stats.badFooters + c.stats.badLengths + c.stats.badInner
    && (|c.frames| > 0 ==> FrameEnd(buf, c.frames[|c.frames| - 1].offset) <= c.i)
  }

  /** The frame decoded at an accepted header extends a list of decoded frames. */
  lemma FramesDecodedAppend(buf: seq<byte>, includeRaw: bool, frames: seq<Frame>, h: nat)
    requires FramesDecoded(buf, includeRaw, frames) && FrameOk(buf, h)
    ensures FramesDecoded(buf, includeRaw, frames + [FrameAt(buf, h, includeRaw)])
  {
    var fs := frames + [FrameAt(buf, h, includeRaw)];
    assert forall k :: 0 <= k < |frames| ==> fs[k] == frames[k];
  }

  /** A frame at or after the end of the last one keeps the frames apart. */
  lemma FramesApartAppend(buf: seq<byte>, frames: seq<Frame>, f: Frame)
    requires FramesApart(buf, frames)
    requires |frames| > 0 ==> FrameEnd(buf, frames[|frames| - 1].offset) <= f.offset
    ensures FramesApart(buf, frames + [f])
  {
    var fs := frames + [f];
    forall j, k | 0 <= j < k < |fs|
      ensures FrameEnd(buf, fs[j].offset) <= fs[k].offset
    {
      if k == |frames| && j < |frames| - 1 {
        assert FrameEnd(buf, frames[j].offset) <= frames[|frames| - 1].offset;
      }
    }
  }

  /** Recording an accepted frame at or after the cursor keeps the loop invariant. */
  lemma AppendKeeps(buf: seq<byte>, o: DecodeOptions, c: Cursor, h: nat)
    requires CursorOk(buf, o, c) && c.i <= h && FrameOk(buf, h) && Below(|c.frames|, o.maxFrames)
    ensures CursorOk(buf, o, Cursor(FrameEnd(buf, h), c.frames + [FrameAt(buf, h, o.includeRaw)],
                                    c.stats.(foundHeaders := c.stats.foundHeaders + 1,
                                             decodedFrames := c.stats.decodedFrames + 1)))
  {
    FramesDecodedAppend(buf, o.includeRaw, c.frames, h);
    FramesApartAppend(buf, c.frames, FrameAt(buf, h, o.includeRaw));
  }

  /** Counting a rejected header at or after the cursor keeps the loop invariant. */
  lemma RejectKeeps(buf: seq<byte>, o: DecodeOptions, c: Cursor, h: nat, v: Verdict)
    requires CursorOk(buf, o, c) && c.i <= h < |buf|
    requires v.TailMismatch? || v.InnerMismatch? || v.LengthMismatch?
    ensures CursorOk(buf, o, Cursor(h + 1, c.frames, Reject(c.stats.(foundHeaders := c.stats.foundHeaders + 1), v)))
  {
  }

  /**
   * The scan returns non-overlapping accepted frames, counted in
   * decodedFrames, and no more than maxFrames allow; every header it found
   * was decoded or counted once as a bad footer, length or inner framing,
   * except possibly the last one.
   */
  lemma {:induction false} ScanKeeps(buf: seq<byte>, o: DecodeOptions, asWritten: bool, c: Cursor)
    requires CursorOk(buf, o, c)
    ensures var r := Scan(buf, o, asWritten, c); Counted(buf, o, r.frames, r.stats)
    decreases |buf| - c.i
  {
    if !(c.i + MIN_OUTER_LEN <= |buf| && Below(|c.frames|, o.maxFrames)) {
      LoopExitStops(buf, o, asWritten, c);
    } else {
      IndexOfFromFinds(buf, REPORT_HEADER, c.i);
      match IndexOfFrom(buf, REPORT_HEADER, c.i)
      case None => NoHeaderStops(buf, o, asWritten, c);
      case Some(h) =>
        match Classify(buf, h)
        case Truncated => TruncatedStops(buf, o, asWritten, c, h);
        case Accepted =>
          var c' := AcceptAdvances(buf, o, asWritten, c, h);
          AppendKeeps(buf, o, c, h);
          ScanKeeps(buf, o, asWritten, c');
        case _ =>
          var c' := RejectSkips(buf, o, asWritten, c, h);
          RejectKeeps(buf, o, c, h, Classify(buf, h));
          ScanKeeps(buf, o, asWritten, c');
    }
  }

  /**
   * decodeLd2410ReportFrames(buf, { maxFrames, includeRaw }), with the
   * unscanned bytes kept as the remainder and droppedBytes counting only
   * bytes before the first frame (see DecodeAsWritten).
   */
  function Decode(buf: seq<byte>, maxFrames: Option<real>, includeRaw: bool): (r: Decoded)
    ensures r.stats.decodedFrames == |r.frames| && r.stats.scannedBytes == |buf|
    ensures maxFrames.Some? && |r.frames| > 0 ==> ((|r.frames| - 1) as real) < maxFrames.value
  {
    ScanKeeps(buf, DecodeOptions(maxFrames, includeRaw), false, Start(buf));
    Scan(buf, DecodeOptions(maxFrames, includeRaw), false, Start(buf))
  }

  /**
   * decodeLd2410ReportFrames as written: the loop exit and a search
   * without a further header return an empty remainder, and droppedBytes
   * counts decoded frames when the scan stops after them.
   */
  function DecodeAsWritten(buf: seq<byte>, maxFrames: Option<real>, includeRaw: bool): (r: Decoded)
    ensures r.stats.decodedFrames == |r.frames| && r.stats.scannedBytes == |buf|
    ensures maxFrames.Some? && |r.frames| > 0 ==> ((|r.frames| - 1) as real) < maxFrames.value
  {
    ScanKeeps(buf, DecodeOptions(maxFrames, includeRaw), true, Start(buf));
    Scan(buf, DecodeOptions(maxFrames, includeRaw), true, Start(buf))
  }

  /**
   * Every decoded frame starts with the report header, passed all four
   * checks and is decoded from its own offset; frames do not overlap;
   * decodedFrames counts them, each other header found is counted once as a
   * bad footer, length or inner framing (but the one that ended the scan),
   * and no frame is decoded once maxFrames are reached.
   */
  lemma DecodeFacts(buf: seq<byte>, maxFrames: Option<real>, includeRaw: bool)
    ensures var r := Decode(buf, maxFrames, includeRaw);
      && (forall k :: 0 <= k < |r.frames| ==>
            FrameOk(buf, r.frames[k].offset) && r.frames[k] == FrameAt(buf, r.frames[k].offset, includeRaw))
      && (forall j, k :: 0 <= j < k < |r.frames| ==> FrameEnd(buf, r.frames[j].offset) <= r.frames[k].offset)
      && r.stats.decodedFrames == |r.frames| && r.stats.scannedBytes == |buf|
      && r.stats.decodedFrames + r.stats.badFooters + r.stats.badLengths + r.stats.badInner <= r.stats.foundHeaders
      && r.stats.foundHeaders <= r.stats.decodedFrames + r.stats.badFooters + r.stats.badLengths + r.stats.badInner + 1
      && (maxFrames.Some? && |r.frames| > 0 ==> ((|r.frames| - 1) as real) < maxFrames.value)
  {
    ScanKeeps(buf, DecodeOptions(maxFrames, includeRaw), false, Start(buf));
  }

  lemma {:induction false} ScanDropped(buf: seq<byte>, o: DecodeOptions, c: Cursor)
    requires c.i <= |buf|
    ensures var r := Scan(buf, o, false, c);
      && (|c.frames| > 0 ==> |r.frames| > 0 && r.frames[0] == c.frames[0])
      && (|r.frames| > 0 ==> r.droppedBytes == r.frames[0].offset)
    decreases |buf| - c.i
  {
    match ScanStep(buf, o, false, c, IndexOfFrom(buf, REPORT_HEADER, c.i))
    case Done(_) =>
    case Next(c') => ScanDropped(buf, o, c');
  }

  /** Once a frame is decoded, droppedBytes counts only the bytes before the first frame, whichever way the scan ends. */
  lemma DroppedBeforeFirstFrame(buf: seq<byte>, maxFrames: Option<real>, includeRaw: bool)
    ensures var r := Decode(buf, maxFrames, includeRaw);
      |r.frames| > 0 ==> r.droppedBytes == r.frames[0].offset && FrameOk(buf, r.frames[0].offset)
  {
    ScanDropped(buf, DecodeOptions(maxFrames, includeRaw), Start(buf));
    ScanKeeps(buf, DecodeOptions(maxFrames, includeRaw), false, Start(buf));
  }

  /**
   * One pass of the scanning loop's body from cursor i: the search for the
   * next header and its checks. It either returns the result (done) or
   * moves the loop variables on.
   */
  method ScanOnce(buf: seq<byte>, maxFrames: Option<real>, includeRaw: bool, i: nat, frames: seq<Frame>, stats: Stats)
    returns (done: bool, r: Decoded, i': nat, frames': seq<Frame>, stats': Stats)
    requires i + MIN_OUTER_LEN <= |buf| && Below(|frames|, maxFrames)
    ensures !done ==> i < i' <= |buf|
    ensures done ==> Scan(buf, DecodeOptions(maxFrames, includeRaw), false, Cursor(i, frames, stats)) == r
    ensures !done ==> Scan(buf, DecodeOptions(maxFrames, includeRaw), false, Cursor(i, frames, stats))
                      == Scan(buf, DecodeOptions(maxFrames, includeRaw), false, Cursor(i', frames', stats'))
  {
    ghost var o := DecodeOptions(maxFrames, includeRaw);
    ghost var c := Cursor(i, frames, stats);
    done, i', frames', stats' := true, i, frames, stats;
    var found := IndexOfFrom(buf, REPORT_HEADER, i);
    if found.None? {
      var keep := Min(|buf|, |REPORT_HEADER| - 1);
      NoHeaderStops(buf, o, false, c);
      r := Decoded(frames, buf[|buf| - keep..], if |frames| > 0 then frames[0].offset else |buf| - keep, stats);
      return;
    }
    var h := found.value;
    stats' := stats.(foundHeaders := stats.foundHeaders + 1);
    var verdict := Classify(buf, h);
    match verdict
    case Truncated =>
      TruncatedStops(buf, o, false, c, h);
      r := Decoded(frames, buf[h..], if |frames| > 0 then frames[0].offset else h, stats');
    case Accepted =>
      var frame := DecodeFrame(buf, h, includeRaw);
      ghost var c' := AcceptAdvances(buf, o, false, c, h);
      done, r := false, Decoded([], [], 0, stats');
      frames' := frames + [frame];
      stats' := stats'.(decodedFrames := stats'.decodedFrames + 1);
      i' := FrameEnd(buf, h);
    case _ =>
      // a bad footer, inner framing or length: its own counter, and the search resumes one byte on
      ghost var c' := RejectSkips(buf, o, false, c, h);
      done, r := false, Decoded([], [], 0, stats');
      stats' := Reject(stats', verdict);
      i' := h + 1;
  }

  /** The scanning loop of decodeLd2410ReportFrames, with the corrected returns. */
  method DecodeReportFrames(buf: seq<byte>, maxFrames: Option<real>, includeRaw: bool) returns (r: Decoded)
    ensures r == Decode(buf, maxFrames, includeRaw)
  {
    var frames: seq<Frame> := [];
    var stats := Stats(|buf|, 0, 0, 0, 0, 0);
    var i: nat := 0;
    while i + MIN_OUTER_LEN <= |buf| && Below(|frames|, maxFrames)
      invariant i <= |buf|
      invariant Scan(buf, DecodeOptions(maxFrames, includeRaw), false, Cursor(i, frames, stats)) == Decode(buf, maxFrames, includeRaw)
      decreases |buf| - i
    {
      var done;
      done, r, i, frames, stats := ScanOnce(buf, maxFrames, includeRaw, i, frames, stats);
      if done {
        return;
      }
    }
    LoopExitStops(buf, DecodeOptions(maxFrames, includeRaw), false, Cursor(i, frames, stats));
    r := Decoded(frames, buf[i..], if |frames| > 0 then frames[0].offset else 0, stats);
  }

  /**
   * The scan stops once fewer than 12 bytes are left or maxFrames frames
   * are decoded: as written it keeps nothing, corrected it keeps every byte
   * from the cursor on; droppedBytes is the first frame's offset, or 0.
   */
  lemma LoopExitStops(buf: seq<byte>, o: DecodeOptions, asWritten: bool, c: Cursor)
    requires c.i <= |buf|
    requires !(c.i + MIN_OUTER_LEN <= |buf| && Below(|c.frames|, o.maxFrames))
    ensures Scan(buf, o, asWritten, c)
      == Decoded(c.frames, if asWritten then [] else buf[c.i..], if |c.frames| > 0 then c.frames[0].offset else 0, c.stats)
  {
  }

  /**
   * Without a further header the scan stops: as written with nothing kept
   * and the whole buffer counted as dropped; corrected it keeps the last
   * min(len, 3) bytes, which may begin a header.
   */
  lemma NoHeaderStops(buf: seq<byte>, o: DecodeOptions, asWritten: bool, c: Cursor)
    requires c.i + MIN_OUTER_LEN <= |buf| && Below(|c.frames|, o.maxFrames)
    requires IndexOfFrom(buf, REPORT_HEADER, c.i) == None
    ensures var keep := Min(|buf|, 3);
      Scan(buf, o, asWritten, c)
        == if asWritten then Decoded(c.frames, [], |buf|, c.stats)
           else Decoded(c.frames, buf[|buf| - keep..], if |c.frames| > 0 then c.frames[0].offset else |buf| - keep, c.stats)
  {
  }

  /**
   * A header whose frame does not fit in the buffer stops the scan: the
   * remainder starts at that header, which counts as found.
   */
  lemma TruncatedStops(buf: seq<byte>, o: DecodeOptions, asWritten: bool, c: Cursor, h: nat)
    requires c.i + MIN_OUTER_LEN <= |buf| && Below(|c.frames|, o.maxFrames)
    requires IndexOfFrom(buf, REPORT_HEADER, c.i) == Some(h) && Classify(buf, h).Truncated?
    ensures Scan(buf, o, asWritten, c)
      == Decoded(c.frames, buf[h..], if asWritten || |c.frames| == 0 then h else c.frames[0].offset,
                 c.stats.(foundHeaders := c.stats.foundHeaders + 1))
  {
  }

  /**
   * A header rejected by the tail, inner-framing or length check is
   * counted in exactly one of badFooters, badInner and badLengths, and the
   * scan resumes one byte later.
   */
  lemma RejectSkips(buf: seq<byte>, o: DecodeOptions, asWritten: bool, c: Cursor, h: nat) returns (c': Cursor)
    requires c.i + MIN_OUTER_LEN <= |buf| && Below(|c.frames|, o.maxFrames)
    requires IndexOfFrom(buf, REPORT_HEADER, c.i) == Some(h)
    requires var v := Classify(buf, h); v.TailMismatch? || v.InnerMismatch? || v.LengthMismatch?
    ensures c' == Cursor(h + 1, c.frames, Reject(c.stats.(foundHeaders := c.stats.foundHeaders + 1), Classify(buf, h)))
    ensures c.i < c'.i <= |buf| && Scan(buf, o, asWritten, c) == Scan(buf, o, asWritten, c')
  {
    c' := Cursor(h + 1, c.frames, Reject(c.stats.(foundHeaders := c.stats.foundHeaders + 1), Classify(buf, h)));
    assert ScanStep(buf, o, asWritten, c, Some(h)) == Next(c');
  }

  /** An accepted frame is decoded and recorded, and the scan resumes right after it. */
  lemma AcceptAdvances(buf: seq<byte>, o: DecodeOptions, asWritten: bool, c: Cursor, h: nat) returns (c': Cursor)
    requires c.i + MIN_OUTER_LEN <= |buf| && Below(|c.frames|, o.maxFrames)
    requires IndexOfFrom(buf, REPORT_HEADER, c.i) == Some(h) && Classify(buf, h).Accepted?
    ensures c' == Cursor(FrameEnd(buf, h), c.frames + [FrameAt(buf, h, o.includeRaw)],
                         c.stats.(foundHeaders := c.stats.foundHeaders + 1, decodedFrames := c.stats.decodedFrames + 1))
    ensures c.i < c'.i <= |buf| && Scan(buf, o, asWritten, c) == Scan(buf, o, asWritten, c')
  {
    c' := Cursor(FrameEnd(buf, h), c.frames + [FrameAt(buf, h, o.includeRaw)],
                 c.stats.(foundHeaders := c.stats.foundHeaders + 1, decodedFrames := c.stats.decodedFrames + 1));
    assert ScanStep(buf, o, asWritten, c, Some(h)) == Next(c');
  }

  /**
   * A buffer that starts with an accepted frame and then either holds
   * fewer than 12 more bytes or reaches maxFrames: as written the bytes
   * after the frame are discarded, corrected they are the remainder, so a
   * frame split across two chunks, or beyond maxFramesPerPush, survives.
   */
  lemma FirstFrameThenRest(buf: seq<byte>, maxFrames: Option<real>, includeRaw: bool)
    requires FrameOk(buf, 0) && Below(0, maxFrames)
    requires |buf| < FrameEnd(buf, 0) + MIN_OUTER_LEN || !Below(1, maxFrames)
    ensures var r := Decode(buf, maxFrames, includeRaw);
      r.frames == [FrameAt(buf, 0, includeRaw)] && r.remainder == buf[FrameEnd(buf, 0)..] && r.droppedBytes == 0
    ensures var r := DecodeAsWritten(buf, maxFrames, includeRaw);
      r.frames == [FrameAt(buf, 0, includeRaw)] && r.remainder == [] && r.droppedBytes == 0
  {
    var o := DecodeOptions(maxFrames, includeRaw);
    assert IndexOfFrom(buf, REPORT_HEADER, 0) == Some(0);
    var c := AcceptAdvances(buf, o, false, Start(buf), 0);
    LoopExitStops(buf, o, false, c);
    c := AcceptAdvances(buf, o, true, Start(buf), 0);
    LoopExitStops(buf, o, true, c);
  }

  /**
   * A buffer of at least 12 bytes without a header that ends in F4 F3 F2,
   * the start of a header whose last byte is still to come: as written all
   * is discarded and counted as dropped; corrected those three bytes are
   * kept for the next chunk.
   */
  lemma HeaderPrefixKept(buf: seq<byte>, maxFrames: Option<real>, includeRaw: bool)
    requires |buf| >= MIN_OUTER_LEN && Below(0, maxFrames)
    requires forall j :: !PatternAt(buf, j, REPORT_HEADER)
    requires buf[|buf| - 3..] == REPORT_HEADER[..3]
    ensures var r := Decode(buf, maxFrames, includeRaw);
      r.frames == [] && r.remainder == REPORT_HEADER[..3] && r.droppedBytes == |buf| - 3
    ensures var r := DecodeAsWritten(buf, maxFrames, includeRaw);
      r.frames == [] && r.remainder == [] && r.droppedBytes == |buf|
  {
    var o := DecodeOptions(maxFrames, includeRaw);
    IndexOfFromFinds(buf, REPORT_HEADER, 0);
    NoHeaderStops(buf, o, false, Start(buf));
    NoHeaderStops(buf, o, true, Start(buf));
  }

  /**
   * An accepted frame at 0 followed by a header whose frame is incomplete:
   * as written droppedBytes is that header's offset, counting the decoded
   * frame as dropped; corrected it is 0.
   */
  lemma FrameThenTruncated(buf: seq<byte>, maxFrames: Option<real>, includeRaw: bool)
    requires FrameOk(buf, 0) && Below(1, maxFrames)
    requires var n := FrameEnd(buf, 0);
      n + MIN_OUTER_LEN <= |buf| && PatternAt(buf, n, REPORT_HEADER) && n + 10 + U16(buf, n + 4) > |buf|
    ensures var r := Decode(buf, maxFrames, includeRaw);
      |r.frames| == 1 && r.droppedBytes == 0 && r.remainder == buf[FrameEnd(buf, 0)..]
    ensures var r := DecodeAsWritten(buf, maxFrames, includeRaw);
      |r.frames| == 1 && r.droppedBytes == FrameEnd(buf, 0) && r.remainder == buf[FrameEnd(buf, 0)..]
  {
    var o := DecodeOptions(maxFrames, includeRaw);
    var n := FrameEnd(buf, 0);
    assert IndexOfFrom(buf, REPORT_HEADER, 0) == Some(0);
    assert IndexOfFrom(buf, REPORT_HEADER, n) == Some(n);
    var c := AcceptAdvances(buf, o, false, Start(buf), 0);
    TruncatedStops(buf, o, false, c, n);
    c := AcceptAdvances(buf, o, true, Start(buf), 0);
    TruncatedStops(buf, o, true, c, n);
  }

  // ------------------------------------------------------------------
  // The stream decoder

  datatype Options = Options(includeRaw: bool, maxFramesPerPush: Option<real>, maxBufferBytes: real,
                             noiseLogThreshold: real, emitStats: bool)

  /** The options createLd2410StreamDecoder reads, with their defaults. */
  function OptionsOf(opts: Value): (o: Options)
    ensures !opts.Obj? ==> o == Options(false, None, DEFAULT_MAX_BUFFER_BYTES, DEFAULT_NOISE_LOG_THRESHOLD, false)
    ensures o.includeRaw <==> Get(opts, "includeRaw") == Bool(true)
  {
    Options(Get(opts, "includeRaw") == Bool(true),
            FiniteOr(Get(opts, "maxFramesPerPush"), None),
            FiniteOr(Get(opts, "maxBufferBytes"), Some(DEFAULT_MAX_BUFFER_BYTES)).value,
            FiniteOr(Get(opts, "noiseLogThreshold"), Some(DEFAULT_NOISE_LOG_THRESHOLD)).value,
            Get(opts, "emitStats") == Bool(true))
  }

  /** getState() */
  datatype Totals = Totals(carryBytes: nat, totalFrames: nat, totalBadFooters: nat, totalBadLengths: nat,
                           totalBadInner: nat, totalDropped: nat)

  datatype Event =
    | InvalidChunk
    | OverflowDropAll(droppedBytes: nat)
    | OverflowDropPrefix(droppedBytes: nat)
    | DroppedNoise(droppedBytes: nat)
    | BadFooter(count: nat)
    | BadLength(count: nat)
    | BadInner(count: nat)
    | FrameEvent(ts: int, frame: Frame)
    | StatsEvent(ts: int, stats: Stats, droppedBytes: nat, carryBytes: nat, totals: Totals)

  datatype Stream = Stream(carry: seq<byte>, totalFrames: nat, totalBadFooters: nat, totalBadLengths: nat,
                           totalBadInner: nat, totalDropped: nat, events: seq<Event>)

  /** The totals getState() reports for s. */
  function TotalsOf(s: Stream): Totals
  {
    Totals(|s.carry|, s.totalFrames, s.totalBadFooters, s.totalBadLengths, s.totalBadInner, s.totalDropped)
  }

  /** The overflow guard: a carry beyond maxBufferBytes is cut at its last header, or dropped whole. */
  function Overflow(s: Stream, maxBufferBytes: real): (t: Stream)
    ensures t.totalFrames == s.totalFrames && t.totalBadFooters == s.totalBadFooters
    ensures t.totalBadLengths == s.totalBadLengths && t.totalBadInner == s.totalBadInner
    ensures (|s.carry| as real) <= maxBufferBytes ==> t == s
    ensures (|s.carry| as real) > maxBufferBytes ==>
      match LastIndexOf(s.carry, REPORT_HEADER)
      case None => t.carry == [] && t.totalDropped == s.totalDropped + |s.carry|
      case Some(h) => t.carry == s.carry[h..] && PatternAt(t.carry, 0, REPORT_HEADER) && t.totalDropped == s.totalDropped + h
  {
    if (|s.carry| as real) <= maxBufferBytes then s
    else
      match LastIndexOf(s.carry, REPORT_HEADER)
      case None => s.(carry := [], totalDropped := s.totalDropped + |s.carry|,
                      events := s.events + [OverflowDropAll(|s.carry|)])
      case Some(h) =>
        assert PatternAt(s.carry[h..], 0, REPORT_HEADER) by {
          assert forall k :: 0 <= k < 4 ==> s.carry[h..][k] == s.carry[h + k];
        }
        if h > 0 then s.(carry := s.carry[h..], totalDropped := s.totalDropped + h,
                         events := s.events + [OverflowDropPrefix(h)])
        else s
  }

  /** One FrameEvent per decoded frame, in order. */
  function FrameEvents(frames: seq<Frame>, ts: int): (es: seq<Event>)
    ensures |es| == |frames|
    ensures forall k :: 0 <= k < |frames| ==> es[k] == FrameEvent(ts, frames[k])
  {
    seq(|frames|, k requires 0 <= k < |frames| => FrameEvent(ts, frames[k]))
  }

  /** droppedBytes is counted, and reported as noise, only when the push decoded a frame. */
  function NoteDropped(s: Stream, res: Decoded, o: Options): (t: Stream)
    ensures t.totalDropped == s.totalDropped + (if |res.frames| > 0 then res.droppedBytes else 0)
    ensures t == s.(totalDropped := t.totalDropped, events := t.events)
  {
    if |res.frames| == 0 then s
    else if (res.droppedBytes as real) >= o.noiseLogThreshold
    then s.(totalDropped := s.totalDropped + res.droppedBytes, events := s.events + [DroppedNoise(res.droppedBytes)])
    else s.(totalDropped := s.totalDropped + res.droppedBytes)
  }

  /** Each non-zero rejection counter is added to its total and reported: footers, then lengths, then inner framing. */
  function NoteRejects(s: Stream, st: Stats): (t: Stream)
    ensures t.totalBadFooters == s.totalBadFooters + st.badFooters
    ensures t.totalBadLengths == s.totalBadLengths + st.badLengths
    ensures t.totalBadInner == s.totalBadInner + st.badInner
    ensures t == s.(totalBadFooters := t.totalBadFooters, totalBadLengths := t.totalBadLengths,
                    totalBadInner := t.totalBadInner, events := t.events)
  {
    var s1 := if st.badFooters > 0
      then s.(totalBadFooters := s.totalBadFooters + st.badFooters, events := s.events + [BadFooter(st.badFooters)])
      else s;
    var s2 := if st.badLengths > 0
      then s1.(totalBadLengths := s1.totalBadLengths + st.badLengths, events := s1.events + [BadLength(st.badLengths)])
      else s1;
    if st.badInner > 0
    then s2.(totalBadInner := s2.totalBadInner + st.badInner, events := s2.events + [BadInner(st.badInner)])
    else s2
  }

  /** What the decoder result adds to the stream state, in the order push does it. */
  function Absorb(s: Stream, res: Decoded, o: Options, now: int): (t: Stream)
    ensures t.carry == res.remainder && t.totalFrames == s.totalFrames + |res.frames|
    ensures t.totalDropped == s.totalDropped + (if |res.frames| > 0 then res.droppedBytes else 0)
    ensures t.totalBadFooters == s.totalBadFooters + res.stats.badFooters
    ensures t.totalBadLengths == s.totalBadLengths + res.stats.badLengths
    ensures t.totalBadInner == s.totalBadInner + res.stats.badInner
  {
    var s1 := NoteRejects(NoteDropped(s, res, o), res.stats);
    var s2 := s1.(totalFrames := s1.totalFrames + |res.frames|, events := s1.events + FrameEvents(res.frames, now));
    var s3 := if o.emitStats
      then s2.(events := s2.events + [StatsEvent(now, res.stats, res.droppedBytes, |res.remainder|, TotalsOf(s2))])
      else s2;
    s3.(carry := res.remainder)
  }

  /** push(chunk): None stands for an argument that is not a Buffer; now is the clock reading used for the events. */
  function PushStep(s: Stream, o: Options, chunk: Option<seq<byte>>, now: int): Stream
  {
    if chunk.None? then s.(events := s.events + [InvalidChunk])
    else
      var joined := s.(carry := s.carry + chunk.value);
      var t := Overflow(joined, o.maxBufferBytes);
      if (|joined.carry| as real) > o.maxBufferBytes && LastIndexOf(joined.carry, REPORT_HEADER).None? then t
      else if |t.carry| < MIN_DECODE_BYTES then t
      else Absorb(t, Decode(t.carry, o.maxFramesPerPush, o.includeRaw), o, now)
  }

  /**
   * After a push that reaches the decoder, the carry is exactly the
   * decoder's remainder, the frame and rejection totals grow by the
   * decoder's counts, and droppedBytes is added only when a frame was
   * decoded.
   */
  lemma PushCarriesRemainder(s: Stream, o: Options, chunk: seq<byte>, now: int)
    requires var t := Overflow(s.(carry := s.carry + chunk), o.maxBufferBytes);
      !((|s.carry + chunk| as real) > o.maxBufferBytes && LastIndexOf(s.carry + chunk, REPORT_HEADER).None?)
      && |t.carry| >= MIN_DECODE_BYTES
    ensures var t := Overflow(s.(carry := s.carry + chunk), o.maxBufferBytes);
      var res := Decode(t.carry, o.maxFramesPerPush, o.includeRaw);
      var u := PushStep(s, o, Some(chunk), now);
      && u.carry == res.remainder
      && u.totalFrames == s.totalFrames + |res.frames|
      && u.totalDropped == t.totalDropped + (if |res.frames| > 0 then res.droppedBytes else 0)
      && u.totalBadFooters == s.totalBadFooters + res.stats.badFooters
      && u.totalBadLengths == s.totalBadLengths + res.stats.badLengths
      && u.totalBadInner == s.totalBadInner + res.stats.badInner
  {
  }

  /** A carry beyond maxBufferBytes without any header is dropped whole and nothing is decoded. */
  lemma PushOverflowDropsAll(s: Stream, o: Options, chunk: seq<byte>, now: int)
    requires (|s.carry + chunk| as real) > o.maxBufferBytes
    requires forall j :: !PatternAt(s.carry + chunk, j, REPORT_HEADER)
    ensures var u := PushStep(s, o, Some(chunk), now);
      u.carry == [] && u.totalDropped == s.totalDropped + |s.carry + chunk| && u.totalFrames == s.totalFrames
      && u.events == s.events + [OverflowDropAll(|s.carry + chunk|)]
  {
  }

  /** A carry of fewer than ten bytes, within maxBufferBytes, is kept whole for the next push. */
  lemma PushShortCarryWaits(s: Stream, o: Options, chunk: seq<byte>, now: int)
    requires |s.carry + chunk| < MIN_DECODE_BYTES && (|s.carry + chunk| as real) <= o.maxBufferBytes
    ensures PushStep(s, o, Some(chunk), now) == s.(carry := s.carry + chunk)
  {
  }

  /** The closure state of createLd2410StreamDecoder: the carry, the totals and what it emitted. */
  class StreamDecoder {
    const opts: Options
    var carry: seq<byte>
    var totalFrames: nat
    var totalBadFooters: nat
    var totalBadLengths: nat
    var totalBadInner: nat
    var totalDropped: nat
    var events: seq<Event>

    function Snapshot(): Stream
      reads this
    {
      Stream(carry, totalFrames, totalBadFooters, totalBadLengths, totalBadInner, totalDropped, events)
    }

    constructor (options: Value)
      ensures opts == OptionsOf(options)
      ensures Snapshot() == Stream([], 0, 0, 0, 0, 0, [])
    {
      opts := OptionsOf(options);
      carry := [];
      totalFrames := 0;
      totalBadFooters := 0;
      totalBadLengths := 0;
      totalBadInner := 0;
      totalDropped := 0;
      events := [];
    }

    /** reset() empties the carry and keeps the totals. */
    method Reset()
      modifies this`carry
      ensures carry == []
    {
      carry := [];
    }

    /** getState() */
    function GetState(): (t: Totals)
      reads this
      ensures t == TotalsOf(Snapshot()) && t.carryBytes == |carry|
    {
      Totals(|carry|, totalFrames, totalBadFooters, totalBadLengths, totalBadInner, totalDropped)
    }

    /** push(chunk) */
    method Push(chunk: Option<seq<byte>>, now: int)
      modifies this
      ensures Snapshot() == PushStep(old(Snapshot()), opts, chunk, now)
    {
      if chunk.None? {
        events := events + [InvalidChunk];
        return;
      }
      ghost var joined := Snapshot().(carry := carry + chunk.value);
      carry := if |carry| == 0 then chunk.value else carry + chunk.value;
      assert Snapshot() == joined;
      var proceed := DropOverflow();
      if !proceed || |carry| < MIN_DECODE_BYTES {
        return;
      }
      var res := DecodeReportFrames(carry, opts.maxFramesPerPush, opts.includeRaw);
      Emit(res, now);
    }

    /**
     * The overflow guard of push: it returns false when the whole carry was
     * dropped and push returns.
     */
    method DropOverflow() returns (proceed: bool)
      modifies this
      ensures Snapshot() == Overflow(old(Snapshot()), opts.maxBufferBytes)
      ensures !proceed <==> (|old(carry)| as real) > opts.maxBufferBytes && LastIndexOf(old(carry), REPORT_HEADER).None?
    {
      proceed := true;
      if (|carry| as real) > opts.maxBufferBytes {
        var lastHeader := LastIndexOf(carry, REPORT_HEADER);
        if lastHeader.None? {
          totalDropped := totalDropped + |carry|;
          events := events + [OverflowDropAll(|carry|)];
          carry := [];
          proceed := false;
        } else if lastHeader.value > 0 {
          totalDropped := totalDropped + lastHeader.value;
          events := events + [OverflowDropPrefix(lastHeader.value)];
          carry := carry[lastHeader.value..];
        }
      }
    }

    /** What push does with the decoder result: the totals, the events, and the remainder as the new carry. */
    method Emit(res: Decoded, now: int)
      modifies this
      ensures Snapshot() == Absorb(old(Snapshot()), res, opts, now)
    {
      CountDropped(res);
      CountRejects(res.stats);
      EmitFrames(res.frames, now);
      if opts.emitStats {
        events := events + [StatsEvent(now, res.stats, res.droppedBytes, |res.remainder|, GetState())];
      }
      carry := res.remainder;
    }

    method CountDropped(res: Decoded)
      modifies this
      ensures Snapshot() == NoteDropped(old(Snapshot()), res, opts)
    {
      if |res.frames| > 0 {
        totalDropped := totalDropped + res.droppedBytes;
        if (res.droppedBytes as real) >= opts.noiseLogThreshold {
          events := events + [DroppedNoise(res.droppedBytes)];
        }
      }
    }

    method CountRejects(st: Stats)
      modifies this
      ensures Snapshot() == NoteRejects(old(Snapshot()), st)
    {
      if st.badFooters > 0 {
        totalBadFooters := totalBadFooters + st.badFooters;
        events := events + [BadFooter(st.badFooters)];
      }
      if st.badLengths > 0 {
        totalBadLengths := totalBadLengths + st.badLengths;
        events := events + [BadLength(st.badLengths)];
      }
      if st.badInner > 0 {
        totalBadInner := totalBadInner + st.badInner;
        events := events + [BadInner(st.badInner)];
      }
    }

    /** The frame loop of push: one frame event per frame, each counted in totalFrames. */
    method EmitFrames(frames: seq<Frame>, now: int)
      modifies this
      ensures Snapshot() == old(Snapshot()).(totalFrames := old(totalFrames) + |frames|,
                                             events := old(events) + FrameEvents(frames, now))
    {
      var k := 0;
      while k < |frames|
        invariant 0 <= k <= |frames|
        invariant Snapshot() == old(Snapshot()).(totalFrames := old(totalFrames) + k,
                                                 events := old(events) + FrameEvents(frames[..k], now))
      {
        totalFrames := totalFrames + 1;
        assert FrameEvents(frames[..k + 1], now) == FrameEvents(frames[..k], now) + [FrameEvent(now, frames[k])];
        events := events + [FrameEvent(now, frames[k])];
        k := k + 1;
      }
      assert frames[..k] == frames;
    }
  }
}
