/**
 * Searching Node.js Buffers: Buffer.indexOf and Buffer.lastIndexOf of a
 * byte pattern, and little-endian reads, as the radar frame decoders use
 * them.
 */
module ByteSearch {
  import opened Common

  /** pat occurs in buf at offset j. */
  predicate PatternAt(buf: seq<byte>, j: int, pat: seq<byte>)
    decreases |pat|
  {
    0 <= j && j + |pat| <= |buf| && (pat == [] || (buf[j] == pat[0] && PatternAt(buf, j + 1, pat[1..])))
  }

  /** buf.indexOf(pat, from): the first occurrence of pat at or after from. */
  function IndexOfFrom(buf: seq<byte>, pat: seq<byte>, from: nat): (r: Option<nat>)
    ensures r.Some? ==> from <= r.value && r.value + |pat| <= |buf|
    decreases |buf| - from
  {
    if from + |pat| > |buf| then None
    else if PatternAt(buf, from, pat) then Some(from)
    else IndexOfFrom(buf, pat, from + 1)
  }

  /** IndexOfFrom finds an occurrence with none before it, and None means there is none at or after from. */
  lemma {:induction false} IndexOfFromFinds(buf: seq<byte>, pat: seq<byte>, from: nat)
    ensures var r := IndexOfFrom(buf, pat, from);
      && (r.Some? ==> PatternAt(buf, r.value, pat) && forall j :: from <= j < r.value ==> !PatternAt(buf, j, pat))
      && (r.None? ==> forall j :: from <= j ==> !PatternAt(buf, j, pat))
    decreases |buf| - from
  {
    if from + |pat| <= |buf| && !PatternAt(buf, from, pat) {
      IndexOfFromFinds(buf, pat, from + 1);
    }
  }

  /** The last occurrence of pat that starts below n. */
  function LastIndexBelow(buf: seq<byte>, pat: seq<byte>, n: nat): (r: Option<nat>)
    ensures r.Some? ==> r.value < n && PatternAt(buf, r.value, pat)
    ensures r.Some? ==> forall j :: r.value < j < n ==> !PatternAt(buf, j, pat)
    ensures r.None? ==> forall j :: 0 <= j < n ==> !PatternAt(buf, j, pat)
  {
    if n == 0 then None
    else if PatternAt(buf, n - 1, pat) then Some(n - 1)
    else LastIndexBelow(buf, pat, n - 1)
  }

  /** buf.lastIndexOf(pat): the last occurrence of pat. */
  function LastIndexOf(buf: seq<byte>, pat: seq<byte>): (r: Option<nat>)
    ensures r.Some? ==> PatternAt(buf, r.value, pat) && forall j :: r.value < j ==> !PatternAt(buf, j, pat)
    ensures r.None? ==> forall j :: !PatternAt(buf, j, pat)
  {
    LastIndexBelow(buf, pat, |buf| + 1)
  }

  /** buf.readUInt16LE(k) */
  function U16(buf: seq<byte>, k: nat): (v: int)
    requires k + 2 <= |buf|
    ensures 0 <= v < 0x1_0000
  {
    buf[k] as int + 256 * buf[k + 1] as int
  }
}
