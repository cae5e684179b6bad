/**
 * The USB inventory: the normalisation of USB identities, the key under
 * which each device is stored, the signature that tells whether its serial
 * endpoints changed, the lookup of a serial path by a (possibly partial)
 * identity, and the diff that turns one scan into attach and detach events.
 * Listing the serial ports and reading /dev/serial/by-id are input; a scan
 * reaches the model as the map it builds.
 */
module UsbInventory {
  import opened Common
  import opened Js
  import opened TextOrder

  // ------------------------------------------------------------------
  // Normalisation

  predicate IsLowerHex(c: char) { '0' <= c <= '9' || 'a' <= c <= 'f' }

  /** String(value || '').trim().toLowerCase() */
  function Lowered(x: Value): string
  {
    Lower(TrimmedOrBlank(x))
  }

  /**
   * normalizeHex(value): lower case without a leading 0x; null when blank.
   * "0x" alone gives the empty string, which every caller treats as absent.
   */
  function NormalizeHex(x: Value): (r: Option<string>)
    ensures r.None? <==> Lowered(x) == []
    ensures r.Some? && StartsWith(Lowered(x), "0x") ==> Lowered(x) == "0x" + r.value
    ensures r.Some? && !StartsWith(Lowered(x), "0x") ==> r.value == Lowered(x)
  {
    var s := Lowered(x);
    if s == [] then None
    else if StartsWith(s, "0x") then
      assert s == s[..2] + s[2..];
      Some(s[2..])
    else Some(s)
  }

  /** normalizeSerial(value): the trimmed text, null when blank. */
  function NormalizeSerial(x: Value): (r: Option<string>)
    ensures r.None? <==> TrimmedOrBlank(x) == []
    ensures r.Some? ==> r.value == TrimmedOrBlank(x)
  {
    var s := TrimmedOrBlank(x);
    if s == [] then None else Some(s)
  }

  /** normalizeIface(value): exactly two hexadecimal digits, lower-cased; otherwise null. */
  function NormalizeIface(x: Value): (r: Option<string>)
    ensures r.Some? <==> |Lowered(x)| == 2 && IsLowerHex(Lowered(x)[0]) && IsLowerHex(Lowered(x)[1])
    ensures r.Some? ==> r.value == Lowered(x)
  {
    var s := Lowered(x);
    if |s| == 2 && IsLowerHex(s[0]) && IsLowerHex(s[1]) then Some(s) else None
  }

  /** A normalised identity: serial and iface are present only when non-empty. */
  datatype UsbId = UsbId(vid: string, pid: string, serial: Option<string>, iface: Option<string>)

  function OrEmpty(o: Option<string>): string
  {
    if o.Some? then o.value else []
  }

  /** Keeps a part only when it is truthy: `...(serial ? { serial } : {})`. */
  function IfTruthy(o: Option<string>): (r: Option<string>)
    ensures r.Some? <==> o.Some? && o.value != []
    ensures r.Some? ==> r == o
  {
    if o.Some? && o.value != [] then o else None
  }

  datatype UsbError = InvalidUsbId | UsbNotFound | UsbAmbiguous

  /** #normalizeUsbId(usbId) */
  function NormalizeUsbId(x: Value): (r: Result<UsbId, UsbError>)
    ensures !(x.Obj? || x.Arr?) ==> r == Err(InvalidUsbId)
    ensures r.Err? ==> r.error == InvalidUsbId
    ensures r.Ok? ==> r.value.vid != [] && r.value.pid != []
    ensures r.Ok? ==> (r.value.serial.Some? ==> r.value.serial.value != []) && (r.value.iface.Some? ==> |r.value.iface.value| == 2)
  {
    if !(x.Obj? || x.Arr?) then Err(InvalidUsbId)
    else
      var vid := NormalizeHex(Get(x, "vid"));
      var pid := NormalizeHex(Get(x, "pid"));
      if OrEmpty(vid) == [] || OrEmpty(pid) == [] then Err(InvalidUsbId)
      else Ok(UsbId(vid.value, pid.value, IfTruthy(NormalizeSerial(Get(x, "serial"))), IfTruthy(NormalizeIface(Get(x, "iface")))))
  }

  // ------------------------------------------------------------------
  // Keys

  /** makeKey(usbId) = `${vid}:${pid}:${serial}:${iface}` with '' for absent parts. */
  function MakeKey(u: UsbId): string
  {
    u.vid + ":" + u.pid + ":" + OrEmpty(u.serial) + ":" + OrEmpty(u.iface)
  }

  /** An identity as a scan or #normalizeUsbId produces it, with no ':' inside a part. */
  predicate WellFormed(u: UsbId)
  {
    u.vid != [] && u.pid != [] && ':' !in u.vid && ':' !in u.pid
    && (u.serial.Some? ==> u.serial.value != [] && ':' !in u.serial.value)
    && (u.iface.Some? ==> |u.iface.value| == 2 && ':' !in u.iface.value)
  }

  /** Two colon-free fields that start a string before a colon are equal. */
  lemma {:induction false} FieldPrefix(a: string, b: string, r: string, t: string)
    requires ':' !in a && ':' !in b
    requires StartsWith(a + ":" + r, b + ":" + t)
    ensures a == b && StartsWith(r, t)
    decreases |a|
  {
    var k := a + ":" + r;
    var p := b + ":" + t;
    assert k[..|p|] == p;
    if a == [] {
      assert k[0] == ':' && k[0] == p[0];
      assert p[0] == ':';
      assert k == ":" + r && p == ":" + t;
      assert r[..|t|] == k[1..|p|] == t;
    } else {
      assert k[0] == a[0] && k[0] == p[0] && a[0] in a;
      assert a[0] == b[0];
      assert k[1..] == a[1..] + ":" + r && p[1..] == b[1..] + ":" + t;
      assert (k[1..])[..|p| - 1] == p[1..];
      FieldPrefix(a[1..], b[1..], r, t);
      assert a == [a[0]] + a[1..] && b == [b[0]] + b[1..];
    }
  }

  lemma StartsWithAppend(a: string, b: string)
    ensures StartsWith(a + b, a)
  {
    assert (a + b)[..|a|] == a;
  }

  /** The four colon-separated fields of a key. */
  function KeyParts(u: UsbId): seq<string>
  {
    [u.vid, u.pid, OrEmpty(u.serial), OrEmpty(u.iface)]
  }

  lemma KeyIsJoin(u: UsbId)
    ensures MakeKey(u) == Join(KeyParts(u), ":")
  {
    var ps := KeyParts(u);
    assert Join(ps[3..], ":") == ps[3];
    assert Join(ps[2..], ":") == ps[2] + ":" + ps[3] by { assert ps[2..][1..] == ps[3..]; }
    assert Join(ps[1..], ":") == ps[1] + ":" + (ps[2] + ":" + ps[3]) by { assert ps[1..][1..] == ps[2..]; }
  }

  /** A well-formed identity is recovered from its key: makeKey is injective. */
  lemma MakeKeyInjective(u: UsbId, w: UsbId)
    requires WellFormed(u) && WellFormed(w) && MakeKey(u) == MakeKey(w)
    ensures u == w
  {
    KeyIsJoin(u);
    KeyIsJoin(w);
    assert forall i :: 0 <= i < 4 ==> ':' !in KeyParts(u)[i];
    assert forall i :: 0 <= i < 4 ==> ':' !in KeyParts(w)[i];
    SplitJoin(KeyParts(u), ':');
    SplitJoin(KeyParts(w), ':');
    assert KeyParts(u) == KeyParts(w);
  }

  /**
   * Whether the stored key k answers the wanted identity, in the order of
   * resolveSerialPath's checks: vid:pid: prefix, then serial prefix or
   * exact key, then iface suffix.
   */
  predicate KeyMatches(k: string, want: UsbId)
  {
    StartsWith(k, want.vid + ":" + want.pid + ":")
    && if want.serial.Some? then
         StartsWith(k, want.vid + ":" + want.pid + ":" + want.serial.value + ":")
         && (want.iface.Some? ==> k == MakeKey(want))
       else want.iface.Some? ==> EndsWith(k, ":" + want.iface.value)
  }

  /** The stored part of the wanted identity agrees with the device's identity. */
  predicate Answers(u: UsbId, want: UsbId)
  {
    u.vid == want.vid && u.pid == want.pid
    && (want.serial.Some? ==> u.serial == want.serial)
    && (want.iface.Some? ==> u.iface == want.iface)
  }

  lemma EndsWithIface(u: UsbId, i: string)
    requires WellFormed(u) && |i| == 2 && ':' !in i
    ensures EndsWith(MakeKey(u), ":" + i) <==> u.iface == Some(i)
  {
    var k := MakeKey(u);
    var head := u.vid + ":" + u.pid + ":" + OrEmpty(u.serial);
    var tail := ":" + OrEmpty(u.iface);
    assert k == head + tail;
    assert k[|k| - |tail|..] == tail;
    if u.iface.Some? {
      assert |tail| == 3;
      assert EndsWith(k, ":" + i) <==> tail == ":" + i;
      assert tail == ":" + i <==> u.iface.value == i by {
        assert tail == ":" + i ==> tail[1..] == i;
      }
    } else {
      assert k[|k| - 1] == ':';
      assert (":" + i)[2] == i[1] && i[1] != ':';
      assert k[|k| - 1] != (":" + i)[2];
    }
  }

  /**
   * On well-formed identities the key test means what it is meant to:
   * the device's vid and pid equal the wanted ones, and so do its serial
   * and iface wherever the wanted identity names them.
   */
  lemma KeyMatchesAnswers(u: UsbId, want: UsbId)
    requires WellFormed(u) && WellFormed(want)
    ensures KeyMatches(MakeKey(u), want) <==> Answers(u, want)
  {
    VidPidPrefix(u, want.vid, want.pid);
    if want.serial.Some? {
      SerialPrefix(u, want.vid, want.pid, want.serial.value);
      if want.iface.Some? && MakeKey(u) == MakeKey(want) {
        MakeKeyInjective(u, want);
      }
    } else if want.iface.Some? {
      EndsWithIface(u, want.iface.value);
    }
  }

  /** The key starts with vid:pid: exactly for the device's own vid and pid. */
  lemma VidPidPrefix(u: UsbId, vid: string, pid: string)
    requires WellFormed(u) && ':' !in vid && ':' !in pid
    ensures StartsWith(MakeKey(u), vid + ":" + pid + ":") <==> u.vid == vid && u.pid == pid
  {
    var k := MakeKey(u);
    var tail := OrEmpty(u.serial) + ":" + OrEmpty(u.iface);
    var rest := u.pid + ":" + tail;
    assert k == u.vid + ":" + rest;
    var pre := vid + ":" + pid + ":";
    assert pre == vid + ":" + (pid + ":");
    if StartsWith(k, pre) {
      FieldPrefix(u.vid, vid, rest, pid + ":");
      assert pid + ":" == pid + ":" + [];
      FieldPrefix(u.pid, pid, tail, []);
    }
    if u.vid == vid && u.pid == pid {
      assert k == pre + tail;
      StartsWithAppend(pre, tail);
    }
  }

  /** The key starts with vid:pid:serial: exactly for the device's own vid, pid and serial. */
  lemma SerialPrefix(u: UsbId, vid: string, pid: string, serial: string)
    requires WellFormed(u) && ':' !in vid && ':' !in pid && serial != [] && ':' !in serial
    ensures StartsWith(MakeKey(u), vid + ":" + pid + ":" + serial + ":")
      <==> u.vid == vid && u.pid == pid && u.serial == Some(serial)
  {
    var k := MakeKey(u);
    var su, iu := OrEmpty(u.serial), OrEmpty(u.iface);
    var rest := u.pid + ":" + (su + ":" + iu);
    assert k == u.vid + ":" + rest;
    var spre := vid + ":" + pid + ":" + serial + ":";
    assert spre == vid + ":" + (pid + ":" + (serial + ":"));
    if StartsWith(k, spre) {
      FieldPrefix(u.vid, vid, rest, pid + ":" + (serial + ":"));
      FieldPrefix(u.pid, pid, su + ":" + iu, serial + ":");
      assert serial + ":" == serial + ":" + [];
      FieldPrefix(su, serial, iu, []);
    }
    if u.vid == vid && u.pid == pid && u.serial == Some(serial) {
      assert k == spre + iu;
      StartsWithAppend(spre, iu);
    }
  }

  // ------------------------------------------------------------------
  // Endpoints and their signature

  datatype Debug = Debug(manufacturer: Option<string>, product: Option<string>, pnpId: Option<string>, iface: Option<string>)

  /** One serial endpoint of a device, as the scan records it. */
  datatype Endpoint = Endpoint(serialPath: Option<string>, ttyPath: Option<string>, platform: Option<string>, debug: Option<Debug>)

  /** `${serialPath || ''}|${ttyPath || ''}|${platform || ''}`: the sort key of the signature. */
  function SortKey(e: Endpoint): string
  {
    OrEmpty(e.serialPath) + "|" + OrEmpty(e.ttyPath) + "|" + OrEmpty(e.platform)
  }

  predicate SortedByKey(s: seq<Endpoint>)
  {
    forall i, j :: 0 <= i < j < |s| ==> LexLe(SortKey(s[i]), SortKey(s[j]))
  }

  /** Inserts e after every endpoint whose key is not greater: a stable sort step. */
  function InsertByKey(e: Endpoint, s: seq<Endpoint>): (r: seq<Endpoint>)
    ensures multiset(r) == multiset(s) + multiset{e}
  {
    if s == [] || !LexLe(SortKey(s[0]), SortKey(e)) then [e] + s
    else
      assert s == [s[0]] + s[1..];
      [s[0]] + InsertByKey(e, s[1..])
  }

  lemma {:induction false} InsertByKeySorted(e: Endpoint, s: seq<Endpoint>)
    requires SortedByKey(s)
    ensures SortedByKey(InsertByKey(e, s))
    decreases |s|
  {
    if s == [] {
    } else if !LexLe(SortKey(s[0]), SortKey(e)) {
      LexLeTotal(SortKey(s[0]), SortKey(e));
      forall j | 0 < j < |s| + 1
        ensures LexLe(SortKey(e), SortKey(([e] + s)[j]))
      {
        LexLeTotal(SortKey(s[0]), SortKey(s[0]));
        LexLeTransitive(SortKey(e), SortKey(s[0]), SortKey(s[j - 1]));
      }
    } else {
      InsertByKeySorted(e, s[1..]);
      var t := InsertByKey(e, s[1..]);
      forall j | 0 <= j < |t|
        ensures LexLe(SortKey(s[0]), SortKey(t[j]))
      {
        assert t[j] in multiset(t);
        assert t[j] == e || t[j] in multiset(s[1..]);
        if t[j] != e {
          var m :| 0 <= m < |s[1..]| && s[1..][m] == t[j];
          assert s[1..][m] == s[m + 1];
        }
      }
    }
  }

  /**
   * stableStringifyEndpoints(endpoints): the endpoints stably sorted by
   * their key. JSON.stringify of that list is a one-to-one rendering, so
   * the model compares the sorted lists themselves.
   */
  function Signature(eps: seq<Endpoint>): (r: seq<Endpoint>)
    ensures multiset(r) == multiset(eps)
  {
    if eps == [] then []
    else
      assert eps == eps[..|eps| - 1] + [eps[|eps| - 1]];
      InsertByKey(eps[|eps| - 1], Signature(eps[..|eps| - 1]))
  }

  lemma {:induction false} SignatureSorted(eps: seq<Endpoint>)
    ensures SortedByKey(Signature(eps))
    decreases |eps|
  {
    if eps != [] {
      SignatureSorted(eps[..|eps| - 1]);
      InsertByKeySorted(eps[|eps| - 1], Signature(eps[..|eps| - 1]));
    }
  }

  /** Endpoints that share a sort key are the same endpoint. */
  predicate KeyDetermines(s: seq<Endpoint>)
  {
    forall x, y :: x in s && y in s && SortKey(x) == SortKey(y) ==> x == y
  }

  lemma SortedHeadFirst(s: seq<Endpoint>, e: Endpoint)
    requires SortedByKey(s) && e in s
    ensures LexLe(SortKey(s[0]), SortKey(e))
  {
    var m :| 0 <= m < |s| && s[m] == e;
    if m == 0 {
      LexLeTotal(SortKey(e), SortKey(e));
    }
  }

  lemma SortedTail(s: seq<Endpoint>)
    requires SortedByKey(s) && s != []
    ensures SortedByKey(s[1..])
  {
    forall i, j | 0 <= i < j < |s| - 1 ensures LexLe(SortKey(s[1..][i]), SortKey(s[1..][j])) {
      assert s[1..][i] == s[i + 1] && s[1..][j] == s[j + 1];
    }
  }

  lemma {:induction false} SortedUniqueByKey(a: seq<Endpoint>, b: seq<Endpoint>)
    requires SortedByKey(a) && SortedByKey(b) && multiset(a) == multiset(b) && KeyDetermines(a)
    ensures a == b
    decreases |a|
  {
    assert |a| == |multiset(a)| == |b|;
    if a != [] {
      assert a[0] == b[0] by {
        assert a[0] in multiset(b) && b[0] in multiset(a);
        SortedHeadFirst(b, a[0]);
        SortedHeadFirst(a, b[0]);
        LexLeAntisymmetric(SortKey(a[0]), SortKey(b[0]));
      }
      assert multiset(a[1..]) == multiset(b[1..]) by {
        assert a == [a[0]] + a[1..] && b == [b[0]] + b[1..];
        assert multiset(a[1..]) == multiset(a) - multiset{a[0]};
        assert multiset(b[1..]) == multiset(b) - multiset{b[0]};
      }
      assert KeyDetermines(a[1..]) by {
        assert forall x :: x in a[1..] ==> x in a;
      }
      SortedTail(a);
      SortedTail(b);
      SortedUniqueByKey(a[1..], b[1..]);
      assert a == [a[0]] + a[1..] && b == [b[0]] + b[1..];
    }
  }

  /**
   * The signature does not depend on the order in which the scan found the
   * endpoints, as long as endpoints that share a sort key are identical.
   */
  lemma SignatureOrderFree(a: seq<Endpoint>, b: seq<Endpoint>)
    requires multiset(a) == multiset(b) && KeyDetermines(a)
    ensures Signature(a) == Signature(b)
  {
    SignatureSorted(a);
    SignatureSorted(b);
    var sa := Signature(a);
    assert KeyDetermines(sa) by {
      assert forall x :: x in sa ==> x in multiset(a);
    }
    SortedUniqueByKey(sa, Signature(b));
  }

  // ------------------------------------------------------------------
  // Stored devices

  /** One value of #byKey: { usbId, endpoints, endpointsSig } under its key. */
  datatype Entry = Entry(key: string, usbId: UsbId, endpoints: seq<Endpoint>, sig: seq<Endpoint>)

  datatype Event = Detached(usbId: UsbId) | Attached(usbId: UsbId, endpoints: seq<Endpoint>)

  predicate UniqueKeys(es: seq<Entry>)
  {
    forall i, j :: 0 <= i < j < |es| ==> es[i].key != es[j].key
  }

  function KeySet(es: seq<Entry>): (r: set<string>)
    ensures forall k :: k in r <==> exists i :: 0 <= i < |es| && es[i].key == k
  {
    set i | 0 <= i < |es| :: es[i].key
  }

  /** The first truthy serialPath of a device's endpoints, else null. */
  function FirstPath(eps: seq<Endpoint>): (r: Option<string>)
    ensures r.Some? ==> r.value != []
    ensures r.Some? ==>
      exists i :: 0 <= i < |eps| && eps[i].serialPath == r && forall j :: 0 <= j < i ==> OrEmpty(eps[j].serialPath) == []
    ensures r.None? ==> forall i :: 0 <= i < |eps| ==> OrEmpty(eps[i].serialPath) == []
  {
    if eps == [] then None
    else if OrEmpty(eps[0].serialPath) != [] then eps[0].serialPath
    else
      var r := FirstPath(eps[1..]);
      assert forall i :: 0 < i < |eps| ==> eps[i] == eps[1..][i - 1];
      r
  }

  /** The stored devices whose key answers want, in map order. */
  function MatchesOf(es: seq<Entry>, want: UsbId): (r: seq<Entry>)
    ensures |r| <= |es|
  {
    if es == [] then []
    else
      var n := |es| - 1;
      MatchesOf(es[..n], want) + (if KeyMatches(es[n].key, want) then [es[n]] else [])
  }

  lemma {:induction false} MatchesOfMembers(es: seq<Entry>, want: UsbId)
    ensures forall e :: e in MatchesOf(es, want) <==> e in es && KeyMatches(e.key, want)
    decreases |es|
  {
    if es != [] {
      var n := |es| - 1;
      assert es == es[..n] + [es[n]];
      MatchesOfMembers(es[..n], want);
    }
  }

  /** The outcome of resolveSerialPath once the identity is normalised. */
  function ResolveOf(es: seq<Entry>, want: UsbId): (r: Result<Option<string>, UsbError>)
  {
    var ms := MatchesOf(es, want);
    if |ms| == 0 then Err(UsbNotFound)
    else if |ms| > 1 then Err(UsbAmbiguous)
    else Ok(FirstPath(ms[0].endpoints))
  }

  /** A stored device whose key is the key of its well-formed identity. */
  predicate Keyed(e: Entry)
  {
    WellFormed(e.usbId) && e.key == MakeKey(e.usbId)
  }

  /**
   * With every stored device keyed by its identity, the lookup finds no
   * device exactly when none answers the wanted identity, and a path only
   * from a device that answers it.
   */
  lemma ResolveAnswers(es: seq<Entry>, want: UsbId)
    requires WellFormed(want) && forall i :: 0 <= i < |es| ==> Keyed(es[i])
    ensures ResolveOf(es, want) == Err(UsbNotFound) <==> forall i :: 0 <= i < |es| ==> !Answers(es[i].usbId, want)
    ensures ResolveOf(es, want).Ok? ==>
      exists i :: 0 <= i < |es| && Answers(es[i].usbId, want) && ResolveOf(es, want).value == FirstPath(es[i].endpoints)
  {
    var ms := MatchesOf(es, want);
    MatchesOfMembers(es, want);
    forall i | 0 <= i < |es| ensures es[i] in ms <==> Answers(es[i].usbId, want) {
      KeyMatchesAnswers(es[i].usbId, want);
    }
    if |ms| > 0 {
      assert ms[0] in es;
    }
  }

  function ResolveOf'(es: seq<Entry>, x: Value): Result<Option<string>, UsbError>
  {
    match NormalizeUsbId(x)
    case Err(e) => Err(e)
    case Ok(want) => ResolveOf(es, want)
  }

  // ------------------------------------------------------------------
  // The diff of one scan against the stored devices

  /** First loop of #diffAndApply: devices absent from next are deleted, each with a detached event. */
  function RemoveGone(es: seq<Entry>, next: set<string>): (r: (seq<Entry>, seq<Event>))
    ensures |r.0| <= |es|
    ensures forall e :: e in r.0 <==> e in es && e.key in next
    ensures UniqueKeys(es) ==> UniqueKeys(r.0)
  {
    if es == [] then ([], [])
    else
      var n := |es| - 1;
      assert es == es[..n] + [es[n]];
      var (kept, evs) := RemoveGone(es[..n], next);
      assert UniqueKeys(es) ==> forall e :: e in kept ==> e.key != es[n].key;
      if es[n].key in next then (kept + [es[n]], evs)
      else (kept, evs + [Detached(es[n].usbId)])
  }

  function IndexOfKey(es: seq<Entry>, k: string): (i: nat)
    requires k in KeySet(es)
    ensures i < |es| && es[i].key == k
    ensures forall j :: 0 <= j < i ==> es[j].key != k
  {
    if es[0].key == k then 0
    else
      assert k in KeySet(es[1..]) by {
        var j :| 0 <= j < |es| && es[j].key == k;
        assert es[1..][j - 1] == es[j];
      }
      1 + IndexOfKey(es[1..], k)
  }

  /** Second loop of #diffAndApply, for one device of next. */
  function AddOne(es: seq<Entry>, cur: Entry): (r: (seq<Entry>, seq<Event>))
  {
    if cur.key !in KeySet(es) then (es + [cur], [Attached(cur.usbId, cur.endpoints)])
    else
      var i := IndexOfKey(es, cur.key);
      if es[i].sig != cur.sig then (es[i := cur], [Detached(es[i].usbId), Attached(cur.usbId, cur.endpoints)])
      else (es, [])
  }

  /** The second loop over the devices of next, in order. */
  function AddAll(es: seq<Entry>, next: seq<Entry>): (r: (seq<Entry>, seq<Event>))
  {
    if next == [] then (es, [])
    else
      var n := |next| - 1;
      var (mid, evs) := AddAll(es, next[..n]);
      var (out, more) := AddOne(mid, next[n]);
      (out, evs + more)
  }

  /** #diffAndApply(next): the new stored devices and the events, in emission order. */
  function Diff(es: seq<Entry>, next: seq<Entry>): (r: (seq<Entry>, seq<Event>))
    ensures UniqueKeys(es) ==> UniqueKeys(r.0) && KeySet(r.0) == KeySet(next)
  {
    var (kept, gone) := RemoveGone(es, KeySet(next));
    KeptKeys(es, KeySet(next));
    var (out, evs) := AddAll(kept, next);
    (if UniqueKeys(es) then AddAllKeys(kept, next); (out, gone + evs) else (out, gone + evs))
  }

  /** The first loop keeps only keys of next. */
  lemma KeptKeys(es: seq<Entry>, next: set<string>)
    ensures KeySet(RemoveGone(es, next).0) <= next
  {
    var kept := RemoveGone(es, next).0;
    forall k | k in KeySet(kept) ensures k in next {
      var i :| 0 <= i < |kept| && kept[i].key == k;
      assert kept[i] in kept;
    }
  }

  lemma AddOneKeys(es: seq<Entry>, cur: Entry)
    requires UniqueKeys(es)
    ensures UniqueKeys(AddOne(es, cur).0)
    ensures KeySet(AddOne(es, cur).0) == KeySet(es) + {cur.key}
  {
    if cur.key in KeySet(es) {
      var i := IndexOfKey(es, cur.key);
      if es[i].sig != cur.sig {
        var out := es[i := cur];
        assert forall j :: 0 <= j < |es| ==> out[j].key == es[j].key;
      }
    } else {
      var out := es + [cur];
      assert forall j :: 0 <= j < |es| ==> out[j] == es[j];
      assert out[|es|] == cur;
    }
  }

  /** The stored entry under key k. */
  function EntryAt(es: seq<Entry>, k: string): Entry
    requires k in KeySet(es)
  {
    es[IndexOfKey(es, k)]
  }

  lemma UniqueIndex(es: seq<Entry>, j: nat)
    requires UniqueKeys(es) && j < |es|
    ensures IndexOfKey(es, es[j].key) == j
  {
    var i := IndexOfKey(es, es[j].key);
    if i < j {
      assert false;
    }
  }

  /** After one device of next is added, its signature is the stored one; other keys keep theirs. */
  lemma AddOneSig(es: seq<Entry>, cur: Entry, k: string)
    requires UniqueKeys(es) && k in KeySet(es) + {cur.key}
    ensures k in KeySet(AddOne(es, cur).0)
    ensures k == cur.key ==> EntryAt(AddOne(es, cur).0, k).sig == cur.sig
    ensures k != cur.key ==> EntryAt(AddOne(es, cur).0, k) == EntryAt(es, k)
  {
    AddOneKeys(es, cur);
    var out := AddOne(es, cur).0;
    if cur.key !in KeySet(es) {
      UniqueIndex(out, |es|);
      if k != cur.key {
        var i := IndexOfKey(es, k);
        UniqueIndex(out, i);
        UniqueIndex(es, i);
      }
    } else {
      var i := IndexOfKey(es, cur.key);
      if es[i].sig != cur.sig {
        UniqueIndex(out, i);
        if k != cur.key {
          var j := IndexOfKey(es, k);
          UniqueIndex(out, j);
          UniqueIndex(es, j);
        }
      }
    }
  }

  lemma {:induction false} AddAllKeys(es: seq<Entry>, next: seq<Entry>)
    requires UniqueKeys(es)
    ensures UniqueKeys(AddAll(es, next).0)
    ensures KeySet(AddAll(es, next).0) == KeySet(es) + KeySet(next)
    decreases |next|
  {
    if next != [] {
      var n := |next| - 1;
      AddAllKeys(es, next[..n]);
      AddOneKeys(AddAll(es, next[..n]).0, next[n]);
      assert KeySet(next) == KeySet(next[..n]) + {next[n].key} by {
        assert forall i :: 0 <= i < n ==> next[..n][i] == next[i];
      }
    }
  }

  lemma {:induction false} AddAllSig(es: seq<Entry>, next: seq<Entry>, k: string)
    requires UniqueKeys(es) && UniqueKeys(next) && k in KeySet(next)
    ensures k in KeySet(AddAll(es, next).0)
    ensures EntryAt(AddAll(es, next).0, k).sig == EntryAt(next, k).sig
    decreases |next|
  {
    var n := |next| - 1;
    var pre := next[..n];
    DropLastEntry(next, k);
    AddAllKeys(es, pre);
    var mid := AddAll(es, pre).0;
    if k == next[n].key {
      UniqueIndex(next, n);
      AddOneSig(mid, next[n], k);
    } else {
      AddAllSig(es, pre, k);
      AddOneSig(mid, next[n], k);
    }
  }

  /** Without its last entry a list keeps unique keys, and every other key's entry. */
  lemma DropLastEntry(next: seq<Entry>, k: string)
    requires UniqueKeys(next) && k in KeySet(next)
    ensures UniqueKeys(next[..|next| - 1])
    ensures k != next[|next| - 1].key ==> k in KeySet(next[..|next| - 1]) && EntryAt(next[..|next| - 1], k) == EntryAt(next, k)
  {
    var n := |next| - 1;
    var pre := next[..n];
    assert forall i :: 0 <= i < n ==> pre[i] == next[i];
    if k != next[n].key {
      var i := IndexOfKey(next, k);
      assert k in KeySet(pre) by { assert pre[i] == next[i]; }
      UniqueIndex(pre, i);
    }
  }

  /**
   * After #diffAndApply the stored keys are exactly the keys of next, and
   * each stored device carries the endpoint signature next has for it.
   */
  lemma DiffMirrorsNext(es: seq<Entry>, next: seq<Entry>)
    requires UniqueKeys(es) && UniqueKeys(next)
    ensures UniqueKeys(Diff(es, next).0)
    ensures KeySet(Diff(es, next).0) == KeySet(next)
    ensures forall k :: k in KeySet(next) ==> EntryAt(Diff(es, next).0, k).sig == EntryAt(next, k).sig
  {
    var kept := RemoveGone(es, KeySet(next)).0;
    assert KeySet(kept) <= KeySet(next) by {
      forall k | k in KeySet(kept) ensures k in KeySet(next) {
        var i :| 0 <= i < |kept| && kept[i].key == k;
        assert kept[i] in kept;
      }
    }
    AddAllKeys(kept, next);
    forall k | k in KeySet(next)
      ensures EntryAt(Diff(es, next).0, k).sig == EntryAt(next, k).sig
    {
      AddAllSig(kept, next, k);
    }
  }

  /** A device of next that was not stored, or whose signature changed, is attached. */
  lemma {:induction false} AddAllAttaches(es: seq<Entry>, next: seq<Entry>, j: nat)
    requires UniqueKeys(es) && UniqueKeys(next) && j < |next|
    requires next[j].key !in KeySet(es) || EntryAt(es, next[j].key).sig != next[j].sig
    ensures Attached(next[j].usbId, next[j].endpoints) in AddAll(es, next).1
    decreases |next|
  {
    var n := |next| - 1;
    var pre := next[..n];
    assert forall i :: 0 <= i < n ==> pre[i] == next[i];
    AddAllKeys(es, pre);
    var mid := AddAll(es, pre).0;
    if j == n {
      assert forall i :: 0 <= i < n ==> pre[i].key != next[j].key;
      if next[j].key in KeySet(mid) {
        assert next[j].key in KeySet(es);
        AddAllUntouched(es, pre, next[j].key);
      }
    } else {
      AddAllAttaches(es, pre, j);
    }
  }

  /** Keys that next does not name keep their stored entry through the second loop. */
  lemma {:induction false} AddAllUntouched(es: seq<Entry>, next: seq<Entry>, k: string)
    requires UniqueKeys(es) && k in KeySet(es) && k !in KeySet(next)
    ensures k in KeySet(AddAll(es, next).0) && EntryAt(AddAll(es, next).0, k) == EntryAt(es, k)
    decreases |next|
  {
    if next != [] {
      var n := |next| - 1;
      var pre := next[..n];
      assert forall i :: 0 <= i < n ==> pre[i].key != k by {
        assert forall i :: 0 <= i < n ==> pre[i] == next[i];
      }
      assert next[n].key != k;
      AddAllUntouched(es, pre, k);
      AddAllKeys(es, pre);
      AddOneSig(AddAll(es, pre).0, next[n], k);
    }
  }

  /** Whether the second loop emits anything for cur: its key is new, or its signature changed. */
  predicate Changes(es: seq<Entry>, cur: Entry)
  {
    cur.key !in KeySet(es) || EntryAt(es, cur.key).sig != cur.sig
  }

  /** An event the second loop may emit for cur: its attached event, or the detached event of the entry it replaces. */
  predicate EventOf(es: seq<Entry>, cur: Entry, e: Event)
  {
    e == Attached(cur.usbId, cur.endpoints) || (cur.key in KeySet(es) && e == Detached(EntryAt(es, cur.key).usbId))
  }

  /** a is immediately followed by b somewhere in evs. */
  predicate Adjacent(evs: seq<Event>, a: Event, b: Event)
  {
    exists p :: 0 <= p < |evs| - 1 && evs[p] == a && evs[p + 1] == b
  }

  /**
   * Every stored device that next lacks is detached, and every device of
   * next that is new or whose endpoint signature changed is attached; a
   * changed device's detached event comes immediately before its attached
   * event; and every event is one of these three kinds.
   */
  lemma DiffEvents(es: seq<Entry>, next: seq<Entry>)
    requires UniqueKeys(es) && UniqueKeys(next)
    ensures forall i :: 0 <= i < |es| && es[i].key !in KeySet(next) ==> Detached(es[i].usbId) in Diff(es, next).1
    ensures forall j :: 0 <= j < |next| && next[j].key !in KeySet(es) ==> Attached(next[j].usbId, next[j].endpoints) in Diff(es, next).1
    ensures forall j :: 0 <= j < |next| && next[j].key in KeySet(es) && EntryAt(es, next[j].key).sig != next[j].sig ==>
      Adjacent(Diff(es, next).1, Detached(EntryAt(es, next[j].key).usbId), Attached(next[j].usbId, next[j].endpoints))
    ensures forall e :: e in Diff(es, next).1 ==>
      (exists i :: 0 <= i < |es| && es[i].key !in KeySet(next) && e == Detached(es[i].usbId))
      || (exists j :: 0 <= j < |next| && Changes(es, next[j]) && EventOf(es, next[j], e))
  {
    var ks := KeySet(next);
    var (kept, gone) := RemoveGone(es, ks);
    var evs := AddAll(kept, next).1;
    assert Diff(es, next).1 == gone + evs;
    forall i | 0 <= i < |es| && es[i].key !in ks
      ensures Detached(es[i].usbId) in Diff(es, next).1
    {
      RemoveGoneDetaches(es, ks, i);
    }
    forall j | 0 <= j < |next| && next[j].key !in KeySet(es)
      ensures Attached(next[j].usbId, next[j].endpoints) in Diff(es, next).1
    {
      assert next[j].key !in KeySet(kept);
      AddAllAttaches(kept, next, j);
    }
    forall j | 0 <= j < |next| && next[j].key in KeySet(es) && EntryAt(es, next[j].key).sig != next[j].sig
      ensures Adjacent(Diff(es, next).1, Detached(EntryAt(es, next[j].key).usbId), Attached(next[j].usbId, next[j].endpoints))
    {
      KeptEntry(es, ks, next[j].key);
      AddAllChangedAdjacent(kept, next, j);
      AdjacentAfter(gone, evs, Detached(EntryAt(es, next[j].key).usbId), Attached(next[j].usbId, next[j].endpoints));
    }
    RemoveGoneEventKinds(es, ks);
    AddAllEventKinds(kept, next);
    forall m | 0 <= m < |next|
      ensures Changes(kept, next[m]) == Changes(es, next[m])
      ensures forall e :: EventOf(kept, next[m], e) == EventOf(es, next[m], e)
    {
      if next[m].key in KeySet(es) {
        KeptEntry(es, ks, next[m].key);
      } else {
        assert next[m].key !in KeySet(kept);
      }
    }
  }

  lemma AdjacentAfter(pre: seq<Event>, evs: seq<Event>, a: Event, b: Event)
    requires Adjacent(evs, a, b)
    ensures Adjacent(pre + evs, a, b)
  {
    var p :| 0 <= p < |evs| - 1 && evs[p] == a && evs[p + 1] == b;
    assert (pre + evs)[|pre| + p] == a && (pre + evs)[|pre| + p + 1] == b;
  }

  /** A changed device of next has its two events emitted back to back. */
  lemma {:induction false} AddAllChangedAdjacent(es: seq<Entry>, next: seq<Entry>, j: nat)
    requires UniqueKeys(es) && UniqueKeys(next) && j < |next|
    requires next[j].key in KeySet(es) && EntryAt(es, next[j].key).sig != next[j].sig
    ensures Adjacent(AddAll(es, next).1, Detached(EntryAt(es, next[j].key).usbId), Attached(next[j].usbId, next[j].endpoints))
    decreases |next|
  {
    var n := |next| - 1;
    var pre := next[..n];
    assert forall i :: 0 <= i < n ==> pre[i] == next[i];
    AddAllKeys(es, pre);
    var (mid, evs) := AddAll(es, pre);
    var more := AddOne(mid, next[n]).1;
    assert AddAll(es, next).1 == evs + more;
    if j == n {
      assert forall i :: 0 <= i < n ==> pre[i].key != next[j].key;
      AddAllUntouched(es, pre, next[j].key);
      assert more == [Detached(EntryAt(es, next[j].key).usbId), Attached(next[j].usbId, next[j].endpoints)];
      assert (evs + more)[|evs|] == more[0] && (evs + more)[|evs| + 1] == more[1];
    } else {
      AddAllChangedAdjacent(es, pre, j);
      var p :| 0 <= p < |evs| - 1 && evs[p] == Detached(EntryAt(es, next[j].key).usbId) && evs[p + 1] == Attached(next[j].usbId, next[j].endpoints);
      assert (evs + more)[p] == evs[p] && (evs + more)[p + 1] == evs[p + 1];
    }
  }

  /** The first loop emits only the detached events of devices next lacks. */
  lemma {:induction false} RemoveGoneEventKinds(es: seq<Entry>, next: set<string>)
    ensures forall e :: e in RemoveGone(es, next).1 ==> exists i :: 0 <= i < |es| && es[i].key !in next && e == Detached(es[i].usbId)
    decreases |es|
  {
    if es != [] {
      var n := |es| - 1;
      assert forall i :: 0 <= i < n ==> es[..n][i] == es[i];
      RemoveGoneEventKinds(es[..n], next);
    }
  }

  /** The second loop emits events only for devices of next that are new or changed. */
  lemma {:induction false} AddAllEventKinds(es: seq<Entry>, next: seq<Entry>)
    requires UniqueKeys(es) && UniqueKeys(next)
    ensures forall e :: e in AddAll(es, next).1 ==> exists m :: 0 <= m < |next| && Changes(es, next[m]) && EventOf(es, next[m], e)
    decreases |next|
  {
    if next != [] {
      var n := |next| - 1;
      var pre := next[..n];
      assert forall i :: 0 <= i < n ==> pre[i] == next[i];
      AddAllKeys(es, pre);
      AddAllEventKinds(es, pre);
      var (mid, evs) := AddAll(es, pre);
      var more := AddOne(mid, next[n]).1;
      assert AddAll(es, next).1 == evs + more;
      var k := next[n].key;
      assert k !in KeySet(pre);
      if k in KeySet(mid) {
        AddAllUntouched(es, pre, k);
      }
      forall e | e in more
        ensures Changes(es, next[n]) && EventOf(es, next[n], e)
      {
      }
    }
  }

  /**
   * With every key made from its device's identity, a device present in both
   * scans with an unchanged signature emits no event under its key.
   */
  lemma DiffQuietWhenUnchanged(es: seq<Entry>, next: seq<Entry>, j: nat)
    requires UniqueKeys(es) && UniqueKeys(next)
    requires (forall e :: e in es ==> Keyed(e)) && forall e :: e in next ==> Keyed(e)
    requires j < |next| && next[j].key in KeySet(es) && EntryAt(es, next[j].key).sig == next[j].sig
    ensures forall e :: e in Diff(es, next).1 ==> MakeKey(e.usbId) != next[j].key
  {
    DiffEvents(es, next);
    forall e | e in Diff(es, next).1
      ensures MakeKey(e.usbId) != next[j].key
    {
      QuietEvent(es, next, j, e);
    }
  }

  /** One event of the diff, of one of its three kinds, is not under an unchanged device's key. */
  lemma QuietEvent(es: seq<Entry>, next: seq<Entry>, j: nat, e: Event)
    requires UniqueKeys(next)
    requires (forall e :: e in es ==> Keyed(e)) && forall e :: e in next ==> Keyed(e)
    requires j < |next| && !Changes(es, next[j])
    requires (exists i :: 0 <= i < |es| && es[i].key !in KeySet(next) && e == Detached(es[i].usbId))
      || (exists m :: 0 <= m < |next| && Changes(es, next[m]) && EventOf(es, next[m], e))
    ensures MakeKey(e.usbId) != next[j].key
  {
    if exists i :: 0 <= i < |es| && es[i].key !in KeySet(next) && e == Detached(es[i].usbId) {
      var i :| 0 <= i < |es| && es[i].key !in KeySet(next) && e == Detached(es[i].usbId);
      assert Keyed(es[i]);
    } else {
      var m :| 0 <= m < |next| && Changes(es, next[m]) && EventOf(es, next[m], e);
      assert m != j;
      assert Keyed(next[m]);
      if next[m].key in KeySet(es) {
        assert Keyed(EntryAt(es, next[m].key));
      }
    }
  }

  lemma {:induction false} RemoveGoneDetaches(es: seq<Entry>, next: set<string>, i: nat)
    requires i < |es| && es[i].key !in next
    ensures Detached(es[i].usbId) in RemoveGone(es, next).1
    decreases |es|
  {
    var n := |es| - 1;
    assert es == es[..n] + [es[n]];
    if i < n {
      assert es[..n][i] == es[i];
      RemoveGoneDetaches(es[..n], next, i);
    }
  }

  /** A key kept by the first loop keeps its entry. */
  lemma KeptEntry(es: seq<Entry>, next: set<string>, k: string)
    requires UniqueKeys(es) && k in KeySet(es) && k in next
    ensures k in KeySet(RemoveGone(es, next).0)
    ensures EntryAt(RemoveGone(es, next).0, k) == EntryAt(es, k)
  {
    var kept := RemoveGone(es, next).0;
    var e := EntryAt(es, k);
    assert e in es;
    assert e in kept;
    var m :| 0 <= m < |kept| && kept[m] == e;
    UniqueIndex(kept, m);
  }

  // ------------------------------------------------------------------
  // The inventory object

  class Inventory {
    /** #byKey, in insertion order. */
    var entries: seq<Entry>

    predicate Valid()
      reads this
    {
      UniqueKeys(entries)
    }

    constructor()
      ensures Valid() && entries == []
    {
      entries := [];
    }

    /** resolveSerialPath(usbId) */
    method ResolveSerialPath(x: Value) returns (r: Result<Option<string>, UsbError>)
      ensures r == ResolveOf'(entries, x)
    {
      var norm := NormalizeUsbId(x);
      if norm.Err? {
        return Err(norm.error);
      }
      var matches := CollectMatches(entries, norm.value);
      if |matches| == 0 {
        return Err(UsbNotFound);
      }
      if |matches| > 1 {
        return Err(UsbAmbiguous);
      }
      r := Ok(FirstPath(matches[0].endpoints));
    }

    /** The loop of resolveSerialPath: the stored devices whose key answers want, in map order. */
    static method CollectMatches(es: seq<Entry>, want: UsbId) returns (matches: seq<Entry>)
      ensures matches == MatchesOf(es, want)
    {
      matches := [];
      for i := 0 to |es|
        invariant matches == MatchesOf(es[..i], want)
      {
        assert es[..i + 1][..i] == es[..i];
        var hit := KeyTest(es[i].key, want);
        if hit {
          matches := matches + [es[i]];
        }
      }
      assert es[..|es|] == es;
    }

    /** The key tests of resolveSerialPath's loop body, in their order. */
    static method KeyTest(k: string, want: UsbId) returns (hit: bool)
      ensures hit == KeyMatches(k, want)
    {
      if !StartsWith(k, want.vid + ":" + want.pid + ":") {
        return false;
      }
      if want.serial.Some? {
        if !StartsWith(k, want.vid + ":" + want.pid + ":" + want.serial.value + ":") {
          return false;
        }
        if want.iface.Some? {
          return k == MakeKey(want);
        }
        return true;
      }
      if want.iface.Some? {
        if !EndsWith(k, ":" + want.iface.value) {
          return false;
        }
      }
      return true;
    }

    /** #diffAndApply(next): replaces the stored devices and returns the emitted events. */
    method DiffAndApply(next: seq<Entry>) returns (events: seq<Event>)
      requires Valid() && UniqueKeys(next)
      modifies this
      ensures Valid()
      ensures (entries, events) == Diff(old(entries), next)
    {
      var kept, gone := DeleteGone(entries, KeySet(next));
      var out, added := AddNext(kept, next);
      AddAllKeys(kept, next);
      entries := out;
      events := gone + added;
    }

    /** The first loop of #diffAndApply. */
    static method DeleteGone(es: seq<Entry>, ks: set<string>) returns (kept: seq<Entry>, events: seq<Event>)
      ensures (kept, events) == RemoveGone(es, ks)
    {
      kept := [];
      events := [];
      for i := 0 to |es|
        invariant (kept, events) == RemoveGone(es[..i], ks)
      {
        assert es[..i + 1][..i] == es[..i];
        if es[i].key in ks {
          kept := kept + [es[i]];
        } else {
          events := events + [Detached(es[i].usbId)];
        }
      }
      assert es[..|es|] == es;
    }

    /** The second loop of #diffAndApply. */
    static method AddNext(es: seq<Entry>, next: seq<Entry>) returns (out: seq<Entry>, events: seq<Event>)
      requires UniqueKeys(es)
      ensures (out, events) == AddAll(es, next)
    {
      out := es;
      events := [];
      assert next[..0] == [];
      for j := 0 to |next|
        invariant (out, events) == AddAll(es, next[..j])
        invariant UniqueKeys(out)
      {
        assert next[..j + 1][..j] == next[..j];
        AddOneKeys(out, next[j]);
        var (o, more) := AddOne(out, next[j]);
        out := o;
        events := events + more;
      }
      assert next[..|next|] == next;
    }

    /** dispose(): forgets every stored device. */
    method Dispose()
      modifies this
      ensures Valid() && entries == []
    {
      entries := [];
    }
  }
}
