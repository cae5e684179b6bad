/**
 * The lifecycle every device shares: blocked / unblocked / disposed, and
 * the two hooks a concrete device implements, _startImpl and
 * _stopImpl(reason). A device records the hook calls it receives in
 * Device.hooks.
 */
module BaseDevice {
  import opened Common
  import opened Js

  /** The immutable configuration of a device (ids are strings here). */
  datatype DeviceConfig = DeviceConfig(
    id: string,
    publishAs: Option<string>,
    kind: Option<string>,
    domain: Option<string>,
    state: Option<string>,
    modes: seq<string>)

  /** getPublishAs: publishAs ?? id */
  function PublishAs(cfg: DeviceConfig): (s: string)
    ensures cfg.publishAs.Some? ==> s == cfg.publishAs.value
    ensures cfg.publishAs.None? ==> s == cfg.id
  {
    match cfg.publishAs
    case Some(p) => p
    case None => cfg.id
  }

  /** getConfiguredState: state ?? 'active' */
  function ConfiguredState(cfg: DeviceConfig): (s: string)
    ensures cfg.state.Some? ==> s == cfg.state.value
    ensures cfg.state.None? ==> s == "active"
  {
    match cfg.state
    case Some(st) => st
    case None => "active"
  }

  /** _setLastError(msg): String(msg) for a truthy msg, otherwise null. */
  function LastErrorOf(msg: Value): (e: Option<string>)
    ensures !Truthy(msg) <==> e.None?
    ensures msg.Str? && msg.s != [] ==> e == Some(msg.s)
  {
    if Truthy(msg) then Some(ToStr(msg)) else None
  }

  datatype Hook = StartImpl | StopImpl(reason: Option<string>)

  const DISPOSE_REASON: Option<string> := Some("dispose")

  datatype Lifecycle = Lifecycle(blocked: bool, disposed: bool)

  datatype Op = Start | Block(reason: Option<string>) | Unblock | Dispose

  /** A disposed device is always blocked. */
  predicate Consistent(s: Lifecycle) { s.disposed ==> s.blocked }

  /** The effect of one lifecycle call: the new flags and the hooks it runs. */
  function Step(s: Lifecycle, op: Op): (r: (Lifecycle, seq<Hook>))
    requires Consistent(s)
    ensures Consistent(r.0) && |r.1| <= 1
    ensures s.disposed ==> r == (s, [])
    ensures r.0.disposed <==> s.disposed || op.Dispose?
    ensures r.1 == [StartImpl] <==> !s.disposed && ((op.Start? && !s.blocked) || (op.Unblock? && s.blocked))
    ensures op.Block? ==> (r.1 != [] <==> !s.blocked) && r.0.blocked
    ensures op.Dispose? && !s.disposed ==> r.1 == [StopImpl(DISPOSE_REASON)]
  {
    match op
    case Start => (s, if s.disposed || s.blocked then [] else [StartImpl])
    case Block(reason) =>
      if s.disposed || s.blocked then (s, []) else (Lifecycle(true, false), [StopImpl(reason)])
    case Unblock =>
      if s.disposed || !s.blocked then (s, []) else (Lifecycle(false, false), [StartImpl])
    case Dispose =>
      if s.disposed then (s, []) else (Lifecycle(true, true), [StopImpl(DISPOSE_REASON)])
  }

  /** The flags and the hooks of a sequence of lifecycle calls. */
  function Run(s: Lifecycle, ops: seq<Op>): (r: (Lifecycle, seq<Hook>))
    requires Consistent(s)
    ensures Consistent(r.0)
    decreases |ops|
  {
    if ops == [] then (s, [])
    else
      var first := Step(s, ops[0]);
      var rest := Run(first.0, ops[1..]);
      (rest.0, first.1 + rest.1)
  }

  /** Disposal is terminal: nothing after it changes a flag or runs a hook. */
  lemma {:induction false} DisposedStaysDisposed(s: Lifecycle, ops: seq<Op>)
    requires Consistent(s) && s.disposed
    ensures Run(s, ops) == (s, [])
    decreases |ops|
  {
    if ops != [] {
      assert Step(s, ops[0]) == (s, []);
      DisposedStaysDisposed(s, ops[1..]);
      assert [] + Run(s, ops[1..]).1 == [];
    }
  }

  /** Number of calls in ops that take the device from unblocked to blocked by block(). */
  function BlockTransitions(s: Lifecycle, ops: seq<Op>): nat
    requires Consistent(s)
    decreases |ops|
  {
    if ops == [] then 0
    else
      var t := Step(s, ops[0]).0;
      (if ops[0].Block? && !s.blocked && !s.disposed then 1 else 0) + BlockTransitions(t, ops[1..])
  }

  /** Number of _stopImpl calls with a reason other than dispose. */
  function BlockStops(hooks: seq<Hook>): nat
  {
    if hooks == [] then 0
    else (if hooks[0].StopImpl? && hooks[0].reason != DISPOSE_REASON then 1 else 0) + BlockStops(hooks[1..])
  }

  lemma {:induction false} BlockStopsAppend(a: seq<Hook>, b: seq<Hook>)
    ensures BlockStops(a + b) == BlockStops(a) + BlockStops(b)
  {
    if a == [] {
      assert a + b == b;
    } else {
      assert (a + b)[0] == a[0];
      assert (a + b)[1..] == a[1..] + b;
      BlockStopsAppend(a[1..], b);
    }
  }

  /**
   * block() runs _stopImpl exactly once per unblocked-to-blocked transition
   * (for reasons other than "dispose", which only dispose() passes).
   */
  lemma {:induction false} StopOncePerBlock(s: Lifecycle, ops: seq<Op>)
    requires Consistent(s)
    requires forall i :: 0 <= i < |ops| ==> ops[i] != Block(DISPOSE_REASON)
    ensures BlockStops(Run(s, ops).1) == BlockTransitions(s, ops)
    decreases |ops|
  {
    if ops != [] {
      var t := Step(s, ops[0]).0;
      var h := Step(s, ops[0]).1;
      StopOncePerBlock(t, ops[1..]);
      BlockStopsAppend(h, Run(t, ops[1..]).1);
      assert BlockStops(h) == (if ops[0].Block? && !s.blocked && !s.disposed then 1 else 0) by {
        if h != [] { assert h[1..] == []; }
      }
    }
  }

  /** block then unblock of a running device stops it and starts it again. */
  lemma BlockUnblockRestarts(reason: Option<string>)
    ensures Run(Lifecycle(false, false), [Block(reason), Unblock])
         == (Lifecycle(false, false), [StopImpl(reason), StartImpl])
  {
    var ops := [Block(reason), Unblock];
    var s0 := Lifecycle(false, false);
    var s1 := Lifecycle(true, false);
    assert Step(s0, Block(reason)) == (s1, [StopImpl(reason)]);
    assert Step(s1, Unblock) == (s0, [StartImpl]);
    assert Run(s0, []) == (s0, []);
    assert ops[1..] == [Unblock];
    assert [Unblock][1..] == [];
    assert Run(s1, [Unblock]) == (s0, [StartImpl] + []);
    assert [StartImpl] + [] == [StartImpl];
    assert Run(s0, ops) == (s0, [StopImpl(reason)] + [StartImpl]);
    assert [StopImpl(reason)] + [StartImpl] == [StopImpl(reason), StartImpl];
  }

  class Device {
    const cfg: DeviceConfig
    var blocked: bool
    var disposed: bool
    var lastError: Option<string>
    /** The hooks run so far, oldest first. */
    var hooks: seq<Hook>

    ghost predicate Valid()
      reads this
    {
      Consistent(Lifecycle(blocked, disposed))
    }

    function Flags(): Lifecycle
      reads this
    {
      Lifecycle(blocked, disposed)
    }

    constructor (cfg: DeviceConfig)
      requires cfg.id != []
      ensures Valid() && this.cfg == cfg
      ensures !blocked && !disposed && lastError == None && hooks == []
    {
      this.cfg := cfg;
      blocked := false;
      disposed := false;
      lastError := None;
      hooks := [];
    }

    /** The constructor's check: a device needs a non-empty id (null stands for the throw). */
    static method Create(cfg: DeviceConfig) returns (d: Device?)
      ensures cfg.id == [] <==> d == null
      ensures d != null ==> fresh(d) && d.Valid() && d.cfg == cfg && !d.blocked && !d.disposed && d.hooks == []
    {
      if cfg.id == [] {
        d := null;
      } else {
        d := new Device(cfg);
      }
    }

    /** start(): _startImpl unless disposed or blocked. */
    method Start()
      requires Valid()
      modifies this`hooks
      ensures Valid()
      ensures Flags() == Step(old(Flags()), Op.Start).0 && hooks == old(hooks) + Step(old(Flags()), Op.Start).1
    {
      if disposed || blocked {
        return;
      }
      hooks := hooks + [StartImpl];
    }

    /** block(reason): the first block of a live device runs _stopImpl(reason). */
    method Block(reason: Option<string>)
      requires Valid()
      modifies this`blocked, this`hooks
      ensures Valid()
      ensures Flags() == Step(old(Flags()), Op.Block(reason)).0 && hooks == old(hooks) + Step(old(Flags()), Op.Block(reason)).1
    {
      if disposed {
        return;
      }
      if blocked {
        return;
      }
      blocked := true;
      hooks := hooks + [StopImpl(reason)];
    }

    /** unblock(): a blocked, live device is unblocked and runs _startImpl. */
    method Unblock()
      requires Valid()
      modifies this`blocked, this`hooks
      ensures Valid()
      ensures Flags() == Step(old(Flags()), Op.Unblock).0 && hooks == old(hooks) + Step(old(Flags()), Op.Unblock).1
    {
      if disposed {
        return;
      }
      if !blocked {
        return;
      }
      blocked := false;
      hooks := hooks + [StartImpl];
    }

    /** dispose(): terminal; sets both flags and runs _stopImpl('dispose') once. */
    method Dispose()
      requires Valid()
      modifies this`blocked, this`disposed, this`hooks
      ensures Valid()
      ensures Flags() == Step(old(Flags()), Op.Dispose).0 && hooks == old(hooks) + Step(old(Flags()), Op.Dispose).1
    {
      if disposed {
        return;
      }
      disposed := true;
      blocked := true;
      hooks := hooks + [StopImpl(DISPOSE_REASON)];
    }

    method SetLastError(msg: Value)
      modifies this`lastError
      ensures lastError == LastErrorOf(msg)
    {
      lastError := LastErrorOf(msg);
    }
  }
}
