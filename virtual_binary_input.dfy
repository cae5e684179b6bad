/**
 * The virtual binary input: a boolean level that tests and simulations
 * drive by hand. Subscribers are kept in subscription order without
 * duplicates, as a JavaScript Set keeps them, and are told of every change
 * of level, never of a repeated one. Handlers are named by identifiers;
 * the calls a set makes are returned in the order it makes them.
 */
module VirtualBinaryInput {
  import opened Js

  type Handler = nat

  /** One call h(next) made by set. */
  datatype Call = Call(handler: Handler, level: bool)

  predicate NoDuplicates(hs: seq<Handler>)
  {
    forall i, j :: 0 <= i < j < |hs| ==> hs[i] != hs[j]
  }

  /** handlers.add(h): appended unless already present. */
  function Add(hs: seq<Handler>, h: Handler): (r: seq<Handler>)
    ensures NoDuplicates(hs) ==> NoDuplicates(r)
    ensures h in r && forall g :: g in r <==> g in hs || g == h
  {
    if h in hs then hs else hs + [h]
  }

  /** handlers.delete(h): removed, the others kept in order. */
  function Remove(hs: seq<Handler>, h: Handler): (r: seq<Handler>)
    ensures NoDuplicates(hs) ==> NoDuplicates(r)
    ensures h !in r && forall g :: g in r <==> g in hs && g != h
    ensures |r| <= |hs|
  {
    if hs == [] then []
    else if hs[0] == h then Remove(hs[1..], h)
    else
      var rest := Remove(hs[1..], h);
      assert NoDuplicates(hs) ==> hs[0] !in hs[1..];
      [hs[0]] + rest
  }

  /** Subscribing and then unsubscribing the same handler leaves the others as they were. */
  lemma {:induction false} RemoveAdd(hs: seq<Handler>, h: Handler)
    ensures Remove(Add(hs, h), h) == Remove(hs, h)
  {
    if h !in hs {
      RemoveAppended(hs, h);
    }
  }

  lemma {:induction false} RemoveAppended(hs: seq<Handler>, h: Handler)
    ensures Remove(hs + [h], h) == Remove(hs, h)
    decreases |hs|
  {
    if hs == [] {
      assert Remove([h], h) == Remove([], h);
    } else {
      assert (hs + [h])[1..] == hs[1..] + [h];
      RemoveAppended(hs[1..], h);
    }
  }

  /** Subscribing twice is subscribing once. */
  lemma AddTwice(hs: seq<Handler>, h: Handler)
    ensures Add(Add(hs, h), h) == Add(hs, h)
  {
  }

  /** The calls set makes for a change: each handler once, in subscription order, with the new level. */
  function Notify(hs: seq<Handler>, level: bool): (calls: seq<Call>)
    ensures |calls| == |hs|
    ensures forall i :: 0 <= i < |hs| ==> calls[i] == Call(hs[i], level)
  {
    seq(|hs|, i requires 0 <= i < |hs| => Call(hs[i], level))
  }

  class Input {
    var level: bool
    var handlers: seq<Handler>

    predicate Valid()
      reads this
    {
      NoDuplicates(handlers)
    }

    /** new VirtualBinaryInput(initial): Boolean(initial), false when omitted. */
    constructor(initial: Value)
      ensures Valid()
      ensures level == Truthy(initial) && handlers == []
    {
      level := Truthy(initial);
      handlers := [];
    }

    /** subscribe(handler) */
    method Subscribe(h: Handler)
      requires Valid()
      modifies this
      ensures Valid()
      ensures handlers == Add(old(handlers), h) && level == old(level)
    {
      if h !in handlers {
        handlers := handlers + [h];
      }
    }

    /** The function subscribe returns: deletes that handler. */
    method Unsubscribe(h: Handler)
      requires Valid()
      modifies this
      ensures Valid()
      ensures handlers == Remove(old(handlers), h) && level == old(level)
    {
      handlers := Remove(handlers, h);
    }

    /**
     * set(value): a change of level is stored and every subscriber called
     * with it; setting the level it already has calls nobody.
     */
    method Set(value: Value) returns (calls: seq<Call>)
      requires Valid()
      modifies this
      ensures Valid() && handlers == old(handlers)
      ensures level == Truthy(value)
      ensures calls == if Truthy(value) == old(level) then [] else Notify(handlers, level)
    {
      var next := Truthy(value);
      if next == level {
        return [];
      }
      level := next;
      calls := [];
      for i := 0 to |handlers|
        invariant calls == Notify(handlers[..i], next)
      {
        calls := calls + [Call(handlers[i], next)];
      }
      assert handlers[..|handlers|] == handlers;
    }

    /** dispose(): forgets every subscriber. */
    method Dispose()
      modifies this
      ensures Valid() && handlers == [] && level == old(level)
    {
      handlers := [];
    }
  }
}
