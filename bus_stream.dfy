/**
 * The bus stream: a shared fan-out of bus events to attached clients (the
 * WebSocket connections, the CLI). Each bus is subscribed at most once, for
 * as long as some attached client wants it; a client's selection is every
 * allowed bus, an explicit list, or the default bus.
 */
module BusStream {
  import opened Common
  import opened Js

  // ------------------------------------------------------------------
  // Selections

  /** The elements of xs that are in keep, in the order of xs. */
  function Keep(xs: seq<string>, keep: set<string>): (r: seq<string>)
    ensures forall b :: b in r <==> b in xs && b in keep
    ensures |r| <= |xs|
  {
    if xs == [] then []
    else (if xs[0] in keep then [xs[0]] else []) + Keep(xs[1..], keep)
  }

  /** The bus names that can be subscribed to, in the order of the registry. */
  function AllowedOf(names: seq<string>, subscribable: set<string>): (r: seq<string>)
    ensures forall b :: b in r <==> b in names && b in subscribable
    ensures |r| <= |names|
  {
    Keep(names, subscribable)
  }

  /** main when it is allowed, else the first allowed name when it is not blank, else none (`|| null`). */
  function DefaultBus(allowed: seq<string>): (r: Option<string>)
    ensures r.Some? ==> r.value in allowed
    ensures "main" in allowed ==> r == Some("main")
    ensures "main" !in allowed && allowed != [] && allowed[0] != [] ==> r == Some(allowed[0])
  {
    if "main" in allowed then Some("main")
    else if allowed != [] && allowed[0] != [] then Some(allowed[0])
    else None
  }

  /** The entries of select.buses that are allowed names, in order (includes never matches a non-string). */
  function KeepAllowed(list: seq<Value>, allowed: seq<string>): (r: seq<string>)
    ensures forall b :: b in r <==> Str(b) in list && b in allowed
  {
    if list == [] then []
    else (if list[0].Str? && list[0].s in allowed then [list[0].s] else []) + KeepAllowed(list[1..], allowed)
  }

  /** Array.isArray(select?.buses) ? select.buses : [] */
  function BusList(select: Value): (list: seq<Value>)
    ensures Get(select, "buses").Arr? ==> list == Get(select, "buses").items
    ensures !Get(select, "buses").Arr? ==> list == []
  {
    var buses := Get(select, "buses");
    if buses.Arr? then buses.items else []
  }

  /**
   * #resolveSelection(select): nothing when no bus is allowed; every allowed
   * bus for mode 'all'; else the allowed entries of select.buses, and when
   * there are none, the default bus (or the first allowed one).
   */
  function ResolveSelection(allowed: seq<string>, select: Value): (r: seq<string>)
    ensures r == [] <==> allowed == []
    ensures forall b :: b in r ==> b in allowed
    ensures allowed != [] && Get(select, "mode") == Str("all") ==> r == allowed
    ensures allowed != [] && Get(select, "mode") != Str("all") && KeepAllowed(BusList(select), allowed) != [] ==>
      r == KeepAllowed(BusList(select), allowed)
    ensures allowed != [] && Get(select, "mode") != Str("all") && KeepAllowed(BusList(select), allowed) == [] ==>
      r == if "main" in allowed then ["main"] else [allowed[0]]
  {
    if allowed == [] then []
    else if Get(select, "mode") == Str("all") then allowed
    else
      var filtered := KeepAllowed(BusList(select), allowed);
      if filtered != [] then filtered
      else match DefaultBus(allowed)
        case Some(b) => [b]
        case None => [allowed[0]]
  }

  /** The token of one `&` part of a query: the text before any `=`, trimmed. */
  function QueryToken(part: string): (t: string)
    ensures '=' !in t
  {
    Trim(Split(part, '=')[0])
  }

  /** The non-blank tokens of the parts, in order. */
  function QueryTokens(parts: seq<string>): (ts: seq<string>)
    ensures forall t :: t in ts ==> t != [] && '=' !in t
  {
    if parts == [] then []
    else
      var t := QueryToken(parts[0]);
      (if t != [] then [t] else []) + QueryTokens(parts[1..])
  }

  /** No non-blank token is lost. */
  lemma {:induction false} QueryTokensKeep(parts: seq<string>, i: nat)
    requires i < |parts| && QueryToken(parts[i]) != []
    ensures QueryToken(parts[i]) in QueryTokens(parts)
  {
    if i > 0 {
      QueryTokensKeep(parts[1..], i - 1);
    }
  }

  /** The tokens of a raw query string, String(rawQuery || ''). */
  function Tokens(raw: Value): seq<string>
  {
    QueryTokens(Split(if Truthy(raw) then ToStr(raw) else [], '&'))
  }

  /** The strings of a token list that are allowed names, in order. */
  function Wanted(tokens: seq<string>, allowed: seq<string>): (r: seq<string>)
    ensures forall b :: b in r <==> b in tokens && b in allowed
    ensures |r| <= |tokens|
  {
    Keep(tokens, set b | b in allowed)
  }

  /** What parseQuery returns: { mode: 'all' } or { buses: [...] }. */
  datatype Query = All | Buses(names: seq<string>)

  /** parseQuery(rawQuery): any `all` token selects every bus; otherwise only allowed names are kept. */
  function ParseQuery(allowed: seq<string>, raw: Value): (q: Query)
    ensures q == All <==> "all" in Tokens(raw)
    ensures q.Buses? ==> forall b :: b in q.names <==> b in Tokens(raw) && b in allowed
  {
    var tokens := Tokens(raw);
    if "all" in tokens then All else Buses(Wanted(tokens, allowed))
  }

  /** The object parseQuery returns, as attachClient reads it back. */
  function QueryValue(q: Query): Value
  {
    match q
    case All => Obj([Prop("mode", Str("all"))])
    case Buses(names) => Obj([Prop("buses", Arr(Strs(names)))])
  }

  function Strs(names: seq<string>): (vs: seq<Value>)
    ensures |vs| == |names| && forall i :: 0 <= i < |names| ==> vs[i] == Str(names[i])
  {
    if names == [] then [] else [Str(names[0])] + Strs(names[1..])
  }

  lemma {:induction false} KeepAllowedStrs(names: seq<string>, allowed: seq<string>)
    requires forall b :: b in names ==> b in allowed
    ensures KeepAllowed(Strs(names), allowed) == names
  {
    if names != [] {
      KeepAllowedStrs(names[1..], allowed);
      assert Strs(names)[1..] == Strs(names[1..]);
    }
  }

  /**
   * A query string used as a selection: every allowed bus when it has an
   * `all` token, else its allowed names, else the default.
   */
  lemma QuerySelection(allowed: seq<string>, raw: Value)
    requires allowed != []
    ensures "all" in Tokens(raw) ==> ResolveSelection(allowed, QueryValue(ParseQuery(allowed, raw))) == allowed
    ensures "all" !in Tokens(raw) && Wanted(Tokens(raw), allowed) != [] ==>
      ResolveSelection(allowed, QueryValue(ParseQuery(allowed, raw))) == Wanted(Tokens(raw), allowed)
    ensures "all" !in Tokens(raw) && Wanted(Tokens(raw), allowed) == [] ==>
      ResolveSelection(allowed, QueryValue(ParseQuery(allowed, raw))) == if "main" in allowed then ["main"] else [allowed[0]]
  {
    var q := ParseQuery(allowed, raw);
    if q.Buses? {
      BusesSelection(allowed, q.names);
    }
  }

  /** A list of allowed names used as a selection: that list, or the default when it is empty. */
  lemma BusesSelection(allowed: seq<string>, names: seq<string>)
    requires allowed != [] && forall b :: b in names ==> b in allowed
    ensures names != [] ==> ResolveSelection(allowed, QueryValue(Buses(names))) == names
    ensures names == [] ==> ResolveSelection(allowed, QueryValue(Buses(names))) == if "main" in allowed then ["main"] else [allowed[0]]
  {
    var v := QueryValue(Buses(names));
    assert Get(v, "mode") == Undefined;
    assert Get(v, "buses") == Arr(Strs(names));
    KeepAllowedStrs(names, allowed);
  }

  /** new Set(list): the first occurrence of each name, in order. */
  function Dedup(list: seq<string>): (r: seq<string>)
    ensures forall b :: b in r <==> b in list
    ensures forall i, j :: 0 <= i < j < |r| ==> r[i] != r[j]
  {
    if list == [] then []
    else
      var p := Dedup(list[..|list| - 1]);
      var b := list[|list| - 1];
      assert forall x :: x in list <==> x in list[..|list| - 1] || x == b;
      if b in p then p else p + [b]
  }

  // ------------------------------------------------------------------
  // Clients and bus registrations

  /** The clients (id -> wanted buses) and the bus registrations (bus -> client ids). */
  datatype Stream = Stream(clients: map<string, seq<string>>, regs: map<string, set<string>>)

  const Empty := Stream(map[], map[])

  /**
   * A client is in a bus's registration exactly when it is attached and
   * wants that bus; every registration has a client; clients want only
   * allowed buses.
   */
  predicate Inv(s: Stream, allowed: seq<string>)
  {
    (forall id, b :: id in s.clients && b in s.clients[id] ==> b in s.regs && id in s.regs[b])
    && (forall b, id :: b in s.regs && id in s.regs[b] ==> id in s.clients && b in s.clients[id])
    && (forall b :: b in s.regs ==> s.regs[b] != {})
    && (forall id :: id in s.clients ==> id != [])
    && (forall id, b :: id in s.clients && b in s.clients[id] ==> b in allowed)
  }

  /** The loop of attachClient: the client id joins the registration of every wanted bus, made when missing. */
  function AddClient(regs: map<string, set<string>>, wanted: seq<string>, id: string): (r: map<string, set<string>>)
    ensures forall b :: b in r <==> b in regs || b in wanted
    ensures forall b :: b in r ==> r[b] == (if b in regs then regs[b] else {}) + (if b in wanted then {id} else {})
  {
    if wanted == [] then regs
    else
      var p := AddClient(regs, wanted[..|wanted| - 1], id);
      var b := wanted[|wanted| - 1];
      assert forall x :: x in wanted <==> x in wanted[..|wanted| - 1] || x == b;
      p[b := (if b in p then p[b] else {}) + {id}]
  }

  /** The loop of detachClient: the client id leaves each wanted bus's registration, which is dropped once empty. */
  function RemoveClient(regs: map<string, set<string>>, wanted: seq<string>, id: string): (r: map<string, set<string>>)
    ensures forall b :: b in r <==> b in regs && (b !in wanted || regs[b] - {id} != {})
    ensures forall b :: b in r ==> r[b] == if b in wanted then regs[b] - {id} else regs[b]
  {
    if wanted == [] then regs
    else
      var p := RemoveClient(regs, wanted[..|wanted| - 1], id);
      var b := wanted[|wanted| - 1];
      assert forall x :: x in wanted <==> x in wanted[..|wanted| - 1] || x == b;
      if b !in p then p
      else
        var ids := p[b] - {id};
        if ids == {} then p - {b} else p[b := ids]
  }

  /** detachClient(id) for id = String(id || '').trim(): a blank or unknown id changes nothing. */
  function DetachSpec(s: Stream, id: string): (r: Stream)
    ensures id == [] || id !in s.clients ==> r == s
    ensures id != [] && id in s.clients ==> r.clients == s.clients - {id}
  {
    if id == [] || id !in s.clients then s
    else Stream(s.clients - {id}, RemoveClient(s.regs, s.clients[id], id))
  }

  /** Detaching keeps the invariant, and the registrations of a bus are dropped exactly when no client wants it any more. */
  lemma DetachKeepsInv(s: Stream, allowed: seq<string>, id: string)
    requires Inv(s, allowed)
    ensures Inv(DetachSpec(s, id), allowed)
  {
  }

  /**
   * attachClient({ id, select, onEvent }) for id = String(id || '').trim():
   * a blank id or a missing onEvent throws; an attached id is detached
   * first; the client then wants the buses of its selection.
   */
  function AttachSpec(s: Stream, allowed: seq<string>, id: string, select: Value, hasOnEvent: bool): (r: (Stream, Result<(), string>))
    ensures r.1 == Err("missing_client_id") <==> id == []
    ensures r.1 == Err("missing_onEvent") <==> id != [] && !hasOnEvent
    ensures r.1.Err? ==> r.0 == s
    ensures r.1.Ok? ==> r.0.clients == s.clients[id := Dedup(ResolveSelection(allowed, select))]
  {
    if id == [] then (s, Err("missing_client_id"))
    else if !hasOnEvent then (s, Err("missing_onEvent"))
    else
      var s1 := if id in s.clients then DetachSpec(s, id) else s;
      var wanted := Dedup(ResolveSelection(allowed, select));
      (Stream(s1.clients[id := wanted], AddClient(s1.regs, wanted, id)), Ok(()))
  }

  lemma AttachKeepsInv(s: Stream, allowed: seq<string>, id: string, select: Value, hasOnEvent: bool)
    requires Inv(s, allowed)
    ensures Inv(AttachSpec(s, allowed, id, select, hasOnEvent).0, allowed)
  {
    if id != [] && hasOnEvent {
      var s1 := if id in s.clients then DetachSpec(s, id) else s;
      DetachKeepsInv(s, allowed, id);
      AddKeepsInv(s1, allowed, id, Dedup(ResolveSelection(allowed, select)));
    }
  }

  lemma AddKeepsInv(s: Stream, allowed: seq<string>, id: string, wanted: seq<string>)
    requires Inv(s, allowed) && id != [] && id !in s.clients
    requires forall b :: b in wanted ==> b in allowed
    ensures Inv(Stream(s.clients[id := wanted], AddClient(s.regs, wanted, id)), allowed)
  {
    var a := Stream(s.clients[id := wanted], AddClient(s.regs, wanted, id));
    forall c, b | c in a.clients && b in a.clients[c]
      ensures b in a.regs && c in a.regs[b]
    {
      if c != id {
        assert b in s.regs && c in s.regs[b];
      }
    }
    forall b, c | b in a.regs && c in a.regs[b]
      ensures c in a.clients && b in a.clients[c]
    {
      if c != id {
        assert b in s.regs && c in s.regs[b];
      }
    }
  }

  /** The clients an event on bus b is handed to: the registered ids that are still attached. */
  function Recipients(s: Stream, b: string): (r: set<string>)
    ensures b !in s.regs ==> r == {}
    ensures forall c :: c in r ==> c in s.clients
  {
    if b in s.regs then set c | c in s.regs[b] && c in s.clients else {}
  }

  /** An event on a bus reaches exactly the attached clients that want that bus. */
  lemma RecipientsWant(s: Stream, allowed: seq<string>, b: string)
    requires Inv(s, allowed)
    ensures forall c :: c in Recipients(s, b) <==> c in s.clients && b in s.clients[c]
  {
  }

  /** A bus is subscribed exactly while some attached client wants it. */
  lemma SubscribedIffWanted(s: Stream, allowed: seq<string>, b: string)
    requires Inv(s, allowed)
    ensures b in s.regs <==> exists id :: id in s.clients && b in s.clients[id]
  {
    if b in s.regs {
      var id :| id in s.regs[b];
      assert id in s.clients && b in s.clients[id];
    }
  }

  /** After a successful attach the client receives exactly the events of the buses its selection resolves to. */
  lemma AttachedReceives(s: Stream, allowed: seq<string>, id: string, select: Value, b: string)
    requires Inv(s, allowed) && id != []
    ensures var r := AttachSpec(s, allowed, id, select, true).0;
      id in Recipients(r, b) <==> b in ResolveSelection(allowed, select)
  {
    AttachKeepsInv(s, allowed, id, select, true);
    RecipientsWant(AttachSpec(s, allowed, id, select, true).0, allowed, b);
  }

  /** Attaching a new client and detaching it again restores the stream. */
  lemma {:induction false} AttachThenDetach(s: Stream, allowed: seq<string>, id: string, select: Value)
    requires Inv(s, allowed) && id != [] && id !in s.clients
    ensures DetachSpec(AttachSpec(s, allowed, id, select, true).0, id) == s
  {
    var wanted := Dedup(ResolveSelection(allowed, select));
    var a := AttachSpec(s, allowed, id, select, true).0;
    assert a == Stream(s.clients[id := wanted], AddClient(s.regs, wanted, id));
    var d := DetachSpec(a, id);
    assert d == Stream(a.clients - {id}, RemoveClient(a.regs, wanted, id));
    UpdateThenRemove(s.clients, id, wanted);
    FreeIdUnregistered(s, allowed, id);
    RemoveAdd(s.regs, wanted, id);
  }

  lemma UpdateThenRemove<K, V>(m: map<K, V>, k: K, v: V)
    requires k !in m
    ensures m[k := v] - {k} == m
  {
  }

  /** An id that is not attached is in no registration, and no registration is empty. */
  lemma FreeIdUnregistered(s: Stream, allowed: seq<string>, id: string)
    requires Inv(s, allowed) && id !in s.clients
    ensures forall b :: b in s.regs ==> id !in s.regs[b] && s.regs[b] != {}
  {
  }

  /** Removing a client from the registrations it was just added to gives them back. */
  lemma RemoveAdd(regs: map<string, set<string>>, wanted: seq<string>, id: string)
    requires forall b :: b in regs ==> id !in regs[b] && regs[b] != {}
    ensures RemoveClient(AddClient(regs, wanted, id), wanted, id) == regs
  {
    var a := AddClient(regs, wanted, id);
    var d := RemoveClient(a, wanted, id);
    forall b | b in regs
      ensures b in d && d[b] == regs[b]
    {
      if b in wanted {
        assert a[b] - {id} == regs[b];
      }
    }
  }

  /** dispose(): every client is detached and every registration dropped. */
  function DisposeSpec(s: Stream): (r: Stream)
    ensures r.clients == map[] && r.regs == map[]
  {
    Empty
  }

  // ------------------------------------------------------------------
  // The class

  /**
   * The loop of attachClient over the wanted buses: #ensureBusReg(busName)
   * makes a registration when there is none (every wanted bus is allowed, so
   * it can subscribe), then the client id joins it.
   */
  method AddToRegs(regs: map<string, set<string>>, wanted: seq<string>, clientId: string) returns (rs: map<string, set<string>>)
    ensures rs == AddClient(regs, wanted, clientId)
  {
    rs := regs;
    for i := 0 to |wanted|
      invariant rs == AddClient(regs, wanted[..i], clientId)
    {
      assert wanted[..i + 1][..i] == wanted[..i];
      var busName := wanted[i];
      var ids := if busName in rs then rs[busName] else {};
      rs := rs[busName := ids + {clientId}];
    }
    assert wanted[..|wanted|] == wanted;
  }

  /** The loop of detachClient: the client leaves each registration, and an emptied one is unsubscribed and deleted. */
  method RemoveFromRegs(regs: map<string, set<string>>, wanted: seq<string>, clientId: string) returns (rs: map<string, set<string>>)
    ensures rs == RemoveClient(regs, wanted, clientId)
  {
    rs := regs;
    for i := 0 to |wanted|
      invariant rs == RemoveClient(regs, wanted[..i], clientId)
    {
      assert wanted[..i + 1][..i] == wanted[..i];
      var busName := wanted[i];
      if busName in rs {
        rs := rs[busName := rs[busName] - {clientId}];
        if rs[busName] == {} {
          rs := rs - {busName};
        }
      }
    }
    assert wanted[..|wanted|] == wanted;
  }

  class BusStream {
    /** The subscribe-capable bus names, fixed at construction. */
    const allowed: seq<string>
    var clients: map<string, seq<string>>
    var regs: map<string, set<string>>

    function State(): Stream
      reads this
    {
      Stream(clients, regs)
    }

    ghost predicate Valid()
      reads this
    {
      Inv(State(), allowed)
    }

    /** names are Object.keys(buses); subscribable are those with a subscribe function. */
    constructor (names: seq<string>, subscribable: set<string>)
      ensures allowed == AllowedOf(names, subscribable)
      ensures State() == Empty && Valid()
    {
      allowed := AllowedOf(names, subscribable);
      clients := map[];
      regs := map[];
    }

    method GetAllowedBuses() returns (r: seq<string>)
      ensures r == allowed
    {
      r := allowed;
    }

    method AttachClient(id: Value, select: Value, hasOnEvent: bool) returns (r: Result<(), string>)
      requires Valid()
      modifies this
      ensures Valid()
      ensures State() == AttachSpec(old(State()), allowed, TrimmedOrBlank(id), select, hasOnEvent).0
      ensures r == AttachSpec(old(State()), allowed, TrimmedOrBlank(id), select, hasOnEvent).1
    {
      AttachKeepsInv(State(), allowed, TrimmedOrBlank(id), select, hasOnEvent);
      var clientId := TrimmedOrBlank(id);
      if clientId == [] {
        return Err("missing_client_id");
      }
      if !hasOnEvent {
        return Err("missing_onEvent");
      }
      if clientId in clients {
        DetachId(clientId);
      }
      var wanted := Dedup(ResolveSelection(allowed, select));
      clients := clients[clientId := wanted];
      regs := AddToRegs(regs, wanted, clientId);
      r := Ok(());
    }

    /** detachClient(id) */
    method DetachClient(id: Value)
      requires Valid()
      modifies this
      ensures Valid()
      ensures State() == DetachSpec(old(State()), TrimmedOrBlank(id))
    {
      DetachKeepsInv(State(), allowed, TrimmedOrBlank(id));
      DetachId(TrimmedOrBlank(id));
    }

    method DetachId(clientId: string)
      modifies this
      ensures State() == DetachSpec(old(State()), clientId)
    {
      if clientId == [] || clientId !in clients {
        return;
      }
      var wanted := clients[clientId];
      clients := clients - {clientId};
      regs := RemoveFromRegs(regs, wanted, clientId);
    }

    /** dispose(): every client is detached, then every remaining registration is dropped. */
    method Dispose()
      requires Valid()
      modifies this
      ensures Valid()
      ensures State() == DisposeSpec(old(State()))
    {
      while clients != map[]
        invariant Valid()
        decreases |clients|
      {
        var clientId :| clientId in clients;
        DetachKeepsInv(State(), allowed, clientId);
        DetachId(clientId);
      }
      regs := map[];
      clients := map[];
    }

    /** The subscription callback of a bus: the clients the event is handed to. */
    method Publish(busName: string) returns (delivered: set<string>)
      ensures delivered == Recipients(State(), busName)
    {
      delivered := {};
      if busName !in regs {
        return;
      }
      var rest := regs[busName];
      while rest != {}
        invariant rest <= regs[busName]
        invariant delivered == set c | c in regs[busName] - rest && c in clients
        decreases |rest|
      {
        var c :| c in rest;
        if c in clients {
          delivered := delivered + {c};
        }
        rest := rest - {c};
      }
    }
  }
}
