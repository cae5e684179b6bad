/**
 * The GPIO line wrapper's configuration: the line number check of its
 * constructor and the mapping of free-form pull and edge options onto the
 * values the backend understands. Processes, bridges and the backend are
 * not part of this model.
 */
module Gpio {
  import opened Common
  import opened Js

  datatype Pull = AsIs | PullDown | PullUp | PullOff
  datatype Edge = Rising | Falling | Either

  /** The strings Gpio.PULL_* and 'as-is'. */
  function PullName(p: Pull): string
  {
    match p
    case AsIs => "as-is"
    case PullDown => "pull-down"
    case PullUp => "pull-up"
    case PullOff => "disable"
  }

  /** The strings Gpio.*_EDGE. */
  function EdgeName(e: Edge): string
  {
    match e
    case Rising => "rising"
    case Falling => "falling"
    case Either => "either"
  }

  /** String(x).trim().toLowerCase() */
  function Normal(x: Value): string
  {
    Lower(Trim(ToStr(x)))
  }

  predicate IsPullDownAlias(s: string) { s == "down" || s == "pulldown" || s == "pull-down" || s == "pud_down" }
  predicate IsPullUpAlias(s: string) { s == "up" || s == "pullup" || s == "pull-up" || s == "pud_up" }
  predicate IsPullOffAlias(s: string) { s == "off" || s == "none" || s == "disable" || s == "pud_off" }
  predicate IsRisingAlias(s: string) { s == "rising" || s == "rising_edge" || s == "rising-edge" }
  predicate IsFallingAlias(s: string) { s == "falling" || s == "falling_edge" || s == "falling-edge" }

  /** The pull a normalised option string names. */
  function PullOf(s: string): (r: Pull)
    ensures r == PullDown <==> IsPullDownAlias(s)
    ensures r == PullUp <==> IsPullUpAlias(s)
    ensures r == PullOff <==> IsPullOffAlias(s)
  {
    if IsPullDownAlias(s) then PullDown
    else if IsPullUpAlias(s) then PullUp
    else if IsPullOffAlias(s) then PullOff
    else AsIs
  }

  /** The edge a normalised option string names. */
  function EdgeOf(s: string): (r: Edge)
    ensures r == Rising <==> IsRisingAlias(s)
    ensures r == Falling <==> IsFallingAlias(s)
  {
    if IsRisingAlias(s) then Rising
    else if IsFallingAlias(s) then Falling
    else Either
  }

  /** #mapPull(pullUpDown): null, undefined and blank give 'as-is'. */
  function MapPull(x: Value): Pull
  {
    if Nullish(x) then AsIs else PullOf(Normal(x))
  }

  /** #mapEdge(edge): null, undefined and blank give 'either'. */
  function MapEdge(x: Value): Edge
  {
    if Nullish(x) then Either else EdgeOf(Normal(x))
  }

  /** A lower-case word without surrounding space is its own normal form. */
  lemma NormalOfWord(s: string)
    requires s != [] && !IsJsSpace(s[0]) && !IsJsSpace(s[|s| - 1])
    requires forall k :: 0 <= k < |s| ==> !('A' <= s[k] <= 'Z')
    ensures Normal(Str(s)) == s
  {
    TrimByNoop(s, IsJsSpace);
    assert Lower(s) == s;
  }

  /** Each backend value maps to itself: the mapping accepts its own output. */
  lemma MapPullName(p: Pull)
    ensures MapPull(Str(PullName(p))) == p
  {
    match p
    case AsIs => PullWord("as-is");
    case PullDown => PullWord("pull-down");
    case PullUp => PullWord("pull-up");
    case PullOff => PullWord("disable");
  }

  lemma PullWord(s: string)
    requires s != [] && !IsJsSpace(s[0]) && !IsJsSpace(s[|s| - 1])
    requires forall k :: 0 <= k < |s| ==> !('A' <= s[k] <= 'Z')
    ensures MapPull(Str(s)) == PullOf(s)
  {
    NormalOfWord(s);
  }

  lemma MapEdgeName(e: Edge)
    ensures MapEdge(Str(EdgeName(e))) == e
  {
    match e
    case Rising => EdgeWord("rising");
    case Falling => EdgeWord("falling");
    case Either => EdgeWord("either");
  }

  lemma EdgeWord(s: string)
    requires s != [] && !IsJsSpace(s[0]) && !IsJsSpace(s[|s| - 1])
    requires forall k :: 0 <= k < |s| ==> !('A' <= s[k] <= 'Z')
    ensures MapEdge(Str(s)) == EdgeOf(s)
  {
    NormalOfWord(s);
  }

  lemma LowerIdempotent(s: string)
    ensures Lower(Lower(s)) == Lower(s)
  {
  }

  /**
   * Both mappings are insensitive to case and surrounding white space: a
   * string and its trimmed, lower-cased form map alike.
   */
  lemma NormalInsensitive(s: string)
    ensures MapPull(Str(Lower(Trim(s)))) == MapPull(Str(s))
    ensures MapEdge(Str(Lower(Trim(s)))) == MapEdge(Str(s))
  {
    NormalIdempotent(s);
  }

  lemma NormalIdempotent(s: string)
    ensures Normal(Str(Lower(Trim(s)))) == Normal(Str(s))
  {
    var t := Lower(Trim(s));
    assert t == [] || (!IsJsSpace(t[0]) && !IsJsSpace(t[|t| - 1]));
    TrimByNoop(t, IsJsSpace);
    LowerIdempotent(Trim(s));
  }

  /** The constructor's line check: Number(line) must not be NaN. */
  function LineOf(line: Value): (r: Result<Num, string>)
    ensures r.Err? <==> ToNumber(line).NaN?
    ensures r.Ok? ==> r.value == ToNumber(line)
  {
    var n := ToNumber(line);
    if n.NaN? then Err("Gpio(line) requires numeric line") else Ok(n)
  }

  class Line {
    const line: Num
    var pull: Pull
    var edge: Edge

    /**
     * new Gpio(line, opts): a NaN line throws; the pull option is
     * opts.pullUpDown ?? opts.pull, the edge option opts.edge.
     */
    static method Create(line: Value, opts: Value) returns (r: Result<Line, string>)
      ensures r.Err? <==> ToNumber(line).NaN?
      ensures r.Ok? ==> fresh(r.value)
      ensures r.Ok? ==> r.value.line == ToNumber(line)
      ensures r.Ok? ==> r.value.pull == MapPull(OrElse(Get(opts, "pullUpDown"), Get(opts, "pull")))
      ensures r.Ok? ==> r.value.edge == MapEdge(Get(opts, "edge"))
    {
      match LineOf(line)
      case Err(e) => return Err(e);
      case Ok(n) =>
        var g := new Line(n, MapPull(OrElse(Get(opts, "pullUpDown"), Get(opts, "pull"))), MapEdge(Get(opts, "edge")));
        return Ok(g);
    }

    constructor(n: Num, p: Pull, e: Edge)
      ensures line == n && pull == p && edge == e
    {
      line := n;
      pull := p;
      edge := e;
    }

    /** pullUpDown(pull) */
    method SetPull(x: Value)
      modifies this
      ensures pull == MapPull(x) && edge == old(edge)
    {
      pull := MapPull(x);
    }

    /** edge(edge) */
    method SetEdge(x: Value)
      modifies this
      ensures edge == MapEdge(x) && pull == old(pull)
    {
      edge := MapEdge(x);
    }
  }
}
