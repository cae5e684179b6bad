/**
 * The line parser of the application CLI (src/app/cliParser.js): the same
 * tokenising as the simulation CLI, with presence typed as `front on` and
 * `clock` also reachable as `time`.
 */
module AppCliParser {
  import opened Common
  import opened Js
  import CliParser

  /** The command objects parse returns, one constructor per `kind`. */
  datatype Command =
    | Empty
    | Help
    | Exit
    | State
    | Presence(zone: string, on: bool)
    | ClockNow
    | ClockStatus
    | ClockFreeze
    | ClockResume
    | ClockAdvance(ms: Num)
    | ClockSet(dateStr: string, timeStr: string)
    | ConfigLoad(filename: string)
    | Error(message: string)

  const UnknownCommand: string := "unknown command, type: help"

  /** CliParser.parse(line) */
  function Parse(line: Value): (r: Command)
    ensures r.Empty? <==> TrimmedOrBlank(line) == []
  {
    if TrimmedOrBlank(line) == [] then Empty else ParseTokens(CliParser.Tokens(line))
  }

  /** The branches of parse after the blank check, over the tokens a, b, ...rest. */
  function ParseTokens(ws: seq<string>): (r: Command)
    requires ws != []
    ensures !r.Empty?
    ensures r.Help? <==> ws[0] == "help"
    ensures r.Exit? <==> ws[0] == "exit" || ws[0] == "quit"
    ensures r.State? <==> ws[0] == "state"
    ensures r.Presence? <==> ws[0] in {"front", "back"} && CliParser.Tok(ws, 1) in {Some("on"), Some("off")}
    ensures r.Presence? ==> r == Presence(ws[0], ws[1] == "on")
    ensures r.ConfigLoad? <==> ws[0] == "config" && CliParser.Tok(ws, 1) == Some("load") && CliParser.Given(CliParser.Tok(ws, 2))
    ensures r.ConfigLoad? ==> r.filename == ws[2]
    ensures ws[0] !in {"help", "exit", "quit", "state", "front", "back", "clock", "time", "config"} ==> r == Error(UnknownCommand)
  {
    var a, b, c, d := ws[0], CliParser.Tok(ws, 1), CliParser.Tok(ws, 2), CliParser.Tok(ws, 3);
    if a == "help" then Help
    else if a == "exit" || a == "quit" then Exit
    else if a == "state" then State
    else if a == "front" || a == "back" then
      if b == Some("on") then Presence(a, true)
      else if b == Some("off") then Presence(a, false)
      else Error("usage: front on|off or back on|off")
    else if a == "clock" || a == "time" then ParseClock(b, c, d)
    else if a == "config" && b == Some("load") then
      if !CliParser.Given(c) then Error("usage: config load <filename>") else ConfigLoad(c.value)
    else Error(UnknownCommand)
  }

  /** `clock|time now|status|freeze|resume|+MS|set DATE TIME`; the date and time are the two tokens after set. */
  function ParseClock(b: Option<string>, c: Option<string>, d: Option<string>): (r: Command)
    ensures r.ClockAdvance? <==> CliParser.IsAdvance(b) && CliParser.AdvanceMs(b.value).Some?
    ensures r.ClockAdvance? ==> Some(r.ms) == CliParser.AdvanceMs(b.value)
    ensures CliParser.IsAdvance(b) && CliParser.AdvanceMs(b.value).None? ==> r == Error("usage: clock +MS (MS must be >= 0)")
    ensures r.ClockSet? <==> b == Some("set") && CliParser.Given(c) && CliParser.Given(d)
    ensures r.ClockSet? ==> r == ClockSet(c.value, d.value)
    ensures r.Error? || r.ClockNow? || r.ClockStatus? || r.ClockFreeze? || r.ClockResume? || r.ClockAdvance? || r.ClockSet?
  {
    if b == Some("now") then ClockNow
    else if b == Some("status") then ClockStatus
    else if b == Some("freeze") then ClockFreeze
    else if b == Some("resume") then ClockResume
    else if CliParser.IsAdvance(b) then
      match CliParser.AdvanceMs(b.value)
      case None => Error("usage: clock +MS (MS must be >= 0)")
      case Some(ms) => ClockAdvance(ms)
    else if b == Some("set") then
      if !CliParser.Given(c) || !CliParser.Given(d) then Error("usage: clock set YYYY-MM-DD HH:MM")
      else ClockSet(c.value, d.value)
    else Error("usage: clock now|status|freeze|resume | clock +MS | clock set YYYY-MM-DD HH:MM")
  }

  /** `time` is an alias of `clock`: the rest of the line is read the same way. */
  lemma {:induction false} TimeIsClock(rest: seq<string>)
    ensures ParseTokens(["time"] + rest) == ParseTokens(["clock"] + rest)
  {
    var t, k := ["time"] + rest, ["clock"] + rest;
    assert CliParser.Tok(t, 1) == CliParser.Tok(k, 1);
    assert CliParser.Tok(t, 2) == CliParser.Tok(k, 2);
    assert CliParser.Tok(t, 3) == CliParser.Tok(k, 3);
  }

  // ------------------------------------------------------------------
  // The inverse direction: a command written back as a line

  /** Commands a user can type: every argument is a single token the parser accepts. */
  predicate Typeable(c: Command)
  {
    match c
    case Error(_) => false
    case Presence(zone, _) => zone in {"front", "back"}
    case ClockAdvance(ms) => ms.Fin? && ms.v >= 0.0 && ms.v == ms.v.Floor as real
    case ClockSet(d, t) => IsWord(d) && IsWord(t)
    case ConfigLoad(f) => IsWord(f)
    case _ => true
  }

  /** The tokens that type a command. */
  function Render(c: Command): (ws: seq<string>)
  {
    match c
    case Empty => []
    case Help => ["help"]
    case Exit => ["exit"]
    case State => ["state"]
    case Presence(zone, on) => [zone, if on then "on" else "off"]
    case ClockNow => ["clock", "now"]
    case ClockStatus => ["clock", "status"]
    case ClockFreeze => ["clock", "freeze"]
    case ClockResume => ["clock", "resume"]
    case ClockAdvance(ms) => ["clock", "+" + NatToString(if ms.Fin? && ms.v >= 0.0 then ms.v.Floor else 0)]
    case ClockSet(d, t) => ["clock", "set", d, t]
    case ConfigLoad(f) => ["config", "load", f]
    case Error(_) => ["?"]
  }

  /** Every token of a typeable command is a word. */
  lemma RenderWords(c: Command)
    requires Typeable(c)
    ensures CliParser.AllWords(Render(c))
  {
    CliParser.KeywordsAreWords1();
    CliParser.KeywordsAreWords2();
    CliParser.KeywordsAreWords3();
    if c.ClockAdvance? {
      var s := NatToString(c.ms.v.Floor);
      assert forall k :: 0 <= k < |s| ==> IsDigit(s[k]);
      assert IsWord("+" + s);
    }
  }

  predicate IsClock(c: Command)
  {
    c.ClockNow? || c.ClockStatus? || c.ClockFreeze? || c.ClockResume? || c.ClockAdvance? || c.ClockSet?
  }

  /** The tokens of a typeable command parse back to it. */
  lemma ParseTokensRender(c: Command)
    requires Typeable(c) && !c.Empty?
    ensures ParseTokens(Render(c)) == c
  {
    if IsClock(c) {
      ParseClockRender(c);
    } else {
      ParseOtherRender(c);
    }
  }

  lemma ParseClockRender(c: Command)
    requires Typeable(c) && IsClock(c)
    ensures ParseTokens(Render(c)) == c
  {
    var ws := Render(c);
    assert ws[0] == "clock";
    assert ParseTokens(ws) == ParseClock(CliParser.Tok(ws, 1), CliParser.Tok(ws, 2), CliParser.Tok(ws, 3));
    if c.ClockAdvance? {
      CliParser.AdvanceOfNat(c.ms.v.Floor);
    }
  }

  lemma ParseOtherRender(c: Command)
    requires Typeable(c) && !IsClock(c) && !c.Empty?
    ensures ParseTokens(Render(c)) == c
  {
  }

  /** Parsing the line that types a command gives the command back. */
  lemma ParseRender(c: Command)
    requires Typeable(c)
    ensures Parse(Str(Join(Render(c), " "))) == c
  {
    var ws := Render(c);
    RenderWords(c);
    JoinTrimmed(ws);
    WordsOfJoin(ws);
    assert CliParser.Tokens(Str(Join(ws, " "))) == ws;
    if !c.Empty? {
      JoinEnds(ws);
      ParseTokensRender(c);
    }
  }
}
