/**
 * The line parser of the simulation CLI (CliParser.parse): one input line
 * becomes one command object. The line is trimmed, split on runs of white
 * space, and the first token chooses the command.
 */
module CliParser {
  import opened Common
  import opened Js

  /** The command objects parse returns, one constructor per `kind`. */
  datatype Command =
    | Empty
    | Help
    | Exit
    | InjectOn
    | InjectOff
    | InjectStatus
    | TapOn(bus: string)
    | TapOff(bus: string)
    | TapStatus(bus: string)
    | Presence(zone: string, present: bool)
    | Vibration(level: string)
    | Button(pressType: string)
    | ClockNow
    | ClockStatus
    | ClockFreeze
    | ClockResume
    | ClockAdvance(ms: Num)
    | ClockSet(dateStr: string, timeStr: string)
    | ConfigLoad(filename: string)
    | ConfigPrint
    | CoreState
    | VirtList
    | VirtSet(sensorId: string, value: bool)
    | Error(message: string)

  /** The buses `tap` accepts. */
  const TapBuses: seq<string> := ["main", "presence", "vibration", "button", "tasker", "all"]

  const UnknownCommand: string := "unknown command, type: help"

  /** The i-th token; destructuring past the end gives undefined. */
  function Tok(ws: seq<string>, i: nat): (r: Option<string>)
    ensures r.Some? <==> i < |ws|
    ensures r.Some? ==> r.value == ws[i]
  {
    if i < |ws| then Some(ws[i]) else None
  }

  /** A token that is present and not the empty string (a truthy string). */
  predicate Given(t: Option<string>)
  {
    t.Some? && t.value != []
  }

  /** What `Number.isNaN(ms) || ms < 0` lets through. */
  predicate NonNegative(n: Num)
  {
    match n
    case NaN => false
    case Infinity(negative) => !negative
    case Fin(v) => v >= 0.0
  }

  /** `b && b.startsWith('+')` */
  predicate IsAdvance(b: Option<string>)
  {
    Given(b) && b.value[0] == '+'
  }

  /** The argument of `clock +MS`: Number of the text after the plus, unless NaN or negative. */
  function AdvanceMs(b: string): (r: Option<Num>)
    requires b != []
    ensures r.Some? ==> NonNegative(r.value)
  {
    var ms := StringToNumber(b[1..]);
    if NonNegative(ms) then Some(ms) else None
  }

  /** A natural number of milliseconds after the plus is read back exactly. */
  lemma AdvanceOfNat(n: nat)
    ensures AdvanceMs("+" + NatToString(n)) == Some(Fin(n as real))
  {
    var b := "+" + NatToString(n);
    assert b[1..] == NatToString(n);
    NumberOfNatString(n);
  }

  /** The tokens of a line: String(line || '').trim() split on /\s+/. */
  function Tokens(line: Value): seq<string>
  {
    Words(TrimmedOrBlank(line))
  }

  /** CliParser.parse(line) */
  function Parse(line: Value): (r: Command)
    ensures r.Empty? <==> TrimmedOrBlank(line) == []
  {
    if TrimmedOrBlank(line) == [] then Empty else ParseTokens(Tokens(line))
  }

  /** The branches of parse after the blank check, over the tokens a, b, c, ...rest. */
  function ParseTokens(ws: seq<string>): (r: Command)
    requires ws != []
    ensures !r.Empty?
    ensures r.Help? <==> ws[0] == "help"
    ensures r.Exit? <==> ws[0] == "exit" || ws[0] == "quit"
    ensures ws[0] !in Commands ==> r == Error(UnknownCommand)
  {
    var a, b, c, d := ws[0], Tok(ws, 1), Tok(ws, 2), Tok(ws, 3);
    if a == "help" then Help
    else if a == "exit" || a == "quit" then Exit
    else if a == "inject" then ParseInject(b)
    else if a == "tap" then ParseTap(b, c)
    else if a == "presence" then ParsePresence(b, c)
    else if a == "vibration" then ParseVibration(b)
    else if a == "button" then ParseButton(b)
    else if a == "clock" then ParseClock(b, c, d)
    else if a == "config" then ParseConfig(b, c)
    else if a == "core" then ParseCore(b)
    else if a == "virt" then ParseVirt(b, c, d)
    else Error(UnknownCommand)
  }

  /** The first tokens parse knows. */
  const Commands: set<string> :=
    {"help", "exit", "quit", "inject", "tap", "presence", "vibration", "button", "clock", "config", "core", "virt"}

  function ParseInject(b: Option<string>): (r: Command)
    ensures r.InjectOn? <==> b == Some("on")
    ensures r.InjectOff? <==> b == Some("off")
    ensures r.InjectStatus? <==> b == Some("status")
    ensures r.InjectOn? || r.InjectOff? || r.InjectStatus? || r == Error("usage: inject on|off|status")
  {
    if b == Some("on") then InjectOn
    else if b == Some("off") then InjectOff
    else if b == Some("status") then InjectStatus
    else Error("usage: inject on|off|status")
  }

  /** `tap <bus> <action>`: the bus must be a known one and the action on, off or status. */
  function ParseTap(b: Option<string>, c: Option<string>): (r: Command)
    ensures r.TapOn? <==> b.Some? && b.value in TapBuses && c == Some("on")
    ensures r.TapOff? <==> b.Some? && b.value in TapBuses && c == Some("off")
    ensures r.TapStatus? <==> b.Some? && b.value in TapBuses && c == Some("status")
    ensures r.TapOn? || r.TapOff? || r.TapStatus? ==> r.bus == b.value
    ensures r.Error? || r.TapOn? || r.TapOff? || r.TapStatus?
  {
    if !(b.Some? && b.value in TapBuses) then Error("usage: tap main|presence|vibration|button|tasker|all on|off|status")
    else if c == Some("on") then TapOn(b.value)
    else if c == Some("off") then TapOff(b.value)
    else if c == Some("status") then TapStatus(b.value)
    else Error("usage: tap main|presence|vibration|button|tasker|all on|off|status")
  }

  /** `presence front|back on|off` */
  function ParsePresence(b: Option<string>, c: Option<string>): (r: Command)
    ensures r.Presence? <==> b in {Some("front"), Some("back")} && c in {Some("on"), Some("off")}
    ensures r.Presence? ==> r == Presence(b.value, c == Some("on"))
    ensures r.Presence? || r == Error("usage: presence front|back on|off")
  {
    if b != Some("front") && b != Some("back") then Error("usage: presence front|back on|off")
    else if c == Some("on") then Presence(b.value, true)
    else if c == Some("off") then Presence(b.value, false)
    else Error("usage: presence front|back on|off")
  }

  function ParseVibration(b: Option<string>): (r: Command)
    ensures r.Vibration? <==> b in {Some("low"), Some("high")}
    ensures r.Vibration? ==> r.level == b.value
    ensures r.Vibration? || r == Error("usage: vibration low|high")
  {
    if b != Some("low") && b != Some("high") then Error("usage: vibration low|high")
    else Vibration(b.value)
  }

  function ParseButton(b: Option<string>): (r: Command)
    ensures r.Button? <==> b in {Some("short"), Some("long")}
    ensures r.Button? ==> r.pressType == b.value
    ensures r.Button? || r == Error("usage: button short|long")
  {
    if b != Some("short") && b != Some("long") then Error("usage: button short|long")
    else Button(b.value)
  }

  /** `clock now|status|freeze|resume|+MS|set DATE TIME` */
  function ParseClock(b: Option<string>, c: Option<string>, d: Option<string>): (r: Command)
    ensures r.ClockAdvance? <==> IsAdvance(b) && AdvanceMs(b.value).Some?
    ensures r.ClockAdvance? ==> Some(r.ms) == AdvanceMs(b.value)
    ensures IsAdvance(b) && AdvanceMs(b.value).None? ==> r == Error("usage: clock +MS (MS must be >= 0)")
    ensures r.ClockSet? <==> b == Some("set") && Given(c) && Given(d)
    ensures r.ClockSet? ==> r == ClockSet(c.value, d.value)
    ensures r.Error? || r.ClockNow? || r.ClockStatus? || r.ClockFreeze? || r.ClockResume? || r.ClockAdvance? || r.ClockSet?
  {
    if b == Some("now") then ClockNow
    else if b == Some("status") then ClockStatus
    else if b == Some("freeze") then ClockFreeze
    else if b == Some("resume") then ClockResume
    else if IsAdvance(b) then
      match AdvanceMs(b.value)
      case None => Error("usage: clock +MS (MS must be >= 0)")
      case Some(ms) => ClockAdvance(ms)
    else if b == Some("set") then
      if !Given(c) || !Given(d) then Error("usage: clock set YYYY-MM-DD HH:MM")
      else ClockSet(c.value, d.value)
    else Error("usage: clock now|status|freeze|resume|+MS|set YYYY-MM-DD HH:MM")
  }

  /** `config load FILE|print` */
  function ParseConfig(b: Option<string>, c: Option<string>): (r: Command)
    ensures r.ConfigLoad? <==> b == Some("load") && Given(c)
    ensures r.ConfigLoad? ==> r.filename == c.value
    ensures r.ConfigPrint? <==> b == Some("print")
    ensures r.ConfigLoad? || r.ConfigPrint? || r.Error?
  {
    if b == Some("load") then
      if !Given(c) then Error("usage: config load <filename>") else ConfigLoad(c.value)
    else if b == Some("print") then ConfigPrint
    else Error("usage: config load <filename>|print")
  }

  function ParseCore(b: Option<string>): (r: Command)
    ensures r.CoreState? <==> b == Some("state")
    ensures r.CoreState? || r == Error("usage: core state")
  {
    if b == Some("state") then CoreState else Error("usage: core state")
  }

  /** `virt list|set ID on|off`; the value is whether the action is on. */
  function ParseVirt(b: Option<string>, c: Option<string>, d: Option<string>): (r: Command)
    ensures r.VirtList? <==> b == Some("list")
    ensures r.VirtSet? <==> b == Some("set") && Given(c) && d in {Some("on"), Some("off")}
    ensures r.VirtSet? ==> r == VirtSet(c.value, d == Some("on"))
    ensures r.VirtList? || r.VirtSet? || r.Error?
  {
    if b == Some("list") then VirtList
    else if b == Some("set") then
      if !Given(c) then Error("usage: virt set <sensorId> on|off")
      else if d != Some("on") && d != Some("off") then Error("usage: virt set <sensorId> on|off")
      else VirtSet(c.value, d == Some("on"))
    else Error("usage: virt list|set <sensorId> on|off")
  }

  // ------------------------------------------------------------------
  // The inverse direction: a command written back as a line

  /** Commands a user can type: every argument is a single token the parser accepts. */
  predicate Typeable(c: Command)
  {
    match c
    case Error(_) => false
    case TapOn(bus) => bus in TapBuses
    case TapOff(bus) => bus in TapBuses
    case TapStatus(bus) => bus in TapBuses
    case Presence(zone, _) => zone in {"front", "back"}
    case Vibration(level) => level in {"low", "high"}
    case Button(pressType) => pressType in {"short", "long"}
    case ClockAdvance(ms) => ms.Fin? && ms.v >= 0.0 && ms.v == ms.v.Floor as real
    case ClockSet(d, t) => IsWord(d) && IsWord(t)
    case ConfigLoad(f) => IsWord(f)
    case VirtSet(id, _) => IsWord(id)
    case _ => true
  }

  /** The tokens that type a command. */
  function Render(c: Command): (ws: seq<string>)
  {
    match c
    case Empty => []
    case Help => ["help"]
    case Exit => ["exit"]
    case InjectOn => ["inject", "on"]
    case InjectOff => ["inject", "off"]
    case InjectStatus => ["inject", "status"]
    case TapOn(bus) => ["tap", bus, "on"]
    case TapOff(bus) => ["tap", bus, "off"]
    case TapStatus(bus) => ["tap", bus, "status"]
    case Presence(zone, present) => ["presence", zone, if present then "on" else "off"]
    case Vibration(level) => ["vibration", level]
    case Button(pressType) => ["button", pressType]
    case ClockNow => ["clock", "now"]
    case ClockStatus => ["clock", "status"]
    case ClockFreeze => ["clock", "freeze"]
    case ClockResume => ["clock", "resume"]
    case ClockAdvance(ms) => ["clock", "+" + NatToString(if ms.Fin? && ms.v >= 0.0 then ms.v.Floor else 0)]
    case ClockSet(d, t) => ["clock", "set", d, t]
    case ConfigLoad(f) => ["config", "load", f]
    case ConfigPrint => ["config", "print"]
    case CoreState => ["core", "state"]
    case VirtList => ["virt", "list"]
    case VirtSet(id, value) => ["virt", "set", id, if value then "on" else "off"]
    case Error(_) => ["?"]
  }

  /** The keywords of the command language are single tokens. */
  lemma KeywordsAreWords1()
    ensures IsWord("help") && IsWord("exit") && IsWord("inject") && IsWord("on") && IsWord("off")
    ensures IsWord("status") && IsWord("tap") && IsWord("presence") && IsWord("front") && IsWord("back")
  {
  }

  lemma KeywordsAreWords2()
    ensures IsWord("vibration") && IsWord("low") && IsWord("high") && IsWord("button") && IsWord("short")
    ensures IsWord("long") && IsWord("clock") && IsWord("now") && IsWord("freeze") && IsWord("resume")
  {
  }

  lemma KeywordsAreWords3()
    ensures IsWord("set") && IsWord("config") && IsWord("load") && IsWord("print") && IsWord("core")
    ensures IsWord("state") && IsWord("virt") && IsWord("list") && IsWord("main") && IsWord("tasker") && IsWord("all")
  {
  }

  /** Every token of a typeable command is a word. */
  lemma RenderWords(c: Command)
    requires Typeable(c)
    ensures AllWords(Render(c))
  {
    KeywordsAreWords1();
    KeywordsAreWords2();
    KeywordsAreWords3();
    if c.ClockAdvance? {
      var s := NatToString(c.ms.v.Floor);
      assert forall k :: 0 <= k < |s| ==> IsDigit(s[k]);
      assert IsWord("+" + s);
    }
  }

  predicate AllWords(ws: seq<string>)
  {
    forall i :: 0 <= i < |ws| ==> IsWord(ws[i])
  }

  /** The tokens of a typeable command parse back to it. */
  lemma ParseTokensRender(c: Command)
    requires Typeable(c) && !c.Empty?
    ensures ParseTokens(Render(c)) == c
  {
    if c.Help? || c.Exit? || c.InjectOn? || c.InjectOff? || c.InjectStatus? || c.TapOn? || c.TapOff? || c.TapStatus? || c.Presence? {
      ParseTokensRender1(c);
    } else if c.Vibration? || c.Button? || c.ClockNow? || c.ClockStatus? || c.ClockFreeze? || c.ClockResume? || c.ClockAdvance? || c.ClockSet? {
      ParseTokensRender2(c);
    } else {
      ParseTokensRender3(c);
    }
  }

  lemma ParseTokensRender1(c: Command)
    requires Typeable(c)
    requires c.Help? || c.Exit? || c.InjectOn? || c.InjectOff? || c.InjectStatus? || c.TapOn? || c.TapOff? || c.TapStatus? || c.Presence?
    ensures ParseTokens(Render(c)) == c
  {
  }

  lemma ParseTokensRender2(c: Command)
    requires Typeable(c)
    requires c.Vibration? || c.Button? || c.ClockNow? || c.ClockStatus? || c.ClockFreeze? || c.ClockResume? || c.ClockAdvance? || c.ClockSet?
    ensures ParseTokens(Render(c)) == c
  {
    if c.ClockAdvance? {
      AdvanceOfNat(c.ms.v.Floor);
    }
  }

  lemma ParseTokensRender3(c: Command)
    requires Typeable(c)
    requires c.ConfigLoad? || c.ConfigPrint? || c.CoreState? || c.VirtList? || c.VirtSet?
    ensures ParseTokens(Render(c)) == c
  {
  }

  /** A known first token never yields the unknown-command error. */
  lemma {:induction false} KnownFirstToken(ws: seq<string>)
    requires ws != [] && ws[0] in Commands
    ensures ParseTokens(ws) != Error(UnknownCommand)
  {
    var r := ParseTokens(ws);
    var b, c, d := Tok(ws, 1), Tok(ws, 2), Tok(ws, 3);
    if ws[0] == "inject" {
      assert r == ParseInject(b);
    } else if ws[0] == "tap" {
      assert r == ParseTap(b, c);
    } else if ws[0] == "presence" {
      assert r == ParsePresence(b, c);
    } else if ws[0] == "vibration" {
      assert r == ParseVibration(b);
    } else if ws[0] == "button" {
      assert r == ParseButton(b);
    } else if ws[0] == "clock" {
      assert r == ParseClock(b, c, d);
    } else if ws[0] == "config" {
      assert r == ParseConfig(b, c);
    } else if ws[0] == "core" {
      assert r == ParseCore(b);
    } else if ws[0] == "virt" {
      assert r == ParseVirt(b, c, d);
    }
  }

  /** Parsing the line that types a command gives the command back. */
  lemma ParseRender(c: Command)
    requires Typeable(c)
    ensures Parse(Str(Join(Render(c), " "))) == c
  {
    var ws := Render(c);
    RenderWords(c);
    JoinTrimmed(ws);
    WordsOfJoin(ws);
    assert Tokens(Str(Join(ws, " "))) == ws;
    if !c.Empty? {
      JoinEnds(ws);
      ParseTokensRender(c);
    }
  }
}
