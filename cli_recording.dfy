/**
 * The `recording ...` commands of the CLI (parseRecording): the tokens of
 * a line become a recording operation with its parameters, a usage error,
 * or nothing when the line is not a recording command.
 */
module CliRecording {
  import opened Common
  import opened Js

  /** The recording operations, one constructor per `op`, and the usage error. */
  datatype RecCommand =
    | Status
    | RecordStart(cmdFile: string, comment: Option<string>)
    | RecordStop
    | PlayLoad(path: string)
    | PlayPause
    | PlayStop
    | PlayResume(speed: Option<Num>)
    | PlayStart(path: string, speed: Option<Num>)
    | Error(message: string)

  /** The i-th token; destructuring past the end gives undefined. */
  function Tok(parts: seq<string>, i: nat): (r: Option<string>)
    ensures r.Some? <==> i < |parts|
    ensures r.Some? ==> r.value == parts[i]
  {
    if i < |parts| then Some(parts[i]) else None
  }

  /** The tokens after the third (`...rest`). */
  function Rest(parts: seq<string>): (rest: seq<string>)
    ensures |parts| > 3 ==> rest == parts[3..]
    ensures |parts| <= 3 ==> rest == []
  {
    if |parts| > 3 then parts[3..] else []
  }

  const StartUsage: string := "usage: recording start <macro.json5> [comment...]"
  const RecordUsage: string := "usage: recording record <macro.json5> [comment...] | recording record stop"

  /** String(c || '').trim() for a token that may be missing. */
  function TrimmedTok(t: Option<string>): (s: string)
    ensures t.None? ==> s == []
    ensures t.Some? ==> s == Trim(t.value)
  {
    if t.Some? then Trim(t.value) else []
  }

  /** `rest.join(' ').trim() || null` */
  function Comment(rest: seq<string>): (r: Option<string>)
    ensures r.None? <==> Trim(Join(rest, " ")) == []
    ensures r.Some? ==> r.value == Trim(Join(rest, " "))
  {
    var t := Trim(Join(rest, " "));
    if t == [] then None else Some(t)
  }

  /** An optional speed argument: absent (or empty) is no speed, otherwise Number(speedStr) must be positive. */
  function Speed(t: Option<string>): (r: Result<Option<Num>, ()>)
    ensures r.Ok? && r.value.Some? ==> Positive(r.value.value) && t.Some? && r.value.value == StringToNumber(t.value)
    ensures r.Ok? && r.value.None? <==> t.None? || t.value == []
    ensures r.Err? <==> t.Some? && t.value != [] && !Positive(StringToNumber(t.value))
  {
    if t.None? || t.value == [] then Ok(None)
    else
      var speed := StringToNumber(t.value);
      if Positive(speed) then Ok(Some(speed)) else Err(())
  }

  /** parseRecording(parts): None when the first token is not `recording`. */
  function ParseRecording(parts: seq<string>): (r: Option<RecCommand>)
    ensures r.None? <==> Tok(parts, 0) != Some("recording")
    ensures r == Some(Status) <==> Tok(parts, 0) == Some("recording") && Tok(parts, 1) == Some("status")
    ensures r == Some(RecordStop) <==> Tok(parts, 0) == Some("recording") && Tok(parts, 1) == Some("record") && Tok(parts, 2) == Some("stop")
    ensures r.Some? && r.value.RecordStart? ==>
      Tok(parts, 1) in {Some("start"), Some("record")} && r.value.cmdFile == TrimmedTok(Tok(parts, 2)) && r.value.cmdFile != []
      && r.value.comment == Comment(Rest(parts))
    ensures r.Some? && r.value.PlayLoad? ==> Tok(parts, 1) == Some("load") && r.value.path == TrimmedTok(Tok(parts, 2)) && r.value.path != []
    ensures r.Some? && (r.value.PlayStart? || r.value.PlayResume?) && r.value.speed.Some? ==> Positive(r.value.speed.value)
    ensures r == Some(PlayPause) <==> Tok(parts, 0) == Some("recording") && Tok(parts, 1) == Some("play") && Tok(parts, 2) == Some("pause")
    ensures r == Some(PlayStop) <==> Tok(parts, 0) == Some("recording") && Tok(parts, 1) == Some("play") && Tok(parts, 2) == Some("stop")
    ensures Tok(parts, 0) == Some("recording") && Tok(parts, 1) !in {Some("status"), Some("start"), Some("record"), Some("load"), Some("play")}
      ==> r == Some(Error("usage: recording status|start|record|load|play"))
  {
    var a, b, c := Tok(parts, 0), Tok(parts, 1), Tok(parts, 2);
    if a != Some("recording") then None
    else if b == Some("status") then Some(Status)
    else if b == Some("start") then Some(ParseStart(c, Rest(parts), StartUsage))
    else if b == Some("record") then
      if c == Some("stop") then Some(RecordStop)
      else Some(ParseStart(c, Rest(parts), RecordUsage))
    else if b == Some("load") then
      var file := TrimmedTok(c);
      if file == [] then Some(Error("usage: recording load <recordingFile.json5>"))
      else Some(PlayLoad(file))
    else if b == Some("play") then Some(ParsePlay(c, Rest(parts)))
    else Some(Error("usage: recording status|start|record|load|play"))
  }

  /** `recording start|record FILE [comment...]` */
  function ParseStart(c: Option<string>, rest: seq<string>, usage: string): (r: RecCommand)
    ensures r.RecordStart? <==> TrimmedTok(c) != []
    ensures r.RecordStart? ==> r == RecordStart(TrimmedTok(c), Comment(rest))
    ensures !r.RecordStart? ==> r == Error(usage)
  {
    var cmdFile := TrimmedTok(c);
    if cmdFile == [] then Error(usage) else RecordStart(cmdFile, Comment(rest))
  }

  /** `recording play pause|stop|resume [speed]|FILE [speed]` */
  function ParsePlay(c: Option<string>, rest: seq<string>): (r: RecCommand)
    ensures r == PlayPause <==> c == Some("pause")
    ensures r == PlayStop <==> c == Some("stop")
    ensures r.PlayResume? <==> c == Some("resume") && Speed(Tok(rest, 0)).Ok?
    ensures r.PlayResume? ==> r.speed == Speed(Tok(rest, 0)).value
    ensures r.PlayStart? <==> c !in {Some("pause"), Some("stop"), Some("resume")} && TrimmedTok(c) != [] && Speed(Tok(rest, 0)).Ok?
    ensures r.PlayStart? ==> r == PlayStart(TrimmedTok(c), Speed(Tok(rest, 0)).value)
    ensures r.PlayPause? || r.PlayStop? || r.PlayResume? || r.PlayStart? || r.Error?
  {
    if c == Some("pause") then PlayPause
    else if c == Some("stop") then PlayStop
    else if c == Some("resume") then
      match Speed(Tok(rest, 0))
      case Err(_) => Error("usage: recording play resume [speed] (speed must be > 0)")
      case Ok(speed) => PlayResume(speed)
    else
      var file := TrimmedTok(c);
      if file == [] then Error("usage: recording play <recordingFile.json5> [speed] | pause | stop | resume [speed]")
      else
        match Speed(Tok(rest, 0))
        case Err(_) => Error("usage: recording play <recordingFile.json5> [speed] (speed must be > 0)")
        case Ok(speed) => PlayStart(file, speed)
  }

  /** `record` is a synonym of `start`, except that `record stop` stops: both read the file and comment alike. */
  lemma {:induction false} RecordIsStart(c: string, rest: seq<string>)
    requires c != "stop"
    ensures ParseRecording(["recording", "record", c] + rest) == Some(ParseStart(Some(c), rest, RecordUsage))
    ensures ParseRecording(["recording", "start", c] + rest) == Some(ParseStart(Some(c), rest, StartUsage))
  {
    var p, q := ["recording", "record", c] + rest, ["recording", "start", c] + rest;
    assert Rest(p) == rest && Rest(q) == rest;
    assert Tok(p, 2) == Some(c) && Tok(q, 2) == Some(c);
    assert Tok(p, 0) == Some("recording") && Tok(q, 0) == Some("recording");
  }

  // ------------------------------------------------------------------
  // The inverse direction: an operation written back as tokens

  /** A trimmed, non-empty argument. */
  predicate Arg(s: string)
  {
    s != [] && Trim(s) == s
  }

  /** A speed typed as a whole number of times real time. */
  predicate WholeSpeed(n: Option<Num>)
  {
    n.Some? ==> n.value.Fin? && n.value.v >= 1.0 && n.value.v == n.value.v.Floor as real
  }

  function SpeedToken(n: Option<Num>): seq<string>
  {
    if n.Some? && n.value.Fin? && n.value.v >= 0.0 then [NatToString(n.value.v.Floor)] else []
  }

  /** Operations a user can type. */
  predicate Typeable(c: RecCommand)
  {
    match c
    case Error(_) => false
    case RecordStart(f, comment) => Arg(f) && (comment.Some? ==> Arg(comment.value))
    case PlayLoad(p) => Arg(p)
    case PlayResume(speed) => WholeSpeed(speed)
    case PlayStart(p, speed) => Arg(p) && p !in {"pause", "stop", "resume"} && WholeSpeed(speed)
    case _ => true
  }

  /** The tokens that type an operation. */
  function Render(c: RecCommand): seq<string>
  {
    match c
    case Status => ["recording", "status"]
    case RecordStart(f, comment) => ["recording", "start", f] + (if comment.Some? then [comment.value] else [])
    case RecordStop => ["recording", "record", "stop"]
    case PlayLoad(p) => ["recording", "load", p]
    case PlayPause => ["recording", "play", "pause"]
    case PlayStop => ["recording", "play", "stop"]
    case PlayResume(speed) => ["recording", "play", "resume"] + SpeedToken(speed)
    case PlayStart(p, speed) => ["recording", "play", p] + SpeedToken(speed)
    case Error(_) => []
  }

  /** A whole positive speed is read back from its token. */
  lemma SpeedOfToken(n: Option<Num>)
    requires WholeSpeed(n)
    ensures Speed(Tok(SpeedToken(n), 0)) == Ok(n)
  {
    if n.Some? {
      var k := n.value.v.Floor;
      NumberOfNatString(k);
      assert Tok(SpeedToken(n), 0) == Some(NatToString(k));
    }
  }

  /** Parsing the tokens that type an operation gives the operation back. */
  lemma ParseRender(c: RecCommand)
    requires Typeable(c)
    ensures ParseRecording(Render(c)) == Some(c)
  {
    match c
    case RecordStart(f, comment) => ParseRenderStart(f, comment);
    case PlayLoad(p) => assert Tok(Render(c), 2) == Some(p);
    case PlayResume(speed) => ParseRenderPlay(c);
    case PlayStart(p, speed) => ParseRenderPlay(c);
    case _ =>
  }

  lemma ParseRenderStart(f: string, comment: Option<string>)
    requires Typeable(RecordStart(f, comment))
    ensures ParseRecording(Render(RecordStart(f, comment))) == Some(RecordStart(f, comment))
  {
    var ps := Render(RecordStart(f, comment));
    assert Tok(ps, 2) == Some(f);
    if comment.Some? {
      assert Rest(ps) == [comment.value];
    } else {
      assert Rest(ps) == [];
      TrimByNoop([], IsJsSpace);
    }
  }

  lemma ParseRenderPlay(c: RecCommand)
    requires Typeable(c) && (c.PlayResume? || c.PlayStart?)
    ensures ParseRecording(Render(c)) == Some(c)
  {
    var ps := Render(c);
    assert Rest(ps) == SpeedToken(c.speed);
    SpeedOfToken(c.speed);
    if c.PlayStart? {
      assert Tok(ps, 2) == Some(c.path);
    }
  }
}
