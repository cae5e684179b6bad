/**
 * The rule engine that picks the conversation mode for a presence: rules
 * are ordered by priority once, then the first enabled rule whose zone,
 * weekday and time-range conditions all hold for the context wins.
 *
 * A rule is an object with its five properties as JavaScript values, except
 * its priority, which is a number or absent. The TypeErrors the source
 * throws on malformed time ranges are the Err results.
 */
module RuleEngine {
  import opened Common
  import opened Js

  const DEFAULT_PRIORITY: real := 100.0
  const TYPE_ERROR: string := "TypeError"
  const MINUTES_PER_DAY: int := 1440

  datatype Rule = Rule(id: Value, enabled: Value, priority: Option<real>, conditions: Value, actions: Value)

  /** The context select is asked about: the zone, weekday 1..7 (Monday = 1) and minute of the day. */
  datatype Context = Context(zone: string, weekday: int, minuteOfDay: int)

  /** { ruleId, actions }: both null when no rule matches. */
  datatype Selection = Selection(ruleId: Value, actions: Value)

  /** The engine holds its rules in the order select tries them. */
  datatype Engine = Engine(rules: seq<Rule>)

  // ------------------------------------------------------------------
  // Ordering at construction

  /** a.priority ?? 100 */
  function Priority(r: Rule): real
  {
    if r.priority.Some? then r.priority.value else DEFAULT_PRIORITY
  }

  predicate ByPriority(s: seq<Rule>)
  {
    forall i, j :: 0 <= i < j < |s| ==> Priority(s[i]) <= Priority(s[j])
  }

  /** x put in front of the first rule of s whose priority is not below its own. */
  function InsertByPriority(x: Rule, s: seq<Rule>): (r: seq<Rule>)
    ensures |r| == |s| + 1
    ensures multiset(r) == multiset(s) + multiset{x}
  {
    if s == [] || Priority(x) <= Priority(s[0]) then [x] + s
    else
      assert s == [s[0]] + s[1..];
      [s[0]] + InsertByPriority(x, s[1..])
  }

  /** The stable sort by priority: rules of equal priority keep their configured order. */
  function SortByPriority(s: seq<Rule>): (r: seq<Rule>)
    ensures |r| == |s|
    ensures multiset(r) == multiset(s)
  {
    if s == [] then []
    else
      assert s == [s[0]] + s[1..];
      InsertByPriority(s[0], SortByPriority(s[1..]))
  }

  lemma {:induction false} InsertByPriorityOrdered(x: Rule, s: seq<Rule>)
    requires ByPriority(s)
    ensures ByPriority(InsertByPriority(x, s))
    decreases |s|
  {
    if s != [] && Priority(x) > Priority(s[0]) {
      InsertByPriorityOrdered(x, s[1..]);
      var t := InsertByPriority(x, s[1..]);
      forall k | 0 <= k < |t| ensures Priority(s[0]) <= Priority(t[k]) {
        assert t[k] in multiset(t);
        if t[k] in multiset(s[1..]) {
          var m :| 0 <= m < |s[1..]| && s[1..][m] == t[k];
          assert s[m + 1] == t[k];
        }
      }
    }
  }

  lemma {:induction false} SortByPriorityOrdered(s: seq<Rule>)
    ensures ByPriority(SortByPriority(s))
    decreases |s|
  {
    if s != [] {
      SortByPriorityOrdered(s[1..]);
      InsertByPriorityOrdered(s[0], SortByPriority(s[1..]));
    }
  }

  /** The rules of s with priority p, in order. */
  function WithPriority(s: seq<Rule>, p: real): (r: seq<Rule>)
    ensures forall x :: x in r ==> x in s && Priority(x) == p
  {
    if s == [] then []
    else (if Priority(s[0]) == p then [s[0]] else []) + WithPriority(s[1..], p)
  }

  lemma {:induction false} InsertWithPriority(x: Rule, s: seq<Rule>, p: real)
    ensures WithPriority(InsertByPriority(x, s), p) == (if Priority(x) == p then [x] else []) + WithPriority(s, p)
    decreases |s|
  {
    if s == [] || Priority(x) <= Priority(s[0]) {
      assert InsertByPriority(x, s) == [x] + s;
      assert ([x] + s)[1..] == s;
    } else {
      var t := InsertByPriority(x, s[1..]);
      InsertWithPriority(x, s[1..], p);
      assert InsertByPriority(x, s) == [s[0]] + t;
      assert ([s[0]] + t)[1..] == t;
      var rest := WithPriority(s[1..], p);
      if Priority(s[0]) == p {
        assert WithPriority(t, p) == rest;
        assert WithPriority([s[0]] + t, p) == [s[0]] + WithPriority(t, p);
        assert WithPriority(s, p) == [s[0]] + rest;
      } else {
        assert WithPriority([s[0]] + t, p) == WithPriority(t, p);
        assert WithPriority(s, p) == rest;
      }
    }
  }

  /** The sort is stable: for every priority, its rules come out in the order they were configured. */
  lemma {:induction false} SortByPriorityStable(s: seq<Rule>, p: real)
    ensures WithPriority(SortByPriority(s), p) == WithPriority(s, p)
    decreases |s|
  {
    if s != [] {
      SortByPriorityStable(s[1..], p);
      InsertWithPriority(s[0], SortByPriority(s[1..]), p);
    }
  }

  /** new RuleEngine({ rules = [] }): the configured rules in ascending priority, equal ones in configured order. */
  function NewEngine(rules: seq<Rule>): (e: Engine)
    ensures ByPriority(e.rules) && multiset(e.rules) == multiset(rules)
    ensures forall p :: WithPriority(e.rules, p) == WithPriority(rules, p)
  {
    SortByPriorityOrdered(rules);
    forall p ensures WithPriority(SortByPriority(rules), p) == WithPriority(rules, p) {
      SortByPriorityStable(rules, p);
    }
    Engine(SortByPriority(rules))
  }

  // ------------------------------------------------------------------
  // Times of day

  /**
   * #parseHHMM as written: "HH:MM" with 00 <= HH <= 23 and 00 <= MM <= 59,
   * as minutes after midnight; anything else, "24:00" included, is None.
   */
  function ParseHHMMAsWritten(v: Value): (r: Option<int>)
    ensures r.Some? ==> 0 <= r.value < MINUTES_PER_DAY
  {
    if !v.Str? then None
    else
      var s := v.s;
      if |s| == 5 && IsDigit(s[0]) && IsDigit(s[1]) && s[2] == ':' && IsDigit(s[3]) && IsDigit(s[4]) then
        var hh := 10 * DigitValue(s[0]) + DigitValue(s[1]);
        var mm := 10 * DigitValue(s[3]) + DigitValue(s[4]);
        if hh > 23 || mm > 59 then None
        else Some(hh * 60 + mm)
      else None
  }

  /** The end of the day, "24:00", as a range end. */
  const END_OF_DAY: string := "24:00"

  /**
   * #parseHHMM, corrected: as written, and "24:00" is the end of the day,
   * minute 1440, so that a range may run up to midnight.
   */
  function ParseHHMM(v: Value): (r: Option<int>)
    ensures r.Some? ==> 0 <= r.value <= MINUTES_PER_DAY
    ensures r == Some(MINUTES_PER_DAY) <==> v == Str(END_OF_DAY)
  {
    if v == Str(END_OF_DAY) then Some(MINUTES_PER_DAY) else ParseHHMMAsWritten(v)
  }

  /** A minute of the day written "HH:MM" with two digits each. */
  function FormatHHMM(m: int): (s: string)
    requires 0 <= m < MINUTES_PER_DAY
    ensures |s| == 5
  {
    var hh, mm := m / 60, m % 60;
    [DigitChar(hh / 10), DigitChar(hh % 10), ':', DigitChar(mm / 10), DigitChar(mm % 10)]
  }

  lemma DigitCharOfValue(c: char)
    requires IsDigit(c)
    ensures DigitChar(DigitValue(c)) == c
  {
  }

  /** A string parses to m exactly when it is the two-digit rendering of m, or "24:00" and m is the end of the day. */
  lemma ParseHHMMExact(s: string, m: int)
    ensures ParseHHMM(Str(s)) == Some(m) <==>
      (0 <= m < MINUTES_PER_DAY && s == FormatHHMM(m)) || (m == MINUTES_PER_DAY && s == END_OF_DAY)
  {
    ParseHHMMAsWrittenExact(s, m);
    if s == END_OF_DAY {
      assert ParseHHMMAsWritten(Str(s)).None?;
    }
  }

  /** As written, a string parses to m exactly when it is the two-digit rendering of m. */
  lemma ParseHHMMAsWrittenExact(s: string, m: int)
    ensures ParseHHMMAsWritten(Str(s)) == Some(m) <==> 0 <= m < MINUTES_PER_DAY && s == FormatHHMM(m)
  {
    if ParseHHMMAsWritten(Str(s)) == Some(m) {
      var hh := 10 * DigitValue(s[0]) + DigitValue(s[1]);
      var mm := 10 * DigitValue(s[3]) + DigitValue(s[4]);
      assert m / 60 == hh && m % 60 == mm;
      assert hh / 10 == DigitValue(s[0]) && hh % 10 == DigitValue(s[1]);
      assert mm / 10 == DigitValue(s[3]) && mm % 10 == DigitValue(s[4]);
      DigitCharOfValue(s[0]);
      DigitCharOfValue(s[1]);
      DigitCharOfValue(s[3]);
      DigitCharOfValue(s[4]);
      assert s == FormatHHMM(m);
    }
    if 0 <= m < MINUTES_PER_DAY && s == FormatHHMM(m) {
      var hh, mm := m / 60, m % 60;
      assert 10 * (hh / 10) + hh % 10 == hh;
      assert 10 * (mm / 10) + mm % 10 == mm;
    }
  }

  /**
   * Whether minuteOfDay lies in the range from start to end: equal ends
   * admit every minute, start < end is half-open, start > end wraps midnight.
   */
  predicate InRange(start: int, end: int, minuteOfDay: int)
  {
    if start == end then true
    else if end > start then start <= minuteOfDay < end
    else minuteOfDay >= start || minuteOfDay < end
  }

  /** An overnight range admits exactly the minutes the day range with its ends swapped does not. */
  lemma OvernightIsComplement(start: int, end: int, minuteOfDay: int)
    requires start > end
    ensures InRange(start, end, minuteOfDay) <==> !InRange(end, start, minuteOfDay)
  {
  }

  /** #timeRangeMatches(range, minuteOfDay) with the times read by parse; reading start of null or undefined throws. */
  function RangeMatchesBy(parse: Value -> Option<int>, range: Value, minuteOfDay: int): (r: Result<bool, string>)
    ensures r.Err? <==> Nullish(range)
    ensures r == Ok(true) <==>
      (&& !Nullish(range)
       && parse(Get(range, "start")).Some? && parse(Get(range, "end")).Some?
       && InRange(parse(Get(range, "start")).value, parse(Get(range, "end")).value, minuteOfDay))
  {
    if Nullish(range) then Err(TYPE_ERROR)
    else
      var start, end := parse(Get(range, "start")), parse(Get(range, "end"));
      if start.None? || end.None? then Ok(false)
      else Ok(InRange(start.value, end.value, minuteOfDay))
  }

  /** #timeRangeMatches(range, minuteOfDay), with the corrected #parseHHMM. */
  function RangeMatches(range: Value, minuteOfDay: int): (r: Result<bool, string>)
    ensures r.Err? <==> Nullish(range)
    ensures r == Ok(true) <==>
      (&& !Nullish(range)
       && ParseHHMM(Get(range, "start")).Some? && ParseHHMM(Get(range, "end")).Some?
       && InRange(ParseHHMM(Get(range, "start")).value, ParseHHMM(Get(range, "end")).value, minuteOfDay))
  {
    RangeMatchesBy(ParseHHMM, range, minuteOfDay)
  }

  /** The range 00:00-24:00. */
  function WholeDay(): Value
  {
    Obj([Prop("start", Str("00:00")), Prop("end", Str(END_OF_DAY))])
  }

  /**
   * As written, "24:00" is not a time of day: the range 00:00-24:00 never
   * admits a minute, so a rule whose only range it is never matches.
   */
  lemma EndOfDayRangeNeverMatches(minuteOfDay: int)
    ensures RangeMatchesBy(ParseHHMMAsWritten, WholeDay(), minuteOfDay) == Ok(false)
  {
    assert Get(WholeDay(), "end") == Str(END_OF_DAY);
    assert ParseHHMMAsWritten(Str(END_OF_DAY)).None?;
  }

  /** Corrected, the range 00:00-24:00 admits every minute of the day. */
  lemma EndOfDayRangeMatchesAll(minuteOfDay: int)
    requires 0 <= minuteOfDay < MINUTES_PER_DAY
    ensures RangeMatches(WholeDay(), minuteOfDay) == Ok(true)
  {
    assert Get(WholeDay(), "start") == Str("00:00");
    assert Get(WholeDay(), "end") == Str(END_OF_DAY);
    assert ParseHHMMAsWritten(Str("00:00")) == Some(0);
  }

  /** timeRanges.some(...): true at the first range that matches, an error at the first that throws. */
  function AnyRangeMatches(ranges: seq<Value>, minuteOfDay: int): Result<bool, string>
  {
    if ranges == [] then Ok(false)
    else
      var first := RangeMatches(ranges[0], minuteOfDay);
      if first.Err? then first
      else if first.value then Ok(true)
      else AnyRangeMatches(ranges[1..], minuteOfDay)
  }

  /** Range i admits the minute and every range before it was tried and refused. */
  predicate FirstMatchAt(ranges: seq<Value>, minuteOfDay: int, i: int)
  {
    && 0 <= i < |ranges| && RangeMatches(ranges[i], minuteOfDay) == Ok(true)
    && forall j :: 0 <= j < i ==> RangeMatches(ranges[j], minuteOfDay) == Ok(false)
  }

  /**
   * some() is true exactly when a range matches before any range throws,
   * and false exactly when every range is refused.
   */
  lemma {:induction false} AnyRangeMatchesSpec(ranges: seq<Value>, minuteOfDay: int)
    ensures AnyRangeMatches(ranges, minuteOfDay) == Ok(true) <==> exists i :: FirstMatchAt(ranges, minuteOfDay, i)
    ensures AnyRangeMatches(ranges, minuteOfDay) == Ok(false) <==>
      forall i :: 0 <= i < |ranges| ==> RangeMatches(ranges[i], minuteOfDay) == Ok(false)
    decreases |ranges|
  {
    if ranges == [] {
      return;
    }
    var first := RangeMatches(ranges[0], minuteOfDay);
    if first == Ok(true) {
      assert FirstMatchAt(ranges, minuteOfDay, 0);
    } else if first == Ok(false) {
      var tail := ranges[1..];
      AnyRangeMatchesSpec(tail, minuteOfDay);
      assert forall i :: 0 < i < |ranges| ==> ranges[i] == tail[i - 1];
      if AnyRangeMatches(tail, minuteOfDay) == Ok(true) {
        var i :| FirstMatchAt(tail, minuteOfDay, i);
        assert FirstMatchAt(ranges, minuteOfDay, i + 1);
      }
      if i :| FirstMatchAt(ranges, minuteOfDay, i) {
        assert i != 0;
        assert FirstMatchAt(tail, minuteOfDay, i - 1);
      }
    } else {
      assert forall i :: !FirstMatchAt(ranges, minuteOfDay, i);
    }
  }

  /** x.length > 0 for a value with no some() method: a non-empty string, or an object with a positive length. */
  predicate HasPositiveLength(x: Value)
  {
    match x
    case Str(s) => s != []
    case Obj(_) => (var n := ToNumber(Get(x, "length")); n == Infinity(false) || (n.Fin? && n.v > 0.0))
    case _ => false
  }

  /**
   * #matches(rule, context): a truthy zone must be the context's zone, a
   * non-empty weekday array must include the weekday, and a non-empty list
   * of time ranges must have one that admits the minute.
   */
  function Matches(rule: Rule, ctx: Context): Result<bool, string>
  {
    var conditions := if Nullish(rule.conditions) then Obj([]) else rule.conditions;
    var zone := Get(conditions, "zone");
    var weekday := Get(conditions, "weekday");
    var timeRanges := Get(conditions, "timeRanges");
    if Truthy(zone) && zone != Str(ctx.zone) then Ok(false)
    else if weekday.Arr? && |weekday.items| > 0 && Int(ctx.weekday) !in weekday.items then Ok(false)
    else if Nullish(timeRanges) then Ok(true)
    else if timeRanges.Arr? then
      (if |timeRanges.items| > 0 then AnyRangeMatches(timeRanges.items, ctx.minuteOfDay) else Ok(true))
    else if HasPositiveLength(timeRanges) then Err(TYPE_ERROR)
    else Ok(true)
  }

  /** Conditions that name no zone, list no weekday and no time range hold in every context. */
  lemma NoConditionsMatch(rule: Rule, ctx: Context)
    requires Nullish(rule.conditions)
      || (rule.conditions.Obj? && Nullish(Get(rule.conditions, "zone"))
          && Get(rule.conditions, "weekday") == Arr([]) && Get(rule.conditions, "timeRanges") == Arr([]))
    ensures Matches(rule, ctx) == Ok(true)
  {
  }

  /** The zone condition: a rule for one zone never matches in the other. */
  lemma ZoneMustAgree(rule: Rule, ctx: Context)
    requires rule.conditions.Obj? && Get(rule.conditions, "zone").Str?
    requires Get(rule.conditions, "zone").s != [] && Get(rule.conditions, "zone").s != ctx.zone
    ensures Matches(rule, ctx) == Ok(false)
  {
  }

  // ------------------------------------------------------------------
  // Selection

  /** rule.enabled === 0 */
  predicate Disabled(rule: Rule)
  {
    rule.enabled == Int(0)
  }

  /** The selection a chosen rule gives: rule.id ?? null, rule.actions ?? null. */
  function SelectionOf(rule: Rule): Selection
  {
    Selection(if Nullish(rule.id) then Null else rule.id, if Nullish(rule.actions) then Null else rule.actions)
  }

  /** The loop of select over the rules from the first on. */
  function SelectFrom(rules: seq<Rule>, ctx: Context): Result<Selection, string>
  {
    if rules == [] then Ok(Selection(Null, Null))
    else if Disabled(rules[0]) then SelectFrom(rules[1..], ctx)
    else
      match Matches(rules[0], ctx)
      case Err(e) => Err(e)
      case Ok(m) => if m then Ok(SelectionOf(rules[0])) else SelectFrom(rules[1..], ctx)
  }

  /** select(context) */
  function Select(e: Engine, ctx: Context): Result<Selection, string>
  {
    SelectFrom(e.rules, ctx)
  }

  /** The rule is tried and chosen. */
  predicate Chosen(rule: Rule, ctx: Context)
  {
    !Disabled(rule) && Matches(rule, ctx) == Ok(true)
  }

  /** The rule is passed over: disabled, or its conditions do not hold. */
  predicate PassedOver(rule: Rule, ctx: Context)
  {
    Disabled(rule) || Matches(rule, ctx) == Ok(false)
  }

  /**
   * The first enabled matching rule wins, with the rules before it passed
   * over; when every rule is passed over the selection is null, null.
   */
  lemma {:induction false} SelectFirstMatch(rules: seq<Rule>, ctx: Context)
    ensures (forall j :: 0 <= j < |rules| ==> PassedOver(rules[j], ctx)) ==> SelectFrom(rules, ctx) == Ok(Selection(Null, Null))
    ensures forall i :: 0 <= i < |rules| && Chosen(rules[i], ctx) && (forall j :: 0 <= j < i ==> PassedOver(rules[j], ctx)) ==>
      SelectFrom(rules, ctx) == Ok(SelectionOf(rules[i]))
  {
    if rules != [] {
      SelectFirstMatch(rules[1..], ctx);
      assert forall j :: 0 < j < |rules| ==> rules[j] == rules[1..][j - 1];
      forall i | 0 < i < |rules| && Chosen(rules[i], ctx) && (forall j :: 0 <= j < i ==> PassedOver(rules[j], ctx))
        ensures SelectFrom(rules, ctx) == Ok(SelectionOf(rules[i]))
      {
        assert Chosen(rules[1..][i - 1], ctx);
        assert forall j :: 0 <= j < i - 1 ==> PassedOver(rules[1..][j], ctx);
      }
    }
  }

  /**
   * No enabled matching rule has a smaller priority than the one chosen:
   * in the engine's order every rule before the chosen one is passed over.
   */
  lemma PriorityChosen(rules: seq<Rule>, ctx: Context, i: int)
    requires var e := NewEngine(rules);
      0 <= i < |e.rules| && Chosen(e.rules[i], ctx) && forall j :: 0 <= j < i ==> PassedOver(e.rules[j], ctx)
    ensures forall x :: x in rules && Chosen(x, ctx) ==> Priority(NewEngine(rules).rules[i]) <= Priority(x)
  {
    var s := NewEngine(rules).rules;
    forall x | x in rules && Chosen(x, ctx) ensures Priority(s[i]) <= Priority(x) {
      assert x in multiset(s);
      var j :| 0 <= j < |s| && s[j] == x;
      assert !(j < i);
    }
  }
}
