/**
 * The recording service's rules between a request and the recorder: the
 * configured recordings path, durations such as "90s", profiles with
 * their variants merged over shared params, file-name tokens, and the
 * guards of record.start, record.stop and record.record.
 */
module RecordingService {
  import opened Common
  import opened Js
  import opened TextOrder

  // ------------------------------------------------------------------
  // normalizeConfigRelPath

  predicate IsSlash(c: char) { c == '/' || c == '\\' }

  predicate IsAsciiLetter(c: char) { 'A' <= c <= 'Z' || 'a' <= c <= 'z' }

  /** A path that starts with two backslashes: a UNC path. */
  predicate IsUncPath(raw: string) { StartsWith(raw, "\\\\") }

  /** /^[A-Za-z]:[\\/]/: a path with a drive letter. */
  predicate IsDrivePath(raw: string) { |raw| >= 3 && IsAsciiLetter(raw[0]) && raw[1] == ':' && IsSlash(raw[2]) }

  /**
   * normalizeConfigRelPath(p): blank gives none; UNC and drive paths are
   * kept; otherwise the leading slashes and backslashes are dropped.
   */
  function NormalizeConfigRelPath(p: Value): (r: Option<string>)
    ensures r.None? <==> TrimmedOrBlank(p) == []
    ensures IsUncPath(TrimmedOrBlank(p)) || IsDrivePath(TrimmedOrBlank(p)) ==> r == Some(TrimmedOrBlank(p))
    ensures r.Some? && !IsUncPath(TrimmedOrBlank(p)) ==>
      var raw := TrimmedOrBlank(p);
      |r.value| <= |raw| && r.value == raw[|raw| - |r.value|..]
      && (forall k :: 0 <= k < |raw| - |r.value| ==> IsSlash(raw[k]))
      && (r.value == [] || !IsSlash(r.value[0]))
  {
    var raw := TrimmedOrBlank(p);
    if raw == [] then None
    else if IsUncPath(raw) then Some(raw)
    else if IsDrivePath(raw) then Some(raw)
    else if IsSlash(raw[0]) then
      var n := LeadingCount(raw, IsSlash);
      assert raw[n..] == raw[|raw| - |raw[n..]|..];
      Some(raw[n..])
    else
      assert raw == raw[|raw| - |raw|..];
      Some(raw)
  }

  /** A normalised path that does not start with white space normalises to itself. */
  lemma NormalizeIdempotent(p: Value)
    requires NormalizeConfigRelPath(p).Some?
    requires var v := NormalizeConfigRelPath(p).value; v != [] && !IsJsSpace(v[0])
    ensures NormalizeConfigRelPath(Str(NormalizeConfigRelPath(p).value)) == NormalizeConfigRelPath(p)
  {
    var raw := TrimmedOrBlank(p);
    var v := NormalizeConfigRelPath(p).value;
    assert !IsJsSpace(raw[|raw| - 1]);
    assert v[|v| - 1] == raw[|raw| - 1];
    NormalizeFixed(v);
  }

  /** A path without surrounding white space that is UNC, has a drive or starts without a slash is kept as it is. */
  lemma NormalizeFixed(v: string)
    requires v != [] && !IsJsSpace(v[0]) && !IsJsSpace(v[|v| - 1])
    requires IsUncPath(v) || IsDrivePath(v) || !IsSlash(v[0])
    ensures NormalizeConfigRelPath(Str(v)) == Some(v)
  {
    TrimByNoop(v, IsJsSpace);
    assert TrimmedOrBlank(Str(v)) == v;
  }

  // ------------------------------------------------------------------
  // parseDurationMs

  /** The characters of a duration's number: digits and the point. */
  predicate IsNumberChar(c: char) { IsDigit(c) || c == '.' }

  /** \d+(?:\.\d+)?: the value of digits with an optional fraction. */
  function DecimalLiteral(s: string): (r: Option<real>)
    ensures r.Some? ==> r.value >= 0.0
    ensures s != [] && AllDigits(s) ==> r == Some(DigitsValue(s) as real)
  {
    if s != [] && AllDigits(s) then Some(DigitsValue(s) as real)
    else if '.' in s then
      var j := IndexOf(s, '.');
      var ip := s[..j];
      var fp := s[j + 1..];
      if ip != [] && fp != [] && AllDigits(ip) && AllDigits(fp) then
        Some(DigitsValue(ip) as real + DigitsValue(fp) as real / Pow10(|fp|))
      else None
    else None
  }

  /** (ms|s|m)?: the unit's factor in milliseconds, ms when absent. */
  function UnitFactor(u: string): (f: Option<int>)
    ensures f.Some? ==> f.value > 0
  {
    if u == "" || u == "ms" then Some(1)
    else if u == "s" then Some(1000)
    else if u == "m" then Some(60000)
    else None
  }

  /**
   * /^(\d+(?:\.\d+)?)(ms|s|m)?$/: the unit has no digit and no point, so
   * the number is the longest prefix of digits and points.
   */
  function DurationLiteral(s: string): (r: Option<(real, int)>)
    ensures r.Some? ==> r.value.0 >= 0.0 && r.value.1 > 0
  {
    var k := LeadingCount(s, IsNumberChar);
    var n := DecimalLiteral(s[..k]);
    var f := UnitFactor(s[k..]);
    if n.Some? && f.Some? then Some((n.value, f.value)) else None
  }

  /**
   * parseDurationMs(v): a positive number is rounded; a string such as
   * "250", "250ms", "1.5s" or "2M" is scaled by its unit and rounded;
   * anything else gives none.
   */
  function ParseDurationMs(v: Value): (r: Option<int>)
    ensures Nullish(v) ==> r.None?
    ensures v.Number? ==> (r.Some? <==> v.n.Fin? && v.n.v > 0.0)
    ensures v.Number? && r.Some? ==> v.n.v - 0.5 < r.value as real <= v.n.v + 0.5
    ensures r.Some? ==> r.value >= 0
  {
    if Nullish(v) then None
    else if v.Number? then
      (if v.n.Fin? && v.n.v > 0.0 then Some(Round(v.n.v)) else None)
    else
      var s := Lower(Trim(ToStr(v)));
      if s == [] then None
      else
        var d := DurationLiteral(s);
        if d.None? || d.value.0 <= 0.0 then None
        else Some(Scaled(d.value.0, d.value.1))
  }

  /** Math.round(n * factor) for a positive amount. */
  function Scaled(n: real, factor: int): (ms: int)
    requires n > 0.0 && factor > 0
    ensures ms >= 0
    ensures n * factor as real - 0.5 < ms as real <= n * factor as real + 0.5
  {
    assert n * factor as real > 0.0;
    Round(n * factor as real)
  }

  /** Digits followed by a lower-case unit parse to the digits' value times the unit's factor. */
  lemma DurationOfDigits(d: string, unit: string)
    requires d != [] && AllDigits(d) && DigitsValue(d) > 0
    requires UnitFactor(unit).Some?
    requires forall k :: 0 <= k < |unit| ==> 'a' <= unit[k] <= 'z'
    ensures ParseDurationMs(Str(d + unit)) == Some(DigitsValue(d) * UnitFactor(unit).value)
  {
    var s := d + unit;
    var f := UnitFactor(unit).value;
    var n := DigitsValue(d);
    CleanText(d, unit);
    LiteralOfDigits(d, unit);
    ParseOfClean(s, n, f);
    ScaledWhole(n, f);
  }

  /** A string that trimming and lower-casing leave alone parses by its literal. */
  lemma ParseOfClean(s: string, n: int, f: int)
    requires s != [] && Lower(Trim(s)) == s
    requires n > 0 && f > 0 && DurationLiteral(s) == Some((n as real, f))
    ensures ParseDurationMs(Str(s)) == Some(Scaled(n as real, f))
  {
    assert ToStr(Str(s)) == s;
  }

  /** A whole amount scales to a whole number of milliseconds, with nothing to round. */
  lemma ScaledWhole(n: int, f: int)
    requires n > 0 && f > 0
    ensures Scaled(n as real, f) == n * f
  {
    assert n as real * f as real == (n * f) as real;
  }

  /** Digits and lower-case letters are neither trimmed nor lower-cased. */
  lemma CleanText(d: string, unit: string)
    requires d != [] && AllDigits(d)
    requires forall k :: 0 <= k < |unit| ==> 'a' <= unit[k] <= 'z'
    ensures Lower(Trim(d + unit)) == d + unit
  {
    var s := d + unit;
    assert s[0] == d[0];
    if unit != [] {
      assert s[|s| - 1] == unit[|unit| - 1];
    }
    TrimByNoop(s, IsJsSpace);
    forall k | 0 <= k < |s|
      ensures !('A' <= s[k] <= 'Z')
    {
      if k < |d| { assert s[k] == d[k]; } else { assert s[k] == unit[k - |d|]; }
    }
    LowerNoop(s);
  }

  /** The number part of digits and a unit is the digits, the rest the unit. */
  lemma LiteralOfDigits(d: string, unit: string)
    requires d != [] && AllDigits(d)
    requires UnitFactor(unit).Some?
    requires forall k :: 0 <= k < |unit| ==> 'a' <= unit[k] <= 'z'
    ensures DurationLiteral(d + unit) == Some((DigitsValue(d) as real, UnitFactor(unit).value))
  {
    var s := d + unit;
    if unit == [] {
      assert s == d;
      LeadingAll(d);
    } else {
      LeadingPrefix(d, unit);
    }
    assert s[..|d|] == d;
    assert s[|d|..] == unit;
  }

  /** The number part of the pattern: digits, then optionally a point and more digits. */
  function NumberText(ip: string, fp: string): string
  {
    if fp == [] then ip else ip + "." + fp
  }

  /** ip, fp and unit fill /^(\d+(?:\.\d+)?)(ms|s|m)?$/, an empty fp standing for no fraction. */
  predicate DurationParts(ip: string, fp: string, unit: string)
  {
    ip != [] && AllDigits(ip) && AllDigits(fp) && (unit == "" || unit == "ms" || unit == "s" || unit == "m")
  }

  /** Number(m[1]) for the digits ip and fraction digits fp. */
  function PartsValue(ip: string, fp: string): real
    requires AllDigits(ip) && AllDigits(fp)
  {
    DigitsValue(ip) as real + DigitsValue(fp) as real / Pow10(|fp|)
  }

  /** A text that fills the pattern is read as its number and its unit's factor. */
  lemma DurationLiteralOfParts(ip: string, fp: string, unit: string)
    requires DurationParts(ip, fp, unit)
    ensures DurationLiteral(NumberText(ip, fp) + unit) == Some((PartsValue(ip, fp), UnitFactor(unit).value))
  {
    var t := NumberText(ip, fp);
    var s := t + unit;
    NumberTextChars(ip, fp);
    assert unit == [] || !IsNumberChar(unit[0]);
    LeadingCountPrefix(t, unit, IsNumberChar);
    assert s[..|t|] == t && s[|t|..] == unit;
    DecimalOfParts(ip, fp);
  }

  lemma NumberTextChars(ip: string, fp: string)
    requires AllDigits(ip) && AllDigits(fp)
    ensures forall k :: 0 <= k < |NumberText(ip, fp)| ==> IsNumberChar(NumberText(ip, fp)[k])
  {
    var t := NumberText(ip, fp);
    if fp != [] {
      forall k | 0 <= k < |t| ensures IsNumberChar(t[k]) {
        if k < |ip| { assert t[k] == ip[k]; }
        else if k > |ip| { assert t[k] == fp[k - |ip| - 1]; }
      }
    }
  }

  /** The number part is read as the digits plus the fraction. */
  lemma DecimalOfParts(ip: string, fp: string)
    requires ip != [] && AllDigits(ip) && AllDigits(fp)
    ensures DecimalLiteral(NumberText(ip, fp)) == Some(PartsValue(ip, fp))
  {
    var t := NumberText(ip, fp);
    if fp != [] {
      assert t[|ip|] == '.';
      assert !AllDigits(t);
      assert t[..|ip|] == ip;
      assert '.' !in t[..|ip|];
      assert IndexOf(t, '.') == |ip|;
      assert t[|ip| + 1..] == fp;
    }
  }

  /** Conversely, a text with a literal fills the pattern. */
  lemma DurationLiteralHasParts(s: string)
    requires DurationLiteral(s).Some?
    ensures exists ip, fp, unit :: DurationParts(ip, fp, unit) && s == NumberText(ip, fp) + unit
  {
    var k := LeadingCount(s, IsNumberChar);
    var num := s[..k];
    var unit := s[k..];
    assert s == num + unit;
    if num != [] && AllDigits(num) {
      assert DurationParts(num, [], unit) && s == NumberText(num, []) + unit;
    } else {
      var j := IndexOf(num, '.');
      var ip := num[..j];
      var fp := num[j + 1..];
      assert num == ip + "." + fp;
      assert DurationParts(ip, fp, unit) && s == NumberText(ip, fp) + unit;
    }
  }

  /** DurationLiteral reads exactly the texts that fill /^(\d+(?:\.\d+)?)(ms|s|m)?$/. */
  lemma DurationLiteralIff(s: string)
    ensures DurationLiteral(s).Some? <==> exists ip, fp, unit :: DurationParts(ip, fp, unit) && s == NumberText(ip, fp) + unit
  {
    if DurationLiteral(s).Some? {
      DurationLiteralHasParts(s);
    }
    if exists ip, fp, unit :: DurationParts(ip, fp, unit) && s == NumberText(ip, fp) + unit {
      var ip, fp, unit :| DurationParts(ip, fp, unit) && s == NumberText(ip, fp) + unit;
      DurationLiteralOfParts(ip, fp, unit);
    }
  }

  /**
   * A string whose trimmed lower-case form fills the pattern parses to its
   * number times the unit's factor, rounded, when that number is positive,
   * and to none when it is zero.
   */
  lemma ParseDurationOfParts(v: string, ip: string, fp: string, unit: string)
    requires DurationParts(ip, fp, unit) && Lower(Trim(v)) == NumberText(ip, fp) + unit
    ensures ParseDurationMs(Str(v)) ==
      if PartsValue(ip, fp) > 0.0 then Some(Scaled(PartsValue(ip, fp), UnitFactor(unit).value)) else None
  {
    DurationLiteralOfParts(ip, fp, unit);
    ParseOfLiteral(v, PartsValue(ip, fp), UnitFactor(unit).value);
  }

  /** A string whose trimmed lower-case form has a literal parses by that literal. */
  lemma ParseOfLiteral(v: string, n: real, f: int)
    requires DurationLiteral(Lower(Trim(v))) == Some((n, f))
    ensures n > 0.0 ==> ParseDurationMs(Str(v)) == Some(Scaled(n, f))
    ensures n <= 0.0 ==> ParseDurationMs(Str(v)) == None
  {
    assert ToStr(Str(v)) == v;
  }

  /** A string whose trimmed lower-case form does not fill the pattern parses to none. */
  lemma ParseDurationNotLiteral(v: string)
    requires !exists ip, fp, unit :: DurationParts(ip, fp, unit) && Lower(Trim(v)) == NumberText(ip, fp) + unit
    ensures ParseDurationMs(Str(v)) == None
  {
    assert ToStr(Str(v)) == v;
    DurationLiteralIff(Lower(Trim(v)));
  }

  /** "1.5s" is 1500 milliseconds. */
  lemma DurationWithFraction()
    ensures ParseDurationMs(Str("1.5s")) == Some(1500)
  {
    var v := "1.5s";
    CleanDuration(v);
    ParseDurationOfParts(v, "1", "5", "s");
    OneAndAHalf();
    assert Scaled(1.5, 1000) == 1500 by {
      assert 1.5 * 1000 as real == 1500.0;
    }
  }

  lemma CleanDuration(v: string)
    requires v == "1.5s"
    ensures Lower(Trim(v)) == v == NumberText("1", "5") + "s"
    ensures DurationParts("1", "5", "s") && UnitFactor("s") == Some(1000)
  {
    TrimByNoop(v, IsJsSpace);
    LowerNoop(v);
  }

  lemma OneAndAHalf()
    ensures PartsValue("1", "5") == 1.5
  {
    assert "1"[..0] == [] && "5"[..0] == [];
    assert DigitsValue("1") == 1 && DigitsValue("5") == 5;
  }

  /** "<n>s" is n seconds. */
  lemma DurationInSeconds(n: nat)
    requires n > 0
    ensures ParseDurationMs(Str(NatToString(n) + "s")) == Some(n * 1000)
  {
    NatToStringValue(n);
    DurationOfDigits(NatToString(n), "s");
  }

  /** "<n>m" is n minutes. */
  lemma DurationInMinutes(n: nat)
    requires n > 0
    ensures ParseDurationMs(Str(NatToString(n) + "m")) == Some(n * 60000)
  {
    NatToStringValue(n);
    DurationOfDigits(NatToString(n), "m");
  }

  /** "<n>ms" is n milliseconds. */
  lemma DurationInMilliseconds(n: nat)
    requires n > 0
    ensures ParseDurationMs(Str(NatToString(n) + "ms")) == Some(n)
  {
    NatToStringValue(n);
    var unit := "ms";
    assert UnitFactor(unit) == Some(1);
    assert forall k :: 0 <= k < |unit| ==> 'a' <= unit[k] <= 'z';
    DurationOfDigits(NatToString(n), unit);
  }

  /** Lower-casing a string without capitals leaves it unchanged. */
  lemma LowerNoop(s: string)
    requires forall k :: 0 <= k < |s| ==> !('A' <= s[k] <= 'Z')
    ensures Lower(s) == s
  {
  }

  /** Plain digits are milliseconds. */
  lemma DurationOfPlainDigits(n: nat)
    requires n > 0
    ensures ParseDurationMs(Str(NatToString(n))) == Some(n)
  {
    NatToStringValue(n);
    DurationOfDigits(NatToString(n), "");
    assert NatToString(n) + "" == NatToString(n);
  }

  /** Every character of a string of digits is a number character. */
  lemma {:induction false} LeadingAll(d: string)
    requires AllDigits(d)
    ensures LeadingCount(d, IsNumberChar) == |d|
  {
    if d != [] {
      assert AllDigits(d[1..]);
      LeadingAll(d[1..]);
    }
  }

  lemma {:induction false} LeadingPrefix(d: string, unit: string)
    requires AllDigits(d) && unit != [] && !IsNumberChar(unit[0])
    ensures LeadingCount(d + unit, IsNumberChar) == |d|
  {
    if d != [] {
      assert (d + unit)[1..] == d[1..] + unit;
      assert AllDigits(d[1..]);
      LeadingPrefix(d[1..], unit);
    } else {
      assert d + unit == unit;
    }
  }

  /** A positive number below half a millisecond parses to 0, which record.start refuses. */
  lemma TinyDurationIsZero(x: real)
    requires 0.0 < x < 0.5
    ensures ParseDurationMs(Number(Fin(x))) == Some(0)
  {
  }

  // ------------------------------------------------------------------
  // mergeDeep

  /** The keys of a JavaScript object are distinct. */
  predicate UniqueKeys(props: seq<Prop>)
  {
    forall i, j :: 0 <= i < j < |props| ==> props[i].key != props[j].key
  }

  /** The value mergeDeep writes for one entry of the override, given what out held under its key. */
  function MergedValue(bv: Option<Value>, v: Value): Value
    decreases v, 2
  {
    if bv.Some? && bv.value.Obj? && v.Obj? then Merge(bv.value, v) else v
  }

  /** mergeDeep(base, override) */
  function Merge(base: Value, over: Value): (r: Value)
    ensures !base.Obj? || !over.Obj? ==> r == over
    ensures base.Obj? && over.Obj? ==> r.Obj?
    decreases over, 1
  {
    if !base.Obj? || !over.Obj? then over
    else Obj(MergeEntries(base.props, over, |over.props|))
  }

  /** out after the loop has written the first n entries of the override. */
  function MergeEntries(out0: seq<Prop>, over: Value, n: nat): (out: seq<Prop>)
    requires over.Obj? && n <= |over.props|
    decreases over, 0, n
  {
    if n == 0 then out0
    else
      var out := MergeEntries(out0, over, n - 1);
      var e := over.props[n - 1];
      assert e in over.props;
      SetProp(out, e.key, MergedValue(Lookup(out, e.key), e.val))
  }

  /** None of the first n entries of props has the key. */
  predicate AbsentBefore(props: seq<Prop>, n: nat, key: string)
    requires n <= |props|
  {
    n == 0 || (props[n - 1].key != key && AbsentBefore(props, n - 1, key))
  }

  /** With distinct keys, the key of entry j is absent before j. */
  lemma {:induction false} UniqueAbsentBefore(props: seq<Prop>, n: nat, j: nat)
    requires UniqueKeys(props) && n <= j < |props|
    ensures AbsentBefore(props, n, props[j].key)
  {
    if n > 0 {
      UniqueAbsentBefore(props, n - 1, j);
    }
  }

  /** None of the entries after j and before n has the key. */
  predicate AbsentBetween(props: seq<Prop>, j: nat, n: nat, key: string)
    requires n <= |props|
  {
    n <= j + 1 || (props[n - 1].key != key && AbsentBetween(props, j, n - 1, key))
  }

  /** With distinct keys, the key of entry j appears at no later entry. */
  lemma {:induction false} UniqueAbsentBetween(props: seq<Prop>, j: nat, n: nat)
    requires UniqueKeys(props) && j < n <= |props|
    ensures AbsentBetween(props, j, n, props[j].key)
  {
    if n > j + 1 {
      UniqueAbsentBetween(props, j, n - 1);
    }
  }

  /** A key that no entry has is absent before every position. */
  lemma {:induction false} MissingAbsentBefore(props: seq<Prop>, n: nat, key: string)
    requires n <= |props| && forall i :: 0 <= i < |props| ==> props[i].key != key
    ensures AbsentBefore(props, n, key)
  {
    if n > 0 {
      MissingAbsentBefore(props, n - 1, key);
    }
  }

  /** A key the loop has not reached keeps out0's value. */
  lemma {:induction false} MergeEntriesUntouched(out0: seq<Prop>, over: Value, n: nat, key: string)
    requires over.Obj? && n <= |over.props| && AbsentBefore(over.props, n, key)
    ensures Lookup(MergeEntries(out0, over, n), key) == Lookup(out0, key)
  {
    if n > 0 {
      MergeEntriesUntouched(out0, over, n - 1, key);
    }
  }

  /** A key the loop has written holds the merge of out0's value with the override's. */
  lemma {:induction false} MergeEntriesWritten(out0: seq<Prop>, over: Value, n: nat, j: nat)
    requires over.Obj? && j < n <= |over.props|
    requires AbsentBefore(over.props, j, over.props[j].key) && AbsentBetween(over.props, j, n, over.props[j].key)
    ensures Lookup(MergeEntries(out0, over, n), over.props[j].key)
         == Some(MergedValue(Lookup(out0, over.props[j].key), over.props[j].val))
  {
    var key := over.props[j].key;
    if j == n - 1 {
      MergeEntriesUntouched(out0, over, n - 1, key);
    } else {
      MergeEntriesWritten(out0, over, n - 1, j);
    }
  }

  /**
   * mergeDeep of two plain objects: the override's keys win, a key that is
   * a plain object on both sides is merged recursively, and a key only in
   * the base keeps its value.
   */
  lemma MergeKeys(base: Value, over: Value, key: string)
    requires base.Obj? && over.Obj? && UniqueKeys(over.props)
    ensures Lookup(over.props, key).None? ==> Lookup(Merge(base, over).props, key) == Lookup(base.props, key)
    ensures Lookup(over.props, key).Some? ==>
      Lookup(Merge(base, over).props, key) == Some(MergedValue(Lookup(base.props, key), Lookup(over.props, key).value))
  {
    if Lookup(over.props, key).Some? {
      var j :| 0 <= j < |over.props| && over.props[j].key == key && over.props[j].val == Lookup(over.props, key).value;
      UniqueAbsentBefore(over.props, j, j);
      UniqueAbsentBetween(over.props, j, |over.props|);
      MergeEntriesWritten(base.props, over, |over.props|, j);
    } else {
      MissingAbsentBefore(over.props, |over.props|, key);
      MergeEntriesUntouched(base.props, over, |over.props|, key);
    }
  }

  /** mergeDeep(base, override) as the loop computes it. */
  method MergeDeep(base: Value, over: Value) returns (r: Value)
    ensures r == Merge(base, over)
    decreases over, 1
  {
    if !base.Obj? || !over.Obj? {
      // { ...override } copies the override's properties as they are
      return over;
    }
    var out := base.props;
    for i := 0 to |over.props|
      invariant out == MergeEntries(base.props, over, i)
    {
      var e := over.props[i];
      assert e in over.props;
      var bv := Lookup(out, e.key);
      if bv.Some? && bv.value.Obj? && e.val.Obj? {
        var m := MergeDeep(bv.value, e.val);
        out := SetProp(out, e.key, m);
      } else {
        out := SetProp(out, e.key, e.val);
      }
    }
    return Obj(out);
  }

  // ------------------------------------------------------------------
  // resolveVariantParams, listVariantKeys

  /** r.params when it is a plain object, else {}. */
  function ParamsOf(root: Value): (p: Value)
    ensures p.Obj?
  {
    if Get(root, "params").Obj? then Get(root, "params") else Obj([])
  }

  /** No variant chosen: undefined, null or blank. */
  predicate NoVariant(variantKey: Value)
  {
    Nullish(variantKey) || Trim(ToStr(variantKey)) == []
  }

  /**
   * resolveVariantParams({ root, variantKey }): the root's params, with the
   * chosen variant merged over them; a root that is not a plain object and
   * a variant that does not name a plain object are refused.
   */
  function ResolveVariantParams(root: Value, variantKey: Value): (r: Result<Value, string>)
    ensures r.Err? ==> r.error == "BAD_REQUEST"
    ensures !root.Obj? ==> r.Err?
    ensures root.Obj? && NoVariant(variantKey) ==> r == Ok(ParamsOf(root))
    ensures root.Obj? && !NoVariant(variantKey) ==> (r.Err? <==> !Get(root, Trim(ToStr(variantKey))).Obj?)
    ensures r.Ok? ==> r.value.Obj?
  {
    if !root.Obj? then Err("BAD_REQUEST")
    else if NoVariant(variantKey) then Ok(ParamsOf(root))
    else
      var variant := Get(root, Trim(ToStr(variantKey)));
      if !variant.Obj? then Err("BAD_REQUEST")
      else Ok(Merge(ParamsOf(root), variant))
  }

  /** A variant's own settings win over the shared params; the params it does not mention are kept. */
  lemma VariantOverridesParams(root: Value, variantKey: Value, key: string)
    requires ResolveVariantParams(root, variantKey).Ok? && !NoVariant(variantKey)
    requires UniqueKeys(Get(root, Trim(ToStr(variantKey))).props)
    ensures var variant := Get(root, Trim(ToStr(variantKey)));
      var r := ResolveVariantParams(root, variantKey).value;
      (Lookup(variant.props, key).None? ==> Lookup(r.props, key) == Lookup(ParamsOf(root).props, key))
      && (Lookup(variant.props, key).Some? ==>
            Lookup(r.props, key) == Some(MergedValue(Lookup(ParamsOf(root).props, key), Lookup(variant.props, key).value)))
  {
    MergeKeys(ParamsOf(root), Get(root, Trim(ToStr(variantKey))), key);
  }

  /** The keys listVariantKeys reports: plain-object entries other than op and params. */
  predicate IsVariantKey(root: Value, k: string)
  {
    k != "op" && k != "params" && Get(root, k).Obj?
  }

  /** Object.keys(root).filter(...) */
  function VariantCandidates(root: Value, keys: seq<string>): (r: seq<string>)
    ensures forall k :: k in r ==> IsVariantKey(root, k)
    ensures forall k :: k in keys && IsVariantKey(root, k) ==> k in r
    ensures multiset(r) <= multiset(keys)
  {
    if keys == [] then []
    else
      var init := keys[..|keys| - 1];
      var k := keys[|keys| - 1];
      assert keys == init + [k];
      var r := VariantCandidates(root, init);
      if IsVariantKey(root, k) then r + [k] else r
  }

  predicate SortedStrings(s: seq<string>)
  {
    forall i, j :: 0 <= i < j < |s| ==> LexLe(s[i], s[j])
  }

  /** Inserts x after every string not greater than it. */
  function InsertString(x: string, s: seq<string>): (r: seq<string>)
    ensures multiset(r) == multiset(s) + multiset{x}
  {
    if s == [] || !LexLe(s[0], x) then [x] + s
    else
      assert s == [s[0]] + s[1..];
      [s[0]] + InsertString(x, s[1..])
  }

  lemma {:induction false} InsertStringSorted(x: string, s: seq<string>)
    requires SortedStrings(s)
    ensures SortedStrings(InsertString(x, s))
    decreases |s|
  {
    if s == [] {
    } else if !LexLe(s[0], x) {
      LexLeTotal(s[0], x);
      forall j | 0 < j < |s| + 1
        ensures LexLe(x, ([x] + s)[j])
      {
        LexLeTotal(s[0], s[0]);
        LexLeTransitive(x, s[0], s[j - 1]);
      }
    } else {
      InsertStringSorted(x, s[1..]);
      var t := InsertString(x, s[1..]);
      forall j | 0 <= j < |t|
        ensures LexLe(s[0], t[j])
      {
        assert t[j] in multiset(t);
        if t[j] != x {
          assert t[j] in multiset(s[1..]);
          var m :| 0 <= m < |s[1..]| && s[1..][m] == t[j];
          assert s[1..][m] == s[m + 1];
        }
      }
    }
  }

  /** Array.prototype.sort on strings. */
  function SortStrings(s: seq<string>): (r: seq<string>)
    ensures multiset(r) == multiset(s)
  {
    if s == [] then []
    else
      assert s == s[..|s| - 1] + [s[|s| - 1]];
      InsertString(s[|s| - 1], SortStrings(s[..|s| - 1]))
  }

  lemma {:induction false} SortStringsSorted(s: seq<string>)
    ensures SortedStrings(SortStrings(s))
    decreases |s|
  {
    if s != [] {
      SortStringsSorted(s[..|s| - 1]);
      InsertStringSorted(s[|s| - 1], SortStrings(s[..|s| - 1]));
    }
  }

  /** listVariantKeys(root) */
  function ListVariantKeys(root: Value): (r: seq<string>)
    ensures !root.Obj? ==> r == []
    ensures forall k :: k in r ==> IsVariantKey(root, k)
    ensures root.Obj? ==> forall k :: k in Keys(root.props) && IsVariantKey(root, k) ==> k in r
    ensures "op" !in r && "params" !in r
  {
    if !root.Obj? then []
    else
      var c := VariantCandidates(root, Keys(root.props));
      var r := SortStrings(c);
      assert forall k :: k in r <==> k in c by {
        forall k ensures k in r <==> k in c {
          assert k in r <==> k in multiset(r);
          assert k in c <==> k in multiset(c);
        }
      }
      r
  }

  /** The variant keys come out sorted. */
  lemma ListVariantKeysSorted(root: Value)
    ensures SortedStrings(ListVariantKeys(root))
  {
    if root.Obj? {
      SortStringsSorted(VariantCandidates(root, Keys(root.props)));
    }
  }

  // ------------------------------------------------------------------
  // sanitizeFileToken

  /** The characters a file token keeps: [A-Za-z0-9\-#\.,_\[\]\{\}\(\)]. */
  predicate IsTokenChar(c: char)
  {
    IsAsciiLetter(c) || IsDigit(c) || c == '-' || c == '#' || c == '.' || c == ',' || c == '_'
    || c == '[' || c == ']' || c == '{' || c == '}' || c == '(' || c == ')'
  }

  predicate IsDash(c: char) { c == '-' }

  /** No two dashes in a row. */
  predicate NoDoubleDash(s: string)
  {
    forall k :: 0 <= k < |s| - 1 ==> !(s[k] == '-' && s[k + 1] == '-')
  }

  /** .replace(/\s+/g, '-'): every run of white space becomes one dash. */
  function DashSpaces(s: string): (r: string)
    ensures forall k :: 0 <= k < |r| ==> !IsJsSpace(r[k])
    ensures forall k :: 0 <= k < |r| ==> r[k] == '-' || r[k] in s
    ensures (forall k :: 0 <= k < |s| ==> !IsJsSpace(s[k])) ==> r == s
    decreases |s|
  {
    if s == [] then []
    else if IsJsSpace(s[0]) then "-" + DashSpaces(s[LeadingCount(s, IsJsSpace)..])
    else
      var t := DashSpaces(s[1..]);
      assert forall k :: 0 <= k < |s| - 1 ==> s[1..][k] == s[k + 1];
      assert forall c :: c in s[1..] ==> c in s;
      [s[0]] + t
  }

  /** .replace(/[^A-Za-z0-9\-#\.,_\[\]\{\}\(\)]/g, ''): the characters outside the set are dropped. */
  function KeepTokenChars(s: string): (r: string)
    ensures forall k :: 0 <= k < |r| ==> IsTokenChar(r[k])
    ensures (forall k :: 0 <= k < |s| ==> IsTokenChar(s[k])) ==> r == s
  {
    if s == [] then []
    else
      var t := KeepTokenChars(s[1..]);
      assert forall k :: 0 <= k < |s| - 1 ==> s[1..][k] == s[k + 1];
      if IsTokenChar(s[0]) then [s[0]] + t else t
  }

  /** .replace(/-+/g, '-'): every run of dashes becomes one dash. */
  function CollapseDashes(s: string): (r: string)
    ensures NoDoubleDash(r)
    ensures forall k :: 0 <= k < |r| ==> r[k] in s
    ensures s != [] ==> r != [] && r[0] == s[0]
    ensures NoDoubleDash(s) ==> r == s
    decreases |s|
  {
    if s == [] then []
    else if s[0] == '-' then
      var n := LeadingCount(s, IsDash);
      var t := CollapseDashes(s[n..]);
      SuffixChars(s, n);
      NoDoubleDashTail(s);
      SingleDash(s);
      "-" + t
    else
      var t := CollapseDashes(s[1..]);
      SuffixChars(s, 1);
      NoDoubleDashTail(s);
      [s[0]] + t
  }

  /** Every character of a suffix is a character of the string. */
  lemma SuffixChars(s: string, n: nat)
    requires n <= |s|
    ensures forall c :: c in s[n..] ==> c in s
  {
  }

  /** A string free of double dashes that starts with a dash has a run of one. */
  lemma SingleDash(s: string)
    requires s != [] && s[0] == '-'
    ensures NoDoubleDash(s) ==> LeadingCount(s, IsDash) == 1
  {
    if NoDoubleDash(s) && |s| > 1 {
      assert !(s[0] == '-' && s[1] == '-');
    }
  }

  /** Dropping the first character keeps a string free of double dashes. */
  lemma NoDoubleDashTail(s: string)
    requires s != []
    ensures NoDoubleDash(s) ==> NoDoubleDash(s[1..])
  {
    if NoDoubleDash(s) {
      forall k | 0 <= k < |s| - 2 ensures !(s[1..][k] == '-' && s[1..][k + 1] == '-') {
        assert s[1..][k] == s[k + 1] && s[1..][k + 1] == s[k + 2];
      }
    }
  }

  /**
   * sanitizeFileToken(s, { maxLen }): at most maxLen characters, all from
   * the token set, with no two dashes in a row.
   */
  function SanitizeFileToken(s: Value, maxLen: nat): (r: string)
    ensures |r| <= maxLen
    ensures forall k :: 0 <= k < |r| ==> IsTokenChar(r[k])
    ensures NoDoubleDash(r)
    ensures TrimmedOrBlank(s) == [] ==> r == []
  {
    var raw := TrimmedOrBlank(s);
    if raw == [] then []
    else
      var collapsed := CollapseDashes(KeepTokenChars(DashSpaces(raw)));
      collapsed[..Min(maxLen, |collapsed|)]
  }

  /** A token that is short enough, made of token characters and without two dashes in a row, sanitises to itself. */
  lemma TokenFixed(t: string, maxLen: nat)
    requires |t| <= maxLen && NoDoubleDash(t)
    requires forall k :: 0 <= k < |t| ==> IsTokenChar(t[k])
    ensures SanitizeFileToken(Str(t), maxLen) == t
  {
    if t != [] {
      TokenTrimmed(t);
      TokenClean(t);
      assert Min(maxLen, |t|) == |t|;
      assert t[..|t|] == t;
    }
  }

  /** Token characters are not white space, so trimming keeps a token. */
  lemma TokenTrimmed(t: string)
    requires t != [] && forall k :: 0 <= k < |t| ==> IsTokenChar(t[k])
    ensures TrimmedOrBlank(Str(t)) == t
  {
    assert !IsJsSpace(t[0]) && !IsJsSpace(t[|t| - 1]);
    TrimByNoop(t, IsJsSpace);
  }

  /** The three replacements leave a token without double dashes unchanged. */
  lemma TokenClean(t: string)
    requires NoDoubleDash(t) && forall k :: 0 <= k < |t| ==> IsTokenChar(t[k])
    ensures CollapseDashes(KeepTokenChars(DashSpaces(t))) == t
  {
    assert forall k :: 0 <= k < |t| ==> !IsJsSpace(t[k]);
    assert DashSpaces(t) == t;
    assert KeepTokenChars(t) == t;
  }

  /** A sanitised token sanitises to itself. */
  lemma SanitizeIdempotent(s: Value, maxLen: nat)
    ensures SanitizeFileToken(Str(SanitizeFileToken(s, maxLen)), maxLen) == SanitizeFileToken(s, maxLen)
  {
    TokenFixed(SanitizeFileToken(s, maxLen), maxLen);
  }

  /** The fallback base "recording" is a token. */
  lemma DefaultBaseIsToken()
    ensures NoDoubleDash(DefaultBase) && forall k :: 0 <= k < |DefaultBase| ==> IsTokenChar(DefaultBase[k])
  {
    assert forall k :: 0 <= k < |DefaultBase| ==> IsAsciiLetter(DefaultBase[k]);
  }

  // ------------------------------------------------------------------
  // normalizeBusNames

  /** .map((x) => String(x || '').trim()).filter((x) => x && buses?.[x]?.subscribe) */
  function BusNameCandidates(raw: seq<Value>, available: set<string>): (out: seq<string>)
    ensures forall x :: x in out ==> x != [] && x in available
    ensures forall i :: 0 <= i < |raw| && TrimmedOrBlank(raw[i]) != [] && TrimmedOrBlank(raw[i]) in available ==>
      TrimmedOrBlank(raw[i]) in out
  {
    if raw == [] then []
    else
      var init := raw[..|raw| - 1];
      var x := TrimmedOrBlank(raw[|raw| - 1]);
      var p := BusNameCandidates(init, available);
      var r := if x != [] && x in available then p + [x] else p;
      forall i | 0 <= i < |raw| && TrimmedOrBlank(raw[i]) != [] && TrimmedOrBlank(raw[i]) in available
        ensures TrimmedOrBlank(raw[i]) in r
      {
        if i < |raw| - 1 {
          assert raw[i] == init[i];
        }
      }
      r
  }

  /** Array.from(new Set(s)): the distinct strings in the order of their first occurrence. */
  function Distinct(s: seq<string>): (r: seq<string>)
    ensures forall x :: x in r <==> x in s
    ensures forall i, j :: 0 <= i < j < |r| ==> r[i] != r[j]
  {
    if s == [] then []
    else
      var p := Distinct(s[..|s| - 1]);
      assert s == s[..|s| - 1] + [s[|s| - 1]];
      if s[|s| - 1] in p then p else p + [s[|s| - 1]]
  }

  /** A list without repeats is its own distinct list. */
  lemma {:induction false} DistinctOfDistinct(s: seq<string>)
    requires forall i, j :: 0 <= i < j < |s| ==> s[i] != s[j]
    ensures Distinct(s) == s
  {
    if s != [] {
      DistinctOfDistinct(s[..|s| - 1]);
      assert s[|s| - 1] !in s[..|s| - 1];
      assert s == s[..|s| - 1] + [s[|s| - 1]];
    }
  }

  /**
   * normalizeBusNames(busNames): the distinct non-blank trimmed names that
   * name an available bus; none at all is a bad request.
   */
  function NormalizeBusNames(busNames: Value, available: set<string>): (r: Result<seq<string>, string>)
    ensures r.Err? ==> r.error == "BAD_REQUEST"
    ensures r.Ok? ==> r.value != [] && forall x :: x in r.value ==> x != [] && x in available
    ensures r.Ok? ==> forall i, j :: 0 <= i < j < |r.value| ==> r.value[i] != r.value[j]
    ensures busNames.Arr? && r.Ok? ==>
              forall i :: (0 <= i < |busNames.items| && TrimmedOrBlank(busNames.items[i]) != []
                           && TrimmedOrBlank(busNames.items[i]) in available)
                          ==> TrimmedOrBlank(busNames.items[i]) in r.value
    ensures !busNames.Arr? ==> r.Err?
  {
    var out := BusNameCandidates(if busNames.Arr? then busNames.items else [], available);
    if out == [] then Err("BAD_REQUEST") else Ok(Distinct(out))
  }

  /** A list naming one available bus is accepted. */
  lemma OneAvailableBusSuffices(busNames: Value, available: set<string>, i: nat)
    requires busNames.Arr? && i < |busNames.items|
    requires TrimmedOrBlank(busNames.items[i]) != [] && TrimmedOrBlank(busNames.items[i]) in available
    ensures NormalizeBusNames(busNames, available).Ok?
  {
    assert TrimmedOrBlank(busNames.items[i]) in BusNameCandidates(busNames.items, available);
  }

  // ------------------------------------------------------------------
  // Profiles

  /** A loaded profile: its name and its record and play sections. */
  datatype Profile = Profile(name: string, recordRoot: Value, playRoot: Value)

  /**
   * loadProfileFile after the file is read and parsed: a plain object with
   * a profile name, a record section whose op is record.start and a play
   * section whose op is play.start.
   */
  function CheckProfile(parsed: Value): (r: Result<Profile, string>)
    ensures r.Err? ==> r.error == "BAD_REQUEST"
    ensures r.Ok? ==> r.value.name != [] && r.value.recordRoot.Obj? && r.value.playRoot.Obj?
    ensures r.Ok? ==> (TrimmedOrBlank(Get(r.value.recordRoot, "op")) == "record.start"
                       && TrimmedOrBlank(Get(r.value.playRoot, "op")) == "play.start")
    ensures r.Ok? <==> (parsed.Obj? && TrimmedOrBlank(Get(parsed, "profile")) != []
                        && Get(parsed, "record").Obj? && Get(parsed, "play").Obj?
                        && TrimmedOrBlank(Get(Get(parsed, "record"), "op")) == "record.start"
                        && TrimmedOrBlank(Get(Get(parsed, "play"), "op")) == "play.start")
  {
    if !parsed.Obj? then Err("BAD_REQUEST")
    else
      var name := TrimmedOrBlank(Get(parsed, "profile"));
      if name == [] then Err("BAD_REQUEST")
      else
        var record := Get(parsed, "record");
        var play := Get(parsed, "play");
        if !record.Obj? || !play.Obj? then Err("BAD_REQUEST")
        else if TrimmedOrBlank(Get(record, "op")) != "record.start" then Err("BAD_REQUEST")
        else if TrimmedOrBlank(Get(play, "op")) != "play.start" then Err("BAD_REQUEST")
        else Ok(Profile(name, record, play))
  }

  // ------------------------------------------------------------------
  // The record session

  datatype RecordState = Recording | Stopped

  /**
   * recorderSession: its state, the buses recorded, the duration and the
   * time of the automatic stop, the file-name base, the comment and the
   * comment's file-name suffix.
   */
  datatype Session = Session(
    state: RecordState, busNames: seq<string>,
    durationMs: Option<int>, autoStopAtMs: Option<int>,
    outBase: string, comment: Option<string>, commentSuffix: string)

  /** 24 * 60 * 60 * 1000: the longest duration record.start accepts. */
  const MaxDurationMs: int := 86400000

  predicate Running(session: Option<Session>)
  {
    session.Some? && session.value.state == Recording
  }

  /** A duration record.start accepts: none, or a positive one of at most a day. */
  predicate DurationOk(dur: Option<int>)
  {
    dur.None? || (0 < dur.value <= MaxDurationMs)
  }

  /** duration !== undefined ? duration : durationMs */
  function DurationArg(duration: Value, durationMs: Value): Value
  {
    if duration.Undefined? then durationMs else duration
  }

  /**
   * record.start's guards, in order: a recording already running is a
   * conflict; no usable bus, a duration of 0 ms and a duration over a day
   * are bad requests.
   */
  function RecordStartError(session: Option<Session>, busNames: Value, available: set<string>, dur: Option<int>): (e: Option<string>)
    ensures e == Some("CONFLICT") <==> Running(session)
    ensures e.None? <==> !Running(session) && NormalizeBusNames(busNames, available).Ok? && DurationOk(dur)
    ensures e.Some? && e != Some("CONFLICT") ==> e == Some("BAD_REQUEST")
  {
    if Running(session) then Some("CONFLICT")
    else if NormalizeBusNames(busNames, available).Err? then Some("BAD_REQUEST")
    else if dur.Some? && dur.value <= 0 then Some("BAD_REQUEST")
    else if dur.Some? && dur.value > MaxDurationMs then Some("BAD_REQUEST")
    else None
  }

  /** The file-name base used when none is given or none survives sanitising. */
  const DefaultBase: string := "recording"

  /** String(x || '').trim() || fallback */
  function OrDefault(s: string, fallback: string): (r: string)
    ensures s != [] ==> r == s
    ensures s == [] ==> r == fallback
  {
    if s == [] then fallback else s
  }

  /** The session record.start opens once its guards pass; startedAtMs is the clock. */
  function StartedSession(names: seq<string>, dur: Option<int>, fileNameBase: Value, comment: Value, startedAtMs: int): (s: Session)
    requires DurationOk(dur)
    ensures s.state == Recording && s.busNames == names && s.durationMs == dur
    ensures s.autoStopAtMs.Some? <==> dur.Some?
    ensures dur.Some? ==> s.autoStopAtMs.value == startedAtMs + dur.value
    ensures s.outBase != [] && |s.outBase| <= 64 && |s.commentSuffix| <= 48
    ensures s.comment.None? <==> TrimmedOrBlank(comment) == []
  {
    var commentStr := TrimmedOrBlank(comment);
    Session(Recording, names, dur, if dur.Some? then Some(startedAtMs + dur.value) else None,
            OutBase(fileNameBase), if commentStr == [] then None else Some(commentStr), CommentSuffix(commentStr))
  }

  /** The recording's file-name base: the sanitised fileNameBase, "recording" when blank. */
  function OutBase(fileNameBase: Value): (b: string)
    ensures b != [] && |b| <= 64
    ensures forall k :: 0 <= k < |b| ==> IsTokenChar(b[k])
    ensures NoDoubleDash(b)
  {
    var baseRaw := OrDefault(TrimmedOrBlank(fileNameBase), DefaultBase);
    DefaultBaseIsToken();
    OrDefault(SanitizeFileToken(Str(baseRaw), 64), DefaultBase)
  }

  /** The file-name suffix a comment gives: its sanitised text, at most 48 characters. */
  function CommentSuffix(commentStr: string): (c: string)
    ensures |c| <= 48
    ensures forall k :: 0 <= k < |c| ==> IsTokenChar(c[k])
    ensures commentStr == [] ==> c == []
  {
    if commentStr != [] then SanitizeFileToken(Str(commentStr), 48) else []
  }

  /** A duration that rounds to 0 ms is refused, whatever else the request says. */
  lemma ZeroDurationRefused(session: Option<Session>, busNames: Value, available: set<string>, v: Value)
    requires ParseDurationMs(v) == Some(0)
    ensures RecordStartError(session, busNames, available, ParseDurationMs(v)).Some?
  {
  }

  /** A duration of more than a day is refused. */
  lemma LongDurationRefused(session: Option<Session>, busNames: Value, available: set<string>, n: nat)
    requires n > 1440
    ensures RecordStartError(session, busNames, available, ParseDurationMs(Str(NatToString(n) + "m"))).Some?
  {
    DurationInMinutes(n);
  }

  /** record.start's checks as the handler runs them, one after the other. */
  method StartGuards(session: Option<Session>, busNames: Value, available: set<string>, dur: Option<int>)
    returns (e: Option<string>)
    ensures e == RecordStartError(session, busNames, available, dur)
  {
    if session.Some? && session.value.state == Recording {
      return Some("CONFLICT");
    }
    var names := NormalizeBusNames(busNames, available);
    if names.Err? {
      return Some(names.error);
    }
    if dur.Some? && dur.value <= 0 {
      return Some("BAD_REQUEST");
    }
    if dur.Some? && dur.value > MaxDurationMs {
      return Some("BAD_REQUEST");
    }
    return None;
  }

  // ------------------------------------------------------------------
  // The service

  class Service {
    var session: Option<Session>
    var profile: Option<Profile>

    constructor ()
      ensures session.None? && profile.None?
    {
      session := None;
      profile := None;
    }

    /** record.start, with the buses that can be subscribed and the clock reading startedAtMs. */
    method RecordStart(busNames: Value, duration: Value, durationMs: Value, fileNameBase: Value, comment: Value,
                       available: set<string>, startedAtMs: int) returns (r: Result<(), string>)
      modifies this
      ensures r.Err? <==> RecordStartError(old(session), busNames, available, ParseDurationMs(DurationArg(duration, durationMs))).Some?
      ensures r.Err? ==> Some(r.error) == RecordStartError(old(session), busNames, available, ParseDurationMs(DurationArg(duration, durationMs)))
      ensures r.Err? ==> session == old(session)
      ensures r.Ok? ==>
        session == Some(StartedSession(NormalizeBusNames(busNames, available).value,
                                       ParseDurationMs(DurationArg(duration, durationMs)),
                                       fileNameBase, comment, startedAtMs))
      ensures profile == old(profile)
    {
      var dur := ParseDurationMs(DurationArg(duration, durationMs));
      var e := StartGuards(session, busNames, available, dur);
      if e.Some? {
        return Err(e.value);
      }
      session := Some(StartedSession(NormalizeBusNames(busNames, available).value, dur, fileNameBase, comment, startedAtMs));
      r := Ok(());
    }

    /** record.stop: only a running recording can be stopped. */
    method RecordStop() returns (r: Result<(), string>)
      modifies this
      ensures r.Err? <==> !Running(old(session))
      ensures r.Err? ==> r.error == "BAD_REQUEST" && session == old(session)
      ensures r.Ok? ==> session == Some(old(session).value.(state := Stopped))
      ensures profile == old(profile)
    {
      if session.None? || session.value.state != Recording {
        return Err("BAD_REQUEST");
      }
      session := Some(session.value.(state := Stopped));
      r := Ok(());
    }

    /** profile.load, given the parsed profile file. */
    method LoadProfile(parsed: Value) returns (r: Result<(), string>)
      modifies this
      ensures r.Err? <==> CheckProfile(parsed).Err?
      ensures r.Err? ==> r.error == "BAD_REQUEST" && profile == old(profile)
      ensures r.Ok? ==> profile == Some(CheckProfile(parsed).value)
      ensures session == old(session)
    {
      var p := CheckProfile(parsed);
      if p.Err? {
        return Err(p.error);
      }
      profile := Some(p.value);
      r := Ok(());
    }

    /**
     * record.record: record.start with the loaded profile's record params,
     * the chosen variant merged in; while a recording runs it is ignored.
     */
    method RecordRecord(variantKey: Value, available: set<string>, startedAtMs: int) returns (r: Result<(), string>)
      modifies this
      ensures old(profile).None? ==> r == Err("BAD_REQUEST") && session == old(session)
      ensures old(profile).Some? && Running(old(session)) ==> r == Ok(()) && session == old(session)
      ensures old(profile).Some? && !Running(old(session)) && ResolveVariantParams(old(profile).value.recordRoot, variantKey).Err? ==>
        r == Err("BAD_REQUEST") && session == old(session)
      ensures old(profile).Some? && !Running(old(session)) && ResolveVariantParams(old(profile).value.recordRoot, variantKey).Ok? ==>
        var p0 := ResolveVariantParams(old(profile).value.recordRoot, variantKey).value;
        var dur := ParseDurationMs(DurationArg(Get(p0, "duration"), Get(p0, "durationMs")));
        var e := RecordStartError(old(session), Get(p0, "busNames"), available, dur);
        && (r.Err? <==> e.Some?)
        && (r.Err? ==> Some(r.error) == e)
        && (r.Ok? ==> session == Some(StartedSession(NormalizeBusNames(Get(p0, "busNames"), available).value, dur,
                                                    Str(RecordBase(p0, old(profile).value.name)), Get(p0, "comment"), startedAtMs)))
      ensures r.Ok? && !Running(old(session)) ==>
        var p0 := ResolveVariantParams(old(profile).value.recordRoot, variantKey).value;
        session.Some? && session.value.outBase == RecordBase(p0, old(profile).value.name)
      ensures r.Err? ==> session == old(session)
      ensures profile == old(profile)
    {
      if profile.None? {
        return Err("BAD_REQUEST");
      }
      var prof := profile.value;
      if session.Some? && session.value.state == Recording {
        return Ok(());
      }
      var p0 := ResolveVariantParams(prof.recordRoot, variantKey);
      if p0.Err? {
        return Err(p0.error);
      }
      var base := RecordBase(p0.value, prof.name);
      r := RecordStart(Get(p0.value, "busNames"), Get(p0.value, "duration"), Get(p0.value, "durationMs"),
                       Str(base), Get(p0.value, "comment"), available, startedAtMs);
      if r.Ok? {
        BaseKept(base);
      }
    }
  }

  /**
   * The file-name base record.record passes on: the params' fileNameBase,
   * else the profile's name, sanitised, else recording.
   */
  function RecordBase(p0: Value, profileName: string): (b: string)
    ensures b != [] && |b| <= 64 && NoDoubleDash(b)
    ensures forall k :: 0 <= k < |b| ==> IsTokenChar(b[k])
  {
    DefaultBaseIsToken();
    OrDefault(SanitizeFileToken(Str(Trim(ToStr(OrElse(Get(p0, "fileNameBase"), Str(profileName))))), 64), DefaultBase)
  }

  /** record.start keeps a base that record.record already sanitised. */
  lemma BaseKept(base: string)
    requires base != [] && |base| <= 64 && NoDoubleDash(base)
    requires forall k :: 0 <= k < |base| ==> IsTokenChar(base[k])
    ensures OrDefault(SanitizeFileToken(Str(OrDefault(TrimmedOrBlank(Str(base)), DefaultBase)), 64), DefaultBase) == base
  {
    TokenFixed(base, 64);
    assert !IsJsSpace(base[0]) && !IsJsSpace(base[|base| - 1]);
    TrimByNoop(base, IsJsSpace);
  }
}
