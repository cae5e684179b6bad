/**
 * JavaScript values as the sources receive them from configuration files,
 * bus payloads and command lines, with the coercions the sources apply to
 * them: Number(x), String(x), truthiness, `??`, property access and `in`.
 *
 * Numbers are exact rationals; the rounding of IEEE doubles is not modelled.
 */
module Js {
  import opened Common

  datatype Num = NaN | Infinity(negative: bool) | Fin(v: real)

  datatype Value =
    | Undefined
    | Null
    | Bool(b: bool)
    | Number(n: Num)
    | Str(s: string)
    | Arr(items: seq<Value>)
    | Obj(props: seq<Prop>)

  /** An own enumerable property of an object, in insertion order. */
  datatype Prop = Prop(key: string, val: Value)

  function Int(i: int): Value { Number(Fin(i as real)) }

  predicate IsFiniteNum(n: Num) { n.Fin? }

  /** x === null || x === undefined */
  predicate Nullish(x: Value) { x.Undefined? || x.Null? }

  /** a ?? b */
  function OrElse(a: Value, b: Value): Value
  {
    if Nullish(a) then b else a
  }

  /** a || b */
  function Or(a: Value, b: Value): (r: Value)
    ensures Truthy(a) ==> r == a
    ensures !Truthy(a) ==> r == b
  {
    if Truthy(a) then a else b
  }

  /** Boolean(x) */
  predicate Truthy(x: Value)
  {
    match x
    case Undefined => false
    case Null => false
    case Bool(b) => b
    case Number(n) => !(n.NaN? || n == Fin(0.0))
    case Str(s) => s != []
    case Arr(_) => true
    case Obj(_) => true
  }

  /** typeof x === 'object' && x !== null && !Array.isArray(x) */
  predicate IsPlainObject(x: Value) { x.Obj? }

  // ------------------------------------------------------------------
  // Properties

  function Lookup(props: seq<Prop>, key: string): (r: Option<Value>)
    ensures r.Some? <==> exists i :: 0 <= i < |props| && props[i].key == key
    ensures r.Some? ==> exists i :: 0 <= i < |props| && props[i].key == key && props[i].val == r.value
  {
    if props == [] then None
    else if props[0].key == key then Some(props[0].val)
    else
      var r := Lookup(props[1..], key);
      assert forall i :: 0 < i < |props| ==> props[i] == props[1..][i - 1];
      r
  }

  /** x?.[key] for an own property: undefined when x is not an object or lacks key. */
  function Get(x: Value, key: string): (r: Value)
    ensures !x.Obj? ==> r == Undefined
  {
    if x.Obj? then (match Lookup(x.props, key) case Some(v) => v case None => Undefined)
    else Undefined
  }

  /** key in x, for an object x (own properties). */
  predicate Has(x: Value, key: string)
  {
    x.Obj? && Lookup(x.props, key).Some?
  }

  /** o[key] = val on an object's properties: an existing key keeps its place, a new one goes last. */
  function SetProp(props: seq<Prop>, key: string, val: Value): (r: seq<Prop>)
    ensures Lookup(r, key) == Some(val)
    ensures forall k :: k != key ==> Lookup(r, k) == Lookup(props, k)
  {
    if props == [] then [Prop(key, val)]
    else if props[0].key == key then [Prop(key, val)] + props[1..]
    else
      var rest := SetProp(props[1..], key, val);
      assert forall k :: k != props[0].key ==> Lookup(props, k) == Lookup(props[1..], k);
      [props[0]] + rest
  }

  /** { ...base, ...over }: over's properties, in order, written onto a copy of base. */
  function Spread(base: seq<Prop>, over: seq<Prop>): (r: seq<Prop>)
    ensures forall k :: Lookup(over, k).None? ==> Lookup(r, k) == Lookup(base, k)
    ensures forall k :: Lookup(base, k).Some? || Lookup(over, k).Some? ==> Lookup(r, k).Some?
    decreases |over|
  {
    if over == [] then base
    else
      var r := Spread(SetProp(base, over[0].key, over[0].val), over[1..]);
      assert forall k :: Lookup(over, k).None? ==> k != over[0].key && Lookup(over[1..], k).None?;
      r
  }

  /** A key of over takes over's value when over names it once. */
  lemma {:induction false} SpreadOverWins(base: seq<Prop>, over: seq<Prop>, i: nat)
    requires i < |over|
    requires forall j :: 0 <= j < |over| && j != i ==> over[j].key != over[i].key
    ensures Lookup(Spread(base, over), over[i].key) == Some(over[i].val)
    decreases |over|
  {
    var key := over[i].key;
    var b := SetProp(base, over[0].key, over[0].val);
    if i == 0 {
      assert forall j :: 0 <= j < |over| - 1 ==> over[1..][j] == over[j + 1];
      assert Lookup(over[1..], key).None?;
    } else {
      assert forall j :: 0 <= j < |over| - 1 ==> over[1..][j] == over[j + 1];
      SpreadOverWins(b, over[1..], i - 1);
    }
  }

  /** x?.[i] for an array x. */
  function At(x: Value, i: nat): (r: Value)
    ensures x.Arr? && i < |x.items| ==> r == x.items[i]
  {
    if x.Arr? && i < |x.items| then x.items[i] else Undefined
  }

  /** Number.isFinite(x) ? x : fallback, as the option readers write it (no coercion). */
  function FiniteOr(x: Value, fallback: Option<real>): (r: Option<real>)
    ensures x.Number? && x.n.Fin? ==> r == Some(x.n.v)
    ensures !(x.Number? && x.n.Fin?) ==> r == fallback
  {
    if x.Number? && x.n.Fin? then Some(x.n.v) else fallback
  }

  /** typeof x === 'string' ? x : fallback */
  function StringOr(x: Value, fallback: string): (r: string)
    ensures x.Str? ==> r == x.s
    ensures !x.Str? ==> r == fallback
  {
    if x.Str? then x.s else fallback
  }

  /** Object.keys(x) */
  function Keys(props: seq<Prop>): (ks: seq<string>)
    ensures |ks| == |props|
    ensures forall i :: 0 <= i < |props| ==> ks[i] == props[i].key
  {
    seq(|props|, i requires 0 <= i < |props| => props[i].key)
  }

  // ------------------------------------------------------------------
  // Number(x)

  function Pow10(n: nat): (r: real)
    ensures r >= 1.0
  {
    if n == 0 then 1.0 else 10.0 * Pow10(n - 1)
  }

  /** The digit value of c in the given base (2, 8, 10 or 16), if any. */
  function DigitIn(c: char, base: nat): (d: Option<nat>)
    ensures d.Some? ==> d.value < base
  {
    var v: int :=
      if '0' <= c <= '9' then c as int - '0' as int
      else if 'a' <= c <= 'f' then c as int - 'a' as int + 10
      else if 'A' <= c <= 'F' then c as int - 'A' as int + 10
      else 99;
    if 0 <= v < base then Some(v as nat) else None
  }

  predicate AllDigitsIn(s: string, base: nat) { forall k :: 0 <= k < |s| ==> DigitIn(s[k], base).Some? }

  function BaseValue(s: string, base: nat): (v: nat)
    requires AllDigitsIn(s, base)
  {
    if s == [] then 0 else base * BaseValue(s[..|s| - 1], base) + DigitIn(s[|s| - 1], base).value
  }

  /** DecimalDigits, optionally with a fraction: "12", "12.", "12.5", ".5". */
  function ParseMantissa(m: string): (r: Option<real>)
    ensures r.Some? ==> r.value >= 0.0
  {
    if '.' in m then
      var j := IndexOf(m, '.');
      var ip := m[..j];
      var fp := m[j + 1..];
      if AllDigitsIn(ip, 10) && AllDigitsIn(fp, 10) && |ip| + |fp| >= 1 then
        Some(BaseValue(ip, 10) as real + BaseValue(fp, 10) as real / Pow10(|fp|))
      else None
    else if m != [] && AllDigitsIn(m, 10) then Some(BaseValue(m, 10) as real)
    else None
  }

  /** ExponentPart without its e: an optionally signed DecimalDigits. */
  function ParseExponent(x: string): (r: Option<int>)
  {
    if x != [] && (x[0] == '+' || x[0] == '-') then
      var d := x[1..];
      if d != [] && AllDigitsIn(d, 10) then
        Some(if x[0] == '-' then -(BaseValue(d, 10) as int) else BaseValue(d, 10) as int)
      else None
    else if x != [] && AllDigitsIn(x, 10) then Some(BaseValue(x, 10) as int)
    else None
  }

  function ScaleBy10(v: real, e: int): real
  {
    if e >= 0 then v * Pow10(e) else v / Pow10(-e)
  }

  function IndexOfExponent(u: string): (i: nat)
    ensures i <= |u|
    ensures i < |u| ==> u[i] == 'e' || u[i] == 'E'
  {
    if u == [] then 0
    else if u[0] == 'e' || u[0] == 'E' then 0
    else 1 + IndexOfExponent(u[1..])
  }

  /** StrUnsignedDecimalLiteral: Infinity, or a mantissa with an optional exponent. */
  function ParseUnsignedDecimal(u: string): (r: Num)
    ensures r.Fin? ==> r.v >= 0.0
    ensures r.Infinity? ==> !r.negative
  {
    if u == "Infinity" then Infinity(false)
    else
      var i := IndexOfExponent(u);
      var m := ParseMantissa(u[..i]);
      if m.None? then NaN
      else if i == |u| then Fin(m.value)
      else
        var e := ParseExponent(u[i + 1..]);
        if e.None? then NaN else Fin(ScaleBy10(m.value, e.value))
  }

  /** A non-decimal integer literal 0x.., 0o.., 0b.. (either letter case). */
  function ParsePrefixed(t: string): (r: Option<nat>)
  {
    if |t| >= 3 && t[0] == '0' then
      var base := if t[1] in "xX" then 16 else if t[1] in "oO" then 8 else if t[1] in "bB" then 2 else 0;
      if base != 0 && AllDigitsIn(t[2..], base) then Some(BaseValue(t[2..], base)) else None
    else None
  }

  /** Number(s) for a string s: ECMAScript's StringNumericLiteral. */
  function StringToNumber(s: string): (r: Num)
  {
    var t := Trim(s);
    if t == [] then Fin(0.0)
    else if ParsePrefixed(t).Some? then Fin(ParsePrefixed(t).value as real)
    else if t[0] == '-' then
      match ParseUnsignedDecimal(t[1..])
      case Fin(v) => Fin(-v)
      case Infinity(_) => Infinity(true)
      case NaN => NaN
    else if t[0] == '+' then ParseUnsignedDecimal(t[1..])
    else ParseUnsignedDecimal(t)
  }

  /** Number(x) */
  function ToNumber(x: Value): (r: Num)
    ensures x.Number? ==> r == x.n
    ensures x.Undefined? || x.Obj? ==> r == NaN
    ensures x.Null? ==> r == Fin(0.0)
  {
    match x
    case Undefined => NaN
    case Null => Fin(0.0)
    case Bool(b) => Fin(if b then 1.0 else 0.0)
    case Number(n) => n
    case Str(s) => StringToNumber(s)
    case Arr(items) =>
      // Number(String(array)): "" for [], the element's own string for one element,
      // and a string with a comma (never numeric) otherwise.
      if items == [] then Fin(0.0)
      else if |items| == 1 then
        (if Nullish(items[0]) then Fin(0.0)
         else if items[0].Bool? || items[0].Obj? then NaN
         else ToNumber(items[0]))
      else NaN
    case Obj(_) => NaN
  }

  /** n > 0 for a number n (false for NaN). */
  predicate Positive(n: Num)
  {
    match n
    case NaN => false
    case Infinity(negative) => !negative
    case Fin(v) => v > 0.0
  }

  /** x < n for a finite x and a number n (false for NaN). */
  predicate Below(x: real, n: Num)
  {
    match n
    case NaN => false
    case Infinity(negative) => !negative
    case Fin(v) => x < v
  }

  /** a < b for numbers (false when either is NaN). */
  predicate NumLess(a: Num, b: Num)
  {
    match (a, b)
    case (NaN, _) => false
    case (_, NaN) => false
    case (Infinity(na), Infinity(nb)) => na && !nb
    case (Infinity(na), Fin(_)) => na
    case (Fin(_), Infinity(nb)) => !nb
    case (Fin(x), Fin(y)) => x < y
  }

  /** < is a strict order on the numbers other than NaN, and total on them. */
  lemma NumLessOrder(a: Num, b: Num, c: Num)
    ensures !NumLess(a, a)
    ensures NumLess(a, b) && NumLess(b, c) ==> NumLess(a, c)
    ensures !a.NaN? && !b.NaN? && a != b ==> NumLess(a, b) || NumLess(b, a)
  {
  }

  /** The decimal rendering of a natural number is read back by Number(). */
  lemma NumberOfNatString(n: nat)
    ensures StringToNumber(NatToString(n)) == Fin(n as real)
  {
    var s := NatToString(n);
    NoSpaceInDigits(s);
    TrimByNoop(s, IsJsSpace);
    assert Trim(s) == s;
    assert ParsePrefixed(s).None? by {
      if |s| >= 3 && s[0] == '0' { assert false; }
    }
    assert '.' !in s;
    assert IndexOfExponent(s) == |s| by { NoExponentInDigits(s); }
    assert s[..|s|] == s;
    DigitsAgree(s);
    NatToStringValue(n);
  }

  lemma NoSpaceInDigits(s: string)
    requires AllDigits(s)
    ensures s == [] || (!IsJsSpace(s[0]) && !IsJsSpace(s[|s| - 1]))
  {
  }

  lemma {:induction false} NoExponentInDigits(s: string)
    requires AllDigits(s)
    ensures IndexOfExponent(s) == |s|
  {
    if s != [] { NoExponentInDigits(s[1..]); }
  }

  /** Decimal digits read in base 10 agree with DigitsValue. */
  lemma {:induction false} DigitsAgree(s: string)
    requires AllDigits(s)
    ensures AllDigitsIn(s, 10) && BaseValue(s, 10) == DigitsValue(s)
  {
    if s != [] { DigitsAgree(s[..|s| - 1]); }
  }

  // ------------------------------------------------------------------
  // Math.round, Math.floor

  /** Math.round on a finite value: the nearest integer, halves rounded up. */
  function Round(v: real): (r: int)
    ensures v - 0.5 < r as real <= v + 0.5
  {
    (v + 0.5).Floor
  }

  /** Math.floor */
  function Floor(v: real): (r: int)
    ensures r as real <= v < r as real + 1.0
  {
    v.Floor
  }

  /**
   * Number(x) then: non-finite gives 0, otherwise Math.max(0, Math.min(255,
   * Math.round(n))): the clampByte of the LED device and of the LED
   * configuration validator.
   */
  function ClampByte(x: Value): (r: byte)
    ensures !ToNumber(x).Fin? ==> r == 0
    ensures ToNumber(x).Fin? ==> r as int == Clamp(0, 255, Round(ToNumber(x).v))
  {
    match ToNumber(x)
    case Fin(v) => Clamp(0, 255, Round(v)) as byte
    case _ => 0
  }

  /** A byte given as a number comes back unchanged. */
  lemma ClampByteOfByte(b: byte)
    ensures ClampByte(Int(b as int)) == b
  {
    assert Round(b as real) == b as int;
  }

  // ------------------------------------------------------------------
  // String(x)

  /** The first n decimal digits of the fraction f, 0 <= f < 1. */
  function FractionDigits(f: real, n: nat): (s: string)
    requires 0.0 <= f < 1.0
    ensures |s| == n && AllDigits(s)
    decreases n
  {
    if n == 0 then []
    else
      var d := (f * 10.0).Floor;
      [DigitChar(d as nat)] + FractionDigits(f * 10.0 - d as real, n - 1)
  }

  function DropTrailingZeros(s: string): (r: string)
    ensures |r| <= |s| && r == s[..|r|]
    ensures r == [] || r[|r| - 1] != '0'
  {
    if s == [] || s[|s| - 1] != '0' then s else DropTrailingZeros(s[..|s| - 1])
  }

  /**
   * String(n) for a number. Integers are rendered exactly; other finite
   * values with the integer part, a point and up to twenty fraction digits
   * (ECMAScript's exponent notation for very large and very small
   * magnitudes is not modelled).
   */
  function NumToString(n: Num): (s: string)
    ensures s != []
  {
    match n
    case NaN => "NaN"
    case Infinity(neg) => if neg then "-Infinity" else "Infinity"
    case Fin(v) =>
      if v == v.Floor as real then IntToString(v.Floor)
      else
        var a := if v < 0.0 then -v else v;
        var ip := a.Floor;
        (if v < 0.0 then "-" else "") + NatToString(ip) + "." + DropTrailingZeros(FractionDigits(a - ip as real, 20))
  }

  /** String(x) */
  function ToStr(x: Value): (s: string)
    ensures x.Str? ==> s == x.s
    decreases x
  {
    match x
    case Undefined => "undefined"
    case Null => "null"
    case Bool(b) => if b then "true" else "false"
    case Number(n) => NumToString(n)
    case Str(s) => s
    case Arr(items) =>
      Join(seq(|items|, i requires 0 <= i < |items| =>
        if Nullish(items[i]) then "" else ToStr(items[i])), ",")
    case Obj(_) => "[object Object]"
  }

  /** String(x || '').trim(): blank for every falsy x. */
  function TrimmedOrBlank(x: Value): (s: string)
    ensures !Truthy(x) ==> s == []
    ensures x.Str? ==> s == Trim(x.s)
  {
    if Truthy(x) then Trim(ToStr(x)) else []
  }

  /** String(x ?? '').trim(): blank for null and undefined only. */
  function TrimmedOrBlankNullish(x: Value): (s: string)
    ensures Nullish(x) ==> s == []
    ensures x.Str? ==> s == Trim(x.s)
  {
    if Nullish(x) then [] else Trim(ToStr(x))
  }

  /** A natural number prints as its decimal rendering. */
  lemma NatNumberString(n: nat)
    ensures NumToString(Fin(n as real)) == NatToString(n)
  {
    assert (n as real).Floor == n;
  }
}
