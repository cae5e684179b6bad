/**
 * Building blocks shared by every model in this project: optional values,
 * results with an error code, bytes, and the string operations the
 * JavaScript and Python sources use (trim, split, join, decimal digits).
 */
module Common {

  datatype Option<T> = None | Some(value: T)

  datatype Result<T, E> = Ok(value: T) | Err(error: E)

  newtype byte = x: int | 0 <= x < 256

  /** Clamps x into [lo, hi], the shape of max(lo, min(hi, x)). */
  function Clamp(lo: int, hi: int, x: int): (r: int)
    requires lo <= hi
    ensures lo <= r <= hi
    ensures lo <= x <= hi ==> r == x
    ensures x < lo ==> r == lo
    ensures hi < x ==> r == hi
  {
    if x < lo then lo else if hi < x then hi else x
  }

  function Max(a: int, b: int): (r: int)
    ensures r >= a && r >= b && (r == a || r == b)
  {
    if a >= b then a else b
  }

  function Min(a: int, b: int): (r: int)
    ensures r <= a && r <= b && (r == a || r == b)
  {
    if a <= b then a else b
  }

  // ------------------------------------------------------------------
  // White space

  /**
   * The white space and line terminators of ECMAScript: what
   * String.prototype.trim removes and what the regular-expression class \s
   * matches.
   */
  predicate IsJsSpace(c: char)
  {
    c == '\t' || c == '\n' || c == '\U{000B}' || c == '\U{000C}' || c == '\r' || c == ' '
    || c == '\U{00A0}' || c == '\U{1680}' || ('\U{2000}' <= c <= '\U{200A}')
    || c == '\U{2028}' || c == '\U{2029}' || c == '\U{202F}' || c == '\U{205F}'
    || c == '\U{3000}' || c == '\U{FEFF}'
  }

  /** The white space str.strip() removes on the microcontroller's Python. */
  predicate IsPySpace(c: char)
  {
    c == ' ' || c == '\t' || c == '\n' || c == '\r' || c == '\U{000B}' || c == '\U{000C}'
  }

  /** Number of leading characters of s that satisfy sp. */
  function LeadingCount(s: string, sp: char -> bool): (n: nat)
    ensures n <= |s|
    ensures forall k :: 0 <= k < n ==> sp(s[k])
    ensures n == |s| || !sp(s[n])
  {
    if s == [] || !sp(s[0]) then 0 else 1 + LeadingCount(s[1..], sp)
  }

  /** Number of trailing characters of s that satisfy sp. */
  function TrailingCount(s: string, sp: char -> bool): (n: nat)
    ensures n <= |s|
    ensures forall k :: |s| - n <= k < |s| ==> sp(s[k])
    ensures n == |s| || !sp(s[|s| - 1 - n])
  {
    if s == [] || !sp(s[|s| - 1]) then 0 else 1 + TrailingCount(s[..|s| - 1], sp)
  }

  /** s without its leading and trailing characters that satisfy sp. */
  function TrimBy(s: string, sp: char -> bool): (r: string)
    ensures |r| <= |s|
    ensures r == [] || (!sp(r[0]) && !sp(r[|r| - 1]))
    ensures r == s[LeadingCount(s, sp)..|s| - TrailingCount(s[LeadingCount(s, sp)..], sp)]
  {
    var a := LeadingCount(s, sp);
    var rest := s[a..];
    rest[..|rest| - TrailingCount(rest, sp)]
  }

  /** String.prototype.trim. */
  function Trim(s: string): (r: string)
    ensures r == [] || (!IsJsSpace(r[0]) && !IsJsSpace(r[|r| - 1]))
  {
    TrimBy(s, IsJsSpace)
  }

  /** Python's str.strip() with no argument. */
  function Strip(s: string): (r: string)
    ensures r == [] || (!IsPySpace(r[0]) && !IsPySpace(r[|r| - 1]))
  {
    TrimBy(s, IsPySpace)
  }

  /** Trimming a string that neither starts nor ends with a space leaves it unchanged. */
  lemma TrimByNoop(s: string, sp: char -> bool)
    requires s == [] || (!sp(s[0]) && !sp(s[|s| - 1]))
    ensures TrimBy(s, sp) == s
  {
    assert LeadingCount(s, sp) == 0;
    assert s[0..] == s;
  }

  /** Trimming is idempotent. */
  lemma TrimIdempotent(s: string)
    ensures Trim(Trim(s)) == Trim(s)
  {
    TrimByNoop(Trim(s), IsJsSpace);
  }

  // ------------------------------------------------------------------
  // Splitting and joining

  /** parts joined with sep between consecutive parts (Array.prototype.join). */
  function Join(parts: seq<string>, sep: string): (r: string)
    ensures parts == [] ==> r == []
    ensures |parts| == 1 ==> r == parts[0]
  {
    if parts == [] then []
    else if |parts| == 1 then parts[0]
    else parts[0] + sep + Join(parts[1..], sep)
  }

  /**
   * s split at every occurrence of sep, as both String.prototype.split and
   * Python's str.split do for a one-character separator: "" gives [""].
   */
  function Split(s: string, sep: char): (parts: seq<string>)
    ensures |parts| >= 1
    ensures forall i :: 0 <= i < |parts| ==> sep !in parts[i]
    ensures sep !in s ==> parts == [s]
  {
    if s == [] then [[]]
    else
      assert s == [s[0]] + s[1..];
      var rest := Split(s[1..], sep);
      if s[0] == sep then [[]] + rest
      else [[s[0]] + rest[0]] + rest[1..]
  }

  /** Splitting and joining back with the same separator gives the input again. */
  lemma {:induction false} JoinSplit(s: string, sep: char)
    ensures Join(Split(s, sep), [sep]) == s
  {
    if s != [] {
      var rest := Split(s[1..], sep);
      JoinSplit(s[1..], sep);
      if s[0] == sep {
        assert Split(s, sep) == [[]] + rest;
      } else {
        var parts := Split(s, sep);
        assert parts == [[s[0]] + rest[0]] + rest[1..];
        if |rest| == 1 {
          assert Join(rest, [sep]) == rest[0];
        } else {
          assert Join(rest, [sep]) == rest[0] + [sep] + Join(rest[1..], [sep]);
          assert parts[1..] == rest[1..];
        }
      }
    }
  }

  /** Joining parts free of sep and splitting again recovers the parts. */
  lemma {:induction false} SplitJoin(parts: seq<string>, sep: char)
    requires |parts| >= 1
    requires forall i :: 0 <= i < |parts| ==> sep !in parts[i]
    ensures Split(Join(parts, [sep]), sep) == parts
  {
    if |parts| == 1 {
    } else {
      SplitJoin(parts[1..], sep);
      SplitAppend(parts[0], Join(parts[1..], [sep]), sep);
    }
  }

  /** Splitting p + [sep] + q, where p is free of sep, puts p first. */
  lemma {:induction false} SplitAppend(p: string, q: string, sep: char)
    requires sep !in p
    ensures Split(p + [sep] + q, sep) == [p] + Split(q, sep)
  {
    if p == [] {
      assert p + [sep] + q == [sep] + q;
      assert ([sep] + q)[1..] == q;
    } else {
      var s := p + [sep] + q;
      assert s[1..] == p[1..] + [sep] + q;
      SplitAppend(p[1..], q, sep);
      assert [p[0]] + p[1..] == p;
    }
  }

  /** Three fields free of sep, joined by sep, split back into those fields. */
  lemma SplitThree(a: string, b: string, c: string, sep: char)
    requires sep !in a && sep !in b && sep !in c
    ensures Split(a + [sep] + b + [sep] + c, sep) == [a, b, c]
  {
    assert Split(c, sep) == [c];
    SplitAppend(b, c, sep);
    assert a + [sep] + b + [sep] + c == a + [sep] + (b + [sep] + c);
    SplitAppend(a, b + [sep] + c, sep);
  }

  /**
   * The non-empty runs of non-space characters of s, in order: what
   * s.split(/\s+/) gives for a string already trimmed and non-empty.
   */
  function Words(s: string): (ws: seq<string>)
    ensures forall i :: 0 <= i < |ws| ==> ws[i] != [] && forall k :: 0 <= k < |ws[i]| ==> !IsJsSpace(ws[i][k])
    decreases |s|
  {
    var a := LeadingCount(s, IsJsSpace);
    var t := s[a..];
    if t == [] then []
    else
      var n := LeadingCount(t, NotJsSpace);
      assert n >= 1;
      var w := t[..n];
      assert forall k :: 0 <= k < |w| ==> NotJsSpace(t[k]) && w[k] == t[k];
      var rest := Words(t[n..]);
      assert forall i :: 0 < i < 1 + |rest| ==> ([w] + rest)[i] == rest[i - 1];
      [w] + rest
  }

  predicate NotJsSpace(c: char) { !IsJsSpace(c) }

  /** A string without spaces is a single word. */
  lemma WordsOfOne(w: string)
    requires w != [] && forall k :: 0 <= k < |w| ==> !IsJsSpace(w[k])
    ensures Words(w) == [w]
  {
    assert LeadingCount(w, IsJsSpace) == 0;
    assert w[0..] == w;
    var n := LeadingCount(w, NotJsSpace);
    assert n == |w|;
    assert w[n..] == [];
    assert Words([]) == [] by { assert LeadingCount([], IsJsSpace) == 0; }
    assert w[..n] == w;
  }

  /** A non-empty string without white space: one token of a command line. */
  predicate IsWord(w: string)
  {
    w != [] && forall k :: 0 <= k < |w| ==> !IsJsSpace(w[k])
  }

  /** Non-empty printable ASCII without the space character. */
  predicate IsPrintable(w: string)
  {
    w != [] && forall k :: 0 <= k < |w| ==> '!' <= w[k] <= '~'
  }

  lemma PrintableIsWord(w: string)
    requires IsPrintable(w)
    ensures IsWord(w)
  {
  }

  /** The leading run of u + v is u when every character of u qualifies and v does not start with one. */
  lemma {:induction false} LeadingCountPrefix(u: string, v: string, sp: char -> bool)
    requires forall k :: 0 <= k < |u| ==> sp(u[k])
    requires v == [] || !sp(v[0])
    ensures LeadingCount(u + v, sp) == |u|
  {
    if u != [] {
      assert (u + v)[1..] == u[1..] + v;
      LeadingCountPrefix(u[1..], v, sp);
    }
  }

  /** Splitting "w rest" gives w followed by the words of rest. */
  lemma WordsCons(w: string, rest: string)
    requires IsWord(w) && rest != [] && !IsJsSpace(rest[0])
    ensures Words(w + " " + rest) == [w] + Words(rest)
  {
    var s := w + " " + rest;
    LeadingCountPrefix([], s, IsJsSpace);
    assert s[0..] == s;
    assert s == w + (" " + rest);
    LeadingCountPrefix(w, " " + rest, NotJsSpace);
    assert s[..|w|] == w;
    assert s[|w|..] == " " + rest;
    LeadingCountPrefix(" ", rest, IsJsSpace);
    assert (" " + rest)[1..] == rest;
    LeadingCountPrefix([], rest, IsJsSpace);
    assert rest[0..] == rest;
  }

  /** Words joined by single spaces neither start nor end with white space. */
  lemma {:induction false} JoinEnds(ws: seq<string>)
    requires ws != [] && forall i :: 0 <= i < |ws| ==> IsWord(ws[i])
    ensures Join(ws, " ") != [] && !IsJsSpace(Join(ws, " ")[0]) && !IsJsSpace(Join(ws, " ")[|Join(ws, " ")| - 1])
  {
    if |ws| > 1 {
      JoinEnds(ws[1..]);
      var s := Join(ws, " ");
      var rest := Join(ws[1..], " ");
      assert s == ws[0] + " " + rest;
      assert s[0] == ws[0][0];
      assert s[|s| - 1] == rest[|rest| - 1];
    }
  }

  /** Words joined by single spaces split back into the same words. */
  lemma {:induction false} WordsOfJoin(ws: seq<string>)
    requires forall i :: 0 <= i < |ws| ==> IsWord(ws[i])
    ensures Words(Join(ws, " ")) == ws
  {
    if ws == [] {
      assert Words([]) == [] by { assert LeadingCount([], IsJsSpace) == 0; }
    } else if |ws| == 1 {
      WordsOfOne(ws[0]);
    } else {
      var rest := Join(ws[1..], " ");
      WordsOfJoin(ws[1..]);
      JoinEnds(ws[1..]);
      WordsCons(ws[0], rest);
    }
  }

  /** Joined words need no trimming. */
  lemma JoinTrimmed(ws: seq<string>)
    requires forall i :: 0 <= i < |ws| ==> IsWord(ws[i])
    ensures Trim(Join(ws, " ")) == Join(ws, " ")
  {
    if ws != [] { JoinEnds(ws); }
    TrimByNoop(Join(ws, " "), IsJsSpace);
  }

  // ------------------------------------------------------------------
  // Decimal digits

  predicate IsDigit(c: char) { '0' <= c <= '9' }

  function DigitValue(c: char): (d: nat)
    requires IsDigit(c)
    ensures d < 10
  {
    (c as int - '0' as int) as nat
  }

  function DigitChar(d: nat): (c: char)
    requires d < 10
    ensures IsDigit(c) && DigitValue(c) == d
  {
    ('0' as int + d) as char
  }

  predicate AllDigits(s: string) { forall k :: 0 <= k < |s| ==> IsDigit(s[k]) }

  /** The value of a string of decimal digits, most significant first. */
  function DigitsValue(s: string): (v: nat)
    requires AllDigits(s)
  {
    if s == [] then 0 else 10 * DigitsValue(s[..|s| - 1]) + DigitValue(s[|s| - 1])
  }

  /** The decimal rendering of n without leading zeros ("0" for zero). */
  function NatToString(n: nat): (s: string)
    ensures s != [] && AllDigits(s)
    ensures |s| > 1 ==> s[0] != '0'
    decreases n
  {
    if n < 10 then [DigitChar(n)] else NatToString(n / 10) + [DigitChar(n % 10)]
  }

  /** Reading back the decimal rendering gives the number. */
  lemma {:induction false} NatToStringValue(n: nat)
    ensures DigitsValue(NatToString(n)) == n
  {
    if n >= 10 {
      NatToStringValue(n / 10);
      var s := NatToString(n);
      assert s[..|s| - 1] == NatToString(n / 10);
    }
  }

  /** The decimal rendering of an integer, with a leading '-' when negative. */
  function IntToString(i: int): (s: string)
    ensures s != []
  {
    if i < 0 then "-" + NatToString(-i) else NatToString(i)
  }

  // ------------------------------------------------------------------
  // Characters and prefixes

  /** ASCII lower-casing of one character. */
  function LowerChar(c: char): (r: char)
    ensures 'A' <= c <= 'Z' ==> r as int == c as int + 32
    ensures !('A' <= c <= 'Z') ==> r == c
  {
    if 'A' <= c <= 'Z' then (c as int + 32) as char else c
  }

  /** ASCII lower-casing of a string. */
  function Lower(s: string): (r: string)
    ensures |r| == |s|
    ensures forall k :: 0 <= k < |s| ==> r[k] == LowerChar(s[k])
  {
    seq(|s|, k requires 0 <= k < |s| => LowerChar(s[k]))
  }

  /** s.startsWith(p) */
  predicate StartsWith(s: string, p: string)
  {
    |p| <= |s| && s[..|p|] == p
  }

  /** s.endsWith(p) */
  predicate EndsWith(s: string, p: string)
  {
    |p| <= |s| && s[|s| - |p|..] == p
  }

  /** Index of the first occurrence of c in s. */
  function IndexOf(s: string, c: char): (i: nat)
    requires c in s
    ensures i < |s| && s[i] == c && c !in s[..i]
  {
    if s[0] == c then 0 else 1 + IndexOf(s[1..], c)
  }
}
