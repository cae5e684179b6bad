/**
 * shortId: a base62 identifier built from the position in the current
 * minute (seconds * 1000 + milliseconds) and a per-millisecond counter.
 * The generator keeps the last millisecond and the counter between calls;
 * the clock reading is a parameter.
 */
module ShortId {
  import opened Common
  import opened Js

  const MINUTE_MS: nat := 60000
  const DEFAULT_CHARS: nat := 4
  const CHARS_ERROR: string := "chars must be an integer >= 2"

  function Pow62(n: nat): (r: nat)
    ensures r >= 1
    ensures n >= 1 ==> r >= 62
  {
    if n == 0 then 1 else 62 * Pow62(n - 1)
  }

  lemma {:induction false} Pow62Monotone(m: nat, n: nat)
    requires m <= n
    ensures Pow62(m) <= Pow62(n)
    decreases n
  {
    if m < n {
      Pow62Monotone(m, n - 1);
    }
  }

  /** The d-th character of the BASE62 alphabet: digits, then lower-case, then upper-case letters. */
  function Base62Char(d: nat): (c: char)
    requires d < 62
  {
    if d < 10 then ('0' as int + d) as char
    else if d < 36 then ('a' as int + d - 10) as char
    else ('A' as int + d - 36) as char
  }

  /** The base62 digit string of num, most significant first; empty for 0. */
  function Digits62(num: nat): (s: string)
    decreases num
  {
    if num == 0 then "" else Digits62(num / 62) + [Base62Char(num % 62)]
  }

  /** '0'.repeat(n) */
  function Zeros(n: nat): (s: string)
    ensures |s| == n && forall k :: 0 <= k < n ==> s[k] == '0'
  {
    if n == 0 then "" else Zeros(n - 1) + "0"
  }

  /** s.padStart(width, '0') */
  function PadStart(s: string, width: nat): (r: string)
    ensures |r| == Max(width, |s|)
    ensures r[|r| - |s|..] == s
  {
    if |s| >= width then s else Zeros(width - |s|) + s
  }

  /** toBase62(num, width) */
  function ToBase62(num: nat, width: nat): string
  {
    PadStart(Digits62(num), width)
  }

  /** The position of c in the alphabet; 62 when absent. */
  function DigitOf(c: char): (d: nat)
    ensures d <= 62
  {
    if '0' <= c <= '9' then c as int - '0' as int
    else if 'a' <= c <= 'z' then c as int - 'a' as int + 10
    else if 'A' <= c <= 'Z' then c as int - 'A' as int + 36
    else 62
  }

  /** The number a base62 string spells, leading zeros included. */
  function FromBase62(s: string): nat
  {
    if s == [] then 0 else 62 * FromBase62(s[..|s| - 1]) + DigitOf(s[|s| - 1]) % 62
  }

  /** DigitOf inverts the alphabet. */
  lemma AlphabetDistinct(d: nat)
    requires d < 62
    ensures DigitOf(Base62Char(d)) == d
  {
  }

  /** A number below 62^n has at most n digits. */
  lemma {:induction false} Digits62Length(num: nat, n: nat)
    requires num < Pow62(n)
    ensures |Digits62(num)| <= n
    decreases num
  {
    if num > 0 {
      Digits62Length(num / 62, n - 1);
    }
  }

  /** A number of 62^n or more has more than n digits. */
  lemma {:induction false} Digits62Long(num: nat, n: nat)
    requires num >= Pow62(n)
    ensures |Digits62(num)| > n
    decreases num
  {
    if n > 0 {
      Digits62Long(num / 62, n - 1);
    }
  }

  lemma {:induction false} FromZeros(z: string, s: string)
    requires forall k :: 0 <= k < |z| ==> z[k] == '0'
    ensures FromBase62(z + s) == FromBase62(s) * 1 + FromBase62(z) * Pow62(|s|)
    ensures FromBase62(z) == 0
    decreases |s|, |z|
  {
    if s == [] {
      assert z + s == z;
      if z != [] {
        assert DigitOf(z[|z| - 1]) == 0;
        FromZeros(z[..|z| - 1], []);
        assert z[..|z| - 1] + [] == z[..|z| - 1];
      }
    } else {
      assert (z + s)[..|z + s| - 1] == z + s[..|s| - 1];
      FromZeros(z, s[..|s| - 1]);
    }
  }

  /** Reading the digits back gives the number. */
  lemma {:induction false} FromDigits62(num: nat)
    ensures FromBase62(Digits62(num)) == num
    decreases num
  {
    if num > 0 {
      var s := Digits62(num);
      assert s[..|s| - 1] == Digits62(num / 62);
      AlphabetDistinct(num % 62);
      FromDigits62(num / 62);
    }
  }

  /** Padding does not change the value, so toBase62 is inverted by FromBase62 at every width. */
  lemma FromToBase62(num: nat, width: nat)
    ensures FromBase62(ToBase62(num, width)) == num
  {
    var s := Digits62(num);
    FromDigits62(num);
    if |s| < width {
      FromZeros(Zeros(width - |s|), s);
    }
  }

  /** toBase62 fills exactly width characters exactly when the number is below 62^width. */
  lemma ToBase62Length(num: nat, width: nat)
    ensures |ToBase62(num, width)| == width <==> num < Pow62(width)
  {
    if num < Pow62(width) {
      Digits62Length(num, width);
    } else {
      Digits62Long(num, width);
    }
  }

  /** Different numbers give different strings at the same width. */
  lemma ToBase62Injective(a: nat, b: nat, width: nat)
    requires a != b
    ensures ToBase62(a, width) != ToBase62(b, width)
  {
    FromToBase62(a, width);
    FromToBase62(b, width);
  }

  /** The while loop of toBase62, followed by padStart. */
  method ToBase62Loop(num: nat, width: nat) returns (out: string)
    ensures out == ToBase62(num, width)
  {
    var n := num;
    out := "";
    while n > 0
      invariant Digits62(num) == Digits62(n) + out
      decreases n
    {
      out := [Base62Char(n % 62)] + out;
      n := n / 62;
    }
    out := PadStart(out, width);
  }

  /** Math.max(1, Math.floor(62 ** chars / 60000)) */
  function SlotsPerMs(chars: nat): (slots: nat)
    ensures slots >= 1
  {
    Max(1, Pow62(chars) / MINUTE_MS)
  }

  /** The chars argument: undefined takes the default 4; anything but an integer of at least 2 is refused. */
  function CharsOf(chars: Value): (r: Option<nat>)
    ensures r.Some? ==> r.value >= 2
    ensures chars.Undefined? ==> r == Some(DEFAULT_CHARS)
  {
    if chars.Undefined? then Some(DEFAULT_CHARS)
    else if chars.Number? && chars.n.Fin? && chars.n.v.Floor as real == chars.n.v && chars.n.v >= 2.0 then
      Some(chars.n.v.Floor)
    else None
  }

  /** The generator's state between calls. */
  datatype Clock = Clock(lastTime: int, counter: nat)

  /** The state after a call in millisecond time of the minute. */
  function Tick(s: Clock, time: nat, slots: nat): (t: Clock)
    requires slots >= 1
    ensures t.lastTime == time && t.counter < slots
  {
    if time == s.lastTime then Clock(time, (s.counter + 1) % slots) else Clock(time, 0)
  }

  /** time * slotsPerMs + counter */
  function Slot(time: nat, counter: nat, slots: nat): nat
  {
    time * slots + counter
  }

  /** Distinct (millisecond, counter) pairs with the counter below slotsPerMs give distinct slot numbers. */
  lemma SlotInjective(t1: nat, c1: nat, t2: nat, c2: nat, slots: nat)
    requires c1 < slots && c2 < slots
    requires (t1, c1) != (t2, c2)
    ensures Slot(t1, c1, slots) != Slot(t2, c2, slots)
  {
    if t1 < t2 {
      MulStep(t1, t2, slots);
    } else if t2 < t1 {
      MulStep(t2, t1, slots);
    }
  }

  lemma {:induction false} MulStep(a: nat, b: nat, k: nat)
    requires a < b
    ensures a * k + k <= b * k
    decreases b
  {
    assert b * k == (b - 1) * k + k;
    if a < b - 1 {
      MulStep(a, b - 1, k);
    }
  }

  /**
   * Within one millisecond, the calls after the first take the counters 1, 2, ...
   * so up to slotsPerMs consecutive calls get distinct identifiers.
   */
  lemma SameMillisecondDistinct(s: Clock, time: nat, chars: nat, j: nat, k: nat)
    requires chars >= 2 && j < k < SlotsPerMs(chars)
    requires s.lastTime == time && s.counter == 0
    ensures Iterate(s, time, SlotsPerMs(chars), j).counter == j
    ensures Iterate(s, time, SlotsPerMs(chars), k).counter == k
    ensures ToBase62(Slot(time, k, SlotsPerMs(chars)), chars) != ToBase62(Slot(time, j, SlotsPerMs(chars)), chars)
  {
    IterateCounts(s, time, SlotsPerMs(chars), j);
    IterateCounts(s, time, SlotsPerMs(chars), k);
    SlotInjective(time, k, time, j, SlotsPerMs(chars));
    ToBase62Injective(Slot(time, k, SlotsPerMs(chars)), Slot(time, j, SlotsPerMs(chars)), chars);
  }

  /** k more calls in the same millisecond. */
  function Iterate(s: Clock, time: nat, slots: nat, k: nat): Clock
    requires slots >= 1
  {
    if k == 0 then s else Tick(Iterate(s, time, slots, k - 1), time, slots)
  }

  lemma {:induction false} IterateCounts(s: Clock, time: nat, slots: nat, k: nat)
    requires slots >= 1 && k < slots
    requires s.lastTime == time && s.counter == 0
    ensures Iterate(s, time, slots, k) == Clock(time, k)
  {
    if k > 0 {
      IterateCounts(s, time, slots, k - 1);
      ModOfSmall(k, slots);
    }
  }

  /** The identifier for a slot, as written: toBase62 at the requested width. */
  function IdAsWritten(value: nat, chars: nat): (id: string)
    ensures FromBase62(id) == value
  {
    FromToBase62(value, chars);
    ToBase62(value, chars)
  }

  /** The identifier as evidently intended: the slot number wrapped into the 62^chars value space first. */
  function Id(value: nat, chars: nat): (id: string)
    ensures |id| == chars
  {
    ToBase62Length(value % Pow62(chars), chars);
    ToBase62(value % Pow62(chars), chars)
  }

  /** Every slot of the minute is below 60000 * slotsPerMs. */
  lemma SlotBelow(time: nat, counter: nat, slots: nat)
    requires time < MINUTE_MS && counter < slots
    ensures Slot(time, counter, slots) < slots * MINUTE_MS
  {
    if time + 1 < MINUTE_MS {
      MulStep(time + 1, MINUTE_MS, slots);
    }
    assert (time + 1) * slots == time * slots + slots;
  }

  /** A slot number inside the value space is not changed by the wrap, and its id is exactly chars long. */
  lemma IdOfSmall(v: nat, chars: nat)
    requires v < Pow62(chars)
    ensures IdAsWritten(v, chars) == Id(v, chars)
    ensures |IdAsWritten(v, chars)| == chars
  {
    ModOfSmall(v, Pow62(chars));
    ToBase62Length(v, chars);
  }

  lemma ModOfSmall(v: nat, m: nat)
    requires v < m
    ensures v % m == v
  {
  }

  /** From three characters on, every slot of the minute fits the 62^chars value space. */
  lemma SlotFits(time: nat, counter: nat, chars: nat)
    requires chars >= 3 && time < MINUTE_MS && counter < SlotsPerMs(chars)
    ensures Slot(time, counter, SlotsPerMs(chars)) < Pow62(chars)
  {
    var slots := SlotsPerMs(chars);
    Pow62Monotone(3, chars);
    assert Pow62(3) == 238328;
    assert slots * MINUTE_MS <= Pow62(chars);
    SlotBelow(time, counter, slots);
  }

  /**
   * From three characters on, the wrap changes nothing and the identifier
   * is exactly chars long.
   */
  lemma IdFitsFromThreeChars(time: nat, counter: nat, chars: nat)
    requires chars >= 3 && time < MINUTE_MS && counter < SlotsPerMs(chars)
    ensures IdAsWritten(Slot(time, counter, SlotsPerMs(chars)), chars) == Id(Slot(time, counter, SlotsPerMs(chars)), chars)
    ensures |IdAsWritten(Slot(time, counter, SlotsPerMs(chars)), chars)| == chars
  {
    SlotFits(time, counter, chars);
    IdOfSmall(Slot(time, counter, SlotsPerMs(chars)), chars);
  }

  /** With two characters there is one slot per millisecond, and 3:844 already spells a three-character id. */
  lemma TwoCharIdTooLong()
    ensures SlotsPerMs(2) == 1
    ensures |IdAsWritten(Slot(3 * 1000 + 844, 0, SlotsPerMs(2)), 2)| == 3
    ensures |Id(Slot(3 * 1000 + 844, 0, SlotsPerMs(2)), 2)| == 2
  {
    assert Pow62(2) == 3844;
    ToBase62Length(3844, 2);
    Digits62Length(3844, 3);
    assert Pow62(3) == 238328;
  }

  /** The generator: lastTime starts at -1, counter at 0. */
  class Generator {
    var lastTime: int
    var counter: nat

    function State(): Clock
      reads this
    {
      Clock(lastTime, counter)
    }

    constructor()
      ensures State() == Clock(-1, 0)
    {
      lastTime := -1;
      counter := 0;
    }

    /**
     * shortId(chars) at seconds sec and milliseconds ms of the current
     * minute. A refused chars leaves the state as it was.
     */
    method Next(chars: Value, sec: nat, ms: nat) returns (r: Result<string, string>)
      requires sec < 60 && ms < 1000
      modifies this
      ensures CharsOf(chars).None? ==> r == Err(CHARS_ERROR) && State() == old(State())
      ensures CharsOf(chars).Some? ==>
        var n := CharsOf(chars).value;
        var slots := SlotsPerMs(n);
        State() == Tick(old(State()), sec * 1000 + ms, slots) &&
        r == Ok(Id(Slot(sec * 1000 + ms, counter, slots), n))
    {
      var n := CharsOf(chars);
      if n.None? {
        return Err(CHARS_ERROR);
      }
      var slots := SlotsPerMs(n.value);
      var time := sec * 1000 + ms;
      var t := Tick(State(), time, slots);
      lastTime, counter := t.lastTime, t.counter;
      var id := ToBase62Loop(Slot(time, counter, slots) % Pow62(n.value), n.value);
      r := Ok(id);
    }
  }
}
