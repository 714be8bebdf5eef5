/** Text and integer primitives shared by the Python backend and the TypeScript/JavaScript
    front ends: ASCII case mapping, substring tests, the JavaScript and Python whitespace
    strippers, decimal rendering and parsing, the "m:ss" clock, and the slice and division
    operators of the two languages. */
module Text {

  datatype Option<T> = None | Some(value: T)

  // ---------------------------------------------------------------- characters and case

  predicate IsDigit(c: char) { '0' <= c <= '9' }
  predicate IsAsciiUpper(c: char) { 'A' <= c <= 'Z' }
  predicate IsAsciiLower(c: char) { 'a' <= c <= 'z' }
  predicate IsAsciiLetter(c: char) { IsAsciiUpper(c) || IsAsciiLower(c) }

  function LowerChar(c: char): char {
    if IsAsciiUpper(c) then (c as int + 32) as char else c
  }

  function UpperChar(c: char): char {
    if IsAsciiLower(c) then (c as int - 32) as char else c
  }

  /** `str.lower()` / `String.prototype.toLowerCase()`, on the ASCII letters. */
  function Lower(s: string): (r: string)
    ensures |r| == |s|
    ensures forall i :: 0 <= i < |s| ==> r[i] == LowerChar(s[i])
  {
    seq(|s|, i requires 0 <= i < |s| => LowerChar(s[i]))
  }

  /** `str.upper()`, on the ASCII letters. */
  function Upper(s: string): (r: string)
    ensures |r| == |s|
    ensures forall i :: 0 <= i < |s| ==> r[i] == UpperChar(s[i])
  {
    seq(|s|, i requires 0 <= i < |s| => UpperChar(s[i]))
  }

  /** Python's `str.title()` on ASCII: a letter is upper-cased when it starts a run of letters
      and lower-cased otherwise; every other character is kept. */
  function TitleCase(s: string): (r: string)
    ensures |r| == |s|
  {
    seq(|s|, i requires 0 <= i < |s| =>
      if i > 0 && IsAsciiLetter(s[i - 1]) then LowerChar(s[i]) else UpperChar(s[i]))
  }

  /** Replaces every occurrence of `a` by `b`. */
  function ReplaceChar(s: string, a: char, b: char): (r: string)
    ensures |r| == |s|
  {
    seq(|s|, i requires 0 <= i < |s| => if s[i] == a then b else s[i])
  }

  // ---------------------------------------------------------------- substrings

  predicate StartsWith(s: string, prefix: string) {
    |prefix| <= |s| && s[..|prefix|] == prefix
  }

  predicate EndsWith(s: string, suffix: string) {
    |suffix| <= |s| && s[|s| - |suffix|..] == suffix
  }

  /** `needle in hay` (Python) and `hay.includes(needle)` (JavaScript). */
  predicate Contains(hay: string, needle: string)
    decreases |hay|
  {
    StartsWith(hay, needle) || (|hay| > 0 && Contains(hay[1..], needle))
  }

  /** The needle occurs in the haystack starting at offset `k`. */
  predicate OccursAt(hay: string, needle: string, k: int) {
    0 <= k && k + |needle| <= |hay| && hay[k..k + |needle|] == needle
  }

  /** Contains means: the needle occurs at some offset. */
  lemma {:induction false} ContainsAt(hay: string, needle: string)
    ensures Contains(hay, needle) <==> exists k :: OccursAt(hay, needle, k)
    decreases |hay|
  {
    if Contains(hay, needle) {
      if StartsWith(hay, needle) {
        assert OccursAt(hay, needle, 0);
      } else {
        ContainsAt(hay[1..], needle);
        var k :| OccursAt(hay[1..], needle, k);
        assert hay[k + 1..k + 1 + |needle|] == hay[1..][k..k + |needle|];
        assert OccursAt(hay, needle, k + 1);
      }
    }
    if exists k :: OccursAt(hay, needle, k) {
      var k :| OccursAt(hay, needle, k);
      if k == 0 {
        assert StartsWith(hay, needle);
      } else {
        assert hay[1..][k - 1..k - 1 + |needle|] == hay[k..k + |needle|];
        assert OccursAt(hay[1..], needle, k - 1);
        ContainsAt(hay[1..], needle);
      }
    }
  }

  // ---------------------------------------------------------------- whitespace

  /** The characters `String.prototype.trim` removes: WhiteSpace and LineTerminator of
      ECMA-262 (sections 12.2 and 12.3), that is TAB, VT, FF, SPACE, NBSP, ZWNBSP, the
      Space_Separator category, LF, CR, LS and PS. */
  predicate IsJsSpace(c: char) {
    var n := c as int;
    n == 0x09 || n == 0x0A || n == 0x0B || n == 0x0C || n == 0x0D || n == 0x20
    || n == 0xA0 || n == 0x1680 || (0x2000 <= n <= 0x200A) || n == 0x2028 || n == 0x2029
    || n == 0x202F || n == 0x205F || n == 0x3000 || n == 0xFEFF
  }

  /** The ASCII characters Python's `str.strip()` and `int()` treat as whitespace. */
  predicate IsPySpace(c: char) {
    var n := c as int;
    n == 0x20 || (0x09 <= n <= 0x0D) || (0x1C <= n <= 0x1F)
  }

  function TrimStartBy(s: string, space: char -> bool): (r: string)
    ensures |r| <= |s|
  {
    if |s| > 0 && space(s[0]) then TrimStartBy(s[1..], space) else s
  }

  function TrimEndBy(s: string, space: char -> bool): (r: string)
    ensures |r| <= |s|
  {
    if |s| > 0 && space(s[|s| - 1]) then TrimEndBy(s[..|s| - 1], space) else s
  }

  function StripBy(s: string, space: char -> bool): string {
    TrimEndBy(TrimStartBy(s, space), space)
  }

  /** `String.prototype.trim`. */
  function Trim(s: string): string {
    StripBy(s, IsJsSpace)
  }

  predicate AllSpace(s: string, space: char -> bool) {
    forall i :: 0 <= i < |s| ==> space(s[i])
  }

  lemma {:induction false} TrimStartEmpty(s: string, space: char -> bool)
    ensures TrimStartBy(s, space) == "" <==> AllSpace(s, space)
  {
    if |s| > 0 {
      TrimStartEmpty(s[1..], space);
      if space(s[0]) && AllSpace(s[1..], space) {
        assert forall i :: 1 <= i < |s| ==> s[i] == s[1..][i - 1];
      }
    }
  }

  lemma {:induction false} TrimEndEmpty(s: string, space: char -> bool)
    ensures TrimEndBy(s, space) == "" <==> AllSpace(s, space)
  {
    if |s| > 0 {
      var init := s[..|s| - 1];
      TrimEndEmpty(init, space);
      if space(s[|s| - 1]) && AllSpace(init, space) {
        assert forall i :: 0 <= i < |s| - 1 ==> s[i] == init[i];
      }
    }
  }

  /** A string trims to "" exactly when every character of it is JavaScript whitespace. */
  lemma TrimEmpty(s: string)
    ensures Trim(s) == "" <==> AllSpace(s, IsJsSpace)
  {
    TrimEndEmpty(TrimStartBy(s, IsJsSpace), IsJsSpace);
    TrimStartEmpty(s, IsJsSpace);
    TrimStartOfSpaces(s, IsJsSpace);
  }

  /** Stripping the front of an all-space string either empties it or leaves spaces. */
  lemma {:induction false} TrimStartOfSpaces(s: string, space: char -> bool)
    ensures AllSpace(TrimStartBy(s, space), space) ==> AllSpace(s, space)
  {
    if |s| > 0 && space(s[0]) {
      TrimStartOfSpaces(s[1..], space);
      if AllSpace(s[1..], space) {
        assert forall i :: 1 <= i < |s| ==> s[i] == s[1..][i - 1];
      }
    }
  }

  // ---------------------------------------------------------------- decimal numbers

  predicate AllDigits(s: string) {
    forall i :: 0 <= i < |s| ==> IsDigit(s[i])
  }

  function DigitChar(d: nat): (c: char)
    requires d < 10
    ensures IsDigit(c)
  {
    ('0' as int + d) as char
  }

  function DigitValue(c: char): (d: nat)
    requires IsDigit(c)
    ensures d < 10
  {
    c as int - '0' as int
  }

  /** Decimal rendering of a natural, as `str(n)` / `n.toString()` produce it. */
  function NatToString(n: nat): (r: string)
    ensures |r| >= 1 && AllDigits(r)
    decreases n
  {
    if n < 10 then [DigitChar(n)] else NatToString(n / 10) + [DigitChar(n % 10)]
  }

  /** The value of a string of decimal digits ("" is 0). */
  function ParseDigits(s: string): nat
    requires AllDigits(s)
  {
    if s == [] then 0 else ParseDigits(s[..|s| - 1]) * 10 + DigitValue(s[|s| - 1])
  }

  /** Decimal rendering can be read back, so it is injective. */
  lemma {:induction false} ParseNatToString(n: nat)
    ensures ParseDigits(NatToString(n)) == n
    decreases n
  {
    if n >= 10 {
      var s := NatToString(n);
      assert s[..|s| - 1] == NatToString(n / 10);
      ParseNatToString(n / 10);
    }
  }

  lemma NatToStringInjective(m: nat, n: nat)
    ensures NatToString(m) == NatToString(n) ==> m == n
  {
    ParseNatToString(m);
    ParseNatToString(n);
  }

  /** `s.padStart(2, '0')`. */
  function Pad2(s: string): (r: string)
    ensures |s| < 2 ==> |r| == 2
  {
    if |s| >= 2 then s else if |s| == 1 then "0" + s else "00"
  }

  /** The "m:ss" rendering shared by `formatTime` (static/js/player.js) and
      `formatDuration` (components/SongList.tsx) for a whole number of seconds. */
  function Clock(seconds: nat): string {
    NatToString(seconds / 60) + ":" + Pad2(NatToString(seconds % 60))
  }

  /** Reads an "m:ss" text back into seconds. */
  function ParseClock(s: string): Option<nat> {
    if |s| >= 4 && s[|s| - 3] == ':' && AllDigits(s[..|s| - 3]) && AllDigits(s[|s| - 2..])
    then Some(ParseDigits(s[..|s| - 3]) * 60 + ParseDigits(s[|s| - 2..]))
    else None
  }

  /** The clock rendering loses nothing: reading it back gives the seconds. */
  lemma ClockRoundTrip(seconds: nat)
    ensures ParseClock(Clock(seconds)) == Some(seconds)
  {
    ParseNatToString(seconds / 60);
    PadSeconds(seconds % 60);
    ParseClockParts(NatToString(seconds / 60), Pad2(NatToString(seconds % 60)));
  }

  /** The seconds part is two digits that read back to the seconds. */
  lemma PadSeconds(n: nat)
    requires n < 60
    ensures var ss := Pad2(NatToString(n));
      |ss| == 2 && AllDigits(ss) && ParseDigits(ss) == n
  {
    var d := NatToString(n);
    var ss := Pad2(d);
    ParseNatToString(n);
    if n < 10 {
      assert ss == ['0', d[0]];
      assert ss[..1] == ['0'];
    } else {
      assert ss == d;
    }
  }

  /** Minutes, a colon and two digits are read back part by part. */
  lemma ParseClockParts(m: string, ss: string)
    requires |m| >= 1 && AllDigits(m) && |ss| == 2 && AllDigits(ss)
    ensures ParseClock(m + ":" + ss) == Some(ParseDigits(m) * 60 + ParseDigits(ss))
  {
    var c := m + ":" + ss;
    assert c[..|c| - 3] == m;
    assert c[|c| - 2..] == ss;
  }

  lemma ClockInjective(a: nat, b: nat)
    ensures Clock(a) == Clock(b) ==> a == b
  {
    ClockRoundTrip(a);
    ClockRoundTrip(b);
  }

  /** Minutes, a colon and the seconds left over, two digits wide, for a non-negative
      number of seconds: `Math.floor(s / 60)` and `Math.floor(s % 60)`, as `formatTime`
      (static/js/player.js) and `formatDuration` (components/SongList.tsx) compute them. */
  function ClockOf(s: real): string
    requires s >= 0.0
  {
    var minutes := (s / 60.0).Floor;
    var rest := (s - 60.0 * minutes as real).Floor;
    NatToString(minutes) + ":" + Pad2(NatToString(rest))
  }

  lemma FloorSplit(s: real)
    requires s >= 0.0
    ensures (s / 60.0).Floor == s.Floor / 60
    ensures (s - 60.0 * ((s / 60.0).Floor) as real).Floor == s.Floor % 60
  {
    var f := s.Floor;
    var m := f / 60;
    assert f as real <= s < f as real + 1.0;
    assert m * 60 <= f < m * 60 + 60;
    assert (m * 60) as real <= s < (m * 60 + 60) as real;
    assert m as real <= s / 60.0 < (m + 1) as real;
    var rest := s - 60.0 * m as real;
    assert (f - 60 * m) as real <= rest < (f - 60 * m) as real + 1.0;
  }

  /** A non-negative time is shown as the "m:ss" clock of its whole seconds, which can be
      read back. */
  lemma ClockOfIsClock(s: real)
    requires s >= 0.0
    ensures ClockOf(s) == Clock(s.Floor)
    ensures ParseClock(ClockOf(s)) == Some(s.Floor)
  {
    FloorSplit(s);
    ClockRoundTrip(s.Floor);
  }

  // ---------------------------------------------------------------- Python int()

  /** Digits with single underscores between them, as Python's `int()` accepts them. */
  predicate IsDigitGroups(s: string) {
    && |s| > 0 && IsDigit(s[0]) && IsDigit(s[|s| - 1])
    && (forall i :: 0 <= i < |s| ==> IsDigit(s[i]) || s[i] == '_')
    && (forall i :: 0 <= i < |s| - 1 ==> !(s[i] == '_' && s[i + 1] == '_'))
  }

  function DropUnderscores(s: string): (r: string)
    requires forall i :: 0 <= i < |s| ==> IsDigit(s[i]) || s[i] == '_'
    ensures AllDigits(r)
  {
    if s == [] then [] else (if s[0] == '_' then [] else [s[0]]) + DropUnderscores(s[1..])
  }

  /** Python's `int(text)` in base 10 on ASCII text: surrounding whitespace, an optional
      sign, then digit groups; anything else raises `ValueError`, here None. */
  function PyInt(text: string): Option<int> {
    var t := StripBy(text, IsPySpace);
    if |t| > 0 && (t[0] == '+' || t[0] == '-') then
      var body := t[1..];
      if IsDigitGroups(body) then
        var n: int := ParseDigits(DropUnderscores(body));
        Some(if t[0] == '-' then -n else n)
      else None
    else if IsDigitGroups(t) then Some(ParseDigits(DropUnderscores(t)))
    else None
  }

  /** A plain run of digits is read as its decimal value. */
  lemma PyIntDigits(text: string)
    requires AllDigits(text) && |text| > 0
    ensures PyInt(text) == Some(ParseDigits(text))
  {
    StripDigits(text);
    DropNoUnderscores(text);
  }

  lemma StripDigits(s: string)
    requires AllDigits(s) && |s| > 0
    ensures StripBy(s, IsPySpace) == s
  {
    assert !IsPySpace(s[0]) && !IsPySpace(s[|s| - 1]);
  }

  lemma {:induction false} DropNoUnderscores(s: string)
    requires AllDigits(s)
    ensures DropUnderscores(s) == s
  {
    if s != [] {
      DropNoUnderscores(s[1..]);
    }
  }

  // ---------------------------------------------------------------- slicing and division

  /** How `seq[a:b]` (Python) and `Array.prototype.slice` (JavaScript) normalise one integer
      bound: negative bounds count from the end, then the bound is clipped to [0, n]. */
  function ClampIndex(i: int, n: nat): (r: nat)
    ensures r <= n
    ensures 0 <= i <= n ==> r == i
  {
    if i < 0 then (if i + n < 0 then 0 else i + n) else if i > n then n else i
  }

  /** `s[start:stop]` in Python and `s.slice(start, stop)` in JavaScript. */
  function Slice<T>(s: seq<T>, start: int, stop: int): (r: seq<T>)
    ensures |r| <= |s|
  {
    var a := ClampIndex(start, |s|);
    var b := ClampIndex(stop, |s|);
    if a <= b then s[a..b] else []
  }

  /** A slice `s[start:start + len]` with natural bounds is the window of `s` from `start`,
      cut at its end. */
  lemma SliceWindow<T>(s: seq<T>, start: nat, len: nat)
    ensures var w := Slice(s, start, start + len);
      |w| == (if start >= |s| then 0 else if start + len <= |s| then len else |s| - start) &&
      forall k :: 0 <= k < |w| ==> start + k < |s| && w[k] == s[start + k]
  {
  }

  lemma MulNonNegative(a: int, b: int)
    requires a >= 0 && b >= 0
    ensures a * b >= 0
  {
  }

  lemma MulMonotone(a: int, b: int, c: nat)
    requires a <= b
    ensures a * c <= b * c
  {
  }

  /** A strict inequality between multiples of the same factor holds between the
      multiplied numbers. */
  lemma MulCancelStrict(a: int, b: int, c: nat)
    requires a * c < b * c
    ensures a < b
  {
    if b <= a {
      MulMonotone(b, a, c);
      assert false;
    }
  }

  /** `Math.min` and `Math.max` on integers. */
  function Min(a: int, b: int): int { if a <= b then a else b }
  function Max(a: int, b: int): int { if a >= b then a else b }

  /** Python's `//`, which rounds towards negative infinity. */
  function FloorDiv(a: int, b: int): (q: int)
    requires b != 0
    ensures b > 0 ==> b * q <= a < b * q + b
    ensures b < 0 ==> b * q + b < a <= b * q
  {
    if b > 0 then a / b else (-a) / (-b)
  }

  /** JavaScript's `%` on integers, whose result takes the sign of the dividend. */
  function JsRem(a: int, b: int): (r: int)
    requires b != 0
    ensures a >= 0 ==> r == a % b
  {
    if a >= 0 then a % b else -((-a) % b)
  }

  /** `Math.ceil(a / b)` for a natural `a` and a positive `b`. */
  function CeilDiv(a: nat, b: nat): (q: nat)
    requires b > 0
    ensures (q - 1) * b < a <= q * b || (a == 0 && q == 0)
  {
    (a + b - 1) / b
  }
}
