/** Percent-encoding of file names (section 2.1 of RFC 3986): the text is encoded as UTF-8
    and every byte outside a profile's set of kept ASCII characters is written as "%" and two
    upper-case hexadecimal digits. Two profiles are used by the system:
    - `urllib.parse.quote(name)` (app.py) keeps the RFC 3986 unreserved characters and "/";
    - `encodeURIComponent(name)` (lib/internetArchiveApi.ts) keeps letters, digits and
      "-_.!~*'()".
    The decoder below is the inverse of the encoder, which proves that both encodings are
    injective: distinct file names always give distinct URLs. */
module PercentEncoding {
  import opened Text

  type Byte = x: int | 0 <= x < 256

  // ---------------------------------------------------------------- UTF-8

  /** Dafny's `char` is a Unicode scalar value; this is its range. */
  predicate IsScalar(n: int) {
    (0 <= n < 0xD800) || (0xE000 <= n < 0x110000)
  }

  /** The UTF-8 encoding of one scalar value (section 3 of RFC 3629). */
  function Utf8Char(c: char): (r: seq<Byte>)
    ensures 1 <= |r| <= 4
  {
    var n := c as int;
    if n < 0x80 then [n]
    else if n < 0x800 then [0xC0 + n / 64, 0x80 + n % 64]
    else if n < 0x10000 then [0xE0 + n / 4096, 0x80 + (n / 64) % 64, 0x80 + n % 64]
    else [0xF0 + n / 262144, 0x80 + (n / 4096) % 64, 0x80 + (n / 64) % 64, 0x80 + n % 64]
  }

  function Utf8(s: string): seq<Byte> {
    if s == [] then [] else Utf8Char(s[0]) + Utf8(s[1..])
  }

  /** The length of the sequence a leading byte announces (0: not a leading byte). */
  function LeadLength(b: Byte): nat {
    if b < 0x80 then 1
    else if 0xC0 <= b < 0xE0 then 2
    else if 0xE0 <= b < 0xF0 then 3
    else if 0xF0 <= b < 0xF8 then 4
    else 0
  }

  predicate IsContinuation(b: Byte) { 0x80 <= b < 0xC0 }

  function CodePoint(bs: seq<Byte>): int
    requires 1 <= |bs| <= 4
  {
    var b0: int := bs[0];
    if |bs| == 1 then b0
    else
      var b1: int := bs[1] as int - 0x80;
      if |bs| == 2 then (b0 - 0xC0) * 64 + b1
      else
        var b2: int := bs[2] as int - 0x80;
        if |bs| == 3 then (b0 - 0xE0) * 4096 + b1 * 64 + b2
        else (b0 - 0xF0) * 262144 + b1 * 4096 + b2 * 64 + (bs[3] as int - 0x80)
  }

  function Utf8Decode(bs: seq<Byte>): Option<string>
    decreases |bs|
  {
    if bs == [] then Some([])
    else
      var k := LeadLength(bs[0]);
      if k == 0 || k > |bs| || !(forall j :: 1 <= j < k ==> IsContinuation(bs[j])) then None
      else
        var n := CodePoint(bs[..k]);
        if !IsScalar(n) then None
        else match Utf8Decode(bs[k..])
          case None => None
          case Some(rest) => Some([n as char] + rest)
  }

  lemma Split64(n: nat)
    ensures n == (n / 64) * 64 + n % 64
    ensures (n / 64) / 64 == n / 4096 && (n / 4096) / 64 == n / 262144
  {
  }

  /** Decoding one character's bytes gives the character back. */
  lemma Utf8CharDecodes(c: char)
    ensures LeadLength(Utf8Char(c)[0]) == |Utf8Char(c)|
    ensures forall j :: 1 <= j < |Utf8Char(c)| ==> IsContinuation(Utf8Char(c)[j])
    ensures CodePoint(Utf8Char(c)) == c as int
  {
    var n := c as int;
    Split64(n);
    Split64(n / 64);
    Split64(n / 4096);
  }

  lemma {:induction false} Utf8RoundTrip(s: string)
    ensures Utf8Decode(Utf8(s)) == Some(s)
  {
    if s != [] {
      var head := Utf8Char(s[0]);
      var bs := Utf8(s);
      Utf8CharDecodes(s[0]);
      assert bs == head + Utf8(s[1..]);
      var k := |head|;
      assert bs[..k] == head;
      assert bs[k..] == Utf8(s[1..]);
      assert forall j :: 1 <= j < k ==> bs[j] == head[j];
      Utf8RoundTrip(s[1..]);
      assert s == [s[0]] + s[1..];
    }
  }

  // ---------------------------------------------------------------- percent layer

  datatype Profile = PythonQuote | UriComponent

  /** The characters a profile writes as themselves; all are ASCII and none is "%". */
  predicate Kept(p: Profile, c: char) {
    IsAsciiLetter(c) || IsDigit(c) ||
    match p
      case PythonQuote => c == '-' || c == '.' || c == '_' || c == '~' || c == '/'
      case UriComponent => c == '-' || c == '.' || c == '_' || c == '~' || c == '!'
                           || c == '*' || c == '\'' || c == '(' || c == ')'
  }

  function HexDigit(d: nat): char
    requires d < 16
  {
    "0123456789ABCDEF"[d]
  }

  function HexValue(c: char): Option<nat> {
    if '0' <= c <= '9' then Some(c as int - '0' as int)
    else if 'A' <= c <= 'F' then Some(c as int - 'A' as int + 10)
    else if 'a' <= c <= 'f' then Some(c as int - 'a' as int + 10)
    else None
  }

  function EncodeByte(p: Profile, b: Byte): string {
    if b < 0x80 && Kept(p, b as char) then [b as char]
    else ['%', HexDigit(b / 16), HexDigit(b % 16)]
  }

  function EncodeBytes(p: Profile, bs: seq<Byte>): string {
    if bs == [] then "" else EncodeByte(p, bs[0]) + EncodeBytes(p, bs[1..])
  }

  /** The percent-encoding of a text under a profile. */
  function Encode(p: Profile, s: string): string {
    EncodeBytes(p, Utf8(s))
  }

  /** `urllib.parse.quote(s)` with its default `safe='/'`. */
  function Quote(s: string): string {
    Encode(PythonQuote, s)
  }

  /** `encodeURIComponent(s)`. */
  function EncodeUriComponent(s: string): string {
    Encode(UriComponent, s)
  }

  function DecodeBytes(t: string): Option<seq<Byte>>
    decreases |t|
  {
    if t == [] then Some([])
    else if t[0] == '%' then
      if |t| >= 3 && HexValue(t[1]).Some? && HexValue(t[2]).Some?
         && HexValue(t[1]).value < 16 && HexValue(t[2]).value < 16 then
        match DecodeBytes(t[3..])
          case None => None
          case Some(rest) => Some([HexValue(t[1]).value * 16 + HexValue(t[2]).value] + rest)
      else None
    else if t[0] as int < 0x80 then
      match DecodeBytes(t[1..])
        case None => None
        case Some(rest) => Some([t[0] as int] + rest)
    else None
  }

  /** Percent-decoding followed by UTF-8 decoding. */
  function Decode(t: string): Option<string> {
    match DecodeBytes(t)
      case None => None
      case Some(bs) => Utf8Decode(bs)
  }

  lemma HexRoundTrip(d: nat)
    requires d < 16
    ensures HexValue(HexDigit(d)) == Some(d)
  {
  }

  /** Decoding reads one encoded byte back and goes on with the rest. */
  lemma DecodeByteStep(p: Profile, b: Byte, rest: string)
    ensures DecodeBytes(EncodeByte(p, b) + rest) ==
      match DecodeBytes(rest)
        case None => None
        case Some(r) => Some([b] + r)
  {
    var t := EncodeByte(p, b) + rest;
    if b < 0x80 && Kept(p, b as char) {
      assert t[0] == b as char && t[0] != '%';
      assert t[1..] == rest;
    } else {
      HexRoundTrip(b / 16);
      HexRoundTrip(b % 16);
      assert t[0] == '%' && t[1] == HexDigit(b / 16) && t[2] == HexDigit(b % 16);
      assert t[3..] == rest;
    }
  }

  lemma {:induction false} DecodeEncodeBytes(p: Profile, bs: seq<Byte>)
    ensures DecodeBytes(EncodeBytes(p, bs)) == Some(bs)
  {
    if bs != [] {
      DecodeEncodeBytes(p, bs[1..]);
      DecodeByteStep(p, bs[0], EncodeBytes(p, bs[1..]));
      assert bs == [bs[0]] + bs[1..];
    }
  }

  /** Decoding undoes encoding, under either profile. */
  lemma RoundTrip(p: Profile, s: string)
    ensures Decode(Encode(p, s)) == Some(s)
  {
    DecodeEncodeBytes(p, Utf8(s));
    Utf8RoundTrip(s);
  }

  /** Percent-encoding is injective: different names never share an encoding. */
  lemma EncodeInjective(p: Profile, s: string, t: string)
    ensures Encode(p, s) == Encode(p, t) ==> s == t
  {
    RoundTrip(p, s);
    RoundTrip(p, t);
  }

  /** A text made only of kept characters is written unchanged. */
  lemma {:induction false} EncodeKeptText(p: Profile, s: string)
    requires forall i :: 0 <= i < |s| ==> s[i] as int < 0x80 && Kept(p, s[i])
    ensures Encode(p, s) == s
  {
    if s != [] {
      EncodeKeptText(p, s[1..]);
      assert Utf8(s) == [s[0] as int] + Utf8(s[1..]);
      assert EncodeBytes(p, Utf8(s)) == [s[0]] + EncodeBytes(p, Utf8(s[1..]));
    }
  }
}
