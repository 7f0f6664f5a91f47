/**
 * `encodeURIComponent` and `decodeURIComponent` as ECMAScript defines them:
 * every character outside the unreserved set is written as the `%XX` escapes
 * of its UTF-8 bytes, and decoding reverses that, failing (a `URIError`) on a
 * malformed escape or an invalid UTF-8 sequence.
 */
module Uri {
  import opened Wrappers

  /** The characters `encodeURIComponent` leaves as they are. */
  predicate Unreserved(c: char) {
    ('A' <= c <= 'Z') || ('a' <= c <= 'z') || ('0' <= c <= '9')
    || c == '-' || c == '_' || c == '.' || c == '!' || c == '~' || c == '*'
    || c == '\'' || c == '(' || c == ')'
  }

  predicate IsHexDigit(c: char) {
    ('0' <= c <= '9') || ('A' <= c <= 'F') || ('a' <= c <= 'f')
  }

  function HexValue(c: char): (v: Option<nat>)
    ensures v.Some? <==> IsHexDigit(c)
    ensures v.Some? ==> v.value < 16
  {
    if '0' <= c <= '9' then Some(c as int - '0' as int)
    else if 'A' <= c <= 'F' then Some(c as int - 'A' as int + 10)
    else if 'a' <= c <= 'f' then Some(c as int - 'a' as int + 10)
    else None
  }

  /** The upper-case hexadecimal digit `encodeURIComponent` writes. */
  function HexDigit(d: nat): (c: char)
    requires d < 16
    ensures IsHexDigit(c) && HexValue(c) == Some(d)
  {
    if d < 10 then ('0' as int + d) as char else ('A' as int + d - 10) as char
  }

  predicate IsByte(b: nat) {
    b < 256
  }

  predicate IsContinuation(b: nat) {
    0x80 <= b < 0xC0
  }

  /** The UTF-8 encoding of a code point. */
  function Utf8(c: char): (bytes: seq<nat>)
    ensures 1 <= |bytes| <= 4
    ensures forall i :: 0 <= i < |bytes| ==> IsByte(bytes[i])
  {
    var n := c as int;
    var q := n / 64;
    var p := q / 64;
    if n < 0x80 then [n]
    else if n < 0x800 then [0xC0 + q, 0x80 + n % 64]
    else if n < 0x10000 then [0xE0 + p, 0x80 + q % 64, 0x80 + n % 64]
    else [0xF0 + p / 64, 0x80 + p % 64, 0x80 + q % 64, 0x80 + n % 64]
  }

  /** How many bytes a sequence starting with this byte has; 0 when it cannot start one. */
  function SequenceLength(lead: nat): nat {
    if lead < 0x80 then 1
    else if lead < 0xC0 then 0
    else if lead < 0xE0 then 2
    else if lead < 0xF0 then 3
    else if lead < 0xF8 then 4
    else 0
  }

  /** The code point a well-formed UTF-8 sequence denotes; `None` for overlong forms, surrogates and values past U+10FFFF. */
  function Utf8Decode(bytes: seq<nat>): Option<char> {
    if |bytes| == 1 then
      if bytes[0] < 0x80 then Some(bytes[0] as char) else None
    else if |bytes| == 2 then
      if 0xC0 <= bytes[0] < 0xE0 && IsContinuation(bytes[1]) then
        var n := (bytes[0] - 0xC0) * 64 + (bytes[1] - 0x80);
        if 0x80 <= n then Some(n as char) else None
      else None
    else if |bytes| == 3 then
      if 0xE0 <= bytes[0] < 0xF0 && IsContinuation(bytes[1]) && IsContinuation(bytes[2]) then
        var n := (bytes[0] - 0xE0) * 4096 + (bytes[1] - 0x80) * 64 + (bytes[2] - 0x80);
        if 0x800 <= n && !(0xD800 <= n < 0xE000) then Some(n as char) else None
      else None
    else if |bytes| == 4 then
      if 0xF0 <= bytes[0] < 0xF8 && IsContinuation(bytes[1]) && IsContinuation(bytes[2])
         && IsContinuation(bytes[3]) then
        var n := (bytes[0] - 0xF0) * 262144 + (bytes[1] - 0x80) * 4096
                 + (bytes[2] - 0x80) * 64 + (bytes[3] - 0x80);
        if 0x10000 <= n < 0x110000 then Some(n as char) else None
      else None
    else None
  }

  lemma Utf8RoundTrip(c: char)
    ensures SequenceLength(Utf8(c)[0]) == |Utf8(c)|
    ensures Utf8Decode(Utf8(c)) == Some(c)
  {
    var n := c as int;
    var q := n / 64;
    var p := q / 64;
    assert n == 64 * q + n % 64;
    assert q == 64 * p + q % 64;
    assert p == 64 * (p / 64) + p % 64;
  }

  // ---------------------------------------------------------------------------
  // encoding

  function EncodeByte(b: nat): (r: string)
    requires IsByte(b)
    ensures |r| == 3 && r[0] == '%' && IsHexDigit(r[1]) && IsHexDigit(r[2])
  {
    ['%', HexDigit(b / 16), HexDigit(b % 16)]
  }

  function EncodeBytes(bytes: seq<nat>): (r: string)
    requires forall i :: 0 <= i < |bytes| ==> IsByte(bytes[i])
    ensures |r| == 3 * |bytes|
    ensures forall i :: 0 <= i < |r| ==> r[i] == '%' || IsHexDigit(r[i])
  {
    if bytes == [] then [] else EncodeByte(bytes[0]) + EncodeBytes(bytes[1..])
  }

  function EncodeChar(c: char): string {
    if Unreserved(c) then [c] else EncodeBytes(Utf8(c))
  }

  /** `encodeURIComponent(s)`: the result holds no `?`, so nothing after it is read as a query. */
  function EncodeURIComponent(s: string): (r: string)
    ensures '?' !in r
  {
    if s == [] then [] else EncodeChar(s[0]) + EncodeURIComponent(s[1..])
  }

  // ---------------------------------------------------------------------------
  // decoding

  /** The byte written as `%XX` at the start of `s`, if there is one. */
  function ByteAt(s: string): (b: Option<nat>)
    ensures b.Some? ==> |s| >= 3 && IsByte(b.value)
  {
    if |s| >= 3 && s[0] == '%' && HexValue(s[1]).Some? && HexValue(s[2]).Some? then
      Some(HexValue(s[1]).value * 16 + HexValue(s[2]).value)
    else None
  }

  /** `k` consecutive `%XX` escapes at the start of `s`. */
  function ReadBytes(s: string, k: nat): (r: Option<seq<nat>>)
    ensures r.Some? ==> |r.value| == k && |s| >= 3 * k
  {
    if k == 0 then Some([])
    else match ByteAt(s)
      case None => None
      case Some(b) =>
        match ReadBytes(s[3..], k - 1)
        case None => None
        case Some(rest) => Some([b] + rest)
  }

  function Prepend(p: string, r: Option<string>): Option<string> {
    match r
    case None => None
    case Some(t) => Some(p + t)
  }

  /** `decodeURIComponent(s)`; `None` where it throws `URIError`. */
  function DecodeURIComponent(s: string): Option<string>
    decreases |s|
  {
    if s == [] then Some([])
    else if s[0] != '%' then Prepend([s[0]], DecodeURIComponent(s[1..]))
    else match ByteAt(s)
      case None => None
      case Some(lead) =>
        var k := SequenceLength(lead);
        if k == 0 then None
        else match ReadBytes(s, k)
          case None => None
          case Some(bytes) =>
            match Utf8Decode(bytes)
            case None => None
            case Some(c) => Prepend([c], DecodeURIComponent(s[3 * k..]))
  }

  // ---------------------------------------------------------------------------
  // the round trip

  lemma {:induction false} ReadEncodedBytes(bytes: seq<nat>, t: string)
    requires forall i :: 0 <= i < |bytes| ==> IsByte(bytes[i])
    ensures ReadBytes(EncodeBytes(bytes) + t, |bytes|) == Some(bytes)
  {
    if bytes != [] {
      var s := EncodeBytes(bytes) + t;
      var b := bytes[0];
      assert s == EncodeByte(b) + (EncodeBytes(bytes[1..]) + t);
      assert b == (b / 16) * 16 + b % 16;
      assert ByteAt(s) == Some(b);
      assert s[3..] == EncodeBytes(bytes[1..]) + t;
      ReadEncodedBytes(bytes[1..], t);
      assert [b] + bytes[1..] == bytes;
    }
  }

  lemma DecodeEncodedChar(c: char, t: string)
    ensures DecodeURIComponent(EncodeChar(c) + t) == Prepend([c], DecodeURIComponent(t))
  {
    var s := EncodeChar(c) + t;
    if Unreserved(c) {
      assert s[1..] == t;
    } else {
      var bytes := Utf8(c);
      Utf8RoundTrip(c);
      ReadEncodedBytes(bytes, t);
      ReadEncodedBytes(bytes[..1], EncodeBytes(bytes[1..]) + t);
      assert bytes[..1] + bytes[1..] == bytes;
      assert EncodeBytes(bytes) == EncodeBytes(bytes[..1]) + EncodeBytes(bytes[1..]);
      assert ByteAt(s) == Some(bytes[0]);
      assert s[3 * |bytes|..] == t;
    }
  }

  /** `decodeURIComponent(encodeURIComponent(s)) == s` for every string. */
  lemma {:induction false} DecodeEncode(s: string)
    ensures DecodeURIComponent(EncodeURIComponent(s)) == Some(s)
  {
    if s != [] {
      DecodeEncode(s[1..]);
      DecodeEncodedChar(s[0], EncodeURIComponent(s[1..]));
      assert [s[0]] + s[1..] == s;
    }
  }

  /** Text without `%` decodes to itself, whatever follows it. */
  lemma {:induction false} DecodePlainPrefix(p: string, t: string)
    requires '%' !in p
    ensures DecodeURIComponent(p + t) == Prepend(p, DecodeURIComponent(t))
  {
    if p == [] {
      assert p + t == t;
      if DecodeURIComponent(t).Some? {
        assert p + DecodeURIComponent(t).value == DecodeURIComponent(t).value;
      }
    } else {
      assert (p + t)[1..] == p[1..] + t;
      DecodePlainPrefix(p[1..], t);
      if DecodeURIComponent(t).Some? {
        var x := DecodeURIComponent(t).value;
        assert [p[0]] + (p[1..] + x) == p + x;
      }
    }
  }
}
