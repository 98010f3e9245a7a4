/**
 * `encodeURIComponent` (ECMAScript 2015, section 18.2.6.5, by way of the
 * Encode operation of section 18.2.6.1.1 with uriUnreserved as the
 * unescaped set) and its inverse `decodeURIComponent` (section 18.2.6.3,
 * the Decode operation of section 18.2.6.1.2 with an empty reserved set).
 *
 * A Dafny `char` is a Unicode scalar value, so every character has a UTF-8
 * encoding and the URIError that JavaScript raises for a lone surrogate
 * cannot arise here.
 */
module UriEncoding {
  import opened Wrappers

  /** uriUnreserved: uriAlpha, DecimalDigit and uriMark `- _ . ! ~ * ' ( )`. */
  predicate IsUnreserved(c: char)
  {
    || ('A' <= c <= 'Z')
    || ('a' <= c <= 'z')
    || ('0' <= c <= '9')
    || c == '-' || c == '_' || c == '.' || c == '!' || c == '~'
    || c == '*' || c == '\'' || c == '(' || c == ')'
  }

  const HexDigits: string := "0123456789ABCDEF"

  function HexChar(d: nat): (c: char)
    requires d < 16
    ensures IsUnreserved(c)
  {
    HexDigits[d]
  }

  /** The value of a hexadecimal digit of either case. */
  function HexValue(c: char): Option<nat>
  {
    if '0' <= c <= '9' then Some(c as int - '0' as int)
    else if 'A' <= c <= 'F' then Some(c as int - 'A' as int + 10)
    else if 'a' <= c <= 'f' then Some(c as int - 'a' as int + 10)
    else None
  }

  lemma HexRoundTrip(d: nat)
    requires d < 16
    ensures HexValue(HexChar(d)) == Some(d)
  {
  }

  /** A code point that is a Unicode scalar value. */
  predicate IsScalar(cp: int)
  {
    0 <= cp < 0xD800 || 0xE000 <= cp < 0x110000
  }

  /** The UTF-8 octets of a code point (Table 3 of section 18.2.6.1.1). */
  function Utf8(cp: nat): (bytes: seq<nat>)
    requires cp < 0x110000
    ensures 1 <= |bytes| <= 4
    ensures forall k | 0 <= k < |bytes| :: bytes[k] < 256
  {
    if cp < 0x80 then [cp]
    else if cp < 0x800 then [0xC0 + cp / 64, 0x80 + cp % 64]
    else if cp < 0x10000 then [0xE0 + cp / 4096, 0x80 + (cp / 64) % 64, 0x80 + cp % 64]
    else [0xF0 + cp / 262144, 0x80 + (cp / 4096) % 64, 0x80 + (cp / 64) % 64, 0x80 + cp % 64]
  }

  /** `%XY` for each octet, with upper-case hexadecimal digits. */
  function PercentEncode(bytes: seq<nat>): (r: string)
    requires forall k | 0 <= k < |bytes| :: bytes[k] < 256
    ensures |r| == 3 * |bytes|
    ensures forall k | 0 <= k < |r| :: IsUnreserved(r[k]) || r[k] == '%'
  {
    if |bytes| == 0 then ""
    else ['%', HexChar(bytes[0] / 16), HexChar(bytes[0] % 16)] + PercentEncode(bytes[1..])
  }

  function EncodeChar(c: char): (r: string)
    ensures |r| > 0
    ensures forall k | 0 <= k < |r| :: IsUnreserved(r[k]) || r[k] == '%'
  {
    if IsUnreserved(c) then [c] else PercentEncode(Utf8(c as int))
  }

  /** `encodeURIComponent(s)`: unreserved characters stay, every other
      character becomes the `%XY` escapes of its UTF-8 octets. The result is
      at least as long as `s` and holds only unreserved characters and `%`. */
  function EncodeUriComponent(s: string): (r: string)
    ensures |r| >= |s|
    ensures forall k | 0 <= k < |r| :: IsUnreserved(r[k]) || r[k] == '%'
  {
    if |s| == 0 then "" else EncodeChar(s[0]) + EncodeUriComponent(s[1..])
  }

  /** None of the characters that delimit placeholders or query pairs, nor
      the `$` of a replacement pattern, survives encoding. */
  lemma EncodedAlphabet(s: string)
    ensures var r := EncodeUriComponent(s);
      forall k | 0 <= k < |r| ::
        r[k] !in {'=', '&', '?', '{', '}', '$', ',', '#', ' '}
  {
    var r := EncodeUriComponent(s);
    forall k | 0 <= k < |r|
      ensures r[k] !in {'=', '&', '?', '{', '}', '$', ',', '#', ' '}
    {
      EscapedAlphabet(r[k]);
    }
  }

  lemma EscapedAlphabet(c: char)
    requires IsUnreserved(c) || c == '%'
    ensures c !in {'=', '&', '?', '{', '}', '$', ',', '#', ' '}
  {
  }

  // ---- decoding ----

  /** The octet written as `%XY` at the start of `s`, if there is one. */
  function OctetAt(s: string): Option<nat>
  {
    if |s| < 3 || s[0] != '%' then None
    else match (HexValue(s[1]), HexValue(s[2]))
      case (Some(hi), Some(lo)) => Some(16 * hi + lo)
      case _ => None
  }

  /** `n` escaped octets at the start of `s`. */
  function OctetsAt(s: string, n: nat): (r: Option<seq<nat>>)
    ensures r.Some? ==> |r.value| == n && 3 * n <= |s|
    decreases n
  {
    if n == 0 then Some([])
    else match OctetAt(s)
      case None => None
      case Some(b) =>
        match OctetsAt(s[3..], n - 1)
        case None => None
        case Some(bs) => Some([b] + bs)
  }

  /** How many octets a UTF-8 sequence with this leading octet has (0: none
      can start with it). */
  function SequenceLength(b: nat): nat
  {
    if b < 0x80 then 1
    else if b < 0xC0 then 0
    else if b < 0xE0 then 2
    else if b < 0xF0 then 3
    else if b < 0xF8 then 4
    else 0
  }

  /** The code point the payload bits of a 2- to 4-octet sequence spell. */
  function Payload(bytes: seq<nat>): int
    requires 2 <= |bytes| <= 4
  {
    var b: seq<int> := bytes;
    if |b| == 2 then (b[0] - 0xC0) * 64 + (b[1] - 0x80)
    else if |b| == 3 then (b[0] - 0xE0) * 4096 + (b[1] - 0x80) * 64 + (b[2] - 0x80)
    else (b[0] - 0xF0) * 262144 + (b[1] - 0x80) * 4096 + (b[2] - 0x80) * 64 + (b[3] - 0x80)
  }

  /** The character a multi-octet sequence encodes, when it is the valid
      (shortest, non-surrogate) UTF-8 encoding of one. */
  function DecodeSequence(bytes: seq<nat>): Option<char>
    requires 2 <= |bytes| <= 4
  {
    var cp := Payload(bytes);
    if IsScalar(cp) && Utf8(cp) == bytes then Some(cp as char) else None
  }

  function Prepend(c: char, rest: Option<string>): Option<string>
  {
    match rest
    case None => None
    case Some(t) => Some([c] + t)
  }

  /** `decodeURIComponent(s)`, None standing for the URIError thrown for a
      malformed escape or an invalid UTF-8 sequence. */
  function DecodeUriComponent(s: string): Option<string>
    decreases |s|
  {
    if |s| == 0 then Some("")
    else if s[0] != '%' then Prepend(s[0], DecodeUriComponent(s[1..]))
    else match OctetAt(s)
      case None => None
      case Some(b) =>
        var n := SequenceLength(b);
        if n == 1 then Prepend(b as char, DecodeUriComponent(s[3..]))
        else if n == 0 then None
        else match OctetsAt(s, n)
          case None => None
          case Some(bytes) =>
            match DecodeSequence(bytes)
            case None => None
            case Some(c) => Prepend(c, DecodeUriComponent(s[3 * n..]))
  }

  // ---- round trip ----

  lemma OctetOfEscape(b: nat, rest: string)
    requires b < 256
    ensures OctetAt(['%', HexChar(b / 16), HexChar(b % 16)] + rest) == Some(b)
  {
    var s := ['%', HexChar(b / 16), HexChar(b % 16)] + rest;
    HexRoundTrip(b / 16);
    HexRoundTrip(b % 16);
    assert s[0] == '%' && s[1] == HexChar(b / 16) && s[2] == HexChar(b % 16);
  }

  lemma {:induction false} OctetsOfPercentEncode(bytes: seq<nat>, rest: string)
    requires forall k | 0 <= k < |bytes| :: bytes[k] < 256
    ensures OctetsAt(PercentEncode(bytes) + rest, |bytes|) == Some(bytes)
  {
    if |bytes| > 0 {
      var b := bytes[0];
      var escape := ['%', HexChar(b / 16), HexChar(b % 16)];
      var more := PercentEncode(bytes[1..]);
      var tail := more + rest;
      var s := PercentEncode(bytes) + rest;
      assert PercentEncode(bytes) == escape + more;
      EscapeThen(escape, more, rest);
      OctetOfEscape(b, tail);
      OctetsOfPercentEncode(bytes[1..], rest);
      assert [b] + bytes[1..] == bytes;
    }
  }

  lemma EscapeThen(escape: string, more: string, rest: string)
    requires |escape| == 3
    ensures (escape + more) + rest == escape + (more + rest)
    ensures ((escape + more) + rest)[3..] == more + rest
  {
  }

  /** The payload of an encoding is the code point encoded, and its leading
      octet announces its length. */
  lemma Utf8Inverse(cp: nat)
    requires 0x80 <= cp < 0x110000
    ensures 2 <= |Utf8(cp)| <= 4
    ensures Payload(Utf8(cp)) == cp
    ensures SequenceLength(Utf8(cp)[0]) == |Utf8(cp)|
  {
    if cp < 0x800 {
      assert cp == (cp / 64) * 64 + cp % 64;
    } else if cp < 0x10000 {
      assert cp / 64 == (cp / 4096) * 64 + (cp / 64) % 64;
      assert cp == (cp / 64) * 64 + cp % 64;
    } else {
      assert cp / 4096 == (cp / 262144) * 64 + (cp / 4096) % 64;
      assert cp / 64 == (cp / 4096) * 64 + (cp / 64) % 64;
      assert cp == (cp / 64) * 64 + cp % 64;
    }
  }

  /** Decoding an encoded character followed by anything yields the
      character followed by the decoding of the rest. */
  lemma DecodeEncodedChar(c: char, rest: string)
    ensures DecodeUriComponent(EncodeChar(c) + rest) == Prepend(c, DecodeUriComponent(rest))
  {
    if IsUnreserved(c) {
      DecodeUnescaped(c, rest);
    } else if c as int < 0x80 {
      EscapeFacts(c, rest);
      DecodeOneEscape(c, rest);
    } else {
      EscapeFacts(c, rest);
      DecodeEscapes(c, rest);
    }
  }

  lemma DecodeUnescaped(c: char, rest: string)
    requires IsUnreserved(c)
    ensures DecodeUriComponent(EncodeChar(c) + rest) == Prepend(c, DecodeUriComponent(rest))
  {
    var s := [c] + rest;
    assert s[0] == c && s[1..] == rest;
  }

  /** The escapes of a character that is not unreserved: the first octet
      is read back, then all of them, and the rest follows. */
  lemma EscapeFacts(c: char, rest: string)
    requires !IsUnreserved(c)
    ensures var bytes := Utf8(c as int);
      var s := EncodeChar(c) + rest;
      && s[0] == '%'
      && OctetAt(s) == Some(bytes[0])
      && OctetsAt(s, |bytes|) == Some(bytes)
      && s[3 * |bytes|..] == rest
  {
    EscapesOf(Utf8(c as int), rest);
  }

  lemma EscapesOf(bytes: seq<nat>, rest: string)
    requires 1 <= |bytes| && forall k | 0 <= k < |bytes| :: bytes[k] < 256
    ensures var s := PercentEncode(bytes) + rest;
      && s[0] == '%'
      && OctetAt(s) == Some(bytes[0])
      && OctetsAt(s, |bytes|) == Some(bytes)
      && s[3 * |bytes|..] == rest
  {
    var s := PercentEncode(bytes) + rest;
    OctetsOfPercentEncode(bytes, rest);
    FirstOctet(s, |bytes|, bytes);
    assert s[|PercentEncode(bytes)|..] == rest;
  }

  /** Reading several octets starts by reading the first. */
  lemma FirstOctet(s: string, n: nat, bs: seq<nat>)
    requires n >= 1 && OctetsAt(s, n) == Some(bs)
    ensures s[0] == '%' && OctetAt(s) == Some(bs[0])
  {
  }

  lemma DecodeOneEscape(c: char, rest: string)
    requires !IsUnreserved(c) && c as int < 0x80
    requires var s := EncodeChar(c) + rest;
      s[0] == '%' && OctetAt(s) == Some(c as int) && s[3..] == rest
    ensures DecodeUriComponent(EncodeChar(c) + rest) == Prepend(c, DecodeUriComponent(rest))
  {
    assert SequenceLength(c as int) == 1;
  }

  lemma DecodeEscapes(c: char, rest: string)
    requires !IsUnreserved(c) && c as int >= 0x80
    requires var bytes := Utf8(c as int);
      var s := EncodeChar(c) + rest;
      && s[0] == '%'
      && OctetAt(s) == Some(bytes[0])
      && OctetsAt(s, |bytes|) == Some(bytes)
      && s[3 * |bytes|..] == rest
    ensures DecodeUriComponent(EncodeChar(c) + rest) == Prepend(c, DecodeUriComponent(rest))
  {
    var bytes := Utf8(c as int);
    Utf8Inverse(c as int);
    assert DecodeSequence(bytes) == Some(c);
  }

  /** `decodeURIComponent(encodeURIComponent(s)) === s`. */
  lemma {:induction false} DecodeEncode(s: string)
    ensures DecodeUriComponent(EncodeUriComponent(s)) == Some(s)
  {
    if |s| > 0 {
      DecodeEncodedChar(s[0], EncodeUriComponent(s[1..]));
      DecodeEncode(s[1..]);
      assert [s[0]] + s[1..] == s;
    }
  }
}
