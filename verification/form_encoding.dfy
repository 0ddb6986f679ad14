/**
 * The application/x-www-form-urlencoded format of the WHATWG URL Standard
 * (section 5), as URLSearchParams#toString produces it, together with the
 * standard's parser, so that the serialisation can be shown to lose nothing.
 *
 * Serialisation UTF-8 encodes every character; the bytes of ASCII letters,
 * digits and `*-._` are kept, a space becomes `+`, and every other byte is
 * written `%XY` with upper-case hexadecimal digits.
 */
module FormEncoding {
  import opened Wrappers

  type Byte = x: int | 0 <= x < 256

  // UTF-8 (RFC 3629, section 3).

  /** The UTF-8 encoding of one Unicode scalar value. */
  function EncodeScalar(c: char): (r: seq<Byte>)
    ensures 1 <= |r| <= 4
    ensures (c as int < 0x80) <==> |r| == 1
    ensures |r| == 1 ==> r[0] == c as int
  {
    var n := c as int;
    if n < 0x80 then [n]
    else if n < 0x800 then [0xC0 + n / 64, 0x80 + n % 64]
    else if n < 0x10000 then [0xE0 + n / 4096, 0x80 + (n / 64) % 64, 0x80 + n % 64]
    else [0xF0 + n / 262144, 0x80 + (n / 4096) % 64, 0x80 + (n / 64) % 64, 0x80 + n % 64]
  }

  /** The UTF-8 encoding of a string. */
  function EncodeUtf8(s: string): seq<Byte> {
    if |s| == 0 then [] else EncodeScalar(s[0]) + EncodeUtf8(s[1..])
  }

  predicate IsContinuation(b: Byte) {
    0x80 <= b < 0xC0
  }

  /**
   * The scalar value a well-formed UTF-8 sequence starts with, and the number
   * of bytes it takes; `None` for an ill-formed start (a stray continuation
   * byte, a truncated sequence, an overlong form, a surrogate, a value beyond
   * U+10FFFF).
   */
  function DecodeScalar(b: seq<Byte>): (r: Option<(char, nat)>)
    ensures r.Some? ==> 1 <= r.value.1 <= |b|
  {
    if |b| == 0 then None
    else if b[0] < 0x80 then Some((b[0] as char, 1))
    else if 0xC0 <= b[0] < 0xE0 && |b| >= 2 && IsContinuation(b[1]) then
      var n := (b[0] as int - 0xC0) * 64 + (b[1] as int - 0x80);
      if n >= 0x80 then Some((n as char, 2)) else None
    else if 0xE0 <= b[0] < 0xF0 && |b| >= 3 && IsContinuation(b[1]) && IsContinuation(b[2]) then
      var n := (b[0] as int - 0xE0) * 4096 + (b[1] as int - 0x80) * 64 + (b[2] as int - 0x80);
      if n >= 0x800 && !(0xD800 <= n < 0xE000) then Some((n as char, 3)) else None
    else if 0xF0 <= b[0] < 0xF8 && |b| >= 4 && IsContinuation(b[1]) && IsContinuation(b[2])
         && IsContinuation(b[3]) then
      var n := (b[0] as int - 0xF0) * 262144 + (b[1] as int - 0x80) * 4096 + (b[2] as int - 0x80) * 64
        + (b[3] as int - 0x80);
      if 0x10000 <= n < 0x110000 then Some((n as char, 4)) else None
    else None
  }

  /** Strict UTF-8 decoding: `None` when the bytes are not well formed. */
  function DecodeUtf8(b: seq<Byte>): Option<string>
    decreases |b|
  {
    if |b| == 0 then Some("")
    else
      match DecodeScalar(b)
      case None => None
      case Some((c, k)) =>
        match DecodeUtf8(b[k..])
        case None => None
        case Some(rest) => Some([c] + rest)
  }

  lemma ThreeByteSplit(n: int)
    requires 0 <= n
    ensures n == (n / 4096) * 4096 + ((n / 64) % 64) * 64 + n % 64
  {
    assert n == (n / 64) * 64 + n % 64;
    assert n / 64 == ((n / 64) / 64) * 64 + (n / 64) % 64;
    assert (n / 64) / 64 == n / 4096;
  }

  lemma FourByteSplit(n: int)
    requires 0 <= n
    ensures n == (n / 262144) * 262144 + ((n / 4096) % 64) * 4096 + ((n / 64) % 64) * 64 + n % 64
  {
    ThreeByteSplit(n);
    assert n / 4096 == ((n / 4096) / 64) * 64 + (n / 4096) % 64;
    assert (n / 4096) / 64 == n / 262144;
  }

  /** Decoding reads back exactly the scalar value an encoding starts with. */
  lemma DecodeEncodedScalar(c: char, rest: seq<Byte>)
    ensures DecodeScalar(EncodeScalar(c) + rest) == Some((c, |EncodeScalar(c)|))
  {
    var n := c as int;
    var b := EncodeScalar(c) + rest;
    if n < 0x80 {
    } else if n < 0x800 {
      assert n == (n / 64) * 64 + n % 64;
    } else if n < 0x10000 {
      ThreeByteSplit(n);
    } else {
      FourByteSplit(n);
    }
  }

  /** UTF-8 decoding inverts UTF-8 encoding. */
  lemma {:induction false} Utf8RoundTrip(s: string)
    ensures DecodeUtf8(EncodeUtf8(s)) == Some(s)
  {
    if |s| > 0 {
      var e := EncodeScalar(s[0]);
      DecodeEncodedScalar(s[0], EncodeUtf8(s[1..]));
      assert (e + EncodeUtf8(s[1..]))[|e|..] == EncodeUtf8(s[1..]);
      Utf8RoundTrip(s[1..]);
      assert [s[0]] + s[1..] == s;
    }
  }

  // Percent-encoding.

  /** Bytes (and characters) the form serialiser leaves as they are. */
  predicate IsUnreserved(c: char) {
    ('a' <= c <= 'z') || ('A' <= c <= 'Z') || ('0' <= c <= '9')
    || c == '*' || c == '-' || c == '.' || c == '_'
  }

  /** An upper-case hexadecimal digit. */
  function HexDigit(d: int): (r: char)
    requires 0 <= d < 16
  {
    if d < 10 then ('0' as int + d) as char else ('A' as int + d - 10) as char
  }

  /** The value of a hexadecimal digit of either case. */
  function HexValue(c: char): Option<int> {
    if '0' <= c <= '9' then Some(c as int - '0' as int)
    else if 'A' <= c <= 'F' then Some(c as int - 'A' as int + 10)
    else if 'a' <= c <= 'f' then Some(c as int - 'a' as int + 10)
    else None
  }

  /** `%XY` for every byte. */
  function PercentEscape(bytes: seq<Byte>): string {
    if |bytes| == 0 then "" else ['%', HexDigit(bytes[0] / 16), HexDigit(bytes[0] % 16)] + PercentEscape(bytes[1..])
  }

  /** The serialisation of one character. */
  function EncodeChar(c: char): string {
    if IsUnreserved(c) then [c] else if c == ' ' then "+" else PercentEscape(EncodeScalar(c))
  }

  /** The form serialisation of a string (the percent-encode step of section 5.2 of the URL Standard). */
  function Encode(s: string): string {
    if |s| == 0 then "" else EncodeChar(s[0]) + Encode(s[1..])
  }

  /** Characters that can appear in a serialised string. */
  predicate IsSerialChar(c: char) {
    IsUnreserved(c) || c == '+' || c == '%' || ('A' <= c <= 'F')
  }

  /**
   * A serialised string is plain ASCII drawn from letters, digits, `*-._`,
   * `+` and `%`: it never holds the `&`, `=`, `?` or `#` that delimit a query.
   */
  lemma {:induction false} EncodeAlphabet(s: string)
    ensures forall i :: 0 <= i < |Encode(s)| ==> IsSerialChar(Encode(s)[i])
  {
    if |s| > 0 {
      EncodeCharAlphabet(s[0]);
      EncodeAlphabet(s[1..]);
      SerialConcat(EncodeChar(s[0]), Encode(s[1..]));
    }
  }

  lemma EncodeCharAlphabet(c: char)
    ensures forall i :: 0 <= i < |EncodeChar(c)| ==> IsSerialChar(EncodeChar(c)[i])
  {
    EscapeAlphabet(EncodeScalar(c));
  }

  lemma SerialConcat(a: string, b: string)
    requires forall i :: 0 <= i < |a| ==> IsSerialChar(a[i])
    requires forall i :: 0 <= i < |b| ==> IsSerialChar(b[i])
    ensures forall i :: 0 <= i < |a + b| ==> IsSerialChar((a + b)[i])
  {
    forall i | 0 <= i < |a + b| ensures IsSerialChar((a + b)[i]) {
      if i < |a| { assert (a + b)[i] == a[i]; } else { assert (a + b)[i] == b[i - |a|]; }
    }
  }

  lemma {:induction false} EscapeAlphabet(bytes: seq<Byte>)
    ensures forall i :: 0 <= i < |PercentEscape(bytes)| ==> IsSerialChar(PercentEscape(bytes)[i])
  {
    if |bytes| > 0 {
      EscapeAlphabet(bytes[1..]);
      var a := ['%', HexDigit(bytes[0] / 16), HexDigit(bytes[0] % 16)];
      SerialConcat(a, PercentEscape(bytes[1..]));
    }
  }

  /**
   * The byte sequence of a serialised string, as the parser of section 5.1 of the URL Standard
   * reads it: `+` is a space byte, `%XY` is the byte 0xXY, a `%` not followed
   * by two hexadecimal digits is itself, and any other character contributes
   * its UTF-8 bytes.
   */
  function PercentBytes(t: string): seq<Byte>
    decreases |t|
  {
    if |t| == 0 then []
    else if t[0] == '+' then [0x20] + PercentBytes(t[1..])
    else if t[0] == '%' && |t| >= 3 && HexValue(t[1]).Some? && HexValue(t[2]).Some? then
      [HexValue(t[1]).value * 16 + HexValue(t[2]).value] + PercentBytes(t[3..])
    else EncodeScalar(t[0]) + PercentBytes(t[1..])
  }

  /** The parser's reading of a name or value (strict about ill-formed UTF-8). */
  function Decode(t: string): Option<string> {
    DecodeUtf8(PercentBytes(t))
  }

  lemma {:induction false} EscapeBytes(bytes: seq<Byte>, rest: string)
    ensures PercentBytes(PercentEscape(bytes) + rest) == bytes + PercentBytes(rest)
  {
    if |bytes| > 0 {
      var t := PercentEscape(bytes) + rest;
      var hi, lo := bytes[0] / 16, bytes[0] % 16;
      assert t == ['%', HexDigit(hi), HexDigit(lo)] + (PercentEscape(bytes[1..]) + rest);
      assert HexValue(HexDigit(hi)) == Some(hi);
      assert HexValue(HexDigit(lo)) == Some(lo);
      assert t[0] == '%' && t[1] == HexDigit(hi) && t[2] == HexDigit(lo);
      assert t[3..] == PercentEscape(bytes[1..]) + rest;
      assert PercentBytes(t) == [hi * 16 + lo] + PercentBytes(t[3..]);
      assert hi * 16 + lo == bytes[0];
      EscapeBytes(bytes[1..], rest);
      calc {
        PercentBytes(t);
        [bytes[0]] + PercentBytes(PercentEscape(bytes[1..]) + rest);
        [bytes[0]] + (bytes[1..] + PercentBytes(rest));
        { assert bytes == [bytes[0]] + bytes[1..]; }
        bytes + PercentBytes(rest);
      }
    } else {
      assert PercentEscape(bytes) + rest == rest;
    }
  }

  /** The bytes the parser reads from a character's serialisation are its UTF-8 bytes. */
  lemma EncodeCharBytes(c: char, rest: string)
    ensures PercentBytes(EncodeChar(c) + rest) == EncodeScalar(c) + PercentBytes(rest)
  {
    if IsUnreserved(c) {
      assert (EncodeChar(c) + rest)[1..] == rest;
    } else if c == ' ' {
      assert (EncodeChar(c) + rest)[1..] == rest;
    } else {
      EscapeBytes(EncodeScalar(c), rest);
    }
  }

  lemma {:induction false} EncodeBytes(s: string)
    ensures PercentBytes(Encode(s)) == EncodeUtf8(s)
  {
    if |s| > 0 {
      EncodeCharBytes(s[0], Encode(s[1..]));
      EncodeBytes(s[1..]);
    }
  }

  /** Parsing a serialised string gives back the string. */
  lemma EncodeRoundTrip(s: string)
    ensures Decode(Encode(s)) == Some(s)
  {
    EncodeBytes(s);
    Utf8RoundTrip(s);
  }

  // Lists of name-value pairs (sections 5.1 and 5.2 of the URL Standard).

  /** `s` split at every occurrence of `sep`. */
  function Split(s: string, sep: char): (r: seq<string>)
    ensures |r| >= 1
    decreases |s|
  {
    if |s| == 0 then [""]
    else
      var rest := Split(s[1..], sep);
      if s[0] == sep then [""] + rest else [[s[0]] + rest[0]] + rest[1..]
  }

  /** The parts joined with `sep` between consecutive ones. */
  function Join(parts: seq<string>, sep: char): string
    requires |parts| >= 1
  {
    if |parts| == 1 then parts[0] else parts[0] + [sep] + Join(parts[1..], sep)
  }

  /** A name-value pair `name=value`, with both halves serialised. */
  function SerializePair(p: (string, string)): string {
    Encode(p.0) + "=" + Encode(p.1)
  }

  /** URLSearchParams#toString: the serialised pairs joined by `&`. */
  function Serialize(pairs: seq<(string, string)>): string {
    if |pairs| == 0 then "" else Join(seq(|pairs|, i requires 0 <= i < |pairs| => SerializePair(pairs[i])), '&')
  }

  /** A segment `name=value` split at its first `=`; a segment without one is all name. */
  function SplitPair(segment: string): (string, string)
    decreases |segment|
  {
    if |segment| == 0 then ("", "")
    else if segment[0] == '=' then ("", segment[1..])
    else
      var rest := SplitPair(segment[1..]);
      ([segment[0]] + rest.0, rest.1)
  }

  /** The parser of section 5.1 of the URL Standard over already-split segments; empty segments are skipped. */
  function ParseSegments(segments: seq<string>): Option<seq<(string, string)>> {
    if |segments| == 0 then Some([])
    else
      match ParseSegments(segments[1..])
      case None => None
      case Some(rest) =>
        if segments[0] == "" then Some(rest)
        else
          var (name, value) := SplitPair(segments[0]);
          match (Decode(name), Decode(value))
          case (Some(n), Some(v)) => Some([(n, v)] + rest)
          case _ => None
  }

  /** The application/x-www-form-urlencoded parser (strict about ill-formed UTF-8). */
  function Parse(query: string): Option<seq<(string, string)>> {
    ParseSegments(Split(query, '&'))
  }

  lemma {:induction false} SplitPrefix(a: string, t: string, sep: char)
    requires forall i :: 0 <= i < |a| ==> a[i] != sep
    ensures Split(a + t, sep) == [a + Split(t, sep)[0]] + Split(t, sep)[1..]
    decreases |a|
  {
    if |a| > 0 {
      assert (a + t)[1..] == a[1..] + t;
      SplitPrefix(a[1..], t, sep);
      assert [a[0]] + (a[1..] + Split(t, sep)[0]) == a + Split(t, sep)[0];
    } else {
      assert a + t == t;
      assert a + Split(t, sep)[0] == Split(t, sep)[0];
      assert Split(t, sep) == [Split(t, sep)[0]] + Split(t, sep)[1..];
    }
  }

  /** Splitting undoes joining when no part contains the separator. */
  lemma {:induction false} SplitJoin(parts: seq<string>, sep: char)
    requires |parts| >= 1
    requires forall k, i :: 0 <= k < |parts| && 0 <= i < |parts[k]| ==> parts[k][i] != sep
    ensures Split(Join(parts, sep), sep) == parts
  {
    if |parts| == 1 {
      SplitPrefix(parts[0], "", sep);
      assert parts[0] + "" == parts[0];
    } else {
      SplitJoin(parts[1..], sep);
      var tail := [sep] + Join(parts[1..], sep);
      assert Join(parts, sep) == parts[0] + tail;
      SplitPrefix(parts[0], tail, sep);
      assert tail[1..] == Join(parts[1..], sep);
      assert Split(tail, sep) == [""] + parts[1..];
      assert parts[0] + "" == parts[0];
      assert parts == [parts[0]] + parts[1..];
    }
  }

  lemma {:induction false} SplitPairAt(name: string, value: string)
    requires forall i :: 0 <= i < |name| ==> name[i] != '='
    ensures SplitPair(name + "=" + value) == (name, value)
    decreases |name|
  {
    if |name| == 0 {
      assert name + "=" + value == ['='] + value;
      assert (name + "=" + value)[1..] == value;
    } else {
      assert (name + "=" + value)[1..] == name[1..] + "=" + value;
      SplitPairAt(name[1..], value);
      assert [name[0]] + name[1..] == name;
    }
  }

  /** A serialised pair is non-empty, holds no `&`, and splits back into its two halves. */
  lemma SerializedPairShape(p: (string, string))
    ensures SerializePair(p) != ""
    ensures forall i :: 0 <= i < |SerializePair(p)| ==> SerializePair(p)[i] != '&'
    ensures SplitPair(SerializePair(p)) == (Encode(p.0), Encode(p.1))
  {
    EncodeAlphabet(p.0);
    EncodeAlphabet(p.1);
    var s := SerializePair(p);
    forall i | 0 <= i < |s| ensures s[i] != '&' {
      if i < |Encode(p.0)| {
        assert s[i] == Encode(p.0)[i];
      } else if i > |Encode(p.0)| {
        assert s[i] == Encode(p.1)[i - |Encode(p.0)| - 1];
      }
    }
    SplitPairAt(Encode(p.0), Encode(p.1));
  }

  lemma {:induction false} ParseSerializedSegments(pairs: seq<(string, string)>)
    ensures ParseSegments(seq(|pairs|, i requires 0 <= i < |pairs| => SerializePair(pairs[i]))) == Some(pairs)
  {
    var segs := seq(|pairs|, i requires 0 <= i < |pairs| => SerializePair(pairs[i]));
    if |pairs| > 0 {
      assert segs[1..] == seq(|pairs| - 1, i requires 0 <= i < |pairs| - 1 => SerializePair(pairs[1..][i]));
      ParseSerializedSegments(pairs[1..]);
      SerializedPairShape(pairs[0]);
      EncodeRoundTrip(pairs[0].0);
      EncodeRoundTrip(pairs[0].1);
      assert [pairs[0]] + pairs[1..] == pairs;
    }
  }

  /** Parsing a serialised list of pairs gives back the list, names and values alike. */
  lemma SerializeRoundTrip(pairs: seq<(string, string)>)
    ensures Parse(Serialize(pairs)) == Some(pairs)
  {
    if |pairs| > 0 {
      var segs := seq(|pairs|, i requires 0 <= i < |pairs| => SerializePair(pairs[i]));
      forall k | 0 <= k < |segs| ensures forall i :: 0 <= i < |segs[k]| ==> segs[k][i] != '&' {
        SerializedPairShape(pairs[k]);
      }
      SplitJoin(segs, '&');
      ParseSerializedSegments(pairs);
    }
  }

  /** Characters that can appear in a serialised list of pairs. */
  predicate IsQueryChar(c: char) {
    IsSerialChar(c) || c == '=' || c == '&'
  }

  lemma PairAlphabet(p: (string, string))
    ensures forall i :: 0 <= i < |SerializePair(p)| ==> IsQueryChar(SerializePair(p)[i])
  {
    EncodeAlphabet(p.0);
    EncodeAlphabet(p.1);
    var s, n := SerializePair(p), Encode(p.0);
    forall i | 0 <= i < |s| ensures IsQueryChar(s[i]) {
      if i < |n| { assert s[i] == n[i]; } else if i > |n| { assert s[i] == Encode(p.1)[i - |n| - 1]; }
    }
  }

  lemma {:induction false} JoinAlphabet(parts: seq<string>)
    requires |parts| >= 1
    requires forall k, i :: 0 <= k < |parts| && 0 <= i < |parts[k]| ==> IsQueryChar(parts[k][i])
    ensures forall i :: 0 <= i < |Join(parts, '&')| ==> IsQueryChar(Join(parts, '&')[i])
  {
    if |parts| > 1 {
      JoinAlphabet(parts[1..]);
      var a, b := parts[0] + ['&'], Join(parts[1..], '&');
      assert Join(parts, '&') == a + b;
      forall i | 0 <= i < |a + b| ensures IsQueryChar((a + b)[i]) {
        if i < |parts[0]| { assert (a + b)[i] == parts[0][i]; }
        else if i > |parts[0]| { assert (a + b)[i] == b[i - |a|]; }
      }
    }
  }

  /**
   * A serialised list of pairs is drawn from the serialised-string alphabet
   * plus `=` and `&`: in particular it holds no `?` or `#`.
   */
  lemma SerializeAlphabet(pairs: seq<(string, string)>)
    ensures forall i :: 0 <= i < |Serialize(pairs)| ==> IsQueryChar(Serialize(pairs)[i])
  {
    if |pairs| > 0 {
      var segs := seq(|pairs|, i requires 0 <= i < |pairs| => SerializePair(pairs[i]));
      forall k | 0 <= k < |segs| ensures forall i :: 0 <= i < |segs[k]| ==> IsQueryChar(segs[k][i]) {
        PairAlphabet(pairs[k]);
      }
      JoinAlphabet(segs);
    }
  }
}
