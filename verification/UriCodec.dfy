/**
 encodeURIComponent and decodeURIComponent on UTF-16 strings, as section 19.2.6 of ECMA-262
 (URI handling functions), section 2.1 of RFC 3986 (percent-encoding) and section 3 of RFC 3629 (UTF-8)
 fix them. A thrown URIError is `None`.
 */
module UriCodec {
  import opened Basics

  /** A UTF-16 code unit; a JavaScript string is a sequence of them. */
  type Unit = n: nat | n < 0x10000
  type Text = seq<Unit>
  type Byte = n: nat | n < 0x100

  const PERCENT: Unit := 37
  const SLASH: Unit := 47

  predicate IsHigh(u: Unit) { 0xD800 <= u < 0xDC00 }
  predicate IsLow(u: Unit) { 0xDC00 <= u < 0xE000 }

  /** Every surrogate is paired. */
  predicate WellFormed(s: Text) {
    if s == [] then true
    else if IsHigh(s[0]) then |s| >= 2 && IsLow(s[1]) && WellFormed(s[2..])
    else !IsLow(s[0]) && WellFormed(s[1..])
  }

  predicate Scalar(cp: nat) { cp < 0xD800 || 0xE000 <= cp < 0x110000 }

  function Utf16(cp: nat): (s: Text)
    requires Scalar(cp)
    ensures s != []
  {
    if cp < 0x10000 then [cp]
    else [0xD800 + (cp - 0x10000) / 0x400, 0xDC00 + (cp - 0x10000) % 0x400]
  }

  function Supplementary(high: nat, low: nat): nat { 0x10000 + high * 0x400 + low }

  /** The code point a string starts with; None on a lone surrogate. */
  function FirstCodePoint(s: Text): (r: Option<nat>)
    requires s != []
    ensures r.Some? ==> Scalar(r.value) && |Utf16(r.value)| <= |s|
  {
    if IsHigh(s[0]) then
      if |s| >= 2 && IsLow(s[1]) then Some(Supplementary(s[0] - 0xD800, s[1] - 0xDC00)) else None
    else if IsLow(s[0]) then None
    else Some(s[0])
  }

  function Utf8(cp: nat): (bytes: seq<Byte>)
    requires Scalar(cp)
    ensures bytes != []
  {
    if cp < 0x80 then [cp]
    else if cp < 0x800 then [0xC0 + cp / 0x40, 0x80 + cp % 0x40]
    else if cp < 0x10000 then [0xE0 + cp / 0x40 / 0x40, 0x80 + cp / 0x40 % 0x40, 0x80 + cp % 0x40]
    else [0xF0 + cp / 0x40 / 0x40 / 0x40, 0x80 + cp / 0x40 / 0x40 % 0x40, 0x80 + cp / 0x40 % 0x40, 0x80 + cp % 0x40]
  }

  /** Upper-case hexadecimal, the canonical spelling of an escape. */
  function HexDigit(n: nat): (u: Unit)
    requires n < 16
    ensures HexValue(u) == Some(n) && u <= 70
  {
    if n < 10 then 48 + n else 55 + n
  }

  function HexValue(u: Unit): (r: Option<nat>)
    ensures r.Some? ==> r.value < 16
  {
    if 48 <= u <= 57 then Some(u - 48)
    else if 65 <= u <= 70 then Some(u - 55)
    else if 97 <= u <= 102 then Some(u - 87)
    else None
  }

  function Escape(b: Byte): Text { [PERCENT, HexDigit(b / 16), HexDigit(b % 16)] }

  function Escapes(bytes: seq<Byte>): (s: Text)
    ensures |s| == 3 * |bytes|
  {
    if bytes == [] then [] else Escape(bytes[0]) + Escapes(bytes[1..])
  }

  /** Letters, digits and the marks - _ . ! ~ * ' ( ) stay as they are. */
  predicate Unescaped(u: Unit) {
    48 <= u <= 57 || 65 <= u <= 90 || 97 <= u <= 122 || u in {45, 95, 46, 33, 126, 42, 39, 40, 41}
  }

  function Encode(s: Text): Option<Text> {
    if s == [] then Some([])
    else if Unescaped(s[0]) then Prepend([s[0]], Encode(s[1..]))
    else
      match FirstCodePoint(s)
      case None => None
      case Some(cp) => Prepend(Escapes(Utf8(cp)), Encode(s[|Utf16(cp)|..]))
  }

  function Prepend(head: Text, tail: Option<Text>): Option<Text> {
    if tail.None? then None else Some(head + tail.value)
  }

  function ReadOctet(s: Text): (r: Option<Byte>)
    ensures r.Some? ==> |s| >= 3
  {
    if |s| < 3 || s[0] != PERCENT || HexValue(s[1]).None? || HexValue(s[2]).None? then None
    else Some(16 * HexValue(s[1]).value + HexValue(s[2]).value)
  }

  function ReadOctets(s: Text, n: nat): (r: Option<seq<Byte>>)
    ensures r.Some? ==> |r.value| == n && |s| >= 3 * n
  {
    if n == 0 then Some([])
    else if ReadOctet(s).None? then None
    else
      var rest := ReadOctets(s[3..], n - 1);
      if rest.None? then None else Some([ReadOctet(s).value] + rest.value)
  }

  /** How many bytes the lead byte announces; 0 when no UTF-8 sequence starts with it. */
  function SequenceLength(lead: Byte): nat {
    if lead < 0x80 then 1
    else if 0xC0 <= lead < 0xE0 then 2
    else if 0xE0 <= lead < 0xF0 then 3
    else if 0xF0 <= lead < 0xF8 then 4
    else 0
  }

  predicate Continuation(b: Byte) { 0x80 <= b < 0xC0 }

  /** The code point of a UTF-8 sequence; None when overlong, a surrogate, or out of range. */
  function FromUtf8(b: seq<Byte>): (r: Option<nat>)
    ensures r.Some? ==> Scalar(r.value)
  {
    if |b| == 1 && b[0] < 0x80 then Some(b[0])
    else if |b| == 2 && 0xC0 <= b[0] < 0xE0 && Continuation(b[1]) then
      Ranged(Groups(0, 0, b[0] - 0xC0, b[1] - 0x80), 0x80)
    else if |b| == 3 && 0xE0 <= b[0] < 0xF0 && Continuation(b[1]) && Continuation(b[2]) then
      Ranged(Groups(0, b[0] - 0xE0, b[1] - 0x80, b[2] - 0x80), 0x800)
    else if |b| == 4 && 0xF0 <= b[0] < 0xF8 && Continuation(b[1]) && Continuation(b[2]) && Continuation(b[3]) then
      Ranged(Groups(b[0] - 0xF0, b[1] - 0x80, b[2] - 0x80, b[3] - 0x80), 0x10000)
    else None
  }

  /** Six-bit groups, most significant first. */
  function Groups(a: nat, b: nat, c: nat, d: nat): nat { ((a * 0x40 + b) * 0x40 + c) * 0x40 + d }

  function Ranged(cp: nat, least: nat): (r: Option<nat>)
    ensures r.Some? ==> Scalar(r.value)
  {
    if cp >= least && Scalar(cp) then Some(cp) else None
  }

  /** The code point and length of the escape sequence a string starts with. */
  function ReadEscape(s: Text): (r: Option<(nat, nat)>)
    ensures r.Some? ==> Scalar(r.value.0) && 3 <= r.value.1 <= |s|
  {
    if ReadOctet(s).None? then None
    else
      var n := SequenceLength(ReadOctet(s).value);
      if n == 0 then None
      else
        var octets := ReadOctets(s, n);
        if octets.None? then None
        else
          var cp := FromUtf8(octets.value);
          if cp.None? then None else Some((cp.value, 3 * n))
  }

  function Decode(s: Text): Option<Text> {
    if s == [] then Some([])
    else if s[0] != PERCENT then Prepend([s[0]], Decode(s[1..]))
    else
      match ReadEscape(s)
      case None => None
      case Some((cp, length)) => Prepend(Utf16(cp), Decode(s[length..]))
  }

  // ---------- the octet level ----------

  lemma OctetRoundTrip(b: Byte, rest: Text)
    ensures ReadOctet(Escape(b) + rest) == Some(b)
  {
  }

  lemma {:induction false} OctetsRoundTrip(bytes: seq<Byte>, rest: Text)
    ensures ReadOctets(Escapes(bytes) + rest, |bytes|) == Some(bytes)
  {
    if bytes != [] {
      var tail := Escapes(bytes[1..]) + rest;
      assert Escapes(bytes) + rest == Escape(bytes[0]) + tail;
      OctetRoundTrip(bytes[0], tail);
      assert (Escape(bytes[0]) + tail)[3..] == tail;
      OctetsRoundTrip(bytes[1..], rest);
      assert bytes == [bytes[0]] + bytes[1..];
    }
  }

  lemma Utf8RoundTrip(cp: nat)
    requires Scalar(cp)
    ensures FromUtf8(Utf8(cp)) == Some(cp)
    ensures SequenceLength(Utf8(cp)[0]) == |Utf8(cp)|
  {
  }

  lemma EscapeRoundTrip(cp: nat, rest: Text)
    requires Scalar(cp)
    ensures ReadEscape(Escapes(Utf8(cp)) + rest) == Some((cp, 3 * |Utf8(cp)|))
  {
    var bytes := Utf8(cp);
    assert Escapes(bytes) + rest == Escape(bytes[0]) + (Escapes(bytes[1..]) + rest);
    OctetRoundTrip(bytes[0], Escapes(bytes[1..]) + rest);
    OctetsRoundTrip(bytes, rest);
    Utf8RoundTrip(cp);
  }

  lemma FirstCodePointIsPrefix(s: Text)
    requires s != [] && FirstCodePoint(s).Some?
    ensures s == Utf16(FirstCodePoint(s).value) + s[|Utf16(FirstCodePoint(s).value)|..]
    ensures WellFormed(s) <==> WellFormed(s[|Utf16(FirstCodePoint(s).value)|..])
  {
  }

  // ---------- whole strings ----------

  /** Encoding fails exactly on a lone surrogate, and decoding undoes it. */
  lemma {:induction false} EncodeRoundTrip(s: Text)
    ensures Encode(s).Some? <==> WellFormed(s)
    ensures WellFormed(s) ==> Decode(Encode(s).value) == Some(s)
  {
    if s == [] {
    } else if Unescaped(s[0]) {
      EncodeRoundTrip(s[1..]);
      if WellFormed(s) {
        var tail := Encode(s[1..]).value;
        assert ([s[0]] + tail)[1..] == tail;
        assert s == [s[0]] + s[1..];
      }
    } else if FirstCodePoint(s).Some? {
      var cp := FirstCodePoint(s).value;
      var rest := s[|Utf16(cp)|..];
      FirstCodePointIsPrefix(s);
      EncodeRoundTrip(rest);
      if WellFormed(s) {
        var tail := Encode(rest).value;
        var code := Escapes(Utf8(cp)) + tail;
        EscapeRoundTrip(cp, tail);
        assert code[0] == PERCENT;
        assert code[3 * |Utf8(cp)|..] == tail;
      }
    }
  }

  lemma EncodeInjective(a: Text, b: Text)
    requires WellFormed(a) && WellFormed(b) && Encode(a) == Encode(b)
    ensures a == b
  {
    EncodeRoundTrip(a);
    EncodeRoundTrip(b);
  }

  /** Encoded text is one path segment: unreserved characters and percent signs only. */
  lemma {:induction false} EncodedAlphabet(s: Text, u: Unit)
    requires Encode(s).Some? && u in Encode(s).value
    ensures Unescaped(u) || u == PERCENT
  {
    if Unescaped(s[0]) {
      if u != s[0] { EncodedAlphabet(s[1..], u); }
    } else {
      var cp := FirstCodePoint(s).value;
      if u in Escapes(Utf8(cp)) { EscapesAlphabet(Utf8(cp), u); }
      else { EncodedAlphabet(s[|Utf16(cp)|..], u); }
    }
  }

  lemma {:induction false} EscapesAlphabet(bytes: seq<Byte>, u: Unit)
    requires u in Escapes(bytes)
    ensures Unescaped(u) || u == PERCENT
  {
    if u !in Escape(bytes[0]) { EscapesAlphabet(bytes[1..], u); }
  }

  lemma {:induction false} DecodePlainIsIdentity(s: Text)
    requires PERCENT !in s
    ensures Decode(s) == Some(s)
  {
    if s != [] {
      DecodePlainIsIdentity(s[1..]);
      assert s == [s[0]] + s[1..];
    }
  }

  /** A successful decode shortens the text by at least two units per percent sign. */
  lemma {:induction false} DecodeShrinks(s: Text)
    requires Decode(s).Some?
    ensures |Decode(s).value| <= |s|
    ensures PERCENT in s ==> |Decode(s).value| < |s|
  {
    if s == [] {
    } else if s[0] != PERCENT {
      DecodeShrinks(s[1..]);
    } else {
      DecodeShrinks(s[ReadEscape(s).value.1..]);
    }
  }

  lemma ThreePlainUnits(s: Text)
    requires |s| >= 3 && forall i | 0 <= i < 3 :: !IsHigh(s[i]) && !IsLow(s[i])
    ensures WellFormed(s) <==> WellFormed(s[3..])
  {
    assert s[1..][1..] == s[2..] && s[2..][1..] == s[3..];
    assert WellFormed(s) <==> WellFormed(s[1..]);
    assert WellFormed(s[1..]) <==> WellFormed(s[2..]);
    assert WellFormed(s[2..]) <==> WellFormed(s[3..]);
  }

  lemma {:induction false} EscapePrefixIsPlain(s: Text, n: nat)
    requires ReadOctets(s, n).Some?
    ensures WellFormed(s) <==> WellFormed(s[3 * n..])
    decreases n
  {
    if n > 0 {
      EscapePrefixIsPlain(s[3..], n - 1);
      assert s[3..][3 * (n - 1)..] == s[3 * n..];
      ThreePlainUnits(s);
    } else {
      assert s[0..] == s;
    }
  }

  lemma Utf16PrefixIsPlain(cp: nat, rest: Text)
    requires Scalar(cp)
    ensures WellFormed(Utf16(cp) + rest) <==> WellFormed(rest)
    ensures !IsLow(Utf16(cp)[0])
  {
    assert (Utf16(cp) + rest)[|Utf16(cp)|..] == rest;
  }

  /** Decoding neither pairs nor splits surrogates. */
  lemma {:induction false} DecodeKeepsWellFormedness(s: Text)
    requires Decode(s).Some?
    ensures WellFormed(Decode(s).value) <==> WellFormed(s)
  {
    if s == [] {
    } else if s[0] == PERCENT {
      var (cp, length) := ReadEscape(s).value;
      DecodeKeepsWellFormedness(s[length..]);
      EscapePrefixIsPlain(s, length / 3);
      Utf16PrefixIsPlain(cp, Decode(s[length..]).value);
    } else {
      var tail := Decode(s[1..]).value;
      assert ([s[0]] + tail)[1..] == tail;
      if !IsHigh(s[0]) {
        DecodeKeepsWellFormedness(s[1..]);
      } else if |s| >= 2 && s[1] != PERCENT {
        assert s[1..][1..] == s[2..];
        var rest := Decode(s[2..]).value;
        assert tail == [s[1]] + rest && ([s[0]] + tail)[2..] == rest;
        DecodeKeepsWellFormedness(s[2..]);
      } else if |s| >= 2 {
        var (cp, length) := ReadEscape(s[1..]).value;
        Utf16PrefixIsPlain(cp, Decode(s[1..][length..]).value);
        assert tail[0] == Utf16(cp)[0];
      }
    }
  }

  // ---------- the fixed tables ----------

  /** Character c as a code unit. */
  predicate Is(u: Unit, c: char) { u == c as int }

  predicate Between(u: Unit, low: char, high: char) { low as int <= u <= high as int }

  /** A letter, a digit, or one of - _ . ! ~ * ' ( ), written out. */
  predicate StaysBare(u: Unit) {
    || Between(u, 'A', 'Z') || Between(u, 'a', 'z') || Between(u, '0', '9')
    || Is(u, '-') || Is(u, '_') || Is(u, '.') || Is(u, '!') || Is(u, '~')
    || Is(u, '*') || Is(u, '\'') || Is(u, '(') || Is(u, ')')
  }

  const HEX: string := "0123456789ABCDEF"

  /** A unit alone is left bare exactly when it is a letter, a digit or one of the nine marks. */
  lemma BareUnits(u: Unit)
    ensures Encode([u]) == Some([u]) <==> StaysBare(u)
  {
    assert [u][1..] == [] && [u] + [] == [u];
    assert Unescaped(u) ==> Encode([u]) == Prepend([u], Encode([]));
    if !Unescaped(u) && Encode([u]).Some? {
      var cp := FirstCodePoint([u]).value;
      assert Encode([u]) == Prepend(Escapes(Utf8(cp)), Encode([u][|Utf16(cp)|..]));
      assert |Encode([u]).value| >= |Escapes(Utf8(cp))| >= 3;
    }
  }

  /** Every other ASCII unit becomes a percent sign and its two upper-case hexadecimal digits. */
  lemma AsciiEscapes(u: Unit)
    requires u < 128 && !StaysBare(u)
    ensures Encode([u]) == Some([37, HEX[u / 16] as int, HEX[u % 16] as int])
  {
    assert [u][1..] == [] && FirstCodePoint([u]) == Some(u) && Utf8(u) == [u] && Utf16(u) == [u];
    assert Escapes([u]) == Escape(u) + [] == Escape(u);
    assert Encode([u]) == Prepend(Escape(u), Encode([]));
    assert Escape(u) + [] == Escape(u);
    HexTable(u / 16);
    HexTable(u % 16);
  }

  lemma HexTable(n: nat)
    requires n < 16
    ensures HexDigit(n) == HEX[n] as int
  {
  }

  /** Both cases of a digit are read; nothing else is. */
  lemma HexReads(u: Unit, n: nat)
    ensures HexValue(u) == Some(n) <==>
      n < 16 && (Is(u, HEX[n]) || (n >= 10 && u == HEX[n] as int + 32))
  {
  }

  /** Section 3 of RFC 3629: how many octets, the marks of the first and of the others, and the bits they carry. */
  lemma Utf8Table(cp: nat)
    requires Scalar(cp)
    ensures var b := Utf8(cp);
      && |b| == (if cp <= 0x7F then 1 else if cp <= 0x7FF then 2 else if cp <= 0xFFFF then 3 else 4)
      && (forall i | 1 <= i < |b| :: 0x80 <= b[i] <= 0xBF)
      && (|b| == 1 ==> b[0] == cp)
      && (|b| == 2 ==> 0xC2 <= b[0] <= 0xDF && cp == Bits(b[0], 0xC0) * 64 + Bits(b[1], 0x80))
      && (|b| == 3 ==> 0xE0 <= b[0] <= 0xEF && cp == Bits(b[0], 0xE0) * 4096 + Bits(b[1], 0x80) * 64 + Bits(b[2], 0x80))
      && (|b| == 4 ==>
            && 0xF0 <= b[0] <= 0xF4
            && cp == Bits(b[0], 0xF0) * 262144 + Bits(b[1], 0x80) * 4096 + Bits(b[2], 0x80) * 64 + Bits(b[3], 0x80))
  {
  }

  /** What an octet carries besides its mark. */
  function Bits(octet: int, mark: int): int { octet - mark }

  /** Reading accepts exactly the octets writing produces: nothing overlong, no surrogate, nothing out of range. */
  lemma OnlyCanonicalUtf8(b: seq<Byte>, cp: nat)
    ensures FromUtf8(b) == Some(cp) <==> Scalar(cp) && b == Utf8(cp)
  {
    if Scalar(cp) && b == Utf8(cp) { Utf8RoundTrip(cp); }
    if FromUtf8(b) == Some(cp) { CanonicalOctets(b, cp); }
  }

  lemma CanonicalOctets(b: seq<Byte>, cp: nat)
    requires FromUtf8(b) == Some(cp)
    ensures b == Utf8(cp)
  {
    if |b| == 2 {
      var x: nat, y: nat := b[0] - 0xC0, b[1] - 0x80;
      SplitGroups(x, y);
    } else if |b| == 3 {
      var x: nat, y: nat, z: nat := b[0] - 0xE0, b[1] - 0x80, b[2] - 0x80;
      SplitGroups(x * 0x40 + y, z);
      SplitGroups(x, y);
    } else if |b| == 4 {
      var w: nat, x: nat, y: nat, z: nat := b[0] - 0xF0, b[1] - 0x80, b[2] - 0x80, b[3] - 0x80;
      SplitGroups((w * 0x40 + x) * 0x40 + y, z);
      SplitGroups(w * 0x40 + x, y);
      SplitGroups(w, x);
    }
  }

  lemma SplitGroups(high: nat, low: nat)
    requires low < 0x40
    ensures (high * 0x40 + low) / 0x40 == high && (high * 0x40 + low) % 0x40 == low
  {
  }

  /** An escape is read exactly where the octets of some code point are spelled out, each in either case. */
  lemma ReadEscapeIff(s: Text, cp: nat, n: nat)
    ensures ReadEscape(s) == Some((cp, n)) <==>
      Scalar(cp) && n == 3 * |Utf8(cp)| && ReadOctets(s, |Utf8(cp)|) == Some(Utf8(cp))
  {
    if Scalar(cp) { Utf8RoundTrip(cp); }
    if ReadEscape(s).Some? {
      var octets := ReadOctets(s, SequenceLength(ReadOctet(s).value)).value;
      OnlyCanonicalUtf8(octets, ReadEscape(s).value.0);
    }
  }

  /** A supplementary code point is the surrogate pair of ECMA-262: ten high bits, ten low bits, from 0x10000 up. */
  lemma SurrogateTable(cp: nat)
    requires Scalar(cp)
    ensures cp < 0x10000 ==> Utf16(cp) == [cp]
    ensures cp >= 0x10000 ==>
      && |Utf16(cp)| == 2 && 0xD800 <= Utf16(cp)[0] <= 0xDBFF && 0xDC00 <= Utf16(cp)[1] <= 0xDFFF
      && cp == 0x10000 + Bits(Utf16(cp)[0], 0xD800) * 1024 + Bits(Utf16(cp)[1], 0xDC00)
  {
  }
}

/** The console's Project-id helpers at the URL boundary. */
module ProjectId {
  import opened Basics
  import opened UriCodec

  function DecodeProjectId(raw: Text): Text {
    match Decode(raw)
    case Some(id) => id
    case None => raw
  }

  function EncodeProjectId(raw: Text): Option<Text> {
    Encode(DecodeProjectId(raw))
  }

  lemma DecodeProjectIdKeepsWellFormedness(raw: Text)
    ensures WellFormed(DecodeProjectId(raw)) <==> WellFormed(raw)
  {
    if Decode(raw).Some? { DecodeKeepsWellFormedness(raw); }
  }

  /** The helper throws exactly on a lone surrogate; a malformed escape never makes it throw. */
  lemma EncodeProjectIdThrowsIff(raw: Text)
    ensures EncodeProjectId(raw).None? <==> !WellFormed(raw)
  {
    DecodeProjectIdKeepsWellFormedness(raw);
    EncodeRoundTrip(DecodeProjectId(raw));
  }

  /** Decoding after encoding gives the same id as decoding at once, malformed escapes included. */
  lemma DecodeAfterEncode(raw: Text)
    requires WellFormed(raw)
    ensures EncodeProjectId(raw).Some?
    ensures DecodeProjectId(EncodeProjectId(raw).value) == DecodeProjectId(raw)
  {
    EncodeProjectIdThrowsIff(raw);
    DecodeProjectIdKeepsWellFormedness(raw);
    EncodeRoundTrip(DecodeProjectId(raw));
  }

  lemma EncodeIsIdempotent(raw: Text)
    requires WellFormed(raw)
    ensures EncodeProjectId(raw).Some?
    ensures EncodeProjectId(EncodeProjectId(raw).value) == EncodeProjectId(raw)
  {
    DecodeAfterEncode(raw);
  }

  /** The encoded id is a single path segment. */
  lemma EncodedIdIsOneSegment(raw: Text)
    requires WellFormed(raw)
    ensures EncodeProjectId(raw).Some? && SLASH !in EncodeProjectId(raw).value
  {
    EncodeProjectIdThrowsIff(raw);
    if SLASH in EncodeProjectId(raw).value { EncodedAlphabet(DecodeProjectId(raw), SLASH); }
  }

  /** An id the helpers leave alone: no percent sign, or one that is not a valid escape. */
  predicate Settled(id: Text) { PERCENT !in id || Decode(id).None? }

  lemma DecodeFixesExactlySettled(id: Text)
    ensures DecodeProjectId(id) == id <==> Settled(id)
  {
    if PERCENT !in id { DecodePlainIsIdentity(id); }
    else if Decode(id).Some? { DecodeShrinks(id); }
  }

  /** One canonical layer is applied to the id itself exactly when the id is settled. */
  lemma OneLayerIff(id: Text)
    requires WellFormed(id)
    ensures EncodeProjectId(id) == Encode(id) <==> Settled(id)
  {
    DecodeFixesExactlySettled(id);
    DecodeProjectIdKeepsWellFormedness(id);
    if EncodeProjectId(id) == Encode(id) { EncodeInjective(DecodeProjectId(id), id); }
  }

  lemma DecodeOneEscape(s: Text, cp: nat)
    requires |s| == 3 && s[0] == PERCENT && ReadEscape(s) == Some((cp, 3))
    ensures Decode(s) == Some(Utf16(cp))
  {
    assert s[3..] == [] && Utf16(cp) + [] == Utf16(cp);
  }

  /** The id "%41" is not settled: it is rewritten to "A". */
  lemma UnsettledIdIsRewritten()
    ensures var id: Text := [PERCENT, 52, 49];
      DecodeProjectId(id) == [65] && EncodeProjectId(id) == Some([65]) && EncodeProjectId(id) != Encode(id)
  {
    var id: Text := [PERCENT, 52, 49];
    assert Utf8(65) == [65] && Escapes([65]) == id + [];
    EscapeRoundTrip(65, []);
    assert Escapes(Utf8(65)) + [] == id;
    assert ReadEscape(id) == Some((65, 3));
    DecodeOneEscape(id, 65);
    assert Decode(id) == Some([65]);
    assert !Settled(id);
    NoSurrogates(id);
    OneLayerIff(id);
  }

  /** Decoding twice equals decoding once exactly when the decoded id is settled. */
  lemma DecodeIdempotentIff(raw: Text)
    ensures DecodeProjectId(DecodeProjectId(raw)) == DecodeProjectId(raw) <==> Settled(DecodeProjectId(raw))
  {
    DecodeFixesExactlySettled(DecodeProjectId(raw));
  }

  // ---------- chains of hops ----------

  datatype Hop = DecodeHop | EncodeHop

  /** A value passed through the boundaries a request crosses. */
  function Travel(id: Text, hops: seq<Hop>): Option<Text> {
    if hops == [] then Some(id)
    else
      var before := Travel(id, hops[..|hops| - 1]);
      if before.None? then None
      else if hops[|hops| - 1] == DecodeHop then Some(DecodeProjectId(before.value))
      else EncodeProjectId(before.value)
  }

  /** Over any chain of boundaries a settled id is either bare or carries exactly one layer. */
  lemma {:induction false} AnyChainKeepsOneLayer(id: Text, hops: seq<Hop>)
    requires WellFormed(id) && Settled(id)
    ensures Travel(id, hops) == Some(id) || Travel(id, hops) == Encode(id)
    ensures hops != [] && hops[|hops| - 1] == EncodeHop ==> Travel(id, hops) == Encode(id)
    ensures hops != [] && hops[|hops| - 1] == DecodeHop ==> Travel(id, hops) == Some(id)
  {
    EncodeRoundTrip(id);
    DecodeFixesExactlySettled(id);
    if hops != [] { AnyChainKeepsOneLayer(id, hops[..|hops| - 1]); }
  }

  /** Plain concatenating encoders do not collapse: an id encoded twice keeps both layers unless nothing needs escaping. */
  lemma TwiceEncodedKeepsTwoLayers(id: Text)
    requires WellFormed(id)
    ensures Encode(id).Some? && Encode(Encode(id).value).Some?
    ensures var once := Encode(id).value; var twice := Encode(once).value;
      && EncodeProjectId(twice) == Some(twice)
      && (EncodeProjectId(twice) == Some(once) <==> forall u | u in id :: Unescaped(u))
  {
    EncodeRoundTrip(id);
    var once := Encode(id).value;
    assert WellFormed(once) by { AsciiIsWellFormed(id); }
    EncodeRoundTrip(once);
    if Encode(once).value == once {
      EncodeFixesExactlyUnescaped(once);
      assert PERCENT !in once;
      DecodePlainIsIdentity(once);
      EncodeFixesExactlyUnescaped(id);
    } else {
      EncodeFixesExactlyUnescaped(id);
      EncodeFixesExactlyUnescaped(once);
    }
  }

  lemma AsciiIsWellFormed(id: Text)
    requires Encode(id).Some?
    ensures WellFormed(Encode(id).value)
  {
    var code := Encode(id).value;
    forall u | u in code ensures !IsHigh(u) && !IsLow(u) { EncodedAlphabet(id, u); }
    NoSurrogates(code);
  }

  lemma {:induction false} NoSurrogates(s: Text)
    requires forall u | u in s :: !IsHigh(u) && !IsLow(u)
    ensures WellFormed(s)
  {
    if s != [] { NoSurrogates(s[1..]); }
  }

  lemma {:induction false} EncodeGrows(s: Text)
    requires Encode(s).Some?
    ensures |Encode(s).value| >= |s|
    ensures (exists u :: u in s && !Unescaped(u)) ==> |Encode(s).value| > |s|
  {
    if s != [] {
      if Unescaped(s[0]) { EncodeGrows(s[1..]); }
      else { EncodeGrows(s[|Utf16(FirstCodePoint(s).value)|..]); }
    }
  }

  lemma {:induction false} EncodeKeepsUnescaped(s: Text)
    requires forall u | u in s :: Unescaped(u)
    ensures Encode(s) == Some(s)
  {
    if s != [] {
      EncodeKeepsUnescaped(s[1..]);
      assert s == [s[0]] + s[1..];
    }
  }

  lemma EncodeFixesExactlyUnescaped(s: Text)
    ensures Encode(s) == Some(s) <==> forall u | u in s :: Unescaped(u)
  {
    if forall u | u in s :: Unescaped(u) { EncodeKeepsUnescaped(s); }
    else if Encode(s).Some? { EncodeGrows(s); }
  }

  // ---------- the ids the console sees ----------

  /** A namespace or a name: lower-case letters, digits, dots and hyphens. */
  predicate ObjectName(s: Text) {
    forall i | 0 <= i < |s| :: Between(s[i], 'a', 'z') || Between(s[i], '0', '9') || Is(s[i], '.') || Is(s[i], '-')
  }

  lemma PrependTwice(a: Text, b: Text, t: Option<Text>)
    ensures Prepend(a, Prepend(b, t)) == Prepend(a + b, t)
  {
    if t.Some? { assert a + (b + t.value) == a + b + t.value; }
  }

  lemma EncodeBareHead(u: Unit, rest: Text)
    requires Unescaped(u)
    ensures Encode([u] + rest) == Prepend([u], Encode(rest))
  {
    assert ([u] + rest)[1..] == rest;
  }

  lemma EncodeSlash(rest: Text)
    ensures Encode([SLASH] + rest) == Prepend([37, 50, 70], Encode(rest))
  {
    var s := [SLASH] + rest;
    assert FirstCodePoint(s) == Some(47) && Utf8(47) == [47] && Utf16(47) == [47] && s[1..] == rest;
    var one: seq<Byte> := [47];
    assert one[1..] == [] && Escapes(one) == Escape(47) + Escapes(one[1..]);
    assert Escape(47) == [37, 50, 70] && Escape(47) + [] == Escape(47);
    assert Encode(s) == Prepend(Escapes(one), Encode(s[1..]));
  }

  lemma {:induction false} EncodeAfterBare(head: Text, rest: Text)
    requires forall i | 0 <= i < |head| :: Unescaped(head[i])
    ensures Encode(head + rest) == Prepend(head, Encode(rest))
  {
    if head == [] {
      assert head + rest == rest;
      if Encode(rest).Some? { assert head + Encode(rest).value == Encode(rest).value; }
    } else {
      assert head + rest == [head[0]] + (head[1..] + rest) && head == [head[0]] + head[1..];
      EncodeBareHead(head[0], head[1..] + rest);
      EncodeAfterBare(head[1..], rest);
      PrependTwice([head[0]], head[1..], Encode(rest));
    }
  }

  /** A namespaced id becomes its namespace, %2F and its name, with nothing else touched. */
  lemma NamespacedIdEncodes(ns: Text, name: Text)
    requires ObjectName(ns) && ObjectName(name)
    ensures EncodeProjectId(ns + ['/' as int] + name) == Some(ns + ['%' as int, '2' as int, 'F' as int] + name)
  {
    var id := ns + [SLASH] + name;
    DecodePlainIsIdentity(id);
    assert id == ns + ([SLASH] + name);
    EncodeAfterBare(ns, [SLASH] + name);
    EncodeSlash(name);
    EncodeAfterBare(name, []);
    assert name + [] == name;
    assert ns + ([37, 50, 70] + name) == ns + [37, 50, 70] + name;
  }
}
