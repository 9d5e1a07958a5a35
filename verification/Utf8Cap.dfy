/**
 The knowledge-content cap: `withinKnowledgeContentCap` counts UTF-8 bytes over a UTF-16 string.
 A string is its sequence of 16-bit code units; the encoding is section 3 of RFC 3629.
 */
module Utf8Cap {

  type Unit = u: int | 0 <= u < 0x1_0000

  type Byte = b: int | 0 <= b < 0x100

  const CONTENT_BYTES: nat := 262144

  // --- Code points of a UTF-16 string -----------------------------------------------------------

  predicate IsLead(u: Unit) { 0xD800 <= u < 0xDC00 }

  predicate IsTrail(u: Unit) { 0xDC00 <= u < 0xE000 }

  type CodePoint = c: int | 0 <= c < 0x11_0000

  predicate PairAt(s: seq<Unit>, i: nat) { i + 1 < |s| && IsLead(s[i]) && IsTrail(s[i + 1]) }

  /** The code point `for...of` yields at a position: a surrogate pair is one, a lone surrogate is itself. */
  function CodePointAt(s: seq<Unit>, i: nat): CodePoint
    requires i < |s|
  {
    if PairAt(s, i) then 0x1_0000 + (s[i] as int - 0xD800) * 0x400 + (s[i + 1] as int - 0xDC00) else s[i]
  }

  function CodePoints(s: seq<Unit>): seq<CodePoint> {
    if s == [] then []
    else [CodePointAt(s, 0)] + CodePoints(s[if PairAt(s, 0) then 2 else 1..])
  }

  // --- UTF-8 ------------------------------------------------------------------------------------

  predicate IsScalar(c: CodePoint) { !(0xD800 <= c < 0xE000) }

  /** Encoders replace an unpaired surrogate, which UTF-8 cannot carry, with U+FFFD. */
  function Scalar(c: CodePoint): CodePoint { if IsScalar(c) then c else 0xFFFD }

  function Encode(c: CodePoint): (bytes: seq<Byte>)
    ensures 1 <= |bytes| <= 4
  {
    if c < 0x80 then [c]
    else if c < 0x800 then [0xC0 + c / 0x40, 0x80 + c % 0x40]
    else if c < 0x1_0000 then [0xE0 + c / 0x1000, 0x80 + c / 0x40 % 0x40, 0x80 + c % 0x40]
    else [0xF0 + c / 0x4_0000, 0x80 + c / 0x1000 % 0x40, 0x80 + c / 0x40 % 0x40, 0x80 + c % 0x40]
  }

  function EncodeAll(cs: seq<CodePoint>): seq<Byte> {
    if cs == [] then [] else Encode(Scalar(cs[0])) + EncodeAll(cs[1..])
  }

  function Utf8(s: seq<Unit>): seq<Byte> { EncodeAll(CodePoints(s)) }

  /** How many bytes a first byte announces. */
  function Announced(lead: Byte): (n: nat)
    ensures 1 <= n <= 4
  {
    if lead < 0xC0 then 1 else if lead < 0xE0 then 2 else if lead < 0xF0 then 3 else 4
  }

  /** The payload bits of byte `k`, under the marker bits of its place. */
  function Bits(bytes: seq<Byte>, k: nat, marker: int): int
    requires k < |bytes|
  {
    bytes[k] as int - marker
  }

  function DecodeOne(bytes: seq<Byte>): int
    requires bytes != [] && Announced(bytes[0]) <= |bytes|
  {
    match Announced(bytes[0])
    case 1 => bytes[0]
    case 2 => Bits(bytes, 0, 0xC0) * 0x40 + Bits(bytes, 1, 0x80)
    case 3 => Bits(bytes, 0, 0xE0) * 0x1000 + Bits(bytes, 1, 0x80) * 0x40 + Bits(bytes, 2, 0x80)
    case _ =>
      Bits(bytes, 0, 0xF0) * 0x4_0000 + Bits(bytes, 1, 0x80) * 0x1000 + Bits(bytes, 2, 0x80) * 0x40 + Bits(bytes, 3, 0x80)
  }

  /** The encoder is the standard's: the first byte announces the length, and decoding gives the code point back. */
  lemma EncodeRoundTrip(c: CodePoint, rest: seq<Byte>)
    ensures Announced(Encode(c)[0]) == |Encode(c)|
    ensures DecodeOne(Encode(c) + rest) == c
  {
    SixBits(c);
    if 0x1_0000 <= c {
      SixBits(c / 0x40);
      assert c / 0x40 / 0x40 == c / 0x1000;
      SixBits(c / 0x1000);
      assert c / 0x1000 / 0x40 == c / 0x4_0000;
    } else if 0x800 <= c {
      SixBits(c / 0x40);
      assert c / 0x40 / 0x40 == c / 0x1000;
    }
  }

  lemma SixBits(c: nat)
    ensures c == c / 0x40 * 0x40 + c % 0x40 && 0 <= c % 0x40 < 0x40
  {
  }

  function DecodeAll(bytes: seq<Byte>): seq<int> {
    if bytes == [] || Announced(bytes[0]) > |bytes| then []
    else [DecodeOne(bytes)] + DecodeAll(bytes[Announced(bytes[0])..])
  }

  function Scalars(cs: seq<CodePoint>): (t: seq<int>)
    ensures |t| == |cs| && forall i :: 0 <= i < |cs| ==> t[i] == Scalar(cs[i])
  {
    seq(|cs|, i requires 0 <= i < |cs| => Scalar(cs[i]))
  }

  /** Decoding the whole encoding gives back the string's code points, lone surrogates replaced. */
  lemma {:induction false} Utf8RoundTrip(cs: seq<CodePoint>)
    ensures DecodeAll(EncodeAll(cs)) == Scalars(cs)
  {
    if cs == [] {
    } else {
      var head, rest := Encode(Scalar(cs[0])), EncodeAll(cs[1..]);
      EncodeRoundTrip(Scalar(cs[0]), rest);
      assert (head + rest)[0] == head[0] && (head + rest)[|head|..] == rest;
      Utf8RoundTrip(cs[1..]);
      assert Scalars(cs) == [Scalar(cs[0])] + Scalars(cs[1..]);
    }
  }

  // --- The cap ----------------------------------------------------------------------------------

  /** The counter's table. A lone surrogate falls in the three-byte row, as U+FFFD does. */
  function BytesFor(c: CodePoint): (n: nat)
    ensures n == |Encode(Scalar(c))|
  {
    if c <= 0x7f then 1 else if c <= 0x7ff then 2 else if c <= 0xffff then 3 else 4
  }

  method WithinKnowledgeContentCap(content: seq<Unit>) returns (within: bool)
    ensures within <==> |Utf8(content)| <= CONTENT_BYTES
  {
    if |content| > CONTENT_BYTES {
      NeverShorter(content);
      return false;
    }
    var bytes := 0;
    var i := 0;
    while i < |content|
      invariant 0 <= i <= |content|
      invariant bytes + |Utf8(content[i..])| == |Utf8(content)|
    {
      CountedAt(content, i);
      bytes := bytes + BytesFor(CodePointAt(content, i));
      i := i + (if PairAt(content, i) then 2 else 1);
    }
    return bytes <= CONTENT_BYTES;
  }

  lemma CountedAt(s: seq<Unit>, i: nat)
    requires i < |s|
    ensures var next := i + (if PairAt(s, i) then 2 else 1);
            next <= |s| && |Utf8(s[i..])| == BytesFor(CodePointAt(s, i)) + |Utf8(s[next..])|
  {
    var t := s[i..];
    assert PairAt(t, 0) == PairAt(s, i) && CodePointAt(t, 0) == CodePointAt(s, i);
    var step := if PairAt(t, 0) then 2 else 1;
    assert t[step..] == s[i + step..];
    assert CodePoints(t)[1..] == CodePoints(t[step..]);
  }

  /** Why the early exit is sound: a UTF-8 encoding has at least as many bytes as the string has code units, and at most three times. */
  lemma {:induction false} NeverShorter(s: seq<Unit>)
    ensures |s| <= |Utf8(s)| <= 3 * |s|
    decreases |s|
  {
    if s == [] {
    } else {
      var step := if PairAt(s, 0) then 2 else 1;
      CountedAt(s, 0);
      assert s[0..] == s;
      NeverShorter(s[step..]);
    }
  }

  /** The number means the same in every language: at the cap, ASCII fits whole and one more unit of anything does not. */
  lemma {:induction false} AsciiFitsExactly(s: seq<Unit>)
    requires forall u :: u in s ==> u < 0x80
    ensures |Utf8(s)| == |s|
    decreases |s|
  {
    if s == [] {
    } else {
      CountedAt(s, 0);
      assert s[0] in s && s[0..] == s;
      assert forall u :: u in s[1..] ==> u in s;
      AsciiFitsExactly(s[1..]);
    }
  }
}
