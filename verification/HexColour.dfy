/**
 `#rrggbb` text and the colour it names: `normaliseHex`, `toRgb` and `toHex` of `branding-theme.ts`.

 A string is a sequence of Unicode scalar values. Only `A`-`F` lower-case into the alphabet the
 pattern accepts, so lower-casing is ASCII here: a string with any other letter is refused either way.
 */
module HexColour {
  import opened Common
  import opened Srgb

  const HEX_DIGITS: string := "0123456789abcdef"

  /** White space and line terminators as `String.prototype.trim` removes them (section 12.2 and 12.3 of ECMA-262). */
  predicate IsTrimmed(c: char) {
    var u := c as int;
    (9 <= u <= 13) || u == 0x20 || u == 0xA0 || u == 0x1680 || (0x2000 <= u <= 0x200A)
    || u == 0x2028 || u == 0x2029 || u == 0x202F || u == 0x205F || u == 0x3000 || u == 0xFEFF
  }

  function TrimStart(s: string): (t: string)
    ensures |t| <= |s| && (t == [] || !IsTrimmed(t[0]))
  {
    if s != [] && IsTrimmed(s[0]) then TrimStart(s[1..]) else s
  }

  function TrimEnd(s: string): (t: string)
    ensures t <= s && (t == [] || !IsTrimmed(t[|t| - 1]))
  {
    if s != [] && IsTrimmed(s[|s| - 1]) then TrimEnd(s[..|s| - 1]) else s
  }

  function Trim(s: string): string { TrimEnd(TrimStart(s)) }

  function LowerChar(c: char): char {
    if 'A' <= c <= 'Z' then c - 'A' + 'a' else c
  }

  function Lower(s: string): (t: string)
    ensures |t| == |s| && forall i :: 0 <= i < |s| ==> t[i] == LowerChar(s[i])
  {
    seq(|s|, i requires 0 <= i < |s| => LowerChar(s[i]))
  }

  predicate IsHexDigit(c: char) { '0' <= c <= '9' || 'a' <= c <= 'f' }

  predicate IsHexColour(s: string) {
    |s| == 7 && s[0] == '#' && forall i :: 1 <= i < 7 ==> IsHexDigit(s[i])
  }

  /** `None` is the `RangeError` the source throws rather than guess a colour. */
  function NormaliseHex(colour: string): Option<string> {
    var hex := Lower(Trim(colour));
    if IsHexColour(hex) then Some(hex) else None
  }

  function DigitValue(c: char): (v: int)
    requires IsHexDigit(c)
    ensures 0 <= v < 16 && HEX_DIGITS[v] == c
  {
    if '0' <= c <= '9' then c as int - '0' as int else c as int - 'a' as int + 10
  }

  function ParseByte(hi: char, lo: char): (v: Byte)
    requires IsHexDigit(hi) && IsHexDigit(lo)
  {
    16 * DigitValue(hi) + DigitValue(lo)
  }

  function ToRgb(hex: string): Rgb
    requires IsHexColour(hex)
  {
    Rgb(ParseByte(hex[1], hex[2]), ParseByte(hex[3], hex[4]), ParseByte(hex[5], hex[6]))
  }

  /** `value.toString(16).padStart(2, '0')` of a byte. */
  function ByteText(v: Byte): (s: string)
    ensures |s| == 2 && IsHexDigit(s[0]) && IsHexDigit(s[1])
  {
    [HEX_DIGITS[v / 16], HEX_DIGITS[v % 16]]
  }

  function ToHex(c: Rgb): (s: string)
    ensures IsHexColour(s)
  {
    "#" + ByteText(c.r) + ByteText(c.g) + ByteText(c.b)
  }

  lemma ByteRoundTrip(v: Byte)
    ensures ParseByte(ByteText(v)[0], ByteText(v)[1]) == v
  {
    var hi, lo := v / 16, v % 16;
    DigitRoundTrip(hi);
    DigitRoundTrip(lo);
  }

  lemma DigitRoundTrip(d: int)
    requires 0 <= d < 16
    ensures IsHexDigit(HEX_DIGITS[d]) && DigitValue(HEX_DIGITS[d]) == d
  {
    assert HEX_DIGITS == ['0', '1', '2', '3', '4', '5', '6', '7', '8', '9', 'a', 'b', 'c', 'd', 'e', 'f'];
  }

  lemma TextRoundTrip(hi: char, lo: char)
    requires IsHexDigit(hi) && IsHexDigit(lo)
    ensures ByteText(ParseByte(hi, lo)) == [hi, lo]
  {
    var v := ParseByte(hi, lo);
    assert v / 16 == DigitValue(hi) && v % 16 == DigitValue(lo);
  }

  /** The emitted text names exactly the colour it was made from. */
  lemma HexRoundTrip(c: Rgb)
    ensures ToRgb(ToHex(c)) == c
  {
    ByteRoundTrip(c.r);
    ByteRoundTrip(c.g);
    ByteRoundTrip(c.b);
  }

  /** And every accepted text is the only spelling of its colour: no two distinct tokens mean the same one. */
  lemma RgbRoundTrip(hex: string)
    requires IsHexColour(hex)
    ensures ToHex(ToRgb(hex)) == hex
  {
    TextRoundTrip(hex[1], hex[2]);
    TextRoundTrip(hex[3], hex[4]);
    TextRoundTrip(hex[5], hex[6]);
    var c := ToRgb(hex);
    assert ToHex(c) == ['#'] + ByteText(c.r) + ByteText(c.g) + ByteText(c.b);
  }

  lemma HexHasNoSpace(s: string)
    requires IsHexColour(s)
    ensures TrimStart(s) == s && TrimEnd(s) == s && Lower(s) == s
  {
    assert !IsTrimmed(s[0]) && IsHexDigit(s[6]) && !IsTrimmed(s[6]);
    assert forall i :: 0 <= i < 7 ==> LowerChar(s[i]) == s[i];
  }

  /** Normalising is idempotent: an accepted colour is already its own normal form. */
  lemma NormaliseIdempotent(colour: string)
    ensures NormaliseHex(colour).Some? ==>
              IsHexColour(NormaliseHex(colour).value)
              && NormaliseHex(NormaliseHex(colour).value) == NormaliseHex(colour)
  {
    if NormaliseHex(colour).Some? {
      HexHasNoSpace(NormaliseHex(colour).value);
    }
  }

  predicate AllTrimmed(s: string) { forall c :: c in s ==> IsTrimmed(c) }

  /** What `HexColorSchema` admits at the API boundary: six digits of either case. */
  predicate IsHexInput(s: string) {
    |s| == 7 && s[0] == '#' && forall i :: 1 <= i < 7 ==> IsHexDigit(LowerChar(s[i]))
  }

  lemma {:induction false} TrimStartSkips(pre: string, m: string)
    requires AllTrimmed(pre) && m != [] && !IsTrimmed(m[0])
    ensures TrimStart(pre + m) == m
  {
    if pre == [] {
      assert pre + m == m;
    } else {
      assert (pre + m)[1..] == pre[1..] + m;
      TrimStartSkips(pre[1..], m);
    }
  }

  lemma {:induction false} TrimEndSkips(m: string, post: string)
    requires AllTrimmed(post) && m != [] && !IsTrimmed(m[|m| - 1])
    ensures TrimEnd(m + post) == m
  {
    if post == [] {
      assert m + post == m;
    } else {
      var s := m + post;
      assert s[|s| - 1] == post[|post| - 1];
      assert s[..|s| - 1] == m + post[..|post| - 1];
      TrimEndSkips(m, post[..|post| - 1]);
    }
  }

  /** Every schema-valid colour, in either case and with any white space around it, normalises to its lower case. */
  lemma SchemaColoursAccepted(pre: string, m: string, post: string)
    requires AllTrimmed(pre) && IsHexInput(m) && AllTrimmed(post)
    ensures NormaliseHex(pre + m + post) == Some(Lower(m))
  {
    assert !IsTrimmed(m[0]) && IsHexDigit(LowerChar(m[6]));
    assert pre + m + post == pre + (m + post);
    TrimStartSkips(pre, m + post);
    TrimEndSkips(m, post);
  }
}
