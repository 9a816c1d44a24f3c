/** Text as the C++ runtime sees it. A `std::string` is a sequence of `char`, which the model
    takes to be signed (-128..127). Text printed to a `std::stringstream` (generated source
    code) is a Dafny `string` whose characters are the printed bytes (0..255). This module
    also says what `std::ostream` prints for integers: decimal by default and, under
    `std::hex << std::setfill('0') << std::setw(2)`, padded lower-case hexadecimal. */
module CText {
  import opened Common

  /** A C `char` value. */
  type CChar = c: int | -128 <= c < 128

  /** A `std::string`. */
  type CString = seq<CChar>

  /** An unsigned 8-bit value. */
  type Byte = b: int | 0 <= b < 256

  /** `uint(c) & 0xff`: the char is widened to a 32-bit unsigned value (sign extension makes a
      negative char 0xffffff80..0xffffffff) and masked to its low eight bits, which for an
      unsigned value is its remainder modulo 256. */
  function MaskedByte(c: CChar): (b: Byte)
    ensures c >= 0 ==> b == c
    ensures c < 0 ==> b == c + 256
  {
    var widened := c % 0x1_0000_0000;
    widened % 0x100
  }

  /** The char whose bit pattern is the given byte. */
  function CharOfByte(b: Byte): CChar
  {
    if b >= 128 then b - 256 else b
  }

  /** Masking a char and reading the byte back as a char gives the original char, and the
      other way round: the two are inverse bijections. */
  lemma MaskedByteInverse(c: CChar, b: Byte)
    ensures CharOfByte(MaskedByte(c)) == c
    ensures MaskedByte(CharOfByte(b)) == b
  {
  }

  /** The raw bytes of a string's characters. */
  function BytesOf(s: CString): (r: seq<Byte>)
    ensures |r| == |s| && forall i :: 0 <= i < |s| ==> r[i] == MaskedByte(s[i])
  {
    if s == [] then [] else [MaskedByte(s[0])] + BytesOf(s[1..])
  }

  /** The characters whose bit patterns are the given bytes. */
  function CharsOf(b: seq<Byte>): (r: CString)
    ensures |r| == |b| && forall i :: 0 <= i < |b| ==> r[i] == CharOfByte(b[i])
  {
    if b == [] then [] else [CharOfByte(b[0])] + CharsOf(b[1..])
  }

  /** What `os << s` prints for a `std::string`: its bytes, one printed character each. */
  function TextOf(s: CString): (r: string)
    ensures |r| == |s| && forall i :: 0 <= i < |s| ==> r[i] as int == MaskedByte(s[i])
  {
    if s == [] then [] else [MaskedByte(s[0]) as char] + TextOf(s[1..])
  }

  /** Printing is injective: two strings print the same exactly when they are equal. */
  lemma TextOfInjective(s: CString, t: CString)
    ensures TextOf(s) == TextOf(t) <==> s == t
  {
    if TextOf(s) == TextOf(t) {
      assert |s| == |t|;
      forall i | 0 <= i < |s|
        ensures s[i] == t[i]
      {
        assert TextOf(s)[i] == TextOf(t)[i];
        MaskedByteInverse(s[i], 0);
        MaskedByteInverse(t[i], 0);
      }
    }
  }

  /** The digit character for 0..15, lower case past 9 as `std::hex` prints it. */
  function DigitChar(d: nat): (c: char)
    requires d < 16
  {
    if d < 10 then (48 + d) as char else (87 + d) as char
  }

  predicate IsDecimalDigit(c: char) { '0' <= c <= '9' }

  predicate IsHexDigit(c: char) { '0' <= c <= '9' || 'a' <= c <= 'f' }

  function HexDigitValue(c: char): (d: nat)
    requires IsHexDigit(c)
    ensures d < 16
  {
    if c <= '9' then c as int - 48 else c as int - 87
  }

  /** `os << n` for an unsigned integer in the default decimal base. */
  function Decimal(n: nat): (r: string)
    decreases n
  {
    if n < 10 then [DigitChar(n)] else Decimal(n / 10) + [DigitChar(n % 10)]
  }

  predicate AllDecimalDigits(s: string)
  {
    forall i :: 0 <= i < |s| ==> IsDecimalDigit(s[i])
  }

  /** The number a run of decimal digits denotes. */
  function DecimalValue(s: string): nat
    requires AllDecimalDigits(s)
  {
    if s == [] then 0 else 10 * DecimalValue(s[..|s| - 1]) + (s[|s| - 1] as int - 48)
  }

  /** What `os << n` prints is a non-empty run of digits without a leading zero (unless
      n is 0) that denotes n. */
  lemma {:induction false} DecimalRoundTrip(n: nat)
    ensures |Decimal(n)| > 0 && AllDecimalDigits(Decimal(n))
    ensures DecimalValue(Decimal(n)) == n
    ensures Decimal(n)[0] == '0' <==> n == 0
  {
    if n >= 10 {
      DecimalRoundTrip(n / 10);
      var s := Decimal(n);
      assert s[..|s| - 1] == Decimal(n / 10);
    }
  }

  /** `os << std::hex << n`: the shortest lower-case hexadecimal rendering. */
  function Hex(n: nat): (r: string)
    decreases n
  {
    if n < 16 then [DigitChar(n)] else Hex(n / 16) + [DigitChar(n % 16)]
  }

  /** `std::setw(w)` with fill character `fill`: left padding up to width `w`. */
  function PadLeft(s: string, w: nat, fill: char): (r: string)
  {
    if |s| >= w then s else seq(w - |s|, _ => fill) + s
  }

  /** `std::setw(2)` after `std::setfill('0')` and `std::hex`, applied to a value below 256:
      two lower-case hexadecimal digits, high nibble first. */
  function Hex2(b: Byte): string
  {
    [DigitChar(b / 16), DigitChar(b % 16)]
  }

  /** Two digits are what the stream prints: the shortest hexadecimal rendering, padded on
      the left with '0' to width 2. */
  lemma Hex2IsPaddedHex(b: Byte)
    ensures Hex2(b) == PadLeft(Hex(b), 2, '0')
  {
    if b >= 16 {
      assert Hex(b / 16) == [DigitChar(b / 16)];
    }
  }

  /** The value a two-digit hexadecimal rendering denotes. */
  function HexPairValue(s: string): (v: nat)
    requires |s| == 2 && IsHexDigit(s[0]) && IsHexDigit(s[1])
    ensures v < 256
  {
    16 * HexDigitValue(s[0]) + HexDigitValue(s[1])
  }

  /** Reading the two printed digits back gives the byte. */
  lemma Hex2RoundTrip(b: Byte)
    ensures |Hex2(b)| == 2 && IsHexDigit(Hex2(b)[0]) && IsHexDigit(Hex2(b)[1])
    ensures HexPairValue(Hex2(b)) == b
  {
  }

  function Min(a: int, b: int): int { if a <= b then a else b }

  /** `s.substr(pos, count)`: at most `count` characters from `pos` on. */
  function Substr(s: CString, pos: nat, count: nat): (r: CString)
    requires pos <= |s|
    ensures |r| == Min(count, |s| - pos)
    ensures r == s[pos..pos + |r|]
  {
    s[pos..pos + Min(count, |s| - pos)]
  }

  /** `s.rfind(c)`: the index of the last occurrence of `c`, None for `npos`. */
  function LastIndexOf(s: CString, c: CChar): (r: Option<nat>)
    ensures r.Some? ==> r.value < |s| && s[r.value] == c
    ensures r.Some? ==> forall j :: r.value < j < |s| ==> s[j] != c
    ensures r.None? ==> forall j :: 0 <= j < |s| ==> s[j] != c
  {
    if s == [] then None
    else if s[|s| - 1] == c then Some(|s| - 1)
    else LastIndexOf(s[..|s| - 1], c)
  }
}
