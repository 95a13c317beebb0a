/**
 * `hexToRgba` (src/utils/colors.ts): a CSS hex colour code read into red,
 * green, blue and alpha channels.
 *
 * The source strips one '#', doubles the digits of a three-digit code, reads
 * the rest with `parseInt(c, 16)` and extracts each channel with a shift and
 * `& 255`. The model writes out each of these JavaScript operations on
 * unbounded integers: `parseInt` (with NaN as None), ToInt32, the arithmetic
 * right shift and the mask.
 */
module Colors {
  import opened Wrappers
  import Text

  /** The object hexToRgba returns. */
  datatype Rgba = Rgba(r: int, g: int, b: int, a: real)

  // ------------------------------------------------------------ text steps

  /** `s.replace("#", "")`: a string pattern replaces only its first occurrence. */
  function RemoveFirstHash(s: string): string {
    if s == [] then []
    else if s[0] == '#' then s[1..]
    else [s[0]] + RemoveFirstHash(s[1..])
  }

  /** Without a '#' the text is unchanged; with one, exactly one character (a '#') is gone. */
  lemma {:induction false} RemoveFirstHashSpec(s: string)
    ensures '#' !in s ==> RemoveFirstHash(s) == s
    ensures '#' in s ==> |RemoveFirstHash(s)| == |s| - 1
    ensures multiset(RemoveFirstHash(s)) + (if '#' in s then multiset{'#'} else multiset{}) == multiset(s)
  {
    if s != [] {
      assert s == [s[0]] + s[1..];
      if s[0] != '#' {
        RemoveFirstHashSpec(s[1..]);
        assert '#' in s <==> '#' in s[1..];
      }
    }
  }

  /** `c.split("").map(x => x + x).join("")`: every character written twice. */
  function Doubled(c: string): (d: string)
    ensures |d| == 2 * |c|
  {
    if c == [] then [] else [c[0], c[0]] + Doubled(c[1..])
  }

  /** Character i of the input becomes characters 2i and 2i + 1 of the doubled text. */
  lemma {:induction false} DoubledAt(c: string, i: nat)
    requires i < |c|
    ensures Doubled(c)[2 * i] == c[i] && Doubled(c)[2 * i + 1] == c[i]
  {
    if i > 0 {
      DoubledAt(c[1..], i - 1);
    }
  }

  /** A three-character code is expanded by doubling; any other length is kept. */
  function Expand(c: string): string {
    if |c| == 3 then Doubled(c) else c
  }

  // ------------------------------------------------------- parseInt(c, 16)

  /** A radix-16 digit, either case. */
  predicate IsHexDigit(ch: char) {
    '0' <= ch <= '9' || 'a' <= ch <= 'f' || 'A' <= ch <= 'F'
  }

  /** The value of a radix-16 digit. */
  function DigitValue(ch: char): (v: nat)
    requires IsHexDigit(ch)
    ensures v < 16
  {
    if '0' <= ch <= '9' then ch as nat - '0' as nat
    else if 'a' <= ch <= 'f' then ch as nat - 'a' as nat + 10
    else ch as nat - 'A' as nat + 10
  }

  /** The length of the longest prefix made of hex digits. */
  function HexPrefixLength(s: string): (n: nat)
    ensures n <= |s|
    ensures forall i :: 0 <= i < n ==> IsHexDigit(s[i])
    ensures n < |s| ==> !IsHexDigit(s[n])
  {
    if s != [] && IsHexDigit(s[0]) then 1 + HexPrefixLength(s[1..]) else 0
  }

  /** The number a string of hex digits denotes, most significant digit first. */
  function HexValue(digits: string): nat
    requires forall i :: 0 <= i < |digits| ==> IsHexDigit(digits[i])
  {
    if digits == [] then 0
    else HexValue(digits[..|digits| - 1]) * 16 + DigitValue(digits[|digits| - 1])
  }

  /**
   * `parseInt(s, 16)`; None stands for NaN. Leading whitespace is skipped,
   * one sign is read, a "0x"/"0X" prefix is dropped, and the longest run of
   * hex digits that follows is the number; no digit at all is NaN.
   */
  function ParseHex(s: string): Option<int> {
    var t := Text.TrimStart(s);
    var negative := t != [] && t[0] == '-';
    var u := if t != [] && (t[0] == '-' || t[0] == '+') then t[1..] else t;
    var w := if |u| >= 2 && u[0] == '0' && (u[1] == 'x' || u[1] == 'X') then u[2..] else u;
    var n := HexPrefixLength(w);
    if n == 0 then None
    else
      var v: int := HexValue(w[..n]);
      Some(if negative then -v else v)
  }

  // ------------------------------------------------------ bit operations

  /** ECMAScript ToInt32 on an integral number; NaN becomes 0. */
  function ToInt32(v: Option<int>): (r: int)
    ensures -0x8000_0000 <= r < 0x8000_0000
  {
    match v
    case None => 0
    case Some(n) =>
      var m := n % 0x1_0000_0000;
      if m >= 0x8000_0000 then m - 0x1_0000_0000 else m
  }

  /** `x >> k` on a 32-bit signed integer: arithmetic shift, rounding toward minus infinity. */
  function ShiftRight(x: int, k: nat): int {
    if k == 0 then x else ShiftRight(x, k - 1) / 2
  }

  /** `x & 255` on a 32-bit signed integer: the low eight bits of its two's complement. */
  function Low8(x: int): int {
    x % 256
  }

  // ------------------------------------------------------------ hexToRgba

  /** hexToRgba(hex, alpha = 1). */
  function HexToRgba(hex: string, alpha: real := 1.0): (c: Rgba)
    ensures 0 <= c.r <= 255 && 0 <= c.g <= 255 && 0 <= c.b <= 255
    ensures c.a == alpha
  {
    var c := Expand(RemoveFirstHash(hex));
    var num := ToInt32(ParseHex(c));
    Rgba(Low8(ShiftRight(num, 16)), Low8(ShiftRight(num, 8)), Low8(num), alpha)
  }

  // ------------------------------------------------------------ properties

  /** 2^k. */
  function Pow2(k: nat): (p: nat)
    ensures p >= 1
  {
    if k == 0 then 1 else 2 * Pow2(k - 1)
  }

  /** Proof helper: a positive multiple of d is at least d. */
  lemma MulAtLeast(d: int, k: int)
    requires d > 0 && k >= 1
    ensures d * k >= d
  {
    assert d * k == d * (k - 1) + d;
    assert d * (k - 1) >= 0;
  }

  /** Proof helper: the quotient and remainder of Euclidean division are the only ones. */
  lemma DivUnique(x: int, d: int, q: int, r: int)
    requires d > 0 && 0 <= r < d && x == d * q + r
    ensures x / d == q
  {
    var q0, r0 := x / d, x % d;
    assert x == d * q0 + r0 && 0 <= r0 < d;
    assert d * q - d * q0 == r0 - r;
    assert d * (q - q0) == d * q - d * q0;
    if q > q0 {
      MulAtLeast(d, q - q0);
    } else if q < q0 {
      assert d * (q0 - q) == d * q0 - d * q;
      MulAtLeast(d, q0 - q);
    }
  }

  /** Proof helper: halving a quotient by a is dividing by 2a, both rounded down. */
  lemma DivTwice(x: int, a: int)
    requires a > 0
    ensures x / a / 2 == x / (a * 2)
  {
    var q, r := x / a, x % a;
    var h, s := q / 2, q % 2;
    assert x == (a * 2) * h + (a * s + r) by {
      assert x == a * q + r;
      assert a * q == a * (2 * h + s) == (a * 2) * h + a * s;
    }
    assert 0 <= a * s + r < a * 2 by {
      assert 0 <= s <= 1;
      assert a * s <= a;
    }
    DivUnique(x, a * 2, h, a * s + r);
  }

  /** Shifting right by k is division by 2^k, rounded down. */
  lemma {:induction false} ShiftRightIsDivision(x: int, k: nat)
    ensures ShiftRight(x, k) == x / Pow2(k)
  {
    if k > 0 {
      ShiftRightIsDivision(x, k - 1);
      DivTwice(x, Pow2(k - 1));
      assert Pow2(k - 1) * 2 == Pow2(k);
    }
  }

  /** Shifting by 8 divides by 256 and shifting by 16 divides by 65536. */
  lemma ShiftsUsed(x: int)
    ensures ShiftRight(x, 8) == x / 256 && ShiftRight(x, 16) == x / 65536
  {
    ShiftRightIsDivision(x, 8);
    ShiftRightIsDivision(x, 16);
    assert Pow2(8) == 256 && Pow2(16) == 65536;
  }

  /** A leading '#' is removed before parsing: with or without it, the colour is the same. */
  lemma HashIsStripped(c: string, alpha: real)
    requires '#' !in c
    ensures HexToRgba(['#'] + c, alpha) == HexToRgba(c, alpha)
  {
    assert (['#'] + c)[1..] == c;
    RemoveFirstHashSpec(c);
  }

  /** A three-digit code means the same colour as its digits doubled: "#abc" is "#aabbcc". */
  lemma ShortFormIsDoubled(x: char, y: char, z: char, alpha: real)
    requires x != '#' && y != '#' && z != '#'
    ensures HexToRgba(['#', x, y, z], alpha) == HexToRgba(['#', x, x, y, y, z, z], alpha)
  {
    var short, long := [x, y, z], [x, x, y, y, z, z];
    assert RemoveFirstHash(['#'] + short) == short;
    assert RemoveFirstHash(['#'] + long) == long;
    assert ['#', x, y, z] == ['#'] + short;
    assert ['#', x, x, y, y, z, z] == ['#'] + long;
    assert short[1..] == [y, z] && [y, z][1..] == [z] && [z][1..] == [];
    assert Doubled([z]) == [z, z];
    assert Doubled([y, z]) == [y, y, z, z];
    assert Doubled(short) == long;
  }

  /** A code with no hex digit to read (parseInt gives NaN) is black: NaN becomes 0 before the shifts. */
  lemma UnreadableIsBlack(hex: string, alpha: real)
    requires ParseHex(Expand(RemoveFirstHash(hex))) == None
    ensures HexToRgba(hex, alpha) == Rgba(0, 0, 0, alpha)
  {
    assert ShiftRight(0, 16) == 0 && ShiftRight(0, 8) == 0 by {
      ShiftsUsed(0);
    }
  }

  /** Proof helper: dividing q * 256 + r by 256 leaves q, remainder r. */
  lemma DivMod256(q: int, r: int)
    requires 0 <= r < 256
    ensures (q * 256 + r) / 256 == q && (q * 256 + r) % 256 == r
  {
  }

  /** Proof helper: dividing q * 65536 + r by 65536 leaves q. */
  lemma Div65536(q: int, r: int)
    requires 0 <= r < 65536
    ensures (q * 65536 + r) / 65536 == q
  {
  }

  /** Proof helper: ToInt32 leaves a number that already fits in 31 bits as it is. */
  lemma Int32OfSmall(v: int)
    requires 0 <= v < 0x8000_0000
    ensures ToInt32(Some(v)) == v
  {
  }

  /** Proof helper: `(v >> 16) & 255` is the byte above the low sixteen bits. */
  lemma HighByte(v: int, r: int, rest: int)
    requires 0 <= r < 256 && 0 <= rest < 65536 && v == r * 65536 + rest
    ensures Low8(ShiftRight(v, 16)) == r
  {
    ShiftsUsed(v);
    Div65536(r, rest);
  }

  /** Proof helper: `(v >> 8) & 255` is the second lowest byte. */
  lemma MiddleByte(v: int, q: int, g: int, b: int)
    requires 0 <= g < 256 && 0 <= b < 256 && v == (q * 256 + g) * 256 + b
    ensures Low8(ShiftRight(v, 8)) == g
  {
    ShiftsUsed(v);
    DivMod256(q * 256 + g, b);
    DivMod256(q, g);
  }

  /** Proof helper: `v & 255` is the lowest byte. */
  lemma LowByte(v: int, q: int, b: int)
    requires 0 <= b < 256 && v == q * 256 + b
    ensures Low8(v) == b
  {
    DivMod256(q, b);
  }

  /** The three bytes of a 24-bit value come back out of ToInt32, the shifts and the masks. */
  lemma ChannelsOfValue(r: int, g: int, b: int)
    requires 0 <= r < 256 && 0 <= g < 256 && 0 <= b < 256
    ensures var v := r * 65536 + g * 256 + b;
      && ToInt32(Some(v)) == v
      && Low8(ShiftRight(v, 16)) == r && Low8(ShiftRight(v, 8)) == g && Low8(v) == b
  {
    var v := r * 65536 + g * 256 + b;
    Int32OfSmall(v);
    HighByte(v, r, g * 256 + b);
    MiddleByte(v, r, g, b);
    LowByte(v, r * 256 + g, b);
  }

  /** The value of six hex digits, written out digit by digit. */
  lemma HexValueOfSix(h: string)
    requires |h| == 6 && forall i :: 0 <= i < 6 ==> IsHexDigit(h[i])
    ensures HexValue(h) == (16 * DigitValue(h[0]) + DigitValue(h[1])) * 65536
                         + (16 * DigitValue(h[2]) + DigitValue(h[3])) * 256
                         + (16 * DigitValue(h[4]) + DigitValue(h[5]))
  {
    assert h[..5][..4] == h[..4] && h[..4][..3] == h[..3] && h[..3][..2] == h[..2];
    assert h[..2][..1] == h[..1] && h[..1][..0] == [];
    assert HexValue(h[..1]) == DigitValue(h[0]);
    assert HexValue(h[..2]) == DigitValue(h[0]) * 16 + DigitValue(h[1]);
    assert HexValue(h[..3]) == HexValue(h[..2]) * 16 + DigitValue(h[2]);
    assert HexValue(h[..4]) == HexValue(h[..3]) * 16 + DigitValue(h[3]);
    assert HexValue(h[..5]) == HexValue(h[..4]) * 16 + DigitValue(h[4]);
    assert HexValue(h) == HexValue(h[..5]) * 16 + DigitValue(h[5]);
  }

  /** Six hex digits are read whole by `parseInt(c, 16)`. */
  lemma ParseSixDigits(h: string)
    requires |h| == 6 && forall i :: 0 <= i < 6 ==> IsHexDigit(h[i])
    ensures ParseHex(h) == Some(HexValue(h))
  {
    assert !Text.IsSpace(h[0]) by { assert IsHexDigit(h[0]); }
    assert Text.TrimStart(h) == h;
    assert h[0] != '-' && h[0] != '+' by { assert IsHexDigit(h[0]); }
    assert !(h[0] == '0' && (h[1] == 'x' || h[1] == 'X')) by { assert IsHexDigit(h[1]); }
    assert HexPrefixLength(h) == 6;
    assert h[..6] == h;
  }

  /** The number ToInt32 makes of six hex digits, byte by byte. */
  lemma SixDigitNumber(h: string)
    requires |h| == 6 && forall i :: 0 <= i < 6 ==> IsHexDigit(h[i])
    ensures ToInt32(ParseHex(h)) == (16 * DigitValue(h[0]) + DigitValue(h[1])) * 65536
                                  + (16 * DigitValue(h[2]) + DigitValue(h[3])) * 256
                                  + (16 * DigitValue(h[4]) + DigitValue(h[5]))
  {
    HexValueOfSix(h);
    ParseSixDigits(h);
    Int32OfSmall(HexValue(h));
  }

  /** A code read as the 24-bit number of three bytes decodes to those bytes. */
  lemma DecodedFromBytes(c: string, alpha: real, r: int, g: int, b: int)
    requires 0 <= r < 256 && 0 <= g < 256 && 0 <= b < 256
    requires ToInt32(ParseHex(Expand(RemoveFirstHash(c)))) == r * 65536 + g * 256 + b
    ensures HexToRgba(c, alpha) == Rgba(r, g, b, alpha)
  {
    ChannelsOfValue(r, g, b);
  }

  /** Six hex digits without the hash decode pair by pair. */
  lemma SixDigitsDecoded(h: string, alpha: real)
    requires |h| == 6 && forall i :: 0 <= i < 6 ==> IsHexDigit(h[i]) && h[i] != '#'
    ensures HexToRgba(h, alpha)
         == Rgba(16 * DigitValue(h[0]) + DigitValue(h[1]),
                 16 * DigitValue(h[2]) + DigitValue(h[3]),
                 16 * DigitValue(h[4]) + DigitValue(h[5]), alpha)
  {
    RemoveFirstHashSpec(h);
    assert Expand(RemoveFirstHash(h)) == h;
    SixDigitNumber(h);
    DecodedFromBytes(h, alpha, 16 * DigitValue(h[0]) + DigitValue(h[1]),
                               16 * DigitValue(h[2]) + DigitValue(h[3]),
                               16 * DigitValue(h[4]) + DigitValue(h[5]));
  }

  /** Six hex digits: red, green and blue are the values of digit pairs 1-2, 3-4 and 5-6. */
  lemma SixDigitChannels(h: string, alpha: real)
    requires |h| == 6 && forall i :: 0 <= i < 6 ==> IsHexDigit(h[i])
    ensures HexToRgba(['#'] + h, alpha)
         == Rgba(16 * DigitValue(h[0]) + DigitValue(h[1]),
                 16 * DigitValue(h[2]) + DigitValue(h[3]),
                 16 * DigitValue(h[4]) + DigitValue(h[5]), alpha)
  {
    forall i | 0 <= i < 6 ensures h[i] != '#' {
      assert IsHexDigit(h[i]);
    }
    HashIsStripped(h, alpha);
    SixDigitsDecoded(h, alpha);
  }
}
