// Hexadecimal renderings of a digest: the browser writes each 32-bit word with
// Number.prototype.toString(16) padded to eight digits; .NET's Convert.ToHexString writes each
// byte as two upper-case digits.
module Hex {
  import opened Text
  import opened Sha256Spec

  function HexDigit(d: nat, upper: bool): (c: char)
    requires d < 16
  {
    if d < 10 then DigitChar(d)
    else if upper then (d - 10 + 'A' as int) as char
    else (d - 10 + 'a' as int) as char
  }

  predicate IsLowerHex(s: string)
  {
    forall i :: 0 <= i < |s| ==> '0' <= s[i] <= '9' || 'a' <= s[i] <= 'f'
  }

  function Pow16(k: nat): (p: nat)
    ensures p >= 1
  {
    if k == 0 then 1 else 16 * Pow16(k - 1)
  }

  /** Number.prototype.toString(16) of a non-negative integer: lower case, no leading zeros. */
  function ToRadix16(n: nat): (s: string)
    ensures |s| >= 1 && IsLowerHex(s)
    decreases n
  {
    if n < 16 then [HexDigit(n, false)] else ToRadix16(n / 16) + [HexDigit(n % 16, false)]
  }

  /** String.prototype.padStart with a one-character fill. */
  function PadStart(s: string, width: nat, fill: char): (r: string)
    ensures |r| == Max(|s|, width)
    ensures r[|r| - |s|..] == s
    ensures forall i :: 0 <= i < |r| - |s| ==> r[i] == fill
  {
    if |s| >= width then s else seq(width - |s|, _ => fill) + s
  }

  /** The lowest `width` hexadecimal digits of n, most significant first. */
  function FixedHex(n: nat, width: nat, upper: bool): (s: string)
    ensures |s| == width
  {
    if width == 0 then [] else FixedHex(n / 16, width - 1, upper) + [HexDigit(n % 16, upper)]
  }

  lemma {:induction false} FixedHexOfZero(width: nat, upper: bool)
    ensures FixedHex(0, width, upper) == seq(width, _ => '0')
  {
    if width > 0 {
      FixedHexOfZero(width - 1, upper);
    }
  }

  lemma PadStartSnoc(s: string, c: char, width: nat, fill: char)
    requires width >= 1
    ensures PadStart(s + [c], width, fill) == PadStart(s, width - 1, fill) + [c]
  {
  }

  /** A number below 16^width, written by toString(16) and padded to `width`, is its fixed-width form. */
  lemma {:induction false} ToRadix16Padded(n: nat, width: nat)
    requires width >= 1 && n < Pow16(width)
    ensures PadStart(ToRadix16(n), width, '0') == FixedHex(n, width, false)
    decreases width
  {
    if n < 16 {
      FixedHexOfZero(width - 1, false);
      assert n / 16 == 0;
    } else {
      ToRadix16Padded(n / 16, width - 1);
      PadStartSnoc(ToRadix16(n / 16), HexDigit(n % 16, false), width, '0');
    }
  }

  lemma WordBelowPow16(w: Word)
    ensures w as nat < Pow16(8)
  {
    assert Pow16(8) == 0x1_0000_0000;
  }

  /** How the browser writes one word of the hash: toString(16).padStart(8, '0'). */
  function WordHex(w: Word): (s: string)
    ensures |s| == 8 && IsLowerHex(s)
  {
    WordBelowPow16(w);
    ToRadix16Padded(w as nat, 8);
    PadStart(ToRadix16(w as nat), 8, '0')
  }

  /** The browser's hex string of a sequence of words. */
  function WordsHex(ws: seq<Word>): (s: string)
    ensures |s| == 8 * |ws| && IsLowerHex(s)
  {
    if ws == [] then "" else WordsHex(ws[..|ws| - 1]) + WordHex(ws[|ws| - 1])
  }

  /** The bytes of words, each most significant byte first, as .NET's hash functions return them. */
  function WordsToBytes(ws: seq<Word>): (bs: seq<Byte>)
    ensures |bs| == 4 * |ws|
  {
    if ws == [] then [] else WordsToBytes(ws[..|ws| - 1]) + BigEndian(ws[|ws| - 1] as nat, 4)
  }

  /** Convert.ToHexString: two upper-case digits per byte. */
  function UpperHex(bs: seq<Byte>): (s: string)
    ensures |s| == 2 * |bs|
  {
    if bs == [] then "" else UpperHex(bs[..|bs| - 1]) + FixedHex(bs[|bs| - 1] as nat, 2, true)
  }

  lemma {:induction false} ToUpperFixedHex(n: nat, width: nat)
    ensures ToUpper(FixedHex(n, width, false)) == FixedHex(n, width, true)
  {
    if width > 0 {
      hide ToUpper;
      var s, d := FixedHex(n / 16, width - 1, false), n % 16;
      ToUpperFixedHex(n / 16, width - 1);
      ToUpperAppend(s, [HexDigit(d, false)]);
      UpperHexDigit(d);
      assert ToUpper([HexDigit(d, false)]) == [HexDigit(d, true)];
    }
  }

  lemma UpperHexDigit(d: nat)
    requires d < 16
    ensures ToUpperAscii(HexDigit(d, false)) == HexDigit(d, true)
  {
  }

  lemma ToUpperAppend(a: string, b: string)
    ensures ToUpper(a + b) == ToUpper(a) + ToUpper(b)
  {
  }

  /** Two hex digits of the low byte of n, and the digits above them. */
  lemma FixedHexByte(n: nat, width: nat, upper: bool)
    ensures FixedHex(n, width + 2, upper) == FixedHex(n / 256, width, upper) + FixedHex(n % 256, 2, upper)
  {
    var r := n % 256;
    assert n / 16 / 16 == n / 256;
    assert (n / 16) % 16 == r / 16 && r / 16 < 16 && (r / 16) / 16 == 0 && (r / 16) % 16 == r / 16;
    assert r % 16 == n % 16;
    assert FixedHex(r, 2, upper) == FixedHex(r / 16, 1, upper) + [HexDigit(r % 16, upper)];
    assert FixedHex(r / 16, 1, upper) == [HexDigit(r / 16, upper)];
  }

  /** The upper-case hex of the big-endian bytes of n is n's fixed-width upper-case hex. */
  lemma {:induction false} UpperHexBigEndian(n: nat, count: nat)
    ensures UpperHex(BigEndian(n, count)) == FixedHex(n, 2 * count, true)
  {
    if count > 0 {
      UpperHexBigEndian(n / 256, count - 1);
      FixedHexByte(n, 2 * (count - 1), true);
    }
  }

  lemma {:induction false} UpperHexAppend(a: seq<Byte>, b: seq<Byte>)
    ensures UpperHex(a + b) == UpperHex(a) + UpperHex(b)
    decreases |b|
  {
    if b == [] {
      assert a + b == a;
    } else {
      UpperHexAppend(a, b[..|b| - 1]);
      assert (a + b)[..|a + b| - 1] == a + b[..|b| - 1];
    }
  }

  /**
   * The browser's lower-case string of a digest and .NET's upper-case string of the same digest
   * differ only in letter case.
   */
  lemma {:induction false} BrowserAndServerHexAgree(ws: seq<Word>)
    ensures UpperHex(WordsToBytes(ws)) == ToUpper(WordsHex(ws))
    decreases |ws|
  {
    if ws != [] {
      var init, w := ws[..|ws| - 1], ws[|ws| - 1];
      BrowserAndServerHexAgree(init);
      UpperHexAppend(WordsToBytes(init), BigEndian(w as nat, 4));
      UpperHexBigEndian(w as nat, 4);
      WordBelowPow16(w);
      ToRadix16Padded(w as nat, 8);
      ToUpperFixedHex(w as nat, 8);
      ToUpperAppend(WordsHex(init), WordHex(w));
    }
  }
}
