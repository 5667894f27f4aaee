// System.Guid as the model sees it: 32 lower-case hexadecimal digits, written in the
// hyphenated "D" format (8-4-4-4-12) whenever it is interpolated into a string.
module Guids {
  predicate IsLowerHexDigit(c: char) { '0' <= c <= '9' || 'a' <= c <= 'f' }

  predicate IsGuidDigits(s: string)
  {
    |s| == 32 && forall i :: 0 <= i < |s| ==> IsLowerHexDigit(s[i])
  }

  type Guid = s: string | IsGuidDigits(s) witness "00000000000000000000000000000000"

  /** Guid.ToString(), the form string interpolation uses. */
  function Format(g: Guid): (s: string)
    ensures |s| == 36
    ensures s[8] == '-' && s[13] == '-' && s[18] == '-' && s[23] == '-'
  {
    g[..8] + "-" + g[8..12] + "-" + g[12..16] + "-" + g[16..20] + "-" + g[20..]
  }

  /** Strips the hyphens of a formatted Guid again. */
  function Unformat(s: string): string
    requires |s| == 36
  {
    s[..8] + s[9..13] + s[14..18] + s[19..23] + s[24..]
  }

  lemma UnformatFormat(g: Guid)
    ensures Unformat(Format(g)) == g
  {
    var s := Format(g);
    assert s[..8] == g[..8];
    assert s[9..13] == g[8..12];
    assert s[14..18] == g[12..16];
    assert s[19..23] == g[16..20];
    assert s[24..] == g[20..];
    assert g == g[..8] + g[8..12] + g[12..16] + g[16..20] + g[20..];
  }

  /** Distinct Guids are written differently. */
  lemma FormatInjective(a: Guid, b: Guid)
    ensures Format(a) == Format(b) ==> a == b
  {
    UnformatFormat(a);
    UnformatFormat(b);
  }

  /** A formatted Guid contains no path separator, so it is always a single key segment. */
  lemma FormatCharacters(g: Guid)
    ensures forall i :: 0 <= i < |Format(g)| ==> Format(g)[i] == '-' || IsLowerHexDigit(Format(g)[i])
  {
    var s := Format(g);
    forall i | 0 <= i < 36
      ensures s[i] == '-' || IsLowerHexDigit(s[i])
    {
      if i < 8 { assert s[i] == g[i]; }
      else if 8 < i < 13 { assert s[i] == g[i - 1]; }
      else if 13 < i < 18 { assert s[i] == g[i - 2]; }
      else if 18 < i < 23 { assert s[i] == g[i - 3]; }
      else if 23 < i { assert s[i] == g[i - 4]; }
    }
  }
}
