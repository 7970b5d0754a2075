/** Text encodings as far as libpqxx needs them (libpqxx/include/pqxx/internal/encodings.hxx):
    where characters begin, so that a byte inside a multibyte character is never
    mistaken for an ASCII character. */
module Encodings {
  import opened Options

  type byte = x: int | 0 <= x < 256

  datatype Group = AsciiSafe | TwoTier | Gb18030 | Sjis

  /** The length of the first character of `s`; none if it is truncated or invalid. */
  function GlyphLen(enc: Group, s: seq<byte>): (n: Option<nat>)
    requires s != []
    ensures n.Some? ==> 1 <= n.value <= |s|
    ensures s[0] < 0x80 ==> n == Some(1)
  {
    match enc
    case AsciiSafe => Some(1)
    case TwoTier => if s[0] < 0x80 then Some(1) else if 2 <= |s| then Some(2) else None
    case Gb18030 =>
      if s[0] < 0x80 then Some(1)
      else if s[0] == 0x80 || |s| < 2 then None
      else if 0x40 <= s[1] <= 0xfe then (if s[1] == 0x7f then None else Some(2))
      else if |s| < 4 then None
      else if 0x30 <= s[1] <= 0x39 && 0x81 <= s[2] <= 0xfe && 0x30 <= s[3] <= 0x39 then Some(4)
      else None
    case Sjis =>
      if s[0] < 0x80 || 0xa1 <= s[0] <= 0xdf then Some(1)
      else if !(0x81 <= s[0] <= 0x9f) && !(0xe0 <= s[0] <= 0xfc) then None
      else if |s| < 2 then None
      else Some(2)
  }

  /** Characters at the limits of their ranges, whatever follows them. */
  lemma KnownGlyphs(b: byte, t: seq<byte>)
    ensures GlyphLen(TwoTier, [0x80, b] + t) == GlyphLen(TwoTier, [0xff, b] + t) == Some(2) && GlyphLen(TwoTier, [0x80]) == None
    ensures forall c: byte :: c in {0xa1, 0xdf} ==> GlyphLen(Sjis, [c] + t) == Some(1)
    ensures forall c: byte :: c in {0x81, 0x9f, 0xe0, 0xfc} ==> GlyphLen(Sjis, [c, b] + t) == Some(2) && GlyphLen(Sjis, [c]) == None
    ensures forall c: byte :: c in {0x80, 0xa0, 0xfd, 0xff} ==> GlyphLen(Sjis, [c] + t) == None
    ensures forall c: byte :: c in {0x40, 0x7e, 0x80, 0xfe} ==> GlyphLen(Gb18030, [0x81, c] + t) == GlyphLen(Gb18030, [0xff, c] + t) == Some(2)
    ensures forall c: byte :: c in {0x2f, 0x3a, 0x3f, 0x7f, 0xff} ==> GlyphLen(Gb18030, [0x81, c] + t) == None
    ensures GlyphLen(Gb18030, [0x80] + t) == GlyphLen(Gb18030, [0x81]) == None
    ensures GlyphLen(Gb18030, [0x81, 0x30, 0x81, 0x30] + t) == GlyphLen(Gb18030, [0x81, 0x39, 0xfe, 0x39] + t) == Some(4)
    ensures GlyphLen(Gb18030, [0x81, 0x30, 0x80, 0x30] + t) == GlyphLen(Gb18030, [0x81, 0x30, 0xff, 0x30] + t) == None
    ensures GlyphLen(Gb18030, [0x81, 0x30, 0x81, 0x2f] + t) == GlyphLen(Gb18030, [0x81, 0x30, 0x81, 0x3a] + t) == None
    ensures GlyphLen(Gb18030, [0x81, 0x30, 0x81]) == None
  {
  }

  /** A character's length does not depend on what follows it. */
  lemma GlyphLocal(enc: Group, s: seq<byte>, t: seq<byte>)
    requires s != [] && GlyphLen(enc, s).Some?
    ensures var n := GlyphLen(enc, s).value; GlyphLen(enc, s[..n] + t) == Some(n)
  {
    var n := GlyphLen(enc, s).value;
    var u := s[..n] + t;
    assert forall i :: 0 <= i < n ==> u[i] == s[i];
  }

  /** The text is a sequence of whole, valid characters. */
  predicate WellFormed(enc: Group, s: seq<byte>)
    decreases |s|
  {
    s == [] || (GlyphLen(enc, s).Some? && WellFormed(enc, s[GlyphLen(enc, s).value..]))
  }

  /** The offset of the first character of `s` that is one of `needle`, or the length
      of `s`; none if there is a bad character before it. */
  function Find(enc: Group, needle: set<byte>, s: seq<byte>): (r: Option<nat>)
    ensures r.Some? ==> r.value <= |s| && (r.value < |s| ==> s[r.value] in needle)
    decreases |s|
  {
    if s == [] then Some(0)
    else
      match GlyphLen(enc, s)
      case None => None
      case Some(n) =>
        if s[0] in needle then Some(0)
        else
          match Find(enc, needle, s[n..])
          case None => None
          case Some(k) => Some(n + k)
  }

  /** The first step of a search. */
  lemma FindCons(enc: Group, needle: set<byte>, s: seq<byte>)
    requires s != []
    ensures GlyphLen(enc, s).None? ==> Find(enc, needle, s).None?
    ensures GlyphLen(enc, s).Some? && s[0] in needle ==> Find(enc, needle, s) == Some(0)
    ensures GlyphLen(enc, s).Some? && s[0] !in needle ==>
      match Find(enc, needle, s[GlyphLen(enc, s).value..])
      case None => Find(enc, needle, s).None?
      case Some(k) => Find(enc, needle, s) == Some(GlyphLen(enc, s).value + k)
  {
  }

  lemma FindNothing(enc: Group, needle: set<byte>, s: seq<byte>)
    requires s == []
    ensures Find(enc, needle, s) == Some(0)
  {
  }

  /** The finder: walk from character to character until one matches. */
  method FindAsciiChar(enc: Group, needle: set<byte>, haystack: seq<byte>, start: nat) returns (r: Option<nat>)
    requires start <= |haystack| && forall c :: c in needle ==> c < 0x80
    ensures r.Some? <==> Find(enc, needle, haystack[start..]).Some?
    ensures r.Some? ==> start <= r.value <= |haystack| && r.value - start == Find(enc, needle, haystack[start..]).value
  {
    hide GlyphLen, Find;
    var here := start;
    while here < |haystack|
      invariant start <= here <= |haystack|
      invariant Find(enc, needle, haystack[start..]).Some? <==> Find(enc, needle, haystack[here..]).Some?
      invariant Find(enc, needle, haystack[here..]).Some? ==>
        Find(enc, needle, haystack[start..]).value == here - start + Find(enc, needle, haystack[here..]).value
    {
      FindCons(enc, needle, haystack[here..]);
      var len := GlyphLen(enc, haystack[here..]);
      if len.None? {
        return None;
      }
      if haystack[here] in needle {
        return Some(here);
      }
      assert haystack[here..][len.value..] == haystack[here + len.value..];
      here := here + len.value;
    }
    FindNothing(enc, needle, haystack[here..]);
    return Some(|haystack|);
  }
}
