/** Where a cursor's query really ends (libpqxx/src/sql_cursor.cxx): trailing
    whitespace and semicolons are dropped, scanning backwards where the encoding
    allows it and forwards from character to character where it does not. */
module QueryEnd {
  import opened Options
  import opened Encodings

  const USELESS: set<byte> := {32, 9, 10, 13, 59}

  predicate UselessTrail(c: byte) { c in USELESS }

  predicate AllUseless(s: seq<byte>) { forall i :: 0 <= i < |s| ==> UselessTrail(s[i]) }

  /** `end` is the length of the shortest prefix that drops only useless bytes. */
  predicate ShortestBytes(query: seq<byte>, end: nat) {
    && end <= |query| && AllUseless(query[end..])
    && forall e :: 0 <= e < end ==> !AllUseless(query[e..])
  }

  /** `end` is the length of the shortest prefix of whole characters that drops
      only useless characters. */
  predicate ShortestText(enc: Group, query: seq<byte>, end: nat) {
    && end <= |query| && WellFormed(enc, query[..end]) && AllUseless(query[end..])
    && forall e :: 0 <= e < end && WellFormed(enc, query[..e]) ==> !AllUseless(query[e..])
  }

  /** Space, tab, newline, return and semicolon, all of them ASCII. */
  lemma UselessByte(c: byte)
    ensures UselessTrail(c) <==> c == 32 || c == 9 || c == 10 || c == 13 || c == 59
    ensures UselessTrail(c) <==> c in USELESS
    ensures UselessTrail(c) ==> c < 0x80
  {
  }

  lemma UselessGlyph()
    ensures forall c: byte :: UselessTrail(c) <==> c in USELESS
    ensures forall c: byte :: UselessTrail(c) ==> c < 0x80
  {
  }

  // The end of the last useful character, walking over the characters of the query.
  function LastUseful(enc: Group, s: seq<byte>): (end: nat)
    requires WellFormed(enc, s)
    ensures end <= |s|
    decreases |s|
  {
    if s == [] then 0
    else
      var n := GlyphLen(enc, s).value;
      var rest := LastUseful(enc, s[n..]);
      if rest > 0 then n + rest else if UselessTrail(s[0]) then 0 else n
  }

  // The walk, one character at a time.

  lemma LastUsefulCons(enc: Group, s: seq<byte>)
    requires s != [] && WellFormed(enc, s)
    ensures GlyphLen(enc, s).Some? && WellFormed(enc, s[GlyphLen(enc, s).value..])
    ensures var rest := LastUseful(enc, s[GlyphLen(enc, s).value..]);
      LastUseful(enc, s) ==
        if rest > 0 then GlyphLen(enc, s).value + rest else if UselessTrail(s[0]) then 0 else GlyphLen(enc, s).value
  {
  }

  lemma FormedCons(enc: Group, s: seq<byte>)
    requires s != []
    ensures GlyphLen(enc, s).None? ==> !WellFormed(enc, s)
    ensures GlyphLen(enc, s).Some? ==> (WellFormed(enc, s) <==> WellFormed(enc, s[GlyphLen(enc, s).value..]))
    ensures UselessTrail(s[0]) ==> GlyphLen(enc, s) == Some(1)
  {
    hide GlyphLen, UselessTrail;
    UselessByte(s[0]);
  }

  lemma PrefixFormed(enc: Group, s: seq<byte>, e: nat)
    requires GlyphLenOf(enc, s) && 0 < e <= |s|
    ensures var n := GlyphLen(enc, s).value;
      WellFormed(enc, s[..e]) <==> n <= e && WellFormed(enc, s[n..][..e - n])
  {
    hide GlyphLen;
    PrefixGlyph(enc, s, e);
    var n := GlyphLen(enc, s).value;
    if n <= e {
      assert s[..e][n..] == s[n..][..e - n];
    }
  }

  predicate GlyphLenOf(enc: Group, s: seq<byte>) { s != [] && GlyphLen(enc, s).Some? }

  /** What the walk drops is useless, and it stops at the end of a character. */
  lemma {:induction false} LastUsefulDrops(enc: Group, s: seq<byte>)
    requires WellFormed(enc, s)
    ensures WellFormed(enc, s[..LastUseful(enc, s)]) && AllUseless(s[LastUseful(enc, s)..])
    decreases |s|
  {
    hide GlyphLen, UselessTrail, LastUseful, WellFormed;
    WellFormedEmpty(enc);
    var end := LastUseful(enc, s);
    if s != [] {
      LastUsefulCons(enc, s);
      var n := GlyphLen(enc, s).value;
      var rest := s[n..];
      UselessByte(s[0]);
      LastUsefulDrops(enc, rest);
      var r := LastUseful(enc, rest);
      if end > 0 {
        PrefixFormed(enc, s, end);
        assert rest[r..] == s[end..];
      } else {
        assert s == [s[0]] + rest && rest[0..] == rest;
      }
    }
  }

  /** No shorter prefix would do. */
  lemma {:induction false} LastUsefulLeast(enc: Group, s: seq<byte>, e: nat)
    requires WellFormed(enc, s) && e < LastUseful(enc, s) && WellFormed(enc, s[..e])
    ensures !AllUseless(s[e..])
    decreases |s|
  {
    hide GlyphLen, UselessTrail, LastUseful, WellFormed;
    WellFormedEmpty(enc);
    LastUsefulCons(enc, s);
    UselessByte(s[0]);
    var n := GlyphLen(enc, s).value;
    var rest := s[n..];
    if e == 0 {
      if UselessTrail(s[0]) {
        assert rest[..0] == [];
        LastUsefulLeast(enc, rest, 0);
        var i :| 0 <= i < |rest| && !UselessTrail(rest[i]);
        assert s[0..][n + i] == rest[i];
      }
    } else {
      PrefixFormed(enc, s, e);
      LastUsefulLeast(enc, rest, e - n);
      assert rest[e - n..] == s[e..];
    }
  }

  lemma WellFormedEmpty(enc: Group)
    ensures WellFormed(enc, []) && LastUseful(enc, []) == 0
  {
  }

  lemma LastUsefulShortest(enc: Group, s: seq<byte>)
    requires WellFormed(enc, s)
    ensures ShortestText(enc, s, LastUseful(enc, s))
  {
    hide WellFormed, LastUseful;
    LastUsefulDrops(enc, s);
    forall e | 0 <= e < LastUseful(enc, s) && WellFormed(enc, s[..e])
      ensures !AllUseless(s[e..])
    {
      LastUsefulLeast(enc, s, e);
    }
  }

  /** A nonempty well-formed prefix begins with the text's first character. */
  lemma PrefixGlyph(enc: Group, s: seq<byte>, e: nat)
    requires s != [] && 0 < e <= |s| && GlyphLen(enc, s).Some?
    ensures GlyphLen(enc, s).value <= e ==> GlyphLen(enc, s[..e]) == GlyphLen(enc, s)
    ensures GlyphLen(enc, s[..e]).Some? ==> GlyphLen(enc, s[..e]) == GlyphLen(enc, s)
  {
    var n := GlyphLen(enc, s).value;
    var p := s[..e];
    assert forall i :: 0 <= i < e ==> p[i] == s[i];
    if n <= e {
      GlyphLocal(enc, s, s[n..e]);
      assert p == s[..n] + s[n..e];
    }
    if GlyphLen(enc, p).Some? {
      GlyphLocal(enc, p, s[GlyphLen(enc, p).value..]);
      assert s == p[..GlyphLen(enc, p).value] + s[GlyphLen(enc, p).value..];
    }
  }

  /** The finder stops at the first useless character, and only bad text stops it short. */
  lemma {:induction false} FindLastUseful(enc: Group, needle: set<byte>, s: seq<byte>)
    requires forall c :: c in needle <==> UselessTrail(c)
    ensures match Find(enc, needle, s)
      case None => !WellFormed(enc, s)
      case Some(k) => Continues(enc, s, k, After(s, k))
    decreases |s|
  {
    hide GlyphLen, UselessTrail, Find, WellFormed, LastUseful, Continues;
    if s == [] {
      FindNothing(enc, needle, s);
      ContinuesEmpty(enc);
    } else {
      FindCons(enc, needle, s);
      FormedCons(enc, s);
      if UselessTrail(s[0]) {
        ContinuesHere(enc, s);
      } else if GlyphLen(enc, s).Some? {
        var n := GlyphLen(enc, s).value;
        FindLastUseful(enc, needle, s[n..]);
        var found := Find(enc, needle, s[n..]);
        if found.Some? {
          AfterDrop(s, n, found.value);
          ContinuesStep(enc, s, found.value, After(s, n + found.value));
        }
      }
    }
  }

  lemma AfterDrop(s: seq<byte>, n: nat, k: nat)
    requires n <= |s|
    ensures After(s[n..], k) == After(s, n + k)
  {
  }

  lemma ContinuesEmpty(enc: Group)
    ensures Continues(enc, [], 0, [])
  {
  }

  lemma ContinuesHere(enc: Group, s: seq<byte>)
    requires s != [] && UselessTrail(s[0])
    ensures Continues(enc, s, 0, s[1..])
  {
    hide GlyphLen, WellFormed, LastUseful;
    FormedCons(enc, s);
    if WellFormed(enc, s) {
      LastUsefulCons(enc, s);
    }
  }

  lemma ContinuesStep(enc: Group, s: seq<byte>, k: nat, rest: seq<byte>)
    requires GlyphLenOf(enc, s) && !UselessTrail(s[0]) && Continues(enc, s[GlyphLen(enc, s).value..], k, rest)
    ensures Continues(enc, s, GlyphLen(enc, s).value + k, rest)
  {
    hide GlyphLen, UselessTrail, WellFormed, LastUseful;
    FormedCons(enc, s);
    if WellFormed(enc, s) {
      LastUsefulCons(enc, s);
    }
  }

  /** What follows the character at `k`. */
  function After(s: seq<byte>, k: nat): seq<byte> { if k < |s| then s[k + 1..] else [] }

  /** The walk over `s` is useful text up to `k` and then the walk over `rest`. */
  predicate Continues(enc: Group, s: seq<byte>, k: nat, rest: seq<byte>) {
    && (WellFormed(enc, s) <==> WellFormed(enc, rest))
    && (WellFormed(enc, s) ==>
         LastUseful(enc, s) == if LastUseful(enc, rest) > 0 then k + 1 + LastUseful(enc, rest) else k)
  }

  /** Both scans; none if the finder meets a bad character. */
  method FindQueryEnd(enc: Group, query: seq<byte>) returns (end: Option<nat>)
    ensures enc.AsciiSafe? ==> end.Some? && ShortestBytes(query, end.value)
    ensures end.Some? <==> WellFormed(enc, query)
    ensures end.Some? ==> ShortestText(enc, query, end.value)
    ensures Ascii(query) ==> end.Some? && ShortestBytes(query, end.value)
  {
    if enc.AsciiSafe? {
      var e := ScanBackward(query);
      AsciiSafeFormed(query);
      AsciiSafeFormed(query[..e]);
      return Some(e);
    }
    end := ScanForward(enc, query);
    if end.Some? {
      LastUsefulShortest(enc, query);
    }
    if Ascii(query) {
      AsciiFormed(enc, query);
      AsciiShortest(enc, query, end.value);
    }
  }

  method ScanBackward(query: seq<byte>) returns (end: nat)
    ensures ShortestBytes(query, end)
  {
    end := |query|;
    while end > 0 && UselessTrail(query[end - 1])
      invariant end <= |query| && AllUseless(query[end..])
    {
      end := end - 1;
      assert query[end..] == [query[end]] + query[end + 1..];
    }
    forall e | 0 <= e < end
      ensures !AllUseless(query[e..])
    {
      assert query[e..][end - 1 - e] == query[end - 1];
    }
  }

  method ScanForward(enc: Group, query: seq<byte>) returns (r: Option<nat>)
    ensures r.Some? <==> WellFormed(enc, query)
    ensures r.Some? ==> r.value == LastUseful(enc, query)
  {
    hide GlyphLen, UselessTrail, Find, LastUseful, WellFormed;
    UselessGlyph();
    WellFormedEmpty(enc);
    var end, here := 0, 0;
    assert query[0..] == query;
    while here < |query|
      invariant 0 <= end <= |query| && 0 <= here <= |query| + 1
      invariant var rest := query[if here < |query| then here else |query|..];
        && (WellFormed(enc, query) <==> WellFormed(enc, rest))
        && (WellFormed(enc, query) ==>
             LastUseful(enc, query) == if LastUseful(enc, rest) > 0 then here + LastUseful(enc, rest) else end)
      decreases |query| - here
    {
      FindLastUseful(enc, USELESS, query[here..]);
      var found := FindAsciiChar(enc, USELESS, query, here);
      if found.None? {
        return None;
      }
      var next := found.value;
      if next < |query| {
        assert query[here..][next - here + 1..] == query[next + 1..];
      } else {
        assert query[|query|..] == [];
      }
      if next - here > 0 {
        end := next;
      }
      here := next + 1;
    }
    assert query[|query|..] == [];
    return Some(end);
  }

  lemma {:induction false} AsciiSafeFormed(s: seq<byte>)
    ensures WellFormed(AsciiSafe, s)
  {
    if s != [] {
      AsciiSafeFormed(s[1..]);
    }
  }

  predicate Ascii(s: seq<byte>) { forall i :: 0 <= i < |s| ==> s[i] < 0x80 }

  lemma {:induction false} AsciiFormed(enc: Group, s: seq<byte>)
    requires Ascii(s)
    ensures WellFormed(enc, s)
  {
    if s != [] {
      AsciiFormed(enc, s[1..]);
    }
  }

  /** Where the two scans can differ: the backward one may cut into a multibyte
      character that ends in a useless byte, and only there. */
  lemma ScansAgree(enc: Group, query: seq<byte>, end: nat, bytes: nat)
    requires ShortestText(enc, query, end) && ShortestBytes(query, bytes)
    ensures bytes <= end
    ensures bytes == end <==> end == 0 || !UselessTrail(query[end - 1])
    ensures Ascii(query) ==> bytes == end
  {
    if bytes < end {
      assert query[bytes..][end - 1 - bytes] == query[end - 1];
    }
    if end > 0 && UselessTrail(query[end - 1]) {
      assert query[end - 1..] == [query[end - 1]] + query[end..];
    }
    if Ascii(query) {
      AsciiFormed(enc, query[..bytes]);
    }
  }

  /** In an ASCII query every prefix is one of whole characters. */
  lemma AsciiShortest(enc: Group, query: seq<byte>, end: nat)
    requires Ascii(query) && ShortestText(enc, query, end)
    ensures ShortestBytes(query, end)
  {
    forall e | 0 <= e < end
      ensures !AllUseless(query[e..])
    {
      AsciiFormed(enc, query[..e]);
    }
  }

  /** The codes of a text. */
  function Codes(s: string): (r: seq<byte>)
    requires forall i :: 0 <= i < |s| ==> s[i] as int < 0x80
    ensures Ascii(r)
  {
    seq(|s|, i requires 0 <= i < |s| => s[i] as int)
  }

  /** There is one such end. */
  lemma ShortestOnce(query: seq<byte>, a: nat, b: nat)
    requires ShortestBytes(query, a) && ShortestBytes(query, b)
    ensures a == b
  {
  }

  /** An end as one would find it by looking. */
  lemma EndsAt(query: seq<byte>, end: nat)
    requires end <= |query| && (end > 0 ==> !UselessTrail(query[end - 1]))
    requires forall i :: end <= i < |query| ==> UselessTrail(query[i])
    ensures ShortestBytes(query, end)
  {
    forall e | 0 <= e < end
      ensures !AllUseless(query[e..])
    {
      assert query[e..][end - 1 - e] == query[end - 1];
    }
  }

  /** The end of an ASCII query, found by either scan. */
  method BothScans(enc: Group, text: string, ghost expected: nat) returns (forward: Option<nat>, backward: nat)
    requires forall i :: 0 <= i < |text| ==> text[i] as int < 0x80
    requires ShortestBytes(Codes(text), expected)
    ensures forward == Some(expected) && backward == expected
  {
    var query := Codes(text);
    AsciiFormed(enc, query);
    forward := ScanForward(enc, query);
    LastUsefulShortest(enc, query);
    backward := ScanBackward(query);
    ScansAgree(enc, query, forward.value, backward);
    ShortestOnce(query, expected, backward);
  }

  /** The queries that the source's own assertions name, through either scan and in
      every encoding. */
  method KnownEnds(enc: Group) returns (forward: seq<Option<nat>>, backward: seq<nat>)
    ensures forward == [Some(0), Some(0), Some(3), Some(3), Some(1), Some(2), Some(1), Some(6)]
    ensures backward == [0, 0, 3, 3, 1, 2, 1, 6]
  {
    hide ShortestBytes;
    KnownShortest();
    var f0, b0 := BothScans(enc, "", 0);
    var f1, b1 := BothScans(enc, ";  ", 0);
    var f2, b2 := BothScans(enc, "ABC", 3);
    var f3, b3 := BothScans(enc, "X Y", 3);
    var f4, b4 := BothScans(enc, "n  ", 1);
    var f5, b5 := BothScans(enc, " n ", 2);
    var f6, b6 := BothScans(enc, "? ; ", 1);
    var f7, b7 := BothScans(enc, " ( ; ) ", 6);
    return [f0, f1, f2, f3, f4, f5, f6, f7], [b0, b1, b2, b3, b4, b5, b6, b7];
  }

  lemma KnownShortest()
    ensures ShortestBytes(Codes(""), 0) && ShortestBytes(Codes(";  "), 0)
    ensures ShortestBytes(Codes("ABC"), 3) && ShortestBytes(Codes("X Y"), 3)
    ensures ShortestBytes(Codes("n  "), 1) && ShortestBytes(Codes(" n "), 2)
    ensures ShortestBytes(Codes("? ; "), 1) && ShortestBytes(Codes(" ( ; ) "), 6)
  {
    hide ShortestBytes;
    EndsAt(Codes(""), 0);
    EndsAt(Codes(";  "), 0);
    EndsAt(Codes("ABC"), 3);
    EndsAt(Codes("X Y"), 3);
    EndsAt(Codes("n  "), 1);
    EndsAt(Codes(" n "), 2);
    EndsAt(Codes("? ; "), 1);
    EndsAt(Codes(" ( ; ) "), 6);
  }

  /** A query on which they differ: one character of two bytes, the second of which is
      the code of a space. */
  method ScansDiffer() returns (forward: Option<nat>, backward: nat)
    ensures forward == Some(2) && backward == 1
  {
    var query: seq<byte> := [0x81, 32];
    assert query[2..] == [] && query[0..] == query && query[1..] == [32];
    assert WellFormed(TwoTier, query) && LastUseful(TwoTier, query) == 2;
    forward := ScanForward(TwoTier, query);
    backward := ScanBackward(query);
  }

  /** In GB18030 no multibyte character ends in a useless byte. */
  lemma {:induction false} Gb18030Agrees(query: seq<byte>, end: nat, bytes: nat)
    requires WellFormed(Gb18030, query)
    requires ShortestText(Gb18030, query, end) && ShortestBytes(query, bytes)
    ensures bytes == end
  {
    ScansAgree(Gb18030, query, end, bytes);
    LastUsefulShortest(Gb18030, query);
    LastUsefulEnds(query);
  }

  lemma {:induction false} LastUsefulEnds(s: seq<byte>)
    requires WellFormed(Gb18030, s)
    ensures LastUseful(Gb18030, s) > 0 ==> !UselessTrail(s[LastUseful(Gb18030, s) - 1])
    decreases |s|
  {
    if s != [] {
      LastUsefulEnds(s[GlyphLen(Gb18030, s).value..]);
    }
  }
}
