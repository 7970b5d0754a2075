/** The text format of COPY: written by stream_to (libpqxx/src/stream_to.cxx) and read
    back by stream_from (libpqxx/src/stream_from.cxx). */
module CopyFormat {
  import opened Options
  import opened Encodings

  const TAB: byte := 9
  const BACKSLASH: byte := 92
  const LETTER_N: byte := 78

  /** Bytes with an escape of their own: backspace, form feed, newline, return, tab,
      vertical tab, backslash. */
  const SPECIALS: set<byte> := {8, 12, 10, 13, 9, 11, 92}

  datatype Field = Null | Text(text: seq<byte>)

  datatype Trouble = BadEncoding | EndsInBackslash | NullInField | TooLong

  datatype Parse = Ok(fields: seq<Field>) | Bad(trouble: Trouble)

  function EscapeChar(c: byte): Option<byte> {
    if c == 8 then Some(98)         // \b
    else if c == 12 then Some(102)  // \f
    else if c == 10 then Some(110)  // \n
    else if c == 13 then Some(114)  // \r
    else if c == 9 then Some(116)   // \t
    else if c == 11 then Some(118)  // \v
    else if c == 92 then Some(92)
    else None
  }

  function UnescapeChar(c: byte): byte {
    if c == 98 then 8
    else if c == 102 then 12
    else if c == 110 then 10
    else if c == 114 then 13
    else if c == 116 then 9
    else if c == 118 then 11
    else c
  }

  /** The second byte of a special character's escape. */
  function EscapeOf(c: byte): byte
    requires c in SPECIALS
  {
    EscapeChar(c).value
  }

  lemma EscapeInverse(c: byte)
    ensures c in SPECIALS <==> EscapeChar(c).Some?
    ensures EscapeChar(c).Some? ==>
      (c, EscapeChar(c).value) in {(8, 98), (12, 102), (10, 110), (13, 114), (9, 116), (11, 118), (92, 92)}
    ensures c in SPECIALS ==> EscapeChar(c).value != LETTER_N && UnescapeChar(EscapeChar(c).value) == c
  {
  }

  // ----- writing -----

  /** A text with its special characters escaped, character by character. */
  function Escaped(enc: Group, s: seq<byte>): seq<byte>
    requires WellFormed(enc, s)
    decreases |s|
  {
    if s == [] then []
    else if s[0] in SPECIALS then [BACKSLASH, EscapeOf(s[0])] + Escaped(enc, s[1..])
    else
      var n := GlyphLen(enc, s).value;
      s[..n] + Escaped(enc, s[n..])
  }

  predicate Writable(enc: Group, f: Field) { f.Text? ==> WellFormed(enc, f.text) }

  function Encoded(enc: Group, f: Field): seq<byte>
    requires Writable(enc, f)
  {
    match f
    case Null => [BACKSLASH, LETTER_N]
    case Text(text) => Escaped(enc, text)
  }

  /** A row: the encoded fields, with tabs between them. */
  function Line(enc: Group, fields: seq<Field>): seq<byte>
    requires forall i :: 0 <= i < |fields| ==> Writable(enc, fields[i])
    decreases |fields|
  {
    if fields == [] then []
    else if |fields| == 1 then Encoded(enc, fields[0])
    else Encoded(enc, fields[0]) + [TAB] + Line(enc, fields[1..])
  }

  // ----- reading -----

  /** The field being read: null, or the text so far. */
  function Append(f: Field, s: seq<byte>): Field {
    if f.Null? then Null else Text(f.text + s)
  }

  function Prepend(fs: seq<Field>, p: Parse): Parse {
    if p.Ok? then Ok(fs + p.fields) else p
  }

  /** Read the rest of a line, in the middle of field `f`. */
  function Reading(enc: Group, s: seq<byte>, f: Field): Parse
    decreases |s|
  {
    if s == [] then Ok([f])
    else
      match GlyphLen(enc, s)
      case None => Bad(BadEncoding)
      case Some(n) =>
        if s[0] == TAB then Prepend([f], Reading(enc, s[1..], Text([])))
        else if s[0] == BACKSLASH then
          if |s| == 1 then Bad(EndsInBackslash)
          else if s[1] == LETTER_N then
            if f == Text([]) then Reading(enc, s[2..], Null) else Bad(NullInField)
          else Reading(enc, s[2..], Append(f, [UnescapeChar(s[1])]))
        else Reading(enc, s[n..], Append(f, s[..n]))
  }

  // ----- the format, byte by byte -----

  /** A character with an escape of its own and the letter that stands for it. */
  lemma WireSpecial(enc: Group, c: byte, letter: byte, s: seq<byte>, t: seq<byte>, acc: seq<byte>)
    requires (c, letter) in {(8, 98), (12, 102), (10, 110), (13, 114), (9, 116), (11, 118), (92, 92)}
    ensures WellFormed(enc, [c] + s) <==> WellFormed(enc, s)
    ensures WellFormed(enc, s) ==> Escaped(enc, [c] + s) == [92, letter] + Escaped(enc, s)
    ensures Reading(enc, [92, letter] + t, Text(acc)) == Reading(enc, t, Text(acc + [c]))
  {
    hide Reading, Escaped, WellFormed, GlyphLen;
    assert c in SPECIALS && EscapeOf(c) == letter;
    EscapeSpecial(enc, [c] + s);
    assert ([c] + s)[1..] == s;
    ReadSpecial(enc, c, t, acc);
  }

  /** Every other ASCII character stands for itself, also after a backslash, unless it is
      one of the letters. */
  lemma WirePlain(enc: Group, c: byte, s: seq<byte>, t: seq<byte>, acc: seq<byte>)
    requires c < 0x80 && c !in {8, 12, 10, 13, 9, 11, 92}
    ensures WellFormed(enc, [c] + s) <==> WellFormed(enc, s)
    ensures WellFormed(enc, s) ==> Escaped(enc, [c] + s) == [c] + Escaped(enc, s)
    ensures Reading(enc, [c] + t, Text(acc)) == Reading(enc, t, Text(acc + [c]))
    ensures c !in {78, 98, 102, 110, 114, 116, 118} ==> Reading(enc, [92, c] + t, Text(acc)) == Reading(enc, t, Text(acc + [c]))
  {
    hide Escaped, WellFormed, GlyphLen;
    var u, v, w := [c] + s, [c] + t, [92, c] + t;
    assert u[..1] == [c] && u[1..] == s && v[..1] == [c] && v[1..] == t && w[2..] == t;
    EscapeAtGlyph(enc, u);
  }

  /** Null is a backslash and the letter N, alone in its field; a tab separates fields. */
  lemma WireNull(enc: Group, f: Field, fields: seq<Field>, t: seq<byte>)
    requires Writable(enc, f) && forall i :: 0 <= i < |fields| ==> Writable(enc, fields[i])
    ensures Encoded(enc, Null) == [92, 78] && Reading(enc, [92, 78] + t, Text([])) == Reading(enc, t, Null)
    ensures f != Text([]) ==> Reading(enc, [92, 78] + t, f) == Bad(NullInField)
    ensures Reading(enc, [92], f) == Bad(EndsInBackslash)
    ensures fields != [] ==> Line(enc, [f] + fields) == Encoded(enc, f) + [9] + Line(enc, fields)
    ensures Reading(enc, [9] + t, f) == Prepend([f], Reading(enc, t, Text([])))
  {
    hide GlyphLen;
    var u, v := [92, 78] + t, [9] + t;
    assert u[2..] == t && v[1..] == t && ([f] + fields)[1..] == fields;
  }

  // ----- the round trip -----

  lemma ReadSpecial(enc: Group, c: byte, rest: seq<byte>, acc: seq<byte>)
    requires c in SPECIALS
    ensures Reading(enc, [BACKSLASH, EscapeOf(c)] + rest, Text(acc)) == Reading(enc, rest, Text(acc + [c]))
  {
    EscapeInverse(c);
    var u := [BACKSLASH, EscapeOf(c)] + rest;
    assert u[0] == BACKSLASH && u[1] == EscapeOf(c) && u[2..] == rest;
    hide EscapeChar, UnescapeChar;
  }

  lemma ReadGlyph(enc: Group, s: seq<byte>, rest: seq<byte>, acc: seq<byte>)
    requires s != [] && s[0] !in SPECIALS && GlyphLen(enc, s).Some?
    ensures var n := GlyphLen(enc, s).value; Reading(enc, s[..n] + rest, Text(acc)) == Reading(enc, rest, Text(acc + s[..n]))
  {
    GlyphLocal(enc, s, rest);
    hide GlyphLen;
    var n := GlyphLen(enc, s).value;
    var u := s[..n] + rest;
    assert u[0] == s[0] && u[n..] == rest && u[..n] == s[..n];
  }

  lemma EscapedNothing(enc: Group)
    ensures WellFormed(enc, []) && Escaped(enc, []) == []
  {
  }

  lemma EscapeSpecial(enc: Group, s: seq<byte>)
    requires s != [] && s[0] in SPECIALS
    ensures WellFormed(enc, s) <==> WellFormed(enc, s[1..])
    ensures WellFormed(enc, s) ==> Escaped(enc, s) == [BACKSLASH, EscapeOf(s[0])] + Escaped(enc, s[1..])
  {
    hide GlyphLen, EscapeOf;
  }

  lemma EscapeAtGlyph(enc: Group, s: seq<byte>)
    requires s != [] && s[0] !in SPECIALS
    ensures match GlyphLen(enc, s)
      case None => !WellFormed(enc, s)
      case Some(n) =>
        && (WellFormed(enc, s) <==> WellFormed(enc, s[n..]))
        && (WellFormed(enc, s) ==> Escaped(enc, s) == s[..n] + Escaped(enc, s[n..]))
  {
    hide GlyphLen, EscapeOf;
  }

  lemma Associative(a: seq<byte>, b: seq<byte>, c: seq<byte>)
    ensures (a + b) + c == a + (b + c)
  {
  }

  lemma {:induction false} ReadEscaped(enc: Group, s: seq<byte>, t: seq<byte>, acc: seq<byte>)
    requires WellFormed(enc, s)
    ensures Reading(enc, Escaped(enc, s) + t, Text(acc)) == Reading(enc, t, Text(acc + s))
    decreases |s|
  {
    hide Reading, GlyphLen, EscapeOf, Escaped, WellFormed;
    if s == [] {
      EscapedNothing(enc);
      assert [] + t == t && acc + s == acc;
    } else if s[0] in SPECIALS {
      EscapeSpecial(enc, s);
      var rest := Escaped(enc, s[1..]) + t;
      Associative([BACKSLASH, EscapeOf(s[0])], Escaped(enc, s[1..]), t);
      ReadSpecial(enc, s[0], rest, acc);
      ReadEscaped(enc, s[1..], t, acc + [s[0]]);
      Associative(acc, [s[0]], s[1..]);
      assert [s[0]] + s[1..] == s;
    } else {
      EscapeAtGlyph(enc, s);
      var n := GlyphLen(enc, s).value;
      var rest := Escaped(enc, s[n..]) + t;
      Associative(s[..n], Escaped(enc, s[n..]), t);
      ReadGlyph(enc, s, rest, acc);
      ReadEscaped(enc, s[n..], t, acc + s[..n]);
      Associative(acc, s[..n], s[n..]);
      assert s[..n] + s[n..] == s;
    }
  }

  lemma ReadEncoded(enc: Group, f: Field, t: seq<byte>)
    requires Writable(enc, f)
    ensures Reading(enc, Encoded(enc, f) + t, Text([])) == Reading(enc, t, f)
  {
    match f
    case Null =>
      var u := Encoded(enc, f) + t;
      assert u[0] == BACKSLASH && u[1] == LETTER_N && u[2..] == t;
    case Text(text) =>
      ReadEscaped(enc, text, t, []);
      assert [] + text == text;
  }

  lemma ReadTab(enc: Group, s: seq<byte>, f: Field)
    requires s != [] && s[0] == TAB
    ensures Reading(enc, s, f) == Prepend([f], Reading(enc, s[1..], Text([])))
  {
  }

  /** Reading a written row gives back its fields, null kept apart from every text. */
  lemma {:induction false} RoundTrip(enc: Group, fields: seq<Field>)
    requires forall i :: 0 <= i < |fields| ==> Writable(enc, fields[i])
    requires fields != []
    ensures Reading(enc, Line(enc, fields), Text([])) == Ok(fields)
    decreases |fields|
  {
    hide GlyphLen, Encoded;
    var f := fields[0];
    if |fields| == 1 {
      ReadEncoded(enc, f, []);
      assert Encoded(enc, f) + [] == Encoded(enc, f);
      assert fields == [f];
    } else {
      var rest := Line(enc, fields[1..]);
      assert Line(enc, fields) == Encoded(enc, f) + ([TAB] + rest);
      ReadEncoded(enc, f, [TAB] + rest);
      ReadTab(enc, [TAB] + rest, f);
      assert ([TAB] + rest)[1..] == rest;
      RoundTrip(enc, fields[1..]);
      assert [f] + fields[1..] == fields;
    }
  }

  /** A row without fields is the one exception: it reads as one empty text. */
  lemma RoundTripExactly(enc: Group, fields: seq<Field>)
    requires forall i :: 0 <= i < |fields| ==> Writable(enc, fields[i])
    ensures Reading(enc, Line(enc, fields), Text([])) == Ok(fields) <==> fields != []
  {
    if fields != [] {
      RoundTrip(enc, fields);
    }
  }

  /** Rows are told apart by their lines. */
  lemma LinesDiffer(enc: Group, a: seq<Field>, b: seq<Field>)
    requires forall i :: 0 <= i < |a| ==> Writable(enc, a[i])
    requires forall i :: 0 <= i < |b| ==> Writable(enc, b[i])
    requires a != [] && b != [] && Line(enc, a) == Line(enc, b)
    ensures a == b
  {
    RoundTrip(enc, a);
    RoundTrip(enc, b);
  }
}
