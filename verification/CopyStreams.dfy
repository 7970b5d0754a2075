/** The streams that write and read COPY rows, with their buffers. */
module CopyStreams {
  import opened Options
  import opened Encodings
  import opened CopyFormat

  // ----- stream_to -----

  lemma FindAtGlyph(enc: Group, needle: set<byte>, s: seq<byte>)
    requires s != [] && s[0] !in needle
    ensures match GlyphLen(enc, s)
      case None => Find(enc, needle, s) == None
      case Some(n) => Find(enc, needle, s) == match Find(enc, needle, s[n..]) case None => None case Some(k) => Some(n + k)
  {
    hide GlyphLen;
  }

  lemma FoundAtOnce(enc: Group, s: seq<byte>)
    requires s == [] || s[0] in SPECIALS
    ensures Find(enc, SPECIALS, s) == Some(0)
  {
  }

  lemma {:induction false} EscapeRun(enc: Group, s: seq<byte>)
    ensures match Find(enc, SPECIALS, s)
      case None => !WellFormed(enc, s)
      case Some(k) =>
        && (WellFormed(enc, s) <==> WellFormed(enc, s[k..]))
        && (WellFormed(enc, s) ==> Escaped(enc, s) == s[..k] + Escaped(enc, s[k..]))
    decreases |s|
  {
    hide WellFormed, Escaped, Find, GlyphLen;
    if s == [] || s[0] in SPECIALS {
      FoundAtOnce(enc, s);
      assert s[0..] == s && s[..0] == [];
      assert WellFormed(enc, s) ==> [] + Escaped(enc, s) == Escaped(enc, s);
    } else {
      FindAtGlyph(enc, SPECIALS, s);
      EscapeAtGlyph(enc, s);
      if GlyphLen(enc, s).Some? {
        var n := GlyphLen(enc, s).value;
        EscapeRun(enc, s[n..]);
        var r := Find(enc, SPECIALS, s[n..]);
        if r.Some? {
          SplitTwice(s, n, r.value);
          if WellFormed(enc, s) {
            Associative(s[..n], s[n..][..r.value], Escaped(enc, s[n + r.value..]));
          }
        }
      }
    }
  }

  lemma SplitTwice(s: seq<byte>, n: nat, k: nat)
    requires n + k <= |s|
    ensures s[n..][k..] == s[n + k..] && s[..n] + s[n..][..k] == s[..n + k]
  {
  }

  /** The fields written so far, each with a tab after it. */
  ghost function Terminated(enc: Group, fields: seq<Field>): seq<byte>
    requires forall i :: 0 <= i < |fields| ==> Writable(enc, fields[i])
    decreases |fields|
  {
    if fields == [] then []
    else
      var n := |fields| - 1;
      Terminated(enc, fields[..n]) + Encoded(enc, fields[n]) + [TAB]
  }

  lemma {:induction false} TerminatedLine(enc: Group, fields: seq<Field>)
    requires fields != [] && forall i :: 0 <= i < |fields| ==> Writable(enc, fields[i])
    ensures Terminated(enc, fields) == Line(enc, fields) + [TAB]
    decreases |fields|
  {
    var n := |fields| - 1;
    if n == 0 {
      assert fields[..0] == [];
    } else {
      TerminatedLine(enc, fields[..n]);
      LineSnoc(enc, fields[..n], fields[n]);
      assert fields[..n] + [fields[n]] == fields;
    }
  }

  lemma {:induction false} LineSnoc(enc: Group, fields: seq<Field>, f: Field)
    requires fields != [] && Writable(enc, f) && forall i :: 0 <= i < |fields| ==> Writable(enc, fields[i])
    ensures Line(enc, fields + [f]) == Line(enc, fields) + [TAB] + Encoded(enc, f)
    decreases |fields|
  {
    hide Encoded, Writable;
    assert (fields + [f])[1..] == fields[1..] + [f];
    if |fields| > 1 {
      LineSnoc(enc, fields[1..], f);
      var head, tail := Encoded(enc, fields[0]) + [TAB], [TAB] + Encoded(enc, f);
      Associative(head, Line(enc, fields[1..]), tail);
    } else {
      assert fields[1..] + [f] == [f];
    }
  }

  lemma NoLine(enc: Group)
    ensures Line(enc, []) == []
  {
  }

  class StreamTo {
    const enc: Group
    var buffer: seq<byte>

    constructor (enc: Group)
      ensures this.enc == enc && buffer == []
    {
      this.enc, buffer := enc, [];
    }

    /** Append the text up to the next special character, and that one's escape. */
    method AppendChunk(data: seq<byte>, here: nat) returns (stop: Option<nat>)
      requires here <= |data|
      modifies this
      ensures var r := Find(enc, SPECIALS, data[here..]);
        if r.None? then stop.None? && buffer == old(buffer) else stop == Some(here + r.value) && buffer == old(buffer) + Chunk(data[here..], r.value)
    {
      hide Find;
      stop := FindAsciiChar(enc, SPECIALS, data, here);
      if stop.None? {
        return;
      }
      var k := stop.value;
      assert data[here..][..k - here] == data[here..k];
      buffer := buffer + data[here..k];
      if k < |data| {
        EscapeInverse(data[k]);
        buffer := buffer + [BACKSLASH];
        buffer := buffer + [EscapeChar(data[k]).value];
      }
    }

    /** Append a text with its escapes and a tab.  A badly encoded text leaves the part
        before its bad end in the buffer. */
    method EscapeFieldToBuffer(data: seq<byte>) returns (ok: bool)
      modifies this
      ensures ok <==> WellFormed(enc, data)
      ensures buffer == old(buffer) + if ok then Escaped(enc, data) + [TAB] else Partial(enc, data)
    {
      hide WellFormed, Escaped, Find, Chunk, Partial, Escaping;
      var here := 0;
      EscapingStart(enc, data, buffer);
      while here < |data|
        invariant 0 <= here <= |data| + 1
        invariant Escaping(enc, data, old(buffer), here, buffer)
        decreases |data| - here
      {
        ghost var before := buffer;
        var stop := AppendChunk(data, here);
        if stop.None? {
          EscapingFails(enc, data, old(buffer), here, buffer);
          return false;
        }
        EscapingOn(enc, data, old(buffer), here, before, stop.value - here);
        here := stop.value + 1;
      }
      EscapingEnds(enc, data, old(buffer), here, buffer);
      buffer := buffer + [TAB];
      return true;
    }

    method AppendToBuffer(f: Field) returns (ok: bool)
      modifies this
      ensures ok <==> Writable(enc, f)
      ensures buffer == old(buffer) + if ok then Encoded(enc, f) + [TAB] else Partial(enc, f.text)
    {
      match f {
        case Null =>
          buffer := buffer + [BACKSLASH, LETTER_N, TAB];
          return true;
        case Text(text) => ok := EscapeFieldToBuffer(text);
      }
    }

    /** Take the last tab off and send the line. */
    method WriteBuffer() returns (line: seq<byte>)
      modifies this
      ensures buffer == []
      ensures line == Untabbed(old(buffer))
    {
      if buffer != [] {
        buffer := buffer[..|buffer| - 1];
      }
      line := buffer;
      buffer := [];
    }

    /** Write a row; none if a field is badly encoded.  What such a field and those before
        it have left in the buffer goes in front of the next row. */
    method WriteRow(fields: seq<Field>) returns (line: Option<seq<byte>>)
      modifies this
      ensures line.Some? <==> forall i :: 0 <= i < |fields| ==> Writable(enc, fields[i])
      ensures line.Some? ==> buffer == [] && line.value == Untabbed(old(buffer) + Terminated(enc, fields))
      ensures line.Some? && old(buffer) == [] ==> line.value == Line(enc, fields)
      ensures line.None? ==>
        exists k :: 0 <= k < |fields| && (forall j :: 0 <= j < k ==> Writable(enc, fields[j])) && !Writable(enc, fields[k])
          && buffer == old(buffer) + Terminated(enc, fields[..k]) + Partial(enc, fields[k].text)
    {
      hide Writable, Encoded, Line;
      assert buffer + Terminated(enc, fields[..0]) == buffer;
      for i := 0 to |fields|
        invariant forall j :: 0 <= j < i ==> Writable(enc, fields[j])
        invariant buffer == old(buffer) + Terminated(enc, fields[..i])
      {
        NotWritable(enc, fields[i]);
        var ok := AppendToBuffer(fields[i]);
        if !ok {
          return None;
        }
        assert fields[..i + 1][..i] == fields[..i];
        Associative(old(buffer), Terminated(enc, fields[..i]), Encoded(enc, fields[i]) + [TAB]);
        Associative(Terminated(enc, fields[..i]), Encoded(enc, fields[i]), [TAB]);
      }
      assert fields[..|fields|] == fields;
      if fields != [] {
        TerminatedLine(enc, fields);
      } else {
        NoLine(enc);
      }
      assert [] + Terminated(enc, fields) == Terminated(enc, fields);
      var l := WriteBuffer();
      return Some(l);
    }
  }

  /** A buffer without its last tab. */
  function Untabbed(buffer: seq<byte>): seq<byte> { if buffer == [] then [] else buffer[..|buffer| - 1] }

  lemma NotWritable(enc: Group, f: Field)
    ensures !Writable(enc, f) ==> f.Text?
  {
  }

  /** What a badly encoded text has added to the buffer when its bad end is met. */
  function Partial(enc: Group, s: seq<byte>): seq<byte>
    decreases |s|
  {
    match Find(enc, SPECIALS, s)
    case None => []
    case Some(k) => Chunk(s, k) + if k < |s| then Partial(enc, s[k + 1..]) else []
  }

  lemma PartialStep(enc: Group, s: seq<byte>)
    ensures match Find(enc, SPECIALS, s)
      case None => Partial(enc, s) == []
      case Some(k) => Partial(enc, s) == Chunk(s, k) + Partial(enc, Rest(s, k + 1))
  {
    hide Chunk;
    PartialNothing(enc);
  }

  /** The escaping loop at offset `here`: what it has added to `start` and what is left
      make up the whole. */
  ghost predicate Escaping(enc: Group, data: seq<byte>, start: seq<byte>, here: nat, buffer: seq<byte>) {
    && (WellFormed(enc, data) <==> WellFormed(enc, Rest(data, here)))
    && (WellFormed(enc, data) ==> start + Escaped(enc, data) == buffer + Escaped(enc, Rest(data, here)))
    && start + Partial(enc, data) == buffer + Partial(enc, Rest(data, here))
  }

  lemma EscapingStart(enc: Group, data: seq<byte>, start: seq<byte>)
    ensures Escaping(enc, data, start, 0, start)
  {
    hide WellFormed, Escaped, Partial;
    assert Rest(data, 0) == data;
  }

  lemma EscapingOn(enc: Group, data: seq<byte>, start: seq<byte>, here: nat, buffer: seq<byte>, k: nat)
    requires here <= |data| && Escaping(enc, data, start, here, buffer) && Find(enc, SPECIALS, data[here..]) == Some(k)
    ensures Escaping(enc, data, start, here + k + 1, buffer + Chunk(data[here..], k))
  {
    hide WellFormed, Escaped, Partial, Find, Chunk;
    EscapeStep(enc, data[here..]);
    PartialStep(enc, data[here..]);
    RestRest(data, here, k + 1);
    var rest := Rest(data, here + k + 1);
    if WellFormed(enc, data) {
      Associative(buffer, Chunk(data[here..], k), Escaped(enc, rest));
    }
    Associative(buffer, Chunk(data[here..], k), Partial(enc, rest));
  }

  lemma EscapingFails(enc: Group, data: seq<byte>, start: seq<byte>, here: nat, buffer: seq<byte>)
    requires here <= |data| && Escaping(enc, data, start, here, buffer) && Find(enc, SPECIALS, data[here..]).None?
    ensures !WellFormed(enc, data) && buffer == start + Partial(enc, data)
  {
    hide WellFormed, Escaped, Partial, Find;
    EscapeStep(enc, data[here..]);
    PartialStep(enc, data[here..]);
    assert buffer + [] == buffer;
  }

  lemma EscapingEnds(enc: Group, data: seq<byte>, start: seq<byte>, here: nat, buffer: seq<byte>)
    requires here >= |data| && Escaping(enc, data, start, here, buffer)
    ensures WellFormed(enc, data) && buffer + [TAB] == start + (Escaped(enc, data) + [TAB])
  {
    hide WellFormed, Escaped, Partial;
    EscapedNothing(enc);
    assert Rest(data, here) == [] && buffer + [] == buffer;
    Associative(start, Escaped(enc, data), [TAB]);
  }

  lemma PartialNothing(enc: Group)
    ensures Partial(enc, []) == []
  {
  }

  /** What is left from offset `here` on. */
  function Rest(data: seq<byte>, here: nat): seq<byte> {
    if here <= |data| then data[here..] else []
  }

  lemma RestRest(data: seq<byte>, here: nat, k: nat)
    requires here <= |data|
    ensures Rest(data[here..], k) == Rest(data, here + k)
  {
  }

  /** A run of plain characters up to offset `k`, and the escape of the special one there. */
  function Chunk(s: seq<byte>, k: nat): seq<byte>
    requires k <= |s| && (k < |s| ==> s[k] in SPECIALS)
  {
    s[..k] + if k < |s| then [BACKSLASH, EscapeOf(s[k])] else []
  }

  /** One round of the escaping loop. */
  lemma EscapeStep(enc: Group, s: seq<byte>)
    ensures match Find(enc, SPECIALS, s)
      case None => !WellFormed(enc, s)
      case Some(k) =>
        && (WellFormed(enc, s) <==> WellFormed(enc, Rest(s, k + 1)))
        && (WellFormed(enc, s) ==> Escaped(enc, s) == Chunk(s, k) + Escaped(enc, Rest(s, k + 1)))
  {
    hide WellFormed, Escaped, Find, EscapeOf;
    EscapeRun(enc, s);
    EscapedNothing(enc);
    if Find(enc, SPECIALS, s).Some? {
      var k := Find(enc, SPECIALS, s).value;
      if k == |s| {
        assert s[k..] == [] == Rest(s, k + 1);
        assert Chunk(s, k) == s[..k];
      } else {
        EscapeSpecial(enc, s[k..]);
        assert s[k..][1..] == s[k + 1..];
        if WellFormed(enc, s) {
          Associative(s[..k], [BACKSLASH, EscapeOf(s[k])], Escaped(enc, s[k + 1..]));
        }
      }
    }
  }

  // ----- stream_from -----

  const STOPS: set<byte> := {TAB, BACKSLASH}

  /** Half the range of a size type: longer lines are refused. */
  const MAX_LINE: int := 0x7FFF_FFFF_FFFF_FFFF

  lemma AppendTwice(f: Field, a: seq<byte>, b: seq<byte>)
    ensures Append(Append(f, a), b) == Append(f, a + b) && Append(f, []) == f
  {
    if f.Text? {
      Associative(f.text, a, b);
      assert f.text + [] == f.text;
    }
  }

  lemma ReadFirstGlyph(enc: Group, s: seq<byte>, f: Field)
    requires s != [] && s[0] !in STOPS
    ensures match GlyphLen(enc, s)
      case None => Reading(enc, s, f) == Bad(BadEncoding)
      case Some(n) => Reading(enc, s, f) == Reading(enc, s[n..], Append(f, s[..n]))
  {
    hide GlyphLen, Append;
  }

  lemma StopAtOnce(enc: Group, s: seq<byte>)
    requires s == [] || s[0] in STOPS
    ensures Find(enc, STOPS, s) == Some(0)
  {
  }

  /** Characters that are neither tab nor backslash go into the field as they are. */
  lemma {:induction false} ReadRun(enc: Group, s: seq<byte>, f: Field)
    ensures match Find(enc, STOPS, s)
      case None => Reading(enc, s, f) == Bad(BadEncoding)
      case Some(k) => Reading(enc, s, f) == Reading(enc, s[k..], Append(f, s[..k]))
    decreases |s|
  {
    hide Reading, Find, GlyphLen, Append;
    if s == [] || s[0] in STOPS {
      StopAtOnce(enc, s);
      assert s[0..] == s && s[..0] == [];
      AppendTwice(f, [], []);
    } else {
      FindAtGlyph(enc, STOPS, s);
      ReadFirstGlyph(enc, s, f);
      if GlyphLen(enc, s).Some? {
        var n := GlyphLen(enc, s).value;
        ReadRun(enc, s[n..], Append(f, s[..n]));
        var r := Find(enc, STOPS, s[n..]);
        if r.Some? {
          SplitTwice(s, n, r.value);
          AppendTwice(f, s[..n], s[n..][..r.value]);
        }
      }
    }
  }

  /** A field of the row buffer: null, or a slice. */
  datatype Ref = NullRef | Slice(begin: nat, end: nat)

  /** The slices lie in order, none reaching beyond `limit`. */
  ghost predicate Laid(refs: seq<Ref>, limit: nat) {
    && (forall i :: 0 <= i < |refs| && refs[i].Slice? ==> refs[i].begin <= refs[i].end <= limit)
    && (forall i, j :: 0 <= i < j < |refs| && refs[i].Slice? && refs[j].Slice? ==> refs[i].end <= refs[j].begin)
  }

  function Value(row: seq<byte>, r: Ref): Field
    requires r.Slice? ==> r.begin <= r.end <= |row|
  {
    if r.NullRef? then Null else Text(row[r.begin..r.end])
  }

  function Values(row: seq<byte>, refs: seq<Ref>): seq<Field>
    requires Laid(refs, |row|)
  {
    seq(|refs|, i requires 0 <= i < |refs| => Value(row, refs[i]))
  }

  /** Writing beyond `limit` changes no field before it. */
  lemma ValuesKept(a: seq<byte>, b: seq<byte>, refs: seq<Ref>, limit: nat)
    requires limit <= |a| == |b| && a[..limit] == b[..limit] && Laid(refs, limit)
    ensures Laid(refs, |a|) && Values(a, refs) == Values(b, refs)
  {
    forall i | 0 <= i < |refs| && refs[i].Slice? ensures a[refs[i].begin..refs[i].end] == b[refs[i].begin..refs[i].end] {
      assert a[refs[i].begin..refs[i].end] == a[..limit][refs[i].begin..refs[i].end];
      assert b[refs[i].begin..refs[i].end] == b[..limit][refs[i].begin..refs[i].end];
    }
  }

  /** The parser in the middle of a line: `begin` is where the current field starts in
      the row, none for a null. */
  datatype Scan = Scan(row: seq<byte>, refs: seq<Ref>, begin: Option<nat>, write: nat, offset: nat)

  ghost function Current(c: Scan): Field
    requires c.begin.Some? ==> c.begin.value <= c.write <= |c.row|
  {
    if c.begin.None? then Null else Text(c.row[c.begin.value..c.write])
  }

  /** Writing has not passed reading, finished fields lie before the current one, and
      what was read and what is left make up what the whole line says. */
  ghost predicate Midway(enc: Group, line: seq<byte>, c: Scan) {
    && |c.row| == |line| && c.write <= c.offset <= |line|
    && (c.begin.Some? ==> c.begin.value <= c.write)
    && Laid(c.refs, if c.begin.Some? then c.begin.value else c.write)
    && Laid(c.refs, |c.row|)
    && Reading(enc, line, Text([])) == Prepend(Values(c.row, c.refs), Reading(enc, line[c.offset..], Current(c)))
  }

  lemma MidStart(enc: Group, line: seq<byte>, row: seq<byte>)
    requires |row| == |line|
    ensures Midway(enc, line, Scan(row, [], Some(0), 0, 0))
  {
    hide Reading;
    assert line[0..] == line && row[0..0] == [];
    var p := Reading(enc, line, Text([]));
    if p.Ok? {
      assert [] + p.fields == p.fields;
    }
  }

  /** Bytes were added to the row at `write`. */
  lemma MidWrite(enc: Group, line: seq<byte>, c: Scan, d: Scan)
    requires Midway(enc, line, c)
    requires |d.row| == |line| && d.refs == c.refs && d.begin == c.begin && c.write <= d.write <= d.offset <= |line|
    requires d.row[..c.write] == c.row[..c.write]
    requires Reading(enc, line[c.offset..], Current(c)) == Reading(enc, line[d.offset..], Append(Current(c), d.row[c.write..d.write]))
    ensures Midway(enc, line, d)
  {
    hide Reading;
    var limit := if c.begin.Some? then c.begin.value else c.write;
    assert d.row[..limit] == d.row[..c.write][..limit] && c.row[..limit] == c.row[..c.write][..limit];
    ValuesKept(c.row, d.row, c.refs, limit);
    if c.begin.Some? {
      assert c.row[limit..c.write] == c.row[..c.write][limit..] && d.row[limit..c.write] == d.row[..c.write][limit..];
      assert d.row[limit..d.write] == d.row[limit..c.write] + d.row[c.write..d.write];
    }
  }

  /** The current field as it is stored. */
  function Stored(begin: Option<nat>, write: nat): Ref {
    if begin.None? then NullRef else Slice(begin.value, write)
  }

  lemma ValuesSnoc(row: seq<byte>, refs: seq<Ref>, begin: Option<nat>, write: nat)
    requires write <= |row| && (begin.Some? ==> begin.value <= write)
    requires Laid(refs, if begin.Some? then begin.value else write)
    ensures Laid(refs + [Stored(begin, write)], write) && Laid(refs, |row|) && Laid(refs + [Stored(begin, write)], |row|)
    ensures Values(row, refs + [Stored(begin, write)]) == Values(row, refs) + [Value(row, Stored(begin, write))]
  {
  }

  /** A tab ends the field. */
  lemma MidTab(enc: Group, line: seq<byte>, c: Scan)
    requires Midway(enc, line, c) && c.offset < |line| && line[c.offset] == TAB
    ensures Midway(enc, line, Scan(c.row, c.refs + [Stored(c.begin, c.write)], Some(c.write), c.write, c.offset + 1))
  {
    hide Reading;
    ReadTab(enc, line[c.offset..], Current(c));
    assert line[c.offset..][1..] == line[c.offset + 1..];
    ValuesSnoc(c.row, c.refs, c.begin, c.write);
    assert c.row[c.write..c.write] == [];
    hide Values;
    var p := Reading(enc, line[c.offset + 1..], Text([]));
    if p.Ok? {
      assert Values(c.row, c.refs) + ([Current(c)] + p.fields) == (Values(c.row, c.refs) + [Current(c)]) + p.fields;
    }
  }

  lemma ReadBackslash(enc: Group, s: seq<byte>, f: Field)
    requires s != [] && s[0] == BACKSLASH
    ensures Reading(enc, s, f) ==
      if |s| == 1 then Bad(EndsInBackslash)
      else if s[1] == LETTER_N then (if f == Text([]) then Reading(enc, s[2..], Null) else Bad(NullInField))
      else Reading(enc, s[2..], Append(f, [UnescapeChar(s[1])]))
  {
  }

  lemma MidEnd(enc: Group, line: seq<byte>, c: Scan)
    requires Midway(enc, line, c) && c.offset == |line|
    ensures Laid(c.refs + [Stored(c.begin, c.write)], |c.row|)
    ensures Reading(enc, line, Text([])) == Ok(Values(c.row, c.refs + [Stored(c.begin, c.write)]))
  {
    assert Reading(enc, line[c.offset..], Current(c)) == Ok([Current(c)]);
    hide Reading;
    ValuesSnoc(c.row, c.refs, c.begin, c.write);
  }

  class StreamFrom {
    const enc: Group
    var row: array<byte>
    var fields: seq<Ref>
    var finished: bool

    constructor (enc: Group)
      ensures this.enc == enc && !finished
    {
      this.enc, row, fields, finished := enc, new byte[0], [], false;
    }

    /** Copy `n` bytes of the line to position `write` of the row. */
    method CopyIn(write: nat, line: seq<byte>, offset: nat, n: nat)
      requires write + n <= row.Length && offset + n <= |line|
      modifies row
      ensures row[..write] == old(row[..write]) && row[write..write + n] == line[offset..offset + n]
    {
      forall i | 0 <= i < n {
        row[write + i] := line[offset + i];
      }
    }

    ghost function Here(begin: Option<nat>, write: nat, offset: nat): Scan
      reads this, row
    {
      Scan(row[..], fields, begin, write, offset)
    }

    /** Take in the text up to the next tab or backslash. */
    method TakeRun(line: seq<byte>, begin: Option<nat>, write: nat, offset: nat) returns (stop: Option<nat>)
      requires Midway(enc, line, Here(begin, write, offset))
      modifies row
      ensures stop.None? ==> Reading(enc, line, Text([])) == Bad(BadEncoding)
      ensures stop.Some? ==>
        && offset <= stop.value <= |line|
        && Midway(enc, line, Here(begin, write + stop.value - offset, stop.value))
        && (stop.value < |line| ==> line[stop.value] in STOPS)
    {
      hide Reading, Find, Values, Laid;
      ghost var c := Here(begin, write, offset);
      stop := FindAsciiChar(enc, STOPS, line, offset);
      ReadRun(enc, line[offset..], Current(c));
      if stop.Some? {
        var n := stop.value - offset;
        assert line[offset..][n..] == line[stop.value..] && line[offset..][..n] == line[offset..offset + n];
        CopyIn(write, line, offset, n);
        ghost var d := Here(begin, write + n, stop.value);
        MidWrite(enc, line, c, d);
      }
    }

    /** Take in an escape sequence, which starts at `offset`. */
    method TakeEscape(line: seq<byte>, begin: Option<nat>, write: nat, offset: nat) returns (begin': Option<nat>, t: Option<Trouble>)
      requires Midway(enc, line, Here(begin, write, offset))
      requires offset < |line| && line[offset] == BACKSLASH
      modifies row
      ensures t.Some? ==> Reading(enc, line, Text([])) == Bad(t.value)
      ensures t.None? ==> offset + 1 < |line| && Midway(enc, line, Here(begin', write + 1, offset + 2))
    {
      hide Reading, Values;
      ghost var c := Here(begin, write, offset);
      begin', t := begin, None;
      ReadBackslash(enc, line[offset..], Current(c));
      if offset + 1 >= |line| {
        return begin, Some(EndsInBackslash);
      }
      assert line[offset..][2..] == line[offset + 2..] && line[offset..][1] == line[offset + 1];
      var escaped := line[offset + 1];
      if escaped == LETTER_N {
        if begin != Some(write) {
          return begin, Some(NullInField);
        }
        assert c.row[write..write] == [];
        begin' := None;
      }
      row[write] := UnescapeChar(escaped);
      ghost var e := c.(begin := begin', offset := if escaped == LETTER_N then offset + 2 else offset);
      ghost var d := Here(begin', write + 1, offset + 2);
      assert d.row[write..write + 1] == [UnescapeChar(escaped)] && d.row[..write] == c.row[..write];
      MidWrite(enc, line, e, d);
    }

    /** Take in the next line, if there is one; `raw` is what the connection has. */
    method ParseLine(raw: Option<seq<byte>>) returns (t: Option<Trouble>)
      modifies this
      ensures old(finished) ==> t.None? && finished && fields == old(fields) && row == old(row)
      ensures !old(finished) && raw.None? ==> t.None? && finished && fields == []
      ensures !old(finished) && raw.Some? ==> !finished
      ensures !old(finished) && raw.Some? && |raw.value| >= 0xFFFF_FFFF_FFFF_FFFF / 2 ==> t == Some(TooLong)
      ensures !old(finished) && raw.Some? && |raw.value| < 0xFFFF_FFFF_FFFF_FFFF / 2 ==>
        && Laid(fields, row.Length)
        && match Reading(enc, raw.value, Text([]))
           case Ok(fs) => t.None? && Values(row[..], fields) == fs
           case Bad(trouble) => t == Some(trouble)
    {
      hide Reading, Values;
      if finished {
        return None;
      }
      if raw.None? {
        fields := [];
        finished := true;
        return None;
      }
      t := SplitLine(raw.value);
    }

    /** Split a line into fields, unescaping it into the row buffer. */
    method SplitLine(line: seq<byte>) returns (t: Option<Trouble>)
      modifies this`row, this`fields
      ensures |line| >= MAX_LINE ==> t == Some(TooLong)
      ensures |line| < MAX_LINE ==>
        && Laid(fields, row.Length)
        && match Reading(enc, line, Text([]))
           case Ok(fs) => t.None? && Values(row[..], fields) == fs
           case Bad(trouble) => t == Some(trouble)
    {
      hide Reading, Midway, Values;
      fields := [];
      if |line| >= MAX_LINE {
        return Some(TooLong);
      }
      row := new byte[|line|];
      var begin: Option<nat>, write: nat, offset: nat := Some(0), 0, 0;
      MidStart(enc, line, row[..]);
      while offset < |line|
        invariant fresh(row) && row.Length == |line| && offset <= |line|
        invariant Midway(enc, line, Here(begin, write, offset)) && Laid(fields, row.Length)
        decreases |line| - offset
      {
        var stop := TakeRun(line, begin, write, offset);
        if stop.None? {
          return Some(BadEncoding);
        }
        write, offset := write + stop.value - offset, stop.value;
        if offset >= |line| {
          break;
        }
        if line[offset] == TAB {
          MidTab(enc, line, Here(begin, write, offset));
          fields := fields + [Stored(begin, write)];
          begin, offset := Some(write), offset + 1;
          MidLaid(enc, line, Here(begin, write, offset));
        } else {
          var trouble;
          begin, trouble := TakeEscape(line, begin, write, offset);
          if trouble.Some? {
            return trouble;
          }
          write, offset := write + 1, offset + 2;
        }
      }
      MidEnd(enc, line, Here(begin, write, offset));
      fields := fields + [Stored(begin, write)];
      return None;
    }
  }

  lemma MidLaid(enc: Group, line: seq<byte>, c: Scan)
    requires Midway(enc, line, c)
    ensures Laid(c.refs, |c.row|)
  {
  }

  /** A row written by one stream and read by another. */
  method WriteAndRead(enc: Group, row: seq<Field>) returns (line: Option<seq<byte>>, t: Option<Trouble>, read: seq<Field>)
    ensures line.Some? <==> forall i :: 0 <= i < |row| ==> Writable(enc, row[i])
    ensures line.Some? && |line.value| < MAX_LINE ==> t.None? && read == if row == [] then [Text([])] else row
    ensures line.Some? && |line.value| >= MAX_LINE ==> t == Some(TooLong)
  {
    hide Reading, Line, Writable;
    var to := new StreamTo(enc);
    line := to.WriteRow(row);
    t, read := None, [];
    if line.Some? {
      var from := new StreamFrom(enc);
      t := from.ParseLine(line);
      EmptyLine(enc);
      if row != [] {
        RoundTrip(enc, row);
      }
      if |line.value| < MAX_LINE {
        read := Values(from.row[..], from.fields);
      }
    }
  }

  /** All characters that are escaped, a null and a plain letter, as they go over the wire
      in both directions. */
  method KnownRow(enc: Group) returns (line: Option<seq<byte>>, t: Option<Trouble>, read: seq<Field>)
    ensures line == Some([92, 98, 92, 116, 92, 110, 92, 118, 92, 102, 92, 114, 92, 92, 9, 92, 78, 9, 65])
    ensures t.None? && read == [Text([8, 9, 10, 11, 12, 13, 92]), Null, Text([65])]
  {
    hide Reading, Line, Writable, Terminated;
    KnownLine(enc);
    var to := new StreamTo(enc);
    line := to.WriteRow([Text([8, 9, 10, 11, 12, 13, 92]), Null, Text([65])]);
    var from := new StreamFrom(enc);
    t := from.ParseLine(Some([92, 98, 92, 116, 92, 110, 92, 118, 92, 102, 92, 114, 92, 92, 9, 92, 78, 9, 65]));
    read := Values(from.row[..], from.fields);
  }

  lemma KnownLine(enc: Group)
    ensures var row := [Text([8, 9, 10, 11, 12, 13, 92]), Null, Text([65])];
      var line := [92, 98, 92, 116, 92, 110, 92, 118, 92, 102, 92, 114, 92, 92, 9, 92, 78, 9, 65];
      && (forall i :: 0 <= i < |row| ==> Writable(enc, row[i]))
      && Line(enc, row) == line && Reading(enc, line, Text([])) == Ok(row)
  {
    hide Reading, Line, Escaped, WellFormed;
    var row := [Text([8, 9, 10, 11, 12, 13, 92]), Null, Text([65])];
    KnownText(enc);
    PlainText(enc);
    WireNull(enc, row[0], [Null, row[2]], []);
    WireNull(enc, Null, [row[2]], []);
    LineOfOne(enc, row[2]);
    assert row == [row[0]] + [Null, row[2]] && [Null, row[2]] == [Null] + [row[2]];
    RoundTrip(enc, row);
  }

  lemma LineOfOne(enc: Group, f: Field)
    requires Writable(enc, f)
    ensures Line(enc, [f]) == Encoded(enc, f)
  {
  }

  lemma PlainText(enc: Group)
    ensures WellFormed(enc, [65]) && Escaped(enc, [65]) == [65]
  {
    hide Reading, Escaped, WellFormed;
    EscapedNothing(enc);
    WirePlain(enc, 65, [], [], []);
    assert [65] + [] == [65];
  }

  lemma KnownText(enc: Group)
    ensures WellFormed(enc, [8, 9, 10, 11, 12, 13, 92])
    ensures Escaped(enc, [8, 9, 10, 11, 12, 13, 92]) == [92, 98, 92, 116, 92, 110, 92, 118, 92, 102, 92, 114, 92, 92]
  {
    hide Reading, Escaped, WellFormed;
    EscapedNothing(enc);
    WireSpecial(enc, 92, 92, [], [], []);
    WireSpecial(enc, 13, 114, [92], [], []);
    WireSpecial(enc, 12, 102, [13, 92], [], []);
    WireSpecial(enc, 11, 118, [12, 13, 92], [], []);
    WireSpecial(enc, 10, 110, [11, 12, 13, 92], [], []);
    WireSpecial(enc, 9, 116, [10, 11, 12, 13, 92], [], []);
    WireSpecial(enc, 8, 98, [9, 10, 11, 12, 13, 92], [], []);
    assert [92] + [] == [92];
    assert [13] + [92] == [13, 92];
    assert [12] + [13, 92] == [12, 13, 92];
    assert [11] + [12, 13, 92] == [11, 12, 13, 92];
    assert [10] + [11, 12, 13, 92] == [10, 11, 12, 13, 92];
    assert [9] + [10, 11, 12, 13, 92] == [9, 10, 11, 12, 13, 92];
    assert [8] + [9, 10, 11, 12, 13, 92] == [8, 9, 10, 11, 12, 13, 92];
  }

  /** A row that fails leaves its first fields behind, and the next row is sent with
      them in front. */
  method LeftoverFields() returns (first: Option<seq<byte>>, second: Option<seq<byte>>)
    ensures first == None && second == Some([97, 9, 98])
  {
    var a, b, bad := Text([97]), Text([98]), Text([0x80]);
    OneField(97);
    OneField(98);
    BadLetter();
    hide Terminated, Writable, Partial, Untabbed;
    var to := new StreamTo(TwoTier);
    first := to.WriteRow([a, bad]);
    assert [a, bad][1] == bad && [a, bad][0] == a && [a, bad][..1] == [a];
    assert to.buffer == [97, TAB];
    second := to.WriteRow([b]);
    LastTab([97, TAB, 98]);
    assert [97, TAB, 98] + [TAB] == [97, TAB] + [98, TAB];
  }

  lemma LastTab(line: seq<byte>)
    ensures Untabbed(line + [TAB]) == line
  {
  }

  lemma OneField(c: byte)
    requires c < 0x80 && c !in SPECIALS
    ensures Writable(TwoTier, Text([c])) && Terminated(TwoTier, [Text([c])]) == [c, TAB]
  {
    OneLetter(c);
    hide Escaped, WellFormed;
    assert [Text([c])][..0] == [];
    assert Terminated(TwoTier, []) == [];
    assert Terminated(TwoTier, [Text([c])]) == [] + [c] + [TAB];
  }

  lemma OneLetter(c: byte)
    requires c < 0x80 && c !in SPECIALS
    ensures WellFormed(TwoTier, [c]) && Escaped(TwoTier, [c]) == [c]
  {
    assert [c][1..] == [] && [c][..1] == [c];
    assert Escaped(TwoTier, [c]) == [c][..1] + Escaped(TwoTier, [c][1..]);
  }

  lemma BadLetter()
    ensures !Writable(TwoTier, Text([0x80])) && Partial(TwoTier, [0x80]) == []
  {
    assert Find(TwoTier, SPECIALS, [0x80]) == None;
  }

  lemma EmptyLine(enc: Group)
    ensures Line(enc, []) == [] && Reading(enc, [], Text([])) == Ok([Text([])])
  {
  }
}
