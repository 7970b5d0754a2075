/** Whole runs of iterators on one cursor stream, compared with iterators that read
    the result set directly. */
module CursorRuns {
  import opened SqlCursors
  import opened CursorStreams

  datatype IteratorOp =
    | Default
    | Make
    | Copy(i: nat)
    | Assign(i: nat, j: nat)
    | Advance(i: nat, n: int)
    | Deref(i: nat)
    | Destroy(i: nat)

  /** Where an iterator is in the simple picture.  One that was made `late`, after its
      block had been read, shows nothing. */
  datatype Place = NoStream | At(pos: int, late: bool) | Gone

  /** The simple picture: each iterator is a position in the result set (or none), and
      dereferencing reads the rows there.  `seen` says that the block at the requested
      position has been read. */
  datatype Picture = Picture(reqpos: int, seen: bool, places: seq<Place>)

  predicate Lives(p: Picture, i: nat) { i < |p.places| && !p.places[i].Gone? }

  /** Operations on iterators that do not exist, or advancing one without a stream, are
      left out of the run. */
  predicate Applies(p: Picture, op: IteratorOp) {
    match op
    case Default => true
    case Make => true
    case Copy(i) => Lives(p, i)
    case Assign(i, j) => Lives(p, i) && Lives(p, j)
    case Advance(i, n) => Lives(p, i) && p.places[i].At?
    case Deref(i) => Lives(p, i)
    case Destroy(i) => Lives(p, i)
  }

  function Draw(p: Picture, op: IteratorOp, stride: int): Picture
    requires Applies(p, op)
  {
    match op
    case Default => p.(places := p.places + [NoStream])
    case Make => p.(places := p.places + [At(p.reqpos, p.seen)])
    case Copy(i) => p.(places := p.places + [p.places[i]])
    case Assign(i, j) => p.(places := p.places[i := p.places[j]])
    case Advance(i, n) =>
      if n <= 0 then p
      else
        var reqpos := p.reqpos + n * stride;
        Picture(reqpos, false, p.places[i := At(reqpos, false)])
    case Deref(i) => p.(seen := p.seen || (p.places[i].At? && p.places[i].pos == p.reqpos))
    case Destroy(i) => p.(places := p.places[i := Gone])
  }

  /** What dereferencing shows in the simple picture. */
  function Shown(rows: seq<Row>, place: Place, stride: int): seq<Row>
    requires 1 <= stride && (place.At? ==> 0 <= place.pos)
  {
    if place.At? && !place.late then Block(rows, place.pos, stride) else []
  }

  /** The block at `pos` is behind the cursor, or there is none. */
  ghost predicate Past(s: Stream, pos: int)
    reads s`realpos
  {
    pos < s.realpos || |s.cur.home.rows| <= pos
  }

  /** The iterator is where the picture says. */
  ghost predicate Placed(s: Stream, it: Iterator, place: Place)
    reads s, it, it.stream
  {
    match place
    case NoStream => it.Attached() && it.stream == null
    case At(pos, late) =>
      && it.Attached() && it.stream == s && it.pos == pos && 0 <= pos && 1 <= s.stride
      && (if late then it.here == [] && Past(s, pos) else s.Timely(it))
    case Gone => it !in s.list
  }

  ghost predicate Distinct(its: seq<Iterator>) {
    forall i, j :: 0 <= i < j < |its| ==> its[i] != its[j]
  }

  /** Everything but the iterators is as in the picture. */
  ghost predicate StreamDrawn(s: Stream, its: seq<Iterator>, p: Picture)
    reads s, s.list, s.cur, s.cur.home
  {
    && s.Valid() && s.reqpos == p.reqpos && (if p.seen then Past(s, p.reqpos) else s.realpos <= p.reqpos)
    && (forall it :: it in s.list ==> it in its)
  }

  /** The stream and its iterators are as in the picture, and nothing else is registered. */
  ghost predicate InPicture(s: Stream, its: seq<Iterator>, p: Picture)
    reads s, s.list, s.cur, s.cur.home, its, set it | it in its :: it.stream
  {
    && StreamDrawn(s, its, p)
    && Distinct(its) && |its| == |p.places|
    && (forall i :: 0 <= i < |its| ==> Placed(s, its[i], p.places[i]))
  }

  /** Dereferencing iterator `i` asks for row `x`: it belongs to the block of an iterator
      that is no further ahead. */
  predicate AsksFor(n: nat, p: Picture, i: nat, stride: int, x: int)
    requires i < |p.places|
  {
    && p.places[i].At?
    && exists j :: 0 <= j < |p.places| && p.places[j].At? && p.places[j].pos <= p.places[i].pos
         && InBlock(n, p.places[j].pos, stride, x)
  }

  /** Registered iterators and places on the stream are the same thing. */
  lemma PlacesHandedOut(s: Stream, its: seq<Iterator>, p: Picture, i: nat, before: seq<int>)
    requires InPicture(s, its, p) && i < |its| && p.places[i].At? && s.HandedOut(before, p.places[i].pos)
    ensures forall x :: x in s.cur.home.handed <==> x in before || AsksFor(|s.cur.home.rows|, p, i, s.stride, x)
  {
    hide Stream.Linked, Stream.Positioned, Stream.Spaced, Stream.Fetched;
    s.Members();
    var n, topos := |s.cur.home.rows|, p.places[i].pos;
    forall x
      ensures (exists it :: it in s.list && it.pos <= topos && InBlock(n, it.pos, s.stride, x)) <==> AsksFor(n, p, i, s.stride, x)
    {
      if it :| it in s.list && it.pos <= topos && InBlock(n, it.pos, s.stride, x) {
        var j :| 0 <= j < |its| && its[j] == it;
        assert Placed(s, its[j], p.places[j]);
        assert InBlock(n, p.places[j].pos, s.stride, x);
      }
      if AsksFor(n, p, i, s.stride, x) {
        var j :| 0 <= j < |p.places| && p.places[j].At? && p.places[j].pos <= topos && InBlock(n, p.places[j].pos, s.stride, x);
        assert Placed(s, its[j], p.places[j]);
        assert InBlock(n, its[j].pos, s.stride, x);
      }
    }
  }

  method DoDefault(s: Stream, its: seq<Iterator>, ghost p: Picture) returns (its': seq<Iterator>)
    requires InPicture(s, its, p)
    ensures InPicture(s, its', Draw(p, Default, s.stride)) && fresh(its'[|its|]) && its' == its + [its'[|its|]]
  {
    hide Stream.Valid;
    var it := new Iterator();
    its' := its + [it];
  }

  method DoMake(s: Stream, its: seq<Iterator>, ghost p: Picture) returns (its': seq<Iterator>)
    requires InPicture(s, its, p)
    modifies s, its
    ensures |its'| == |its| + 1 && InPicture(s, its', Draw(p, Make, s.stride)) && fresh(its'[|its|]) && its' == its + [its'[|its|]]
  {
    hide Stream.Linked, Stream.Positioned, Stream.Spaced, Stream.Fetched, Block;
    s.Members();
    s.Requested();
    assert forall k :: 0 <= k < |s.list| ==> s.list[k] in its;
    var it := new Iterator.OnStream(s);
    its' := its + [it];
  }

  method DoCopy(s: Stream, its: seq<Iterator>, i: nat, ghost p: Picture) returns (its': seq<Iterator>)
    requires InPicture(s, its, p) && Lives(p, i)
    modifies s, its
    ensures |its'| == |its| + 1 && InPicture(s, its', Draw(p, Copy(i), s.stride)) && fresh(its'[|its|]) && its' == its + [its'[|its|]]
  {
    hide Stream.Linked, Stream.Positioned, Stream.Spaced, Stream.Fetched;
    s.Members();
    var it := new Iterator.Copy(its[i]);
    its' := its + [it];
  }

  method DoAssign(s: Stream, its: seq<Iterator>, i: nat, j: nat, ghost p: Picture)
    requires InPicture(s, its, p) && Lives(p, i) && Lives(p, j)
    modifies s, its
    ensures InPicture(s, its, Draw(p, Assign(i, j), s.stride))
  {
    hide Stream.Valid, Placed;
    AssignPlaced(s, its, i, j, p);
  }

  method AssignPlaced(s: Stream, its: seq<Iterator>, i: nat, j: nat, ghost p: Picture)
    requires InPicture(s, its, p) && Lives(p, i) && Lives(p, j)
    modifies s, its
    ensures StreamDrawn(s, its, p)
    ensures forall k :: 0 <= k < |its| ==> Placed(s, its[k], if k == i then p.places[j] else p.places[k])
  {
    hide Stream.Valid, Block, WithoutOne;
    s.Registered();
    PlaceNatural(s, its, p, j);
    assert Placed(s, its[i], p.places[i]) && Placed(s, its[j], p.places[j]);
    ghost var list := s.list;
    its[i].Assign(its[j]);
    if WithoutOne(list, its[i], s.list) {
      WithoutOneMembers(list, its[i], s.list);
    }
    forall k | 0 <= k < |its| ensures Placed(s, its[k], if k == i then p.places[j] else p.places[k]) {
      assert old(Placed(s, its[k], p.places[k]));
    }
  }

  method DoAdvance(s: Stream, its: seq<Iterator>, i: nat, n: int, ghost p: Picture)
    requires InPicture(s, its, p) && Lives(p, i) && p.places[i].At?
    requires n > 0 ==> s.reqpos + n * s.stride <= INT_MAX
    modifies s, its
    ensures InPicture(s, its, Draw(p, Advance(i, n), s.stride))
  {
    hide Stream.Linked, Stream.Positioned, Stream.Spaced, Stream.Fetched;
    if n > 0 {
      var _ := its[i].Advance(n);
      s.Requested();
    }
  }

  lemma PlaceNatural(s: Stream, its: seq<Iterator>, p: Picture, i: nat)
    requires InPicture(s, its, p) && i < |its|
    ensures 1 <= s.stride && (p.places[i].At? ==> 0 <= p.places[i].pos)
  {
    hide Stream.Linked, Stream.Spaced;
    assert Placed(s, its[i], p.places[i]);
  }

  /** An iterator keeps its place when the cursor goes from `from` on to serve `topos`. */
  lemma StillPlaced(s: Stream, it: Iterator, place: Place, topos: int, from: int, here: seq<Row>)
    requires place.At? && it.pos == place.pos && 0 <= it.pos && 1 <= s.stride && s.Went(from, topos)
    requires it.here == if from <= it.pos <= topos then Block(s.cur.home.rows, it.pos, s.stride) else here
    requires topos < it.pos ==> topos + s.stride <= it.pos
    requires if place.late then here == [] && (it.pos < from || |s.cur.home.rows| <= it.pos)
             else it.pos < from ==> here == Block(s.cur.home.rows, it.pos, s.stride)
    ensures if place.late then it.here == [] && Past(s, it.pos) else s.Timely(it)
  {
  }

  method DoDeref(s: Stream, its: seq<Iterator>, i: nat, ghost p: Picture) returns (shown: seq<Row>)
    requires InPicture(s, its, p) && Lives(p, i)
    modifies s, its, s.cur, s.cur.home
    ensures InPicture(s, its, Draw(p, Deref(i), s.stride)) && 1 <= s.stride && (p.places[i].At? ==> 0 <= p.places[i].pos)
    ensures shown == Shown(s.cur.home.rows, p.places[i], s.stride)
    ensures old(s.cur.home.handed) <= s.cur.home.handed
    ensures forall x :: x in s.cur.home.handed <==> x in old(s.cur.home.handed) || AsksFor(|s.cur.home.rows|, p, i, s.stride, x)
  {
    hide Stream.Valid, Stream.HandedOut, Placed, Stream.Went;
    ghost var before, from, place := s.cur.home.handed, s.realpos, p.places[i];
    PlaceNatural(s, its, p, i);
    s.Requested();
    AtListed(s, its, p, i);
    shown := RefreshPlaced(s, its, i, p);
    if place.At? {
      SeenNow(s, its, p, i, before, from);
      PlacesHandedOut(s, its, Draw(p, Deref(i), s.stride), i, before);
      s.HandedOn(before, place.pos);
    }
  }

  lemma AtListed(s: Stream, its: seq<Iterator>, p: Picture, i: nat)
    requires InPicture(s, its, p) && i < |its|
    ensures p.places[i].At? ==> its[i] in s.list && its[i].pos == p.places[i].pos
    ensures !p.places[i].At? && !p.places[i].Gone? ==> its[i].stream == null
  {
    hide Stream.Valid;
    assert Placed(s, its[i], p.places[i]);
  }

  /** The block at the requested position is read when an iterator there is served, and
      not before. */
  lemma SeenNow(s: Stream, its: seq<Iterator>, p: Picture, i: nat, before: seq<int>, from: int)
    requires s.Valid() && i < |its| == |p.places| && s.reqpos == p.reqpos && p.places[i].At?
    requires its[i] in s.list && its[i].pos == p.places[i].pos
    requires s.HandedOut(before, p.places[i].pos) && s.Went(from, p.places[i].pos)
    requires if p.seen then p.reqpos < from || |s.cur.home.rows| <= p.reqpos else from <= p.reqpos
    ensures if Draw(p, Deref(i), s.stride).seen then Past(s, p.reqpos) else s.realpos <= p.reqpos
  {
    hide Stream.Valid, Stream.HandedOut;
    s.Requested();
    var pos := p.places[i].pos;
    if pos < |s.cur.home.rows| {
      s.PastHanded(before, pos, its[i], pos);
    }
  }

  /** Refresh an iterator; all keep their places. */
  method RefreshPlaced(s: Stream, its: seq<Iterator>, i: nat, ghost p: Picture) returns (shown: seq<Row>)
    requires InPicture(s, its, p) && Lives(p, i)
    modifies s, its, s.cur, s.cur.home
    ensures s.Valid() && 1 <= s.stride && s.list == old(s.list) && s.reqpos == old(s.reqpos)
    ensures forall j :: 0 <= j < |its| ==> Placed(s, its[j], p.places[j]) && its[j].pos == old(its[j].pos)
    ensures p.places[i].At? ==> s.HandedOut(old(s.cur.home.handed), p.places[i].pos) && s.Went(old(s.realpos), p.places[i].pos)
    ensures !p.places[i].At? ==> s.realpos == old(s.realpos) && s.cur.home.handed == old(s.cur.home.handed)
    ensures p.places[i].At? ==> 0 <= p.places[i].pos
    ensures shown == Shown(s.cur.home.rows, p.places[i], s.stride)
  {
    hide Stream.Valid, Stream.HandedOut, Block;
    PlaceNatural(s, its, p, i);
    s.Registered();
    ghost var place := p.places[i];
    its[i].Refresh();
    shown := its[i].here;
    if place.At? {
      s.StridesAhead(its[i]);
    }
    forall j | 0 <= j < |its| ensures Placed(s, its[j], p.places[j]) {
      assert old(Placed(s, its[j], p.places[j]));
      if place.At? && p.places[j].At? {
        StillPlaced(s, its[j], p.places[j], place.pos, old(s.realpos), old(its[j].here));
      }
    }
    assert Placed(s, its[i], place);
    if place.At? {
      BlockPast(s.cur.home.rows, place.pos, s.stride);
    }
  }

  lemma BlockPast(rows: seq<Row>, pos: int, stride: int)
    requires 0 <= pos && 1 <= stride
    ensures |rows| <= pos ==> Block(rows, pos, stride) == []
  {
  }

  method DoDestroy(s: Stream, its: seq<Iterator>, i: nat, ghost p: Picture)
    requires InPicture(s, its, p) && Lives(p, i)
    modifies s, its
    ensures InPicture(s, its, Draw(p, Destroy(i), s.stride))
  {
    hide Stream.Linked, Stream.Positioned, Stream.Spaced, Stream.Fetched;
    s.Members();
    var gone := its[i];
    gone.Destroy();
    if gone.stream != null {
      WithoutOneMembers(old(s.list), gone, s.list);
    }
    hide WithoutOne;
  }

  predicate Natural(p: Picture) {
    0 <= p.reqpos && forall i :: 0 <= i < |p.places| && p.places[i].At? ==> 0 <= p.places[i].pos
  }

  function Next(p: Picture, op: IteratorOp, stride: int): (q: Picture)
    requires 1 <= stride && Natural(p)
    ensures Natural(q)
  {
    if Applies(p, op) then StrideSign(op, stride); Draw(p, op, stride) else p
  }

  lemma StrideSign(op: IteratorOp, stride: int)
    requires 1 <= stride
    ensures op.Advance? && op.n > 0 ==> 0 <= op.n * stride
  {
  }

  /** The positions asked for stay within the difference type. */
  ghost predicate Fits(p: Picture, ops: seq<IteratorOp>, stride: int)
    requires 1 <= stride && Natural(p)
    decreases |ops|
  {
    ops == [] || (Next(p, ops[0], stride).reqpos <= INT_MAX && Fits(Next(p, ops[0], stride), ops[1..], stride))
  }

  /** What one operation shows in the simple picture. */
  function Shows(rows: seq<Row>, p: Picture, op: IteratorOp, stride: int): seq<seq<Row>>
    requires 1 <= stride && Natural(p)
  {
    if op.Deref? && Applies(p, op) then [Shown(rows, p.places[op.i], stride)] else []
  }

  /** The blocks that the simple picture shows during a run. */
  function Album(rows: seq<Row>, p: Picture, ops: seq<IteratorOp>, stride: int): seq<seq<Row>>
    requires 1 <= stride && Natural(p)
    decreases |ops|
  {
    if ops == [] then [] else Shows(rows, p, ops[0], stride) + Album(rows, Next(p, ops[0], stride), ops[1..], stride)
  }

  /** One operation asks for row `x`. */
  predicate Asks(n: nat, p: Picture, op: IteratorOp, stride: int, x: int) {
    op.Deref? && Applies(p, op) && AsksFor(n, p, op.i, stride, x)
  }

  /** Some operation of the run asks for row `x`. */
  predicate Wanted(n: nat, p: Picture, ops: seq<IteratorOp>, stride: int, x: int)
    requires 1 <= stride && Natural(p)
    decreases |ops|
  {
    ops != [] && (Asks(n, p, ops[0], stride, x) || Wanted(n, Next(p, ops[0], stride), ops[1..], stride, x))
  }

  /** One operation, if it applies. */
  method Step(s: Stream, its: seq<Iterator>, op: IteratorOp, p: Picture) returns (its': seq<Iterator>, shown: seq<seq<Row>>)
    requires InPicture(s, its, p) && 1 <= s.stride && Natural(p) && Next(p, op, s.stride).reqpos <= INT_MAX
    modifies s, its, s.cur, s.cur.home
    ensures InPicture(s, its', Next(p, op, s.stride)) && shown == Shows(s.cur.home.rows, p, op, s.stride)
    ensures old(s.cur.home.handed) <= s.cur.home.handed
    ensures forall x :: x in s.cur.home.handed <==> x in old(s.cur.home.handed) || Asks(|s.cur.home.rows|, p, op, s.stride, x)
    ensures |its| <= |its'| && its'[..|its|] == its && forall i :: |its| <= i < |its'| ==> fresh(its'[i])
  {
    hide Stream.Valid, Stream.Fetched, Placed, AsksFor;
    its', shown := its, [];
    if !Applies(p, op) {
      return;
    }
    match op {
      case Default => its' := DoDefault(s, its, p);
      case Make => its' := DoMake(s, its, p);
      case Copy(i) => its' := DoCopy(s, its, i, p);
      case Assign(i, j) => DoAssign(s, its, i, j, p);
      case Advance(i, n) => DoAdvance(s, its, i, n, p);
      case Deref(i) =>
        var block := DoDeref(s, its, i, p);
        shown := [block];
      case Destroy(i) => DoDestroy(s, its, i, p);
    }
  }

  method Start(rows: seq<Row>, stride: int) returns (s: Stream, its: seq<Iterator>)
    requires |rows| < ALL && 1 <= stride <= INT_MAX
    ensures fresh(s) && fresh(s.cur) && fresh(s.cur.home) && s.cur.home.rows == rows && s.stride == stride
    ensures s.cur.home.handed == []
    ensures |its| == 1 && fresh(its[0]) && InPicture(s, its, Picture(0, false, [At(0, false)]))
  {
    var home := new ServerCursor(rows, 0);
    var cur := new SqlCursor.Create(home);
    s := new Stream(cur, stride);
    var first := new Iterator.OnStream(s);
    its := [first];
  }

  /** Any run of new iterators, copies, assignments, advances, dereferences and
      destructions that starts from one iterator on a fresh stream: every block shown is
      the one of the simple picture, in which only iterators made after their block was
      read show nothing.  The server hands out rows in order, none twice, and just those
      that belong to the block of a dereferenced iterator or of one behind it. */
  method RunIterators(rows: seq<Row>, stride: int, ops: seq<IteratorOp>) returns (shown: seq<seq<Row>>, handed: seq<int>)
    requires |rows| < ALL && 1 <= stride <= INT_MAX && Fits(Picture(0, false, [At(0, false)]), ops, stride)
    ensures shown == Album(rows, Picture(0, false, [At(0, false)]), ops, stride)
    ensures forall i :: 0 <= i < |handed| ==> 0 <= handed[i] < |rows|
    ensures forall i, j :: 0 <= i < j < |handed| ==> handed[i] < handed[j]
    ensures forall x :: x in handed <==> Wanted(|rows|, Picture(0, false, [At(0, false)]), ops, stride, x)
  {
    hide InPicture, Shows, Asks;
    var s, its := Start(rows, stride);
    var p := Picture(0, false, [At(0, false)]);
    ghost var cur, home, all := s.cur, s.cur.home, Album(rows, p, ops, stride);
    ghost var first := p;
    shown := [];
    assert ops[0..] == ops && shown + all == all;
    for k := 0 to |ops|
      invariant fresh(s) && fresh(cur) && fresh(home) && s.cur == cur && cur.home == home && home.rows == rows && s.stride == stride
      invariant forall i :: 0 <= i < |its| ==> fresh(its[i])
      invariant Natural(p) && Fits(p, ops[k..], stride) && InPicture(s, its, p)
      invariant shown + Album(rows, p, ops[k..], stride) == all
      invariant forall x :: x in home.handed || Wanted(|rows|, p, ops[k..], stride, x) <==> Wanted(|rows|, first, ops, stride, x)
    {
      hide Next;
      assert ops[k..][0] == ops[k] && ops[k..][1..] == ops[k + 1..];
      ghost var rest := Album(rows, Next(p, ops[k], stride), ops[k + 1..], stride);
      var its', block := Step(s, its, ops[k], p);
      assert shown + (block + rest) == (shown + block) + rest;
      its, p, shown := its', Next(p, ops[k], stride), shown + block;
    }
    assert shown + Album(rows, p, ops[|ops|..], stride) == shown;
    handed := s.cur.home.handed;
    FetchedOnce(s, its, p);
  }

  lemma FetchedOnce(s: Stream, its: seq<Iterator>, p: Picture)
    requires InPicture(s, its, p)
    ensures forall i :: 0 <= i < |s.cur.home.handed| ==> 0 <= s.cur.home.handed[i] < |s.cur.home.rows|
    ensures forall i, j :: 0 <= i < j < |s.cur.home.handed| ==> s.cur.home.handed[i] < s.cur.home.handed[j]
  {
  }
}
