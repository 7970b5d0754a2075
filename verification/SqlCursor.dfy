/** SQL cursors (libpqxx/src/sql_cursor.cxx): the client works out where the
    server's cursor stands from nothing but row counts. */
module SqlCursors {
  const INT_MAX: int := 0x7FFF_FFFF
  const INT_MIN: int := -0x8000_0000

  /** The counts that stand for ALL and BACKWARD ALL. */
  const ALL: int := INT_MAX - 1
  const BACKWARD_ALL: int := INT_MIN + 1

  type Row = string

  datatype Stride = All | BackwardAll | Count(n: int)

  function StrideOf(n: int): Stride {
    if n >= ALL then All else if n <= BACKWARD_ALL then BackwardAll else Count(n)
  }

  /** Where FETCH and MOVE leave a cursor over `n` rows: position 0 is before the
      first row, `n + 1` after the last. */
  function Target(n: nat, pos: int, s: Stride): int {
    match s
    case All => n + 1
    case BackwardAll => 0
    case Count(k) => if pos + k < 0 then 0 else if pos + k > n then n + 1 else pos + k
  }

  /** The rows FETCH passes over, in that order: the row of the starting position is
      not among them, except that a count of zero yields that very row. */
  function Read(rows: seq<Row>, pos: int, s: Stride): seq<Row>
    requires 0 <= pos <= |rows| + 1
  {
    var to := Target(|rows|, pos, s);
    if pos < to then rows[pos..if to > |rows| then |rows| else to]
    else if to < pos then Reversed(rows[(if to == 0 then 0 else to - 1)..pos - 1])
    else if s == Count(0) && 1 <= pos <= |rows| then [rows[pos - 1]]
    else []
  }

  function Reversed(rows: seq<Row>): (r: seq<Row>)
    ensures |r| == |rows| && forall i :: 0 <= i < |r| ==> r[i] == rows[|rows| - 1 - i]
  {
    seq(|rows|, i requires 0 <= i < |rows| => rows[|rows| - 1 - i])
  }

  /** The indices of those rows. */
  function Passed(n: nat, pos: int, s: Stride): seq<int>
    requires 0 <= pos <= n + 1
  {
    var to := Target(n, pos, s);
    if pos < to then Span(pos, if to > n then n else to)
    else if to < pos then SpanDown(if to == 0 then 0 else to - 1, pos - 1)
    else if s == Count(0) && 1 <= pos <= n then [pos - 1]
    else []
  }

  /** The numbers from `a` up to `b`, exclusive. */
  function Span(a: int, b: int): (r: seq<int>)
    requires a <= b
    ensures |r| == b - a && forall i :: 0 <= i < |r| ==> r[i] == a + i
  {
    seq(b - a, i => a + i)
  }

  /** The same numbers, going down. */
  function SpanDown(a: int, b: int): (r: seq<int>)
    requires a <= b
    ensures |r| == b - a && forall i :: 0 <= i < |r| ==> r[i] == b - 1 - i
  {
    seq(b - a, i => b - 1 - i)
  }

  /** Counts at the limits, and what the server does with some. */
  lemma KnownStrides()
    ensures StrideOf(2147483647) == StrideOf(2147483646) == All && StrideOf(2147483645) == Count(2147483645)
    ensures StrideOf(-2147483648) == StrideOf(-2147483647) == BackwardAll && StrideOf(-2147483646) == Count(-2147483646)
    ensures var rows := ["a", "b", "c"];
      && Read(rows, 0, All) == ["a", "b", "c"] && Target(3, 0, All) == 4
      && Read(rows, 4, BackwardAll) == ["c", "b", "a"] && Target(3, 4, BackwardAll) == 0
      && Read(rows, 0, Count(2)) == ["a", "b"] && Target(3, 0, Count(2)) == 2
      && Read(rows, 2, Count(-1)) == ["a"] && Target(3, 2, Count(-1)) == 1
      && Read(rows, 2, Count(-2)) == ["a"] && Target(3, 2, Count(-2)) == 0
      && Read(rows, 2, Count(1)) == ["c"] && Target(3, 2, Count(1)) == 3
      && Read(rows, 2, Count(2)) == ["c"] && Target(3, 2, Count(2)) == 4
      && Read(rows, 2, Count(0)) == ["b"] && Target(3, 2, Count(0)) == 2
  {
  }

  lemma PassedRead(rows: seq<Row>, pos: int, s: Stride)
    requires 0 <= pos <= |rows| + 1
    ensures |Passed(|rows|, pos, s)| == |Read(rows, pos, s)|
    ensures forall i :: 0 <= i < |Read(rows, pos, s)| ==>
      0 <= Passed(|rows|, pos, s)[i] < |rows| && Read(rows, pos, s)[i] == rows[Passed(|rows|, pos, s)[i]]
  {
    var to := Target(|rows|, pos, s);
    TargetBound(|rows|, pos, s);
    hide Target, Span, SpanDown, Reversed;
    if pos < to {
      SpanReads(rows, pos, if to > |rows| then |rows| else to);
    } else if to < pos {
      SpanDownReads(rows, if to == 0 then 0 else to - 1, pos - 1);
    }
  }

  lemma TargetBound(n: nat, pos: int, s: Stride)
    requires 0 <= pos <= n + 1
    ensures 0 <= Target(n, pos, s) <= n + 1
  {
  }

  lemma SpanReads(rows: seq<Row>, a: int, b: int)
    requires 0 <= a <= b <= |rows|
    ensures |Span(a, b)| == |rows[a..b]|
    ensures forall i :: 0 <= i < b - a ==> 0 <= Span(a, b)[i] < |rows| && rows[a..b][i] == rows[Span(a, b)[i]]
  {
    hide Span;
  }

  lemma SpanDownReads(rows: seq<Row>, a: int, b: int)
    requires 0 <= a <= b <= |rows|
    ensures |SpanDown(a, b)| == |Reversed(rows[a..b])|
    ensures forall i :: 0 <= i < b - a ==> 0 <= SpanDown(a, b)[i] < |rows| && Reversed(rows[a..b])[i] == rows[SpanDown(a, b)[i]]
  {
    hide SpanDown, Reversed;
  }

  /** The cursor on the server.  `handed` lists the indices of all rows that FETCH has
      handed out; MOVE hands out none. */
  class ServerCursor {
    const rows: seq<Row>
    var pos: int
    var handed: seq<int>

    constructor (rows: seq<Row>, pos: int)
      ensures this.rows == rows && this.pos == pos && handed == []
    {
      this.rows, this.pos, handed := rows, pos, [];
    }

    method Fetch(s: Stride) returns (r: seq<Row>)
      requires 0 <= pos <= |rows| + 1
      modifies this
      ensures pos == Target(|rows|, old(pos), s) && r == Read(rows, old(pos), s)
      ensures handed == old(handed) + Passed(|rows|, old(pos), s)
      ensures |handed| == |old(handed)| + |r|
      ensures forall i :: 0 <= i < |r| ==> 0 <= handed[|old(handed)| + i] < |rows| && r[i] == rows[handed[|old(handed)| + i]]
    {
      PassedRead(rows, pos, s);
      hide Read, Passed, Target;
      r := Read(rows, pos, s);
      handed := handed + Passed(|rows|, pos, s);
      pos := Target(|rows|, pos, s);
    }

    method Move(s: Stride) returns (count: int)
      requires 0 <= pos <= |rows| + 1
      modifies this`pos
      ensures pos == Target(|rows|, old(pos), s) && count == |Read(rows, old(pos), s)|
    {
      count := |Read(rows, pos, s)|;
      pos := Target(|rows|, pos, s);
    }
  }

  class SqlCursor {
    const home: ServerCursor
    var atEnd: int
    var pos: int
    var endpos: int

    // Adopted, and not moved since.
    ghost var untouched: bool

    /** What the fields say when the server's cursor is at `p`: the position is right
        or unknown, the end position is right or unknown, and the end mark is exact
        once the cursor was moved. */
    ghost predicate Tracks(p: int)
      reads this
    {
      var n := |home.rows|;
      && n < ALL
      && 0 <= p <= n + 1
      && (pos == -1 || pos == p)
      && (endpos == -1 || (endpos == n + 1 && pos != -1))
      && (untouched ==> atEnd == 0 && pos == -1)
      && (!untouched ==> atEnd == if p == 0 then -1 else if p == n + 1 then 1 else 0)
      && (atEnd == -1 ==> pos == 0)
    }

    ghost predicate Valid()
      reads this, home
    {
      Tracks(home.pos)
    }

    /** Declare a new cursor. */
    constructor Create(home: ServerCursor)
      requires |home.rows| < ALL && home.pos == 0
      ensures Valid() && this.home == home && !untouched && pos == 0 && endpos == -1
    {
      this.home, atEnd, pos, endpos, untouched := home, -1, 0, -1, false;
    }

    /** Adopt a cursor whose position is not known. */
    constructor Adopt(home: ServerCursor)
      requires |home.rows| < ALL && 0 <= home.pos <= |home.rows| + 1
      ensures Valid() && this.home == home && untouched && pos == -1 && endpos == -1
    {
      this.home, atEnd, pos, endpos, untouched := home, 0, -1, -1, true;
    }

    /** The displacement, worked out from the count asked for and the rows reported.
        `p` is where the server's cursor stood before.  The internal errors cannot
        happen, and only the first move of an adopted cursor can be off: by one step,
        when it stood at that very end already. */
    method Adjust(hoped: int, reported: int, ghost p: int) returns (displacement: int)
      requires Tracks(p) && INT_MIN <= hoped <= INT_MAX
      requires home.pos == Target(|home.rows|, p, StrideOf(hoped))
      requires reported == |Read(home.rows, p, StrideOf(hoped))|
      modifies this
      ensures Valid() && untouched == (old(untouched) && hoped == 0)
      ensures displacement == home.pos - p +
        if hoped != 0 && old(untouched) && home.pos == p then (if hoped < 0 then -1 else 1) else 0
      ensures old(pos) != -1 ==> pos == home.pos
      ensures old(pos) == -1 ==> (pos != -1 <==> hoped != 0 && home.pos == 0)
      ensures endpos == if old(endpos) != -1 || (hoped > 0 && pos == |home.rows| + 1) then |home.rows| + 1 else -1
    {
      var actual := reported;
      if actual < 0 {
        assert false;  // "Negative rows in cursor movement."
      }
      if hoped == 0 {
        return 0;
      }
      var direction := if hoped < 0 then -1 else 1;
      var distance := if hoped < 0 then -hoped else hoped;
      var hitEnd := false;
      if actual != distance {
        if actual > distance {
          assert false;  // "Cursor displacement larger than requested."
        }
        if atEnd != direction {
          actual := actual + 1;
        }
        if direction > 0 {
          hitEnd := true;
        } else if pos == -1 {
          pos := actual;
        } else if pos != actual {
          assert false;  // "Moved back to beginning, but wrong position"
        }
        atEnd := direction;
      } else {
        atEnd := 0;
      }
      if pos >= 0 {
        pos := pos + direction * actual;
      }
      if hitEnd {
        if endpos >= 0 && pos != endpos {
          assert false;  // "Inconsistent cursor end positions."
        }
        endpos := pos;
      }
      untouched := false;
      return direction * actual;
    }

    /** What a fetch or move by `n` does to the cursor and its tracking. */
    twostate predicate Moved(n: int, displacement: int)
      reads this, home
    {
      var rows := |home.rows|;
      && home.pos == (if n == 0 then old(home.pos) else Target(rows, old(home.pos), StrideOf(n)))
      && untouched == (old(untouched) && n == 0)
      && displacement == home.pos - old(home.pos) +
         (if n != 0 && old(untouched) && home.pos == old(home.pos) then (if n < 0 then -1 else 1) else 0)
      && (old(pos) != -1 ==> pos == home.pos)
      && (old(pos) == -1 ==> (pos != -1 <==> n != 0 && home.pos == 0))
      && endpos == (if old(endpos) != -1 || (n > 0 && pos == rows + 1) then rows + 1 else -1)
    }

    method Fetch(n: int) returns (r: seq<Row>, displacement: int)
      requires Valid() && INT_MIN <= n <= INT_MAX
      modifies this, home
      ensures Valid() && Moved(n, displacement)
      ensures r == if n == 0 then [] else Read(home.rows, old(home.pos), StrideOf(n))
      ensures home.handed == old(home.handed) + if n == 0 then [] else Passed(|home.rows|, old(home.pos), StrideOf(n))
    {
      hide Read, Passed, Target;
      if n == 0 {
        return [], 0;
      }
      ghost var p := home.pos;
      r := home.Fetch(StrideOf(n));
      displacement := Adjust(n, |r|, p);
    }

    method Move(n: int) returns (count: int, displacement: int)
      requires Valid() && INT_MIN <= n <= INT_MAX
      modifies this, home`pos
      ensures Valid() && Moved(n, displacement)
      ensures count == if n == 0 then 0 else |Read(home.rows, old(home.pos), StrideOf(n))|
    {
      if n == 0 {
        return 0, 0;
      }
      ghost var p := home.pos;
      count := home.Move(StrideOf(n));
      displacement := Adjust(n, count, p);
    }
  }

  datatype CursorOp = Fetch(n: int) | Move(n: int)

  /** What the caller sees after an operation: the rows (or their number, for a move),
      the displacement, and the tracked position, end position and end mark. */
  datatype Report = Report(rows: seq<Row>, count: int, displacement: int, pos: int, endpos: int, atEnd: int)

  /** A client that is told where the server's cursor really is.  `known` says that the
      position is known to the client, `ended` that the end is, `untouched` that the
      cursor was adopted and not moved since. */
  datatype Witness = Witness(pos: int, known: bool, ended: bool, untouched: bool)

  function Observe(rows: seq<Row>, w: Witness, op: CursorOp): (r: (Witness, Report))
    requires 0 <= w.pos <= |rows| + 1
    ensures 0 <= r.0.pos <= |rows| + 1
  {
    if op.n == 0 then
      (w, Report([], 0, 0, if w.known then w.pos else -1, if w.ended then |rows| + 1 else -1, Mark(rows, w)))
    else
      var to := Target(|rows|, w.pos, StrideOf(op.n));
      var passed := Read(rows, w.pos, StrideOf(op.n));
      var known := w.known || to == 0;
      var next := Witness(to, known, w.ended || (known && to == |rows| + 1), false);
      var phantom := if w.untouched && to == w.pos then (if op.n < 0 then -1 else 1) else 0;
      (next,
       Report(if op.Fetch? then passed else [], |passed|, to - w.pos + phantom,
              if known then to else -1, if next.ended then |rows| + 1 else -1, Mark(rows, next)))
  }

  /** The end mark: exact, except that an adopted cursor starts out unmarked. */
  function Mark(rows: seq<Row>, w: Witness): int {
    if w.untouched then 0 else if w.pos == 0 then -1 else if w.pos == |rows| + 1 then 1 else 0
  }

  function Observations(rows: seq<Row>, w: Witness, ops: seq<CursorOp>): (r: (Witness, seq<Report>))
    requires 0 <= w.pos <= |rows| + 1
    ensures 0 <= r.0.pos <= |rows| + 1 && |r.1| == |ops|
    decreases |ops|
  {
    if ops == [] then (w, [])
    else
      var before := Observations(rows, w, ops[..|ops| - 1]);
      var step := Observe(rows, before.0, ops[|ops| - 1]);
      (step.0, before.1 + [step.1])
  }

  ghost predicate Agrees(c: SqlCursor, w: Witness)
    reads c, c.home
  {
    && c.Valid() && w.pos == c.home.pos && w.untouched == c.untouched
    && w.known == (c.pos != -1) && w.ended == (c.endpos != -1)
  }

  method Perform(c: SqlCursor, op: CursorOp, ghost w: Witness) returns (r: Report)
    requires Agrees(c, w) && INT_MIN <= op.n <= INT_MAX
    modifies c, c.home
    ensures Agrees(c, Observe(c.home.rows, w, op).0)
    ensures r == Observe(c.home.rows, w, op).1
  {
    match op {
      case Fetch(n) =>
        var rows, d := c.Fetch(n);
        r := Report(rows, |rows|, d, c.pos, c.endpos, c.atEnd);
      case Move(n) =>
        var count, d := c.Move(n);
        r := Report([], count, d, c.pos, c.endpos, c.atEnd);
    }
  }

  /** Any run of fetches and moves on a created cursor, or on one adopted at an unknown
      position `start`: every report is that of the client that knows the truth. */
  method RunCursor(rows: seq<Row>, adopted: bool, start: int, ops: seq<CursorOp>) returns (reports: seq<Report>)
    requires |rows| < ALL && 0 <= start <= |rows| + 1 && (!adopted ==> start == 0)
    requires forall i :: 0 <= i < |ops| ==> INT_MIN <= ops[i].n <= INT_MAX
    ensures reports == Observations(rows, Witness(start, !adopted, false, adopted), ops).1
  {
    var home := new ServerCursor(rows, start);
    var c: SqlCursor;
    if adopted {
      c := new SqlCursor.Adopt(home);
    } else {
      c := new SqlCursor.Create(home);
    }
    ghost var w := Witness(start, !adopted, false, adopted);
    reports := [];
    for i := 0 to |ops|
      invariant fresh(c) && fresh(home) && c.home == home && home.rows == rows
      invariant Agrees(c, Observations(rows, w, ops[..i]).0)
      invariant reports == Observations(rows, w, ops[..i]).1
    {
      assert ops[..i + 1][..i] == ops[..i];
      var r := Perform(c, ops[i], Observations(rows, w, ops[..i]).0);
      reports := reports + [r];
    }
    assert ops[..|ops|] == ops;
  }

  /** The state after the first `k` operations. */
  function After(rows: seq<Row>, w: Witness, ops: seq<CursorOp>, k: nat): (v: Witness)
    requires 0 <= w.pos <= |rows| + 1 && k <= |ops|
    ensures 0 <= v.pos <= |rows| + 1
  {
    Observations(rows, w, ops[..k]).0
  }

  lemma {:induction false} ObservedAt(rows: seq<Row>, w: Witness, ops: seq<CursorOp>, i: nat)
    requires 0 <= w.pos <= |rows| + 1 && i < |ops|
    ensures (After(rows, w, ops, i + 1), Observations(rows, w, ops).1[i]) == Observe(rows, After(rows, w, ops, i), ops[i])
    decreases |ops|
  {
    hide Observe;
    var n := |ops| - 1;
    if i == n {
      assert ops[..n + 1] == ops;
    } else {
      ObservedAt(rows, w, ops[..n], i);
      assert ops[..n][..i] == ops[..i] && ops[..n][..i + 1] == ops[..i + 1];
    }
  }

  lemma {:induction false} KnownStaysKnown(rows: seq<Row>, w: Witness, ops: seq<CursorOp>, j: nat, k: nat)
    requires 0 <= w.pos <= |rows| + 1 && j <= k <= |ops|
    requires After(rows, w, ops, j).known && !After(rows, w, ops, j).untouched
    ensures After(rows, w, ops, k).known && !After(rows, w, ops, k).untouched
  {
    hide Read, Target, Mark;
    if j < k {
      KnownStaysKnown(rows, w, ops, j, k - 1);
      ObservedAt(rows, w, ops, k - 1);
      hide After, Observations;
    }
  }

  /** From a known position on, each reported position, end mark and displacement is the
      true one.  A created cursor's position is known from the start, an adopted one's
      from its first hit on the beginning. */
  lemma ReportsTrue(rows: seq<Row>, w: Witness, ops: seq<CursorOp>, j: nat, i: nat)
    requires 0 <= w.pos <= |rows| + 1 && j <= i < |ops|
    requires After(rows, w, ops, j).known && !After(rows, w, ops, j).untouched
    ensures var report := Observations(rows, w, ops).1[i];
      && report.pos == After(rows, w, ops, i + 1).pos
      && report.displacement == report.pos - After(rows, w, ops, i).pos
      && (report.atEnd == -1 <==> report.pos == 0)
      && (report.atEnd == 1 <==> report.pos == |rows| + 1)
  {
    hide Read, Observations, After;
    KnownStaysKnown(rows, w, ops, j, i);
    ObservedAt(rows, w, ops, i);
  }

  /** An adopted cursor's position is known exactly from the first time on that a move
      or fetch left it at the beginning. */
  lemma {:induction false} AdoptedKnown(rows: seq<Row>, w: Witness, ops: seq<CursorOp>, k: nat)
    requires 0 <= w.pos <= |rows| + 1 && !w.known && k <= |ops|
    ensures After(rows, w, ops, k).known <==>
      exists i :: 0 < i <= k && ops[i - 1].n != 0 && After(rows, w, ops, i).pos == 0
  {
    hide Read, Target, Mark;
    if k == 0 {
      assert ops[..0] == [];
    } else {
      AdoptedKnown(rows, w, ops, k - 1);
      ObservedAt(rows, w, ops, k - 1);
      hide After, Observations;
    }
  }

  /** An adopted cursor that stands past the end already reports a step it did not make. */
  method PhantomStep() returns (displacement: int, moved: int)
    ensures displacement == 1 && moved == 0
  {
    var home := new ServerCursor(["a"], 2);
    var c := new SqlCursor.Adopt(home);
    var before, count := home.pos, 0;
    count, displacement := c.Move(1);
    moved := home.pos - before;
  }

  /** The rows from `begin` up to but not including `end`, in that direction, that exist. */
  function Slice(rows: seq<Row>, begin: int, end: int): seq<Row>
    requires 0 <= begin <= |rows|
  {
    var stop := if end < -1 then -1 else if end > |rows| then |rows| else end;
    if begin <= stop then rows[begin..stop]
    else
      var last := if begin == |rows| then |rows| else begin + 1;
      Reversed(rows[stop + 1..last])
  }

  /** The position from which a fetch towards `stop` starts with row `begin`. */
  function Approach(n: nat, begin: int, stop: int): int {
    if begin < stop then begin else if begin < n then begin + 2 else n + 1
  }

  lemma ApproachReached(n: nat, p: int, begin: int, stop: int)
    requires n < ALL && 0 <= p <= n + 1 && 0 <= begin <= n && -1 <= stop <= n && begin != stop
    ensures var step := (begin - if begin < stop then 1 else -1) - (p - 1);
      && INT_MIN <= step <= INT_MAX
      && Approach(n, begin, stop) == if step == 0 then p else Target(n, p, StrideOf(step))
  {
  }

  /** One past the last row, going back to a row that exists. */
  predicate FromPastEnd(n: nat, begin: int, end: int) { begin == n && 0 <= end < begin }

  /** What comes along in that case. */
  function Extra(rows: seq<Row>, begin: int, end: int): seq<Row> {
    if FromPastEnd(|rows|, begin, end) then [rows[end]] else []
  }

  /** What a fetch that moves the cursor reads. */
  lemma ReadMoving(rows: seq<Row>, pos: int, s: Stride)
    requires 0 <= pos <= |rows| + 1
    ensures 0 <= Target(|rows|, pos, s) <= |rows| + 1
    ensures var to := Target(|rows|, pos, s);
      && (pos < to ==> Read(rows, pos, s) == rows[pos..if to > |rows| then |rows| else to])
      && (to < pos ==> Read(rows, pos, s) == Reversed(rows[(if to == 0 then 0 else to - 1)..pos - 1]))
  {
  }

  lemma ApproachReads(rows: seq<Row>, begin: int, stop: int)
    requires |rows| < ALL && 0 <= begin <= |rows| && -1 <= stop <= |rows| && begin != stop
    ensures INT_MIN <= stop - begin <= INT_MAX
    ensures Read(rows, Approach(|rows|, begin, stop), StrideOf(stop - begin)) == Slice(rows, begin, stop) + Extra(rows, begin, stop)
  {
    hide Read, Reversed;
    var n, p := |rows|, Approach(|rows|, begin, stop);
    ReadMoving(rows, p, StrideOf(stop - begin));
    var read, slice := Read(rows, p, StrideOf(stop - begin)), Slice(rows, begin, stop);
    var to := Target(n, p, StrideOf(stop - begin));
    if begin < stop {
      assert to == stop && read == rows[begin..stop];
      assert slice + [] == slice;
    } else if begin < n {
      assert to == stop + 2 && read == Reversed(rows[stop + 1..begin + 1]);
      assert slice + [] == slice;
    } else if stop == -1 {
      assert to == 0 && read == Reversed(rows[0..n]);
      assert slice + [] == slice;
    } else {
      assert to == stop + 1 && read == Reversed(rows[stop..n]);
      ReversedCons(rows, stop);
    }
  }

  lemma ReversedCons(rows: seq<Row>, k: nat)
    requires k < |rows|
    ensures Reversed(rows[k..|rows|]) == Reversed(rows[k + 1..|rows|]) + [rows[k]]
  {
  }

  datatype Retrieved = RangeError | Rows(rows: seq<Row>)

  /** Random access on top of an SQL cursor (libpqxx/src/cursor.cxx). */
  class StatelessCursor {
    const cur: SqlCursor

    ghost predicate Valid()
      reads this, cur, cur.home
    {
      cur.Valid() && cur.pos != -1
    }

    constructor Create(home: ServerCursor)
      requires |home.rows| < ALL && home.pos == 0
      ensures Valid() && fresh(cur) && cur.home == home
    {
      cur := new SqlCursor.Create(home);
    }

    /** Adopting moves the cursor to the beginning, so that its position is known. */
    constructor Adopt(home: ServerCursor)
      requires |home.rows| < ALL && 0 <= home.pos <= |home.rows| + 1
      modifies home
      ensures Valid() && fresh(cur) && cur.home == home
    {
      var c := new SqlCursor.Adopt(home);
      var count, displacement := c.Move(BACKWARD_ALL);
      cur := c;
    }

    method Size() returns (size: int)
      requires Valid()
      modifies cur, cur.home
      ensures Valid() && size == |cur.home.rows| && cur.home.handed == old(cur.home.handed)
      ensures old(cur.endpos) >= 0 ==> cur.pos == old(cur.pos) && cur.home.pos == old(cur.home.pos)
    {
      if cur.endpos == -1 {
        var count, displacement := cur.Move(ALL);
      }
      return cur.endpos - 1;
    }

    /** Whatever ran before, this returns the slice asked for, with one exception:
        from one past the last row back to a row that exists, that row comes along. */
    method Retrieve(begin: int, end: int) returns (r: Retrieved)
      requires Valid() && INT_MIN <= begin <= INT_MAX && INT_MIN <= end <= INT_MAX
      modifies cur, cur.home
      ensures Valid()
      ensures begin < 0 || begin > |cur.home.rows| <==> r.RangeError?
      ensures r.Rows? ==> r.rows == Slice(cur.home.rows, begin, end) + Extra(cur.home.rows, begin, end)
      ensures |cur.home.handed| == |old(cur.home.handed)| + if r.Rows? then |r.rows| else 0
      ensures r.Rows? ==> (r.rows == Slice(cur.home.rows, begin, end) <==> !FromPastEnd(|cur.home.rows|, begin, end))
    {
      hide Read, Target, StrideOf, Approach, Slice;
      var size := Size();
      if begin < 0 || begin > size {
        return RangeError;
      }
      var stop := if end < -1 then -1 else if end > size then size else end;
      SliceClamped(cur.home.rows, begin, end, stop);
      if begin == stop {
        return Rows([]);
      }
      var direction := if begin < stop then 1 else -1;
      var step := (begin - direction) - (cur.pos - 1);
      ApproachReached(size, cur.pos, begin, stop);
      var count, displacement := cur.Move(step);
      ApproachReads(cur.home.rows, begin, stop);
      PassedRead(cur.home.rows, cur.home.pos, StrideOf(stop - begin));
      var rows, d := cur.Fetch(stop - begin);
      return Rows(rows);
    }
  }

  lemma SliceClamped(rows: seq<Row>, begin: int, end: int, stop: int)
    requires 0 <= begin <= |rows| && stop == if end < -1 then -1 else if end > |rows| then |rows| else end
    ensures Slice(rows, begin, end) == Slice(rows, begin, stop) && Extra(rows, begin, end) == Extra(rows, begin, stop)
    ensures begin == stop ==> Slice(rows, begin, stop) == [] == Extra(rows, begin, stop)
  {
  }

  /** The exception, on the smallest cursor that has it: from past the end back to row
      0, exclusive, yields row 0. */
  method RetrievePastEnd() returns (r: Retrieved)
    ensures r == Rows(["a"]) && Slice(["a"], 1, 0) == []
  {
    var home := new ServerCursor(["a"], 0);
    var c := new StatelessCursor.Create(home);
    r := c.Retrieve(1, 0);
  }
}
