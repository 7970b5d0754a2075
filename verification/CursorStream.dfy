/** Cursor streams and their iterators (libpqxx/src/cursor.cxx): any number of
    iterators share one cursor that only moves forward. */
module CursorStreams {
  import opened SqlCursors

  /** The `stride` rows from `pos` on, cut to the result set. */
  function Block(rows: seq<Row>, pos: int, stride: int): seq<Row>
    requires 0 <= pos && 1 <= stride
  {
    if pos >= |rows| then [] else if pos + stride > |rows| then rows[pos..] else rows[pos..pos + stride]
  }

  /** Row `x` belongs to the block at `pos`. */
  predicate InBlock(n: nat, pos: int, stride: int, x: int) { pos <= x < pos + stride && x < n }

  /** All rows of the block at `pos` are among `handed`. */
  ghost predicate Covered(handed: seq<int>, n: nat, pos: int, stride: int) {
    forall x :: InBlock(n, pos, stride, x) ==> x in handed
  }

  class Iterator {
    var stream: Stream?
    var here: seq<Row>
    var pos: int
    var prev: Iterator?
    var next: Iterator?

    /** An iterator on no stream. */
    constructor ()
      ensures stream == null && here == [] && pos == 0 && prev == null && next == null
    {
      stream, here, pos, prev, next := null, [], 0, null, null;
    }

    /** An iterator at the stream's current position.  It is in time for its block if and
        only if that block has not been read yet. */
    constructor OnStream(s: Stream)
      requires s.Valid()
      modifies s`iterators, s`list, s.list`prev
      ensures stream == s && pos == s.reqpos && here == [] && s.list == [this] + old(s.list)
      ensures s.Valid() && s.realpos == old(s.realpos) && 1 <= s.stride
      ensures s.Timely(this) <==> s.realpos <= s.reqpos
    {
      stream, here, pos, prev, next := s, [], s.reqpos, null, null;
      new;
      hide Stream.Linked, Stream.Positioned, Stream.Spaced, Stream.Fetched;
      s.InsertIterator(this);
      s.Joins(this);
      s.PositiveStride();
    }

    ghost function Owner(): set<Stream> reads this { if stream == null then {} else {stream} }

    ghost function Mates(): set<Iterator>
      reads this, stream
    {
      if stream == null then {} else set it | it in stream.list
    }

    /** Registered exactly where it says; without a stream, unlinked and empty. */
    ghost predicate Attached()
      reads this, stream
    {
      if stream == null then here == [] && prev == null && next == null else this in stream.list
    }

    /** A copy, registered with the same stream. */
    constructor Copy(rhs: Iterator)
      requires rhs.Attached() && (rhs.stream != null ==> rhs.stream.Valid())
      modifies rhs.Owner()`iterators, rhs.Owner()`list, rhs.Mates()`prev
      ensures stream == rhs.stream && here == rhs.here && pos == rhs.pos && Attached()
      ensures stream != null ==> stream.Valid() && stream.list == [this] + old(rhs.stream.list)
    {
      stream, here, pos, prev, next := rhs.stream, rhs.here, rhs.pos, null, null;
      new;
      if stream != null {
        hide Stream.Linked, Stream.Positioned, Stream.Spaced, Stream.Fetched;
        stream.InsertIterator(this);
        stream.Inherits(this, rhs);
      }
    }

    /** The destructor takes the iterator out of its stream's list. */
    method Destroy()
      requires Attached() && (stream != null ==> stream.Valid())
      modifies Owner()`iterators, Owner()`list, Mates()`prev, Mates()`next
      ensures prev == null && next == null
      ensures stream != null ==>
        && stream.Valid() && this !in stream.list
        && WithoutOne(old(if stream == null then [] else stream.list), this, stream.list)
    {
      if stream != null {
        hide Stream.Linked, Stream.Positioned, Stream.Spaced, Stream.Fetched;
        stream.RemoveIterator(this);
        assert forall it :: it in stream.list ==> it in old(stream.list);
        hide WithoutOne;
        stream.Inherits(this, this);
      }
    }

    /** Move the stream forward by `n` strides and go there; negative moves are refused. */
    method Advance(n: int) returns (ok: bool)
      requires stream != null && stream.Valid() && Attached()
      requires stream.reqpos + n * stream.stride <= INT_MAX
      modifies this`pos, this`here, stream`reqpos
      ensures stream.Valid() && ok == (0 <= n)
      ensures n <= 0 ==> pos == old(pos) && here == old(here) && stream.reqpos == old(stream.reqpos)
      ensures n > 0 ==> pos == stream.reqpos == old(stream.reqpos) + n * stream.stride && here == []
      ensures n > 0 ==> stream.realpos <= stream.reqpos
    {
      if n <= 0 {
        return n == 0;
      }
      hide Stream.Linked, Stream.Positioned, Stream.Spaced, Stream.Fetched;
      var there := stream.Forward(n);
      label Forwarded:
      pos, here := there, [];
      stream.GoesAhead@Forwarded(this);
      return true;
    }

    /** Take over another iterator's state, moving to its stream if need be. */
    method Assign(rhs: Iterator)
      requires Attached() && rhs.Attached()
      requires (stream != null ==> stream.Valid()) && (rhs.stream != null ==> rhs.stream.Valid())
      modifies this, Owner()`iterators, Owner()`list, Mates()`prev, Mates()`next
      modifies rhs.Owner()`iterators, rhs.Owner()`list, rhs.Mates()`prev
      ensures stream == old(rhs.stream) && pos == old(rhs.pos) && here == old(rhs.here) && Attached()
      ensures stream != null ==> stream.Valid()
      ensures old(stream) != null ==> old(stream).Valid()
      ensures old(stream == rhs.stream) && stream != null ==> stream.list == old(stream.list)
      ensures old(stream != rhs.stream) && stream != null ==> stream.list == [this] + old(if rhs.stream == null then [] else rhs.stream.list)
      ensures old(stream != rhs.stream && stream != null) ==> WithoutOne(old(if stream == null then [] else stream.list), this, old(stream).list)
    {
      hide Stream.Linked, Stream.Positioned, Stream.Spaced, Stream.Fetched, WithoutOne;
      if rhs == this {
      } else if rhs.stream == stream {
        AssignSame(rhs);
      } else {
        if stream != null {
          stream.Members();
        }
        if rhs.stream != null {
          rhs.stream.Members();
        }
        Destroy();
        if stream != null {
          stream.Members();
        }
        AssignOther(rhs);
      }
    }

    method AssignSame(rhs: Iterator)
      requires Attached() && rhs.Attached() && rhs.stream == stream && (stream != null ==> stream.Valid())
      modifies this`here, this`pos
      ensures pos == rhs.pos && here == rhs.here && Attached() && (stream != null ==> stream.Valid())
    {
      hide Stream.Linked, Stream.Positioned, Stream.Spaced, Stream.Fetched;
      here, pos := rhs.here, rhs.pos;
      if stream != null {
        stream.Inherits(this, rhs);
      }
    }

    /** The iterator is on no list; join that of `rhs`. */
    method AssignOther(rhs: Iterator)
      requires rhs != this && prev == null && next == null && rhs.Attached()
      requires rhs.stream != null ==> rhs.stream.Valid() && this !in rhs.stream.list
      modifies this, rhs.Owner()`iterators, rhs.Owner()`list, rhs.Mates()`prev
      ensures stream == rhs.stream && pos == rhs.pos && here == rhs.here && Attached()
      ensures stream != null ==> stream.Valid() && stream.list == [this] + old(if rhs.stream == null then [] else rhs.stream.list)
    {
      hide Stream.Positioned, Stream.Spaced, Stream.Fetched;
      here, pos, stream := rhs.here, rhs.pos, rhs.stream;
      if stream != null {
        stream.InsertIterator(this);
        hide Stream.Linked;
        stream.Inherits(this, rhs);
      }
    }

    /** Make sure that the iterator holds its block.  One behind the cursor is left as it
        is, which is its block if it was in time for that. */
    method Refresh()
      requires Attached() && (stream != null ==> stream.Valid())
      modifies Owner()`realpos, Owner()`done, Mates()`here
      modifies (set s | s in Owner() :: s.cur), (set s | s in Owner() :: s.cur.home)
      ensures stream != null ==>
        && stream.Valid() && 1 <= stream.stride
        && stream.HandedOut(old(if stream == null then [] else stream.cur.home.handed), pos)
        && stream.Went(old(if stream == null then 0 else stream.realpos), pos)
        && stream.done == (old(stream != null && stream.done) || pos >= |stream.cur.home.rows|)
      ensures stream != null ==> forall it :: it in Mates() ==>
        0 <= it.pos && it.here == if old(if stream == null then 0 else stream.realpos) <= it.pos <= pos
                                  then Block(stream.cur.home.rows, it.pos, stream.stride) else old(it.here)
      ensures stream == null ==> here == old(here)
    {
      if stream != null {
        stream.ServiceIterators(pos, this);
      }
    }
  }

  /** `b` is `a` with one occurrence of `x` taken out. */
  ghost predicate WithoutOne<T>(a: seq<T>, x: T, b: seq<T>) {
    exists k :: 0 <= k < |a| && a[k] == x && b == a[..k] + a[k + 1..]
  }

  lemma WithoutOneMembers<T>(a: seq<T>, x: T, b: seq<T>)
    requires WithoutOne(a, x, b)
    ensures forall i :: 0 <= i < |b| ==> b[i] in a
    ensures forall i :: 0 <= i < |a| && a[i] != x ==> a[i] in b
  {
    var k :| 0 <= k < |a| && a[k] == x && b == a[..k] + a[k + 1..];
    forall i | 0 <= i < |a| && a[i] != x ensures a[i] in b {
      assert b[if i < k then i else i - 1] == a[i];
    }
  }

  class Stream {
    const cur: SqlCursor
    const stride: int
    var iterators: Iterator?
    var realpos: int
    var reqpos: int
    var done: bool

    // The registered iterators, in list order.
    ghost var list: seq<Iterator>

    /** The intrusive list: `next` and `prev` walk `list` forwards and backwards. */
    ghost predicate Linked()
      reads this`iterators, this`list, list`stream, list`next, list`prev
    {
      && (forall i, j :: 0 <= i < j < |list| ==> list[i] != list[j])
      && iterators == (if list == [] then null else list[0])
      && (forall i {:trigger list[i].stream} :: 0 <= i < |list| ==> list[i].stream == this)
      && (forall i {:trigger list[i].next} :: 0 <= i < |list| ==> list[i].next == if i + 1 < |list| then list[i + 1] else null)
      && (forall i {:trigger list[i].prev} :: 0 <= i < |list| ==> list[i].prev == if 0 < i then list[i - 1] else null)
    }

    ghost predicate Positioned()
      reads this`realpos, this`reqpos, cur, cur.home
    {
      var n := |cur.home.rows|;
      && cur.Valid() && cur.pos != -1
      && 1 <= stride <= INT_MAX
      && realpos == (if cur.home.pos > n then n else cur.home.pos)
      && 0 <= reqpos <= INT_MAX
      && FetchedOnce()
    }

    /** Rows are fetched in order, each at most once, and all before the cursor. */
    ghost predicate FetchedOnce()
      reads this`realpos, cur.home`handed
    {
      && (forall i :: 0 <= i < |cur.home.handed| ==> 0 <= cur.home.handed[i] < realpos)
      && (forall i, j :: 0 <= i < j < |cur.home.handed| ==> cur.home.handed[i] < cur.home.handed[j])
    }

    /** The block of an iterator behind the cursor was fetched. */
    ghost predicate Fetched(it: Iterator)
      reads this`realpos, it`pos, cur.home`handed
    {
      0 <= it.pos && (it.pos < realpos ==> Covered(cur.home.handed, |cur.home.rows|, it.pos, stride))
    }

    /** If the iterator is behind the cursor, it holds its block. */
    ghost predicate Timely(it: Iterator)
      requires 1 <= stride && 0 <= it.pos
      reads this`realpos, it`pos, it`here
    {
      it.pos < realpos ==> it.here == Block(cur.home.rows, it.pos, stride)
    }

    /** The cursor went from `from` on, no further than the block at `topos`. */
    ghost predicate Went(from: int, topos: int)
      reads this`realpos
    {
      from <= realpos && (realpos == from || realpos <= topos + stride)
    }

    /** Since `before`, the rows fetched are exactly those of the blocks of the
        registered iterators up to `topos`, as far as they were not fetched already. */
    ghost predicate HandedOut(before: seq<int>, topos: int)
      reads this`list, list`pos, cur.home`handed
    {
      && before <= cur.home.handed
      && forall x :: x in cur.home.handed <==>
           x in before || exists it :: it in list && it.pos <= topos && InBlock(|cur.home.rows|, it.pos, stride, x)
    }

    /** Positions are equal or at least a stride apart, and none is ahead of `reqpos`. */
    ghost predicate Spaced()
      reads this`list, this`reqpos, list`pos
    {
      Apart() && NoneAhead()
    }

    ghost predicate Apart()
      reads this`list, list`pos
    {
      forall a, b :: a in list && b in list && a.pos < b.pos ==> a.pos + stride <= b.pos
    }

    ghost predicate NoneAhead()
      reads this`list, this`reqpos, list`pos
    {
      forall a :: a in list ==> a.pos == reqpos || a.pos + stride <= reqpos
    }

    ghost predicate Valid()
      reads this, list, cur, cur.home
    {
      && Linked() && Positioned() && Spaced()
      && realpos <= reqpos + stride
      && (reqpos < realpos ==> Covered(cur.home.handed, |cur.home.rows|, reqpos, stride))
      && forall it :: it in list ==> Fetched(it)
    }

    constructor (cur: SqlCursor, stride: int)
      requires cur.Valid() && cur.pos == 0 && cur.home.handed == [] && 1 <= stride <= INT_MAX
      ensures Valid() && this.cur == cur && this.stride == stride && list == [] && realpos == 0 && reqpos == 0 && !done
    {
      this.cur, this.stride := cur, stride;
      iterators, realpos, reqpos, done := null, 0, 0, false;
      list := [];
    }

    /** Read the next block.  The rows handed out are those from the old position of the
        cursor to the new one. */
    method FetchBlock() returns (r: seq<Row>)
      requires Positioned()
      modifies this`realpos, this`done, cur, cur.home
      ensures Positioned()
      ensures r == Block(cur.home.rows, old(realpos), stride) && realpos == old(realpos) + |r|
      ensures cur.home.handed == old(cur.home.handed) + Span(old(realpos), realpos)
      ensures done == (old(done) || old(realpos) == |cur.home.rows|)
    {
      hide Read, Passed, Target, StrideOf, Block, Span;
      ghost var handed, from := cur.home.handed, realpos;
      StrideStep(cur.home.rows, cur.home.pos, stride);
      var displacement;
      r, displacement := cur.Fetch(stride);
      realpos := realpos + |r|;
      if r == [] {
        done := true;
      }
      FetchedOn(handed, from, realpos);
    }

    /** Skip `n` rows, as far as there are any. */
    method Ignore(n: int)
      requires Positioned() && 0 < n <= INT_MAX
      modifies this`realpos, this`done, cur, cur.home`pos
      ensures Positioned()
      ensures realpos == if old(realpos) + n > |cur.home.rows| then |cur.home.rows| else old(realpos) + n
      ensures done == (old(done) || old(realpos) + n > |cur.home.rows|)
    {
      var offset, displacement := cur.Move(n);
      realpos := realpos + offset;
      if offset < n {
        done := true;
      }
    }

    /** Ask for the block `n` strides further on. */
    method Forward(n: nat) returns (pos: int)
      requires Valid() && reqpos + n * stride <= INT_MAX
      modifies this`reqpos
      ensures Valid() && pos == reqpos == old(reqpos) + n * stride
      ensures n > 0 ==> realpos <= pos && forall it :: it in list ==> it.pos + stride <= pos
    {
      hide Linked, Spaced, Fetched;
      StrideMultiple(n, stride);
      Request(n * stride);
      return reqpos;
    }

    method Request(step: int)
      requires Valid() && (step == 0 || stride <= step) && reqpos + step <= INT_MAX
      modifies this`reqpos
      ensures Valid() && reqpos == old(reqpos) + step
      ensures step > 0 ==> realpos <= reqpos && forall it :: it in list ==> it.pos + stride <= reqpos
    {
      hide Linked, Fetched, FetchedOnce, SqlCursor.Valid, Apart, Covered;
      reqpos := reqpos + step;
    }

    /** Put an iterator at the head of the list. */
    method InsertIterator(i: Iterator)
      requires Linked() && i !in list && i.stream == this && i.prev == null
      modifies this`iterators, this`list, i`next, list`prev
      ensures Linked() && list == [i] + old(list)
    {
      i.next := iterators;
      if iterators != null {
        iterators.prev := i;
      }
      iterators := i;
      list := [i] + list;
    }

    /** The links of `l` skip the iterator at `k`. */
    ghost predicate Bridged(l: seq<Iterator>, k: int)
      requires 0 <= k < |l|
      reads this`iterators, l
    {
      && iterators == (if 0 < k then l[0] else if 1 < |l| then l[1] else null)
      && (forall i {:trigger l[i].stream} :: 0 <= i < |l| ==> l[i].stream == this)
      && (forall i {:trigger l[i].next} :: 0 <= i < |l| && i != k ==>
            l[i].next == var j := if i + 1 == k then k + 1 else i + 1; if j < |l| then l[j] else null)
      && (forall i {:trigger l[i].prev} :: 0 <= i < |l| && i != k ==>
            l[i].prev == var j := if i - 1 == k then k - 1 else i - 1; if 0 <= j then l[j] else null)
    }

    lemma Relinked(l: seq<Iterator>, k: int)
      requires 0 <= k < |l| && Bridged(l, k) && list == l[..k] + l[k + 1..]
      requires forall i, j :: 0 <= i < j < |l| ==> l[i] != l[j]
      ensures Linked() && l[k] !in list
    {
      forall i | 0 <= i < |list| ensures list[i] == l[if i < k then i else i + 1] {}
    }

    /** Take an iterator out of the list, wherever it stands. */
    method RemoveIterator(i: Iterator)
      requires Linked() && i in list
      modifies this`iterators, this`list, list`prev, list`next
      ensures Linked() && i.prev == null && i.next == null && i !in list
      ensures WithoutOne(old(list), i, list)
    {
      ghost var l := list;
      ghost var k := Bypass(i);
      i.prev, i.next := null, null;
      assert Bridged(l, k);
      hide Bridged;
      list := l[..k] + l[k + 1..];
      Relinked(l, k);
      hide Linked;
    }

    /** Lead the links around an iterator. */
    method Bypass(i: Iterator) returns (ghost k: int)
      requires Linked() && i in list
      modifies this`iterators, list`prev, list`next
      ensures 0 <= k < |list| && list[k] == i && Bridged(list, k)
    {
      k :| 0 <= k < |list| && list[k] == i;
      if i == iterators {
        iterators := i.next;
        if iterators != null {
          iterators.prev := null;
        }
      } else {
        var prev, next := i.prev, i.next;
        assert prev == list[k - 1] && (next != null ==> next == list[k + 1]);
        prev.next := next;
        if next != null {
          next.prev := prev;
        }
      }
    }

    /** Each entry is a registered iterator, with its position. */
    ghost predicate Entries(todo: seq<Todo>)
      reads this`list, list`pos
    {
      forall j :: 0 <= j < |todo| ==> todo[j].it in list && todo[j].pos == todo[j].it.pos
    }

    /** These are the iterators between `from` and `topos`, in order of position. */
    ghost predicate Collected(todo: seq<Todo>, from: int, topos: int)
      reads this`list, list`pos
    {
      && Sorted(todo) && NoTwice(todo) && Entries(todo)
      && (forall j :: 0 <= j < |todo| ==> from <= todo[j].pos <= topos)
      && (forall it :: it in list && from <= it.pos <= topos ==> Todo(it.pos, it) in todo)
    }

    /** Each iterator of `todo` holds its block, and since `before` exactly the rows of
        those blocks were fetched. */
    ghost predicate Supplied(todo: seq<Todo>, before: seq<int>)
      reads this`list, list`here, cur.home`handed, set j | 0 <= j < |todo| :: todo[j].it
    {
      && before <= cur.home.handed
      && (forall x :: x in cur.home.handed <==> x in before || Asked(todo, |todo|, x))
      && 1 <= stride && (forall j :: 0 <= j < |todo| ==> 0 <= todo[j].pos)
      && (forall j :: 0 <= j < |todo| ==> todo[j].it.here == Block(cur.home.rows, todo[j].pos, stride))
    }

    /** The blocks of the iterators behind `from` were fetched before. */
    ghost predicate Behind(from: int, before: seq<int>)
      reads this`list, list`pos
    {
      && (forall it :: it in list ==> 0 <= it.pos)
      && (forall it :: it in list && it.pos < from ==> Covered(before, |cur.home.rows|, it.pos, stride))
    }

    /** Find the iterators between the cursor and `topos`. */
    method CollectTodo(topos: int) returns (todo: seq<Todo>)
      requires Linked()
      ensures Collected(todo, realpos, topos)
    {
      hide Gathered, Collected;
      todo := [];
      var i := iterators;
      ghost var k := 0;
      GatheredNone(topos);
      while i != null
        invariant 0 <= k <= |list| && i == if k < |list| then list[k] else null
        invariant Gathered(todo, k, topos)
        decreases |list| - k
      {
        GatheredOn(todo, k, topos);
        if i.pos >= realpos && i.pos <= topos {
          todo := InsertTodo(todo, Todo(i.pos, i));
        }
        i, k := i.next, k + 1;
      }
      GatheredAll(todo, topos);
    }

    /** The first `k` iterators of the list have been looked at. */
    ghost predicate Gathered(todo: seq<Todo>, k: nat, topos: int)
      requires k <= |list|
      reads this`realpos, this`list, list`pos
    {
      && Sorted(todo) && NoTwice(todo)
      && (forall j :: 0 <= j < |todo| ==>
            todo[j].it in list[..k] && todo[j].it in list && todo[j].pos == todo[j].it.pos && realpos <= todo[j].pos <= topos)
      && (forall it :: it in list[..k] && it in list && realpos <= it.pos <= topos ==> Todo(it.pos, it) in todo)
    }

    lemma GatheredNone(topos: int)
      ensures Gathered([], 0, topos)
    {
    }

    lemma GatheredOn(todo: seq<Todo>, k: nat, topos: int)
      requires Linked() && k < |list| && Gathered(todo, k, topos)
      ensures var it := list[k];
        Gathered(if realpos <= it.pos <= topos then InsertTodo(todo, Todo(it.pos, it)) else todo, k + 1, topos)
    {
      hide Sorted, NoTwice;
      var e := Todo(list[k].pos, list[k]);
      assert list[..k + 1] == list[..k] + [list[k]];
      if realpos <= e.pos <= topos {
        assert list[k] !in list[..k];
        InsertTodoKeeps(todo, e);
        InsertTodoMembers(todo, e);
        hide InsertTodo;
      }
    }

    lemma GatheredAll(todo: seq<Todo>, topos: int)
      requires Gathered(todo, |list|, topos)
      ensures Collected(todo, realpos, topos)
    {
      hide Sorted, NoTwice;
      assert list[..|list|] == list;
    }

    /** Hand one block to all the iterators that stand at its position. */
    method FillGroup(todo: seq<Todo>, start: nat, r: seq<Row>) returns (i: nat)
      requires start < |todo| && Sorted(todo) && NoTwice(todo) && Entries(todo)
      modifies list`here
      ensures start < i <= |todo|
      ensures forall j :: start <= j < i ==> todo[j].pos == todo[start].pos && todo[j].it.here == r
      ensures i < |todo| ==> todo[start].pos < todo[i].pos
      ensures forall it :: it in list && (forall j :: start <= j < i ==> it != todo[j].it) ==> it.here == old(it.here)
    {
      i := start;
      while i < |todo| && todo[i].pos == todo[start].pos
        invariant start <= i <= |todo|
        invariant forall j :: start <= j < i ==> todo[j].pos == todo[start].pos && todo[j].it.here == r
        invariant forall it :: it in list && (forall j :: start <= j < i ==> it != todo[j].it) ==> it.here == old(it.here)
      {
        todo[i].it.here := r;
        i := i + 1;
      }
    }

    /** Serve every iterator between the cursor and `topos`, where `who` stands, in one
        sweep of the cursor.  Afterwards `who` holds its block.  Nothing happens if the
        cursor is past `topos`. */
    method ServiceIterators(topos: int, ghost who: Iterator)
      requires Valid() && who in list && who.pos == topos
      modifies this`realpos, this`done, list`here, cur, cur.home
      ensures Valid() && 1 <= stride && HandedOut(old(cur.home.handed), topos) && Went(old(realpos), topos)
      ensures done == (old(done) || topos >= |cur.home.rows|)
      ensures forall it :: it in list ==>
        0 <= it.pos && it.here == if old(realpos) <= it.pos <= topos then Block(cur.home.rows, it.pos, stride) else old(it.here)
    {
      hide Linked, Positioned, Spaced, Covered, HandedOut, Block;
      PositiveStride();
      assert forall it :: it in list ==> Fetched(it);
      if topos < realpos {
        NothingNew(topos);
        return;
      }
      Serve(topos, who);
    }

    method Serve(topos: int, ghost who: Iterator)
      requires Valid() && who in list && who.pos == topos && realpos <= topos
      modifies this`realpos, this`done, list`here, cur, cur.home
      ensures Valid() && 1 <= stride && HandedOut(old(cur.home.handed), topos) && Went(old(realpos), topos)
      ensures done == (old(done) || topos >= |cur.home.rows|)
      ensures forall it :: it in list ==>
        0 <= it.pos && it.here == if old(realpos) <= it.pos <= topos then Block(cur.home.rows, it.pos, stride) else old(it.here)
    {
      hide Linked, Positioned, Sorted, NoTwice, Covered, HandedOut, Block, Spaced, Apart, NoneAhead, Asked, RunsOut;
      PositiveStride();
      assert Behind(realpos, cur.home.handed) by {
        forall it | it in list
          ensures 0 <= it.pos && (it.pos < realpos ==> Covered(cur.home.handed, |cur.home.rows|, it.pos, stride))
        {
          assert Fetched(it);
        }
      }
      var todo := CollectTodo(topos);
      Sweep(todo, topos);
      PositiveStride();
      RunsOutAt(todo, old(realpos), topos, who);
      Swept(old(cur.home.handed), old(realpos), todo, topos, who);
    }

    /** After the sweep every iterator is served again, and the rows fetched are those
        that the iterators up to `topos` still missed. */
    lemma Swept(before: seq<int>, from: int, todo: seq<Todo>, topos: int, who: Iterator)
      requires Linked() && Positioned() && Spaced() && 1 <= stride
      requires who in list && who.pos == topos && from <= topos && from <= reqpos + stride
      requires Collected(todo, from, topos) && Supplied(todo, before) && Behind(from, before)
      requires from <= realpos && (realpos == from || realpos <= topos + stride)
      ensures Valid() && HandedOut(before, topos)
    {
      hide Linked, Positioned, Covered, Asked, Block, Sorted, NoTwice, Fetched, HandedOut, Apart;
      forall it | it in list ensures Fetched(it) {
        SweptOne(before, from, todo, topos, who, it);
      }
      SweptOut(before, todo, topos, from);
      assert Todo(who.pos, who) in todo;
      assert who.pos == reqpos || who.pos + stride <= reqpos;
      if who.pos == reqpos {
        AskedCovers(before, todo, who);
      }
    }

    /** One iterator after the sweep. */
    lemma SweptOne(before: seq<int>, from: int, todo: seq<Todo>, topos: int, who: Iterator, it: Iterator)
      requires Spaced() && 1 <= stride && who in list && who.pos == topos && it in list
      requires Collected(todo, from, topos) && Supplied(todo, before) && Behind(from, before)
      requires from <= realpos && (realpos == from || realpos <= topos + stride)
      ensures Fetched(it)
    {
      hide Covered, Asked, Block, Sorted, NoTwice;
      if it.pos < from {
        CoveredOn(before, cur.home.handed, |cur.home.rows|, it.pos, stride);
      } else if it.pos <= topos {
        assert Todo(it.pos, it) in todo;
        AskedCovers(before, todo, it);
      }
    }

    lemma AskedCovers(before: seq<int>, todo: seq<Todo>, it: Iterator)
      requires Todo(it.pos, it) in todo
      requires forall x :: x in cur.home.handed <==> x in before || Asked(todo, |todo|, x)
      ensures Covered(cur.home.handed, |cur.home.rows|, it.pos, stride)
    {
      var j :| 0 <= j < |todo| && todo[j] == Todo(it.pos, it);
      assert forall x :: InBlock(|cur.home.rows|, todo[j].pos, stride, x) ==> Asked(todo, |todo|, x);
    }

    lemma Requested()
      requires Valid()
      ensures 1 <= stride && 0 <= reqpos && realpos <= |cur.home.rows|
      ensures forall it :: it in list ==> 0 <= it.pos && (it.pos == reqpos || it.pos + stride <= reqpos)
    {
      hide Linked, Apart, Covered;
      assert forall it :: it in list ==> Fetched(it);
    }

    lemma PastHanded(before: seq<int>, topos: int, it: Iterator, x: int)
      requires Valid() && HandedOut(before, topos)
      requires it in list && it.pos <= topos && InBlock(|cur.home.rows|, it.pos, stride, x)
      ensures x < realpos
    {
      hide HandedOut, Linked, Spaced, Fetched;
      CursorPast(before, topos, it, x);
    }

    lemma StridesAhead(it: Iterator)
      requires Valid() && it in list
      ensures forall b :: b in list && it.pos < b.pos ==> it.pos + stride <= b.pos
    {
      hide Linked, NoneAhead, Fetched, Positioned;
    }

    lemma HandedOn(before: seq<int>, topos: int)
      requires HandedOut(before, topos)
      ensures before <= cur.home.handed
    {
    }

    /** The cursor is past every row that was handed out. */
    lemma CursorPast(before: seq<int>, topos: int, it: Iterator, x: int)
      requires Positioned() && HandedOut(before, topos)
      requires it in list && it.pos <= topos && InBlock(|cur.home.rows|, it.pos, stride, x)
      ensures x < realpos
    {
      assert x in cur.home.handed;
      var i :| 0 <= i < |cur.home.handed| && cur.home.handed[i] == x;
    }

    /** Behind the cursor there is nothing left to fetch. */
    lemma NothingNew(topos: int)
      requires Valid() && topos < realpos
      ensures HandedOut(cur.home.handed, topos)
    {
      forall it, x | it in list && it.pos <= topos && InBlock(|cur.home.rows|, it.pos, stride, x)
        ensures x in cur.home.handed
      {
        assert Fetched(it);
      }
    }

    /** The sweep fetched what the iterators up to `topos` still missed. */
    lemma SweptOut(before: seq<int>, todo: seq<Todo>, topos: int, from: int)
      requires before <= cur.home.handed && 1 <= stride && Entries(todo)
      requires forall x :: x in cur.home.handed <==> x in before || Asked(todo, |todo|, x)
      requires forall j :: 0 <= j < |todo| ==> todo[j].pos <= topos
      requires forall it :: it in list && from <= it.pos <= topos ==> Todo(it.pos, it) in todo
      requires forall it :: it in list && it.pos < from ==> Covered(before, |cur.home.rows|, it.pos, stride)
      ensures HandedOut(before, topos)
    {
      forall x ensures Asked(todo, |todo|, x) ==> exists it :: it in list && it.pos <= topos && InBlock(|cur.home.rows|, it.pos, stride, x) {
        if Asked(todo, |todo|, x) {
          var j :| 0 <= j < |todo| && InBlock(|cur.home.rows|, todo[j].pos, stride, x);
          assert todo[j].it in list;
        }
      }
      forall it, x | it in list && it.pos <= topos && InBlock(|cur.home.rows|, it.pos, stride, x)
        ensures x in cur.home.handed
      {
        if from <= it.pos {
          var j :| 0 <= j < |todo| && todo[j] == Todo(it.pos, it);
          assert Asked(todo, |todo|, x);
        } else {
          assert x in before;
        }
      }
    }

    /** The stream stays in order when every member keeps its place, or takes over that of
        a former member. */
    twostate lemma Inherits(new who: Iterator, src: Iterator)
      requires old(Valid()) && Linked() && src in old(list)
      requires realpos == old(realpos) && reqpos == old(reqpos) && unchanged(cur) && unchanged(cur.home)
      requires forall it :: it in list ==> if it == who then it.pos == old(src.pos) else it in old(list) && it.pos == old(it.pos)
      ensures Valid()
    {
      hide Linked, Block, Covered;
      forall it | it in list ensures Fetched(it) {
        assert old(Fetched(if it == who then src else it));
      }
    }

    /** The stream stays in order when an iterator joins at the requested position. */
    twostate lemma Joins(new who: Iterator)
      requires old(Valid()) && Linked() && list == [who] + old(list) && who.pos == reqpos && who !in old(list)
      requires realpos == old(realpos) && reqpos == old(reqpos) && unchanged(cur) && unchanged(cur.home)
      requires forall it :: it in old(list) ==> it.pos == old(it.pos)
      ensures Valid()
    {
      hide Linked, Block, Covered;
      forall it | it in list ensures Fetched(it) && (it == who || it in old(list)) {
        if it != who {
          assert old(Fetched(it));
        }
      }
    }

    /** The stream stays in order when one member goes ahead of all others and of the cursor. */
    twostate lemma GoesAhead(who: Iterator)
      requires old(Valid()) && Linked() && list == old(list) && who in list
      requires realpos == old(realpos) <= reqpos == old(reqpos) && unchanged(cur) && unchanged(cur.home)
      requires forall it :: it in list ==> old(it.pos) + stride <= reqpos
      requires forall it :: it in list && it != who ==> it.pos == old(it.pos)
      requires who.pos == reqpos
      ensures Valid()
    {
      hide Linked, Block, Covered;
      forall it | it in list && it != who ensures Fetched(it) {
        assert old(Fetched(it));
      }
    }

    lemma Members()
      requires Linked()
      ensures forall it :: it in list ==> it.stream == this
    {
    }

    lemma Registered()
      requires Valid()
      ensures forall it :: it in list ==> it.stream == this
    {
    }

    lemma PositiveStride()
      requires Positioned()
      ensures 1 <= stride && 0 <= realpos <= |cur.home.rows|
    {
    }

    /** Row `x` belongs to the block of one of the first `i` entries. */
    ghost predicate Asked(todo: seq<Todo>, i: nat, x: int)
      requires i <= |todo|
    {
      exists j :: 0 <= j < i && InBlock(|cur.home.rows|, todo[j].pos, stride, x)
    }

    /** One of the first `i` entries stands beyond the last row. */
    ghost predicate RunsOut(todo: seq<Todo>, i: nat)
      requires i <= |todo|
    {
      exists j :: 0 <= j < i && todo[j].pos >= |cur.home.rows|
    }

    lemma NothingRunsOut(todo: seq<Todo>)
      ensures !RunsOut(todo, 0)
    {
    }

    lemma RunsOutGroup(todo: seq<Todo>, start: nat, i: nat)
      requires start < i <= |todo|
      requires forall j :: start <= j < i ==> todo[j].pos == todo[start].pos
      ensures RunsOut(todo, i) <==> RunsOut(todo, start) || todo[start].pos >= |cur.home.rows|
    {
    }

    lemma RunsOutAt(todo: seq<Todo>, from: int, topos: int, who: Iterator)
      requires Collected(todo, from, topos) && who in list && who.pos == topos && from <= topos
      ensures RunsOut(todo, |todo|) <==> topos >= |cur.home.rows|
    {
      hide Sorted, NoTwice;
      assert Todo(topos, who) in todo;
    }

    method Sweep(todo: seq<Todo>, topos: int)
      requires Positioned() && Spaced() && Collected(todo, realpos, topos)
      modifies this`realpos, this`done, list`here, cur, cur.home
      ensures Positioned() && Supplied(todo, old(cur.home.handed))
      ensures old(realpos) <= realpos && (realpos == old(realpos) || realpos <= topos + stride)
      ensures done == (old(done) || RunsOut(todo, |todo|))
      ensures forall it :: it in list && (forall j :: 0 <= j < |todo| ==> it != todo[j].it) ==> it.here == old(it.here)
    {
      hide Positioned, Sorted, Spaced, Block, RunsOut;
      PositiveStride();
      assert !RunsOut(todo, 0) by { NothingRunsOut(todo); }
      var i := 0;
      while i < |todo|
        invariant 0 <= i <= |todo| && Positioned() && old(cur.home.handed) <= cur.home.handed
        invariant i < |todo| ==> realpos <= todo[i].pos
        invariant forall x :: x in cur.home.handed <==> x in old(cur.home.handed) || Asked(todo, i, x)
        invariant old(realpos) <= realpos && (realpos == old(realpos) || realpos <= topos + stride)
        invariant done == (old(done) || RunsOut(todo, i))
        invariant forall j :: 0 <= j < i ==> todo[j].it.here == Block(cur.home.rows, todo[j].pos, stride)
        invariant forall it :: it in list && (forall j :: 0 <= j < i ==> it != todo[j].it) ==> it.here == old(it.here)
        decreases |todo| - i
      {
        PositiveStride();
        ghost var start, handed := i, cur.home.handed;
        i := ServeGroup(todo, i);
        AskedGroup(handed, todo, start, i);
        RunsOutGroup(todo, start, i);
      }
    }

    /** The block of a group adds the rows asked for by its entries. */
    lemma AskedGroup(handed: seq<int>, todo: seq<Todo>, start: nat, i: nat)
      requires start < i <= |todo| && 1 <= stride
      requires forall j :: start <= j < i ==> todo[j].pos == todo[start].pos
      requires handed <= cur.home.handed
      requires forall x :: x in cur.home.handed <==> x in handed || InBlock(|cur.home.rows|, todo[start].pos, stride, x)
      ensures forall x :: x in cur.home.handed || Asked(todo, start, x) <==> x in handed || Asked(todo, i, x)
    {
    }

    /** One round of the sweep: read one block and hand it out. */
    method ServeGroup(todo: seq<Todo>, start: nat) returns (i: nat)
      requires Positioned() && Spaced() && start < |todo| && Sorted(todo) && NoTwice(todo)
      requires Entries(todo) && 0 <= realpos <= todo[start].pos
      modifies this`realpos, this`done, list`here, cur, cur.home
      ensures Positioned() && start < i <= |todo|
      ensures old(cur.home.handed) <= cur.home.handed
      ensures forall x :: x in cur.home.handed <==> x in old(cur.home.handed) || InBlock(|cur.home.rows|, todo[start].pos, stride, x)
      ensures old(realpos) <= realpos <= todo[start].pos + stride
      ensures i < |todo| ==> realpos <= todo[i].pos
      ensures done == (old(done) || todo[start].pos >= |cur.home.rows|)
      ensures forall j :: start <= j < i ==> todo[j].pos == todo[start].pos && todo[j].it.here == Block(cur.home.rows, todo[j].pos, stride)
      ensures forall it :: it in list && (forall j :: start <= j < i ==> it != todo[j].it) ==> it.here == old(it.here)
    {
      hide Sorted, NoTwice;
      var readpos := todo[start].pos;
      var r := ReadAt(readpos);
      i := FillGroup(todo, start, r);
      assert i < |todo| ==> todo[start].it.pos + stride <= todo[i].it.pos;
    }

    /** Skip to a position and read the block there. */
    method ReadAt(readpos: int) returns (r: seq<Row>)
      requires Positioned() && 0 <= realpos <= readpos <= INT_MAX
      modifies this`realpos, this`done, cur, cur.home
      ensures Positioned() && old(realpos) <= realpos <= readpos + stride
      ensures r == Block(cur.home.rows, readpos, stride)
      ensures done == (old(done) || readpos >= |cur.home.rows|)
      ensures old(cur.home.handed) <= cur.home.handed
      ensures forall x :: x in cur.home.handed <==> x in old(cur.home.handed) || InBlock(|cur.home.rows|, readpos, stride, x)
    {
      if readpos > realpos {
        Ignore(readpos - realpos);
      }
      ghost var from := realpos;
      r := FetchBlock();
      SpanMembers(from, realpos);
      hide Span;
    }
  }

  /** What a fetch of one stride does. */
  lemma StrideStep(rows: seq<Row>, pos: int, stride: int)
    requires 0 <= pos <= |rows| + 1 && |rows| < ALL && 1 <= stride <= INT_MAX
    ensures var n, from := |rows|, if pos > |rows| then |rows| else pos;
      var to, target := if from + stride > n then n else from + stride, Target(n, pos, StrideOf(stride));
      && Passed(n, pos, StrideOf(stride)) == Span(from, to)
      && Read(rows, pos, StrideOf(stride)) == Block(rows, from, stride) && |Block(rows, from, stride)| == to - from
      && to == if target > n then n else target
  {
  }

  lemma SpanMembers(a: int, b: int)
    requires a <= b
    ensures forall x :: x in Span(a, b) <==> a <= x < b
  {
    forall x | a <= x < b ensures x in Span(a, b) {
      assert Span(a, b)[x - a] == x;
    }
  }

  /** Rows fetched stay in order when those right after the cursor are added. */
  lemma FetchedOn(handed: seq<int>, a: int, b: int)
    requires 0 <= a <= b
    requires forall i :: 0 <= i < |handed| ==> 0 <= handed[i] < a
    requires forall i, j :: 0 <= i < j < |handed| ==> handed[i] < handed[j]
    ensures var all := handed + Span(a, b);
      && (forall i :: 0 <= i < |all| ==> 0 <= all[i] < b)
      && (forall i, j :: 0 <= i < j < |all| ==> all[i] < all[j])
  {
  }

  lemma CoveredOn(a: seq<int>, b: seq<int>, n: nat, pos: int, stride: int)
    requires a <= b && Covered(a, n, pos, stride)
    ensures Covered(b, n, pos, stride)
  {
    forall x | InBlock(n, pos, stride, x) ensures x in b {
      assert x in a;
    }
  }

  /** A new iterator on a stream, and its first look.  It shows its block exactly if the
      block has not been read yet; otherwise it shows nothing. */
  method FirstLook(s: Stream) returns (it: Iterator, shown: seq<Row>)
    requires s.Valid()
    modifies s, s.list, s.cur, s.cur.home
    ensures fresh(it) && s.list == [it] + old(s.list) && it.stream == s && it.pos == s.reqpos == old(s.reqpos)
    ensures s.Valid() && s.HandedOut(old(s.cur.home.handed), it.pos)
    ensures shown == if old(s.realpos) <= s.reqpos then Block(s.cur.home.rows, s.reqpos, s.stride) else []
    ensures shown == Block(s.cur.home.rows, s.reqpos, s.stride) <==> old(s.realpos) <= s.reqpos
  {
    s.PositiveStride();
    it := new Iterator.OnStream(s);
    it.Refresh();
    shown := it.here;
  }

  /** One row: the first iterator has read it, and a second one made at the same place
      shows nothing. */
  method LateIterator() returns (first: seq<Row>, second: seq<Row>)
    ensures first == ["a"] && second == []
  {
    hide Stream.HandedOut;
    var home := new ServerCursor(["a"], 0);
    var cur := new SqlCursor.Create(home);
    var s := new Stream(cur, 1);
    var it;
    it, first := FirstLook(s);
    s.CursorPast([], it.pos, it, 0);
    it, second := FirstLook(s);
  }

  /** An entry of the multimap that orders the iterators to be served. */
  datatype Todo = Todo(pos: int, it: Iterator)

  ghost predicate Sorted(todo: seq<Todo>) {
    forall i, j :: 0 <= i < j < |todo| ==> todo[i].pos <= todo[j].pos
  }

  ghost predicate NoTwice(todo: seq<Todo>) {
    forall i, j :: 0 <= i < j < |todo| ==> todo[i].it != todo[j].it
  }

  function InsertTodo(todo: seq<Todo>, e: Todo): seq<Todo> {
    if todo == [] || e.pos < todo[0].pos then [e] + todo else [todo[0]] + InsertTodo(todo[1..], e)
  }

  lemma {:induction false} InsertTodoMembers(todo: seq<Todo>, e: Todo)
    ensures var r := InsertTodo(todo, e);
      && e in r
      && (forall i :: 0 <= i < |r| ==> r[i] in todo || r[i] == e)
      && (forall i :: 0 <= i < |todo| ==> todo[i] in r)
  {
    if todo != [] && e.pos >= todo[0].pos {
      InsertTodoMembers(todo[1..], e);
      assert todo == [todo[0]] + todo[1..];
    }
  }

  lemma {:induction false} InsertTodoKeeps(todo: seq<Todo>, e: Todo)
    requires Sorted(todo) && NoTwice(todo) && forall i :: 0 <= i < |todo| ==> todo[i].it != e.it
    ensures Sorted(InsertTodo(todo, e)) && NoTwice(InsertTodo(todo, e))
  {
    if todo == [] || e.pos < todo[0].pos {
      ConsKeeps(e, todo);
    } else {
      var rest := InsertTodo(todo[1..], e);
      InsertTodoKeeps(todo[1..], e);
      InsertTodoMembers(todo[1..], e);
      forall i | 0 <= i < |rest| ensures todo[0].pos <= rest[i].pos && todo[0].it != rest[i].it {
        if rest[i] != e {
          var j :| 0 <= j < |todo[1..]| && todo[1..][j] == rest[i];
          assert todo[j + 1] == rest[i];
        }
      }
      ConsKeeps(todo[0], rest);
    }
  }

  lemma ConsKeeps(e: Todo, rest: seq<Todo>)
    requires Sorted(rest) && NoTwice(rest)
    requires forall i :: 0 <= i < |rest| ==> e.pos <= rest[i].pos && e.it != rest[i].it
    ensures Sorted([e] + rest) && NoTwice([e] + rest)
  {
  }

  lemma StrideMultiple(n: nat, stride: int)
    requires 1 <= stride
    ensures 0 <= n * stride && (n > 0 ==> stride <= n * stride)
  {
    if n > 0 {
      assert (n - 1) * stride >= 0;
    }
  }
}
