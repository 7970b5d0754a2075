/** The query pipeline (libpqxx/src/pipeline.cxx): queries are queued under
    increasing ids, sent in batches, and answered in any order.  Each method is
    proved against the steps of PipelineState. */
module Pipelines {
  import opened Options
  import opened Backend
  import opened PipelineState

  datatype Reply =
    | Value(id: int, data: string)
    | Failed(id: int, message: string)
    | Unknown
    | Refused

  /** The reply is what the client is due for its id, a value exactly if its own statement
      gave one; a refusal means that an error is recorded. */
  ghost predicate Sound(s: State, r: Reply) {
    match r
    case Value(id, data) => id in s.log.at && Rows(data) == Due(s, id) == Ref(s.server, s.texts, s.log.at, id)
    case Failed(id, message) =>
      id in s.log.at && SqlError(message) == Due(s, id) && Ref(s.server, s.texts, s.log.at, id).SqlError?
    case Unknown => true
    case Refused => s.error < QID_LIMIT && s.error - 1 in s.log.at && Ref(s.server, s.texts, s.log.at, s.error - 1).SqlError?
  }

  class Pipeline {
    const conn: Session
    var queries: map<int, Query>
    var first: int
    var second: int
    var retain: int
    var waiting: int
    var lastId: int
    var dummyPending: bool
    var error: int
    var registered: bool

    ghost var texts: seq<string>
    ghost var log: Log
    ghost var thud: int
    ghost var flushed: bool

    /** The fields of the pipeline and its session as one value. */
    ghost function View(): State
      reads this`queries, this`first, this`second, this`retain, this`waiting, this`dummyPending, this`error
      reads this`texts, this`log, this`thud, this`flushed, conn
    {
      State(conn.server, conn.history, conn.replies, conn.open, conn.trace, conn.refusals, queries, first, second, retain, waiting,
            dummyPending, error, texts, log, thud, flushed)
    }

    ghost predicate Valid()
      reads this, conn
    {
      View().Valid() && lastId == |texts|
    }

    /** Only receiving has happened since the old state. */
    twostate predicate Received()
      reads this, conn
    {
      && lastId == old(lastId) && old(View()).Leads(View())
      && (registered == old(registered) || (!registered && error < QID_LIMIT))
    }

    /** What is still pending is so because the server was busy when it was last asked. */
    twostate predicate CaughtUp()
      reads this`first, this`second, conn
    {
      HavePending() ==> old(conn.asked) < conn.asked && conn.busy(conn.asked - 1)
    }

    /** Queries wait because of an error on record, or because the server was busy when
        it was last asked. */
    twostate predicate Stuck()
      reads this`error, conn
    {
      error < QID_LIMIT || (old(conn.asked) < conn.asked && conn.busy(conn.asked - 1))
    }

    constructor (conn: Session)
      requires Faithful(conn.server)
      requires conn.history == [] && conn.replies == [] && !conn.open && conn.trace == [] && conn.refusals == []
      ensures Valid() && this.conn == conn
      ensures queries == map[] && texts == [] && second == END && error == QID_LIMIT && !flushed && retain == 0 && registered
    {
      this.conn := conn;
      queries, first, second := map[], END, END;
      retain, waiting, lastId, dummyPending, error := 0, 0, 0, false, QID_LIMIT;
      registered := true;
      texts, log, thud, flushed := [], Log([], [], map[], 0, true, true), 0, false;
    }

    predicate HavePending() reads this`first, this`second { second != first }

    /** Queries are waiting, and if they were sent now, the batch would fail before its end. */
    ghost predicate FailsNext()
      reads this, conn
    {
      1 <= View().Hi() <= |texts| && FailsEarly(View())
    }

    /** Queries are waiting, and if they were sent now, the batch would be refused. */
    ghost predicate RefusesNext()
      reads this, conn
    {
      1 <= View().Hi() <= |texts| && RefusedNext(View())
    }

    method SetErrorAt(qid: int)
      modifies this`error
      ensures error == if qid < old(error) then qid else old(error)
    {
      if qid < error { error := qid; }
    }

    /** Fetch one result.  A null result while something is pending ends the batch early. */
    method ObtainResult(expectNone: bool) returns (got: bool)
      requires expectNone ==> conn.replies == []
      requires !expectNone ==> Valid() && !dummyPending
      modifies this`queries, this`first, this`second, this`error, conn`replies, conn`open
      ensures expectNone ==> !got && View() == old(View()).(open := false)
      ensures expectNone ==> queries == old(queries) && first == old(first) && second == old(second) && error == old(error)
      ensures expectNone ==> conn.replies == [] && !conn.open
      ensures !expectNone ==> Valid() && Received() && !dummyPending
      ensures !expectNone && got ==> View().Lo() == old(View()).Lo() + 1 && View().Hi() == old(View()).Hi() && error == old(error)
      ensures !expectNone && !got ==> !conn.open && View().Lo() == old(View()).Lo() == View().Hi()
      ensures !expectNone && !got && !old(HavePending()) ==> View() == old(View()).(open := false)
      ensures !expectNone && !got && old(HavePending()) ==> error == old(View()).Lo() < QID_LIMIT
    {
      hide State.Valid, State.Leads;
      ghost var s := View();
      var r := conn.GetResult();
      if r.None? {
        if HavePending() && !expectNone {
          SetErrorAt(first);
          second := first;
          assert View() == s.Cut();
          CutKeeps(s);
        } else {
          assert View() == s.Closed();
          if !expectNone {
            ClosedKeeps(s);
          }
        }
        return false;
      }
      TookKeeps(s);
      if !HavePending() {
        assert false;  // "Got more results from pipeline than there were queries."
      }
      if queries[first].res.Some? {
        assert false;  // "Multiple results for one query."
      }
      queries := queries[first := queries[first].(res := r)];
      first := NextKey(queries, first);
      assert View() == s.Took();
      return true;
    }

    /** Give every pending query the result that refused their batch. */
    method FillBatch(r: Outcome)
      requires Contiguous(queries, Place(first, lastId), lastId) && 1 <= Place(first, lastId) <= Place(second, lastId)
      requires (first == END || first <= lastId) && (second == END || second <= lastId)
      modifies this`queries
      ensures queries == Filled(old(queries), Place(first, lastId), Place(second, lastId), r)
    {
      ghost var lo, hi := Place(first, lastId), Place(second, lastId);
      var i := first;
      while i != second
        invariant i == END || i <= lastId
        invariant lo <= Place(i, lastId) <= hi
        invariant queries == Filled(old(queries), lo, Place(i, lastId), r)
        decreases hi - Place(i, lastId)
      {
        queries := queries[i := queries[i].(res := Some(r))];
        NextKeyContiguous(queries, i, lastId);
        i := NextKey(queries, i);
      }
    }

    /** Run the oldest query of a refused batch on its own. */
    method ReplayOne() returns (ok: bool)
      requires first in queries && 1 <= first <= |texts| && queries[first].text == texts[first - 1] && !conn.open
      modifies this`queries, this`first, this`second, this`waiting, this`error, this`log, this`thud, conn`history, conn`trace
      ensures ok == conn.server.run(old(conn.history), texts[old(first) - 1]).Rows?
      ensures ok ==>
        queries == old(queries)[old(first) := old(queries[first]).(res := Some(conn.server.run(old(conn.history), texts[old(first) - 1])))]
      ensures !ok ==> queries == old(queries)
      ensures first == NextKey(queries, old(first)) && second == (if ok then old(second) else first)
      ensures waiting == old(waiting) - 1 && log == RanOne(conn.server, texts, old(log), old(conn.history), old(first))
      ensures conn.trace == old(conn.trace) + [Run(old(conn.history), texts[old(first) - 1])]
      ensures conn.history == if ok then old(conn.history) + [texts[old(first) - 1]] else conn.server.undo(old(conn.history), [texts[old(first) - 1]])
      ensures ok ==> error == old(error) && thud == old(thud)
      ensures !ok ==> thud == old(first)
      ensures !ok ==> var mark := if first == END then old(first) + 1 else first; error == if mark < old(error) then mark else old(error)
    {
      hide RanOne, NextKey;
      var here := first;
      var o := conn.Exec(queries[here].text);
      ok := o.Rows?;
      log := RanOne(conn.server, texts, log, old(conn.history), here);
      waiting := waiting - 1;
      if ok {
        queries := queries[here := queries[here].(res := Some(o))];
        first := NextKey(queries, here);
      } else {
        first := NextKey(queries, here);
        second, thud := first, here;
        SetErrorAt(if first == END then here + 1 else first);
      }
    }

    /** One round of the replay: either it goes on behind the query, or it is over. */
    method ReplayNext(ghost hi: int) returns (ok: bool)
      requires Replaying(View(), hi) && lastId == |texts|
      modifies this`queries, this`first, this`second, this`waiting, this`error, this`log, this`thud, conn`history, conn`trace
      ensures old(View()).Keeps(View())
      ensures ok ==> Replaying(View(), hi) && View().Lo() == old(View()).Lo() + 1
      ensures !ok ==> Valid() && old(View()).Lo() < error == View().Lo() == View().Hi() <= hi
    {
      hide State.Valid, State.Keeps, Replaying, RanOne, NextKey;
      ghost var s := View();
      ReplayReady(s, hi);
      ok := ReplayOne();
      if ok {
        assert View() == ReplayedGood(s);
        ReplayedGoodKeeps(s, hi);
      } else {
        assert View() == ReplayedBad(s);
        ReplayedBadKeeps(s, hi);
      }
    }

    /** Run the queries of a refused batch, which ends before `stop`, one at a time. */
    method Replay(stop: int)
      requires Replaying(View(), Place(stop, lastId)) && lastId == |texts| && (stop == END || stop <= lastId)
      modifies this`queries, this`first, this`second, this`waiting, this`error, this`log, this`thud, conn`history, conn`trace
      ensures Valid() && old(View()).Keeps(View())
      ensures old(View()).Lo() < error == View().Lo() == View().Hi() <= Place(stop, lastId)
    {
      hide State.Valid, State.Keeps, Replaying;
      ghost var s0, hi := View(), Place(stop, lastId);
      KeepsSelf(s0);
      ReplayReady(s0, hi);
      while first != stop
        invariant Replaying(View(), hi) && s0.Keeps(View())
        invariant s0.Lo() <= View().Lo() <= hi
        decreases hi - View().Lo()
      {
        ghost var s := View();
        var ok := ReplayNext(hi);
        KeepsOn(s0, s, View());
        if !ok {
          return;
        }
        ReplayReady(View(), hi);
      }
      ReplayReady(View(), hi);
      assert false;  // a refused batch always has a query that fails on its own
    }

    /** Forget the refused batch: its queries wait again, each with the error `r`. */
    method ForgetBatch(r: Outcome)
      requires Contiguous(queries, Place(first, lastId), lastId) && 1 <= Place(first, lastId) <= Place(second, lastId)
      requires (first == END || first <= lastId) && (second == END || second <= lastId)
      requires conn.replies == []
      modifies this`queries, this`first, this`second, this`error, this`waiting, this`registered, conn`replies, conn`open
      ensures queries == Filled(old(queries), Place(first, lastId), old(Place(second, lastId)), r)
      ensures first == second == old(first) && error == old(error) && !registered && conn.replies == [] && !conn.open
      ensures waiting == old(waiting + Place(second, lastId) - Place(first, lastId))
    {
      hide Distance, View;
      FillBatch(r);
      var stop := second;
      var _ := ObtainResult(true);
      DistanceContiguous(queries, first, stop, lastId);
      waiting := waiting + Distance(queries, first, stop);
      second := first;
      registered := false;
    }

    /** Fetch the dummy's result.  If the whole batch was refused, replay its queries
        one at a time up to the one that fails. */
    method ObtainDummy()
      requires Valid() && dummyPending
      modifies this, conn
      ensures Valid() && Received() && !dummyPending && conn.asked == old(conn.asked)
      ensures error == QID_LIMIT ==> View().Lo() == old(View()).Lo() && View().Hi() == old(View()).Hi()
      ensures error < QID_LIMIT ==> old(View()).Lo() < error == View().Lo() == View().Hi() <= old(View()).Hi()
    {
      hide State.Valid, State.Keeps, Contiguous, Replaying, Filled;
      ghost var s := View();
      Facts(s);
      var r := conn.GetResult();
      dummyPending := false;
      if r.None? {
        assert false;  // "Pipeline got no result from backend when it expected one."
      }
      if r.value.Rows? {
        if r.value.data != DUMMY_VALUE {
          assert false;  // "Dummy query in pipeline returned unexpected value."
        }
        assert View() == s.DummyGood();
        DummyGoodKeeps(s);
        return;
      }
      ReplayBatch(r.value, s);
    }

    /** Forget the refused batch and replay its queries; `s` is the state before the dummy's
        result was fetched. */
    method ReplayBatch(r: Outcome, ghost s: State)
      requires s.Valid() && s.Refused() && r == s.replies[0] && lastId == |texts|
      requires View() == s.(dummyPending := false, replies := s.replies[1..])
      modifies this, conn
      ensures Valid() && lastId == old(lastId) && s.Leads(View()) && !registered && !dummyPending
      ensures conn.asked == old(conn.asked)
      ensures s.Lo() < error == View().Lo() == View().Hi() <= s.Hi() && error < QID_LIMIT
    {
      hide State.Valid, State.Keeps, Contiguous, Replaying, Filled, State.Bound;
      Facts(s);
      var stop := second;
      ForgetBatch(r);
      ReplayStarts(s);
      ghost var t := View();
      assert t == ReplayStart(s);
      Replay(stop);
      KeepsOn(s, t, View());
      NotYetRun(View());
      Facts(View());
    }

    /** Take in results as long as the connection has them at hand. */
    method GetFurtherAvailableResults()
      requires Valid() && !dummyPending
      modifies this, conn
      ensures Valid() && Received() && !dummyPending && CaughtUp() && old(conn.asked) < conn.asked
      ensures conn.busy(old(conn.asked)) ==> View() == old(View()) && conn.asked == old(conn.asked) + 1
      ensures forall i :: old(conn.asked) <= i < conn.asked - 1 ==> !conn.busy(i)
      ensures View().Lo() - old(View()).Lo() <= conn.asked - old(conn.asked) - if conn.busy(conn.asked - 1) then 1 else 0
    {
      hide State.Valid, State.Carries;
      ghost var s := View();
      LeadsSelf(s);
      var busy := conn.IsBusy();
      while !busy
        invariant old(conn.asked) < conn.asked && busy == conn.busy(conn.asked - 1)
        invariant forall i :: old(conn.asked) <= i < conn.asked - 1 ==> !conn.busy(i)
        invariant View().Lo() - s.Lo() == conn.asked - old(conn.asked) - 1
        invariant conn.busy(old(conn.asked)) ==> View() == s && conn.asked == old(conn.asked) + 1
        invariant Valid() && lastId == |s.texts| && s.Leads(View()) && !dummyPending && registered == old(registered)
        decreases View().Hi() - View().Lo()
      {
        ghost var t := View();
        Facts(t);
        var got := ObtainResult(false);
        LeadsOn(s, t, View());
        Facts(View());
        if !got {
          break;
        }
        busy := conn.IsBusy();
      }
    }

    method ReceiveIfAvailable()
      requires Valid()
      modifies this, conn
      ensures Valid() && Received() && CaughtUp() && old(conn.asked) < conn.asked
      ensures conn.busy(old(conn.asked)) ==> View() == old(View()) && conn.asked == old(conn.asked) + 1
      ensures !conn.busy(old(conn.asked)) ==> !dummyPending
      ensures forall i :: old(conn.asked) <= i < conn.asked - 1 ==> !conn.busy(i)
    {
      hide State.Valid, State.Carries;
      ghost var s := View();
      LeadsSelf(s);
      var busy := conn.IsBusy();
      if busy {
        return;
      }
      if dummyPending {
        ObtainDummy();
      }
      ghost var t := View();
      if HavePending() {
        GetFurtherAvailableResults();
        LeadsOn(s, t, View());
      }
    }

    /** Receive results up to `stop`, or up to an error. */
    method Receive(stop: int)
      requires Valid() && (stop == END || stop in queries)
      requires View().Lo() < Place(stop, lastId) <= View().Hi()
      modifies this, conn
      ensures Valid() && Received() && !dummyPending && CaughtUp() && old(conn.asked) <= conn.asked
      ensures error == QID_LIMIT ==> Place(stop, lastId) <= View().Lo() <= Place(stop, lastId) + conn.asked - old(conn.asked)
      ensures forall i :: old(conn.asked) <= i < conn.asked - 1 ==> !conn.busy(i)
    {
      hide State.Valid, State.Leads;
      ghost var s, goal := View(), Place(stop, lastId);
      Facts(s);
      LeadsSelf(s);
      if dummyPending {
        ObtainDummy();
      }
      ghost var t := View();
      ReceiveUpTo(stop);
      LeadsOn(s, t, View());
      ghost var u := View();
      Facts(u);
      if first == stop {
        GetFurtherAvailableResults();
        LeadsOn(s, u, View());
      }
    }

    /** The receiving loop. */
    method ReceiveUpTo(stop: int)
      requires Valid() && !dummyPending && (stop == END || stop <= lastId)
      requires error == QID_LIMIT ==> View().Lo() < Place(stop, lastId) <= View().Hi()
      modifies this, conn
      ensures Valid() && Received() && !dummyPending
      ensures error == QID_LIMIT ==> View().Lo() == Place(stop, lastId)
      ensures error < QID_LIMIT ==> !HavePending()
      ensures conn.asked == old(conn.asked)
    {
      hide State.Valid, State.Leads;
      ghost var s, goal := View(), Place(stop, lastId);
      LeadsSelf(s);
      while true
        invariant conn.asked == old(conn.asked)
        invariant Valid() && lastId == |s.texts| && s.Leads(View()) && !dummyPending && registered == old(registered)
        invariant error == QID_LIMIT ==> View().Lo() < goal <= View().Hi()
        decreases View().Hi() - View().Lo()
      {
        ghost var t := View();
        Facts(t);
        var got := ObtainResult(false);
        LeadsOn(s, t, View());
        Facts(View());
        assert first == stop <==> View().Lo() == goal;
        if !got || first == stop {
          break;
        }
      }
    }

    /** Build the batch of all waiting queries, with the dummy in front if there are several. */
    method SendBatch()
      requires !conn.open && lastId == |texts| && 1 <= second <= lastId && Contiguous(queries, second, lastId)
      requires forall k :: k in queries ==> 1 <= k <= lastId && queries[k].text == texts[k - 1]
      modifies this`first, this`second, this`waiting, this`dummyPending
      modifies conn`history, conn`replies, conn`open, conn`trace, conn`refusals
      ensures first == old(second) && second == END && waiting == old(waiting) - (lastId - first + 1)
      ensures dummyPending == (lastId - first + 1 > 1) && conn.open
      ensures var batch := texts[first - 1..];
        if dummyPending && conn.server.reject(old(conn.history), batch).Some? then
          && conn.replies == [SqlError(conn.server.reject(old(conn.history), batch).value)]
          && conn.history == conn.server.undo(old(conn.history), batch) && conn.trace == old(conn.trace)
          && conn.refusals == old(conn.refusals) + [Refusal(old(conn.history), batch, conn.server.reject(old(conn.history), batch).value)]
        else
          && conn.replies == (if dummyPending then [Rows(DUMMY_VALUE)] else []) + Outcomes(conn.server, old(conn.history), batch)
          && conn.history == (if AllOk(conn.server, old(conn.history), batch) then old(conn.history) + batch
                              else conn.server.undo(old(conn.history), batch))
          && conn.trace == old(conn.trace) + Runs(conn.server, old(conn.history), batch) && conn.refusals == old(conn.refusals)
    {
      hide Outcomes, AllOk, Runs, TextsFrom, Distance;
      var oldest := second;
      TextsContiguous(queries, oldest, texts);
      DistanceContiguous(queries, oldest, END, lastId);
      var cum := TextsFrom(queries, oldest);
      var numIssued := Distance(queries, oldest, END);
      var prependDummy := numIssued > 1;
      conn.StartExec(prependDummy, cum);
      dummyPending := prependDummy;
      first, second := oldest, END;
      waiting := waiting - numIssued;
    }

    /** Send all waiting queries, unless an error is on record. */
    method Issue()
      requires Valid() && !HavePending()
      requires error == QID_LIMIT ==> 0 < waiting
      modifies this, conn
      ensures Valid() && lastId == old(lastId) && old(View()).Carries(View()) && View().Lo() == old(View()).Lo()
      ensures old(error) < QID_LIMIT ==> View() == old(View()).(open := false)
      ensures registered == old(registered) && conn.asked == old(conn.asked)
      ensures old(error) == QID_LIMIT ==> error == QID_LIMIT && waiting == 0 && View().Hi() == lastId + 1
      ensures old(error) == QID_LIMIT ==> (View().Bound() < View().Hi() <==> old(FailsNext()))
      ensures old(error) == QID_LIMIT ==> (conn.refusals != [] <==> old(RefusesNext()))
    {
      hide State.Valid, State.Carries, State.Bound, FailsEarly;
      ghost var s := View();
      Facts(s);
      CarriesSelf(s);
      var _ := ObtainResult(false);
      ghost var t := View();
      Facts(t);
      if error < QID_LIMIT {
        return;
      }
      SendWaiting();
      FailsSame(s, t);
      CarriesOn(s, t, View());
    }

    /** Send the waiting queries over an idle connection. */
    method SendWaiting()
      requires Idle(View()) && lastId == |texts|
      modifies this, conn
      ensures Valid() && lastId == old(lastId) && old(View()).Carries(View()) && View().Lo() == old(View()).Lo()
      ensures error == QID_LIMIT && waiting == 0 && View().Hi() == lastId + 1 && registered == old(registered)
      ensures conn.asked == old(conn.asked)
      ensures View().Bound() < View().Hi() <==> old(FailsNext())
      ensures conn.refusals != [] <==> old(RefusesNext())
    {
      hide State.Valid, State.Carries, State.Bound, FailsEarly, Outcomes, AllOk, Runs, Ran;
      ghost var s := View();
      Facts(s);
      SendBatch();
      log := Sent(s).log;
      assert View() == Sent(s);
      SentKeeps(s);
    }

    /** Put a query under the next id at the end of the waiting ones. */
    method Enqueue(text: string) returns (qid: int)
      requires lastId < QID_LIMIT && lastId == |texts|
      modifies this`registered, this`lastId, this`queries, this`first, this`second, this`waiting, this`texts
      ensures registered && qid == lastId == old(lastId) + 1
      ensures queries == old(queries)[qid := Query(text, None)] && waiting == old(waiting) + 1 && texts == old(texts) + [text]
      ensures second == (if old(second) == END then qid else old(second))
      ensures first == (if old(second) == END && old(first) == END then qid else old(first))
    {
      registered := true;
      lastId := lastId + 1;
      qid := lastId;
      queries := queries[qid := Query(text, None)];
      if second == END {
        second := qid;
        if first == END {
          first := qid;
        }
      }
      waiting, texts := waiting + 1, texts + [text];
    }

    method Insert(text: string) returns (qid: int)
      requires Valid() && lastId < QID_LIMIT - 2
      modifies this, conn
      ensures Valid() && Inserted(old(View()), text).Carries(View()) && error <= old(error)
      ensures waiting <= retain || Stuck()
      ensures old(waiting < retain) || (old(HavePending()) && conn.busy(old(conn.asked))) ==> View() == Inserted(old(View()), text)
      ensures qid == lastId == old(lastId) + 1 && (registered || error < QID_LIMIT)
    {
      hide State.Valid, State.Carries;
      Facts(View());
      InsertedKeeps(View(), text);
      qid := Enqueue(text);
      assert View() == Inserted(old(View()), text);
      SendIfDue();
    }

    /** Send the waiting queries once there are more than the retention limit. */
    method SendIfDue()
      requires Valid()
      modifies this, conn
      ensures Valid() && lastId == old(lastId) && old(View()).Carries(View()) && error <= old(error)
      ensures waiting <= retain || Stuck()
      ensures registered == old(registered) || (!registered && error < QID_LIMIT)
      ensures old(waiting <= retain) ==> View() == old(View()) && conn.asked == old(conn.asked)
      ensures old(HavePending()) && conn.busy(old(conn.asked)) ==> View() == old(View())
      ensures !old(HavePending()) ==> conn.asked == old(conn.asked)
    {
      hide State.Valid, State.Carries;
      ghost var s := View();
      Facts(s);
      CarriesSelf(s);
      if waiting > retain {
        if HavePending() {
          ReceiveIfAvailable();
        }
        ghost var t := View();
        Facts(t);
        if !HavePending() {
          Issue();
          CarriesOn(s, t, View());
          Facts(View());
        }
      }
    }

    /** Receive what is pending.  An error is recorded exactly if the results fall short. */
    method Drain()
      requires Valid()
      modifies this, conn
      ensures Valid() && Received() && !HavePending() && old(conn.asked) <= conn.asked
      ensures error < QID_LIMIT <==> old(error < QID_LIMIT || View().Bound() < View().Hi())
    {
      hide State.Valid, State.Carries, State.Bound;
      ghost var s := View();
      Facts(s);
      LeadsSelf(s);
      if HavePending() {
        Receive(second);
        Facts(View());
      }
    }

    /** Wait for everything: afterwards nothing is pending, and either nothing is
        waiting or an error is on record.  That is so exactly if there was one before, the
        pending results fall short, or the waiting batch fails before its end. */
    method Complete()
      requires Valid()
      modifies this, conn
      ensures Valid() && lastId == old(lastId) && old(View()).Carries(View()) && error <= old(error)
      ensures !HavePending() && !registered
      ensures waiting == 0 || error < QID_LIMIT
      ensures error < QID_LIMIT <==> old(error < QID_LIMIT || View().Bound() < View().Hi() || FailsNext())
      ensures old(error == QID_LIMIT && !HavePending() && waiting > 0) ==> (conn.refusals != [] <==> old(RefusesNext()))
      ensures error == QID_LIMIT ==> forall k :: k in queries ==> queries[k].res.Some?
    {
      hide State.Valid, State.Carries, State.Bound, FailsEarly;
      ghost var s := View();
      Facts(s);
      Drain();
      ghost var t := View();
      Facts(t);
      if waiting != 0 && error == QID_LIMIT {
        CarriesKeys(s, t);
        FailsSame(s, t);
        SendRest();
        CarriesOn(s, t, View());
      }
      registered := false;
      Facts(View());
      AllAnswered(View());
    }

    /** Send the waiting queries and receive their results. */
    method SendRest()
      requires Valid() && !HavePending() && 0 < waiting && error == QID_LIMIT
      modifies this, conn
      ensures Valid() && lastId == old(lastId) && old(View()).Carries(View()) && error <= old(error)
      ensures !HavePending() && (waiting == 0 || error < QID_LIMIT)
      ensures error < QID_LIMIT <==> old(FailsNext())
      ensures conn.refusals != [] <==> old(RefusesNext())
    {
      hide State.Valid, State.Carries, State.Bound, FailsEarly;
      ghost var s := View();
      Facts(s);
      Issue();
      ghost var u := View();
      Facts(u);
      Receive(END);
      Facts(View());
      CarriesOn(s, u, View());
    }

    /** Forget everything.  An error on record stays on record. */
    method Flush()
      requires Valid()
      modifies this, conn
      ensures Valid() && queries == map[] && !HavePending() && waiting == 0 && !registered
      ensures lastId == old(lastId) && texts == old(texts) && retain == old(retain)
      ensures error <= old(error) && (old(error) < QID_LIMIT || !old(HavePending()) ==> error == old(error))
      ensures error < QID_LIMIT <==> old(error < QID_LIMIT || View().Bound() < View().Hi())
      ensures flushed == (old(flushed) || old(queries) != map[]) && Extends(old(log.at), log.at)
      ensures thud == old(thud) || (old(thud) == 0 && thud !in old(log.at))
      ensures conn.refusals == old(conn.refusals) && View().Lo() == View().Hi() == lastId + 1
      ensures forall k :: k in log.at ==> k in old(log.at) || old(View()).Lo() <= k < old(View()).Hi()
      ensures !old(HavePending()) || !old(View()).Refused() ==>
        conn.trace == old(conn.trace) && conn.history == old(conn.history) && log == old(log)
    {
      hide State.Valid, State.Carries;
      ghost var s := View();
      Facts(s);
      if queries == map[] {
        assert s.Lo() in queries || s.Lo() == lastId + 1;
      } else {
        Drain();
        CarriesKeys(s, View());
        Facts(View());
        Clear();
      }
      registered := false;
    }

    method Clear()
      requires Valid() && !HavePending()
      modifies this`first, this`second, this`waiting, this`dummyPending, this`queries, this`flushed
      ensures Valid() && View() == Flushed(old(View()))
    {
      hide State.Valid;
      Facts(View());
      FlushedKeeps(View());
      first, second, waiting, dummyPending, queries, flushed := END, END, 0, false, map[], true;
    }

    /** Set how many queries may wait; returns the old limit. */
    method Retain(retainMax: int) returns (r: Option<int>)
      requires Valid()
      modifies this, conn
      ensures Valid() && lastId == old(lastId) && error <= old(error)
      ensures r == if retainMax < 0 then None else Some(old(retain))
      ensures r.None? ==> View() == old(View())
      ensures r.Some? ==> old(View()).(retain := retainMax).Carries(View())
      ensures r.Some? ==> waiting == 0 || waiting < retain || Stuck()
      ensures r.Some? && old(waiting) < retainMax ==> View() == old(View()).(retain := retainMax)
    {
      hide State.Valid, State.Carries;
      if retainMax < 0 {
        return None;
      }
      r := Some(retain);
      RetainKeeps(View(), retainMax);
      retain := retainMax;
      CarriesSelf(View());
      if waiting >= retain {
        Resume();
      }
    }

    /** Get the waiting queries going, whatever the retention limit. */
    method Resume()
      requires Valid()
      modifies this, conn
      ensures Valid() && lastId == old(lastId) && old(View()).Carries(View()) && error <= old(error)
      ensures (waiting == 0 || Stuck()) && CaughtUp()
      ensures (if old(HavePending()) then conn.busy(old(conn.asked)) else old(waiting) == 0) ==> View() == old(View())
      ensures !old(HavePending()) && old(waiting) == 0 ==> conn.asked == old(conn.asked)
    {
      hide State.Valid, State.Carries;
      ghost var s := View();
      CarriesSelf(s);
      if HavePending() {
        ReceiveIfAvailable();
      }
      if !HavePending() && waiting != 0 {
        ghost var t := View();
        Facts(t);
        Issue();
        ghost var u := View();
        CarriesOn(s, t, u);
        Facts(u);
        ReceiveIfAvailable();
        CarriesOn(s, u, View());
        Facts(View());
      }
    }

    /** Whether the result of a known query is in. */
    method IsFinished(q: int) returns (r: Option<bool>)
      requires Valid()
      ensures r == if q in queries then Some(q < View().Lo()) else None
    {
      hide State.Valid;
      Facts(View());
      if q !in queries {
        return None;
      }
      return Some(first == END || (q < first && q < error));
    }

    /** Make sure that query `q` is sent, and receive its result if nothing fails first. */
    method Await(q: int)
      requires Valid() && q in queries && q < error
      modifies this, conn
      ensures Valid() && lastId == old(lastId) && old(View()).Carries(View()) && error <= old(error)
      ensures q < error ==> q < View().Lo()
      ensures q < old(View().Lo()) ==> q < error
      ensures CaughtUp() && old(conn.asked) <= conn.asked
    {
      hide State.Valid, State.Carries, State.Bound;
      ghost var s := View();
      Facts(s);
      CarriesSelf(s);
      if second != END && q >= second {
        SendUpTo(q);
      }
      ghost var u := View();
      CarriesKeys(s, u);
      ReceiveFor(q);
      CarriesOn(s, u, View());
      Facts(View());
      CarriesKeys(s, View());
    }

    /** Send the waiting queries, of which `q` is one, unless an error comes first. */
    method SendUpTo(q: int)
      requires Valid() && q in queries && q < error && View().Hi() <= q
      modifies this, conn
      ensures Valid() && lastId == old(lastId) && old(View()).Carries(View()) && error <= old(error)
      ensures error == QID_LIMIT ==> q < View().Hi()
      ensures old(conn.asked) <= conn.asked
    {
      hide State.Valid, State.Carries, State.Bound;
      ghost var s := View();
      Facts(s);
      CarriesSelf(s);
      Drain();
      ghost var t := View();
      Facts(t);
      if error == QID_LIMIT {
        Issue();
        CarriesOn(s, t, View());
      }
    }

    /** Receive the result of `q` if it is pending, or else whatever is at hand. */
    method ReceiveFor(q: int)
      requires Valid() && q in queries && (error == QID_LIMIT ==> q < View().Hi())
      modifies this, conn
      ensures Valid() && lastId == old(lastId) && old(View()).Carries(View()) && error <= old(error)
      ensures error == QID_LIMIT ==> q < View().Lo()
      ensures CaughtUp() && old(conn.asked) <= conn.asked
    {
      hide State.Valid, State.Carries, State.Bound;
      ghost var s := View();
      Facts(s);
      CarriesSelf(s);
      if HavePending() {
        if q >= first {
          NextKeyContiguous(queries, q, lastId);
          var suc := NextKey(queries, q);
          Receive(suc);
        } else {
          ReceiveIfAvailable();
        }
        CarriesKeys(s, View());
      }
    }

    /** Hand out an answered query's result and forget the query. */
    method TakeOut(id: int) returns (r: Reply)
      requires Valid() && id in queries && id < View().Lo()
      modifies this`queries
      ensures View() == Removed(old(View()), id) && Valid()
      ensures (r.Value? || r.Failed?) && r.id == id
      ensures Sound(View(), r)
    {
      hide State.Valid;
      AnsweredAt(View(), id);
      RemovedKeeps(View(), id);
      r := match queries[id].res.value
        case Rows(data) => Value(id, data)
        case SqlError(message) => Failed(id, message);
      queries := queries - {id};
    }

    /** Hand out the result of query `id`. */
    method Retrieve(id: int) returns (r: Reply)
      requires Valid()
      modifies this, conn
      ensures Valid() && lastId == old(lastId) && error <= old(error)
      ensures Sound(View(), r)
      ensures r.Unknown? <==> id !in old(queries)
      ensures r.Unknown? ==> View() == old(View())
      ensures r.Refused? ==> old(View()).Carries(View())
      ensures id in old(queries) ==> (r.Refused? <==> error <= id)
      ensures id in old(queries) && id < old(View()).Lo() ==> !r.Refused?
      ensures r.Value? || r.Failed? ==> Removed(old(View()), id).Carries(View()) && r.id == id
      ensures r.Value? || r.Failed? ==> waiting == 0 || Stuck()
    {
      hide State.Valid, State.Carries, Removed, Ref;
      ghost var s := View();
      Facts(s);
      if id !in queries {
        return Unknown;
      }
      if id >= error {
        ErrorMeans(s);
        CarriesSelf(s);
        return Refused;
      }
      Await(id);
      ghost var t := View();
      Facts(t);
      if id >= error {
        ErrorMeans(t);
        return Refused;
      }
      CarriesKeys(s, t);
      r := HandOut(id);
      RemovedOn(s, t, View(), id);
    }

    /** Hand out an answered query's result, but first get the server going again. */
    method HandOut(id: int) returns (r: Reply)
      requires Valid() && id in queries && id < View().Lo()
      modifies this, conn
      ensures Valid() && lastId == old(lastId) && error == old(error) && Removed(old(View()), id).Carries(View())
      ensures (r.Value? || r.Failed?) && r.id == id && Sound(View(), r)
      ensures waiting == 0 || error < QID_LIMIT || old(HavePending())
      ensures conn.asked == old(conn.asked)
    {
      hide State.Valid, State.Carries, Removed, Ref, State.Bound;
      ghost var s := View();
      Facts(s);
      CarriesSelf(s);
      if waiting != 0 && !HavePending() && error == QID_LIMIT {
        Issue();
      }
      ghost var u := View();
      CarriesKeys(s, u);
      r := TakeOut(id);
      RemovedCarries(s, u, id);
    }

    /** Hand out the oldest result. */
    method RetrieveOldest() returns (r: Option<Reply>)
      requires Valid()
      modifies this, conn
      ensures Valid() && lastId == old(lastId) && error <= old(error)
      ensures r.None? <==> old(queries) == map[]
      ensures r.None? ==> View() == old(View())
      ensures r.Some? ==> Sound(View(), r.value) && !r.value.Unknown?
      ensures r.Some? ==> NextKey(old(queries), 0) in old(queries) && (r.value.Refused? <==> error <= NextKey(old(queries), 0))
      ensures r.Some? && r.value.Refused? ==> old(View()).Carries(View())
      ensures r.Some? && !r.value.Refused? ==>
        && r.value.id == NextKey(old(queries), 0)
        && Removed(old(View()), r.value.id).Carries(View())
    {
      hide State.Valid, State.Carries, Removed, Ref;
      Facts(View());
      if queries == map[] {
        return None;
      }
      var oldest := NextKey(queries, 0);
      assert oldest in queries by {
        var k :| k in queries;
      }
      var reply := Retrieve(oldest);
      r := Some(reply);
    }
  }
}
