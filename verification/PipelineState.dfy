/** The state of a query pipeline (libpqxx/src/pipeline.cxx) together with its
    session, the invariant that every operation keeps, and the steps that the
    operations are made of. */
module PipelineState {
  import opened Options
  import opened Backend

  const QID_LIMIT: int := 0x7FFF_FFFF_FFFF_FFFF

  /** The past-the-end iterator of the query map; other iterators are their key. */
  const END: int := QID_LIMIT + 1

  datatype Query = Query(text: string, res: Option<Outcome>)

  /** Iterator increment: the least key above `k`. */
  function NextKey(m: map<int, Query>, k: int): (n: int)
    ensures n == END || (n in m && k < n <= QID_LIMIT)
    ensures forall i :: k < i < n && i <= QID_LIMIT ==> i !in m
    decreases QID_LIMIT - k
  {
    if k >= QID_LIMIT then END else if k + 1 in m then k + 1 else NextKey(m, k + 1)
  }

  /** std::distance from iterator `a` to iterator `b`. */
  function Distance(m: map<int, Query>, a: int, b: int): nat
    decreases END - a
  {
    if a >= b || a >= END then 0 else 1 + Distance(m, NextKey(m, a), b)
  }

  /** The query texts from iterator `a` to the end, in id order. */
  function TextsFrom(m: map<int, Query>, a: int): seq<string>
    requires a == END || (a in m && a <= QID_LIMIT)
    decreases END - a
  {
    if a == END then [] else [m[a].text] + TextsFrom(m, NextKey(m, a))
  }

  /** Iterators as positions in an id range that ends at `top`. */
  function Place(it: int, top: int): int {
    if it == END then top + 1 else it
  }

  /** Keys from `a` on are exactly `a..top`. */
  ghost predicate Contiguous(m: map<int, Query>, a: int, top: int) {
    && top < QID_LIMIT
    && (forall k :: a <= k <= top ==> k in m)
    && (forall k :: k in m ==> k <= top)
  }

  lemma NextKeyContiguous(m: map<int, Query>, a: int, top: int)
    requires Contiguous(m, a, top) && a <= top
    ensures Place(NextKey(m, a), top) == a + 1
    ensures NextKey(m, a) == END <==> a == top
  {
    if a < top {
      assert a + 1 in m;
    }
  }

  lemma {:induction false} DistanceContiguous(m: map<int, Query>, a: int, b: int, top: int)
    requires Contiguous(m, Place(a, top), top)
    requires (a == END || a <= top) && (b == END || b <= top) && Place(a, top) <= Place(b, top)
    ensures Distance(m, a, b) == Place(b, top) - Place(a, top)
    decreases END - a
  {
    if a != END && a != b {
      NextKeyContiguous(m, a, top);
      DistanceContiguous(m, NextKey(m, a), b, top);
    }
  }

  lemma {:induction false} TextsContiguous(m: map<int, Query>, a: int, texts: seq<string>)
    requires 1 <= a && Contiguous(m, Place(a, |texts|), |texts|) && (a == END || a <= |texts|)
    requires forall k :: k in m && Place(a, |texts|) <= k ==> m[k].text == texts[k - 1]
    ensures TextsFrom(m, a) == texts[Place(a, |texts|) - 1..]
    decreases END - a
  {
    if a != END {
      NextKeyContiguous(m, a, |texts|);
      TextsContiguous(m, NextKey(m, a), texts);
      assert texts[a - 1..] == [texts[a - 1]] + texts[a..];
    }
  }

  /** What the server ran: `ran` lists the ids in order, `done` their texts, `at`
      the history each one ran under; the first `lead` of them ran as in
      one-at-a-time execution, all of them while `clean`; `exact` says that every
      refused batch was rolled back to where it started. */
  datatype Log = Log(
    ran: seq<int>, done: seq<string>, at: map<int, seq<string>>, lead: nat, clean: bool, exact: bool)

  /** What statement `k` answered when the server ran it. */
  function Ref(sv: Server, texts: seq<string>, at: map<int, seq<string>>, k: int): Outcome {
    if k in at && 1 <= k <= |texts| then sv.run(at[k], texts[k - 1]) else SqlError("")
  }

  ghost predicate Extends(a: map<int, seq<string>>, b: map<int, seq<string>>) {
    forall k :: k in a ==> k in b && b[k] == a[k]
  }

  ghost predicate Increasing(ids: seq<int>) {
    forall i, j :: 0 <= i < j < |ids| ==> ids[i] < ids[j]
  }

  /** The ids that ran are the keys of `at`, below `bound`, with their own texts. */
  ghost predicate Listed(texts: seq<string>, log: Log, bound: int) {
    && |log.ran| == |log.done| && log.lead <= |log.ran|
    && bound <= |texts| + 1
    && (forall k :: k in log.at ==> 1 <= k < bound && k in log.ran)
    && (forall i :: 0 <= i < |log.ran| ==> log.ran[i] in log.at && log.done[i] == texts[log.ran[i] - 1])
  }

  /** The first `lead` statements ran under exactly the statements before them. */
  ghost predicate Led(log: Log)
    requires |log.ran| == |log.done| && log.lead <= |log.ran|
    requires forall i :: 0 <= i < |log.ran| ==> log.ran[i] in log.at
  {
    forall j :: 0 <= j < log.lead ==> log.at[log.ran[j]] == log.done[..j]
  }

  ghost predicate NoFailure(sv: Server, texts: seq<string>, at: map<int, seq<string>>) {
    forall k :: k in at ==> Ref(sv, texts, at, k).Rows?
  }

  /** Each statement ran at most once, in id order; while nothing failed, as in
      one-at-a-time execution, and up to the first failure after that. */
  ghost predicate Journal(sv: Server, texts: seq<string>, log: Log, history: seq<string>, bound: int) {
    && Listed(texts, log, bound)
    && Increasing(log.ran)
    && Led(log)
    && (log.clean ==> log.lead == |log.ran| && history == log.done && NoFailure(sv, texts, log.at))
    && (!log.clean ==> !log.exact || (0 < log.lead && Ref(sv, texts, log.at, log.ran[log.lead - 1]).SqlError?))
  }

  /** Without flush the journal is the insertion order, and a failure shows up in
      one-at-a-time execution too. */
  ghost predicate Unflushed(sv: Server, texts: seq<string>, log: Log, bound: int) {
    && |log.ran| == bound - 1
    && (forall i :: 0 <= i < |log.ran| ==> log.ran[i] == i + 1)
    && (!log.clean ==> !AllOk(sv, [], texts))
  }

  /** `trace` is the session's record of what the log lists. */
  ghost predicate Traced(log: Log, trace: seq<Run>) {
    && |trace| == |log.ran| == |log.done|
    && forall i :: 0 <= i < |trace| ==> log.ran[i] in log.at && trace[i] == Run(log.at[log.ran[i]], log.done[i])
  }

  /** All there is to say about what the server ran. */
  ghost predicate Books(
    sv: Server, texts: seq<string>, log: Log, history: seq<string>, trace: seq<Run>, flushed: bool, bound: int)
  {
    && Journal(sv, texts, log, history, bound)
    && (!flushed ==> Unflushed(sv, texts, log, bound))
    && Traced(log, trace)
    && (Restores(sv) ==> log.exact)
  }

  /** The result kept for `k` is that of its own statement.  Only after a failed
      replay does the failing statement `thud` keep the error its batch was refused with. */
  ghost predicate Answered(sv: Server, texts: seq<string>, at: map<int, seq<string>>, thud: int, k: int, q: Query) {
    && k in at
    && q.res.Some?
    && (if k == thud then q.res.value.SqlError? && Ref(sv, texts, at, k).SqlError?
        else q.res.value == Ref(sv, texts, at, k))
  }

  /** Everything before the issued range is answered and below the error mark. */
  ghost predicate Kept(
    sv: Server, texts: seq<string>, at: map<int, seq<string>>, thud: int, queries: map<int, Query>, lo: int, error: int)
  {
    forall k :: k in queries && k < lo ==> k < error && Answered(sv, texts, at, thud, k, queries[k])
  }

  /** `rs` are the results still to come for the pending queries `lo..hi`; if they
      fall short, then the last statement that ran has failed. */
  ghost predicate Feed(sv: Server, texts: seq<string>, at: map<int, seq<string>>, lo: int, hi: int, rs: seq<Outcome>) {
    && lo + |rs| <= hi
    && (forall k :: lo <= k < lo + |rs| ==> k in at && rs[k - lo] == Ref(sv, texts, at, k))
    && (lo + |rs| < hi ==> lo + |rs| - 1 in at && Ref(sv, texts, at, lo + |rs| - 1).SqlError?)
  }

  /** The whole batch `lo..hi` was refused, and its replay from `history` will fail. */
  ghost predicate Rejected(sv: Server, texts: seq<string>, history: seq<string>, lo: int, hi: int, rs: seq<Outcome>) {
    && |rs| == 1 && rs[0].SqlError?
    && 1 <= lo <= hi <= |texts| + 1
    && !AllOk(sv, history, texts[lo - 1..hi - 1])
  }

  ghost predicate Shape(queries: map<int, Query>, texts: seq<string>, lo: int) {
    && |texts| < QID_LIMIT - 1
    && (forall k :: k in queries ==> 1 <= k <= |texts| && queries[k].text == texts[k - 1])
    && (forall k :: lo <= k <= |texts| ==> k in queries)
  }

  ghost predicate Unanswered(queries: map<int, Query>, lo: int) {
    forall k :: k in queries && lo <= k ==> queries[k].res.None?
  }

  /** The batch stands in the texts at id `lo`. */
  ghost predicate BatchAt(texts: seq<string>, batch: seq<string>, lo: int) {
    1 <= lo && lo - 1 + |batch| <= |texts| && texts[lo - 1..lo - 1 + |batch|] == batch
  }

  /** Query `id` belongs to that batch. */
  ghost predicate Covers(texts: seq<string>, batch: seq<string>, id: int) {
    exists lo :: BatchAt(texts, batch, lo) && lo <= id < lo + |batch|
  }

  /** Query `thud` ended the replay of the only batch that was ever refused, and has the
      error that this batch was refused with; no such query, no refusal. */
  ghost predicate Ended(texts: seq<string>, queries: map<int, Query>, thud: int, refusals: seq<Refusal>) {
    if thud == 0 then refusals == []
    else
      && |refusals| == 1 && Covers(texts, refusals[0].batch, thud)
      && (thud in queries ==> queries[thud].res == Some(SqlError(refusals[0].message)))
  }

  /** The fields of the pipeline and of its session, with what a proof remembers:
      `texts[k - 1]` is the text inserted under id `k`, `log` what the server ran,
      and `thud` the statement whose replay failed (0: none). */
  datatype State = State(
    server: Server, history: seq<string>, replies: seq<Outcome>, open: bool, trace: seq<Run>, refusals: seq<Refusal>,
    queries: map<int, Query>, first: int, second: int, retain: int, waiting: int,
    dummyPending: bool, error: int,
    texts: seq<string>, log: Log, thud: int, flushed: bool)
  {
    function Lo(): int { Place(first, |texts|) }
    function Hi(): int { Place(second, |texts|) }

    /** The first id that the server has not run. */
    ghost function Bound(): int {
      if error < QID_LIMIT then Lo()
      else if !dummyPending then Lo() + |replies|
      else if replies != [] && replies[0].SqlError? then Lo()
      else Lo() + |replies| - 1
    }

    /** No error recorded: three consecutive segments, answered, pending, waiting. */
    ghost predicate Flowing() {
      && waiting == |texts| + 1 - Hi()
      && thud == 0
      && (Lo() < Hi() ==> open)
      && Unanswered(queries, Lo())
      && (if dummyPending then
            && Lo() + 1 < Hi()
            && replies != []
            && (Rejected(server, texts, history, Lo(), Hi(), replies)
                || (replies[0] == Rows(DUMMY_VALUE) && Feed(server, texts, log.at, Lo(), Hi(), replies[1..])))
          else
            Feed(server, texts, log.at, Lo(), Hi(), replies))
    }

    /** An error is recorded: nothing is pending, and the id before it failed. */
    ghost predicate Stopped() {
      && Lo() == Hi() && !dummyPending && replies == []
      && 1 < error <= Lo()
      && 0 <= waiting <= |texts| + 1 - Hi()
      && (thud == 0 || thud == error - 1)
      && error - 1 in log.at && Ref(server, texts, log.at, error - 1).SqlError?
    }

    ghost predicate Ranges() {
      && Shape(queries, texts, Lo())
      && (first == END || 1 <= first <= |texts|)
      && (second == END || 1 <= second <= |texts|)
      && Lo() <= Hi()
    }

    ghost predicate Standing() {
      if error < QID_LIMIT then Stopped() else Flowing()
    }

    ghost predicate Sane() {
      0 <= retain && error <= QID_LIMIT && Faithful(server) && (!open ==> replies == [])
    }

    ghost predicate Preserved() {
      Kept(server, texts, log.at, thud, queries, Lo(), error)
    }

    ghost predicate Booked() {
      Books(server, texts, log, history, trace, flushed, Bound())
    }

    /** A refused batch is waiting for its replay. */
    predicate Refused() { dummyPending && replies != [] && replies[0].SqlError? }

    /** The session's refusals: at most one, of the batch that is to be replayed or was. */
    ghost predicate Refusing() {
      && (forall i :: 0 <= i < |refusals| ==> Genuine(server, refusals[i]))
      && (if error < QID_LIMIT then Ended(texts, queries, thud, refusals)
          else if Refused() then
            |refusals| == 1 && BatchAt(texts, refusals[0].batch, Lo()) && Lo() + |refusals[0].batch| == Hi()
            && replies[0] == SqlError(refusals[0].message)
          else refusals == [])
    }

    ghost predicate Valid() {
      Ranges() && Sane() && Preserved() && Standing() && Booked() && Refusing()
    }

    /** Ids, texts and earlier results stay, and the issued range never moves back; the error
        mark never rises, and nothing before the issued range is run any more. */
    ghost predicate Keeps(t: State) {
      && t.server == server && t.texts == texts && t.retain == retain && t.flushed == flushed
      && t.queries.Keys == queries.Keys
      && (forall k :: k in queries && k < Lo() ==> t.queries[k] == queries[k])
      && Lo() <= t.Lo()
      && Extends(log.at, t.log.at)
      && (forall k :: k in t.log.at ==> k in log.at || Lo() <= k)
      && (t.thud == thud || (thud == 0 && t.thud !in log.at))
      && refusals <= t.refusals
      && t.error <= error
    }

    /** The same, and what was sent stays sent unless an error is recorded. */
    ghost predicate Carries(t: State) {
      Keeps(t) && (QID_LIMIT <= t.error ==> Hi() <= t.Hi())
    }

    /** From `this` to `t` only receiving has happened: what is known stays, and the
        error mark never rises.  It is set only if the results to come fall short of the
        pending queries. */
    ghost predicate Leads(t: State) {
      && Carries(t)
      && t.error <= error
      && t.Hi() <= Hi() && (t.error < QID_LIMIT || t.Hi() == Hi())
      && (error < QID_LIMIT ==> t.error == error)
      && (QID_LIMIT <= t.error ==> t.Bound() == Bound() && t.history == history)
      && (QID_LIMIT <= error && t.error < QID_LIMIT ==> Bound() < Hi())
      && t.refusals == refusals
      && (forall k :: k in t.log.at ==> k in log.at || k < Hi())
      && (!Refused() ==> !t.Refused() && t.trace == trace && t.log == log && t.history == history)
    }

    /** One result goes to the oldest pending query. */
    ghost function Took(): State
      requires replies != [] && first in queries
    {
      var q := queries[first := queries[first].(res := Some(replies[0]))];
      this.(replies := replies[1..], queries := q, first := NextKey(q, first))
    }

    /** The null result that closes a command whose queries are all answered. */
    ghost function Closed(): State { this.(open := false) }

    /** The null result arrives while queries are pending. */
    ghost function Cut(): State {
      this.(open := false, error := if first < error then first else error, second := first)
    }

    /** The dummy's result is in and good. */
    ghost function DummyGood(): State
      requires replies != []
    {
      this.(dummyPending := false, replies := replies[1..])
    }
  }

  lemma CarriesSelf(a: State)
    ensures a.Carries(a)
  {
  }

  lemma KeepsSelf(a: State)
    ensures a.Keeps(a)
  {
  }

  lemma KeepsOn(a: State, b: State, c: State)
    requires a.Keeps(b) && b.Keeps(c)
    ensures a.Keeps(c)
  {
  }

  lemma CarriesOn(a: State, b: State, c: State)
    requires a.Carries(b) && b.Carries(c)
    ensures a.Carries(c)
  {
  }

  lemma LeadsSelf(a: State)
    ensures a.Leads(a)
  {
  }

  lemma LeadsOn(a: State, b: State, c: State)
    requires a.Leads(b) && b.Leads(c)
    ensures a.Leads(c) && a.Lo() <= b.Lo() <= c.Lo() && c.error <= b.error <= a.error
  {
  }

  /** What callers need of a valid state. */
  lemma Facts(s: State)
    requires s.Valid()
    ensures |s.texts| < QID_LIMIT - 1 && 0 <= s.retain
    ensures 1 <= s.Lo() <= s.Hi() <= |s.texts| + 1 && (s.first != s.second <==> s.Lo() < s.Hi())
    ensures s.first == END <==> s.Lo() == |s.texts| + 1
    ensures s.second == END <==> s.Hi() == |s.texts| + 1
    ensures s.error <= QID_LIMIT && s.Lo() <= s.Bound() <= s.Hi()
    ensures s.error < QID_LIMIT ==> 1 < s.error <= s.Lo() == s.Hi() && !s.dummyPending
    ensures s.error == QID_LIMIT ==> s.waiting == |s.texts| + 1 - s.Hi()
    ensures 0 <= s.waiting <= |s.texts| + 1 - s.Hi()
    ensures s.dummyPending ==> s.Lo() + 1 < s.Hi() && s.replies != []
    ensures s.dummyPending && s.replies[0].Rows? ==> s.replies[0] == Rows(DUMMY_VALUE)
    ensures s.dummyPending && s.replies[0].SqlError? ==> |s.replies| == 1
    ensures Contiguous(s.queries, s.Lo(), |s.texts|)
    ensures forall k :: k in s.queries ==> 1 <= k <= |s.texts| && s.queries[k].text == s.texts[k - 1] && (k < s.Lo() ==> k < s.error)
  {
    hide Books, Faithful, AllOk;
  }

  lemma FeedTail(sv: Server, texts: seq<string>, at: map<int, seq<string>>, lo: int, hi: int, rs: seq<Outcome>)
    requires rs != [] && Feed(sv, texts, at, lo, hi, rs)
    ensures Feed(sv, texts, at, lo + 1, hi, rs[1..])
    ensures lo in at && rs[0] == Ref(sv, texts, at, lo)
  {
  }

  lemma KeptOneMore(
    sv: Server, texts: seq<string>, at: map<int, seq<string>>, thud: int, queries: map<int, Query>, lo: int, error: int, q: Query)
    requires Kept(sv, texts, at, thud, queries, lo, error)
    requires lo < error && Answered(sv, texts, at, thud, lo, q)
    ensures Kept(sv, texts, at, thud, queries[lo := q], lo + 1, error)
  {
  }

  lemma TookRanges(s: State)
    requires s.Ranges() && s.Standing() && !s.dummyPending && s.replies != []
    ensures s.error >= QID_LIMIT && s.first in s.queries && 1 <= s.first <= |s.texts| && s.first != s.second
    ensures s.queries[s.first].res.None? && s.Lo() < s.error
    ensures var t := s.Took(); t.Ranges() && t.Lo() == s.Lo() + 1 && t.Hi() == s.Hi() && t.Bound() == s.Bound()
  {
    hide Ref;
    NextKeyContiguous(s.Took().queries, s.first, |s.texts|);
  }

  lemma TookStanding(s: State)
    requires s.Ranges() && s.Standing() && !s.dummyPending && s.replies != [] && s.first in s.queries
    requires var t := s.Took(); t.Lo() == s.Lo() + 1 && t.Hi() == s.Hi()
    ensures s.Took().Standing()
    ensures s.thud == 0 && s.Lo() in s.log.at && s.replies[0] == Ref(s.server, s.texts, s.log.at, s.Lo())
  {
    FeedTail(s.server, s.texts, s.log.at, s.Lo(), s.Hi(), s.replies);
    hide Feed, Ref, Shape, NextKey;
  }

  lemma TookKeeps(s: State)
    requires s.Valid() && !s.dummyPending && s.replies != []
    ensures s.first in s.queries && s.first <= |s.texts| && s.first != s.second && s.queries[s.first].res.None?
    ensures var t := s.Took(); t.Valid() && s.Leads(t) && t.Lo() == s.Lo() + 1 && t.Hi() == s.Hi() && t.error == s.error
  {
    hide Books, Faithful, Kept, Ref, NextKey, State.Ranges, State.Standing;
    TookRanges(s);
    TookStanding(s);
    var q := s.queries[s.first].(res := Some(s.replies[0]));
    KeptOneMore(s.server, s.texts, s.log.at, s.thud, s.queries, s.Lo(), s.error, q);
  }

  lemma ClosedKeeps(s: State)
    requires s.Valid() && s.replies == [] && s.first == s.second
    ensures var t := s.Closed(); t.Valid() && s.Leads(t) && t.Lo() == t.Hi() == s.Lo()
  {
    hide Books, Faithful, Kept;
  }

  lemma CutKeeps(s: State)
    requires s.Valid() && !s.dummyPending && s.replies == [] && s.first != s.second
    ensures var t := s.Cut(); t.Valid() && s.Leads(t) && t.Lo() == s.Lo() == t.Hi() && t.error == s.Lo() < QID_LIMIT
  {
    hide Books, Faithful;
    BooksListed(s.server, s.texts, s.log, s.history, s.trace, s.flushed, s.Bound());
  }

  lemma DummyGoodKeeps(s: State)
    requires s.Valid() && s.dummyPending && s.replies[0].Rows?
    ensures var t := s.DummyGood(); t.Valid() && s.Leads(t) && t.Lo() == s.Lo() && t.Hi() == s.Hi() && t.error == s.error
  {
    hide Books, Faithful, Kept, Feed, Ref;
  }

  /** The journal after the server ran statement `k` under history `h`. */
  ghost function RanOne(sv: Server, texts: seq<string>, log: Log, h: seq<string>, k: int): Log
    requires 1 <= k <= |texts|
  {
    Log(
      log.ran + [k], log.done + [texts[k - 1]], log.at[k := h],
      if log.clean then |log.ran| + 1 else log.lead,
      log.clean && sv.run(h, texts[k - 1]).Rows?,
      log.exact)
  }

  /** The journal after the server ran the batch `lo..hi` under history `h`, up to
      and including the first failure. */
  ghost function Ran(sv: Server, texts: seq<string>, log: Log, h: seq<string>, lo: int, hi: int): Log
    requires 1 <= lo <= hi <= |texts| + 1
    decreases hi - lo
  {
    if lo == hi then log
    else
      var next := RanOne(sv, texts, log, h, lo);
      if sv.run(h, texts[lo - 1]).Rows? then Ran(sv, texts, next, h + [texts[lo - 1]], lo + 1, hi) else next
  }

  lemma RanOneIncreasing(sv: Server, texts: seq<string>, log: Log, h: seq<string>, k: int)
    requires 1 <= k <= |texts|
    requires Listed(texts, log, k) && Increasing(log.ran)
    ensures Increasing(RanOne(sv, texts, log, h, k).ran)
  {
    assert forall i :: 0 <= i < |log.ran| ==> log.ran[i] in log.at;
  }

  lemma RanOneListed(sv: Server, texts: seq<string>, log: Log, h: seq<string>, k: int)
    requires 1 <= k <= |texts|
    requires Listed(texts, log, k)
    ensures Listed(texts, RanOne(sv, texts, log, h, k), k + 1)
  {
    var log' := RanOne(sv, texts, log, h, k);
    forall i | i in log'.at ensures i in log'.ran {
      if i == k {
        assert log'.ran[|log.ran|] == k;
      } else {
        var j :| 0 <= j < |log.ran| && log.ran[j] == i;
        assert log'.ran[j] == i;
      }
    }
    forall i | 0 <= i < |log'.ran| ensures log'.ran[i] in log'.at && log'.done[i] == texts[log'.ran[i] - 1] {
      if i < |log.ran| {
        assert log.ran[i] in log.at;
      }
    }
  }

  lemma RanOneLed(sv: Server, texts: seq<string>, log: Log, h: seq<string>, k: int)
    requires 1 <= k <= |texts|
    requires Listed(texts, log, k) && Led(log)
    requires log.clean ==> log.lead == |log.ran| && h == log.done
    ensures var log' := RanOne(sv, texts, log, h, k); Listed(texts, log', k + 1) && Led(log')
  {
    RanOneListed(sv, texts, log, h, k);
    var log' := RanOne(sv, texts, log, h, k);
    forall j | 0 <= j < log'.lead ensures log'.at[log'.ran[j]] == log'.done[..j] {
      assert log'.done[..j] == log.done[..j];
      if j < |log.ran| {
        assert log.ran[j] in log.at;
      } else {
        assert log.done[..j] == log.done;
      }
    }
  }

  /** Earlier answers stay, and the new one is what the server says now. */
  lemma RanOneRefs(sv: Server, texts: seq<string>, log: Log, h: seq<string>, k: int)
    requires 1 <= k <= |texts| && Listed(texts, log, k)
    ensures var at := RanOne(sv, texts, log, h, k).at;
      && (forall i :: i in at ==> i == k || (i in log.at && Ref(sv, texts, at, i) == Ref(sv, texts, log.at, i)))
      && k in at && Ref(sv, texts, at, k) == sv.run(h, texts[k - 1])
    ensures k !in log.at
  {
  }

  lemma RanOneClean(sv: Server, texts: seq<string>, log: Log, h: seq<string>, k: int)
    requires 1 <= k <= |texts| && Listed(texts, log, k)
    requires log.clean ==> log.lead == |log.ran| && h == log.done && NoFailure(sv, texts, log.at)
    ensures var log' := RanOne(sv, texts, log, h, k);
      log'.clean ==> log'.lead == |log'.ran| && h + [texts[k - 1]] == log'.done && NoFailure(sv, texts, log'.at)
  {
    RanOneRefs(sv, texts, log, h, k);
    hide Ref, Listed;
  }

  lemma RanOneFailed(sv: Server, texts: seq<string>, log: Log, h: seq<string>, k: int)
    requires 1 <= k <= |texts| && Listed(texts, log, k)
    requires !log.clean ==> !log.exact || (0 < log.lead && Ref(sv, texts, log.at, log.ran[log.lead - 1]).SqlError?)
    ensures var log' := RanOne(sv, texts, log, h, k);
      log'.lead <= |log'.ran| &&
      (!log'.clean ==> !log'.exact || (0 < log'.lead && Ref(sv, texts, log'.at, log'.ran[log'.lead - 1]).SqlError?))
  {
    RanOneRefs(sv, texts, log, h, k);
    if !log.clean && 0 < log.lead {
      assert log.ran[log.lead - 1] in log.at;
    }
    hide Ref;
  }

  lemma RanOneJournal(sv: Server, texts: seq<string>, log: Log, h: seq<string>, k: int, h': seq<string>)
    requires 1 <= k <= |texts|
    requires Journal(sv, texts, log, h, k)
    requires sv.run(h, texts[k - 1]).Rows? ==> h' == h + [texts[k - 1]]
    ensures Journal(sv, texts, RanOne(sv, texts, log, h, k), h', k + 1)
  {
    hide Led, Increasing, Ref, Listed, NoFailure;
    RanOneIncreasing(sv, texts, log, h, k);
    RanOneLed(sv, texts, log, h, k);
    RanOneClean(sv, texts, log, h, k);
    RanOneFailed(sv, texts, log, h, k);
  }

  lemma RanOneUnflushed(sv: Server, texts: seq<string>, log: Log, h: seq<string>, k: int)
    requires 1 <= k <= |texts|
    requires Journal(sv, texts, log, h, k) && Unflushed(sv, texts, log, k)
    ensures Unflushed(sv, texts, RanOne(sv, texts, log, h, k), k + 1)
    ensures log.clean ==> h == texts[..k - 1]
  {
    if log.clean {
      assert h == texts[..k - 1];
      if AllOk(sv, [], texts) {
        AllOkAt(sv, [], texts, k - 1);
        assert [] + texts[..k - 1] == h;
      }
    }
  }

  lemma RanOneTraced(sv: Server, texts: seq<string>, log: Log, h: seq<string>, k: int, trace: seq<Run>)
    requires 1 <= k <= |texts| && Listed(texts, log, k) && Traced(log, trace)
    ensures Traced(RanOne(sv, texts, log, h, k), trace + [Run(h, texts[k - 1])])
    ensures RanOne(sv, texts, log, h, k).exact == log.exact
  {
  }

  lemma RanOneBooks(
    sv: Server, texts: seq<string>, log: Log, h: seq<string>, trace: seq<Run>, flushed: bool, k: int, h': seq<string>)
    requires 1 <= k <= |texts|
    requires Books(sv, texts, log, h, trace, flushed, k)
    requires sv.run(h, texts[k - 1]).Rows? ==> h' == h + [texts[k - 1]]
    ensures Books(sv, texts, RanOne(sv, texts, log, h, k), h', trace + [Run(h, texts[k - 1])], flushed, k + 1)
  {
    hide Traced, Unflushed, RanOne, Restores;
    RanOneJournal(sv, texts, log, h, k, h');
    RanOneTraced(sv, texts, log, h, k, trace);
    if !flushed {
      RanOneUnflushed(sv, texts, log, h, k);
    }
    hide Journal;
  }

  /** A batch, one statement at a time. */
  lemma RanCons(sv: Server, texts: seq<string>, log: Log, h: seq<string>, lo: int, hi: int)
    requires 1 <= lo < hi <= |texts| + 1
    ensures var t, batch, rest := texts[lo - 1], texts[lo - 1..hi - 1], texts[lo..hi - 1];
      var next := RanOne(sv, texts, log, h, lo);
      if sv.run(h, t).Rows? then
        && Ran(sv, texts, log, h, lo, hi) == Ran(sv, texts, next, h + [t], lo + 1, hi)
        && Runs(sv, h, batch) == [Run(h, t)] + Runs(sv, h + [t], rest)
        && Outcomes(sv, h, batch) == [sv.run(h, t)] + Outcomes(sv, h + [t], rest)
        && (AllOk(sv, h, batch) <==> AllOk(sv, h + [t], rest)) && h + batch == (h + [t]) + rest
      else
        && Ran(sv, texts, log, h, lo, hi) == next && !AllOk(sv, h, batch)
        && Runs(sv, h, batch) == [Run(h, t)] && Outcomes(sv, h, batch) == [sv.run(h, t)]
  {
    var batch := texts[lo - 1..hi - 1];
    assert batch[0] == texts[lo - 1] && batch[1..] == texts[lo..hi - 1];
    assert batch == [texts[lo - 1]] + texts[lo..hi - 1];
    hide RanOne;
  }

  lemma RanNothing(sv: Server, texts: seq<string>, log: Log, h: seq<string>, lo: int)
    requires 1 <= lo <= |texts| + 1
    ensures Ran(sv, texts, log, h, lo, lo) == log && AllOk(sv, h, texts[lo - 1..lo - 1])
    ensures Runs(sv, h, texts[lo - 1..lo - 1]) == [] && Outcomes(sv, h, texts[lo - 1..lo - 1]) == []
  {
  }

  /** A batch run as a whole keeps the journal. */
  lemma {:induction false} RanJournal(
    sv: Server, texts: seq<string>, log: Log, h: seq<string>, trace: seq<Run>, flushed: bool, lo: int, hi: int, h': seq<string>)
    requires 1 <= lo <= hi <= |texts| + 1
    requires Books(sv, texts, log, h, trace, flushed, lo)
    requires AllOk(sv, h, texts[lo - 1..hi - 1]) ==> h' == h + texts[lo - 1..hi - 1]
    ensures var batch := texts[lo - 1..hi - 1];
      Books(sv, texts, Ran(sv, texts, log, h, lo, hi), h', trace + Runs(sv, h, batch), flushed, lo + |Outcomes(sv, h, batch)|)
    decreases hi - lo
  {
    hide Books, RanOne, Ran, Runs, Outcomes, AllOk;
    if lo == hi {
      RanNothing(sv, texts, log, h, lo);
      assert h + texts[lo - 1..lo - 1] == h && trace + [] == trace;
    } else {
      RanCons(sv, texts, log, h, lo, hi);
      var t, rest := texts[lo - 1], texts[lo..hi - 1];
      var h1 := if sv.run(h, t).Rows? then h + [t] else h';
      RanOneBooks(sv, texts, log, h, trace, flushed, lo, h1);
      if sv.run(h, t).Rows? {
        RanJournal(sv, texts, RanOne(sv, texts, log, h, lo), h1, trace + [Run(h, t)], flushed, lo + 1, hi, h');
        assert trace + [Run(h, t)] + Runs(sv, h1, rest) == trace + ([Run(h, t)] + Runs(sv, h1, rest));
      }
    }
  }

  /** The results of a batch are those of its statements, each under the statements
      before it; what ran earlier is kept. */
  lemma {:induction false} RanFeed(sv: Server, texts: seq<string>, log: Log, h: seq<string>, lo: int, hi: int)
    requires 1 <= lo <= hi <= |texts| + 1
    requires forall k :: k in log.at ==> k < lo
    ensures var at := Ran(sv, texts, log, h, lo, hi).at;
      && Feed(sv, texts, at, lo, hi, Outcomes(sv, h, texts[lo - 1..hi - 1])) && Extends(log.at, at)
      && (forall k :: k in at ==> k in log.at || lo <= k)
    decreases hi - lo
  {
    hide Ran, Outcomes, Feed;
    if lo == hi {
      RanNothing(sv, texts, log, h, lo);
      FeedNothing(sv, texts, log.at, lo);
    } else {
      RanCons(sv, texts, log, h, lo, hi);
      var t, o := texts[lo - 1], sv.run(h, texts[lo - 1]);
      var next := RanOne(sv, texts, log, h, lo);
      if o.Rows? {
        RanFeed(sv, texts, next, h + [t], lo + 1, hi);
        FeedCons(sv, texts, Ran(sv, texts, log, h, lo, hi).at, lo, hi, o, Outcomes(sv, h + [t], texts[lo..hi - 1]));
      } else {
        FeedFailed(sv, texts, next.at, lo, hi, o);
      }
    }
  }

  lemma FeedNothing(sv: Server, texts: seq<string>, at: map<int, seq<string>>, lo: int)
    ensures Feed(sv, texts, at, lo, lo, [])
  {
  }

  lemma FeedFailed(sv: Server, texts: seq<string>, at: map<int, seq<string>>, lo: int, hi: int, o: Outcome)
    requires lo < hi && lo in at && o == Ref(sv, texts, at, lo) && o.SqlError?
    ensures Feed(sv, texts, at, lo, hi, [o])
  {
  }

  lemma FeedCons(
    sv: Server, texts: seq<string>, at: map<int, seq<string>>, lo: int, hi: int, o: Outcome, rs: seq<Outcome>)
    requires Feed(sv, texts, at, lo + 1, hi, rs)
    requires lo < hi && lo in at && o == Ref(sv, texts, at, lo)
    ensures Feed(sv, texts, at, lo, hi, [o] + rs)
  {
  }

  lemma KeptExtends(
    sv: Server, texts: seq<string>, at: map<int, seq<string>>, at': map<int, seq<string>>, thud: int,
    queries: map<int, Query>, lo: int, error: int)
    requires Kept(sv, texts, at, thud, queries, lo, error) && Extends(at, at')
    ensures Kept(sv, texts, at', thud, queries, lo, error)
  {
  }

  /** All waiting queries are sent in one batch. */
  ghost function Sent(s: State): State
    requires 1 <= s.Hi() <= |s.texts|
  {
    var batch := s.texts[s.Hi() - 1..];
    var dummy := |batch| > 1;
    var t := s.(first := s.second, second := END, waiting := s.waiting - |batch|, dummyPending := dummy, open := true);
    if dummy && s.server.reject(s.history, batch).Some? then
      var h := s.server.undo(s.history, batch);
      t.(history := h,
         replies := [SqlError(s.server.reject(s.history, batch).value)],
         refusals := s.refusals + [Refusal(s.history, batch, s.server.reject(s.history, batch).value)],
         log := s.log.(clean := s.log.clean && h == s.history, exact := s.log.exact && h == s.history))
    else
      t.(history := if AllOk(s.server, s.history, batch) then s.history + batch else s.server.undo(s.history, batch),
         replies := (if dummy then [Rows(DUMMY_VALUE)] else []) + Outcomes(s.server, s.history, batch),
         trace := s.trace + Runs(s.server, s.history, batch),
         log := Ran(s.server, s.texts, s.log, s.history, s.Hi(), |s.texts| + 1))
  }

  ghost predicate Idle(s: State) {
    s.Valid() && s.error == QID_LIMIT && s.Lo() == s.Hi() <= |s.texts| && !s.open
  }

  /** The waiting queries, sent now, would be refused as a whole. */
  ghost predicate RefusedNext(s: State)
    requires 1 <= s.Hi() <= |s.texts|
  {
    |s.texts| - s.Hi() + 1 > 1 && s.server.reject(s.history, s.texts[s.Hi() - 1..]).Some?
  }

  /** The waiting queries, sent now, would be refused, or one of them other than the last
      would fail. */
  ghost predicate FailsEarly(s: State)
    requires 1 <= s.Hi() <= |s.texts|
  {
    RefusedNext(s) || |Outcomes(s.server, s.history, s.texts[s.Hi() - 1..])| < |s.texts| - s.Hi() + 1
  }

  lemma FailsSame(s: State, t: State)
    requires 1 <= s.Hi() <= |s.texts| && t.server == s.server && t.texts == s.texts && t.history == s.history && t.Hi() == s.Hi()
    ensures (FailsEarly(s) <==> FailsEarly(t)) && (RefusedNext(s) <==> RefusedNext(t))
  {
    hide Outcomes;
  }

  lemma RejectedBooks(
    sv: Server, texts: seq<string>, log: Log, h: seq<string>, trace: seq<Run>, flushed: bool, lo: int, h': seq<string>)
    requires 1 <= lo <= |texts| && Books(sv, texts, log, h, trace, flushed, lo)
    requires !AllOk(sv, h, texts[lo - 1..]) && (Restores(sv) ==> h' == h)
    ensures Books(sv, texts, log.(clean := log.clean && h' == h, exact := log.exact && h' == h), h', trace, flushed, lo)
  {
    hide AllOk;
    if !flushed && log.clean {
      AllOkSplit(sv, [], texts[..lo - 1], texts[lo - 1..]);
      assert texts == texts[..lo - 1] + texts[lo - 1..];
      CleanHistory(sv, texts, log, h, lo);
    }
  }

  /** While nothing failed or was flushed, the history is the statements so far. */
  lemma CleanHistory(sv: Server, texts: seq<string>, log: Log, h: seq<string>, lo: int)
    requires 1 <= lo <= |texts| && Journal(sv, texts, log, h, lo) && Unflushed(sv, texts, log, lo) && log.clean
    ensures [] + texts[..lo - 1] == h
  {
    hide AllOk;
  }

  lemma SentRejected(s: State)
    requires Idle(s) && RefusedNext(s)
    ensures Sent(s).Valid() && s.Carries(Sent(s)) && Sent(s).Bound() == s.Lo()
  {
    hide Books, Outcomes, AllOk, Faithful, Restores, Kept, Feed, Ran, Runs, Genuine, BatchAt, Shape, State.Refusing, Rejected;
    IdleBelow(s);
    RefusalMeans(s);
    SentRefused(s);
    RejectedBooks(s.server, s.texts, s.log, s.history, s.trace, s.flushed, s.Lo(), Sent(s).history);
  }

  /** The refusal is on record, and it is that of the pending queries. */
  lemma SentRefused(s: State)
    requires Idle(s) && RefusedNext(s)
    ensures var t := Sent(s);
      && t.Refusing() && Rejected(t.server, t.texts, t.history, t.Lo(), t.Hi(), t.replies) && s.refusals == []
      && Shape(t.queries, t.texts, t.Lo()) && Unanswered(t.queries, t.Lo())
  {
    hide Books, Outcomes, AllOk, Faithful, Restores, Kept, Feed, Ran, Runs;
    RefusalMeans(s);
    var t := Sent(s);
    assert t.texts[t.Lo() - 1..t.Hi() - 1] == s.texts[s.Hi() - 1..];
  }

  /** A refused batch has a failing statement, and is undone if the server restores. */
  lemma RefusalMeans(s: State)
    requires 1 <= s.Hi() <= |s.texts| && RefusedNext(s) && Faithful(s.server)
    ensures var batch, h := s.texts[s.Hi() - 1..], s.server.undo(s.history, s.texts[s.Hi() - 1..]);
      !AllOk(s.server, s.history, batch) && !AllOk(s.server, h, batch) && (Restores(s.server) ==> h == s.history)
  {
    hide AllOk;
    assert |s.texts[s.Hi() - 1..]| > 1;
  }

  lemma IdleBelow(s: State)
    requires Idle(s)
    ensures s.replies == [] && s.Bound() == s.Lo()
    ensures forall k :: k in s.log.at ==> k < s.Lo()
  {
    hide Faithful, Unflushed, Kept, Traced;
  }

  lemma SentFeed(s: State)
    requires Idle(s)
    ensures var log := Ran(s.server, s.texts, s.log, s.history, s.Hi(), |s.texts| + 1);
      && Feed(s.server, s.texts, log.at, s.Hi(), |s.texts| + 1, Outcomes(s.server, s.history, s.texts[s.Hi() - 1..]))
      && Kept(s.server, s.texts, log.at, s.thud, s.queries, s.Lo(), s.error)
      && Extends(s.log.at, log.at) && (forall k :: k in log.at ==> k in s.log.at || s.Lo() <= k)
  {
    hide Books, Faithful, Outcomes, AllOk, Ref, Kept, Feed, Ran;
    assert s.texts[s.Hi() - 1..] == s.texts[s.Hi() - 1..|s.texts|];
    IdleBelow(s);
    RanFeed(s.server, s.texts, s.log, s.history, s.Hi(), |s.texts| + 1);
    KeptExtends(s.server, s.texts, s.log.at, Ran(s.server, s.texts, s.log, s.history, s.Hi(), |s.texts| + 1).at,
                s.thud, s.queries, s.Lo(), s.error);
  }

  lemma SentFlows(s: State)
    requires Idle(s) && !RefusedNext(s)
    ensures var t := Sent(s);
      && t.Ranges() && t.Standing() && t.Preserved()
      && t.Bound() == s.Lo() + |Outcomes(s.server, s.history, s.texts[s.Lo() - 1..])|
  {
    hide Books, Faithful, Outcomes, AllOk, Feed, Kept, Ran, Runs, Extends;
    SentFeed(s);
    var os := Outcomes(s.server, s.history, s.texts[s.Hi() - 1..]);
    assert [] + os == os && ([Rows(DUMMY_VALUE)] + os)[1..] == os;
  }

  lemma SentBooks(s: State)
    requires Idle(s) && !RefusedNext(s)
    ensures var t := Sent(s);
      Books(t.server, t.texts, t.log, t.history, t.trace, t.flushed, s.Lo() + |Outcomes(s.server, s.history, s.texts[s.Lo() - 1..])|)
  {
    hide Books, Faithful, Outcomes, AllOk, Kept, Ran, Runs, Feed;
    IdleBelow(s);
    assert s.texts[s.Hi() - 1..] == s.texts[s.Lo() - 1..|s.texts|];
    RanJournal(s.server, s.texts, s.log, s.history, s.trace, s.flushed, s.Lo(), |s.texts| + 1, Sent(s).history);
  }

  lemma SentNotRefused(s: State)
    requires Idle(s) && !RefusedNext(s)
    ensures Sent(s).Refusing()
  {
    hide Books, Faithful, Outcomes, AllOk, Kept, Ran, Runs, Feed, Genuine;
  }

  lemma SentRun(s: State)
    requires Idle(s) && !RefusedNext(s)
    ensures Sent(s).Valid() && s.Carries(Sent(s))
    ensures Sent(s).Bound() == s.Lo() + |Outcomes(s.server, s.history, s.texts[s.Lo() - 1..])|
  {
    hide Books, Faithful, Outcomes, AllOk, Kept, Ran, Runs, Feed, State.Ranges, State.Standing, State.Bound;
    SentFlows(s);
    SentFeed(s);
    SentBooks(s);
    SentNotRefused(s);
    hide State.Refusing;
  }

  lemma SentKeeps(s: State)
    requires Idle(s)
    ensures var t := Sent(s);
      && t.Valid() && s.Carries(t) && t.Lo() == s.Lo() && t.Hi() == |s.texts| + 1 && t.error == s.error && t.waiting == 0
      && (t.Bound() < t.Hi() <==> FailsEarly(s)) && (t.refusals != [] <==> RefusedNext(s))
  {
    SentPlaces(s);
    if RefusedNext(s) {
      SentRejected(s);
    } else {
      SentRun(s);
    }
    hide State.Valid, State.Carries, Sent, Outcomes, State.Bound;
  }

  lemma SentPlaces(s: State)
    requires Idle(s)
    ensures var t := Sent(s); t.Lo() == s.Lo() && t.Hi() == |s.texts| + 1 && t.error == s.error && t.waiting == 0
  {
    hide Books, Faithful, Kept, Feed, Outcomes, Ran, Runs, AllOk;
  }

  /** Every query of the batch `lo..hi` gets the same result. */
  ghost function Filled(queries: map<int, Query>, lo: int, hi: int, r: Outcome): map<int, Query> {
    map k | k in queries :: if lo <= k < hi then queries[k].(res := Some(r)) else queries[k]
  }

  /** The fields between two replayed statements of the batch that ends before `hi`: its
      queries from `first` on all have the error that the batch was refused with. */
  ghost predicate ReplayFields(s: State, hi: int) {
    && Shape(s.queries, s.texts, s.Lo())
    && (s.first == END || 1 <= s.first <= |s.texts|)
    && s.Lo() <= hi <= |s.texts| + 1
    && 0 <= s.retain
    && Faithful(s.server)
    && !s.open && s.replies == [] && !s.dummyPending
    && s.error == QID_LIMIT && s.thud == 0
    && s.waiting == |s.texts| + 1 - s.Lo()
    && |s.refusals| == 1
    && (forall k :: s.Lo() <= k < hi ==> s.queries[k].res == Some(SqlError(s.refusals[0].message)))
  }

  /** The refusal is that of the batch being replayed. */
  ghost predicate ReplayedBatch(s: State, hi: int) {
    && |s.refusals| == 1 && Genuine(s.server, s.refusals[0])
    && exists lo :: BatchAt(s.texts, s.refusals[0].batch, lo) && lo <= s.Lo() && lo + |s.refusals[0].batch| == hi
  }

  /** Between two replayed statements of the refused batch that ends before `hi`. */
  ghost predicate Replaying(s: State, hi: int) {
    && ReplayFields(s, hi) && ReplayedBatch(s, hi)
    && Kept(s.server, s.texts, s.log.at, 0, s.queries, s.Lo(), QID_LIMIT)
    && Books(s.server, s.texts, s.log, s.history, s.trace, s.flushed, s.Lo())
    && !AllOk(s.server, s.history, s.texts[s.Lo() - 1..hi - 1])
  }

  /** The state in which a refused batch starts to be replayed. */
  ghost function ReplayStart(s: State): State
    requires s.replies != []
  {
    s.(open := false, replies := [], dummyPending := false, second := s.first,
       queries := Filled(s.queries, s.Lo(), s.Hi(), s.replies[0]),
       waiting := s.waiting + s.Hi() - s.Lo())
  }

  lemma ReplayStarts(s: State)
    requires s.Valid() && s.dummyPending && s.replies[0].SqlError?
    ensures Replaying(ReplayStart(s), s.Hi()) && s.Keeps(ReplayStart(s)) && s.Bound() < s.Hi() && s.error == QID_LIMIT
  {
    hide Books, Faithful, AllOk, Feed, Ref;
    var t := ReplayStart(s);
    assert t.Lo() == s.Lo() == s.Bound();
    assert Shape(t.queries, t.texts, t.Lo());
    assert Kept(t.server, t.texts, t.log.at, 0, t.queries, t.Lo(), QID_LIMIT);
    hide Kept, Shape;
  }

  /** The oldest query of the refused batch is run on its own, and succeeds. */
  ghost function ReplayedGood(s: State): State
    requires s.first in s.queries && 1 <= s.first <= |s.texts|
  {
    var text := s.texts[s.first - 1];
    var q := s.queries[s.first := s.queries[s.first].(res := Some(s.server.run(s.history, text)))];
    s.(queries := q, first := NextKey(q, s.first), waiting := s.waiting - 1, history := s.history + [text],
       trace := s.trace + [Run(s.history, text)],
       log := RanOne(s.server, s.texts, s.log, s.history, s.first))
  }

  /** The oldest query of the refused batch is run on its own, and fails. */
  ghost function ReplayedBad(s: State): State
    requires 1 <= s.first <= |s.texts|
  {
    var next := NextKey(s.queries, s.first);
    var mark := if next == END then s.first + 1 else next;
    s.(first := next, second := next, waiting := s.waiting - 1,
       history := s.server.undo(s.history, [s.texts[s.first - 1]]),
       trace := s.trace + [Run(s.history, s.texts[s.first - 1])],
       log := RanOne(s.server, s.texts, s.log, s.history, s.first),
       thud := s.first, error := if mark < s.error then mark else s.error)
  }

  /** The books after the replay of one statement. */
  lemma ReplayedBooks(s: State, hi: int, h: seq<string>)
    requires Replaying(s, hi) && 1 <= s.first == s.Lo() <= |s.texts|
    requires s.server.run(s.history, s.texts[s.first - 1]).Rows? ==> h == s.history + [s.texts[s.first - 1]]
    ensures Books(s.server, s.texts, RanOne(s.server, s.texts, s.log, s.history, s.first), h,
                  s.trace + [Run(s.history, s.texts[s.first - 1])], s.flushed, s.first + 1)
  {
    hide Books, Faithful, AllOk, Kept, RanOne;
    RanOneBooks(s.server, s.texts, s.log, s.history, s.trace, s.flushed, s.first, h);
  }

  /** Earlier results are kept, and the statement's own answer is in the journal. */
  lemma ReplayedKept(s: State, hi: int)
    requires Replaying(s, hi) && 1 <= s.first == s.Lo() <= |s.texts|
    ensures var log := RanOne(s.server, s.texts, s.log, s.history, s.first);
      && Kept(s.server, s.texts, log.at, 0, s.queries, s.first, QID_LIMIT)
      && Extends(s.log.at, log.at) && (forall k :: k in log.at ==> k in s.log.at || k == s.first)
      && s.first in log.at && Ref(s.server, s.texts, log.at, s.first) == s.server.run(s.history, s.texts[s.first - 1])
  {
    BooksListed(s.server, s.texts, s.log, s.history, s.trace, s.flushed, s.Lo());
    hide Books, Faithful, AllOk, Kept;
    KeptExtends(s.server, s.texts, s.log.at, RanOne(s.server, s.texts, s.log, s.history, s.first).at, 0, s.queries, s.first, QID_LIMIT);
  }

  /** No statement from the waiting ones on has run. */
  lemma NotYetRun(s: State)
    requires s.Valid()
    ensures forall k :: k in s.log.at ==> 1 <= k < s.Bound() <= s.Hi()
  {
    BooksListed(s.server, s.texts, s.log, s.history, s.trace, s.flushed, s.Bound());
    hide State.Valid;
    Facts(s);
  }

  lemma BooksListed(
    sv: Server, texts: seq<string>, log: Log, h: seq<string>, trace: seq<Run>, flushed: bool, bound: int)
    requires Books(sv, texts, log, h, trace, flushed, bound)
    ensures bound <= |texts| + 1 && forall k :: k in log.at ==> 1 <= k < bound
  {
  }

  /** The statement to be replayed has not run before. */
  lemma ReplayedNew(s: State, hi: int)
    requires Replaying(s, hi)
    ensures s.Lo() !in s.log.at
  {
    BooksListed(s.server, s.texts, s.log, s.history, s.trace, s.flushed, s.Lo());
    hide Books, Faithful, Kept, AllOk;
  }

  lemma ReplayReady(s: State, hi: int)
    requires Replaying(s, hi)
    ensures s.Lo() < hi && s.first in s.queries && 1 <= s.first == s.Lo() <= |s.texts|
    ensures s.queries[s.first].text == s.texts[s.first - 1] && !s.open
    ensures forall k :: k in s.queries ==> 1 <= k
  {
    hide Books, Faithful, Kept;
    assert s.Lo() < hi;
  }

  lemma ReplayedGoodKeeps(s: State, hi: int)
    requires Replaying(s, hi)
    requires s.first in s.queries && 1 <= s.first <= |s.texts| && s.server.run(s.history, s.texts[s.first - 1]).Rows?
    ensures var t := ReplayedGood(s); Replaying(t, hi) && s.Keeps(t) && t.Lo() == s.Lo() + 1
  {
    hide Books, Faithful, RanOne, Ref, AllOk, Kept, ReplayFields, NextKey;
    var t := ReplayedGood(s);
    ReplayReady(s, hi);
    ReplayedGoodFields(s, hi);
    ReplayedAllOk(s, hi);
    ReplayedBooks(s, hi, t.history);
    ReplayedKept(s, hi);
    KeptOneMore(s.server, s.texts, t.log.at, 0, s.queries, s.Lo(), QID_LIMIT, t.queries[s.first]);
  }

  lemma ReplayedGoodFields(s: State, hi: int)
    requires ReplayFields(s, hi) && s.Lo() < hi
    requires s.first in s.queries && 1 <= s.first <= |s.texts|
    ensures var t := ReplayedGood(s); ReplayFields(t, hi) && t.Lo() == s.Lo() + 1
    ensures s.Lo() < QID_LIMIT
  {
    hide Faithful, RanOne;
    NextKeyContiguous(ReplayedGood(s).queries, s.first, |s.texts|);
    hide NextKey;
  }

  /** If the first statement succeeds, the failing one is among the others. */
  lemma ReplayedAllOk(s: State, hi: int)
    requires Replaying(s, hi) && 1 <= s.first <= |s.texts| && s.server.run(s.history, s.texts[s.first - 1]).Rows?
    ensures s.Lo() + 1 <= hi && !AllOk(s.server, s.history + [s.texts[s.first - 1]], s.texts[s.Lo()..hi - 1])
  {
    hide Books, Faithful, Kept;
    assert s.Lo() < hi;
    assert s.texts[s.Lo() - 1..hi - 1][1..] == s.texts[s.Lo()..hi - 1];
  }

  lemma ReplayedBadKeeps(s: State, hi: int)
    requires Replaying(s, hi)
    requires 1 <= s.first <= |s.texts| && s.server.run(s.history, s.texts[s.first - 1]).SqlError?
    ensures var t := ReplayedBad(s); t.Valid() && s.Keeps(t) && s.Lo() < t.Lo() == t.Hi() == t.error <= hi
  {
    hide Books, Faithful, RanOne, Ref, AllOk, Kept, ReplayFields, NextKey, Shape;
    var t := ReplayedBad(s);
    ReplayReady(s, hi);
    ReplayedBadFields(s, hi);
    ReplayedBooks(s, hi, t.history);
    ReplayedKept(s, hi);
    ReplayedBadKept(s, hi, t.log.at);
    ReplayedNew(s, hi);
  }

  lemma ReplayedBadFields(s: State, hi: int)
    requires ReplayFields(s, hi) && s.Lo() < hi && s.first in s.queries && 1 <= s.first <= |s.texts|
    ensures var t := ReplayedBad(s);
      && t.Ranges() && t.Sane() && t.Lo() == t.Hi() == t.error == s.first + 1 <= hi && t.error < QID_LIMIT
      && !t.dummyPending && t.replies == [] && 0 <= t.waiting <= |t.texts| + 1 - t.Hi()
    ensures s.thud == 0 && |s.refusals| == 1 && s.queries[s.first].res == Some(SqlError(s.refusals[0].message))
  {
    hide Faithful, RanOne;
    NextKeyContiguous(s.queries, s.first, |s.texts|);
    hide NextKey;
  }

  /** The failing query itself keeps the error that its batch was refused with. */
  lemma ReplayedBadKept(s: State, hi: int, at: map<int, seq<string>>)
    requires s.first in s.queries && s.Lo() == s.first && ReplayedBatch(s, hi) && s.first < hi
    requires s.queries[s.first].res == Some(SqlError(s.refusals[0].message))
    requires Kept(s.server, s.texts, at, 0, s.queries, s.first, QID_LIMIT)
    requires s.first in at && Ref(s.server, s.texts, at, s.first).SqlError?
    requires forall k :: k in s.queries ==> 1 <= k
    ensures Kept(s.server, s.texts, at, s.first, s.queries, s.first + 1, s.first + 1)
    ensures s.first > 0 && Ended(s.texts, s.queries, s.first, s.refusals)
  {
    hide Ref, BatchAt;
  }

  /** A query joins the waiting ones. */
  ghost function Inserted(s: State, text: string): State {
    var id := |s.texts| + 1;
    s.(queries := s.queries[id := Query(text, None)],
       texts := s.texts + [text],
       first := if s.second == END && s.first == END then id else s.first,
       second := if s.second == END then id else s.second,
       waiting := s.waiting + 1)
  }

  lemma InsertedJournal(sv: Server, texts: seq<string>, log: Log, h: seq<string>, bound: int, text: string)
    requires Journal(sv, texts, log, h, bound)
    ensures Journal(sv, texts + [text], log, h, bound)
    ensures Unflushed(sv, texts, log, bound) ==> Unflushed(sv, texts + [text], log, bound)
  {
    AllOkSplit(sv, [], texts, [text]);
    RefPrefix(sv, texts, log.at, texts + [text]);
    assert forall i :: 0 <= i < |log.ran| ==> log.ran[i] in log.at;
    hide Ref, AllOk;
  }

  lemma InsertedBooks(
    sv: Server, texts: seq<string>, log: Log, h: seq<string>, trace: seq<Run>, flushed: bool, bound: int, text: string)
    requires Books(sv, texts, log, h, trace, flushed, bound)
    ensures Books(sv, texts + [text], log, h, trace, flushed, bound)
  {
    InsertedJournal(sv, texts, log, h, bound, text);
    hide Journal, Unflushed, Traced;
  }

  lemma InsertedKept(s: State, t: State)
    requires s.texts <= t.texts && t.server == s.server && t.log == s.log && t.thud == s.thud && t.error == s.error
    requires forall k :: k in s.log.at ==> 1 <= k <= |s.texts|
    requires Kept(s.server, s.texts, s.log.at, s.thud, s.queries, s.Lo(), s.error)
    requires forall k :: k in t.queries && k < s.Lo() ==> k in s.queries && t.queries[k] == s.queries[k]
    ensures Kept(t.server, t.texts, t.log.at, t.thud, t.queries, s.Lo(), t.error)
  {
  }

  lemma InsertedFeed(
    sv: Server, texts: seq<string>, at: map<int, seq<string>>, lo: int, hi: int, rs: seq<Outcome>, texts': seq<string>)
    requires texts <= texts'
    requires forall k :: k in at ==> 1 <= k <= |texts|
    requires Feed(sv, texts, at, lo, hi, rs)
    ensures Feed(sv, texts', at, lo, hi, rs)
  {
    RefPrefix(sv, texts, at, texts');
    hide Ref;
  }

  /** What a statement answered does not depend on later ones. */
  lemma RefPrefix(sv: Server, texts: seq<string>, at: map<int, seq<string>>, texts': seq<string>)
    requires texts <= texts' && forall k :: k in at ==> 1 <= k <= |texts|
    ensures forall k :: k in at ==> Ref(sv, texts', at, k) == Ref(sv, texts, at, k)
  {
    forall k | k in at ensures Ref(sv, texts', at, k) == Ref(sv, texts, at, k) {
      assert texts'[k - 1] == texts[k - 1];
    }
  }

  lemma InsertedStanding(s: State, text: string)
    requires s.Ranges() && s.Standing()
    requires forall k :: k in s.log.at ==> 1 <= k <= |s.texts|
    ensures Inserted(s, text).Standing()
  {
    hide AllOk, Feed, Ref, Rejected;
    var t := Inserted(s, text);
    RefPrefix(s.server, s.texts, s.log.at, t.texts);
    InsertedPlaces(s, text);
    if s.error >= QID_LIMIT {
      if !s.dummyPending {
        InsertedFeed(s.server, s.texts, s.log.at, s.Lo(), s.Hi(), s.replies, t.texts);
      } else if Rejected(s.server, s.texts, s.history, s.Lo(), s.Hi(), s.replies) {
        InsertedRejected(s.server, s.texts, s.history, s.Lo(), s.Hi(), s.replies, t.texts);
      } else {
        InsertedFeed(s.server, s.texts, s.log.at, s.Lo(), s.Hi(), s.replies[1..], t.texts);
      }
    }
  }

  lemma InsertedPlaces(s: State, text: string)
    requires s.Ranges()
    ensures var t := Inserted(s, text);
      && t.Lo() == s.Lo() && t.Hi() == s.Hi() && (Unanswered(s.queries, s.Lo()) ==> Unanswered(t.queries, t.Lo()))
  {
  }

  lemma InsertedRejected(
    sv: Server, texts: seq<string>, h: seq<string>, lo: int, hi: int, rs: seq<Outcome>, texts': seq<string>)
    requires texts <= texts' && Rejected(sv, texts, h, lo, hi, rs)
    ensures Rejected(sv, texts', h, lo, hi, rs)
  {
    hide AllOk;
    assert texts'[lo - 1..hi - 1] == texts[lo - 1..hi - 1];
  }

  lemma InsertedRanges(s: State, text: string)
    requires s.Ranges() && |s.texts| < QID_LIMIT - 2
    ensures var t := Inserted(s, text); t.Ranges() && t.Lo() == s.Lo() && t.Hi() == s.Hi() && t.Bound() == s.Bound()
  {
  }

  /** The refused batch stands where it stood. */
  lemma InsertedRefusing(s: State, text: string)
    requires s.Ranges() && s.Standing() && s.Refusing()
    ensures Inserted(s, text).Refusing()
  {
    hide Genuine, Feed, Ref, AllOk;
    var t := Inserted(s, text);
    forall batch, lo | BatchAt(s.texts, batch, lo) ensures BatchAt(t.texts, batch, lo) {
      assert t.texts[lo - 1..lo - 1 + |batch|] == s.texts[lo - 1..lo - 1 + |batch|];
    }
    hide BatchAt;
  }

  lemma InsertedKeeps(s: State, text: string)
    requires s.Valid() && |s.texts| < QID_LIMIT - 2
    ensures var t := Inserted(s, text); t.Valid() && t.Lo() == s.Lo() && t.Hi() == s.Hi()
  {
    var t := Inserted(s, text);
    InsertedRanges(s, text);
    InsertedBooks(s.server, s.texts, s.log, s.history, s.trace, s.flushed, s.Bound(), text);
    BooksListed(s.server, s.texts, s.log, s.history, s.trace, s.flushed, s.Bound());
    InsertedStanding(s, text);
    InsertedKept(s, t);
    InsertedRefusing(s, text);
    hide Books, Faithful, Kept, State.Standing, State.Ranges, State.Refusing;
  }

  /** An answered query leaves. */
  ghost function Removed(s: State, id: int): State { s.(queries := s.queries - {id}) }

  lemma RemovedKeeps(s: State, id: int)
    requires s.Valid() && id < s.Lo()
    ensures Removed(s, id).Valid()
  {
    hide Books, Faithful, AllOk, Kept, Feed, Ref, Genuine, Covers, BatchAt;
    RemovedKept(s.server, s.texts, s.log.at, s.thud, s.queries, s.Lo(), s.error, id);
  }

  lemma RemovedKept(
    sv: Server, texts: seq<string>, at: map<int, seq<string>>, thud: int, queries: map<int, Query>, lo: int, error: int, id: int)
    requires Kept(sv, texts, at, thud, queries, lo, error)
    ensures Kept(sv, texts, at, thud, queries - {id}, lo, error)
  {
    hide Answered;
  }

  /** Everything is forgotten once nothing is pending. */
  ghost function Flushed(s: State): State {
    s.(first := END, second := END, waiting := 0, dummyPending := false, queries := map[], flushed := true)
  }

  lemma FlushedKeeps(s: State)
    requires s.Valid() && s.Lo() == s.Hi()
    ensures Flushed(s).Valid()
  {
    hide Books, Faithful, AllOk;
    BooksListed(s.server, s.texts, s.log, s.history, s.trace, s.flushed, s.Bound());
    FlushedBooks(s.server, s.texts, s.log, s.history, s.trace, s.flushed, s.Bound());
  }

  /** After a flush, waiting ids count as passed although they never ran. */
  lemma FlushedBooks(
    sv: Server, texts: seq<string>, log: Log, h: seq<string>, trace: seq<Run>, flushed: bool, bound: int)
    requires Books(sv, texts, log, h, trace, flushed, bound)
    ensures Books(sv, texts, log, h, trace, true, |texts| + 1)
  {
    hide Unflushed, Led, Increasing, NoFailure, Ref, Traced;
  }

  lemma RetainKeeps(s: State, n: nat)
    requires s.Valid()
    ensures s.(retain := n).Valid()
  {
    hide Books, Faithful, Kept;
  }

  lemma CarriesKeys(s: State, t: State)
    requires s.Carries(t)
    ensures t.queries.Keys == s.queries.Keys && s.Lo() <= t.Lo() && t.texts == s.texts && t.server == s.server
    ensures t.retain == s.retain && t.flushed == s.flushed && Extends(s.log.at, t.log.at)
    ensures t.thud == s.thud || (s.thud == 0 && t.thud !in s.log.at)
    ensures s.refusals <= t.refusals && t.error <= s.error && (QID_LIMIT <= t.error ==> s.Hi() <= t.Hi())
    ensures forall k :: k in t.log.at ==> k in s.log.at || s.Lo() <= k
  {
  }

  lemma RemovedCarries(s: State, t: State, id: int)
    requires s.Carries(t)
    ensures Removed(s, id).Carries(Removed(t, id))
  {
  }

  lemma RemovedOn(s: State, t: State, u: State, id: int)
    requires s.Carries(t) && Removed(t, id).Carries(u)
    ensures Removed(s, id).Carries(u)
  {
  }

  /** Query `id` ended the replay of a refused batch. */
  ghost predicate EndedReplay(s: State, id: int) { s.refusals != [] && id + 1 == s.error }

  lemma EndedReplayIs(s: State, id: int)
    requires s.Valid() && id in s.log.at
    ensures EndedReplay(s, id) <==> id == s.thud
    ensures EndedReplay(s, id) ==> |s.refusals| == 1
  {
    BooksListed(s.server, s.texts, s.log, s.history, s.trace, s.flushed, s.Bound());
    hide Books, Faithful, Kept, Feed, Ref, AllOk, Covers;
  }

  /** What the client is due for statement `id`: its own answer, unless it ended the
      replay of a refused batch; then the error that this batch was refused with. */
  ghost function Due(s: State, id: int): Outcome {
    if EndedReplay(s, id) then SqlError(s.refusals[0].message) else Ref(s.server, s.texts, s.log.at, id)
  }

  lemma AnsweredAt(s: State, id: int)
    requires s.Valid() && id in s.queries && id < s.Lo()
    ensures id < s.error && id in s.log.at && s.queries[id].res == Some(Due(s, id))
    ensures Due(s, id).SqlError? <==> Ref(s.server, s.texts, s.log.at, id).SqlError?
  {
    hide Books, Faithful, Feed, Ref, AllOk, Covers;
    assert Answered(s.server, s.texts, s.log.at, s.thud, id, s.queries[id]);
    EndedReplayIs(s, id);
    if id == s.thud {
      ThudKept(s, id);
    }
  }

  lemma ThudKept(s: State, id: int)
    requires s.Valid() && id in s.queries && id == s.thud
    ensures |s.refusals| == 1 && s.queries[id].res == Some(SqlError(s.refusals[0].message))
  {
    hide Books, Faithful, Feed, Ref, AllOk, Covers, Kept;
  }

  /** With no error recorded and nothing pending or waiting, everything is answered. */
  lemma AllAnswered(s: State)
    requires s.Valid()
    ensures s.Lo() == |s.texts| + 1 ==> forall k :: k in s.queries ==> s.queries[k].res.Some?
  {
    hide Books, Faithful, AllOk, Feed, Ref;
  }

  /** A recorded error is the id right after a statement that failed. */
  lemma ErrorMeans(s: State)
    requires s.Valid() && s.error < QID_LIMIT
    ensures s.error - 1 in s.log.at && Ref(s.server, s.texts, s.log.at, s.error - 1).SqlError?
  {
  }

  /** As long as no statement before it failed, and refused batches were rolled back
      exactly, the `i`-th statement the server ran saw exactly the statements before
      it: batches, dummy query and replay cannot be told from running the statements
      one at a time. */
  lemma OneAtATime(s: State, i: nat)
    requires s.Valid() && i < |s.log.ran| && s.log.exact
    requires forall j :: 0 <= j < i ==> Ref(s.server, s.texts, s.log.at, s.log.ran[j]).Rows?
    ensures Increasing(s.log.ran) && s.log.ran[i] in s.log.at && |s.log.done| == |s.log.ran|
    ensures s.log.at[s.log.ran[i]] == s.log.done[..i]
    ensures forall j :: 0 <= j <= i ==> 1 <= s.log.ran[j] <= |s.texts| && s.log.done[j] == s.texts[s.log.ran[j] - 1]
  {
    hide Unflushed, Faithful, Kept, State.Standing;
    assert i < s.log.lead;
    assert forall j :: 0 <= j <= i ==> s.log.ran[j] in s.log.at;
  }

  /** If all inserted statements succeed one at a time and nothing was flushed, then no
      error is ever recorded and each statement answers as in one-at-a-time execution. */
  lemma Undisturbed(s: State, id: int)
    requires s.Valid() && !s.flushed && AllOk(s.server, [], s.texts)
    ensures s.error == QID_LIMIT
    ensures id in s.log.at ==>
      1 <= id <= |s.texts| && Ref(s.server, s.texts, s.log.at, id) == s.server.run(s.texts[..id - 1], s.texts[id - 1])
  {
    hide Books, Faithful, Kept, AllOk, Feed, Ref;
    UndisturbedBooks(s.server, s.texts, s.log, s.history, s.trace, s.Bound(), id);
  }

  lemma UndisturbedBooks(
    sv: Server, texts: seq<string>, log: Log, h: seq<string>, trace: seq<Run>, bound: int, id: int)
    requires Books(sv, texts, log, h, trace, false, bound) && AllOk(sv, [], texts)
    ensures NoFailure(sv, texts, log.at)
    ensures id in log.at ==> 1 <= id <= |texts| && Ref(sv, texts, log.at, id) == sv.run(texts[..id - 1], texts[id - 1])
  {
    hide AllOk, Increasing, NoFailure, Traced;
    if id in log.at {
      var i :| 0 <= i < |log.ran| && log.ran[i] == id;
      assert log.done[..i] == texts[..i];
    }
  }
}
