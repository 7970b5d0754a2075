/** Whole runs of a pipeline, compared with a client that executes each statement
    the moment it is inserted. */
module PipelineRuns {
  import opened Options
  import opened Backend
  import opened PipelineState
  import opened Pipelines

  datatype Op =
    | Insert(text: string)
    | Retain(n: int)
    | Resume
    | Complete
    | Flush
    | Retrieve(id: int)
    | RetrieveOldest

  datatype Answer =
    | Id(id: int)
    | Limit(previous: Option<int>)
    | Done
    | Empty
    | Got(reply: Reply)

  /** The inserted statements; the one with id `k` is at index `k - 1`. */
  function Texts(ops: seq<Op>): seq<string> {
    if ops == [] then []
    else
      var rest, op := Texts(ops[..|ops| - 1]), ops[|ops| - 1];
      if op.Insert? then rest + [op.text] else rest
  }

  /** A client: the statements it inserted, which ids it has not retrieved yet, and the
      retention limit it has set. */
  datatype Client = Client(texts: seq<string>, live: set<int>, retain: int)

  /** The least id from `k` to `top` that is still live, or 0. */
  function Oldest(live: set<int>, k: nat, top: nat): (id: int)
    requires 1 <= k
    ensures id == 0 ==> forall i :: k <= i <= top ==> i !in live
    ensures id != 0 ==> k <= id <= top && id in live && forall i :: k <= i < id ==> i !in live
    decreases top - k
  {
    if k > top then 0 else if k in live then k else Oldest(live, k + 1, top)
  }

  /** What statement `id` answers when every statement runs at insertion. */
  function DirectReply(sv: Server, texts: seq<string>, id: int): Reply
    requires 1 <= id <= |texts|
  {
    match sv.run(texts[..id - 1], texts[id - 1])
    case Rows(data) => Value(id, data)
    case SqlError(message) => Failed(id, message)
  }

  ghost predicate Sane(c: Client) { forall k :: k in c.live ==> 1 <= k <= |c.texts| }

  ghost function DirectStep(sv: Server, c: Client, op: Op): (r: (Client, Answer))
    requires Sane(c)
    ensures Sane(r.0)
  {
    match op
    case Insert(text) =>
      var id := |c.texts| + 1;
      (c.(texts := c.texts + [text], live := c.live + {id}), Id(id))
    case Retain(n) => if n < 0 then (c, Limit(None)) else (c.(retain := n), Limit(Some(c.retain)))
    case Resume => (c, Done)
    case Complete => (c, Done)
    case Flush => (c.(live := {}), Done)
    case Retrieve(id) =>
      if id in c.live then (c.(live := c.live - {id}), Got(DirectReply(sv, c.texts, id))) else (c, Got(Unknown))
    case RetrieveOldest =>
      var id := Oldest(c.live, 1, |c.texts|);
      if id == 0 then (c, Empty)
      else
        (c.(live := c.live - {id}), Got(DirectReply(sv, c.texts, id)))
  }

  ghost function Direct(sv: Server, ops: seq<Op>): (r: (Client, seq<Answer>))
    ensures Sane(r.0) && |r.1| == |ops|
    decreases |ops|
  {
    if ops == [] then (Client([], {}, 0), [])
    else
      var before := Direct(sv, ops[..|ops| - 1]);
      var step := DirectStep(sv, before.0, ops[|ops| - 1]);
      (step.0, before.1 + [step.1])
  }

  ghost predicate NoFlush(ops: seq<Op>) { forall i :: 0 <= i < |ops| ==> !ops[i].Flush? }

  /** The client after an operation that was answered with `a`. */
  ghost function Turn(c: Client, op: Op, a: Answer): (r: Client)
    requires Sane(c)
    ensures Sane(r)
  {
    match op
    case Insert(text) => c.(texts := c.texts + [text], live := c.live + {|c.texts| + 1})
    case Retain(n) => if n < 0 then c else c.(retain := n)
    case Flush => c.(live := {})
    case Resume => c
    case Complete => c
    case _ => if a.Got? && (a.reply.Value? || a.reply.Failed?) then c.(live := c.live - {a.reply.id}) else c
  }

  /** The reply to a retrieval of `id`, when `mark` is the error mark after it: unknown
      if the id is not live, refused if it is at or above the mark, and a result
      under that id otherwise. */
  predicate FairReply(live: set<int>, id: int, r: Reply, mark: int) {
    match r
    case Value(k, _) => id in live && k == id < mark
    case Failed(k, _) => id in live && k == id < mark
    case Unknown => id !in live
    case Refused => id in live && mark <= id
  }

  /** The answer that a client may expect of an operation, whatever failed before. */
  ghost predicate Fair(c: Client, op: Op, a: Answer, mark: int)
    requires Sane(c)
  {
    match op
    case Insert(_) => a == Id(|c.texts| + 1)
    case Retain(n) => a == Limit(if n < 0 then None else Some(c.retain))
    case Resume => a == Done
    case Complete => a == Done
    case Flush => a == Done
    case Retrieve(id) => a.Got? && FairReply(c.live, id, a.reply, mark)
    case RetrieveOldest =>
      var id := Oldest(c.live, 1, |c.texts|);
      if id == 0 then a == Empty else a.Got? && FairReply(c.live, id, a.reply, mark)
  }

  /** How the front moves, the least id not yet sent, when `mark` is the error mark after
      the operation.  Without an error it never moves back; an insertion within the
      retention limit and a new limit above the number of waiting queries leave it where it
      is; completion takes it to the end, and so does a flush, which sends nothing. */
  ghost predicate FrontLaw(c: Client, op: Op, front: int, front': int, mark: int) {
    if op.Flush? then front' == |c.texts| + 1
    else
      mark == QID_LIMIT ==>
        && front <= front'
        && (op.Insert? && |c.texts| + 2 - front <= c.retain ==> front' == front)
        && (op.Retain? && (op.n < 0 || |c.texts| + 1 - front < op.n) ==> front' == front)
        && (op.Complete? ==> front' == |c.texts| + 1)
  }

  /** Query `k` was waiting when it was flushed. */
  ghost predicate Dropped(ops: seq<Op>, answers: seq<Answer>, fronts: seq<int>, k: int)
    requires |ops| <= |answers| && |ops| <= |fronts|
  {
    exists i :: 0 <= i < |ops| && DroppedAt(ops, answers, fronts, i, k)
  }

  ghost predicate DroppedAt(ops: seq<Op>, answers: seq<Answer>, fronts: seq<int>, i: nat, k: int)
    requires i < |ops| <= |answers| && |ops| <= |fronts|
  {
    ops[i].Flush? && fronts[i] <= k <= |ClientAt(ops, answers, i).texts|
  }

  /** What ran had been sent, and was never dropped. */
  ghost predicate NoneDropped(ops: seq<Op>, answers: seq<Answer>, fronts: seq<int>, ids: seq<int>)
    requires |ops| <= |answers| && |ops| < |fronts|
  {
    forall j :: 0 <= j < |ids| ==> ids[j] < fronts[|ops|] && !Dropped(ops, answers, fronts, ids[j])
  }

  /** The client after the first `i` operations. */
  ghost function ClientAt(ops: seq<Op>, answers: seq<Answer>, i: nat): (c: Client)
    requires i <= |ops| && i <= |answers|
    ensures Sane(c)
  {
    if i == 0 then Client([], {}, 0) else Turn(ClientAt(ops, answers, i - 1), ops[i - 1], answers[i - 1])
  }

  lemma {:induction false} ClientAtPrefix(ops: seq<Op>, answers: seq<Answer>, a: Answer, i: nat)
    requires i <= |ops| && i <= |answers|
    ensures ClientAt(ops, answers + [a], i) == ClientAt(ops, answers, i)
  {
    if i > 0 {
      ClientAtPrefix(ops, answers, a, i - 1);
    }
  }

  /** What the server ran and refused, as its records show, accounts for the answers:
      `ids[j]` is the id under which statement `j` of the trace was inserted.  Statements
      ran in the order of their ids, each at most once; every result handed out is backed
      by what the id's own statement answered; the statement right below the mark failed;
      at most one batch was refused, and if an error is recorded after that, the statement
      right below the mark belongs to it; and up to the first failure each statement ran
      under exactly those before it, if refused batches leave no trace. */
  ghost predicate Accounted(
    sv: Server, texts: seq<string>, answers: seq<Answer>, trace: seq<Run>, refusals: seq<Refusal>, mark: int, ids: seq<int>)
  {
    && |ids| == |trace| && Increasing(ids)
    && (forall j :: 0 <= j < |trace| ==> 1 <= ids[j] <= |texts| && trace[j].text == texts[ids[j] - 1])
    && (forall i :: 0 <= i < |answers| && answers[i].Got? ==> Backed(sv, trace, refusals, mark, ids, answers[i].reply))
    && (mark < QID_LIMIT ==> exists j :: 0 <= j < |ids| && ids[j] + 1 == mark && Result(sv, trace[j]).SqlError?)
    && RefusedOnce(sv, texts, refusals, mark)
    && (Restores(sv) ==> forall j :: 0 <= j < |trace| && GoodBefore(sv, trace, j) ==> trace[j].history == TextsOf(trace, j))
  }

  ghost predicate RefusedOnce(sv: Server, texts: seq<string>, refusals: seq<Refusal>, mark: int) {
    && |refusals| <= 1
    && (forall i :: 0 <= i < |refusals| ==> Genuine(sv, refusals[i]))
    && (refusals != [] && mark < QID_LIMIT ==> Covers(texts, refusals[0].batch, mark - 1))
  }

  /** What a statement of the trace answered. */
  function Result(sv: Server, run: Run): Outcome { sv.run(run.history, run.text) }

  ghost predicate GoodBefore(sv: Server, trace: seq<Run>, j: nat)
    requires j <= |trace|
  {
    forall i :: 0 <= i < j ==> Result(sv, trace[i]).Rows?
  }

  function TextsOf(trace: seq<Run>, j: nat): seq<string>
    requires j <= |trace|
  {
    seq(j, i requires 0 <= i < |trace| => trace[i].text)
  }

  /** A value is what the id's own statement answered.  So is a failure's message, unless
      a batch was refused and the id is the one right below the mark, where the replay of
      that batch ended: then it is the message of the refusal. */
  ghost predicate Backed(sv: Server, trace: seq<Run>, refusals: seq<Refusal>, mark: int, ids: seq<int>, r: Reply)
    requires |ids| == |trace|
  {
    match r
    case Value(id, data) => exists j :: 0 <= j < |ids| && ids[j] == id && Result(sv, trace[j]) == Rows(data)
    case Failed(id, message) =>
      exists j :: 0 <= j < |ids| && ids[j] == id && Result(sv, trace[j]).SqlError?
        && SqlError(message) == if refusals != [] && id + 1 == mark then SqlError(refusals[0].message) else Result(sv, trace[j])
    case Unknown => true
    case Refused => mark < QID_LIMIT
  }

  ghost predicate AllSound(s: State, answers: seq<Answer>) {
    forall i :: 0 <= i < |answers| && answers[i].Got? ==> Sound(s, answers[i].reply)
  }

  /** Between two operations the journal only grows and the error mark only falls. */
  ghost predicate Grows(s: State, t: State) {
    && t.server == s.server && s.texts <= t.texts && t.error <= s.error && Extends(s.log.at, t.log.at)
    && (forall k :: k in s.log.at ==> 1 <= k <= |s.texts|)
    && (t.thud == s.thud || (s.thud == 0 && t.thud !in s.log.at))
    && s.refusals <= t.refusals
    && s.Lo() <= t.Lo() && (forall k :: k in t.log.at ==> k in s.log.at || s.Lo() <= k)
  }

  lemma SoundGrows(s: State, t: State, answers: seq<Answer>)
    requires s.Valid() && t.Valid() && AllSound(s, answers) && Grows(s, t)
    ensures AllSound(t, answers)
  {
    hide State.Valid, Ref, Due, Grows;
    forall i | 0 <= i < |answers| && answers[i].Got? ensures Sound(t, answers[i].reply) {
      var r := answers[i].reply;
      assert Sound(s, r);
      if r.Value? || r.Failed? {
        DueGrows(s, t, r.id);
      } else if r.Refused? {
        GrowsError(s, t);
        ErrorMeans(t);
      }
    }
  }

  /** What a client is due does not change. */
  lemma DueGrows(s: State, t: State, id: int)
    requires s.Valid() && t.Valid() && Grows(s, t) && id in s.log.at
    ensures id in t.log.at && Ref(t.server, t.texts, t.log.at, id) == Ref(s.server, s.texts, s.log.at, id)
    ensures Due(t, id) == Due(s, id)
  {
    hide State.Valid, Ref;
    RefGrows(s, t);
    EndedReplayIs(s, id);
    EndedReplayIs(t, id);
  }

  lemma RefGrows(s: State, t: State)
    requires Grows(s, t)
    ensures forall k :: k in s.log.at ==> k in t.log.at && Ref(t.server, t.texts, t.log.at, k) == Ref(s.server, s.texts, s.log.at, k)
  {
  }

  lemma GrowsSelf(s: State)
    requires s.Valid()
    ensures Grows(s, s)
  {
    BooksListed(s.server, s.texts, s.log, s.history, s.trace, s.flushed, s.Bound());
  }

  /** After an operation that only queues, sends and receives. */
  lemma Settle(s: State, t: State, u: State)
    requires s.Valid() && t.Carries(u) && t.Lo() == s.Lo() && t.Hi() == s.Hi() && t.error == s.error
    requires t.server == s.server && s.texts <= t.texts && t.log == s.log && t.thud == s.thud && t.refusals == s.refusals
    ensures Grows(s, u) && (QID_LIMIT <= u.error ==> s.Hi() <= u.Hi())
    ensures u.queries.Keys == t.queries.Keys && u.texts == t.texts && u.retain == t.retain && u.flushed == t.flushed
  {
    hide State.Valid, State.Carries;
    BooksListedState(s);
    CarriesKeys(t, u);
  }

  /** The pipeline holds what the client remembers. */
  ghost predicate Mirrors(s: State, c: Client) {
    s.texts == c.texts && s.queries.Keys == c.live && s.retain == c.retain
  }

  lemma DirectReplyOk(s: State, id: int)
    requires s.Valid() && !s.flushed && AllOk(s.server, [], s.texts)
    ensures s.error == QID_LIMIT
    ensures id in s.log.at ==>
      1 <= id <= |s.texts| && Ref(s.server, s.texts, s.log.at, id).Rows?
      && DirectReply(s.server, s.texts, id) == Value(id, Ref(s.server, s.texts, s.log.at, id).data)
  {
    Undisturbed(s, id);
    if id in s.log.at {
      AllOkAt(s.server, [], s.texts, id - 1);
      assert [] + s.texts[..id - 1] == s.texts[..id - 1];
    }
  }

  /** After an attempt to retrieve. */
  lemma Retrieved(s: State, t: State, r: Reply)
    requires s.Valid() && t.Valid() && t.error <= s.error && Sound(t, r)
    requires r.Unknown? ==> t == s
    requires r.Refused? ==> s.Carries(t)
    requires r.Value? || r.Failed? ==> Removed(s, r.id).Carries(t)
    ensures Grows(s, t) && t.texts == s.texts && t.retain == s.retain && t.flushed == s.flushed
    ensures QID_LIMIT <= t.error ==> s.Hi() <= t.Hi()
    ensures t.queries.Keys == if r.Value? || r.Failed? then s.queries.Keys - {r.id} else s.queries.Keys
    ensures !s.flushed && AllOk(t.server, [], t.texts) ==> !r.Refused?
    ensures !s.flushed && AllOk(t.server, [], t.texts) && (r.Value? || r.Failed?) ==>
      1 <= r.id <= |t.texts| && r == DirectReply(t.server, t.texts, r.id)
  {
    hide State.Valid, State.Carries, Ref, AllOk;
    GrowsSelf(s);
    if r.Refused? {
      CarriesKeys(s, t);
    }
    if r.Value? || r.Failed? {
      CarriesKeys(Removed(s, r.id), t);
    }
    if !s.flushed && AllOk(t.server, [], t.texts) {
      DirectReplyOk(t, if r.Value? || r.Failed? then r.id else 0);
    }
  }

  /** What was waiting has not run and will not. */
  ghost predicate NeverRun(s: State, t: State) {
    forall k :: s.Hi() <= k <= |s.texts| ==> k !in t.log.at && k < t.Lo()
  }

  /** What one operation guarantees to a client `c`. */
  ghost predicate Stepped(s: State, t: State, op: Op, a: Answer, c: Client)
    requires Sane(c)
  {
    && t.Valid() && Grows(s, t)
    && (a.Got? ==> Sound(t, a.reply))
    && Mirrors(t, Turn(c, op, a)) && Fair(c, op, a, t.error)
    && FrontLaw(c, op, s.Hi(), t.Hi(), t.error)
    && (op.Flush? ==> NeverRun(s, t))
    && (!op.Flush? ==> t.flushed == s.flushed)
    && (!s.flushed && !op.Flush? && AllOk(t.server, [], t.texts) ==> DirectStep(t.server, c, op) == (Turn(c, op, a), a))
  }

  method StepRetrieve(p: Pipeline, id: int, ghost c: Client) returns (a: Answer)
    requires p.Valid() && Sane(c) && Mirrors(p.View(), c)
    modifies p, p.conn
    ensures p.Valid() && p.lastId == old(p.lastId) && Stepped(old(p.View()), p.View(), Retrieve(id), a, c)
  {
    hide State.Valid, State.Carries, Ref, AllOk, Grows;
    ghost var s := p.View();
    var r := p.Retrieve(id);
    a := Got(r);
    Retrieved(s, p.View(), r);
  }

  method StepOldest(p: Pipeline, ghost c: Client) returns (a: Answer)
    requires p.Valid() && Sane(c) && Mirrors(p.View(), c)
    modifies p, p.conn
    ensures p.Valid() && p.lastId == old(p.lastId) && Stepped(old(p.View()), p.View(), RetrieveOldest, a, c)
  {
    hide State.Valid, State.Carries, Ref, AllOk, Grows, NextKey;
    ghost var s := p.View();
    LeastKey(s, c);
    var r := p.RetrieveOldest();
    a := match r case None => Empty case Some(reply) => Got(reply);
    if r.Some? {
      Retrieved(s, p.View(), r.value);
    } else {
      GrowsSelf(s);
    }
  }

  /** The first key of the map is the oldest live id. */
  lemma LeastKey(s: State, c: Client)
    requires s.Valid() && Sane(c) && Mirrors(s, c)
    ensures Oldest(c.live, 1, |c.texts|) == if s.queries == map[] then 0 else NextKey(s.queries, 0)
  {
    hide State.Valid, NextKey, Oldest, Contiguous;
    Facts(s);
    var n, id := NextKey(s.queries, 0), Oldest(c.live, 1, |c.texts|);
    if s.queries != map[] {
      var k :| k in s.queries;
      assert n in c.live && id in c.live;
    }
  }

  method StepInsert(p: Pipeline, text: string, ghost c: Client) returns (a: Answer)
    requires p.Valid() && p.lastId < QID_LIMIT - 2 && Sane(c) && Mirrors(p.View(), c)
    modifies p, p.conn
    ensures p.Valid() && Stepped(old(p.View()), p.View(), Insert(text), a, c)
    ensures p.lastId == old(p.lastId) + 1
  {
    hide State.Valid, State.Carries, Stepped, Mirrors, Inserted;
    ghost var s := p.View();
    Facts(s);
    var id := p.Insert(text);
    a := Id(id);
    InsertSteps(s, p.View(), text, c);
  }

  lemma InsertSteps(s: State, t: State, text: string, c: Client)
    requires s.Valid() && t.Valid() && Sane(c) && Mirrors(s, c)
    requires Inserted(s, text).Carries(t) && (s.waiting < s.retain ==> t == Inserted(s, text))
    ensures Stepped(s, t, Insert(text), Id(|s.texts| + 1), c)
  {
    hide State.Valid, State.Carries, Ref, AllOk, Grows;
    Facts(s);
    Facts(t);
    Settle(s, Inserted(s, text), t);
  }

  method StepFlush(p: Pipeline, ghost c: Client) returns (a: Answer)
    requires p.Valid() && Sane(c) && Mirrors(p.View(), c)
    modifies p, p.conn
    ensures p.Valid() && Stepped(old(p.View()), p.View(), Flush, a, c)
    ensures p.lastId == old(p.lastId)
  {
    hide State.Valid, State.Carries, Ref, AllOk;
    GrowsSelf(p.View());
    Facts(p.View());
    NotYetRun(p.View());
    p.Flush();
    a := Done;
  }

  method StepOther(p: Pipeline, op: Op, ghost c: Client) returns (a: Answer)
    requires p.Valid() && Sane(c) && Mirrors(p.View(), c) && (op.Retain? || op.Resume? || op.Complete?)
    modifies p, p.conn
    ensures p.Valid() && Stepped(old(p.View()), p.View(), op, a, c)
    ensures p.lastId == old(p.lastId)
  {
    hide State.Valid, State.Carries, Ref, AllOk, Grows;
    ghost var s, t := p.View(), p.View();
    CarriesSelf(s);
    match op {
      case Retain(n) =>
        var r := p.Retain(n);
        a := Limit(r);
        if r.Some? {
          t := s.(retain := n);
        }
      case Resume =>
        p.Resume();
        a := Done;
      case Complete =>
        p.Complete();
        a := Done;
    }
    Facts(s);
    Facts(p.View());
    Settle(s, t, p.View());
  }

  method Step(p: Pipeline, op: Op, ghost c: Client) returns (a: Answer)
    requires p.Valid() && p.lastId < QID_LIMIT - 2 && Sane(c) && Mirrors(p.View(), c)
    modifies p, p.conn
    ensures p.Valid() && Stepped(old(p.View()), p.View(), op, a, c)
    ensures p.lastId <= old(p.lastId) + 1
  {
    hide State.Valid, Stepped, Mirrors;
    if op.Retrieve? {
      a := StepRetrieve(p, op.id, c);
    } else if op.RetrieveOldest? {
      a := StepOldest(p, c);
    } else if op.Insert? {
      a := StepInsert(p, op.text, c);
    } else if op.Flush? {
      a := StepFlush(p, c);
    } else {
      a := StepOther(p, op, c);
    }
  }

  /** A run so far, on the side of the pipeline. */
  ghost predicate Running(s: State, ops: seq<Op>, answers: seq<Answer>, marks: seq<int>, fronts: seq<int>) {
    && s.Valid() && |answers| == |ops| && |marks| == |fronts| == |ops| + 1 && marks[|ops|] == s.error && fronts[|ops|] == s.Hi()
    && FrontsRight(s, ops, answers, marks, fronts)
    && AllSound(s, answers)
    && Mirrors(s, ClientAt(ops, answers, |ops|))
    && marks[0] == QID_LIMIT && (forall i :: 0 <= i < |ops| ==> marks[i + 1] <= marks[i])
    && (forall i :: 0 <= i < |ops| ==> Fair(ClientAt(ops, answers, i), ops[i], answers[i], marks[i + 1]))
    && (NoFlush(ops) ==> !s.flushed)
    && (NoFlush(ops) && AllOk(s.server, [], s.texts) ==> Direct(s.server, ops) == (ClientAt(ops, answers, |ops|), answers))
  }

  /** The fronts move by the law, and nothing that was dropped has run or will. */
  ghost predicate FrontsRight(s: State, ops: seq<Op>, answers: seq<Answer>, marks: seq<int>, fronts: seq<int>)
    requires |answers| == |ops| && |marks| == |fronts| == |ops| + 1
  {
    && fronts[0] == 1
    && (forall i :: 0 <= i < |ops| ==> FrontLaw(ClientAt(ops, answers, i), ops[i], fronts[i], fronts[i + 1], marks[i + 1]))
    && (forall k :: Dropped(ops, answers, fronts, k) ==> k !in s.log.at && k < s.Lo())
  }

  lemma FrontsOn(s: State, t: State, ops: seq<Op>, op: Op, answers: seq<Answer>, a: Answer, marks: seq<int>, fronts: seq<int>)
    requires |answers| == |ops| && |marks| == |fronts| == |ops| + 1 && fronts[|ops|] == s.Hi()
    requires FrontsRight(s, ops, answers, marks, fronts) && Mirrors(s, ClientAt(ops, answers, |ops|))
    requires Grows(s, t) && FrontLaw(ClientAt(ops, answers, |ops|), op, s.Hi(), t.Hi(), t.error)
    requires op.Flush? ==> NeverRun(s, t)
    ensures FrontsRight(t, ops + [op], answers + [a], marks + [t.error], fronts + [t.Hi()])
  {
    hide FrontLaw, ClientAt;
    var ops', answers', marks', fronts', n := ops + [op], answers + [a], marks + [t.error], fronts + [t.Hi()], |ops|;
    ClientsOn(ops, op, answers, a);
    forall i | 0 <= i <= n
      ensures FrontLaw(ClientAt(ops', answers', i), ops'[i], fronts'[i], fronts'[i + 1], marks'[i + 1])
    {
      assert i < n ==> ops'[i] == ops[i] && fronts'[i] == fronts[i] && fronts'[i + 1] == fronts[i + 1] && marks'[i + 1] == marks[i + 1];
      assert fronts'[n] == s.Hi() && fronts'[n + 1] == t.Hi() && marks'[n + 1] == t.error;
    }
    forall k | Dropped(ops', answers', fronts', k)
      ensures k !in t.log.at && k < t.Lo()
    {
      var i :| 0 <= i < |ops'| && DroppedAt(ops', answers', fronts', i, k);
      if i < n {
        assert DroppedAt(ops, answers, fronts, i, k);
      }
    }
  }

  lemma RunsOn(
    s: State, t: State, ops: seq<Op>, op: Op, answers: seq<Answer>, a: Answer, marks: seq<int>, fronts: seq<int>)
    requires Running(s, ops, answers, marks, fronts) && Stepped(s, t, op, a, ClientAt(ops, answers, |ops|))
    ensures Running(t, ops + [op], answers + [a], marks + [t.error], fronts + [t.Hi()])
  {
    hide State.Valid, Grows, FrontsRight, FrontLaw, AllOk, DirectStep, Fair, Turn, Sound, ClientAt, Direct, AllSound, Mirrors, NoFlush;
    var ops', answers', marks', n := ops + [op], answers + [a], marks + [t.error], |ops|;
    ClientsOn(ops, op, answers, a);
    SoundOn(s, t, answers, a);
    DirectOn(s, t, ops, op, answers, a);
    FrontsOn(s, t, ops, op, answers, a, marks, fronts);
    forall i | 0 <= i <= n ensures Fair(ClientAt(ops', answers', i), ops'[i], answers'[i], marks'[i + 1]) {
      if i < n {
        assert marks'[i + 1] == marks[i + 1] && ops'[i] == ops[i] && answers'[i] == answers[i];
      }
    }
    GrowsError(s, t);
  }

  lemma GrowsError(s: State, t: State)
    requires Grows(s, t)
    ensures t.error <= s.error && t.server == s.server
  {
  }

  /** The clients of a run are those of the longer run. */
  lemma ClientsOn(ops: seq<Op>, op: Op, answers: seq<Answer>, a: Answer)
    requires |answers| == |ops|
    ensures forall i :: 0 <= i <= |ops| ==> ClientAt(ops + [op], answers + [a], i) == ClientAt(ops, answers, i)
    ensures ClientAt(ops + [op], answers + [a], |ops| + 1) == Turn(ClientAt(ops, answers, |ops|), op, a)
  {
    hide Turn;
    forall i | 0 <= i <= |ops| ensures ClientAt(ops + [op], answers + [a], i) == ClientAt(ops, answers, i) {
      ClientAtPrefix(ops, answers, a, i);
      ClientAtOps(ops, op, answers + [a], i);
    }
  }

  lemma SoundOn(s: State, t: State, answers: seq<Answer>, a: Answer)
    requires s.Valid() && t.Valid() && AllSound(s, answers) && Grows(s, t) && (a.Got? ==> Sound(t, a.reply))
    ensures AllSound(t, answers + [a])
  {
    hide State.Valid, Sound, Grows;
    SoundGrows(s, t, answers);
  }

  /** The answers go on being those of the direct client. */
  lemma DirectOn(s: State, t: State, ops: seq<Op>, op: Op, answers: seq<Answer>, a: Answer)
    requires |answers| == |ops| && Grows(s, t)
    requires NoFlush(ops) ==> !s.flushed
    requires !op.Flush? ==> t.flushed == s.flushed
    requires NoFlush(ops) && AllOk(s.server, [], s.texts) ==> Direct(s.server, ops) == (ClientAt(ops, answers, |ops|), answers)
    requires var c := ClientAt(ops, answers, |ops|);
      !s.flushed && !op.Flush? && AllOk(t.server, [], t.texts) ==> DirectStep(t.server, c, op) == (Turn(c, op, a), a)
    ensures NoFlush(ops + [op]) ==> !t.flushed
    ensures NoFlush(ops + [op]) && AllOk(t.server, [], t.texts) ==>
      Direct(t.server, ops + [op]) == (Turn(ClientAt(ops, answers, |ops|), op, a), answers + [a])
  {
    hide AllOk, DirectStep, Turn;
    var ops', n := ops + [op], |ops|;
    AllOkPrefix(s.server, s.texts, t.texts);
    assert ops'[..n] == ops && ops'[n] == op;
    if NoFlush(ops') {
      assert forall i :: 0 <= i < n ==> ops[i] == ops'[i];
      assert NoFlush(ops) && !op.Flush?;
    }
  }

  lemma {:induction false} ClientAtOps(ops: seq<Op>, op: Op, answers: seq<Answer>, i: nat)
    requires i <= |ops| && i <= |answers|
    ensures ClientAt(ops + [op], answers, i) == ClientAt(ops, answers, i)
  {
    if i > 0 {
      ClientAtOps(ops, op, answers, i - 1);
    }
  }

  /** At the end of a run, the trace accounts for it. */
  lemma TraceAccounts(s: State, answers: seq<Answer>)
    requires s.Valid() && AllSound(s, answers)
    ensures Accounted(s.server, s.texts, answers, s.trace, s.refusals, s.error, s.log.ran)
  {
    hide Faithful, Unflushed, Kept, Sound, Backed, GoodBefore, RefusedOnce, State.Refusing, State.Standing;
    ErrorBelow(s);
    OneRefusal(s);
    forall i | 0 <= i < |answers| && answers[i].Got?
      ensures Backed(s.server, s.trace, s.refusals, s.error, s.log.ran, answers[i].reply)
    {
      SoundBacked(s, answers[i].reply);
    }
    forall j | 0 <= j < |s.trace| && s.log.exact && GoodBefore(s.server, s.trace, j)
      ensures s.trace[j].history == TextsOf(s.trace, j)
    {
      TraceLed(s, j);
    }
  }

  /** An id that ran is in the trace. */
  lemma InTrace(s: State, id: int) returns (j: nat)
    requires s.Valid() && id in s.log.at
    ensures j < |s.trace| == |s.log.ran| && s.log.ran[j] == id && 1 <= id <= |s.texts|
    ensures Result(s.server, s.trace[j]) == Ref(s.server, s.texts, s.log.at, id)
  {
    hide Faithful, Unflushed, Kept, State.Standing;
    j :| 0 <= j < |s.log.ran| && s.log.ran[j] == id;
  }

  lemma ErrorBelow(s: State)
    requires s.Valid()
    ensures |s.trace| == |s.log.ran|
    ensures s.error < QID_LIMIT ==>
      exists j :: 0 <= j < |s.log.ran| && s.log.ran[j] + 1 == s.error && Result(s.server, s.trace[j]).SqlError?
  {
    hide Faithful, Unflushed, Kept, Feed, Ref;
    if s.error < QID_LIMIT {
      var j := InTrace(s, s.error - 1);
    }
  }

  lemma SoundBacked(s: State, r: Reply)
    requires s.Valid() && Sound(s, r)
    ensures |s.log.ran| == |s.trace| && Backed(s.server, s.trace, s.refusals, s.error, s.log.ran, r)
  {
    hide State.Valid, Ref;
    ErrorBelow(s);
    BooksListedState(s);
    if r.Value? || r.Failed? {
      var j := InTrace(s, r.id);
    }
  }

  lemma OneRefusal(s: State)
    requires s.Valid()
    ensures RefusedOnce(s.server, s.texts, s.refusals, s.error)
  {
    hide Books, Faithful, Kept, Feed, Ref, Covers, Genuine, BatchAt, AllOk;
  }

  lemma BooksListedState(s: State)
    requires s.Valid()
    ensures forall k :: k in s.log.at ==> 1 <= k <= |s.texts|
  {
    BooksListed(s.server, s.texts, s.log, s.history, s.trace, s.flushed, s.Bound());
  }

  /** Up to the first failure, a statement ran under those before it. */
  lemma TraceLed(s: State, j: nat)
    requires s.Valid() && s.log.exact && j < |s.trace| && GoodBefore(s.server, s.trace, j)
    ensures s.trace[j].history == TextsOf(s.trace, j)
  {
    hide Faithful, Unflushed, Kept, State.Standing;
    assert |s.trace| == |s.log.ran| == |s.log.done|;
    forall i | 0 <= i < j ensures Ref(s.server, s.texts, s.log.at, s.log.ran[i]).Rows? {
      assert Result(s.server, s.trace[i]).Rows?;
    }
    OneAtATime(s, j);
    assert TextsOf(s.trace, j) == s.log.done[..j];
  }

  /** Any run of operations on a fresh pipeline, whatever the timing, with the error mark and
      the front of sent queries before each operation and at the end, and the session's
      records of what the server ran and refused.  Every answer is fair, the mark never rises,
      the front moves by the law, and the records account for the answers; what was dropped
      by a flush has not run.  If no flush is asked for and the statements all succeed one at
      a time, then every answer of the run is exactly that of the direct client, in whatever
      order results are retrieved and however the statements were batched. */
  method RunPipeline(sv: Server, busy: nat -> bool, ops: seq<Op>)
    returns (answers: seq<Answer>, marks: seq<int>, fronts: seq<int>, trace: seq<Run>, refusals: seq<Refusal>)
    requires Faithful(sv) && |ops| < QID_LIMIT - 2
    ensures |answers| == |ops| && |marks| == |fronts| == |ops| + 1
    ensures fronts[0] == 1 &&
      forall i :: 0 <= i < |ops| ==> FrontLaw(ClientAt(ops, answers, i), ops[i], fronts[i], fronts[i + 1], marks[i + 1])
    ensures marks[0] == QID_LIMIT && forall i :: 0 <= i < |ops| ==> marks[i + 1] <= marks[i]
    ensures forall i :: 0 <= i < |ops| ==> Fair(ClientAt(ops, answers, i), ops[i], answers[i], marks[i + 1])
    ensures exists ids ::
      && Accounted(sv, Texts(ops), answers, trace, refusals, marks[|ops|], ids)
      && NoneDropped(ops, answers, fronts, ids)
    ensures NoFlush(ops) && AllOk(sv, [], Texts(ops)) ==> answers == Direct(sv, ops).1
  {
    hide State.Valid, Stepped, Mirrors, AllSound, AllOk, Fair, DirectStep, Turn, Accounted, FrontLaw, Dropped;
    var conn := new Session(sv, busy);
    var p := new Pipeline(conn);
    answers, marks, fronts := [], [p.error], [Place(p.second, p.lastId)];
    RunsFromNothing(p.View());
    assert ops[..0] == [];
    for i := 0 to |ops|
      invariant p.conn == conn && fresh(p) && fresh(conn) && conn.server == sv
      invariant p.Valid() && p.lastId <= i
      invariant Running(p.View(), ops[..i], answers, marks, fronts)
    {
      ghost var s := p.View();
      var a := Step(p, ops[i], ClientAt(ops[..i], answers, i));
      RunsOn(s, p.View(), ops[..i], ops[i], answers, a, marks, fronts);
      assert ops[..i + 1] == ops[..i] + [ops[i]];
      answers, marks, fronts := answers + [a], marks + [p.error], fronts + [Place(p.second, p.lastId)];
    }
    assert ops[..|ops|] == ops;
    trace, refusals := conn.trace, conn.refusals;
    RunTexts(p.View(), ops, answers);
    TraceAccounts(p.View(), answers);
    RanListed(p.View());
  }

  /** What is listed as run is in the journal, before the front. */
  lemma RanListed(s: State)
    requires s.Valid()
    ensures forall j :: 0 <= j < |s.log.ran| ==> s.log.ran[j] in s.log.at && s.log.ran[j] < s.Hi()
  {
    NotYetRun(s);
    hide Faithful, Unflushed, Kept, State.Standing, State.Refusing, State.Bound;
  }

  lemma RunsFromNothing(s: State)
    requires s.Valid() && s.second == END && s.queries == map[] && s.texts == [] && s.error == QID_LIMIT && !s.flushed && s.retain == 0
    ensures Running(s, [], [], [s.error], [s.Hi()])
  {
    hide State.Valid;
  }

  lemma RunTexts(s: State, ops: seq<Op>, answers: seq<Answer>)
    requires |answers| == |ops| && Mirrors(s, ClientAt(ops, answers, |ops|))
    ensures s.texts == Texts(ops)
  {
    ClientTexts(ops, answers, |ops|);
    assert ops[..|ops|] == ops;
  }

  lemma {:induction false} ClientTexts(ops: seq<Op>, answers: seq<Answer>, i: nat)
    requires i <= |ops| && i <= |answers|
    ensures ClientAt(ops, answers, i).texts == Texts(ops[..i])
  {
    if i > 0 {
      ClientTexts(ops, answers, i - 1);
      assert ops[..i][..i - 1] == ops[..i - 1];
    }
  }

  lemma AllOkPrefix(sv: Server, a: seq<string>, b: seq<string>)
    requires a <= b
    ensures AllOk(sv, [], b) ==> AllOk(sv, [], a)
  {
    AllOkSplit(sv, [], a, b[|a|..]);
    assert b == a + b[|a|..];
  }

  // ----- concrete runs -----

  /** A server on which the statement "bad" fails and all others succeed.  If it is
      `picky`, it refuses every batch that holds "bad", as for a syntax error. */
  function Touchy(picky: bool): Server {
    Server((h: seq<string>, s: string) => if s == "bad" then SqlError("own") else Rows(s),
           (h: seq<string>, b: seq<string>) => if picky && "bad" in b then Some("syntax") else None,
           (h: seq<string>, b: seq<string>) => h)
  }

  lemma {:induction false} BadFails(picky: bool, h: seq<string>, batch: seq<string>)
    requires "bad" in batch
    ensures !AllOk(Touchy(picky), h, batch)
    decreases |batch|
  {
    if batch[0] != "bad" {
      assert batch == [batch[0]] + batch[1..];
      BadFails(picky, h + [batch[0]], batch[1..]);
    }
  }

  lemma TouchyFaithful(picky: bool)
    ensures Faithful(Touchy(picky))
  {
    forall h, batch | |batch| > 1 && Touchy(picky).reject(h, batch).Some?
      ensures !AllOk(Touchy(picky), h, batch) && !AllOk(Touchy(picky), Touchy(picky).undo(h, batch), batch)
    {
      BadFails(picky, h, batch);
    }
  }

  /** A fresh pipeline that holds back up to two queries. */
  method Holding(sv: Server, busy: nat -> bool) returns (p: Pipeline)
    requires Faithful(sv)
    ensures fresh(p) && fresh(p.conn) && p.Valid() && p.conn.server == sv
    ensures p.texts == [] && p.waiting == 0 && p.retain == 2 && p.error == QID_LIMIT && p.conn.trace == []
  {
    hide State.Valid, State.Carries, Faithful;
    var conn := new Session(sv, busy);
    p := new Pipeline(conn);
    Facts(p.View());
    var r := p.Retain(2);
  }

  /** A query that is held back stays so when the limit changes to one that still allows it,
      and is not run when it is flushed. */
  method HeldBackAndFlushed(sv: Server, busy: nat -> bool) returns (waiting: int, left: int, trace: seq<Run>)
    requires Faithful(sv)
    ensures waiting == 1 && left == 0 && trace == []
  {
    hide State.Valid, State.Carries, Faithful;
    var p := Holding(sv, busy);
    Facts(p.View());
    var id := p.Insert("DELETE FROM t");
    Facts(p.View());
    var limit := p.Retain(5);
    waiting := p.waiting;
    Facts(p.View());
    p.Flush();
    left := |p.queries|;
    trace := p.conn.trace;
  }

  /** A batch of two, held back and then completed. */
  method CompleteTwo(picky: bool, a: string, b: string) returns (p: Pipeline)
    ensures fresh(p) && fresh(p.conn) && p.Valid() && p.conn.server == Touchy(picky) && p.texts == [a, b]
    ensures p.queries.Keys == {1, 2} && p.lastId == 2
    ensures p.error < QID_LIMIT <==> a == "bad" || (picky && b == "bad")
    ensures p.conn.refusals != [] <==> picky && (a == "bad" || b == "bad")
  {
    hide State.Valid, State.Carries, Faithful, Touchy, FailsEarly, RefusedNext;
    TouchyFaithful(picky);
    p := Holding(Touchy(picky), _ => true);
    Facts(p.View());
    var k := p.Insert(a);
    Facts(p.View());
    var l := p.Insert(b);
    ghost var s := p.View();
    Facts(s);
    assert s.texts == [a, b];
    KeysOfTwo(s);
    TwoFail(s, picky, a, b);
    p.Complete();
    CarriesKeys(s, p.View());
  }

  lemma KeysOfTwo(s: State)
    requires s.Valid() && |s.texts| == 2 && s.Lo() == 1
    ensures s.queries.Keys == {1, 2}
  {
    hide State.Valid;
    Facts(s);
    assert 1 in s.queries && 2 in s.queries;
    forall k | k in s.queries.Keys ensures k == 1 || k == 2 {
      assert k in s.queries;
    }
  }

  lemma TwoFail(s: State, picky: bool, a: string, b: string)
    requires s.server == Touchy(picky) && s.texts == [a, b] && s.Hi() == 1
    ensures FailsEarly(s) <==> a == "bad" || (picky && b == "bad")
    ensures RefusedNext(s) <==> picky && (a == "bad" || b == "bad")
  {
    assert s.texts[0..] == [a, b] && [a, b][1..] == [b] && [b][1..] == [];
    assert |Outcomes(s.server, s.history + [a], [b])| == 1;
    assert |Outcomes(s.server, s.history, [a, b])| == if a == "bad" then 1 else 2;
  }

  /** A batch with a failure before its end records an error, and flushing does not clear
      it: a query inserted after the flush is refused. */
  method FlushKeepsError() returns (marked: bool, left: int, reply: Reply)
    ensures marked && left == 0 && reply == Refused
  {
    hide State.Valid, State.Carries, Touchy, Ref, Due;
    var p := CompleteTwo(false, "bad", "b");
    marked := p.error < QID_LIMIT;
    Facts(p.View());
    p.Flush();
    left := |p.queries|;
    Facts(p.View());
    ghost var s := p.View();
    var c := p.Insert("c");
    CarriesKeys(Inserted(s, "c"), p.View());
    Facts(p.View());
    reply := p.Retrieve(c);
  }

  /** What can come of the statements "a" and "bad". */
  lemma GoodThenBad(s: State, picky: bool, r: Reply)
    requires s.Valid() && s.server == Touchy(picky) && s.texts == ["a", "bad"] && Sound(s, r)
    ensures s.error == QID_LIMIT || s.error == 3
    ensures s.refusals != [] ==> picky
    ensures (r.Value? || r.Failed?) && r.id == 1 ==> r == Value(1, "a")
    ensures (r.Value? || r.Failed?) && r.id == 2 ==> r == Failed(2, if s.refusals != [] && s.error == 3 then "syntax" else "own")
  {
    hide State.Valid, Touchy, Genuine, Ref, Covers;
    BooksListedState(s);
    OneRefusal(s);
    Facts(s);
    TouchyRefs(s, picky);
    if s.refusals != [] {
      TouchyRefuses(picky, s.refusals[0]);
    }
    if s.error < QID_LIMIT {
      ErrorMeans(s);
    }
  }

  lemma TouchyRefs(s: State, picky: bool)
    requires s.server == Touchy(picky) && s.texts == ["a", "bad"]
    ensures 1 in s.log.at ==> Ref(s.server, s.texts, s.log.at, 1) == Rows("a")
    ensures 2 in s.log.at ==> Ref(s.server, s.texts, s.log.at, 2) == SqlError("own")
  {
  }

  lemma TouchyRefuses(picky: bool, r: Refusal)
    requires Genuine(Touchy(picky), r)
    ensures picky && r.message == "syntax"
  {
  }

  /** Complete the batch "a", "bad" and retrieve both results. */
  method RetrieveTwo(picky: bool) returns (marked: bool, first: Reply, second: Reply)
    ensures marked == picky && first == Value(1, "a") && second == Failed(2, if picky then "syntax" else "own")
  {
    hide State.Valid, State.Carries, Touchy, Sound, Genuine, Covers;
    var p := CompleteTwo(picky, "a", "bad");
    marked := p.error < QID_LIMIT;
    first := RetrieveOf(p, 1, picky);
    second := RetrieveOf(p, 2, picky);
  }

  /** Retrieve one of the two results. */
  method RetrieveOf(p: Pipeline, id: int, picky: bool) returns (r: Reply)
    requires p.Valid() && id in p.queries && p.conn.server == Touchy(picky) && p.texts == ["a", "bad"]
    requires picky ==> p.error < QID_LIMIT && p.conn.refusals != []
    modifies p, p.conn
    ensures p.Valid() && p.conn.server == Touchy(picky) && p.texts == ["a", "bad"] && p.queries.Keys == old(p.queries.Keys) - {id}
    ensures picky ==> p.error < QID_LIMIT && p.conn.refusals != []
    ensures r == if id == 1 then Value(1, "a") else Failed(2, if picky then "syntax" else "own")
  {
    hide State.Valid, State.Carries, Touchy, Sound, Genuine, Covers;
    ghost var s := p.View();
    Facts(s);
    r := p.Retrieve(id);
    if r.Refused? {
      CarriesKeys(s, p.View());
    } else {
      CarriesKeys(Removed(s, id), p.View());
    }
    Facts(p.View());
    GoodThenBad(p.View(), picky, r);
  }

  /** A statement that fails as the last one of its batch records no error, and is handed
      out with its own message. */
  method LastFailureUnrecorded() returns (marked: bool, second: Reply)
    ensures !marked && second == Failed(2, "own")
  {
    var first;
    marked, first, second := RetrieveTwo(false);
  }

  /** A query at which the replay of a refused batch ends is handed out with the message
      of the refusal, not with its own. */
  method RefusalHidesOwnError() returns (second: Reply, own: Outcome)
    ensures second == Failed(2, "syntax") && own == SqlError("own")
  {
    var marked, first;
    marked, first, second := RetrieveTwo(true);
    own := Touchy(true).run(["a"], "bad");
  }
}
