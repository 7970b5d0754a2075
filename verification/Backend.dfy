/** The database session under a pipeline: what libpq and the server do with a
    batch of statements sent in one message.

    A deterministic server is described by three functions.  Its state is the
    history of statements that took effect, so a `Server` value ranges over
    every deterministic database. */
module Backend {
  import opened Options

  datatype Outcome = Rows(data: string) | SqlError(message: string)

  /** `run(h, s)`: what statement `s` answers after history `h`.
      `reject(h, b)`: the whole batch `b` is refused before its first statement
      (a syntax error anywhere in the text, or an aborted transaction).
      `undo(h, b)`: the history that counts after batch `b`, started at `h`, failed. */
  datatype Server = Server(
    run: (seq<string>, string) -> Outcome,
    reject: (seq<string>, seq<string>) -> Option<string>,
    undo: (seq<string>, seq<string>) -> seq<string>)

  const DUMMY_VALUE := "1"

  /** Results of a batch: statements run in order, up to and including the first failure. */
  function Outcomes(sv: Server, h: seq<string>, batch: seq<string>): seq<Outcome>
    decreases |batch|
  {
    if batch == [] then []
    else
      var o := sv.run(h, batch[0]);
      [o] + if o.Rows? then Outcomes(sv, h + [batch[0]], batch[1..]) else []
  }

  /** A statement that the server ran, and the history it ran under. */
  datatype Run = Run(history: seq<string>, text: string)

  /** A batch that the server refused as a whole, the history at that time, and the
      message it gave. */
  datatype Refusal = Refusal(history: seq<string>, batch: seq<string>, message: string)

  /** The server did refuse that. */
  ghost predicate Genuine(sv: Server, r: Refusal) { sv.reject(r.history, r.batch) == Some(r.message) }

  /** The statements of a batch that are run. */
  function Runs(sv: Server, h: seq<string>, batch: seq<string>): seq<Run>
    decreases |batch|
  {
    if batch == [] then []
    else [Run(h, batch[0])] + if sv.run(h, batch[0]).Rows? then Runs(sv, h + [batch[0]], batch[1..]) else []
  }

  /** Every statement succeeds when they are run one at a time from `h`. */
  predicate AllOk(sv: Server, h: seq<string>, stmts: seq<string>)
    decreases |stmts|
  {
    stmts == [] || (sv.run(h, stmts[0]).Rows? && AllOk(sv, h + [stmts[0]], stmts[1..]))
  }

  /** A batch is refused as a whole only if one of its statements fails when run
      alone, both before and after the refused attempt. */
  ghost predicate Faithful(sv: Server) {
    forall h, batch :: |batch| > 1 && sv.reject(h, batch).Some? ==>
      !AllOk(sv, h, batch) && !AllOk(sv, sv.undo(h, batch), batch)
  }

  /** A batch that is refused as a whole leaves no trace. */
  ghost predicate Restores(sv: Server) {
    forall h, batch :: sv.reject(h, batch).Some? ==> sv.undo(h, batch) == h
  }

  lemma {:induction false} AllOkSplit(sv: Server, h: seq<string>, a: seq<string>, b: seq<string>)
    ensures AllOk(sv, h, a + b) <==> AllOk(sv, h, a) && AllOk(sv, h + a, b)
    decreases |a|
  {
    if a == [] {
      assert a + b == b && h + a == h;
    } else {
      assert (a + b)[1..] == a[1..] + b;
      assert h + [a[0]] + a[1..] == h + a;
      AllOkSplit(sv, h + [a[0]], a[1..], b);
    }
  }

  lemma {:induction false} AllOkAt(sv: Server, h: seq<string>, a: seq<string>, i: nat)
    requires AllOk(sv, h, a) && i < |a|
    ensures sv.run(h + a[..i], a[i]).Rows?
  {
    assert a == a[..i] + a[i..];
    AllOkSplit(sv, h, a[..i], a[i..]);
  }

  /** The connection: results computed but not yet fetched, and whether the null
      result that closes the current command is still to come.  `trace` records every
      statement that was run, `refusals` every batch that was refused.  Whether fetching
      a result would block is a matter of timing: `busy` tells it for each time that the
      connection is asked, and `asked` counts these. */
  class Session {
    const server: Server
    const busy: nat -> bool
    var asked: nat
    var history: seq<string>
    var replies: seq<Outcome>
    var open: bool
    var trace: seq<Run>
    var refusals: seq<Refusal>

    constructor (server: Server, busy: nat -> bool)
      ensures this.server == server && this.busy == busy && history == [] && replies == [] && !open && trace == [] && refusals == []
    {
      this.server, this.busy, asked := server, busy, 0;
      history, replies, open, trace, refusals := [], [], false, [], [];
    }

    /** Send a batch; `dummy` says that the dummy query is put in front of it.
        libpq refuses a new command while the last one is not closed. */
    method StartExec(dummy: bool, batch: seq<string>)
      requires !open
      modifies this`history, this`replies, this`open, this`trace, this`refusals
      ensures open
      ensures dummy && server.reject(old(history), batch).Some? ==>
        && replies == [SqlError(server.reject(old(history), batch).value)] && history == server.undo(old(history), batch)
        && trace == old(trace)
        && refusals == old(refusals) + [Refusal(old(history), batch, server.reject(old(history), batch).value)]
      ensures !(dummy && server.reject(old(history), batch).Some?) ==>
        && replies == (if dummy then [Rows(DUMMY_VALUE)] else []) + Outcomes(server, old(history), batch)
        && history == (if AllOk(server, old(history), batch) then old(history) + batch else server.undo(old(history), batch))
        && trace == old(trace) + Runs(server, old(history), batch) && refusals == old(refusals)
    {
      open := true;
      if dummy && server.reject(history, batch).Some? {
        replies := [SqlError(server.reject(history, batch).value)];
        refusals := refusals + [Refusal(history, batch, server.reject(history, batch).value)];
        history := server.undo(history, batch);
      } else {
        replies := (if dummy then [Rows(DUMMY_VALUE)] else []) + Outcomes(server, history, batch);
        trace := trace + Runs(server, history, batch);
        history := if AllOk(server, history, batch) then history + batch else server.undo(history, batch);
      }
    }

    /** The next result, or the null that closes the command. */
    method GetResult() returns (r: Option<Outcome>)
      modifies this`replies, this`open
      ensures old(replies) != [] ==> r == Some(old(replies)[0]) && replies == old(replies)[1..] && open == old(open)
      ensures old(replies) == [] ==> r.None? && replies == [] && !open
    {
      if replies != [] {
        r := Some(replies[0]);
        replies := replies[1..];
      } else {
        r, open := None, false;
      }
    }

    /** Whether fetching a result would block now. */
    method IsBusy() returns (r: bool)
      modifies this`asked
      ensures asked == old(asked) + 1 && r == busy(old(asked))
    {
      r := busy(asked);
      asked := asked + 1;
    }

    /** One statement, run and answered at once. */
    method Exec(stmt: string) returns (o: Outcome)
      requires !open
      modifies this`history, this`trace
      ensures o == server.run(old(history), stmt) && trace == old(trace) + [Run(old(history), stmt)]
      ensures history == if o.Rows? then old(history) + [stmt] else server.undo(old(history), [stmt])
    {
      o := server.run(history, stmt);
      trace := trace + [Run(history, stmt)];
      history := if o.Rows? then history + [stmt] else server.undo(history, [stmt]);
    }
  }
}
