/** Transactions (libpqxx/src/transaction_base.cxx) with the plain and the robust
    commit protocol (libpqxx/src/transaction.cxx, libpqxx/src/robusttransaction.cxx). */
module Transactions {
  import opened Options

  datatype Command = Query(text: string) | CheckConstraints | Commit | Rollback

  /** What becomes of a command: done; an SQL error; completion unknown on a working
      connection; or the connection breaks.  In the last two cases `took` says whether
      the command took effect on the server. */
  datatype Fate = Done | Error(message: string) | Unclear(took: bool) | Lost(took: bool)

  /** What an attempt to look up a transaction's status yields: no connection, an
      exception of another kind, or a status. */
  datatype Answer = NoConnection | Throws(message: string) | Text(text: string)

  /** A message passed on to the connection's notice handlers: a pending error, or a
      remark of another kind. */
  datatype Notice = PendingNotice(message: string) | Remark(text: string)

  datatype Exception =
    | Pending(message: string)
    | SqlError(message: string)
    | CompletionUnknown
    | BrokenConnection
    | UsageError
    | Failure
    | InternalError
    | InDoubtError

  datatype Status = Active | Aborted | Committed | InDoubt

  datatype TxStat = TxUnknown | TxCommitted | TxAborted | TxInProgress

  const MAX_ATTEMPTS := 500

  function ParseStatus(text: string): TxStat
    requires text != ""
  {
    if text == "aborted" then TxAborted
    else if text == "committed" then TxCommitted
    else if text == "in progress" then TxInProgress
    else TxUnknown
  }

  /** The connection, the server's side of the transaction, and the answers to status
      lookups made over new connections. */
  class Connection {
    const script: seq<Fate>
    const answers: seq<Answer>
    // A broken connection is not usable again.
    const staysLost: bool
    var open: bool
    var count: nat
    var sent: seq<Command>
    var committed: bool
    var notices: seq<Notice>

    constructor (script: seq<Fate>, answers: seq<Answer>, staysLost: bool)
      ensures this.script == script && this.answers == answers && this.staysLost == staysLost
      ensures open && sent == [] && !committed && notices == [] && count == 0
    {
      this.script, this.answers, this.staysLost := script, answers, staysLost;
      open, count, sent, committed, notices := true, 0, [], false, [];
    }

    /** What becomes of the next command. */
    function NextFate(): Fate reads this { FateOf(script, count) }

    /** What decides how a commit goes from here. */
    ghost function Now(robust: bool): Setting
      reads this`count
    {
      Setting(script, answers, staysLost, robust, count)
    }

    /** As many commands were counted as were sent. */
    twostate predicate Counted()
      reads this`sent, this`count
    {
      count == old(count) + |sent| - |old(sent)|
    }

    /** What sending `cmd` does. */
    twostate predicate Ran(cmd: Command, new e: Option<Exception>)
      reads this
    {
      if !old(open) then e == Some(BrokenConnection) && !open && sent == old(sent) && committed == old(committed) && count == old(count)
      else
        && sent == old(sent) + [cmd] && count == old(count) + 1
        && open == !(old(NextFate()).Lost? && staysLost)
        && e == Raised(old(NextFate()))
        && committed == (old(committed) || (cmd.Commit? && Takes(old(NextFate()))))
    }

    method Exec(cmd: Command) returns (e: Option<Exception>)
      modifies this`open, this`count, this`sent, this`committed
      ensures Ran(cmd, e)
    {
      if !open {
        return Some(BrokenConnection);
      }
      var fate := NextFate();
      count := count + 1;
      sent := sent + [cmd];
      if cmd.Commit? && Takes(fate) {
        committed := true;
      }
      if fate.Lost? {
        open := !staysLost;
      }
      return Raised(fate);
    }

    method ProcessNotice(notice: Notice)
      modifies this`notices
      ensures notices == old(notices) + [notice]
    {
      notices := notices + [notice];
    }
  }

  /** What decides how a commit goes: what becomes of the commands, of which the next one is
      number `count`, and of the status lookups. */
  datatype Setting = Setting(script: seq<Fate>, answers: seq<Answer>, staysLost: bool, robust: bool, count: nat)
  {
    /** What becomes of the constraint check that a robust transaction makes first. */
    function Check(): Fate { if robust then FateOf(script, count) else Done }

    /** What becomes of COMMIT, if it is sent. */
    function CommitFate(): Fate { FateOf(script, if robust then count + 1 else count) }

    /** The server commits. */
    predicate TakesEffect() { Check().Done? && Takes(CommitFate()) }

    /** The outcome has to be looked up. */
    predicate Open() { robust && Check().Done? && CommitFate().Lost? }

    /** COMMIT is answered; or it is lost, and the first lookup to decide says "committed",
        or says "aborted" and the ROLLBACK that follows goes through. */
    ghost predicate Succeeds() {
      && Check().Done?
      && (CommitFate().Done?
          || (Open() && (Confirms(script, answers, !staysLost, 0, count + 2) || RollsBack(script, answers, !staysLost, 0, count + 2))))
    }

    /** A robust commit is lost, and no lookup decides; a plain one is lost with its
        connection, or is not known to have completed. */
    ghost predicate Doubts() {
      if robust then Open() && NoneDecides(script, answers, !staysLost, 0, count + 2)
      else CommitFate().Unclear? || (CommitFate().Lost? && staysLost)
    }

    /** The status after the commit. */
    ghost function Result(): Status { if Succeeds() then Committed else if Doubts() then InDoubt else Aborted }

    /** The connection breaks on COMMIT but comes back, and a ROLLBACK after the answer
        "aborted" succeeds. */
    ghost predicate Misreports() { Open() && RollsBack(script, answers, !staysLost, 0, count + 2) }

    /** A commit takes effect on the server and yet counts as aborted: it loses a connection
        that comes back, and is not followed up; its completion is unknown on a working
        connection; or the lookups that should settle it fail. */
    ghost predicate Denies() {
      if robust then
        && Check().Done?
        && (CommitFate() == Unclear(true)
            || (CommitFate() == Lost(true) && LookupsFail(script, answers, !staysLost, 0, count + 2)))
      else !staysLost && CommitFate() == Lost(true)
    }

    /** The notices of a plain commit that ends in doubt: the exception's text, and a warning. */
    function Remarks(): seq<Notice> {
      if robust then []
      else if CommitFate().Unclear? then [Remark(""), Remark("commit status of transaction is unknown")]
      else if CommitFate().Lost? && staysLost then [Remark(""), Remark("connection lost while committing")]
      else []
    }

    /** The exception of the commit.  That of a failing ROLLBACK takes the place of the one that
        it follows. */
    function Throws(): Option<Exception> {
      if !robust then
        if CommitFate().Unclear? || (CommitFate().Lost? && staysLost) then Some(InDoubtError) else Raised(CommitFate())
      else if !Check().Done? then
        if Check().Lost? && staysLost then Some(BrokenConnection) else Either(Raised(FateOf(script, count + 1)), Raised(Check()))
      else if CommitFate().Lost? then ResultOf(Settle(script, answers, !staysLost, 0, count + 2))
      else if CommitFate().Done? then None
      else Either(Raised(FateOf(script, count + 2)), Raised(CommitFate()))
    }

    /** The commands that the commit sends.  A robust one that fails is followed by ROLLBACK
        while the connection works; one that is lost, by one ROLLBACK after each "aborted". */
    ghost predicate Sends(sent: seq<Command>) {
      if !robust then sent == [Command.Commit]
      else if !Check().Done? then sent == [CheckConstraints] + if Check().Lost? && staysLost then [] else [Rollback]
      else if CommitFate().Done? then sent == [CheckConstraints, Command.Commit]
      else if !CommitFate().Lost? then sent == [CheckConstraints, Command.Commit, Rollback]
      else
        && 2 <= |sent| && sent[0] == CheckConstraints && sent[1] == Command.Commit && (staysLost ==> |sent| == 2)
        && forall i :: 2 <= i < |sent| ==> sent[i] == Rollback
    }
  }

  function Either(x: Option<Exception>, e: Option<Exception>): Option<Exception> { if x.Some? then x else e }

  /** What a rollback reports: a pending error, which keeps it from being sent, or its own
      failure. */
  function Complaint(held: string, open: bool, fate: Fate): seq<Notice> {
    if held != "" then [PendingNotice(held)] else if open && fate.Done? then [] else [Remark("")]
  }

  /** What closing reports: a pending error, and if the transaction is still active, a focus
      that is still open and what the rollback reports. */
  function Parting(held: string, focus: Option<int>, status: Status, open: bool, fate: Fate): seq<Notice> {
    (if held == "" then [] else [PendingNotice(held)])
    + if status.Active? then (if focus.Some? then [Remark("closing with focus still open")] else []) + Complaint("", open, fate) else []
  }

  function Raised(fate: Fate): Option<Exception> {
    match fate
    case Done => None
    case Error(message) => Some(SqlError(message))
    case Unclear(_) => Some(CompletionUnknown)
    case Lost(_) => Some(BrokenConnection)
  }

  predicate Takes(fate: Fate) { fate.Done? || ((fate.Unclear? || fate.Lost?) && fate.took) }

  /** Status lookups tell the truth about what the server did. */
  ghost predicate Truthful(answers: seq<Answer>, committed: bool) {
    forall i :: 0 <= i < |answers| ==>
      && (answers[i] == Text("committed") ==> committed)
      && (answers[i] == Text("aborted") ==> !committed)
  }

  /** What becomes of the `k`-th command. */
  function FateOf(script: seq<Fate>, k: nat): Fate { if k < |script| then script[k] else Done }

  datatype Verdict = SaysCommitted | RolledBack | Fails(e: Exception) | SaysNothing | Garbled

  /** How the lookups from number `attempts` on settle the fate of a lost commit.  After
      "aborted" a ROLLBACK is tried.  While the connection is not `usable` that is in
      vain, and the lookups go on; otherwise the ROLLBACK is command number `count`. */
  function Settle(script: seq<Fate>, answers: seq<Answer>, usable: bool, attempts: nat, count: nat): Verdict
    decreases MAX_ATTEMPTS - attempts
  {
    if attempts >= MAX_ATTEMPTS then SaysNothing
    else
      match Lookup(answers, attempts)
      case NoConnection => Settle(script, answers, usable, attempts + 1, count)
      case Throws(message) => Fails(SqlError(message))
      case Text(text) =>
        if text == "" || ParseStatus(text).TxUnknown? then Garbled
        else if ParseStatus(text).TxCommitted? then SaysCommitted
        else if ParseStatus(text).TxInProgress? || !usable then Settle(script, answers, usable, attempts + 1, count)
        else
          match FateOf(script, count)
          case Done => RolledBack
          case Lost(_) => Settle(script, answers, usable, attempts + 1, count + 1)
          case fate => Fails(Raised(fate).value)
  }

  /** The answer to the `k`-th lookup. */
  function Lookup(answers: seq<Answer>, k: nat): Answer {
    if k < |answers| then answers[k] else NoConnection
  }

  class Transaction {
    const conn: Connection
    const robust: bool
    var status: Status
    var focus: Option<int>
    var registered: bool
    var pendingError: string

    /** The commit command goes out at most once, and only while active.  The status
        agrees with what the server did, provided that lookups are truthful and a broken
        connection stays broken. */
    ghost predicate Orderly()
      reads this`status, conn`sent, conn`committed, conn`count
    {
      && conn.count == |conn.sent|
      && Commits(conn.sent) <= 1
      && (status.Active? ==> Commits(conn.sent) == 0 && !conn.committed)
      && (status.Committed? && conn.staysLost && Truthful(conn.answers, conn.committed) ==> conn.committed)
      && (status.Aborted? && conn.staysLost && Plain(conn.script, conn.answers) ==> !conn.committed)
    }

    ghost predicate Valid()
      reads this, conn
    {
      Orderly()
    }

    /** Robust transactions do not register with their connection. */
    constructor (conn: Connection, robust: bool)
      requires conn.sent == [] && conn.count == 0 && !conn.committed
      ensures Valid() && this.conn == conn && this.robust == robust
      ensures status == Active && focus == None && registered == !robust && pendingError == ""
    {
      this.conn, this.robust := conn, robust;
      status, focus, registered, pendingError := Active, None, !robust, "";
    }

    /** Take the pending error, if any, as an exception. */
    method CheckPendingError() returns (e: Option<Exception>)
      modifies this`pendingError
      ensures pendingError == ""
      ensures e == if old(pendingError) == "" then None else Some(Pending(old(pendingError)))
    {
      if pendingError == "" {
        return None;
      }
      e := Some(Pending(pendingError));
      pendingError := "";
    }

    method DirectExec(cmd: Command) returns (e: Option<Exception>)
      modifies this`pendingError, conn`open, conn`count, conn`sent, conn`committed
      ensures pendingError == ""
      ensures if old(pendingError) != "" then e == Some(Pending(old(pendingError))) && unchanged(conn) else conn.Ran(cmd, e)
    {
      e := CheckPendingError();
      if e.None? {
        e := conn.Exec(cmd);
      }
    }

    method DoAbort() returns (e: Option<Exception>)
      modifies this`pendingError, conn`open, conn`count, conn`sent, conn`committed
      ensures pendingError == ""
      ensures if old(pendingError) != "" then e == Some(Pending(old(pendingError))) && unchanged(conn) else conn.Ran(Rollback, e)
    {
      e := DirectExec(Rollback);
    }

    /** Roll back.  A pending error comes first: it is reported, and ROLLBACK is not sent. */
    method Abort() returns (e: Option<Exception>)
      requires Valid()
      modifies this`status, this`registered, this`pendingError, conn
      ensures Valid()
      ensures e == if old(status).Committed? then Some(UsageError) else None
      ensures status == if old(status).Active? then Aborted else old(status)
      ensures old(status).Active? ==> !registered && pendingError == ""
      ensures !old(status).Active? ==> conn.sent == old(conn.sent) && registered == old(registered) && pendingError == old(pendingError)
      ensures old(status).Active? ==>
        conn.sent == old(conn.sent) + if old(pendingError) == "" && old(conn.open) then [Rollback] else []
      ensures conn.committed == old(conn.committed)
      ensures PendingIn(conn.notices) == PendingIn(old(conn.notices)) + if old(status).Active? then Held(old(pendingError)) else []
      ensures old(status).Active? ==> conn.notices == old(conn.notices) + Complaint(old(pendingError), old(conn.open), old(conn.NextFate()))
      ensures old(status).InDoubt? ==> conn.notices == old(conn.notices) + [Remark("aborted after going into indeterminate state")]
      ensures old(status).Aborted? || old(status).Committed? ==> conn.notices == old(conn.notices)
      decreases if status.Active? then 2 else 0
    {
      hide Plain, Truthful, Commits, PendingIn;
      match status {
        case Active =>
          RollBack();
        case Aborted =>
          assert PendingIn(conn.notices) + [] == PendingIn(conn.notices);
          return None;
        case Committed =>
          assert PendingIn(conn.notices) + [] == PendingIn(conn.notices);
          return Some(UsageError);
        case InDoubt =>
          PendingInSnoc(conn.notices, Remark("aborted after going into indeterminate state"));
          conn.ProcessNotice(Remark("aborted after going into indeterminate state"));
          return None;
      }
      status := Aborted;
      Close();
      e := None;
    }

    /** Try to roll back; what goes wrong is only reported. */
    method RollBack()
      modifies this`pendingError, conn
      ensures pendingError == ""
      ensures conn.sent == old(conn.sent) + if old(pendingError) == "" && old(conn.open) then [Rollback] else []
      ensures conn.Counted()
      ensures Commits(conn.sent) == Commits(old(conn.sent)) && conn.committed == old(conn.committed)
      ensures conn.notices == old(conn.notices) + Complaint(old(pendingError), old(conn.open), old(conn.NextFate()))
      ensures PendingIn(conn.notices) == PendingIn(old(conn.notices)) + Held(old(pendingError))
    {
      hide PendingIn;
      var x := DoAbort();
      if x.Some? {
        PendingInSnoc(conn.notices, NoticeOf(x.value));
        conn.ProcessNotice(NoticeOf(x.value));
      }
      CommitsExtend(old(conn.sent), conn.sent);
    }

    /** Close the transaction, rolling back if it is still active. */
    method Close()
      requires Valid()
      modifies this`status, this`registered, this`pendingError, conn
      ensures Valid() && !registered && pendingError == ""
      ensures status == if old(status).Active? then Aborted else old(status)
      ensures conn.sent == old(conn.sent) + if old(status).Active? && old(conn.open) then [Rollback] else []
      ensures conn.committed == old(conn.committed)
      ensures conn.notices == old(conn.notices) + Parting(old(pendingError), focus, old(status), old(conn.open), old(conn.NextFate()))
      ensures PendingIn(conn.notices) == PendingIn(old(conn.notices)) + Held(old(pendingError))
      decreases if status.Active? then 3 else 1
    {
      hide Orderly, PendingIn;
      SignOff();
      ghost var n := conn.notices;
      if !status.Active? {
        return;
      }
      if focus.Some? {
        PendingInSnoc(conn.notices, Remark("closing with focus still open"));
        conn.ProcessNotice(Remark("closing with focus still open"));
      }
      assert PendingIn(conn.notices) == PendingIn(n);
      var y := Abort();
      if y.Some? {
        assert false;  // aborting an active transaction throws nothing
      }
    }

    /** Report a pending error, once, and leave the connection's books. */
    method SignOff()
      modifies this`registered, this`pendingError, conn`notices
      ensures !registered && pendingError == ""
      ensures conn.notices == old(conn.notices) + if old(pendingError) == "" then [] else [PendingNotice(old(pendingError))]
      ensures PendingIn(conn.notices) == PendingIn(old(conn.notices)) + Held(old(pendingError))
    {
      hide PendingIn;
      var x := CheckPendingError();
      if x.Some? {
        PendingInSnoc(conn.notices, NoticeOf(x.value));
        conn.ProcessNotice(NoticeOf(x.value));
      }
      registered := false;
    }

    /** Pass on an exception's text and a warning. */
    method Warn(e: Exception, warning: string)
      requires !e.Pending?
      modifies conn`notices
      ensures conn.notices == old(conn.notices) + [Remark(""), Remark(warning)]
      ensures PendingIn(conn.notices) == PendingIn(old(conn.notices))
    {
      hide PendingIn;
      PendingInSnoc(conn.notices, NoticeOf(e));
      conn.ProcessNotice(NoticeOf(e));
      PendingInSnoc(conn.notices, Remark(warning));
      conn.ProcessNotice(Remark(warning));
    }

    /** The plain commit: without an answer, the outcome is in doubt. */
    method DoCommitPlain() returns (e: Option<Exception>)
      requires pendingError == ""
      modifies this`pendingError, conn
      ensures pendingError == "" && Carried(e) == [] && Outcome(e)
      ensures old(conn.open) ==> Ends(old(conn.Now(false)), e) && conn.notices == old(conn.notices) + old(conn.Now(false)).Remarks()
      ensures Commits(conn.sent) <= Commits(old(conn.sent)) + 1
      ensures Silent() && conn.Counted()
    {
      hide Commits, PendingIn;
      e := DirectExec(Command.Commit);
      CommitsExtend(old(conn.sent), conn.sent);
      if e.Some? {
        if e.value.CompletionUnknown? {
          Warn(e.value, "commit status of transaction is unknown");
          return Some(InDoubtError);
        }
        if !conn.open {
          Warn(e.value, "connection lost while committing");
          return Some(InDoubtError);
        }
      }
    }

    /** Commands and notices were only added, and no pending error among them. */
    twostate predicate Silent()
      reads conn
    {
      && old(conn.sent) <= conn.sent && old(conn.notices) <= conn.notices
      && PendingIn(conn.notices) == PendingIn(old(conn.notices))
    }

    /** The commit went as it had to: with what result, what it did to the server, and what
        it sent. */
    twostate predicate Ends(new w: Setting, new e: Option<Exception>)
      reads conn
    {
      && (e.None? <==> w.Succeeds())
      && (e == Some(InDoubtError) <==> w.Doubts())
      && e == w.Throws()
      && conn.committed == (old(conn.committed) || w.TakesEffect())
      && old(conn.sent) <= conn.sent && w.Sends(conn.sent[|old(conn.sent)|..])
    }

    /** What the result of a commit says about the server, provided that lookups are
        truthful and a broken connection stays broken. */
    twostate predicate Outcome(new e: Option<Exception>)
      reads conn
    {
      conn.staysLost && !old(conn.committed) ==>
        && (e.None? && Truthful(conn.answers, conn.committed) ==> conn.committed)
        && (e.Some? && !e.value.InDoubtError? && Plain(conn.script, conn.answers) ==> !conn.committed)
    }

    /** What an operation does to the transaction. */
    twostate predicate Did(new op: TxOp, new e: Option<Exception>)
      reads this, conn
    {
      var w, held, before, open := old(conn.Now(robust)), old(pendingError), old(status), old(conn.open);
      && Valid() && old(conn.sent) <= conn.sent
      && conn.notices == old(conn.notices) + Reports(w, op, held, old(focus), before, open)
      && pendingError == HeldAfter(op, held, before.Active?) && focus == FocusAfter(op, old(focus))
      && Carried(e) == Thrown(op, held)
      && PendingIn(conn.notices) == PendingIn(old(conn.notices)) + Noticed(op, held, before.Active?)
      && (Commits(conn.sent) > Commits(old(conn.sent)) ==> op.DoCommit? && old(focus).None? && held == "" && before.Active?)
      && StatusLaw(w, op, held, old(focus), before, open, Entry(e, status, [], [], false))
      && ResultLaw(w, op, held, old(focus), before, open, e)
      && SentLaw(w, op, held, old(focus), before, open, conn.sent[|old(conn.sent)|..])
      && conn.committed == (old(conn.committed) || CommitTakes(w, op, held, old(focus), before, open))
      && (!before.Active? ==> conn.sent == old(conn.sent))
    }

    /** Ask for the transaction's status until an answer settles it. */
    method ResolveDoubt() returns (e: Option<Exception>)
      requires pendingError == "" && conn.open == !conn.staysLost
      modifies this`pendingError, conn`open, conn`count, conn`sent, conn`committed
      ensures pendingError == "" && old(conn.sent) <= conn.sent && conn.Counted()
      ensures (forall i :: |old(conn.sent)| <= i < |conn.sent| ==> conn.sent[i] == Rollback)
      ensures !old(conn.open) ==> conn.sent == old(conn.sent)
      ensures e == ResultOf(Settle(conn.script, conn.answers, old(conn.open), 0, old(conn.count)))
      ensures conn.committed == old(conn.committed) && Commits(conn.sent) == Commits(old(conn.sent))
    {
      hide Commits;
      for attempts := 0 to MAX_ATTEMPTS
        invariant pendingError == "" && conn.open == old(conn.open) && old(conn.sent) <= conn.sent && conn.Counted()
        invariant forall i :: |old(conn.sent)| <= i < |conn.sent| ==> conn.sent[i] == Rollback
        invariant !old(conn.open) ==> conn.sent == old(conn.sent)
        invariant conn.committed == old(conn.committed) && Commits(conn.sent) == Commits(old(conn.sent))
        invariant Settle(conn.script, conn.answers, old(conn.open), 0, old(conn.count))
               == Settle(conn.script, conn.answers, old(conn.open), attempts, conn.count)
      {
        var answer := Lookup(conn.answers, attempts);
        if answer.Throws? {
          return Some(SqlError(answer.message));
        }
        if answer.Text? {
          if answer.text == "" || ParseStatus(answer.text).TxUnknown? {
            return Some(InternalError);
          }
          match ParseStatus(answer.text) {
            case TxUnknown => assert false;  // the lookup has thrown already
            case TxCommitted => return None;
            case TxAborted =>
              ghost var before := conn.sent;
              var x := DoAbort();
              CommitsExtend(before, conn.sent);
              if x.None? {
                return None;
              }
              if !x.value.BrokenConnection? {
                return x;
              }
            case TxInProgress =>
          }
        }
      }
      return Some(InDoubtError);
    }

    /** The robust commit: constraints first, and lookups if the connection breaks. */
    method DoCommitRobust() returns (e: Option<Exception>)
      requires pendingError == ""
      modifies this`pendingError, conn`open, conn`count, conn`sent, conn`committed
      ensures pendingError == "" && Carried(e) == [] && Outcome(e) && old(conn.sent) <= conn.sent && conn.Counted()
      ensures old(conn.open) ==> Ends(old(conn.Now(true)), e)
      ensures old(conn.open) && !old(conn.committed) && Truthful(conn.answers, conn.committed) ==>
        (e.None? && !conn.committed <==> old(conn.Now(true)).Misreports())
      ensures Commits(conn.sent) <= Commits(old(conn.sent)) + 1
    {
      hide Commits, Truthful, Plain, Setting.Succeeds, Setting.Doubts, Setting.Misreports;
      ghost var w := conn.Now(true);
      e := DirectExec(CheckConstraints);
      CommitsExtend(old(conn.sent), conn.sent);
      ghost var before := conn.sent;
      if e.Some? {
        var x := DoAbort();
        CommitsExtend(before, conn.sent);
        if old(conn.open) {
          NotChecked(w);
          assert conn.sent[|old(conn.sent)|..] == [CheckConstraints] + conn.sent[|before|..];
          assert conn.sent[|before|..] == if w.Check().Lost? && w.staysLost then [] else [Rollback];
        }
        return if x.Some? then x else e;
      }
      e := CommitChecked(w);
      assert conn.sent[|old(conn.sent)|..] == [CheckConstraints] + conn.sent[|before|..];
      ResultTruth(w);
    }

    /** COMMIT, after the constraint check `w` went well. */
    method CommitChecked(ghost w: Setting) returns (e: Option<Exception>)
      requires pendingError == "" && conn.open && 0 < conn.count
      requires w == Setting(conn.script, conn.answers, conn.staysLost, true, conn.count - 1)
      requires w.Check().Done?
      modifies this`pendingError, conn`open, conn`count, conn`sent, conn`committed
      ensures pendingError == "" && Carried(e) == [] && old(conn.sent) <= conn.sent && conn.Counted()
      ensures (e.None? <==> w.Succeeds()) && (e == Some(InDoubtError) <==> w.Doubts()) && e == w.Throws()
      ensures conn.committed == (old(conn.committed) || w.TakesEffect())
      ensures w.Sends([CheckConstraints] + conn.sent[|old(conn.sent)|..])
      ensures Commits(conn.sent) == Commits(old(conn.sent)) + 1
    {
      hide Commits, FirstAt, Settle;
      e := DirectExec(Command.Commit);
      CommitsExtend(old(conn.sent), conn.sent);
      ghost var before := conn.sent;
      if e.None? {
        return;
      }
      if !e.value.BrokenConnection? && conn.open {
        var x := DoAbort();
        CommitsExtend(before, conn.sent);
        return if x.Some? then x else e;
      }
      ghost var usable, count := conn.open, conn.count;
      e := ResolveDoubt();
      Settled(conn.script, conn.answers, usable, count, conn.committed);
      SettleCommitted(conn.script, conn.answers, usable, 0, count);
      SettleRolledBack(conn.script, conn.answers, usable, 0, count);
      SettleNothing(conn.script, conn.answers, usable, 0, count);
    }

    method Commit() returns (e: Option<Exception>)
      requires Valid()
      modifies this`status, this`registered, this`pendingError, conn
      ensures Valid() && pendingError == "" && Silent()
      ensures Carried(e) == Held(old(pendingError))
      ensures !old(status).Active? ==> status == old(status) && conn.sent == old(conn.sent)
      ensures old(pendingError) != "" ==> e == Some(Pending(old(pendingError))) && status == old(status) && conn.sent == old(conn.sent)
      ensures !old(Proceeds(pendingError, focus, status, conn.open)) ==> conn.committed == old(conn.committed)
      ensures old(focus).Some? || !old(conn.open) ==> status == old(status) && conn.sent == old(conn.sent)
      ensures old(pendingError) == "" && !old(status).Active? ==>
        e == if old(status).Aborted? then Some(UsageError) else if old(status).InDoubt? then Some(InDoubtError) else None
      ensures old(pendingError) == "" && old(status).Active? && old(focus).Some? ==> e == Some(Failure)
      ensures old(pendingError) == "" && old(status).Active? && old(focus).None? && !old(conn.open) ==> e == Some(BrokenConnection)
      ensures robust && old(status).Active? && old(pendingError) == "" && old(focus).None? && old(conn.open) ==>
        (Truthful(conn.answers, conn.committed) ==> (status.Committed? && !conn.committed <==> old(conn.Now(robust)).Misreports()))
      ensures old(status).Active? && old(pendingError) == "" && old(focus).None? && old(conn.open) ==>
        && status == old(conn.Now(robust)).Result()
        && Ends(old(conn.Now(robust)), e)
        && (status.Aborted? && conn.committed <==> old(conn.Now(robust)).Denies())
        && (status.Committed? <==> e.None?)
        && (status.InDoubt? <==> e == Some(InDoubtError))
      ensures registered == if !old(status).Committed? && status.Committed? then false else old(registered)
      ensures conn.notices == old(conn.notices) +
        if old(Proceeds(pendingError, focus, status, conn.open)) then old(conn.Now(robust)).Remarks()
        else if old(status).Committed? && old(pendingError) == "" then [Remark("committed more than once")]
        else []
    {
      hide Commits, Plain, Truthful, PendingIn, Setting.Succeeds, Setting.Doubts, Setting.Denies, Setting.Misreports, Setting.Sends, Complaint, FateOf, Raised;
      e := CheckPendingError();
      if e.Some? {
        return;
      }
      match status {
        case Active =>
        case Aborted => return Some(UsageError);
        case Committed =>
          PendingInSnoc(conn.notices, Remark("committed more than once"));
          conn.ProcessNotice(Remark("committed more than once"));
          return None;
        case InDoubt => return Some(InDoubtError);
      }
      if focus.Some? {
        return Some(Failure);
      }
      if !conn.open {
        return Some(BrokenConnection);
      }
      ResultIs(conn.Now(robust));
      if robust {
        e := DoCommitRobust();
      } else {
        e := DoCommitPlain();
      }
      if e.Some? {
        status := if e.value.InDoubtError? then InDoubt else Aborted;
        return;
      }
      status := Committed;
      ghost var sent := conn.sent;
      Close();
      assert sent + [] == sent;
    }

    /** Execute a query, as the one focus of the transaction while it runs. */
    method Exec(text: string) returns (e: Option<Exception>)
      requires Valid()
      modifies this`focus, this`pendingError, conn`open, conn`count, conn`sent, conn`committed
      ensures Valid() && focus == old(focus) && pendingError == "" && old(conn.sent) <= conn.sent
      ensures conn.committed == old(conn.committed)
      ensures Carried(e) == Held(old(pendingError))
      ensures old(pendingError) != "" || old(focus).Some? || !status.Active? || !old(conn.open) ==> e.Some? && conn.sent == old(conn.sent)
      ensures old(pendingError) == "" && old(focus).None? && status.Active? ==> conn.Ran(Query(text), e)
      ensures old(pendingError) == "" && (old(focus).Some? || !status.Active?) ==> e == Some(UsageError)
    {
      hide Plain, Truthful, Commits;
      e := CheckPendingError();
      if e.Some? {
        return;
      }
      if focus.Some? {
        return Some(UsageError);
      }
      focus := Some(0);
      if !status.Active? {
        e := Some(UsageError);
      } else {
        e := DirectExec(Query(text));
        CommitsExtend(old(conn.sent), conn.sent);
      }
      focus := None;
    }

    /** A stream or pipeline becomes the focus, unless there is one. */
    method RegisterFocus(f: int) returns (e: Option<Exception>)
      modifies this`focus
      ensures if old(focus).Some? then e == Some(UsageError) && focus == old(focus) else e.None? && focus == Some(f)
    {
      if focus.Some? {
        return Some(UsageError);
      }
      focus := Some(f);
      e := None;
    }

    /** Only the focus itself can give up its place. */
    method UnregisterFocus(f: int)
      requires Valid()
      modifies this`focus, conn`notices
      ensures Valid() && focus == if old(focus) == Some(f) then None else old(focus)
      ensures conn.notices == if old(focus) == Some(f) then old(conn.notices) else old(conn.notices) + [Remark("closed while not open")]
    {
      if focus == Some(f) {
        focus := None;
      } else {
        conn.ProcessNotice(Remark("closed while not open"));
      }
    }

    /** Hold an error for later.  One that is held already is not overwritten. */
    method RegisterPendingError(err: string)
      requires Valid()
      modifies this`pendingError
      ensures Valid()
      ensures pendingError == if old(pendingError) == "" then err else old(pendingError)
    {
      if pendingError == "" && err != "" {
        pendingError := err;
      }
    }

    /** The destructors: close, then report what is left, which is nothing. */
    method Destroy()
      requires Valid()
      modifies this`status, this`registered, this`pendingError, conn
      ensures Valid() && !registered && pendingError == ""
      ensures status == if old(status).Active? then Aborted else old(status)
      ensures conn.sent == old(conn.sent) + if old(status).Active? && old(conn.open) then [Rollback] else []
      ensures conn.committed == old(conn.committed)
      ensures conn.notices == old(conn.notices) + Parting(old(pendingError), focus, old(status), old(conn.open), old(conn.NextFate()))
      ensures PendingIn(conn.notices) == PendingIn(old(conn.notices)) + Held(old(pendingError))
    {
      Close();
      if pendingError != "" || registered {
        assert false;  // closing has delivered the error and unregistered
      }
    }
  }

  /** The pending error, if there is one. */
  function Held(pendingError: string): seq<string> { if pendingError == "" then [] else [pendingError] }

  function NoticeOf(e: Exception): Notice { if e.Pending? then PendingNotice(e.message) else Remark("") }

  /** The pending errors among notices, in order. */
  function PendingIn(notices: seq<Notice>): seq<string> {
    if notices == [] then []
    else
      var last := notices[|notices| - 1];
      PendingIn(notices[..|notices| - 1]) + if last.PendingNotice? then [last.message] else []
  }

  lemma Cancel(a: seq<string>, b: seq<string>, c: seq<string>)
    requires a + b == a + c
    ensures b == c
  {
    assert b == (a + b)[|a|..] && c == (a + c)[|a|..];
  }

  lemma PendingInSnoc(notices: seq<Notice>, n: Notice)
    ensures PendingIn(notices + [n]) == PendingIn(notices) + if n.PendingNotice? then [n.message] else []
  {
    assert (notices + [n])[..|notices|] == notices;
  }

  lemma {:induction false} PendingInConcat(a: seq<Notice>, b: seq<Notice>)
    ensures PendingIn(a + b) == PendingIn(a) + PendingIn(b)
    decreases |b|
  {
    if b == [] {
      assert a + b == a;
    } else {
      var n := |b| - 1;
      PendingInConcat(a, b[..n]);
      assert (a + b)[..|a + b| - 1] == a + b[..n];
    }
  }

  /** A commit does not both succeed and stay in doubt; what it denies is neither. */
  lemma ResultIs(w: Setting)
    ensures !(w.Succeeds() && w.Doubts())
    ensures w.Denies() <==> w.TakesEffect() && !w.Succeeds() && !w.Doubts()
  {
    hide FirstAt, Settle;
    SettleCommitted(w.script, w.answers, !w.staysLost, 0, w.count + 2);
    SettleRolledBack(w.script, w.answers, !w.staysLost, 0, w.count + 2);
    SettleFails(w.script, w.answers, !w.staysLost, 0, w.count + 2);
    SettleNothing(w.script, w.answers, !w.staysLost, 0, w.count + 2);
  }

  /** Without a good constraint check nothing is committed, and that is what is said. */
  lemma NotChecked(w: Setting)
    requires w.robust && !w.Check().Done?
    ensures !w.Succeeds() && !w.Doubts() && !w.TakesEffect() && !w.Misreports()
  {
  }

  /** What success and failure say about the server. */
  lemma ResultTruth(w: Setting)
    ensures Truthful(w.answers, w.TakesEffect()) ==> (w.Succeeds() && !w.TakesEffect() <==> w.Misreports())
    ensures w.staysLost ==> !w.Misreports()
    ensures w.staysLost && Plain(w.script, w.answers) && !w.Succeeds() && !w.Doubts() ==> !w.TakesEffect()
  {
    hide FirstAt, Settle;
    SettleCommitted(w.script, w.answers, !w.staysLost, 0, w.count + 2);
    SettleRolledBack(w.script, w.answers, !w.staysLost, 0, w.count + 2);
    SettleNothing(w.script, w.answers, !w.staysLost, 0, w.count + 2);
    Settled(w.script, w.answers, !w.staysLost, w.count + 2, w.TakesEffect());
  }

  /** The exception says that nothing was committed. */
  predicate Denied(e: Option<Exception>) { e.Some? && !e.value.InDoubtError? }

  function ResultOf(v: Verdict): Option<Exception> {
    match v
    case SaysCommitted => None
    case RolledBack => None
    case Fails(e) => Some(e)
    case SaysNothing => Some(InDoubtError)
    case Garbled => Some(InternalError)
  }

  /** Nothing leaves the outcome open except a broken connection: commands complete or
      fail, and lookups that get through make sense. */
  ghost predicate Plain(script: seq<Fate>, answers: seq<Answer>) {
    && (forall i :: 0 <= i < |script| ==> !script[i].Unclear?)
    && (forall i :: 0 <= i < |answers| ==> !answers[i].Throws?)
    && (forall i :: 0 <= i < |answers| && answers[i].Text? ==> answers[i].text != "" && !ParseStatus(answers[i].text).TxUnknown?)
  }

  /** Answers after which the next lookup is made. */
  predicate Undecided(a: Answer) { a in {NoConnection, Text("aborted"), Text("in progress")} }

  /** How many of the lookups from `from` up to `k` say "aborted". */
  function Aborts(answers: seq<Answer>, from: nat, k: nat): nat
    decreases k - from
  {
    if from >= k then 0 else (if Lookup(answers, from) == Text("aborted") then 1 else 0) + Aborts(answers, from + 1, k)
  }

  /** Lookup `i`, of those from `from` on, decides nothing: and if the connection is
      usable and a ROLLBACK follows, that loses the connection.  Command number `count` is
      the first such ROLLBACK. */
  ghost predicate PassedOver(script: seq<Fate>, answers: seq<Answer>, usable: bool, from: nat, count: nat, i: nat) {
    && Undecided(Lookup(answers, i))
    && (usable && Lookup(answers, i) == Text("aborted") ==> FateOf(script, count + Aborts(answers, from, i)).Lost?)
  }

  /** Lookup `k` is the first to decide. */
  ghost predicate FirstAt(script: seq<Fate>, answers: seq<Answer>, usable: bool, from: nat, count: nat, k: nat) {
    && from <= k < MAX_ATTEMPTS && !PassedOver(script, answers, usable, from, count, k)
    && forall i :: from <= i < k ==> PassedOver(script, answers, usable, from, count, i)
  }

  /** What becomes of the ROLLBACK after lookup `k`. */
  function RollbackFate(script: seq<Fate>, answers: seq<Answer>, from: nat, count: nat, k: nat): Fate {
    FateOf(script, count + Aborts(answers, from, k))
  }

  /** The first lookup to decide says "committed". */
  ghost predicate Confirms(script: seq<Fate>, answers: seq<Answer>, usable: bool, from: nat, count: nat) {
    exists k :: FirstAt(script, answers, usable, from, count, k) && Lookup(answers, k) == Text("committed")
  }

  /** The first lookup to decide says "aborted", and the ROLLBACK after it succeeds. */
  ghost predicate RollsBack(script: seq<Fate>, answers: seq<Answer>, usable: bool, from: nat, count: nat) {
    exists k :: FirstAt(script, answers, usable, from, count, k)
      && Lookup(answers, k) == Text("aborted") && RollbackFate(script, answers, from, count, k).Done?
  }

  /** The first lookup to decide throws, or yields something that is not a status, or says
      "aborted" and the ROLLBACK after it fails. */
  ghost predicate LookupsFail(script: seq<Fate>, answers: seq<Answer>, usable: bool, from: nat, count: nat) {
    exists k :: FirstAt(script, answers, usable, from, count, k)
      && Lookup(answers, k) != Text("committed")
      && !(Lookup(answers, k) == Text("aborted") && RollbackFate(script, answers, from, count, k).Done?)
  }

  ghost predicate NoneDecides(script: seq<Fate>, answers: seq<Answer>, usable: bool, from: nat, count: nat) {
    forall k :: !FirstAt(script, answers, usable, from, count, k)
  }

  /** The number of the next ROLLBACK, after the lookup `from`. */
  function NextCount(answers: seq<Answer>, usable: bool, from: nat, count: nat): nat {
    count + if usable && Lookup(answers, from) == Text("aborted") then 1 else 0
  }

  /** The verdict is right when lookup `k` is the first to decide. */
  ghost predicate RightVerdict(v: Verdict, script: seq<Fate>, answers: seq<Answer>, from: nat, count: nat, k: nat) {
    && (v.SaysCommitted? <==> Lookup(answers, k) == Text("committed"))
    && (v.RolledBack? <==> Lookup(answers, k) == Text("aborted") && RollbackFate(script, answers, from, count, k).Done?)
    && !v.SaysNothing?
  }

  /** The first lookup to decide gives the verdict; if there is none, nothing is said. */
  lemma {:induction false} SettleFirst(script: seq<Fate>, answers: seq<Answer>, usable: bool, from: nat, count: nat)
    ensures forall k :: FirstAt(script, answers, usable, from, count, k) ==>
      RightVerdict(Settle(script, answers, usable, from, count), script, answers, from, count, k)
    ensures Settle(script, answers, usable, from, count).SaysNothing? <==> NoneDecides(script, answers, usable, from, count)
    decreases MAX_ATTEMPTS - from
  {
    if from < MAX_ATTEMPTS {
      var after, next := from + 1, NextCount(answers, usable, from, count);
      if PassedOver(script, answers, usable, from, count, from) {
        SettleFirst(script, answers, usable, after, next);
        SettleOn(script, answers, usable, from, count);
        hide Settle;
        forall k: nat
          ensures FirstAt(script, answers, usable, from, count, k) <==> FirstAt(script, answers, usable, after, next, k)
          ensures FirstAt(script, answers, usable, after, next, k) && usable ==>
            RollbackFate(script, answers, from, count, k) == RollbackFate(script, answers, after, next, k)
        {
          FirstLater(script, answers, usable, from, count, after, k);
        }
        OnlyUsableAborts(script, answers, usable, after, next);
      } else {
        assert Aborts(answers, from, from) == 0;
        assert FirstAt(script, answers, usable, from, count, from);
        assert forall k :: FirstAt(script, answers, usable, from, count, k) ==> k == from;
      }
    }
  }

  lemma OnlyUsableAborts(script: seq<Fate>, answers: seq<Answer>, usable: bool, from: nat, count: nat)
    ensures forall k :: FirstAt(script, answers, usable, from, count, k) && Lookup(answers, k) == Text("aborted") ==> usable
  {
  }

  lemma FirstLater(script: seq<Fate>, answers: seq<Answer>, usable: bool, from: nat, count: nat, after: nat, k: nat)
    requires after == from + 1 && PassedOver(script, answers, usable, from, count, from)
    ensures var next := NextCount(answers, usable, from, count);
      && (FirstAt(script, answers, usable, from, count, k) <==> FirstAt(script, answers, usable, after, next, k))
      && (from < k && usable ==> RollbackFate(script, answers, from, count, k) == RollbackFate(script, answers, after, next, k))
  {
    if from < k {
      PassedLater(script, answers, usable, from, count, after, k);
      PassedLater(script, answers, usable, from, count, after, k + 1);
      hide PassedOver;
    }
  }

  lemma SettleOn(script: seq<Fate>, answers: seq<Answer>, usable: bool, from: nat, count: nat)
    requires from < MAX_ATTEMPTS && PassedOver(script, answers, usable, from, count, from)
    ensures Settle(script, answers, usable, from, count) ==
      Settle(script, answers, usable, from + 1, NextCount(answers, usable, from, count))
  {
    assert Aborts(answers, from, from) == 0;
  }

  /** The lookups before `k` pass over the same way when the first of them is left out. */
  lemma PassedLater(script: seq<Fate>, answers: seq<Answer>, usable: bool, from: nat, count: nat, after: nat, k: nat)
    requires after == from + 1 <= k && PassedOver(script, answers, usable, from, count, from)
    ensures var next := NextCount(answers, usable, from, count);
      && (usable ==> count + Aborts(answers, from, k) == next + Aborts(answers, after, k))
      && (PassedOver(script, answers, usable, from, count, k) <==> PassedOver(script, answers, usable, after, next, k))
      && ((forall i :: from <= i < k ==> PassedOver(script, answers, usable, from, count, i)) <==>
          (forall i :: after <= i < k ==> PassedOver(script, answers, usable, after, next, i)))
  {
    var next := NextCount(answers, usable, from, count);
    forall i: nat | after <= i
      ensures usable ==> count + Aborts(answers, from, i) == next + Aborts(answers, after, i)
      ensures PassedOver(script, answers, usable, from, count, i) <==> PassedOver(script, answers, usable, after, next, i)
    {
    }
    hide PassedOver, Aborts;
  }

  /** The lookups from number `from` on say "committed" exactly if the first one to decide
      does. */
  lemma SettleCommitted(script: seq<Fate>, answers: seq<Answer>, usable: bool, from: nat, count: nat)
    ensures Settle(script, answers, usable, from, count).SaysCommitted? <==> Confirms(script, answers, usable, from, count)
  {
    hide Settle, FirstAt;
    SettleFirst(script, answers, usable, from, count);
  }

  /** The doubt ends in a ROLLBACK that goes through exactly if the first lookup to decide
      says "aborted" and its ROLLBACK succeeds. */
  lemma SettleRolledBack(script: seq<Fate>, answers: seq<Answer>, usable: bool, from: nat, count: nat)
    ensures Settle(script, answers, usable, from, count).RolledBack? <==> RollsBack(script, answers, usable, from, count)
  {
    hide Settle, FirstAt, RollbackFate;
    SettleFirst(script, answers, usable, from, count);
  }

  /** The doubt ends in a failure that counts as aborted exactly if the first lookup to
      decide says neither. */
  lemma SettleFails(script: seq<Fate>, answers: seq<Answer>, usable: bool, from: nat, count: nat)
    ensures var v := Settle(script, answers, usable, from, count);
      v.Fails? || v.Garbled? <==> LookupsFail(script, answers, usable, from, count)
  {
    hide Settle, FirstAt, RollbackFate;
    SettleFirst(script, answers, usable, from, count);
  }

  /** The doubt stays exactly if no lookup decides. */
  lemma SettleNothing(script: seq<Fate>, answers: seq<Answer>, usable: bool, from: nat, count: nat)
    ensures Settle(script, answers, usable, from, count).SaysNothing? <==> NoneDecides(script, answers, usable, from, count)
  {
    hide Settle, FirstAt;
    SettleFirst(script, answers, usable, from, count);
  }

  /** A verdict of either kind has an answer of that kind behind it. */
  lemma {:induction false} SettleBacked(script: seq<Fate>, answers: seq<Answer>, usable: bool, from: nat, count: nat)
    ensures Settle(script, answers, usable, from, count).SaysCommitted? ==> Text("committed") in answers
    ensures Settle(script, answers, usable, from, count).RolledBack? ==> usable && Text("aborted") in answers
    decreases MAX_ATTEMPTS - from
  {
    if from < MAX_ATTEMPTS {
      SettleBacked(script, answers, usable, from + 1, count);
      SettleBacked(script, answers, usable, from + 1, count + 1);
    }
  }

  /** Truthful lookups settle nothing but the truth, unless a ROLLBACK goes through. */
  lemma Settled(script: seq<Fate>, answers: seq<Answer>, usable: bool, count: nat, committed: bool)
    ensures var v := Settle(script, answers, usable, 0, count);
      && (Truthful(answers, committed) && ResultOf(v).None? ==> (committed <==> !v.RolledBack?))
      && (v.RolledBack? ==> usable)
      && (Plain(script, answers) && !usable ==> ResultOf(v).None? || ResultOf(v).value.InDoubtError?)
      && (ResultOf(v).Some? ==> !ResultOf(v).value.Pending?)
      && (Denied(ResultOf(v)) <==> v.Fails? || v.Garbled?)
  {
    SettleBacked(script, answers, usable, 0, count);
    SettlePlain(script, answers, usable, 0, count);
    hide Settle;
  }

  /** Lookups that make sense never end in an internal error, and then only a usable
      connection can fail to roll back. */
  lemma {:induction false} SettlePlain(script: seq<Fate>, answers: seq<Answer>, usable: bool, from: nat, count: nat)
    ensures Plain([], answers) ==> !Settle(script, answers, usable, from, count).Garbled?
    ensures Settle(script, answers, usable, from, count).Fails? ==>
      && (Plain([], answers) ==> usable)
      && !Settle(script, answers, usable, from, count).e.Pending? && !Settle(script, answers, usable, from, count).e.InDoubtError?
    decreases MAX_ATTEMPTS - from
  {
    if from < MAX_ATTEMPTS {
      SettlePlain(script, answers, usable, from + 1, count);
      SettlePlain(script, answers, usable, from + 1, count + 1);
    }
  }

  /** The pending error that an exception carries. */
  function Carried(e: Option<Exception>): seq<string> {
    if e.Some? && e.value.Pending? then [e.value.message] else []
  }

  lemma CommitsExtend(a: seq<Command>, b: seq<Command>)
    requires b == a || (|b| == |a| + 1 && b[..|a|] == a)
    ensures Commits(b) == Commits(a) + if |a| < |b| && b[|a|].Commit? then 1 else 0
  {
  }

  function Commits(sent: seq<Command>): nat {
    if sent == [] then 0 else Commits(sent[..|sent| - 1]) + if sent[|sent| - 1].Commit? then 1 else 0
  }

  datatype TxOp =
    | DoExec(text: string)
    | DoCommit
    | DoAbortOp
    | DoClose
    | Focus(f: int)
    | Unfocus(f: int)
    | Pend(err: string)

  // ----- the reference: what operations do with pending errors and the focus -----

  /** The error held after an operation; `active` is the status before it. */
  function HeldAfter(op: TxOp, held: string, active: bool): string {
    match op
    case DoExec(_) => ""
    case DoCommit => ""
    case DoAbortOp => if active then "" else held
    case DoClose => ""
    case Pend(err) => if held == "" then err else held
    case _ => held
  }

  /** What an operation takes in, throws at its caller, and reports as a notice. */
  function Accepted(op: TxOp, held: string): seq<string> { if op.Pend? && held == "" then Held(op.err) else [] }

  function Thrown(op: TxOp, held: string): seq<string> { if op.DoExec? || op.DoCommit? then Held(held) else [] }

  function Noticed(op: TxOp, held: string, active: bool): seq<string> {
    if op.DoClose? || (op.DoAbortOp? && active) then Held(held) else []
  }

  function FocusAfter(op: TxOp, focus: Option<int>): Option<int> {
    match op
    case Focus(f) => if focus.None? then Some(f) else focus
    case Unfocus(f) => if focus == Some(f) then None else focus
    case _ => focus
  }

  /** What an operation did: its exception, the status after it, the commands and notices
      it sent, and whether the connection is open after it. */
  datatype Entry = Entry(result: Option<Exception>, status: Status, sent: seq<Command>, notices: seq<Notice>, open: bool)

  /** The status before operation `i`. */
  function StatusBefore(log: seq<Entry>, i: nat): Status
    requires i <= |log|
  {
    if i == 0 then Active else log[i - 1].status
  }

  /** Whether the connection is open before operation `i`. */
  function OpenBefore(log: seq<Entry>, i: nat): bool
    requires i <= |log|
  {
    i == 0 || log[i - 1].open
  }

  function HeldAt(ops: seq<TxOp>, log: seq<Entry>, i: nat): string
    requires i <= |ops| && i <= |log|
  {
    if i == 0 then "" else HeldAfter(ops[i - 1], HeldAt(ops, log, i - 1), StatusBefore(log, i - 1).Active?)
  }

  function FocusAt(ops: seq<TxOp>, i: nat): Option<int>
    requires i <= |ops|
  {
    if i == 0 then None else FocusAfter(ops[i - 1], FocusAt(ops, i - 1))
  }

  /** A commit goes ahead: the transaction is active, holds no error, has no focus open, and
      the connection is open. */
  predicate Proceeds(held: string, focus: Option<int>, before: Status, open: bool) {
    before.Active? && held == "" && focus.None? && open
  }

  /** The status after an operation.  Only commit, abort and close change it, and only
      from active; a commit that goes ahead leaves the one that its setting `w` determines. */
  ghost predicate StatusLaw(w: Setting, op: TxOp, held: string, focus: Option<int>, before: Status, open: bool, entry: Entry) {
    match op
    case DoCommit =>
      if !Proceeds(held, focus, before, open) then entry.status == before
      else
        && entry.status == w.Result() && (entry.status.Committed? <==> entry.result.None?)
        && (entry.status.InDoubt? <==> entry.result == Some(InDoubtError))
    case DoAbortOp => entry.status == if before.Active? then Aborted else before
    case DoClose => entry.status == if before.Active? then Aborted else before
    case _ => entry.status == before
  }

  /** The commands that an operation sends. */
  ghost predicate SentLaw(w: Setting, op: TxOp, held: string, focus: Option<int>, before: Status, open: bool, sent: seq<Command>) {
    match op
    case DoExec(text) => sent == if Proceeds(held, focus, before, open) then [Query(text)] else []
    case DoCommit => if Proceeds(held, focus, before, open) then w.Sends(sent) else sent == []
    case DoAbortOp => sent == if before.Active? && held == "" && open then [Rollback] else []
    case DoClose => sent == if before.Active? && open then [Rollback] else []
    case _ => sent == []
  }

  /** The exception that an operation throws. */
  ghost predicate ResultLaw(w: Setting, op: TxOp, held: string, focus: Option<int>, before: Status, open: bool, result: Option<Exception>) {
    match op
    case DoExec(_) =>
      result == if held != "" then Some(Pending(held))
                else if focus.Some? || !before.Active? then Some(UsageError)
                else if !open then Some(BrokenConnection)
                else Raised(FateOf(w.script, w.count))
    case DoCommit =>
      result == if Proceeds(held, focus, before, open) then w.Throws()
                else if held != "" then Some(Pending(held))
                else if before.Committed? then None
                else if before.Aborted? then Some(UsageError)
                else if before.InDoubt? then Some(InDoubtError)
                else if focus.Some? then Some(Failure)
                else Some(BrokenConnection)
    case DoAbortOp => result == if before.Committed? then Some(UsageError) else None
    case Focus(_) => result == if focus.Some? then Some(UsageError) else None
    case _ => result == None
  }

  /** The notices that an operation reports, in order. */
  function Reports(w: Setting, op: TxOp, held: string, focus: Option<int>, before: Status, open: bool): seq<Notice> {
    match op
    case DoCommit =>
      if Proceeds(held, focus, before, open) then w.Remarks()
      else if before.Committed? && held == "" then [Remark("committed more than once")]
      else []
    case DoAbortOp =>
      if before.Active? then Complaint(held, open, FateOf(w.script, w.count))
      else if before.InDoubt? then [Remark("aborted after going into indeterminate state")]
      else []
    case DoClose => Parting(held, focus, before, open, FateOf(w.script, w.count))
    case Unfocus(f) => if focus == Some(f) then [] else [Remark("closed while not open")]
    case _ => []
  }

  /** An operation throws and reports exactly what the reference says, sends and changes the
      status only as the law allows, and sends COMMIT only when asked to, with no focus open,
      no error held and the transaction active. */
  ghost predicate Law(w: Setting, op: TxOp, held: string, focus: Option<int>, before: Status, open: bool, entry: Entry) {
    && Carried(entry.result) == Thrown(op, held)
    && PendingIn(entry.notices) == Noticed(op, held, before.Active?)
    && entry.notices == Reports(w, op, held, focus, before, open)
    && StatusLaw(w, op, held, focus, before, open, entry)
    && ResultLaw(w, op, held, focus, before, open, entry.result)
    && SentLaw(w, op, held, focus, before, open, entry.sent)
    && (Commits(entry.sent) > 0 ==> op.DoCommit? && focus.None? && held == "" && before.Active?)
    && (!before.Active? ==> entry.sent == [])
  }

  /** The setting of operation `i`, when that of the first one is `w`. */
  function SettingAt(w: Setting, log: seq<Entry>, i: nat): Setting
    requires i <= |log|
  {
    w.(count := |SentIn(log, i)|)
  }

  /** Entry `i` obeys the law. */
  ghost predicate Lawful(w: Setting, ops: seq<TxOp>, log: seq<Entry>, i: nat)
    requires i < |ops| && i < |log|
  {
    Law(SettingAt(w, log, i), ops[i], HeldAt(ops, log, i), FocusAt(ops, i), StatusBefore(log, i), OpenBefore(log, i), log[i])
  }

  /** The operation is a commit that goes ahead and takes effect on the server. */
  predicate CommitTakes(w: Setting, op: TxOp, held: string, focus: Option<int>, before: Status, open: bool) {
    op.DoCommit? && Proceeds(held, focus, before, open) && w.TakesEffect()
  }

  ghost predicate CommitTakesAt(w: Setting, ops: seq<TxOp>, log: seq<Entry>, i: nat)
    requires i < |ops| && i < |log|
  {
    CommitTakes(SettingAt(w, log, i), ops[i], HeldAt(ops, log, i), FocusAt(ops, i), StatusBefore(log, i), OpenBefore(log, i))
  }

  /** The errors that the first `i` operations took in. */
  function AcceptedIn(ops: seq<TxOp>, log: seq<Entry>, i: nat): seq<string>
    requires i <= |ops| && i <= |log|
  {
    if i == 0 then [] else AcceptedIn(ops, log, i - 1) + Accepted(ops[i - 1], HeldAt(ops, log, i - 1))
  }

  /** The errors that the first `i` entries show to have been thrown or reported. */
  function DeliveredIn(log: seq<Entry>, i: nat): seq<string>
    requires i <= |log|
  {
    if i == 0 then [] else DeliveredIn(log, i - 1) + Carried(log[i - 1].result) + PendingIn(log[i - 1].notices)
  }

  /** Everything sent. */
  function SentIn(log: seq<Entry>, i: nat): seq<Command>
    requires i <= |log|
  {
    if i == 0 then [] else SentIn(log, i - 1) + log[i - 1].sent
  }

  /** Each accepted error is delivered exactly once, in the order of acceptance, or is
      the one still held. */
  lemma {:induction false} EachErrorOnce(w: Setting, ops: seq<TxOp>, log: seq<Entry>, i: nat)
    requires i <= |ops| && i <= |log| && forall j :: 0 <= j < i ==> Lawful(w, ops, log, j)
    ensures AcceptedIn(ops, log, i) == DeliveredIn(log, i) + Held(HeldAt(ops, log, i))
  {
    hide Lawful, HeldAt, Carried, PendingIn, Held, Accepted;
    if i == 0 {
      NothingHeld(ops, log);
    } else {
      EachErrorOnce(w, ops, log, i - 1);
      LawfulDelivers(w, ops, log, i - 1);
      var held := HeldAt(ops, log, i - 1);
      var thrown, noticed := Carried(log[i - 1].result), PendingIn(log[i - 1].notices);
      Regroup(DeliveredIn(log, i - 1), Held(held), Accepted(ops[i - 1], held), thrown, noticed, Held(HeldAt(ops, log, i)));
    }
  }

  lemma NothingHeld(ops: seq<TxOp>, log: seq<Entry>)
    ensures Held(HeldAt(ops, log, 0)) == []
  {
  }

  lemma Regroup(d: seq<string>, h: seq<string>, a: seq<string>, t: seq<string>, n: seq<string>, h': seq<string>)
    requires h + a == t + n + h'
    ensures (d + h) + a == (d + t + n) + h'
  {
    assert (d + h) + a == d + (h + a);
    assert (d + t + n) + h' == d + (t + n + h');
  }

  lemma LawfulDelivers(w: Setting, ops: seq<TxOp>, log: seq<Entry>, i: nat)
    requires i < |ops| && i < |log| && Lawful(w, ops, log, i)
    ensures Held(HeldAt(ops, log, i)) + Accepted(ops[i], HeldAt(ops, log, i)) ==
      Carried(log[i].result) + PendingIn(log[i].notices) + Held(HeldAt(ops, log, i + 1))
  {
    hide PendingIn, Commits, Carried, Thrown, Noticed, Accepted, Held, StatusLaw, SentLaw;
    Balance(ops[i], HeldAt(ops, log, i), StatusBefore(log, i).Active?);
  }

  /** What was held and is taken in is thrown, reported or held on. */
  lemma Balance(op: TxOp, held: string, active: bool)
    ensures Held(held) + Accepted(op, held) == Thrown(op, held) + Noticed(op, held, active) + Held(HeldAfter(op, held, active))
  {
    match op {
      case DoExec(_) => assert Held(held) + [] == Held(held) + [] + [];
      case DoCommit => assert Held(held) + [] == Held(held) + [] + [];
      case DoAbortOp => assert Held(held) + [] == [] + Held(held) + [] == [] + [] + Held(held);
      case DoClose => assert Held(held) + [] == [] + Held(held) + [];
      case Pend(err) => assert [] + Held(err) == [] + [] + Held(err) && Held(held) + [] == [] + [] + Held(held);
      case Focus(_) => assert Held(held) + [] == [] + [] + Held(held);
      case Unfocus(_) => assert Held(held) + [] == [] + [] + Held(held);
    }
  }

  /** A status other than active never changes. */
  lemma {:induction false} Absorbing(w: Setting, ops: seq<TxOp>, log: seq<Entry>, i: nat, j: nat)
    requires i <= j < |ops| && |log| == |ops| && forall k :: 0 <= k < |ops| ==> Lawful(w, ops, log, k)
    requires !log[i].status.Active?
    ensures log[j].status == log[i].status
  {
    hide PendingIn, Commits, Carried, HeldAt, FocusAt, SentLaw, SettingAt;
    if i < j {
      Absorbing(w, ops, log, i, j - 1);
      assert Lawful(w, ops, log, j);
    }
  }

  method Step(tx: Transaction, op: TxOp) returns (entry: Entry)
    requires tx.Valid()
    modifies tx, tx.conn
    ensures tx.Valid() && entry.status == tx.status
    ensures tx.conn.sent == old(tx.conn.sent) + entry.sent && tx.conn.notices == old(tx.conn.notices) + entry.notices
    ensures tx.pendingError == HeldAfter(op, old(tx.pendingError), old(tx.status).Active?)
    ensures tx.focus == FocusAfter(op, old(tx.focus))
    ensures entry.open == tx.conn.open
    ensures Law(old(tx.conn.Now(tx.robust)), op, old(tx.pendingError), old(tx.focus), old(tx.status), old(tx.conn.open), entry)
    ensures tx.conn.committed == (old(tx.conn.committed) || CommitTakes(old(tx.conn.Now(tx.robust)), op, old(tx.pendingError), old(tx.focus), old(tx.status), old(tx.conn.open)))
  {
    hide Transaction.Orderly, Commits, PendingIn, StatusLaw, SentLaw, ResultLaw;
    ghost var notices := tx.conn.notices;
    var sent, told := |tx.conn.sent|, |tx.conn.notices|;
    var e := Perform(tx, op);
    entry := Entry(e, tx.status, tx.conn.sent[sent..], tx.conn.notices[told..], tx.conn.open);
    StatusLawOnly(old(tx.conn.Now(tx.robust)), op, old(tx.pendingError), old(tx.focus), old(tx.status), old(tx.conn.open),
                  Entry(e, tx.status, [], [], false), entry);
    PendingInConcat(notices, entry.notices);
    assert tx.conn.notices == notices + entry.notices;
    Cancel(PendingIn(notices), PendingIn(entry.notices), Noticed(op, old(tx.pendingError), old(tx.status).Active?));
    CommitsSuffix(old(tx.conn.sent), entry.sent);
  }

  /** The law looks only at the result and the status. */
  lemma StatusLawOnly(w: Setting, op: TxOp, held: string, focus: Option<int>, before: Status, open: bool, a: Entry, b: Entry)
    requires StatusLaw(w, op, held, focus, before, open, a) && b.result == a.result && b.status == a.status
    ensures StatusLaw(w, op, held, focus, before, open, b)
  {
  }

  method Perform(tx: Transaction, op: TxOp) returns (e: Option<Exception>)
    requires tx.Valid()
    modifies tx, tx.conn
    ensures tx.Did(op, e)
  {
    hide Transaction.Did;
    e := None;
    if op.DoCommit? {
      e := PerformCommit(tx);
    } else if op.DoAbortOp? || op.DoClose? {
      e := PerformEnd(tx, op);
    } else {
      e := PerformOther(tx, op);
    }
  }

  method PerformCommit(tx: Transaction) returns (e: Option<Exception>)
    requires tx.Valid()
    modifies tx, tx.conn
    ensures tx.Did(DoCommit, e)
  {
    hide Transaction.Orderly, Commits, PendingIn, Raised, FateOf;
    hide Setting.Result, Setting.Sends, Setting.Remarks, Setting.TakesEffect, Setting.Denies, Setting.Misreports;
    ghost var notices := tx.conn.notices;
    assert PendingIn(notices) + [] == PendingIn(notices);
    e := tx.Commit();
  }

  method PerformEnd(tx: Transaction, op: TxOp) returns (e: Option<Exception>)
    requires tx.Valid() && (op.DoAbortOp? || op.DoClose?)
    modifies tx, tx.conn
    ensures tx.Did(op, e)
  {
    hide Transaction.Orderly, Commits, PendingIn, Complaint;
    e := None;
    if op.DoAbortOp? {
      e := tx.Abort();
    } else {
      tx.Close();
    }
    CommitsExtend(old(tx.conn.sent), tx.conn.sent);
  }

  method PerformOther(tx: Transaction, op: TxOp) returns (e: Option<Exception>)
    requires tx.Valid() && !op.DoCommit? && !op.DoAbortOp? && !op.DoClose?
    modifies tx, tx.conn
    ensures tx.Did(op, e)
  {
    hide Transaction.Orderly, Commits, PendingIn;
    ghost var notices := tx.conn.notices;
    assert PendingIn(notices) + [] == PendingIn(notices);
    e := None;
    match op {
      case DoExec(text) =>
        e := tx.Exec(text);
        CommitsExtend(old(tx.conn.sent), tx.conn.sent);
      case Focus(f) => e := tx.RegisterFocus(f);
      case Unfocus(f) =>
        PendingInSnoc(notices, Remark("closed while not open"));
        tx.UnregisterFocus(f);
      case Pend(err) => tx.RegisterPendingError(err);
    }
  }

  /** The books after a run of operations. */
  ghost predicate Recorded(tx: Transaction, w: Setting, ops: seq<TxOp>, log: seq<Entry>)
    reads tx, tx.conn
  {
    && w == Setting(tx.conn.script, tx.conn.answers, tx.conn.staysLost, tx.robust, 0)
    && tx.Valid() && |log| == |ops|
    && tx.status == StatusBefore(log, |log|) && tx.pendingError == HeldAt(ops, log, |ops|) && tx.focus == FocusAt(ops, |ops|)
    && tx.conn.sent == SentIn(log, |log|) && tx.conn.open == OpenBefore(log, |log|)
    && (forall i :: 0 <= i < |ops| ==> Lawful(w, ops, log, i))
    && (tx.conn.committed <==> exists i :: 0 <= i < |ops| && CommitTakesAt(w, ops, log, i))
  }

  /** One more entry. */
  lemma Entered(w: Setting, ops: seq<TxOp>, op: TxOp, log: seq<Entry>, entry: Entry)
    requires |log| == |ops| && forall i :: 0 <= i < |ops| ==> Lawful(w, ops, log, i)
    requires Law(SettingAt(w, log, |log|), op, HeldAt(ops, log, |ops|), FocusAt(ops, |ops|), StatusBefore(log, |log|), OpenBefore(log, |log|), entry)
    ensures var ops', log' := ops + [op], log + [entry];
      && (forall i :: 0 <= i <= |ops| ==> Lawful(w, ops', log', i))
      && HeldAt(ops', log', |ops'|) == HeldAfter(op, HeldAt(ops, log, |ops|), StatusBefore(log, |log|).Active?)
      && FocusAt(ops', |ops'|) == FocusAfter(op, FocusAt(ops, |ops|))
      && StatusBefore(log', |log'|) == entry.status && SentIn(log', |log'|) == SentIn(log, |log|) + entry.sent
      && OpenBefore(log', |log'|) == entry.open
      && (forall i :: 0 <= i < |ops| ==> (CommitTakesAt(w, ops', log', i) <==> CommitTakesAt(w, ops, log, i)))
      && (CommitTakesAt(w, ops', log', |ops|) <==>
          CommitTakes(SettingAt(w, log, |log|), op, HeldAt(ops, log, |ops|), FocusAt(ops, |ops|), StatusBefore(log, |log|), OpenBefore(log, |log|)))
  {
    hide Law, HeldAfter, FocusAfter, CommitTakes;
    var ops', log' := ops + [op], log + [entry];
    forall i | 0 <= i < |ops|
      ensures Lawful(w, ops', log', i) && (CommitTakesAt(w, ops', log', i) <==> CommitTakesAt(w, ops, log, i))
    {
      assert Lawful(w, ops, log, i);
      StillLawful(w, ops, op, log, entry, i);
    }
    PrefixBooks(ops, op, log, entry, |ops|);
  }

  lemma StillLawful(w: Setting, ops: seq<TxOp>, op: TxOp, log: seq<Entry>, entry: Entry, i: nat)
    requires |log| == |ops| && i < |ops| && Lawful(w, ops, log, i)
    ensures Lawful(w, ops + [op], log + [entry], i)
    ensures CommitTakesAt(w, ops + [op], log + [entry], i) <==> CommitTakesAt(w, ops, log, i)
  {
    hide Law, HeldAt, FocusAt, StatusBefore, OpenBefore, CommitTakes, SentIn;
    PrefixBooks(ops, op, log, entry, i);
  }

  lemma {:induction false} PrefixBooks(ops: seq<TxOp>, op: TxOp, log: seq<Entry>, entry: Entry, i: nat)
    requires |log| == |ops| && i <= |ops|
    ensures HeldAt(ops + [op], log + [entry], i) == HeldAt(ops, log, i)
    ensures StatusBefore(log + [entry], i) == StatusBefore(log, i) && OpenBefore(log + [entry], i) == OpenBefore(log, i)
    ensures FocusAt(ops + [op], i) == FocusAt(ops, i) && SentIn(log + [entry], i) == SentIn(log, i)
  {
    if i > 0 {
      PrefixBooks(ops, op, log, entry, i - 1);
    }
  }

  method RunOps(tx: Transaction, ghost w: Setting, ops: seq<TxOp>) returns (log: seq<Entry>)
    requires Recorded(tx, w, [], [])
    modifies tx, tx.conn
    ensures Recorded(tx, w, ops, log)
  {
    hide Transaction.Orderly, Lawful, Law, HeldAt, FocusAt, SentIn, PendingIn, Commits, CommitTakes, CommitTakesAt;
    log := [];
    assert ops[..0] == [];
    for i := 0 to |ops|
      invariant Recorded(tx, w, ops[..i], log)
    {
      CountSent(tx);
      var entry := Step(tx, ops[i]);
      Entered(w, ops[..i], ops[i], log, entry);
      assert ops[..i + 1] == ops[..i] + [ops[i]];
      log := log + [entry];
    }
    assert ops[..|ops|] == ops;
  }

  /** Any life of a transaction, from start to destruction, which is one more close.
      Every entry is lawful: a status other than active is final, COMMIT goes out only
      with no focus open, and what is thrown and reported is what the reference says.
      COMMIT goes out at most once; the pending errors that were accepted are those
      delivered, each once and in order; and a transaction that counts as committed was
      committed. */
  method RunTransaction(script: seq<Fate>, answers: seq<Answer>, staysLost: bool, robust: bool, ops: seq<TxOp>)
    returns (log: seq<Entry>, committed: bool)
    ensures |log| == |ops| + 1
    ensures forall i :: 0 <= i <= |ops| ==> Lawful(Setting(script, answers, staysLost, robust, 0), ops + [DoClose], log, i)
    ensures AcceptedIn(ops + [DoClose], log, |log|) == DeliveredIn(log, |log|)
    ensures !log[|ops|].status.Active?
    ensures Commits(SentIn(log, |log|)) <= 1
    ensures committed <==> exists i :: 0 <= i < |ops| && CommitTakesAt(Setting(script, answers, staysLost, robust, 0), ops + [DoClose], log, i)
    ensures log[|ops|].status.Committed? && staysLost && Truthful(answers, committed) ==> committed
    ensures log[|ops|].status.Aborted? && staysLost && Plain(script, answers) ==> !committed
  {
    hide Lawful, HeldAt, FocusAt, SentIn, PendingIn, Commits, Plain, Truthful, CommitTakesAt, CommitTakes, Transaction.Orderly, StatusLaw, SentLaw, ResultLaw;
    var conn := new Connection(script, answers, staysLost);
    var tx := new Transaction(conn, robust);
    ghost var w := Setting(script, answers, staysLost, robust, 0);
    Blank(tx, w);
    log := RunOps(tx, w, ops);
    CountSent(tx);
    ghost var sent, notices := conn.sent, conn.notices;
    ghost var held, active := tx.pendingError, tx.status.Active?;
    ghost var before, open := tx.status, conn.open;
    var m, n := |conn.sent|, |conn.notices|;
    tx.Destroy();
    var last := Entry(None, tx.status, conn.sent[m..], conn.notices[n..], conn.open);
    PendingInConcat(notices, last.notices);
    assert conn.notices == notices + last.notices;
    Cancel(PendingIn(notices), PendingIn(last.notices), Held(held));
    CommitsSuffix(sent, last.sent);
    CommitsExtend(sent, conn.sent);
    assert conn.sent == sent + last.sent;
    CloseLaw(SettingAt(w, log, |log|), held, tx.focus, before, open, last);
    Entered(w, ops, DoClose, log, last);
    log := log + [last];
    committed := conn.committed;
    AtTheEnd(tx);
    HeldAtEnd(ops + [DoClose], log);
    EachErrorOnce(w, ops + [DoClose], log, |log|);
  }

  lemma CountSent(tx: Transaction)
    requires tx.Valid()
    ensures tx.conn.count == |tx.conn.sent|
  {
  }

  /** The last close obeys the law and commits nothing. */
  lemma CloseLaw(w: Setting, held: string, focus: Option<int>, before: Status, open: bool, entry: Entry)
    requires entry.status == (if before.Active? then Aborted else before)
    requires entry.sent == if before.Active? && open then [Rollback] else []
    ensures StatusLaw(w, DoClose, held, focus, before, open, entry) && SentLaw(w, DoClose, held, focus, before, open, entry.sent)
    ensures ResultLaw(w, DoClose, held, focus, before, open, None)
    ensures !CommitTakes(w, DoClose, held, focus, before, open)
  {
  }

  lemma Blank(tx: Transaction, w: Setting)
    requires tx.Valid() && tx.status.Active? && tx.focus.None? && tx.pendingError == "" && tx.conn.sent == [] && tx.conn.open && !tx.conn.committed
    requires w == Setting(tx.conn.script, tx.conn.answers, tx.conn.staysLost, tx.robust, 0)
    ensures Recorded(tx, w, [], [])
  {
  }

  lemma HeldAtEnd(ops: seq<TxOp>, log: seq<Entry>)
    requires ops != [] && ops[|ops| - 1].DoClose? && |log| == |ops|
    ensures HeldAt(ops, log, |ops|) == ""
  {
  }

  lemma {:induction false} CommitsSuffix(a: seq<Command>, b: seq<Command>)
    ensures Commits(a + b) == Commits(a) + Commits(b)
    decreases |b|
  {
    if b == [] {
      assert a + b == a;
    } else {
      CommitsSuffix(a, b[..|b| - 1]);
      assert (a + b)[..|a + b| - 1] == a + b[..|b| - 1];
    }
  }

  lemma AtTheEnd(tx: Transaction)
    requires tx.Valid()
    ensures Commits(tx.conn.sent) <= 1
    ensures tx.status.Committed? && tx.conn.staysLost && Truthful(tx.conn.answers, tx.conn.committed) ==> tx.conn.committed
    ensures tx.status.Aborted? && tx.conn.staysLost && Plain(tx.conn.script, tx.conn.answers) ==> !tx.conn.committed
  {
  }

  /** Aborting with an error pending reports the error and sends nothing. */
  method AbortWithPending() returns (status: Status, sent: seq<Command>, reported: seq<string>)
    ensures status == Aborted && sent == [] && reported == ["lost row"]
  {
    var conn := new Connection([], [], true);
    var tx := new Transaction(conn, false);
    tx.RegisterPendingError("lost row");
    var e := tx.Abort();
    return tx.status, conn.sent, PendingIn(conn.notices);
  }

  /** Where a broken connection comes back, the guarantee fails: the lookup says
      "aborted", the ROLLBACK succeeds, and the commit returns as if all were well. */
  method MisreportedCommit() returns (status: Status, committed: bool)
    ensures status == Committed && !committed
  {
    var conn := new Connection([Done, Lost(false)], [Text("aborted")], false);
    var tx := new Transaction(conn, true);
    assert FirstAt(conn.script, conn.answers, true, 0, 2, 0);
    var e := tx.Commit();
    status, committed := tx.status, conn.committed;
  }

  /** When all goes well, a commit is reported as committed. */
  method CleanCommit(robust: bool) returns (e: Option<Exception>, status: Status, committed: bool, sent: seq<Command>)
    ensures e.None? && status == Committed && committed
    ensures sent == if robust then [CheckConstraints, Command.Commit] else [Command.Commit]
  {
    var conn := new Connection([], [], true);
    var tx := new Transaction(conn, robust);
    e := tx.Commit();
    status, committed, sent := tx.status, conn.committed, conn.sent;
  }

  /** A lost commit is looked up 500 times, and not once more: the answer that comes after
      `failed` failed attempts counts exactly if it is one of these. */
  method LateAnswer(failed: nat) returns (status: Status)
    ensures status == if failed < 500 then Committed else InDoubt
  {
    var answers := seq(failed, _ => NoConnection) + [Text("committed")];
    var conn := new Connection([Done, Lost(true)], answers, true);
    var tx := new Transaction(conn, true);
    assert forall i :: 0 <= i < failed ==> Lookup(answers, i) == NoConnection;
    assert forall i :: failed < i ==> Lookup(answers, i) == NoConnection;
    assert Lookup(answers, failed) == Text("committed");
    if failed < MAX_ATTEMPTS {
      assert FirstAt(conn.script, answers, false, 0, 2, failed);
    }
    var e := tx.Commit();
    status := tx.status;
  }

  /** A robust COMMIT whose completion is unknown on a working connection counts as aborted,
      although the server committed. */
  method DeniedCommit() returns (status: Status, committed: bool)
    ensures status == Aborted && committed
  {
    var conn := new Connection([Done, Unclear(true)], [], true);
    var tx := new Transaction(conn, true);
    var e := tx.Commit();
    status, committed := tx.status, conn.committed;
  }
}
