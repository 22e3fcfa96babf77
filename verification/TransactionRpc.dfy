/** The streaming transaction protocol between the server loop and a sequential client. */
module TransactionRpc {
  import opened Values

  datatype Command = Start(db: string) | Execute(sql: string) | Commit | Rollback

  datatype Payload =
    | QueryResult(item: string)
    | QueryFinished
    | CommitResult(success: bool)
    | ErrorMessage(message: string)

  // ---------- The server ----------

  /** What the database answers to one command: the lookup, the checks, the result rows and the commit. */
  datatype Answer = Answer(found: bool, isDdl: bool, badParams: bool, rows: Option<seq<string>>, commits: bool)

  /** One stream's state. A stream that is gone takes no more commands. */
  datatype Server = Server(active: bool, finished: bool, gone: bool, started: nat, committed: nat, rolledBack: nat)

  function Results(rows: seq<string>): seq<Payload>
  {
    seq(|rows|, i requires 0 <= i < |rows| => QueryResult(rows[i]))
  }

  /** The reaction to one request; None is a request without a command. */
  function React(s: Server, request: Option<Command>, a: Answer): (Server, seq<Payload>)
  {
    if request.None? then (s, [ErrorMessage("empty request")])
    else if s.finished then (s, [ErrorMessage("already completed")])
    else match request.value
      case Start(_) =>
        if s.active then (s, [ErrorMessage("already started")])
        else if !a.found then (s.(gone := true), [ErrorMessage("database not found")])
        else (s.(active := true, started := s.started + 1), [QueryFinished])
      case Execute(_) =>
        if !s.active then (s, [ErrorMessage("not started")])
        else if a.isDdl then (s, [ErrorMessage("no DDL in a transaction"), QueryFinished])
        else if a.badParams then (s, [ErrorMessage("bad parameters"), QueryFinished])
        else if a.rows.None? then (s, [ErrorMessage("SQL error"), QueryFinished])
        else (s, Results(a.rows.value) + [QueryFinished])
      case Commit =>
        if !s.active then (s, [ErrorMessage("not started")])
        else (s.(active := false, finished := true, committed := s.committed + if a.commits then 1 else 0), [CommitResult(a.commits)])
      case Rollback =>
        if !s.active then (s, [ErrorMessage("not started")])
        else (s.(active := false, finished := true, rolledBack := s.rolledBack + 1), [CommitResult(true)])
  }

  /** The loop body of the stream task. */
  class Session {
    var state: Server

    constructor ()
      ensures state == Server(false, false, false, 0, 0, 0)
    {
      state := Server(false, false, false, 0, 0, 0);
    }

    method Handle(request: Option<Command>, a: Answer) returns (out: seq<Payload>)
      modifies this
      ensures (state, out) == React(old(state), request, a)
    {
      if request.None? {
        return [ErrorMessage("empty request")];
      }
      if state.finished {
        return [ErrorMessage("already completed")];
      }
      match request.value
      case Start(_) =>
        if state.active {
          return [ErrorMessage("already started")];
        }
        if !a.found {
          state := state.(gone := true);
          return [ErrorMessage("database not found")];
        }
        state := state.(active := true, started := state.started + 1);
        out := [QueryFinished];
      case Execute(_) =>
        if !state.active {
          return [ErrorMessage("not started")];
        }
        if a.isDdl {
          return [ErrorMessage("no DDL in a transaction"), QueryFinished];
        }
        if a.badParams {
          return [ErrorMessage("bad parameters"), QueryFinished];
        }
        if a.rows.None? {
          return [ErrorMessage("SQL error"), QueryFinished];
        }
        out := [];
        for n := 0 to |a.rows.value|
          invariant state == old(state) && out == Results(a.rows.value)[..n]
        {
          out := out + [QueryResult(a.rows.value[n])];
        }
        assert out == Results(a.rows.value);
        out := out + [QueryFinished];
      case Commit =>
        if !state.active {
          return [ErrorMessage("not started")];
        }
        state := state.(active := false, finished := true, committed := state.committed + if a.commits then 1 else 0);
        out := [CommitResult(a.commits)];
      case Rollback =>
        if !state.active {
          return [ErrorMessage("not started")];
        }
        state := state.(active := false, finished := true, rolledBack := state.rolledBack + 1);
        out := [CommitResult(true)];
    }

    /** The stream task: one request after another until the stream is over. */
    method Serve(requests: seq<Request>) returns (replies: seq<(Option<Command>, seq<Payload>)>)
      requires state == Server(false, false, false, 0, 0, 0)
      modifies this
      ensures (state, replies) == Served(requests)
    {
      hide React;
      replies := [];
      assert requests[..0] == [];
      for n := 0 to |requests|
        invariant (state, replies) == Served(requests[..n])
      {
        assert requests[..n + 1][..n] == requests[..n];
        if !state.gone {
          var out := Handle(requests[n].0, requests[n].1);
          replies := replies + [(requests[n].0, out)];
        }
      }
      assert requests[..|requests|] == requests;
    }
  }

  // ---------- One stream under any client ----------

  /** The answer to a query still to be read: results and the end marker, or an error and the marker. */
  predicate IsAnswer(ps: seq<Payload>)
  {
    || (ps != [] && ps[|ps| - 1] == QueryFinished && forall i :: 0 <= i < |ps| - 1 ==> ps[i].QueryResult?)
    || (|ps| == 2 && ps[0].ErrorMessage? && ps[1] == QueryFinished)
  }

  predicate IsRefusal(ps: seq<Payload>)
  {
    |ps| == 1 && ps[0].ErrorMessage?
  }

  type Request = (Option<Command>, Answer)

  /** The server and its replies after a stream of requests; nothing is taken after the stream ended. */
  function Served(requests: seq<Request>): (Server, seq<(Option<Command>, seq<Payload>)>)
  {
    if requests == [] then (Server(false, false, false, 0, 0, 0), [])
    else
      var (s, replies) := Served(requests[..|requests| - 1]);
      var (request, a) := requests[|requests| - 1];
      if s.gone then (s, replies)
      else (React(s, request, a).0, replies + [(request, React(s, request, a).1)])
  }

  /** Where a stream stands, judged by its requests and the database's answers alone. */
  datatype Stage = Unstarted | Opened | Settled | Ended

  function StageAfter(requests: seq<Request>): Stage
  {
    if requests == [] then Unstarted
    else
      var stage := StageAfter(requests[..|requests| - 1]);
      var (request, a) := requests[|requests| - 1];
      if stage.Unstarted? && request.Some? && request.value.Start? then (if a.found then Opened else Ended)
      else if stage.Opened? && (request == Some(Commit) || request == Some(Rollback)) then Settled
      else stage
  }

  /** What a query gives its caller: the rows, or None for an error. */
  function Outcome(a: Answer): Option<seq<string>>
  {
    if a.isDdl || a.badParams then None else a.rows
  }

  /** Every row of the answer in order and then the marker, or one error and the marker. */
  predicate Answers(a: Answer, out: seq<Payload>)
  {
    match Outcome(a)
    case Some(rows) =>
      |out| == |rows| + 1 && out[|rows|] == QueryFinished && forall i :: 0 <= i < |rows| ==> out[i] == QueryResult(rows[i])
    case None => |out| == 2 && out[0].ErrorMessage? && out[1] == QueryFinished
  }

  /** The reply each request must get; everything out of place is refused. */
  predicate ReplyIs(stage: Stage, request: Option<Command>, a: Answer, out: seq<Payload>)
  {
    if stage.Opened? && request.Some? && request.value.Execute? then Answers(a, out)
    else if stage.Unstarted? && request.Some? && request.value.Start? && a.found then out == [QueryFinished]
    else if stage.Opened? && request == Some(Commit) then out == [CommitResult(a.commits)]
    else if stage.Opened? && request == Some(Rollback) then out == [CommitResult(true)]
    else IsRefusal(out)
  }

  /** Request i commits: it asks for it in an open transaction, and the database agrees. */
  predicate CommitsAt(requests: seq<Request>, i: nat)
  {
    i < |requests| && StageAfter(requests[..i]).Opened? && requests[i].0 == Some(Commit) && requests[i].1.commits
  }

  predicate RollsBackAt(requests: seq<Request>, i: nat)
  {
    i < |requests| && StageAfter(requests[..i]).Opened? && requests[i].0 == Some(Rollback)
  }

  ghost predicate Commits(requests: seq<Request>)
  {
    exists i: nat :: CommitsAt(requests, i)
  }

  ghost predicate RollsBack(requests: seq<Request>)
  {
    exists i: nat :: RollsBackAt(requests, i)
  }

  lemma ReactReplies(s: Server, stage: Stage, request: Option<Command>, a: Answer)
    requires !s.gone && !stage.Ended? && (s.active <==> stage.Opened?) && (s.finished <==> stage.Settled?)
    ensures ReplyIs(stage, request, a, React(s, request, a).1)
  {
  }

  /** The server's counters and flags say what the requests and answers say. */
  ghost predicate Counts(requests: seq<Request>, s: Server)
  {
    var stage := StageAfter(requests);
    && (s.active <==> stage.Opened?) && (s.finished <==> stage.Settled?) && (s.gone <==> stage.Ended?)
    && s.started == (if stage.Opened? || stage.Settled? then 1 else 0)
    && s.committed == (if Commits(requests) then 1 else 0)
    && s.rolledBack == (if RollsBack(requests) then 1 else 0)
    && (Commits(requests) || RollsBack(requests) ==> stage.Settled?)
    && !(Commits(requests) && RollsBack(requests))
  }

  lemma SettledStep(requests: seq<Request>)
    requires requests != []
    ensures var n := |requests| - 1;
            && (Commits(requests) <==> Commits(requests[..n]) || CommitsAt(requests, n))
            && (RollsBack(requests) <==> RollsBack(requests[..n]) || RollsBackAt(requests, n))
  {
    hide StageAfter;
    var n := |requests| - 1;
    var front := requests[..n];
    assert forall i: nat :: i < n ==> front[..i] == requests[..i] && front[i] == requests[i];
    assert forall i: nat :: CommitsAt(front, i) <==> i < n && CommitsAt(requests, i);
    assert forall i: nat :: RollsBackAt(front, i) <==> i < n && RollsBackAt(requests, i);
  }

  lemma CountsStep(requests: seq<Request>, s: Server)
    requires requests != [] && Counts(requests[..|requests| - 1], s)
    ensures var (request, a) := requests[|requests| - 1];
            Counts(requests, if s.gone then s else React(s, request, a).0)
  {
    SettledStep(requests);
    hide Commits, RollsBack, Results;
    var n := |requests| - 1;
    var (request, a) := requests[n];
    var stage, stage' := StageAfter(requests[..n]), StageAfter(requests);
    var s' := if s.gone then s else React(s, request, a).0;
    assert (s'.active <==> stage'.Opened?) && (s'.finished <==> stage'.Settled?) && (s'.gone <==> stage'.Ended?);
    assert CommitsAt(requests, n) <==> stage.Opened? && request == Some(Commit) && a.commits;
    assert RollsBackAt(requests, n) <==> stage.Opened? && request == Some(Rollback);
  }

  /** The requests taken before the stream ended, each with the reply that its place calls for. */
  ghost predicate Replied(requests: seq<Request>, replies: seq<(Option<Command>, seq<Payload>)>)
  {
    && |replies| <= |requests| && (|replies| < |requests| ==> StageAfter(requests[..|replies|]).Ended?)
    && forall i :: 0 <= i < |replies| ==> RepliedAt(requests, i, replies[i])
  }

  ghost predicate RepliedAt(requests: seq<Request>, i: nat, reply: (Option<Command>, seq<Payload>))
    requires i < |requests|
  {
    && !StageAfter(requests[..i]).Ended? && reply.0 == requests[i].0
    && ReplyIs(StageAfter(requests[..i]), requests[i].0, requests[i].1, reply.1)
  }

  lemma RepliedAtFront(requests: seq<Request>, n: nat, i: nat, reply: (Option<Command>, seq<Payload>))
    requires i < n <= |requests|
    ensures RepliedAt(requests[..n], i, reply) <==> RepliedAt(requests, i, reply)
  {
    hide ReplyIs, StageAfter;
    assert requests[..n][i] == requests[i] && requests[..n][..i] == requests[..i];
  }

  lemma RepliedStep(requests: seq<Request>, replies: seq<(Option<Command>, seq<Payload>)>, reply: (Option<Command>, seq<Payload>))
    requires requests != [] && Replied(requests[..|requests| - 1], replies)
    ensures var n := |requests| - 1;
            && (StageAfter(requests[..n]).Ended? ==> Replied(requests, replies))
            && (RepliedAt(requests, n, reply) ==> Replied(requests, replies + [reply]))
  {
    hide RepliedAt, StageAfter;
    var n := |requests| - 1;
    forall i | 0 <= i < |replies| ensures RepliedAt(requests, i, replies[i]) {
      RepliedAtFront(requests, n, i, replies[i]);
    }
    assert requests[..n][..|replies|] == requests[..|replies|];
    if |replies| < n {
      EndedStays(requests[..n], |replies|);
      NotEndedAt(requests, n, reply);
    }
  }

  lemma NotEndedAt(requests: seq<Request>, n: nat, reply: (Option<Command>, seq<Payload>))
    requires n < |requests|
    ensures RepliedAt(requests, n, reply) ==> !StageAfter(requests[..n]).Ended?
  {
  }

  /**
   Whatever a client sends, in whatever order: every request up to the end of the stream gets the
   reply that its place calls for, each query exactly its rows and one marker, and the transaction
   is started, committed and rolled back exactly as often as requests and answers say.
   */
  lemma {:induction false} EveryStreamSettlesOnce(requests: seq<Request>)
    ensures Replied(requests, Served(requests).1) && Counts(requests, Served(requests).0)
  {
    if requests != [] {
      hide Counts, Replied, RepliedAt, ReplyIs, React, StageAfter;
      var n := |requests| - 1;
      EveryStreamSettlesOnce(requests[..n]);
      var (s, replies) := Served(requests[..n]);
      var (request, a) := requests[n];
      CountsStep(requests, s);
      CountsFlags(requests[..n], s);
      RepliedStep(requests, replies, (request, React(s, request, a).1));
      if !s.gone {
        ReplyFits(requests, s);
      }
    } else {
      NothingServed();
    }
  }

  lemma NothingServed()
    ensures Replied([], Served([]).1) && Counts([], Served([]).0)
  {
  }

  lemma ReplyFits(requests: seq<Request>, s: Server)
    requires requests != [] && !s.gone && Counts(requests[..|requests| - 1], s)
    ensures var n := |requests| - 1;
            RepliedAt(requests, n, (requests[n].0, React(s, requests[n].0, requests[n].1).1))
  {
    hide React, ReplyIs;
    var n := |requests| - 1;
    ReactReplies(s, StageAfter(requests[..n]), requests[n].0, requests[n].1);
  }

  lemma CountsFlags(requests: seq<Request>, s: Server)
    requires Counts(requests, s)
    ensures var stage := StageAfter(requests);
            (s.active <==> stage.Opened?) && (s.finished <==> stage.Settled?) && (s.gone <==> stage.Ended?)
  {
  }

  lemma {:induction false} EndedStays(requests: seq<Request>, n: nat)
    requires n <= |requests| && StageAfter(requests[..n]).Ended?
    ensures StageAfter(requests).Ended?
  {
    if n == |requests| {
      assert requests[..n] == requests;
    } else {
      assert requests[..|requests| - 1][..n] == requests[..n];
      EndedStays(requests[..|requests| - 1], n);
    }
  }

  /** A settled stream refuses everything and changes no more. */
  lemma {:induction false} FinishedIsFinal(requests: seq<Request>, more: seq<Request>)
    requires StageAfter(requests).Settled?
    ensures Served(requests + more).0 == Served(requests).0 && |Served(requests + more).1| == |requests| + |more|
    ensures forall i :: |requests| <= i < |requests| + |more| ==> IsRefusal(Served(requests + more).1[i].1)
    decreases |more|
  {
    EveryStreamSettlesOnce(requests + more);
    if more == [] {
      assert requests + more == requests;
      if |Served(requests).1| < |requests| {
        EndedStays(requests, |Served(requests).1|);
      }
    } else {
      hide StageAfter, React;
      var n := |more| - 1;
      FinishedIsFinal(requests, more[..n]);
      assert (requests + more)[..|requests| + n] == requests + more[..n];
      SettledRefuses(requests, more[..n], more[n]);
    }
  }

  lemma SettledRefuses(requests: seq<Request>, more: seq<Request>, last: Request)
    requires StageAfter(requests).Settled? && Served(requests + more).0 == Served(requests).0
    ensures var s := Served(requests).0;
            !s.gone && React(s, last.0, last.1).0 == s && IsRefusal(React(s, last.0, last.1).1)
  {
    EveryStreamSettlesOnce(requests);
    hide Served;
  }

  // ---------- Both sides and the two channels ----------

  /** Where the client is in its calls. Unexpected stands for every answer its code does not foresee. */
  datatype Client =
    | Starting
    | Ready
    | Collecting(got: seq<string>)
    | Skipping
    | Committing
    | Succeeded
    | Failed
    | Unexpected

  datatype State = State(client: Client, server: Server, requests: seq<Command>, outbox: seq<Payload>, responses: seq<Payload>, commitsSent: nat, returned: seq<Option<seq<string>>>)

  datatype Step =
    | Take(answer: Answer)
    | Deliver
    | Receive
    | Call(sql: string)
    | Finish(ok: bool)
    | Hangup

  function Initial(db: string): State
  {
    State(Starting, Server(false, false, false, 0, 0, 0), [Start(db)], [], [], 0, [])
  }

  predicate Waiting(c: Client)
  {
    c.Starting? || c.Collecting? || c.Skipping? || c.Committing?
  }

  predicate Over(c: Client)
  {
    c.Succeeded? || c.Failed? || c.Unexpected?
  }

  predicate Enabled(s: State, step: Step)
  {
    match step
    case Take(_) => !s.server.gone && s.requests != [] && s.outbox == []
    case Deliver => s.outbox != []
    case Receive => Waiting(s.client) && s.responses != []
    case Call(_) => s.client.Ready?
    case Finish(_) => s.client.Ready?
    case Hangup => Over(s.client) && s.requests == [] && s.outbox == [] && s.server.active
  }

  /** The client's next place after one response. */
  function Heard(c: Client, p: Payload): Client
  {
    match c
    case Starting =>
      (match p
       case QueryFinished => Ready
       case ErrorMessage(_) => Failed
       case _ => Unexpected)
    case Collecting(got) =>
      (match p
       case QueryResult(item) => Collecting(got + [item])
       case QueryFinished => Ready
       case ErrorMessage(_) => Skipping
       case _ => Unexpected)
    case Skipping => Ready
    case Committing =>
      (match p
       case CommitResult(success) => if success then Succeeded else Failed
       case ErrorMessage(_) => Failed
       case _ => Unexpected)
    case _ => c
  }

  /** What the client hands to its caller on one response: the result of the call that it ends. */
  function HandedOut(c: Client, p: Payload): seq<Option<seq<string>>>
  {
    if c.Collecting? && p.QueryFinished? then [Some(c.got)] else if c.Skipping? then [None] else []
  }

  function Next(s: State, step: Step): State
    requires Enabled(s, step)
  {
    match step
    case Take(a) =>
      var (server, out) := React(s.server, Some(s.requests[0]), a);
      s.(server := server, requests := s.requests[1..], outbox := out)
    case Deliver => s.(responses := s.responses + [s.outbox[0]], outbox := s.outbox[1..])
    case Receive =>
      s.(client := Heard(s.client, s.responses[0]), responses := s.responses[1..],
         returned := s.returned + HandedOut(s.client, s.responses[0]))
    case Call(sql) => s.(client := Collecting([]), requests := s.requests + [Execute(sql)])
    case Finish(ok) =>
      if ok then s.(client := Committing, requests := s.requests + [Commit], commitsSent := s.commitsSent + 1)
      else s.(client := Failed, requests := s.requests + [Rollback])
    case Hangup => s.(server := s.server.(active := false, rolledBack := s.server.rolledBack + 1))
  }

  // ---------- What every state keeps ----------

  /** The responses on their way to the client, oldest first. */
  function Unread(s: State): seq<Payload>
  {
    s.responses + s.outbox
  }

  predicate Open(s: Server)
  {
    s.active && !s.finished && !s.gone && s.started == 1 && s.committed == 0 && s.rolledBack == 0
  }

  predicate Lockstep(s: State)
  {
    var unread := Unread(s);
    match s.client
    case Starting =>
      || (|s.requests| == 1 && s.requests[0].Start? && unread == [] && s.server == Server(false, false, false, 0, 0, 0))
      || (s.requests == [] && unread == [QueryFinished] && Open(s.server))
      || (s.requests == [] && |unread| == 1 && unread[0].ErrorMessage? && s.server == Server(false, false, true, 0, 0, 0))
    case Ready => s.requests == [] && unread == [] && Open(s.server)
    case Collecting(_) =>
      && Open(s.server)
      && ((|s.requests| == 1 && s.requests[0].Execute? && unread == []) || (s.requests == [] && IsAnswer(unread)))
    case Skipping => s.requests == [] && unread == [QueryFinished] && Open(s.server)
    case Committing =>
      || (s.requests == [Commit] && unread == [] && Open(s.server))
      || (s.requests == [] && !s.server.active && s.server.rolledBack == 0 && s.server.committed <= 1 &&
          unread == [CommitResult(s.server.committed == 1)])
    case Succeeded => s.requests == [] && unread == [] && !s.server.active && s.server.committed == 1 && s.server.rolledBack == 0
    case Failed =>
      && s.server.committed == 0
      && ((s.requests == [Rollback] && unread == [] && Open(s.server)) || (s.requests == [] && !s.server.active && s.server.rolledBack <= 1))
    case Unexpected => false
  }

  predicate Inv(s: State)
  {
    && Lockstep(s) && s.server.committed <= s.commitsSent <= 1 && s.server.started <= 1
    && (s.client.Committing? || s.client.Succeeded? ==> s.commitsSent == 1)
    && (s.client.Starting? || s.client.Ready? || s.client.Collecting? || s.client.Skipping? ==> s.commitsSent == 0)
    && (s.client.Failed? && s.commitsSent == 1 ==> s.requests == [])
  }

  lemma TakeKeeps(s: State, a: Answer)
    requires Inv(s) && Enabled(s, Take(a))
    ensures Inv(Next(s, Take(a)))
  {
    var s' := Next(s, Take(a));
    assert s.responses == [] && s.outbox == [] by { assert Unread(s) == s.responses + []; }
    assert Unread(s') == s'.outbox;
    if s.client.Collecting? && a.rows.Some? {
      var out := Results(a.rows.value) + [QueryFinished];
      assert out[|out| - 1] == QueryFinished;
    }
  }

  lemma DeliverKeeps(s: State)
    requires Inv(s) && Enabled(s, Deliver)
    ensures Inv(Next(s, Deliver))
  {
    assert Unread(Next(s, Deliver)) == Unread(s);
  }

  lemma ReceiveKeeps(s: State)
    requires Inv(s) && Enabled(s, Receive)
    ensures Inv(Next(s, Receive))
  {
    hide IsAnswer, Open, HandedOut;
    var unread, unread' := Unread(s), Unread(Next(s, Receive));
    assert unread[0] == s.responses[0] && unread' == unread[1..];
    if s.client.Collecting? {
      AnswerShrinks(unread);
    }
  }

  lemma AnswerShrinks(ps: seq<Payload>)
    requires IsAnswer(ps)
    ensures ps[0].QueryResult? ==> IsAnswer(ps[1..])
    ensures ps[0] == QueryFinished ==> ps[1..] == []
    ensures ps[0].ErrorMessage? ==> ps[1..] == [QueryFinished]
    ensures !ps[0].CommitResult?
  {
  }

  lemma SendKeeps(s: State, step: Step)
    requires Inv(s) && Enabled(s, step) && (step.Call? || step.Finish? || step.Hangup?)
    ensures Inv(Next(s, step))
  {
  }

  lemma StepKeeps(s: State, step: Step)
    requires Inv(s) && Enabled(s, step)
    ensures Inv(Next(s, step))
  {
    match step
    case Take(a) => TakeKeeps(s, a);
    case Deliver => DeliverKeeps(s);
    case Receive => ReceiveKeeps(s);
    case _ => SendKeeps(s, step);
  }

  // ---------- Whole runs ----------

  ghost predicate Runs(db: string, steps: seq<Step>, s: State)
    decreases |steps|
  {
    if steps == [] then s == Initial(db)
    else
      var front, last := steps[..|steps| - 1], steps[|steps| - 1];
      exists before :: Runs(db, front, before) && Enabled(before, last) && s == Next(before, last)
  }

  lemma {:induction false} RunKeeps(db: string, steps: seq<Step>, s: State)
    requires Runs(db, steps, s)
    ensures Inv(s)
    decreases |steps|
  {
    if steps != [] {
      var last := steps[|steps| - 1];
      var before :| Runs(db, steps[..|steps| - 1], before) && Enabled(before, last) && s == Next(before, last);
      RunKeeps(db, steps[..|steps| - 1], before);
      StepKeeps(before, last);
    }
  }

  /** In every interleaving: the client never meets an answer it does not foresee, and when it is free to
      send, nothing is unread or pending and the server has an open transaction. */
  lemma EveryRunIsLockstep(db: string, steps: seq<Step>, s: State)
    requires Runs(db, steps, s)
    ensures !s.client.Unexpected?
    ensures s.client.Ready? ==> s.requests == [] && s.outbox == [] && s.responses == [] && s.server.active && !s.server.finished && !s.server.gone
  {
    RunKeeps(db, steps, s);
    if s.client.Ready? {
      assert |Unread(s)| == |s.responses| + |s.outbox|;
    }
  }

  /** No run gets stuck: a client that is free may call or finish as it likes; one that waits is about to
      receive, or the server to deliver, or to take its command with any answer; and a client that is
      through leaves no open transaction behind, except for the command that ends it. */
  lemma NoRunIsStuck(db: string, steps: seq<Step>, s: State)
    requires Runs(db, steps, s)
    ensures s.client.Ready? ==> (forall sql :: Enabled(s, Call(sql))) && forall ok :: Enabled(s, Finish(ok))
    ensures !s.client.Ready? && !Over(s.client) ==>
      Enabled(s, Receive) || Enabled(s, Deliver) || forall a :: Enabled(s, Take(a))
    ensures Over(s.client) && s.server.active ==> forall a :: Enabled(s, Take(a))
  {
    RunKeeps(db, steps, s);
    hide Runs;
    if !s.client.Ready? {
      hide IsAnswer;
      assert |Unread(s)| == |s.responses| + |s.outbox|;
      assert s.client.Collecting? && s.requests == [] ==> Unread(s) != [] by { AnswersAreSome(); }
    }
  }

  lemma AnswersAreSome()
    ensures !IsAnswer([])
  {
  }

  /** A transaction is committed at most once, only after the one Commit command, and never also rolled
      back; the client reports success exactly when it was committed. */
  lemma EveryRunCommitsOnce(db: string, steps: seq<Step>, s: State)
    requires Runs(db, steps, s)
    ensures s.server.committed <= s.commitsSent <= 1
    ensures s.server.committed + s.server.rolledBack <= 1 && s.server.started <= 1
    ensures Over(s.client) ==> (s.client.Succeeded? <==> s.server.committed == 1)
  {
    RunKeeps(db, steps, s);
  }

  // ---------- Each call gets its own answer ----------

  /** The answers that the database gave, one for each request taken. */
  function Taken(steps: seq<Step>): seq<Answer>
  {
    if steps == [] then [] else Taken(steps[..|steps| - 1]) + Takes(steps[|steps| - 1])
  }

  function Takes(step: Step): seq<Answer>
  {
    if step.Take? then [step.answer] else []
  }

  /** The commands that the client sent. */
  function Sent(db: string, steps: seq<Step>): (sent: seq<Command>)
    ensures sent != []
  {
    if steps == [] then [Start(db)] else Sent(db, steps[..|steps| - 1]) + Sends(steps[|steps| - 1])
  }

  function Sends(step: Step): seq<Command>
  {
    match step
    case Call(sql) => [Execute(sql)]
    case Finish(ok) => [if ok then Commit else Rollback]
    case _ => []
  }

  function Calls(steps: seq<Step>): nat
  {
    if steps == [] then 0 else Calls(steps[..|steps| - 1]) + if steps[|steps| - 1].Call? then 1 else 0
  }

  /** Result i is that of the answer given to command i + 1; command 0 is the start. */
  predicate ResultsFit(taken: seq<Answer>, returned: seq<Option<seq<string>>>)
  {
    |returned| == 0 || (|returned| < |taken| && forall i :: 0 <= i < |returned| ==> returned[i] == Outcome(taken[i + 1]))
  }

  /** What is still to be read of the answer to the present call. */
  predicate Remaining(a: Answer, got: seq<string>, unread: seq<Payload>)
  {
    match Outcome(a)
    case Some(rows) => got <= rows && unread == Results(rows[|got|..]) + [QueryFinished]
    case None => got == [] && |unread| == 2 && unread[0].ErrorMessage? && unread[1] == QueryFinished
  }

  /** Where the client's calls stand, told by the commands sent and the answers taken. */
  predicate Told(s: State, sent: seq<Command>, taken: seq<Answer>, calls: nat)
  {
    && |taken| <= |sent| && s.requests == sent[|taken|..] && ResultsFit(taken, s.returned)
    && match s.client
       case Starting => calls == 0 && |sent| == 1 && sent[0].Start? && s.returned == []
       case Ready => |sent| == calls + 1 && |s.returned| == calls && |taken| == calls + 1
       case Collecting(got) =>
         && |sent| == calls + 1 && |s.returned| + 1 == calls && |taken| >= calls
         && (|taken| == calls ==> got == [])
         && (|taken| == calls + 1 ==> Remaining(taken[calls], got, Unread(s)))
       case Skipping =>
         |sent| == calls + 1 && |s.returned| + 1 == calls && |taken| == calls + 1 && Outcome(taken[calls]).None?
       case Committing =>
         && |sent| == calls + 2 && sent[calls + 1] == Commit && |s.returned| == calls && |taken| >= calls + 1
         && (|taken| == calls + 2 ==> (s.server.committed == 1 <==> taken[calls + 1].commits))
       case Succeeded =>
         |sent| == |taken| == calls + 2 && sent[calls + 1] == Commit && |s.returned| == calls && taken[calls + 1].commits
       case Failed =>
         && calls + 1 <= |sent| <= calls + 2 && |s.returned| == calls && (|sent| == calls + 1 ==> calls == 0 && sent[0].Start?)
         && (|sent| == calls + 2 && sent[calls + 1] == Commit ==> |taken| == calls + 2 && !taken[calls + 1].commits)
       case Unexpected => false
  }

  lemma TakeTells(s: State, a: Answer, sent: seq<Command>, taken: seq<Answer>, calls: nat)
    requires Inv(s) && Enabled(s, Take(a)) && Told(s, sent, taken, calls)
    ensures Told(Next(s, Take(a)), sent, taken + [a], calls)
  {
    var s' := Next(s, Take(a));
    assert |s.requests| == |sent| - |taken|;
    assert s.requests[0] == sent[|taken|] && s'.requests == sent[|taken| + 1..];
    assert |Unread(s)| == |s.responses| + |s.outbox|;
    if s.client.Collecting? {
      assert s.responses == [] && Unread(s') == s'.outbox;
      assert (taken + [a])[calls] == a;
      ExecuteRemains(s.server, s.requests[0], a);
    }
  }

  lemma ExecuteRemains(server: Server, request: Command, a: Answer)
    requires Open(server) && request.Execute?
    ensures Remaining(a, [], React(server, Some(request), a).1)
  {
    if Outcome(a).Some? {
      assert a.rows.value[0..] == a.rows.value;
    }
  }

  lemma DeliverTells(s: State, sent: seq<Command>, taken: seq<Answer>, calls: nat)
    requires Enabled(s, Deliver) && Told(s, sent, taken, calls)
    ensures Told(Next(s, Deliver), sent, taken, calls)
  {
    hide ResultsFit, Remaining;
    assert Unread(Next(s, Deliver)) == Unread(s);
  }

  lemma RemainingHead(a: Answer, got: seq<string>, unread: seq<Payload>)
    requires Remaining(a, got, unread)
    ensures unread != [] && !unread[0].CommitResult?
    ensures unread[0].QueryResult? ==> Remaining(a, got + [unread[0].item], unread[1..])
    ensures unread[0].QueryFinished? ==> Outcome(a) == Some(got)
    ensures unread[0].ErrorMessage? ==> Outcome(a).None?
  {
    if Outcome(a).Some? {
      var rows := Outcome(a).value;
      if |got| < |rows| {
        assert unread[0] == QueryResult(rows[|got|]);
        assert got + [rows[|got|]] <= rows;
        assert Results(rows[|got|..])[1..] == Results(rows[|got| + 1..]);
        assert unread[1..] == Results(rows[|got|..])[1..] + [QueryFinished];
      } else {
        assert Results(rows[|got|..]) == [];
        assert got == rows[..|got|] == rows;
      }
    }
  }

  lemma ReceiveTells(s: State, sent: seq<Command>, taken: seq<Answer>, calls: nat)
    requires Inv(s) && Enabled(s, Receive) && Told(s, sent, taken, calls)
    ensures Told(Next(s, Receive), sent, taken, calls)
  {
    hide Inv, Told, Next;
    match s.client
    case Collecting(_) => CollectTells(s, sent, taken, calls);
    case Skipping => SkipTells(s, sent, taken, calls);
    case _ => OtherTells(s, sent, taken, calls);
  }

  lemma CollectTells(s: State, sent: seq<Command>, taken: seq<Answer>, calls: nat)
    requires Inv(s) && Enabled(s, Receive) && Told(s, sent, taken, calls) && s.client.Collecting?
    ensures Told(Next(s, Receive), sent, taken, calls)
  {
    hide Remaining, Open, Outcome, ResultsFit, IsAnswer;
    var s' := Next(s, Receive);
    var unread, unread' := Unread(s), Unread(s');
    assert unread[0] == s.responses[0] && unread' == unread[1..];
    assert |s.requests| == |sent| - |taken|;
    assert s.requests == [];
    hide Inv, Lockstep;
    RemainingHead(taken[calls], s.client.got, unread);
    ReturnedFit(taken, s.returned, HandedOut(s.client, s.responses[0]));
  }

  lemma SkipTells(s: State, sent: seq<Command>, taken: seq<Answer>, calls: nat)
    requires Enabled(s, Receive) && Told(s, sent, taken, calls) && s.client.Skipping?
    ensures Told(Next(s, Receive), sent, taken, calls)
  {
    hide Remaining, Outcome, ResultsFit;
    ReturnedFit(taken, s.returned, [None]);
  }

  lemma OtherTells(s: State, sent: seq<Command>, taken: seq<Answer>, calls: nat)
    requires Inv(s) && Enabled(s, Receive) && Told(s, sent, taken, calls) && (s.client.Starting? || s.client.Committing?)
    ensures Told(Next(s, Receive), sent, taken, calls)
  {
    hide Remaining, Outcome, ResultsFit;
    var s' := Next(s, Receive);
    var unread := Unread(s);
    assert unread[0] == s.responses[0];
    assert |s.requests| == |sent| - |taken|;
    assert s'.returned == s.returned;
  }

  lemma ReturnedFit(taken: seq<Answer>, returned: seq<Option<seq<string>>>, more: seq<Option<seq<string>>>)
    requires ResultsFit(taken, returned)
    ensures more == [] ==> ResultsFit(taken, returned + more)
    ensures |more| == 1 && |returned| + 1 < |taken| && more[0] == Outcome(taken[|returned| + 1]) ==> ResultsFit(taken, returned + more)
  {
    assert more == [] ==> returned + more == returned;
  }

  lemma SendTells(s: State, step: Step, sent: seq<Command>, taken: seq<Answer>, calls: nat)
    requires Inv(s) && Enabled(s, step) && (step.Call? || step.Finish? || step.Hangup?) && Told(s, sent, taken, calls)
    ensures Told(Next(s, step), sent + Sends(step), taken, calls + if step.Call? then 1 else 0)
  {
    hide ResultsFit, Remaining, Open;
    assert s.requests == sent[|taken|..];
    assert (sent + Sends(step))[|taken|..] == sent[|taken|..] + Sends(step);
  }

  lemma StepTells(s: State, step: Step, sent: seq<Command>, taken: seq<Answer>, calls: nat)
    requires Inv(s) && Enabled(s, step) && Told(s, sent, taken, calls)
    ensures Told(Next(s, step), sent + Sends(step), taken + Takes(step), calls + if step.Call? then 1 else 0)
  {
    hide Told, Inv, Enabled, Next;
    assert sent + [] == sent && taken + [] == taken;
    match step
    case Take(a) => TakeTells(s, a, sent, taken, calls);
    case Deliver => DeliverTells(s, sent, taken, calls);
    case Receive => ReceiveTells(s, sent, taken, calls);
    case _ => SendTells(s, step, sent, taken, calls);
  }

  lemma {:induction false} RunTells(db: string, steps: seq<Step>, s: State)
    requires Runs(db, steps, s)
    ensures Told(s, Sent(db, steps), Taken(steps), Calls(steps))
    decreases |steps|
  {
    if steps == [] {
      StartTells(db);
    } else {
      hide Told, Inv, Enabled, Next;
      var front, last := steps[..|steps| - 1], steps[|steps| - 1];
      var before :| Runs(db, front, before) && Enabled(before, last) && s == Next(before, last);
      RunKeeps(db, front, before);
      RunTells(db, front, before);
      StepTells(before, last, Sent(db, front), Taken(front), Calls(front));
    }
  }

  lemma StartTells(db: string)
    ensures Told(Initial(db), [Start(db)], [], 0)
  {
  }

  /**
   In every interleaving: the server takes the client's commands in the order they were sent; result
   number i that the client hands to its caller is that of the answer the database gave to its i-th
   query, all rows in order or the error; and when the client is ready every call has its result.
   */
  lemma EveryCallGetsItsAnswer(db: string, steps: seq<Step>, s: State)
    requires Runs(db, steps, s)
    ensures |Taken(steps)| <= |Sent(db, steps)| && s.requests == Sent(db, steps)[|Taken(steps)|..]
    ensures |s.returned| <= Calls(steps) && (s.client.Ready? || Over(s.client) ==> |s.returned| == Calls(steps))
    ensures s.returned != [] ==> |s.returned| < |Taken(steps)|
    ensures forall i :: 0 <= i < |s.returned| ==> s.returned[i] == Outcome(Taken(steps)[i + 1])
  {
    RunTells(db, steps, s);
  }

  /** Once the client is through after asking for the commit, it reports success exactly when the
      database's answer to that command was that it committed. */
  lemma EveryCommitIsReported(db: string, steps: seq<Step>, s: State)
    requires Runs(db, steps, s) && Over(s.client) && Sent(db, steps)[|Sent(db, steps)| - 1] == Commit
    ensures |Taken(steps)| == |Sent(db, steps)|
    ensures s.client.Succeeded? <==> Taken(steps)[|Taken(steps)| - 1].commits
  {
    hide Runs;
    RunTells(db, steps, s);
  }

  // ---------- Collecting one query's answer ----------

  datatype QueryOutcome = Ok(results: seq<string>) | Error(message: string) | StreamEnded | Surprise

  /** The client's read loop for one query: results up to the end marker; after an error it also takes the marker. */
  method CollectAnswer(stream: seq<Payload>) returns (outcome: QueryOutcome, rest: seq<Payload>)
    ensures forall rows, more :: stream == Results(rows) + [QueryFinished] + more ==> outcome == Ok(rows) && rest == more
    ensures forall m, more :: stream == [ErrorMessage(m), QueryFinished] + more ==> outcome == Error(m) && rest == more
    ensures forall a: Answer, out: seq<Payload>, more :: Answers(a, out) && stream == out + more ==>
      rest == more && if Outcome(a).Some? then outcome == Ok(Outcome(a).value) else outcome.Error?
  {
    AnswerShapes();
    hide Answers;
    var got: seq<string> := [];
    rest := stream;
    while rest != []
      invariant |got| + |rest| == |stream| && rest == stream[|got|..]
      invariant forall i :: 0 <= i < |got| ==> stream[i] == QueryResult(got[i])
      decreases |rest|
    {
      match rest[0]
      case QueryResult(item) =>
        got, rest := got + [item], rest[1..];
      case QueryFinished =>
        AnswerIs(stream, got);
        return Ok(got), rest[1..];
      case ErrorMessage(m) =>
        AnswerFails(stream, got);
        return Error(m), if |rest| > 1 then rest[2..] else [];
      case CommitResult(_) =>
        AnswerFails(stream, got);
        return Surprise, rest[1..];
    }
    AnswerEnds(stream, got);
    outcome := StreamEnded;
  }

  lemma AnswerShapes()
    ensures forall a: Answer, out: seq<Payload> :: Answers(a, out) ==>
      out == if Outcome(a).Some? then Results(Outcome(a).value) + [QueryFinished] else [ErrorMessage(out[0].message), QueryFinished]
  {
  }

  lemma AnswerIs(stream: seq<Payload>, got: seq<string>)
    requires |got| < |stream| && stream[|got|] == QueryFinished && forall i :: 0 <= i < |got| ==> stream[i] == QueryResult(got[i])
    ensures forall rows, more :: stream == Results(rows) + [QueryFinished] + more ==> rows == got && more == stream[|got| + 1..]
    ensures forall m, more :: stream != [ErrorMessage(m), QueryFinished] + more
  {
    forall rows, more | stream == Results(rows) + [QueryFinished] + more ensures rows == got && more == stream[|got| + 1..] {
      assert forall i :: 0 <= i < |rows| ==> stream[i] == QueryResult(rows[i]);
      assert stream[|rows|] == QueryFinished;
    }
    forall m, more ensures stream != [ErrorMessage(m), QueryFinished] + more {
      assert ([ErrorMessage(m), QueryFinished] + more)[0] == ErrorMessage(m);
    }
  }

  lemma AnswerFails(stream: seq<Payload>, got: seq<string>)
    requires |got| < |stream| && (stream[|got|].ErrorMessage? || stream[|got|].CommitResult?)
    requires forall i :: 0 <= i < |got| ==> stream[i] == QueryResult(got[i])
    ensures forall rows, more :: stream != Results(rows) + [QueryFinished] + more
    ensures forall m, more :: stream == [ErrorMessage(m), QueryFinished] + more ==>
      got == [] && stream[0] == ErrorMessage(m) && |stream| > 1 && more == stream[2..]
  {
    forall rows, more ensures stream != Results(rows) + [QueryFinished] + more {
      var s := Results(rows) + [QueryFinished] + more;
      assert forall i :: 0 <= i < |rows| ==> s[i] == QueryResult(rows[i]);
      assert s[|rows|] == QueryFinished;
    }
    forall m, more | stream == [ErrorMessage(m), QueryFinished] + more
      ensures got == [] && stream[0] == ErrorMessage(m) && |stream| > 1 && more == stream[2..]
    {
      assert stream[0] == ErrorMessage(m);
    }
  }

  lemma AnswerEnds(stream: seq<Payload>, got: seq<string>)
    requires |got| == |stream| && forall i :: 0 <= i < |got| ==> stream[i] == QueryResult(got[i])
    ensures forall rows, more :: stream != Results(rows) + [QueryFinished] + more
    ensures forall m, more :: stream != [ErrorMessage(m), QueryFinished] + more
  {
    forall rows, more ensures stream != Results(rows) + [QueryFinished] + more {
      assert (Results(rows) + [QueryFinished] + more)[|rows|] == QueryFinished;
    }
    forall m, more ensures stream != [ErrorMessage(m), QueryFinished] + more {
      assert ([ErrorMessage(m), QueryFinished] + more)[0] == ErrorMessage(m);
    }
  }
}
