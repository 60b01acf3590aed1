/** The resumable job event stream: committed steps, polls, deliveries, disconnects and reconnects. */
module EventStream {
  import opened Prelude

  datatype Status = Queued | Running | Succeeded | Failed | Cancelled | Partial

  predicate Terminal(status: Status) {
    status in {Succeeded, Failed, Cancelled, Partial}
  }

  datatype StepRow = StepRow(seq_: nat, action: string)

  datatype Frame = StepFrame(row: StepRow) | DoneFrame(status: Status) | Heartbeat

  /** `SELECT ... WHERE seq > cursor ORDER BY seq` on a log kept in order of `seq`. */
  function Newer(log: seq<StepRow>, cursor: nat): seq<StepRow> {
    if log == [] then []
    else if log[0].seq_ > cursor then [log[0]] + Newer(log[1..], cursor)
    else Newer(log[1..], cursor)
  }

  function Frames(rows: seq<StepRow>): seq<Frame> {
    if rows == [] then [] else Frames(rows[..|rows| - 1]) + [StepFrame(rows[|rows| - 1])]
  }

  function LastSeq(rows: seq<StepRow>, otherwise: nat): nat {
    if rows == [] then otherwise else rows[|rows| - 1].seq_
  }

  /** The generator's local state. */
  class Generator {
    var seq_: nat
    var heartbeatTicks: nat

    constructor (lastEventId: Option<nat>)
      ensures seq_ == (if lastEventId.Some? then lastEventId.value else 0) && heartbeatTicks == 0
    {
      seq_ := if lastEventId.Some? then lastEventId.value else 0;
      heartbeatTicks := 0;
    }

    /** One turn of the loop: what it yields for the rows and the status it reads, and whether it stops. */
    method Turn(log: seq<StepRow>, status: Option<Status>) returns (out: seq<Frame>, stop: bool)
      requires heartbeatTicks < 15
      modifies this
      ensures seq_ == LastSeq(Newer(log, old(seq_)), old(seq_))
      ensures stop <==> status.Some? && Terminal(status.value)
      ensures out == Frames(Newer(log, old(seq_)))
        + if stop then [DoneFrame(status.value)] else if old(heartbeatTicks) == 14 then [Heartbeat] else []
      ensures heartbeatTicks < 15
      ensures !stop ==> heartbeatTicks == (old(heartbeatTicks) + 1) % 15
    {
      var steps := Newer(log, seq_);
      out := [];
      for i := 0 to |steps|
        invariant out == Frames(steps[..i])
        invariant seq_ == LastSeq(steps[..i], old(seq_))
        invariant heartbeatTicks == old(heartbeatTicks)
      {
        assert steps[..i + 1][..i] == steps[..i];
        seq_ := steps[i].seq_;
        out := out + [StepFrame(steps[i])];
      }
      assert steps[..|steps|] == steps;
      if status.Some? && Terminal(status.value) {
        return out + [DoneFrame(status.value)], true;
      }
      heartbeatTicks := heartbeatTicks + 1;
      if heartbeatTicks >= 15 {
        heartbeatTicks := 0;
        out := out + [Heartbeat];
      }
      stop := false;
    }
  }

  // ---------------------------------------------------------------- the protocol

  /**
    * A connection: the server's cursor, the rows it has read but the client has not yet received, how long
    * the log was when they were read, and the status if it was read in the same snapshot.
    */
  datatype Connection =
    | Closed
    | Waiting(cursor: nat)
    | Yielding(cursor: nat, pending: seq<StepRow>, polled: nat, seen: Option<Status>)

  datatype World = World(
    log: seq<StepRow>, status: Status, received: seq<StepRow>, connection: Connection, done: bool)

  datatype Action =
    | Commit(rows: seq<StepRow>, newStatus: Option<Status>)
    | Connect
    | Disconnect
    | Poll(snapshot: bool)
    | Deliver
    | Conclude

  const START := World([], Queued, [], Closed, false)

  predicate Ascending(rows: seq<StepRow>) {
    && (forall i :: 0 <= i < |rows| ==> rows[i].seq_ > 0)
    && (forall i, j :: 0 <= i < j < |rows| ==> rows[i].seq_ < rows[j].seq_)
  }

  /** The worker commits steps in ascending order, and nothing after a terminal status. */
  predicate Enabled(w: World, action: Action) {
    match action
    case Commit(rows, newStatus) => !Terminal(w.status) && Ascending(w.log + rows)
    case Connect => w.connection.Closed?
    case Disconnect => !w.connection.Closed?
    case Poll(_) => w.connection.Waiting?
    case Deliver => w.connection.Yielding? && w.connection.pending != []
    case Conclude => w.connection.Yielding? && w.connection.pending == []
  }

  function Apply(w: World, action: Action): World
    requires Enabled(w, action)
  {
    match action
    case Commit(rows, newStatus) =>
      w.(log := w.log + rows, status := if newStatus.Some? then newStatus.value else w.status)
    case Connect => w.(connection := Waiting(LastSeq(w.received, 0)))
    case Disconnect => w.(connection := Closed)
    case Poll(snapshot) =>
      w.(connection := Yielding(w.connection.cursor, Newer(w.log, w.connection.cursor), |w.log|,
                                if snapshot then Some(w.status) else None))
    case Deliver =>
      var row := w.connection.pending[0];
      w.(received := w.received + [row],
         connection := w.connection.(cursor := row.seq_, pending := w.connection.pending[1..]))
    case Conclude =>
      var status := if w.connection.seen.Some? then w.connection.seen.value else w.status;
      if Terminal(status) then w.(connection := Closed, done := true)
      else w.(connection := Waiting(w.connection.cursor))
  }

  ghost predicate Runs(w: World, actions: seq<Action>, w': World)
    decreases actions
  {
    if actions == [] then w' == w
    else Enabled(w, actions[0]) && Runs(Apply(w, actions[0]), actions[1..], w')
  }

  // ---------------------------------------------------------------- the invariant

  ghost predicate Inv(w: World) {
    && Ascending(w.log)
    && w.received <= w.log
    && match w.connection
       case Closed => true
       case Waiting(cursor) => cursor == LastSeq(w.received, 0)
       case Yielding(cursor, pending, polled, seen) =>
         && cursor == LastSeq(w.received, 0)
         && polled <= |w.log|
         && w.received + pending == w.log[..polled]
  }

  /** On an ascending log, what is newer than the last row of a prefix is the rest. */
  lemma {:induction false} NewerIsRest(log: seq<StepRow>, n: nat)
    requires Ascending(log) && n <= |log|
    ensures Newer(log, LastSeq(log[..n], 0)) == log[n..]
  {
    NewerDrops(log, n, LastSeq(log[..n], 0));
    NewerKeeps(log[n..], LastSeq(log[..n], 0));
  }

  lemma {:induction false} NewerDrops(log: seq<StepRow>, n: nat, cursor: nat)
    requires n <= |log|
    requires forall i :: 0 <= i < n ==> log[i].seq_ <= cursor
    ensures Newer(log, cursor) == Newer(log[n..], cursor)
  {
    if n > 0 {
      NewerDrops(log[1..], n - 1, cursor);
      assert log[1..][n - 1..] == log[n..];
    } else {
      assert log[0..] == log;
    }
  }

  lemma {:induction false} NewerKeeps(log: seq<StepRow>, cursor: nat)
    requires forall i :: 0 <= i < |log| ==> log[i].seq_ > cursor
    ensures Newer(log, cursor) == log
  {
    if log != [] {
      NewerKeeps(log[1..], cursor);
      assert log == [log[0]] + log[1..];
    }
  }

  lemma {:induction false} StepKeepsInv(w: World, action: Action)
    requires Inv(w) && Enabled(w, action)
    ensures Inv(Apply(w, action))
  {
    match action
    case Commit(rows, newStatus) =>
      if w.connection.Yielding? {
        assert (w.log + rows)[..w.connection.polled] == w.log[..w.connection.polled];
      }
    case Poll(_) =>
      assert w.received == w.log[..|w.received|];
      NewerIsRest(w.log, |w.received|);
      assert w.received + w.log[|w.received|..] == w.log == w.log[..|w.log|];
    case Deliver =>
      var pending := w.connection.pending;
      assert w.received + [pending[0]] + pending[1..] == w.received + pending;
      assert w.received + [pending[0]] <= w.log[..w.connection.polled] <= w.log;
    case _ =>
  }

  /**
    * Over any interleaving of commits, polls, disconnects and reconnects, what the client has received is a
    * prefix of the committed steps: nothing twice, nothing skipped, in order, whatever gaps the numbers have.
    */
  lemma {:induction false} ReceivedIsAPrefix(w: World, actions: seq<Action>, w': World)
    requires Inv(w) && Runs(w, actions, w')
    ensures Inv(w') && w'.received <= w'.log
    ensures w.received <= w'.received && w.log <= w'.log
    decreases actions
  {
    if actions != [] {
      StepKeepsInv(w, actions[0]);
      ReceivedIsAPrefix(Apply(w, actions[0]), actions[1..], w');
    }
  }

  /** The rows a poll read can all be delivered, one by one; the cursor is then the last one's number. */
  lemma {:induction false} DeliverAll(w: World)
    requires w.connection.Yielding?
    ensures
      var rows := w.connection.pending;
      Runs(w, seq(|rows|, _ => Deliver),
        w.(received := w.received + rows,
           connection := w.connection.(cursor := LastSeq(rows, w.connection.cursor), pending := [])))
    decreases |w.connection.pending|
  {
    var rows := w.connection.pending;
    var actions := seq(|rows|, _ => Deliver);
    if rows == [] {
      assert w.received + [] == w.received;
    } else {
      var next := Apply(w, Deliver);
      assert actions[1..] == seq(|rows[1..]|, _ => Deliver);
      assert next.received + rows[1..] == w.received + rows;
      DeliverAll(next);
    }
  }

  function RowsIn(frames: seq<Frame>): seq<StepRow> {
    if frames == [] then []
    else
      var last := frames[|frames| - 1];
      RowsIn(frames[..|frames| - 1]) + if last.StepFrame? then [last.row] else []
  }

  lemma {:induction false} RowsOfFrames(rows: seq<StepRow>, end: seq<Frame>)
    requires |end| <= 1 && (end != [] ==> !end[0].StepFrame?)
    ensures RowsIn(Frames(rows) + end) == rows
    decreases |rows|, |end|
  {
    if end != [] {
      RowsOfFrames(rows, []);
      assert (Frames(rows) + end)[..|Frames(rows)|] == Frames(rows) + [];
    } else {
      assert Frames(rows) + end == Frames(rows);
      if rows != [] {
        var n := |rows| - 1;
        RowsOfFrames(rows[..n], []);
        assert Frames(rows)[..|Frames(rows)| - 1] == Frames(rows[..n]) + [];
      }
    }
  }

  /**
    * A turn of the generator is a poll, the deliveries of all it read, and a conclusion: the client has then
    * received exactly the rows of the frames, and generator and connection agree on the cursor.
    */
  method TurnIsPollAndDeliver(g: Generator, w: World, snapshot: bool)
    returns (out: seq<Frame>, stop: bool, ghost actions: seq<Action>, ghost w': World)
    requires w.connection == Waiting(g.seq_) && g.heartbeatTicks < 15
    modifies g
    ensures Runs(w, actions, w')
    ensures w'.received == w.received + RowsIn(out) && w'.log == w.log && w'.status == w.status
    ensures if stop then w'.done && w'.connection.Closed? else w'.connection == Waiting(g.seq_) && w'.done == w.done
  {
    ghost var rows := Newer(w.log, g.seq_);
    out, stop := g.Turn(w.log, Some(w.status));
    RowsOfFrames(rows, out[|Frames(rows)|..]);
    assert out == Frames(rows) + out[|Frames(rows)|..];
    ghost var polled := Apply(w, Poll(snapshot));
    ghost var deliveries: seq<Action> := seq(|rows|, _ => Deliver);
    ghost var delivered := polled.(received := w.received + rows,
                                   connection := polled.connection.(cursor := g.seq_, pending := []));
    OneAction(w, Poll(snapshot));
    DeliverAll(polled);
    RunsAppend(w, [Poll(snapshot)], polled, deliveries, delivered);
    OneAction(delivered, Conclude);
    w' := Apply(delivered, Conclude);
    actions := [Poll(snapshot)] + deliveries + [Conclude];
    RunsAppend(w, [Poll(snapshot)] + deliveries, delivered, [Conclude], w');
  }

  // ---------------------------------------------------------------- done

  /** What the stream knows when it concludes: the rows up to `polled`, all of them received. */
  lemma ConcludesWithAllPolled(w: World)
    requires Inv(w) && Enabled(w, Conclude)
    ensures w.received == w.log[..w.connection.polled]
    ensures w.received == w.log <==> w.connection.polled == |w.log|
  {
    assert w.received + [] == w.received;
  }

  /** A terminal status seen in a snapshot means nothing was committed after the snapshot. */
  ghost predicate Settled(w: World) {
    && (w.connection.Yielding? && w.connection.seen.Some? && Terminal(w.connection.seen.value) ==>
          Terminal(w.status) && w.connection.polled == |w.log|)
    && (w.done ==> Terminal(w.status) && w.received == w.log)
  }

  ghost predicate SnapshotPolls(actions: seq<Action>) {
    forall i :: 0 <= i < |actions| && actions[i].Poll? ==> actions[i].snapshot
  }

  ghost predicate SawStatus(w: World) {
    w.connection.Yielding? ==> w.connection.seen.Some?
  }

  lemma {:induction false} SnapshotStepKeepsSettled(w: World, action: Action)
    requires Inv(w) && Settled(w) && SawStatus(w) && Enabled(w, action)
    requires action.Poll? ==> action.snapshot
    ensures Settled(Apply(w, action)) && SawStatus(Apply(w, action))
  {
    if action.Conclude? { ConcludesWithAllPolled(w); }
  }

  /** With polls that read steps and status in one snapshot, `done` is sent only after every committed step. */
  lemma {:induction false} DoneComesLast(w: World, actions: seq<Action>, w': World)
    requires Inv(w) && Settled(w) && SawStatus(w)
    requires Runs(w, actions, w') && SnapshotPolls(actions)
    ensures w'.done ==> Terminal(w'.status) && w'.received == w'.log
    decreases actions
  {
    if actions != [] {
      StepKeepsInv(w, actions[0]);
      SnapshotStepKeepsSettled(w, actions[0]);
      assert SnapshotPolls(actions[1..]) by {
        forall i | 0 <= i < |actions[1..]| && actions[1..][i].Poll? ensures actions[1..][i].snapshot {
          assert actions[1..][i] == actions[i + 1];
        }
      }
      DoneComesLast(Apply(w, actions[0]), actions[1..], w');
    }
  }

  /** From a fresh job on, both guarantees hold of every run. */
  lemma FreshJob(actions: seq<Action>, w': World)
    requires Runs(START, actions, w')
    ensures w'.received <= w'.log && Ascending(w'.log)
    ensures SnapshotPolls(actions) && w'.done ==> w'.received == w'.log
  {
    ReceivedIsAPrefix(START, actions, w');
    if SnapshotPolls(actions) { DoneComesLast(START, actions, w'); }
  }

  // ---------------------------------------------------------------- a screening job, polled in two statements

  /** The steps of a screening job that `process_job` commits one by one, and the one it commits with the status. */
  const STEPS: seq<StepRow> := [
    StepRow(1, "prescreen"), StepRow(2, "extract_claims"), StepRow(3, "score_axes"),
    StepRow(4, "thesis_and_recommend"), StepRow(5, "memo")]

  const LAST_STEP := StepRow(6, "done")

  lemma {:induction false} RunsAppend(w: World, first: seq<Action>, w': World, second: seq<Action>, w'': World)
    requires Runs(w, first, w') && Runs(w', second, w'')
    ensures Runs(w, first + second, w'')
    decreases first
  {
    if first == [] {
      assert first + second == second;
    } else {
      RunsAppend(Apply(w, first[0]), first[1..], w', second, w'');
      assert (first + second)[1..] == first[1..] + second;
    }
  }

  function Commits(rows: seq<StepRow>): seq<Action> {
    if rows == [] then [] else [Commit([rows[0]], None)] + Commits(rows[1..])
  }

  /** Committing steps one by one. */
  lemma {:induction false} CommitAll(w: World, rows: seq<StepRow>)
    requires !Terminal(w.status) && Ascending(w.log + rows)
    ensures Runs(w, Commits(rows), w.(log := w.log + rows))
    decreases rows
  {
    if rows == [] {
      assert w.log + [] == w.log;
    } else {
      var next := w.(log := w.log + [rows[0]]);
      assert next.log + rows[1..] == w.log + rows;
      assert forall k :: 0 <= k < |next.log| ==> next.log[k] == (w.log + rows)[k];
      CommitAll(next, rows[1..]);
      assert Commits(rows)[1..] == Commits(rows[1..]);
    }
  }

  lemma OneAction(w: World, action: Action)
    requires Enabled(w, action)
    ensures Runs(w, [action], Apply(w, action))
  {
    assert [action][1..] == [];
    assert Runs(Apply(w, action), [], Apply(w, action));
  }

  const LOGGED := World(STEPS, Running, [], Closed, false)

  const RUNNING := World([], Running, [], Closed, false)

  lemma JobStarts()
    ensures Runs(START, [Commit([], Some(Running))], RUNNING)
  {
    OneAction(START, Commit([], Some(Running)));
    assert START.log + [] == [];
  }

  lemma StepsClimb()
    ensures Ascending(STEPS)
  {
  }

  /** The worker starts the job and commits five steps. */
  lemma FiveStepsCommitted()
    ensures Runs(START, [Commit([], Some(Running))] + Commits(STEPS), LOGGED)
  {
    hide Runs, Commits, Ascending;
    JobStarts();
    StepsClimb();
    assert [] + STEPS == STEPS;
    CommitAll(RUNNING, STEPS);
    RunsAppend(START, [Commit([], Some(Running))], RUNNING, Commits(STEPS), LOGGED);
  }

  /** A client connects, polls, and receives them. */
  lemma FiveStepsDelivered()
    ensures Runs(LOGGED, [Connect, Poll(false)] + seq(|STEPS|, _ => Deliver) + [Conclude], World(STEPS, Running, STEPS, Waiting(5), false))
  {
    hide Runs;
    var connected := Apply(LOGGED, Connect);
    OneAction(LOGGED, Connect);
    NewerKeeps(STEPS, 0);
    var polled := Apply(connected, Poll(false));
    OneAction(connected, Poll(false));
    RunsAppend(LOGGED, [Connect], connected, [Poll(false)], polled);
    assert [Connect] + [Poll(false)] == [Connect, Poll(false)];
    DeliverAll(polled);
    var delivered := World(STEPS, Running, STEPS, Yielding(5, [], 5, None), false);
    assert polled.received + STEPS == STEPS;
    RunsAppend(LOGGED, [Connect, Poll(false)], polled, seq(|STEPS|, _ => Deliver), delivered);
    OneAction(delivered, Conclude);
    RunsAppend(LOGGED, [Connect, Poll(false)] + seq(|STEPS|, _ => Deliver), delivered, [Conclude], Apply(delivered, Conclude));
  }

  /** A client that follows a screening job has received its five steps when the last commit is still to come. */
  lemma FiveStepsReceived() returns (actions: seq<Action>)
    ensures Runs(START, actions, World(STEPS, Running, STEPS, Waiting(5), false))
  {
    hide Runs;
    var committing := [Commit([], Some(Running))] + Commits(STEPS);
    var following := [Connect, Poll(false)] + seq(|STEPS|, _ => Deliver) + [Conclude];
    FiveStepsCommitted();
    FiveStepsDelivered();
    RunsAppend(START, committing, LOGGED, following, World(STEPS, Running, STEPS, Waiting(5), false));
    actions := committing + following;
  }

  /**
    * Polls that read the steps first and the status in a second statement can announce `done` too early: a
    * screening job commits its sixth step together with its final status, and that commit may fall between
    * the statements. The client then holds steps one to five and is told that the job is done.
    */
  lemma DoneCanComeEarly()
    ensures exists actions, w' ::
      Runs(START, actions, w') && w'.done && w'.log == STEPS + [LAST_STEP] && w'.status == Succeeded && w'.received == STEPS
  {
    hide Runs;
    var actions := FiveStepsReceived();
    var w := World(STEPS, Running, STEPS, Waiting(5), false);
    assert Ascending(STEPS);
    NewerIsRest(STEPS, 5);
    assert STEPS[..5] == STEPS && STEPS[5..] == [];
    var polled := Apply(w, Poll(false));
    OneAction(w, Poll(false));
    RunsAppend(START, actions, w, [Poll(false)], polled);
    var last := Commit([LAST_STEP], Some(Succeeded));
    var committed := Apply(polled, last);
    OneAction(polled, last);
    RunsAppend(START, actions + [Poll(false)], polled, [last], committed);
    OneAction(committed, Conclude);
    RunsAppend(START, actions + [Poll(false)] + [last], committed, [Conclude], Apply(committed, Conclude));
  }

  /**
    * Exactly when a two-statement poll that announces `done` has delivered everything: when no step was
    * committed between its two statements; which is sure if the status was already terminal at the first.
    */
  lemma TwoStatementPoll(polledAt: World, between: seq<Action>, w: World)
    requires Inv(polledAt) && polledAt.connection.Waiting?
    requires Runs(Apply(polledAt, Poll(false)), between, w)
    requires forall i :: 0 <= i < |between| ==> between[i].Commit? || between[i].Deliver?
    requires Enabled(w, Conclude) && Terminal(w.status)
    ensures
      var end := Apply(w, Conclude);
      && end.done
      && (end.received == end.log <==> end.log == polledAt.log)
      && (Terminal(polledAt.status) ==> end.received == end.log)
  {
    StepKeepsInv(polledAt, Poll(false));
    ReceivedIsAPrefix(Apply(polledAt, Poll(false)), between, w);
    BetweenKeepsPoll(Apply(polledAt, Poll(false)), between, w);
    ConcludesWithAllPolled(w);
    assert polledAt.log <= w.log;
    assert |w.log| == |polledAt.log| ==> w.log == polledAt.log;
  }

  /** Commits and deliveries leave the poll's extent alone, and nothing is committed after a terminal status. */
  lemma {:induction false} BetweenKeepsPoll(w: World, between: seq<Action>, w': World)
    requires w.connection.Yielding? && Runs(w, between, w')
    requires forall i :: 0 <= i < |between| ==> between[i].Commit? || between[i].Deliver?
    ensures w'.connection.Yielding? && w'.connection.polled == w.connection.polled && w'.connection.seen == w.connection.seen
    ensures Terminal(w.status) ==> w'.log == w.log && w'.status == w.status
    decreases between
  {
    if between != [] {
      assert between[0].Commit? || between[0].Deliver?;
      forall i | 0 <= i < |between[1..]| ensures between[1..][i].Commit? || between[1..][i].Deliver? {
        assert between[1..][i] == between[i + 1];
      }
      BetweenKeepsPoll(Apply(w, between[0]), between[1..], w');
    }
  }
}
