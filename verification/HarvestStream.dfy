/** A harvest as its job's event stream tells it. */
module HarvestStream {
  import opened Prelude
  import opened Candidates
  import Harvest
  import HarvestLaws
  import opened EventStream

  function RowOf(step: Harvest.Step): StepRow {
    StepRow(step.number, "ingest." + step.key)
  }

  function LogOf(steps: seq<Harvest.Step>): seq<StepRow> {
    seq(|steps|, i requires 0 <= i < |steps| => RowOf(steps[i]))
  }

  function EndOf(status: Harvest.JobStatus): Status {
    match status
    case Partial => Status.Partial
    case Succeeded => Status.Succeeded
  }

  /** What a harvest leaves: its steps, committed one by one, and then its status without a further step. */
  ghost function StepsOf(text: TextRules, t: Harvest.Tables, org: nat, requested: Option<seq<string>>, demo: bool,
                         answers: Harvest.Answers): seq<StepRow>
  {
    LogOf(Harvest.VisitAll(text, t, Harvest.Opening(demo), org, Harvest.Plan(requested, demo), answers).0.steps)
  }

  ghost function StatusLeft(text: TextRules, t: Harvest.Tables, org: nat, requested: Option<seq<string>>, demo: bool,
                            answers: Harvest.Answers): Status
  {
    EndOf(Harvest.StatusOf(Harvest.VisitAll(text, t, Harvest.Opening(demo), org, Harvest.Plan(requested, demo), answers).1))
  }

  lemma HarvestAscends(text: TextRules, t: Harvest.Tables, org: nat, requested: Option<seq<string>>, demo: bool,
                       answers: Harvest.Answers)
    requires t.steps == []
    ensures Ascending(StepsOf(text, t, org, requested, demo, answers))
  {
    HarvestLaws.StepsClimb(text, t, Harvest.Opening(demo), org, Harvest.Plan(requested, demo), answers);
    hide Harvest.VisitAll;
  }

  /** The worker of a harvest can commit all of it: its steps are numbered as the stream needs them. */
  lemma HarvestCommits(text: TextRules, t: Harvest.Tables, org: nat, requested: Option<seq<string>>, demo: bool,
                       answers: Harvest.Answers)
    requires t.steps == []
    ensures
      var log, status := StepsOf(text, t, org, requested, demo, answers), StatusLeft(text, t, org, requested, demo, answers);
      Runs(RUNNING, Commits(log) + [Commit([], Some(status))], World(log, status, [], Closed, false))
  {
    HarvestAscends(text, t, org, requested, demo, answers);
    var log, status := StepsOf(text, t, org, requested, demo, answers), StatusLeft(text, t, org, requested, demo, answers);
    hide StepsOf, StatusLeft, Runs, Ascending;
    assert [] + log == log && log + [] == log;
    CommitAll(RUNNING, log);
    var committed := World(log, Running, [], Closed, false);
    OneAction(committed, Commit([], Some(status)));
    RunsAppend(RUNNING, Commits(log), committed, [Commit([], Some(status))], World(log, status, [], Closed, false));
  }

  lemma PollReadsTheRest(w: World, snapshot: bool)
    requires Inv(w) && w.connection.Waiting?
    ensures |w.received| <= |w.log|
    ensures Apply(w, Poll(snapshot)) == w.(connection :=
      Yielding(w.connection.cursor, w.log[|w.received|..], |w.log|, if snapshot then Some(w.status) else None))
  {
    assert w.received == w.log[..|w.received|];
    NewerIsRest(w.log, |w.received|);
  }

  /** A job has ended when it neither waits nor runs. */
  predicate Over(status: Status) {
    status != Queued && status != Running
  }

  /** A stream that has seen its job wait or run does not say that it is done. */
  lemma NotDoneBefore(w: World)
    requires Enabled(w, Conclude) && !Over(if w.connection.seen.Some? then w.connection.seen.value else w.status)
    ensures Apply(w, Conclude) == w.(connection := Waiting(w.connection.cursor))
  {
  }

  /** A poll after the end, in one statement or two, delivers what is missing and then says that the job is done. */
  lemma PollAfterEnd(w: World, snapshot: bool)
    requires Inv(w) && w.connection.Waiting? && Over(w.status)
    ensures
      var rest := |w.log| - |w.received|;
      && 0 <= rest
      && Runs(w, [Poll(snapshot)] + seq(rest, _ => Deliver) + [Conclude], w.(received := w.log, connection := Closed, done := true))
  {
    PollReadsTheRest(w, snapshot);
    assert Terminal(w.status);
    var n := |w.received|;
    var rows := w.log[n..];
    assert w.received + rows == w.log;
    var polled := Apply(w, Poll(snapshot));
    var deliveries: seq<Action> := seq(|rows|, _ => Deliver);
    var delivered := polled.(received := w.log, connection := polled.connection.(cursor := LastSeq(rows, polled.connection.cursor), pending := []));
    hide Inv, Terminal, Runs, Newer, LastSeq;
    OneAction(w, Poll(snapshot));
    DeliverAll(polled);
    RunsAppend(w, [Poll(snapshot)], polled, deliveries, delivered);
    OneAction(delivered, Conclude);
    RunsAppend(w, [Poll(snapshot)] + deliveries, delivered, [Conclude], Apply(delivered, Conclude));
  }

  /**
    * Whatever a client did while a harvest ran, the first poll after its end tells it the rest: it then holds every
    * step of the harvest and is told that the job is done, also when sources failed and the harvest ended PARTIAL.
    */
  lemma DoneAfterHarvest(text: TextRules, t: Harvest.Tables, org: nat, requested: Option<seq<string>>, demo: bool,
                         answers: Harvest.Answers, actions: seq<Action>, w: World, snapshot: bool)
    requires Runs(RUNNING, actions, w) && w.connection.Waiting?
    requires w.log == StepsOf(text, t, org, requested, demo, answers)
    requires w.status == StatusLeft(text, t, org, requested, demo, answers)
    ensures
      var rest := |w.log| - |w.received|;
      var told := w.(received := w.log, connection := Closed, done := true);
      && 0 <= rest
      && Runs(w, [Poll(snapshot)] + seq(rest, _ => Deliver) + [Conclude], told)
  {
    assert Inv(RUNNING);
    ReceivedIsAPrefix(RUNNING, actions, w);
    assert Over(w.status);
    hide StepsOf, StatusLeft, Inv, Over, Runs;
    PollAfterEnd(w, snapshot);
  }
}
