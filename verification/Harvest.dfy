/** A harvest: what connectors return is deduplicated, resolved and queued for screening. */
module Harvest {
  import opened Prelude
  import opened Candidates
  import opened CandidateRuns

  // ---------------------------------------------------------------- what a connector answers

  datatype Item = Item(
    hash: string, observedAt: int, kind: Kind, name: string, host: Option<string>, hint: Option<Hint>, hasContent: bool)

  datatype Answer = Disabled | Fails | Items(items: seq<Item>)

  const CONNECTORS: seq<string> := ["github", "hackernews", "arxiv", "tavily"]

  /** The connectors a job names, in its order; all of them by default, none in demonstration mode. */
  function Plan(requested: Option<seq<string>>, demo: bool): seq<string> {
    if demo then [] else if requested.None? then CONNECTORS else OnlyKnown(requested.value)
  }

  function OnlyKnown(keys: seq<string>): seq<string> {
    if keys == [] then []
    else OnlyKnown(keys[..|keys| - 1]) + if keys[|keys| - 1] in CONNECTORS then [keys[|keys| - 1]] else []
  }

  // ---------------------------------------------------------------- the tables and the job's counters

  datatype SourceStatus = Active | Degraded

  datatype Source = Source(key: string, status: SourceStatus)

  datatype ScreenJob = ScreenJob(org: nat, opportunity: nat, signal: nat)

  datatype Reason = NetworkDisabled | NoCredentials | Raised

  datatype Failure = Failure(source: string, reason: Reason)

  datatype Step = Step(number: nat, key: string, degraded: bool)

  /** The tables; `channelKeys` holds the key of each row of the database's channels. */
  datatype Tables = Tables(
    db: Db, sources: seq<Source>, channelKeys: seq<string>, jobs: seq<ScreenJob>, steps: seq<Step>)

  datatype Counts = Counts(ingested: nat, resolved: nat, children: seq<nat>, failures: seq<Failure>)

  datatype JobStatus = Partial | Succeeded

  const NOTHING := Counts(0, 0, [], [])

  ghost predicate Valid(t: Tables) {
    && Inv(t.db)
    && UniqueSignals(t.db.signals)
    && CountersAgree(t.db.persons, t.db.signals)
    && |t.channelKeys| == |t.db.channels|
    && forall i :: 0 <= i < |t.jobs| ==> JobFits(t.db, t.jobs[i])
  }

  /** How many signals are attributed to a person. */
  function Attributed(signals: seq<Signal>, person: nat): nat {
    if signals == [] then 0
    else Attributed(signals[..|signals| - 1], person) + if signals[|signals| - 1].person == Some(person) then 1 else 0
  }

  /** A person's signal count and source count are both the number of signals attributed to the person. */
  ghost predicate CountersAgree(persons: seq<Person>, signals: seq<Signal>) {
    && (forall p :: 0 <= p < |persons| ==> persons[p].signalCount == persons[p].sourceCount == Attributed(signals, p))
    && forall i :: 0 <= i < |signals| && signals[i].person.Some? ==> signals[i].person.value < |persons|
  }

  ghost predicate UniqueSignals(signals: seq<Signal>) {
    forall i, j :: 0 <= i < j < |signals| ==> !SameKey(signals[i].data, signals[j].data)
  }

  predicate SameKey(a: SignalData, b: SignalData) {
    a.source == b.source && a.hash == b.hash && a.observedAt == b.observedAt
  }

  /** A screening job is for the opportunity that its signal's organisation has on its signal's company. */
  ghost predicate JobFits(db: Db, job: ScreenJob) {
    && job.signal < |db.signals| && job.opportunity < |db.opportunities|
    && db.signals[job.signal].data.org == job.org == db.opportunities[job.opportunity].org
    && db.signals[job.signal].company == Some(db.opportunities[job.opportunity].company)
  }

  // ---------------------------------------------------------------- one item

  function DataOf(org: nat, source: nat, item: Item): SignalData {
    SignalData(org, source, item.hash, item.observedAt, item.kind, item.name, item.host, item.hint, item.hasContent)
  }

  function Duplicates(source: nat, item: Item): Signal -> bool {
    (s: Signal) => s.data.source == source && s.data.hash == item.hash && s.data.observedAt == item.observedAt
  }

  predicate Known(db: Db, source: nat, item: Item) {
    Find(Duplicates(source, item), db.signals).Some?
  }

  function Discover(channels: seq<Channel>, channel: nat): seq<Channel> {
    if channel < |channels| then
      channels[channel := channels[channel].(discovered := channels[channel].discovered + 1)]
    else channels
  }

  /** A new item becomes a signal, is resolved, and queues a screening job. */
  function Ingest(text: TextRules, t: Tables, c: Counts, org: nat, source: nat, channel: nat, item: Item): (Tables, Counts) {
    if Known(t.db, source, item) then (t, c)
    else
      var signal := |t.db.signals|;
      var (db, r) := Resolve(text, AddSignal(t.db, DataOf(org, source, item)), signal, Some(channel));
      (t.(db := db.(channels := Discover(db.channels, channel)), jobs := t.jobs + [ScreenJob(org, r.opportunity, signal)]),
       c.(ingested := c.ingested + 1, resolved := c.resolved + 1, children := c.children + [|t.jobs|]))
  }

  function IngestAll(text: TextRules, t: Tables, c: Counts, org: nat, source: nat, channel: nat, items: seq<Item>): (Tables, Counts) {
    if items == [] then (t, c)
    else
      var (t1, c1) := IngestAll(text, t, c, org, source, channel, items[..|items| - 1]);
      Ingest(text, t1, c1, org, source, channel, items[|items| - 1])
  }

  // ---------------------------------------------------------------- one source

  function Keyed(key: string): Source -> bool {
    (s: Source) => s.key == key
  }

  function Same(key: string): string -> bool {
    (k: string) => k == key
  }

  function About(key: string): Failure -> bool {
    (f: Failure) => f.source == key
  }

  function EnsureSource(sources: seq<Source>, key: string): (r: (seq<Source>, nat))
    ensures r.1 < |r.0| && r.0[r.1].key == key
  {
    var found := Find(Keyed(key), sources);
    if found.Some? then (sources, found.value) else (sources + [Source(key, Active)], |sources|)
  }

  function EnsureChannel(t: Tables, key: string): (Tables, nat) {
    var found := Find(Same(key), t.channelKeys);
    if found.Some? then (t, found.value)
    else (t.(channelKeys := t.channelKeys + [key], db := t.db.(channels := t.db.channels + [Channel(0, 0)])), |t.channelKeys|)
  }

  function Marked(sources: seq<Source>, source: nat, status: SourceStatus): seq<Source>
    requires source < |sources|
  {
    sources[source := sources[source].(status := status)]
  }

  function Stepped(t: Tables, c: Counts, number: nat, key: string): Tables {
    t.(steps := t.steps + [Step(number, key, Find(About(key), c.failures).Some?)])
  }

  function Failed(c: Counts, key: string, reason: Reason): Counts {
    c.(failures := c.failures + [Failure(key, reason)])
  }

  /** The visit of one source; a disabled connector leaves no step behind. */
  function Visit(text: TextRules, t: Tables, c: Counts, org: nat, number: nat, key: string, answer: Answer): (Tables, Counts) {
    match answer
    case Disabled => (t, Failed(c, key, NoCredentials))
    case Fails =>
      var source := Find(Keyed(key), t.sources);
      var t1 := if source.Some? then t.(sources := Marked(t.sources, source.value, Degraded)) else t;
      (Stepped(t1, Failed(c, key, Raised), number, key), Failed(c, key, Raised))
    case Items(items) =>
      var (sources, source) := EnsureSource(t.sources, key);
      var (t1, channel) := EnsureChannel(t.(sources := sources), key);
      var (t2, c2) := IngestAll(text, t1, c, org, source, channel, items);
      (Stepped(t2.(sources := Marked(sources, source, Active)), c2, number, key), c2)
  }

  /** What the connectors answer, by number of the visit. */
  type Answers = nat -> Answer

  function VisitAll(text: TextRules, t: Tables, c: Counts, org: nat, keys: seq<string>, answers: Answers): (Tables, Counts) {
    if keys == [] then (t, c)
    else
      var (t1, c1) := VisitAll(text, t, c, org, keys[..|keys| - 1], answers);
      Visit(text, t1, c1, org, |keys|, keys[|keys| - 1], answers(|keys|))
  }

  function Opening(demo: bool): Counts {
    if demo then Failed(NOTHING, "all", NetworkDisabled) else NOTHING
  }

  function StatusOf(c: Counts): JobStatus {
    if c.failures != [] then Partial else Succeeded
  }

  lemma NextItem(text: TextRules, t: Tables, c: Counts, org: nat, source: nat, channel: nat, items: seq<Item>, i: nat)
    requires i < |items|
    ensures
      var (t1, c1) := IngestAll(text, t, c, org, source, channel, items[..i]);
      IngestAll(text, t, c, org, source, channel, items[..i + 1]) == Ingest(text, t1, c1, org, source, channel, items[i])
  {
    assert items[..i + 1][..i] == items[..i];
  }

  lemma NextVisit(text: TextRules, t: Tables, c: Counts, org: nat, keys: seq<string>, answers: Answers, i: nat)
    requires i < |keys|
    ensures
      var (t1, c1) := VisitAll(text, t, c, org, keys[..i], answers);
      VisitAll(text, t, c, org, keys[..i + 1], answers) == Visit(text, t1, c1, org, i + 1, keys[i], answers(i + 1))
  {
    assert keys[..i + 1][..i] == keys[..i];
  }

  // ---------------------------------------------------------------- the job

  class Harvester {
    var tables: Tables

    constructor (tables: Tables)
      ensures this.tables == tables
    {
      this.tables := tables;
    }

    method IngestItem(text: TextRules, c: Counts, org: nat, source: nat, channel: nat, item: Item)
      returns (counts: Counts)
      modifies this
      ensures (tables, counts) == Ingest(text, old(tables), c, org, source, channel, item)
    {
      counts := c;
      if Find(Duplicates(source, item), tables.db.signals).Some? {
        return;
      }
      var signal := |tables.db.signals|;
      var store := new Store(AddSignal(tables.db, DataOf(org, source, item)));
      var candidate := store.ResolveOutboundSignal(text, signal, Some(channel));
      counts := counts.(children := counts.children + [|tables.jobs|]);
      tables := tables.(db := store.db, jobs := tables.jobs + [ScreenJob(org, candidate.opportunity, signal)]);
      tables := tables.(db := tables.db.(channels := Discover(tables.db.channels, channel)));
      counts := counts.(ingested := counts.ingested + 1, resolved := counts.resolved + 1);
    }

    method IngestItems(text: TextRules, c: Counts, org: nat, source: nat, channel: nat, items: seq<Item>)
      returns (counts: Counts)
      modifies this
      ensures (tables, counts) == IngestAll(text, old(tables), c, org, source, channel, items)
    {
      counts := c;
      assert items[..0] == [];
      for i := 0 to |items|
        invariant (tables, counts) == IngestAll(text, old(tables), c, org, source, channel, items[..i])
      {
        NextItem(text, old(tables), c, org, source, channel, items, i);
        counts := IngestItem(text, counts, org, source, channel, items[i]);
      }
      assert items[..|items|] == items;
    }

    method ProcessHarvest(text: TextRules, org: nat, requested: Option<seq<string>>, demo: bool, answers: Answers)
      returns (status: JobStatus, counts: Counts)
      modifies this
      ensures (tables, counts) == VisitAll(text, old(tables), Opening(demo), org, Plan(requested, demo), answers)
      ensures status == StatusOf(counts)
    {
      var keys := Plan(requested, demo);
      counts := Opening(demo);
      assert keys[..0] == [];
      for i := 0 to |keys|
        invariant (tables, counts) == VisitAll(text, old(tables), Opening(demo), org, keys[..i], answers)
      {
        NextVisit(text, old(tables), Opening(demo), org, keys, answers, i);
        var key := keys[i];
        match answers(i + 1) {
          case Disabled =>
            counts := Failed(counts, key, NoCredentials);
          case Fails =>
            var source := Find(Keyed(key), tables.sources);
            counts := Failed(counts, key, Raised);
            if source.Some? {
              tables := tables.(sources := Marked(tables.sources, source.value, Degraded));
            }
            tables := Stepped(tables, counts, i + 1, key);
          case Items(items) =>
            var (sources, source) := EnsureSource(tables.sources, key);
            var (withChannel, channel) := EnsureChannel(tables.(sources := sources), key);
            tables := withChannel;
            counts := IngestItems(text, counts, org, source, channel, items);
            tables := tables.(sources := Marked(sources, source, Active));
            tables := Stepped(tables, counts, i + 1, key);
        }
      }
      assert keys[..|keys|] == keys;
      status := StatusOf(counts);
    }
  }
}
