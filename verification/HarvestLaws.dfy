/** What a harvest keeps, what it counts, and what harvesting the same items again does. */
module HarvestLaws {
  import opened Prelude
  import opened Candidates
  import opened CandidateRuns
  import opened Harvest

  // ---------------------------------------------------------------- what resolving leaves alone

  function Discovered(channels: seq<Channel>): nat {
    if channels == [] then 0 else Discovered(channels[..|channels| - 1]) + channels[|channels| - 1].discovered
  }

  function Advanced(channels: seq<Channel>): nat {
    if channels == [] then 0 else Advanced(channels[..|channels| - 1]) + channels[|channels| - 1].advanced
  }

  lemma {:induction false} TotalsAfterUpdate(channels: seq<Channel>, i: nat, c: Channel)
    requires i < |channels|
    ensures Discovered(channels[i := c]) == Discovered(channels) - channels[i].discovered + c.discovered
    ensures Advanced(channels[i := c]) == Advanced(channels) - channels[i].advanced + c.advanced
  {
    var n := |channels| - 1;
    if i < n {
      TotalsAfterUpdate(channels[..n], i, c);
      assert channels[i := c][..n] == channels[..n][i := c];
    } else {
      assert channels[i := c][..n] == channels[..n];
    }
  }

  lemma TotalsAfterAppend(channels: seq<Channel>)
    ensures Discovered(channels + [Channel(0, 0)]) == Discovered(channels)
    ensures Advanced(channels + [Channel(0, 0)]) == Advanced(channels)
  {
    assert (channels + [Channel(0, 0)])[..|channels|] == channels;
  }

  lemma AttachFrame(text: TextRules, db: Db, signal: nat, company: nat)
    requires signal < |db.signals|
    ensures
      var (next, _) := AttachPerson(text, db, signal, company);
      && next.channels == db.channels && next.opportunities == db.opportunities && |next.signals| == |db.signals|
      && forall k :: 0 <= k < |db.signals| && k != signal ==> next.signals[k] == db.signals[k]
  {
  }

  lemma AdvanceOnce(channels: seq<Channel>, channel: nat)
    requires channel < |channels|
    ensures |Advance(channels, Some(channel))| == |channels|
    ensures Discovered(Advance(channels, Some(channel))) == Discovered(channels)
    ensures Advanced(Advance(channels, Some(channel))) == Advanced(channels) + 1
  {
    TotalsAfterUpdate(channels, channel, channels[channel].(advanced := channels[channel].advanced + 1));
  }

  /** Other signals keep their rows, opportunities are only added, and only the channel's advance counter moves. */
  lemma ResolveFrame(text: TextRules, db: Db, signal: nat, channel: nat)
    requires signal < |db.signals| && channel < |db.channels|
    ensures
      var (next, r) := Resolve(text, db, signal, Some(channel));
      && |next.signals| == |db.signals|
      && next.signals[signal].data == db.signals[signal].data && next.signals[signal].company == Some(r.company)
      && (forall k :: 0 <= k < |db.signals| && k != signal ==> next.signals[k] == db.signals[k])
      && db.opportunities <= next.opportunities
      && |next.opportunities| == |db.opportunities| + (if r.created then 1 else 0)
      && r.opportunity < |next.opportunities|
      && LiveFor(db.signals[signal].data.org, r.company)(next.opportunities[r.opportunity])
      && (r.created ==> next.opportunities[r.opportunity].origin == Candidates.Origin.Outbound)
      && |next.channels| == |db.channels|
      && Discovered(next.channels) == Discovered(db.channels)
      && Advanced(next.channels) == Advanced(db.channels) + (if r.created then 1 else 0)
  {
    hide EnsureCompany, AttachPerson, RecordChunk, RecordEdge, SignalDomain, Find, Advance, PersonSettled, Discovered, Advanced;
    var data := db.signals[signal].data;
    EnsureCompanyFrame(db, data.name, text.norm(data.name), SignalDomain(text, data.host));
    var (db1, company) := EnsureCompany(db, data.name, text.norm(data.name), SignalDomain(text, data.host));
    var db2 := db1.(signals := db1.signals[signal := db1.signals[signal].(company := Some(company))]);
    AttachFrame(text, db2, signal, company);
    AttachSettles(text, db2, signal, company);
    AdvanceOnce(db.channels, channel);
  }

  // ---------------------------------------------------------------- conservation

  /** The counters of a harvest agree with one another and with what the tables gained. */
  ghost predicate Accounts(t0: Tables, c0: Counts, t: Tables, c: Counts) {
    var n := |t.db.signals| - |t0.db.signals|;
    && n >= 0
    && c.ingested == c0.ingested + n && c.resolved == c0.resolved + n
    && t0.jobs <= t.jobs && |t.jobs| == |t0.jobs| + n
    && c0.children <= c.children && |c.children| == |c0.children| + n
    && (forall k :: |c0.children| <= k < |c.children| ==> c.children[k] == |t0.jobs| + k - |c0.children|)
    && (forall k :: |t0.jobs| <= k < |t.jobs| ==> t.jobs[k].signal == |t0.db.signals| + k - |t0.jobs|)
    && Discovered(t.db.channels) == Discovered(t0.db.channels) + n
    && |t0.db.opportunities| <= |t.db.opportunities| <= |t0.db.opportunities| + n
    && Advanced(t.db.channels) - Advanced(t0.db.channels) == |t.db.opportunities| - |t0.db.opportunities|
    && t0.db.signals <= t.db.signals
  }

  lemma AddedSignalIsNew(db: Db, source: nat, item: Item, data: SignalData)
    requires UniqueSignals(db.signals) && !Known(db, source, item)
    requires data.source == source && data.hash == item.hash && data.observedAt == item.observedAt
    ensures UniqueSignals(AddSignal(db, data).signals)
  {
    var signals := AddSignal(db, data).signals;
    forall i, j | 0 <= i < j < |signals| ensures !SameKey(signals[i].data, signals[j].data) {
      assert !Duplicates(source, item)(db.signals[i]);
    }
  }

  lemma UniqueSignalsByData(before: seq<Signal>, after: seq<Signal>)
    requires |after| == |before| && forall k :: 0 <= k < |before| ==> after[k].data == before[k].data
    requires UniqueSignals(before)
    ensures UniqueSignals(after)
  {
  }

  lemma FitStays(db: Db, next: Db, job: ScreenJob)
    requires JobFits(db, job) && db.signals <= next.signals && db.opportunities <= next.opportunities
    ensures JobFits(next, job)
  {
  }

  lemma DiscoverOnce(channels: seq<Channel>, channel: nat)
    requires channel < |channels|
    ensures |Discover(channels, channel)| == |channels|
    ensures Discovered(Discover(channels, channel)) == Discovered(channels) + 1
    ensures Advanced(Discover(channels, channel)) == Advanced(channels)
  {
    TotalsAfterUpdate(channels, channel, channels[channel].(discovered := channels[channel].discovered + 1));
  }

  lemma {:induction false} NoneAttributed(signals: seq<Signal>, person: nat)
    requires forall i :: 0 <= i < |signals| ==> signals[i].person != Some(person)
    ensures Attributed(signals, person) == 0
  {
    if signals != [] { NoneAttributed(signals[..|signals| - 1], person); }
  }

  lemma AttributedLast(signals: seq<Signal>, last: Signal, person: nat)
    ensures Attributed(signals + [last], person) == Attributed(signals, person) + if last.person == Some(person) then 1 else 0
  {
    assert (signals + [last])[..|signals|] == signals;
  }

  /** A new signal attributed to nobody, or to a person whose counters take it up. */
  lemma CountersAfterSignal(persons: seq<Person>, signals: seq<Signal>, persons': seq<Person>, last: Signal)
    requires CountersAgree(persons, signals) && |persons| <= |persons'|
    requires last.person.Some? ==> last.person.value < |persons'|
    requires forall p :: 0 <= p < |persons'| ==>
      var before := if p < |persons| then (persons[p].signalCount, persons[p].sourceCount) else (0, 0);
      var more := if last.person == Some(p) then 1 else 0;
      persons'[p].signalCount == before.0 + more && persons'[p].sourceCount == before.1 + more
    ensures CountersAgree(persons', signals + [last])
  {
    var after := signals + [last];
    forall p | 0 <= p < |persons'|
      ensures persons'[p].signalCount == persons'[p].sourceCount == Attributed(after, p)
    {
      AttributedLast(signals, last, p);
      if p >= |persons| { NoneAttributed(signals, p); }
    }
    forall i | 0 <= i < |after| && after[i].person.Some? ensures after[i].person.value < |persons'| {
      if i < |signals| { assert after[i] == signals[i]; }
    }
  }

  /** Attaching a person to a signal that had none counts the signal for that person. */
  lemma AttachCounts(text: TextRules, db: Db, signal: nat, company: nat)
    requires signal < |db.signals| && db.signals[signal].person.None?
    ensures
      var (next, person) := AttachPerson(text, db, signal, company);
      && next.signals[signal].person == person && |db.persons| <= |next.persons|
      && (person.Some? ==> person.value < |next.persons|)
      && forall p :: 0 <= p < |next.persons| ==>
           var before := if p < |db.persons| then (db.persons[p].signalCount, db.persons[p].sourceCount) else (0, 0);
           var more := if person == Some(p) then 1 else 0;
           next.persons[p].signalCount == before.0 + more && next.persons[p].sourceCount == before.1 + more
  {
    var data := db.signals[signal].data;
    if data.hint.Some? { PersonInRange(text, db.persons, data.hint.value); }
  }

  lemma ResolveCounts(text: TextRules, db: Db, data: SignalData, channel: nat)
    requires CountersAgree(db.persons, db.signals) && channel < |db.channels|
    ensures
      var next := Resolve(text, AddSignal(db, data), |db.signals|, Some(channel)).0;
      CountersAgree(next.persons, next.signals)
  {
    hide EnsureCompany, AttachPerson, EnsureOpportunity, RecordChunk, RecordEdge, SignalDomain, Find, Advance, CountersAgree;
    var db0, signal := AddSignal(db, data), |db.signals|;
    ResolveFrame(text, db0, signal, channel);
    EnsureCompanyFrame(db0, data.name, text.norm(data.name), SignalDomain(text, data.host));
    var (db1, company) := EnsureCompany(db0, data.name, text.norm(data.name), SignalDomain(text, data.host));
    var db2 := db1.(signals := db1.signals[signal := db1.signals[signal].(company := Some(company))]);
    AttachCounts(text, db2, signal, company);
    var (db3, person) := AttachPerson(text, db2, signal, company);
    var db4 := db3.(chunks := RecordChunk(db3.chunks, data, signal, person, company),
                    edges := RecordEdge(db3.edges, Some(channel), person, company));
    EnsureOpportunityFrame(db4, data.org, company);
    var next := Resolve(text, db0, signal, Some(channel)).0;
    assert next.persons == db3.persons && next.signals == db3.signals;
    assert next.signals == db.signals + [next.signals[signal]];
    CountersAfterSignal(db.persons, db.signals, next.persons, next.signals[signal]);
  }

  lemma EnsureOpportunityFrame(db: Db, org: nat, company: nat)
    ensures
      var next := EnsureOpportunity(db, org, company, Candidates.Origin.Outbound).0;
      next.persons == db.persons && next.signals == db.signals
  {
  }

  /** The invariant does not look at signals or channels. */
  lemma InvIgnoresSignals(db: Db, signals: seq<Signal>, channels: seq<Channel>)
    requires Inv(db)
    ensures Inv(db.(signals := signals, channels := channels))
  {
  }

  lemma JobsStillFit(db: Db, next: Db, jobs: seq<ScreenJob>)
    requires forall i :: 0 <= i < |jobs| ==> JobFits(db, jobs[i])
    requires db.signals <= next.signals && db.opportunities <= next.opportunities
    ensures forall i :: 0 <= i < |jobs| ==> JobFits(next, jobs[i])
  {
    forall i | 0 <= i < |jobs| ensures JobFits(next, jobs[i]) { FitStays(db, next, jobs[i]); }
  }

  lemma IngestIsValid(text: TextRules, t: Tables, c: Counts, org: nat, source: nat, channel: nat, item: Item)
    requires Valid(t) && channel < |t.db.channels| && !Known(t.db, source, item)
    ensures Valid(Ingest(text, t, c, org, source, channel, item).0)
  {
    hide Inv, CountersAgree, UniqueSignals, Resolve, Known, Duplicates;
    var data := DataOf(org, source, item);
    var db0, signal := AddSignal(t.db, data), |t.db.signals|;
    var (db1, r) := Resolve(text, db0, signal, Some(channel));
    InvIgnoresSignals(t.db, db0.signals, t.db.channels);
    ResolveKeeps(text, db0, signal, Some(channel));
    ResolveFrame(text, db0, signal, channel);
    ResolveCounts(text, t.db, data, channel);
    AddedSignalIsNew(t.db, source, item, data);
    UniqueSignalsByData(db0.signals, db1.signals);
    DiscoverOnce(db1.channels, channel);
    hide Discover;
    var db2 := db1.(channels := Discover(db1.channels, channel));
    InvIgnoresSignals(db1, db1.signals, Discover(db1.channels, channel));
    assert t.db.signals <= db2.signals;
    assert JobFits(db2, ScreenJob(org, r.opportunity, signal));
    JobsStillFit(t.db, db2, t.jobs);
  }

  lemma IngestAccounts(text: TextRules, t: Tables, c: Counts, org: nat, source: nat, channel: nat, item: Item)
    requires channel < |t.db.channels| && !Known(t.db, source, item)
    ensures
      var (t1, c1) := Ingest(text, t, c, org, source, channel, item);
      |t1.db.channels| == |t.db.channels| && Accounts(t, c, t1, c1)
  {
    var db0, signal := AddSignal(t.db, DataOf(org, source, item)), |t.db.signals|;
    ResolveFrame(text, db0, signal, channel);
    DiscoverOnce(Resolve(text, db0, signal, Some(channel)).0.channels, channel);
  }

  /** One item: everything kept, everything counted once. */
  lemma IngestKeeps(text: TextRules, t: Tables, c: Counts, org: nat, source: nat, channel: nat, item: Item)
    requires Valid(t) && channel < |t.db.channels|
    ensures
      var (t1, c1) := Ingest(text, t, c, org, source, channel, item);
      Valid(t1) && |t1.db.channels| == |t.db.channels| && Accounts(t, c, t1, c1)
  {
    if !Known(t.db, source, item) {
      IngestIsValid(text, t, c, org, source, channel, item);
      IngestAccounts(text, t, c, org, source, channel, item);
    }
  }

  lemma AccountsChain(t0: Tables, c0: Counts, t1: Tables, c1: Counts, t2: Tables, c2: Counts)
    requires Accounts(t0, c0, t1, c1) && Accounts(t1, c1, t2, c2)
    ensures Accounts(t0, c0, t2, c2)
  {
    forall k | |t0.jobs| <= k < |t2.jobs| ensures t2.jobs[k].signal == |t0.db.signals| + k - |t0.jobs| {
      if k < |t1.jobs| { assert t2.jobs[k] == t1.jobs[k]; }
    }
    forall k | |c0.children| <= k < |c2.children| ensures c2.children[k] == |t0.jobs| + k - |c0.children| {
      if k < |c1.children| { assert c2.children[k] == c1.children[k]; }
    }
  }

  lemma {:induction false} IngestAllKeeps(text: TextRules, t: Tables, c: Counts, org: nat, source: nat, channel: nat, items: seq<Item>)
    requires Valid(t) && channel < |t.db.channels|
    ensures
      var (t1, c1) := IngestAll(text, t, c, org, source, channel, items);
      Valid(t1) && |t1.db.channels| == |t.db.channels| && Accounts(t, c, t1, c1)
  {
    if items != [] {
      var n := |items| - 1;
      IngestAllKeeps(text, t, c, org, source, channel, items[..n]);
      var (t1, c1) := IngestAll(text, t, c, org, source, channel, items[..n]);
      IngestKeeps(text, t1, c1, org, source, channel, items[n]);
      var (t2, c2) := Ingest(text, t1, c1, org, source, channel, items[n]);
      AccountsChain(t, c, t1, c1, t2, c2);
    }
  }

  lemma EnsureChannelKeeps(t: Tables, c: Counts, key: string)
    requires Valid(t)
    ensures
      var (t1, channel) := EnsureChannel(t, key);
      Valid(t1) && channel < |t1.db.channels| && Accounts(t, c, t1, c)
  {
    TotalsAfterAppend(t.db.channels);
    var (t1, channel) := EnsureChannel(t, key);
    assert Inv(t1.db);
    forall i | 0 <= i < |t.jobs| ensures JobFits(t1.db, t.jobs[i]) { FitStays(t.db, t1.db, t.jobs[i]); }
  }

  lemma VisitKeeps(text: TextRules, t: Tables, c: Counts, org: nat, number: nat, key: string, answer: Answer)
    requires Valid(t)
    ensures
      var (t1, c1) := Visit(text, t, c, org, number, key, answer);
      Valid(t1) && Accounts(t, c, t1, c1)
  {
    if answer.Items? {
      var (sources, source) := EnsureSource(t.sources, key);
      var t0 := t.(sources := sources);
      var (t1, channel) := EnsureChannel(t0, key);
      EnsureChannelKeeps(t0, c, key);
      IngestAllKeeps(text, t1, c, org, source, channel, answer.items);
      var (t2, c2) := IngestAll(text, t1, c, org, source, channel, answer.items);
      AccountsChain(t0, c, t1, c, t2, c2);
    }
  }

  /**
    * Over a whole harvest the signals ingested, the candidates resolved, the screening jobs queued and the
    * channels' discoveries are one number; the channels' advances are exactly the opportunities opened; the
    * job's children are the new screening jobs, one per new signal, each for an opportunity of its signal's
    * company; and no two signals share source, hash and time.
    */
  lemma {:induction false} HarvestConserves(text: TextRules, t: Tables, c: Counts, org: nat, keys: seq<string>, answers: Answers)
    requires Valid(t)
    ensures
      var (t1, c1) := VisitAll(text, t, c, org, keys, answers);
      Valid(t1) && Accounts(t, c, t1, c1)
  {
    if keys != [] {
      var n := |keys| - 1;
      HarvestConserves(text, t, c, org, keys[..n], answers);
      var (t1, c1) := VisitAll(text, t, c, org, keys[..n], answers);
      VisitKeeps(text, t1, c1, org, |keys|, keys[n], answers(|keys|));
      var (t2, c2) := Visit(text, t1, c1, org, |keys|, keys[n], answers(|keys|));
      AccountsChain(t, c, t1, c1, t2, c2);
    }
  }

  // ---------------------------------------------------------------- runs with harvests

  datatype Event =
    | Harvesting(org: nat, requested: Option<seq<string>>, demo: bool, answers: Answers)
    | Applying(submission: Submission)
    | Entering(org: nat, target: Target, origin: Candidates.Origin)
    | Shelving(opportunity: nat)
    | Merging(loser: nat)

  function OpOf(e: Event): Op
    requires !e.Harvesting?
  {
    match e
    case Applying(submission) => Op.Inbound(submission)
    case Entering(org, target, origin) => Manually(org, target, origin)
    case Shelving(opportunity) => Archiving(opportunity)
    case Merging(loser) => MergePerson(loser)
  }

  function After(text: TextRules, t: Tables, e: Event): Tables {
    match e
    case Harvesting(org, requested, demo, answers) =>
      VisitAll(text, t, Opening(demo), org, Plan(requested, demo), answers).0
    case _ => t.(db := Apply(text, t.db, OpOf(e)))
  }

  function AfterAll(text: TextRules, t: Tables, events: seq<Event>): Tables {
    if events == [] then t else After(text, AfterAll(text, t, events[..|events| - 1]), events[|events| - 1])
  }

  /** Signals and channels untouched, and opportunities keep their organisation and company. */
  ghost predicate KeepsSignals(db: Db, next: Db) {
    && next.signals == db.signals && next.channels == db.channels
    && |db.opportunities| <= |next.opportunities|
    && forall k :: 0 <= k < |db.opportunities| ==>
         && next.opportunities[k].org == db.opportunities[k].org
         && next.opportunities[k].company == db.opportunities[k].company
  }

  lemma SubmitFrame(text: TextRules, db: Db, s: Submission)
    ensures
      var next := Submit(text, db, s).0;
      next.signals == db.signals && next.channels == db.channels && db.opportunities <= next.opportunities
  {
    var domain := if s.hasWebsite then DomainOf(text, s.host) else None;
    EnsureCompanyFrame(db, text.strip(s.companyName), text.norm(s.companyName), domain);
    var (db1, company) := EnsureCompany(db, text.strip(s.companyName), text.norm(s.companyName), domain);
    var (db2, _, _) := EnsureOpportunity(db1, s.org, company, Candidates.Origin.Inbound);
    var email := if Given(s.contactEmail) then Some(text.fold(s.contactEmail.value)) else None;
    EnsureFounderFrame(text, db2, DisplayName(text, s, db2.companies[company].name), email);
  }

  lemma OtherStepsFrame(text: TextRules, db: Db, e: Event)
    requires !e.Harvesting?
    ensures KeepsSignals(db, Apply(text, db, OpOf(e)))
  {
    if e.Applying? {
      SubmitFrame(text, db, e.submission);
    } else if e.Entering? && e.target.ByName? {
      EnsureCompanyFrame(db, e.target.name, text.norm(e.target.name), None);
    }
  }

  /** Persons keep their counters, and new ones start at zero. */
  ghost predicate KeepsCounters(persons: seq<Person>, persons': seq<Person>) {
    && |persons| <= |persons'|
    && forall p :: 0 <= p < |persons'| ==>
         && persons'[p].signalCount == (if p < |persons| then persons[p].signalCount else 0)
         && persons'[p].sourceCount == (if p < |persons| then persons[p].sourceCount else 0)
  }

  lemma EnsureFounderKeepsCounters(text: TextRules, db: Db, name: string, email: Option<string>)
    ensures KeepsCounters(db.persons, EnsureFounder(text, db, name, email).0.persons)
  {
  }

  lemma SubmitKeepsCounters(text: TextRules, db: Db, s: Submission)
    ensures KeepsCounters(db.persons, Submit(text, db, s).0.persons)
  {
    hide Find, FindCompany, EnsureFounder, EnsureAffiliation, DisplayName, DomainOf, KeepsCounters;
    assert KeepsCounters(db.persons, db.persons) by { SameCounters(db.persons); }
    var domain := if s.hasWebsite then DomainOf(text, s.host) else None;
    var (db1, company) := EnsureCompany(db, text.strip(s.companyName), text.norm(s.companyName), domain);
    var (db2, _, _) := EnsureOpportunity(db1, s.org, company, Candidates.Origin.Inbound);
    var email := if Given(s.contactEmail) then Some(text.fold(s.contactEmail.value)) else None;
    EnsureFounderKeepsCounters(text, db2, DisplayName(text, s, db2.companies[company].name), email);
    assert db2.persons == db.persons;
  }

  lemma SameCounters(persons: seq<Person>)
    ensures KeepsCounters(persons, persons)
  {
  }

  lemma OtherStepsCount(text: TextRules, db: Db, e: Event)
    requires !e.Harvesting? && CountersAgree(db.persons, db.signals)
    ensures CountersAgree(Apply(text, db, OpOf(e)).persons, Apply(text, db, OpOf(e)).signals)
  {
    var next := Apply(text, db, OpOf(e));
    OtherStepsFrame(text, db, e);
    assert KeepsCounters(db.persons, next.persons) by {
      if e.Applying? { SubmitKeepsCounters(text, db, e.submission); }
    }
    forall p | |db.persons| <= p < |next.persons| ensures Attributed(db.signals, p) == 0 {
      NoneAttributed(db.signals, p);
    }
  }

  const BLANK := Tables(EMPTY, [], [], [], [])

  /** From an empty store, every run of harvests, applications, manual entries, archiving and merges stays valid. */
  lemma {:induction false} HarvestRunsStayValid(text: TextRules, events: seq<Event>)
    ensures Valid(AfterAll(text, BLANK, events))
  {
    if events != [] {
      var e := events[|events| - 1];
      HarvestRunsStayValid(text, events[..|events| - 1]);
      var t := AfterAll(text, BLANK, events[..|events| - 1]);
      if e.Harvesting? {
        HarvestConserves(text, t, Opening(e.demo), e.org, Plan(e.requested, e.demo), e.answers);
      } else {
        StepKeeps(text, t.db, OpOf(e));
        OtherStepsFrame(text, t.db, e);
        OtherStepsCount(text, t.db, e);
      }
    }
  }

  // ---------------------------------------------------------------- harvesting again

  /** Sources, channels and signals are only ever added. */
  ghost predicate Grows(t0: Tables, t: Tables) {
    && |t0.sources| <= |t.sources| && (forall i :: 0 <= i < |t0.sources| ==> t.sources[i].key == t0.sources[i].key)
    && t0.channelKeys <= t.channelKeys
    && |t0.db.signals| <= |t.db.signals|
    && forall i :: 0 <= i < |t0.db.signals| ==> t.db.signals[i].data == t0.db.signals[i].data
  }

  /** The source and its channel exist, and every item is stored under that source. */
  ghost predicate Stored(t: Tables, key: string, items: seq<Item>) {
    && Find(Keyed(key), t.sources).Some? && Find(Same(key), t.channelKeys).Some?
    && forall item <- items :: Known(t.db, Find(Keyed(key), t.sources).value, item)
  }

  lemma FindExtends<T>(test: T -> bool, before: seq<T>, after: seq<T>)
    requires |before| <= |after| && forall k :: 0 <= k < |before| ==> test(after[k]) == test(before[k])
    ensures Find(test, before).Some? ==> Find(test, after) == Find(test, before)
  {
    var i := Find(test, before);
    if i.Some? { FindFirst(test, after, i.value); }
  }

  lemma KnownStays(t0: Tables, t: Tables, source: nat, item: Item)
    requires Grows(t0, t) && Known(t0.db, source, item)
    ensures Known(t.db, source, item)
  {
    FindExtends(Duplicates(source, item), t0.db.signals, t.db.signals);
  }

  lemma StoredStays(t0: Tables, t: Tables, key: string, items: seq<Item>)
    requires Grows(t0, t) && Stored(t0, key, items)
    ensures Stored(t, key, items)
  {
    FindExtends(Keyed(key), t0.sources, t.sources);
    FindExtends(Same(key), t0.channelKeys, t.channelKeys);
    forall item | item in items ensures Known(t.db, Find(Keyed(key), t.sources).value, item) {
      KnownStays(t0, t, Find(Keyed(key), t.sources).value, item);
    }
  }

  /** Afterwards the item is known, and nothing else about the sources and channels changed. */
  lemma IngestStores(text: TextRules, t: Tables, c: Counts, org: nat, source: nat, channel: nat, item: Item)
    requires channel < |t.db.channels|
    ensures
      var (t1, _) := Ingest(text, t, c, org, source, channel, item);
      && Grows(t, t1) && t1.sources == t.sources && t1.channelKeys == t.channelKeys
      && |t1.db.channels| == |t.db.channels| && Known(t1.db, source, item)
  {
    if !Known(t.db, source, item) {
      var db0, signal := AddSignal(t.db, DataOf(org, source, item)), |t.db.signals|;
      ResolveFrame(text, db0, signal, channel);
      var (t1, _) := Ingest(text, t, c, org, source, channel, item);
      assert Duplicates(source, item)(t1.db.signals[signal]);
    }
  }

  lemma {:induction false} IngestAllStores(text: TextRules, t: Tables, c: Counts, org: nat, source: nat, channel: nat, items: seq<Item>)
    requires channel < |t.db.channels|
    ensures
      var (t1, _) := IngestAll(text, t, c, org, source, channel, items);
      && Grows(t, t1) && t1.sources == t.sources && t1.channelKeys == t.channelKeys
      && |t1.db.channels| == |t.db.channels| && forall item <- items :: Known(t1.db, source, item)
  {
    if items != [] {
      var n := |items| - 1;
      IngestAllStores(text, t, c, org, source, channel, items[..n]);
      var (t1, c1) := IngestAll(text, t, c, org, source, channel, items[..n]);
      IngestStores(text, t1, c1, org, source, channel, items[n]);
      var (t2, _) := Ingest(text, t1, c1, org, source, channel, items[n]);
      forall item | item in items ensures Known(t2.db, source, item) {
        if item != items[n] { KnownStays(t1, t2, source, item); }
      }
    }
  }

  lemma EnsureSourceFinds(sources: seq<Source>, key: string)
    ensures Find(Keyed(key), EnsureSource(sources, key).0) == Some(EnsureSource(sources, key).1)
  {
    var (next, source) := EnsureSource(sources, key);
    FindFirst(Keyed(key), next, source);
  }

  lemma EnsureChannelFinds(t: Tables, key: string)
    requires |t.channelKeys| == |t.db.channels|
    ensures
      var (t1, channel) := EnsureChannel(t, key);
      && Find(Same(key), t1.channelKeys) == Some(channel) && channel < |t1.db.channels| == |t1.channelKeys|
      && Grows(t, t1) && t1.sources == t.sources
  {
    var (t1, channel) := EnsureChannel(t, key);
    FindFirst(Same(key), t1.channelKeys, channel);
  }

  lemma VisitStores(text: TextRules, t: Tables, c: Counts, org: nat, number: nat, key: string, answer: Answer)
    requires |t.channelKeys| == |t.db.channels|
    ensures
      var (t1, _) := Visit(text, t, c, org, number, key, answer);
      Grows(t, t1) && |t1.channelKeys| == |t1.db.channels| && (answer.Items? ==> Stored(t1, key, answer.items))
  {
    if answer.Items? {
      var (sources, source) := EnsureSource(t.sources, key);
      EnsureSourceFinds(t.sources, key);
      var (t1, channel) := EnsureChannel(t.(sources := sources), key);
      EnsureChannelFinds(t.(sources := sources), key);
      IngestAllStores(text, t1, c, org, source, channel, answer.items);
      var (t2, c2) := IngestAll(text, t1, c, org, source, channel, answer.items);
      FindExtends(Keyed(key), sources, Marked(sources, source, Active));
      assert Stored(Stepped(t2.(sources := Marked(sources, source, Active)), c2, number, key), key, answer.items);
    }
  }

  /** Everything the connectors answer is stored already. */
  ghost predicate Stale(t: Tables, keys: seq<string>, answers: Answers) {
    forall i :: 0 <= i < |keys| && answers(i + 1).Items? ==> Stored(t, keys[i], answers(i + 1).items)
  }

  lemma StaleStays(t0: Tables, t: Tables, keys: seq<string>, answers: Answers)
    requires Grows(t0, t) && Stale(t0, keys, answers)
    ensures Stale(t, keys, answers)
  {
    forall i | 0 <= i < |keys| && answers(i + 1).Items? ensures Stored(t, keys[i], answers(i + 1).items) {
      StoredStays(t0, t, keys[i], answers(i + 1).items);
    }
  }

  lemma {:induction false} HarvestStores(text: TextRules, t: Tables, c: Counts, org: nat, keys: seq<string>, answers: Answers)
    requires |t.channelKeys| == |t.db.channels|
    ensures
      var (t1, _) := VisitAll(text, t, c, org, keys, answers);
      |t1.channelKeys| == |t1.db.channels| && Stale(t1, keys, answers)
  {
    if keys != [] {
      var n := |keys| - 1;
      HarvestStores(text, t, c, org, keys[..n], answers);
      var (t1, c1) := VisitAll(text, t, c, org, keys[..n], answers);
      VisitStores(text, t1, c1, org, |keys|, keys[n], answers(|keys|));
      var (t2, _) := Visit(text, t1, c1, org, |keys|, keys[n], answers(|keys|));
      StaleGrows(t1, t2, keys, answers);
      hide Visit, Stale, Stored, Grows;
    }
  }

  lemma StaleGrows(t1: Tables, t2: Tables, keys: seq<string>, answers: Answers)
    requires keys != [] && Grows(t1, t2) && Stale(t1, keys[..|keys| - 1], answers)
    requires answers(|keys|).Items? ==> Stored(t2, keys[|keys| - 1], answers(|keys|).items)
    ensures Stale(t2, keys, answers)
  {
    hide Stored, Grows;
    var n := |keys| - 1;
    StaleStays(t1, t2, keys[..n], answers);
    assert forall i :: 0 <= i < n ==> keys[..n][i] == keys[i];
  }

  /** Equal but for source statuses and step rows. */
  ghost predicate Unmoved(t0: Tables, c0: Counts, t: Tables, c: Counts) {
    && t.db == t0.db && t.jobs == t0.jobs && t.channelKeys == t0.channelKeys
    && |t.sources| == |t0.sources| && (forall i :: 0 <= i < |t0.sources| ==> t.sources[i].key == t0.sources[i].key)
    && c.ingested == c0.ingested && c.resolved == c0.resolved && c.children == c0.children
  }

  lemma {:induction false} KnownItemsAreSkipped(
      text: TextRules, t: Tables, c: Counts, org: nat, source: nat, channel: nat, items: seq<Item>)
    requires forall item <- items :: Known(t.db, source, item)
    ensures IngestAll(text, t, c, org, source, channel, items) == (t, c)
  {
    if items != [] { KnownItemsAreSkipped(text, t, c, org, source, channel, items[..|items| - 1]); }
  }

  lemma StoredVisitMovesNothing(text: TextRules, t: Tables, c: Counts, org: nat, number: nat, key: string, answer: Answer)
    requires answer.Items? ==> Stored(t, key, answer.items)
    ensures
      var (t1, c1) := Visit(text, t, c, org, number, key, answer);
      Unmoved(t, c, t1, c1)
  {
    if answer.Items? {
      var source, channel := Find(Keyed(key), t.sources).value, Find(Same(key), t.channelKeys).value;
      KnownItemsAreSkipped(text, t, c, org, source, channel, answer.items);
    }
  }

  lemma {:induction false} StaleHarvestMovesNothing(text: TextRules, t: Tables, c: Counts, org: nat, keys: seq<string>, answers: Answers)
    requires Stale(t, keys, answers)
    ensures
      var (t1, c1) := VisitAll(text, t, c, org, keys, answers);
      Unmoved(t, c, t1, c1)
  {
    if keys != [] {
      var n := |keys| - 1;
      assert forall i :: 0 <= i < n ==> keys[..n][i] == keys[i];
      StaleHarvestMovesNothing(text, t, c, org, keys[..n], answers);
      var (t1, c1) := VisitAll(text, t, c, org, keys[..n], answers);
      StaleStays(t, t1, keys, answers);
      StoredVisitMovesNothing(text, t1, c1, org, |keys|, keys[n], answers(|keys|));
    }
  }

  /**
    * A second harvest that is given the same answers ingests nothing and leaves the database, its counters
    * and the job queue as they were. The key of a signal does not name an organisation, so this holds for a
    * second harvest of any organisation.
    */
  lemma HarvestAgainMovesNothing(
      text: TextRules, t: Tables, first: Counts, org: nat, keys: seq<string>, answers: Answers, second: Counts, other: nat)
    requires Valid(t)
    ensures
      var (once, _) := VisitAll(text, t, first, org, keys, answers);
      var (twice, counts) := VisitAll(text, once, second, other, keys, answers);
      Unmoved(once, second, twice, counts)
  {
    HarvestStores(text, t, first, org, keys, answers);
    var (once, _) := VisitAll(text, t, first, org, keys, answers);
    StaleHarvestMovesNothing(text, once, second, other, keys, answers);
  }

  // ---------------------------------------------------------------- what the job reports

  lemma {:induction false} IngestingFailsNowhere(
      text: TextRules, t: Tables, c: Counts, org: nat, source: nat, channel: nat, items: seq<Item>)
    ensures IngestAll(text, t, c, org, source, channel, items).1.failures == c.failures
    ensures IngestAll(text, t, c, org, source, channel, items).0.steps == t.steps
  {
    if items != [] { IngestingFailsNowhere(text, t, c, org, source, channel, items[..|items| - 1]); }
  }

  /** The sources that answered with no items at all, in order, each with the reason. */
  function Silent(keys: seq<string>, answers: Answers): seq<Failure> {
    if keys == [] then []
    else
      var n := |keys|;
      Silent(keys[..n - 1], answers) + FailureOf(keys[n - 1], answers(n))
  }

  function FailureOf(key: string, answer: Answer): seq<Failure> {
    match answer
    case Items(_) => []
    case Disabled => [Failure(key, NoCredentials)]
    case Fails => [Failure(key, Raised)]
  }

  /** What a visit adds to the job's failures and steps. */
  lemma VisitReports(text: TextRules, t: Tables, c: Counts, org: nat, number: nat, key: string, answer: Answer)
    ensures
      var (t', c') := Visit(text, t, c, org, number, key, answer);
      && c'.failures == c.failures + FailureOf(key, answer)
      && t'.steps == t.steps + if answer.Disabled? then [] else [Step(number, key, Find(About(key), c'.failures).Some?)]
  {
    if answer.Items? {
      var (sources, source) := EnsureSource(t.sources, key);
      var (t1, channel) := EnsureChannel(t.(sources := sources), key);
      IngestingFailsNowhere(text, t1, c, org, source, channel, answer.items);
      assert c.failures + [] == c.failures;
    }
    hide IngestAll, Find;
  }

  lemma {:induction false} FailuresAreTheSilentSources(
      text: TextRules, t: Tables, c: Counts, org: nat, keys: seq<string>, answers: Answers)
    ensures VisitAll(text, t, c, org, keys, answers).1.failures == c.failures + Silent(keys, answers)
  {
    if keys == [] {
      assert c.failures + [] == c.failures;
    } else {
      var n := |keys| - 1;
      FailuresAreTheSilentSources(text, t, c, org, keys[..n], answers);
      var (t1, c1) := VisitAll(text, t, c, org, keys[..n], answers);
      VisitReports(text, t1, c1, org, |keys|, keys[n], answers(|keys|));
      hide Visit;
      assert Silent(keys, answers) == Silent(keys[..n], answers) + FailureOf(keys[n], answers(|keys|));
    }
  }

  lemma {:induction false} SilentIff(keys: seq<string>, answers: Answers)
    ensures Silent(keys, answers) != [] <==> exists i: nat :: 1 <= i <= |keys| && !answers(i).Items?
  {
    if keys != [] {
      var n := |keys| - 1;
      SilentIff(keys[..n], answers);
    }
  }

  ghost predicate SilentVisit(keys: seq<string>, answers: Answers, key: string, i: nat) {
    1 <= i <= |keys| && keys[i - 1] == key && !answers(i).Items?
  }

  lemma SilentVisitStep(keys: seq<string>, answers: Answers, key: string, i: nat)
    requires keys != []
    ensures SilentVisit(keys, answers, key, i) <==>
      (SilentVisit(keys[..|keys| - 1], answers, key, i) || (i == |keys| && keys[i - 1] == key && !answers(i).Items?))
  {
  }

  ghost predicate WasSilent(keys: seq<string>, answers: Answers, key: string) {
    exists i: nat :: SilentVisit(keys, answers, key, i)
  }

  lemma WasSilentStep(keys: seq<string>, answers: Answers, key: string)
    requires keys != []
    ensures WasSilent(keys, answers, key) <==>
      (WasSilent(keys[..|keys| - 1], answers, key) || (keys[|keys| - 1] == key && !answers(|keys|).Items?))
  {
    forall i: nat { SilentVisitStep(keys, answers, key, i); }
    hide SilentVisit;
    if WasSilent(keys[..|keys| - 1], answers, key) {
      var i: nat :| SilentVisit(keys[..|keys| - 1], answers, key, i);
      assert SilentVisit(keys, answers, key, i);
    }
    if keys[|keys| - 1] == key && !answers(|keys|).Items? {
      assert SilentVisit(keys, answers, key, |keys|);
    }
  }

  /** A source is reported silent under its key exactly when one of the visits of that key gave no items. */
  lemma {:induction false} SilentAbout(keys: seq<string>, answers: Answers, key: string)
    ensures Find(About(key), Silent(keys, answers)).Some? <==> WasSilent(keys, answers, key)
  {
    if keys != [] {
      var n := |keys| - 1;
      SilentAbout(keys[..n], answers, key);
      var before, last := Silent(keys[..n], answers), FailureOf(keys[n], answers(|keys|));
      assert Silent(keys, answers) == before + last;
      assert last != [] <==> !answers(|keys|).Items?;
      hide Silent, WasSilent, Find;
      FindAppend(About(key), before, last);
      WasSilentStep(keys, answers, key);
    }
  }

  lemma FindAppend<T>(test: T -> bool, s: seq<T>, t: seq<T>)
    requires |t| <= 1
    ensures Find(test, s + t).Some? <==> Find(test, s).Some? || (t != [] && test(t[0]))
  {
    if t == [] { assert s + t == s; } else { assert (s + t)[..|s|] == s; }
  }

  /** The plan: nothing in demonstration mode, the four connectors by default, else the requested ones among them, in order. */
  lemma PlanIs(requested: Option<seq<string>>, demo: bool)
    ensures demo ==> Plan(requested, demo) == []
    ensures !demo && requested.None? ==> Plan(requested, demo) == ["github", "hackernews", "arxiv", "tavily"]
    ensures !demo && requested.Some? ==> forall key: string ::
      multiset(Plan(requested, demo))[key] == if ReadsConnector(key) then multiset(requested.value)[key] else 0
  {
    if !demo && requested.Some? {
      forall key: string ensures multiset(OnlyKnown(requested.value))[key]
          == if ReadsConnector(key) then multiset(requested.value)[key] else 0 {
        OnlyKnownCounts(requested.value, key);
      }
    }
  }

  predicate ReadsConnector(key: string) {
    key == "github" || key == "hackernews" || key == "arxiv" || key == "tavily"
  }

  lemma {:induction false} OnlyKnownCounts(keys: seq<string>, key: string)
    ensures multiset(OnlyKnown(keys))[key] == if ReadsConnector(key) then multiset(keys)[key] else 0
  {
    if keys != [] {
      var n := |keys| - 1;
      OnlyKnownCounts(keys[..n], key);
      assert keys == keys[..n] + [keys[n]];
    }
  }

  /** A harvest ends PARTIAL exactly in demonstration mode or when some planned source was disabled or failed. */
  lemma PartialIff(text: TextRules, t: Tables, org: nat, requested: Option<seq<string>>, demo: bool, answers: Answers)
    ensures
      var keys := Plan(requested, demo);
      StatusOf(VisitAll(text, t, Opening(demo), org, keys, answers).1) == Partial <==>
        demo || exists i: nat :: 1 <= i <= |keys| && !answers(i).Items?
  {
    var keys := Plan(requested, demo);
    FailuresAreTheSilentSources(text, t, Opening(demo), org, keys, answers);
    SilentIff(keys, answers);
  }

  /** A source that answered is marked active, a known one that failed degraded; no other source is remarked. */
  lemma VisitMarksSource(text: TextRules, t: Tables, c: Counts, org: nat, number: nat, key: string, answer: Answer)
    ensures
      var sources := Visit(text, t, c, org, number, key, answer).0.sources;
      && (answer.Items? ==> Find(Keyed(key), sources).Some? && sources[Find(Keyed(key), sources).value].status == Active)
      && (answer.Fails? && Find(Keyed(key), t.sources).Some? ==>
            Find(Keyed(key), sources) == Find(Keyed(key), t.sources)
            && sources[Find(Keyed(key), sources).value].status == Degraded)
      && |t.sources| <= |sources|
      && forall i :: 0 <= i < |t.sources| && t.sources[i].key != key ==> sources[i] == t.sources[i]
  {
    if answer.Items? {
      var (sources, source) := EnsureSource(t.sources, key);
      EnsureSourceFinds(t.sources, key);
      FindExtends(Keyed(key), sources, Marked(sources, source, Active));
    } else if answer.Fails? && Find(Keyed(key), t.sources).Some? {
      FindExtends(Keyed(key), t.sources, Marked(t.sources, Find(Keyed(key), t.sources).value, Degraded));
    }
  }

  ghost predicate Climbing(steps: seq<Step>) {
    forall i, j :: 0 <= i < j < |steps| ==> steps[i].number < steps[j].number
  }

  /** A step is of the visit it numbers, and says `degraded` exactly when a visit of its source so far gave no items. */
  ghost predicate FlagTells(s: Step, keys: seq<string>, answers: Answers) {
    && 1 <= s.number <= |keys| && s.key == keys[s.number - 1]
    && (s.degraded <==> WasSilent(keys[..s.number], answers, s.key))
  }

  lemma FlagStays(s: Step, keys: seq<string>, answers: Answers)
    requires keys != [] && FlagTells(s, keys[..|keys| - 1], answers)
    ensures FlagTells(s, keys, answers)
  {
    assert keys[..|keys| - 1][..s.number] == keys[..s.number];
  }

  ghost predicate FlagsTell(steps: seq<Step>, keys: seq<string>, answers: Answers) {
    forall s <- steps :: FlagTells(s, keys, answers)
  }

  lemma FlagsAppended(before: seq<Step>, keys: seq<string>, answers: Answers, last: seq<Step>)
    requires keys != [] && FlagsTell(before, keys[..|keys| - 1], answers)
    requires last == [] || last ==
      [Step(|keys|, keys[|keys| - 1], Find(About(keys[|keys| - 1]), Silent(keys, answers)).Some?)]
    ensures FlagsTell(before + last, keys, answers)
  {
    SilentAbout(keys, answers, keys[|keys| - 1]);
    assert keys[..|keys|] == keys;
    hide Silent, WasSilent, Find;
    forall s | s in before + last ensures FlagTells(s, keys, answers) {
      if s in before { FlagStays(s, keys, answers); }
    }
  }

  /** The steps of a harvest say truly which source they are about and whether it has been silent. */
  lemma {:induction false} StepsFlagFailures(text: TextRules, t: Tables, org: nat, keys: seq<string>, answers: Answers)
    requires t.steps == []
    ensures FlagsTell(VisitAll(text, t, NOTHING, org, keys, answers).0.steps, keys, answers)
  {
    if keys != [] {
      var n := |keys| - 1;
      StepsFlagFailures(text, t, org, keys[..n], answers);
      var (t1, c1) := VisitAll(text, t, NOTHING, org, keys[..n], answers);
      var (t', c') := VisitAll(text, t, NOTHING, org, keys, answers);
      VisitReports(text, t1, c1, org, |keys|, keys[n], answers(|keys|));
      FailuresAreTheSilentSources(text, t, NOTHING, org, keys, answers);
      hide Visit, FlagsTell, Find, Silent;
      assert [] + Silent(keys, answers) == Silent(keys, answers);
      FlagsAppended(t1.steps, keys, answers, if answers(|keys|).Disabled? then [] else [Step(|keys|, keys[n], Find(About(keys[n]), c'.failures).Some?)]);
    }
  }

  ghost predicate HasStep(steps: seq<Step>, number: nat, key: string) {
    exists i :: 0 <= i < |steps| && steps[i].number == number && steps[i].key == key
  }

  /**
    * The steps a harvest writes climb, so a reader that resumes after a number misses none of them; the
    * numbers left out are those of the disabled connectors.
    */
  lemma {:induction false} StepsClimb(text: TextRules, t: Tables, c: Counts, org: nat, keys: seq<string>, answers: Answers)
    requires t.steps == []
    ensures
      var steps := VisitAll(text, t, c, org, keys, answers).0.steps;
      && Climbing(steps) && (forall s <- steps :: 1 <= s.number <= |keys|)
      && forall k :: 0 <= k < |keys| ==> (HasStep(steps, k + 1, keys[k]) <==> !answers(k + 1).Disabled?)
  {
    if keys != [] {
      var n := |keys| - 1;
      StepsClimb(text, t, c, org, keys[..n], answers);
      var (t1, c1) := VisitAll(text, t, c, org, keys[..n], answers);
      var before, after := t1.steps, VisitAll(text, t, c, org, keys, answers).0.steps;
      if answers(|keys|).Items? {
        var (sources, source) := EnsureSource(t1.sources, keys[n]);
        var (t2, channel) := EnsureChannel(t1.(sources := sources), keys[n]);
        IngestingFailsNowhere(text, t2, c1, org, source, channel, answers(|keys|).items);
      }
      assert !answers(|keys|).Disabled? ==> after == before + [after[|before|]] && after[|before|].number == |keys| && after[|before|].key == keys[n];
      ClimbAppended(before, after, |keys|);
      hide VisitAll, Climbing, HasStep;
      forall k | 0 <= k < |keys| ensures HasStep(after, k + 1, keys[k]) <==> !answers(k + 1).Disabled? {
        StepIff(before, after, keys, answers, k);
      }
    }
  }

  lemma ClimbAppended(before: seq<Step>, after: seq<Step>, n: nat)
    requires Climbing(before) && (forall s <- before :: 1 <= s.number < n) && n > 0
    requires after == before || (|after| == |before| + 1 && after == before + [after[|before|]] && after[|before|].number == n)
    ensures Climbing(after) && forall s <- after :: 1 <= s.number <= n
  {
  }

  lemma StepIff(before: seq<Step>, after: seq<Step>, keys: seq<string>, answers: Answers, k: nat)
    requires k < |keys| && forall s <- before :: s.number < |keys|
    requires k + 1 < |keys| ==> (HasStep(before, k + 1, keys[..|keys| - 1][k]) <==> !answers(k + 1).Disabled?)
    requires if answers(|keys|).Disabled? then after == before
             else |after| == |before| + 1 && after[..|before|] == before
                  && after[|before|].number == |keys| && after[|before|].key == keys[|keys| - 1]
    ensures HasStep(after, k + 1, keys[k]) <==> !answers(k + 1).Disabled?
  {
    if k + 1 < |keys| {
      if HasStep(before, k + 1, keys[k]) {
        var i :| 0 <= i < |before| && before[i].number == k + 1 && before[i].key == keys[k];
        assert after[i] == before[i];
      }
      if HasStep(after, k + 1, keys[k]) {
        var i :| 0 <= i < |after| && after[i].number == k + 1 && after[i].key == keys[k];
        assert i < |before| && after[i] == before[i];
      }
    } else if !answers(|keys|).Disabled? {
      assert after[|before|].number == k + 1;
    }
  }
}
