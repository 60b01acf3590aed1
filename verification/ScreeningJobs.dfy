/** The screening jobs of a harvest against the candidates it resolved. */
module ScreeningJobs {
  import opened Prelude
  import opened Candidates
  import opened CandidateRuns
  import opened Harvest
  import opened HarvestLaws

  // ---------------------------------------------------------------- queued jobs are for live opportunities

  predicate JobLive(db: Db, job: ScreenJob, org: nat) {
    job.org == org && job.opportunity < |db.opportunities| && !db.opportunities[job.opportunity].archived
  }

  /** A harvest only adds jobs and opportunities, and every job it added is for a live opportunity. */
  ghost predicate Queues(t0: Tables, t: Tables, org: nat) {
    && t0.jobs <= t.jobs && t0.db.opportunities <= t.db.opportunities
    && forall k :: |t0.jobs| <= k < |t.jobs| ==> JobLive(t.db, t.jobs[k], org)
  }

  lemma QueuesChain(t0: Tables, t1: Tables, t2: Tables, org: nat)
    requires Queues(t0, t1, org) && Queues(t1, t2, org)
    ensures Queues(t0, t2, org)
  {
    forall k | |t0.jobs| <= k < |t2.jobs| ensures JobLive(t2.db, t2.jobs[k], org) {
      if k < |t1.jobs| {
        assert t2.jobs[k] == t1.jobs[k] && JobLive(t1.db, t1.jobs[k], org);
      }
    }
  }

  lemma IngestQueues(text: TextRules, t: Tables, c: Counts, org: nat, source: nat, channel: nat, item: Item)
    requires channel < |t.db.channels|
    ensures Queues(t, Ingest(text, t, c, org, source, channel, item).0, org)
  {
    if !Known(t.db, source, item) {
      hide Resolve, Known;
      ResolveFrame(text, AddSignal(t.db, DataOf(org, source, item)), |t.db.signals|, channel);
    }
  }

  lemma {:induction false} IngestAllQueues(text: TextRules, t: Tables, c: Counts, org: nat, source: nat, channel: nat, items: seq<Item>)
    requires channel < |t.db.channels|
    ensures Queues(t, IngestAll(text, t, c, org, source, channel, items).0, org)
  {
    if items != [] {
      hide Queues, Grows, Ingest;
      var n := |items| - 1;
      IngestAllQueues(text, t, c, org, source, channel, items[..n]);
      IngestAllStores(text, t, c, org, source, channel, items[..n]);
      var (t1, c1) := IngestAll(text, t, c, org, source, channel, items[..n]);
      IngestQueues(text, t1, c1, org, source, channel, items[n]);
      QueuesChain(t, t1, Ingest(text, t1, c1, org, source, channel, items[n]).0, org);
    }
  }

  lemma VisitQueues(text: TextRules, t: Tables, c: Counts, org: nat, number: nat, key: string, answer: Answer)
    requires |t.channelKeys| == |t.db.channels|
    ensures Queues(t, Visit(text, t, c, org, number, key, answer).0, org)
  {
    if answer.Items? {
      var (sources, source) := EnsureSource(t.sources, key);
      EnsureChannelFinds(t.(sources := sources), key);
      var (t1, channel) := EnsureChannel(t.(sources := sources), key);
      IngestAllQueues(text, t1, c, org, source, channel, answer.items);
    }
  }

  lemma {:induction false} HarvestQueues(text: TextRules, t: Tables, c: Counts, org: nat, keys: seq<string>, answers: Answers)
    requires |t.channelKeys| == |t.db.channels|
    ensures Queues(t, VisitAll(text, t, c, org, keys, answers).0, org)
  {
    if keys != [] {
      hide Queues, Visit, Stale;
      var n := |keys| - 1;
      HarvestQueues(text, t, c, org, keys[..n], answers);
      HarvestStores(text, t, c, org, keys[..n], answers);
      var (t1, c1) := VisitAll(text, t, c, org, keys[..n], answers);
      VisitQueues(text, t1, c1, org, |keys|, keys[n], answers(|keys|));
      QueuesChain(t, t1, Visit(text, t1, c1, org, |keys|, keys[n], answers(|keys|)).0, org);
    }
  }

  // ---------------------------------------------------------------- one job per candidate?

  /** The company a job's signal was resolved to. */
  function CompanyOf(t: Tables, k: nat): Option<nat>
    requires k < |t.jobs| && t.jobs[k].signal < |t.db.signals|
  {
    t.db.signals[t.jobs[k].signal].company
  }

  /** Two live jobs of an organisation are for one opportunity exactly when their signals share a company. */
  lemma LiveJobsShareIff(t: Tables, org: nat, i: nat, j: nat)
    requires Valid(t) && i < |t.jobs| && j < |t.jobs|
    requires JobLive(t.db, t.jobs[i], org) && JobLive(t.db, t.jobs[j], org)
    ensures JobFits(t.db, t.jobs[i]) && JobFits(t.db, t.jobs[j])
    ensures t.jobs[i].opportunity == t.jobs[j].opportunity <==> CompanyOf(t, i) == CompanyOf(t, j)
  {
    hide CountersAgree, UniqueSignals, UniqueCompanies, UniquePersons, UniqueAffiliations, UniqueChunks;
    assert JobFits(t.db, t.jobs[i]) && JobFits(t.db, t.jobs[j]);
    var a, b := t.jobs[i].opportunity, t.jobs[j].opportunity;
    assert a < b || b < a || a == b;
  }

  /**
    * Over one harvest, two of the screening jobs it queued are for the same candidate if and only if their
    * signals were resolved to the same company.
    */
  lemma HarvestJobsShareIff(text: TextRules, t: Tables, c: Counts, org: nat, keys: seq<string>, answers: Answers, i: nat, j: nat)
    requires Valid(t)
    requires |t.jobs| <= i < j < |VisitAll(text, t, c, org, keys, answers).0.jobs|
    ensures
      var after := VisitAll(text, t, c, org, keys, answers).0;
      && JobFits(after.db, after.jobs[i]) && JobFits(after.db, after.jobs[j])
      && (after.jobs[i].opportunity == after.jobs[j].opportunity <==> CompanyOf(after, i) == CompanyOf(after, j))
  {
    hide VisitAll, Accounts, JobLive;
    var after := VisitAll(text, t, c, org, keys, answers).0;
    HarvestConserves(text, t, c, org, keys, answers);
    HarvestQueues(text, t, c, org, keys, answers);
    assert JobLive(after.db, after.jobs[i], org) && JobLive(after.db, after.jobs[j], org);
    hide Valid;
    LiveJobsShareIff(after, org, i, j);
  }

  /**
    * At any moment of a harvest the next new item shares the candidate of a job queued before exactly when its
    * domain is that candidate's, or nobody's while its name is that candidate's.
    */
  lemma NextJobSharesIff(text: TextRules, t: Tables, c: Counts, org: nat, source: nat, channel: nat, item: Item, k: nat)
    requires Valid(t) && channel < |t.db.channels| && !Known(t.db, source, item)
    requires k < |t.jobs| && JobLive(t.db, t.jobs[k], org)
    ensures
      var next := Ingest(text, t, c, org, source, channel, item).0;
      var company := t.db.opportunities[t.jobs[k].opportunity].company;
      && JobFits(t.db, t.jobs[k]) && company < |t.db.companies| && |next.jobs| == |t.jobs| + 1
      && (next.jobs[|t.jobs|].opportunity == t.jobs[k].opportunity <==>
            Meets(t.db.companies, text.norm(item.name), SignalDomain(text, item.host), company))
  {
    hide Resolve, Meets, Known;
    assert JobFits(t.db, t.jobs[k]);
    SignalJoinsIff(text, t.db, DataOf(org, source, item), Some(channel), t.jobs[k].opportunity);
  }

  // ---------------------------------------------------------------- deciding it before the harvest

  /** Where a name and domain would be placed: the company found, or the one created. */
  function Place(text: TextRules, companies: seq<Company>, item: Item): (seq<Company>, nat) {
    var normalized, domain := text.norm(item.name), SignalDomain(text, item.host);
    var found := FindCompany(companies, normalized, domain);
    if found.Some? then (companies, found.value)
    else (companies + [Company(item.name, normalized, domain)], |companies|)
  }

  /** The companies of a list of items, from the company table alone. */
  function Placed(text: TextRules, companies: seq<Company>, items: seq<Item>): (r: (seq<Company>, seq<nat>))
    ensures |r.1| == |items|
  {
    if items == [] then (companies, [])
    else
      var (before, places) := Placed(text, companies, items[..|items| - 1]);
      var (after, place) := Place(text, before, items[|items| - 1]);
      (after, places + [place])
  }

  predicate SameSignal(a: Item, b: Item) {
    a.hash == b.hash && a.observedAt == b.observedAt
  }

  /** Items that are not stored yet and differ from one another. */
  ghost predicate NewItems(db: Db, source: nat, items: seq<Item>) {
    && (forall i :: 0 <= i < |items| ==> !Known(db, source, items[i]))
    && forall i, j :: 0 <= i < j < |items| ==> !SameSignal(items[i], items[j])
  }

  lemma ResolvePlaces(text: TextRules, db: Db, org: nat, source: nat, item: Item, channel: nat)
    requires channel < |db.channels|
    ensures
      var (next, r) := Resolve(text, AddSignal(db, DataOf(org, source, item)), |db.signals|, Some(channel));
      (next.companies, r.company) == Place(text, db.companies, item)
  {
    hide Resolve, SignalDomain, FindCompany;
    ResolveCompanyIs(text, AddSignal(db, DataOf(org, source, item)), |db.signals|, Some(channel));
  }

  /** What a list of new items leaves behind: their signals, each with its place, and one job for each. */
  ghost predicate Laid(t: Tables, after: Tables, org: nat, source: nat, items: seq<Item>, places: seq<nat>)
    requires |places| == |items|
  {
    && |after.db.signals| == |t.db.signals| + |items| && |after.jobs| == |t.jobs| + |items|
    && t.db.signals <= after.db.signals
    && (forall k :: |t.db.signals| <= k < |after.db.signals| ==>
          && after.db.signals[k].data == DataOf(org, source, items[k - |t.db.signals|])
          && after.db.signals[k].company == Some(places[k - |t.db.signals|]))
    && forall k :: |t.jobs| <= k < |after.jobs| ==> after.jobs[k].signal == |t.db.signals| + k - |t.jobs|
  }

  lemma StillNew(t: Tables, after: Tables, org: nat, source: nat, items: seq<Item>, places: seq<nat>, item: Item)
    requires |places| == |items| && Laid(t, after, org, source, items, places)
    requires !Known(t.db, source, item) && forall i :: 0 <= i < |items| ==> !SameSignal(items[i], item)
    ensures !Known(after.db, source, item)
  {
    forall k | 0 <= k < |after.db.signals| ensures !Duplicates(source, item)(after.db.signals[k]) {
      if k < |t.db.signals| {
        assert after.db.signals[k] == t.db.signals[k] && !Duplicates(source, item)(t.db.signals[k]);
      } else {
        assert !SameSignal(items[k - |t.db.signals|], item);
      }
    }
  }

  lemma LaidStep(text: TextRules, t: Tables, after: Tables, c: Counts, org: nat, source: nat, channel: nat,
                 items: seq<Item>, places: seq<nat>, item: Item)
    requires |places| == |items| && Laid(t, after, org, source, items, places)
    requires channel < |after.db.channels| && !Known(after.db, source, item)
    ensures
      var next := Ingest(text, after, c, org, source, channel, item).0;
      && Laid(t, next, org, source, items + [item], places + [Place(text, after.db.companies, item).1])
      && next.db.companies == Place(text, after.db.companies, item).0
  {
    hide Resolve, Known, Place;
    var signal := |after.db.signals|;
    ResolvePlaces(text, after.db, org, source, item, channel);
    ResolveFrame(text, AddSignal(after.db, DataOf(org, source, item)), signal, channel);
    var next := Ingest(text, after, c, org, source, channel, item).0;
    forall k | |t.db.signals| <= k < |next.db.signals|
      ensures next.db.signals[k].data == DataOf(org, source, (items + [item])[k - |t.db.signals|])
      ensures next.db.signals[k].company == Some((places + [Place(text, after.db.companies, item).1])[k - |t.db.signals|])
    {
      if k < signal { assert next.db.signals[k] == after.db.signals[k]; }
    }
  }

  lemma {:induction false} IngestAllPlaces(text: TextRules, t: Tables, c: Counts, org: nat, source: nat, channel: nat, items: seq<Item>)
    requires channel < |t.db.channels| && NewItems(t.db, source, items)
    ensures
      var after := IngestAll(text, t, c, org, source, channel, items).0;
      var (companies, places) := Placed(text, t.db.companies, items);
      Laid(t, after, org, source, items, places) && after.db.companies == companies
  {
    if items != [] {
      var n := |items| - 1;
      NewItemsPrefix(t.db, source, items);
      hide NewItems, Laid, Grows, Known, Ingest, Place;
      IngestAllPlaces(text, t, c, org, source, channel, items[..n]);
      IngestAllStores(text, t, c, org, source, channel, items[..n]);
      var (t1, c1) := IngestAll(text, t, c, org, source, channel, items[..n]);
      var places := Placed(text, t.db.companies, items[..n]).1;
      StillNew(t, t1, org, source, items[..n], places, items[n]);
      LaidStep(text, t, t1, c1, org, source, channel, items[..n], places, items[n]);
      assert items[..n] + [items[n]] == items;
    }
  }

  lemma NewItemsPrefix(db: Db, source: nat, items: seq<Item>)
    requires items != [] && NewItems(db, source, items)
    ensures
      var n := |items| - 1;
      && NewItems(db, source, items[..n]) && !Known(db, source, items[n])
      && forall i :: 0 <= i < |items[..n]| ==> !SameSignal(items[..n][i], items[n])
  {
  }

  /**
    * Of a source's new items, the `i`th and `j`th get jobs for the same candidate if and only if the company
    * table and the items' names and hosts alone place them at the same company.
    */
  lemma ItemsShareIff(text: TextRules, t: Tables, c: Counts, org: nat, source: nat, channel: nat, items: seq<Item>, i: nat, j: nat)
    requires Valid(t) && channel < |t.db.channels| && NewItems(t.db, source, items) && i < j < |items|
    ensures
      var after := IngestAll(text, t, c, org, source, channel, items).0;
      var places := Placed(text, t.db.companies, items).1;
      && |after.jobs| == |t.jobs| + |items|
      && (after.jobs[|t.jobs| + i].opportunity == after.jobs[|t.jobs| + j].opportunity <==> places[i] == places[j])
  {
    hide IngestAll, NewItems, Placed, Accounts, Valid, JobLive;
    var after := IngestAll(text, t, c, org, source, channel, items).0;
    IngestAllKeeps(text, t, c, org, source, channel, items);
    IngestAllPlaces(text, t, c, org, source, channel, items);
    IngestAllQueues(text, t, c, org, source, channel, items);
    var p, q := |t.jobs| + i, |t.jobs| + j;
    assert JobLive(after.db, after.jobs[p], org) && JobLive(after.db, after.jobs[q], org);
    assert after.jobs[p].signal == |t.db.signals| + i && after.jobs[q].signal == |t.db.signals| + j;
    LiveJobsShareIff(after, org, p, q);
  }

  lemma PlacedPair(text: TextRules, companies: seq<Company>, a: Item, b: Item)
    ensures
      var (after, place) := Place(text, companies, a);
      Placed(text, companies, [a, b]).1 == [place, Place(text, after, b).1]
  {
    hide Place;
    assert [a, b][..1] == [a] && [a][..0] == [] && [a, b][1] == b && [a][0] == a;
    var nowhere: seq<nat> := [];
    assert Placed(text, companies, [a]).1 == nowhere + [Place(text, companies, a).1];
  }

  /** Two items of one name and host are placed at one company, whatever the table. */
  lemma OneNameOnePlace(text: TextRules, companies: seq<Company>, a: Item, b: Item)
    requires text.norm(a.name) == text.norm(b.name) && SignalDomain(text, a.host) == SignalDomain(text, b.host)
    ensures
      var places := Placed(text, companies, [a, b]).1;
      places[0] == places[1]
  {
    hide Placed, SignalDomain, FindCompany;
    PlacedPair(text, companies, a, b);
    CompanySettles(EMPTY.(companies := companies), a.name, text.norm(a.name), SignalDomain(text, a.host));
  }

  /** One screening job per candidate is the promise of distinct places. */
  lemma OneJobPerCandidateIff(text: TextRules, t: Tables, c: Counts, org: nat, source: nat, channel: nat, items: seq<Item>)
    requires Valid(t) && channel < |t.db.channels| && NewItems(t.db, source, items)
    ensures
      var after := IngestAll(text, t, c, org, source, channel, items).0;
      var places := Placed(text, t.db.companies, items).1;
      |after.jobs| == |t.jobs| + |items| &&
      (DistinctTargets(after.jobs[|t.jobs|..]) <==> forall i, j :: 0 <= i < j < |places| ==> places[i] != places[j])
  {
    hide IngestAll, NewItems, Placed, Valid;
    var after := IngestAll(text, t, c, org, source, channel, items).0;
    var places := Placed(text, t.db.companies, items).1;
    IngestAllPlaces(text, t, c, org, source, channel, items);
    assert |after.jobs| == |t.jobs| + |items|;
    hide Laid;
    forall i, j | 0 <= i < j < |items|
      ensures after.jobs[|t.jobs|..][i].opportunity == after.jobs[|t.jobs|..][j].opportunity <==> places[i] == places[j]
    {
      ItemsShareIff(text, t, c, org, source, channel, items, i, j);
    }
  }

  ghost predicate DistinctTargets(jobs: seq<ScreenJob>) {
    forall i, j :: 0 <= i < j < |jobs| ==> jobs[i].opportunity != jobs[j].opportunity
  }
}
