/** What ingestion keeps over every run, and what replaying a signal does. */
module CandidateRuns {
  import opened Prelude
  import opened Candidates

  // ---------------------------------------------------------------- the invariant

  ghost predicate UniqueCompanies(companies: seq<Company>) {
    forall i, j :: 0 <= i < j < |companies| ==>
      && companies[i].normalized != companies[j].normalized
      && (companies[i].domain.Some? ==> companies[i].domain != companies[j].domain)
  }

  ghost predicate OneLiveEach(opportunities: seq<Opportunity>) {
    forall i, j :: 0 <= i < j < |opportunities| && !opportunities[i].archived && !opportunities[j].archived ==>
      !(opportunities[i].org == opportunities[j].org && opportunities[i].company == opportunities[j].company)
  }

  ghost predicate UniquePersons(persons: seq<Person>) {
    forall i, j :: 0 <= i < j < |persons| && !persons[i].merged && !persons[j].merged && persons[i].normalized != "" ==>
      persons[i].normalized != persons[j].normalized
  }

  ghost predicate UniqueAffiliations(affiliations: seq<Affiliation>) {
    forall i, j :: 0 <= i < j < |affiliations| ==>
      !(affiliations[i].person == affiliations[j].person && affiliations[i].company == affiliations[j].company)
  }

  ghost predicate UniqueChunks(chunks: seq<Chunk>) {
    forall i, j :: 0 <= i < j < |chunks| ==> chunks[i].signal != chunks[j].signal
  }

  ghost predicate Inv(db: Db) {
    && UniqueCompanies(db.companies)
    && OneLiveEach(db.opportunities)
    && UniquePersons(db.persons)
    && UniqueAffiliations(db.affiliations)
    && UniqueChunks(db.chunks)
    && forall i :: 0 <= i < |db.opportunities| ==> db.opportunities[i].company < |db.companies|
  }

  // ---------------------------------------------------------------- runs

  datatype Op =
    | Outbound(data: SignalData, channel: Option<nat>)
    | Again(signal: nat, channel: Option<nat>)
    | Inbound(submission: Submission)
    | Manually(org: nat, target: Target, origin: Origin)
    | Archiving(opportunity: nat)
    | MergePerson(loser: nat)

  const EMPTY := Db([], [], [], [], [], [], [], [], [], [])

  function AddSignal(db: Db, data: SignalData): Db {
    db.(signals := db.signals + [Signal(data, None, None)])
  }

  function Apply(text: TextRules, db: Db, op: Op): Db {
    match op
    case Outbound(data, channel) => Resolve(text, AddSignal(db, data), |db.signals|, channel).0
    case Again(signal, channel) => if signal < |db.signals| then Resolve(text, db, signal, channel).0 else db
    case Inbound(submission) => Submit(text, db, submission).0
    case Manually(org, target, origin) => CreateManual(text, db, org, target, origin).0
    case Archiving(opportunity) => Archive(db, opportunity)
    case MergePerson(loser) =>
      if loser < |db.persons| then db.(persons := db.persons[loser := db.persons[loser].(merged := true)]) else db
  }

  function Run(text: TextRules, db: Db, ops: seq<Op>): Db {
    if ops == [] then db else Apply(text, Run(text, db, ops[..|ops| - 1]), ops[|ops| - 1])
  }

  // ---------------------------------------------------------------- each step keeps it

  lemma EnsureCompanyKeeps(db: Db, name: string, normalized: string, domain: Option<string>)
    requires Inv(db)
    ensures Inv(EnsureCompany(db, name, normalized, domain).0)
  {
  }

  lemma EnsureOpportunityKeeps(db: Db, org: nat, company: nat, origin: Candidates.Origin)
    requires Inv(db) && company < |db.companies|
    ensures Inv(EnsureOpportunity(db, org, company, origin).0)
    ensures EnsureOpportunity(db, org, company, origin).0.companies == db.companies
  {
  }

  lemma EnsureSignalPersonKeeps(text: TextRules, db: Db, signal: nat, hint: Hint)
    requires Inv(db) && signal < |db.signals|
    ensures Inv(EnsureSignalPerson(text, db, signal, hint).0)
  {
  }

  lemma EnsureFounderKeeps(text: TextRules, db: Db, displayName: string, email: Option<string>)
    requires Inv(db)
    ensures Inv(EnsureFounder(text, db, displayName, email).0)
  {
  }

  lemma EnsureAffiliationKeeps(affiliations: seq<Affiliation>, person: nat, company: nat, confidence: real)
    requires UniqueAffiliations(affiliations)
    ensures UniqueAffiliations(EnsureAffiliation(affiliations, person, company, confidence))
  {
  }

  lemma RecordChunkKeeps(chunks: seq<Chunk>, data: SignalData, signal: nat, person: Option<nat>, company: nat)
    requires UniqueChunks(chunks)
    ensures UniqueChunks(RecordChunk(chunks, data, signal, person, company))
  {
  }

  lemma AttachPersonKeeps(text: TextRules, db: Db, signal: nat, company: nat)
    requires Inv(db) && signal < |db.signals|
    ensures Inv(AttachPerson(text, db, signal, company).0)
    ensures AttachPerson(text, db, signal, company).0.companies == db.companies
    ensures AttachPerson(text, db, signal, company).0.opportunities == db.opportunities
  {
    var data := db.signals[signal].data;
    if data.hint.Some? {
      EnsureSignalPersonKeeps(text, db, signal, data.hint.value);
      var (db1, i) := EnsureSignalPerson(text, db, signal, data.hint.value);
      EnsureAffiliationKeeps(db1.affiliations, i, company, 0.65);
    }
  }

  lemma ResolveKeeps(text: TextRules, db: Db, signal: nat, channel: Option<nat>)
    requires Inv(db) && signal < |db.signals|
    ensures Inv(Resolve(text, db, signal, channel).0)
  {
    var data := db.signals[signal].data;
    EnsureCompanyKeeps(db, data.name, text.norm(data.name), SignalDomain(text, data.host));
    var (db1, company) := EnsureCompany(db, data.name, text.norm(data.name), SignalDomain(text, data.host));
    var db2 := db1.(signals := db1.signals[signal := db1.signals[signal].(company := Some(company))]);
    AttachPersonKeeps(text, db2, signal, company);
    var (db3, person) := AttachPerson(text, db2, signal, company);
    RecordChunkKeeps(db3.chunks, data, signal, person, company);
    var db4 := db3.(chunks := RecordChunk(db3.chunks, data, signal, person, company),
                    edges := RecordEdge(db3.edges, channel, person, company));
    EnsureOpportunityKeeps(db4, data.org, company, Candidates.Origin.Outbound);
  }

  lemma SubmitKeeps(text: TextRules, db: Db, s: Submission)
    requires Inv(db)
    ensures Inv(Submit(text, db, s).0)
  {
    var domain := if s.hasWebsite then DomainOf(text, s.host) else None;
    EnsureCompanyKeeps(db, text.strip(s.companyName), text.norm(s.companyName), domain);
    var (db1, company) := EnsureCompany(db, text.strip(s.companyName), text.norm(s.companyName), domain);
    EnsureOpportunityKeeps(db1, s.org, company, Candidates.Origin.Inbound);
    var (db2, opportunity, _) := EnsureOpportunity(db1, s.org, company, Candidates.Origin.Inbound);
    var email := if Given(s.contactEmail) then Some(text.fold(s.contactEmail.value)) else None;
    EnsureFounderKeeps(text, db2, DisplayName(text, s, db2.companies[company].name), email);
    var (db3, person) := EnsureFounder(text, db2, DisplayName(text, s, db2.companies[company].name), email);
    EnsureAffiliationKeeps(db3.affiliations, person, company, 0.35);
  }

  lemma CreateManualKeeps(text: TextRules, db: Db, org: nat, target: Target, origin: Candidates.Origin)
    requires Inv(db)
    ensures Inv(CreateManual(text, db, org, target, origin).0)
  {
    if target.ByName? {
      EnsureCompanyKeeps(db, target.name, text.norm(target.name), None);
    }
  }

  lemma StepKeeps(text: TextRules, db: Db, op: Op)
    requires Inv(db)
    ensures Inv(Apply(text, db, op))
  {
    match op
    case Outbound(data, channel) => ResolveKeeps(text, AddSignal(db, data), |db.signals|, channel);
    case Again(signal, channel) => if signal < |db.signals| { ResolveKeeps(text, db, signal, channel); }
    case Inbound(submission) => SubmitKeeps(text, db, submission);
    case Manually(org, target, origin) => CreateManualKeeps(text, db, org, target, origin);
    case Archiving(_) =>
    case MergePerson(_) =>
  }

  /**
    * Convergence over every run of applications, manual entries, outbound signals, archiving and person
    * merges: no two companies share a normalised name or a domain, each organisation has at most one live
    * opportunity per company, and founders, affiliations and memory are kept once.
    */
  lemma {:induction false} RunsConverge(text: TextRules, ops: seq<Op>)
    ensures Inv(Run(text, EMPTY, ops))
  {
    if ops != [] {
      RunsConverge(text, ops[..|ops| - 1]);
      StepKeeps(text, Run(text, EMPTY, ops[..|ops| - 1]), ops[|ops| - 1]);
    }
  }

  /** Whichever matching row a query without an order returns, it is the one the model takes. */
  lemma LookupsAreDetermined(db: Db, i: nat, j: nat)
    requires Inv(db)
    ensures i < |db.companies| ==> Find(HasName(db.companies[i].normalized), db.companies) == Some(i)
    ensures i < |db.companies| && db.companies[i].domain.Some? ==>
      Find(HasDomain(db.companies[i].domain.value), db.companies) == Some(i)
    ensures j < |db.opportunities| && !db.opportunities[j].archived ==>
      Find(LiveFor(db.opportunities[j].org, db.opportunities[j].company), db.opportunities) == Some(j)
  {
    if i < |db.companies| {
      FindUnique(HasName(db.companies[i].normalized), db.companies, i);
      if db.companies[i].domain.Some? { FindUnique(HasDomain(db.companies[i].domain.value), db.companies, i); }
    }
    if j < |db.opportunities| && !db.opportunities[j].archived {
      FindUnique(LiveFor(db.opportunities[j].org, db.opportunities[j].company), db.opportunities, j);
    }
  }

  // ---------------------------------------------------------------- replaying a signal

  /** Every find-or-create step of resolving this signal would now find. */
  ghost predicate Settled(text: TextRules, db: Db, signal: nat, channel: Option<nat>, r: Resolved)
    requires signal < |db.signals|
  {
    var row := db.signals[signal];
    && FindCompany(db.companies, text.norm(row.data.name), SignalDomain(text, row.data.host)) == Some(r.company)
    && row.company == Some(r.company)
    && PersonSettled(text, db, signal, r)
    && (row.data.hasContent ==> Find(ChunkOf(signal), db.chunks).Some?)
    && (channel.Some? ==> Find(EdgeOf(Edge(channel.value, r.person, r.company)), db.edges).Some?)
    && Find(LiveFor(row.data.org, r.company), db.opportunities) == Some(r.opportunity)
  }

  ghost predicate PersonSettled(text: TextRules, db: Db, signal: nat, r: Resolved)
    requires signal < |db.signals|
  {
    var row := db.signals[signal];
    if row.data.hint.None? then r.person.None?
    else
      && r.person.Some?
      && FindPerson(text, db.persons, row.data.hint.value) == r.person
      && row.person == r.person
      && EnsureAffiliation(db.affiliations, r.person.value, r.company, 0.65) == db.affiliations
      && HasEvents(db.events, r.person.value, signal, ScoreEventsFor(row.data.kind))
  }

  ghost predicate HasEvents(events: seq<ScoreEvent>, person: nat, signal: nat, items: seq<(string, nat)>) {
    forall i :: 0 <= i < |items| ==> Find(OfSignal(person, signal, items[i].0), events).Some?
  }

  lemma {:induction false} RecordedEventsStay(events: seq<ScoreEvent>, person: nat, signal: nat, items: seq<(string, nat)>)
    requires HasEvents(events, person, signal, items)
    ensures RecordEvents(events, person, signal, items) == events
  {
    if items != [] {
      var n := |items| - 1;
      RecordedEventsStay(events, person, signal, items[..n]);
      assert items[n] == (items[n].0, items[n].1);
    }
  }

  lemma FindStays<T>(test: T -> bool, rows: seq<T>, extra: T)
    ensures Find(test, rows).Some? || test(extra) ==> Find(test, rows + [extra]).Some?
  {
    assert (rows + [extra])[..|rows|] == rows;
  }

  lemma {:induction false} EventsGetRecorded(events: seq<ScoreEvent>, person: nat, signal: nat, items: seq<(string, nat)>)
    ensures HasEvents(RecordEvents(events, person, signal, items), person, signal, items)
  {
    if items != [] {
      var n := |items| - 1;
      var before, after := RecordEvents(events, person, signal, items[..n]), RecordEvents(events, person, signal, items);
      EventsGetRecorded(events, person, signal, items[..n]);
      var row := ScoreEvent(person, items[n].0, items[n].1, FromSignal(signal));
      assert items[n] == (items[n].0, items[n].1);
      forall i | 0 <= i < |items| ensures Find(OfSignal(person, signal, items[i].0), after).Some? {
        if i < n { assert items[..n][i] == items[i]; }
        FindStays(OfSignal(person, signal, items[i].0), before, row);
      }
    }
  }

  lemma AffiliationSettles(affiliations: seq<Affiliation>, person: nat, company: nat, confidence: real)
    ensures
      var once := EnsureAffiliation(affiliations, person, company, confidence);
      EnsureAffiliation(once, person, company, confidence) == once
  {
    var once := EnsureAffiliation(affiliations, person, company, confidence);
    var existing := Find(Founds(person, company), affiliations);
    if existing.None? {
      FindFirst(Founds(person, company), once, |affiliations|);
    } else {
      FindFirst(Founds(person, company), once, existing.value);
    }
  }

  /** Searching again finds the person that was found or created, whatever its counters. */
  lemma PersonSettles(text: TextRules, db: Db, signal: nat, hint: Hint)
    requires signal < |db.signals|
    ensures
      var (next, i) := EnsureSignalPerson(text, db, signal, hint);
      FindPerson(text, next.persons, hint) == Some(i) && next.signals == db.signals && next.companies == db.companies
  {
    var (next, i) := EnsureSignalPerson(text, db, signal, hint);
    var found := FindPerson(text, db.persons, hint);
    var identified, named := Identified(text, hint), Named(text.norm(hint.value));
    forall k | 0 <= k < |db.persons|
      ensures identified(next.persons[k]) == identified(db.persons[k]) && named(next.persons[k]) == named(db.persons[k]) { }
    if found.None? {
      assert Lookup(next.persons[i].identities, hint.provider) == hint.value;
      FindFirst(identified, next.persons, i);
    } else if Find(identified, db.persons).Some? {
      FindFirst(identified, next.persons, i);
    } else {
      FindFirst(named, next.persons, i);
    }
  }

  lemma CompanySettles(db: Db, name: string, normalized: string, domain: Option<string>)
    ensures
      var (next, i) := EnsureCompany(db, name, normalized, domain);
      FindCompany(next.companies, normalized, domain) == Some(i)
  {
    var (next, i) := EnsureCompany(db, name, normalized, domain);
    if FindCompany(db.companies, normalized, domain).None? {
      if domain.Some? { FindFirst(HasDomain(domain.value), next.companies, i); } else { FindFirst(HasName(normalized), next.companies, i); }
    }
  }

  lemma OpportunitySettles(db: Db, org: nat, company: nat, origin: Candidates.Origin)
    ensures
      var (next, i, _) := EnsureOpportunity(db, org, company, origin);
      Find(LiveFor(org, company), next.opportunities) == Some(i)
  {
    if Find(LiveFor(org, company), db.opportunities).None? {
      FindFirst(LiveFor(org, company), EnsureOpportunity(db, org, company, origin).0.opportunities, |db.opportunities|);
    }
  }

  lemma AttachSettles(text: TextRules, db: Db, signal: nat, company: nat)
    requires signal < |db.signals|
    ensures
      var (next, person) := AttachPerson(text, db, signal, company);
      && |next.signals| == |db.signals| && next.signals[signal].data == db.signals[signal].data
      && next.signals[signal].company == db.signals[signal].company
      && next.companies == db.companies && next.opportunities == db.opportunities
      && PersonSettled(text, next, signal, Resolved(person, company, 0, false))
  {
    var data := db.signals[signal].data;
    if data.hint.Some? {
      PersonSettles(text, db, signal, data.hint.value);
      var (db1, i) := EnsureSignalPerson(text, db, signal, data.hint.value);
      AffiliationSettles(db1.affiliations, i, company, 0.65);
      EventsGetRecorded(db1.events, i, signal, ScoreEventsFor(data.kind));
    }
  }

  /** After a resolution everything it looks for is there. */
  lemma ResolveSettles(text: TextRules, db: Db, signal: nat, channel: Option<nat>)
    requires signal < |db.signals|
    ensures
      var (next, r) := Resolve(text, db, signal, channel);
      signal < |next.signals| && Settled(text, next, signal, channel, r)
  {
    var data := db.signals[signal].data;
    var (db1, company) := EnsureCompany(db, data.name, text.norm(data.name), SignalDomain(text, data.host));
    CompanySettles(db, data.name, text.norm(data.name), SignalDomain(text, data.host));
    var db2 := db1.(signals := db1.signals[signal := db1.signals[signal].(company := Some(company))]);
    var (db3, person) := AttachPerson(text, db2, signal, company);
    AttachSettles(text, db2, signal, company);
    FindStays(ChunkOf(signal), db3.chunks, Chunk(signal, person, company));
    if channel.Some? {
      var edge := Edge(channel.value, person, company);
      FindStays(EdgeOf(edge), db3.edges, edge);
    }
    var db4 := db3.(chunks := RecordChunk(db3.chunks, data, signal, person, company),
                    edges := RecordEdge(db3.edges, channel, person, company));
    OpportunitySettles(db4, data.org, company, Candidates.Origin.Outbound);
    var (db5, opportunity, created) := EnsureOpportunity(db4, data.org, company, Candidates.Origin.Outbound);
    assert PersonSettled(text, db5, signal, Resolved(person, company, opportunity, created));
  }

  /** The company of a resolution is the one `EnsureCompany` settles on, and no other step touches companies. */
  lemma ResolveCompanyIs(text: TextRules, db: Db, signal: nat, channel: Option<nat>)
    requires signal < |db.signals|
    ensures
      var data := db.signals[signal].data;
      var (db1, company) := EnsureCompany(db, data.name, text.norm(data.name), SignalDomain(text, data.host));
      var (next, r) := Resolve(text, db, signal, channel);
      next.companies == db1.companies && r.company == company
  {
    hide AttachPerson, RecordChunk, RecordEdge, SignalDomain, Find, FindCompany, Advance, PersonSettled;
    var data := db.signals[signal].data;
    var (db1, company) := EnsureCompany(db, data.name, text.norm(data.name), SignalDomain(text, data.host));
    var db2 := db1.(signals := db1.signals[signal := db1.signals[signal].(company := Some(company))]);
    AttachSettles(text, db2, signal, company);
  }

  lemma SettledAttachIsNoOp(text: TextRules, db: Db, signal: nat, r: Resolved)
    requires signal < |db.signals| && PersonSettled(text, db, signal, r)
    ensures AttachPerson(text, db, signal, r.company) == (db, r.person)
  {
    var row := db.signals[signal];
    if row.data.hint.Some? {
      RecordedEventsStay(db.events, r.person.value, signal, ScoreEventsFor(row.data.kind));
      assert db.signals[signal := row.(person := r.person)] == db.signals;
    }
  }

  lemma SettledResolveIsNoOp(text: TextRules, db: Db, signal: nat, channel: Option<nat>, r: Resolved)
    requires signal < |db.signals| && Settled(text, db, signal, channel, r)
    ensures Resolve(text, db, signal, channel) == (db, r.(created := false))
  {
    var row := db.signals[signal];
    assert db.signals[signal := row.(company := Some(r.company))] == db.signals;
    SettledAttachIsNoOp(text, db, signal, r);
  }

  /**
    * Resolving the same signal again, from any state whatever, returns the same person, company and
    * opportunity, creates nothing, and leaves every table and every counter as it was.
    */
  lemma ReplayIsIdempotent(text: TextRules, db: Db, signal: nat, channel: Option<nat>)
    requires signal < |db.signals|
    ensures
      var (once, first) := Resolve(text, db, signal, channel);
      signal < |once.signals| && Resolve(text, once, signal, channel) == (once, first.(created := false))
  {
    var (once, first) := Resolve(text, db, signal, channel);
    ResolveSettles(text, db, signal, channel);
    SettledResolveIsNoOp(text, once, signal, channel, first);
  }

  /**
    * A manual entry is refused exactly when its company id is unknown or its company has a live opportunity in
    * the organisation; a refusal changes nothing, and a success opens that company's one live opportunity.
    */
  lemma ManualOpensIff(text: TextRules, db: Db, org: nat, target: Target, origin: Candidates.Origin)
    ensures
      var (next, result) := CreateManual(text, db, org, target, origin);
      var named := if target.ByName? then Find(HasName(text.norm(target.name)), db.companies) else None;
      var company := if target.ById? then target.company else if named.Some? then named.value else |db.companies|;
      var unknown := target.ById? && company >= |db.companies|;
      && (result.Ok? <==> !unknown && Find(LiveFor(org, company), db.opportunities).None?)
      && (result.Err? ==> next == db && (result.error == CompanyNotFound <==> unknown))
      && (result.Ok? ==>
            && company < |next.companies| && Find(LiveFor(org, company), next.opportunities) == Some(result.value)
            && next.opportunities == db.opportunities + [Opportunity(org, company, origin, false)])
  {
    var (next, result) := CreateManual(text, db, org, target, origin);
    if result.Ok? {
      var company := next.opportunities[|db.opportunities|].company;
      FindFirst(LiveFor(org, company), next.opportunities, |db.opportunities|);
    }
  }

  /** The affiliation is on record with at least this confidence, and no confidence ever falls. */
  lemma AffiliationRecorded(affiliations: seq<Affiliation>, person: nat, company: nat, confidence: real)
    ensures
      var after := EnsureAffiliation(affiliations, person, company, confidence);
      var found := Find(Founds(person, company), after);
      && found.Some? && after[found.value].confidence >= confidence
      && |affiliations| <= |after| <= |affiliations| + 1
      && forall i :: 0 <= i < |affiliations| ==>
           && after[i].confidence >= affiliations[i].confidence
           && (after[i] == affiliations[i] || (after[i].confidence == confidence && Founds(person, company)(affiliations[i])))
  {
    var after := EnsureAffiliation(affiliations, person, company, confidence);
    var existing := Find(Founds(person, company), affiliations);
    FindFirst(Founds(person, company), after, if existing.Some? then existing.value else |affiliations|);
  }

  // ---------------------------------------------------------------- inbound meets outbound

  /** The signal's domain is this company's, or nobody's while its name is this company's. */
  ghost predicate Meets(companies: seq<Company>, normalized: string, domain: Option<string>, company: nat)
    requires company < |companies|
  {
    || (domain.Some? && companies[company].domain == domain)
    || (companies[company].normalized == normalized && (domain.Some? ==> forall c <- companies :: c.domain != domain))
  }

  lemma FoundIffMeets(companies: seq<Company>, normalized: string, domain: Option<string>, company: nat)
    requires UniqueCompanies(companies) && company < |companies|
    ensures FindCompany(companies, normalized, domain) == Some(company) <==> Meets(companies, normalized, domain, company)
  {
    if domain.Some? && companies[company].domain == domain { FindUnique(HasDomain(domain.value), companies, company); }
    if companies[company].normalized == normalized { FindUnique(HasName(normalized), companies, company); }
  }

  /** A new signal joins a live opportunity of its organisation exactly when it meets the opportunity's company. */
  lemma SignalJoinsIff(text: TextRules, db: Db, data: SignalData, channel: Option<nat>, o: nat)
    requires Inv(db) && o < |db.opportunities| && !db.opportunities[o].archived && db.opportunities[o].org == data.org
    ensures
      var r := Resolve(text, AddSignal(db, data), |db.signals|, channel).1;
      && (r.opportunity == o <==> Meets(db.companies, text.norm(data.name), SignalDomain(text, data.host), db.opportunities[o].company))
      && (r.opportunity == o ==> !r.created && r.company == db.opportunities[o].company)
  {
    var db0, company := AddSignal(db, data), db.opportunities[o].company;
    var normalized, domain := text.norm(data.name), SignalDomain(text, data.host);
    FoundIffMeets(db.companies, normalized, domain, company);
    FindUnique(LiveFor(data.org, company), db.opportunities, o);
    var (db1, found) := EnsureCompany(db0, data.name, normalized, domain);
    var db2 := db1.(signals := db1.signals[|db.signals| := db1.signals[|db.signals|].(company := Some(found))]);
    AttachSettles(text, db2, |db.signals|, found);
  }

  lemma EnsureCompanyFrame(db: Db, name: string, normalized: string, domain: Option<string>)
    ensures
      var next := EnsureCompany(db, name, normalized, domain).0;
      && next.signals == db.signals && next.channels == db.channels
      && next.opportunities == db.opportunities && next.applications == db.applications
      && next.persons == db.persons
  {
  }

  lemma EnsureFounderFrame(text: TextRules, db: Db, name: string, email: Option<string>)
    ensures
      var next := EnsureFounder(text, db, name, email).0;
      && next.companies == db.companies && next.signals == db.signals && next.channels == db.channels
      && next.opportunities == db.opportunities && next.applications == db.applications
  {
  }

  /** A new application's opportunity is live and belongs to the company it found or created. */
  lemma SubmitLands(text: TextRules, db: Db, s: Submission)
    requires Submit(text, db, s).1.Ok? && !Submit(text, db, s).1.value.replayed
    ensures
      var (next, receipt) := Submit(text, db, s);
      var domain := if s.hasWebsite then DomainOf(text, s.host) else None;
      var (db1, company) := EnsureCompany(db, text.strip(s.companyName), text.norm(s.companyName), domain);
      var o := receipt.value.opportunity;
      && o < |next.opportunities| && next.companies == db1.companies
      && LiveFor(s.org, company)(next.opportunities[o]) && next.opportunities[o].company == company
      && (o >= |db.opportunities| ==> next.opportunities[o].origin == Candidates.Origin.Inbound)
      && next.applications == db.applications + [Application(s.org, o, s.idempotencyKey)]
      && receipt.value.application == |db.applications|
  {
    hide Find, FindCompany, EnsureCompany, EnsureFounder, EnsureAffiliation, DisplayName, DomainOf;
    var domain := if s.hasWebsite then DomainOf(text, s.host) else None;
    EnsureCompanyFrame(db, text.strip(s.companyName), text.norm(s.companyName), domain);
    var (db1, company) := EnsureCompany(db, text.strip(s.companyName), text.norm(s.companyName), domain);
    var (db2, opportunity, _) := EnsureOpportunity(db1, s.org, company, Candidates.Origin.Inbound);
    var email := if Given(s.contactEmail) then Some(text.fold(s.contactEmail.value)) else None;
    EnsureFounderFrame(text, db2, DisplayName(text, s, db2.companies[company].name), email);
  }

  lemma CompanyMetIff(db: Db, name: string, normalized: string, domain: string, other: string)
    requires UniqueCompanies(db.companies)
    ensures
      var (next, company) := EnsureCompany(db, name, normalized, Some(domain));
      Meets(next.companies, other, Some(domain), company) <==>
        || Find(HasDomain(domain), db.companies).Some?
        || Find(HasName(normalized), db.companies).None?
        || other == normalized
  {
  }

  /**
    * An application and a signal from the same site share one opportunity exactly when a company already had
    * that domain, or the application brought a new company, or both carry the same name: an existing company
    * that an application finds by name does not take over the application's domain.
    */
  lemma SameSiteConvergesIff(text: TextRules, db: Db, s: Submission, data: SignalData, channel: Option<nat>, domain: string)
    requires Inv(db) && Submit(text, db, s).1.Ok? && !Submit(text, db, s).1.value.replayed
    requires s.hasWebsite && DomainOf(text, s.host) == Some(domain) && SignalDomain(text, data.host) == Some(domain)
    requires data.org == s.org
    ensures
      var (next, receipt) := Submit(text, db, s);
      Resolve(text, AddSignal(next, data), |next.signals|, channel).1.opportunity == receipt.value.opportunity <==>
        || Find(HasDomain(domain), db.companies).Some?
        || Find(HasName(text.norm(s.companyName)), db.companies).None?
        || text.norm(data.name) == text.norm(s.companyName)
  {
    var (next, receipt) := Submit(text, db, s);
    SubmitKeeps(text, db, s);
    SubmitLands(text, db, s);
    CompanyMetIff(db, text.strip(s.companyName), text.norm(s.companyName), domain, text.norm(data.name));
    SignalJoinsIff(text, next, data, channel, receipt.value.opportunity);
  }

  /** Such a split is reachable: one manual entry, one application and one signal give two opportunities. */
  lemma SameSiteCanSplit()
    ensures
      var plain := (t: string) => t;
      var text := TextRules(plain, plain, plain, plain);
      var db := Run(text, EMPTY, [Manually(0, ByName("acme"), Candidates.Origin.Manual)]);
      var s := Submission(0, "acme", false, Some("acme.io"), true, None, None, false, None);
      var data := SignalData(0, 0, "h", 0, OtherKind, "acme blog", Some("acme.io"), None, false);
      var (next, receipt) := Submit(text, db, s);
      receipt.Ok? && Resolve(text, AddSignal(next, data), |next.signals|, None).1.opportunity != receipt.value.opportunity
  {
    var plain := (t: string) => t;
    var text := TextRules(plain, plain, plain, plain);
    var ops := [Manually(0, ByName("acme"), Candidates.Origin.Manual)];
    RunsConverge(text, ops);
    OneManualEntry(text);
    assert |"acme blog"| != |"acme"|;
    hide Inv, Run, Resolve, Find;
    var db := Run(text, EMPTY, ops);
    var s := Submission(0, "acme", false, Some("acme.io"), true, None, None, false, None);
    var data := SignalData(0, 0, "h", 0, OtherKind, "acme blog", Some("acme.io"), None, false);
    SameSiteConvergesIff(text, db, s, data, None, "acme.io");
  }

  lemma OneManualEntry(text: TextRules)
    requires text.norm("acme") == "acme" && text.strip("acme") == "acme" && text.fold("acme.io") == "acme.io"
    ensures
      var db := Run(text, EMPTY, [Manually(0, ByName("acme"), Candidates.Origin.Manual)]);
      var s := Submission(0, "acme", false, Some("acme.io"), true, None, None, false, None);
      && Find(HasDomain("acme.io"), db.companies).None? && Find(HasName("acme"), db.companies).Some?
      && Submit(text, db, s).1.Ok? && !Submit(text, db, s).1.value.replayed
      && SignalDomain(text, Some("acme.io")) == Some("acme.io")
  {
    var ops := [Manually(0, ByName("acme"), Candidates.Origin.Manual)];
    assert ops[..0] == [];
    var db := Run(text, EMPTY, ops);
    var acme := Company("acme", "acme", None);
    assert Run(text, EMPTY, []) == EMPTY && EMPTY.companies + [acme] == [acme];
    assert db.companies == [acme];
    assert "acme.io" !in {"", "github.com", "arxiv.org", "news.ycombinator.com"} by { assert "acme.io"[0] == 'a' && "acme.io"[1] == 'c'; }
  }

  // ---------------------------------------------------------------- applications

  /** Submitting again under the same idempotency key returns the first receipt and changes nothing. */
  lemma SubmissionReplay(text: TextRules, db: Db, s: Submission, again: Submission)
    requires Given(s.idempotencyKey) && Submit(text, db, s).1.Ok?
    requires again.org == s.org && again.idempotencyKey == s.idempotencyKey
    requires text.strip(again.companyName) != "" && (again.hasDeck || again.hasWebsite)
    ensures
      var (next, result) := Submit(text, db, s);
      Submit(text, next, again) == (next, Ok(result.value.(replayed := true)))
  {
    var (next, result) := Submit(text, db, s);
    var keyed := KeyedBy(s.org, s.idempotencyKey.value);
    if !result.value.replayed {
      SubmitLands(text, db, s);
      hide EnsureCompany, EnsureOpportunity, EnsureFounder, EnsureAffiliation, DisplayName, DomainOf;
      assert Find(keyed, db.applications).None?;
      FindFirst(keyed, next.applications, |db.applications|);
    }
  }
}
