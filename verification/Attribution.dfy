/** Whom and what a signal or an application is put down to. */
module Attribution {
  import opened Prelude
  import opened Sequences
  import opened Candidates
  import opened CandidateRuns

  /** An application is refused exactly when its company has no name, or it brings neither a deck nor a website. */
  lemma RefusedIff(text: TextRules, db: Db, s: Submission)
    ensures
      var (next, r) := Submit(text, db, s);
      && (r == Err(NameRequired) <==> |text.strip(s.companyName)| == 0)
      && (r == Err(DeckRequired) <==> |text.strip(s.companyName)| > 0 && !s.hasDeck && !s.hasWebsite)
      && (r.Err? ==> next == db && (r.error == NameRequired || r.error == DeckRequired))
  {
    hide EnsureCompany, EnsureOpportunity, EnsureFounder, EnsureAffiliation, Find, DisplayName, DomainOf;
  }

  /** What a new application leaves of its founder: one still on their own, with an affiliation and any work samples. */
  lemma ApplicationLeaves(text: TextRules, db: Db, s: Submission) returns (p: nat)
    requires Submit(text, db, s).1.Ok? && !Submit(text, db, s).1.value.replayed
    ensures
      var (next, r) := Submit(text, db, s);
      && p < |next.persons| && !next.persons[p].merged
      && r.value.opportunity < |next.opportunities|
      && (exists a <- next.affiliations :: a.person == p && a.company == next.opportunities[r.value.opportunity].company)
      && (s.hasArtifacts ==> exists e <- next.events :: e.person == p && e.origin == WorkSamples)
      && (!s.hasArtifacts ==> next.events == db.events)
    ensures
      var next := Submit(text, db, s).0;
      p >= |db.persons| ==> exists company: Company :: company in next.companies && NamedAfter(text, s, company, next.persons[p])
  {
    hide FindCompany, EnsureFounder, EnsureAffiliation, DomainOf, Find, NamedAfter, DisplayName;
    var domain := if s.hasWebsite then DomainOf(text, s.host) else None;
    EnsureCompanyFrame(db, text.strip(s.companyName), text.norm(s.companyName), domain);
    var (db1, company) := EnsureCompany(db, text.strip(s.companyName), text.norm(s.companyName), domain);
    var (db2, opportunity, _) := EnsureOpportunity(db1, s.org, company, Candidates.Origin.Inbound);
    var email := if Given(s.contactEmail) then Some(text.fold(s.contactEmail.value)) else None;
    var name := DisplayName(text, s, db2.companies[company].name);
    var (db3, person) := EnsureFounder(text, db2, name, email);
    FounderIsNamed(text, db2, name, email);
    EnsureFounderFrame(text, db2, name, email);
    AffiliationRecorded(db3.affiliations, person, company, 0.35);
    SubmitLands(text, db, s);
    p := person;
    var next := Submit(text, db, s).0;
    if s.hasArtifacts {
      var samples := Find(SamplesOf(p), db.events);
      if samples.Some? {
        assert next.events == db.events && SamplesOf(p)(db.events[samples.value]);
      } else {
        assert next.events[|db.events|].origin == WorkSamples;
      }
    }
    if p >= |db.persons| {
      NameIs(text, s, db2.companies[company], db3.persons[p]);
      assert db2.companies[company] in next.companies;
    }
  }

  lemma FounderIsNamed(text: TextRules, db: Db, name: string, email: Option<string>)
    ensures
      var (next, p) := EnsureFounder(text, db, name, email);
      && !next.persons[p].merged && next.events == db.events && next.affiliations == db.affiliations
      && (p >= |db.persons| ==> next.persons[p].name == name && next.persons[p].normalized == text.norm(name))
  {
  }

  /**
    * A new founder bears the contact's cleaned name, or, when the application names nobody, one that says so and
    * names the company, each cut to 200 characters.
    */
  predicate NamedAfter(text: TextRules, s: Submission, company: Company, p: Person) {
    var contact := if s.contactName.Some? then text.clean(s.contactName.value) else "";
    && |p.name| <= 200
    && p.name <= (if contact == "" then "Unresolved founder at " + company.name else contact)
    && (|p.name| < 200 ==> p.name == if contact == "" then "Unresolved founder at " + company.name else contact)
    && p.normalized == text.norm(p.name)
  }

  lemma NameIs(text: TextRules, s: Submission, company: Company, p: Person)
    requires p.name == DisplayName(text, s, company.name) && p.normalized == text.norm(p.name)
    ensures NamedAfter(text, s, company, p)
  {
  }

  /** An application is a replay exactly when its own organisation has had one under the key it gives. */
  lemma ReplayedIff(text: TextRules, db: Db, s: Submission)
    ensures
      var r := Submit(text, db, s).1;
      && (r.Ok? && r.value.replayed <==>
            && |text.strip(s.companyName)| > 0 && (s.hasDeck || s.hasWebsite)
            && Keyed(db.applications, s))
      && (r.Ok? && r.value.replayed ==>
            r.value.application < |db.applications| && db.applications[r.value.application].org == s.org)
  {
    hide EnsureCompany, EnsureOpportunity, EnsureFounder, EnsureAffiliation, DisplayName, DomainOf;
  }

  ghost predicate Keyed(applications: seq<Application>, s: Submission) {
    && s.idempotencyKey.Some? && |s.idempotencyKey.value| > 0
    && exists k :: 0 <= k < |applications| && applications[k].org == s.org && applications[k].idempotencyKey == s.idempotencyKey
  }

  // ---------------------------------------------------------------- signals

  /** Two people whose names normalise to nothing are never taken for one by name. */
  lemma NamelessStayApart(text: TextRules, db: Db, signal: nat, hint: Hint)
    requires signal < |db.signals| && |text.norm(hint.value)| == 0
    requires forall p <- db.persons :: !p.merged ==>
      text.fold(Lookup(p.links, hint.provider)) != text.fold(hint.value)
      && text.fold(Lookup(p.identities, hint.provider)) != text.fold(hint.value)
    ensures EnsureSignalPerson(text, db, signal, hint).1 == |db.persons|
  {
  }

  /** A signal is attributed to nobody that was merged into another. */
  lemma NeverToTheMerged(text: TextRules, db: Db, signal: nat, channel: Option<nat>)
    requires signal < |db.signals|
    ensures
      var (next, r) := Resolve(text, db, signal, channel);
      r.person.Some? ==> r.person.value < |next.persons| && !next.persons[r.person.value].merged
  {
    var data := db.signals[signal].data;
    var (db1, company) := EnsureCompany(db, data.name, text.norm(data.name), SignalDomain(text, data.host));
    var db2 := db1.(signals := db1.signals[signal := db1.signals[signal].(company := Some(company))]);
    if data.hint.Some? { AttributedIsFound(text, db2, signal, data.hint.value); }
    hide EnsureCompany, EnsureSignalPerson, RecordChunk, RecordEdge, SignalDomain, Find, RecordEvents, EnsureAffiliation, ScoreEventsFor;
  }

  lemma AttributedIsFound(text: TextRules, db: Db, signal: nat, hint: Hint)
    requires signal < |db.signals|
    ensures
      var (next, p) := EnsureSignalPerson(text, db, signal, hint);
      !next.persons[p].merged
  {
    hide IdentityLinks;
  }

  /** The address a provider's profile has. */
  function Profile(hint: Hint): string {
    if hint.provider == "github" then "https://github.com/" + hint.value
    else "https://news.ycombinator.com/user?id=" + hint.value
  }

  /**
    * A person first met under a GitHub or Hacker News name is found again under the address of that profile, and
    * under the name in any case.
    */
  lemma ProfileFindsThem(text: TextRules, db: Db, signal: nat, hint: Hint, again: string)
    requires signal < |db.signals| && FindPerson(text, db.persons, hint).None?
    requires hint.provider == "github" || hint.provider == "hackernews"
    requires text.fold(again) == text.fold(Profile(hint)) || text.fold(again) == text.fold(hint.value)
    requires Find(Identified(text, Hint(hint.provider, again)), db.persons).None?
    ensures
      var (next, p) := EnsureSignalPerson(text, db, signal, hint);
      p == |db.persons| && FindPerson(text, next.persons, Hint(hint.provider, again)) == Some(p)
  {
    var (next, p) := EnsureSignalPerson(text, db, signal, hint);
    var met := next.persons[p];
    assert Lookup(met.links, hint.provider) == Profile(hint) && Lookup(met.identities, hint.provider) == hint.value;
    assert Identified(text, Hint(hint.provider, again))(met);
    assert forall k :: 0 <= k < p ==> next.persons[k] == db.persons[k];
    FindFirst(Identified(text, Hint(hint.provider, again)), next.persons, p);
  }

  /** What is remembered of a new signal: its text, if it has any, and the channel it came by, with the company and person it was put down to. */
  lemma ResolveRemembers(text: TextRules, db: Db, data: SignalData, channel: Option<nat>)
    requires forall c <- db.chunks :: c.signal < |db.signals|
    ensures
      var (next, r) := Resolve(text, AddSignal(db, data), |db.signals|, channel);
      && next.chunks == db.chunks + (if data.hasContent then [Chunk(|db.signals|, r.person, r.company)] else [])
      && (channel.Some? ==> Edge(channel.value, r.person, r.company) in next.edges)
      && (forall e <- next.edges :: e in db.edges || (Some(e.channel) == channel && e.person == r.person && e.company == r.company))
      && db.edges <= next.edges
  {
    var (next, r) := Resolve(text, AddSignal(db, data), |db.signals|, channel);
    MemoryIs(text, AddSignal(db, data), |db.signals|, channel);
    hide Resolve;
    FreshChunk(db.chunks, data, |db.signals|, r.person, r.company);
    EdgeKept(db.edges, channel, r.person, r.company);
  }

  lemma FreshChunk(chunks: seq<Chunk>, data: SignalData, signal: nat, person: Option<nat>, company: nat)
    requires forall c <- chunks :: c.signal < signal
    ensures RecordChunk(chunks, data, signal, person, company)
         == chunks + if data.hasContent then [Chunk(signal, person, company)] else []
  {
    var found := Find(ChunkOf(signal), chunks);
    if found.None? { hide Find; }
  }

  lemma EdgeKept(edges: seq<Edge>, channel: Option<nat>, person: Option<nat>, company: nat)
    ensures
      var next := RecordEdge(edges, channel, person, company);
      && (channel.Some? ==> Edge(channel.value, person, company) in next)
      && (forall e <- next :: e in edges || (Some(e.channel) == channel && e.person == person && e.company == company))
      && edges <= next
  {
    if channel.Some? {
      var edge := Edge(channel.value, person, company);
      var found := Find(EdgeOf(edge), edges);
      hide Find;
      if found.Some? { assert edges[found.value] == edge; }
    }
  }

  lemma MemoryIs(text: TextRules, db: Db, signal: nat, channel: Option<nat>)
    requires signal < |db.signals|
    ensures
      var (next, r) := Resolve(text, db, signal, channel);
      && next.chunks == RecordChunk(db.chunks, db.signals[signal].data, signal, r.person, r.company)
      && next.edges == RecordEdge(db.edges, channel, r.person, r.company)
  {
    hide FindCompany, FindPerson, RecordEvents, RecordChunk, RecordEdge, EnsureAffiliation, Find, ScoreEventsFor, SignalDomain;
  }
}
