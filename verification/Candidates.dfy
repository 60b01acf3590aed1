/** Candidate ingestion: applications, manual entries and outbound signals converge on shared rows. */
module Candidates {
  import opened Prelude
  import opened Sequences

  // ---------------------------------------------------------------- rows; a row's id is its place in its table

  datatype Company = Company(name: string, normalized: string, domain: Option<string>)

  datatype Person = Person(
    name: string, normalized: string, emails: seq<string>, links: map<string, string>, identities: map<string, string>,
    merged: bool, signalCount: nat, sourceCount: nat)

  /** Every affiliation here is one of role `founder`. */
  datatype Affiliation = Affiliation(person: nat, company: nat, confidence: real)

  datatype EventOrigin = FromSignal(signal: nat) | WorkSamples

  datatype ScoreEvent = ScoreEvent(person: nat, component: string, delta: nat, origin: EventOrigin)

  datatype Chunk = Chunk(signal: nat, person: Option<nat>, company: nat)

  datatype Edge = Edge(channel: nat, person: Option<nat>, company: nat)

  datatype Origin = Inbound | Outbound | Manual

  datatype Opportunity = Opportunity(org: nat, company: nat, origin: Origin, archived: bool)

  datatype Application = Application(org: nat, opportunity: nat, idempotencyKey: Option<string>)

  datatype Kind = RepoActivity(stars: nat) | Paper | LaunchOrPress | OtherKind

  datatype Hint = Hint(provider: string, value: string)

  /** What a signal brings: the name and host read off it, its strongest identity hint, and whether it has text. */
  datatype SignalData = SignalData(
    org: nat, source: nat, hash: string, observedAt: int,
    kind: Kind, name: string, host: Option<string>, hint: Option<Hint>, hasContent: bool)

  datatype Signal = Signal(data: SignalData, person: Option<nat>, company: Option<nat>)

  datatype Channel = Channel(discovered: nat, advanced: nat)

  datatype Db = Db(
    companies: seq<Company>, persons: seq<Person>, affiliations: seq<Affiliation>, events: seq<ScoreEvent>,
    chunks: seq<Chunk>, edges: seq<Edge>, opportunities: seq<Opportunity>, applications: seq<Application>,
    signals: seq<Signal>, channels: seq<Channel>)

  /**
    * The text helpers, about which nothing is assumed: `normalize_name`, `casefold`, `strip`, and the
    * collapsing of white space in a person's name.
    */
  datatype TextRules = TextRules(norm: string -> string, fold: string -> string, strip: string -> string, clean: string -> string)

  // ---------------------------------------------------------------- lookups

  /** The first row that satisfies a query. */
  function Find<T>(test: T -> bool, rows: seq<T>): (i: Option<nat>)
    ensures i.Some? ==> i.value < |rows| && test(rows[i.value]) && forall k :: 0 <= k < i.value ==> !test(rows[k])
    ensures i.None? ==> forall k :: 0 <= k < |rows| ==> !test(rows[k])
  {
    if rows == [] then None
    else
      var n := |rows| - 1;
      var before := Find(test, rows[..n]);
      if before.Some? then before else if test(rows[n]) then Some(n) else None
  }

  lemma FindUnique<T>(test: T -> bool, rows: seq<T>, i: nat)
    requires i < |rows| && test(rows[i])
    requires forall k :: 0 <= k < |rows| && test(rows[k]) ==> k == i
    ensures Find(test, rows) == Some(i)
  {
  }

  lemma FindFirst<T>(test: T -> bool, rows: seq<T>, i: nat)
    requires i < |rows| && test(rows[i])
    requires forall k :: 0 <= k < i ==> !test(rows[k])
    ensures Find(test, rows) == Some(i)
  {
  }

  function HasDomain(domain: string): Company -> bool {
    (c: Company) => c.domain == Some(domain)
  }

  function HasName(normalized: string): Company -> bool {
    (c: Company) => c.normalized == normalized
  }

  function LiveFor(org: nat, company: nat): Opportunity -> bool {
    (o: Opportunity) => o.org == org && o.company == company && !o.archived
  }

  function Founds(person: nat, company: nat): Affiliation -> bool {
    (a: Affiliation) => a.person == person && a.company == company
  }

  function OfSignal(person: nat, signal: nat, component: string): ScoreEvent -> bool {
    (e: ScoreEvent) => e.person == person && e.origin == FromSignal(signal) && e.component == component
  }

  function SamplesOf(person: nat): ScoreEvent -> bool {
    (e: ScoreEvent) => e.person == person && e.origin == WorkSamples
  }

  function ChunkOf(signal: nat): Chunk -> bool {
    (c: Chunk) => c.signal == signal
  }

  function EdgeOf(edge: Edge): Edge -> bool {
    (e: Edge) => e == edge
  }

  function Lookup(m: map<string, string>, key: string): string {
    if key in m then m[key] else ""
  }

  /** The scan over unmerged persons, by link or by recorded identity. */
  function Identified(text: TextRules, hint: Hint): Person -> bool {
    (p: Person) =>
      && !p.merged
      && (text.fold(Lookup(p.links, hint.provider)) == text.fold(hint.value)
          || text.fold(Lookup(p.identities, hint.provider)) == text.fold(hint.value))
  }

  function Named(normalized: string): Person -> bool {
    (p: Person) => !p.merged && p.normalized == normalized
  }

  function Mailed(text: TextRules, email: string): Person -> bool {
    (p: Person) => !p.merged && exists e <- p.emails :: text.fold(e) == email
  }

  // ---------------------------------------------------------------- companies

  /** An application's host, folded; an empty one counts as none. */
  function DomainOf(text: TextRules, host: Option<string>): Option<string> {
    if host.None? || host.value == "" then None else Some(text.fold(host.value))
  }

  /** A signal's host is no company's when it is one of the shared sites. */
  function SignalDomain(text: TextRules, host: Option<string>): Option<string> {
    var domain := DomainOf(text, host);
    if domain.None? || domain.value in {"", "github.com", "arxiv.org", "news.ycombinator.com"} then None else domain
  }

  function FindCompany(companies: seq<Company>, normalized: string, domain: Option<string>): Option<nat> {
    var byDomain := if domain.Some? then Find(HasDomain(domain.value), companies) else None;
    if byDomain.Some? then byDomain else Find(HasName(normalized), companies)
  }

  function EnsureCompany(db: Db, name: string, normalized: string, domain: Option<string>): (r: (Db, nat))
    ensures r.1 < |r.0.companies|
  {
    var found := FindCompany(db.companies, normalized, domain);
    if found.Some? then
      FoundInRange(db.companies, normalized, domain);
      (db, found.value)
    else (db.(companies := db.companies + [Company(name, normalized, domain)]), |db.companies|)
  }

  lemma FoundInRange(companies: seq<Company>, normalized: string, domain: Option<string>)
    ensures FindCompany(companies, normalized, domain).Some? ==> FindCompany(companies, normalized, domain).value < |companies|
  {
  }

  // ---------------------------------------------------------------- persons

  function FindPerson(text: TextRules, persons: seq<Person>, hint: Hint): Option<nat> {
    var identified := Find(Identified(text, hint), persons);
    if identified.Some? then identified
    else if text.norm(hint.value) != "" then Find(Named(text.norm(hint.value)), persons)
    else None
  }

  function IdentityLinks(hint: Hint): map<string, string> {
    if hint.provider == "github" then map["github" := "https://github.com/" + hint.value]
    else if hint.provider == "hackernews" then map["hackernews" := "https://news.ycombinator.com/user?id=" + hint.value]
    else map[]
  }

  function SignalPerson(text: TextRules, hint: Hint): Person {
    Person(hint.value, text.norm(hint.value), [], IdentityLinks(hint), map[hint.provider := hint.value], false, 0, 0)
  }

  /** The person behind a hint, and whether its counters still owe this signal. */
  function EnsureSignalPerson(text: TextRules, db: Db, signal: nat, hint: Hint): (r: (Db, nat))
    requires signal < |db.signals|
    ensures r.1 < |r.0.persons|
  {
    var found := FindPerson(text, db.persons, hint);
    var persons := if found.Some? then db.persons else db.persons + [SignalPerson(text, hint)];
    var i := if found.Some? then found.value else |db.persons|;
    PersonInRange(text, db.persons, hint);
    if db.signals[signal].person != Some(i) then
      var p := persons[i];
      (db.(persons := persons[i := p.(signalCount := p.signalCount + 1, sourceCount := p.sourceCount + 1)]), i)
    else (db.(persons := persons), i)
  }

  lemma PersonInRange(text: TextRules, persons: seq<Person>, hint: Hint)
    ensures FindPerson(text, persons, hint).Some? ==> FindPerson(text, persons, hint).value < |persons|
  {
  }

  function EnsureAffiliation(affiliations: seq<Affiliation>, person: nat, company: nat, confidence: real): seq<Affiliation> {
    var existing := Find(Founds(person, company), affiliations);
    if existing.None? then affiliations + [Affiliation(person, company, confidence)]
    else
      var a := affiliations[existing.value];
      affiliations[existing.value := a.(confidence := if a.confidence >= confidence then a.confidence else confidence)]
  }

  /** The component and delta of each event a signal gives rise to. */
  function ScoreEventsFor(kind: Kind): seq<(string, nat)> {
    match kind
    case RepoActivity(stars) =>
      [("execution", 62), ("technical_depth", 68),
       ("validation", if 42 + stars / 25 < 82 then 42 + stars / 25 else 82)]
    case Paper => [("technical_depth", 76), ("domain_expertise", 70)]
    case LaunchOrPress => [("communication", 58), ("execution", 54)]
    case OtherKind => []
  }

  /** Each component once per person and signal. */
  function RecordEvents(events: seq<ScoreEvent>, person: nat, signal: nat, items: seq<(string, nat)>): seq<ScoreEvent> {
    if items == [] then events
    else
      var before := RecordEvents(events, person, signal, items[..|items| - 1]);
      var (component, delta) := items[|items| - 1];
      if Find(OfSignal(person, signal, component), before).Some? then before
      else before + [ScoreEvent(person, component, delta, FromSignal(signal))]
  }

  // ---------------------------------------------------------------- memory and opportunities

  function RecordChunk(chunks: seq<Chunk>, data: SignalData, signal: nat, person: Option<nat>, company: nat): seq<Chunk> {
    if data.hasContent && Find(ChunkOf(signal), chunks).None? then chunks + [Chunk(signal, person, company)] else chunks
  }

  function RecordEdge(edges: seq<Edge>, channel: Option<nat>, person: Option<nat>, company: nat): seq<Edge> {
    if channel.None? then edges
    else
      var edge := Edge(channel.value, person, company);
      if Find(EdgeOf(edge), edges).None? then edges + [edge] else edges
  }

  function Advance(channels: seq<Channel>, channel: Option<nat>): seq<Channel> {
    if channel.Some? && channel.value < |channels| then
      channels[channel.value := channels[channel.value].(advanced := channels[channel.value].advanced + 1)]
    else channels
  }

  /** The live opportunity of a company, created when there is none. */
  function EnsureOpportunity(db: Db, org: nat, company: nat, origin: Origin): (r: (Db, nat, bool))
    ensures r.1 < |r.0.opportunities|
  {
    var existing := Find(LiveFor(org, company), db.opportunities);
    if existing.Some? then (db, existing.value, false)
    else (db.(opportunities := db.opportunities + [Opportunity(org, company, origin, false)]), |db.opportunities|, true)
  }

  // ---------------------------------------------------------------- resolving a signal

  datatype Resolved = Resolved(person: Option<nat>, company: nat, opportunity: nat, created: bool)

  /** The person's part of a resolution: affiliation and score events. */
  function AttachPerson(text: TextRules, db: Db, signal: nat, company: nat): (r: (Db, Option<nat>))
    requires signal < |db.signals|
  {
    var data := db.signals[signal].data;
    if data.hint.None? then (db, None)
    else
      var (db1, i) := EnsureSignalPerson(text, db, signal, data.hint.value);
      (db1.(signals := db1.signals[signal := db1.signals[signal].(person := Some(i))],
            affiliations := EnsureAffiliation(db1.affiliations, i, company, 0.65),
            events := RecordEvents(db1.events, i, signal, ScoreEventsFor(data.kind))),
       Some(i))
  }

  function Resolve(text: TextRules, db: Db, signal: nat, channel: Option<nat>): (r: (Db, Resolved))
    requires signal < |db.signals|
  {
    var data := db.signals[signal].data;
    var (db1, company) := EnsureCompany(db, data.name, text.norm(data.name), SignalDomain(text, data.host));
    var db2 := db1.(signals := db1.signals[signal := db1.signals[signal].(company := Some(company))]);
    var (db3, person) := AttachPerson(text, db2, signal, company);
    var db4 := db3.(chunks := RecordChunk(db3.chunks, data, signal, person, company),
                    edges := RecordEdge(db3.edges, channel, person, company));
    var (db5, opportunity, created) := EnsureOpportunity(db4, data.org, company, Outbound);
    (if created then db5.(channels := Advance(db5.channels, channel)) else db5,
     Resolved(person, company, opportunity, created))
  }

  // ---------------------------------------------------------------- applications and manual entries

  datatype Submission = Submission(
    org: nat, companyName: string, hasDeck: bool, host: Option<string>, hasWebsite: bool,
    contactName: Option<string>, contactEmail: Option<string>, hasArtifacts: bool, idempotencyKey: Option<string>)

  datatype IngestError = NameRequired | DeckRequired | CompanyNotFound | DuplicateOpportunity

  datatype Receipt = Receipt(application: nat, opportunity: nat, replayed: bool)

  predicate Given(value: Option<string>) {
    value.Some? && value.value != ""
  }

  function KeyedBy(org: nat, key: string): Application -> bool {
    (a: Application) => a.org == org && a.idempotencyKey == Some(key)
  }

  /** The founder record of an application: found by e-mail, else by name, else created. */
  function EnsureFounder(text: TextRules, db: Db, displayName: string, email: Option<string>): (r: (Db, nat))
    ensures r.1 < |r.0.persons|
  {
    var byMail := if email.Some? then Find(Mailed(text, email.value), db.persons) else None;
    var found := if byMail.Some? then byMail else Find(Named(text.norm(displayName)), db.persons);
    if found.None? then
      var person := Person(displayName, text.norm(displayName), if email.Some? then [email.value] else [], map[], map[], false, 0, 0);
      (db.(persons := db.persons + [person]), |db.persons|)
    else
      var p := db.persons[found.value];
      if email.Some? && !exists e <- p.emails :: text.fold(e) == email.value then
        (db.(persons := db.persons[found.value := p.(emails := p.emails + [email.value])]), found.value)
      else (db, found.value)
  }

  const NAME_LIMIT: nat := 200

  function DisplayName(text: TextRules, s: Submission, companyName: string): string {
    var cleaned := if s.contactName.Some? then text.clean(s.contactName.value) else "";
    if cleaned != "" then Take(cleaned, NAME_LIMIT) else Take("Unresolved founder at " + companyName, NAME_LIMIT)
  }

  function Submit(text: TextRules, db: Db, s: Submission): (Db, Result<Receipt, IngestError>) {
    if text.strip(s.companyName) == "" then (db, Err(NameRequired))
    else if !s.hasDeck && !s.hasWebsite then (db, Err(DeckRequired))
    else
      var prior := if Given(s.idempotencyKey) then Find(KeyedBy(s.org, s.idempotencyKey.value), db.applications) else None;
      if prior.Some? then (db, Ok(Receipt(prior.value, db.applications[prior.value].opportunity, true)))
      else
        var domain := if s.hasWebsite then DomainOf(text, s.host) else None;
        var (db1, company) := EnsureCompany(db, text.strip(s.companyName), text.norm(s.companyName), domain);
        var (db2, opportunity, _) := EnsureOpportunity(db1, s.org, company, Inbound);
        var email := if Given(s.contactEmail) then Some(text.fold(s.contactEmail.value)) else None;
        var (db3, person) := EnsureFounder(text, db2, DisplayName(text, s, db2.companies[company].name), email);
        var samples := s.hasArtifacts && Find(SamplesOf(person), db3.events).None?;
        (db3.(affiliations := EnsureAffiliation(db3.affiliations, person, company, 0.35),
              events := if samples then db3.events + [ScoreEvent(person, "execution", 55, WorkSamples)] else db3.events,
              applications := db3.applications + [Application(s.org, opportunity, s.idempotencyKey)]),
         Ok(Receipt(|db3.applications|, opportunity, false)))
  }

  /** A manual entry names an existing company or a company name. */
  datatype Target = ById(company: nat) | ByName(name: string)

  function CreateManual(text: TextRules, db: Db, org: nat, target: Target, origin: Origin): (Db, Result<nat, IngestError>) {
    if target.ById? && target.company >= |db.companies| then (db, Err(CompanyNotFound))
    else
      var (db1, company) :=
        if target.ById? then (db, target.company)
        else EnsureCompany(db, target.name, text.norm(target.name), None);
      if Find(LiveFor(org, company), db1.opportunities).Some? then (db, Err(DuplicateOpportunity))
      else (db1.(opportunities := db1.opportunities + [Opportunity(org, company, origin, false)]), Ok(|db1.opportunities|))
  }

  function Archive(db: Db, opportunity: nat): Db {
    if opportunity < |db.opportunities| then
      db.(opportunities := db.opportunities[opportunity := db.opportunities[opportunity].(archived := true)])
    else db
  }

  // ---------------------------------------------------------------- the store the services write to

  class Store {
    var db: Db

    constructor (db: Db)
      ensures this.db == db
    {
      this.db := db;
    }

    method RecordFounderEvents(person: nat, signal: nat, kind: Kind)
      modifies this
      ensures db == old(db).(events := RecordEvents(old(db).events, person, signal, ScoreEventsFor(kind)))
    {
      var items := ScoreEventsFor(kind);
      assert items[..0] == [];
      for i := 0 to |items|
        invariant db == old(db).(events := RecordEvents(old(db).events, person, signal, items[..i]))
      {
        assert items[..i + 1][..i] == items[..i];
        var (component, delta) := items[i];
        var existing := Find(OfSignal(person, signal, component), db.events);
        if existing.None? {
          db := db.(events := db.events + [ScoreEvent(person, component, delta, FromSignal(signal))]);
        }
      }
      assert items[..|items|] == items;
    }

    method ResolveOutboundSignal(text: TextRules, signal: nat, channel: Option<nat>) returns (resolved: Resolved)
      requires signal < |db.signals|
      modifies this
      ensures (db, resolved) == Resolve(text, old(db), signal, channel)
    {
      var data := db.signals[signal].data;
      var (withCompany, company) := EnsureCompany(db, data.name, text.norm(data.name), SignalDomain(text, data.host));
      db := withCompany;
      db := db.(signals := db.signals[signal := db.signals[signal].(company := Some(company))]);
      var person: Option<nat> := None;
      if data.hint.Some? {
        var (withPerson, i) := EnsureSignalPerson(text, db, signal, data.hint.value);
        db := withPerson;
        person := Some(i);
        db := db.(signals := db.signals[signal := db.signals[signal].(person := person)]);
        db := db.(affiliations := EnsureAffiliation(db.affiliations, i, company, 0.65));
        RecordFounderEvents(i, signal, data.kind);
      }
      db := db.(chunks := RecordChunk(db.chunks, data, signal, person, company));
      db := db.(edges := RecordEdge(db.edges, channel, person, company));
      var (withOpportunity, opportunity, created) := EnsureOpportunity(db, data.org, company, Outbound);
      db := withOpportunity;
      if created {
        db := db.(channels := Advance(db.channels, channel));
      }
      resolved := Resolved(person, company, opportunity, created);
    }
  }
}
