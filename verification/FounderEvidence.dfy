/** From harvested signals to the founder score: which events a signal leaves, and what counts as a source. */
module FounderEvidence {
  import opened Prelude
  import opened Sequences
  import opened Candidates
  import opened CandidateRuns
  import FounderScore
  import FounderScoreLaws
  import Slugs

  // ---------------------------------------------------------------- the events on record

  /** The component table knows every component, no event is of a signal to come, and none is recorded twice. */
  ghost predicate EventsInOrder(db: Db) {
    && (forall e <- db.events :: Scored(e.component))
    && (forall e <- db.events :: e.origin.FromSignal? ==> e.origin.signal < |db.signals|)
    && NoneTwice(db.events)
  }

  predicate Scored(component: string) {
    exists c <- FounderScore.COMPONENTS :: c.name == component
  }

  ghost predicate NoneTwice(events: seq<ScoreEvent>) {
    forall i, j :: 0 <= i < j < |events| ==>
      !(events[i].person == events[j].person && events[i].component == events[j].component && events[i].origin == events[j].origin)
  }

  /** Work samples are recorded under one component, so once per person. */
  ghost predicate SamplesAreExecution(events: seq<ScoreEvent>) {
    forall e <- events :: e.origin.WorkSamples? ==> e.component == "execution" && e.delta == 55
  }

  lemma ScoredComponents()
    ensures forall name <- ["execution", "technical_depth", "validation", "domain_expertise", "communication"] :: Scored(name)
  {
    var table := FounderScore.COMPONENTS;
    assert table[0].name == "execution" && table[1].name == "technical_depth" && table[2].name == "domain_expertise"
        && table[5].name == "validation" && table[6].name == "communication";
    assert forall k :: 0 <= k < 7 ==> table[k] in table;
  }

  lemma ItemsAreScored(kind: Kind)
    ensures forall item <- ScoreEventsFor(kind) :: Scored(item.0)
    ensures forall i, j :: 0 <= i < j < |ScoreEventsFor(kind)| ==> ScoreEventsFor(kind)[i].0 != ScoreEventsFor(kind)[j].0
  {
    ScoredComponents();
    hide Scored;
    assert "execution"[0] != "technical_depth"[0] && "execution"[0] != "validation"[0] && "technical_depth"[0] != "validation"[0];
    assert "technical_depth"[0] != "domain_expertise"[0] && "communication"[0] != "execution"[0];
  }

  /** An event of a known component and signal that is not on record yet may be appended. */
  lemma AppendKeepsOrder(db: Db, e: ScoreEvent)
    requires EventsInOrder(db) && Scored(e.component) && (e.origin.FromSignal? ==> e.origin.signal < |db.signals|)
    requires forall k :: 0 <= k < |db.events| ==>
      !(db.events[k].person == e.person && db.events[k].component == e.component && db.events[k].origin == e.origin)
    ensures EventsInOrder(db.(events := db.events + [e]))
  {
    hide Scored;
  }

  lemma {:induction false} RecordKeepsOrder(db: Db, person: nat, signal: nat, items: seq<(string, nat)>)
    requires EventsInOrder(db) && signal < |db.signals| && forall item <- items :: Scored(item.0)
    ensures EventsInOrder(db.(events := RecordEvents(db.events, person, signal, items)))
    ensures SamplesAreExecution(db.events) ==> SamplesAreExecution(RecordEvents(db.events, person, signal, items))
    decreases |items|
  {
    hide Scored, EventsInOrder, Find;
    if items != [] {
      var n := |items| - 1;
      RecordKeepsOrder(db, person, signal, items[..n]);
      var before := RecordEvents(db.events, person, signal, items[..n]);
      assert items[n] in items;
      if Find(OfSignal(person, signal, items[n].0), before).None? {
        var e := ScoreEvent(person, items[n].0, items[n].1, FromSignal(signal));
        assert RecordEvents(db.events, person, signal, items) == before + [e];
        assert forall k :: 0 <= k < |before| ==> !OfSignal(person, signal, items[n].0)(before[k]);
        AppendKeepsOrder(db.(events := before), e);
      }
    }
  }

  lemma ResolveKeepsOrder(text: TextRules, db: Db, signal: nat, channel: Option<nat>)
    requires EventsInOrder(db) && SamplesAreExecution(db.events) && signal < |db.signals|
    ensures EventsInOrder(Resolve(text, db, signal, channel).0)
    ensures SamplesAreExecution(Resolve(text, db, signal, channel).0.events)
  {
    var (next, r) := Resolve(text, db, signal, channel);
    ResolveEvents(text, db, signal, channel);
    if r.person.Some? {
      ItemsAreScored(db.signals[signal].data.kind);
      RecordKeepsOrder(db, r.person.value, signal, ScoreEventsFor(db.signals[signal].data.kind));
    }
    hide Resolve, ScoreEventsFor, RecordEvents, Scored;
  }

  /** What a resolution does to the events: those of the signal's kind, for its person. */
  lemma ResolveEvents(text: TextRules, db: Db, signal: nat, channel: Option<nat>)
    requires signal < |db.signals|
    ensures
      var (next, r) := Resolve(text, db, signal, channel);
      var data := db.signals[signal].data;
      && |next.signals| == |db.signals|
      && (r.person.Some? <==> data.hint.Some?)
      && next.events ==
           if r.person.Some? then RecordEvents(db.events, r.person.value, signal, ScoreEventsFor(data.kind)) else db.events
  {
    hide FindCompany, FindPerson, RecordEvents, RecordChunk, RecordEdge, EnsureAffiliation, Find, ScoreEventsFor, SignalDomain;
  }

  lemma SubmitEvents(text: TextRules, db: Db, s: Submission)
    ensures
      var (next, r) := Submit(text, db, s);
      && next.signals == db.signals
      && (next.events == db.events ||
            exists p: nat :: next.events == db.events + [ScoreEvent(p, "execution", 55, WorkSamples)] && Find(SamplesOf(p), db.events).None?)
  {
    hide FindCompany, EnsureFounder, EnsureAffiliation, DisplayName, DomainOf, Find;
    var domain := if s.hasWebsite then DomainOf(text, s.host) else None;
    EnsureCompanyFrame(db, text.strip(s.companyName), text.norm(s.companyName), domain);
    var (db1, company) := EnsureCompany(db, text.strip(s.companyName), text.norm(s.companyName), domain);
    var (db2, opportunity, _) := EnsureOpportunity(db1, s.org, company, Candidates.Origin.Inbound);
    var email := if Given(s.contactEmail) then Some(text.fold(s.contactEmail.value)) else None;
    FounderLeavesEvents(text, db2, DisplayName(text, s, db2.companies[company].name), email);
  }

  lemma FounderLeavesEvents(text: TextRules, db: Db, name: string, email: Option<string>)
    ensures EnsureFounder(text, db, name, email).0.events == db.events
    ensures EnsureFounder(text, db, name, email).0.signals == db.signals
  {
  }

  lemma StepKeepsOrder(text: TextRules, db: Db, op: Op)
    requires EventsInOrder(db) && SamplesAreExecution(db.events)
    ensures EventsInOrder(Apply(text, db, op)) && SamplesAreExecution(Apply(text, db, op).events)
  {
    hide Resolve, Submit, Scored;
    match op
    case Outbound(data, channel) => ResolveKeepsOrder(text, AddSignal(db, data), |db.signals|, channel);
    case Again(signal, channel) => if signal < |db.signals| { ResolveKeepsOrder(text, db, signal, channel); }
    case Inbound(submission) =>
      SubmitEvents(text, db, submission);
      ScoredComponents();
      assert Scored(["execution", "technical_depth", "validation", "domain_expertise", "communication"][0]);
      var next := Submit(text, db, submission).0;
      if next.events != db.events {
        var p: nat :| next.events == db.events + [ScoreEvent(p, "execution", 55, WorkSamples)] && Find(SamplesOf(p), db.events).None?;
        forall i | 0 <= i < |db.events| ensures !(db.events[i].person == p && db.events[i].origin == WorkSamples) {
          assert !SamplesOf(p)(db.events[i]);
        }
      }
    case Manually(_, _, _) =>
    case Archiving(_) =>
    case MergePerson(_) =>
  }

  /** Over every run each component is recorded once per person and signal, and work samples once per person. */
  lemma {:induction false} RunsKeepOrder(text: TextRules, ops: seq<Op>)
    ensures EventsInOrder(Run(text, EMPTY, ops)) && SamplesAreExecution(Run(text, EMPTY, ops).events)
  {
    if ops != [] {
      RunsKeepOrder(text, ops[..|ops| - 1]);
      StepKeepsOrder(text, Run(text, EMPTY, ops[..|ops| - 1]), ops[|ops| - 1]);
    }
  }

  // ---------------------------------------------------------------- the events of one signal

  /** Repository, paper, and launch or press signals, and what each says of whom it is attributed to. */
  function Said(kind: Kind): map<string, nat> {
    match kind
    case RepoActivity(stars) =>
      map["execution" := 62, "technical_depth" := 68, "validation" := if stars >= 1000 then 82 else 42 + stars / 25]
    case Paper => map["technical_depth" := 76, "domain_expertise" := 70]
    case LaunchOrPress => map["communication" := 58, "execution" := 54]
    case OtherKind => map[]
  }

  lemma {:induction false} RecordedFresh(events: seq<ScoreEvent>, person: nat, signal: nat, items: seq<(string, nat)>)
    requires forall e <- events :: e.origin != FromSignal(signal)
    requires forall i, j :: 0 <= i < j < |items| ==> items[i].0 != items[j].0
    ensures RecordEvents(events, person, signal, items)
         == events + seq(|items|, i requires 0 <= i < |items| => ScoreEvent(person, items[i].0, items[i].1, FromSignal(signal)))
  {
    if items != [] {
      var n := |items| - 1;
      RecordedFresh(events, person, signal, items[..n]);
      var before := RecordEvents(events, person, signal, items[..n]);
      forall k | 0 <= k < |before| ensures !OfSignal(person, signal, items[n].0)(before[k]) {
        if k < |events| { assert before[k] in events; } else { assert before[k].component == items[k - |events|].0; }
      }
    }
  }

  /**
    * A new signal leaves exactly the events its kind stands for, in the name of the person it is attributed to,
    * and a signal that names nobody leaves none.
    */
  lemma SignalLeaves(text: TextRules, db: Db, data: SignalData, channel: Option<nat>)
    requires EventsInOrder(db)
    ensures
      var (next, r) := Resolve(text, AddSignal(db, data), |db.signals|, channel);
      var said := if r.person.Some? then Said(data.kind) else map[];
      && (r.person.Some? <==> data.hint.Some?)
      && |next.events| == |db.events| + |said| && db.events <= next.events
      && forall k :: |db.events| <= k < |next.events| ==>
           var e := next.events[k];
           && r.person == Some(e.person) && e.origin == FromSignal(|db.signals|)
           && e.component in said && said[e.component] == e.delta
  {
    var signal := |db.signals|;
    var (next, r) := Resolve(text, AddSignal(db, data), signal, channel);
    ResolveEvents(text, AddSignal(db, data), signal, channel);
    if r.person.Some? {
      var items := ScoreEventsFor(data.kind);
      ItemsAreScored(data.kind);
      RecordedFresh(db.events, r.person.value, signal, items);
      hide Resolve, RecordEvents, Scored;
      SaidIsItems(data.kind);
    }
  }

  lemma SaidIsItems(kind: Kind)
    ensures |Said(kind)| == |ScoreEventsFor(kind)|
    ensures forall i :: 0 <= i < |ScoreEventsFor(kind)| ==>
      var (component, delta) := ScoreEventsFor(kind)[i];
      component in Said(kind) && Said(kind)[component] == delta
  {
    ItemsAreScored(kind);
    var items, said := ScoreEventsFor(kind), Said(kind);
    hide Scored;
    if kind.RepoActivity? {
      assert said.Keys == {items[0].0, items[1].0, items[2].0};
    } else if kind != OtherKind {
      assert said.Keys == {items[0].0, items[1].0};
    }
    assert |said| == |said.Keys|;
  }

  // ---------------------------------------------------------------- what the score counts as sources

  /** `str(row.signal_id or f"event:{row.id}")`. */
  function SourceKey(e: ScoreEvent, row: nat): string {
    match e.origin
    case FromSignal(signal) => Slugs.Print(signal)
    case WorkSamples => "event:" + Slugs.Print(row)
  }

  /** The rows of one person as the founder score takes them, for any weights and ages on record. */
  function EvidenceOf(events: seq<ScoreEvent>, person: nat, weigh: ScoreEvent -> real, age: ScoreEvent -> int): seq<FounderScore.ScoreEvent> {
    if events == [] then []
    else
      var n := |events| - 1;
      var e := events[n];
      EvidenceOf(events[..n], person, weigh, age)
      + if e.person != person then [] else
          [FounderScore.ScoreEvent(e.component, e.delta as real, age(e), weigh(e), SourceKey(e, n))]
  }

  ghost predicate Rows(events: seq<ScoreEvent>, person: nat, component: string, k: nat) {
    k < |events| && events[k].person == person && events[k].component == component
  }

  lemma {:induction false} EvidenceHas(events: seq<ScoreEvent>, person: nat, weigh: ScoreEvent -> real, age: ScoreEvent -> int,
                                       x: FounderScore.ScoreEvent)
    ensures x in EvidenceOf(events, person, weigh, age) <==>
      exists k :: 0 <= k < |events| && events[k].person == person
        && x == FounderScore.ScoreEvent(events[k].component, events[k].delta as real, age(events[k]), weigh(events[k]), SourceKey(events[k], k))
  {
    if events != [] {
      var n := |events| - 1;
      EvidenceHas(events[..n], person, weigh, age, x);
      assert forall k :: 0 <= k < n ==> events[..n][k] == events[k];
    }
  }

  /** The places of the rows of one person on one component (on any, if none is given). */
  function Places(events: seq<ScoreEvent>, person: nat, component: Option<string>): set<nat> {
    set k | 0 <= k < |events| && events[k].person == person && (component.None? || events[k].component == component.value)
  }

  lemma KeysAreDistinct(events: seq<ScoreEvent>, i: nat, j: nat)
    requires i < |events| && j < |events| && SourceKey(events[i], i) == SourceKey(events[j], j)
    ensures events[i].origin == events[j].origin
  {
    forall n: nat, m: nat ensures Slugs.Print(n) != "event:" + Slugs.Print(m) { PrintNotEvent(n, m); }
    var a, b := events[i].origin, events[j].origin;
    if a.FromSignal? && b.FromSignal? {
      Slugs.PrintInjective(a.signal, b.signal);
    }
  }

  lemma PrintNotEvent(n: nat, m: nat)
    ensures Slugs.Print(n) != "event:" + Slugs.Print(m)
  {
    assert ("event:" + Slugs.Print(m))[0] == 'e';
  }

  lemma {:induction false} SameSize<A, B>(places: set<A>, key: A -> B, keys: set<B>)
    requires forall x <- places :: key(x) in keys
    requires forall y <- keys :: exists x <- places :: key(x) == y
    requires forall x, y :: x in places && y in places && key(x) == key(y) ==> x == y
    ensures |places| == |keys|
    decreases places
  {
    if places != {} {
      var x :| x in places;
      SameSize(places - {x}, key, keys - {key(x)});
    }
  }

  lemma SourcesOf(events: seq<ScoreEvent>, person: nat, weigh: ScoreEvent -> real, age: ScoreEvent -> int, component: string)
    ensures FounderScore.Sources(EvidenceOf(events, person, weigh, age), component)
         == set k <- Places(events, person, Some(component)) :: SourceKey(events[k], k)
  {
    var evidence, sources := EvidenceOf(events, person, weigh, age), set k <- Places(events, person, Some(component)) :: SourceKey(events[k], k);
    forall source | source in FounderScore.Sources(evidence, component) ensures source in sources {
      var x :| x in evidence && x.component == component && x.source == source;
      EvidenceHas(events, person, weigh, age, x);
      var k :| 0 <= k < |events| && events[k].person == person
        && x == FounderScore.ScoreEvent(events[k].component, events[k].delta as real, age(events[k]), weigh(events[k]), SourceKey(events[k], k));
      assert k in Places(events, person, Some(component));
    }
    forall source | source in sources ensures source in FounderScore.Sources(evidence, component) {
      var k :| k in Places(events, person, Some(component)) && SourceKey(events[k], k) == source;
      var x := FounderScore.ScoreEvent(events[k].component, events[k].delta as real, age(events[k]), weigh(events[k]), SourceKey(events[k], k));
      EvidenceHas(events, person, weigh, age, x);
      assert x in evidence && x.component == component;
    }
  }

  lemma PlacesAreSources(events: seq<ScoreEvent>, person: nat, weigh: ScoreEvent -> real, age: ScoreEvent -> int, component: string)
    requires NoneTwice(events)
    ensures |FounderScore.Sources(EvidenceOf(events, person, weigh, age), component)| == |Places(events, person, Some(component))|
  {
    var places := Places(events, person, Some(component));
    var keys := set k <- places :: SourceKey(events[k], k);
    SourcesOf(events, person, weigh, age, component);
    forall j, k | j in places && k in places && SourceKey(events[j], j) == SourceKey(events[k], k) ensures j == k {
      KeysAreDistinct(events, j, k);
    }
    hide EvidenceOf, SourceKey;
    SameSize(places, (k: nat) => if k < |events| then SourceKey(events[k], k) else "", keys);
  }

  /**
    * After any run, every event of a person counts as a source of its own: what the score reports as the evidence
    * sources of a component is the number of its events, wherever their signals were found.
    */
  lemma EveryEventIsASource(text: TextRules, ops: seq<Op>, person: nat, weigh: ScoreEvent -> real, age: ScoreEvent -> int,
                            cfg: FounderScore.Setting, i: nat)
    requires FounderScore.Lawful(cfg) && i < |cfg.components|
    ensures
      var events := Run(text, EMPTY, ops).events;
      FounderScore.FounderScoreOf(cfg, EvidenceOf(events, person, weigh, age)).components[i].sources
        == |Places(events, person, Some(cfg.components[i].name))|
  {
    RunsKeepOrder(text, ops);
    var events := Run(text, EMPTY, ops).events;
    assert NoneTwice(events);
    hide *;
    var evidence := EvidenceOf(events, person, weigh, age);
    FounderScoreLaws.Report(cfg, evidence, i);
    PlacesAreSources(events, person, weigh, age, cfg.components[i].name);
    SourcesAre(evidence, cfg.components[i].name);
  }

  lemma SourcesAre(evidence: seq<FounderScore.ScoreEvent>, name: string)
    ensures FounderScore.Sources(evidence, name) == set e <- evidence | e.component == name :: e.source
  {
  }

  /** The signals and samples on record for a person. */
  ghost function OriginsOf(events: seq<ScoreEvent>, person: nat): set<EventOrigin> {
    set e <- events | e.person == person :: e.origin
  }

  function OriginKey(events: seq<ScoreEvent>, person: nat): EventOrigin -> string {
    (origin: EventOrigin) =>
      match origin
      case FromSignal(signal) => Slugs.Print(signal)
      case WorkSamples =>
        var k := Find(SamplesOf(person), events);
        "event:" + Slugs.Print(if k.Some? then k.value else 0)
  }

  lemma OriginKeyIs(events: seq<ScoreEvent>, person: nat, k: nat)
    requires NoneTwice(events) && SamplesAreExecution(events) && k < |events| && events[k].person == person
    ensures OriginKey(events, person)(events[k].origin) == SourceKey(events[k], k)
  {
    if events[k].origin.WorkSamples? {
      assert SamplesOf(person)(events[k]);
      var f := Find(SamplesOf(person), events).value;
      assert events[f] in events && events[k] in events;
      assert f == k;
    }
  }

  lemma AllSources(events: seq<ScoreEvent>, person: nat, weigh: ScoreEvent -> real, age: ScoreEvent -> int, cfg: FounderScore.Setting)
    requires NoneTwice(events) && SamplesAreExecution(events)
    requires cfg.components == FounderScore.COMPONENTS && forall e <- events :: Scored(e.component)
    ensures (set e <- EvidenceOf(events, person, weigh, age) | FounderScoreLaws.Known(cfg, e) :: e.source)
         == set origin <- OriginsOf(events, person) :: OriginKey(events, person)(origin)
  {
    var evidence := EvidenceOf(events, person, weigh, age);
    var sources := set e <- evidence | FounderScoreLaws.Known(cfg, e) :: e.source;
    var keys := set origin <- OriginsOf(events, person) :: OriginKey(events, person)(origin);
    hide EvidenceOf, OriginKey, SourceKey, NoneTwice, SamplesAreExecution;
    forall source | source in sources ensures source in keys {
      var x :| x in evidence && x.source == source;
      EvidenceHas(events, person, weigh, age, x);
      var k :| 0 <= k < |events| && events[k].person == person
        && x == FounderScore.ScoreEvent(events[k].component, events[k].delta as real, age(events[k]), weigh(events[k]), SourceKey(events[k], k));
      OriginKeyIs(events, person, k);
      assert events[k] in events && events[k].origin in OriginsOf(events, person);
    }
    forall source | source in keys ensures source in sources {
      var origin :| origin in OriginsOf(events, person) && OriginKey(events, person)(origin) == source;
      var k :| 0 <= k < |events| && events[k].person == person && events[k].origin == origin;
      OriginKeyIs(events, person, k);
      var x := FounderScore.ScoreEvent(events[k].component, events[k].delta as real, age(events[k]), weigh(events[k]), SourceKey(events[k], k));
      EvidenceHas(events, person, weigh, age, x);
      assert events[k] in events && Scored(events[k].component);
      var c :| c in FounderScore.COMPONENTS && c.name == x.component;
      var i :| 0 <= i < |cfg.components| && cfg.components[i] == c;
      assert FounderScoreLaws.Known(cfg, x);
    }
  }

  lemma OriginsAreSources(events: seq<ScoreEvent>, person: nat)
    requires NoneTwice(events) && SamplesAreExecution(events)
    ensures |OriginsOf(events, person)| == |set origin <- OriginsOf(events, person) :: OriginKey(events, person)(origin)|
  {
    var origins, key := OriginsOf(events, person), OriginKey(events, person);
    hide NoneTwice, SamplesAreExecution, OriginKey, SourceKey;
    forall a, b | a in origins && b in origins && key(a) == key(b) ensures a == b {
      var i :| 0 <= i < |events| && events[i].person == person && events[i].origin == a;
      var j :| 0 <= j < |events| && events[j].person == person && events[j].origin == b;
      OriginKeyIs(events, person, i);
      OriginKeyIs(events, person, j);
      KeysAreDistinct(events, i, j);
    }
    hide OriginsOf;
    SameSize(origins, key, set origin <- origins :: key(origin));
  }

  /**
    * After any run, a founder is scored as a cold start exactly while fewer than three signals or samples are on
    * record: three signals found on one site end it as well as three found on different ones.
    */
  lemma ColdStartIff(text: TextRules, ops: seq<Op>, person: nat, weigh: ScoreEvent -> real, age: ScoreEvent -> int,
                     cfg: FounderScore.Setting)
    requires FounderScore.Lawful(cfg) && cfg.components == FounderScore.COMPONENTS
    ensures
      var events := Run(text, EMPTY, ops).events;
      FounderScore.FounderScoreOf(cfg, EvidenceOf(events, person, weigh, age)).coldStart <==> |OriginsOf(events, person)| < 3
  {
    RunsKeepOrder(text, ops);
    var db := Run(text, EMPTY, ops);
    var events := db.events;
    assert NoneTwice(events) && forall e <- events :: Scored(e.component);
    assert |cfg.components| == 7;
    hide *;
    FounderScoreLaws.Report(cfg, EvidenceOf(events, person, weigh, age), 0);
    AllSources(events, person, weigh, age, cfg);
    OriginsAreSources(events, person);
  }
}
