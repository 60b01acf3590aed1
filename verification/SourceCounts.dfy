/** What a person's counters count, and a harvest in which two signals make one candidate. */
module SourceCounts {
  import opened Prelude
  import opened Candidates
  import opened CandidateRuns
  import opened Harvest
  import opened HarvestLaws
  import opened ScreeningJobs

  // ---------------------------------------------------------------- what source_count counts

  /** The sources of the signals attributed to a person. */
  function SourcesOf(signals: seq<Signal>, person: nat): set<nat> {
    if signals == [] then {}
    else
      var last := signals[|signals| - 1];
      SourcesOf(signals[..|signals| - 1], person) + if last.person == Some(person) then {last.data.source} else {}
  }

  lemma {:induction false} SourceOfSome(signals: seq<Signal>, person: nat, source: nat)
    ensures source in SourcesOf(signals, person) <==>
      exists i :: 0 <= i < |signals| && signals[i].person == Some(person) && signals[i].data.source == source
  {
    if signals != [] {
      var n := |signals| - 1;
      SourceOfSome(signals[..n], person, source);
      assert forall i :: 0 <= i < n ==> signals[..n][i] == signals[i];
    }
  }

  /** No two of the person's signals come from one source. */
  ghost predicate EachFromItsOwn(signals: seq<Signal>, person: nat) {
    forall i, j :: 0 <= i < j < |signals| && signals[i].person == Some(person) && signals[j].person == Some(person) ==>
      signals[i].data.source != signals[j].data.source
  }

  lemma OwnStep(signals: seq<Signal>, person: nat)
    requires signals != []
    ensures
      var n := |signals| - 1;
      EachFromItsOwn(signals, person) <==>
        EachFromItsOwn(signals[..n], person)
        && (signals[n].person == Some(person) ==> signals[n].data.source !in SourcesOf(signals[..n], person))
  {
    var n := |signals| - 1;
    SourceOfSome(signals[..n], person, signals[n].data.source);
    assert forall i :: 0 <= i < n ==> signals[..n][i] == signals[i];
    hide SourcesOf;
  }

  lemma OneMore(s: set<nat>, x: nat)
    ensures |s + {x}| == |s| + if x in s then 0 else 1
  {
    if x in s { assert s + {x} == s; }
  }

  lemma {:induction false} AttributedIsSourcesIff(signals: seq<Signal>, person: nat)
    ensures |SourcesOf(signals, person)| <= Attributed(signals, person)
    ensures |SourcesOf(signals, person)| == Attributed(signals, person) <==> EachFromItsOwn(signals, person)
  {
    if signals != [] {
      hide EachFromItsOwn;
      var n := |signals| - 1;
      AttributedIsSourcesIff(signals[..n], person);
      OwnStep(signals, person);
      OneMore(SourcesOf(signals[..n], person), signals[n].data.source);
      assert SourcesOf(signals[..n], person) + {} == SourcesOf(signals[..n], person);
    }
  }

  /**
    * In every reachable store a person's source count is at least the number of sources its signals came from,
    * and equals it if and only if no source gave it two signals.
    */
  lemma SourceCountIsSourcesIff(text: TextRules, events: seq<Event>, p: nat)
    requires p < |AfterAll(text, BLANK, events).db.persons|
    ensures
      var db := AfterAll(text, BLANK, events).db;
      && |SourcesOf(db.signals, p)| <= db.persons[p].sourceCount
      && (db.persons[p].sourceCount == |SourcesOf(db.signals, p)| <==> EachFromItsOwn(db.signals, p))
  {
    hide AfterAll;
    HarvestRunsStayValid(text, events);
    AttributedIsSourcesIff(AfterAll(text, BLANK, events).db.signals, p);
  }

  // ---------------------------------------------------------------- two items about one candidate

  lemma ResolveFindsPerson(text: TextRules, db: Db, signal: nat, channel: nat)
    requires signal < |db.signals| && db.signals[signal].data.hint.Some?
    requires FindPerson(text, db.persons, db.signals[signal].data.hint.value).Some?
    ensures Resolve(text, db, signal, Some(channel)).1.person == FindPerson(text, db.persons, db.signals[signal].data.hint.value)
  {
    hide EnsureCompany, RecordChunk, RecordEdge, SignalDomain, Find, FindPerson, Advance, EnsureOpportunity, RecordEvents, EnsureAffiliation;
    var data := db.signals[signal].data;
    EnsureCompanyFrame(db, data.name, text.norm(data.name), SignalDomain(text, data.host));
  }

  /** Two new signals with one hint, resolved one after the other, are attributed to one person. */
  lemma SameHintSamePerson(text: TextRules, db: Db, a: SignalData, next: Db, b: SignalData, channel: nat)
    requires channel < |db.channels| && channel < |next.channels| && a.hint.Some? && a.hint == b.hint
    requires
      var db1 := Resolve(text, AddSignal(db, a), |db.signals|, Some(channel)).0;
      next.persons == db1.persons && next.signals == db1.signals
    ensures
      var s, signals := |db.signals|, Resolve(text, AddSignal(next, b), |next.signals|, Some(channel)).0.signals;
      |next.signals| == s + 1 && |signals| == s + 2 && signals[s].person.Some? && signals[s].person == signals[s + 1].person
  {
    hide Resolve, FindPerson, EnsureAffiliation, HasEvents, LiveFor, Find;
    var s := |db.signals|;
    ResolveFrame(text, AddSignal(db, a), s, channel);
    ResolveSettles(text, AddSignal(db, a), s, Some(channel));
    ResolveFrame(text, AddSignal(next, b), s + 1, channel);
    ResolveFindsPerson(text, AddSignal(next, b), s + 1, channel);
    ResolveSettles(text, AddSignal(next, b), s + 1, Some(channel));
  }

  lemma SameHintAttribution(text: TextRules, t: Tables, c: Counts, org: nat, source: nat, channel: nat, a: Item, b: Item)
    requires channel < |t.db.channels| && NewItems(t.db, source, [a, b]) && a.hint.Some? && a.hint == b.hint
    ensures
      var after, s := IngestAll(text, t, c, org, source, channel, [a, b]).0.db.signals, |t.db.signals|;
      |after| == s + 2 && after[s].person.Some? && after[s].person == after[s + 1].person
  {
    assert [a, b][..1] == [a] && [a][..0] == [];
    NewItemsPrefix(t.db, source, [a, b]);
    NewItemsPrefix(t.db, source, [a]);
    assert IngestAll(text, t, c, org, source, channel, [a]) == Ingest(text, t, c, org, source, channel, a);
    assert [a, b][1] == b && [a][0] == a;
    hide Resolve, Known, Laid, Placed, NewItems, Grows;
    var (t1, c1) := Ingest(text, t, c, org, source, channel, a);
    assert IngestAll(text, t, c, org, source, channel, [a, b]) == Ingest(text, t1, c1, org, source, channel, b);
    IngestAllPlaces(text, t, c, org, source, channel, [a]);
    StillNew(t, t1, org, source, [a], Placed(text, t.db.companies, [a]).1, b);
    IngestStores(text, t, c, org, source, channel, a);
    SameHintSamePerson(text, t.db, DataOf(org, source, a), t1.db, DataOf(org, source, b), channel);
  }

  function Plain(): TextRules {
    var same := (text: string) => text;
    TextRules(same, same, same, same)
  }

  function Sighting(hash: string): Item {
    Item(hash, 0, OtherKind, "acme", None, Some(Hint("github", "ada")), false)
  }

  /** One source answers with two sightings of one company by one founder. */
  function TwoSightings(): Event {
    Harvesting(0, Some(["github"]), false, (n: nat) => Items([Sighting("1"), Sighting("2")]))
  }

  /** The tables when the source and its channel are there and the items are still to come. */
  const READY := Tables(EMPTY.(channels := [Channel(0, 0)]), [Source("github", Active)], ["github"], [], [])

  lemma SightingsAreNew()
    ensures Valid(READY) && NewItems(READY.db, 0, [Sighting("1"), Sighting("2")])
  {
    assert "1"[0] != "2"[0];
  }

  lemma VisitReaches(items: seq<Item>)
    ensures
      var (t, c) := IngestAll(Plain(), READY, NOTHING, 0, 0, 0, items);
      var (t', c') := VisitAll(Plain(), BLANK, NOTHING, 0, ["github"], (n: nat) => Items(items));
      t'.db == t.db && t'.jobs == t.jobs && c' == c
  {
    hide IngestAll;
    var answers: Answers := (n: nat) => Items(items);
    var keys := ["github"];
    assert keys[..0] == [] && keys[..1] == keys;
    NextVisit(Plain(), BLANK, NOTHING, 0, keys, answers, 0);
    hide VisitAll;
    var source := Source("github", Active);
    assert BLANK.sources + [source] == [source];
    assert EnsureSource(BLANK.sources, "github") == ([source], 0);
    assert BLANK.db.channels + [Channel(0, 0)] == [Channel(0, 0)] && BLANK.channelKeys + ["github"] == ["github"];
    assert EnsureChannel(BLANK.(sources := [source]), "github") == (READY, 0);
  }

  lemma PlanOfOne()
    ensures Plan(Some(["github"]), false) == ["github"]
  {
    assert ["github"][..0] == [];
    assert CONNECTORS[0] == "github";
  }

  lemma AfterSightings()
    ensures
      var items := [Sighting("1"), Sighting("2")];
      var (t, c) := IngestAll(Plain(), READY, NOTHING, 0, 0, 0, items);
      var after := AfterAll(Plain(), BLANK, [TwoSightings()]);
      after.db == t.db && after.jobs == t.jobs
  {
    hide IngestAll, VisitAll;
    VisitReaches([Sighting("1"), Sighting("2")]);
    PlanOfOne();
    assert [TwoSightings()][..0] == [];
    assert AfterAll(Plain(), BLANK, [TwoSightings()]) == After(Plain(), BLANK, TwoSightings());
  }

  /**
    * Neither promise holds of every run: this harvest counts two resolved candidates and queues two screening
    * jobs for one opportunity, and its founder has a source count of two from one source.
    */
  lemma TwoJobsOneCandidate()
    ensures
      var after := AfterAll(Plain(), BLANK, [TwoSightings()]);
      && |after.jobs| == 2 && after.jobs[0].opportunity == after.jobs[1].opportunity
      && exists p :: 0 <= p < |after.db.persons| && after.db.persons[p].sourceCount == 2 && SourcesOf(after.db.signals, p) == {0}
    ensures VisitAll(Plain(), BLANK, NOTHING, 0, ["github"], (n: nat) => Items([Sighting("1"), Sighting("2")])).1.resolved == 2
  {
    hide VisitAll, IngestAll, AfterAll, NewItems, Placed, Valid, SourcesOf;
    var items := [Sighting("1"), Sighting("2")];
    var after := IngestAll(Plain(), READY, NOTHING, 0, 0, 0, items).0;
    SightingsAreNew();
    AfterSightings();
    VisitReaches(items);
    OneNameOnePlace(Plain(), [], items[0], items[1]);
    ItemsShareIff(Plain(), READY, NOTHING, 0, 0, 0, items, 0, 1);
    IngestAllKeeps(Plain(), READY, NOTHING, 0, 0, 0, items);
    IngestAllPlaces(Plain(), READY, NOTHING, 0, 0, 0, items);
    SameHintAttribution(Plain(), READY, NOTHING, 0, 0, 0, items[0], items[1]);
    TwoFromOneSource(after, items);
  }

  lemma TwoFromOneSource(after: Tables, items: seq<Item>)
    requires items == [Sighting("1"), Sighting("2")] && after == IngestAll(Plain(), READY, NOTHING, 0, 0, 0, items).0
    requires Valid(after) && NewItems(READY.db, 0, items)
    requires |after.db.signals| == 2 && after.db.signals[0].person.Some? && after.db.signals[0].person == after.db.signals[1].person
    ensures
      var p := after.db.signals[0].person.value;
      p < |after.db.persons| && after.db.persons[p].sourceCount == 2 && SourcesOf(after.db.signals, p) == {0}
  {
    hide IngestAll, Placed, Inv, UniqueSignals, JobFits, NewItems;
    IngestAllPlaces(Plain(), READY, NOTHING, 0, 0, 0, items);
    var signals, p := after.db.signals, after.db.signals[0].person.value;
    assert signals[0].data.source == 0 && signals[1].data.source == 0;
    PairCounts(signals[0], signals[1], p);
    assert signals == [signals[0], signals[1]];
  }

  lemma PairCounts(a: Signal, b: Signal, p: nat)
    requires a.person == Some(p) && b.person == Some(p) && a.data.source == b.data.source
    ensures Attributed([a, b], p) == 2 && SourcesOf([a, b], p) == {a.data.source}
  {
    assert [a, b][..1] == [a] && [a][..0] == [];
    assert Attributed([a], p) == 1 && SourcesOf([a], p) == {a.data.source};
  }
}
