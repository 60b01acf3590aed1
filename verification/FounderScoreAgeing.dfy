/** What the age of evidence does to the founder score. */
module FounderScoreAgeing {
  import opened Prelude
  import opened Products
  import opened Rounding
  import opened Sequences
  import opened Analysis
  import opened FounderScore
  import opened FounderScoreLaws

  // ---------------------------------------------------------------- one event grows older

  function Aged(events: seq<ScoreEvent>, k: nat, days: int): seq<ScoreEvent>
    requires k < |events|
  {
    events[k := events[k].(ageDays := days)]
  }

  /** What an event says of its component, on the scale of a component. */
  function Said(e: ScoreEvent): real {
    Clamp(e.delta, 0.0, 100.0)
  }

  lemma AgedWeight(cfg: Setting, c: Component, e: ScoreEvent, days: int)
    requires DecayLike(cfg.decay) && e.ageDays <= days
    ensures
      var w, w' := EffectiveWeight(cfg, c, e), EffectiveWeight(cfg, c, e.(ageDays := days));
      0.0 <= w' <= w && (w > 0.0 ==> w' > 0.0)
  {
    var age, older := if e.ageDays < 0 then 0 else e.ageDays, if days < 0 then 0 else days;
    DecayFalls(cfg.decay, age, older, c.halfLifeDays);
    Monotone(Max(0.0, e.weight), Max(0.0, e.weight), cfg.decay(older, c.halfLifeDays), cfg.decay(age, c.halfLifeDays));
    Fraction(Max(0.0, e.weight), cfg.decay(older, c.halfLifeDays));
  }

  /** A component's totals are the totals of the other events and one event's own share. */
  lemma TotalsAround(cfg: Setting, c: Component, events: seq<ScoreEvent>, k: nat)
    requires k < |events|
    ensures events[k].component == c.name ==>
      && Numerator(cfg, c, events) == Numerator(cfg, c, Without(events, k)) + ValueTerm(cfg, c)(events[k])
      && Denominator(cfg, c, events) == Denominator(cfg, c, Without(events, k)) + EffectiveWeight(cfg, c, events[k])
    ensures events[k].component != c.name ==> Bucket(events, c) == Bucket(Without(events, k), c)
  {
    SelectWithout(OfComponent(c.name), events, k);
    if events[k].component == c.name {
      var rest := Bucket(Without(events, k), c);
      var regrouped := rest + [events[k]];
      assert regrouped[..|rest|] == rest;
      SumPermutation(ValueTerm(cfg, c), Bucket(events, c), regrouped);
      SumPermutation(WeightTerm(cfg, c), Bucket(events, c), regrouped);
    }
  }

  /** A mean weighs one share less and so moves away from that share's value. */
  lemma MeanMoves(n: real, d: real, v: real, w: real, w': real)
    requires d >= 0.0 && 0.0 <= w' <= w && d + w > 0.0 && d + w' > 0.0
    ensures
      var before, after := Quotient(n + Times(v, w), d + w), Quotient(n + Times(v, w'), d + w');
      && (before <= v ==> after <= before)
      && (before >= v ==> after >= before)
  {
    var before, after := Quotient(n + Times(v, w), d + w), Quotient(n + Times(v, w'), d + w');
    assert before * (d + w) == n + v * w;
    assert after * (d + w') == n + v * w';
    assert (after - before) * (d + w') == (before - v) * (w - w');
    if before <= v && after > before {
      PositiveProduct(after - before, d + w');
      Monotone(0.0, v - before, 0.0, w - w');
      assert false;
    }
    if before >= v && after < before {
      PositiveProduct(before - after, d + w');
      Monotone(0.0, before - v, 0.0, w - w');
      assert false;
    }
  }

  lemma ValueMoves(cfg: Setting, c: Component, events: seq<ScoreEvent>, k: nat, days: int)
    requires Lawful(cfg)
    requires k < |events| && events[k].ageDays <= days && events[k].component == c.name
    ensures
      var v := Said(events[k]);
      var before, after := Value(cfg, c, events), Value(cfg, c, Aged(events, k, days));
      (before <= v ==> after <= before) && (before >= v ==> after >= before)
  {
    var aged := Aged(events, k, days);
    var e, v := events[k], Said(events[k]);
    assert Without(aged, k) == Without(events, k);
    TotalsAround(cfg, c, events, k);
    TotalsAround(cfg, c, aged, k);
    AgedWeight(cfg, c, e, days);
    TotalsRange(cfg, c, Bucket(Without(events, k), c));
    var w, w' := EffectiveWeight(cfg, c, e), EffectiveWeight(cfg, c, aged[k]);
    hide Numerator, EffectiveWeight, Said, Without;
    var n, d := Numerator(cfg, c, Without(events, k)), Denominator(cfg, c, Without(events, k));
    if d + w > 0.0 {
      MeanMoves(n, d, v, w, w');
    }
  }

  lemma OthersKeep(cfg: Setting, c: Component, events: seq<ScoreEvent>, k: nat, days: int)
    requires k < |events| && events[k].component != c.name
    ensures Value(cfg, c, Aged(events, k, days)) == Value(cfg, c, events)
  {
    var aged := Aged(events, k, days);
    assert Without(aged, k) == Without(events, k);
    TotalsAround(cfg, c, events, k);
    TotalsAround(cfg, c, aged, k);
  }

  lemma AgedSources(events: seq<ScoreEvent>, k: nat, days: int, name: string)
    requires k < |events|
    ensures Sources(Aged(events, k, days), name) == Sources(events, name)
  {
    var aged := Aged(events, k, days);
    forall source | source in Sources(events, name) ensures source in Sources(aged, name) {
      var i :| 0 <= i < |events| && events[i].component == name && events[i].source == source;
      assert aged[i] in aged;
    }
    forall source | source in Sources(aged, name) ensures source in Sources(events, name) {
      var i :| 0 <= i < |aged| && aged[i].component == name && aged[i].source == source;
      assert events[i] in events;
    }
  }

  /** The same sources and a weighted mean that is no higher: no higher score, and the same certainty. */
  lemma LowerMean(cfg: Setting, low: seq<ScoreEvent>, high: seq<ScoreEvent>)
    requires Lawful(cfg)
    requires forall name: string :: Sources(low, name) == Sources(high, name)
    requires WeightedMean(cfg, low) <= WeightedMean(cfg, high)
    ensures NoHigher(FounderScoreOf(cfg, low), FounderScoreOf(cfg, high))
  {
    SumCongruence(SourcesOver(low), SourcesOver(high), cfg.components);
    assert IndependentSources(cfg.components, low) == IndependentSources(cfg.components, high);
    ScoreMonotone(cfg, ObservationWeight(cfg.components, low), WeightedMean(cfg, low), WeightedMean(cfg, high));
    hide WeightedMean, ObservationWeight, Posterior, ScoreAt, HalfWidth, Confidence, IndependentSources, Summaries;
  }

  ghost predicate NoHigher(low: FounderScoreResult, high: FounderScoreResult) {
    && low.score <= high.score
    && low.ciLow <= high.ciLow
    && low.ciHigh <= high.ciHigh
    && low.confidence == high.confidence
    && low.coldStart == high.coldStart
  }

  lemma MeanFalls(cfg: Setting, low: seq<ScoreEvent>, high: seq<ScoreEvent>)
    requires Lawful(cfg)
    requires forall j :: 0 <= j < |cfg.components| ==> Value(cfg, cfg.components[j], low) <= Value(cfg, cfg.components[j], high)
    ensures WeightedMean(cfg, low) <= WeightedMean(cfg, high)
  {
    hide Value;
    forall j | 0 <= j < |cfg.components|
      ensures ValueOver(cfg, low)(cfg.components[j]) <= ValueOver(cfg, high)(cfg.components[j])
    {
      var c := cfg.components[j];
      TimesOrder(c.weight, Value(cfg, c, low), Value(cfg, c, high));
    }
    SumOrder(ValueOver(cfg, low), ValueOver(cfg, high), cfg.components);
  }

  /**
    * An event that grows older counts for less: where it spoke above its component's value the score never rises,
    * where it spoke below it the score never falls, and the certainty stays.
    */
  lemma AgeingFades(cfg: Setting, events: seq<ScoreEvent>, k: nat, days: int, i: nat)
    requires Lawful(cfg)
    requires k < |events| && events[k].ageDays <= days
    requires i < |cfg.components| && cfg.components[i].name == events[k].component
    ensures
      var before, after := FounderScoreOf(cfg, events), FounderScoreOf(cfg, Aged(events, k, days));
      var v, value := Said(events[k]), Value(cfg, cfg.components[i], events);
      && (value <= v ==> NoHigher(after, before))
      && (value >= v ==> NoHigher(before, after))
  {
    var aged := Aged(events, k, days);
    forall name: string ensures Sources(aged, name) == Sources(events, name) { AgedSources(events, k, days, name); }
    ValueMoves(cfg, cfg.components[i], events, k, days);
    forall j | 0 <= j < |cfg.components| && j != i
      ensures Value(cfg, cfg.components[j], aged) == Value(cfg, cfg.components[j], events)
    {
      assert cfg.components[j].name != events[k].component by {
        if j < i { assert cfg.components[j].name != cfg.components[i].name; }
        else { assert cfg.components[i].name != cfg.components[j].name; }
      }
      OthersKeep(cfg, cfg.components[j], events, k, days);
    }
    hide Value, Sources, Aged, Said, NoHigher, FounderScoreOf;
    var v, value := Said(events[k]), Value(cfg, cfg.components[i], events);
    if value <= v {
      MeanFalls(cfg, aged, events);
      LowerMean(cfg, aged, events);
    }
    if value >= v {
      MeanFalls(cfg, events, aged);
      LowerMean(cfg, events, aged);
    }
  }

  // ---------------------------------------------------------------- what a weight is

  lemma SplitWeight(cfg: Setting, c: Component, e: ScoreEvent, u: real, v: real)
    requires u >= 0.0 && v >= 0.0 && e.weight == u + v
    ensures EffectiveWeight(cfg, c, e) == EffectiveWeight(cfg, c, e.(weight := u)) + EffectiveWeight(cfg, c, e.(weight := v))
    ensures ValueTerm(cfg, c)(e) == ValueTerm(cfg, c)(e.(weight := u)) + ValueTerm(cfg, c)(e.(weight := v))
  {
    var left := cfg.decay(if e.ageDays < 0 then 0 else e.ageDays, c.halfLifeDays);
    Spread(u, v, left);
    Spread(Times(u, left), Times(v, left), Said(e));
  }

  function Split(events: seq<ScoreEvent>, k: nat, u: real, v: real): seq<ScoreEvent>
    requires k < |events|
  {
    events[..k] + [events[k].(weight := u), events[k].(weight := v)] + events[k + 1..]
  }

  lemma TotalsSplit(cfg: Setting, c: Component, events: seq<ScoreEvent>, k: nat, u: real, v: real)
    requires k < |events| && u >= 0.0 && v >= 0.0 && events[k].weight == u + v
    ensures Numerator(cfg, c, Split(events, k, u, v)) == Numerator(cfg, c, events)
    ensures Denominator(cfg, c, Split(events, k, u, v)) == Denominator(cfg, c, events)
  {
    var split := Split(events, k, u, v);
    var once := Without(split, k);
    assert split[k] == events[k].(weight := u) && once[k] == events[k].(weight := v);
    assert Without(once, k) == Without(events, k);
    TotalsAround(cfg, c, split, k);
    TotalsAround(cfg, c, once, k);
    TotalsAround(cfg, c, events, k);
    SplitWeight(cfg, c, events[k], u, v);
    hide Bucket, EffectiveWeight, ValueTerm, Without, Split;
  }

  lemma SourcesSplit(events: seq<ScoreEvent>, k: nat, u: real, v: real, name: string)
    requires k < |events|
    ensures Sources(Split(events, k, u, v), name) == Sources(events, name)
  {
    var split := Split(events, k, u, v);
    assert events == events[..k] + [events[k]] + events[k + 1..];
    assert split[k] == events[k].(weight := u);
    forall source | source in Sources(events, name) ensures source in Sources(split, name) {
      var e :| e in events && e.component == name && e.source == source;
      assert e == events[k] || e in split;
    }
  }

  /**
    * Weights add up: an event says as much as two like it that share its weight, whatever the split; so the weight
    * of an event is how often it counts.
    */
  lemma WeightsAddUp(cfg: Setting, events: seq<ScoreEvent>, k: nat, u: real, v: real)
    requires k < |events| && u >= 0.0 && v >= 0.0 && events[k].weight == u + v
    ensures FounderScoreOf(cfg, Split(events, k, u, v)) == FounderScoreOf(cfg, events)
  {
    var split := Split(events, k, u, v);
    forall i | 0 <= i < |cfg.components|
      ensures Numerator(cfg, cfg.components[i], split) == Numerator(cfg, cfg.components[i], events)
      ensures Denominator(cfg, cfg.components[i], split) == Denominator(cfg, cfg.components[i], events)
      ensures Sources(split, cfg.components[i].name) == Sources(events, cfg.components[i].name)
    {
      TotalsSplit(cfg, cfg.components[i], events, k, u, v);
      SourcesSplit(events, k, u, v, cfg.components[i].name);
    }
    hide Numerator, Denominator, Sources, Split;
    SamePartsSameScore(cfg, split, events);
  }

  // ---------------------------------------------------------------- what a half-life is

  function AgeOf(e: ScoreEvent): nat {
    if e.ageDays < 0 then 0 else e.ageDays
  }

  lemma LawfulDecays(cfg: Setting)
    requires Lawful(cfg)
    ensures DecayLike(cfg.decay)
  {
  }

  lemma HalvedWeight(cfg: Setting, c: Component, recent: ScoreEvent, stale: ScoreEvent)
    requires DecayLike(cfg.decay) && recent.weight == stale.weight && AgeOf(stale) == AgeOf(recent) + c.halfLifeDays
    ensures EffectiveWeight(cfg, c, recent) == 2.0 * EffectiveWeight(cfg, c, stale)
    ensures recent.weight > 0.0 ==> EffectiveWeight(cfg, c, stale) > 0.0
  {
    assert Compounds(cfg.decay, AgeOf(recent), c.halfLifeDays, c.halfLifeDays);
    Fraction(Max(0.0, stale.weight), cfg.decay(AgeOf(stale), c.halfLifeDays));
  }

  lemma {:induction false} PairTotals(cfg: Setting, c: Component, e: ScoreEvent, f: ScoreEvent)
    requires e.component == f.component == c.name
    ensures Numerator(cfg, c, [e, f]) == ValueTerm(cfg, c)(e) + ValueTerm(cfg, c)(f)
    ensures Denominator(cfg, c, [e, f]) == WeightTerm(cfg, c)(e) + WeightTerm(cfg, c)(f)
  {
    var events := [e, f];
    assert events[..1] == [e] && [e][..0] == [];
    assert Bucket(events, c) == events by {
      assert Select(OfComponent(c.name), [e]) == [e];
      assert Select(OfComponent(c.name), events) == [e] + [f];
    }
    hide ValueTerm, WeightTerm, Bucket;
    assert Sum(ValueTerm(cfg, c), [e]) == ValueTerm(cfg, c)(e);
    assert Sum(WeightTerm(cfg, c), [e]) == WeightTerm(cfg, c)(e);
  }

  lemma ReportedValue(cfg: Setting, i: nat, events: seq<ScoreEvent>)
    requires i < |cfg.components|
    ensures
      var c := cfg.components[i];
      var n, d := Numerator(cfg, c, events), Denominator(cfg, c, events);
      d != 0.0 ==> FounderScoreOf(cfg, events).components[i].value == Some(Round2(Quotient(n, d)))
  {
    hide Numerator, Denominator, Quotient, Round2, WeightedMean, ObservationWeight, IndependentSources, ScoreAt, HalfWidth,
      Confidence, Posterior;
  }

  lemma TermsAre(cfg: Setting, c: Component, e: ScoreEvent)
    ensures WeightTerm(cfg, c)(e) == EffectiveWeight(cfg, c, e)
    ensures ValueTerm(cfg, c)(e) == Times(Said(e), EffectiveWeight(cfg, c, e))
  {
    hide EffectiveWeight, Times;
  }

  /** The mean of two events of one component. */
  lemma PairValue(cfg: Setting, i: nat, e: ScoreEvent, f: ScoreEvent)
    requires i < |cfg.components| && e.component == f.component == cfg.components[i].name
    ensures
      var c := cfg.components[i];
      var w, w' := EffectiveWeight(cfg, c, e), EffectiveWeight(cfg, c, f);
      var total := Times(Said(e), w) + Times(Said(f), w');
      w + w' != 0.0 ==> FounderScoreOf(cfg, [e, f]).components[i].value == Some(Round2(Quotient(total, w + w')))
  {
    hide *;
    PairTotals(cfg, cfg.components[i], e, f);
    TermsAre(cfg, cfg.components[i], e);
    TermsAre(cfg, cfg.components[i], f);
    ReportedValue(cfg, i, [e, f]);
  }

  lemma MeanOfTwo(a: real, b: real, w: real, w': real)
    requires w' > 0.0 && w == 2.0 * w'
    ensures Quotient(Times(a, w) + Times(b, w'), w + w') == (2.0 * a + b) / 3.0
  {
    var m := (2.0 * a + b) / 3.0;
    assert 3.0 * m == 2.0 * a + b;
    assert Times(m, w + w') == Times(3.0 * m, w');
    assert Times(2.0 * a + b, w') == Times(a, w) + Times(b, w');
    QuotientBetween(m, Times(a, w) + Times(b, w'), w + w', m);
  }

  /** Of two events of one weight the one older by the component's half-life counts half as much. */
  lemma HalfLifeHalves(cfg: Setting, i: nat, recent: ScoreEvent, stale: ScoreEvent)
    requires Lawful(cfg) && i < |cfg.components|
    requires recent.component == stale.component == cfg.components[i].name
    requires recent.weight == stale.weight > 0.0
    requires AgeOf(stale) == AgeOf(recent) + cfg.components[i].halfLifeDays
    ensures
      var a, b := Said(recent), Said(stale);
      FounderScoreOf(cfg, [recent, stale]).components[i].value == Some(Round2((2.0 * a + b) / 3.0))
  {
    hide *;
    LawfulDecays(cfg);
    PairValue(cfg, i, recent, stale);
    HalvedWeight(cfg, cfg.components[i], recent, stale);
    MeanOfTwo(Said(recent), Said(stale),
      EffectiveWeight(cfg, cfg.components[i], recent), EffectiveWeight(cfg, cfg.components[i], stale));
  }

  // ---------------------------------------------------------------- time alone

  /** The same events, all seen so many days later. */
  function Later(events: seq<ScoreEvent>, days: nat): seq<ScoreEvent> {
    seq(|events|, i requires 0 <= i < |events| => events[i].(ageDays := events[i].ageDays + days))
  }

  lemma {:induction false} BucketLater(events: seq<ScoreEvent>, days: nat, c: Component)
    ensures Bucket(Later(events, days), c) == Later(Bucket(events, c), days)
  {
    if events != [] {
      var n := |events| - 1;
      BucketLater(events[..n], days, c);
      assert Later(events, days)[..n] == Later(events[..n], days);
    }
  }

  ghost predicate NoneAhead(events: seq<ScoreEvent>) {
    forall i :: 0 <= i < |events| ==> events[i].ageDays >= 0
  }

  lemma WeightLater(cfg: Setting, c: Component, e: ScoreEvent, days: nat)
    requires DecayLike(cfg.decay) && e.ageDays >= 0
    ensures
      var left := cfg.decay(days, c.halfLifeDays);
      var later := e.(ageDays := e.ageDays + days);
      && WeightTerm(cfg, c)(later) == Times(WeightTerm(cfg, c)(e), left)
      && ValueTerm(cfg, c)(later) == Times(ValueTerm(cfg, c)(e), left)
  {
    var left := cfg.decay(days, c.halfLifeDays);
    assert Compounds(cfg.decay, e.ageDays, days, c.halfLifeDays);
    Swap(Max(0.0, e.weight), cfg.decay(e.ageDays, c.halfLifeDays), left);
    Swap(Said(e), EffectiveWeight(cfg, c, e), left);
  }

  /** A sum grows by a term; scaled terms make a scaled sum. */
  lemma ScaledStep<T>(f: T -> real, s: seq<T>, t: seq<T>, left: real)
    requires |s| == |t| > 0
    requires
      var n := |s| - 1;
      Sum(f, t[..n]) == Times(Sum(f, s[..n]), left) && f(t[n]) == Times(f(s[n]), left)
    ensures Sum(f, t) == Times(Sum(f, s), left)
  {
    hide *;
    var n := |s| - 1;
    SumPrefix(f, s, n);
    SumPrefix(f, t, n);
    assert s[..n + 1] == s && t[..n + 1] == t;
    Spread(Sum(f, s[..n]), f(s[n]), left);
  }

  lemma {:induction false} TotalsLater(cfg: Setting, c: Component, bucket: seq<ScoreEvent>, days: nat)
    requires DecayLike(cfg.decay) && NoneAhead(bucket)
    ensures
      var left := cfg.decay(days, c.halfLifeDays);
      && Sum(ValueTerm(cfg, c), Later(bucket, days)) == Times(Sum(ValueTerm(cfg, c), bucket), left)
      && Sum(WeightTerm(cfg, c), Later(bucket, days)) == Times(Sum(WeightTerm(cfg, c), bucket), left)
  {
    var left := cfg.decay(days, c.halfLifeDays);
    assert Times(0.0, left) == 0.0;
    hide DecayLike, Times, ValueTerm, WeightTerm;
    if bucket != [] {
      var n := |bucket| - 1;
      TotalsLater(cfg, c, bucket[..n], days);
      var later := Later(bucket, days);
      assert later[..n] == Later(bucket[..n], days);
      WeightLater(cfg, c, bucket[n], days);
      hide Sum;
      ScaledStep(ValueTerm(cfg, c), bucket, later, left);
      ScaledStep(WeightTerm(cfg, c), bucket, later, left);
    }
  }

  lemma Spread(a: real, b: real, c: real)
    ensures Times(a + b, c) == Times(a, c) + Times(b, c)
  {
  }

  lemma CommonFactor(a: real, b: real, c: real)
    requires b > 0.0 && c > 0.0
    ensures Times(b, c) > 0.0
    ensures Quotient(Times(a, c), Times(b, c)) == Quotient(a, b)
  {
    var q := Quotient(a, b);
    assert Times(q, b) == a;
    PositiveProduct(b, c);
    Swap(q, b, c);
    QuotientBetween(q, Times(a, c), Times(b, c), q);
  }

  lemma RawLater(cfg: Setting, c: Component, events: seq<ScoreEvent>, days: nat)
    requires DecayLike(cfg.decay) && NoneAhead(events)
    ensures Raw(cfg, c, Later(events, days)) == Raw(cfg, c, events)
  {
    var bucket := Bucket(events, c);
    forall i | 0 <= i < |bucket| ensures bucket[i].ageDays >= 0 {
      SelectMember(OfComponent(c.name), events, bucket[i]);
    }
    BucketLater(events, days, c);
    TotalsLater(cfg, c, bucket, days);
    TotalsRange(cfg, c, bucket);
    var n, d := Numerator(cfg, c, events), Denominator(cfg, c, events);
    if d > 0.0 { CommonFactor(n, d, cfg.decay(days, c.halfLifeDays)); }
  }

  lemma SourcesLater(events: seq<ScoreEvent>, days: nat, name: string)
    ensures Sources(Later(events, days), name) == Sources(events, name)
  {
    var later := Later(events, days);
    forall source | source in Sources(events, name) ensures source in Sources(later, name) {
      var i :| 0 <= i < |events| && events[i].component == name && events[i].source == source;
      assert later[i] in later;
    }
    forall source | source in Sources(later, name) ensures source in Sources(events, name) {
      var i :| 0 <= i < |later| && later[i].component == name && later[i].source == source;
      assert events[i] in events;
    }
  }

  /**
    * Time alone changes nothing: scoring the same events any number of days later gives the same result in every
    * field, because all evidence of a component fades alike, and fading alone widens no interval.
    */
  lemma TimeAloneChangesNothing(cfg: Setting, events: seq<ScoreEvent>, days: nat)
    requires Lawful(cfg) && NoneAhead(events)
    ensures FounderScoreOf(cfg, Later(events, days)) == FounderScoreOf(cfg, events)
  {
    var later := Later(events, days);
    forall name: string ensures Sources(later, name) == Sources(events, name) { SourcesLater(events, days, name); }
    forall i | 0 <= i < |cfg.components|
      ensures Raw(cfg, cfg.components[i], later) == Raw(cfg, cfg.components[i], events)
    {
      RawLater(cfg, cfg.components[i], events, days);
    }
    hide Raw, Sources, Later;
    SumCongruence(ValueOver(cfg, later), ValueOver(cfg, events), cfg.components);
    SumCongruence(SourcesOver(later), SourcesOver(events), cfg.components);
    assert Summaries(cfg, later) == Summaries(cfg, events);
    assert IndependentSources(cfg.components, later) == IndependentSources(cfg.components, events);
  }

  /**
    * Evidence dated ahead of the clock is what the law needs shut out: it does not fade before its day. An event
    * dated a half-life ahead counts as much as one of today, and a half-life later twice as much.
    */
  lemma AheadOfTheClock(cfg: Setting, i: nat, ahead: ScoreEvent, today: ScoreEvent)
    requires Lawful(cfg) && i < |cfg.components|
    requires ahead.component == today.component == cfg.components[i].name
    requires ahead.weight == today.weight > 0.0
    requires today.ageDays == 0 == ahead.ageDays + cfg.components[i].halfLifeDays
    ensures FounderScoreOf(cfg, [ahead, today]).components[i].value == Some(Round2((Said(ahead) + Said(today)) / 2.0))
    ensures FounderScoreOf(cfg, Later([ahead, today], cfg.components[i].halfLifeDays)).components[i].value
         == Some(Round2((2.0 * Said(ahead) + Said(today)) / 3.0))
  {
    hide *;
    var days := cfg.components[i].halfLifeDays;
    LaterPair(ahead, today, days);
    HalfLifeHalves(cfg, i, ahead.(ageDays := 0), today.(ageDays := days));
    EvenPair(cfg, i, ahead, today);
  }

  lemma LaterPair(ahead: ScoreEvent, today: ScoreEvent, days: Days)
    requires today.ageDays == 0 == ahead.ageDays + days
    ensures Later([ahead, today], days) == [ahead.(ageDays := 0), today.(ageDays := days)]
    ensures Said(ahead.(ageDays := 0)) == Said(ahead) && Said(today.(ageDays := days)) == Said(today)
    ensures AgeOf(today.(ageDays := days)) == AgeOf(ahead.(ageDays := 0)) + days
    ensures AgeOf(ahead) == AgeOf(today)
  {
  }

  /** Two events of one weight and one age count alike. */
  lemma EvenPair(cfg: Setting, i: nat, e: ScoreEvent, f: ScoreEvent)
    requires Lawful(cfg) && i < |cfg.components|
    requires e.component == f.component == cfg.components[i].name
    requires e.weight == f.weight > 0.0 && AgeOf(e) == AgeOf(f)
    ensures
      FounderScoreOf(cfg, [e, f]).components[i].value == Some(Round2((Said(e) + Said(f)) / 2.0))
  {
    hide *;
    LawfulDecays(cfg);
    PairMean(cfg, i, e, f);
  }

  lemma PairMean(cfg: Setting, i: nat, e: ScoreEvent, f: ScoreEvent)
    requires DecayLike(cfg.decay) && i < |cfg.components|
    requires e.component == f.component == cfg.components[i].name
    requires e.weight == f.weight > 0.0 && AgeOf(e) == AgeOf(f)
    ensures FounderScoreOf(cfg, [e, f]).components[i].value == Some(Round2((Said(e) + Said(f)) / 2.0))
  {
    hide *;
    var c := cfg.components[i];
    EvenWeights(cfg, c, e, f);
    PairValue(cfg, i, e, f);
    EvenMean(Said(e), Said(f), EffectiveWeight(cfg, c, e), EffectiveWeight(cfg, c, f));
  }

  lemma EvenWeights(cfg: Setting, c: Component, e: ScoreEvent, f: ScoreEvent)
    requires DecayLike(cfg.decay) && e.weight == f.weight > 0.0 && AgeOf(e) == AgeOf(f)
    ensures EffectiveWeight(cfg, c, e) == EffectiveWeight(cfg, c, f) > 0.0
  {
    Fraction(e.weight, cfg.decay(AgeOf(e), c.halfLifeDays));
    hide Times, DecayLike;
  }

  lemma EvenMean(a: real, b: real, w: real, w': real)
    requires w == w' > 0.0
    ensures w + w' != 0.0 && Round2(Quotient(Times(a, w) + Times(b, w'), w + w')) == Round2((a + b) / 2.0)
  {
    MeanOfEven(a, b, w, w');
  }

  lemma MeanOfEven(a: real, b: real, w: real, w': real)
    requires w == w' > 0.0
    ensures Quotient(Times(a, w) + Times(b, w'), w + w') == (a + b) / 2.0
  {
    var m := (a + b) / 2.0;
    assert Times(m, w + w) == Times(2.0 * m, w);
    Spread(a, b, w);
    QuotientBetween(m, Times(a, w) + Times(b, w), w + w, m);
  }
}
