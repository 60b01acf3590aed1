/** What the founder score promises: order, monotonicity, shrinkage, and what repeated sources do. */
module FounderScoreLaws {
  import opened Prelude
  import opened Products
  import opened Rounding
  import opened Sequences
  import opened Analysis
  import opened FounderScore

  // ---------------------------------------------------------------- what the result depends on

  /** Two collections of events that agree component by component. */
  ghost predicate SameParts(cfg: Setting, s: seq<ScoreEvent>, t: seq<ScoreEvent>) {
    forall i :: 0 <= i < |cfg.components| ==>
      && Numerator(cfg, cfg.components[i], s) == Numerator(cfg, cfg.components[i], t)
      && Denominator(cfg, cfg.components[i], s) == Denominator(cfg, cfg.components[i], t)
      && Sources(s, cfg.components[i].name) == Sources(t, cfg.components[i].name)
  }

  lemma SumCongruence<T>(f: T -> real, g: T -> real, s: seq<T>)
    requires forall i :: 0 <= i < |s| ==> f(s[i]) == g(s[i])
    ensures Sum(f, s) == Sum(g, s)
  {
    if s != [] { SumCongruence(f, g, s[..|s| - 1]); }
  }

  lemma SumOrder<T>(f: T -> real, g: T -> real, s: seq<T>)
    requires forall i :: 0 <= i < |s| ==> f(s[i]) <= g(s[i])
    ensures Sum(f, s) <= Sum(g, s)
  {
    if s != [] { SumOrder(f, g, s[..|s| - 1]); }
  }

  lemma {:induction false} SamePartsSameScore(cfg: Setting, s: seq<ScoreEvent>, t: seq<ScoreEvent>)
    requires SameParts(cfg, s, t)
    ensures FounderScoreOf(cfg, s) == FounderScoreOf(cfg, t)
  {
    SumCongruence(ValueOver(cfg, s), ValueOver(cfg, t), cfg.components);
    SumCongruence(SourcesOver(s), SourcesOver(t), cfg.components);
    assert Summaries(cfg, s) == Summaries(cfg, t);
    assert IndependentSources(cfg.components, s) == IndependentSources(cfg.components, t);
  }

  lemma SourcesPermutation(s: seq<ScoreEvent>, t: seq<ScoreEvent>, name: string)
    requires multiset(s) == multiset(t)
    ensures Sources(s, name) == Sources(t, name)
  {
    forall e: ScoreEvent ensures e in s <==> e in t { assert e in multiset(s) <==> e in multiset(t); }
  }

  /** The order of the events is irrelevant to every field of the result. */
  lemma PermutationInvariance(cfg: Setting, events: seq<ScoreEvent>, shuffled: seq<ScoreEvent>)
    requires multiset(events) == multiset(shuffled)
    ensures FounderScoreOf(cfg, events) == FounderScoreOf(cfg, shuffled)
  {
    forall i | 0 <= i < |cfg.components|
      ensures Numerator(cfg, cfg.components[i], events) == Numerator(cfg, cfg.components[i], shuffled)
      ensures Denominator(cfg, cfg.components[i], events) == Denominator(cfg, cfg.components[i], shuffled)
      ensures Sources(events, cfg.components[i].name) == Sources(shuffled, cfg.components[i].name)
    {
      var c := cfg.components[i];
      SelectPermutation(OfComponent(c.name), events, shuffled);
      SumPermutation(ValueTerm(cfg, c), Bucket(events, c), Bucket(shuffled, c));
      SumPermutation(WeightTerm(cfg, c), Bucket(events, c), Bucket(shuffled, c));
      SourcesPermutation(events, shuffled, c.name);
    }
    SamePartsSameScore(cfg, events, shuffled);
  }

  /** An event of an unknown component, wherever it stands, changes no field of the result. */
  lemma UnknownComponentIgnored(cfg: Setting, events: seq<ScoreEvent>, k: nat)
    requires k < |events|
    requires forall i :: 0 <= i < |cfg.components| ==> cfg.components[i].name != events[k].component
    ensures FounderScoreOf(cfg, events) == FounderScoreOf(cfg, Without(events, k))
  {
    forall i | 0 <= i < |cfg.components|
      ensures Bucket(events, cfg.components[i]) == Bucket(Without(events, k), cfg.components[i])
      ensures Sources(events, cfg.components[i].name) == Sources(Without(events, k), cfg.components[i].name)
    {
      SelectWithout(OfComponent(cfg.components[i].name), events, k);
      BucketSources(events, cfg.components[i]);
      BucketSources(Without(events, k), cfg.components[i]);
    }
    SamePartsSameScore(cfg, events, Without(events, k));
  }

  // ---------------------------------------------------------------- raising a delta

  /** The same events, some with a higher `delta`. */
  ghost predicate Raised(s: seq<ScoreEvent>, t: seq<ScoreEvent>) {
    && |s| == |t|
    && forall i :: 0 <= i < |s| ==> s[i].delta <= t[i].delta && t[i] == s[i].(delta := t[i].delta)
  }

  lemma {:induction false} BucketRaised(s: seq<ScoreEvent>, t: seq<ScoreEvent>, c: Component)
    requires Raised(s, t)
    ensures Raised(Bucket(s, c), Bucket(t, c))
  {
    if s != [] {
      BucketRaised(s[..|s| - 1], t[..|t| - 1], c);
    }
  }

  lemma SourcesRaised(s: seq<ScoreEvent>, t: seq<ScoreEvent>, name: string)
    requires Raised(s, t)
    ensures Sources(s, name) == Sources(t, name)
  {
    forall source | source in Sources(s, name) ensures source in Sources(t, name) {
      var i :| 0 <= i < |s| && s[i].component == name && s[i].source == source;
      assert t[i] in t;
    }
    forall source | source in Sources(t, name) ensures source in Sources(s, name) {
      var i :| 0 <= i < |t| && t[i].component == name && t[i].source == source;
      assert s[i] in s;
    }
  }

  lemma WeightNonNegative(cfg: Setting, c: Component, e: ScoreEvent)
    requires DecayLike(cfg.decay)
    ensures EffectiveWeight(cfg, c, e) >= 0.0
  {
    Fraction(Max(0.0, e.weight), cfg.decay(if e.ageDays < 0 then 0 else e.ageDays, c.halfLifeDays));
  }

  lemma {:induction false} TotalsRaised(cfg: Setting, c: Component, s: seq<ScoreEvent>, t: seq<ScoreEvent>)
    requires DecayLike(cfg.decay) && Raised(s, t)
    ensures Sum(ValueTerm(cfg, c), s) <= Sum(ValueTerm(cfg, c), t)
    ensures Sum(WeightTerm(cfg, c), s) == Sum(WeightTerm(cfg, c), t)
  {
    if s != [] {
      var n := |s| - 1;
      TotalsRaised(cfg, c, s[..n], t[..n]);
      WeightNonNegative(cfg, c, s[n]);
      ClampMonotone(s[n].delta, t[n].delta, 0.0, 100.0);
      Monotone(Clamp(s[n].delta, 0.0, 100.0), Clamp(t[n].delta, 0.0, 100.0),
        EffectiveWeight(cfg, c, s[n]), EffectiveWeight(cfg, c, t[n]));
    }
  }

  /** A component's total lies between 0 and 100 times its weight, both non-negative. */
  lemma {:induction false} TotalsRange(cfg: Setting, c: Component, bucket: seq<ScoreEvent>)
    requires DecayLike(cfg.decay)
    ensures 0.0 <= Sum(ValueTerm(cfg, c), bucket) <= Times(100.0, Sum(WeightTerm(cfg, c), bucket))
    ensures 0.0 <= Sum(WeightTerm(cfg, c), bucket)
  {
    if bucket != [] {
      var n := |bucket| - 1;
      TotalsRange(cfg, c, bucket[..n]);
      WeightNonNegative(cfg, c, bucket[n]);
      var w := EffectiveWeight(cfg, c, bucket[n]);
      Monotone(0.0, Clamp(bucket[n].delta, 0.0, 100.0), 0.0, w);
      Monotone(Clamp(bucket[n].delta, 0.0, 100.0), 100.0, w, w);
    }
  }

  lemma ValueRange(cfg: Setting, c: Component, events: seq<ScoreEvent>)
    requires Lawful(cfg)
    ensures 0.0 <= Value(cfg, c, events) <= 100.0
  {
    TotalsRange(cfg, c, Bucket(events, c));
    if Denominator(cfg, c, events) != 0.0 {
      QuotientBetween(0.0, Numerator(cfg, c, events), Denominator(cfg, c, events), 100.0);
    }
  }

  lemma ValueRaised(cfg: Setting, c: Component, s: seq<ScoreEvent>, t: seq<ScoreEvent>)
    requires Lawful(cfg) && Raised(s, t)
    ensures Value(cfg, c, s) <= Value(cfg, c, t)
  {
    BucketRaised(s, t, c);
    TotalsRaised(cfg, c, Bucket(s, c), Bucket(t, c));
    TotalsRange(cfg, c, Bucket(s, c));
    if Denominator(cfg, c, s) != 0.0 {
      QuotientMonotone(Numerator(cfg, c, s), Numerator(cfg, c, t), Denominator(cfg, c, s));
    }
  }

  lemma WeightedMeanRaised(cfg: Setting, s: seq<ScoreEvent>, t: seq<ScoreEvent>)
    requires Lawful(cfg) && Raised(s, t)
    ensures WeightedMean(cfg, s) <= WeightedMean(cfg, t)
  {
    forall i | 0 <= i < |cfg.components|
      ensures ValueOver(cfg, s)(cfg.components[i]) <= ValueOver(cfg, t)(cfg.components[i])
    {
      var c := cfg.components[i];
      ValueRange(cfg, c, s);
      ValueRaised(cfg, c, s, t);
      Monotone(Value(cfg, c, s), Value(cfg, c, t), c.weight, c.weight);
    }
    SumOrder(ValueOver(cfg, s), ValueOver(cfg, t), cfg.components);
  }

  lemma ScoreMonotone(cfg: Setting, observed: real, low: real, high: real)
    requires Lawful(cfg) && observed >= 0.0 && low <= high
    ensures ScoreAt(cfg, Posterior(cfg.mean, observed, low)) <= ScoreAt(cfg, Posterior(cfg.mean, observed, high))
  {
    TimesOrder(observed, low, high);
    var p, q := Posterior(cfg.mean, observed, low), Posterior(cfg.mean, observed, high);
    QuotientMonotone(Times(PRIOR_WEIGHT, cfg.mean) + Times(observed, low),
      Times(PRIOR_WEIGHT, cfg.mean) + Times(observed, high), PRIOR_WEIGHT + observed);
    QuotientMonotone(p - cfg.mean, q - cfg.mean, Max(cfg.sd, 1.0));
    var x, y := Quotient(p - cfg.mean, Max(cfg.sd, 1.0)), Quotient(q - cfg.mean, Max(cfg.sd, 1.0));
    assert cfg.cdf(x) <= cfg.cdf(y);
    RoundMonotone(300.0 + 600.0 * cfg.cdf(x), 300.0 + 600.0 * cfg.cdf(y));
  }

  lemma TimesOrder(a: real, low: real, high: real)
    requires a >= 0.0 && low <= high
    ensures Times(a, low) <= Times(a, high)
  {
    assert Times(a, high) - Times(a, low) == a * (high - low);
  }

  /**
    * Raising deltas never lowers the score or either end of its interval, and leaves the confidence
    * and the cold-start flag alone.
    */
  lemma RaisingDeltas(cfg: Setting, events: seq<ScoreEvent>, raised: seq<ScoreEvent>)
    requires Lawful(cfg) && Raised(events, raised)
    ensures
      var before, after := FounderScoreOf(cfg, events), FounderScoreOf(cfg, raised);
      && before.score <= after.score
      && before.ciLow <= after.ciLow
      && before.ciHigh <= after.ciHigh
      && before.confidence == after.confidence
      && before.coldStart == after.coldStart
  {
    forall name: string ensures Sources(events, name) == Sources(raised, name) { SourcesRaised(events, raised, name); }
    SumCongruence(SourcesOver(events), SourcesOver(raised), cfg.components);
    assert IndependentSources(cfg.components, events) == IndependentSources(cfg.components, raised);
    WeightedMeanRaised(cfg, events, raised);
    ScoreMonotone(cfg, ObservationWeight(cfg.components, events), WeightedMean(cfg, events), WeightedMean(cfg, raised));
  }

  // ---------------------------------------------------------------- shrinkage

  function ScaledWeight(k: real): Component -> real {
    (c: Component) => Times(k, c.weight)
  }

  lemma {:induction false} ScaledWeights(k: real, components: seq<Component>)
    ensures Sum(ScaledWeight(k), components) == Times(k, Sum(WeightOf(), components))
  {
    if components != [] {
      var n := |components| - 1;
      ScaledWeights(k, components[..n]);
      assert Times(k, Sum(WeightOf(), components[..n])) + Times(k, components[n].weight)
          == Times(k, Sum(WeightOf(), components[..n]) + components[n].weight);
    }
  }

  lemma WeightedMeanRange(cfg: Setting, events: seq<ScoreEvent>)
    requires Lawful(cfg)
    ensures 0.0 <= WeightedMean(cfg, events) <= 100.0
  {
    forall i | 0 <= i < |cfg.components|
      ensures ScaledWeight(0.0)(cfg.components[i]) <= ValueOver(cfg, events)(cfg.components[i]) <= ScaledWeight(100.0)(cfg.components[i])
    {
      var c := cfg.components[i];
      ValueRange(cfg, c, events);
      Monotone(0.0, Value(cfg, c, events), c.weight, c.weight);
      Monotone(Value(cfg, c, events), 100.0, c.weight, c.weight);
    }
    SumOrder(ScaledWeight(0.0), ValueOver(cfg, events), cfg.components);
    SumOrder(ValueOver(cfg, events), ScaledWeight(100.0), cfg.components);
    ScaledWeights(0.0, cfg.components);
    ScaledWeights(100.0, cfg.components);
    Unit(100.0);
  }

  /** The posterior lies between the cohort mean and the weighted mean, whichever is larger. */
  lemma PosteriorBetween(mean: real, observed: real, weightedMean: real)
    requires observed >= 0.0
    ensures Min(mean, weightedMean) <= Posterior(mean, observed, weightedMean) <= Max(mean, weightedMean)
  {
    var low, high := Min(mean, weightedMean), Max(mean, weightedMean);
    TimesOrder(observed, low, weightedMean);
    TimesOrder(observed, weightedMean, high);
    var total := Times(PRIOR_WEIGHT, mean) + Times(observed, weightedMean);
    assert Times(low, PRIOR_WEIGHT + observed) == 4.0 * low + Times(observed, low);
    assert Times(high, PRIOR_WEIGHT + observed) == 4.0 * high + Times(observed, high);
    QuotientBetween(low, total, PRIOR_WEIGHT + observed, high);
  }

  lemma WidthRange(cfg: Setting, observed: real)
    requires ExpLike(cfg.exp) && observed >= 0.0
    ensures 0.0 <= Confidence(cfg, observed) < 1.0
    ensures 45 <= HalfWidth(cfg, observed) <= 170
  {
    var tail := cfg.exp(-observed / 6.0);
    assert -observed / 6.0 <= 0.0;
    assert 0.0 < tail <= cfg.exp(0.0);
    RoundMonotone(45.0, 45.0 + 125.0 * (1.0 - Confidence(cfg, observed)));
    RoundMonotone(45.0 + 125.0 * (1.0 - Confidence(cfg, observed)), 170.0);
  }

  lemma ScoreRange(cfg: Setting, posterior: real)
    requires CdfLike(cfg.cdf)
    ensures 300 <= ScoreAt(cfg, posterior) <= 900
    ensures posterior == cfg.mean ==> ScoreAt(cfg, posterior) == 600
  {
    var z := Quotient(posterior - cfg.mean, Max(cfg.sd, 1.0));
    var x := 300.0 + 600.0 * cfg.cdf(z);
    assert 0.0 <= cfg.cdf(z) <= 1.0;
    RoundMonotone(300.0, x);
    RoundMonotone(x, 900.0);
    if posterior == cfg.mean { assert z == 0.0; }
  }

  /**
    * Shrinkage: the posterior lies between the cohort mean and the events' weighted mean; the score is in
    * [300, 900] and inside its interval; the interval is at least 45 wide on a side unless it meets an end
    * of the scale, and never wider than 170.
    */
  lemma Shrinkage(cfg: Setting, events: seq<ScoreEvent>)
    requires Lawful(cfg)
    ensures
      var result := FounderScoreOf(cfg, events);
      var observed := ObservationWeight(cfg.components, events);
      var posterior := Posterior(cfg.mean, observed, WeightedMean(cfg, events));
      && 0.0 <= Min(cfg.mean, WeightedMean(cfg, events)) <= posterior <= Max(cfg.mean, WeightedMean(cfg, events)) <= 100.0
      && 300 <= result.ciLow <= result.score <= result.ciHigh <= 900
      && 45 <= HalfWidth(cfg, observed) <= 170
      && (result.ciLow == 300 || 45 <= result.score - result.ciLow <= 170)
      && (result.ciHigh == 900 || 45 <= result.ciHigh - result.score <= 170)
      && 0.0 <= result.confidence <= 1.0
  {
    var observed := ObservationWeight(cfg.components, events);
    WeightedMeanRange(cfg, events);
    PosteriorBetween(cfg.mean, observed, WeightedMean(cfg, events));
    WidthRange(cfg, observed);
    ScoreRange(cfg, Posterior(cfg.mean, observed, WeightedMean(cfg, events)));
    Round3Monotone(0.0, Confidence(cfg, observed));
    Round3Monotone(Confidence(cfg, observed), 1.0);
    Round3Exact(0);
    Round3Exact(1000);
  }

  /** However much evidence there is, at least 40 parts in 187 of the pull towards the cohort mean remain. */
  lemma PullRemains(cfg: Setting, events: seq<ScoreEvent>)
    requires Lawful(cfg)
    ensures
      var mean, w := cfg.mean, WeightedMean(cfg, events);
      var p := Posterior(mean, ObservationWeight(cfg.components, events), w);
      && (w >= mean ==> 18.7 * (p - mean) <= 14.7 * (w - mean))
      && (w <= mean ==> 18.7 * (mean - p) <= 14.7 * (mean - w))
  {
    var mean, w, o := cfg.mean, WeightedMean(cfg, events), ObservationWeight(cfg.components, events);
    var p := Posterior(mean, o, w);
    assert p * (4.0 + o) == 4.0 * mean + o * w;
    assert (p - mean) * (4.0 + o) == o * (w - mean);
    if w >= mean {
      PullArithmetic(p - mean, o, w - mean);
    }
    if w <= mean {
      assert (mean - p) * (4.0 + o) == o * (mean - w);
      PullArithmetic(mean - p, o, mean - w);
    }
  }

  lemma PullArithmetic(moved: real, observed: real, gap: real)
    requires 0.0 <= observed <= 14.7 && gap >= 0.0
    requires moved * (4.0 + observed) == observed * gap
    ensures 18.7 * moved <= 14.7 * gap
  {
    var slack := 14.7 * gap - 18.7 * moved;
    assert slack * (4.0 + observed) == 4.0 * (gap * (14.7 - observed));
    assert gap * (14.7 - observed) >= 0.0;
    if slack < 0.0 {
      PositiveProduct(-slack, 4.0 + observed);
      assert false;
    }
  }

  ghost predicate Saturated(components: seq<Component>, events: seq<ScoreEvent>) {
    forall i :: 0 <= i < |components| ==> |Sources(events, components[i].name)| >= 3
  }

  lemma {:induction false} FullObservation(components: seq<Component>, events: seq<ScoreEvent>)
    ensures Sum(SourcesOver(events), components) == 2.1 * |components| as real <==> Saturated(components, events)
  {
    if components != [] {
      var n := |components| - 1;
      FullObservation(components[..n], events);
      SourcesOverRange(components[..n], events);
      assert Saturated(components, events) <==>
        Saturated(components[..n], events) && |Sources(events, components[n].name)| >= 3;
    }
  }

  /** The pull is at its least exactly when every component has been heard from three sources, or the mean asks for none. */
  lemma LeastPullIff(cfg: Setting, events: seq<ScoreEvent>)
    requires Lawful(cfg)
    ensures
      var mean, w := cfg.mean, WeightedMean(cfg, events);
      var p := Posterior(mean, ObservationWeight(cfg.components, events), w);
      18.7 * (p - mean) == 14.7 * (w - mean) <==> Saturated(cfg.components, events) || w == mean
  {
    var mean, w, o := cfg.mean, WeightedMean(cfg, events), ObservationWeight(cfg.components, events);
    FullObservation(cfg.components, events);
    assert o == 14.7 <==> Saturated(cfg.components, events) by {
      assert |cfg.components| == 7;
      hide Saturated, Lawful;
    }
    hide *;
    PullAt(mean, o, w);
  }

  lemma PullAt(mean: real, o: real, w: real)
    requires o >= 0.0
    ensures 18.7 * (Posterior(mean, o, w) - mean) == 14.7 * (w - mean) <==> o == 14.7 || w == mean
  {
    var p := Posterior(mean, o, w);
    var gap, slack := w - mean, 18.7 * (p - mean) - 14.7 * (w - mean);
    assert Times(p, PRIOR_WEIGHT + o) == Times(PRIOR_WEIGHT, mean) + Times(o, w);
    SlackIs(p, mean, o, w);
    hide *;
    ZeroProduct(slack, 4.0 + o);
    ZeroProduct(o - 14.7, gap);
  }

  lemma SlackIs(p: real, mean: real, o: real, w: real)
    requires p * (4.0 + o) == 4.0 * mean + o * w
    ensures (18.7 * (p - mean) - 14.7 * (w - mean)) * (4.0 + o) == 4.0 * ((o - 14.7) * (w - mean))
  {
    assert (p - mean) * (4.0 + o) == o * (w - mean);
  }

  lemma ZeroProduct(a: real, b: real)
    ensures a * b == 0.0 <==> a == 0.0 || b == 0.0
  {
  }

  ghost predicate Known(cfg: Setting, e: ScoreEvent) {
    exists i :: 0 <= i < |cfg.components| && cfg.components[i].name == e.component
  }

  /** Evidence for a component: an event that carries weight. */
  ghost predicate HasEvidence(events: seq<ScoreEvent>, name: string) {
    exists k :: 0 <= k < |events| && events[k].component == name && events[k].weight > 0.0
  }

  lemma {:induction false} WeightPositive(cfg: Setting, c: Component, bucket: seq<ScoreEvent>)
    requires DecayLike(cfg.decay)
    ensures Sum(WeightTerm(cfg, c), bucket) > 0.0 <==> exists k :: 0 <= k < |bucket| && bucket[k].weight > 0.0
  {
    if bucket != [] {
      var n := |bucket| - 1;
      WeightPositive(cfg, c, bucket[..n]);
      TotalsRange(cfg, c, bucket[..n]);
      Fraction(Max(0.0, bucket[n].weight), cfg.decay(if bucket[n].ageDays < 0 then 0 else bucket[n].ageDays, c.halfLifeDays));
      if exists k :: 0 <= k < |bucket| && bucket[k].weight > 0.0 {
        var k :| 0 <= k < |bucket| && bucket[k].weight > 0.0;
        assert k < n ==> bucket[..n][k] == bucket[k];
      }
    }
  }

  /**
    * What is reported of each component: a value exactly when some event of it carries weight, the cohort mean as
    * prior otherwise, and how many distinct sources spoke of it. A cold start is fewer than three distinct sources
    * over the events of known components.
    */
  lemma Report(cfg: Setting, events: seq<ScoreEvent>, i: nat)
    requires Lawful(cfg) && i < |cfg.components|
    ensures
      var result := FounderScoreOf(cfg, events);
      var name, out := cfg.components[i].name, result.components[i];
      && |result.components| == 7
      && out.name == name && out.weight == cfg.components[i].weight
      && (out.value.Some? <==> HasEvidence(events, name))
      && (out.value.Some? ==> 0.0 <= out.value.value <= 100.0)
      && out.prior == (if HasEvidence(events, name) then None else Some(cfg.mean))
      && out.sources == |set e <- events | e.component == name :: e.source|
      && (result.coldStart <==> |set e <- events | Known(cfg, e) :: e.source| < 3)
  {
    var c := cfg.components[i];
    EvidenceIsWeight(cfg, c, events);
    ValueRange(cfg, c, events);
    Round2Monotone(0.0, Value(cfg, c, events));
    Round2Monotone(Value(cfg, c, events), 100.0);
    Round2Exact(0);
    Round2Exact(10000);
    KnownSources(cfg, events);
    hide Lawful, Denominator, Numerator, HasEvidence, Known, ScoreAt, HalfWidth, Confidence, IndependentSources, Round2;
  }

  lemma EvidenceIsWeight(cfg: Setting, c: Component, events: seq<ScoreEvent>)
    requires DecayLike(cfg.decay)
    ensures Denominator(cfg, c, events) >= 0.0
    ensures Denominator(cfg, c, events) > 0.0 <==> HasEvidence(events, c.name)
  {
    var bucket := Bucket(events, c);
    WeightPositive(cfg, c, bucket);
    TotalsRange(cfg, c, bucket);
    forall e: ScoreEvent ensures e in bucket <==> e in events && e.component == c.name {
      SelectMember(OfComponent(c.name), events, e);
    }
    hide Sum, Select, DecayLike;
    if HasEvidence(events, c.name) {
      var k :| 0 <= k < |events| && events[k].component == c.name && events[k].weight > 0.0;
      assert events[k] in bucket;
    }
    if k :| 0 <= k < |bucket| && bucket[k].weight > 0.0 {
      assert bucket[k] in events;
    }
  }

  lemma KnownSources(cfg: Setting, events: seq<ScoreEvent>)
    ensures IndependentSources(cfg.components, events) == set e <- events | Known(cfg, e) :: e.source
  {
    var known := set e <- events | Known(cfg, e) :: e.source;
    forall source | source in IndependentSources(cfg.components, events) ensures source in known {
      var c :| c in cfg.components && source in Sources(events, c.name);
      var e :| e in events && e.component == c.name && e.source == source;
      assert Known(cfg, e);
    }
    forall source | source in known ensures source in IndependentSources(cfg.components, events) {
      var e :| e in events && Known(cfg, e) && e.source == source;
      var i :| 0 <= i < |cfg.components| && cfg.components[i].name == e.component;
      assert source in Sources(events, cfg.components[i].name);
    }
  }

  // ---------------------------------------------------------------- reading the result

  /**
    * A posterior one cohort deviation above the mean scores what the distribution function says of one; a spread
    * below one counts as one.
    */
  lemma OneDeviation(cfg: Setting, events: seq<ScoreEvent>)
    ensures
      var mean := cfg.mean;
      var p := Posterior(mean, ObservationWeight(cfg.components, events), WeightedMean(cfg, events));
      p == mean + (if cfg.sd <= 1.0 then 1.0 else cfg.sd) ==>
        FounderScoreOf(cfg, events).score == RoundHalfEven(300.0 + 600.0 * cfg.cdf(1.0))
  {
    hide Posterior, WeightedMean, ObservationWeight, IndependentSources, Summaries, Confidence, HalfWidth, RoundHalfEven;
    var sd := if cfg.sd <= 1.0 then 1.0 else cfg.sd;
    assert Quotient(sd, sd) == 1.0;
  }

  /** The reported interval is read off the reported confidence: 170 points less 125 times it, but for rounding. */
  lemma WidthFromConfidence(cfg: Setting, events: seq<ScoreEvent>)
    requires Lawful(cfg)
    ensures
      var result := FounderScoreOf(cfg, events);
      && (result.ciHigh < 900 ==> -0.5625 <= (result.ciHigh - result.score) as real - (170.0 - 125.0 * result.confidence) <= 0.5625)
      && (300 < result.ciLow ==> -0.5625 <= (result.score - result.ciLow) as real - (170.0 - 125.0 * result.confidence) <= 0.5625)
  {
    hide Posterior, WeightedMean, ObservationWeight, IndependentSources, Summaries, ScoreAt, Lawful;
    var c := Confidence(cfg, ObservationWeight(cfg.components, events));
    hide Confidence;
    assert 45.0 + 125.0 * (1.0 - c) == 170.0 - 125.0 * c;
  }

  ghost predicate OneSourceInSix(components: seq<Component>, events: seq<ScoreEvent>) {
    Sum(SourcesOver(events), components) == 6.0
  }

  /** Evidence worth six sources leaves an uncertainty of `exp(-1)`. */
  lemma SixSources(cfg: Setting, events: seq<ScoreEvent>)
    requires OneSourceInSix(cfg.components, events)
    ensures FounderScoreOf(cfg, events).confidence == Round3(1.0 - cfg.exp(-1.0))
  {
    hide Posterior, WeightedMean, IndependentSources, Summaries, ScoreAt, HalfWidth, Round3;
    assert -6.0 / 6.0 == -1.0;
  }

  // ---------------------------------------------------------------- sources

  lemma WidthMonotone(cfg: Setting, less: real, more: real)
    requires ExpLike(cfg.exp) && 0.0 <= less <= more
    ensures Confidence(cfg, less) <= Confidence(cfg, more)
    ensures HalfWidth(cfg, more) <= HalfWidth(cfg, less)
  {
    assert -more / 6.0 <= -less / 6.0;
    assert cfg.exp(-more / 6.0) <= cfg.exp(-less / 6.0);
    RoundMonotone(45.0 + 125.0 * (1.0 - Confidence(cfg, more)), 45.0 + 125.0 * (1.0 - Confidence(cfg, less)));
  }

  /** More distinct sources in each component never widen the interval and never lower the confidence. */
  lemma MoreSourcesNeverWiden(cfg: Setting, events: seq<ScoreEvent>, more: seq<ScoreEvent>)
    requires Lawful(cfg)
    requires forall i :: 0 <= i < |cfg.components| ==>
      |Sources(events, cfg.components[i].name)| <= |Sources(more, cfg.components[i].name)|
    ensures HalfWidth(cfg, ObservationWeight(cfg.components, more)) <= HalfWidth(cfg, ObservationWeight(cfg.components, events))
    ensures FounderScoreOf(cfg, events).confidence <= FounderScoreOf(cfg, more).confidence
  {
    SumOrder(SourcesOver(events), SourcesOver(more), cfg.components);
    WidthMonotone(cfg, ObservationWeight(cfg.components, events), ObservationWeight(cfg.components, more));
    Round3Monotone(Confidence(cfg, ObservationWeight(cfg.components, events)),
      Confidence(cfg, ObservationWeight(cfg.components, more)));
  }

  /** A further event from a source its component has already heard leaves confidence, width and cold start alone. */
  lemma RepeatsChangeNoConfidence(cfg: Setting, events: seq<ScoreEvent>, repeat: ScoreEvent)
    requires repeat.source in Sources(events, repeat.component)
    ensures
      var before, after := FounderScoreOf(cfg, events), FounderScoreOf(cfg, events + [repeat]);
      && before.confidence == after.confidence
      && before.coldStart == after.coldStart
    ensures HalfWidth(cfg, ObservationWeight(cfg.components, events))
         == HalfWidth(cfg, ObservationWeight(cfg.components, events + [repeat]))
  {
    var longer := events + [repeat];
    forall name: string ensures Sources(events, name) == Sources(longer, name) {
      forall e: ScoreEvent ensures e in longer <==> e in events || e == repeat { }
    }
    SumCongruence(SourcesOver(events), SourcesOver(longer), cfg.components);
    assert IndependentSources(cfg.components, events) == IndependentSources(cfg.components, longer);
  }

  // ---------------------------------------------------------------- cold start

  ghost predicate Neutral(cfg: Setting, events: seq<ScoreEvent>) {
    forall i :: 0 <= i < |events| ==> Clamp(events[i].delta, 0.0, 100.0) == cfg.mean
  }

  lemma {:induction false} NeutralTotals(cfg: Setting, c: Component, bucket: seq<ScoreEvent>)
    requires Neutral(cfg, bucket)
    ensures Sum(ValueTerm(cfg, c), bucket) == Times(cfg.mean, Sum(WeightTerm(cfg, c), bucket))
  {
    if bucket != [] {
      var n := |bucket| - 1;
      NeutralTotals(cfg, c, bucket[..n]);
      assert Times(cfg.mean, Sum(WeightTerm(cfg, c), bucket[..n])) + Times(cfg.mean, EffectiveWeight(cfg, c, bucket[n]))
          == Times(cfg.mean, Sum(WeightTerm(cfg, c), bucket[..n]) + EffectiveWeight(cfg, c, bucket[n]));
    }
  }

  lemma NeutralValue(cfg: Setting, c: Component, events: seq<ScoreEvent>)
    requires Lawful(cfg) && Neutral(cfg, events)
    ensures Value(cfg, c, events) == cfg.mean
  {
    var bucket := Bucket(events, c);
    forall k | 0 <= k < |bucket| ensures Clamp(bucket[k].delta, 0.0, 100.0) == cfg.mean {
      SelectMember(OfComponent(c.name), events, bucket[k]);
    }
    NeutralTotals(cfg, c, bucket);
    TotalsRange(cfg, c, bucket);
    if Denominator(cfg, c, events) != 0.0 {
      QuotientBetween(cfg.mean, Numerator(cfg, c, events), Denominator(cfg, c, events), cfg.mean);
    }
  }

  /**
    * Events at the cohort mean, of any number, age and weight, leave the score exactly where no evidence
    * leaves it: thin evidence widens the interval and does not move the score.
    */
  lemma NeutralEvidenceKeepsMean(cfg: Setting, events: seq<ScoreEvent>)
    requires Lawful(cfg) && Neutral(cfg, events)
    ensures FounderScoreOf(cfg, events).score == 600
  {
    forall i | 0 <= i < |cfg.components|
      ensures ValueOver(cfg, events)(cfg.components[i]) == ScaledWeight(cfg.mean)(cfg.components[i])
    {
      NeutralValue(cfg, cfg.components[i], events);
    }
    SumCongruence(ValueOver(cfg, events), ScaledWeight(cfg.mean), cfg.components);
    ScaledWeights(cfg.mean, cfg.components);
    Unit(cfg.mean);
    PosteriorBetween(cfg.mean, ObservationWeight(cfg.components, events), cfg.mean);
    ScoreRange(cfg, cfg.mean);
  }

  /** No evidence: the cohort-mean score, no confidence, the widest interval, a cold start. */
  lemma NoEvidence(cfg: Setting)
    requires Lawful(cfg)
    ensures
      var result := FounderScoreOf(cfg, []);
      result.score == 600 && result.ciLow == 430 && result.ciHigh == 770 && result.confidence == 0.0 && result.coldStart
  {
    NeutralEvidenceKeepsMean(cfg, []);
    NoSources(cfg.components);
    assert Confidence(cfg, 0.0) == 0.0 by { assert -0.0 / 6.0 == 0.0; }
    Round3Exact(0);
    assert IndependentSources(cfg.components, []) == {};
  }

  lemma {:induction false} NoSources(components: seq<Component>)
    ensures Sum(SourcesOver([]), components) == 0.0
  {
    if components != [] {
      NoSources(components[..|components| - 1]);
      assert Sources([], components[|components| - 1].name) == {};
    }
  }
}
