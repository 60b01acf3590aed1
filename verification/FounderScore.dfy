/** The founder score: Bayesian shrinkage of weighted, decayed events towards the cohort mean. */
module FounderScore {
  import opened Prelude
  import opened Products
  import opened Rounding
  import opened Sequences
  import opened Analysis

  /** `ageDays` is `(now - occurred_at).days`; it is negative for an event dated in the future. */
  datatype ScoreEvent = ScoreEvent(component: string, delta: real, ageDays: int, weight: real, source: string)

  datatype Component = Component(name: string, weight: real, halfLifeDays: Days)

  datatype ComponentOut = ComponentOut(name: string, value: Option<real>, prior: Option<real>, weight: real, sources: nat)

  datatype FounderScoreResult = FounderScoreResult(
    score: int, ciLow: int, ciHigh: int, confidence: real, components: seq<ComponentOut>, coldStart: bool)

  /** The parameters of one evaluation: the component table, the decay, the two library functions and the cohort. */
  datatype Setting = Setting(
    components: seq<Component>, decay: (nat, Days) -> real, exp: real -> real, cdf: real -> real, mean: real, sd: real)

  ghost predicate Lawful(cfg: Setting) {
    && WellWeighted(cfg.components)
    && DecayLike(cfg.decay)
    && ExpLike(cfg.exp)
    && CdfLike(cfg.cdf)
    && 0.0 <= cfg.mean <= 100.0
  }

  const COMPONENTS: seq<Component> := [
    Component("execution", 0.26, 540),
    Component("technical_depth", 0.18, 720),
    Component("domain_expertise", 0.14, 900),
    Component("outcomes", 0.14, 1460),
    Component("velocity", 0.12, 120),
    Component("validation", 0.10, 720),
    Component("communication", 0.06, 365)
  ]

  function WeightOf(): Component -> real {
    (c: Component) => c.weight
  }

  predicate DistinctNames(components: seq<Component>) {
    forall i, j :: 0 <= i < j < |components| ==> components[i].name != components[j].name
  }

  /** Seven components under distinct names, with positive weights that add up to one. */
  ghost predicate WellWeighted(components: seq<Component>) {
    && |components| == 7
    && DistinctNames(components)
    && (forall i :: 0 <= i < |components| ==> components[i].weight > 0.0)
    && Sum(WeightOf(), components) == 1.0
  }

  const PRIOR_WEIGHT := 4.0

  // ---------------------------------------------------------------- one component

  function OfComponent(name: string): ScoreEvent -> bool {
    (e: ScoreEvent) => e.component == name
  }

  function EffectiveWeight(cfg: Setting, c: Component, e: ScoreEvent): real {
    Times(Max(0.0, e.weight), cfg.decay(if e.ageDays < 0 then 0 else e.ageDays, c.halfLifeDays))
  }

  function WeightTerm(cfg: Setting, c: Component): ScoreEvent -> real {
    (e: ScoreEvent) => EffectiveWeight(cfg, c, e)
  }

  function ValueTerm(cfg: Setting, c: Component): ScoreEvent -> real {
    (e: ScoreEvent) => Times(Clamp(e.delta, 0.0, 100.0), EffectiveWeight(cfg, c, e))
  }

  function Bucket(events: seq<ScoreEvent>, c: Component): seq<ScoreEvent> {
    Select(OfComponent(c.name), events)
  }

  function Numerator(cfg: Setting, c: Component, events: seq<ScoreEvent>): real {
    Sum(ValueTerm(cfg, c), Bucket(events, c))
  }

  function Denominator(cfg: Setting, c: Component, events: seq<ScoreEvent>): real {
    Sum(WeightTerm(cfg, c), Bucket(events, c))
  }

  /** The weighted mean of a component, `None` without effective evidence. */
  function Raw(cfg: Setting, c: Component, events: seq<ScoreEvent>): Option<real> {
    if Denominator(cfg, c, events) == 0.0 then None
    else Some(Quotient(Numerator(cfg, c, events), Denominator(cfg, c, events)))
  }

  function Value(cfg: Setting, c: Component, events: seq<ScoreEvent>): real {
    match Raw(cfg, c, events)
    case Some(raw) => raw
    case None => cfg.mean
  }

  function Sources(events: seq<ScoreEvent>, name: string): set<string> {
    set e <- events | e.component == name :: e.source
  }

  // ---------------------------------------------------------------- all components

  function ValueOver(cfg: Setting, events: seq<ScoreEvent>): Component -> real {
    (c: Component) => Times(Value(cfg, c, events), c.weight)
  }

  function WeightedMean(cfg: Setting, events: seq<ScoreEvent>): real {
    Sum(ValueOver(cfg, events), cfg.components)
  }

  function SourcesOver(events: seq<ScoreEvent>): Component -> real {
    (c: Component) => Min(2.1, |Sources(events, c.name)| as real)
  }

  function ObservationWeight(components: seq<Component>, events: seq<ScoreEvent>): (r: real)
    ensures 0.0 <= r <= 2.1 * |components| as real
  {
    SourcesOverRange(components, events);
    Sum(SourcesOver(events), components)
  }

  function IndependentSources(components: seq<Component>, events: seq<ScoreEvent>): set<string> {
    set c, source | c in components && source in Sources(events, c.name) :: source
  }

  function Posterior(mean: real, observed: real, weightedMean: real): real
    requires observed >= 0.0
  {
    Quotient(Times(PRIOR_WEIGHT, mean) + Times(observed, weightedMean), PRIOR_WEIGHT + observed)
  }

  function Confidence(cfg: Setting, observed: real): real {
    1.0 - cfg.exp(-observed / 6.0)
  }

  /** The half-width of the interval, before the interval is clamped. */
  function HalfWidth(cfg: Setting, observed: real): int {
    RoundHalfEven(45.0 + 125.0 * (1.0 - Confidence(cfg, observed)))
  }

  function ScoreAt(cfg: Setting, posterior: real): int {
    RoundHalfEven(300.0 + 600.0 * cfg.cdf(Quotient(posterior - cfg.mean, Max(cfg.sd, 1.0))))
  }

  function ComponentSummary(cfg: Setting, c: Component, events: seq<ScoreEvent>): ComponentOut {
    var raw := Raw(cfg, c, events);
    ComponentOut(c.name,
      if raw.Some? then Some(Round2(raw.value)) else None,
      if raw.Some? then None else Some(cfg.mean),
      c.weight,
      |Sources(events, c.name)|)
  }

  /** The closing lines: shrink, score, and build the interval. */
  function Assemble(cfg: Setting, weightedMean: real, observed: real, values: seq<ComponentOut>, independent: nat): FounderScoreResult
    requires observed >= 0.0
  {
    var score := ScoreAt(cfg, Posterior(cfg.mean, observed, weightedMean));
    var width := HalfWidth(cfg, observed);
    FounderScoreResult(
      score,
      if score - width <= 300 then 300 else score - width,
      if score + width >= 900 then 900 else score + width,
      Round3(Confidence(cfg, observed)),
      values,
      independent < 3)
  }

  function Summaries(cfg: Setting, events: seq<ScoreEvent>): seq<ComponentOut> {
    seq(|cfg.components|, i requires 0 <= i < |cfg.components| => ComponentSummary(cfg, cfg.components[i], events))
  }

  /** The score as a function of the collection of events. */
  function FounderScoreOf(cfg: Setting, events: seq<ScoreEvent>): (result: FounderScoreResult)
    ensures |result.components| == |cfg.components|
  {
    Assemble(cfg, WeightedMean(cfg, events), ObservationWeight(cfg.components, events),
      Summaries(cfg, events), |IndependentSources(cfg.components, events)|)
  }

  lemma {:induction false} SourcesOverRange(components: seq<Component>, events: seq<ScoreEvent>)
    ensures 0.0 <= Sum(SourcesOver(events), components) <= 2.1 * |components| as real
  {
    if components != [] {
      SourcesOverRange(components[..|components| - 1], events);
    }
  }

  function RunningWeight(n: nat): real {
    [0.0, 0.26, 0.44, 0.58, 0.72, 0.84, 0.94, 1.0][if n < 8 then n else 7]
  }

  /** The component table of the source is well weighted. */
  lemma ComponentsAreWellWeighted()
    ensures WellWeighted(COMPONENTS)
  {
    assert COMPONENTS[..0] == [] && COMPONENTS[..7] == COMPONENTS;
    assert Sum(WeightOf(), []) == 0.0;
    hide Sum;
    for n := 0 to 7
      invariant Sum(WeightOf(), COMPONENTS[..n]) == RunningWeight(n)
    {
      SumPrefix(WeightOf(), COMPONENTS, n);
    }
  }

  /** No two components hold half the weight together; velocity fades fastest, and outcomes last longest. */
  lemma ComponentTable()
    ensures forall c, d :: c in COMPONENTS && d in COMPONENTS && c != d ==> c.weight + d.weight < 0.5
    ensures forall c :: c in COMPONENTS && c.name != "velocity" ==> 3 * 120 <= c.halfLifeDays
    ensures forall c :: c in COMPONENTS && c.name != "outcomes" ==> c.halfLifeDays <= 900
    ensures Component("velocity", 0.12, 120) in COMPONENTS && Component("outcomes", 0.14, 1460) in COMPONENTS
  {
    assert COMPONENTS[4] == Component("velocity", 0.12, 120) && COMPONENTS[3] == Component("outcomes", 0.14, 1460);
  }

  // ---------------------------------------------------------------- the loops

  /** Sorting the events into buckets, one per known component; events of unknown components are dropped. */
  method Partition(components: seq<Component>, events: seq<ScoreEvent>) returns (byComponent: map<string, seq<ScoreEvent>>)
    ensures forall k :: 0 <= k < |components| ==>
      components[k].name in byComponent && byComponent[components[k].name] == Bucket(events, components[k])
  {
    byComponent := map c <- components :: c.name := [];
    ghost var names := byComponent.Keys;
    assert forall k :: 0 <= k < |components| ==> components[k].name in names;
    for i := 0 to |events|
      invariant byComponent.Keys == names
      invariant forall name <- names :: byComponent[name] == Select(OfComponent(name), events[..i])
    {
      var event := events[i];
      assert events[..i + 1][..i] == events[..i];
      if event.component in byComponent {
        byComponent := byComponent[event.component := byComponent[event.component] + [event]];
      }
    }
    assert events[..|events|] == events;
  }

  /** One component's totals over its bucket. */
  method Accumulate(cfg: Setting, c: Component, bucket: seq<ScoreEvent>)
    returns (numerator: real, denominator: real, sources: set<string>)
    ensures numerator == Sum(ValueTerm(cfg, c), bucket)
    ensures denominator == Sum(WeightTerm(cfg, c), bucket)
    ensures sources == set e <- bucket :: e.source
  {
    numerator, denominator, sources := 0.0, 0.0, {};
    for j := 0 to |bucket|
      invariant numerator == Sum(ValueTerm(cfg, c), bucket[..j])
      invariant denominator == Sum(WeightTerm(cfg, c), bucket[..j])
      invariant sources == set e <- bucket[..j] :: e.source
    {
      var event := bucket[j];
      var age := if event.ageDays < 0 then 0 else event.ageDays;
      var effectiveWeight := Times(Max(0.0, event.weight), cfg.decay(age, c.halfLifeDays));
      assert bucket[..j + 1][..j] == bucket[..j];
      numerator := numerator + Times(Clamp(event.delta, 0.0, 100.0), effectiveWeight);
      denominator := denominator + effectiveWeight;
      sources := sources + {event.source};
    }
    assert bucket[..|bucket|] == bucket;
  }

  lemma BucketSources(events: seq<ScoreEvent>, c: Component)
    ensures (set e <- Bucket(events, c) :: e.source) == Sources(events, c.name)
  {
    forall e: ScoreEvent ensures e in Bucket(events, c) <==> e in events && e.component == c.name {
      SelectMember(OfComponent(c.name), events, e);
    }
  }

  /** The body of the outer loop: one component's summary and its share of the weighted mean. */
  method ScoreComponent(cfg: Setting, c: Component, bucket: seq<ScoreEvent>, ghost events: seq<ScoreEvent>)
    returns (summary: ComponentOut, contribution: real, sources: set<string>)
    requires bucket == Bucket(events, c)
    ensures summary == ComponentSummary(cfg, c, events)
    ensures contribution == ValueOver(cfg, events)(c)
    ensures sources == Sources(events, c.name)
  {
    var numerator, denominator;
    numerator, denominator, sources := Accumulate(cfg, c, bucket);
    BucketSources(events, c);
    var raw := if denominator != 0.0 then Some(Quotient(numerator, denominator)) else None;
    var value := if raw.Some? then raw.value else cfg.mean;
    contribution := Times(value, c.weight);
    summary := ComponentOut(c.name,
      if raw.Some? then Some(Round2(raw.value)) else None,
      if raw.None? then Some(cfg.mean) else None,
      c.weight, |sources|);
  }

  lemma IndependentPrefix(components: seq<Component>, i: nat, events: seq<ScoreEvent>)
    requires i < |components|
    ensures IndependentSources(components[..i + 1], events)
         == IndependentSources(components[..i], events) + Sources(events, components[i].name)
  {
    assert components[..i + 1] == components[..i] + [components[i]];
  }

  /** The outer loop. */
  method ScoreComponents(cfg: Setting, events: seq<ScoreEvent>)
    returns (values: seq<ComponentOut>, weightedMean: real, observationWeight: real, independentSources: set<string>)
    ensures values == Summaries(cfg, events)
    ensures weightedMean == WeightedMean(cfg, events)
    ensures observationWeight == ObservationWeight(cfg.components, events)
    ensures independentSources == IndependentSources(cfg.components, events)
  {
    var components := cfg.components;
    var byComponent := Partition(components, events);
    values, weightedMean, observationWeight, independentSources := [], 0.0, 0.0, {};
    for i := 0 to |components|
      invariant values == Summaries(cfg, events)[..i]
      invariant weightedMean == Sum(ValueOver(cfg, events), components[..i])
      invariant observationWeight == Sum(SourcesOver(events), components[..i])
      invariant independentSources == IndependentSources(components[..i], events)
    {
      var c := components[i];
      SumPrefix(ValueOver(cfg, events), components, i);
      SumPrefix(SourcesOver(events), components, i);
      IndependentPrefix(components, i, events);
      PrefixStep(Summaries(cfg, events), i);
      var summary, contribution, sources := ScoreComponent(cfg, c, byComponent[c.name], events);
      values := values + [summary];
      weightedMean := weightedMean + contribution;
      observationWeight := observationWeight + Min(2.1, |sources| as real);
      independentSources := independentSources + sources;
    }
    assert components[..|components|] == components;
  }

  /** The nested loops compute `FounderScoreOf`. */
  method ComputeFounderScore(cfg: Setting, events: seq<ScoreEvent>) returns (result: FounderScoreResult)
    ensures result == FounderScoreOf(cfg, events)
  {
    var values, weightedMean, observationWeight, independentSources := ScoreComponents(cfg, events);
    result := Assemble(cfg, weightedMean, observationWeight, values, |independentSources|);
  }
}
