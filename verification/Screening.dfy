/** The deterministic part of a screening job: claims to axes to recommendation. */
module Screening {
  import opened Prelude
  import opened Domain
  import opened Rounding
  import opened Sequences
  import opened Recommendation
  import Thesis
  import ThesisGates
  import FounderScore
  import FounderScoreLaws
  import Trust
  import Analysis

  datatype Claim = Claim(category: ClaimCategory, status: ClaimStatus)

  /** A stored founder score of one founder of the company. */
  datatype FounderRow = FounderRow(score: int, confidence: real)

  // ---------------------------------------------------------------- axes

  /** `max(founder_scores, key=score)`: the first row with the highest score. */
  function Best(rows: seq<FounderRow>): (best: FounderRow)
    requires rows != []
    ensures best in rows
    ensures forall row <- rows :: row.score <= best.score
  {
    var last := rows[|rows| - 1];
    if |rows| == 1 then last
    else
      var best := Best(rows[..|rows| - 1]);
      assert rows == rows[..|rows| - 1] + [last];
      if last.score > best.score then last else best
  }

  function InCategories(categories: set<ClaimCategory>): Claim -> bool {
    (claim: Claim) => claim.category in categories
  }

  function Count(claims: seq<Claim>, categories: set<ClaimCategory>): nat {
    |Select(InCategories(categories), claims)|
  }

  function MarketCount(claims: seq<Claim>): nat { Count(claims, {Market}) }

  function TractionCount(claims: seq<Claim>): nat { Count(claims, {Traction, Revenue}) }

  function ProductCount(claims: seq<Claim>): nat { Count(claims, {Product, Technology}) }

  function FounderAxisOf(rows: seq<FounderRow>): AxisValue {
    if rows == [] then AxisValue(50.0, 0.20)
    else
      var best := Best(rows);
      AxisValue(Round2(35.0 + (best.score - 300) as real / 600.0 * 60.0), Round3(best.confidence))
  }

  function MarketAxisOf(market: nat, traction: nat): AxisValue {
    AxisValue(
      Round2(Min(80.0, 48.0 + market as real * 8.0 + traction as real * 2.0)),
      Round3(Min(0.75, 0.22 + market as real * 0.15)))
  }

  function IdeaAxisOf(product: nat, traction: nat): AxisValue {
    AxisValue(
      Round2(Min(80.0, 50.0 + product as real * 6.0 + traction as real * 3.0)),
      Round3(Min(0.75, 0.25 + product as real * 0.12 + traction as real * 0.08)))
  }

  function AxesOf(rows: seq<FounderRow>, claims: seq<Claim>): (axes: seq<AxisValue>)
    ensures |axes| == 3
  {
    [FounderAxisOf(rows),
     MarketAxisOf(MarketCount(claims), TractionCount(claims)),
     IdeaAxisOf(ProductCount(claims), TractionCount(claims))]
  }

  // ---------------------------------------------------------------- the recommendation of a job

  predicate CriticallyContradicted(claim: Claim) {
    claim.status == Contradicted && claim.category in {Revenue, Traction, Team}
  }

  /** The thesis fit of a job: 70 and no gate when the opportunity has no thesis. */
  function FitOf(fold: string -> string, company: Thesis.Company, thesis: Option<Thesis.ThesisSpec>): Thesis.ThesisFit {
    match thesis
    case None => Thesis.ThesisFit(70.0, None, [])
    case Some(spec) => Thesis.ComputeThesisFit(fold, company, spec)
  }

  function Screen(rows: seq<FounderRow>, claims: seq<Claim>, fit: Thesis.ThesisFit): Advice {
    var axes := AxesOf(rows, claims);
    Recommend(axes, fit.score, exists claim <- claims :: CriticallyContradicted(claim), axes[0].confidence < 0.4)
  }

  ghost predicate InRange(rows: seq<FounderRow>) {
    forall row <- rows :: 300 <= row.score <= 900
  }

  /** Rows written by the founder scoring are in range. */
  lemma ComputedRowsAreInRange(cfg: FounderScore.Setting, collections: seq<seq<FounderScore.ScoreEvent>>)
    requires FounderScore.Lawful(cfg)
    ensures InRange(seq(|collections|, i requires 0 <= i < |collections| =>
      FounderRow(FounderScore.FounderScoreOf(cfg, collections[i]).score, FounderScore.FounderScoreOf(cfg, collections[i]).confidence)))
  {
    forall i | 0 <= i < |collections|
      ensures 300 <= FounderScore.FounderScoreOf(cfg, collections[i]).score <= 900
    {
      FounderScoreLaws.Shrinkage(cfg, collections[i]);
    }
  }

  /** Missing evidence is never punished below 35, 48 and 50. */
  lemma AxisFloors(rows: seq<FounderRow>, claims: seq<Claim>)
    requires InRange(rows)
    ensures
      var axes := AxesOf(rows, claims);
      35.0 <= axes[0].score <= 95.0 && 48.0 <= axes[1].score <= 80.0 && 50.0 <= axes[2].score <= 80.0
  {
    var m, t, p := MarketCount(claims) as real, TractionCount(claims) as real, ProductCount(claims) as real;
    Round2Exact(3500); Round2Exact(4800); Round2Exact(5000); Round2Exact(8000); Round2Exact(9500);
    if rows != [] {
      var value := 35.0 + (Best(rows).score - 300) as real / 600.0 * 60.0;
      Round2Monotone(35.0, value);
      Round2Monotone(value, 95.0);
    }
    Round2Monotone(48.0, Min(80.0, 48.0 + m * 8.0 + t * 2.0));
    Round2Monotone(Min(80.0, 48.0 + m * 8.0 + t * 2.0), 80.0);
    Round2Monotone(50.0, Min(80.0, 50.0 + p * 6.0 + t * 3.0));
    Round2Monotone(Min(80.0, 50.0 + p * 6.0 + t * 3.0), 80.0);
  }

  /**
    * The pipeline recommends PASS exactly when a thesis gate fired and no critical claim is contradicted:
    * the weak-axis rule can never fire, so thin evidence alone is never a PASS.
    */
  lemma PassIffGated(fold: string -> string, company: Thesis.Company, thesis: Option<Thesis.ThesisSpec>,
                     rows: seq<FounderRow>, claims: seq<Claim>)
    requires InRange(rows)
    ensures
      var fit := FitOf(fold, company, thesis);
      (Screen(rows, claims, fit).decision == Pass <==>
         fit.gate.Some? && !exists claim <- claims :: CriticallyContradicted(claim))
    ensures
      var fit := FitOf(fold, company, thesis);
      Screen(rows, claims, fit).rationale != WeakAxis && Screen(rows, claims, fit).rationale != AxesMissing
  {
    hide InRange, AxesOf, CriticallyContradicted, Least, Greatest, MeanConfidence;
    AxisFloors(rows, claims);
    Extremes(AxesOf(rows, claims));
    if thesis.Some? { Thesis.GateIffZero(fold, company, thesis.value); }
  }

  /** A contradicted critical claim always goes to a human, whatever the gates and axes say; nothing else carries that reason. */
  lemma ContradictionEscalates(rows: seq<FounderRow>, claims: seq<Claim>, fit: Thesis.ThesisFit)
    ensures Screen(rows, claims, fit) == Advice(NeedsHuman, CriticalContradiction)
      <==> exists claim <- claims :: CriticallyContradicted(claim)
  {
  }

  /** A claim on revenue, traction or the team stands contradicted. */
  ghost predicate CriticalClash(claims: seq<Claim>) {
    exists i :: 0 <= i < |claims| && claims[i].status == Contradicted
      && (claims[i].category == Revenue || claims[i].category == Traction || claims[i].category == Team)
  }

  lemma ClashIff(claims: seq<Claim>)
    ensures CriticalClash(claims) <==> exists claim <- claims :: CriticallyContradicted(claim)
  {
    forall i | 0 <= i < |claims|
      ensures CriticallyContradicted(claims[i]) <==>
        (claims[i].status == Contradicted
         && (claims[i].category == Revenue || claims[i].category == Traction || claims[i].category == Team))
    {
    }
    hide CriticallyContradicted;
    if claim :| claim in claims && CriticallyContradicted(claim) {
      var i :| 0 <= i < |claims| && claims[i] == claim;
    }
  }

  /**
    * What turns a candidate down, read off its company, its thesis and its claims: an excluded sector, no sector,
    * stage or place in common with the thesis, and no contradicted claim on revenue, traction or the team.
    */
  lemma TurnedDownIff(fold: string -> string, company: Thesis.Company, spec: Thesis.ThesisSpec,
                      rows: seq<FounderRow>, claims: seq<Claim>)
    requires InRange(rows)
    ensures Screen(rows, claims, FitOf(fold, company, Some(spec))).decision == Pass <==>
      && (|| ThesisGates.SectorExcluded(fold, company, spec)
          || ThesisGates.SectorForeign(fold, company, spec)
          || ThesisGates.StageForeign(fold, company, spec)
          || ThesisGates.PlaceForeign(fold, company, spec))
      && !CriticalClash(claims)
    ensures Screen(rows, claims, FitOf(fold, company, None)).decision != Pass
  {
    PassIffGated(fold, company, Some(spec), rows, claims);
    PassIffGated(fold, company, None, rows, claims);
    ThesisGates.GateReported(fold, company, spec);
    ClashIff(claims);
    hide Screen, InRange, CriticalClash, CriticallyContradicted, ThesisGates.SectorExcluded, ThesisGates.SectorForeign,
      ThesisGates.StageForeign, ThesisGates.PlaceForeign, Thesis.ComputeThesisFit;
  }

  /**
    * Naming a sector of a company as excluded, whatever else the thesis and the evidence say, makes the advice
    * PASS, or sends the candidate to a human when a claim on revenue, traction or the team is contradicted.
    */
  lemma ExcludedSectorAdvice(fold: string -> string, company: Thesis.Company, spec: Thesis.ThesisSpec, i: nat,
                             name: string, rows: seq<FounderRow>, claims: seq<Claim>)
    requires i < |company.sectors| && fold(name) == fold(company.sectors[i])
    ensures
      var stricter := spec.(antiSectors := spec.antiSectors + [name]);
      Screen(rows, claims, FitOf(fold, company, Some(stricter))) ==
        if CriticalClash(claims) then Advice(NeedsHuman, CriticalContradiction) else Advice(Pass, ThesisGate)
  {
    ThesisGates.ExcludingTurnsDown(fold, company, spec, i, name);
    ClashIff(claims);
    hide Thesis.ComputeThesisFit, AxesOf, CriticalClash, CriticallyContradicted;
  }

  // ---------------------------------------------------------------- more evidence

  lemma CountMonotone(more: seq<Claim>, k: nat, categories: set<ClaimCategory>)
    requires k < |more|
    ensures Count(Without(more, k), categories) <= Count(more, categories)
  {
    var keep := InCategories(categories);
    SelectWithout(keep, more, k);
    assert |multiset(Select(keep, more))| == |Select(keep, more)|;
    assert |multiset(Select(keep, Without(more, k)))| == |Select(keep, Without(more, k))|;
  }

  lemma MarketAxisMonotone(m: nat, t: nat, m': nat, t': nat)
    requires m <= m' && t <= t'
    ensures MarketAxisOf(m, t).score <= MarketAxisOf(m', t').score
    ensures MarketAxisOf(m, t).confidence <= MarketAxisOf(m', t').confidence
  {
    Round2Monotone(Min(80.0, 48.0 + m as real * 8.0 + t as real * 2.0), Min(80.0, 48.0 + m' as real * 8.0 + t' as real * 2.0));
    Round3Monotone(Min(0.75, 0.22 + m as real * 0.15), Min(0.75, 0.22 + m' as real * 0.15));
  }

  lemma IdeaAxisMonotone(p: nat, t: nat, p': nat, t': nat)
    requires p <= p' && t <= t'
    ensures IdeaAxisOf(p, t).score <= IdeaAxisOf(p', t').score
    ensures IdeaAxisOf(p, t).confidence <= IdeaAxisOf(p', t').confidence
  {
    Round2Monotone(Min(80.0, 50.0 + p as real * 6.0 + t as real * 3.0), Min(80.0, 50.0 + p' as real * 6.0 + t' as real * 3.0));
    Round3Monotone(Min(0.75, 0.25 + p as real * 0.12 + t as real * 0.08), Min(0.75, 0.25 + p' as real * 0.12 + t' as real * 0.08));
  }

  lemma AxesNoWorse(rows: seq<FounderRow>, more: seq<Claim>, k: nat)
    requires k < |more|
    ensures NoWorse(AxesOf(rows, Without(more, k)), AxesOf(rows, more))
  {
    hide FounderAxisOf, MarketAxisOf, IdeaAxisOf, Count;
    var fewer := Without(more, k);
    CountMonotone(more, k, {Market});
    CountMonotone(more, k, {Traction, Revenue});
    CountMonotone(more, k, {Product, Technology});
    MarketAxisMonotone(MarketCount(fewer), TractionCount(fewer), MarketCount(more), TractionCount(more));
    IdeaAxisMonotone(ProductCount(fewer), TractionCount(fewer), ProductCount(more), TractionCount(more));
  }

  lemma ContradictionsStay(more: seq<Claim>, k: nat)
    requires k < |more| && !CriticallyContradicted(more[k])
    ensures (exists claim <- more :: CriticallyContradicted(claim)) <==>
      exists claim <- Without(more, k) :: CriticallyContradicted(claim)
  {
    var fewer := Without(more, k);
    forall i | 0 <= i < |more| && i != k ensures more[i] in fewer {
      assert more[i] == fewer[if i < k then i else i - 1];
    }
    forall claim | claim in fewer ensures claim in more { }
  }

  /**
    * Adding a claim that is not a contradicted critical one, at any place in the list, lowers no axis score and
    * no confidence, and never turns an INVEST into anything else.
    */
  lemma MoreEvidenceNeverHurts(rows: seq<FounderRow>, more: seq<Claim>, k: nat, fit: Thesis.ThesisFit)
    requires k < |more| && !CriticallyContradicted(more[k])
    ensures NoWorse(AxesOf(rows, Without(more, k)), AxesOf(rows, more))
    ensures Screen(rows, Without(more, k), fit).decision == Invest ==> Screen(rows, more, fit).decision == Invest
  {
    var fewer := Without(more, k);
    AxesNoWorse(rows, more, k);
    ContradictionsStay(more, k);
    hide NoWorse, AxesOf, CriticallyContradicted, Recommend, InRange;
    var axes, better := AxesOf(rows, fewer), AxesOf(rows, more);
    if Screen(rows, fewer, fit).decision == Invest {
      InvestIsUpwardClosed(axes, better, fit.score, fit.score, axes[0].confidence < 0.4, better[0].confidence < 0.4);
    }
  }

  // ---------------------------------------------------------------- what INVEST takes

  lemma FounderBar(rows: seq<FounderRow>)
    ensures FounderAxisOf(rows).score >= 70.0 <==> rows != [] && Best(rows).score >= 650
  {
    if rows != [] {
      var s := Best(rows).score;
      assert 35.0 + (s - 300) as real / 600.0 * 60.0 == (500 + 10 * s) as real / 100.0;
      Round2Exact(500 + 10 * s);
    } else {
      Round2Exact(5000);
    }
  }

  lemma MarketBar(m: nat, t: nat)
    ensures MarketAxisOf(m, t).score >= 70.0 <==> 4 * m + t >= 11
  {
    HundredthsOfAxes(m, t, 0);
  }

  lemma IdeaBar(p: nat, t: nat)
    ensures IdeaAxisOf(p, t).score >= 70.0 <==> 2 * p + t >= 7
  {
    HundredthsOfAxes(0, t, p);
  }

  /** What market and idea claims add to the confidence, in thousandths. */
  function MarketTrust(m: nat): nat { if m <= 3 then 220 + 150 * m else 750 }

  function IdeaTrust(p: nat, t: nat): nat {
    if 250 + 120 * p + 80 * t <= 750 then 250 + 120 * p + 80 * t else 750
  }

  /** The mean confidence clears 0.55 (0.4) when founder, market and idea together clear 1.65 (1.2), counted out in claims. */
  lemma ConfidenceBars(rows: seq<FounderRow>, claims: seq<Claim>)
    ensures
      var m, t, p := MarketCount(claims), TractionCount(claims), ProductCount(claims);
      var founder := if rows == [] then 0.2 else Round3(Best(rows).confidence);
      var sum := founder + (MarketTrust(m) + IdeaTrust(p, t)) as real / 1000.0;
      && (MeanConfidence(AxesOf(rows, claims)) >= 0.55 <==> sum >= 1.65)
      && (MeanConfidence(AxesOf(rows, claims)) < 0.4 <==> sum < 1.2)
  {
    var m, t, p := MarketCount(claims), TractionCount(claims), ProductCount(claims);
    hide Count, Best, Round2, Round3;
    Round3Exact(MarketTrust(m));
    Round3Exact(IdeaTrust(p, t));
    assert MarketAxisOf(m, t).confidence == MarketTrust(m) as real / 1000.0;
    assert IdeaAxisOf(p, t).confidence == IdeaTrust(p, t) as real / 1000.0;
  }

  /** Of several rows with the highest score the first counts, with its confidence. */
  lemma {:induction false} BestIsFirst(rows: seq<FounderRow>)
    requires rows != []
    ensures exists i :: 0 <= i < |rows| && rows[i] == Best(rows) && forall j :: 0 <= j < i ==> rows[j].score < Best(rows).score
  {
    var n := |rows| - 1;
    if n > 0 {
      BestIsFirst(rows[..n]);
      var best := Best(rows[..n]);
      var i :| 0 <= i < n && rows[..n][i] == best && forall j :: 0 <= j < i ==> rows[..n][j].score < best.score;
      forall j | 0 <= j < n ensures rows[j] == rows[..n][j] && rows[j].score <= best.score {
        assert rows[..n][j] in rows[..n];
      }
      assert rows[if rows[n].score > best.score then n else i] == Best(rows);
    } else {
      assert rows[0] == Best(rows);
    }
  }

  /**
    * INVEST in terms of the evidence: a founder at 650 or above, market and product claims past their bars,
    * enough confidence, a fit of 65, and no contradicted critical claim. Cold start plays no part.
    */
  lemma InvestIff(rows: seq<FounderRow>, claims: seq<Claim>, fit: Thesis.ThesisFit)
    ensures
      var m, t, p := MarketCount(claims), TractionCount(claims), ProductCount(claims);
      Screen(rows, claims, fit).decision == Invest <==>
        && (!exists claim <- claims :: CriticallyContradicted(claim))
        && rows != [] && Best(rows).score >= 650
        && 4 * m + t >= 11
        && 2 * p + t >= 7
        && fit.score >= 65.0
        && MeanConfidence(AxesOf(rows, claims)) >= 0.55
  {
    hide FounderAxisOf, MarketAxisOf, IdeaAxisOf, Count, Best, CriticallyContradicted, MeanConfidence, Least, Greatest;
    var m, t, p := MarketCount(claims), TractionCount(claims), ProductCount(claims);
    FounderBar(rows);
    MarketBar(m, t);
    IdeaBar(p, t);
    var axes := AxesOf(rows, claims);
    Extremes(axes);
    assert (forall axis <- axes :: axis.score >= 70.0) <==>
      axes[0].score >= 70.0 && axes[1].score >= 70.0 && axes[2].score >= 70.0 by {
      assert axes[0] in axes && axes[1] in axes && axes[2] in axes;
    }
  }

  // ---------------------------------------------------------------- statuses do not count

  lemma {:induction false} CountByCategory(claims: seq<Claim>, other: seq<Claim>, categories: set<ClaimCategory>)
    requires |claims| == |other| && forall i :: 0 <= i < |claims| ==> claims[i].category == other[i].category
    ensures Count(claims, categories) == Count(other, categories)
  {
    if claims != [] { CountByCategory(claims[..|claims| - 1], other[..|other| - 1], categories); }
  }

  /**
    * The axes look at claims' categories only: giving every claim any other status changes none of them, and
    * changes the advice only by making or removing a critical contradiction.
    */
  lemma StatusesDoNotCount(rows: seq<FounderRow>, claims: seq<Claim>, other: seq<Claim>, fit: Thesis.ThesisFit)
    requires |claims| == |other| && forall i :: 0 <= i < |claims| ==> claims[i].category == other[i].category
    ensures AxesOf(rows, claims) == AxesOf(rows, other)
    ensures
      var before, after := exists c <- claims :: CriticallyContradicted(c), exists c <- other :: CriticallyContradicted(c);
      before == after ==> Screen(rows, claims, fit) == Screen(rows, other, fit)
  {
    hide Count, CriticallyContradicted, FounderAxisOf, MarketAxisOf, IdeaAxisOf, Recommend;
    CountByCategory(claims, other, {Market});
    CountByCategory(claims, other, {Traction, Revenue});
    CountByCategory(claims, other, {Product, Technology});
  }

  /**
    * Without a founder profile an ungated, uncontradicted candidate always goes to a human as too thin, with one
    * exception: five product claims and not one of market, traction or revenue read as axes that disagree.
    */
  lemma WithoutAFounder(claims: seq<Claim>, fit: Thesis.ThesisFit)
    requires fit.score != 0.0 && !exists claim <- claims :: CriticallyContradicted(claim)
    ensures
      var lopsided := MarketCount(claims) == 0 && TractionCount(claims) == 0 && ProductCount(claims) >= 5;
      Screen([], claims, fit) == if lopsided then Advice(Watchlist, AxesDisagree) else Advice(NeedsHuman, EvidenceThin)
  {
    hide Count;
    var m, t, p := MarketCount(claims), TractionCount(claims), ProductCount(claims);
    var axes := AxesOf([], claims);
    assert axes[0] == AxisValue(50.0, 0.20);
    HundredthsOfAxes(m, t, p);
    Extremes(axes);
    hide Least, Greatest, MarketAxisOf, IdeaAxisOf;
    var x, y := axes[1].score, axes[2].score;
    assert 48.0 <= x <= 80.0 && 50.0 <= y <= 80.0;
    assert axes[0] in axes && axes[0].score < 70.0;
    if m == 0 && t == 0 {
      assert x == 48.0;
      assert y > 78.0 <==> p >= 5;
      assert Least(axes) == 48.0 && Greatest(axes) == if y > 50.0 then y else 50.0;
    } else {
      assert x >= 50.0;
      assert Least(axes) == 50.0 && Greatest(axes) <= 80.0;
    }
  }

  /** The axes in hundredths: what each founder score and each claim is worth. */
  function FounderPoints(rows: seq<FounderRow>): int {
    if rows == [] then 5000 else 500 + 10 * Best(rows).score
  }

  function MarketPoints(m: nat, t: nat): int {
    if 4800 + 800 * m + 200 * t <= 8000 then 4800 + 800 * m + 200 * t else 8000
  }

  function IdeaPoints(p: nat, t: nat): int {
    if 5000 + 600 * p + 300 * t <= 8000 then 5000 + 600 * p + 300 * t else 8000
  }

  /** Two of the three axes lie more than thirty points apart. */
  predicate FarApart(x: int, y: int, z: int) {
    x - y > 3000 || y - x > 3000 || x - z > 3000 || z - x > 3000 || y - z > 3000 || z - y > 3000
  }

  /**
    * The advice to an ungated, uncontradicted candidate that is not INVEST, counted out from scores and claims:
    * two axes more than thirty points apart are watched as a disagreement; otherwise a mean confidence below 0.4,
    * or a founder's below 0.4, sends the candidate to a human, and anything else is watched.
    */
  lemma ShortOfInvest(rows: seq<FounderRow>, claims: seq<Claim>, fit: Thesis.ThesisFit)
    requires InRange(rows) && fit.score != 0.0 && !CriticalClash(claims)
    requires Screen(rows, claims, fit).decision != Invest
    ensures
      var m, t, p := MarketCount(claims), TractionCount(claims), ProductCount(claims);
      var founder := if rows == [] then 0.2 else Round3(Best(rows).confidence);
      Screen(rows, claims, fit) ==
        if FarApart(FounderPoints(rows), MarketPoints(m, t), IdeaPoints(p, t)) then Advice(Watchlist, AxesDisagree)
        else if founder < 0.4 || MeanConfidence(AxesOf(rows, claims)) < 0.4 then Advice(NeedsHuman, EvidenceThin)
        else Advice(Watchlist, NotEnough)
  {
    var m, t, p := MarketCount(claims), TractionCount(claims), ProductCount(claims);
    ClashIff(claims);
    AxisFloors(rows, claims);
    PointsOfAxes(rows, claims);
    var axes := AxesOf(rows, claims);
    Extremes(axes);
    hide Count, Best, CriticallyContradicted, CriticalClash, MeanConfidence, Least, Greatest, MarketPoints, IdeaPoints,
      FounderPoints, InRange, MarketAxisOf, IdeaAxisOf;
  }

  lemma PointsOfAxes(rows: seq<FounderRow>, claims: seq<Claim>)
    ensures
      var axes := AxesOf(rows, claims);
      && axes[0].score == FounderPoints(rows) as real / 100.0
      && axes[1].score == MarketPoints(MarketCount(claims), TractionCount(claims)) as real / 100.0
      && axes[2].score == IdeaPoints(ProductCount(claims), TractionCount(claims)) as real / 100.0
  {
    var m, t, p := MarketCount(claims), TractionCount(claims), ProductCount(claims);
    hide Count, Best;
    HundredthsOfAxes(m, t, p);
    if rows != [] {
      var s := Best(rows).score;
      assert 35.0 + (s - 300) as real / 600.0 * 60.0 == (500 + 10 * s) as real / 100.0;
    }
    Round2Exact(FounderPoints(rows));
  }

  lemma HundredthsOfAxes(m: nat, t: nat, p: nat)
    ensures
      var k := 4800 + 800 * m + 200 * t;
      MarketAxisOf(m, t).score == (if k <= 8000 then k else 8000) as real / 100.0
    ensures
      var k := 5000 + 600 * p + 300 * t;
      IdeaAxisOf(p, t).score == (if k <= 8000 then k else 8000) as real / 100.0
  {
    var k, l := 4800 + 800 * m + 200 * t, 5000 + 600 * p + 300 * t;
    Round2Exact(if k <= 8000 then k else 8000);
    Round2Exact(if l <= 8000 then l else 8000);
    assert 48.0 + m as real * 8.0 + t as real * 2.0 == k as real / 100.0;
    assert 50.0 + p as real * 6.0 + t as real * 3.0 == l as real / 100.0;
  }

  // ---------------------------------------------------------------- a first screening from a deck

  /** What the extractor hands over for one matched line (or for the product summary). */
  datatype Extracted = Extracted(category: ClaimCategory, confidence: real, unverifiable: bool)

  /** The claim row the pipeline writes for it: one item of evidence, the deck itself. */
  ghost function DeckClaim(exp: real -> real, item: Extracted, document: string, ageDays: int): Claim {
    var score := Trust.TrustScore(exp, SelfReported, item.category, [Trust.Evidence(0.4, document)],
      Some(ageDays), item.confidence, false, false);
    Claim(item.category, if item.unverifiable then Unverifiable else Trust.StatusOf(score, false))
  }

  ghost function DeckClaims(exp: real -> real, items: seq<Extracted>, document: string, ageDays: int): seq<Claim> {
    seq(|items|, i requires 0 <= i < |items| => DeckClaim(exp, items[i], document, ageDays))
  }

  /**
    * A first screening from a deck alone: every claim it extracts is UNVERIFIABLE, so the job never escalates
    * for a contradiction, and it recommends PASS exactly when a thesis gate fired.
    */
  lemma DeckScreening(exp: real -> real, items: seq<Extracted>, document: string, ageDays: int,
                      fold: string -> string, company: Thesis.Company, thesis: Option<Thesis.ThesisSpec>,
                      rows: seq<FounderRow>)
    requires Analysis.ExpLike(exp) && InRange(rows)
    requires forall item <- items :: item.confidence <= 0.82
    ensures
      var claims := DeckClaims(exp, items, document, ageDays);
      var fit := FitOf(fold, company, thesis);
      && (forall claim <- claims :: claim.status == Unverifiable)
      && Screen(rows, claims, fit).rationale != CriticalContradiction
      && (Screen(rows, claims, fit).decision == Pass <==> fit.gate.Some?)
  {
    var claims := DeckClaims(exp, items, document, ageDays);
    forall i | 0 <= i < |claims| ensures claims[i].status == Unverifiable {
      Trust.DeckClaimsStayUnverifiable(exp, items[i].category, document, Some(ageDays), items[i].confidence);
    }
    PassIffGated(fold, company, thesis, rows, claims);
    ContradictionEscalates(rows, claims, FitOf(fold, company, thesis));
  }
}
