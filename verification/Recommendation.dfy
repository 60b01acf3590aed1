/** The decision table over three independent axes. */
module Recommendation {
  import opened Domain

  datatype AxisValue = AxisValue(score: real, confidence: real)

  datatype Rationale =
    | AxesMissing | CriticalContradiction | ThesisGate | WeakAxis | BarCleared | AxesDisagree | EvidenceThin | NotEnough

  datatype Advice = Advice(decision: DecisionKind, rationale: Rationale)

  function Least(axes: seq<AxisValue>): real
    requires axes != []
  {
    if |axes| == 1 then axes[0].score
    else
      var rest := Least(axes[1..]);
      if axes[0].score <= rest then axes[0].score else rest
  }

  function Greatest(axes: seq<AxisValue>): real
    requires axes != []
  {
    if |axes| == 1 then axes[0].score
    else
      var rest := Greatest(axes[1..]);
      if axes[0].score >= rest then axes[0].score else rest
  }

  function MeanConfidence(axes: seq<AxisValue>): real
    requires |axes| == 3
  {
    (axes[0].confidence + axes[1].confidence + axes[2].confidence) / 3.0
  }

  function Recommend(axes: seq<AxisValue>, thesisFit: real, contradictedCritical: bool, coldStart: bool): Advice {
    if |axes| != 3 then Advice(NeedsHuman, AxesMissing)
    else if contradictedCritical then Advice(NeedsHuman, CriticalContradiction)
    else if thesisFit == 0.0 then Advice(Pass, ThesisGate)
    else if Least(axes) < 25.0 then Advice(Pass, WeakAxis)
    else if (forall axis <- axes :: axis.score >= 70.0) && thesisFit >= 65.0 && MeanConfidence(axes) >= 0.55 then
      Advice(Invest, BarCleared)
    else if Greatest(axes) - Least(axes) > 30.0 then Advice(Watchlist, AxesDisagree)
    else if MeanConfidence(axes) < 0.40 || coldStart then Advice(NeedsHuman, EvidenceThin)
    else Advice(Watchlist, NotEnough)
  }

  lemma Extremes(axes: seq<AxisValue>)
    requires |axes| == 3
    ensures forall i :: 0 <= i < 3 ==> Least(axes) <= axes[i].score <= Greatest(axes)
    ensures exists i :: 0 <= i < 3 && axes[i].score == Least(axes)
    ensures exists i :: 0 <= i < 3 && axes[i].score == Greatest(axes)
  {
    var b, c := axes[1..], axes[1..][1..];
    assert |c| == 1 && c[0] == axes[2] && b[0] == axes[1];
    assert Least(b) == if b[0].score <= Least(c) then b[0].score else Least(c);
    assert Greatest(b) == if b[0].score >= Greatest(c) then b[0].score else Greatest(c);
  }

  /** Better axes: no score and no confidence is lower. */
  ghost predicate NoWorse(axes: seq<AxisValue>, better: seq<AxisValue>) {
    && |axes| == |better|
    && forall i :: 0 <= i < |axes| ==> axes[i].score <= better[i].score && axes[i].confidence <= better[i].confidence
  }

  /** INVEST survives better axes, a better fit and any cold-start flag. */
  lemma InvestIsUpwardClosed(axes: seq<AxisValue>, better: seq<AxisValue>, fit: real, betterFit: real,
                             coldStart: bool, otherColdStart: bool)
    requires NoWorse(axes, better) && fit <= betterFit
    requires Recommend(axes, fit, false, coldStart).decision == Invest
    ensures Recommend(better, betterFit, false, otherColdStart).decision == Invest
  {
    Extremes(axes);
    Extremes(better);
    forall axis | axis in better ensures axis.score >= 70.0 {
      var i :| 0 <= i < |better| && better[i] == axis;
      assert axes[i] in axes;
    }
  }

  /** A weak axis is one below 25, and it decides only when nothing before it does. */
  lemma WeakAxisIff(axes: seq<AxisValue>, fit: real, contradicted: bool, coldStart: bool)
    ensures Recommend(axes, fit, contradicted, coldStart).rationale == WeakAxis <==>
      |axes| == 3 && !contradicted && fit != 0.0 && exists i :: 0 <= i < |axes| && axes[i].score < 25.0
  {
    if |axes| == 3 { Extremes(axes); }
  }
}
