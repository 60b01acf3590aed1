/** Thesis fit: four hard gates, then a weighted match. */
module Thesis {
  import opened Prelude
  import opened Rounding
  import opened Products
  import opened Text

  datatype Gate = ExcludedSector | OutsideSectors | OutsideStage | OutsideGeography

  datatype Coverage = Coverage(rule: string, satisfied: bool)

  datatype ThesisFit = ThesisFit(score: real, gate: Option<Gate>, coverage: seq<Coverage>)

  datatype Company = Company(sectors: seq<string>, stage: Option<string>, country: Option<string>, text: string)

  datatype ThesisSpec = ThesisSpec(
    sectors: seq<string>, antiSectors: seq<string>, stages: seq<string>, geos: seq<string>, mustHaves: seq<string>)

  function FoldAll(fold: string -> string, items: seq<string>): set<string> {
    set item <- items :: fold(item)
  }

  /** An empty string counts as missing, as the source's truth test has it. */
  predicate Present(value: Option<string>) {
    value.Some? && value.value != ""
  }

  /** The first gate that fires, in the source's order. */
  function GateOf(fold: string -> string, company: Company, thesis: ThesisSpec): Option<Gate> {
    var sectors := FoldAll(fold, company.sectors);
    if sectors * FoldAll(fold, thesis.antiSectors) != {} then Some(ExcludedSector)
    else if thesis.sectors != [] && sectors != {} && sectors * FoldAll(fold, thesis.sectors) == {} then Some(OutsideSectors)
    else if thesis.stages != [] && Present(company.stage)
         && fold(company.stage.value) !in FoldAll(fold, thesis.stages) then Some(OutsideStage)
    else if thesis.geos != [] && Present(company.country)
         && fold(company.country.value) !in FoldAll(fold, thesis.geos)
         && "remote" !in FoldAll(fold, thesis.geos) then Some(OutsideGeography)
    else None
  }

  /** `str.isspace()` of one character. */
  predicate IsSpace(c: char) {
    c in " \t\n\U{0B}\U{0C}\r\U{1C}\U{1D}\U{1E}\U{1F}\U{85}\U{A0}\U{1680}\U{2028}\U{2029}\U{202F}\U{205F}\U{3000}"
    || '\U{2000}' <= c <= '\U{200A}'
  }

  /** `str.split()`. */
  function Words(text: string): seq<string> {
    WordsFrom(text, "")
  }

  function WordsFrom(text: string, word: string): seq<string> {
    if text == "" then (if word == "" then [] else [word])
    else if IsSpace(text[0]) then (if word == "" then [] else [word]) + WordsFrom(text[1..], "")
    else WordsFrom(text[1..], word + [text[0]])
  }

  /** A must-have holds when its first three words all occur in the company text. */
  predicate RuleHolds(fold: string -> string, rule: string, text: string) {
    var words := Words(fold(rule));
    var tokens := words[..if |words| < 3 then |words| else 3];
    forall token <- tokens :: Contains(fold(text), token)
  }

  function Cover(fold: string -> string, rules: seq<string>, text: string): (coverage: seq<Coverage>)
    ensures |coverage| == |rules|
  {
    seq(|rules|, i requires 0 <= i < |rules| => Coverage(rules[i], RuleHolds(fold, rules[i], text)))
  }

  function Satisfied(coverage: seq<Coverage>): (n: nat)
    ensures n <= |coverage|
  {
    if coverage == [] then 0
    else Satisfied(coverage[..|coverage| - 1]) + if coverage[|coverage| - 1].satisfied then 1 else 0
  }

  function Ratio(coverage: seq<Coverage>): (r: real)
    ensures 0.0 <= r <= 1.0
  {
    if coverage == [] then 1.0
    else
      QuotientBetween(0.0, Satisfied(coverage) as real, |coverage| as real, 1.0);
      Quotient(Satisfied(coverage) as real, |coverage| as real)
  }

  function SectorMatch(fold: string -> string, company: Company, thesis: ThesisSpec): real {
    if thesis.sectors == [] || FoldAll(fold, company.sectors) * FoldAll(fold, thesis.sectors) != {} then 1.0 else 0.5
  }

  function StageMatch(fold: string -> string, company: Company, thesis: ThesisSpec): real {
    if thesis.stages == [] || !Present(company.stage) || fold(company.stage.value) in FoldAll(fold, thesis.stages)
    then 1.0 else 0.5
  }

  function GeoMatch(fold: string -> string, company: Company, thesis: ThesisSpec): real {
    if thesis.geos == [] || !Present(company.country) || fold(company.country.value) in FoldAll(fold, thesis.geos)
    then 1.0 else 0.5
  }

  function ComputeThesisFit(fold: string -> string, company: Company, thesis: ThesisSpec): ThesisFit {
    var gate := GateOf(fold, company, thesis);
    if gate.Some? then ThesisFit(0.0, gate, [])
    else
      var coverage := Cover(fold, thesis.mustHaves, company.text);
      ThesisFit(
        Round2(100.0 * (0.4 * SectorMatch(fold, company, thesis) + 0.25 * StageMatch(fold, company, thesis)
                        + 0.15 * GeoMatch(fold, company, thesis) + 0.2 * Ratio(coverage))),
        None,
        coverage)
  }

  /**
    * A fit of zero means a gate fired and nothing else: an ungated company fits between 52.5 and 100,
    * because a stage that does not match is always gated before it can be scored at a half.
    */
  lemma GateIffZero(fold: string -> string, company: Company, thesis: ThesisSpec)
    ensures
      var fit := ComputeThesisFit(fold, company, thesis);
      && (fit.score == 0.0 <==> fit.gate.Some?)
      && (fit.gate.None? ==> 52.5 <= fit.score <= 100.0)
      && (fit.gate.None? ==> StageMatch(fold, company, thesis) == 1.0)
  {
    var fit := ComputeThesisFit(fold, company, thesis);
    if fit.gate.None? {
      assert StageMatch(fold, company, thesis) == 1.0;
      var raw := 100.0 * (0.4 * SectorMatch(fold, company, thesis) + 0.25 + 0.15 * GeoMatch(fold, company, thesis)
                          + 0.2 * Ratio(fit.coverage));
      Round2Monotone(52.5, raw);
      Round2Monotone(raw, 100.0);
      Round2Exact(5250);
      Round2Exact(10000);
    }
  }

  /** The upper end is met by a company a thesis asks nothing of. */
  lemma BestFitIsMet(fold: string -> string)
    ensures ComputeThesisFit(fold, Company([], None, None, ""), ThesisSpec([], [], [], [], [])).score == 100.0
  {
    Round2Exact(10000);
    assert Cover(fold, [], "") == [];
  }

  lemma OneUnmetRule(fold: string -> string)
    requires fold("x") == "x" && fold("") == ""
    ensures Cover(fold, ["x"], "") == [Coverage("x", false)] && Ratio(Cover(fold, ["x"], "")) == 0.0
  {
    assert Words("x") == ["x"] by {
      assert "x"[1..] == "" && "" + ['x'] == "x";
      assert WordsFrom("", "x") == ["x"];
    }
    var tokens := ["x"];
    assert Words(fold("x"))[..1] == tokens;
    assert tokens[0] == "x" && !Contains("", "x");
    assert !RuleHolds(fold, "x", "");
    var coverage := Cover(fold, ["x"], "");
    assert coverage == [Coverage("x", false)];
    assert coverage[..0] == [] && Satisfied(coverage) == 0;
  }

  /** The lower end is met: an ungated company that matches no sector, no place and no must-have. */
  lemma LeastFitIsMet(fold: string -> string)
    requires fold("x") == "x" && fold("DE") == "de" && fold("FR") == "fr" && fold("remote") == "remote" && fold("") == ""
    ensures
      var least := ComputeThesisFit(fold, Company([], None, Some("FR"), ""),
        ThesisSpec(["x"], [], [], ["DE", "remote"], ["x"]));
      least.gate.None? && least.score == 52.5
  {
    OneUnmetRule(fold);
    hide Cover, Ratio, RuleHolds;
    assert FoldAll(fold, []) == {};
    assert FoldAll(fold, ["DE", "remote"]) == {"de", "remote"};
    Round2Exact(5250);
  }

  lemma {:induction false} SatisfiedMonotone(s: seq<Coverage>, t: seq<Coverage>)
    requires |s| == |t|
    requires forall i :: 0 <= i < |s| ==> s[i].satisfied ==> t[i].satisfied
    ensures Satisfied(s) <= Satisfied(t)
  {
    if s != [] { SatisfiedMonotone(s[..|s| - 1], t[..|t| - 1]); }
  }

  lemma SameButText(fold: string -> string, company: Company, text: string, thesis: ThesisSpec)
    ensures
      var other := company.(text := text);
      && GateOf(fold, other, thesis) == GateOf(fold, company, thesis)
      && SectorMatch(fold, other, thesis) == SectorMatch(fold, company, thesis)
      && StageMatch(fold, other, thesis) == StageMatch(fold, company, thesis)
      && GeoMatch(fold, other, thesis) == GeoMatch(fold, company, thesis)
  {
  }

  /** A text that keeps every must-have it satisfied never fits less. */
  lemma MoreCoverageNeverFitsLess(fold: string -> string, company: Company, text: string, thesis: ThesisSpec)
    requires forall rule <- thesis.mustHaves :: RuleHolds(fold, rule, company.text) ==> RuleHolds(fold, rule, text)
    ensures ComputeThesisFit(fold, company, thesis).score <= ComputeThesisFit(fold, company.(text := text), thesis).score
  {
    var s, t := Cover(fold, thesis.mustHaves, company.text), Cover(fold, thesis.mustHaves, text);
    SatisfiedMonotone(s, t);
    SameButText(fold, company, text, thesis);
    hide Cover, RuleHolds, GateOf, SectorMatch, StageMatch, GeoMatch, Satisfied, Round2;
    if thesis.mustHaves != [] {
      QuotientMonotone(Satisfied(s) as real, Satisfied(t) as real, |s| as real);
    }
    var base := 0.4 * SectorMatch(fold, company, thesis) + 0.25 * StageMatch(fold, company, thesis)
      + 0.15 * GeoMatch(fold, company, thesis);
    Round2Monotone(100.0 * (base + 0.2 * Ratio(s)), 100.0 * (base + 0.2 * Ratio(t)));
  }
}
