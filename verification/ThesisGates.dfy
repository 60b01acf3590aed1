/** When a thesis turns a company down, and what a company it does not turn down loses, read off the two records. */
module ThesisGates {
  import opened Prelude
  import opened Rounding
  import opened Products
  import opened Text
  import opened Thesis

  /** Some item of one list and some item of the other fold to one text. */
  ghost predicate Meet(fold: string -> string, xs: seq<string>, ys: seq<string>) {
    exists i, j :: 0 <= i < |xs| && 0 <= j < |ys| && fold(xs[i]) == fold(ys[j])
  }

  ghost predicate Named(fold: string -> string, folded: string, ys: seq<string>) {
    exists j :: 0 <= j < |ys| && fold(ys[j]) == folded
  }

  /** A sector of the company is one the thesis excludes. */
  ghost predicate SectorExcluded(fold: string -> string, company: Company, thesis: ThesisSpec) {
    Meet(fold, company.sectors, thesis.antiSectors)
  }

  /** The thesis names sectors, the company has some, and they have none in common. */
  ghost predicate SectorForeign(fold: string -> string, company: Company, thesis: ThesisSpec) {
    |thesis.sectors| > 0 && |company.sectors| > 0 && !Meet(fold, company.sectors, thesis.sectors)
  }

  /** The company gives a stage and the thesis names stages, but not that one. */
  ghost predicate StageForeign(fold: string -> string, company: Company, thesis: ThesisSpec) {
    && |thesis.stages| > 0
    && company.stage.Some? && |company.stage.value| > 0
    && !Named(fold, fold(company.stage.value), thesis.stages)
  }

  /** The company gives a country and the thesis names places, but not that one. */
  ghost predicate PlaceUnnamed(fold: string -> string, company: Company, thesis: ThesisSpec) {
    && |thesis.geos| > 0
    && company.country.Some? && |company.country.value| > 0
    && !Named(fold, fold(company.country.value), thesis.geos)
  }

  /** Nor does it name remote work as a place. */
  ghost predicate PlaceForeign(fold: string -> string, company: Company, thesis: ThesisSpec) {
    PlaceUnnamed(fold, company, thesis) && !Named(fold, "remote", thesis.geos)
  }

  lemma MeetIff(fold: string -> string, xs: seq<string>, ys: seq<string>)
    ensures Meet(fold, xs, ys) <==> FoldAll(fold, xs) * FoldAll(fold, ys) != {}
  {
    if Meet(fold, xs, ys) {
      var i, j :| 0 <= i < |xs| && 0 <= j < |ys| && fold(xs[i]) == fold(ys[j]);
      assert fold(xs[i]) in FoldAll(fold, xs) * FoldAll(fold, ys);
    }
    if x :| x in FoldAll(fold, xs) * FoldAll(fold, ys) {
      var i :| 0 <= i < |xs| && fold(xs[i]) == x;
      var j :| 0 <= j < |ys| && fold(ys[j]) == x;
    }
  }

  lemma NamedIff(fold: string -> string, folded: string, ys: seq<string>)
    ensures Named(fold, folded, ys) <==> folded in FoldAll(fold, ys)
  {
    if folded in FoldAll(fold, ys) {
      var j :| 0 <= j < |ys| && fold(ys[j]) == folded;
    }
  }

  lemma SomeFolds(fold: string -> string, xs: seq<string>)
    ensures FoldAll(fold, xs) == {} <==> xs == []
  {
    if xs != [] { assert fold(xs[0]) in FoldAll(fold, xs); }
  }

  /** The gate a thesis reports, in the order of the source: the excluded sector first, the place last. */
  lemma GateReported(fold: string -> string, company: Company, thesis: ThesisSpec)
    ensures ComputeThesisFit(fold, company, thesis).gate ==
      if SectorExcluded(fold, company, thesis) then Some(ExcludedSector)
      else if SectorForeign(fold, company, thesis) then Some(OutsideSectors)
      else if StageForeign(fold, company, thesis) then Some(OutsideStage)
      else if PlaceForeign(fold, company, thesis) then Some(OutsideGeography)
      else None
  {
    MeetIff(fold, company.sectors, thesis.antiSectors);
    MeetIff(fold, company.sectors, thesis.sectors);
    SomeFolds(fold, company.sectors);
    if company.stage.Some? { NamedIff(fold, fold(company.stage.value), thesis.stages); }
    if company.country.Some? { NamedIff(fold, fold(company.country.value), thesis.geos); }
    NamedIff(fold, "remote", thesis.geos);
    hide FoldAll, Meet, Named, Cover, SectorMatch, StageMatch, GeoMatch, Ratio, Round2;
  }

  /** A company fits zero exactly when one of the four conditions holds. */
  lemma ZeroIff(fold: string -> string, company: Company, thesis: ThesisSpec)
    ensures ComputeThesisFit(fold, company, thesis).score == 0.0 <==>
      || SectorExcluded(fold, company, thesis)
      || SectorForeign(fold, company, thesis)
      || StageForeign(fold, company, thesis)
      || PlaceForeign(fold, company, thesis)
  {
    hide *;
    GateReported(fold, company, thesis);
    GateIffZero(fold, company, thesis);
  }

  /** Naming a sector of a company as excluded, in whatever spelling, turns it down whatever else the thesis says. */
  lemma ExcludingTurnsDown(fold: string -> string, company: Company, thesis: ThesisSpec, i: nat, name: string)
    requires i < |company.sectors| && fold(name) == fold(company.sectors[i])
    ensures
      var stricter := thesis.(antiSectors := thesis.antiSectors + [name]);
      ComputeThesisFit(fold, company, stricter) == ThesisFit(0.0, Some(ExcludedSector), [])
  {
    var stricter := thesis.(antiSectors := thesis.antiSectors + [name]);
    assert stricter.antiSectors[|thesis.antiSectors|] == name;
    assert SectorExcluded(fold, company, stricter);
    GateReported(fold, company, stricter);
    hide GateOf, Cover, SectorMatch, StageMatch, GeoMatch, Ratio, Round2;
  }

  // ---------------------------------------------------------------- what an ungated company loses

  /** The must-haves left open. */
  ghost function Unmet(coverage: seq<Coverage>): set<nat> {
    set i | 0 <= i < |coverage| && !coverage[i].satisfied
  }

  lemma {:induction false} SatisfiedCounts(coverage: seq<Coverage>)
    ensures Satisfied(coverage) + |Unmet(coverage)| == |coverage|
  {
    if coverage != [] {
      var n := |coverage| - 1;
      var rest := coverage[..n];
      SatisfiedCounts(rest);
      assert Unmet(coverage) == Unmet(rest) + if coverage[n].satisfied then {} else {n};
    }
  }

  ghost function UnmetShare(coverage: seq<Coverage>): real {
    if |coverage| == 0 then 0.0 else Quotient(|Unmet(coverage)| as real, |coverage| as real)
  }

  lemma RatioLeaves(coverage: seq<Coverage>)
    ensures Ratio(coverage) == 1.0 - UnmetShare(coverage)
  {
    SatisfiedCounts(coverage);
    hide Unmet, Satisfied;
    if coverage != [] {
      var n := |coverage| as real;
      QuotientComplement(Satisfied(coverage) as real, |Unmet(coverage)| as real, n);
    }
  }

  lemma QuotientComplement(a: real, b: real, n: real)
    requires n > 0.0 && a + b == n
    ensures Quotient(a, n) == 1.0 - Quotient(b, n)
  {
    var q := Quotient(b, n);
    assert q * n == b;
    assert Times(1.0 - q, n) == n - q * n;
    QuotientBetween(1.0 - q, a, n, 1.0 - q);
  }

  lemma MatchesAre(fold: string -> string, company: Company, thesis: ThesisSpec)
    requires ComputeThesisFit(fold, company, thesis).gate.None?
    ensures SectorMatch(fold, company, thesis) == if |thesis.sectors| > 0 && |company.sectors| == 0 then 0.5 else 1.0
    ensures GeoMatch(fold, company, thesis) == if PlaceUnnamed(fold, company, thesis) then 0.5 else 1.0
  {
    GateReported(fold, company, thesis);
    MeetIff(fold, company.sectors, thesis.sectors);
    SomeFolds(fold, company.sectors);
    if company.country.Some? { NamedIff(fold, fold(company.country.value), thesis.geos); }
    hide FoldAll, Meet, Named, ComputeThesisFit, StageForeign;
  }

  /**
    * A company no gate turned down starts from 100 and loses 20 points when the thesis names sectors and it has
    * none, 7.5 when only remote work let its country pass, and 20 in proportion to the must-haves left open.
    */
  lemma UngatedFit(fold: string -> string, company: Company, thesis: ThesisSpec)
    requires ComputeThesisFit(fold, company, thesis).gate.None?
    ensures
      var fit := ComputeThesisFit(fold, company, thesis);
      fit.score == Round2(100.0
        - (if |thesis.sectors| > 0 && |company.sectors| == 0 then 20.0 else 0.0)
        - (if PlaceUnnamed(fold, company, thesis) then 7.5 else 0.0)
        - 20.0 * UnmetShare(fit.coverage))
  {
    var fit := ComputeThesisFit(fold, company, thesis);
    MatchesAre(fold, company, thesis);
    GateIffZero(fold, company, thesis);
    RatioLeaves(fit.coverage);
    FitIs(fold, company, thesis);
    hide *;
    FitArithmetic(SectorMatch(fold, company, thesis), GeoMatch(fold, company, thesis), UnmetShare(fit.coverage));
  }

  lemma FitIs(fold: string -> string, company: Company, thesis: ThesisSpec)
    requires ComputeThesisFit(fold, company, thesis).gate.None?
    ensures
      var fit := ComputeThesisFit(fold, company, thesis);
      fit.score == Round2(100.0 * (0.4 * SectorMatch(fold, company, thesis) + 0.25 * StageMatch(fold, company, thesis)
        + 0.15 * GeoMatch(fold, company, thesis) + 0.2 * Ratio(fit.coverage)))
  {
    hide GateOf, SectorMatch, StageMatch, GeoMatch, Cover, Ratio, Round2;
  }

  lemma FitArithmetic(sector: real, place: real, unmet: real)
    ensures 100.0 * (0.4 * sector + 0.25 * 1.0 + 0.15 * place + 0.2 * (1.0 - unmet))
         == 100.0 - 40.0 * (1.0 - sector) - 15.0 * (1.0 - place) - 20.0 * unmet
  {
  }

  /** The coverage of an ungated company, rule by rule: satisfied when the first three words of the rule all occur. */
  lemma CoverageIs(fold: string -> string, company: Company, thesis: ThesisSpec, i: nat)
    requires ComputeThesisFit(fold, company, thesis).gate.None? && i < |thesis.mustHaves|
    ensures
      var coverage := ComputeThesisFit(fold, company, thesis).coverage;
      && |coverage| == |thesis.mustHaves|
      && coverage[i].rule == thesis.mustHaves[i]
      && var words := Words(fold(thesis.mustHaves[i]));
         (coverage[i].satisfied <==>
           forall k :: 0 <= k < |words| && k < 3 ==> Contains(fold(company.text), words[k]))
  {
    var words := Words(fold(thesis.mustHaves[i]));
    var tokens := words[..if |words| < 3 then |words| else 3];
    hide Words, Contains, GateOf, Round2;
    forall k | 0 <= k < |words| && k < 3 ensures words[k] in tokens { assert tokens[k] == words[k]; }
  }

  // ---------------------------------------------------------------- words

  ghost predicate Unbroken(text: string) {
    forall i :: 0 <= i < |text| ==> !IsSpace(text[i])
  }

  lemma {:induction false} WordsRead(word: string, read: string, rest: string)
    requires Unbroken(word)
    ensures WordsFrom(word + rest, read) == WordsFrom(rest, read + word)
  {
    if word == "" {
      assert word + rest == rest && read + word == read;
    } else {
      var text := word + rest;
      assert text[0] == word[0] && text[1..] == word[1..] + rest;
      WordsRead(word[1..], read + [word[0]], rest);
      assert read + [word[0]] + word[1..] == read + word;
    }
  }

  /** Splitting, from the front: blanks are skipped, and a word runs up to the next blank or the end. */
  lemma WordsAre(word: string, blank: char, rest: string)
    requires |word| > 0 && Unbroken(word) && IsSpace(blank)
    ensures Words("") == []
    ensures Words(word) == [word]
    ensures Words([blank] + rest) == Words(rest)
    ensures Words(word + [blank] + rest) == [word] + Words(rest)
  {
    hide IsSpace;
    WordsRead(word, "", "");
    assert word + "" == word && "" + word == word;
    assert ([blank] + rest)[1..] == rest;
    WordsRead(word, "", [blank] + rest);
    assert word + [blank] + rest == word + ([blank] + rest);
  }
}
